/** The result collector: buffering responses, pairing them, and turning every pair into issues. */
module Collector {
  import opened TaskQueue
  import opened Anomaly
  import Evidence

  predicate IsReference(r: Response, refRole: string) { Lower(OrEmpty(r.role)) == Lower(refRole) }

  function References(rs: seq<Response>, refRole: string): seq<Response> {
    if rs == [] then [] else
    References(rs[..|rs| - 1], refRole) + if IsReference(rs[|rs| - 1], refRole) then [rs[|rs| - 1]] else []
  }

  function NotIn(rs: seq<Response>, refs: seq<Response>): seq<Response> {
    if rs == [] then [] else
    NotIn(rs[..|rs| - 1], refs) + if rs[|rs| - 1] in refs then [] else [rs[|rs| - 1]]
  }

  type Pair = (Response, Response)

  /** A pair is compared when user or role differ. */
  predicate Differ(x: Response, y: Response) { x.user != y.user || x.role != y.role }

  function PairsWith(x: Response, others: seq<Response>): seq<Pair> {
    if others == [] then [] else
    var y := others[|others| - 1];
    PairsWith(x, others[..|others| - 1]) + if Differ(x, y) then [(x, y)] else []
  }

  function Product(refs: seq<Response>, others: seq<Response>): seq<Pair> {
    if refs == [] then [] else Product(refs[..|refs| - 1], others) + PairsWith(refs[|refs| - 1], others)
  }

  function PairsOf(rs: seq<Response>, refRole: string): seq<Pair> {
    var refs := References(rs, refRole);
    if refs != [] then Product(refs, NotIn(rs, refs))
    else if |rs| < 2 then []
    else Product([rs[0]], rs[1..])
  }

  /** The pairs of all buffered endpoints, in order of first response. */
  function AllPairs(keys: seq<string>, buffer: map<string, seq<Response>>, refRole: string): seq<Pair>
    requires forall k :: k in keys ==> k in buffer
  {
    if keys == [] then [] else
    var rs := buffer[keys[|keys| - 1]];
    AllPairs(keys[..|keys| - 1], buffer, refRole) + if |rs| < 2 then [] else PairsOf(rs, refRole)
  }

  ghost predicate DiffsOf(o: Oracle, threshold: real, pairs: seq<Pair>, ds: seq<DiffResult>) {
    |ds| == |pairs| && forall i :: 0 <= i < |pairs| ==> IsDiffOf(o, threshold, pairs[i].0, pairs[i].1, ds[i])
  }

  function KeyOf(r: Response): string { r.httpMethod + "::" + r.endpoint }

  class ScanResultCollector {
    const oracle: Oracle
    const threshold: real
    const refRole: string
    var keys: seq<string>
    var buffer: map<string, seq<Response>>
    var diffs: seq<DiffResult>
    var issues: seq<Issue>
    var requestCount: nat

    constructor (oracle: Oracle, threshold: real, refRole: string)
      ensures this.oracle == oracle && this.threshold == threshold && this.refRole == refRole
      ensures Valid() && keys == [] && diffs == [] && issues == [] && requestCount == 0
    {
      this.oracle, this.threshold, this.refRole := oracle, threshold, refRole;
      keys, buffer, diffs, issues, requestCount := [], map[], [], [], 0;
    }

    /** `keys` lists the buffer's keys in the order they were first used. */
    ghost predicate Valid()
      reads this
    {
      && (forall k :: k in keys <==> k in buffer)
      && (forall i, j :: 0 <= i < j < |keys| ==> keys[i] != keys[j])
      && (forall k :: k in buffer ==> buffer[k] != [] && forall r :: r in buffer[k] ==> KeyOf(r) == k)
    }

    method OnResult(r: Response)
      requires Valid()
      modifies this`keys, this`buffer, this`requestCount
      ensures Valid()
      ensures requestCount == old(requestCount) + 1
      ensures keys == if KeyOf(r) in old(buffer) then old(keys) else old(keys) + [KeyOf(r)]
      ensures buffer == old(buffer)[KeyOf(r) := (if KeyOf(r) in old(buffer) then old(buffer)[KeyOf(r)] else []) + [r]]
    {
      hide KeyOf;
      var key := KeyOf(r);
      if key !in buffer {
        keys := keys + [key];
        buffer := buffer[key := [r]];
        assert [] + [r] == [r];
      } else {
        buffer := buffer[key := buffer[key] + [r]];
      }
      requestCount := requestCount + 1;
    }

    method BuildPairs(responses: seq<Response>) returns (pairs: seq<Pair>)
      ensures pairs == PairsOf(responses, refRole)
    {
      var refs := [];
      for i := 0 to |responses|
        invariant refs == References(responses[..i], refRole)
      {
        assert responses[..i + 1][..i] == responses[..i];
        if IsReference(responses[i], refRole) {
          refs := refs + [responses[i]];
        }
      }
      assert responses[..|responses|] == responses;
      var others := Others(responses, refs);
      if refs == [] {
        if |responses| < 2 {
          return [];
        }
        refs, others := [responses[0]], responses[1..];
      }
      pairs := CrossPairs(refs, others);
    }

    /** The comprehension that leaves the references out. */
    method Others(responses: seq<Response>, refs: seq<Response>) returns (others: seq<Response>)
      ensures others == NotIn(responses, refs)
    {
      others := [];
      for i := 0 to |responses|
        invariant others == NotIn(responses[..i], refs)
      {
        assert responses[..i + 1][..i] == responses[..i];
        if responses[i] !in refs {
          others := others + [responses[i]];
        }
      }
      assert responses[..|responses|] == responses;
    }

    /** The two loops over references and others. */
    method CrossPairs(refs: seq<Response>, others: seq<Response>) returns (pairs: seq<Pair>)
      ensures pairs == Product(refs, others)
    {
      pairs := [];
      for i := 0 to |refs|
        invariant pairs == Product(refs[..i], others)
      {
        ghost var before := pairs;
        assert before + [] == before;
        for j := 0 to |others|
          invariant pairs == before + PairsWith(refs[i], others[..j])
        {
          assert others[..j + 1][..j] == others[..j];
          if Differ(refs[i], others[j]) {
            pairs := pairs + [(refs[i], others[j])];
          }
        }
        assert others[..|others|] == others && refs[..i + 1][..i] == refs[..i];
      }
      assert refs[..|refs|] == refs;
    }

    /** The loop over the pairs of one endpoint. */
    method ProcessPairs(pairs: seq<Pair>) returns (found: seq<Issue>)
      modifies this`diffs
      ensures |old(diffs)| <= |diffs| && diffs[..|old(diffs)|] == old(diffs)
      ensures DiffsOf(oracle, threshold, pairs, diffs[|old(diffs)|..])
      ensures found == AllClassified(diffs[|old(diffs)|..])
    {
      hide IsDiffOf, IsAnomaly, AllClassified, Classified;
      found := [];
      NothingYet(oracle, threshold);
      ghost var n := |diffs|;
      assert diffs[n..] == [];
      for i := 0 to |pairs|
        invariant |diffs| == n + i && diffs[..n] == old(diffs)
        invariant forall k :: 0 <= k < i ==> IsDiffOf(oracle, threshold, pairs[k].0, pairs[k].1, diffs[n + k])
        invariant found == AllClassified(diffs[n..])
      {
        var d := CompareResponses(oracle, threshold, pairs[i].0, pairs[i].1);
        ghost var done := diffs[n..];
        diffs := diffs + [d];
        assert diffs[n..] == done + [d];
        OneMoreDiff(done, d);
        if d.isAnomaly {
          var issuesOfPair := ClassifyDiff(d);
          found := found + issuesOfPair;
        }
      }
    }

    /** `process_buffered`: appends a diff for every pair and replaces the issues by those of the new diffs. */
    method ProcessBuffered() returns (found: seq<Issue>)
      requires Valid()
      modifies this`diffs, this`issues
      ensures found == issues
      ensures |old(diffs)| <= |diffs| && diffs[..|old(diffs)|] == old(diffs)
      ensures DiffsOf(oracle, threshold, AllPairs(keys, buffer, refRole), diffs[|old(diffs)|..])
      ensures issues == AllClassified(diffs[|old(diffs)|..])
    {
      hide PairsOf, DiffsOf, AllClassified, AllPairs, KeyOf;
      NoPairsYet(buffer, refRole);
      found := [];
      ghost var n := |diffs|;
      NothingYet(oracle, threshold);
      assert diffs[n..] == [] && keys[..0] == [];
      for i := 0 to |keys|
        invariant n <= |diffs| && diffs[..n] == old(diffs)
        invariant DiffsOf(oracle, threshold, AllPairs(keys[..i], buffer, refRole), diffs[n..])
        invariant found == AllClassified(diffs[n..])
      {
        PairsOfKey(keys, buffer, refRole, i);
        var responses := buffer[keys[i]];
        ghost var done := diffs[n..];
        if |responses| >= 2 {
          var pairs := BuildPairs(responses);
          ghost var m := |diffs|;
          var more := ProcessPairs(pairs);
          Merge(oracle, threshold, AllPairs(keys[..i], buffer, refRole), done, pairs, diffs[m..]);
          assert diffs[n..] == done + diffs[m..];
          found := found + more;
        }
      }
      assert keys[..|keys|] == keys;
      issues := found;
    }

    method Reset()
      modifies this
      ensures Valid() && keys == [] && diffs == [] && issues == [] && requestCount == 0
    {
      keys, buffer, diffs, issues, requestCount := [], map[], [], [], 0;
    }
  }

  lemma NoPairsYet(buffer: map<string, seq<Response>>, refRole: string)
    ensures AllPairs([], buffer, refRole) == []
  {
  }

  lemma PairsOfKey(keys: seq<string>, buffer: map<string, seq<Response>>, refRole: string, i: nat)
    requires (forall k :: k in keys ==> k in buffer) && i < |keys|
    ensures var rs, before := buffer[keys[i]], AllPairs(keys[..i], buffer, refRole);
      AllPairs(keys[..i + 1], buffer, refRole) == if |rs| < 2 then before else before + PairsOf(rs, refRole)
  {
    hide PairsOf;
    assert keys[..i + 1][..i] == keys[..i];
  }

  lemma OneMoreDiff(ds: seq<DiffResult>, d: DiffResult)
    ensures AllClassified(ds + [d]) == AllClassified(ds) + if d.isAnomaly then Classified(d) else []
  {
    assert (ds + [d])[..|ds|] == ds;
  }

  lemma NothingYet(o: Oracle, threshold: real)
    ensures DiffsOf(o, threshold, [], []) && AllClassified([]) == []
  {
  }

  lemma Merge(o: Oracle, threshold: real, ps: seq<Pair>, ds: seq<DiffResult>, qs: seq<Pair>, es: seq<DiffResult>)
    requires DiffsOf(o, threshold, ps, ds) && DiffsOf(o, threshold, qs, es)
    ensures DiffsOf(o, threshold, ps + qs, ds + es)
    ensures AllClassified(ds + es) == AllClassified(ds) + AllClassified(es)
  {
    hide IsDiffOf;
    AllClassifiedAppend(ds, es);
  }

  lemma {:induction false} AllClassifiedAppend(x: seq<DiffResult>, y: seq<DiffResult>)
    ensures AllClassified(x + y) == AllClassified(x) + AllClassified(y)
    decreases |y|
  {
    hide Classified;
    if y == [] {
      assert x + y == x;
    } else {
      var n := |y| - 1;
      AllClassifiedAppend(x, y[..n]);
      assert (x + y)[..|x + y| - 1] == x + y[..n];
    }
  }

  // ------------------------------------------------------------------
  // Which responses are compared
  // ------------------------------------------------------------------

  lemma {:induction false} ReferencesAre(rs: seq<Response>, refRole: string, x: Response)
    ensures x in References(rs, refRole) <==> x in rs && IsReference(x, refRole)
  {
    if rs != [] {
      hide IsReference;
      var n := |rs| - 1;
      ReferencesAre(rs[..n], refRole, x);
      assert rs == rs[..n] + [rs[n]];
    }
  }

  lemma {:induction false} NotInAre(rs: seq<Response>, refs: seq<Response>, y: Response)
    ensures y in NotIn(rs, refs) <==> y in rs && y !in refs
  {
    if rs != [] {
      var n := |rs| - 1;
      NotInAre(rs[..n], refs, y);
      assert rs == rs[..n] + [rs[n]];
    }
  }

  lemma {:induction false} PairsWithAre(x: Response, others: seq<Response>, p: Pair)
    ensures p in PairsWith(x, others) <==> p.0 == x && p.1 in others && Differ(x, p.1)
  {
    if others != [] {
      hide Differ;
      var n := |others| - 1;
      PairsWithAre(x, others[..n], p);
      assert others == others[..n] + [others[n]];
    }
  }

  lemma {:induction false} ProductAre(refs: seq<Response>, others: seq<Response>, p: Pair)
    ensures p in Product(refs, others) <==> p.0 in refs && p.1 in others && Differ(p.0, p.1)
  {
    if refs != [] {
      hide Differ, PairsWith;
      var n := |refs| - 1;
      ProductAre(refs[..n], others, p);
      PairsWithAre(refs[n], others, p);
      assert refs == refs[..n] + [refs[n]];
    }
  }

  /** The response is one of this role, whatever the case of its letters. */
  predicate HasRole(r: Response, role: string) { EqualFold(if r.role.Some? then r.role.value else "", role) }

  lemma ReferenceIff(r: Response, refRole: string)
    ensures IsReference(r, refRole) <==> HasRole(r, refRole)
  {
    Evidence.LowerIsFold(OrEmpty(r.role), refRole);
  }

  /** The pairs the collector is to compare: a reference with a response that is none; where there is no reference,
      the first response with a later one of another user or role. */
  predicate Compared(rs: seq<Response>, refRole: string, p: Pair) {
    if exists r :: r in rs && HasRole(r, refRole)
    then p.0 in rs && p.1 in rs && HasRole(p.0, refRole) && !HasRole(p.1, refRole)
    else |rs| >= 2 && p.0 == rs[0] && p.1 in rs[1..] && (p.0.user != p.1.user || p.0.role != p.1.role)
  }

  /** Where there are references, exactly the pairs of a reference and a response that is none are compared: the
      test for a differing user or role excludes nothing. Without references only the first response is compared,
      with the later ones that differ from it. */
  lemma PairsExactly(rs: seq<Response>, refRole: string, p: Pair)
    ensures p in PairsOf(rs, refRole) <==> Compared(rs, refRole, p)
  {
    hide Product, NotIn, References;
    var refs := References(rs, refRole);
    forall r
      ensures r in refs <==> r in rs && HasRole(r, refRole)
    {
      ReferencesAre(rs, refRole, r);
      ReferenceIff(r, refRole);
    }
    RoleTellsApart(p.0, p.1, refRole);
    hide IsReference, HasRole;
    if refs != [] {
      assert refs[0] in refs;
      ProductAre(refs, NotIn(rs, refs), p);
      NotInAre(rs, refs, p.1);
    } else if |rs| >= 2 {
      ProductAre([rs[0]], rs[1..], p);
    }
  }

  /** Responses of which one has the role and the other has not differ. */
  lemma RoleTellsApart(x: Response, y: Response, role: string)
    ensures HasRole(x, role) && !HasRole(y, role) ==> Differ(x, y)
  {
  }

  // ------------------------------------------------------------------
  // In which order
  // ------------------------------------------------------------------

  /** `part` is made of the responses at the places in `at`, which go up. */
  predicate Places(part: seq<Response>, rs: seq<Response>, at: seq<nat>) {
    && |part| == |at|
    && (forall k :: 0 <= k < |at| ==> at[k] < |rs| && part[k] == rs[at[k]])
    && (forall k, l :: 0 <= k < l < |at| ==> at[k] < at[l])
  }

  /** The order of two nested loops. */
  predicate Before(x: (nat, nat), y: (nat, nat)) { x.0 < y.0 || (x.0 == y.0 && x.1 < y.1) }

  /** The pairs are those of the responses at the places in `at`, which are in the order of the loops. */
  predicate PairPlaces(pairs: seq<Pair>, rs: seq<Response>, at: seq<(nat, nat)>) {
    && |pairs| == |at|
    && (forall k :: 0 <= k < |at| ==>
         at[k].0 < |rs| && at[k].1 < |rs| && pairs[k] == (rs[at[k].0], rs[at[k].1]))
    && (forall k, l :: 0 <= k < l < |at| ==> Before(at[k], at[l]))
  }

  lemma PlacesSnoc(part: seq<Response>, rs: seq<Response>, at: seq<nat>, i: nat)
    requires Places(part, rs, at) && i < |rs| && forall k :: k in at ==> k < i
    ensures Places(part + [rs[i]], rs, at + [i])
  {
    forall k, l | 0 <= k < l < |at| + 1 ensures (at + [i])[k] < (at + [i])[l] {
      assert at[k] in at;
    }
  }

  lemma PairPlacesSnoc(pairs: seq<Pair>, rs: seq<Response>, at: seq<(nat, nat)>, i: nat, j: nat)
    requires PairPlaces(pairs, rs, at) && i < |rs| && j < |rs| && forall x :: x in at ==> Before(x, (i, j))
    ensures PairPlaces(pairs + [(rs[i], rs[j])], rs, at + [(i, j)])
  {
    forall k, l | 0 <= k < l < |at| + 1 ensures Before((at + [(i, j)])[k], (at + [(i, j)])[l]) {
      assert at[k] in at;
    }
  }

  lemma {:induction false} ReferencesAt(rs: seq<Response>, refRole: string, n: nat) returns (at: seq<nat>)
    requires n <= |rs|
    ensures Places(References(rs[..n], refRole), rs, at)
    ensures forall i: nat :: i in at <==> i < n && HasRole(rs[i], refRole)
  {
    at := [];
    if n > 0 {
      hide Places, HasRole, IsReference;
      var front := ReferencesAt(rs, refRole, n - 1);
      assert rs[..n][..n - 1] == rs[..n - 1];
      ReferenceIff(rs[n - 1], refRole);
      var before := References(rs[..n - 1], refRole);
      if HasRole(rs[n - 1], refRole) {
        at := front + [n - 1];
        PlacesSnoc(before, rs, front, n - 1);
      } else {
        at := front;
        assert before + [] == before;
      }
    }
  }

  lemma {:induction false} OthersAt(rs: seq<Response>, refs: seq<Response>, refRole: string, n: nat) returns (at: seq<nat>)
    requires n <= |rs| && forall r :: r in rs ==> (r in refs <==> HasRole(r, refRole))
    ensures Places(NotIn(rs[..n], refs), rs, at)
    ensures forall i: nat :: i in at <==> i < n && !HasRole(rs[i], refRole)
  {
    at := [];
    if n > 0 {
      hide Places, HasRole;
      var front := OthersAt(rs, refs, refRole, n - 1);
      assert rs[..n][..n - 1] == rs[..n - 1] && rs[n - 1] in rs;
      var before := NotIn(rs[..n - 1], refs);
      if HasRole(rs[n - 1], refRole) {
        at := front;
        assert before + [] == before;
      } else {
        at := front + [n - 1];
        PlacesSnoc(before, rs, front, n - 1);
      }
    }
  }

  /** The inner loop. */
  lemma {:induction false} RowAt(pairs: seq<Pair>, rs: seq<Response>, done: seq<(nat, nat)>, i: nat, others: seq<Response>, oa: seq<nat>,
                                 n: nat)
    returns (at: seq<(nat, nat)>)
    requires PairPlaces(pairs, rs, done) && i < |rs| && (forall x :: x in done ==> x.0 < i)
    requires Places(others, rs, oa) && n <= |others|
    ensures PairPlaces(pairs + PairsWith(rs[i], others[..n]), rs, at)
    ensures forall x :: x in at <==> x in done || (x.0 == i && x.1 in oa[..n] && Differ(rs[i], rs[x.1]))
    decreases n
  {
    if n == 0 {
      at := done;
      assert pairs + [] == pairs;
    } else {
      var front := RowAt(pairs, rs, done, i, others, oa, n - 1);
      var j := oa[n - 1];
      assert others[..n][..n - 1] == others[..n - 1] && oa[..n] == oa[..n - 1] + [j] && rs[j] == others[n - 1];
      assert forall l :: 0 <= l < n - 1 ==> oa[l] < j;
      hide Places, PairPlaces, Differ;
      var row := PairsWith(rs[i], others[..n - 1]);
      if Differ(rs[i], rs[j]) {
        at := front + [(i, j)];
        PairPlacesSnoc(pairs + row, rs, front, i, j);
        assert pairs + row + [(rs[i], rs[j])] == pairs + (row + [(rs[i], rs[j])]);
      } else {
        at := front;
        assert row + [] == row;
      }
    }
  }

  /** Both loops. */
  lemma {:induction false} ProductAt(refs: seq<Response>, others: seq<Response>, rs: seq<Response>, ra: seq<nat>, oa: seq<nat>, n: nat)
    returns (at: seq<(nat, nat)>)
    requires Places(refs, rs, ra) && Places(others, rs, oa) && n <= |refs|
    ensures PairPlaces(Product(refs[..n], others), rs, at)
    ensures forall x :: x in at ==> x.0 < |rs| && x.1 < |rs|
    ensures forall x :: x in at <==> x.0 in ra[..n] && x.1 in oa && Differ(rs[x.0], rs[x.1])
    decreases n
  {
    at := [];
    if n > 0 {
      var front := ProductAt(refs, others, rs, ra, oa, n - 1);
      var i := ra[n - 1];
      assert refs[..n][..n - 1] == refs[..n - 1] && ra[..n] == ra[..n - 1] + [i] && rs[i] == refs[n - 1];
      assert forall l :: 0 <= l < n - 1 ==> ra[l] < i;
      assert others[..|others|] == others && oa[..|others|] == oa;
      hide Places, Differ, PairsWith;
      at := RowAt(Product(refs[..n - 1], others), rs, front, i, others, oa, |others|);
      assert forall x :: x in at ==> x.0 < |rs| && x.1 < |rs| by { PlacesInside(Product(refs[..n], others), rs, at); }
    }
  }

  lemma PlacesInside(pairs: seq<Pair>, rs: seq<Response>, at: seq<(nat, nat)>)
    requires PairPlaces(pairs, rs, at)
    ensures forall x :: x in at ==> x.0 < |rs| && x.1 < |rs|
  {
  }

  /** Whether the responses at these places are compared. */
  predicate ComparedAt(rs: seq<Response>, refRole: string, i: nat, j: nat)
    requires i < |rs| && j < |rs|
  {
    if exists r :: r in rs && HasRole(r, refRole) then HasRole(rs[i], refRole) && !HasRole(rs[j], refRole)
    else i == 0 && j > 0 && (rs[0].user != rs[j].user || rs[0].role != rs[j].role)
  }

  /** The pairs come in the order of the responses, by reference first, and each pair of places that is to be compared
      comes once. */
  lemma PairsInOrder(rs: seq<Response>, refRole: string) returns (at: seq<(nat, nat)>)
    ensures PairPlaces(PairsOf(rs, refRole), rs, at)
    ensures forall i: nat, j: nat :: i < |rs| && j < |rs| ==> ((i, j) in at <==> ComparedAt(rs, refRole, i, j))
  {
    hide HasRole, References, NotIn, Product, PairPlaces;
    var refs := References(rs, refRole);
    forall r ensures r in refs <==> r in rs && HasRole(r, refRole) {
      ReferencesAre(rs, refRole, r);
      ReferenceIff(r, refRole);
    }
    if refs != [] {
      at := ReferencePairs(rs, refs, refRole);
      assert refs[0] in refs;
    } else if |rs| < 2 {
      at := [];
      NoPairs(rs);
    } else {
      at := FirstWithLater(rs);
    }
  }

  lemma NoPairs(rs: seq<Response>)
    ensures PairPlaces([], rs, [])
  {
  }

  lemma ReferencePairs(rs: seq<Response>, refs: seq<Response>, refRole: string) returns (at: seq<(nat, nat)>)
    requires refs == References(rs, refRole) && forall r :: r in refs <==> r in rs && HasRole(r, refRole)
    ensures PairPlaces(Product(refs, NotIn(rs, refs)), rs, at)
    ensures forall i: nat, j: nat :: i < |rs| && j < |rs| ==>
      ((i, j) in at <==> HasRole(rs[i], refRole) && !HasRole(rs[j], refRole))
  {
    assert rs[..|rs|] == rs;
    var ra := ReferencesAt(rs, refRole, |rs|);
    var others := NotIn(rs, refs);
    var oa := OthersAt(rs, refs, refRole, |rs|);
    assert |ra| == |refs|;
    hide Places, PairPlaces, HasRole, Product, NotIn, References, Differ;
    at := ProductAt(refs, others, rs, ra, oa, |refs|);
    assert refs[..|refs|] == refs && ra[..|refs|] == ra;
    forall i: nat, j: nat | i < |rs| && j < |rs|
      ensures (i, j) in at <==> HasRole(rs[i], refRole) && !HasRole(rs[j], refRole)
    {
      RoleTellsApart(rs[i], rs[j], refRole);
      assert (i, j).0 == i && (i, j).1 == j;
    }
  }

  lemma FirstWithLater(rs: seq<Response>) returns (at: seq<(nat, nat)>)
    requires |rs| >= 2
    ensures PairPlaces(Product([rs[0]], rs[1..]), rs, at)
    ensures forall i: nat, j: nat :: i < |rs| && j < |rs| ==> ((i, j) in at <==> i == 0 && j > 0 && Differ(rs[0], rs[j]))
  {
    var later: seq<nat> := seq(|rs| - 1, k requires 0 <= k < |rs| - 1 => k + 1);
    assert Places([rs[0]], rs, [0]) && Places(rs[1..], rs, later);
    forall j: nat ensures j in later <==> 0 < j < |rs| {
      if 0 < j < |rs| {
        assert later[j - 1] == j;
      }
    }
    at := ProductAt([rs[0]], rs[1..], rs, [0], later, 1);
    assert [rs[0]][..1] == [rs[0]] && [0][..1] == [0];
  }

  lemma {:induction false} AllPairsHave(keys: seq<string>, buffer: map<string, seq<Response>>, refRole: string, k: string, p: Pair)
    requires (forall k :: k in keys ==> k in buffer) && k in keys && |buffer[k]| >= 2 && p in PairsOf(buffer[k], refRole)
    ensures p in AllPairs(keys, buffer, refRole)
  {
    hide PairsOf;
    var n := |keys| - 1;
    assert keys == keys[..n] + [keys[n]];
    if k != keys[n] {
      AllPairsHave(keys[..n], buffer, refRole, k, p);
    }
  }

  // ------------------------------------------------------------------
  // The report is complete and sound
  // ------------------------------------------------------------------

  /** Every issue the collector reports is about a pair it compared and flagged, by a check that fires on it. */
  lemma ReportIsSound(o: Oracle, threshold: real, pairs: seq<Pair>, ds: seq<DiffResult>, issue: Issue)
    requires DiffsOf(o, threshold, pairs, ds) && issue in AllClassified(ds)
    ensures (issue.diff.a, issue.diff.b) in pairs && Fires(issue.kind, issue.diff)
    ensures TriggerOf(o, threshold, issue.diff.a, issue.diff.b) != Quiet
  {
    hide Fires, TriggerOf, AllClassified;
    AllClassifiedHas(ds, issue);
    var i :| 0 <= i < |ds| && ds[i] == issue.diff;
    assert IsDiffOf(o, threshold, pairs[i].0, pairs[i].1, ds[i]);
    assert pairs[i] == (issue.diff.a, issue.diff.b);
  }

  /** Two responses to one endpoint that are to be compared and are flagged are reported, with a reference role
      among the responses or without, unless only for ids shared within one known tenant. The diffs and issues are
      those of `ProcessBuffered`. */
  lemma NoFlaggedPairIsMissed(o: Oracle, threshold: real, keys: seq<string>, buffer: map<string, seq<Response>>,
                              refRole: string, ds: seq<DiffResult>, k: string, x: Response, y: Response)
    requires threshold >= 0.64995 && forall k :: k in keys ==> k in buffer
    requires DiffsOf(o, threshold, AllPairs(keys, buffer, refRole), ds)
    requires k in keys && Compared(buffer[k], refRole, (x, y))
    requires TriggerOf(o, threshold, x, y) != Quiet
    requires !(TriggerOf(o, threshold, x, y) == SharedIds && SameKnownTenant(x, y))
    ensures exists issue :: issue in AllClassified(ds) && issue.diff.a == x && issue.diff.b == y
  {
    TwoResponses(buffer[k], refRole, x, y);
    hide Fires, TriggerOf, AllClassified, SameKnownTenant, IsReference, PairsOf, AllPairs, Compared;
    PairsExactly(buffer[k], refRole, (x, y));
    AllPairsHave(keys, buffer, refRole, k, (x, y));
    var pairs := AllPairs(keys, buffer, refRole);
    var i :| 0 <= i < |pairs| && pairs[i] == (x, y);
    assert IsDiffOf(o, threshold, x, y, ds[i]);
    NoAnomalyGoesUnreported(o, threshold, x, y, ds[i]);
    NoIssue(ds[i]);
    hide Classified;
    var kind :| Issue(kind, ds[i]) in Classified(ds[i]);
    ClassifiedHas(ds[i], Issue(kind, ds[i]));
    AllClassifiedHas(ds, Issue(kind, ds[i]));
    assert ds[i].a == x && ds[i].b == y;
  }

  lemma TwoResponses(rs: seq<Response>, refRole: string, x: Response, y: Response)
    requires Compared(rs, refRole, (x, y))
    ensures |rs| >= 2
  {
    hide IsReference;
    if exists r :: r in rs && IsReference(r, refRole) {
      var i :| 0 <= i < |rs| && rs[i] == x;
      var j :| 0 <= j < |rs| && rs[j] == y;
      assert i != j;
    }
  }
}
