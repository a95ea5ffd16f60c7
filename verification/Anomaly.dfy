/** From two responses to an anomaly flag, and from a flagged pair to classified issues. */
module Anomaly {
  import opened TaskQueue
  import opened JsonFlatten
  import opened FieldDiff

  /** `rest` stands for everything the comparison does not look at. */
  datatype Response = Response(endpoint: string, httpMethod: string, status: int, body: Option<string>, bodyJson: Json,
                               user: Option<string>, role: Option<string>, tenant: Option<string>,
                               token: Option<string>, rest: nat)

  /** What is not modelled of the comparison: the ratio of SequenceMatcher and the recognition of ids. */
  datatype Oracle = Oracle(ratio: (string, string) -> real, ids: Json -> set<string>)

  datatype DiffResult = DiffResult(a: Response, b: Response, similarity: real, fields: Diff,
                                   foreign: set<string>, isAnomaly: bool)

  // ------------------------------------------------------------------
  // Comparing
  // ------------------------------------------------------------------

  function Similarity(o: Oracle, a: Response, b: Response): real {
    if a.body.None? && b.body.None? then 1.0
    else if a.body.None? || b.body.None? then 0.0
    else o.ratio(a.body.value, b.body.value)
  }

  /** Rounding to an integer, ties to even. */
  function HalfEven(y: real): int {
    var f := y.Floor;
    var d := y - f as real;
    if d < 0.5 || (d == 0.5 && f % 2 == 0) then f else f + 1
  }

  /** `round(x, 4)`. */
  function Round4(x: real): real { HalfEven(x * 10000.0) as real / 10000.0 }

  /** Neither absent nor empty. */
  predicate Known(s: Option<string>) { s.Some? && s.value != "" }

  function ForeignIds(o: Oracle, a: Response, b: Response): set<string> {
    var differentTenant := Known(a.tenant) && Known(b.tenant) && a.tenant != b.tenant;
    if differentTenant || a.user != b.user then o.ids(a.bodyJson) * o.ids(b.bodyJson) else {}
  }

  /** Which of the branches of `compare_responses` flags the pair. */
  datatype Trigger = SameData | SharedIds | Reversed | Quiet

  function TriggerOf(o: Oracle, threshold: real, a: Response, b: Response): Trigger {
    if a.user != b.user && a.status == 200 && b.status == 200 && Similarity(o, a, b) >= threshold then SameData
    else if ForeignIds(o, a, b) != {} && a.user != b.user && (a.status == 200 || b.status == 200) then SharedIds
    else if a.user != b.user && a.status in {403, 401} && b.status == 200 then Reversed
    else Quiet
  }

  ghost predicate IsDiffOf(o: Oracle, threshold: real, a: Response, b: Response, d: DiffResult) {
    && d.a == a && d.b == b
    && d.similarity == Round4(Similarity(o, a, b))
    && DiffOf(a.bodyJson, b.bodyJson, d.fields)
    && d.foreign == ForeignIds(o, a, b)
    && d.isAnomaly == (TriggerOf(o, threshold, a, b) != Quiet)
  }

  /** The bodies are alike to the given degree; two absent ones are, a present and an absent one are not. */
  predicate Alike(o: Oracle, degree: real, a: Response, b: Response) {
    match (a.body, b.body)
    case (Some(x), Some(y)) => o.ratio(x, y) >= degree
    case (None, None) => 1.0 >= degree
    case _ => 0.0 >= degree
  }

  ghost predicate ShareAnId(o: Oracle, a: Response, b: Response) {
    exists id :: id in o.ids(a.bodyJson) && id in o.ids(b.bodyJson)
  }

  /** What makes a pair an anomaly: two users who both get an answer, with bodies alike; whose bodies share an id,
      and one of them gets an answer; or of whom the first is refused what the second gets. */
  ghost predicate IsAnomaly(o: Oracle, threshold: real, a: Response, b: Response) {
    && a.user != b.user
    && (|| (a.status == 200 && b.status == 200 && Alike(o, threshold, a, b))
        || (ShareAnId(o, a, b) && (a.status == 200 || b.status == 200))
        || ((a.status == 401 || a.status == 403) && b.status == 200))
  }

  /** A pair is flagged exactly if it is an anomaly. */
  lemma FlaggedIff(o: Oracle, threshold: real, a: Response, b: Response, d: DiffResult)
    requires IsDiffOf(o, threshold, a, b, d)
    ensures d.isAnomaly <==> IsAnomaly(o, threshold, a, b)
  {
    hide DiffOf, Round4;
    assert a.user != b.user ==> (ForeignIds(o, a, b) != {} <==> ShareAnId(o, a, b)) by {
      if x :| x in o.ids(a.bodyJson) && x in o.ids(b.bodyJson) {
        assert x in o.ids(a.bodyJson) * o.ids(b.bodyJson);
      }
    }
  }

  /** Ids count as foreign that both bodies hold, where users differ, or tenants that are both known. */
  lemma ForeignIff(o: Oracle, a: Response, b: Response, id: string)
    ensures id in ForeignIds(o, a, b)
       <==> && id in o.ids(a.bodyJson) && id in o.ids(b.bodyJson)
            && (a.user != b.user || (a.tenant != b.tenant && a.tenant !in {None, Some("")} && b.tenant !in {None, Some("")}))
  {
  }

  /** Rounding to four places: a multiple of 0.0001 no further than half of that away, and of two such the even one. */
  lemma RoundsToFour(x: real)
    ensures exists n: int {:trigger n as real} ::
      Round4(x) * 10000.0 == n as real && -0.5 <= n as real - x * 10000.0 <= 0.5
      && (n as real - x * 10000.0 in {-0.5, 0.5} ==> n % 2 == 0)
  {
    var n := HalfEven(x * 10000.0);
    assert Round4(x) * 10000.0 == n as real;
  }

  method CompareResponses(o: Oracle, threshold: real, a: Response, b: Response) returns (d: DiffResult)
    ensures IsDiffOf(o, threshold, a, b, d)
    ensures d.a == a && d.b == b && (d.isAnomaly <==> IsAnomaly(o, threshold, a, b))
    ensures forall id :: id in d.foreign <==>
      && id in o.ids(a.bodyJson) && id in o.ids(b.bodyJson)
      && (a.user != b.user || (a.tenant != b.tenant && a.tenant !in {None, Some("")} && b.tenant !in {None, Some("")}))
  {
    hide Round4, DiffOf, Similarity;
    var similarity := Similarity(o, a, b);
    var fields := CompareFields(a.bodyJson, b.bodyJson);
    var idsA, idsB := o.ids(a.bodyJson), o.ids(b.bodyJson);
    var differentTenant := Known(a.tenant) && Known(b.tenant) && a.tenant != b.tenant;
    var differentUser := a.user != b.user;
    var foreign := if idsA != {} && idsB != {} && (differentTenant || differentUser) then idsA * idsB else {};
    var isAnomaly := false;
    if differentUser && a.status == 200 && b.status == 200 && similarity >= threshold {
      isAnomaly := true;
    } else if foreign != {} && differentUser && (a.status == 200 || b.status == 200) {
      isAnomaly := true;
    } else if differentUser && a.status in {403, 401} && b.status == 200 {
      isAnomaly := true;
    }
    d := DiffResult(a, b, Round4(similarity), fields, foreign, isAnomaly);
    FlaggedIff(o, threshold, a, b, d);
    forall id { ForeignIff(o, a, b, id); }
  }

  // ------------------------------------------------------------------
  // Classifying
  // ------------------------------------------------------------------

  datatype Kind = JwtBypass | TenantLeak | Bola | Bfla | PrivilegeEscalation | InfoDisclosure

  datatype Issue = Issue(kind: Kind, diff: DiffResult)

  predicate OccursAt(s: string, t: string, i: nat) { i + |t| <= |s| && s[i..i + |t|] == t }

  predicate Contains(s: string, t: string) { exists i :: 0 <= i <= |s| && OccursAt(s, t, i) }

  /** ASCII lower-casing. */
  function Lower(s: string): string {
    seq(|s|, i requires 0 <= i < |s| => if 'A' <= s[i] <= 'Z' then (s[i] as int + 32) as char else s[i])
  }

  function OrEmpty(s: Option<string>): string { if s.Some? then s.value else "" }

  function Rank(role: Option<string>): int {
    var r := Lower(OrEmpty(role));
    if r == "admin" then 3 else if r == "manager" then 2 else if r == "user" then 1 else if r == "guest" then 0 else 1
  }

  const TAMPER_MARKERS := {"alg=none", "eyJhbGciOiJub25lIiwidHlwIjoiSldUIn0", "__tampered__"}

  const SENSITIVE_HINTS := {"token", "secret", "key", "hash", "internal", "debug", "password", "private"}

  predicate Tampered(token: Option<string>) {
    exists m :: m in TAMPER_MARKERS && Contains(OrEmpty(token), m)
  }

  predicate Sensitive(field: string) {
    exists h :: h in SENSITIVE_HINTS && Contains(Lower(field), h)
  }

  predicate SameKnownTenant(a: Response, b: Response) { Known(a.tenant) && Known(b.tenant) && a.tenant == b.tenant }

  /** Whether the check of this kind returns an issue. */
  predicate Fires(kind: Kind, d: DiffResult) {
    var a, b := d.a, d.b;
    match kind
    case JwtBypass => b.status == 200 && Tampered(b.token)
    case TenantLeak => d.foreign != {} && !SameKnownTenant(a, b)
    case Bola => a.status == 200 && b.status == 200 && d.similarity >= 0.65 && a.user != b.user
    case Bfla => a.status in {403, 401} && b.status == 200
    case PrivilegeEscalation =>
      a.status == 200 && b.status == 200 && Rank(b.role) < Rank(a.role) && d.similarity >= 0.5
    case InfoDisclosure => exists f :: f in d.fields.added && Sensitive(f)
  }

  const CHECKERS := [JwtBypass, TenantLeak, Bola, Bfla, PrivilegeEscalation, InfoDisclosure]

  function Checked(kinds: seq<Kind>, d: DiffResult): seq<Issue> {
    if kinds == [] then [] else
    var last := kinds[|kinds| - 1];
    Checked(kinds[..|kinds| - 1], d) + if Fires(last, d) then [Issue(last, d)] else []
  }

  function Classified(d: DiffResult): seq<Issue> { if d.isAnomaly then Checked(CHECKERS, d) else [] }

  function AllClassified(ds: seq<DiffResult>): seq<Issue> {
    if ds == [] then [] else AllClassified(ds[..|ds| - 1]) + Classified(ds[|ds| - 1])
  }

  method ClassifyDiff(d: DiffResult) returns (issues: seq<Issue>)
    ensures issues == Classified(d)
  {
    hide Fires;
    if !d.isAnomaly {
      return [];
    }
    issues := [];
    for i := 0 to |CHECKERS|
      invariant issues == Checked(CHECKERS[..i], d)
    {
      assert CHECKERS[..i + 1][..i] == CHECKERS[..i];
      if Fires(CHECKERS[i], d) {
        issues := issues + [Issue(CHECKERS[i], d)];
      }
    }
    assert CHECKERS[..|CHECKERS|] == CHECKERS;
  }

  method ClassifyAll(ds: seq<DiffResult>) returns (issues: seq<Issue>)
    ensures issues == AllClassified(ds)
  {
    issues := [];
    for i := 0 to |ds|
      invariant issues == AllClassified(ds[..i])
    {
      assert ds[..i + 1][..i] == ds[..i];
      var more := ClassifyDiff(ds[i]);
      issues := issues + more;
    }
    assert ds[..|ds|] == ds;
  }

  lemma {:induction false} CheckedHas(kinds: seq<Kind>, d: DiffResult, issue: Issue)
    ensures issue in Checked(kinds, d) <==> issue.diff == d && issue.kind in kinds && Fires(issue.kind, d)
  {
    if kinds != [] {
      hide Fires;
      var n := |kinds| - 1;
      CheckedHas(kinds[..n], d, issue);
      assert kinds == kinds[..n] + [kinds[n]];
    }
  }

  /** An issue is listed exactly for the checks that fire on a flagged pair. */
  lemma ClassifiedHas(d: DiffResult, issue: Issue)
    ensures issue in Classified(d) <==> issue.diff == d && d.isAnomaly && Fires(issue.kind, d)
  {
    hide Fires;
    CheckedHas(CHECKERS, d, issue);
    EveryKindIsChecked(issue.kind);
  }

  lemma EveryKindIsChecked(kind: Kind)
    ensures kind in CHECKERS
  {
    var i := match kind
      case JwtBypass => 0
      case TenantLeak => 1
      case Bola => 2
      case Bfla => 3
      case PrivilegeEscalation => 4
      case InfoDisclosure => 5;
    assert CHECKERS[i] == kind;
  }

  lemma {:induction false} AllClassifiedHas(ds: seq<DiffResult>, issue: Issue)
    ensures issue in AllClassified(ds) <==> issue.diff in ds && issue.diff.isAnomaly && Fires(issue.kind, issue.diff)
  {
    if ds != [] {
      hide Fires, Classified;
      var n := |ds| - 1;
      AllClassifiedHas(ds[..n], issue);
      ClassifiedHas(ds[n], issue);
      assert ds == ds[..n] + [ds[n]];
    }
  }

  // ------------------------------------------------------------------
  // No anomaly goes unreported
  // ------------------------------------------------------------------

  /** The rounded similarity passes 0.65 exactly from 0.64995 on: ties go to the even 6500. */
  lemma RoundingAt65(x: real)
    ensures Round4(x) >= 0.65 <==> x >= 0.64995
  {
    var y := x * 10000.0;
    assert HalfEven(y) >= 6500 <==> y >= 6499.5;
  }

  /** Each trigger has its rule: the same data is a BOLA, a reversed refusal is a BFLA, and shared ids are a tenant
      leak unless both users are known to be of one tenant. */
  lemma TriggerHasItsRule(o: Oracle, threshold: real, a: Response, b: Response, d: DiffResult)
    requires threshold >= 0.64995 && IsDiffOf(o, threshold, a, b, d)
    ensures TriggerOf(o, threshold, a, b) == SameData ==> Fires(Bola, d)
    ensures TriggerOf(o, threshold, a, b) == Reversed ==> Fires(Bfla, d)
    ensures TriggerOf(o, threshold, a, b) == SharedIds ==> (Fires(TenantLeak, d) <==> !SameKnownTenant(a, b))
  {
    hide Round4, DiffOf, Similarity, ForeignIds;
    RoundingAt65(Similarity(o, a, b));
  }

  /** What the inputs of a pair of one tenant must be for none of the other checks to find anything: no tampered
      token let through, no field with a sensitive name added, and if both were answered 200 the rounded similarity
      below 0.65, and below 0.5 where the second role ranks lower; and no refusal of the first user alone. */
  predicate NothingElse(d: DiffResult) {
    && (d.b.status == 200 ==> !Tampered(d.b.token) && d.a.status !in {403, 401})
    && (d.a.status == 200 && d.b.status == 200 ==>
         d.similarity < 0.65 && (Rank(d.b.role) < Rank(d.a.role) ==> d.similarity < 0.5))
    && (forall f :: f in d.fields.added ==> !Sensitive(f))
  }

  lemma OthersQuietIff(d: DiffResult)
    requires d.a.user != d.b.user
    ensures NothingElse(d) <==> forall kind :: kind != TenantLeak ==> !Fires(kind, d)
  {
    hide Tampered, Sensitive, Rank;
    if forall kind :: kind != TenantLeak ==> !Fires(kind, d) {
      assert !Fires(JwtBypass, d) && !Fires(Bola, d) && !Fires(Bfla, d);
      assert !Fires(PrivilegeEscalation, d) && !Fires(InfoDisclosure, d);
    }
  }

  /** Every flagged pair yields an issue, except exactly when ids shared by two users known to be of one tenant
      flagged it and its inputs give the other checks nothing. The collector's default threshold is 0.65; the claim
      needs no more than 0.64995. */
  lemma NoAnomalyGoesUnreported(o: Oracle, threshold: real, a: Response, b: Response, d: DiffResult)
    requires threshold >= 0.64995 && IsDiffOf(o, threshold, a, b, d) && d.isAnomaly
    ensures Classified(d) == []
       <==> TriggerOf(o, threshold, a, b) == SharedIds && SameKnownTenant(a, b) && NothingElse(d)
  {
    TriggerHasItsRule(o, threshold, a, b, d);
    OthersQuietIff(d);
    hide Fires, TriggerOf, SameKnownTenant, Classified, NothingElse;
    forall kind
      ensures Issue(kind, d) in Classified(d) <==> Fires(kind, d)
    {
      ClassifiedHas(d, Issue(kind, d));
    }
    NoIssue(d);
  }

  lemma NoIssue(d: DiffResult)
    ensures Classified(d) == [] <==> forall kind :: Issue(kind, d) !in Classified(d)
  {
    hide Fires;
    if Classified(d) != [] {
      var issue := Classified(d)[0];
      ClassifiedHas(d, issue);
      assert issue == Issue(issue.kind, d);
    }
  }

  /** Below that bound two plain users of equal role, with nothing but similar bodies between the threshold and
      0.64995, are flagged and no issue is raised. */
  lemma LowThresholdMisses(o: Oracle, threshold: real, a: Response, b: Response, d: DiffResult)
    requires IsDiffOf(o, threshold, a, b, d) && threshold <= Similarity(o, a, b) < 0.64995
    requires a.user != b.user && a.status == 200 && b.status == 200 && Rank(a.role) == Rank(b.role)
    requires ForeignIds(o, a, b) == {} && !Tampered(b.token) && forall f :: f in d.fields.added ==> !Sensitive(f)
    ensures d.isAnomaly && Classified(d) == []
  {
    hide DiffOf, Similarity, ForeignIds, Tampered, Sensitive, Rank;
    RoundingAt65(Similarity(o, a, b));
    hide Round4;
    forall kind
      ensures Issue(kind, d) !in Classified(d)
    {
      ClassifiedHas(d, Issue(kind, d));
    }
    NoIssue(d);
  }

  /** Two users without tenants, tokens or ids, both answered 200. */
  function PlainResponse(user: string): Response {
    Response("/", "GET", 200, Some(user), Leaf(Null), Some(user), None, None, None, 0)
  }

  /** Different bodies are alike to this degree. */
  function AlikeBy(ratio: real): Oracle { Oracle((x, y) => if x == y then 1.0 else ratio, j => {}) }

  /** For every threshold below 0.64995, bodies alike to just that degree, or not at all if it is negative, are
      flagged, and no issue is raised. */
  lemma LowThresholdExample(threshold: real) returns (o: Oracle, d: DiffResult)
    requires threshold < 0.64995
    ensures IsDiffOf(o, threshold, PlainResponse("a"), PlainResponse("b"), d)
    ensures TriggerOf(o, threshold, PlainResponse("a"), PlainResponse("b")) == SameData && d.isAnomaly && Classified(d) == []
  {
    var a, b := PlainResponse("a"), PlainResponse("b");
    var ratio := if threshold >= 0.0 then threshold else 0.0;
    o := AlikeBy(ratio);
    assert a.user != b.user && a.body != b.body && Similarity(o, a, b) == ratio;
    d := DiffResult(a, b, Round4(ratio), Diff({}, {}, {}, map[]), {}, true);
    NothingFlat(d.fields);
    assert !Tampered(None) by {
      forall m | m in TAMPER_MARKERS ensures !Contains("", m) {
        assert |m| > 0;
      }
    }
    hide DiffOf, Round4, Tampered, Sensitive, Rank;
    LowThresholdMisses(o, threshold, a, b, d);
  }

  lemma NothingFlat(fields: Diff)
    requires fields == Diff({}, {}, {}, map[])
    ensures DiffOf(Leaf(Null), Leaf(Null), fields)
  {
    hide Flattens;
    assert FlatBody(Leaf(Null), map[]) && Compares(fields, map[], map[]);
  }

  /** Every pair flagged for showing two users the same data raises an issue. */
  ghost predicate SameDataIsReported(threshold: real) {
    forall o, a, b, d :: IsDiffOf(o, threshold, a, b, d) && TriggerOf(o, threshold, a, b) == SameData ==> Classified(d) != []
  }

  /** The bound on the threshold is exact. */
  lemma SameDataIsReportedIff(threshold: real)
    ensures SameDataIsReported(threshold) <==> threshold >= 0.64995
  {
    hide IsDiffOf, TriggerOf, Classified;
    if threshold < 0.64995 {
      var o, d := LowThresholdExample(threshold);
    } else {
      forall o, a, b, d | IsDiffOf(o, threshold, a, b, d) && TriggerOf(o, threshold, a, b) == SameData
        ensures Classified(d) != []
      {
        assert d.isAnomaly by { FlaggedIs(o, threshold, a, b, d); }
        NoAnomalyGoesUnreported(o, threshold, a, b, d);
      }
    }
  }

  lemma FlaggedIs(o: Oracle, threshold: real, a: Response, b: Response, d: DiffResult)
    requires IsDiffOf(o, threshold, a, b, d)
    ensures d.isAnomaly <==> TriggerOf(o, threshold, a, b) != Quiet
  {
  }
}
