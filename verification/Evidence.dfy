/** What is reported about a pair of responses, kind by kind, in terms of the responses themselves. */
module Evidence {
  import opened TaskQueue
  import opened FieldDiff
  import opened Anomaly

  // ------------------------------------------------------------------
  // Strings and roles
  // ------------------------------------------------------------------

  predicate Surrounds(s: string, x: string, t: string, y: string) { s == x + t + y }

  /** t occurs somewhere in s. */
  ghost predicate Within(t: string, s: string) { exists x, y :: Surrounds(s, x, t, y) }

  lemma ContainsIff(s: string, t: string)
    ensures Contains(s, t) <==> Within(t, s)
  {
    if i :| 0 <= i <= |s| && OccursAt(s, t, i) {
      assert Surrounds(s, s[..i], t, s[i + |t|..]);
    }
    if x, y :| Surrounds(s, x, t, y) {
      assert OccursAt(s, t, |x|);
    }
  }

  lemma LowerIsFold(s: string, t: string)
    ensures Lower(s) == Lower(t) <==> EqualFold(s, t)
  {
    if Lower(s) == Lower(t) {
      forall i | 0 <= i < |s| ensures |s| == |t| && SameLetter(s[i], t[i]) {
        assert |Lower(s)| == |Lower(t)| && Lower(s)[i] == Lower(t)[i];
      }
    }
  }

  /** t occurs in s up to the case of letters. */
  ghost predicate WithinFold(t: string, s: string) { exists w :: EqualFold(w, t) && Within(w, s) }

  predicate IsLower(t: string) { forall i :: 0 <= i < |t| ==> !('A' <= t[i] <= 'Z') }

  lemma LowerPart(s: string, i: nat, j: nat)
    requires i <= j <= |s|
    ensures Lower(s)[i..j] == Lower(s[i..j])
  {
  }

  lemma LowerContainsIff(s: string, t: string)
    requires IsLower(t)
    ensures Contains(Lower(s), t) <==> WithinFold(t, s)
  {
    assert Lower(t) == t && |Lower(s)| == |s|;
    hide Lower, EqualFold;
    if i :| 0 <= i <= |Lower(s)| && OccursAt(Lower(s), t, i) {
      var w := s[i..i + |t|];
      LowerPart(s, i, i + |t|);
      LowerIsFold(w, t);
      assert Surrounds(s, s[..i], w, s[i + |t|..]);
      assert Within(w, s);
    }
    if w, x, y :| EqualFold(w, t) && Surrounds(s, x, w, y) {
      assert |w| == |t| by { LowerIsFold(w, t); FoldLength(w, t); }
      LowerPart(s, |x|, |x| + |w|);
      assert s[|x|..|x| + |w|] == w;
      LowerIsFold(w, t);
      assert OccursAt(Lower(s), t, |x|);
    }
  }

  lemma FoldLength(s: string, t: string)
    requires EqualFold(s, t)
    ensures |s| == |t|
  {
  }

  /** The rank of a role, whatever its case: admin over manager over user over guest, and user for any other. */
  lemma RankIs(role: Option<string>)
    ensures Rank(role) ==
      if role.None? then 1
      else if EqualFold(role.value, "admin") then 3
      else if EqualFold(role.value, "manager") then 2
      else if EqualFold(role.value, "guest") then 0
      else 1
  {
    if role.Some? {
      LowerIsFold(role.value, "admin");
      LowerIsFold(role.value, "manager");
      LowerIsFold(role.value, "user");
      LowerIsFold(role.value, "guest");
      assert Lower("admin") == "admin" && Lower("manager") == "manager" && Lower("user") == "user" && Lower("guest") == "guest";
    }
  }

  // ------------------------------------------------------------------
  // Kind by kind
  // ------------------------------------------------------------------

  lemma RoundingAt50(x: real)
    ensures Round4(x) >= 0.5 <==> x >= 0.49995
  {
    var y := x * 10000.0;
    assert HalfEven(y) >= 5000 <==> y >= 4999.5;
  }

  ghost predicate HasTamperMark(token: Option<string>) {
    token.Some? &&
      (Within("alg=none", token.value) || Within("eyJhbGciOiJub25lIiwidHlwIjoiSldUIn0", token.value)
       || Within("__tampered__", token.value))
  }

  lemma TamperedIff(token: Option<string>)
    ensures Tampered(token) <==> HasTamperMark(token)
  {
    forall m | m in TAMPER_MARKERS ensures Contains(OrEmpty(token), m) <==> token.Some? && Within(m, token.value) {
      ContainsIff(OrEmpty(token), m);
      assert |m| > 0;
    }
    assert TAMPER_MARKERS == {"alg=none", "eyJhbGciOiJub25lIiwidHlwIjoiSldUIn0", "__tampered__"};
    hide Contains, Within;
  }

  ghost predicate SoundsSensitive(field: string) {
    || WithinFold("token", field) || WithinFold("secret", field) || WithinFold("key", field) || WithinFold("hash", field)
    || WithinFold("internal", field) || WithinFold("debug", field) || WithinFold("password", field)
    || WithinFold("private", field)
  }

  lemma SensitiveIff(field: string)
    ensures Sensitive(field) <==> SoundsSensitive(field)
  {
    hide Contains, WithinFold, Lower;
    LowerContainsIff(field, "token");
    LowerContainsIff(field, "secret");
    LowerContainsIff(field, "key");
    LowerContainsIff(field, "hash");
    LowerContainsIff(field, "internal");
    LowerContainsIff(field, "debug");
    LowerContainsIff(field, "password");
    LowerContainsIff(field, "private");
  }

  ghost predicate OneKnownTenant(a: Response, b: Response) {
    a.tenant.Some? && a.tenant.value != "" && b.tenant == a.tenant
  }

  /** What each kind of issue says about the two responses. */
  ghost predicate Shows(kind: Kind, o: Oracle, a: Response, b: Response, added: set<string>) {
    match kind
    case JwtBypass => b.status == 200 && HasTamperMark(b.token)
    case TenantLeak => ShareAnId(o, a, b) && !OneKnownTenant(a, b)
    case Bola => a.status == 200 && b.status == 200 && Alike(o, 0.64995, a, b)
    case Bfla => (a.status == 401 || a.status == 403) && b.status == 200
    case PrivilegeEscalation =>
      a.status == 200 && b.status == 200 && Rank(b.role) < Rank(a.role) && Alike(o, 0.49995, a, b)
    case InfoDisclosure => exists f :: f in added && SoundsSensitive(f)
  }

  lemma SimilarityIff(o: Oracle, degree: real, a: Response, b: Response)
    ensures Alike(o, degree, a, b) <==> Similarity(o, a, b) >= degree
  {
  }

  lemma FiresIff(o: Oracle, threshold: real, a: Response, b: Response, d: DiffResult, kind: Kind)
    requires IsDiffOf(o, threshold, a, b, d) && d.isAnomaly
    ensures Fires(kind, d) <==> Shows(kind, o, a, b, d.fields.added)
  {
    FlaggedIff(o, threshold, a, b, d);
    assert a.user != b.user && d.a == a && d.b == b && d.similarity == Round4(Similarity(o, a, b)) && d.foreign == ForeignIds(o, a, b);
    hide IsDiffOf, IsAnomaly, Alike, Round4, Similarity, Rank, Tampered, Sensitive, HasTamperMark, SoundsSensitive, ForeignIds;
    match kind
    case JwtBypass => TamperedIff(b.token);
    case TenantLeak => ForeignShared(o, a, b);
    case Bola => RoundingAt65(Similarity(o, a, b)); SimilarityIff(o, 0.64995, a, b);
    case Bfla =>
    case PrivilegeEscalation => RoundingAt50(Similarity(o, a, b)); SimilarityIff(o, 0.49995, a, b);
    case InfoDisclosure => forall f { SensitiveIff(f); }
  }

  lemma ForeignShared(o: Oracle, a: Response, b: Response)
    requires a.user != b.user
    ensures ForeignIds(o, a, b) != {} <==> ShareAnId(o, a, b)
  {
    if id :| id in o.ids(a.bodyJson) && id in o.ids(b.bodyJson) {
      ForeignIff(o, a, b, id);
    }
    if ForeignIds(o, a, b) != {} {
      var id :| id in ForeignIds(o, a, b);
      ForeignIff(o, a, b, id);
    }
  }

  /** An issue of a kind is reported about a pair exactly if the pair is an anomaly and shows what the kind says. */
  lemma ReportedIff(o: Oracle, threshold: real, a: Response, b: Response, d: DiffResult, kind: Kind)
    requires IsDiffOf(o, threshold, a, b, d)
    ensures Issue(kind, d) in Classified(d) <==> IsAnomaly(o, threshold, a, b) && Shows(kind, o, a, b, d.fields.added)
  {
    hide Fires, Shows, IsAnomaly, Classified;
    FlaggedIff(o, threshold, a, b, d);
    ClassifiedHas(d, Issue(kind, d));
    if d.isAnomaly {
      FiresIff(o, threshold, a, b, d, kind);
    }
  }

  /** A refusal of the first user that the second does not meet is reported, whatever the threshold. */
  lemma RefusalsAreReported(o: Oracle, threshold: real, a: Response, b: Response, d: DiffResult)
    requires IsDiffOf(o, threshold, a, b, d)
    requires a.user != b.user && (a.status == 401 || a.status == 403) && b.status == 200
    ensures d.isAnomaly && Issue(Bfla, d) in Classified(d)
  {
    FlaggedIff(o, threshold, a, b, d);
    ReportedIff(o, threshold, a, b, d, Bfla);
  }

  // ------------------------------------------------------------------
  // Order
  // ------------------------------------------------------------------

  /** The order in which kinds are checked. */
  function Turn(kind: Kind): nat {
    match kind
    case JwtBypass => 0
    case TenantLeak => 1
    case Bola => 2
    case Bfla => 3
    case PrivilegeEscalation => 4
    case InfoDisclosure => 5
  }

  predicate InTurn(issues: seq<Issue>) {
    forall i, j :: 0 <= i < j < |issues| ==> Turn(issues[i].kind) < Turn(issues[j].kind)
  }

  /** The issues of a pair come in that order, no kind twice. */
  lemma IssuesInTurn(d: DiffResult)
    ensures InTurn(Classified(d))
  {
    CheckedInTurn(CHECKERS, d);
  }

  lemma {:induction false} CheckedInTurn(kinds: seq<Kind>, d: DiffResult)
    requires forall i, j :: 0 <= i < j < |kinds| ==> Turn(kinds[i]) < Turn(kinds[j])
    ensures InTurn(Checked(kinds, d))
  {
    if kinds != [] {
      var n := |kinds| - 1;
      CheckedInTurn(kinds[..n], d);
      var before := Checked(kinds[..n], d);
      forall i | 0 <= i < |before| ensures Turn(before[i].kind) < Turn(kinds[n]) {
        assert before[i] in before;
        CheckedHas(kinds[..n], d, before[i]);
        var k :| 0 <= k < n && kinds[..n][k] == before[i].kind;
        assert kinds[k] == before[i].kind;
      }
      hide Fires;
      assert InTurn(before + [Issue(kinds[n], d)]);
      assert before + [] == before;
    }
  }
}
