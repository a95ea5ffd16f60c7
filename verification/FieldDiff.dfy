/** The field diff of two response bodies. */
module FieldDiff {
  import opened TaskQueue
  import opened JsonFlatten

  /** Field names of both bodies, of the second only, of the first only, and the values that differ. */
  datatype Diff = Diff(leaked: set<string>, added: set<string>, removed: set<string>,
                       changes: map<string, (Scalar, Scalar)>)

  /** Python's truth value. An absent body is the null leaf. */
  predicate Truthy(j: Json) {
    match j
    case Leaf(Null) => false
    case Leaf(Number(x)) => x != 0.0
    case Leaf(Text(t)) => t != ""
    case Obj(m) => m != map[]
    case Arr(items) => items != []
  }

  ghost predicate FlatBody(j: Json, f: map<string, Scalar>) {
    if Truthy(j) then Flattens(j, "", f) else f == map[]
  }

  ghost predicate Compares(d: Diff, fa: map<string, Scalar>, fb: map<string, Scalar>) {
    && d.leaked == fa.Keys * fb.Keys && d.added == fb.Keys - fa.Keys && d.removed == fa.Keys - fb.Keys
    && (forall k :: k in d.changes <==> k in fa && k in fb && fa[k] != fb[k])
    && (forall k :: k in d.changes ==> d.changes[k] == (fa[k], fb[k]))
  }

  ghost predicate DiffOf(a: Json, b: Json, d: Diff) {
    exists fa, fb :: FlatBody(a, fa) && FlatBody(b, fb) && Compares(d, fa, fb)
  }

  /** `_field_diff`. */
  method CompareFields(a: Json, b: Json) returns (d: Diff)
    ensures DiffOf(a, b, d)
  {
    hide Flattens;
    if a == Leaf(Null) && b == Leaf(Null) {
      d := Diff({}, {}, {}, map[]);
      assert FlatBody(a, map[]) && FlatBody(b, map[]) && Compares(d, map[], map[]);
      return;
    }
    var fa, fb := map[], map[];
    if Truthy(a) {
      fa := FlattenJson(a, "");
    }
    if Truthy(b) {
      fb := FlattenJson(b, "");
    }
    var changes := ChangedValues(fa, fb);
    d := Diff(fa.Keys * fb.Keys, fb.Keys - fa.Keys, fa.Keys - fb.Keys, changes);
    assert FlatBody(a, fa) && FlatBody(b, fb) && Compares(d, fa, fb);
  }

  /** The loop over the common keys. */
  method ChangedValues(fa: map<string, Scalar>, fb: map<string, Scalar>) returns (changes: map<string, (Scalar, Scalar)>)
    ensures forall k :: k in changes <==> k in fa && k in fb && fa[k] != fb[k]
    ensures forall k :: k in changes ==> changes[k] == (fa[k], fb[k])
  {
    changes := map[];
    var todo := fa.Keys * fb.Keys;
    while todo != {}
      invariant todo <= fa.Keys * fb.Keys
      invariant forall k :: k in changes <==> k in fa && k in fb && k !in todo && fa[k] != fb[k]
      invariant forall k :: k in changes ==> changes[k] == (fa[k], fb[k])
    {
      var k :| k in todo;
      todo := todo - {k};
      if fa[k] != fb[k] {
        changes := changes[k := (fa[k], fb[k])];
      }
    }
  }

  // ------------------------------------------------------------------
  // What the diff means on legal trees
  // ------------------------------------------------------------------

  ghost predicate LegalKeys(j: Json) {
    match j
    case Leaf(_) => true
    case Obj(m) => forall k :: k in m ==> LegalKey(k) && LegalKeys(m[k])
    case Arr(items) => forall i :: 0 <= i < |items| ==> LegalKeys(items[i])
  }

  predicate NoEmpties(j: Json) {
    match j
    case Leaf(_) => true
    case Obj(m) => m != map[] && forall k :: k in m ==> NoEmpties(m[k])
    case Arr(items) => items != [] && forall i :: 0 <= i < |items| ==> NoEmpties(items[i])
  }

  /** Rooted at an object or list, every key legal, no container empty. */
  ghost predicate Legal(j: Json) { !j.Leaf? && LegalKeys(j) && NoEmpties(j) }

  lemma LegalChild(j: Json, step: Step)
    requires Child(j, step).Some?
    ensures LegalKeys(j) ==> LegalKeys(Child(j, step).value) && (step.Key? ==> LegalKey(step.key))
    ensures NoEmpties(j) ==> NoEmpties(Child(j, step).value)
    ensures Child(j, step).value < j
  {
  }

  lemma {:induction false} LeafPathIsLegal(j: Json, p: seq<Step>)
    requires LegalKeys(j) && LeafAt(j, p).Some?
    ensures LegalPath(p)
    decreases |p|
  {
    if p != [] {
      LegalChild(j, p[0]);
      hide LegalKeys;
      LeafPathIsLegal(Child(j, p[0]).value, p[1..]);
      assert p == [p[0]] + p[1..];
    }
  }

  /** A legal path's string is a key of the flat form exactly when the tree has a leaf there, with that value. */
  lemma FlatAt(j: Json, f: map<string, Scalar>, p: seq<Step>)
    requires !j.Leaf? && LegalKeys(j) && Flattens(j, "", f) && p != [] && LegalPath(p)
    ensures Encode("", p) in f <==> LeafAt(j, p).Some?
    ensures Encode("", p) in f ==> LeafAt(j, p) == Some(f[Encode("", p)])
  {
    hide LegalKeys, LegalPath, Encode;
    var s := Encode("", p);
    if s in f {
      assert FromLeaf(j, "", s, f[s]);
      var q :| LeafAt(j, q) == Some(f[s]) && Encode("", q) == s;
      LeafPathIsLegal(j, q);
      EncodeInjective(p, q);
    }
  }

  /** Each part of the diff of two legal trees is what it is documented to be, path by path. */
  lemma DiffMeans(a: Json, b: Json, d: Diff, p: seq<Step>)
    requires Legal(a) && Legal(b) && DiffOf(a, b, d) && p != [] && LegalPath(p)
    ensures var s, va, vb := Encode("", p), LeafAt(a, p), LeafAt(b, p);
      && (s in d.leaked <==> va.Some? && vb.Some?)
      && (s in d.added <==> va.None? && vb.Some?)
      && (s in d.removed <==> va.Some? && vb.None?)
      && (s in d.changes <==> va.Some? && vb.Some? && va != vb)
      && (s in d.changes ==> d.changes[s] == (va.value, vb.value))
  {
    hide LegalKeys, LegalPath, Encode, Flattens;
    var fa, fb :| FlatBody(a, fa) && FlatBody(b, fb) && Compares(d, fa, fb);
    FlatAt(a, fa, p);
    FlatAt(b, fb, p);
  }

  /** And it lists nothing but paths of leaves. */
  lemma DiffListsPaths(a: Json, b: Json, d: Diff, s: string)
    requires Legal(a) && Legal(b) && DiffOf(a, b, d) && s in d.leaked + d.added + d.removed + d.changes.Keys
    ensures exists p :: p != [] && LegalPath(p) && Encode("", p) == s && (LeafAt(a, p).Some? || LeafAt(b, p).Some?)
  {
    hide LegalKeys, LegalPath, Encode, NoEmpties, Flattens;
    var fa, fb :| FlatBody(a, fa) && FlatBody(b, fb) && Compares(d, fa, fb);
    if s in fa {
      var p := FlatKeyIsPath(a, fa, s);
    } else {
      var p := FlatKeyIsPath(b, fb, s);
    }
  }

  lemma FlatKeyIsPath(j: Json, f: map<string, Scalar>, s: string) returns (p: seq<Step>)
    requires !j.Leaf? && LegalKeys(j) && Flattens(j, "", f) && s in f
    ensures p != [] && LegalPath(p) && Encode("", p) == s && LeafAt(j, p).Some?
  {
    hide LegalKeys, LegalPath, Encode;
    assert FromLeaf(j, "", s, f[s]);
    p :| LeafAt(j, p) == Some(f[s]) && Encode("", p) == s;
    LeafPathIsLegal(j, p);
  }

  // ------------------------------------------------------------------
  // Nothing to report means equal
  // ------------------------------------------------------------------

  lemma {:induction false} SomeLeaf(j: Json) returns (p: seq<Step>)
    requires NoEmpties(j)
    ensures LeafAt(j, p).Some?
    decreases j
  {
    if j.Leaf? {
      p := [];
    } else {
      var step;
      if j.Obj? {
        var k :| k in j.members;
        step := Key(k);
      } else {
        step := Index(0);
      }
      LegalChild(j, step);
      hide NoEmpties;
      var rest := SomeLeaf(Child(j, step).value);
      ChildLeaf(j, "", step, rest);
      p := [step] + rest;
    }
  }

  ghost predicate SameLeaves(a: Json, b: Json) { forall p :: LeafAt(a, p) == LeafAt(b, p) }

  lemma SameChild(a: Json, b: Json, step: Step)
    requires NoEmpties(a) && SameLeaves(a, b) && Child(a, step).Some?
    ensures Child(b, step).Some? && SameLeaves(Child(a, step).value, Child(b, step).value)
  {
    LegalChild(a, step);
    hide NoEmpties;
    var p := SomeLeaf(Child(a, step).value);
    ChildLeaf(a, "", step, p);
    assert LeafAt(b, [step] + p).Some?;
    forall q
      ensures LeafAt(Child(a, step).value, q) == LeafAt(Child(b, step).value, q)
    {
      ChildLeaf(a, "", step, q);
      ChildLeaf(b, "", step, q);
    }
  }

  /** Trees without empty containers are determined by their leaves. */
  lemma {:induction false} LeavesDetermine(a: Json, b: Json)
    requires NoEmpties(a) && NoEmpties(b) && SameLeaves(a, b)
    ensures a == b
    decreases a
  {
    if a.Leaf? {
      assert LeafAt(a, []).Some? && LeafAt(a, []) == LeafAt(b, []);
    } else {
      forall step | Child(a, step).Some?
        ensures Child(a, step) == Child(b, step)
      {
        SameChild(a, b, step);
        LegalChild(a, step);
        LegalChild(b, step);
        LeavesDetermine(Child(a, step).value, Child(b, step).value);
      }
      forall step | Child(b, step).Some?
        ensures Child(a, step).Some?
      {
        SameChild(b, a, step);
      }
      SameSteps(a, b);
    }
  }

  lemma SameSteps(a: Json, b: Json)
    requires !a.Leaf? && NoEmpties(a)
    requires forall step :: Child(a, step).Some? ==> Child(a, step) == Child(b, step)
    requires forall step :: Child(b, step).Some? ==> Child(a, step).Some?
    ensures a == b
  {
    if a.Obj? {
      var k :| k in a.members;
      assert Child(a, Key(k)).Some?;
      forall k | k in a.members || k in b.members
        ensures k in a.members && k in b.members && a.members[k] == b.members[k]
      {
        assert Child(a, Key(k)) == Child(b, Key(k));
      }
      assert a.members == b.members;
    } else {
      assert Child(a, Index(0)).Some?;
      assert Child(b, Index(|a.items|)).None? && Child(a, Index(|b.items|)).None?;
      forall i | 0 <= i < |a.items|
        ensures a.items[i] == b.items[i]
      {
        assert Child(a, Index(i)) == Child(b, Index(i));
      }
      assert a.items == b.items;
    }
  }

  predicate NothingToReport(d: Diff) { d.added == {} && d.removed == {} && d.changes == map[] }

  /** On legal trees the diff reports nothing added, removed or changed exactly when they are equal. */
  lemma DiffEmptyIffEqual(a: Json, b: Json, d: Diff)
    requires Legal(a) && Legal(b) && DiffOf(a, b, d)
    ensures NothingToReport(d) <==> a == b
  {
    if NothingToReport(d) {
      EmptyDiffMeansEqual(a, b, d);
    } else {
      SomethingMeansDifferent(a, b, d);
    }
  }

  lemma EmptyDiffMeansEqual(a: Json, b: Json, d: Diff)
    requires Legal(a) && Legal(b) && DiffOf(a, b, d) && NothingToReport(d)
    ensures a == b
  {
    forall p
      ensures LeafAt(a, p) == LeafAt(b, p)
    {
      if p != [] && LegalPath(p) {
        DiffMeans(a, b, d, p);
      } else if LeafAt(a, p).Some? {
        LeafPathIsLegal(a, p);
      } else if LeafAt(b, p).Some? {
        LeafPathIsLegal(b, p);
      }
    }
    LeavesDetermine(a, b);
  }

  lemma SomethingMeansDifferent(a: Json, b: Json, d: Diff)
    requires Legal(a) && Legal(b) && DiffOf(a, b, d) && !NothingToReport(d)
    ensures a != b
  {
    var s :| s in d.added + d.removed + d.changes.Keys;
    DiffListsPaths(a, b, d, s);
    var p :| p != [] && LegalPath(p) && Encode("", p) == s && (LeafAt(a, p).Some? || LeafAt(b, p).Some?);
    DiffMeans(a, b, d, p);
  }

  // ------------------------------------------------------------------
  // Each condition of legality is needed
  // ------------------------------------------------------------------

  /** The only leaf of j is v at p. */
  ghost predicate OnlyLeaf(j: Json, p: seq<Step>, v: Scalar) {
    LeafAt(j, p) == Some(v) && forall q :: LeafAt(j, q).Some? ==> q == p
  }

  lemma OnlyLeafFlat(j: Json, p: seq<Step>, v: Scalar, f: map<string, Scalar>)
    requires OnlyLeaf(j, p, v) && Flattens(j, "", f)
    ensures f == map[Encode("", p) := v]
  {
    assert Encode("", p) in f;
    forall s | s in f
      ensures s == Encode("", p) && f[s] == v
    {
      assert FromLeaf(j, "", s, f[s]);
    }
  }

  lemma OnlyBelow(j: Json, step: Step, p: seq<Step>, v: Scalar)
    requires Child(j, step).Some? && OnlyLeaf(Child(j, step).value, p, v)
    requires !j.Leaf? && forall s :: Child(j, s).Some? ==> s == step
    ensures OnlyLeaf(j, [step] + p, v)
  {
    ChildLeaf(j, "", step, p);
    forall q | LeafAt(j, q).Some?
      ensures q == [step] + p
    {
      assert q == [step] + q[1..];
      ChildLeaf(j, "", step, q[1..]);
    }
  }

  lemma LeafOnly(v: Scalar)
    ensures OnlyLeaf(Leaf(v), [], v)
  {
  }

  /** Two trees with one leaf each, of the same string and value, show no difference. */
  lemma SameString(a: Json, b: Json, p: seq<Step>, q: seq<Step>, v: Scalar, d: Diff)
    requires OnlyLeaf(a, p, v) && OnlyLeaf(b, q, v) && Encode("", p) == Encode("", q)
    requires Truthy(a) && Truthy(b) && DiffOf(a, b, d)
    ensures NothingToReport(d)
  {
    hide OnlyLeaf, Flattens, Encode;
    var fa, fb :| FlatBody(a, fa) && FlatBody(b, fb) && Compares(d, fa, fb);
    OnlyLeafFlat(a, p, v, fa);
    OnlyLeafFlat(b, q, v, fb);
  }

  /** A dot in a key: {"k.l": v} and {"k": {"l": v}} differ and no difference is reported. */
  lemma DotHidesNesting(k: string, l: string, v: Scalar, d: Diff)
    requires k != "" && DiffOf(Obj(map[k + "." + l := Leaf(v)]), Obj(map[k := Obj(map[l := Leaf(v)])]), d)
    ensures Obj(map[k + "." + l := Leaf(v)]) != Obj(map[k := Obj(map[l := Leaf(v)])])
    ensures NothingToReport(d)
  {
    var inner := Obj(map[l := Leaf(v)]);
    var a, b := Obj(map[k + "." + l := Leaf(v)]), Obj(map[k := inner]);
    assert k + "." + l in a.members;
    assert k in b.members && l in inner.members;
    assert |k + "." + l| > |k|;
    hide OnlyLeaf, DiffOf;
    LeafOnly(v);
    OnlyBelow(a, Key(k + "." + l), [], v);
    OnlyBelow(inner, Key(l), [], v);
    OnlyBelow(b, Key(k), [Key(l)] + [], v);
    SameString(a, b, [Key(k + "." + l)] + [], [Key(k)] + ([Key(l)] + []), v, d);
  }

  /** A bracket in a key: {"k[0]": v} and {"k": [v]} differ and no difference is reported. */
  lemma BracketHidesList(k: string, v: Scalar, d: Diff)
    requires k != "" && DiffOf(Obj(map[k + "[0]" := Leaf(v)]), Obj(map[k := Arr([Leaf(v)])]), d)
    ensures Obj(map[k + "[0]" := Leaf(v)]) != Obj(map[k := Arr([Leaf(v)])])
    ensures NothingToReport(d)
  {
    var inner := Arr([Leaf(v)]);
    var a, b := Obj(map[k + "[0]" := Leaf(v)]), Obj(map[k := inner]);
    assert k + "[0]" in a.members && k in b.members;
    assert |k + "[0]"| > |k|;
    hide OnlyLeaf, DiffOf;
    LeafOnly(v);
    OnlyBelow(a, Key(k + "[0]"), [], v);
    OnlyBelow(inner, Index(0), [], v);
    OnlyBelow(b, Key(k), [Index(0)] + [], v);
    assert k + "[" + Decimal(0) + "]" == k + "[0]";
    SameString(a, b, [Key(k + "[0]")] + [], [Key(k)] + ([Index(0)] + []), v, d);
  }

  /** An empty key at the root leaves no trace: wrapping a body as {"": body} flattens to the same strings. */
  lemma EmptyKeyVanishes(j: Json, f: map<string, Scalar>)
    ensures Flattens(Obj(map["" := j]), "", f) <==> Flattens(j, "", f)
  {
    var w := Obj(map["" := j]);
    assert "" in w.members && Child(w, Key("")) == Some(j);
    forall p
      ensures LeafAt(w, [Key("")] + p) == LeafAt(j, p) && Encode("", [Key("")] + p) == Encode("", p)
    {
      ChildLeaf(w, "", Key(""), p);
    }
    forall q | LeafAt(w, q).Some?
      ensures q != [] && q == [Key("")] + q[1..] && LeafAt(j, q[1..]) == LeafAt(w, q) && Encode("", q[1..]) == Encode("", q)
    {
      ChildLeaf(w, "", Key(""), q[1..]);
    }
    hide Encode;
    if Flattens(j, "", f) {
      WrappedFlat(j, w, f);
    }
    if Flattens(w, "", f) {
      UnwrappedFlat(j, w, f);
    }
  }

  lemma WrappedFlat(j: Json, w: Json, f: map<string, Scalar>)
    requires forall p :: LeafAt(w, [Key("")] + p) == LeafAt(j, p) && Encode("", [Key("")] + p) == Encode("", p)
    requires forall q :: LeafAt(w, q).Some? ==> q != [] && LeafAt(j, q[1..]) == LeafAt(w, q) && Encode("", q[1..]) == Encode("", q)
    requires Flattens(j, "", f)
    ensures Flattens(w, "", f)
  {
    hide LeafAt, Encode;
    forall s | s in f
      ensures FromLeaf(w, "", s, f[s])
    {
      assert FromLeaf(j, "", s, f[s]);
      var p :| LeafAt(j, p) == Some(f[s]) && Encode("", p) == s;
      assert LeafAt(w, [Key("")] + p) == Some(f[s]);
    }
  }

  lemma UnwrappedFlat(j: Json, w: Json, f: map<string, Scalar>)
    requires forall p :: LeafAt(w, [Key("")] + p) == LeafAt(j, p) && Encode("", [Key("")] + p) == Encode("", p)
    requires forall q :: LeafAt(w, q).Some? ==> q != [] && LeafAt(j, q[1..]) == LeafAt(w, q) && Encode("", q[1..]) == Encode("", q)
    requires Flattens(w, "", f)
    ensures Flattens(j, "", f)
  {
    hide LeafAt, Encode;
    forall s | s in f
      ensures FromLeaf(j, "", s, f[s])
    {
      assert FromLeaf(w, "", s, f[s]);
      var q :| LeafAt(w, q) == Some(f[s]) && Encode("", q) == s;
      assert LeafAt(j, q[1..]) == Some(f[s]);
    }
  }

  /** So the diff of {"": body} and body is the diff of body with itself. */
  lemma EmptyKeyHidesWrapping(j: Json, d: Diff)
    requires Truthy(j)
    ensures DiffOf(Obj(map["" := j]), j, d) <==> DiffOf(j, j, d)
    ensures Obj(map["" := j]) != j
  {
    var w := Obj(map["" := j]);
    assert "" in w.members && j < w;
    hide Flattens, Compares;
    forall f: map<string, Scalar>
      ensures FlatBody(w, f) <==> FlatBody(j, f)
    {
      EmptyKeyVanishes(j, f);
    }
  }

  lemma NoLeafFlat(j: Json, f: map<string, Scalar>)
    requires forall p :: LeafAt(j, p).None?
    ensures Flattens(j, "", f) <==> f == map[]
  {
    if f != map[] {
      var s :| s in f;
      assert !FromLeaf(j, "", s, f[s]);
    }
  }

  /** An empty container leaves no trace: {"k": {}} and {"k": []} differ and no difference is reported. */
  lemma EmptyContainersVanish(k: string, d: Diff)
    requires DiffOf(Obj(map[k := Obj(map[])]), Obj(map[k := Arr([])]), d)
    ensures Obj(map[k := Obj(map[])]) != Obj(map[k := Arr([])])
    ensures NothingToReport(d)
  {
    var a, b := Obj(map[k := Obj(map[])]), Obj(map[k := Arr([])]);
    assert k in a.members && a.members[k] != b.members[k];
    forall p
      ensures LeafAt(a, p).None? && LeafAt(b, p).None?
    {
      if p != [] && Child(a, p[0]).Some? {
        assert p[0] == Key(k);
      }
    }
    hide Flattens;
    var fa, fb :| FlatBody(a, fa) && FlatBody(b, fb) && Compares(d, fa, fb);
    NoLeafFlat(a, fa);
    NoLeafFlat(b, fb);
  }

  /** Bodies that Python takes for false - absent, 0, "", {} and [] - are all reported alike. */
  lemma FalsyBodiesAlike(a: Json, b: Json, d: Diff)
    requires a in {Leaf(Null), Leaf(Number(0.0)), Leaf(Text("")), Obj(map[]), Arr([])}
    requires b in {Leaf(Null), Leaf(Number(0.0)), Leaf(Text("")), Obj(map[]), Arr([])}
    requires DiffOf(a, b, d)
    ensures NothingToReport(d)
  {
    hide Flattens;
  }

  predicate IsFalsy(x: Scalar) { x == Null || x == Number(0.0) || x == Text("") }

  lemma ScalarFlat(x: Scalar, f: map<string, Scalar>)
    requires FlatBody(Leaf(x), f)
    ensures f == if IsFalsy(x) then map[] else map["" := x]
  {
    if !IsFalsy(x) {
      assert LeafAt(Leaf(x), []) == Some(x) && Encode("", []) == "";
      forall s | s in f ensures s == "" && f[s] == x {
        assert FromLeaf(Leaf(x), "", s, f[s]);
        var p :| LeafAt(Leaf(x), p) == Some(f[s]) && Encode("", p) == s;
        assert p == [];
      }
    }
  }

  /** A body that is a scalar stands under the empty string, unless Python takes it for false. */
  lemma ScalarBodies(x: Scalar, y: Scalar, d: Diff)
    requires DiffOf(Leaf(x), Leaf(y), d)
    ensures d.leaked == (if !IsFalsy(x) && !IsFalsy(y) then {""} else {})
    ensures d.added == (if IsFalsy(x) && !IsFalsy(y) then {""} else {})
    ensures d.removed == (if !IsFalsy(x) && IsFalsy(y) then {""} else {})
    ensures d.changes == if !IsFalsy(x) && !IsFalsy(y) && x != y then map["" := (x, y)] else map[]
  {
    hide Flattens;
    var fa, fb :| FlatBody(Leaf(x), fa) && FlatBody(Leaf(y), fb) && Compares(d, fa, fb);
    ScalarFlat(x, fa);
    ScalarFlat(y, fb);
    hide FlatBody, IsFalsy;
  }
}
