/** Flattening of JSON trees to path strings, and the field-by-field diff built on it. */
module JsonFlatten {
  import opened TaskQueue

  /** Booleans are numbers: Python's == does not tell them apart. */
  datatype Scalar = Null | Number(value: real) | Text(text: string)

  datatype Json = Leaf(value: Scalar) | Obj(members: map<string, Json>) | Arr(items: seq<Json>)

  datatype Step = Key(key: string) | Index(index: nat)

  function Child(j: Json, step: Step): Option<Json> {
    match step
    case Key(k) => if j.Obj? && k in j.members then Some(j.members[k]) else None
    case Index(i) => if j.Arr? && i < |j.items| then Some(j.items[i]) else None
  }

  /** The scalar at the end of a path, if the path ends at one. */
  function LeafAt(j: Json, p: seq<Step>): Option<Scalar>
    decreases |p|
  {
    if p == [] then (if j.Leaf? then Some(j.value) else None)
    else if Child(j, p[0]).Some? then LeafAt(Child(j, p[0]).value, p[1..])
    else None
  }

  // ------------------------------------------------------------------
  // Path strings
  // ------------------------------------------------------------------

  function Digit(d: nat): char
    requires d < 10
  {
    "0123456789"[d]
  }

  function Decimal(n: nat): string {
    if n < 10 then [Digit(n)] else Decimal(n / 10) + [Digit(n % 10)]
  }

  function Extend(prefix: string, step: Step): string {
    match step
    case Key(k) => if prefix != "" then prefix + "." + k else k
    case Index(i) => prefix + "[" + Decimal(i) + "]"
  }

  function Encode(prefix: string, p: seq<Step>): string
    decreases |p|
  {
    if p == [] then prefix else Encode(Extend(prefix, p[0]), p[1..])
  }

  // ------------------------------------------------------------------
  // Flattening
  // ------------------------------------------------------------------

  ghost predicate FromLeaf(j: Json, prefix: string, s: string, v: Scalar) {
    exists p :: LeafAt(j, p) == Some(v) && Encode(prefix, p) == s
  }

  /** f holds a leaf of j under every one of its strings, and has a string for every leaf. */
  ghost predicate Flattens(j: Json, prefix: string, f: map<string, Scalar>) {
    && (forall s :: s in f ==> FromLeaf(j, prefix, s, f[s]))
    && (forall p :: LeafAt(j, p).Some? ==> Encode(prefix, p) in f)
  }

  /** The same for the leaves below the children in `done`. */
  ghost predicate Partly(j: Json, prefix: string, f: map<string, Scalar>, done: set<Step>) {
    && (forall s :: s in f ==> FromLeaf(j, prefix, s, f[s]))
    && (forall p :: p != [] && p[0] in done && LeafAt(j, p).Some? ==> Encode(prefix, p) in f)
  }

  lemma ChildLeaf(j: Json, prefix: string, step: Step, p: seq<Step>)
    requires Child(j, step).Some?
    ensures LeafAt(j, [step] + p) == LeafAt(Child(j, step).value, p)
    ensures Encode(prefix, [step] + p) == Encode(Extend(prefix, step), p)
  {
    assert ([step] + p)[1..] == p;
  }

  lemma FromChild(j: Json, prefix: string, step: Step, s: string, v: Scalar)
    requires Child(j, step).Some? && FromLeaf(Child(j, step).value, Extend(prefix, step), s, v)
    ensures FromLeaf(j, prefix, s, v)
  {
    var p :| LeafAt(Child(j, step).value, p) == Some(v) && Encode(Extend(prefix, step), p) == s;
    ChildLeaf(j, prefix, step, p);
  }

  /** Merging one more child in. */
  lemma AddChild(j: Json, prefix: string, f: map<string, Scalar>, done: set<Step>, step: Step, sub: map<string, Scalar>)
    requires Child(j, step).Some? && Partly(j, prefix, f, done)
    requires Flattens(Child(j, step).value, Extend(prefix, step), sub)
    ensures Partly(j, prefix, f + sub, done + {step})
  {
    forall s | s in f + sub
      ensures FromLeaf(j, prefix, s, (f + sub)[s])
    {
      if s in sub {
        FromChild(j, prefix, step, s, sub[s]);
      }
    }
    forall p | p != [] && p[0] in done + {step} && LeafAt(j, p).Some?
      ensures Encode(prefix, p) in f + sub
    {
      if p[0] == step {
        assert p == [step] + p[1..];
        ChildLeaf(j, prefix, step, p[1..]);
      }
    }
  }

  lemma AllChildren(j: Json, prefix: string, f: map<string, Scalar>, done: set<Step>)
    requires !j.Leaf? && Partly(j, prefix, f, done) && forall step :: Child(j, step).Some? ==> step in done
    ensures Flattens(j, prefix, f)
  {
  }

  lemma LeafAlone(j: Json, prefix: string)
    requires j.Leaf?
    ensures Flattens(j, prefix, map[prefix := j.value])
  {
    assert LeafAt(j, []) == Some(j.value) && Encode(prefix, []) == prefix;
    forall p | LeafAt(j, p).Some?
      ensures p == []
    {
    }
  }

  /** `_flatten_json`. Members come in any order; where two leaves share a string, the last one written stays. */
  method FlattenJson(j: Json, prefix: string) returns (result: map<string, Scalar>)
    ensures Flattens(j, prefix, result)
    decreases j, 1
  {
    if j.Obj? {
      result := FlattenMembers(j, prefix);
    } else if j.Arr? {
      result := FlattenItems(j, prefix);
    } else {
      result := map[prefix := j.value];
      LeafAlone(j, prefix);
    }
  }

  /** The loop over the members of an object. */
  method FlattenMembers(j: Json, prefix: string) returns (result: map<string, Scalar>)
    requires j.Obj?
    ensures Flattens(j, prefix, result)
    decreases j, 0
  {
    hide Extend, Partly, Flattens;
    result := map[];
    ghost var done: set<Step> := {};
    NoneYet(j, prefix);
    var todo := j.members.Keys;
    while todo != {}
      invariant todo <= j.members.Keys
      invariant forall k :: k in j.members && k !in todo ==> Key(k) in done
      invariant Partly(j, prefix, result, done)
    {
      var k :| k in todo;
      var sub := FlattenJson(j.members[k], Extend(prefix, Key(k)));
      AddChild(j, prefix, result, done, Key(k), sub);
      result, todo, done := result + sub, todo - {k}, done + {Key(k)};
    }
    AllChildren(j, prefix, result, done);
  }

  /** The loop over the items of a list. */
  method FlattenItems(j: Json, prefix: string) returns (result: map<string, Scalar>)
    requires j.Arr?
    ensures Flattens(j, prefix, result)
    decreases j, 0
  {
    hide Extend, Partly, Flattens;
    result := map[];
    ghost var done: set<Step> := {};
    NoneYet(j, prefix);
    for i := 0 to |j.items|
      invariant forall k :: 0 <= k < i ==> Index(k) in done
      invariant Partly(j, prefix, result, done)
    {
      var sub := FlattenJson(j.items[i], Extend(prefix, Index(i)));
      AddChild(j, prefix, result, done, Index(i), sub);
      result, done := result + sub, done + {Index(i)};
    }
    AllChildren(j, prefix, result, done);
  }

  lemma NoneYet(j: Json, prefix: string)
    ensures Partly(j, prefix, map[], {})
  {
  }

  // ------------------------------------------------------------------
  // Path strings are faithful
  // ------------------------------------------------------------------

  function Bracket(n: nat): string { "[" + Decimal(n) + "]" }

  predicate EndsWith(s: string, t: string) { |t| <= |s| && s[|s| - |t|..] == t }

  /** The key could be mistaken for a shorter one with a list index behind it. */
  ghost predicate EndsInIndex(k: string) { exists n: nat :: EndsWith(k, Bracket(n)) }

  ghost predicate LegalKey(k: string) { k != "" && '.' !in k && !EndsInIndex(k) }

  ghost predicate LegalPath(p: seq<Step>) { forall s :: s in p && s.Key? ==> LegalKey(s.key) }

  lemma {:induction false} DecimalDigits(n: nat)
    ensures Decimal(n) != "" && forall c :: c in Decimal(n) ==> '0' <= c <= '9'
  {
    if n >= 10 {
      DecimalDigits(n / 10);
    }
  }

  lemma DigitInjective(a: nat, b: nat)
    requires a < 10 && b < 10 && Digit(a) == Digit(b)
    ensures a == b
  {
  }

  /** The number a string of digits stands for. */
  function ValueOf(s: string): int {
    if s == "" then 0 else 10 * ValueOf(s[..|s| - 1]) + (s[|s| - 1] as int - '0' as int)
  }

  lemma ValueSnoc(s: string, d: nat)
    requires d < 10
    ensures ValueOf(s + [Digit(d)]) == 10 * ValueOf(s) + d
  {
    assert (s + [Digit(d)])[..|s|] == s;
    DigitIs(d);
  }

  lemma DigitIs(d: nat)
    requires d < 10
    ensures Digit(d) as int == '0' as int + d
  {
  }

  /** Indices are spelled in decimal, without leading zeros. */
  lemma {:induction false} DecimalIs(n: nat)
    ensures ValueOf(Decimal(n)) == n && Decimal(n) != "" && (Decimal(n)[0] == '0' ==> n == 0)
  {
    hide Digit, ValueOf;
    if n >= 10 {
      DecimalIs(n / 10);
      ValueSnoc(Decimal(n / 10), n % 10);
    } else {
      ValueSnoc("", n);
      DigitIs(n);
      assert "" + [Digit(n)] == [Digit(n)];
      assert ValueOf("") == 0 by { NoValue(); }
    }
  }

  lemma NoValue()
    ensures ValueOf("") == 0
  {
  }

  lemma {:induction false} DecimalInjective(m: nat, n: nat)
    requires Decimal(m) == Decimal(n)
    ensures m == n
  {
    DecimalDigits(m / 10);
    DecimalDigits(n / 10);
    var s := Decimal(m);
    assert s[|s| - 1] == Digit(m % 10) == Digit(n % 10);
    DigitInjective(m % 10, n % 10);
    if m >= 10 && n >= 10 {
      assert s[..|s| - 1] == Decimal(m / 10) && s[..|s| - 1] == Decimal(n / 10);
      DecimalInjective(m / 10, n / 10);
    }
  }

  lemma BracketChars(n: nat)
    ensures |Bracket(n)| >= 3 && Bracket(n)[0] == '['
    ensures '.' !in Bracket(n) && '[' !in Bracket(n)[1..]
  {
    DecimalDigits(n);
    hide Decimal;
    assert Bracket(n)[1..] == Decimal(n) + "]";
  }

  lemma BracketInjective(m: nat, n: nat)
    requires Bracket(m) == Bracket(n)
    ensures m == n
  {
    hide Decimal;
    var s := Bracket(m);
    assert s[1..|s| - 1] == Decimal(m) && s[1..|s| - 1] == Decimal(n);
    DecimalInjective(m, n);
  }

  /** A path is spelled from the root: keys joined by dots, indices in brackets. */
  lemma EncodeIs(p: seq<Step>, k: string, i: nat)
    ensures Encode("", []) == ""
    ensures Encode("", p + [Key(k)]) == if Encode("", p) == "" then k else Encode("", p) + "." + k
    ensures Encode("", p + [Index(i)]) == Encode("", p) + "[" + Decimal(i) + "]" && ValueOf(Decimal(i)) == i
  {
    EncodeSnoc("", p, Key(k));
    EncodeSnoc("", p, Index(i));
    DecimalIs(i);
  }

  lemma {:induction false} EncodeSnoc(prefix: string, p: seq<Step>, step: Step)
    ensures Encode(prefix, p + [step]) == Extend(Encode(prefix, p), step)
    decreases |p|
  {
    hide Extend;
    if p == [] {
      assert [] + [step] == [step] && [step][1..] == [];
    } else {
      assert (p + [step])[1..] == p[1..] + [step];
      EncodeSnoc(Extend(prefix, p[0]), p[1..], step);
    }
  }

  /** Where two strings of an equal whole begin differently far from the end, the longer one shows a character of
      the other's front. */
  lemma Overlap(s: string, x: string, t: string, y: string)
    requires s + x == t + y
    ensures |x| < |y| ==> |s| > |t| && y[|y| - |x| - 1] == s[|s| - 1]
    ensures |x| == |y| ==> s == t && x == y
    ensures |x| >= |y| ==> EndsWith(x, y)
  {
    var w := s + x;
    assert |w| == |s| + |x| == |t| + |y|;
    assert w[|s|..] == x && w[|t|..] == y && w[..|s|] == s && w[..|t|] == t;
    if |x| < |y| {
      assert w[|s| - 1] == s[|s| - 1];
    }
    if |x| >= |y| {
      assert x[|x| - |y|..] == w[|w| - |y|..];
    }
  }

  lemma ExtendIndex(s: string, n: nat)
    ensures Extend(s, Index(n)) == s + Bracket(n)
  {
    hide Decimal;
    var d := Decimal(n);
    assert s + ("[" + d + "]") == s + "[" + d + "]";
  }

  lemma BothIndex(s: string, m: nat, t: string, n: nat)
    requires s + Bracket(m) == t + Bracket(n)
    ensures s == t && m == n
  {
    hide Decimal, Bracket;
    NoLonger(s, m, t, n);
    NoLonger(t, n, s, m);
    Overlap(s, Bracket(m), t, Bracket(n));
    BracketInjective(m, n);
  }

  lemma NoLonger(s: string, m: nat, t: string, n: nat)
    requires s + Bracket(m) == t + Bracket(n)
    ensures |Bracket(n)| <= |Bracket(m)|
  {
    hide Decimal, Bracket;
    var x, y := Bracket(m), Bracket(n);
    assert |x| < |y| ==> (t + y)[|s|] == y[|s| - |t|] && (s + x)[|s|] == x[0] by {
      BracketLength(m);
      assert |s| + |x| == |t| + |y|;
    }
    assert |x| < |y| ==> y[|s| - |t|] == y[1..][|s| - |t| - 1];
    BracketChars(m);
    BracketChars(n);
  }

  lemma BracketLength(n: nat)
    ensures |Bracket(n)| > 0
  {
  }

  /** A string that ends in an index and in a key ends in an index within the key. */
  lemma IndexInKey(s: string, n: nat, t: string, k: string)
    requires s + Bracket(n) == Extend(t, Key(k))
    ensures EndsWith(k, Bracket(n))
  {
    hide Decimal, Bracket;
    if t == "" {
      Overlap("", k, s, Bracket(n));
      assert "" + k == k;
    } else {
      assert t + "." + k == (t + ".") + k;
      Overlap(t + ".", k, s, Bracket(n));
    }
    BracketChars(n);
  }

  lemma BothKey(s: string, k: string, t: string, l: string)
    requires Extend(s, Key(k)) == Extend(t, Key(l)) && '.' !in k && '.' !in l
    ensures s == t && k == l
  {
    if s != "" && t != "" {
      assert s + "." + k == (s + ".") + k && t + "." + l == (t + ".") + l;
      Overlap(s + ".", k, t + ".", l);
      Overlap(t + ".", l, s + ".", k);
      assert (s + ".")[..|s|] == s && (t + ".")[..|t|] == t;
    }
  }

  ghost predicate LegalStep(x: Step) { x.Key? ==> LegalKey(x.key) }

  /** The last step of a path can be read off its string. */
  lemma LastStep(s: string, x: Step, t: string, y: Step)
    requires LegalStep(x) && LegalStep(y) && Extend(s, x) == Extend(t, y)
    ensures x == y && s == t
  {
    hide Extend, Bracket;
    match (x, y)
    case (Index(m), Index(n)) =>
      ExtendIndex(s, m);
      ExtendIndex(t, n);
      BothIndex(s, m, t, n);
    case (Index(m), Key(l)) =>
      ExtendIndex(s, m);
      IndexInKey(s, m, t, l);
    case (Key(k), Index(n)) =>
      ExtendIndex(t, n);
      IndexInKey(t, n, s, k);
    case (Key(k), Key(l)) => BothKey(s, k, t, l);
  }

  lemma SplitPath(p: seq<Step>)
    requires p != [] && LegalPath(p)
    ensures var front, last := p[..|p| - 1], p[|p| - 1];
      LegalPath(front) && LegalStep(last) && Encode("", p) == Extend(Encode("", front), last) != ""
  {
    var front, last := p[..|p| - 1], p[|p| - 1];
    assert p == front + [last] && last in p;
    EncodeSnoc("", front, last);
    hide LegalKey, Encode, Decimal;
    assert forall s :: s in front ==> s in p;
    if last.Key? {
      LegalIsNotEmpty(last.key);
    }
  }

  lemma LegalIsNotEmpty(k: string)
    requires LegalKey(k)
    ensures k != ""
  {
  }

  /** Paths of legal keys that are spelled alike are the same. */
  lemma {:induction false} EncodeInjective(p: seq<Step>, q: seq<Step>)
    requires LegalPath(p) && LegalPath(q) && Encode("", p) == Encode("", q)
    ensures p == q
    decreases |p|
  {
    if p != [] && q != [] {
      SplitPath(p);
      SplitPath(q);
      var front, last, front', last' := p[..|p| - 1], p[|p| - 1], q[..|q| - 1], q[|q| - 1];
      hide LegalPath, LegalStep, Encode, Extend;
      LastStep(Encode("", front), last, Encode("", front'), last');
      EncodeInjective(front, front');
      assert p == front + [last] && q == front' + [last'];
    } else if p != [] {
      SplitPath(p);
    } else if q != [] {
      SplitPath(q);
    }
  }

  // ------------------------------------------------------------------
  // No other key is safe
  // ------------------------------------------------------------------

  /** A key that is empty, has a dot or ends in an index collides: some path through it is spelled like a path that
      has it split in two, or dropped. */
  lemma EveryOtherKeyCollides(k: string) returns (p: seq<Step>, q: seq<Step>)
    requires !LegalKey(k)
    ensures p != q && Encode("", p) == Encode("", q) && Key(k) in p && Key(k) !in q
    ensures forall s :: s in q && s.Key? ==> |s.key| < |k| || s.key == "r"
  {
    hide Encode, Bracket;
    if k == "" {
      p, q := EmptyCollides();
    } else if '.' in k {
      var i :| 0 <= i < |k| && k[i] == '.';
      p, q := DotCollides(k[..i], k[i + 1..]);
      assert k == k[..i] + "." + k[i + 1..];
    } else {
      var n: nat :| EndsWith(k, Bracket(n));
      p, q := IndexCollides(k[..|k| - |Bracket(n)|], n);
      assert k == k[..|k| - |Bracket(n)|] + Bracket(n);
    }
  }

  lemma EmptyCollides() returns (p: seq<Step>, q: seq<Step>)
    ensures p == [Key(""), Key("r")] && q == [Key("r")] && Encode("", p) == Encode("", q)
  {
    p, q := [Key(""), Key("r")], [Key("r")];
    assert p[1..] == q;
  }

  lemma DotCollides(x: string, y: string) returns (p: seq<Step>, q: seq<Step>)
    ensures p == [Key("r"), Key(x + "." + y)] && q == [Key("r"), Key(x), Key(y)]
    ensures Encode("", p) == Encode("", q) && Key(x + "." + y) !in q
  {
    var k := x + "." + y;
    p, q := [Key("r"), Key(k)], [Key("r"), Key(x), Key(y)];
    EncodeSnoc("", [Key("r")], Key(k));
    EncodeSnoc("", [Key("r"), Key(x)], Key(y));
    EncodeSnoc("", [Key("r")], Key(x));
    EncodeSnoc("", [], Key("r"));
    assert p == [Key("r")] + [Key(k)] && q == [Key("r"), Key(x)] + [Key(y)] && [Key("r"), Key(x)] == [Key("r")] + [Key(x)];
    assert [] + [Key("r")] == [Key("r")];
    hide Encode;
    assert "r" + "." + k == "r" + "." + x + "." + y;
    assert k[|x|] == '.' && |k| > |x| && |k| > |y|;
  }

  lemma IndexCollides(j: string, n: nat) returns (p: seq<Step>, q: seq<Step>)
    ensures p == [Key(j + Bracket(n))] && q == if j == "" then [Index(n)] else [Key(j), Index(n)]
    ensures Encode("", p) == Encode("", q) && |Bracket(n)| > 0
  {
    BracketChars(n);
    p := [Key(j + Bracket(n))];
    q := if j == "" then [Index(n)] else [Key(j), Index(n)];
    hide Bracket;
    ExtendIndex(j, n);
    assert p[1..] == [];
    if j == "" {
      assert q[1..] == [];
    } else {
      assert q[1..] == [Index(n)] && q[1..][1..] == [];
    }
  }
}
