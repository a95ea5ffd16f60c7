/** Canonical form of API paths. */
module Paths {

  // ------------------------------------------------------------------
  // The procedure
  // ------------------------------------------------------------------

  /** `re.sub('/+', '/', s)` */
  function Collapse(s: string): string {
    if s == "" then ""
    else if s[0] == '/' && |s| > 1 && s[1] == '/' then Collapse(s[1..])
    else [s[0]] + Collapse(s[1..])
  }

  /** `s.rstrip('/')` */
  function Stripped(s: string): string {
    if s != "" && s[|s| - 1] == '/' then Stripped(s[..|s| - 1]) else s
  }

  /** `_normalize_path` */
  function Normalize(path: string): string {
    if path == "" then "/"
    else
      var collapsed := Collapse(path);
      var stripped := if |collapsed| > 1 && collapsed[|collapsed| - 1] == '/' then Stripped(collapsed) else collapsed;
      if stripped == "" || stripped[0] != '/' then "/" + stripped else stripped
  }

  // ------------------------------------------------------------------
  // Reference: non-empty segments
  // ------------------------------------------------------------------

  /** Length of the leading segment. */
  function Word(s: string): (n: nat)
    ensures n <= |s|
    ensures forall i :: 0 <= i < n ==> s[i] != '/'
    ensures n < |s| ==> s[n] == '/'
  {
    if s == "" || s[0] == '/' then 0 else 1 + Word(s[1..])
  }

  /** The non-empty parts between slashes. */
  function Segments(s: string): seq<string>
    decreases |s|
  {
    if s == "" then []
    else if s[0] == '/' then Segments(s[1..])
    else [s[..Word(s)]] + Segments(s[Word(s)..])
  }

  /** Every segment behind a slash. */
  function Joined(segments: seq<string>): string {
    if segments == [] then "" else "/" + segments[0] + Joined(segments[1..])
  }

  function Canonical(segments: seq<string>): string { if segments == [] then "/" else Joined(segments) }

  // ------------------------------------------------------------------
  // The procedure computes the canonical form
  // ------------------------------------------------------------------

  /** No two slashes in a row. */
  predicate Clean(s: string) { forall i :: 0 <= i < |s| - 1 ==> !(s[i] == '/' && s[i + 1] == '/') }

  predicate EndsInSlash(s: string) { s != "" && s[|s| - 1] == '/' }

  lemma {:induction false} CollapseIsClean(s: string)
    ensures Clean(Collapse(s))
    ensures (Collapse(s) == "") == (s == "")
    ensures s != "" ==> Collapse(s)[0] == s[0]
  {
    if s != "" {
      CollapseIsClean(s[1..]);
    }
  }

  /** A segment in front of something that begins with a slash, or of nothing. */
  lemma {:induction false} WordInFront(w: string, rest: string)
    requires forall i :: 0 <= i < |w| ==> w[i] != '/'
    requires rest == "" || rest[0] == '/'
    ensures Word(w + rest) == |w|
  {
    if w != "" {
      assert (w + rest)[1..] == w[1..] + rest;
      WordInFront(w[1..], rest);
    } else {
      assert w + rest == rest;
    }
  }

  lemma SegmentsOfWord(w: string, rest: string)
    requires w != "" && forall i :: 0 <= i < |w| ==> w[i] != '/'
    requires rest == "" || rest[0] == '/'
    ensures Segments(w + rest) == [w] + Segments(rest)
  {
    WordInFront(w, rest);
    assert (w + rest)[0] == w[0];
    assert (w + rest)[..|w|] == w && (w + rest)[|w|..] == rest;
  }

  /** A word and what follows it, told from a non-empty string that does not begin with a slash. */
  lemma WordParts(s: string)
    requires s != "" && s[0] != '/'
    ensures var w, rest := s[..Word(s)], s[Word(s)..];
      && s == w + rest && w != "" && (forall i :: 0 <= i < |w| ==> w[i] != '/')
      && (rest == "" || rest[0] == '/') && |rest| < |s|
      && Segments(s) == [w] + Segments(rest)
  {
  }

  lemma {:induction false} CollapseWord(w: string, rest: string)
    requires forall i :: 0 <= i < |w| ==> w[i] != '/'
    ensures Collapse(w + rest) == w + Collapse(rest)
  {
    if w == "" {
      assert w + rest == rest && w + Collapse(rest) == Collapse(rest);
    } else {
      assert (w + rest)[1..] == w[1..] + rest;
      CollapseWord(w[1..], rest);
      assert w == [w[0]] + w[1..];
    }
  }

  lemma {:induction false} CollapseKeepsSegments(s: string)
    ensures Segments(Collapse(s)) == Segments(s)
    decreases |s|
  {
    if s != "" {
      if s[0] == '/' {
        CollapseKeepsSegments(s[1..]);
        assert ([s[0]] + Collapse(s[1..]))[1..] == Collapse(s[1..]);
      } else {
        WordParts(s);
        var w, rest := s[..Word(s)], s[Word(s)..];
        hide Collapse, Segments, Word;
        CollapseKeepsSegments(rest);
        CollapseWord(w, rest);
        CollapseIsClean(rest);
        SegmentsOfWord(w, Collapse(rest));
      }
    }
  }

  lemma {:induction false} TrailingSlash(s: string)
    ensures Segments(s + "/") == Segments(s)
    decreases |s|
  {
    if s == "" {
      assert s + "/" == "/" && "/"[1..] == "";
    } else if s[0] == '/' {
      assert (s + "/")[1..] == s[1..] + "/";
      TrailingSlash(s[1..]);
    } else {
      WordParts(s);
      var w, rest := s[..Word(s)], s[Word(s)..];
      TrailingSlash(rest);
      assert s + "/" == w + (rest + "/");
      SegmentsOfWord(w, rest + "/");
    }
  }

  lemma {:induction false} StrippedKeepsSegments(s: string)
    ensures Segments(Stripped(s)) == Segments(s)
    ensures !EndsInSlash(Stripped(s)) && Stripped(s) <= s
  {
    if EndsInSlash(s) {
      StrippedKeepsSegments(s[..|s| - 1]);
      TrailingSlash(s[..|s| - 1]);
      assert s == s[..|s| - 1] + "/";
    }
  }

  /** A clean string that begins with a slash and does not end in one spells out its own segments. */
  lemma {:induction false} CleanIsJoined(s: string)
    requires s != "" && s[0] == '/' && Clean(s) && !EndsInSlash(s)
    ensures s == Joined(Segments(s))
    decreases |s|
  {
    var t := s[1..];
    assert s[1] != '/' && t[0] == s[1];
    assert Segments(s) == Segments(t);
    WordParts(t);
    var w, rest := t[..Word(t)], t[Word(t)..];
    assert s == "/" + w + rest;
    hide Segments, Word;
    if rest != "" {
      CleanSuffix("/" + w, rest);
      CleanIsJoined(rest);
    } else {
      NoSegments();
    }
    JoinedCons(w, Segments(rest));
  }

  lemma CleanSuffix(x: string, y: string)
    requires Clean(x + y) && !EndsInSlash(x + y) && y != ""
    ensures Clean(y) && !EndsInSlash(y)
  {
    forall i | 0 <= i < |y| - 1
      ensures !(y[i] == '/' && y[i + 1] == '/')
    {
      assert (x + y)[|x| + i] == y[i] && (x + y)[|x| + i + 1] == y[i + 1];
    }
  }

  lemma JoinedCons(w: string, more: seq<string>)
    ensures Joined([w] + more) == "/" + w + Joined(more)
  {
    assert ([w] + more)[1..] == more;
  }

  lemma LeadingSlash(s: string)
    ensures Segments("/" + s) == Segments(s)
    ensures ("/" + s)[0] == '/'
    ensures Clean(s) && (s == "" || s[0] != '/') ==> Clean("/" + s)
    ensures s != "" && !EndsInSlash(s) ==> !EndsInSlash("/" + s)
  {
    assert ("/" + s)[1..] == s;
  }

  /** What normalising leaves: the same segments, one leading slash, no doubled and no trailing one. */
  lemma NormalizeShape(path: string)
    ensures var n := Normalize(path);
      && Segments(n) == Segments(path) && n != "" && n[0] == '/' && Clean(n) && (n == "/" || !EndsInSlash(n))
  {
    hide Segments;
    if path == "" {
      LeadingSlash("");
      assert "/" + "" == "/";
    } else {
      var c := Collapse(path);
      CollapseIsClean(path);
      CollapseKeepsSegments(path);
      StrippedKeepsSegments(c);
      hide Collapse;
      var s := if |c| > 1 && c[|c| - 1] == '/' then Stripped(c) else c;
      StrippedIsClean(c);
      hide Stripped;
      LeadingSlash(s);
      OnlySlash(c);
    }
  }

  lemma StrippedIsClean(c: string)
    requires Clean(c) && c != ""
    ensures Clean(Stripped(c))
    ensures |c| > 1 ==> Stripped(c) != "" && Stripped(c)[0] == c[0]
  {
    StrippedKeepsSegments(c);
    if |c| > 1 && EndsInSlash(c) {
      assert c[|c| - 2] != '/';
      assert Stripped(c[..|c| - 1]) == c[..|c| - 1];
    }
  }

  lemma OnlySlash(c: string)
    ensures |c| == 1 && c[0] == '/' ==> c == "/"
  {
  }

  /** Normalising spells out the non-empty segments, each behind one slash; "/" stands for none. */
  lemma NormalizeIsCanonical(path: string)
    ensures Normalize(path) == Canonical(Segments(path))
  {
    hide Normalize, Segments;
    NormalizeShape(path);
    var n := Normalize(path);
    if n == "/" {
      LeadingSlash("");
      assert "/" + "" == "/";
      NoSegments();
    } else {
      CleanIsJoined(n);
      hide Clean;
    }
  }

  lemma NoSegments()
    ensures Segments("") == []
  {
  }

  lemma NormalizeIsIdempotent(path: string)
    ensures Normalize(Normalize(path)) == Normalize(path)
  {
    NormalizeShape(path);
    NormalizeIsCanonical(path);
    NormalizeIsCanonical(Normalize(path));
  }

  /** Two paths are taken for one exactly when they have the same segments. */
  lemma SameNormalIffSameSegments(p: string, q: string)
    ensures Normalize(p) == Normalize(q) <==> Segments(p) == Segments(q)
  {
    NormalizeShape(p);
    NormalizeShape(q);
    NormalizeIsCanonical(p);
    NormalizeIsCanonical(q);
  }
}
