/**
 * The Python string operations the insight parser is built from, on strings
 * of Unicode scalar values:
 *   `str.strip()`, `str.split(sep)` for a one-character separator,
 *   `s.split(c, 1)[-1]`, `s.replace("**", "")`, `s.lower().startswith(p)`
 *   for a lower-case ASCII prefix `p`, and `s.endswith(p)`.
 */
module Text {

  /** The characters Python's `str.isspace` accepts, i.e. those `str.strip()` removes. */
  predicate IsSpace(c: char) {
    || ('\t' <= c <= '\r')
    || ('\U{1C}' <= c <= '\U{1F}')
    || c == ' ' || c == '\U{85}' || c == '\U{A0}' || c == '\U{1680}'
    || ('\U{2000}' <= c <= '\U{200A}')
    || c == '\U{2028}' || c == '\U{2029}' || c == '\U{202F}' || c == '\U{205F}' || c == '\U{3000}'
  }

  predicate AllSpace(s: string) {
    forall i :: 0 <= i < |s| ==> IsSpace(s[i])
  }

  /** Neither end of `s` is whitespace. */
  predicate Trimmed(s: string) {
    s == [] || (!IsSpace(s[0]) && !IsSpace(s[|s| - 1]))
  }

  /** ASCII digits; see README for the Unicode digits Python also accepts. */
  predicate IsDigit(c: char) {
    '0' <= c <= '9'
  }

  function Min(a: int, b: int): int {
    if a < b then a else b
  }

  // ---------------------------------------------------------------- sequences

  /** A sequence is its prefix of length `i` followed by the rest. */
  lemma SplitAt<T>(s: seq<T>, i: nat)
    requires i <= |s|
    ensures s == s[..i] + s[i..]
  {
  }

  lemma AppendAssoc<T>(a: seq<T>, b: seq<T>, c: seq<T>)
    ensures a + b + c == a + (b + c)
  {
  }

  lemma ConsAppend<T>(p: seq<T>, s: seq<T>)
    requires |p| > 0
    ensures p == [p[0]] + p[1..]
    ensures p + s == [p[0]] + (p[1..] + s)
  {
  }

  lemma ConsTail<T>(a: T, s: seq<T>)
    ensures ([a] + s)[0] == a && ([a] + s)[1..] == s
  {
  }

  lemma EmptyAppend<T>(s: seq<T>)
    ensures [] + s == s && s + [] == s
  {
  }

  lemma Whole<T>(s: seq<T>)
    ensures s[0..] == s && s[..|s|] == s && s[..0] == [] && s[|s|..] == []
  {
  }

  lemma PrefixOfAppend<T>(a: seq<T>, b: seq<T>)
    ensures (a + b)[..|a|] == a
  {
  }

  lemma PrefixTrans<T>(a: seq<T>, b: seq<T>, c: seq<T>)
    requires |a| <= |b| <= |c| && c[..|b|] == b && b[..|a|] == a
    ensures c[..|a|] == a
  {
    assert c[..|a|] == c[..|b|][..|a|];
  }

  lemma DropLastAppend<T>(s: seq<T>)
    requires |s| > 0
    ensures s[..|s| - 1] + [s[|s| - 1]] == s
  {
  }

  // ---------------------------------------------------------------- strip

  /** `s.lstrip()`: the suffix of `s` left once its leading whitespace is gone. */
  function LStrip(s: string): (r: string)
    ensures |r| <= |s| && r == s[|s| - |r|..]
    ensures AllSpace(s[..|s| - |r|])
    ensures r == [] || !IsSpace(r[0])
  {
    if |s| > 0 && IsSpace(s[0]) then
      var r := LStrip(s[1..]);
      LStripStep(s, r);
      r
    else
      LStripKeep(s);
      s
  }

  lemma LStripKeep(s: string)
    ensures s == s[|s| - |s|..] && AllSpace(s[..|s| - |s|])
  {
    Whole(s);
  }

  lemma LStripStep(s: string, r: string)
    requires |s| > 0 && IsSpace(s[0])
    requires |r| <= |s| - 1 && r == s[1..][|s| - 1 - |r|..] && AllSpace(s[1..][..|s| - 1 - |r|])
    ensures r == s[|s| - |r|..] && AllSpace(s[..|s| - |r|])
  {
    var k := |s| - |r|;
    forall i | 0 <= i < k ensures IsSpace(s[..k][i]) {
      if i > 0 {
        assert s[..k][i] == s[1..][..k - 1][i - 1];
      }
    }
  }

  /** `s.rstrip()`: the prefix of `s` left once its trailing whitespace is gone. */
  function RStrip(s: string): (r: string)
    ensures |r| <= |s| && r == s[..|r|]
    ensures AllSpace(s[|r|..])
    ensures r == [] || !IsSpace(r[|r| - 1])
  {
    if |s| > 0 && IsSpace(s[|s| - 1]) then
      var r := RStrip(s[..|s| - 1]);
      RStripStep(s, r);
      r
    else
      Whole(s);
      s
  }

  lemma RStripStep(s: string, r: string)
    requires |s| > 0 && IsSpace(s[|s| - 1])
    requires |r| <= |s| - 1 && r == s[..|s| - 1][..|r|] && AllSpace(s[..|s| - 1][|r|..])
    ensures r == s[..|r|] && AllSpace(s[|r|..])
  {
    var n := |s| - 1;
    assert s[..n][..|r|] == s[..|r|];
    forall i | |r| <= i < |s| ensures IsSpace(s[i]) {
      if i < n {
        var k := i - |r|;
        assert 0 <= k < |s[..n][|r|..]|;
        assert IsSpace(s[..n][|r|..][k]);
        assert s[..n][|r|..][k] == s[i];
      }
    }
  }

  /** `s.strip()`. */
  function Strip(s: string): (r: string)
    ensures Trimmed(r)
    ensures r == [] <==> AllSpace(s)
    ensures |r| <= |s|
  {
    var l := LStrip(s);
    var r := RStrip(l);
    assert r != [] ==> r[0] == l[0];
    assert l != [] ==> l[0] == s[|s| - |l|];
    assert r == [] ==> l == [] by {
      assert r == [] ==> AllSpace(l[0..]);
    }
    assert l == [] ==> s[..|s|] == s;
    r
  }

  /** `s` is `Strip(s)` with whitespace around it. */
  lemma StripDecompose(s: string) returns (lead: string, trail: string)
    ensures s == lead + Strip(s) + trail
    ensures AllSpace(lead) && AllSpace(trail)
  {
    var l := LStrip(s);
    lead, trail := Recompose(s, l, RStrip(l));
  }


  /** A blank-led suffix `l` of `s` and a blank-trailed prefix `r` of `l` put back together. */
  lemma Recompose(s: string, l: string, r: string) returns (lead: string, trail: string)
    requires |l| <= |s| && l == s[|s| - |l|..] && AllSpace(s[..|s| - |l|])
    requires |r| <= |l| && r == l[..|r|] && AllSpace(l[|r|..])
    ensures s == lead + r + trail
    ensures AllSpace(lead) && AllSpace(trail)
  {
    lead := s[..|s| - |l|];
    trail := l[|r|..];
    SplitAt(s, |s| - |l|);
    SplitAt(l, |r|);
    AppendAssoc(lead, r, trail);
  }

  lemma {:induction false} LStripOfSpacePrefix(w: string, x: string)
    requires AllSpace(w)
    ensures LStrip(w + x) == LStrip(x)
    decreases |w|
  {
    if |w| > 0 {
      assert (w + x)[1..] == w[1..] + x;
      LStripOfSpacePrefix(w[1..], x);
    } else {
      assert w + x == x;
    }
  }

  lemma {:induction false} RStripOfSpaceSuffix(x: string, w: string)
    requires AllSpace(w)
    ensures RStrip(x + w) == RStrip(x)
    decreases |w|
  {
    if |w| > 0 {
      assert (x + w)[..|x + w| - 1] == x + w[..|w| - 1];
      RStripOfSpaceSuffix(x, w[..|w| - 1]);
    } else {
      assert x + w == x;
    }
  }

  lemma {:induction false} LStripAppend(x: string, y: string)
    ensures LStrip(x + y) == if AllSpace(x) then LStrip(y) else LStrip(x) + y
    decreases |x|
  {
    if |x| == 0 {
      EmptyAppend(y);
    } else {
      ConsAppend(x, y);
      AllSpaceCons(x);
      if IsSpace(x[0]) {
        LStripAppend(x[1..], y);
      }
    }
  }

  lemma AllSpaceCons(x: string)
    requires |x| > 0
    ensures AllSpace(x) <==> IsSpace(x[0]) && AllSpace(x[1..])
  {
    if IsSpace(x[0]) && AllSpace(x[1..]) {
      forall i | 0 <= i < |x| ensures IsSpace(x[i]) {
        if i > 0 { assert x[i] == x[1..][i - 1]; }
      }
    }
  }

  /** Whitespace added at the front does not change `strip`. */
  lemma StripOfSpacePrefix(w: string, x: string)
    requires AllSpace(w)
    ensures Strip(w + x) == Strip(x)
  {
    LStripOfSpacePrefix(w, x);
  }

  /** Whitespace added at the back does not change `strip`. */
  lemma StripOfSpaceSuffix(x: string, w: string)
    requires AllSpace(w)
    ensures Strip(x + w) == Strip(x)
  {
    LStripAppend(x, w);
    if AllSpace(x) {
      LStripAppend(w, []);
      assert w + [] == w;
      assert LStrip(w) == [];
      assert LStrip(x) == [] by { LStripAppend(x, []); assert x + [] == x; }
    } else {
      RStripOfSpaceSuffix(LStrip(x), w);
    }
  }

  /** `strip` leaves an already trimmed string alone, so it is idempotent. */
  lemma StripOfTrimmed(s: string)
    requires Trimmed(s)
    ensures Strip(s) == s
  {
  }

  // ---------------------------------------------------------------- split / join

  /** `sep.join(parts)`. */
  function Join(parts: seq<string>, sep: string): string
  {
    if |parts| == 0 then ""
    else if |parts| == 1 then parts[0]
    else parts[0] + sep + Join(parts[1..], sep)
  }

  lemma JoinTwo(a: string, b: string, sep: string)
    ensures Join([a, b], sep) == a + sep + b
  {
    assert [a, b][1..] == [b];
  }

  /**
   * `s.split(sep)` for a one-character separator: at least one piece, and no
   * piece holds `sep`.
   */
  function Split(s: string, sep: char): (r: seq<string>)
    ensures |r| >= 1
    ensures forall i :: 0 <= i < |r| ==> sep !in r[i]
  {
    if |s| == 0 then [""]
    else
      var rest := Split(s[1..], sep);
      if s[0] == sep then [""] + rest
      else
        var r := [[s[0]] + rest[0]] + rest[1..];
        assert r[0] == [s[0]] + rest[0];
        r
  }

  /** Joining the pieces of `s.split(sep)` with `sep` gives `s` back. */
  lemma {:induction false} JoinSplit(s: string, sep: char)
    ensures Join(Split(s, sep), [sep]) == s
    decreases |s|
  {
    if |s| > 0 {
      var rest := Split(s[1..], sep);
      JoinSplit(s[1..], sep);
      SplitCons(s[0], s[1..], sep);
      assert s == [s[0]] + s[1..];
      if s[0] != sep {
        var r := Split(s, sep);
        assert Join(r, [sep]) == [s[0]] + Join(rest, [sep]) by {
          if |rest| > 1 {
            assert r[1..] == rest[1..];
          }
        }
      }
    }
  }

  lemma {:induction false} SplitWithoutSep(p: string, sep: char)
    requires sep !in p
    ensures Split(p, sep) == [p]
    decreases |p|
  {
    if |p| > 0 {
      SplitWithoutSep(p[1..], sep);
      assert [p[0]] + p[1..] == p;
    }
  }

  lemma {:induction false} SplitAfterPiece(p: string, sep: char, x: string)
    requires sep !in p
    ensures Split(p + [sep] + x, sep) == [p] + Split(x, sep)
    decreases |p|
  {
    var s := p + [sep] + x;
    if |p| == 0 {
      assert s[0] == sep && s[1..] == x;
    } else {
      assert s[0] == p[0] && s[1..] == p[1..] + [sep] + x;
      SplitAfterPiece(p[1..], sep, x);
      assert [p[0]] + p[1..] == p;
    }
  }

  /** `split` undoes `join` when no part holds the separator. */
  lemma {:induction false} SplitJoin(parts: seq<string>, sep: char)
    requires |parts| >= 1
    requires forall i :: 0 <= i < |parts| ==> sep !in parts[i]
    ensures Split(Join(parts, [sep]), sep) == parts
    decreases |parts|
  {
    if |parts| == 1 {
      SplitWithoutSep(parts[0], sep);
    } else {
      SplitJoin(parts[1..], sep);
      SplitAfterPiece(parts[0], sep, Join(parts[1..], [sep]));
      assert parts == [parts[0]] + parts[1..];
    }
  }

  /** The pieces of `x + y` once `x` has been split into `X` and `y` into `Y`. */
  function Glue(X: seq<string>, Y: seq<string>): seq<string>
    requires |X| >= 1 && |Y| >= 1
  {
    X[..|X| - 1] + [X[|X| - 1] + Y[0]] + Y[1..]
  }

  lemma GlueCons(c: char, X: seq<string>, Y: seq<string>)
    requires |X| >= 1 && |Y| >= 1
    ensures Glue([[c] + X[0]] + X[1..], Y) == [[c] + Glue(X, Y)[0]] + Glue(X, Y)[1..]
  {
    var X2 := [[c] + X[0]] + X[1..];
    if |X| == 1 {
      assert X2[..|X2| - 1] == [] && X[..|X| - 1] == [];
      assert Glue(X, Y) == [X[0] + Y[0]] + Y[1..];
      assert [c] + X[0] + Y[0] == [c] + (X[0] + Y[0]);
    } else {
      assert X2[..|X2| - 1] == [[c] + X[0]] + X[1..|X| - 1];
      assert X[..|X| - 1] == [X[0]] + X[1..|X| - 1];
    }
  }

  /** Splitting a concatenation glues the last piece of `x` to the first piece of `y`. */
  lemma {:induction false} SplitAppend(x: string, y: string, sep: char)
    ensures Split(x + y, sep) == Glue(Split(x, sep), Split(y, sep))
    decreases |x|
  {
    var Y := Split(y, sep);
    if |x| == 0 {
      EmptyAppend(y);
      GlueEmpty(Y);
    } else {
      var c, u := x[0], x[1..];
      var U := Split(u, sep);
      assert Split(u + y, sep) == Glue(U, Y) by {
        SplitAppend(u, y, sep);
      }
      ConsAppend(x, y);
      SplitCons(c, u + y, sep);
      SplitCons(c, u, sep);
      if c == sep {
        GluePrepend("", U, Y);
      } else {
        GlueCons(c, U, Y);
      }
    }
  }

  /** One step of `split`: the first character either ends the first piece or joins it. */
  lemma SplitCons(c: char, u: string, sep: char)
    ensures Split([c] + u, sep) ==
      if c == sep then [""] + Split(u, sep) else [[c] + Split(u, sep)[0]] + Split(u, sep)[1..]
  {
    assert ([c] + u)[1..] == u;
  }

  lemma GlueEmpty(Y: seq<string>)
    requires |Y| >= 1
    ensures Glue([""], Y) == Y
  {
    assert "" + Y[0] == Y[0];
    assert Y == [Y[0]] + Y[1..];
  }

  lemma GluePrepend(p: string, X: seq<string>, Y: seq<string>)
    requires |X| >= 1 && |Y| >= 1
    ensures Glue([p] + X, Y) == [p] + Glue(X, Y)
  {
    assert ([p] + X)[..|X|] == [p] + X[..|X| - 1];
  }

  /** Every piece of an all-whitespace string is all whitespace. */
  lemma {:induction false} SplitOfSpace(w: string, sep: char)
    requires AllSpace(w)
    ensures forall i :: 0 <= i < |Split(w, sep)| ==> AllSpace(Split(w, sep)[i])
    decreases |w|
  {
    if |w| > 0 {
      SplitOfSpace(w[1..], sep);
    }
  }

  // ---------------------------------------------------------------- search

  /** Position of the first `c` in `s`, or `|s|` when there is none. */
  function IndexOf(s: string, c: char): (i: nat)
    ensures i <= |s|
    ensures c !in s[..i]
    ensures i < |s| ==> s[i] == c
  {
    if |s| == 0 then 0
    else if s[0] == c then 0
    else
      var j := IndexOf(s[1..], c);
      assert s[..1 + j] == [s[0]] + s[1..][..j];
      1 + j
  }

  /** `s.split(c, 1)[-1]`: the text after the first `c`, or all of `s` when it has none. */
  function AfterFirst(s: string, c: char): (r: string)
    ensures c !in s ==> r == s
    ensures c in s ==> |r| < |s| && s == s[..|s| - |r| - 1] + [c] + r && c !in s[..|s| - |r| - 1]
  {
    var i := IndexOf(s, c);
    if i == |s| then
      assert s[..i] == s;
      s
    else
      assert s == s[..i] + [c] + s[i + 1..];
      s[i + 1..]
  }

  lemma {:induction false} IndexOfAfterPrefix(p: string, c: char, x: string)
    requires c !in p
    ensures IndexOf(p + [c] + x, c) == |p|
    decreases |p|
  {
    var s := p + [c] + x;
    if |p| > 0 {
      assert s[0] == p[0] && s[1..] == p[1..] + [c] + x;
      IndexOfAfterPrefix(p[1..], c, x);
    }
  }

  /** The first `c` is the one right after a `c`-free prefix. */
  lemma AfterFirstOf(p: string, c: char, x: string)
    requires c !in p
    ensures AfterFirst(p + [c] + x, c) == x
  {
    IndexOfAfterPrefix(p, c, x);
    assert (p + [c] + x)[|p| + 1..] == x;
  }

  // ---------------------------------------------------------------- replace("**", "")

  predicate NoDoubleStar(s: string) {
    forall i :: 0 <= i < |s| - 1 ==> !(s[i] == '*' && s[i + 1] == '*')
  }

  /** `s` with every `*` dropped. */
  function Unstarred(s: string): string {
    if |s| == 0 then ""
    else (if s[0] == '*' then "" else [s[0]]) + Unstarred(s[1..])
  }

  /**
   * `s.replace("**", "")`: `**` pairs are removed scanning left to right,
   * so only `*` characters go, and no `**` is left behind.
   */
  function RemoveDoubleStars(s: string): (r: string)
    ensures NoDoubleStar(r)
    ensures Unstarred(r) == Unstarred(s)
    ensures |s| > 0 && s[0] != '*' ==> |r| > 0 && r[0] == s[0]
  {
    if |s| >= 2 && s[0] == '*' && s[1] == '*' then
      UnstarredPair(s);
      RemoveDoubleStars(s[2..])
    else if |s| == 0 then
      s
    else
      var rest := RemoveDoubleStars(s[1..]);
      KeptStar(s, rest);
      [s[0]] + rest
  }

  lemma UnstarredPair(s: string)
    requires |s| >= 2 && s[0] == '*' && s[1] == '*'
    ensures Unstarred(s) == Unstarred(s[2..])
  {
    assert s[1..][1..] == s[2..];
  }

  /** Keeping the first character in front of the processed rest. */
  lemma KeptStar(s: string, rest: string)
    requires |s| > 0 && !(|s| >= 2 && s[0] == '*' && s[1] == '*')
    requires NoDoubleStar(rest) && Unstarred(rest) == Unstarred(s[1..])
    requires |s| == 1 ==> rest == []
    requires |s| > 1 && s[1] != '*' ==> |rest| > 0 && rest[0] == s[1]
    ensures NoDoubleStar([s[0]] + rest)
    ensures Unstarred([s[0]] + rest) == Unstarred(s)
  {
    var r := [s[0]] + rest;
    assert r[1..] == rest;
    assert Unstarred(r) == (if s[0] == '*' then "" else [s[0]]) + Unstarred(rest);
    forall i | 0 <= i < |r| - 1 ensures !(r[i] == '*' && r[i + 1] == '*') {
      if i > 0 {
        assert r[i] == rest[i - 1] && r[i + 1] == rest[i];
      }
    }
  }

  /** A piece of `**`-free text is `**`-free. */
  lemma NoDoubleStarMiddle(a: string, t: string, b: string)
    requires NoDoubleStar(a + t + b)
    ensures NoDoubleStar(t)
  {
    var s := a + t + b;
    forall i | 0 <= i < |t| - 1 ensures !(t[i] == '*' && t[i + 1] == '*') {
      assert t[i] == s[|a| + i] && t[i + 1] == s[|a| + i + 1];
    }
  }

  /** Text without `**` passes through `replace("**", "")` untouched. */
  lemma {:induction false} RemoveDoubleStarsOfFree(s: string)
    requires NoDoubleStar(s)
    ensures RemoveDoubleStars(s) == s
    decreases |s|
  {
    if |s| > 0 {
      assert NoDoubleStar(s[1..]) by {
        forall i | 0 <= i < |s[1..]| - 1 ensures !(s[1..][i] == '*' && s[1..][i + 1] == '*') {
          assert s[1..][i] == s[i + 1] && s[1..][i + 1] == s[i + 2];
        }
      }
      RemoveDoubleStarsOfFree(s[1..]);
      assert [s[0]] + s[1..] == s;
    }
  }

  /**
   * A `**`-free prefix that does not end in `*` passes through
   * `replace("**", "")` untouched, whatever follows it.
   */
  lemma {:induction false} RemoveDoubleStarsAfterFree(p: string, s: string)
    requires NoDoubleStar(p) && (|p| == 0 || p[|p| - 1] != '*')
    ensures RemoveDoubleStars(p + s) == p + RemoveDoubleStars(s)
    decreases |p|
  {
    if |p| > 0 {
      var q := p[1..];
      NoDoubleStarTail(p);
      ConsAppend(p, s);
      assert !(p[0] == '*' && |q + s| > 0 && (q + s)[0] == '*') by {
        if |q| > 0 {
          assert (q + s)[0] == p[1];
        }
      }
      RemoveDoubleStarsCons(p[0], q + s);
      RemoveDoubleStarsAfterFree(q, s);
      AppendAssoc([p[0]], q, RemoveDoubleStars(s));
    } else {
      EmptyAppend(s);
    }
  }

  /**
   * The leftmost `**` pair is the one removed: after a `**`-free prefix that
   * does not end in `*`, the pair goes and the rest is processed alone, so a
   * single `*` elsewhere stays (`x**y*z` gives `xy*z`).
   */
  lemma RemoveDoubleStarsAtFirstPair(p: string, x: string)
    requires NoDoubleStar(p) && (|p| == 0 || p[|p| - 1] != '*')
    ensures RemoveDoubleStars(p + "**" + x) == p + RemoveDoubleStars(x)
  {
    AppendAssoc(p, "**", x);
    RemoveDoubleStarsAfterFree(p, "**" + x);
    assert ("**" + x)[2..] == x;
  }

  /**
   * A closing `**` after `**`-free text is removed whole, even when the text
   * ends in a single `*`: `a***` gives `a*`.
   */
  lemma ClosingPairRemoved(t: string)
    requires NoDoubleStar(t)
    ensures RemoveDoubleStars(t + "**") == t
  {
    if |t| == 0 || t[|t| - 1] != '*' {
      RemoveDoubleStarsAfterFree(t, "**");
      assert RemoveDoubleStars("**") == "";
    } else {
      var p := t[..|t| - 1];
      assert NoDoubleStar(p) by {
        forall i | 0 <= i < |p| - 1 ensures !(p[i] == '*' && p[i + 1] == '*') {
          assert p[i] == t[i] && p[i + 1] == t[i + 1];
        }
      }
      assert |p| == 0 || p[|p| - 1] != '*' by {
        if |p| > 0 {
          assert p[|p| - 1] == t[|t| - 2];
        }
      }
      assert t + "**" == p + "**" + "*";
      RemoveDoubleStarsAtFirstPair(p, "*");
      assert RemoveDoubleStars("*") == "*";
      assert p + "*" == t;
    }
  }

  /**
   * Text with a `**` pair splits at its leftmost pair. With
   * `RemoveDoubleStarsAtFirstPair` and `RemoveDoubleStarsOfFree` this fixes
   * `replace("**", "")` on every input.
   */
  lemma {:induction false} FirstPair(s: string) returns (p: string, x: string)
    requires !NoDoubleStar(s)
    ensures s == p + "**" + x
    ensures NoDoubleStar(p) && (|p| == 0 || p[|p| - 1] != '*')
    decreases |s|
  {
    if s[0] == '*' && s[1] == '*' {
      p, x := "", s[2..];
      assert s == s[..2] + s[2..];
      assert s[..2] == "**";
    } else {
      var q := s[1..];
      assert !NoDoubleStar(q) by {
        var i :| 0 <= i < |s| - 1 && s[i] == '*' && s[i + 1] == '*';
        assert i > 0;
        assert q[i - 1] == s[i] && q[i] == s[i + 1];
      }
      var p', x' := FirstPair(q);
      p, x := [s[0]] + p', x';
      assert s == [s[0]] + q;
      AppendAssoc([s[0]], p', "**");
      AppendAssoc([s[0]], p' + "**", x');
      if |p'| == 0 {
        assert q[0] == '*';
        assert p == [s[0]];
      } else {
        assert q[0] == p'[0];
        assert p[|p| - 1] == p'[|p'| - 1];
        NoDoubleStarCons(s[0], p');
      }
    }
  }

  /** A single `*` is not a pair and stays: `"x**y*z".replace("**", "")` is `"xy*z"`. */
  lemma SingleStarKept()
    ensures RemoveDoubleStars("x**y*z") == "xy*z"
  {
    assert RemoveDoubleStars("*z") == "*z" by {
      assert RemoveDoubleStars("z") == "z";
    }
    assert RemoveDoubleStars("y*z") == "y*z";
    assert RemoveDoubleStars("**y*z") == "y*z";
  }

  lemma NoDoubleStarCons(c: char, p: string)
    requires |p| > 0 && NoDoubleStar(p) && !(c == '*' && p[0] == '*')
    ensures NoDoubleStar([c] + p)
  {
    var r := [c] + p;
    forall i | 0 <= i < |r| - 1 ensures !(r[i] == '*' && r[i + 1] == '*') {
      if i > 0 {
        assert r[i] == p[i - 1] && r[i + 1] == p[i];
      }
    }
  }

  lemma NoDoubleStarTail(p: string)
    requires |p| > 0 && NoDoubleStar(p)
    ensures NoDoubleStar(p[1..])
    ensures |p| > 1 ==> p[1..][|p| - 2] == p[|p| - 1]
  {
    var q := p[1..];
    forall i | 0 <= i < |q| - 1 ensures !(q[i] == '*' && q[i + 1] == '*') {
      assert q[i] == p[i + 1] && q[i + 1] == p[i + 2];
    }
  }

  /** A character that does not start a `**` pair is kept. */
  lemma RemoveDoubleStarsCons(c: char, u: string)
    requires !(c == '*' && |u| > 0 && u[0] == '*')
    ensures RemoveDoubleStars([c] + u) == [c] + RemoveDoubleStars(u)
  {
    assert ([c] + u)[1..] == u;
  }

  /** Removing `**` a second time changes nothing. */
  lemma {:induction false} RemoveDoubleStarsIdempotent(s: string)
    ensures RemoveDoubleStars(RemoveDoubleStars(s)) == RemoveDoubleStars(s)
  {
    RemoveDoubleStarsOfFree(RemoveDoubleStars(s));
  }

  // ---------------------------------------------------------------- prefix tests

  /** Maps `A`..`Z` to `a`..`z` and leaves every other character alone. */
  function AsciiLower(c: char): char {
    if 'A' <= c <= 'Z' then (c as int + 32) as char else c
  }

  /**
   * `s.lower().startswith(prefix)` for a prefix of lower-case ASCII letters
   * and punctuation without `i` at its end, `k`, or non-ASCII characters:
   * the only non-ASCII characters that `lower()` turns into ASCII are U+212A
   * (to `k`) and U+0130 (to `i` followed by U+0307), and neither can
   * complete such a prefix, so comparing character by character is exact.
   */
  predicate StartsCaseless(s: string, prefix: string) {
    |prefix| <= |s| && forall i :: 0 <= i < |prefix| ==> AsciiLower(s[i]) == prefix[i]
  }

  /** `s.endswith(suffix)`, case-sensitive. */
  predicate EndsWith(s: string, suffix: string) {
    |suffix| <= |s| && s[|s| - |suffix|..] == suffix
  }
}
