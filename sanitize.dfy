/**
 * The two name cleaners of the repository.
 *
 * `SanitizeFilename` is `sanitizeFilename`, the same five-step chain in
 * universal-api.js, youtube-video-api.js, transcript-api.js and
 * video-merger-api.js: illegal path characters become `_`, runs of white
 * space become one `_`, runs of `_` collapse, one `_` is cut at each end,
 * and the result is cut to 100 characters.
 *
 * `SanitizeName` is folder.js's `sanitizeName`: everything but ASCII
 * letters, digits, space, `_` and `-` is dropped, the result is trimmed,
 * and runs of white space become one `_`.
 */
module Sanitize {
  import opened Text

  const MaxLength: nat := 100

  /** The class `[<>:"/\\|?*#]`. */
  predicate IsIllegal(c: char) {
    c == '<' || c == '>' || c == ':' || c == '"' || c == '/' || c == '\\'
    || c == '|' || c == '?' || c == '*' || c == '#'
  }

  predicate NotIllegal(c: char) { !IsIllegal(c) }

  predicate NoIllegal(s: string) { All(s, NotIllegal) }

  predicate NoDoubleUnderscore(s: string) {
    forall i :: 0 <= i < |s| - 1 ==> !(s[i] == '_' && s[i + 1] == '_')
  }

  predicate EndsWithUnderscore(s: string) { s != [] && s[|s| - 1] == '_' }

  // ------------------------------------------------------ the five steps

  /** `.replace(/[<>:"/\\|?*#]/g, '_')` */
  function ReplaceIllegal(s: string): (r: string)
    ensures |r| == |s| && NoIllegal(r)
    ensures NoIllegal(s) ==> r == s
  {
    seq(|s|, i requires 0 <= i < |s| => if IsIllegal(s[i]) then '_' else s[i])
  }

  /** `.replace(/\s+/g, '_')`: every maximal run of white space becomes one `_`. */
  function SpacesToUnderscore(s: string): (r: string)
    ensures s != [] ==> r != [] && (!IsSpace(s[0]) ==> r[0] == s[0])
    decreases |s|
  {
    if s == [] then []
    else if IsSpace(s[0]) then "_" + SpacesToUnderscore(TrimStart(s[1..]))
    else [s[0]] + SpacesToUnderscore(s[1..])
  }

  /**
   * Every character `SpacesToUnderscore` emits is `_` or a non-space
   * character of its input; so any class that holds `_` and the input's
   * non-space characters holds the whole output.
   */
  lemma {:induction false} SpacesToUnderscoreWithin(s: string, p: char -> bool)
    requires p('_') && forall i :: 0 <= i < |s| && !IsSpace(s[i]) ==> p(s[i])
    ensures All(SpacesToUnderscore(s), p)
    decreases |s|
  {
    if s != [] {
      if IsSpace(s[0]) {
        var rest := TrimStart(s[1..]);
        TrimStartSlice(s[1..]);
        assert forall i :: 0 <= i < |rest| ==> rest[i] == s[|s| - |rest| + i];
        SpacesToUnderscoreWithin(rest, p);
        AllConcat("_", SpacesToUnderscore(rest), p);
      } else {
        SpacesToUnderscoreWithin(s[1..], p);
        AllConcat([s[0]], SpacesToUnderscore(s[1..]), p);
      }
    }
  }

  lemma SpacesToUnderscoreNoSpace(s: string)
    ensures NoSpace(SpacesToUnderscore(s))
  {
    SpacesToUnderscoreWithin(s, NotSpace);
  }

  /** Only `_` is added, so a string free of illegal characters stays free of them. */
  lemma SpacesToUnderscoreLegal(s: string)
    requires NoIllegal(s)
    ensures NoIllegal(SpacesToUnderscore(s))
  {
    SpacesToUnderscoreWithin(s, NotIllegal);
  }

  lemma {:induction false} SpacesToUnderscoreLength(s: string)
    ensures |SpacesToUnderscore(s)| <= |s|
    decreases |s|
  {
    if s != [] {
      if IsSpace(s[0]) { SpacesToUnderscoreLength(TrimStart(s[1..])); }
      else { SpacesToUnderscoreLength(s[1..]); }
    }
  }

  lemma {:induction false} SpacesToUnderscoreIdentity(s: string)
    requires NoSpace(s)
    ensures SpacesToUnderscore(s) == s
  {
    if s != [] {
      assert NotSpace(s[0]);
      AllSlice(s, 1, |s|, NotSpace);
      SpacesToUnderscoreIdentity(s[1..]);
    }
  }

  /** The last character survives when it is not white space. */
  lemma {:induction false} SpacesToUnderscoreLast(s: string)
    requires s != [] && !IsSpace(s[|s| - 1])
    ensures var r := SpacesToUnderscore(s); r != [] && r[|r| - 1] == s[|s| - 1]
    decreases |s|
  {
    if IsSpace(s[0]) {
      var rest := TrimStart(s[1..]);
        TrimStartSlice(s[1..]);
      assert rest == s[|s| - |rest|..];
      assert rest != [] by { assert !IsSpace(s[1..][|s| - 2]); }
      SpacesToUnderscoreLast(rest);
    } else if |s| > 1 {
      SpacesToUnderscoreLast(s[1..]);
    }
  }

  /** Drops the leading `_` characters. */
  function SkipUnderscores(s: string): (r: string)
    ensures r == [] || r[0] != '_'
    ensures |r| <= |s| && r == s[|s| - |r|..]
  {
    if s != [] && s[0] == '_' then SkipUnderscores(s[1..]) else s
  }

  /** `.replace(/_+/g, '_')`: every maximal run of `_` becomes one `_`. */
  function CollapseUnderscores(s: string): (r: string)
    ensures (r == []) == (s == []) && (s != [] ==> r[0] == s[0])
    decreases |s|
  {
    if s == [] then []
    else if s[0] == '_' then "_" + CollapseUnderscores(SkipUnderscores(s[1..]))
    else [s[0]] + CollapseUnderscores(s[1..])
  }

  lemma {:induction false} CollapseNoDouble(s: string)
    ensures NoDoubleUnderscore(CollapseUnderscores(s))
    decreases |s|
  {
    if s != [] {
      if s[0] == '_' { CollapseNoDouble(SkipUnderscores(s[1..])); }
      else { CollapseNoDouble(s[1..]); }
    }
  }

  lemma AllSuffix(s: string, r: string, p: char -> bool)
    requires All(s, p) && |r| <= |s| && r == s[|s| - |r|..]
    ensures All(r, p)
  {
    AllSlice(s, |s| - |r|, |s|, p);
    assert s[|s| - |r|..] == s[|s| - |r|..|s|];
  }

  /** Collapsing only removes characters, so every class holding `_` and the input holds the output. */
  lemma {:induction false} CollapseWithin(s: string, p: char -> bool)
    requires p('_') && All(s, p)
    ensures All(CollapseUnderscores(s), p)
    decreases |s|
  {
    if s != [] {
      if s[0] == '_' {
        var rest := SkipUnderscores(s[1..]);
        AllSuffix(s, rest, p);
        CollapseWithin(rest, p);
        AllConcat("_", CollapseUnderscores(rest), p);
      } else {
        AllSlice(s, 1, |s|, p);
        CollapseWithin(s[1..], p);
        AllConcat([s[0]], CollapseUnderscores(s[1..]), p);
      }
    }
  }

  lemma {:induction false} CollapseIdentity(s: string)
    requires NoDoubleUnderscore(s)
    ensures CollapseUnderscores(s) == s
  {
    if s != [] {
      if s[0] == '_' && |s| > 1 {
        assert !(s[0] == '_' && s[1] == '_');
      }
      CollapseIdentity(s[1..]);
    }
  }

  /** `.replace(/^_|_$/g, '')`: one `_` is removed at the start and one at the end. */
  function StripEdgeUnderscores(s: string): (r: string)
    ensures exists i, j :: 0 <= i <= j <= |s| && r == s[i..j]
    ensures s == [] || (s[0] != '_' && s[|s| - 1] != '_') ==> r == s
  {
    var a := if s != [] && s[0] == '_' then s[1..] else s;
    if a != [] && a[|a| - 1] == '_' then
      assert a[..|a| - 1] == s[|s| - |a|..|s| - 1];
      a[..|a| - 1]
    else
      assert a == s[|s| - |a|..|s|];
      a
  }

  /** `.substring(0, 100)` */
  function Truncate(s: string): string
  {
    if |s| <= MaxLength then s else s[..MaxLength]
  }

  /** The value before the final cut to 100 characters. */
  function Unclipped(s: string): string
  {
    StripEdgeUnderscores(CollapseUnderscores(SpacesToUnderscore(ReplaceIllegal(s))))
  }

  /** `sanitizeFilename(s)` */
  function SanitizeFilename(s: string): string
  {
    Truncate(Unclipped(s))
  }

  // -------------------------------------------------- sanitizeFilename facts

  /** A slice keeps the three character-level properties. */
  lemma SliceKeeps(s: string, i: nat, j: nat)
    requires i <= j <= |s|
    requires NoIllegal(s) && NoSpace(s) && NoDoubleUnderscore(s)
    ensures NoIllegal(s[i..j]) && NoSpace(s[i..j]) && NoDoubleUnderscore(s[i..j])
  {
    AllSlice(s, i, j, NotIllegal);
    AllSlice(s, i, j, NotSpace);
    var t := s[i..j];
    forall k | 0 <= k < |t| - 1 ensures !(t[k] == '_' && t[k + 1] == '_') {
      assert t[k] == s[i + k] && t[k + 1] == s[i + k + 1];
    }
  }

  /** What the four steps before the cut guarantee. */
  lemma UnclippedShape(s: string)
    ensures var t := Unclipped(s);
      NoIllegal(t) && NoSpace(t) && NoDoubleUnderscore(t)
      && (t == [] || (t[0] != '_' && t[|t| - 1] != '_'))
  {
    var a := ReplaceIllegal(s);
    var b := SpacesToUnderscore(a);
    var c := CollapseUnderscores(b);
    var t := StripEdgeUnderscores(c);
    SpacesToUnderscoreLegal(a);
    SpacesToUnderscoreNoSpace(a);
    CollapseWithin(b, NotIllegal);
    CollapseWithin(b, NotSpace);
    CollapseNoDouble(b);
    var i, j :| 0 <= i <= j <= |c| && t == c[i..j];
    SliceKeeps(c, i, j);
  }

  /**
   * The result of `sanitizeFilename` holds no illegal character, no white
   * space and no `__`, never starts with `_`, and has at most 100 characters.
   */
  lemma SanitizeFilenameShape(s: string)
    ensures var r := SanitizeFilename(s);
      NoIllegal(r) && NoSpace(r) && NoDoubleUnderscore(r)
      && |r| <= MaxLength && (r == [] || r[0] != '_')
  {
    UnclippedShape(s);
    var t := Unclipped(s);
    SliceKeeps(t, 0, if |t| <= MaxLength then |t| else MaxLength);
    assert t == t[0..|t|];
  }

  /** A name already in sanitised form is its own image. */
  lemma SanitizeFixedPoint(s: string)
    requires NoIllegal(s) && NoSpace(s) && NoDoubleUnderscore(s) && |s| <= MaxLength
    requires s == [] || (s[0] != '_' && s[|s| - 1] != '_')
    ensures SanitizeFilename(s) == s
  {
    SpacesToUnderscoreIdentity(s);
    CollapseIdentity(s);
  }

  /** The result ends with `_` exactly when the cut at 100 lands right after a `_`. */
  lemma EndsWithUnderscoreIff(s: string)
    ensures EndsWithUnderscore(SanitizeFilename(s))
        <==> |Unclipped(s)| > MaxLength && Unclipped(s)[MaxLength - 1] == '_'
  {
    UnclippedShape(s);
  }

  /** A sanitised-looking name that ends with `_` loses that `_` on the next pass. */
  lemma SecondPassCuts(r: string)
    requires NoIllegal(r) && NoSpace(r) && NoDoubleUnderscore(r) && |r| <= MaxLength
    requires r != [] && r[0] != '_' && r[|r| - 1] == '_'
    ensures SanitizeFilename(r) == r[..|r| - 1]
  {
    SpacesToUnderscoreIdentity(r);
    CollapseIdentity(r);
    assert |r| >= 2;
  }

  /**
   * Sanitising a sanitised name changes it exactly when it ends with `_`:
   * then the second pass cuts that `_`.
   */
  lemma SanitizeTwiceIff(s: string)
    ensures var r := SanitizeFilename(s);
      (SanitizeFilename(r) == r) <==> !EndsWithUnderscore(r)
  {
    var r := SanitizeFilename(s);
    SanitizeFilenameShape(s);
    if EndsWithUnderscore(r) {
      SecondPassCuts(r);
      assert |r[..|r| - 1]| != |r|;
    } else {
      SanitizeFixedPoint(r);
    }
  }

  /** A title of 99 letters, `_` and one more letter is an input where idempotence fails. */
  lemma SanitizeNotIdempotentExample()
    ensures var s := seq(99, _ => 'a') + "_b";
      SanitizeFilename(s) == seq(99, _ => 'a') + "_"
      && SanitizeFilename(SanitizeFilename(s)) == seq(99, _ => 'a')
  {
    var s := seq(99, _ => 'a') + "_b";
    assert NoIllegal(s) && NoSpace(s) && NoDoubleUnderscore(s);
    SpacesToUnderscoreIdentity(s);
    CollapseIdentity(s);
    assert Unclipped(s) == s;
    assert SanitizeFilename(s) == s[..100];
    var r := s[..100];
    assert r == seq(99, _ => 'a') + "_";
    SanitizeFilenameShape(s);
    SpacesToUnderscoreIdentity(r);
    CollapseIdentity(r);
    assert StripEdgeUnderscores(r) == r[..99];
  }

  predicate IsUnderscore(c: char) { c == '_' }

  /** A title made only of illegal characters and white space sanitises to the empty name. */
  lemma OnlyIllegalIsEmpty(s: string)
    requires forall i :: 0 <= i < |s| ==> IsIllegal(s[i]) || IsSpace(s[i])
    ensures SanitizeFilename(s) == []
  {
    var a := ReplaceIllegal(s);
    var b := SpacesToUnderscore(a);
    SpacesToUnderscoreWithin(a, IsUnderscore);
    var c := CollapseUnderscores(b);
    CollapseWithin(b, IsUnderscore);
    CollapseNoDouble(b);
  }

  // -------------------------------------------------------- sanitizeName

  predicate IsAsciiAlnum(c: char) {
    ('0' <= c <= '9') || ('a' <= c <= 'z') || ('A' <= c <= 'Z')
  }

  /** The characters `[0-9a-zA-Z _-]` kept by folder.js's first step. */
  predicate IsKept(c: char) { IsAsciiAlnum(c) || c == ' ' || c == '_' || c == '-' }

  /** The characters a folder name may hold: `[0-9a-zA-Z_-]`. */
  predicate IsNameChar(c: char) { IsAsciiAlnum(c) || c == '_' || c == '-' }

  predicate IsAsciiAlnumOrDash(c: char) { IsAsciiAlnum(c) || c == '-' }

  /** No white-space character is a name character; in particular `_` is not white space. */
  lemma SpaceIsNotNameChar()
    ensures forall c :: IsSpace(c) ==> !IsNameChar(c) && !IsAsciiAlnumOrDash(c)
    ensures !IsSpace('_')
  {
  }

  /** The subsequence of `s` whose characters satisfy `p`. */
  function Keep(s: string, p: char -> bool): string
  {
    if s == [] then [] else (if p(s[0]) then [s[0]] else []) + Keep(s[1..], p)
  }

  /** `.replace(/[^0-9a-zA-Z _-]/g, '')` */
  function DropDisallowed(s: string): string
  {
    Keep(s, IsKept)
  }

  /** `sanitizeName(s)` of folder.js. */
  function SanitizeName(s: string): string
  {
    SpacesToUnderscore(Trim(DropDisallowed(s)))
  }

  lemma {:induction false} KeepAppend(a: string, b: string, p: char -> bool)
    ensures Keep(a + b, p) == Keep(a, p) + Keep(b, p)
  {
    if a != [] {
      assert (a + b)[0] == a[0];
      assert (a + b)[1..] == a[1..] + b;
      KeepAppend(a[1..], b, p);
      assert Keep(a + b, p) == (if p(a[0]) then [a[0]] else []) + Keep(a[1..] + b, p);
    } else {
      assert a + b == b;
    }
  }

  lemma {:induction false} KeepAll(s: string, p: char -> bool)
    requires All(s, p)
    ensures Keep(s, p) == s
  {
    if s != [] {
      AllSlice(s, 1, |s|, p);
      KeepAll(s[1..], p);
    }
  }

  lemma {:induction false} KeepNone(s: string, p: char -> bool)
    requires forall i :: 0 <= i < |s| ==> !p(s[i])
    ensures Keep(s, p) == []
  {
    if s != [] { KeepNone(s[1..], p); }
  }

  lemma {:induction false} KeepSatisfies(s: string, p: char -> bool)
    ensures |Keep(s, p)| <= |s| && All(Keep(s, p), p)
  {
    if s != [] {
      KeepSatisfies(s[1..], p);
      AllConcat(if p(s[0]) then [s[0]] else [], Keep(s[1..], p), p);
    }
  }

  /** Applying a narrower filter after a wider one is applying the narrower one. */
  lemma {:induction false} KeepKeep(s: string, p: char -> bool, q: char -> bool)
    requires forall c :: q(c) ==> p(c)
    ensures Keep(Keep(s, p), q) == Keep(s, q)
  {
    if s != [] {
      KeepKeep(s[1..], p, q);
      if p(s[0]) {
        KeepAppend([s[0]], Keep(s[1..], p), q);
        assert Keep([s[0]], q) == if q(s[0]) then [s[0]] else [];
      } else {
        assert Keep(s, p) == Keep(s[1..], p);
      }
    }
  }

  /** Trimming drops only white space, which no filter here keeps. */
  lemma KeepTrim(f: string, p: char -> bool)
    requires forall c :: IsSpace(c) ==> !p(c)
    ensures Keep(Trim(f), p) == Keep(f, p)
  {
    var i, j := TrimSlice(f);
    var t := Trim(f);
    assert f == f[..i] + t + f[j..];
    KeepAppend(f[..i] + t, f[j..], p);
    KeepAppend(f[..i], t, p);
    KeepNone(f[..i], p);
    KeepNone(f[j..], p);
  }

  /** Turning space runs into `_` leaves every other kept character alone. */
  lemma {:induction false} KeepSpacesToUnderscore(s: string, p: char -> bool)
    requires !p('_') && forall c :: IsSpace(c) ==> !p(c)
    ensures Keep(SpacesToUnderscore(s), p) == Keep(s, p)
    decreases |s|
  {
    if s != [] {
      if IsSpace(s[0]) {
        var rest := TrimStart(s[1..]);
        TrimStartSlice(s[1..]);
        var n := |s[1..]| - |rest|;
        assert s[1..] == s[1..][..n] + rest;
        KeepAppend(s[1..][..n], rest, p);
        KeepNone(s[1..][..n], p);
        KeepSpacesToUnderscore(rest, p);
        KeepAppend("_", SpacesToUnderscore(rest), p);
      } else {
        KeepSpacesToUnderscore(s[1..], p);
        KeepAppend([s[0]], SpacesToUnderscore(s[1..]), p);
      }
    }
  }

  /** `a` is `b` with some characters left out: its characters occur in `b` in the same order. */
  predicate Subsequence(a: string, b: string)
    decreases |b|
  {
    a == [] || (b != [] && ((a[0] == b[0] && Subsequence(a[1..], b[1..])) || Subsequence(a, b[1..])))
  }

  /** Turning space runs into `_` keeps every name character, `_` included, in order. */
  lemma {:induction false} NameCharsSurviveSpaces(s: string)
    ensures Subsequence(Keep(s, IsNameChar), SpacesToUnderscore(s))
    decreases |s|
  {
    if s != [] {
      var r := SpacesToUnderscore(s);
      if IsSpace(s[0]) {
        var rest := TrimStart(s[1..]);
        TrimStartSlice(s[1..]);
        var n := |s[1..]| - |rest|;
        assert s[1..] == s[1..][..n] + rest;
        SpaceIsNotNameChar();
        KeepAppend(s[1..][..n], rest, IsNameChar);
        KeepNone(s[1..][..n], IsNameChar);
        NameCharsSurviveSpaces(rest);
        assert Keep(s, IsNameChar) == Keep(s[1..], IsNameChar) == Keep(rest, IsNameChar);
        assert r != [] && r[1..] == SpacesToUnderscore(rest);
      } else {
        NameCharsSurviveSpaces(s[1..]);
        var k := Keep(s, IsNameChar);
        assert r[0] == s[0] && r[1..] == SpacesToUnderscore(s[1..]);
        if IsNameChar(s[0]) {
          assert k[0] == s[0] && k[1..] == Keep(s[1..], IsNameChar);
        } else {
          assert k == Keep(s[1..], IsNameChar);
        }
      }
    }
  }

  /** The underscore count only grows when space runs become `_`. */
  lemma {:induction false} UnderscoresKept(s: string)
    ensures Count(SpacesToUnderscore(s), '_') >= Count(s, '_')
    decreases |s|
  {
    if s != [] {
      if IsSpace(s[0]) {
        var rest := TrimStart(s[1..]);
        TrimStartSlice(s[1..]);
        var n := |s[1..]| - |rest|;
        assert s == [s[0]] + s[1..][..n] + rest;
        assert '_' !in s[1..][..n];
        UnderscoresKept(rest);
        assert SpacesToUnderscore(s) == "_" + SpacesToUnderscore(rest);
      } else {
        UnderscoresKept(s[1..]);
        assert s == [s[0]] + s[1..];
        assert SpacesToUnderscore(s) == [s[0]] + SpacesToUnderscore(s[1..]);
      }
    }
  }

  lemma {:induction false} FilterCountsUnderscores(s: string)
    ensures Count(Keep(s, IsKept), '_') == Count(s, '_')
  {
    if s != [] {
      FilterCountsUnderscores(s[1..]);
      assert s == [s[0]] + s[1..];
      if IsKept(s[0]) {
        assert Keep(s, IsKept) == [s[0]] + Keep(s[1..], IsKept);
      }
    }
  }

  /** The trimmed, filtered input holds only `[0-9a-zA-Z _-]`. */
  lemma TrimmedKept(s: string)
    ensures All(Trim(DropDisallowed(s)), IsKept)
  {
    var f := DropDisallowed(s);
    KeepSatisfies(s, IsKept);
    var i, j := TrimSlice(f);
    AllSlice(f, i, j, IsKept);
  }

  /** The name holds only `[0-9a-zA-Z_-]` and is no longer than the input. */
  lemma SanitizeNameChars(s: string)
    ensures var r := SanitizeName(s); |r| <= |s| && All(r, IsNameChar)
  {
    var t := Trim(DropDisallowed(s));
    TrimmedKept(s);
    SpacesToUnderscoreWithin(t, IsNameChar);
    SpacesToUnderscoreLength(t);
    KeepSatisfies(s, IsKept);
  }

  /** A string is its prefix, a middle slice and its suffix. */
  lemma SplitThree(f: string, i: nat, j: nat)
    requires i <= j <= |f|
    ensures f == f[..i] + f[i..j] + f[j..]
  {
  }

  /** Trimming never changes how often a non-space character occurs. */
  lemma CountTrim(f: string, c: char)
    requires !IsSpace(c)
    ensures Count(Trim(f), c) == Count(f, c)
  {
    var i, j := TrimSlice(f);
    SplitThree(f, i, j);
    assert multiset(f) == multiset(f[..i]) + multiset(f[i..j]) + multiset(f[j..]);
    assert c !in f[..i] by {
      forall k | 0 <= k < i ensures f[..i][k] != c { assert IsSpace(f[k]); }
    }
    assert c !in f[j..] by {
      forall k | 0 <= k < |f| - j ensures f[j..][k] != c { assert IsSpace(f[j + k]); }
    }
  }

  /** Filtering keeps the first and the last character when both pass. */
  lemma KeepEnds(t: string, p: char -> bool)
    requires t != [] && p(t[0]) && p(t[|t| - 1])
    ensures var w := Keep(t, p); w != [] && w[0] == t[0] && w[|w| - 1] == t[|t| - 1]
  {
    KeepAppend([t[0]], t[1..], p);
    assert [t[0]] + t[1..] == t;
    KeepAppend(t[..|t| - 1], [t[|t| - 1]], p);
    assert t[..|t| - 1] + [t[|t| - 1]] == t;
  }

  /**
   * The letters, digits and hyphens of the input all survive, in order,
   * and no `_` is lost; every name character of the input, `_` included,
   * appears in the name in its original order, the name adding only the
   * `_` that replace runs of white space.
   */
  lemma SanitizeNameKeepsOrder(s: string)
    ensures Keep(SanitizeName(s), IsAsciiAlnumOrDash) == Keep(s, IsAsciiAlnumOrDash)
    ensures Count(SanitizeName(s), '_') >= Count(s, '_')
    ensures Subsequence(Keep(s, IsNameChar), SanitizeName(s))
  {
    var f := DropDisallowed(s);
    var t := Trim(f);
    SpaceIsNotNameChar();
    KeepTrim(f, IsNameChar);
    KeepKeep(s, IsKept, IsNameChar);
    NameCharsSurviveSpaces(t);
    KeepSpacesToUnderscore(t, IsAsciiAlnumOrDash);
    KeepTrim(f, IsAsciiAlnumOrDash);
    KeepKeep(s, IsKept, IsAsciiAlnumOrDash);
    UnderscoresKept(t);
    CountTrim(f, '_');
    FilterCountsUnderscores(s);
  }

  /**
   * The name is empty exactly when the input has no letter, digit, `_` or
   * `-`, and otherwise starts and ends with the input's first and last such
   * character: spaces trimmed at either end never become `_`.
   */
  lemma SanitizeNameEnds(s: string)
    ensures var r := SanitizeName(s); var w := Keep(s, IsNameChar);
      && (r == [] <==> w == [])
      && (r != [] ==> r[0] == w[0] && r[|r| - 1] == w[|w| - 1])
  {
    var f := DropDisallowed(s);
    var t := Trim(f);
    SpaceIsNotNameChar();
    KeepTrim(f, IsNameChar);
    KeepKeep(s, IsKept, IsNameChar);
    TrimmedKept(s);
    assert Keep(s, IsNameChar) == Keep(t, IsNameChar);
    if t != [] {
      assert IsKept(t[0]) && IsKept(t[|t| - 1]);
      KeepEnds(t, IsNameChar);
      SpacesToUnderscoreLast(t);
    }
  }

  /** `sanitizeName` is idempotent. */
  lemma SanitizeNameIdempotent(s: string)
    ensures SanitizeName(SanitizeName(s)) == SanitizeName(s)
  {
    var r := SanitizeName(s);
    SanitizeNameChars(s);
    SpaceIsNotNameChar();
    forall k | 0 <= k < |r| ensures IsKept(r[k]) && NotSpace(r[k]) {
      assert IsNameChar(r[k]);
    }
    KeepAll(r, IsKept);
    assert NoSpace(r);
    assert TrimStart(r) == r;
    assert TrimEnd(r) == r;
    SpacesToUnderscoreIdentity(r);
  }
}
