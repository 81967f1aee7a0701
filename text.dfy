/**
 * The JavaScript string operations the scripts rely on, written out over
 * `seq<char>`: the `\s` character class and `trim`, `indexOf`/`includes`,
 * `split` and `join` with a literal separator, `replace` with a literal
 * global pattern, `String(n)`, `padStart` and `parseInt(_, 10)`.
 */
module Text {

  datatype Option<+T> = None | Some(value: T)

  /** The outcome of an external command: its value, or the message of the error it raised. */
  datatype Result<+T> = Ok(value: T) | Err(error: string)

  /** The characters JavaScript's `\s` matches, which are also the ones `trim` removes. */
  predicate IsSpace(c: char)
  {
    || c == ' ' || c == '\t' || c == '\n' || c == '\r' || c == '\U{B}' || c == '\U{C}'
    || c == '\U{A0}' || c == '\U{1680}'
    || c == '\U{2000}' || c == '\U{2001}' || c == '\U{2002}' || c == '\U{2003}' || c == '\U{2004}'
    || c == '\U{2005}' || c == '\U{2006}' || c == '\U{2007}' || c == '\U{2008}' || c == '\U{2009}'
    || c == '\U{200A}' || c == '\U{2028}' || c == '\U{2029}' || c == '\U{202F}' || c == '\U{205F}'
    || c == '\U{3000}' || c == '\U{FEFF}'
  }

  predicate IsDigit(c: char) { '0' <= c <= '9' }

  predicate AllDigits(s: string) { forall i :: 0 <= i < |s| ==> IsDigit(s[i]) }

  predicate NotSpace(c: char) { !IsSpace(c) }

  /** Every character of `s` satisfies `p`. */
  predicate All(s: string, p: char -> bool) { forall i :: 0 <= i < |s| ==> p(s[i]) }

  predicate NoSpace(s: string) { All(s, NotSpace) }

  lemma AllConcat(a: string, b: string, p: char -> bool)
    ensures All(a + b, p) <==> All(a, p) && All(b, p)
  {
    if All(a, p) && All(b, p) {
      forall k | 0 <= k < |a + b| ensures p((a + b)[k]) {
        if k >= |a| { assert (a + b)[k] == b[k - |a|]; }
      }
    }
    if All(a + b, p) {
      forall k | 0 <= k < |a| ensures p(a[k]) { assert (a + b)[k] == a[k]; }
      forall k | 0 <= k < |b| ensures p(b[k]) { assert (a + b)[|a| + k] == b[k]; }
    }
  }

  lemma AllSlice(s: string, i: nat, j: nat, p: char -> bool)
    requires i <= j <= |s| && All(s, p)
    ensures All(s[i..j], p)
  {
    assert forall k :: 0 <= k < j - i ==> s[i..j][k] == s[i + k];
  }

  /** Number of occurrences of `c` in `s`. */
  function Count(s: string, c: char): nat { multiset(s)[c] }

  // ---------------------------------------------------------------- trim

  function TrimStart(s: string): (r: string)
    ensures r == [] || !IsSpace(r[0])
    ensures |r| <= |s|
    ensures forall i :: 0 <= i < |s| - |r| ==> IsSpace(s[i])
  {
    if s != [] && IsSpace(s[0]) then TrimStart(s[1..]) else s
  }

  /** What `TrimStart` keeps is a suffix of its input. */
  lemma {:induction false} TrimStartSlice(s: string)
    ensures TrimStart(s) == s[|s| - |TrimStart(s)|..]
  {
    if s != [] && IsSpace(s[0]) {
      TrimStartSlice(s[1..]);
    }
  }

  function TrimEnd(s: string): (r: string)
    ensures r == [] || !IsSpace(r[|r| - 1])
    ensures |r| <= |s|
    ensures forall i :: |r| <= i < |s| ==> IsSpace(s[i])
  {
    if s != [] && IsSpace(s[|s| - 1]) then TrimEnd(s[..|s| - 1]) else s
  }

  /** What `TrimEnd` keeps is a prefix of its input. */
  lemma {:induction false} TrimEndSlice(s: string)
    ensures TrimEnd(s) == s[..|TrimEnd(s)|]
  {
    if s != [] && IsSpace(s[|s| - 1]) {
      TrimEndSlice(s[..|s| - 1]);
    }
  }

  /** `String.prototype.trim`. */
  function Trim(s: string): (r: string)
    ensures r == [] || (!IsSpace(r[0]) && !IsSpace(r[|r| - 1]))
    ensures |r| <= |s|
  {
    TrimEndSlice(TrimStart(s));
    TrimEnd(TrimStart(s))
  }

  /** What `Trim` keeps is a slice of its input. */
  lemma TrimSlice(s: string) returns (i: nat, j: nat)
    ensures i <= j <= |s| && Trim(s) == s[i..j]
    ensures forall k :: 0 <= k < i ==> IsSpace(s[k])
    ensures forall k :: j <= k < |s| ==> IsSpace(s[k])
  {
    var a := TrimStart(s);
    TrimStartSlice(s);
    TrimEndSlice(a);
    i, j := |s| - |a|, |s| - |a| + |Trim(s)|;
    assert Trim(s) == a[..|Trim(s)|];
    forall k | j <= k < |s| ensures IsSpace(s[k]) {
      assert s[k] == a[k - i];
    }
  }

  lemma TrimChars(s: string)
    ensures forall c :: c in Trim(s) ==> c in s
  {
    var a := TrimStart(s);
    TrimStartSlice(s);
    TrimEndSlice(a);
    assert a == s[|s| - |a|..];
    assert Trim(s) == a[..|Trim(s)|];
  }

  /** A string with no white space at either end is its own trim. */
  lemma TrimIdentity(s: string)
    requires s == [] || (!IsSpace(s[0]) && !IsSpace(s[|s| - 1]))
    ensures Trim(s) == s
  {
  }

  /** Trimming removes one trailing white-space character from a string with non-space ends. */
  lemma TrimTrailing(s: string, c: char)
    requires s != [] && !IsSpace(s[0]) && !IsSpace(s[|s| - 1]) && IsSpace(c)
    ensures Trim(s + [c]) == s
  {
    var t := s + [c];
    assert TrimStart(t) == t;
    assert t[..|t| - 1] == s;
    assert TrimEnd(t) == TrimEnd(s);
  }

  /** A string of white space trims to the empty string. */
  lemma {:induction false} TrimBlank(s: string)
    requires forall i :: 0 <= i < |s| ==> IsSpace(s[i])
    ensures TrimStart(s) == [] && Trim(s) == []
  {
    if s != [] {
      TrimBlank(s[1..]);
    }
  }

  // ------------------------------------------------- searching a literal

  predicate MatchesAt(s: string, pat: string, k: nat) {
    k + |pat| <= |s| && s[k..k + |pat|] == pat
  }

  predicate StartsWith(s: string, pre: string) { MatchesAt(s, pre, 0) }

  predicate EndsWith(s: string, suf: string) {
    |suf| <= |s| && s[|s| - |suf|..] == suf
  }

  /** `s.indexOf(pat)`, with `None` for -1: the leftmost position where `pat` occurs. */
  function Find(s: string, pat: string): (r: Option<nat>)
    requires pat != []
    ensures r.Some? ==> MatchesAt(s, pat, r.value)
    ensures r.Some? ==> forall k :: 0 <= k < r.value ==> !MatchesAt(s, pat, k)
    ensures r.None? ==> forall k :: 0 <= k <= |s| ==> !MatchesAt(s, pat, k)
    decreases |s|
  {
    if |s| < |pat| then None
    else if s[..|pat|] == pat then Some(0)
    else
      ShiftMatches(s, pat);
      match Find(s[1..], pat)
      case None => None
      case Some(i) => Some(i + 1)
  }

  lemma ShiftMatches(s: string, pat: string)
    requires s != []
    ensures forall k :: 1 <= k ==> (MatchesAt(s, pat, k) <==> MatchesAt(s[1..], pat, k - 1))
  {
    forall k | 1 <= k
      ensures MatchesAt(s, pat, k) <==> MatchesAt(s[1..], pat, k - 1)
    {
      if k + |pat| <= |s| {
        assert s[k..k + |pat|] == s[1..][k - 1..k - 1 + |pat|];
      }
    }
  }

  /** `s.includes(pat)`. */
  predicate Contains(s: string, pat: string)
    requires pat != []
  {
    Find(s, pat).Some?
  }

  lemma ContainsAt(s: string, pat: string, k: nat)
    requires pat != [] && MatchesAt(s, pat, k)
    ensures Contains(s, pat)
  {
  }

  lemma NotContainsFirstChar(s: string, pat: string)
    requires pat != [] && pat[0] !in s
    ensures !Contains(s, pat)
  {
  }

  // ------------------------------------------------------ split and join

  /** `s.split(sep)` for a non-empty literal separator, without a limit. */
  function Split(s: string, sep: string): (r: seq<string>)
    requires sep != []
    ensures |r| >= 1
    decreases |s|
  {
    match Find(s, sep)
    case None => [s]
    case Some(i) => [s[..i]] + Split(s[i + |sep|..], sep)
  }

  /** `parts.join(sep)`. */
  function Join(parts: seq<string>, sep: string): string
  {
    if |parts| == 0 then []
    else if |parts| == 1 then parts[0]
    else parts[0] + sep + Join(parts[1..], sep)
  }

  /** Splitting undoes joining when no part contains the separator's first character. */
  lemma {:induction false} SplitJoin(parts: seq<string>, sep: string)
    requires sep != [] && |parts| >= 1
    requires forall p :: p in parts ==> sep[0] !in p
    ensures Split(Join(parts, sep), sep) == parts
  {
    var s := Join(parts, sep);
    if |parts| == 1 {
      NotContainsFirstChar(parts[0], sep);
    } else {
      var p0 := parts[0];
      assert s == p0 + sep + Join(parts[1..], sep);
      assert MatchesAt(s, sep, |p0|) by {
        assert s[|p0|..|p0| + |sep|] == sep;
      }
      assert sep[0] !in p0 by { assert p0 in parts; }
      forall k | 0 <= k < |p0|
        ensures !MatchesAt(s, sep, k)
      {
        assert s[k] == p0[k];
        if k + |sep| <= |s| {
          assert s[k..k + |sep|][0] == s[k];
        }
      }
      var f := Find(s, sep);
      assert f.value == |p0|;
      assert s[..|p0|] == p0;
      assert s[|p0| + |sep|..] == Join(parts[1..], sep);
      SplitJoin(parts[1..], sep);
      assert parts == [p0] + parts[1..];
    }
  }

  /** Splitting on a one-character separator yields one more piece than there are separators. */
  lemma {:induction false} SplitCount(s: string, c: char)
    ensures |Split(s, [c])| == Count(s, c) + 1
    decreases |s|
  {
    match Find(s, [c])
    case None =>
      forall k | 0 <= k < |s| ensures s[k] != c {
        assert !MatchesAt(s, [c], k);
        assert s[k..k + 1] == [s[k]];
      }
      assert c !in s;
    case Some(i) =>
      assert s[i] == c by { assert s[i..i + 1] == [c]; }
      assert c !in s[..i] by {
        forall k | 0 <= k < i ensures s[k] != c {
          assert !MatchesAt(s, [c], k);
          assert s[k..k + 1] == [s[k]];
        }
      }
      assert s == s[..i] + [c] + s[i + 1..];
      assert multiset(s) == multiset(s[..i]) + multiset([c]) + multiset(s[i + 1..]);
      SplitCount(s[i + 1..], c);
  }

  /** Every piece of a split is free of the separator. */
  lemma {:induction false} SplitPiecesFree(s: string, c: char)
    ensures forall p :: p in Split(s, [c]) ==> c !in p
    decreases |s|
  {
    match Find(s, [c])
    case None =>
      forall k | 0 <= k < |s| ensures s[k] != c {
        assert !MatchesAt(s, [c], k);
        assert s[k..k + 1] == [s[k]];
      }
      assert c !in s;
    case Some(i) =>
      assert c !in s[..i] by {
        forall k | 0 <= k < i ensures s[k] != c {
          assert !MatchesAt(s, [c], k);
          assert s[k..k + 1] == [s[k]];
        }
      }
      SplitPiecesFree(s[i + 1..], c);
  }

  // ------------------------------------------------------------- replace

  /** `s.replace(/pat/g, rep)` for a literal pattern: leftmost, non-overlapping occurrences. */
  function ReplaceAll(s: string, pat: string, rep: string): string
    requires pat != []
  {
    if s == [] then []
    else if StartsWith(s, pat) then rep + ReplaceAll(s[|pat|..], pat, rep)
    else [s[0]] + ReplaceAll(s[1..], pat, rep)
  }

  /** `s.replace(pat, rep)` for a literal pattern without the `g` flag: only the leftmost occurrence. */
  function ReplaceFirst(s: string, pat: string, rep: string): string
    requires pat != []
  {
    match Find(s, pat)
    case None => s
    case Some(i) => s[..i] + rep + s[i + |pat|..]
  }

  /** A string that starts with the pattern loses exactly that occurrence. */
  lemma ReplaceFirstAtStart(pat: string, x: string, rep: string)
    requires pat != []
    ensures ReplaceFirst(pat + x, pat, rep) == rep + x
  {
    var s := pat + x;
    assert MatchesAt(s, pat, 0) by { assert s[0..|pat|] == pat; }
    assert Find(s, pat) == Some(0);
    assert s[|pat|..] == x;
  }

  /** `String(c).toUpperCase()` on ASCII letters. */
  function UpperChar(c: char): char {
    if 'a' <= c <= 'z' then (c as int - 'a' as int + 'A' as int) as char else c
  }

  function ToUpper(s: string): (r: string)
    ensures |r| == |s|
    ensures forall i :: 0 <= i < |s| ==> r[i] == UpperChar(s[i])
  {
    seq(|s|, i requires 0 <= i < |s| => UpperChar(s[i]))
  }

  // ------------------------------------------------ decimal numbers

  function DigitChar(d: nat): char
    requires d < 10
  {
    ('0' as int + d) as char
  }

  /** `String(n)` for a natural number. */
  function Dec(n: nat): (r: string)
    ensures |r| >= 1 && AllDigits(r)
    ensures r[0] == '0' ==> n == 0
  {
    if n < 10 then [DigitChar(n)] else Dec(n / 10) + [DigitChar(n % 10)]
  }

  /** `String(i)` for any integer (the sign is written only for negative values). */
  function IntText(i: int): (r: string)
    ensures |r| >= 1
  {
    if i < 0 then "-" + Dec(-i) else Dec(i)
  }

  /** The value of a string of decimal digits, most significant first. */
  function DigitsValue(s: string): nat
    requires AllDigits(s)
  {
    if s == [] then 0 else DigitsValue(s[..|s| - 1]) * 10 + (s[|s| - 1] as int - '0' as int)
  }

  lemma {:induction false} DecValue(n: nat)
    ensures DigitsValue(Dec(n)) == n
  {
    if n >= 10 {
      var d := Dec(n);
      assert d[..|d| - 1] == Dec(n / 10);
      DecValue(n / 10);
    }
  }

  function Zeros(k: nat): (r: string)
    ensures |r| == k && AllDigits(r)
    ensures forall i :: 0 <= i < k ==> r[i] == '0'
  {
    seq(k, _ => '0')
  }

  /** `s.padStart(width, fill)`. */
  function PadStart(s: string, width: nat, fill: char): (r: string)
  {
    if |s| >= width then s else seq(width - |s|, _ => fill) + s
  }

  lemma {:induction false} LeadingZerosValue(k: nat, s: string)
    requires AllDigits(s)
    ensures DigitsValue(Zeros(k) + s) == DigitsValue(s)
    decreases |s|
  {
    var z := Zeros(k) + s;
    if s == [] {
      assert z == Zeros(k);
      ZerosValue(k);
    } else {
      assert z[..|z| - 1] == Zeros(k) + s[..|s| - 1];
      LeadingZerosValue(k, s[..|s| - 1]);
    }
  }

  lemma {:induction false} ZerosValue(k: nat)
    ensures DigitsValue(Zeros(k)) == 0
  {
    if k > 0 {
      assert Zeros(k)[..k - 1] == Zeros(k - 1);
      ZerosValue(k - 1);
    }
  }

  /** `String(n).padStart(width, '0')`. */
  function ZeroPad(n: nat, width: nat): (r: string)
    ensures AllDigits(r) && |r| >= width && |r| >= |Dec(n)|
  {
    var d := Dec(n);
    if |d| >= width then d else Zeros(width - |d|) + d
  }

  /** A zero-padded decimal still reads back as the number it was made from. */
  lemma ZeroPadValue(n: nat, width: nat)
    ensures DigitsValue(ZeroPad(n, width)) == n
  {
    DecValue(n);
    var d := Dec(n);
    if |d| < width {
      LeadingZerosValue(width - |d|, d);
    }
    assert ZeroPad(n, width) == PadStart(Dec(n), width, '0');
  }

  /** Distinct numbers get distinct padded names: padding never truncates. */
  lemma ZeroPadInjective(a: nat, b: nat, width: nat)
    requires ZeroPad(a, width) == ZeroPad(b, width)
    ensures a == b
  {
    ZeroPadValue(a, width);
    ZeroPadValue(b, width);
  }

  /** Equal strings with the same prefix and suffix have the same middle. */
  lemma AffixCancel(pre: string, x: string, y: string, suf: string)
    requires pre + x + suf == pre + y + suf
    ensures x == y
  {
    var s := pre + x + suf;
    assert |x| == |y|;
    assert x == s[|pre|..|pre| + |x|];
    assert y == (pre + y + suf)[|pre|..|pre| + |y|];
  }

  // ------------------------------------------------------------ parseInt

  function DigitPrefix(s: string): (r: string)
    ensures AllDigits(r) && |r| <= |s| && r == s[..|r|]
    ensures |r| < |s| ==> !IsDigit(s[|r|])
  {
    if s != [] && IsDigit(s[0]) then [s[0]] + DigitPrefix(s[1..]) else []
  }

  /**
   * `parseInt(s, 10)`: leading white space is skipped, one sign is accepted,
   * then the longest run of decimal digits is read; no digit gives NaN (`None`).
   */
  function ParseInt(s: string): (r: Option<int>)
    ensures r.Some? ==> exists k :: 0 <= k < |s| && IsDigit(s[k])
  {
    var t := TrimStart(s);
    var negative := t != [] && t[0] == '-';
    var body := if t != [] && (t[0] == '-' || t[0] == '+') then t[1..] else t;
    var digits := DigitPrefix(body);
    if digits == [] then None
    else
      TrimStartSlice(s);
      assert IsDigit(s[|s| - |t| + (|t| - |body|)]);
      var v: int := if negative then 0 - (DigitsValue(digits) as int) else DigitsValue(digits);
      Some(v)
  }

  lemma DigitPrefixAll(s: string)
    requires AllDigits(s)
    ensures DigitPrefix(s) == s
  {
  }

  /** `parseInt` reads back what `String(n)` wrote. */
  lemma ParseIntDec(n: nat)
    ensures ParseInt(Dec(n)) == Some(n)
  {
    var d := Dec(n);
    assert !IsSpace(d[0]);
    assert TrimStart(d) == d;
    DigitPrefixAll(d);
    DecValue(n);
  }

  lemma TrimStartIdentity(s: string)
    requires s == [] || !IsSpace(s[0])
    ensures TrimStart(s) == s
  {
  }

  /** A minus sign before a run of digits negates its value. */
  lemma {:induction false} ParseIntNegative(d: string)
    requires d != [] && AllDigits(d)
    ensures ParseInt("-" + d) == Some(-(DigitsValue(d) as int))
  {
    var t := "-" + d;
    TrimStartIdentity(t);
    assert t[1..] == d;
    DigitPrefixAll(d);
  }

  /** `parseInt` reads back what `String(i)` wrote, sign included. */
  lemma {:induction false} ParseIntText(i: int)
    ensures ParseInt(IntText(i)) == Some(i)
  {
    if i < 0 {
      var d := Dec(-i);
      assert IntText(i) == "-" + d;
      ParseIntNegative(d);
      DecValue(-i);
      assert -(DigitsValue(d) as int) == i;
    } else {
      ParseIntDec(i);
    }
  }
}
