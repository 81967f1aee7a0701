/**
 * `convertVttToText` of transcript-api.js: a line scanner over a WebVTT
 * subtitle file with one boolean of state, followed by a chain of global
 * regular-expression replacements. It is loosely shaped like W3C WebVTT
 * (a header, `NOTE` blocks, cue timing lines with `-->`); the model follows
 * the function's own rules, not the WebVTT parsing algorithm.
 */
module Vtt {
  import opened Text

  /** How the scanner treats a trimmed line, tested in the order of transcript-api.js:226-239. */
  datatype LineKind = Skipped | Timing | CueId | Caption

  function Classify(t: string): LineKind
  {
    if t == [] || StartsWith(t, "WEBVTT") || StartsWith(t, "NOTE") then Skipped
    else if Contains(t, "-->") then Timing
    else if AllDigits(t) then CueId
    else Caption
  }

  /** `.replace(/<[^>]*>/g, '')`: a `<` up to the next `>` is removed; a `<` with no `>` after it stays. */
  function StripTags(s: string): (r: string)
    ensures |r| <= |s|
    decreases |s|
  {
    if s == [] then []
    else if s[0] == '<' then
      match Find(s[1..], ">")
      case Some(k) => StripTags(s[k + 2..])
      case None => [s[0]] + StripTags(s[1..])
    else [s[0]] + StripTags(s[1..])
  }

  /** The entity replacements, `&amp;` last. */
  function Decode(s: string): string
  {
    ReplaceAll(ReplaceAll(ReplaceAll(s, "&lt;", "<"), "&gt;", ">"), "&amp;", "&")
  }

  function CleanLine(t: string): string
  {
    Decode(StripTags(t))
  }

  /** `cleanText + ' '` when the cleaned line has visible text, else nothing (transcript-api.js:250-252). */
  function Shown(clean: string): string
  {
    if Trim(clean) != [] then clean + " " else []
  }

  /** What the scanner needs of one line: how it is classified, and the text it adds as a caption. */
  datatype LineView = LineView(kind: LineKind, text: string)

  function View(line: string): LineView
  {
    var t := Trim(line);
    var k := Classify(t);
    LineView(k, if k == Caption then Shown(CleanLine(t)) else [])
  }

  function Views(lines: seq<string>): (vs: seq<LineView>)
    ensures |vs| == |lines|
  {
    seq(|lines|, i requires 0 <= i < |lines| => View(lines[i]))
  }

  /** What one line adds to the text, given the flag before it. */
  function Contribution(isTextLine: bool, v: LineView): string
  {
    if isTextLine && v.kind == Caption then v.text else []
  }

  /** The flag after one line: set by a timing line, and never cleared. */
  function NextFlag(isTextLine: bool, v: LineView): bool
  {
    isTextLine || v.kind == Timing
  }

  /** The text the scanner collects, starting with the given flag. */
  function Collect(vs: seq<LineView>, isTextLine: bool): string
  {
    if vs == [] then []
    else Contribution(isTextLine, vs[0]) + Collect(vs[1..], NextFlag(isTextLine, vs[0]))
  }

  /** The flag after the lines. */
  function FlagAfter(vs: seq<LineView>, isTextLine: bool): bool
  {
    if vs == [] then isTextLine else FlagAfter(vs[1..], NextFlag(isTextLine, vs[0]))
  }

  /** The branches of the loop body at transcript-api.js:226-253, each as the view of the line. */
  lemma SkippedStep(line: string)
    requires var t := Trim(line); t == [] || StartsWith(t, "WEBVTT") || StartsWith(t, "NOTE")
    ensures View(line).kind == Skipped
  {
  }

  lemma TimingStep(line: string)
    requires var t := Trim(line); !(t == [] || StartsWith(t, "WEBVTT") || StartsWith(t, "NOTE")) && Contains(t, "-->")
    ensures View(line).kind == Timing
  {
  }

  lemma OtherStep(line: string)
    requires var t := Trim(line); !(t == [] || StartsWith(t, "WEBVTT") || StartsWith(t, "NOTE")) && !Contains(t, "-->")
    ensures AllDigits(Trim(line)) ==> View(line).kind == CueId
    ensures !AllDigits(Trim(line)) ==> View(line) == LineView(Caption, Shown(CleanLine(Trim(line))))
  {
  }

  /**
   * One pass of the loop body at transcript-api.js:219-258; each
   * `continue` of the source ends one branch of the `if` chain here.
   */
  method ScanLine(line: string, plainText: string, isTextLine: bool) returns (text: string, flag: bool)
    ensures text == plainText + Contribution(isTextLine, View(line))
    ensures flag == NextFlag(isTextLine, View(line))
  {
    text, flag := plainText, isTextLine;
    var t := Trim(line);
    if t == [] || StartsWith(t, "WEBVTT") || StartsWith(t, "NOTE") {
      SkippedStep(line);
      assert text == plainText + [];
    } else if Contains(t, "-->") {
      TimingStep(line);
      flag := true;
      assert text == plainText + [];
    } else if AllDigits(t) {
      OtherStep(line);
      assert text == plainText + [];
    } else {
      OtherStep(line);
      if isTextLine && t != [] {
        var clean := CleanLine(t);
        if Trim(clean) != [] {
          text := text + (clean + " ");
        }
      }
      if t == [] {
        flag := false;
      }
      assert text == plainText + Contribution(isTextLine, View(line));
    }
  }

  /** The loop at transcript-api.js:218-259. */
  method ScanLines(lines: seq<string>) returns (plainText: string)
    ensures plainText == Collect(Views(lines), false)
  {
    plainText := [];
    var isTextLine := false;
    var i := 0;
    ghost var vs := Views(lines);
    while i < |lines|
      invariant 0 <= i <= |lines|
      invariant plainText == Collect(vs[..i], false)
      invariant isTextLine == FlagAfter(vs[..i], false)
    {
      CollectSnoc(vs, i);
      plainText, isTextLine := ScanLine(lines[i], plainText, isTextLine);
      i := i + 1;
    }
    assert vs[..i] == vs;
  }

  // ---------------------------------------------------- the clean-up chain

  /** The length of the white-space run at the start of `s`. */
  function SpaceRun(s: string): (n: nat)
    ensures n <= |s| && forall k :: 0 <= k < n ==> IsSpace(s[k])
    ensures n < |s| ==> !IsSpace(s[n])
  {
    if s != [] && IsSpace(s[0]) then 1 + SpaceRun(s[1..]) else 0
  }

  /** `.replace(/\s+/g, ' ')` */
  function Collapse(s: string): string
    decreases |s|
  {
    if s == [] then []
    else if IsSpace(s[0]) then " " + Collapse(s[SpaceRun(s)..])
    else [s[0]] + Collapse(s[1..])
  }

  /**
   * The global replacement of `\s*`, `p`, `\s*` by `p` and a space, for a
   * punctuation mark `p` (transcript-api.js:264-267): white space
   * before `p` is taken greedily, so a match starts at the first blank of
   * the run; a run not followed by `p` is left alone.
   */
  function Spaced(s: string, p: char): string
    decreases |s|
  {
    if s == [] then []
    else
      match PunctuationMatch(s, p)
      case Some(k) => [p, ' '] + Spaced(s[k..], p)
      case None => [s[0]] + Spaced(s[1..], p)
  }

  /** The end of a match of white space, `p`, white space at the start of `s`, if there is one. */
  function PunctuationMatch(s: string, p: char): (r: Option<nat>)
    ensures r.Some? ==> 0 < r.value <= |s| && (r.value < |s| ==> !IsSpace(s[r.value]))
  {
    var w := SpaceRun(s);
    if w < |s| && s[w] == p then Some(w + 1 + SpaceRun(s[w + 1..])) else None
  }

  /** transcript-api.js:262-268 */
  function Cleanup(s: string): string
  {
    Trim(Spaced(Spaced(Spaced(Spaced(Collapse(s), '.'), ','), '?'), '!'))
  }

  /** `convertVttToText` as a function of the file content. */
  function VttToText(content: string): string
  {
    Cleanup(Collect(Views(Split(content, "\n")), false))
  }

  method ConvertVttToText(content: string) returns (text: string)
    ensures text == VttToText(content)
  {
    var lines := Split(content, "\n");
    var plainText := ScanLines(lines);
    text := Cleanup(plainText);
  }

  // ------------------------------------------------- lemmas: the scanner

  lemma {:induction false} CollectConcat(a: seq<LineView>, b: seq<LineView>, f: bool)
    ensures Collect(a + b, f) == Collect(a, f) + Collect(b, FlagAfter(a, f))
  {
    if a != [] {
      var g := NextFlag(f, a[0]);
      var c := Contribution(f, a[0]);
      assert (a + b)[0] == a[0];
      assert (a + b)[1..] == a[1..] + b;
      assert Collect(a + b, f) == c + Collect(a[1..] + b, g);
      CollectConcat(a[1..], b, g);
    } else {
      assert a + b == b;
    }
  }

  lemma {:induction false} FlagAfterConcat(a: seq<LineView>, b: seq<LineView>, f: bool)
    ensures FlagAfter(a + b, f) == FlagAfter(b, FlagAfter(a, f))
  {
    if a != [] {
      assert (a + b)[0] == a[0];
      assert (a + b)[1..] == a[1..] + b;
      FlagAfterConcat(a[1..], b, NextFlag(f, a[0]));
    } else {
      assert a + b == b;
    }
  }

  /** One more line: what the loop body adds to the text and does to the flag. */
  lemma CollectSnoc(vs: seq<LineView>, i: nat)
    requires i < |vs|
    ensures Collect(vs[..i + 1], false) == Collect(vs[..i], false) + Contribution(FlagAfter(vs[..i], false), vs[i])
    ensures FlagAfter(vs[..i + 1], false) == NextFlag(FlagAfter(vs[..i], false), vs[i])
  {
    var a := vs[..i];
    assert vs[..i + 1] == a + [vs[i]];
    CollectConcat(a, [vs[i]], false);
    FlagAfterConcat(a, [vs[i]], false);
    var f := FlagAfter(a, false);
    assert [vs[i]][1..] == [];
    assert Collect([vs[i]], f) == Contribution(f, vs[i]) + [];
  }

  lemma ViewsConcat(a: seq<string>, b: seq<string>)
    ensures Views(a + b) == Views(a) + Views(b)
  {
  }

  /** Once set, the flag is never cleared: the reset for empty lines is unreachable. */
  lemma {:induction false} FlagStaysSet(vs: seq<LineView>)
    ensures FlagAfter(vs, true)
  {
    if vs != [] { FlagStaysSet(vs[1..]); }
  }

  /** Without a timing line the flag stays clear and nothing is collected. */
  lemma {:induction false} NoTimingNoText(vs: seq<LineView>)
    requires forall k :: 0 <= k < |vs| ==> vs[k].kind != Timing
    ensures Collect(vs, false) == [] && !FlagAfter(vs, false)
  {
    if vs != [] { NoTimingNoText(vs[1..]); }
  }

  /** The text of every caption line, concatenated. */
  function Kept(vs: seq<LineView>): string
  {
    if vs == [] then [] else (if vs[0].kind == Caption then vs[0].text else []) + Kept(vs[1..])
  }

  lemma {:induction false} CollectSet(vs: seq<LineView>)
    ensures Collect(vs, true) == Kept(vs)
  {
    if vs != [] { CollectSet(vs[1..]); }
  }

  /** The views of three pieces of a file, side by side. */
  lemma ViewsAround(a: seq<string>, line: string, b: seq<string>)
    ensures Views(a + [line] + b) == Views(a) + [View(line)] + Views(b)
  {
    ViewsConcat(a + [line], b);
    ViewsConcat(a, [line]);
  }

  /** `FirstTimingLine` on the views of the lines. */
  lemma TimingOpensText(pre: seq<LineView>, timing: LineView, post: seq<LineView>)
    requires forall k :: 0 <= k < |pre| ==> pre[k].kind != Timing
    requires timing.kind == Timing
    ensures Collect(pre + [timing] + post, false) == Kept(post)
  {
    var b := [timing] + post;
    assert pre + [timing] + post == pre + b;
    NoTimingNoText(pre);
    CollectConcat(pre, b, false);
    assert b[0] == timing && b[1..] == post;
    CollectSet(post);
  }

  /**
   * Caption lines before the first timing line are dropped; after it the
   * text of every caption line is kept, whatever follows.
   */
  lemma FirstTimingLine(pre: seq<string>, timing: string, post: seq<string>)
    requires forall k :: 0 <= k < |pre| ==> View(pre[k]).kind != Timing
    requires View(timing).kind == Timing
    ensures Collect(Views(pre + [timing] + post), false) == Kept(Views(post))
  {
    ViewsAround(pre, timing, post);
    TimingOpensText(Views(pre), View(timing), Views(post));
  }

  /** `SilentLine` on the views of the lines. */
  lemma SilentView(a: seq<LineView>, v: LineView, b: seq<LineView>)
    requires v.kind != Caption
    ensures Collect(a + [v] + b, true) == Collect(a + b, true)
  {
    CollectSet(a + [v] + b);
    CollectSet(a + b);
    assert a + [v] + b == a + ([v] + b);
    KeptConcat(a, [v] + b);
    KeptConcat(a, b);
    assert ([v] + b)[1..] == b;
  }

  /**
   * Empty lines, the header, `NOTE` lines, timing lines and cue numbers
   * contribute no text of their own: once the flag is set, removing one
   * changes nothing, wherever it stands.
   */
  lemma SilentLine(a: seq<string>, line: string, b: seq<string>)
    requires View(line).kind != Caption
    ensures Collect(Views(a + [line] + b), true) == Collect(Views(a + b), true)
  {
    ViewsAround(a, line, b);
    ViewsConcat(a, b);
    SilentView(Views(a), View(line), Views(b));
  }

  lemma {:induction false} KeptConcat(a: seq<LineView>, b: seq<LineView>)
    ensures Kept(a + b) == Kept(a) + Kept(b)
  {
    if a != [] {
      assert (a + b)[1..] == a[1..] + b;
      KeptConcat(a[1..], b);
    } else {
      assert a + b == b;
    }
  }

  // -------------------------------------------- lemmas: tags and entities

  /** A tag is removed with everything between its brackets. */
  lemma TagRemoved(x: string, rest: string)
    requires '>' !in x
    ensures StripTags("<" + x + ">" + rest) == StripTags(rest)
  {
    var s := "<" + x + ">" + rest;
    assert s[1..] == x + ">" + rest;
    assert MatchesAt(s[1..], ">", |x|);
    forall k | 0 <= k < |x| ensures !MatchesAt(s[1..], ">", k) {
      assert s[1..][k] == x[k];
    }
    assert s[|x| + 2..] == rest;
  }

  /** `<x0>g1<x1>…gn<xn>`: the tags `xs` with the runs `gaps` between them. */
  function TagRun(xs: seq<string>, gaps: seq<string>): (r: string)
    requires |xs| == |gaps| + 1
    ensures |r| >= 2 && r[0] == '<' && r[|r| - 1] == '>'
    decreases |gaps|
  {
    if gaps == [] then "<" + xs[0] + ">"
    else "<" + xs[0] + ">" + (gaps[0] + TagRun(xs[1..], gaps[1..]))
  }

  /** Text without `<` passes through unchanged. */
  lemma {:induction false} StripPlain(g: string, rest: string)
    requires '<' !in g
    ensures StripTags(g + rest) == g + StripTags(rest)
  {
    if g != [] {
      assert (g + rest)[0] == g[0];
      assert (g + rest)[1..] == g[1..] + rest;
      assert g[0] != '<';
      StripPlain(g[1..], rest);
      assert g == [g[0]] + g[1..];
      assert StripTags(g + rest) == [g[0]] + StripTags(g[1..] + rest);
    } else {
      assert g + rest == rest;
    }
  }

  /** Removing the tags of a run leaves only its white space. */
  lemma {:induction false} TagRunStripped(xs: seq<string>, gaps: seq<string>)
    requires |xs| == |gaps| + 1
    requires forall i :: 0 <= i < |xs| ==> '>' !in xs[i]
    requires forall i :: 0 <= i < |gaps| ==> All(gaps[i], IsSpace)
    ensures All(StripTags(TagRun(xs, gaps)), IsSpace)
    decreases |gaps|
  {
    if gaps == [] {
      TagRemoved(xs[0], []);
      assert "<" + xs[0] + ">" + [] == TagRun(xs, gaps);
    } else {
      var rest := TagRun(xs[1..], gaps[1..]);
      TagRemoved(xs[0], gaps[0] + rest);
      assert !IsSpace('<');
      assert '<' !in gaps[0];
      StripPlain(gaps[0], rest);
      TagRunStripped(xs[1..], gaps[1..]);
      AllConcat(gaps[0], StripTags(rest), IsSpace);
    }
  }

  /**
   * A line made only of tags, with nothing but white space between them,
   * contributes nothing: the cleaned text is blank.
   */
  lemma TagOnlyLine(xs: seq<string>, gaps: seq<string>)
    requires |xs| == |gaps| + 1
    requires forall i :: 0 <= i < |xs| ==> '>' !in xs[i]
    requires forall i :: 0 <= i < |gaps| ==> All(gaps[i], IsSpace)
    ensures View(TagRun(xs, gaps)).text == []
  {
    var line := TagRun(xs, gaps);
    TrimIdentity(line);
    TagRunStripped(xs, gaps);
    var st := StripTags(line);
    assert '&' !in st;
    ReplaceAllWithout(st, "&lt;", "<");
    ReplaceAllWithout(st, "&gt;", ">");
    ReplaceAllWithout(st, "&amp;", "&");
    TrimBlank(st);
  }

  lemma {:induction false} ReplaceAllWithout(s: string, pat: string, rep: string)
    requires pat != [] && pat[0] !in s
    ensures ReplaceAll(s, pat, rep) == s
  {
    if s != [] {
      assert s[0] != pat[0];
      ReplaceAllWithout(s[1..], pat, rep);
    }
  }

  lemma ReplaceAllExact(pat: string, rep: string)
    requires pat != []
    ensures ReplaceAll(pat, pat, rep) == rep
  {
    assert pat[|pat|..] == [];
  }

  /** Text without the pattern's first character passes through, whatever follows it. */
  lemma {:induction false} ReplaceAllPlainPrefix(a: string, b: string, pat: string, rep: string)
    requires pat != [] && pat[0] !in a
    ensures ReplaceAll(a + b, pat, rep) == a + ReplaceAll(b, pat, rep)
  {
    if a != [] {
      var s := a + b;
      assert s[0] == a[0] != pat[0];
      assert !StartsWith(s, pat) by {
        if |pat| <= |s| { assert s[..|pat|][0] == s[0]; }
      }
      assert s[1..] == a[1..] + b;
      ReplaceAllPlainPrefix(a[1..], b, pat, rep);
      assert ReplaceAll(s, pat, rep) == [s[0]] + ReplaceAll(s[1..], pat, rep);
      assert a + ReplaceAll(b, pat, rep) == [a[0]] + (a[1..] + ReplaceAll(b, pat, rep));
    } else {
      assert a + b == b;
    }
  }

  /** An occurrence at the start is replaced, and the scan goes on after it. */
  lemma ReplaceAllLeading(pat: string, b: string, rep: string)
    requires pat != []
    ensures ReplaceAll(pat + b, pat, rep) == rep + ReplaceAll(b, pat, rep)
  {
    assert (pat + b)[..|pat|] == pat;
    assert (pat + b)[|pat|..] == b;
  }

  /**
   * An entity `e` at the start is left whole by a pass for another entity
   * `pat`: they differ in their second character, and the rest of `e`
   * holds no `&`.
   */
  lemma ReplaceAllSkipsEntity(e: string, t: string, pat: string, rep: string)
    requires |e| >= 2 && |pat| >= 2 && e[0] == pat[0] == '&' && e[1] != pat[1] && '&' !in e[1..]
    ensures ReplaceAll(e + t, pat, rep) == e + ReplaceAll(t, pat, rep)
  {
    var s := e + t;
    assert !StartsWith(s, pat) by {
      if |pat| <= |s| { assert s[..|pat|][1] == e[1]; }
    }
    assert s[1..] == e[1..] + t;
    ReplaceAllPlainPrefix(e[1..], t, pat, rep);
    assert e + ReplaceAll(t, pat, rep) == [e[0]] + (e[1..] + ReplaceAll(t, pat, rep));
  }

  /** A character other than `&` is kept, and decoding goes on after it. */
  lemma DecodePlainChar(c: char, t: string)
    requires c != '&'
    ensures Decode([c] + t) == [c] + Decode(t)
  {
    ReplaceAllPlainPrefix([c], t, "&lt;", "<");
    var t1 := ReplaceAll(t, "&lt;", "<");
    ReplaceAllPlainPrefix([c], t1, "&gt;", ">");
    var t2 := ReplaceAll(t1, "&gt;", ">");
    ReplaceAllPlainPrefix([c], t2, "&amp;", "&");
  }

  /** `&lt;` at the start becomes `<`, whatever follows. */
  lemma DecodeLtPrefix(t: string)
    ensures Decode("&lt;" + t) == "<" + Decode(t)
  {
    ReplaceAllLeading("&lt;", t, "<");
    DecodePlainChar('<', t);
    var t1 := ReplaceAll(t, "&lt;", "<");
    ReplaceAllPlainPrefix("<", t1, "&gt;", ">");
    var t2 := ReplaceAll(t1, "&gt;", ">");
    ReplaceAllPlainPrefix("<", t2, "&amp;", "&");
  }

  /** `&gt;` at the start becomes `>`, whatever follows. */
  lemma DecodeGtPrefix(t: string)
    ensures Decode("&gt;" + t) == ">" + Decode(t)
  {
    ReplaceAllSkipsEntity("&gt;", t, "&lt;", "<");
    var t1 := ReplaceAll(t, "&lt;", "<");
    ReplaceAllLeading("&gt;", t1, ">");
    var t2 := ReplaceAll(t1, "&gt;", ">");
    ReplaceAllPlainPrefix(">", t2, "&amp;", "&");
  }

  /** `&amp;` at the start becomes `&`, whatever follows: it is not decoded a second time. */
  lemma DecodeAmpPrefix(t: string)
    ensures Decode("&amp;" + t) == "&" + Decode(t)
  {
    ReplaceAllSkipsEntity("&amp;", t, "&lt;", "<");
    var t1 := ReplaceAll(t, "&lt;", "<");
    ReplaceAllSkipsEntity("&amp;", t1, "&gt;", ">");
    var t2 := ReplaceAll(t1, "&gt;", ">");
    ReplaceAllLeading("&amp;", t2, "&");
  }

  /** `&lt;` decodes to `<` ... */
  lemma DecodeLt()
    ensures Decode("&lt;") == "<"
  {
    ReplaceAllExact("&lt;", "<");
    ReplaceAllWithout("<", "&gt;", ">");
    ReplaceAllWithout("<", "&amp;", "&");
  }

  /** A text that does not start with the pattern, and holds its first character nowhere after the start, is left alone. */
  lemma ReplaceAllKeeps(s: string, pat: string, rep: string)
    requires |pat| >= 2 && |s| >= 2 && s[1] != pat[1] && pat[0] !in s[1..]
    ensures ReplaceAll(s, pat, rep) == s
  {
    assert !StartsWith(s, pat) by {
      if |pat| <= |s| { assert s[..|pat|][1] != pat[1]; }
    }
    ReplaceAllWithout(s[1..], pat, rep);
    assert [s[0]] + s[1..] == s;
  }

  /** The first two replacements leave `&amp;lt;` alone ... */
  lemma AmpLtKeptByFirstTwo(s: string)
    requires s == "&amp;lt;"
    ensures ReplaceAll(ReplaceAll(s, "&lt;", "<"), "&gt;", ">") == s
  {
    assert s[1..] == "amp;lt;";
    ReplaceAllKeeps(s, "&lt;", "<");
    ReplaceAllKeeps(s, "&gt;", ">");
  }

  /** ... and the last one turns its `&amp;` into `&` once. */
  lemma AmpLtLastStep()
    ensures ReplaceAll("&amp;lt;", "&amp;", "&") == "&lt;"
  {
    var s := "&amp;lt;";
    assert s[..5] == "&amp;";
    assert s[5..] == "lt;";
    ReplaceAllWithout(s[5..], "&amp;", "&");
  }

  /** ... but `&amp;lt;` decodes only once, to `&lt;`, since `&amp;` is replaced last. */
  lemma DecodeAmpLt()
    ensures Decode("&amp;lt;") == "&lt;"
  {
    AmpLtKeptByFirstTwo("&amp;lt;");
    AmpLtLastStep();
  }

  // ----------------------------------------------- lemmas: the clean-up

  /** White space, if any, is plain spaces. */
  predicate PlainBlank(c: char) { !IsSpace(c) || c == ' ' }

  lemma {:induction false} CollapsePlain(s: string)
    ensures All(Collapse(s), PlainBlank)
    decreases |s|
  {
    if s != [] {
      if IsSpace(s[0]) {
        CollapsePlain(s[SpaceRun(s)..]);
        AllConcat(" ", Collapse(s[SpaceRun(s)..]), PlainBlank);
      } else {
        CollapsePlain(s[1..]);
        AllConcat([s[0]], Collapse(s[1..]), PlainBlank);
      }
    }
  }

  lemma {:induction false} SpacedPlain(s: string, p: char)
    requires All(s, PlainBlank) && !IsSpace(p)
    ensures All(Spaced(s, p), PlainBlank)
    decreases |s|
  {
    if s != [] {
      match PunctuationMatch(s, p)
      case Some(k) =>
        AllSlice(s, k, |s|, PlainBlank);
        SpacedPlain(s[k..], p);
        AllConcat([p, ' '], Spaced(s[k..], p), PlainBlank);
      case None =>
        AllSlice(s, 1, |s|, PlainBlank);
        SpacedPlain(s[1..], p);
        AllConcat([s[0]], Spaced(s[1..], p), PlainBlank);
    }
  }

  lemma TrimPlain(s: string)
    requires All(s, PlainBlank)
    ensures All(Trim(s), PlainBlank)
  {
    var i, j := TrimSlice(s);
    AllSlice(s, i, j, PlainBlank);
  }

  /** No two white-space characters stand next to each other. */
  predicate NoDoubleBlank(s: string)
  {
    forall k :: 0 <= k < |s| - 1 ==> !(IsSpace(s[k]) && IsSpace(s[k + 1]))
  }

  /** Whether `s` starts with white space. */
  predicate LeadsBlank(s: string)
  {
    s != [] && IsSpace(s[0])
  }

  lemma NoDoubleConcat(a: string, b: string)
    requires NoDoubleBlank(a) && NoDoubleBlank(b)
    requires !(a != [] && IsSpace(a[|a| - 1]) && LeadsBlank(b))
    ensures NoDoubleBlank(a + b)
  {
    var c := a + b;
    forall k | 0 <= k < |c| - 1 ensures !(IsSpace(c[k]) && IsSpace(c[k + 1])) {
      if k + 1 < |a| {
        assert c[k] == a[k] && c[k + 1] == a[k + 1];
      } else if k >= |a| {
        assert c[k] == b[k - |a|] && c[k + 1] == b[k + 1 - |a|];
      } else {
        assert c[k] == a[|a| - 1] && c[k + 1] == b[0];
      }
    }
  }

  lemma NoDoubleSlice(s: string, i: nat, j: nat)
    requires i <= j <= |s| && NoDoubleBlank(s)
    ensures NoDoubleBlank(s[i..j])
  {
    assert forall k :: 0 <= k < j - i ==> s[i..j][k] == s[i + k];
  }

  /** `\s+` to one space leaves no two blanks together, and the text starts with a blank only when the input does. */
  lemma {:induction false} CollapseSingle(s: string)
    ensures NoDoubleBlank(Collapse(s))
    ensures LeadsBlank(Collapse(s)) <==> LeadsBlank(s)
    decreases |s|
  {
    if s != [] {
      if IsSpace(s[0]) {
        var t := s[SpaceRun(s)..];
        CollapseSingle(t);
        NoDoubleConcat(" ", Collapse(t));
      } else {
        CollapseSingle(s[1..]);
        NoDoubleConcat([s[0]], Collapse(s[1..]));
      }
    }
  }

  /** A punctuation pass keeps blanks single, and starts with a blank only when its input does. */
  lemma {:induction false} SpacedSingle(s: string, p: char)
    requires NoDoubleBlank(s) && !IsSpace(p)
    ensures NoDoubleBlank(Spaced(s, p))
    ensures LeadsBlank(Spaced(s, p)) ==> LeadsBlank(s)
    decreases |s|
  {
    if s != [] {
      match PunctuationMatch(s, p)
      case Some(k) =>
        NoDoubleSlice(s, k, |s|);
        SpacedSingle(s[k..], p);
        NoDoubleConcat([p, ' '], Spaced(s[k..], p));
      case None =>
        NoDoubleSlice(s, 1, |s|);
        SpacedSingle(s[1..], p);
        assert |s| > 1 ==> !(IsSpace(s[0]) && IsSpace(s[1]));
        NoDoubleConcat([s[0]], Spaced(s[1..], p));
    }
  }

  /**
   * The converted text holds no line break, tab or other white space but
   * single-character spaces, never two of them together, and has no white
   * space at either end.
   */
  lemma CleanupShape(s: string)
    ensures var r := Cleanup(s);
      && All(r, PlainBlank)
      && NoDoubleBlank(r)
      && '\n' !in r && '\r' !in r
      && (r == [] || (!IsSpace(r[0]) && !IsSpace(r[|r| - 1])))
  {
    var c0 := Collapse(s);
    CollapseSingle(s);
    SpacedSingle(c0, '.');
    SpacedSingle(Spaced(c0, '.'), ',');
    SpacedSingle(Spaced(Spaced(c0, '.'), ','), '?');
    SpacedSingle(Spaced(Spaced(Spaced(c0, '.'), ','), '?'), '!');
    var d0 := Spaced(Spaced(Spaced(Spaced(c0, '.'), ','), '?'), '!');
    var i, j := TrimSlice(d0);
    NoDoubleSlice(d0, i, j);
    var c := Collapse(s);
    CollapsePlain(s);
    SpacedPlain(c, '.');
    SpacedPlain(Spaced(c, '.'), ',');
    SpacedPlain(Spaced(Spaced(c, '.'), ','), '?');
    var d := Spaced(Spaced(Spaced(Spaced(c, '.'), ','), '?'), '!');
    SpacedPlain(Spaced(Spaced(Spaced(c, '.'), ','), '?'), '!');
    TrimPlain(d);
    var r := Cleanup(s);
    forall k | 0 <= k < |r| ensures r[k] != '\n' && r[k] != '\r' {
      assert PlainBlank(r[k]);
    }
  }

  lemma VttToTextShape(content: string)
    ensures var r := VttToText(content);
      '\n' !in r && '\r' !in r && NoDoubleBlank(r) && (r == [] || (!IsSpace(r[0]) && !IsSpace(r[|r| - 1])))
  {
    CleanupShape(Collect(Views(Split(content, "\n")), false));
  }
}
