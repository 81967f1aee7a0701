/**
 * The `/merge-videos-upload` route of video-merger-api.js: the list-style
 * layout, `escapeText`, the filter graph handed to ffmpeg, the replies and
 * the removal of the uploaded temp files. ffprobe and ffmpeg are inputs:
 * what the probe reported and the error the merge failed with, if any.
 */
module VideoMerger {
  import opened Text
  import Sanitize

  // ------------------------------------------------------------ the layout

  /** The list layout in pixels (video-merger-api.js:93-101). */
  datatype Layout = Layout(fontSize: nat, lineHeight: nat, startX: nat, startY: int)

  /**
   * `Math.floor(w * 0.04)`, `Math.floor(fontSize * 1.5)`, `Math.floor(w * 0.05)`
   * and `Math.floor((h - count * lineHeight) / 2)`, in exact arithmetic.
   */
  function ComputeLayout(width: nat, height: nat, count: nat): (l: Layout)
    ensures 100 * l.fontSize <= 4 * width < 100 * (l.fontSize + 1)
    ensures 2 * l.lineHeight <= 3 * l.fontSize < 2 * (l.lineHeight + 1)
    ensures 100 * l.startX <= 5 * width < 100 * (l.startX + 1)
    ensures 2 * l.startY <= height - count * l.lineHeight < 2 * (l.startY + 1)
  {
    var fontSize := 4 * width / 100;
    var lineHeight := 3 * fontSize / 2;
    Layout(fontSize, lineHeight, 5 * width / 100, (height - count * lineHeight) / 2)
  }

  /**
   * The list is centred: the rows left free above it and below it differ by
   * at most one, and it starts above the frame exactly when it is taller
   * than the frame.
   */
  lemma LayoutCentred(width: nat, height: nat, count: nat)
    ensures var l := ComputeLayout(width, height, count);
      var below := height - RowY(l, count);
      && (below == l.startY || below == l.startY + 1)
      && (l.startY < 0 <==> RowY(l, count) - l.startY > height)
  {
    var l := ComputeLayout(width, height, count);
    var total := count * l.lineHeight;
    assert RowY(l, count) == l.startY + total;
    assert l.startY == (height - total) / 2;
  }

  /** The row of list entry `k`. */
  function RowY(l: Layout, k: nat): int
  {
    l.startY + k * l.lineHeight
  }

  // ------------------------------------------------------------ escapeText

  predicate IsLineBreak(c: char) { c == '\r' || c == '\n' }

  /** `.replace(/[\r\n]/g, ' ')` */
  function LineBreaksToSpaces(s: string): (r: string)
    ensures |r| == |s|
    ensures forall i :: 0 <= i < |s| ==> r[i] == if IsLineBreak(s[i]) then ' ' else s[i]
  {
    seq(|s|, i requires 0 <= i < |s| => if IsLineBreak(s[i]) then ' ' else s[i])
  }

  /** `escapeText` (video-merger-api.js:104-110): four replacements in this order. */
  function EscapeText(s: string): string
  {
    var t := ReplaceAll(s, "\\", "\\\\");
    var u := ReplaceAll(t, ":", "\\:");
    var v := ReplaceAll(u, "'", "'\\\\\\''");
    LineBreaksToSpaces(v)
  }

  /** What one character of the input becomes. */
  function EscapeChar(c: char): string
  {
    if c == '\\' then "\\\\"
    else if c == ':' then "\\:"
    else if c == '\'' then "'\\\\\\''"
    else if IsLineBreak(c) then " "
    else [c]
  }

  /** A reference definition: each character escaped on its own. */
  function EscapeEach(s: string): string
  {
    if s == [] then [] else EscapeChar(s[0]) + EscapeEach(s[1..])
  }

  lemma {:induction false} ReplaceAllCharConcat(a: string, b: string, c: char, rep: string)
    ensures ReplaceAll(a + b, [c], rep) == ReplaceAll(a, [c], rep) + ReplaceAll(b, [c], rep)
    decreases |a|
  {
    if a != [] {
      assert (a + b)[1..] == a[1..] + b;
      assert StartsWith(a + b, [c]) <==> StartsWith(a, [c]);
      ReplaceAllCharConcat(a[1..], b, c, rep);
    } else {
      assert a + b == b;
    }
  }

  lemma ReplaceAllCharOne(x: char, c: char, rep: string)
    ensures ReplaceAll([x], [c], rep) == if x == c then rep else [x]
  {
    if x == c {
      assert [x][1..] == [];
    } else {
      assert [x][0..1] == [x];
      assert [x][1..] == [];
    }
  }

  lemma LineBreaksConcat(a: string, b: string)
    ensures LineBreaksToSpaces(a + b) == LineBreaksToSpaces(a) + LineBreaksToSpaces(b)
  {
  }

  /** The replacements applied one after another act on each character alone. */
  lemma EscapeConcat(a: string, b: string)
    ensures EscapeText(a + b) == EscapeText(a) + EscapeText(b)
  {
    ReplaceAllCharConcat(a, b, '\\', "\\\\");
    var ta, tb := ReplaceAll(a, "\\", "\\\\"), ReplaceAll(b, "\\", "\\\\");
    ReplaceAllCharConcat(ta, tb, ':', "\\:");
    var ua, ub := ReplaceAll(ta, ":", "\\:"), ReplaceAll(tb, ":", "\\:");
    ReplaceAllCharConcat(ua, ub, '\'', "'\\\\\\''");
    var va, vb := ReplaceAll(ua, "'", "'\\\\\\''"), ReplaceAll(ub, "'", "'\\\\\\''");
    LineBreaksConcat(va, vb);
  }

  lemma EscapeOne(x: char)
    ensures EscapeText([x]) == EscapeChar(x)
  {
    ReplaceAllCharOne(x, '\\', "\\\\");
    var t := ReplaceAll([x], "\\", "\\\\");
    if x == '\\' {
      assert t == ['\\'] + ['\\'];
      ReplaceAllCharConcat(['\\'], ['\\'], ':', "\\:");
      ReplaceAllCharOne('\\', ':', "\\:");
      ReplaceAllCharConcat(['\\'], ['\\'], '\'', "'\\\\\\''");
      ReplaceAllCharOne('\\', '\'', "'\\\\\\''");
    } else {
      ReplaceAllCharOne(x, ':', "\\:");
      var u := ReplaceAll(t, ":", "\\:");
      if x == ':' {
        assert u == ['\\'] + [':'];
        ReplaceAllCharConcat(['\\'], [':'], '\'', "'\\\\\\''");
        ReplaceAllCharOne('\\', '\'', "'\\\\\\''");
        ReplaceAllCharOne(':', '\'', "'\\\\\\''");
      } else {
        ReplaceAllCharOne(x, '\'', "'\\\\\\''");
      }
    }
  }

  /** `escapeText` agrees with escaping character by character. */
  lemma {:induction false} EscapeTextPerChar(s: string)
    ensures EscapeText(s) == EscapeEach(s)
    decreases |s|
  {
    if s == [] {
      assert EscapeText(s) == [];
    } else {
      assert s == [s[0]] + s[1..];
      EscapeConcat([s[0]], s[1..]);
      EscapeOne(s[0]);
      EscapeTextPerChar(s[1..]);
    }
  }

  lemma {:induction false} EscapeEachNoLineBreak(s: string)
    ensures forall i :: 0 <= i < |EscapeEach(s)| ==> !IsLineBreak(EscapeEach(s)[i])
    decreases |s|
  {
    if s != [] {
      EscapeEachNoLineBreak(s[1..]);
      var e := EscapeChar(s[0]);
      assert forall i :: 0 <= i < |e| ==> !IsLineBreak(e[i]);
    }
  }

  /** The escaped text holds no line break, so each overlay stays on one line. */
  lemma EscapeNoLineBreak(s: string)
    ensures forall i :: 0 <= i < |EscapeText(s)| ==> !IsLineBreak(EscapeText(s)[i])
  {
    EscapeTextPerChar(s);
    EscapeEachNoLineBreak(s);
  }

  predicate IsSpecial(c: char) { c == '\\' || c == ':' || c == '\'' || IsLineBreak(c) }

  lemma {:induction false} EscapeEachPlain(s: string)
    requires forall i :: 0 <= i < |s| ==> !IsSpecial(s[i])
    ensures EscapeEach(s) == s
    decreases |s|
  {
    if s != [] {
      EscapeEachPlain(s[1..]);
    }
  }

  /** Text without `\`, `:`, `'` or line breaks passes through unchanged ... */
  lemma EscapePlain(s: string)
    requires forall i :: 0 <= i < |s| ==> !IsSpecial(s[i])
    ensures EscapeText(s) == s
  {
    EscapeTextPerChar(s);
    EscapeEachPlain(s);
  }

  /** ... and so does the fallback title `Video <i+1>`. */
  lemma FallbackTitleUnchanged(i: nat)
    ensures EscapeText(FallbackTitle(i)) == FallbackTitle(i)
  {
    var d := Dec(i + 1);
    assert forall k :: 0 <= k < |d| ==> IsDigit(d[k]);
    EscapePlain(FallbackTitle(i));
  }

  // ------------------------------------------------------- the filter graph

  /** One `drawtext` filter. */
  datatype Overlay =
    | Number(text: string, fontSize: nat, x: nat, y: int)
      /** `x` is `startX + fontSize * 1.5`, kept doubled to stay whole */
    | Title(text: string, fontSize: nat, doubleX: nat, y: int)
      /** `x` is `w - text.length * fontSize * 0.6 - 20`, at the right edge */
    | Source(text: string, fontSize: nat, rightX: real)

  /** The filters of video `index`, in the order they are applied. */
  datatype Chain = Chain(index: nat, numbers: seq<Overlay>, title: Overlay, source: Option<Overlay>)

  /** The form fields the overlays are drawn from. */
  datatype Captions = Captions(titles: seq<string>, sources: seq<string>, showSource: Option<string>)

  function FallbackTitle(i: nat): string
  {
    "Video " + Dec(i + 1)
  }

  /** `titles[index] || `Video ${index + 1}``: a missing or empty title falls back. */
  function TitleOf(titles: seq<string>, i: nat): string
  {
    if i < |titles| && titles[i] != [] then titles[i] else FallbackTitle(i)
  }

  /** `showSource === 'true' && sources[index]` */
  predicate ShowsSource(c: Captions, i: nat)
  {
    c.showSource == Some("true") && i < |c.sources| && c.sources[i] != []
  }

  function NumberOverlay(l: Layout, k: nat): Overlay
  {
    Number(Dec(k + 1) + ".", l.fontSize, l.startX, RowY(l, k))
  }

  /** The numbers `1.` to `count.`, one per row. */
  function Numbers(l: Layout, count: nat): (r: seq<Overlay>)
    ensures |r| == count
  {
    seq(count, k requires 0 <= k => NumberOverlay(l, k))
  }

  function SourceOverlay(width: nat, l: Layout, source: string): Overlay
  {
    var text := EscapeText(source);
    var size := 3 * l.fontSize / 5;
    Source(text, size, width as real - (|text| * size) as real * 0.6 - 20.0)
  }

  /** The title of video `i`, on the row of its number. */
  function TitleOverlay(l: Layout, titles: seq<string>, i: nat): Overlay
  {
    Title(EscapeText(TitleOf(titles, i)), l.fontSize, 2 * l.startX + 3 * l.fontSize, RowY(l, i))
  }

  function SourceOf(width: nat, l: Layout, c: Captions, i: nat): Option<Overlay>
  {
    if ShowsSource(c, i) then Some(SourceOverlay(width, l, c.sources[i])) else None
  }

  /** Chain `i` of a list of `count` videos. */
  function ChainOf(width: nat, l: Layout, count: nat, c: Captions, i: nat): Chain
  {
    Chain(i, Numbers(l, count), TitleOverlay(l, c.titles, i), SourceOf(width, l, c, i))
  }

  /** All chains of the graph, one per uploaded video. */
  function Chains(width: nat, height: nat, count: nat, c: Captions): (r: seq<Chain>)
    ensures |r| == count
  {
    var l := ComputeLayout(width, height, count);
    seq(count, i requires 0 <= i => ChainOf(width, l, count, c, i))
  }

  /** A number JavaScript prints for a value that is a whole number or a half. */
  function HalfText(double: nat): string
  {
    Dec(double / 2) + (if double % 2 == 1 then ".5" else "")
  }

  /**
   * The text of one filter. The source overlay's `x` is a float; how
   * JavaScript prints it is the parameter `numberText`.
   */
  function RenderOverlay(o: Overlay, numberText: real -> string): string
  {
    match o
    case Number(text, size, x, y) =>
      "drawtext=text='" + text + "':fontcolor=white:fontsize=" + Dec(size) + ":x=" + Dec(x) + ":y=" + IntText(y)
      + ":shadowcolor=black:shadowx=2:shadowy=2:box=0,"
    case Title(text, size, doubleX, y) =>
      "drawtext=text='" + text + "':fontcolor=white:fontsize=" + Dec(size) + ":x=" + HalfText(doubleX) + ":y=" + IntText(y)
      + ":shadowcolor=black:shadowx=2:shadowy=2:box=1:boxcolor=black@0.5:boxborderw=5"
    case Source(text, size, rightX) =>
      ",drawtext=text='" + text + "':fontcolor=white@0.7:fontsize=" + Dec(size) + ":x=" + numberText(rightX)
      + ":y=30:shadowcolor=black@0.5:shadowx=1:shadowy=1"
  }

  function RenderOverlays(os: seq<Overlay>, numberText: real -> string): string
  {
    if os == [] then [] else RenderOverlays(os[..|os| - 1], numberText) + RenderOverlay(os[|os| - 1], numberText)
  }

  lemma RenderOverlaysSnoc(os: seq<Overlay>, k: nat, numberText: real -> string)
    requires k < |os|
    ensures RenderOverlays(os[..k + 1], numberText) == RenderOverlays(os[..k], numberText) + RenderOverlay(os[k], numberText)
  {
    assert os[..k + 1][..k] == os[..k];
  }

  /** `[i:v]`, the video stream of input `i` */
  function VideoIn(i: nat): string { "[" + Dec(i) + ":v]" }

  /** `[vi]`, the stream chain `i` produces */
  function ChainOut(i: nat): string { "[v" + Dec(i) + "]" }

  function RenderChain(ch: Chain, numberText: real -> string): string
  {
    VideoIn(ch.index) + RenderOverlays(ch.numbers, numberText) + RenderOverlay(ch.title, numberText)
    + SourceText(ch.source, numberText)
    + ChainEnd(ch.index)
  }

  /** `[vi]; `: the label that closes chain `i` */
  function ChainEnd(i: nat): string { ChainOut(i) + "; " }

  /** The source overlay when there is one, nothing otherwise. */
  function SourceText(source: Option<Overlay>, numberText: real -> string): string
  {
    if source.Some? then RenderOverlay(source.value, numberText) else []
  }

  function RenderChains(chs: seq<Chain>, numberText: real -> string): string
  {
    if chs == [] then [] else RenderChains(chs[..|chs| - 1], numberText) + RenderChain(chs[|chs| - 1], numberText)
  }

  lemma RenderChainsSnoc(chs: seq<Chain>, k: nat, numberText: real -> string)
    requires k < |chs|
    ensures RenderChains(chs[..k + 1], numberText) == RenderChains(chs[..k], numberText) + RenderChain(chs[k], numberText)
  {
    assert chs[..k + 1][..k] == chs[..k];
  }

  /** `[vi][i:a]`: what the concat filter takes from video `i` */
  function AudioIn(i: nat): string { "[" + Dec(i) + ":a]" }

  function ConcatInput(i: nat): string { ChainOut(i) + AudioIn(i) }

  function ConcatInputs(n: nat): string
  {
    if n == 0 then [] else ConcatInputs(n - 1) + ConcatInput(n - 1)
  }

  function ConcatFilter(n: nat): string
  {
    ConcatInputs(n) + ConcatTail(n)
  }

  /** The concat filter proper, taking `n` video/audio pairs. */
  function ConcatTail(n: nat): string { "concat=n=" + Dec(n) + ":v=1:a=1[outv][outa]" }

  /** The whole `-filter_complex` argument. */
  function FilterComplex(width: nat, height: nat, count: nat, c: Captions, numberText: real -> string): string
  {
    RenderChains(Chains(width, height, count, c), numberText) + ConcatFilter(count)
  }

  /** `-i "<path>" ` once per upload. */
  function InputArgs(paths: seq<string>): string
  {
    if paths == [] then [] else InputArgs(paths[..|paths| - 1]) + "-i \"" + paths[|paths| - 1] + "\" "
  }

  // ---------------------------------------------------------- the builder

  /** The inner loop at video-merger-api.js:127-134: the numbers `1.` to `count.` */
  method DrawNumbers(l: Layout, count: nat, numberText: real -> string) returns (text: string)
    ensures text == RenderOverlays(Numbers(l, count), numberText)
  {
    ghost var numbers := Numbers(l, count);
    text := [];
    var k := 0;
    while k < count
      invariant 0 <= k <= count
      invariant text == RenderOverlays(numbers[..k], numberText)
    {
      var currentY := RowY(l, k);
      var numText := Dec(k + 1) + ".";
      var number := Number(numText, l.fontSize, l.startX, currentY);
      assert number == numbers[k];
      RenderOverlaysSnoc(numbers, k, numberText);
      text := text + RenderOverlay(number, numberText);
      k := k + 1;
    }
    assert numbers[..k] == numbers;
  }

  /** One pass of the outer loop (video-merger-api.js:121-161): the chain of video `i`. */
  method BuildChain(width: nat, l: Layout, count: nat, c: Captions, i: nat, numberText: real -> string)
    returns (chain: string)
    ensures chain == RenderChain(ChainOf(width, l, count, c, i), numberText)
  {
    ghost var ch := ChainOf(width, l, count, c, i);
    chain := VideoIn(i);
    var numbers := DrawNumbers(l, count, numberText);
    chain := chain + numbers;
    var titleY := RowY(l, i);
    var titleText := EscapeText(TitleOf(c.titles, i));
    var title := Title(titleText, l.fontSize, 2 * l.startX + 3 * l.fontSize, titleY);
    assert title == ch.title;
    chain := chain + RenderOverlay(title, numberText);
    ghost var beforeSource := chain;
    ghost var source := SourceOf(width, l, c, i);
    assert ch.source == source;
    if ShowsSource(c, i) {
      chain := chain + RenderOverlay(SourceOverlay(width, l, c.sources[i]), numberText);
      assert SourceText(source, numberText) == RenderOverlay(SourceOverlay(width, l, c.sources[i]), numberText);
    } else {
      AppendNothing(beforeSource);
      assert SourceText(source, numberText) == [];
    }
    chain := chain + ChainEnd(i);
  }

  /** The `-i` arguments (video-merger-api.js:116-118), one per upload in order. */
  method BuildInputs(paths: seq<string>) returns (inputs: string)
    ensures inputs == InputArgs(paths)
  {
    inputs := [];
    var i := 0;
    while i < |paths|
      invariant 0 <= i <= |paths|
      invariant inputs == InputArgs(paths[..i])
    {
      assert paths[..i + 1][..i] == paths[..i];
      inputs := inputs + "-i \"" + paths[i] + "\" ";
      i := i + 1;
    }
    assert paths[..i] == paths;
  }

  /**
   * The string building at video-merger-api.js:112-165: the `-i` arguments
   * and the filter graph, accumulated as the source does.
   */
  method BuildFilterGraph(width: nat, height: nat, paths: seq<string>, c: Captions, numberText: real -> string)
    returns (inputs: string, filterComplex: string)
    ensures inputs == InputArgs(paths)
    ensures filterComplex == FilterComplex(width, height, |paths|, c, numberText)
  {
    var n := |paths|;
    var l := ComputeLayout(width, height, n);
    inputs := BuildInputs(paths);

    ghost var chains := Chains(width, height, n, c);
    filterComplex := [];
    var i := 0;
    while i < n
      invariant 0 <= i <= n
      invariant filterComplex == RenderChains(chains[..i], numberText)
    {
      var chain := BuildChain(width, l, n, c, i, numberText);
      assert chains[i] == ChainOf(width, l, n, c, i);
      RenderChainsSnoc(chains, i, numberText);
      filterComplex := filterComplex + chain;
      i := i + 1;
    }
    assert chains[..n] == chains;

    var concatInputs := ConcatInputs(n);
    AppendAssoc(filterComplex, concatInputs, ConcatTail(n));
    filterComplex := filterComplex + concatInputs + ConcatTail(n);
  }

  // -------------------------------------------------------------- lemmas

  /** Consecutive rows are one line height apart. */
  lemma RowsEvenlySpaced(l: Layout, k: nat)
    ensures RowY(l, k + 1) == RowY(l, k) + l.lineHeight
  {
    assert (k + 1) * l.lineHeight == k * l.lineHeight + l.lineHeight;
  }

  /**
   * Chain `i` draws the numbers `1.` to `count.` on evenly spaced rows and
   * one title, on its own row next to its number; the source overlay is
   * drawn exactly when it was asked for and given.
   */
  lemma ChainLayout(width: nat, height: nat, count: nat, c: Captions, i: nat)
    requires i < count
    ensures var l := ComputeLayout(width, height, count);
      var ch := Chains(width, height, count, c)[i];
      && ch.index == i
      && |ch.numbers| == count
      && (forall k :: 0 <= k < count ==> ch.numbers[k].Number? && ch.numbers[k].text == Dec(k + 1) + ".")
      && (forall k :: 0 <= k < count ==> ch.numbers[k].y == RowY(l, k))
      && (forall k :: 0 <= k < count - 1 ==> ch.numbers[k + 1].y == ch.numbers[k].y + l.lineHeight)
      && ch.title.Title? && ch.title.y == ch.numbers[i].y == RowY(l, i)
      && ch.title.text == EscapeText(TitleOf(c.titles, i))
      && (ch.source.Some? <==> ShowsSource(c, i))
  {
    var l := ComputeLayout(width, height, count);
    var ch := Chains(width, height, count, c)[i];
    assert ch == ChainOf(width, l, count, c, i);
    forall k | 0 <= k < count - 1
      ensures ch.numbers[k + 1].y == ch.numbers[k].y + l.lineHeight
    {
      RowsEvenlySpaced(l, k);
    }
  }

  /** The number text `k.` names the row: different rows get different numbers. */
  lemma NumbersDistinct(k1: nat, k2: nat)
    ensures Dec(k1 + 1) + "." == Dec(k2 + 1) + "." ==> k1 == k2
  {
    var a, b := Dec(k1 + 1) + ".", Dec(k2 + 1) + ".";
    assert a[..|a| - 1] == Dec(k1 + 1);
    assert b[..|b| - 1] == Dec(k2 + 1);
    if a == b {
      DecValue(k1 + 1);
      DecValue(k2 + 1);
    }
  }

  /** Different chains produce different stream labels. */
  lemma ChainOutDistinct(i: nat, j: nat)
    ensures ChainOut(i) == ChainOut(j) ==> i == j
  {
    if ChainOut(i) == ChainOut(j) {
      AffixCancel("[v", Dec(i), Dec(j), "]");
      DecValue(i);
      DecValue(j);
    }
  }

  /** Chain `i` reads input `i`'s video and ends with the label `[vi]`. */
  lemma ChainFrame(width: nat, height: nat, count: nat, c: Captions, i: nat, numberText: real -> string)
    requires i < count
    ensures var text := RenderChain(Chains(width, height, count, c)[i], numberText);
      StartsWith(text, VideoIn(i)) && EndsWith(text, ChainEnd(i))
  {
    var ch := Chains(width, height, count, c)[i];
    assert ch.index == i by {
      ChainLayout(width, height, count, c, i);
    }
    var a := VideoIn(i) + RenderOverlays(ch.numbers, numberText);
    var b := a + RenderOverlay(ch.title, numberText);
    var d := b + SourceText(ch.source, numberText);
    MatchesAtJoint([], VideoIn(i));
    MatchesAtAppend(VideoIn(i), RenderOverlays(ch.numbers, numberText), VideoIn(i), 0);
    MatchesAtAppend(a, RenderOverlay(ch.title, numberText), VideoIn(i), 0);
    MatchesAtAppend(b, SourceText(ch.source, numberText), VideoIn(i), 0);
    MatchesAtAppend(d, ChainEnd(i), VideoIn(i), 0);
    EndsWithJoint(d, ChainEnd(i));
  }

  /**
   * The concat filter takes the streams `[v0][0:a]` ... `[v(n-1)][(n-1):a]`
   * in order: the part for video `i` follows those for the videos before it.
   */
  lemma {:induction false} ConcatInputsOrder(n: nat, i: nat)
    requires i < n
    ensures MatchesAt(ConcatInputs(n), ConcatInput(i), |ConcatInputs(i)|)
    decreases n
  {
    assert ConcatInputs(n) == ConcatInputs(n - 1) + ConcatInput(n - 1);
    if i == n - 1 {
      MatchesAtJoint(ConcatInputs(i), ConcatInput(i));
    } else {
      ConcatInputsOrder(n - 1, i);
      MatchesAtAppend(ConcatInputs(n - 1), ConcatInput(n - 1), ConcatInput(i), |ConcatInputs(i)|);
    }
  }

  lemma AppendAssoc(a: string, b: string, c: string)
    ensures a + b + c == a + (b + c)
  {
  }

  lemma AppendNothing(s: string)
    ensures s + [] == s
  {
  }

  lemma MatchesAtJoint(a: string, b: string)
    ensures MatchesAt(a + b, b, |a|)
  {
    assert (a + b)[|a|..|a| + |b|] == b;
  }

  lemma MatchesAtAppend(a: string, b: string, pat: string, k: nat)
    requires MatchesAt(a, pat, k)
    ensures MatchesAt(a + b, pat, k)
  {
    assert (a + b)[k..k + |pat|] == a[k..k + |pat|];
  }

  lemma MatchesAtShorter(s: string, a: string, b: string, k: nat)
    requires MatchesAt(s, a + b, k)
    ensures MatchesAt(s, a, k)
  {
    assert s[k..k + |a|] == s[k..k + |a + b|][..|a|];
  }

  lemma EndsWithJoint(a: string, b: string)
    ensures EndsWith(a + b, b)
  {
    assert (a + b)[|a + b| - |b|..] == b;
  }

  /** Every chain's output is consumed by the concat filter, whose arity is the number of videos. */
  lemma ConcatConsumesChains(n: nat, i: nat)
    requires i < n
    ensures Contains(ConcatFilter(n), ChainOut(i))
    ensures EndsWith(ConcatFilter(n), ConcatTail(n))
  {
    var k := |ConcatInputs(i)|;
    assert MatchesAt(ConcatFilter(n), ChainOut(i), k) by {
      ConcatInputsOrder(n, i);
      MatchesAtAppend(ConcatInputs(n), ConcatTail(n), ConcatInput(i), k);
      MatchesAtShorter(ConcatFilter(n), ChainOut(i), AudioIn(i), k);
    }
    ContainsAt(ConcatFilter(n), ChainOut(i), k);
    EndsWithJoint(ConcatInputs(n), ConcatTail(n));
  }

  // ------------------------------------------------ the route and cleanup

  /** What ffprobe's JSON reported: a failure, no video stream, or its size. */
  datatype Probe = ProbeFailed(error: string) | NoVideoStream | Video(width: nat, height: nat)

  /** The messages of the failure replies; `Failed` carries the error's own message. */
  datatype Message = NoFiles | NoFfmpeg | Failed(detail: string)

  function MessageText(m: Message): string
  {
    match m
    case NoFiles => "Tidak ada file video yang diupload"
    case NoFfmpeg => "ffmpeg tidak terinstall."
    case Failed(detail) => "Gagal: " + detail
  }

  /** The message of the `TypeError` raised by reading a property of `undefined`. */
  function UndefinedRead(property: string): string
  {
    "Cannot read properties of undefined (reading '" + property + "')"
  }

  datatype Reply =
    | Rejected(status: nat, message: Message)
    | Merged(outputFile: string, path: string, resolution: string)

  const MergedFolder: string := "downloads/Merged_Videos"

  /**
   * The reply of the route. `outputName` is `None` when the form left it
   * out, which makes `sanitizeFilename` throw; `merge` is the error ffmpeg
   * failed with, `None` when it succeeded.
   */
  function MergeReply(count: nat, ffmpegInstalled: bool, outputName: Option<string>, probe: Probe, merge: Option<string>)
    : (r: Reply)
    ensures count == 0 ==> r == Rejected(400, NoFiles)
    ensures count > 0 && !ffmpegInstalled ==> r == Rejected(500, NoFfmpeg)
    ensures r.Merged? <==> count > 0 && ffmpegInstalled && outputName.Some? && probe.Video? && merge.None?
    ensures r.Rejected? && count > 0 && ffmpegInstalled ==> r.status == 500 && r.message.Failed?
    ensures r.Merged? ==>
      && r.outputFile == Sanitize.SanitizeFilename(outputName.value) + ".mp4"
      && r.path == MergedFolder + "/" + r.outputFile
      && r.resolution == Dec(probe.width) + "x" + Dec(probe.height)
  {
    if count == 0 then Rejected(400, NoFiles)
    else if !ffmpegInstalled then Rejected(500, NoFfmpeg)
    else if outputName.None? then Rejected(500, Failed(UndefinedRead("replace")))
    else
      var outputFile := Sanitize.SanitizeFilename(outputName.value) + ".mp4";
      match probe
      case ProbeFailed(e) => Rejected(500, Failed(e))
      case NoVideoStream => Rejected(500, Failed(UndefinedRead("width")))
      case Video(w, h) =>
        if merge.Some? then Rejected(500, Failed(merge.value))
        else Merged(outputFile, MergedFolder + "/" + outputFile, Dec(w) + "x" + Dec(h))
  }

  /** Whether the uploads are removed: on every path that gets past the two checks. */
  predicate CleansUp(count: nat, ffmpegInstalled: bool)
  {
    count > 0 && ffmpegInstalled
  }

  /** Whether ffmpeg is run, and so whether a filter graph is built. */
  predicate RunsFfmpeg(count: nat, ffmpegInstalled: bool, outputName: Option<string>, probe: Probe)
  {
    CleansUp(count, ffmpegInstalled) && outputName.Some? && probe.Video?
  }

  function Names(paths: seq<string>): set<string>
  {
    set p | p in paths
  }

  /**
   * The uploads are removed on the success path and on every failure
   * inside the `try`, but a missing ffmpeg answers 500 and leaves them.
   */
  lemma CleanupPaths(count: nat, ffmpegInstalled: bool, outputName: Option<string>, probe: Probe, merge: Option<string>)
    ensures var r := MergeReply(count, ffmpegInstalled, outputName, probe, merge);
      && (r.Merged? ==> CleansUp(count, ffmpegInstalled))
      && (r.Rejected? && r.status == 500 && r.message.Failed? ==> CleansUp(count, ffmpegInstalled))
      && (r == Rejected(500, NoFfmpeg) ==> !CleansUp(count, ffmpegInstalled))
      && (r == Rejected(400, NoFiles) ==> !CleansUp(count, ffmpegInstalled))
  {
  }

  /** The uploaded temp files that are still on disk. */
  class Uploads {
    var present: set<string>

    constructor (files: set<string>)
      ensures present == files
    {
      present := files;
    }

    /** `fs.unlinkSync` on each path; a file already gone is skipped. */
    method UnlinkAll(paths: seq<string>)
      modifies this
      ensures present == old(present) - Names(paths)
    {
      var i := 0;
      while i < |paths|
        invariant 0 <= i <= |paths|
        invariant present == old(present) - Names(paths[..i])
      {
        assert Names(paths[..i + 1]) == Names(paths[..i]) + {paths[i]};
        if paths[i] in present {
          present := present - {paths[i]};
        }
        i := i + 1;
      }
      assert paths[..i] == paths;
    }

    /**
     * The route (video-merger-api.js:40-209). It returns the reply and the
     * filter graph ffmpeg was run with, if it was run.
     */
    method MergeVideos(paths: seq<string>, ffmpegInstalled: bool, outputName: Option<string>, probe: Probe,
                       c: Captions, merge: Option<string>, numberText: real -> string)
      returns (reply: Reply, graph: Option<string>)
      modifies this
      ensures reply == MergeReply(|paths|, ffmpegInstalled, outputName, probe, merge)
      ensures present == if CleansUp(|paths|, ffmpegInstalled) then old(present) - Names(paths) else old(present)
      ensures graph.Some? <==> RunsFfmpeg(|paths|, ffmpegInstalled, outputName, probe)
      ensures graph.Some? ==> graph.value == FilterComplex(probe.width, probe.height, |paths|, c, numberText)
    {
      graph := None;
      if |paths| == 0 {
        reply := Rejected(400, NoFiles);
        return;
      }
      if !ffmpegInstalled {
        reply := Rejected(500, NoFfmpeg);
        return;
      }
      if outputName.None? {
        UnlinkAll(paths);
        reply := Rejected(500, Failed(UndefinedRead("replace")));
        return;
      }
      var outputFile := Sanitize.SanitizeFilename(outputName.value) + ".mp4";
      if probe.ProbeFailed? {
        UnlinkAll(paths);
        reply := Rejected(500, Failed(probe.error));
        return;
      }
      if probe.NoVideoStream? {
        UnlinkAll(paths);
        reply := Rejected(500, Failed(UndefinedRead("width")));
        return;
      }
      var inputs, filterComplex := BuildFilterGraph(probe.width, probe.height, paths, c, numberText);
      graph := Some(filterComplex);
      UnlinkAll(paths);
      if merge.Some? {
        reply := Rejected(500, Failed(merge.value));
      } else {
        reply := Merged(outputFile, MergedFolder + "/" + outputFile, Dec(probe.width) + "x" + Dec(probe.height));
      }
    }
  }
}
