/**
 * `applyRandomEdit` of universal-api.js: the video is cut into 5-second
 * segments, the segment order is shuffled, and the segments are joined
 * again through an ffmpeg concat list. ffprobe, ffmpeg and the file system
 * are not modelled: the duration ffprobe reports is a parameter, each
 * command is one step of the run the method returns, and which commands
 * fail is a parameter too. A failure ends the run, as the `catch` around
 * the whole function only logs it.
 */
module RandomEdit {
  import opened Text

  const SegmentSeconds: nat := 5

  /** `Math.floor(parseFloat(durationOutput.trim()) / 5)`; `None` is `NaN`. */
  function SegmentCount(duration: Option<real>): (r: Option<int>)
    ensures r.Some? <==> duration.Some?
    ensures r.Some? ==>
      SegmentSeconds as real * r.value as real <= duration.value < SegmentSeconds as real * (r.value + 1) as real
  {
    if duration.None? then None else Some((duration.value / 5.0).Floor)
  }

  /**
   * How many segments are cut, or `None` when the video is too short.
   * `NaN < 2` is false, so an unreadable duration goes on with zero segments.
   */
  function SegmentsToCut(duration: Option<real>): (r: Option<nat>)
    ensures r.None? <==> duration.Some? && duration.value < 10.0
    ensures duration.None? ==> r == Some(0)
    ensures r.Some? && duration.Some? ==>
      r.value >= 2 && 5.0 * r.value as real <= duration.value < 5.0 * (r.value + 1) as real
  {
    var c := SegmentCount(duration);
    if c.None? then Some(0)
    else if c.value < 2 then None
    else Some(c.value)
  }

  /** `segment_` + the index padded to three digits + `.mp4` */
  function SegmentName(i: nat): string
  {
    "segment_" + ZeroPad(i, 3) + ".mp4"
  }

  /** One ffmpeg cut: `-ss start -t 5` into the named file. */
  datatype Segment = Segment(start: nat, name: string)

  /** The commands of a random edit, in the order the function runs them. */
  datatype Step =
    | MakeTempFolder
    | ProbeDuration
    | Cut(segment: Segment)
    | WriteConcatList(content: string)
    | ConcatSegments(count: nat)
    | RemoveOriginal
    | RenameOutput
    | RemoveTempFolder

  /** The loop at universal-api.js:354-366: segment `i` starts at `5 * i`. */
  method CutSegments(n: nat) returns (jobs: seq<Segment>)
    ensures |jobs| == n
    ensures forall i :: 0 <= i < n ==> jobs[i] == Segment(SegmentSeconds * i, SegmentName(i))
  {
    jobs := [];
    var i := 0;
    while i < n
      invariant 0 <= i <= n && |jobs| == i
      invariant forall k :: 0 <= k < i ==> jobs[k] == Segment(SegmentSeconds * k, SegmentName(k))
    {
      jobs := jobs + [Segment(i * SegmentSeconds, SegmentName(i))];
      i := i + 1;
    }
  }

  /** Distinct segments get distinct file names. */
  lemma SegmentNamesDistinct(i: nat, j: nat)
    ensures SegmentName(i) == SegmentName(j) ==> i == j
  {
    if SegmentName(i) == SegmentName(j) {
      AffixCancel("segment_", ZeroPad(i, 3), ZeroPad(j, 3), ".mp4");
      ZeroPadInjective(i, j, 3);
    }
  }

  /** The cut segments lie back to back from the start of the video. */
  lemma SegmentsTile(jobs: seq<Segment>, n: nat)
    requires |jobs| == n
    requires forall i :: 0 <= i < n ==> jobs[i] == Segment(SegmentSeconds * i, SegmentName(i))
    ensures n > 0 ==> jobs[0].start == 0
    ensures forall i :: 0 <= i < n - 1 ==> jobs[i + 1].start == jobs[i].start + SegmentSeconds
    ensures forall i, j :: 0 <= i < j < n ==> jobs[i].name != jobs[j].name
  {
    forall i, j | 0 <= i < j < n ensures jobs[i].name != jobs[j].name {
      SegmentNamesDistinct(i, j);
    }
  }

  // -------------------------------------------------------- the shuffle

  function Range(n: nat): (r: seq<nat>)
    ensures |r| == n && forall i :: 0 <= i < n ==> r[i] == i
  {
    seq(n, i => i)
  }

  /** `order` lists `0 .. n-1`, each once, in some order. */
  predicate IsOrderOf(order: seq<nat>, n: nat)
  {
    |order| == n && multiset(order) == multiset(Range(n))
  }

  /**
   * The Fisher–Yates loop at universal-api.js:371-375. `Math.random` is an
   * arbitrary choice of `j` in `[0, i]`; whatever is chosen, the array ends
   * as a permutation of what it held.
   */
  method Shuffle(a: array<nat>)
    modifies a
    ensures multiset(a[..]) == multiset(old(a[..]))
  {
    var i := a.Length - 1;
    while i > 0
      invariant i < a.Length
      invariant multiset(a[..]) == multiset(old(a[..]))
      decreases i
    {
      var j :| 0 <= j <= i;
      a[i], a[j] := a[j], a[i];
      i := i - 1;
    }
  }

  /** `Array.from({length: n}, (_, i) => i)`, shuffled. */
  method SegmentOrder(n: nat) returns (order: seq<nat>)
    ensures IsOrderOf(order, n)
  {
    var a := new nat[n](i => i);
    assert a[..] == Range(n);
    Shuffle(a);
    order := a[..];
  }

  lemma {:induction false} RangeCount(n: nat, v: nat)
    ensures multiset(Range(n))[v] == if v < n then 1 else 0
  {
    if n > 0 {
      assert Range(n) == Range(n - 1) + [n - 1];
      RangeCount(n - 1, v);
    }
  }

  /** A permutation of `0 .. n-1` holds nothing outside that range ... */
  lemma OrderInRange(order: seq<nat>, n: nat)
    requires IsOrderOf(order, n)
    ensures forall k :: 0 <= k < n ==> order[k] < n
  {
    forall k | 0 <= k < n ensures order[k] < n {
      assert order[k] in multiset(order);
      RangeCount(n, order[k]);
    }
  }

  /** ... holds no value twice ... */
  lemma OrderDistinct(order: seq<nat>, n: nat)
    requires IsOrderOf(order, n)
    ensures forall k1, k2 :: 0 <= k1 < k2 < n ==> order[k1] != order[k2]
  {
    forall k1, k2 | 0 <= k1 < k2 < n ensures order[k1] != order[k2] {
      if order[k1] == order[k2] {
        var v := order[k1];
        var a, b, c := order[..k1], order[k1 + 1..k2], order[k2 + 1..];
        assert order == a + [v] + b + [v] + c;
        assert multiset(order) == multiset(a) + multiset{v} + multiset(b) + multiset{v} + multiset(c);
        RangeCount(n, v);
      }
    }
  }

  /** ... and misses none of them. */
  lemma OrderComplete(order: seq<nat>, n: nat)
    requires IsOrderOf(order, n)
    ensures forall v :: 0 <= v < n ==> v in order
  {
    forall v | 0 <= v < n ensures v in order {
      RangeCount(n, v);
      assert v in multiset(order);
    }
  }

  // ---------------------------------------------------- the concat list

  function ConcatLine(i: nat): string
  {
    "file '" + SegmentName(i) + "'"
  }

  function ConcatLines(order: seq<nat>): (r: seq<string>)
    ensures |r| == |order| && forall k :: 0 <= k < |order| ==> r[k] == ConcatLine(order[k])
  {
    seq(|order|, k requires 0 <= k < |order| => ConcatLine(order[k]))
  }

  /** `segmentOrder.map(i => ...).join('\n')` */
  function ConcatContent(order: seq<nat>): string
  {
    Join(ConcatLines(order), "\n")
  }

  lemma ConcatLineInjective(i: nat, j: nat)
    requires ConcatLine(i) == ConcatLine(j)
    ensures i == j
  {
    AffixCancel("file '", SegmentName(i), SegmentName(j), "'");
    if i != j { SegmentNamesDistinct(i, j); }
  }

  lemma ConcatLineOneLine(i: nat)
    ensures '\n' !in ConcatLine(i)
  {
    var z := ZeroPad(i, 3);
    assert '\n' !in z by {
      forall k | 0 <= k < |z| ensures z[k] != '\n' { assert IsDigit(z[k]); }
    }
    assert ConcatLine(i) == "file 'segment_" + z + ".mp4'";
  }

  /** Splitting the list on line breaks gives back its lines. */
  lemma ConcatContentSplits(order: seq<nat>)
    requires |order| >= 1
    ensures Split(ConcatContent(order), "\n") == ConcatLines(order)
  {
    var lines := ConcatLines(order);
    forall p | p in lines ensures '\n' !in p {
      var k :| 0 <= k < |lines| && lines[k] == p;
      ConcatLineOneLine(order[k]);
    }
    SplitJoin(lines, "\n");
  }

  /**
   * The concat list has one line per segment, in the shuffled order, and
   * names every segment exactly once.
   */
  lemma ConcatListLines(order: seq<nat>, n: nat)
    requires IsOrderOf(order, n) && n >= 1
    ensures var lines := Split(ConcatContent(order), "\n");
      && |lines| == n
      && (forall k :: 0 <= k < n ==> lines[k] == ConcatLine(order[k]))
      && (forall v :: 0 <= v < n ==> ConcatLine(v) in lines)
      && (forall k1, k2 :: 0 <= k1 < k2 < n ==> lines[k1] != lines[k2])
  {
    ConcatContentSplits(order);
    var lines := ConcatLines(order);
    OrderDistinct(order, n);
    OrderComplete(order, n);
    forall v | 0 <= v < n ensures ConcatLine(v) in lines {
      assert v in order;
      var k :| 0 <= k < n && order[k] == v;
      assert lines[k] == ConcatLine(v);
    }
    forall k1, k2 | 0 <= k1 < k2 < n ensures lines[k1] != lines[k2] {
      if lines[k1] == lines[k2] { ConcatLineInjective(order[k1], order[k2]); }
    }
  }

  // ------------------------------------------------------ the whole edit

  /**
   * Whether a command fails: `fails` says which commands exit with an error
   * or throw, and ffmpeg always fails on a concat list that names no
   * segment, as it finds no input in it.
   */
  predicate StepFails(fails: Step -> bool, s: Step)
  {
    fails(s) || s == ConcatSegments(0)
  }

  /** The commands of one `await` or one synchronous call; the edit stops if any of them fails. */
  predicate StageFails(stage: seq<Step>, fails: Step -> bool)
  {
    exists i :: 0 <= i < |stage| && StepFails(fails, stage[i])
  }

  /** All the commands of the stages, in order. */
  function Flatten(stages: seq<seq<Step>>): seq<Step>
  {
    if stages == [] then [] else stages[0] + Flatten(stages[1..])
  }

  /**
   * The commands that run: every stage up to and including the first one
   * that fails, after which the `catch` at universal-api.js:404-406 logs
   * the error and the function returns.
   */
  function Run(stages: seq<seq<Step>>, fails: Step -> bool): seq<Step>
  {
    if stages == [] then []
    else stages[0] + (if StageFails(stages[0], fails) then [] else Run(stages[1..], fails))
  }

  /** The cuts, started together and awaited with `Promise.all`. */
  function CutStage(n: nat): (r: seq<Step>)
    ensures |r| == n && forall i :: 0 <= i < n ==> r[i] == Cut(Segment(SegmentSeconds * i, SegmentName(i)))
  {
    seq(n, i requires 0 <= i < n => Cut(Segment(SegmentSeconds * i, SegmentName(i))))
  }

  /** What is run after the cuts, one synchronous call or `await` each. */
  function Finish(order: seq<nat>): seq<seq<Step>>
  {
    [[WriteConcatList(ConcatContent(order))]] + ([[ConcatSegments(|order|)]] +
      ([[RemoveOriginal]] + ([[RenameOutput]] + [[RemoveTempFolder]])))
  }

  /** The stages of an edit with an mp4: a short video stops after the probe. */
  function EditStages(count: Option<nat>, order: seq<nat>): seq<seq<Step>>
  {
    [[MakeTempFolder]] + ([[ProbeDuration]] + (if count.None? then [] else [CutStage(count.value)] + Finish(order)))
  }

  lemma SingleStage(s: Step, fails: Step -> bool)
    ensures StageFails([s], fails) <==> StepFails(fails, s)
  {
    assert [s][0] == s;
  }

  /** When no stage fails, every command runs. */
  lemma {:induction false} RunAll(stages: seq<seq<Step>>, fails: Step -> bool)
    requires forall k :: 0 <= k < |stages| ==> !StageFails(stages[k], fails)
    ensures Run(stages, fails) == Flatten(stages)
  {
    if stages != [] {
      assert !StageFails(stages[0], fails);
      RunAll(stages[1..], fails);
    }
  }

  /** When stage `k` is the first to fail, the commands of stages `0 .. k` run and no other. */
  lemma {:induction false} RunStopsAt(stages: seq<seq<Step>>, fails: Step -> bool, k: nat)
    requires k < |stages| && StageFails(stages[k], fails)
    requires forall j :: 0 <= j < k ==> !StageFails(stages[j], fails)
    ensures Run(stages, fails) == Flatten(stages[..k + 1])
  {
    var f := stages[..k + 1];
    assert f[0] == stages[0] && f[1..] == stages[1..][..k];
    if k == 0 {
      assert Flatten(f) == stages[0] + Flatten([]);
    } else {
      assert !StageFails(stages[0], fails);
      RunStopsAt(stages[1..], fails, k - 1);
    }
  }

  lemma RunCons(stage: seq<Step>, rest: seq<seq<Step>>, fails: Step -> bool)
    ensures Run([stage] + rest, fails) == stage + (if StageFails(stage, fails) then [] else Run(rest, fails))
  {
    assert ([stage] + rest)[0] == stage && ([stage] + rest)[1..] == rest;
  }

  /** The commands an edit runs up to the end of the cuts. */
  lemma EditRunShape(count: Option<nat>, order: seq<nat>, fails: Step -> bool)
    ensures Run(EditStages(count, order), fails) ==
      [MakeTempFolder] + (if StepFails(fails, MakeTempFolder) then [] else
      [ProbeDuration] + (if StepFails(fails, ProbeDuration) || count.None? then [] else
      CutStage(count.value) + (if StageFails(CutStage(count.value), fails) then [] else
      Run(Finish(order), fails))))
  {
    var rest: seq<seq<Step>> := if count.None? then [] else [CutStage(count.value)] + Finish(order);
    RunCons([MakeTempFolder], [[ProbeDuration]] + rest, fails);
    RunCons([ProbeDuration], rest, fails);
    SingleStage(MakeTempFolder, fails);
    SingleStage(ProbeDuration, fails);
    if count.Some? {
      RunCons(CutStage(count.value), Finish(order), fails);
    }
  }

  /** The commands run after the cuts, each run only when the one before it succeeded. */
  lemma FinishShape(order: seq<nat>, fails: Step -> bool)
    ensures var list, concat := WriteConcatList(ConcatContent(order)), ConcatSegments(|order|);
      Run(Finish(order), fails) ==
        [list] + (if StepFails(fails, list) then [] else
        [concat] + (if StepFails(fails, concat) then [] else
        [RemoveOriginal] + (if StepFails(fails, RemoveOriginal) then [] else
        [RenameOutput] + (if StepFails(fails, RenameOutput) then [] else
        [RemoveTempFolder]))))
  {
    var list, concat := WriteConcatList(ConcatContent(order)), ConcatSegments(|order|);
    var s4: seq<seq<Step>> := [[RemoveTempFolder]];
    var s3 := [[RenameOutput]] + s4;
    var s2 := [[RemoveOriginal]] + s3;
    var s1 := [[concat]] + s2;
    RunCons([list], s1, fails);
    RunCons([concat], s2, fails);
    RunCons([RemoveOriginal], s3, fails);
    RunCons([RenameOutput], s4, fails);
    RunCons([RemoveTempFolder], [], fails);
    assert [[RemoveTempFolder]] + [] == s4;
    SingleStage(list, fails);
    SingleStage(concat, fails);
    SingleStage(RemoveOriginal, fails);
    SingleStage(RenameOutput, fails);
    SingleStage(RemoveTempFolder, fails);
  }

  /** Every command before the clean-up succeeds. */
  predicate ReachesCleanUp(count: Option<nat>, order: seq<nat>, fails: Step -> bool)
  {
    && count.Some?
    && !StepFails(fails, MakeTempFolder) && !StepFails(fails, ProbeDuration)
    && !StageFails(CutStage(count.value), fails)
    && !StepFails(fails, WriteConcatList(ConcatContent(order))) && !StepFails(fails, ConcatSegments(|order|))
    && !StepFails(fails, RemoveOriginal) && !StepFails(fails, RenameOutput)
  }

  lemma NoFinishStepIsCut(n: nat)
    ensures forall s :: s in CutStage(n) ==> s.Cut?
  {
  }

  /**
   * The temp folder is removed exactly when every command before the
   * clean-up succeeded; a short video or any failure leaves it behind.
   */
  lemma CleanUpOnlyAfterSuccess(count: Option<nat>, order: seq<nat>, fails: Step -> bool)
    ensures RemoveTempFolder in Run(EditStages(count, order), fails) <==> ReachesCleanUp(count, order, fails)
  {
    EditRunShape(count, order, fails);
    FinishShape(order, fails);
    if count.Some? {
      NoFinishStepIsCut(count.value);
    }
  }

  /**
   * The original video is deleted only after the concat ran and succeeded,
   * which needs at least one segment.
   */
  lemma OriginalRemovedAfterConcat(count: Option<nat>, order: seq<nat>, fails: Step -> bool)
    ensures var steps := Run(EditStages(count, order), fails);
      RemoveOriginal in steps ==>
        && count.Some? && |order| > 0
        && ConcatSegments(|order|) in steps && !StepFails(fails, ConcatSegments(|order|))
  {
    EditRunShape(count, order, fails);
    FinishShape(order, fails);
    if count.Some? {
      NoFinishStepIsCut(count.value);
    }
  }

  /**
   * An unreadable duration (`NaN`) cuts no segment; ffmpeg then fails on
   * the empty concat list, so the original is kept and the temp folder is
   * left behind.
   */
  lemma UnreadableDuration(order: seq<nat>, fails: Step -> bool)
    requires IsOrderOf(order, 0)
    ensures var steps := Run(EditStages(SegmentsToCut(None), order), fails);
      RemoveOriginal !in steps && RemoveTempFolder !in steps
  {
    OriginalRemovedAfterConcat(SegmentsToCut(None), order, fails);
    CleanUpOnlyAfterSuccess(SegmentsToCut(None), order, fails);
  }

  /**
   * When the rename is the first command to fail, the original has already
   * been deleted: the folder is left without the video under its own name.
   */
  lemma FailedRenameLosesOriginal(count: Option<nat>, order: seq<nat>, fails: Step -> bool)
    requires count.Some? && !StepFails(fails, MakeTempFolder) && !StepFails(fails, ProbeDuration)
    requires !StageFails(CutStage(count.value), fails)
    requires !StepFails(fails, WriteConcatList(ConcatContent(order))) && !StepFails(fails, ConcatSegments(|order|))
    requires !StepFails(fails, RemoveOriginal) && StepFails(fails, RenameOutput)
    ensures var steps := Run(EditStages(count, order), fails);
      && RemoveOriginal in steps && RemoveTempFolder !in steps
      && |steps| > 0 && steps[|steps| - 1] == RenameOutput
  {
    var list, concat := WriteConcatList(ConcatContent(order)), ConcatSegments(|order|);
    var tail := Run(Finish(order), fails);
    FinishShape(order, fails);
    assert tail == [list, concat, RemoveOriginal, RenameOutput];
    EditRunShape(count, order, fails);
    var head := [MakeTempFolder] + ([ProbeDuration] + CutStage(count.value));
    assert Run(EditStages(count, order), fails) == head + tail;
    CleanUpOnlyAfterSuccess(count, order, fails);
  }

  /**
   * `applyRandomEdit`, with `fails` saying which commands fail. Without an
   * mp4 it does nothing; otherwise the commands run stage by stage until
   * one fails or the edit ends, a video under 10 seconds stopping after the
   * probe. When the concat list is written, it lists a permutation of the
   * segments.
   */
  method ApplyRandomEdit(videoFound: bool, duration: Option<real>, fails: Step -> bool) returns (steps: seq<Step>, order: seq<nat>)
    ensures !videoFound ==> steps == []
    ensures videoFound ==> steps == Run(EditStages(SegmentsToCut(duration), order), fails)
    ensures forall c :: WriteConcatList(c) in steps ==>
      SegmentsToCut(duration).Some? && IsOrderOf(order, SegmentsToCut(duration).value)
  {
    order := [];
    steps := [];
    if !videoFound {
      return;
    }
    var count := SegmentsToCut(duration);
    steps := [MakeTempFolder];
    if StepFails(fails, MakeTempFolder) {
      EditRunShape(count, order, fails);
      return;
    }
    steps := steps + [ProbeDuration];
    if StepFails(fails, ProbeDuration) || count.None? {
      EditRunShape(count, order, fails);
      return;
    }
    var more;
    more, order := CutAndFinish(count.value, fails);
    EditRunShape(count, order, fails);
    steps := steps + more;
  }

  /** universal-api.js:352-401: the cuts, awaited together, then the shuffle and the rest if they all succeed. */
  method CutAndFinish(n: nat, fails: Step -> bool) returns (more: seq<Step>, order: seq<nat>)
    ensures more == CutStage(n) + (if StageFails(CutStage(n), fails) then [] else Run(Finish(order), fails))
    ensures StageFails(CutStage(n), fails) ==> order == []
    ensures !StageFails(CutStage(n), fails) ==> IsOrderOf(order, n)
  {
    var jobs := CutSegments(n);
    var cuts := seq(n, i requires 0 <= i < n => Cut(jobs[i]));
    assert cuts == CutStage(n);
    if StageFails(cuts, fails) {
      more, order := cuts, [];
      assert more == more + [];
      return;
    }
    order := SegmentOrder(n);
    var rest := FinishEdit(order, fails);
    more := cuts + rest;
  }

  /** universal-api.js:381-401: the list, the concat, the replacement and the clean-up, in turn. */
  method FinishEdit(order: seq<nat>, fails: Step -> bool) returns (more: seq<Step>)
    ensures more == Run(Finish(order), fails)
  {
    FinishShape(order, fails);
    var list := WriteConcatList(ConcatContent(order));
    more := [list];
    if StepFails(fails, list) {
      return;
    }
    more := more + [ConcatSegments(|order|)];
    if StepFails(fails, ConcatSegments(|order|)) {
      return;
    }
    more := more + [RemoveOriginal];
    if StepFails(fails, RemoveOriginal) {
      return;
    }
    more := more + [RenameOutput];
    if StepFails(fails, RenameOutput) {
      return;
    }
    more := more + [RemoveTempFolder];
  }
}
