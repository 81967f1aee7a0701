/**
 * video_naskah/split_naskah.js: a script (`naskah`) is cut at every line
 * feed and each paragraph, trimmed, is written to its own numbered file
 * `001.txt`, `002.txt`, ... in the segment folder. The file system is a
 * set of folders and a map from file path to content; the script's text
 * is an input.
 */
module SplitNaskah {
  import opened Text

  const SegmentDir: string := "input/judul1/segmen/"

  /** `String(k + 1).padStart(3, '0') + '.txt'`: the name of segment `k` (0-based). */
  function SegmentName(k: nat): (r: string)
    ensures |r| == |ZeroPad(k + 1, 3)| + 4 && EndsWith(r, ".txt")
  {
    var d := ZeroPad(k + 1, 3);
    assert (d + ".txt")[|d|..] == ".txt";
    d + ".txt"
  }

  /** `path.join(outputDir, name)`; the folder already ends with `/`. */
  function SegmentPath(k: nat): string
  {
    SegmentDir + SegmentName(k)
  }

  /** `naskah.split('\n')`: the paragraphs, empty ones included. */
  function Segments(naskah: string): seq<string>
  {
    Split(naskah, "\n")
  }

  /** There is one segment more than there are line feeds, even after a trailing one. */
  lemma SegmentCount(naskah: string)
    ensures |Segments(naskah)| == Count(naskah, '\n') + 1
    ensures forall p :: p in Segments(naskah) ==> '\n' !in p
  {
    SplitCount(naskah, '\n');
    SplitPiecesFree(naskah, '\n');
  }

  /**
   * The number in a segment name reads back as `k + 1`, with at least three
   * digits and never cut short, so names past `999.txt` keep all their digits.
   */
  lemma SegmentNameNumber(k: nat)
    ensures var d := SegmentName(k)[..|SegmentName(k)| - 4];
      && d == ZeroPad(k + 1, 3)
      && AllDigits(d) && |d| >= 3 && |d| >= |Dec(k + 1)|
      && DigitsValue(d) == k + 1
  {
    var d := ZeroPad(k + 1, 3);
    assert SegmentName(k)[..|SegmentName(k)| - 4] == d;
    ZeroPadValue(k + 1, 3);
  }

  /** Different segments go to different files. */
  lemma SegmentPathsDistinct(j: nat, k: nat)
    ensures SegmentPath(j) == SegmentPath(k) ==> j == k
  {
    if SegmentPath(j) == SegmentPath(k) {
      assert SegmentName(j) == SegmentPath(j)[|SegmentDir|..];
      assert SegmentName(k) == SegmentPath(k)[|SegmentDir|..];
      SegmentNameNumber(j);
      SegmentNameNumber(k);
    }
  }

  /** Segment `k`, trimmed, written to `path(k)`, segment by segment. */
  function Written(path: nat -> string, segments: seq<string>): map<string, string>
  {
    if segments == [] then map[]
    else
      var n := |segments| - 1;
      Written(path, segments[..n])[path(n) := Trim(segments[n])]
  }

  lemma {:induction false} WrittenKeys(path: nat -> string, segments: seq<string>, p: string)
    ensures p in Written(path, segments) <==> exists k :: 0 <= k < |segments| && p == path(k)
    decreases |segments|
  {
    if segments != [] {
      var n := |segments| - 1;
      WrittenKeys(path, segments[..n], p);
      if p in Written(path, segments[..n]) {
        var k :| 0 <= k < n && p == path(k);
        assert 0 <= k < |segments| && p == path(k);
      }
    }
  }

  lemma {:induction false} WrittenContent(path: nat -> string, segments: seq<string>, k: nat)
    requires forall i, j :: path(i) == path(j) ==> i == j
    requires k < |segments|
    ensures path(k) in Written(path, segments)
    ensures Written(path, segments)[path(k)] == Trim(segments[k])
    decreases |segments|
  {
    var n := |segments| - 1;
    if k < n {
      WrittenContent(path, segments[..n], k);
      assert path(k) != path(n);
    }
  }

  lemma {:induction false} WrittenCount(path: nat -> string, segments: seq<string>)
    requires forall i, j :: path(i) == path(j) ==> i == j
    ensures |Written(path, segments)| == |segments|
    decreases |segments|
  {
    if segments != [] {
      var n := |segments| - 1;
      WrittenCount(path, segments[..n]);
      WrittenKeys(path, segments[..n], path(n));
    }
  }

  /** The files the `forEach` writes, segment by segment. */
  function SegmentFiles(segments: seq<string>): map<string, string>
  {
    Written(SegmentPath, segments)
  }

  lemma SegmentPathInjective()
    ensures forall i, j :: SegmentPath(i) == SegmentPath(j) ==> i == j
  {
    forall i, j | SegmentPath(i) == SegmentPath(j) ensures i == j {
      SegmentPathsDistinct(i, j);
    }
  }

  /** The files written are exactly the paths of the segments ... */
  lemma SegmentFilesKeys(segments: seq<string>, p: string)
    ensures p in SegmentFiles(segments) <==> exists k :: 0 <= k < |segments| && p == SegmentPath(k)
  {
    WrittenKeys(SegmentPath, segments, p);
  }

  /** ... and file `k` holds segment `k` trimmed: no later segment overwrites it. */
  lemma SegmentFilesContent(segments: seq<string>, k: nat)
    requires k < |segments|
    ensures SegmentPath(k) in SegmentFiles(segments)
    ensures SegmentFiles(segments)[SegmentPath(k)] == Trim(segments[k])
  {
    SegmentPathInjective();
    WrittenContent(SegmentPath, segments, k);
  }

  /** One file per segment, empty segments included. */
  lemma SegmentFilesCount(segments: seq<string>)
    ensures |SegmentFiles(segments)| == |segments|
  {
    SegmentPathInjective();
    WrittenCount(SegmentPath, segments);
  }

  /**
   * No file content has white space at either end; in particular the `\r`
   * a CRLF script leaves at the end of each paragraph is gone.
   */
  lemma SegmentContentTrimmed(naskah: string, k: nat)
    requires k < |Segments(naskah)|
    ensures SegmentPath(k) in SegmentFiles(Segments(naskah))
    ensures var t := SegmentFiles(Segments(naskah))[SegmentPath(k)];
      && t == Trim(Segments(naskah)[k])
      && (t != [] ==> t[0] != '\r' && t[|t| - 1] != '\r')
  {
    SegmentFilesContent(Segments(naskah), k);
  }

  /** Writing a file after a merge is merging the write. */
  lemma MergeUpdate(a: map<string, string>, b: map<string, string>, p: string, v: string)
    ensures a + b[p := v] == (a + b)[p := v]
  {
  }

  /** The `✅ n segmen berhasil dibuat!` line. */
  function Report(count: nat): string
  {
    "✅ " + Dec(count) + " segmen berhasil dibuat!"
  }

  class Disk {
    var folders: set<string>
    var files: map<string, string>

    constructor (folders0: set<string>, files0: map<string, string>)
      ensures folders == folders0 && files == files0
    {
      folders := folders0;
      files := files0;
    }

    /**
     * The script (video_naskah/split_naskah.js:6-16): make the segment folder
     * if it is missing, write one file per paragraph and report their number.
     */
    method SplitScript(naskah: string) returns (count: nat, report: string)
      modifies this
      ensures folders == old(folders) + {SegmentDir}
      ensures files == old(files) + SegmentFiles(Segments(naskah))
      ensures count == |Segments(naskah)| == Count(naskah, '\n') + 1
      ensures report == Report(count)
    {
      if SegmentDir !in folders {
        folders := folders + {SegmentDir};
      }
      var segments := Split(naskah, "\n");
      var k := 0;
      while k < |segments|
        invariant 0 <= k <= |segments|
        invariant folders == old(folders) + {SegmentDir}
        invariant files == old(files) + SegmentFiles(segments[..k])
      {
        assert segments[..k + 1][..k] == segments[..k];
        MergeUpdate(old(files), SegmentFiles(segments[..k]), SegmentPath(k), Trim(segments[k]));
        var name := SegmentName(k);
        files := files[SegmentDir + name := Trim(segments[k])];
        k := k + 1;
      }
      assert segments[..k] == segments;
      SegmentCount(naskah);
      count := |segments|;
      report := Report(count);
    }
  }
}
