/**
 * The `/api/download-link` route of server.js: the URL check, and the file
 * names read back from what yt-dlp printed. yt-dlp itself is an input: the
 * error it failed with, or its standard output.
 *
 * The three regular expressions at server.js:72, 77 and 85 have the form
 * `<prefix>(.+<ext>)` or `<prefix>(.+)<ext>`, without flags: the match is
 * the leftmost occurrence of the prefix after which the rest of the same
 * line holds the extension at least one character in, and the greedy
 * `.+` reaches the last such occurrence of the extension on that line.
 */
module DownloadLink {
  import opened Text

  const ExtractPrefix: string := "[ExtractAudio] Destination: "
  const DownloadPrefix: string := "[download] Destination: "
  const ThumbnailPrefix: string := "[ThumbnailsConvertor] Destination: "
  const DefaultFilename: string := "file.mp3"

  /** The characters `.` does not match. */
  predicate IsLineEnd(c: char) { c == '\n' || c == '\r' || c == '\U{2028}' || c == '\U{2029}' }

  predicate OneLine(s: string) { forall i :: 0 <= i < |s| ==> !IsLineEnd(s[i]) }

  /** The rest of the line that starts at `s[k]`. */
  function LineFrom(s: string, k: nat): (r: string)
    requires k <= |s|
    ensures OneLine(r) && k + |r| <= |s| && r == s[k..k + |r|]
    ensures k + |r| < |s| ==> IsLineEnd(s[k + |r|])
    decreases |s| - k
  {
    if k == |s| || IsLineEnd(s[k]) then [] else [s[k]] + LineFrom(s, k + 1)
  }

  /** Whether one of the extensions occurs at `j`. */
  predicate AnyAt(line: string, exts: seq<string>, j: nat)
  {
    exists e :: e in exts && MatchesAt(line, e, j)
  }

  /** The last position, at least 1, where an extension occurs; `None` when there is none. */
  function LastExt(line: string, exts: seq<string>, j: nat): (r: Option<nat>)
    requires j <= |line|
    ensures r.Some? ==> 1 <= r.value <= j && AnyAt(line, exts, r.value)
    ensures r.Some? ==> forall k :: r.value < k <= j ==> !AnyAt(line, exts, k)
    ensures r.None? ==> forall k :: 1 <= k <= j ==> !AnyAt(line, exts, k)
  {
    if j == 0 then None
    else if AnyAt(line, exts, j) then Some(j)
    else LastExt(line, exts, j - 1)
  }

  /** The first alternative that occurs at `j`. */
  function ExtAt(line: string, exts: seq<string>, j: nat): (e: string)
    requires AnyAt(line, exts, j)
    ensures e in exts && MatchesAt(line, e, j)
  {
    if MatchesAt(line, exts[0], j) then exts[0]
    else
      assert AnyAt(line, exts[1..], j) by {
        var e :| e in exts && MatchesAt(line, e, j);
        assert e in exts[1..];
      }
      ExtAt(line, exts[1..], j)
  }

  /** How a match is reported: the whole `.+<ext>` (lines 72, 85), or only the `.+` (line 77). */
  datatype Group = WithExt | WithoutExt

  /** The regular expression tried with the prefix at `k`: the captured group, if it matches there. */
  function CaptureAt(s: string, prefix: string, exts: seq<string>, group: Group, k: nat): (r: Option<string>)
    ensures r.Some? ==> MatchesAt(s, prefix, k)
  {
    if !MatchesAt(s, prefix, k) then None
    else
      var line := LineFrom(s, k + |prefix|);
      match LastExt(line, exts, |line|)
      case None => None
      case Some(j) =>
        if group == WithoutExt then Some(line[..j])
        else
          var e := ExtAt(line, exts, j);
          Some(line[..j + |e|])
  }

  /** The expression matches at no position from `lo` up to, not including, `hi`. */
  predicate NoCaptureBetween(s: string, prefix: string, exts: seq<string>, group: Group, lo: nat, hi: nat)
  {
    forall m :: lo <= m < hi ==> CaptureAt(s, prefix, exts, group, m).None?
  }

  /** `s.match(re)`: the capture of the leftmost position where the expression matches. */
  function FirstCapture(s: string, prefix: string, exts: seq<string>, group: Group, k: nat): (r: Option<string>)
    requires k <= |s|
    ensures r.None? <==> forall m :: k <= m <= |s| ==> CaptureAt(s, prefix, exts, group, m).None?
    ensures r.Some? ==>
      exists m :: k <= m <= |s| && CaptureAt(s, prefix, exts, group, m) == r && NoCaptureBetween(s, prefix, exts, group, k, m)
    decreases |s| - k
  {
    var c := CaptureAt(s, prefix, exts, group, k);
    if c.Some? then c
    else if k == |s| then None
    else FirstCapture(s, prefix, exts, group, k + 1)
  }

  // ----------------------------------------------------------- basename

  function StripTrailingSlashes(p: string): (r: string)
    ensures |r| <= |p| && r == p[..|r|] && (r == [] || r[|r| - 1] != '/')
    ensures forall i :: |r| <= i < |p| ==> p[i] == '/'
  {
    if p != [] && p[|p| - 1] == '/' then StripTrailingSlashes(p[..|p| - 1]) else p
  }

  function AfterLastSlash(q: string): (r: string)
    ensures '/' !in r && EndsWith(q, r)
    ensures |r| < |q| ==> q[|q| - |r| - 1] == '/'
  {
    if q == [] || q[|q| - 1] == '/' then []
    else AfterLastSlash(q[..|q| - 1]) + [q[|q| - 1]]
  }

  /** `path.basename(p)` with POSIX separators: trailing `/`s are dropped, then what follows the last `/`. */
  function Basename(p: string): (r: string)
    ensures '/' !in r
  {
    AfterLastSlash(StripTrailingSlashes(p))
  }

  /** The base name of a path is the part after its directory. */
  lemma BasenameOfJoin(dir: string, name: string)
    requires name != [] && '/' !in name
    ensures Basename(dir + "/" + name) == name
  {
    var p := dir + "/" + name;
    assert StripTrailingSlashes(p) == p by {
      assert p[|p| - 1] == name[|name| - 1];
    }
    var r := AfterLastSlash(p);
    assert forall i :: |p| - |name| <= i < |p| ==> p[i] == name[i - (|p| - |name|)];
    assert p[|p| - |name| - 1] == '/';
    assert p[|p| - |name|..] == name;
    assert r == p[|p| - |r|..];
  }

  /** A name without `/` is its own base name. */
  lemma BasenamePlain(name: string)
    requires name != [] && '/' !in name
    ensures Basename(name) == name
  {
    assert StripTrailingSlashes(name) == name;
    var r := AfterLastSlash(name);
    assert name[|name| - |r|..] == r;
  }

  // ------------------------------------------------------- the extraction

  const AudioExts: seq<string> := [".mp3"]
  const DownloadExts: seq<string> := [".webm", ".m4a", ".opus"]
  const ThumbnailExts: seq<string> := [".jpg"]

  /** `[ExtractAudio] Destination: (.+\.mp3)` */
  function AudioPath(stdout: string): Option<string>
  {
    FirstCapture(stdout, ExtractPrefix, AudioExts, WithExt, 0)
  }

  /** `[download] Destination: (.+)\.(webm|m4a|opus)`, group 1 */
  function DownloadBase(stdout: string): Option<string>
  {
    FirstCapture(stdout, DownloadPrefix, DownloadExts, WithoutExt, 0)
  }

  /** `[ThumbnailsConvertor] Destination: (.+\.jpg)` */
  function ThumbnailPath(stdout: string): Option<string>
  {
    FirstCapture(stdout, ThumbnailPrefix, ThumbnailExts, WithExt, 0)
  }

  datatype Names = Names(filename: string, thumbnail: Option<string>)

  /**
   * server.js:68-88. The converted mp3 named by yt-dlp takes priority; else
   * the downloaded file's name with `.mp3`; else `file.mp3`. The thumbnail
   * is named only when a converted jpg was reported.
   */
  function ExtractNames(stdout: string): (r: Names)
    ensures AudioPath(stdout).Some? ==> r.filename == Basename(AudioPath(stdout).value)
    ensures AudioPath(stdout).None? && DownloadBase(stdout).Some? ==>
      r.filename == Basename(DownloadBase(stdout).value) + ".mp3"
    ensures AudioPath(stdout).None? && DownloadBase(stdout).None? ==> r.filename == DefaultFilename
    ensures r.thumbnail.Some? <==> ThumbnailPath(stdout).Some?
    ensures r.thumbnail.Some? ==> r.thumbnail.value == Basename(ThumbnailPath(stdout).value)
  {
    var filename :=
      match AudioPath(stdout)
      case Some(p) => Basename(p)
      case None =>
        match DownloadBase(stdout)
        case Some(b) => Basename(b) + ".mp3"
        case None => DefaultFilename;
    var thumbnail :=
      match ThumbnailPath(stdout)
      case Some(p) => Some(Basename(p))
      case None => None;
    Names(filename, thumbnail)
  }

  // ---------------------------------------------------------- the route

  datatype Message = InvalidUrl | DownloadFailed | DownloadFailedHint | Downloaded | ServerError

  function MessageText(m: Message): string
  {
    match m
    case InvalidUrl => "URL YouTube tidak valid"
    case DownloadFailed => "Gagal mendownload"
    case DownloadFailedHint => "Gagal mendownload. Pastikan URL valid dan yt-dlp terinstall."
    case Downloaded => "Download berhasil!"
    case ServerError => "Terjadi kesalahan server"
  }

  /** The Socket.IO events the route emits. */
  datatype Event =
    | DownloadStart(url: string)
    | DownloadError(message: Message)
    | DownloadComplete(names: Names)

  datatype Reply = Rejected(status: nat, message: Message) | Success(message: Message, names: Names)

  /** What the route answers and emits; `run` is yt-dlp's error or its standard output. */
  datatype Outcome = Outcome(reply: Reply, events: seq<Event>)

  /**
   * Whether `exec` throws before starting the shell: Node refuses a command
   * holding a NUL character with `ERR_INVALID_ARG_VALUE`, synchronously. The
   * URL is the only part of the command the request controls.
   */
  predicate ExecThrows(url: string)
  {
    '\0' in url
  }

  /**
   * server.js:36-112. `url` is `None` when the body has none. An empty URL
   * or one not starting with `http` is refused before anything runs. After
   * the start event, an `exec` that throws lands in the `catch`, which
   * answers 500 with the server-error message; otherwise `run` is yt-dlp's
   * error or its standard output.
   */
  function DownloadByLink(url: Option<string>, run: Result<string>): (o: Outcome)
    ensures url.None? || !StartsWith(url.value, "http") ==> o == Outcome(Rejected(400, InvalidUrl), [])
    ensures url.Some? && StartsWith(url.value, "http") ==> |o.events| == 2 && o.events[0] == DownloadStart(url.value)
    ensures url.Some? && StartsWith(url.value, "http") && ExecThrows(url.value) ==>
      o.reply == Rejected(500, ServerError) && o.events[1] == DownloadError(ServerError)
    ensures o.reply.Success? <==> url.Some? && StartsWith(url.value, "http") && !ExecThrows(url.value) && run.Ok?
    ensures o.reply.Success? ==> o.reply.names == ExtractNames(run.value) && o.events[1] == DownloadComplete(o.reply.names)
    ensures o.reply == Rejected(500, DownloadFailed) <==>
      url.Some? && StartsWith(url.value, "http") && !ExecThrows(url.value) && run.Err?
    ensures o.reply == Rejected(500, DownloadFailed) ==> o.events[1] == DownloadError(DownloadFailedHint)
  {
    if url.None? || !StartsWith(url.value, "http") then Outcome(Rejected(400, InvalidUrl), [])
    else
      var start := DownloadStart(url.value);
      if ExecThrows(url.value) then Outcome(Rejected(500, ServerError), [start, DownloadError(ServerError)])
      else
        match run
        case Err(_) => Outcome(Rejected(500, DownloadFailed), [start, DownloadError(DownloadFailedHint)])
        case Ok(stdout) =>
          var names := ExtractNames(stdout);
          Outcome(Success(Downloaded, names), [start, DownloadComplete(names)])
  }

  // -------------------------------------------------------------- lemmas

  /** With none of the three lines, the file is `file.mp3` and there is no thumbnail. */
  lemma NoDestinationDefaults(stdout: string)
    requires AudioPath(stdout).None? && DownloadBase(stdout).None? && ThumbnailPath(stdout).None?
    ensures ExtractNames(stdout) == Names(DefaultFilename, None)
  {
  }

  /** An extension: a dot, then no other dot. */
  predicate IsExt(e: string)
  {
    e != [] && e[0] == '.' && OneLine(e) && forall i :: 1 <= i < |e| ==> e[i] != '.'
  }

  lemma OneLineConcat(a: string, b: string)
    requires OneLine(a) && OneLine(b)
    ensures OneLine(a + b)
  {
    forall i | 0 <= i < |a + b| ensures !IsLineEnd((a + b)[i]) {
      if i >= |a| { assert (a + b)[i] == b[i - |a|]; }
    }
  }

  /** The line after the prefix is the path and its extension. */
  lemma LineAfterPrefix(prefix: string, body: string, rest: string)
    requires OneLine(body)
    ensures LineFrom(prefix + body + "\n" + rest, |prefix|) == body
  {
    var s := prefix + body + "\n" + rest;
    assert s[|prefix|..|prefix| + |body|] == body;
    assert s[|prefix| + |body|] == '\n';
    LineOf(s, |prefix|, body);
  }

  /** An extension at the end of the line is the last one the greedy `.+` can reach. */
  lemma LastExtAtEnd(path: string, ext: string, exts: seq<string>)
    requires ext in exts && forall e :: e in exts ==> IsExt(e)
    requires path != []
    ensures LastExt(path + ext, exts, |path + ext|) == Some(|path|)
  {
    var line := path + ext;
    assert MatchesAt(line, ext, |path|) by { assert line[|path|..|path| + |ext|] == ext; }
    assert AnyAt(line, exts, |path|);
    assert IsExt(ext);
    forall k | |path| < k <= |line| ensures !AnyAt(line, exts, k) {
      forall e | e in exts ensures !MatchesAt(line, e, k) {
        assert IsExt(e);
        if k + |e| <= |line| {
          assert line[k] == ext[k - |path|];
          assert line[k..k + |e|][0] == line[k];
        }
      }
    }
  }

  /**
   * The line a tool prints for a destination is read back: the path after
   * the prefix, up to its extension, when the line starts the output and
   * the path stays on that line.
   */
  lemma CaptureFirstLine(prefix: string, path: string, ext: string, exts: seq<string>, rest: string, group: Group)
    requires ext in exts && forall e :: e in exts ==> IsExt(e)
    requires group == WithExt ==> exts == [ext]
    requires path != [] && OneLine(path)
    ensures var s := prefix + path + ext + "\n" + rest;
      CaptureAt(s, prefix, exts, group, 0) == Some(if group == WithExt then path + ext else path)
  {
    var s := prefix + path + ext + "\n" + rest;
    var line := path + ext;
    assert MatchesAt(s, prefix, 0) by { assert s[..|prefix|] == prefix; }
    assert LineFrom(s, |prefix|) == line by {
      assert IsExt(ext);
      OneLineConcat(path, ext);
      assert s == prefix + line + "\n" + rest;
      LineAfterPrefix(prefix, line, rest);
    }
    assert LastExt(line, exts, |line|) == Some(|path|) by {
      LastExtAtEnd(path, ext, exts);
    }
    assert line[..|path|] == path;
    if group == WithExt {
      assert ExtAt(line, exts, |path|) == ext;
      assert line[..|path| + |ext|] == line;
    }
  }

  /** What `.` sees from `|pre| + k` on does not depend on `pre`. */
  lemma {:induction false} LineFromShift(pre: string, t: string, k: nat)
    requires k <= |t|
    ensures LineFrom(pre + t, |pre| + k) == LineFrom(t, k)
    decreases |t| - k
  {
    if k < |t| {
      assert (pre + t)[|pre| + k] == t[k];
      LineFromShift(pre, t, k + 1);
    }
  }

  /** The expression at the start of `t` captures the same after any text `pre`. */
  lemma CaptureShift(pre: string, t: string, prefix: string, exts: seq<string>, group: Group)
    ensures CaptureAt(pre + t, prefix, exts, group, |pre|) == CaptureAt(t, prefix, exts, group, 0)
  {
    if |prefix| <= |t| {
      assert (pre + t)[|pre|..|pre| + |prefix|] == t[..|prefix|];
      LineFromShift(pre, t, |prefix|);
    }
  }

  /** `pre` is whole lines (empty, or ending in a line break) in which `prefix` does not occur. */
  predicate EarlierLines(pre: string, prefix: string)
  {
    && (pre == [] || IsLineEnd(pre[|pre| - 1]))
    && forall m :: 0 <= m < |pre| ==> !MatchesAt(pre, prefix, m)
  }

  /** Nothing is captured inside earlier lines: a match cannot run across their last line break. */
  lemma NoCaptureInEarlierLines(pre: string, t: string, prefix: string, exts: seq<string>, group: Group)
    requires OneLine(prefix) && EarlierLines(pre, prefix)
    ensures NoCaptureBetween(pre + t, prefix, exts, group, 0, |pre|)
  {
    var s := pre + t;
    forall m | 0 <= m < |pre| ensures !MatchesAt(s, prefix, m) {
      if m + |prefix| <= |pre| {
        assert s[m..m + |prefix|] == pre[m..m + |prefix|];
        assert !MatchesAt(pre, prefix, m);
      } else if m + |prefix| <= |s| {
        var i := |pre| - 1 - m;
        assert s[m..m + |prefix|][i] == pre[|pre| - 1];
        assert s[m..m + |prefix|][i] != prefix[i];
      }
    }
  }

  /** A capture at `j` with none before it is the leftmost one. */
  lemma LeftmostAt(s: string, prefix: string, exts: seq<string>, group: Group, j: nat)
    requires j <= |s| && CaptureAt(s, prefix, exts, group, j).Some?
    requires NoCaptureBetween(s, prefix, exts, group, 0, j)
    ensures FirstCapture(s, prefix, exts, group, 0) == CaptureAt(s, prefix, exts, group, j)
  {
    var r := FirstCapture(s, prefix, exts, group, 0);
    var m :| 0 <= m <= |s| && CaptureAt(s, prefix, exts, group, m) == r && NoCaptureBetween(s, prefix, exts, group, 0, m);
    assert !(m < j) && !(j < m);
  }

  /**
   * The line a tool prints for a destination is read back from the whole
   * output when no earlier line holds the prefix: it is where the leftmost
   * match is.
   */
  lemma LineCaptured(pre: string, prefix: string, path: string, ext: string, exts: seq<string>, rest: string, group: Group)
    requires ext in exts && forall e :: e in exts ==> IsExt(e)
    requires group == WithExt ==> exts == [ext]
    requires path != [] && OneLine(path)
    requires OneLine(prefix) && EarlierLines(pre, prefix)
    ensures var s := pre + (prefix + path + ext + "\n" + rest);
      FirstCapture(s, prefix, exts, group, 0) == Some(if group == WithExt then path + ext else path)
  {
    var t := prefix + path + ext + "\n" + rest;
    var s := pre + t;
    CaptureFirstLine(prefix, path, ext, exts, rest, group);
    CaptureShift(pre, t, prefix, exts, group);
    NoCaptureInEarlierLines(pre, t, prefix, exts, group);
    LeftmostAt(s, prefix, exts, group, |pre|);
  }

  lemma {:induction false} LineOf(s: string, k: nat, line: string)
    requires k + |line| < |s| && s[k..k + |line|] == line && OneLine(line) && IsLineEnd(s[k + |line|])
    ensures LineFrom(s, k) == line
    decreases |line|
  {
    if line != [] {
      assert s[k] == line[0];
      assert s[k + 1..k + 1 + |line[1..]|] == line[1..];
      LineOf(s, k + 1, line[1..]);
    }
  }

  lemma PrefixesOneLine()
    ensures OneLine(ExtractPrefix) && OneLine(DownloadPrefix) && OneLine(ThumbnailPrefix)
  {
  }

  /**
   * yt-dlp's `[ExtractAudio] Destination: <path>.mp3` line is what the
   * expression at server.js:72 captures, whatever follows it and whatever
   * lines without that prefix come before it.
   */
  lemma ExtractAudioLine(pre: string, path: string, rest: string)
    requires path != [] && OneLine(path) && EarlierLines(pre, ExtractPrefix)
    ensures AudioPath(pre + (ExtractPrefix + path + ".mp3" + "\n" + rest)) == Some(path + ".mp3")
  {
    PrefixesOneLine();
    LineCaptured(pre, ExtractPrefix, path, ".mp3", AudioExts, rest, WithExt);
  }

  /** The same for `[download] Destination: <path>.webm`: the path without the extension. */
  lemma DownloadLine(pre: string, path: string, rest: string)
    requires path != [] && OneLine(path) && EarlierLines(pre, DownloadPrefix)
    ensures DownloadBase(pre + (DownloadPrefix + path + ".webm" + "\n" + rest)) == Some(path)
  {
    PrefixesOneLine();
    LineCaptured(pre, DownloadPrefix, path, ".webm", DownloadExts, rest, WithoutExt);
  }

  /** The same for `[ThumbnailsConvertor] Destination: <path>.jpg`. */
  lemma ThumbnailLine(pre: string, path: string, rest: string)
    requires path != [] && OneLine(path) && EarlierLines(pre, ThumbnailPrefix)
    ensures ThumbnailPath(pre + (ThumbnailPrefix + path + ".jpg" + "\n" + rest)) == Some(path + ".jpg")
  {
    PrefixesOneLine();
    LineCaptured(pre, ThumbnailPrefix, path, ".jpg", ThumbnailExts, rest, WithExt);
  }

  /** A converted mp3 at `<dir>/<file>` gives the file name `<file>`. */
  lemma AudioFileName(stdout: string, dir: string, file: string)
    requires file != [] && '/' !in file
    requires AudioPath(stdout) == Some(dir + "/" + file)
    ensures ExtractNames(stdout).filename == file
  {
    BasenameOfJoin(dir, file);
  }

  /** Without one, a download at `<dir>/<name>.webm` gives the file name `<name>.mp3`. */
  lemma DownloadFileName(stdout: string, dir: string, name: string)
    requires name != [] && '/' !in name
    requires AudioPath(stdout).None? && DownloadBase(stdout) == Some(dir + "/" + name)
    ensures ExtractNames(stdout).filename == name + ".mp3"
  {
    BasenameOfJoin(dir, name);
  }

  /** A converted thumbnail at `<dir>/<file>` is named `<file>`. */
  lemma ThumbnailFileName(stdout: string, dir: string, file: string)
    requires file != [] && '/' !in file
    requires ThumbnailPath(stdout) == Some(dir + "/" + file)
    ensures ExtractNames(stdout).thumbnail == Some(file)
  {
    BasenameOfJoin(dir, file);
  }

  /**
   * A URL with a NUL character passes the `http` check but never reaches
   * yt-dlp: `exec` throws, so the reply is the `catch`'s, whatever yt-dlp
   * would have done.
   */
  lemma NulUrlServerError(url: string, a: Result<string>, b: Result<string>)
    requires StartsWith(url, "http") && ExecThrows(url)
    ensures DownloadByLink(Some(url), a) == DownloadByLink(Some(url), b)
    ensures DownloadByLink(Some(url), a).reply == Rejected(500, ServerError)
  {
  }

  /** `http://a` followed by a NUL character is such a URL. */
  lemma NulUrlExample(run: Result<string>)
    ensures DownloadByLink(Some("http://a\0"), run) == Outcome(Rejected(500, ServerError), [DownloadStart("http://a\0"), DownloadError(ServerError)])
  {
    assert "http://a\0"[8] == '\0';
    assert "http://a\0"[..4] == "http";
  }

  /** A refused URL never reaches yt-dlp: the reply is 400 whatever yt-dlp would have done. */
  lemma RefusedUrlIgnoresRun(url: Option<string>, a: Result<string>, b: Result<string>)
    requires url.None? || !StartsWith(url.value, "http")
    ensures DownloadByLink(url, a) == DownloadByLink(url, b)
  {
  }
}
