/**
 * The download slot of youtube-video-api.js: its own module-level
 * `isDownloading` flag, set by `/download-youtube-video` and read by
 * `/download-status`. This route keeps no process handle.
 *
 * As in universal-api.js the async handler is split at its `await`s into
 * admission (`Submit`), the metadata call (`FetchInfo`) and the end of the
 * download (`Finish`); yt-dlp's results are parameters.
 */
module YouTubeApi {
  import opened Text
  import opened Metadata
  import UniversalApi

  const InvalidUrlMessage: string := "URL YouTube tidak valid"
  const BusyMessage: string := "Sedang ada download yang berjalan. Tunggu sampai selesai."
  const NoYtDlpMessage: string := "yt-dlp tidak terinstall. Install dengan: pip install yt-dlp"
  const FailurePrefix: string := "Download gagal: "
  const FolderPrefix: string := "YouTube_Videos"
  const BestLabel: string := "Terbaik (Auto)"
  const BestFormat: string := "-f \"bestvideo[ext=mp4]+bestaudio[ext=m4a]/best[ext=mp4]/best\""

  datatype Reply =
    | Failure(status: nat, message: string)
    | Started(title: string, folder: string, quality: string)

  datatype Event =
    | VideoStart(url: string)
    | Progress(title: string, progress: nat)
    | Complete(title: string, folder: string, videoPath: string)
    | DownloadError(message: string)

  /** The locals of a handler whose download is running. */
  datatype Job = Job(url: string, quality: Option<string>, info: VideoInfo, folderName: string)

  datatype State = State(busy: bool, events: seq<Event>, infoFiles: map<string, string>)

  const Initial: State := State(false, [], map[])

  /** `!url || (!url.includes('youtube.com') && !url.includes('youtu.be'))` */
  predicate IsYouTubeUrl(url: Option<string>)
  {
    url.Some? && url.value != [] && (Contains(url.value, "youtube.com") || Contains(url.value, "youtu.be"))
  }

  /** `${quality}`: an absent quality is written `undefined`. */
  function QualityText(quality: Option<string>): string
  {
    if quality.Some? then quality.value else "undefined"
  }

  /** The `-f` option of youtube-video-api.js:84-89. */
  function FormatOption(quality: Option<string>): string
  {
    if quality == Some("best") then BestFormat
    else
      var q := QualityText(quality);
      "-f \"bestvideo[height<=" + q + "][ext=mp4]+bestaudio[ext=m4a]/best[height<=" + q + "][ext=mp4]/best\""
  }

  /** The quality label of the reply (line 109) and of info.txt (line 142). */
  function QualityLabel(quality: Option<string>): string
  {
    if quality == Some("best") then BestLabel else QualityText(quality) + "p"
  }

  function FolderOf(name: string): string { FolderPrefix + "/" + name }

  // --------------------------------------------- the handler, as transitions

  datatype Admission = Admission(state: State, reply: Option<Reply>)

  /** youtube-video-api.js:38-68. `None` means admitted. */
  function SubmitStep(s: State, url: Option<string>, ytDlpInstalled: bool): Admission
  {
    if !IsYouTubeUrl(url) then Admission(s, Some(Failure(400, InvalidUrlMessage)))
    else if s.busy then Admission(s, Some(Failure(409, BusyMessage)))
    else if !ytDlpInstalled then Admission(s, Some(Failure(500, NoYtDlpMessage)))
    else Admission(s.(busy := true, events := s.events + [VideoStart(url.value)]), None)
  }

  /** The `catch` at youtube-video-api.js:163-172. */
  function CatchStep(s: State, message: string): State
  {
    s.(busy := false, events := s.events + [DownloadError(FailurePrefix + message)])
  }

  datatype Fetched = Fetched(state: State, reply: Option<Reply>, job: Option<Job>)

  /** youtube-video-api.js:71-110: read the metadata and reply. A failed call leaves the request unanswered. */
  function FetchStep(s: State, url: string, quality: Option<string>, info: Result<string>): Fetched
  {
    match info
    case Err(m) => Fetched(CatchStep(s, m), None, None)
    case Ok(out) =>
      var vi := ParseInfo(out);
      var name := FolderTitle(vi.title, YouTubeFallbackTitle);
      Fetched(s, Some(Started(vi.title, FolderOf(name), QualityLabel(quality))), Some(Job(url, quality, vi, name)))
  }

  /**
   * youtube-video-api.js:127-172 after the download. On success: 100%
   * progress, info.txt (a write error is caught and ignored), the flag
   * cleared, the completion. On failure the `catch`.
   */
  function FinishStep(s: State, job: Job, download: Result<string>, infoWritten: bool, downloaded: string): State
  {
    if download.Err? then CatchStep(s, download.error)
    else
      var folder := FolderOf(job.folderName);
      var text := InfoText(YouTubeInfoLines(job.info, QualityLabel(job.quality), job.url, downloaded));
      s.(busy := false,
         events := s.events + [Progress(job.info.title, 100),
                               Complete(job.info.title, folder, "/video/" + job.folderName)],
         infoFiles := if infoWritten then s.infoFiles[folder := text] else s.infoFiles)
  }

  // ------------------------------------------------------------ the module

  class YouTubeDownloads {
    var isDownloading: bool
    var events: seq<Event>
    var infoFiles: map<string, string>

    function Snapshot(): State
      reads this
    {
      State(isDownloading, events, infoFiles)
    }

    constructor ()
      ensures Snapshot() == Initial
    {
      isDownloading := false;
      events := [];
      infoFiles := map[];
    }

    method Submit(url: Option<string>, ytDlpInstalled: bool) returns (reply: Option<Reply>)
      modifies this
      ensures Snapshot() == SubmitStep(old(Snapshot()), url, ytDlpInstalled).state
      ensures reply == SubmitStep(old(Snapshot()), url, ytDlpInstalled).reply
    {
      if url.None? || url.value == [] || (!Contains(url.value, "youtube.com") && !Contains(url.value, "youtu.be")) {
        return Some(Failure(400, InvalidUrlMessage));
      }
      if isDownloading {
        return Some(Failure(409, BusyMessage));
      }
      if !ytDlpInstalled {
        return Some(Failure(500, NoYtDlpMessage));
      }
      isDownloading := true;
      events := events + [VideoStart(url.value)];
      reply := None;
    }

    method Catch(message: string)
      modifies this
      ensures Snapshot() == CatchStep(old(Snapshot()), message)
    {
      isDownloading := false;
      events := events + [DownloadError(FailurePrefix + message)];
    }

    method FetchInfo(url: string, quality: Option<string>, info: Result<string>)
      returns (reply: Option<Reply>, job: Option<Job>)
      modifies this
      ensures var f := FetchStep(old(Snapshot()), url, quality, info);
        Snapshot() == f.state && reply == f.reply && job == f.job
    {
      if info.Err? {
        Catch(info.error);
        return None, None;
      }
      var vi := ParseInfo(info.value);
      var name := FolderTitle(vi.title, YouTubeFallbackTitle);
      reply := Some(Started(vi.title, FolderOf(name), QualityLabel(quality)));
      job := Some(Job(url, quality, vi, name));
    }

    method Finish(job: Job, download: Result<string>, infoWritten: bool, downloaded: string)
      modifies this
      ensures Snapshot() == FinishStep(old(Snapshot()), job, download, infoWritten, downloaded)
    {
      if download.Err? {
        Catch(download.error);
        return;
      }
      var folder := FolderOf(job.folderName);
      events := events + [Progress(job.info.title, 100)];
      if infoWritten {
        infoFiles := infoFiles[folder := InfoText(YouTubeInfoLines(job.info, QualityLabel(job.quality), job.url, downloaded))];
      }
      isDownloading := false;
      events := events + [Complete(job.info.title, folder, "/video/" + job.folderName)];
    }

    /** `/download-status` */
    method Status() returns (downloading: bool)
      ensures downloading == Snapshot().busy
    {
      downloading := isDownloading;
    }
  }

  // ------------------------------------------------------------ lemmas

  /**
   * A missing URL, or one naming neither youtube.com nor youtu.be, gets 400
   * and one made while busy gets 409; rejections change nothing, and only
   * an admitted request sets the flag and announces the start.
   */
  lemma AdmissionRules(s: State, url: Option<string>, ytDlpInstalled: bool)
    ensures var a := SubmitStep(s, url, ytDlpInstalled);
      && (!IsYouTubeUrl(url) ==> a.reply == Some(Failure(400, InvalidUrlMessage)))
      && (IsYouTubeUrl(url) && s.busy ==> a.reply == Some(Failure(409, BusyMessage)))
      && (a.reply.Some? ==> a.state == s)
      && (a.reply.None? <==> IsYouTubeUrl(url) && !s.busy && ytDlpInstalled)
      && (a.reply.None? ==> a.state.busy && a.state.events == s.events + [VideoStart(url.value)])
  {
  }

  /** An example of the 400 reply: a URL whose text lacks any `y` is never a YouTube URL. */
  lemma NonYouTubeRejected(s: State, url: string, ytDlpInstalled: bool)
    requires 'y' !in url
    ensures SubmitStep(s, Some(url), ytDlpInstalled) == Admission(s, Some(Failure(400, InvalidUrlMessage)))
  {
    NotContainsFirstChar(url, "youtube.com");
    NotContainsFirstChar(url, "youtu.be");
  }

  /** Every path out of an admitted request clears the flag: a failed metadata call, a failed or a finished download. */
  lemma EveryOutcomeClears(s: State, url: string, quality: Option<string>, info: Result<string>,
                           download: Result<string>, infoWritten: bool, downloaded: string)
    ensures var f := FetchStep(s, url, quality, info);
      && (info.Err? ==> !f.state.busy && f.reply.None? && f.job.None?)
      && (info.Ok? ==>
            f.state == s && f.job.Some? && !FinishStep(f.state, f.job.value, download, infoWritten, downloaded).busy)
  {
  }

  /** A download that was admitted and ran to either end leaves `/download-status` false again. */
  lemma StatusCycle(url: string, quality: Option<string>, out: string, download: Result<string>, downloaded: string)
    requires IsYouTubeUrl(Some(url))
    ensures var a := SubmitStep(Initial, Some(url), true);
      && a.reply.None? && a.state.busy
      && var f := FetchStep(a.state, url, quality, Ok(out));
      && f.state.busy && f.job.Some?
      && !FinishStep(f.state, f.job.value, download, true, downloaded).busy
  {
  }

  /** The label is the auto label exactly for `best`, and otherwise the quality followed by `p`. */
  lemma QualityLabelBest(quality: Option<string>)
    ensures QualityLabel(quality) == BestLabel <==> quality == Some("best")
    ensures quality != Some("best") ==> EndsWith(QualityLabel(quality), "p")
  {
    if quality != Some("best") {
      var l := QualityLabel(quality);
      assert l[|l| - 1] == 'p';
      assert BestLabel[|BestLabel| - 1] == ')';
    }
  }

  /** The three alternatives of a height-limited format. */
  function Alternatives(q: string): seq<string>
  {
    ["-f \"bestvideo[height<=" + q + "][ext=mp4]+bestaudio[ext=m4a]",
     "best[height<=" + q + "][ext=mp4]",
     "best\""]
  }

  lemma AlternativesJoin(q: string)
    ensures Join(Alternatives(q), "/") ==
      "-f \"bestvideo[height<=" + q + "][ext=mp4]+bestaudio[ext=m4a]/best[height<=" + q + "][ext=mp4]/best\""
  {
    var parts := Alternatives(q);
    assert parts[1..][1..] == [parts[2]];
    assert Join(parts[1..], "/") == parts[1] + "/" + parts[2];
  }

  lemma AlternativesNoSlash(q: string)
    requires '/' !in q
    ensures forall p :: p in Alternatives(q) ==> '/' !in p
  {
    var parts := Alternatives(q);
    assert '/' !in parts[0] by {
      AllConcat("-f \"bestvideo[height<=" + q, "][ext=mp4]+bestaudio[ext=m4a]", c => c != '/');
      AllConcat("-f \"bestvideo[height<=", q, c => c != '/');
    }
    assert '/' !in parts[1] by {
      AllConcat("best[height<=" + q, "][ext=mp4]", c => c != '/');
      AllConcat("best[height<=", q, c => c != '/');
    }
  }

  /**
   * `best` selects the fixed format; any other quality is spliced into the
   * first two of the three `/`-separated alternatives as a height limit.
   */
  lemma FormatAlternatives(quality: Option<string>)
    requires quality.Some? ==> '/' !in quality.value
    ensures quality == Some("best") ==> FormatOption(quality) == BestFormat
    ensures quality != Some("best") ==> Split(FormatOption(quality), "/") == Alternatives(QualityText(quality))
  {
    if quality != Some("best") {
      var q := QualityText(quality);
      assert '/' !in q;
      AlternativesJoin(q);
      AlternativesNoSlash(q);
      SplitJoin(Alternatives(q), "/");
    }
  }

  /**
   * The reply and the completion name the same folder, `YouTube_Videos/`
   * followed by the sanitised title (`YouTube_Video` when the title is
   * empty), and the completion's video path names that folder's stem,
   * which `/video/:videoName` resolves to the same folder. The quality in
   * the reply is the one written to info.txt.
   */
  lemma FolderAgreement(s: State, url: string, quality: Option<string>, out: string, downloaded: string)
    ensures var f := FetchStep(s, url, quality, Ok(out));
      && f.reply.Some? && f.job.Some?
      && var t := FinishStep(f.state, f.job.value, Ok(""), true, downloaded);
      && var done := t.events[|t.events| - 1];
      && done.Complete?
      && done.folder == f.reply.value.folder
      && done.videoPath == "/video/" + f.job.value.folderName
      && f.reply.value.folder == FolderPrefix + "/" + f.job.value.folderName
      && (ParseInfo(out).title == [] ==> f.job.value.folderName == YouTubeFallbackTitle)
      && done.folder in t.infoFiles
      && YouTubeInfoLines(f.job.value.info, f.reply.value.quality, url, downloaded)[3]
           == "Kualitas: " + QualityLabel(quality)
  {
    if ParseInfo(out).title == [] { YouTubeFallbackIsPlain(); }
  }

  /**
   * The two modules keep separate flags: a YouTube download in progress
   * does not stop a universal download from being admitted, and the other
   * way round.
   */
  lemma SlotsIndependent(ytUrl: string, url: string)
    requires IsYouTubeUrl(Some(ytUrl)) && url != []
    ensures var y := SubmitStep(Initial, Some(ytUrl), true);
      && y.reply.None? && y.state.busy
      && UniversalApi.SubmitStep(UniversalApi.Initial, Some(url), true).reply.None?
    ensures var u := UniversalApi.SubmitStep(UniversalApi.Initial, Some(url), true);
      && u.reply.None? && u.state.busy
      && SubmitStep(Initial, Some(ytUrl), true).reply.None?
  {
  }
}
