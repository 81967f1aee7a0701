/**
 * The download slot of universal-api.js: the module-level `isDownloading`
 * flag and `currentDownloadProcess` handle, changed by the
 * `/universal-download` handler and by `/cancel-download`.
 *
 * The handler is an async function; each `await` splits it into the phases
 * modelled here as separate calls: admission (`Submit`), the metadata call
 * and the start of yt-dlp (`FetchInfo`), and the end of the yt-dlp process
 * (`DownloadClosed`). Other requests may run between phases, never inside
 * one. yt-dlp's results are parameters: whether it is installed, what
 * `--print` wrote or the error it raised, the process id, and how the
 * process ended. Socket.IO emissions are appended to `events`.
 */
module UniversalApi {
  import opened Text
  import opened Sanitize
  import opened Metadata

  type Pid = nat

  const InvalidUrlMessage: string := "URL tidak valid"
  const BusyMessage: string := "Sedang ada download yang berjalan. Tunggu sampai selesai."
  const NoYtDlpMessage: string := "yt-dlp tidak terinstall. Install dengan: pip install yt-dlp"
  const CancelledMessage: string := "Download dibatalkan"
  const NothingRunningMessage: string := "Tidak ada download yang berjalan"
  const FolderPrefix: string := "Universal_Downloads"
  /** Node's message when `exec` is handed `undefined` as the command. */
  const BadCommandMessage: string := "The \"command\" argument must be of type string. Received undefined"

  /** The HTTP reply of `/universal-download`. */
  datatype Reply =
    | Failure(status: nat, message: string)
    | Started(title: string, platform: string, folder: string)

  /** The reply of `/cancel-download`. */
  datatype CancelReply = CancelReply(success: bool, message: string)

  /** The player path of a downloaded video (universal-api.js:180); `encodeURIComponent` is not applied. */
  function PlayerPath(folderName: string): string
  {
    "/api/universal-video/" + folderName
  }

  /** What the handlers emit on Socket.IO. */
  datatype Event =
    | Progress(title: string, progress: nat, platform: string)
    | Complete(title: string, platform: string, folder: string, videoPath: Option<string>)
    | DownloadError(message: string)
    | Cancelled(message: string)

  /** How the yt-dlp process ended: `close` with an exit code (`null` when killed), or `error`. */
  datatype Exit = Closed(code: Option<int>) | SpawnError(message: string)

  /** The download command for a platform (universal-api.js:87-98); the command text is not modelled. */
  datatype Command = YouTubeMp4(url: string) | TikTokVideo(url: string)

  /** The locals of a handler whose yt-dlp process is running. */
  datatype Job = Job(url: string, info: VideoInfo, platform: string, folderName: string)

  /** The module state: the slot, the handle, and what has been emitted, killed and written. */
  datatype State = State(
    busy: bool,
    process: Option<Pid>,
    events: seq<Event>,
    killed: seq<Pid>,
    infoFiles: map<string, string>)

  const Initial: State := State(false, None, [], [], map[])

  /** `!url` is false: the body field is a non-empty string. */
  predicate Truthy(v: Option<string>) { v.Some? && v.value != [] }

  function DownloadCommand(platform: string, url: string): (r: Option<Command>)
    ensures r.Some? <==> platform == "youtube" || platform == "tiktok"
  {
    if platform == "youtube" then Some(YouTubeMp4(url))
    else if platform == "tiktok" then Some(TikTokVideo(url))
    else None
  }

  function FolderOf(name: string): string { FolderPrefix + "/" + name }

  /** The text of `new Error(`Download failed with code ${code}`)`, or the spawn error. */
  function ExitMessage(e: Exit): string
  {
    match e
    case Closed(code) => "Download failed with code " + (if code.None? then "null" else IntText(code.value))
    case SpawnError(m) => m
  }

  // --------------------------------------------- the handler, as transitions

  datatype Admission = Admission(state: State, reply: Option<Reply>)

  /** universal-api.js:36-65. `None` means admitted; the reply comes later. */
  function SubmitStep(s: State, url: Option<string>, ytDlpInstalled: bool): Admission
  {
    if !Truthy(url) then Admission(s, Some(Failure(400, InvalidUrlMessage)))
    else if s.busy then Admission(s, Some(Failure(409, BusyMessage)))
    else if !ytDlpInstalled then Admission(s, Some(Failure(500, NoYtDlpMessage)))
    else Admission(s.(busy := true), None)
  }

  /**
   * The `catch` at universal-api.js:195-205. It first writes
   * `platform.toUpperCase()` to the console, which throws again when the
   * platform is missing, so nothing after it runs.
   */
  function CatchStep(s: State, platform: Option<string>, message: string): State
  {
    if platform.None? then s
    else s.(busy := false, process := None,
            events := s.events + [DownloadError("Gagal download " + platform.value + ": " + message)])
  }

  datatype Fetched = Fetched(state: State, reply: Option<Reply>, job: Option<Job>)

  /**
   * universal-api.js:67-127: read the metadata, reply, and start yt-dlp.
   * A missing platform throws at line 100 before the reply; an unknown one
   * leaves `downloadCmd` undefined, so `exec` throws after the reply.
   */
  function FetchStep(s: State, url: string, platform: Option<string>, info: Result<string>, pid: Pid): Fetched
  {
    match info
    case Err(m) => Fetched(CatchStep(s, platform, m), None, None)
    case Ok(out) =>
      if platform.None? then Fetched(s, None, None)
      else
        var p := platform.value;
        var vi := ParseInfo(out);
        var name := FolderTitle(vi.title, UniversalFallbackTitle);
        var reply := Started(vi.title, ToUpper(p), FolderOf(name));
        if DownloadCommand(p, url).None? then Fetched(CatchStep(s, platform, BadCommandMessage), Some(reply), None)
        else Fetched(s.(process := Some(pid)), Some(reply), Some(Job(url, vi, p, name)))
  }

  /**
   * universal-api.js:128-205 after the process ends. Exit code 0 emits 100%
   * progress, writes info.txt (a write error is caught and ignored, so
   * `infoWritten` says whether it landed), clears the flag and emits the completion,
   * naming the video only when the folder holds an mp4; the handle is left
   * as it is. Anything else goes to the `catch`.
   */
  function CloseStep(s: State, job: Job, exit: Exit, mp4Found: bool, infoWritten: bool, downloaded: string): State
  {
    if exit == Closed(Some(0)) then
      var platform := ToUpper(job.platform);
      var folder := FolderOf(job.folderName);
      var text := InfoText(UniversalInfoLines(job.info, platform, job.url, downloaded));
      s.(busy := false,
         events := s.events + [Progress(job.info.title, 100, platform),
                               Complete(job.info.title, platform, folder, if mp4Found then Some(PlayerPath(job.folderName)) else None)],
         infoFiles := if infoWritten then s.infoFiles[folder := text] else s.infoFiles)
    else CatchStep(s, Some(job.platform), ExitMessage(exit))
  }

  datatype Cancellation = Cancellation(state: State, reply: CancelReply)

  /** universal-api.js:209-224 */
  function CancelStep(s: State): Cancellation
  {
    if s.process.Some? then
      Cancellation(s.(process := None, busy := false, killed := s.killed + [s.process.value],
                      events := s.events + [Cancelled(CancelledMessage)]),
                   CancelReply(true, CancelledMessage))
    else Cancellation(s, CancelReply(false, NothingRunningMessage))
  }

  // ------------------------------------------------------------ the module

  class UniversalDownloads {
    var isDownloading: bool
    var currentDownloadProcess: Option<Pid>
    var events: seq<Event>
    var killed: seq<Pid>
    var infoFiles: map<string, string>

    function Snapshot(): State
      reads this
    {
      State(isDownloading, currentDownloadProcess, events, killed, infoFiles)
    }

    constructor ()
      ensures Snapshot() == Initial
    {
      isDownloading := false;
      currentDownloadProcess := None;
      events := [];
      killed := [];
      infoFiles := map[];
    }

    method Submit(url: Option<string>, ytDlpInstalled: bool) returns (reply: Option<Reply>)
      modifies this
      ensures Snapshot() == SubmitStep(old(Snapshot()), url, ytDlpInstalled).state
      ensures reply == SubmitStep(old(Snapshot()), url, ytDlpInstalled).reply
    {
      if url.None? || url.value == [] {
        return Some(Failure(400, InvalidUrlMessage));
      }
      if isDownloading {
        return Some(Failure(409, BusyMessage));
      }
      if !ytDlpInstalled {
        return Some(Failure(500, NoYtDlpMessage));
      }
      isDownloading := true;
      reply := None;
    }

    /** The `catch` block. */
    method Catch(platform: Option<string>, message: string)
      modifies this
      ensures Snapshot() == CatchStep(old(Snapshot()), platform, message)
    {
      if platform.None? {
        return;
      }
      isDownloading := false;
      currentDownloadProcess := None;
      events := events + [DownloadError("Gagal download " + platform.value + ": " + message)];
    }

    method FetchInfo(url: string, platform: Option<string>, info: Result<string>, pid: Pid)
      returns (reply: Option<Reply>, job: Option<Job>)
      modifies this
      ensures var f := FetchStep(old(Snapshot()), url, platform, info, pid);
        Snapshot() == f.state && reply == f.reply && job == f.job
    {
      reply, job := None, None;
      if info.Err? {
        Catch(platform, info.error);
        return;
      }
      if platform.None? {
        return;
      }
      var p := platform.value;
      var vi := ParseInfo(info.value);
      var name := FolderTitle(vi.title, UniversalFallbackTitle);
      var command := DownloadCommand(p, url);
      reply := Some(Started(vi.title, ToUpper(p), FolderOf(name)));
      if command.None? {
        Catch(platform, BadCommandMessage);
        return;
      }
      currentDownloadProcess := Some(pid);
      job := Some(Job(url, vi, p, name));
    }

    method DownloadClosed(job: Job, exit: Exit, mp4Found: bool, infoWritten: bool, downloaded: string)
      modifies this
      ensures Snapshot() == CloseStep(old(Snapshot()), job, exit, mp4Found, infoWritten, downloaded)
    {
      if exit != Closed(Some(0)) {
        Catch(Some(job.platform), ExitMessage(exit));
        return;
      }
      var platform := ToUpper(job.platform);
      var folder := FolderOf(job.folderName);
      events := events + [Progress(job.info.title, 100, platform)];
      if infoWritten {
        infoFiles := infoFiles[folder := InfoText(UniversalInfoLines(job.info, platform, job.url, downloaded))];
      }
      isDownloading := false;
      var videoPath := if mp4Found then Some(PlayerPath(job.folderName)) else None;
      events := events + [Complete(job.info.title, platform, folder, videoPath)];
    }

    method Cancel() returns (reply: CancelReply)
      modifies this
      ensures Snapshot() == CancelStep(old(Snapshot())).state
      ensures reply == CancelStep(old(Snapshot())).reply
    {
      if currentDownloadProcess.Some? {
        killed := killed + [currentDownloadProcess.value];
        currentDownloadProcess := None;
        isDownloading := false;
        events := events + [Cancelled(CancelledMessage)];
        reply := CancelReply(true, CancelledMessage);
      } else {
        reply := CancelReply(false, NothingRunningMessage);
      }
    }
  }

  // ------------------------------------------------------------ lemmas

  /**
   * A request without a URL gets 400 and one made while busy gets 409;
   * no rejection changes the state, and only an admitted request sets the
   * flag, leaving the handle alone.
   */
  lemma AdmissionRules(s: State, url: Option<string>, ytDlpInstalled: bool)
    ensures var a := SubmitStep(s, url, ytDlpInstalled);
      && (!Truthy(url) ==> a.reply == Some(Failure(400, InvalidUrlMessage)))
      && (Truthy(url) && s.busy ==> a.reply == Some(Failure(409, BusyMessage)))
      && (a.reply.Some? ==> a.state == s)
      && (a.reply.None? <==> Truthy(url) && !s.busy && ytDlpInstalled)
      && (a.reply.None? ==> a.state.busy && a.state.process == s.process && !s.busy)
  {
  }

  /** A successful download clears the flag but keeps the handle of the finished process. */
  lemma SuccessKeepsHandle(s: State, url: string, platform: string, out: string, pid: Pid, mp4Found: bool, infoWritten: bool, downloaded: string)
    requires platform == "youtube" || platform == "tiktok"
    ensures var f := FetchStep(s, url, Some(platform), Ok(out), pid);
      && f.job.Some?
      && var t := CloseStep(f.state, f.job.value, Closed(Some(0)), mp4Found, infoWritten, downloaded);
      && !t.busy && t.process == Some(pid)
  {
  }

  /**
   * So `/cancel-download` after a finished download reports success: it
   * "kills" the exited process and emits a cancellation.
   */
  lemma StaleCancelSucceeds(url: string, platform: string, out: string, pid: Pid, mp4Found: bool, infoWritten: bool, downloaded: string)
    requires platform == "youtube" || platform == "tiktok"
    ensures var a := SubmitStep(Initial, Some(url + "x"), true);
      && a.reply.None?
      && var f := FetchStep(a.state, url + "x", Some(platform), Ok(out), pid);
      && f.job.Some?
      && var t := CloseStep(f.state, f.job.value, Closed(Some(0)), mp4Found, infoWritten, downloaded);
      && var c := CancelStep(t);
      && c.reply == CancelReply(true, CancelledMessage)
      && c.state.killed == [pid]
      && c.state.events[|c.state.events| - 1] == Cancelled(CancelledMessage)
  {
    var a := SubmitStep(Initial, Some(url + "x"), true);
    SuccessKeepsHandle(a.state, url + "x", platform, out, pid, mp4Found, infoWritten, downloaded);
  }

  /**
   * Without a platform the handler throws at line 100 and again in the
   * `catch`: the state is left as it was, so a busy slot stays busy.
   */
  lemma MissingPlatformLeavesState(s: State, url: string, info: Result<string>, pid: Pid)
    ensures FetchStep(s, url, None, info, pid).state == s
  {
  }

  /** A stuck slot turns away every later request, and `/cancel-download` cannot free it. */
  lemma StuckSlot(url: Option<string>, info: Result<string>, pid: Pid, later: Option<string>, ytDlpInstalled: bool)
    requires Truthy(url) && Truthy(later)
    ensures var a := SubmitStep(Initial, url, true);
      && a.reply.None?
      && var stuck := FetchStep(a.state, url.value, None, info, pid).state;
      && stuck.busy
      && SubmitStep(stuck, later, ytDlpInstalled).reply == Some(Failure(409, BusyMessage))
      && CancelStep(stuck).reply == CancelReply(false, NothingRunningMessage)
      && CancelStep(stuck).state == stuck
  {
  }

  /** With no handle, cancelling answers failure and changes nothing, busy or not. */
  lemma CancelWithoutHandle(s: State)
    requires s.process.None?
    ensures CancelStep(s) == Cancellation(s, CancelReply(false, NothingRunningMessage))
  {
  }

  /** With a handle, cancelling kills that process, drops the handle and frees the slot. */
  lemma CancelWithHandle(s: State)
    requires s.process.Some?
    ensures var c := CancelStep(s);
      && c.reply.success && !c.state.busy && c.state.process.None?
      && c.state.killed == s.killed + [s.process.value]
  {
  }

  /**
   * An unknown platform still gets the "started" reply, then `exec` throws
   * and the `catch` frees the slot and emits an error.
   */
  lemma UnknownPlatform(s: State, url: string, platform: string, out: string, pid: Pid)
    requires platform != "youtube" && platform != "tiktok"
    ensures var f := FetchStep(s, url, Some(platform), Ok(out), pid);
      && f.reply.Some? && f.reply.value.Started?
      && f.job.None? && !f.state.busy && f.state.process.None?
      && f.state.events == s.events + [DownloadError("Gagal download " + platform + ": " + BadCommandMessage)]
  {
  }

  /**
   * The `catch` of a cancelled download runs when its process closes. If a
   * new download has been admitted meanwhile, that `catch` frees the slot
   * and drops the new handle while the new process runs, and a third
   * request is admitted beside it.
   */
  lemma LateCatchFreesNewerDownload(out: string)
    ensures
      var s1 := SubmitStep(Initial, Some("a"), true).state;
      var f1 := FetchStep(s1, "a", Some("tiktok"), Ok(out), 1);
      var s2 := CancelStep(f1.state).state;
      var s3 := SubmitStep(s2, Some("b"), true).state;
      var f2 := FetchStep(s3, "b", Some("tiktok"), Ok(out), 2);
      && f1.job.Some? && f2.job.Some?
      && f2.state.busy && f2.state.process == Some(2)
      && var s4 := CloseStep(f2.state, f1.job.value, Closed(None), false, false, "");
      && !s4.busy && s4.process.None?
      && SubmitStep(s4, Some("c"), true).reply.None?
  {
  }

  /**
   * The info.txt of a successful download reads back as its seven lines; a
   * write that failed leaves the files as they were, and the completion is
   * emitted either way.
   */
  lemma SuccessWritesInfo(s: State, job: Job, mp4Found: bool, infoWritten: bool, downloaded: string)
    requires NoCR(job.info.title) && NoCR(job.url) && NoCR(job.platform) && NoCR(downloaded)
    requires job.info.uploader.Some? ==> NoCR(job.info.uploader.value)
    requires job.info.duration.Some? ==> NoCR(job.info.duration.value)
    ensures var t := CloseStep(s, job, Closed(Some(0)), mp4Found, infoWritten, downloaded);
      var folder := FolderOf(job.folderName);
      && (infoWritten ==>
            folder in t.infoFiles
            && Split(t.infoFiles[folder], LineBreak) == UniversalInfoLines(job.info, ToUpper(job.platform), job.url, downloaded))
      && (!infoWritten ==> t.infoFiles == s.infoFiles)
      && t.events[|t.events| - 1].Complete?
      && (t.events[|t.events| - 1].videoPath.Some? <==> mp4Found)
      && (mp4Found ==> t.events[|t.events| - 1].videoPath == Some(PlayerPath(job.folderName)))
  {
    var p := ToUpper(job.platform);
    assert NoCR(p) by {
      forall k | 0 <= k < |p| ensures p[k] != '\r' { assert p[k] == UpperChar(job.platform[k]); }
    }
    UniversalInfoTextLines(job.info, p, job.url, downloaded);
  }
}
