/**
 * The `/download-transcript` route of transcript-api.js around the VTT
 * converter (module `Vtt`): the URL check, the fallback over the three
 * subtitle commands, the language taken from the subtitle file name, the
 * preview of the text and the mapping of error messages to replies.
 * yt-dlp and the file system are inputs: the error each command rejects
 * with, the folder listing after it, and the content of the subtitle file.
 */
module Transcript {
  import opened Text
  import opened Metadata
  import Sanitize
  import YouTubeApi
  import Vtt

  const FallbackTitle: string := "YouTube_Transcript"
  const FolderPrefix: string := "YouTube_Transcripts"
  const TranscriptSuffix: string := "_transcript.txt"

  /** Thrown when no method produced a subtitle and none reported an error. */
  const NoSubtitleError: string := "Gagal mendownload subtitle"
  /** Thrown when the folder holds no `.vtt` file after a successful method. */
  const NoVttError: string := "Video ini tidak memiliki subtitle/transcript yang tersedia"

  /** The messages of the failure replies. */
  datatype Message = InvalidUrl | NoYtDlp | RateLimited | NoSubtitles | PrivateVideo | Unavailable | Generic

  /** The text each message is sent as. */
  function MessageText(m: Message): string
  {
    match m
    case InvalidUrl => "URL YouTube tidak valid"
    case NoYtDlp => "yt-dlp tidak terinstall. Install dengan: pip install yt-dlp"
    case RateLimited => "YouTube sedang membatasi akses. Tunggu 5-10 menit lalu coba lagi. Atau coba video lain dulu."
    case NoSubtitles => "Video ini tidak memiliki subtitle/transcript. YouTube biasanya hanya menyediakan auto-subtitle untuk video berbahasa Inggris. Coba video bahasa Inggris."
    case PrivateVideo => "Video ini private atau tidak bisa diakses"
    case Unavailable => "Video tidak tersedia atau telah dihapus"
    case Generic => "Gagal mendownload transcript"
  }

  const PreviewLength: nat := 500
  const Ellipsis: string := "..."
  const UnknownLanguage: string := "unknown"

  // --------------------------------------------------------- the language

  predicate IsLower(c: char) { 'a' <= c <= 'z' }

  /**
   * transcript-api.js:177, the first group of `/\.([a-z]{2})\.vtt$/`. The
   * pattern has a fixed length and is anchored at the end, so the only
   * place it can match is the last seven characters.
   */
  function DetectLanguage(name: string): (r: string)
    ensures r == UnknownLanguage || (|r| == 2 && IsLower(r[0]) && IsLower(r[1]) && EndsWith(name, "." + r + ".vtt"))
  {
    var n := |name|;
    if n >= 7 && name[n - 7] == '.' && IsLower(name[n - 6]) && IsLower(name[n - 5]) && name[n - 4..] == ".vtt" then
      assert name[n - 7..] == "." + name[n - 6..n - 4] + ".vtt";
      name[n - 6..n - 4]
    else UnknownLanguage
  }

  /** A name ending in `.xy.vtt`, `x` and `y` lower-case letters, gives `xy`. */
  lemma LanguageTagged(base: string, x: char, y: char)
    requires IsLower(x) && IsLower(y)
    ensures DetectLanguage(base + "." + [x, y] + ".vtt") == [x, y]
  {
    var name := base + "." + [x, y] + ".vtt";
    var n := |name|;
    assert name[n - 7] == '.' && name[n - 6] == x && name[n - 5] == y;
    assert name[n - 4..] == ".vtt";
    assert name[n - 6..n - 4] == [x, y];
  }

  /**
   * A tag that does not end in two lower-case letters right before
   * `.vtt`, such as `en-US` or `EN`, is reported as `unknown`.
   */
  lemma LanguageNeedsLowerTag(name: string)
    requires |name| >= 5 && !IsLower(name[|name| - 5])
    ensures DetectLanguage(name) == UnknownLanguage
  {
  }

  // ----------------------------------------------------------- the preview

  /** `s.substring(0, end)` for `end >= 0`. */
  function Prefix(s: string, end: nat): (r: string)
    ensures |r| == if end < |s| then end else |s|
    ensures r == s[..|r|]
  {
    if end < |s| then s[..end] else s
  }

  /** transcript-api.js:191: the first 500 characters, and `...` when some were cut. */
  function Preview(text: string): (r: string)
    ensures |text| <= PreviewLength ==> r == text
    ensures |text| > PreviewLength ==> |r| == PreviewLength + |Ellipsis| && r == text[..PreviewLength] + Ellipsis
    ensures |r| <= PreviewLength + |Ellipsis|
  {
    Prefix(text, PreviewLength) + (if |text| > PreviewLength then Ellipsis else "")
  }

  // ---------------------------------------------------------- error replies

  /** The mapping at transcript-api.js:197-207: the first test that holds decides. */
  function ErrorMessage(msg: string): Message
  {
    if Contains(msg, "429") || Contains(msg, "Too Many Requests") then RateLimited
    else if Contains(msg, "No subtitles") || Contains(msg, "Unable to download video subtitles") then NoSubtitles
    else if Contains(msg, "Private video") then PrivateVideo
    else if Contains(msg, "Video unavailable") then Unavailable
    else Generic
  }

  /** A rate limit wins over every other pattern in the same message. */
  lemma RateLimitWins(pre: string, post: string)
    ensures ErrorMessage(pre + "429" + post) == RateLimited
  {
    var msg := pre + "429" + post;
    assert MatchesAt(msg, "429", |pre|);
    ContainsAt(msg, "429", |pre|);
  }

  /** The generic reply is given exactly when none of the six patterns occurs. */
  lemma DefaultOnlyWithoutPatterns(msg: string)
    ensures ErrorMessage(msg) == Generic <==>
      !Contains(msg, "429") && !Contains(msg, "Too Many Requests") && !Contains(msg, "No subtitles")
      && !Contains(msg, "Unable to download video subtitles") && !Contains(msg, "Private video")
      && !Contains(msg, "Video unavailable")
  {
  }

  /** A message holding both later patterns gets the reply of the earlier test. */
  lemma PrivateBeforeUnavailable(msg: string)
    requires !Contains(msg, "429") && !Contains(msg, "Too Many Requests") && !Contains(msg, "No subtitles")
    requires !Contains(msg, "Unable to download video subtitles")
    requires Contains(msg, "Private video") && Contains(msg, "Video unavailable")
    ensures ErrorMessage(msg) == PrivateVideo
  {
  }

  /** An example of the default reply: a message holding none of the first characters of the six patterns. */
  lemma DefaultWithoutFirstChars(msg: string)
    requires '4' !in msg && 'T' !in msg && 'N' !in msg && 'U' !in msg && 'P' !in msg && 'V' !in msg
    ensures ErrorMessage(msg) == Generic
  {
    NotContainsFirstChar(msg, "429");
    NotContainsFirstChar(msg, "Too Many Requests");
    NotContainsFirstChar(msg, "No subtitles");
    NotContainsFirstChar(msg, "Unable to download video subtitles");
    NotContainsFirstChar(msg, "Private video");
    NotContainsFirstChar(msg, "Video unavailable");
  }

  // ------------------------------------------------- the subtitle fallback

  /**
   * One subtitle command: the message it rejected with, if it did, and
   * what `readdirSync` of the transcript folder then gives (its error
   * message when it throws).
   */
  datatype Attempt = Attempt(commandError: Option<string>, listing: Result<seq<string>>)

  /** `names[i]` is the first name of the listing that ends in `.vtt`. */
  predicate FirstVttAt(names: seq<string>, i: nat)
  {
    i < |names| && EndsWith(names[i], ".vtt") && forall j :: 0 <= j < i ==> !EndsWith(names[j], ".vtt")
  }

  /** `files.filter(file => file.endsWith('.vtt'))` */
  function VttFiles(names: seq<string>): (r: seq<string>)
    ensures |r| <= |names|
    ensures forall k :: 0 <= k < |r| ==> EndsWith(r[k], ".vtt") && r[k] in names
    ensures forall k :: 0 <= k < |names| && EndsWith(names[k], ".vtt") ==> names[k] in r
  {
    if names == [] then []
    else (if EndsWith(names[0], ".vtt") then [names[0]] else []) + VttFiles(names[1..])
  }

  /** The filter keeps the listing's order: its first element is the first `.vtt` name of the listing. */
  lemma {:induction false} VttFilesFirst(names: seq<string>)
    ensures VttFiles(names) == [] <==> forall k :: 0 <= k < |names| ==> !EndsWith(names[k], ".vtt")
    ensures VttFiles(names) != [] ==> exists i: nat :: FirstVttAt(names, i) && VttFiles(names)[0] == names[i]
  {
    if names != [] {
      if EndsWith(names[0], ".vtt") {
        assert FirstVttAt(names, 0);
      } else {
        VttFilesFirst(names[1..]);
        var rest := VttFiles(names[1..]);
        assert VttFiles(names) == rest;
        if rest != [] {
          var i: nat :| FirstVttAt(names[1..], i) && rest[0] == names[1..][i];
          assert FirstVttAt(names, i + 1);
        }
      }
    }
  }

  /** After this command the folder holds a `.vtt` file, whether or not the command failed. */
  predicate Finds(a: Attempt)
  {
    a.listing.Ok? && VttFiles(a.listing.value) != []
  }

  /**
   * What the command leaves in `lastError`: its own error, or else the
   * error of the listing inside the `try`; a listing that fails inside
   * the `catch` is swallowed.
   */
  function ErrorOf(a: Attempt): Option<string>
  {
    if a.commandError.Some? then a.commandError
    else if a.listing.Err? then Some(a.listing.error)
    else None
  }

  /** The position of the first command that finds a subtitle. */
  function FirstFound(attempts: seq<Attempt>): (r: Option<nat>)
    ensures r.Some? ==> r.value < |attempts| && Finds(attempts[r.value])
    ensures r.Some? ==> forall k :: 0 <= k < r.value ==> !Finds(attempts[k])
    ensures r.None? ==> forall k :: 0 <= k < |attempts| ==> !Finds(attempts[k])
  {
    if attempts == [] then None
    else if Finds(attempts[0]) then Some(0)
    else match FirstFound(attempts[1..])
      case None => None
      case Some(i) => Some(i + 1)
  }

  /** How many commands are run. */
  function Tried(attempts: seq<Attempt>): (r: nat)
    ensures r <= |attempts|
  {
    if FirstFound(attempts).Some? then FirstFound(attempts).value + 1 else |attempts|
  }

  /** No command after the one at `k` reported an error. */
  predicate NoErrorAfter(attempts: seq<Attempt>, k: nat)
  {
    forall j :: k < j < |attempts| ==> ErrorOf(attempts[j]).None?
  }

  /** The error of the last command that reported one. */
  function LastError(attempts: seq<Attempt>): (r: Option<string>)
    ensures r.None? <==> forall k :: 0 <= k < |attempts| ==> ErrorOf(attempts[k]).None?
    ensures r.Some? ==>
      exists k :: 0 <= k < |attempts| && ErrorOf(attempts[k]) == r && NoErrorAfter(attempts, k)
  {
    if attempts == [] then None
    else
      var last := attempts[|attempts| - 1];
      if ErrorOf(last).Some? then
        assert NoErrorAfter(attempts, |attempts| - 1);
        ErrorOf(last)
      else
        var r := LastError(attempts[..|attempts| - 1]);
        LastErrorExtends(attempts, r);
        r
  }

  /** An error that is last among all but the final command stays last when the final command reports none. */
  lemma LastErrorExtends(attempts: seq<Attempt>, r: Option<string>)
    requires attempts != [] && ErrorOf(attempts[|attempts| - 1]).None?
    requires var init := attempts[..|attempts| - 1];
      && (r.None? <==> forall k :: 0 <= k < |init| ==> ErrorOf(init[k]).None?)
      && (r.Some? ==> exists k :: 0 <= k < |init| && ErrorOf(init[k]) == r && NoErrorAfter(init, k))
    ensures r.None? <==> forall k :: 0 <= k < |attempts| ==> ErrorOf(attempts[k]).None?
    ensures r.Some? ==> exists k :: 0 <= k < |attempts| && ErrorOf(attempts[k]) == r && NoErrorAfter(attempts, k)
  {
    var init := attempts[..|attempts| - 1];
    assert forall k :: 0 <= k < |init| ==> init[k] == attempts[k];
    if r.Some? {
      var k :| 0 <= k < |init| && ErrorOf(init[k]) == r && NoErrorAfter(init, k);
      assert NoErrorAfter(attempts, k);
    }
  }

  /**
   * The loop at transcript-api.js:108-142: the commands run in order until
   * one leaves a subtitle in the folder.
   */
  method TryMethods(attempts: seq<Attempt>) returns (success: bool, lastError: Option<string>, tried: nat)
    ensures success <==> exists k :: 0 <= k < |attempts| && Finds(attempts[k])
    ensures success == FirstFound(attempts).Some? && tried == Tried(attempts)
    ensures lastError == LastError(attempts[..tried])
  {
    success := false;
    lastError := None;
    var i := 0;
    while i < |attempts|
      invariant 0 <= i <= |attempts|
      invariant forall k :: 0 <= k < i ==> !Finds(attempts[k])
      invariant lastError == LastError(attempts[..i])
    {
      var a := attempts[i];
      assert attempts[..i + 1][..i] == attempts[..i];
      if a.commandError.None? {
        if a.listing.Err? {
          lastError := Some(a.listing.error);
        } else if VttFiles(a.listing.value) != [] {
          success := true;
          tried := i + 1;
          return;
        }
      } else {
        lastError := a.commandError;
        if a.listing.Ok? && VttFiles(a.listing.value) != [] {
          success := true;
          tried := i + 1;
          return;
        }
      }
      i := i + 1;
    }
    assert attempts[..i] == attempts;
    tried := i;
  }

  // --------------------------------------------------------- the whole route

  /**
   * transcript-api.js:144-164: the first `.vtt` file of the final listing,
   * or the message of what is thrown instead.
   */
  function Subtitle(attempts: seq<Attempt>, finalListing: Result<seq<string>>): (r: Result<string>)
    ensures r.Ok? <==> FirstFound(attempts).Some? && finalListing.Ok? && VttFiles(finalListing.value) != []
    ensures r.Ok? ==> EndsWith(r.value, ".vtt") && r.value in finalListing.value
    ensures r.Ok? ==> exists i: nat :: FirstVttAt(finalListing.value, i) && r.value == finalListing.value[i]
    ensures FirstFound(attempts).None? && LastError(attempts).Some? ==> r == Err(LastError(attempts).value)
  {
    if FirstFound(attempts).None? then
      var e := LastError(attempts);
      Err(if e.Some? then e.value else NoSubtitleError)
    else
      var subtitles := if finalListing.Ok? then VttFiles(finalListing.value) else [];
      if subtitles == [] then Err(NoVttError)
      else
        VttFilesFirst(finalListing.value);
        Ok(subtitles[0])
  }

  datatype Reply =
    | Failure(status: nat, message: Message)
    | Done(title: string, filename: string, language: string, folder: string, preview: string)

  /**
   * The route, transcript-api.js:63-215, with `info` the output of the
   * info command (or its error), `finalListing` the listing read after the
   * fallback (transcript-api.js:150-156) and `vttContent` the content of
   * the first `.vtt` file in it.
   */
  function Handle(url: Option<string>, ytDlpInstalled: bool, info: Result<string>, attempts: seq<Attempt>,
                  finalListing: Result<seq<string>>, vttContent: string): Reply
  {
    if !YouTubeApi.IsYouTubeUrl(url) then Failure(400, InvalidUrl)
    else if !ytDlpInstalled then Failure(500, NoYtDlp)
    else Attempted(info, attempts, finalListing, vttContent)
  }

  /** The `try` block of transcript-api.js:82-214 and its `catch`. */
  function Attempted(info: Result<string>, attempts: seq<Attempt>, finalListing: Result<seq<string>>, vttContent: string): Reply
  {
    if info.Err? then Failure(500, ErrorMessage(info.error))
    else
      match Subtitle(attempts, finalListing)
      case Err(thrown) => Failure(500, ErrorMessage(thrown))
      case Ok(file) => Success(info.value, file, Vtt.VttToText(vttContent))
  }

  /**
   * The reply of transcript-api.js:205-213 for the info output `stdout`,
   * the subtitle file `file` and its converted text.
   */
  function Success(stdout: string, file: string, text: string): (r: Reply)
    ensures r.Done? && r.preview == Preview(text) && r.language == DetectLanguage(file)
  {
    var title := ParseInfo(stdout).title;
    var name := FolderTitle(title, FallbackTitle);
    Done(title, name + TranscriptSuffix, DetectLanguage(file), FolderPrefix + "/" + name, Preview(text))
  }

  method DownloadTranscript(url: Option<string>, ytDlpInstalled: bool, info: Result<string>, attempts: seq<Attempt>,
                            finalListing: Result<seq<string>>, vttContent: string)
    returns (reply: Reply)
    ensures reply == Handle(url, ytDlpInstalled, info, attempts, finalListing, vttContent)
  {
    if !YouTubeApi.IsYouTubeUrl(url) {
      return Failure(400, InvalidUrl);
    }
    if !ytDlpInstalled {
      return Failure(500, NoYtDlp);
    }
    if info.Err? {
      return Failure(500, ErrorMessage(info.error));
    }
    var success, lastError, tried := TryMethods(attempts);
    var thrown: string;
    if !success {
      assert attempts[..tried] == attempts;
      thrown := if lastError.Some? then lastError.value else NoSubtitleError;
      return Failure(500, ErrorMessage(thrown));
    }
    var subtitles := if finalListing.Ok? then VttFiles(finalListing.value) else [];
    if subtitles == [] {
      thrown := NoVttError;
      return Failure(500, ErrorMessage(thrown));
    }
    var text := Vtt.ConvertVttToText(vttContent);
    reply := Success(info.value, subtitles[0], text);
  }

  // ------------------------------------------------------------ lemmas

  /**
   * Once the info command succeeds, and the folder still lists what the
   * successful command left there, the route fails only when no command
   * found a subtitle: the check at transcript-api.js:158-160 does not fire.
   */
  lemma FailureMeansNoSubtitle(stdout: string, attempts: seq<Attempt>, vttContent: string)
    ensures var found := FirstFound(attempts);
      var finalListing := if found.Some? then attempts[found.value].listing else Err("");
      Attempted(Ok(stdout), attempts, finalListing, vttContent).Failure? <==>
        forall k :: 0 <= k < |attempts| ==> !Finds(attempts[k])
  {
    var found := FirstFound(attempts);
    assert found.Some? ==> Finds(attempts[found.value]);
  }

  /** A command that fails but leaves a subtitle behind still ends the fallback with success. */
  lemma ErrorWithFilesSucceeds(stdout: string, a: Attempt, rest: seq<Attempt>, vttContent: string)
    requires a.commandError.Some? && Finds(a)
    ensures var r := Attempted(Ok(stdout), [a] + rest, a.listing, vttContent);
      r.Done? && r.language == DetectLanguage(VttFiles(a.listing.value)[0])
  {
    assert ([a] + rest)[0] == a;
  }

  /** When every command is rate-limited, the reply says so. */
  lemma AllRateLimited(stdout: string, attempts: seq<Attempt>, finalListing: Result<seq<string>>, vttContent: string)
    requires attempts != []
    requires forall k :: 0 <= k < |attempts| ==> !Finds(attempts[k]) && attempts[k].commandError == Some("HTTP Error 429")
    ensures Attempted(Ok(stdout), attempts, finalListing, vttContent) == Failure(500, RateLimited)
  {
    var last := attempts[|attempts| - 1];
    assert ErrorOf(last) == Some("HTTP Error 429");
    RateLimitWins("HTTP Error ", "");
    assert "HTTP Error " + "429" + "" == "HTTP Error 429";
  }

  /**
   * A transcript reply names a folder one level below `YouTube_Transcripts`:
   * the sanitised title holds no `/` and at most 100 characters, and the
   * text file inside it carries the same name.
   */
  lemma SuccessFolderOneLevel(stdout: string, file: string, text: string)
    ensures var r := Success(stdout, file, text);
      var name := FolderTitle(ParseInfo(stdout).title, FallbackTitle);
      && r.folder == FolderPrefix + "/" + name
      && r.filename == name + TranscriptSuffix
      && '/' !in name && |name| <= Sanitize.MaxLength
  {
    var name := FolderTitle(ParseInfo(stdout).title, FallbackTitle);
    Sanitize.SanitizeFilenameShape(OrElse(Some(ParseInfo(stdout).title), FallbackTitle));
    assert forall k :: 0 <= k < |name| ==> Sanitize.NotIllegal(name[k]);
  }
}
