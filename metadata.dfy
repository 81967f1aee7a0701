/**
 * The video metadata both download routes ask yt-dlp for, printed as
 * `title|||uploader|||duration` on one line, and the info.txt file each
 * route writes next to the video.
 */
module Metadata {
  import opened Text
  import opened Sanitize

  const InfoSeparator: string := "|||"
  const LineBreak: string := "\r\n"

  /** Folder title used when yt-dlp prints an empty title. */
  const UniversalFallbackTitle: string := "Universal_Video"
  const YouTubeFallbackTitle: string := "YouTube_Video"

  /** Text written in info.txt for a missing title, uploader or duration. */
  const NoTitle: string := "Tidak ada judul"
  const Unknown: string := "Tidak diketahui"

  /**
   * The first three pieces of the split output. The split always yields a
   * first piece, so the title is always a string; the other two are
   * `undefined` (`None`) when the output holds too few separators.
   */
  datatype VideoInfo = VideoInfo(title: string, uploader: Option<string>, duration: Option<string>)

  function Piece(parts: seq<string>, k: nat): Option<string>
  {
    if k < |parts| then Some(parts[k]) else None
  }

  /** `const [title, uploader, duration] = infoOutput.trim().split('|||')` */
  function ParseInfo(stdout: string): (r: VideoInfo)
    ensures r.duration.Some? ==> r.uploader.Some?
  {
    var parts := Split(Trim(stdout), InfoSeparator);
    VideoInfo(parts[0], Piece(parts, 1), Piece(parts, 2))
  }

  /** JavaScript's `v || fallback` for a value that is a string or `undefined`. */
  function OrElse(v: Option<string>, fallback: string): (r: string)
    ensures r == fallback || (v.Some? && r == v.value && r != [])
    ensures v.None? || v.value == [] ==> r == fallback
    ensures v.Some? && v.value != [] ==> r == v.value
  {
    if v.Some? && v.value != [] then v.value else fallback
  }

  /** `sanitizeFilename(title || fallback)`: the folder and file stem of a download. */
  function FolderTitle(title: string, fallback: string): string
  {
    SanitizeFilename(OrElse(Some(title), fallback))
  }

  /** The lines of universal-api.js's info.txt; `platform` is already upper-cased. */
  function UniversalInfoLines(info: VideoInfo, platform: string, url: string, downloaded: string): seq<string>
  {
    [ "Judul: " + OrElse(Some(info.title), NoTitle),
      "Channel/Creator: " + OrElse(info.uploader, Unknown),
      "Durasi: " + OrElse(info.duration, Unknown) + " detik",
      "Platform: " + platform,
      "URL: " + url,
      "",
      "Downloaded: " + downloaded ]
  }

  /** The lines of youtube-video-api.js's info.txt; `quality` is the quality label. */
  function YouTubeInfoLines(info: VideoInfo, quality: string, url: string, downloaded: string): seq<string>
  {
    [ "Judul: " + OrElse(Some(info.title), NoTitle),
      "Channel: " + OrElse(info.uploader, Unknown),
      "Durasi: " + OrElse(info.duration, Unknown) + " detik",
      "Kualitas: " + quality,
      "URL: " + url,
      "",
      "Downloaded: " + downloaded ]
  }

  /** The info.txt content: the lines joined with CRLF, no line break at the end. */
  function InfoText(lines: seq<string>): string
  {
    Join(lines, LineBreak)
  }

  predicate NoPipe(s: string) { '|' !in s }

  // ------------------------------------------------------------ lemmas

  /**
   * Splitting reads back what yt-dlp joined: when no field contains `|`
   * and the line has no surrounding white space, the first three fields
   * come back, and a field that was not printed is `undefined`.
   */
  lemma ParseInfoJoin(parts: seq<string>)
    requires |parts| >= 1 && forall p :: p in parts ==> NoPipe(p)
    requires Trim(Join(parts, InfoSeparator)) == Join(parts, InfoSeparator)
    ensures ParseInfo(Join(parts, InfoSeparator)) == VideoInfo(parts[0], Piece(parts, 1), Piece(parts, 2))
  {
    SplitJoin(parts, InfoSeparator);
  }

  /**
   * yt-dlp ends its line with a newline; trimming removes it, so the same
   * fields come back.
   */
  lemma ParseInfoJoinNewline(parts: seq<string>)
    requires |parts| >= 1 && forall p :: p in parts ==> NoPipe(p)
    requires var line := Join(parts, InfoSeparator);
      line != [] && !IsSpace(line[0]) && !IsSpace(line[|line| - 1])
    ensures ParseInfo(Join(parts, InfoSeparator) + "\n") == VideoInfo(parts[0], Piece(parts, 1), Piece(parts, 2))
  {
    var line := Join(parts, InfoSeparator);
    TrimIdentity(line);
    ParseInfoJoin(parts);
    TrimTrailing(line, '\n');
  }

  /** Output with one separator: the uploader is empty and the duration is `undefined`. */
  lemma ParseInfoTitleOnly()
    ensures ParseInfo("OnlyTitle|||") == VideoInfo("OnlyTitle", Some(""), None)
  {
    var parts := ["OnlyTitle", ""];
    var line := "OnlyTitle|||";
    assert Join(parts, InfoSeparator) == line by {
      assert Join(parts[1..], InfoSeparator) == "";
    }
    TrimIdentity(line);
    assert NoPipe(parts[0]) && NoPipe(parts[1]);
    ParseInfoJoin(parts);
  }

  /** Blank output gives an empty title and no uploader or duration. */
  lemma ParseInfoBlank(stdout: string)
    requires forall i :: 0 <= i < |stdout| ==> IsSpace(stdout[i])
    ensures ParseInfo(stdout) == VideoInfo("", None, None)
  {
    TrimBlank(stdout);
    ParseInfoJoin([""]);
  }

  /** Names of ASCII letters, digits and single inner `_`, at most 100 long. */
  predicate IsPlainName(s: string) {
    && |s| <= MaxLength
    && (forall i :: 0 <= i < |s| ==> IsAsciiAlnum(s[i]) || s[i] == '_')
    && NoDoubleUnderscore(s)
    && (s == [] || (s[0] != '_' && s[|s| - 1] != '_'))
  }

  /** An empty title names the folder after the fallback when the fallback is a plain name. */
  lemma EmptyTitleFallback(fallback: string)
    requires IsPlainName(fallback)
    ensures FolderTitle("", fallback) == fallback
  {
    assert forall c :: IsAsciiAlnum(c) || c == '_' ==> NotIllegal(c) && NotSpace(c);
    SanitizeFixedPoint(fallback);
  }

  lemma UniversalFallbackIsPlain()
    ensures FolderTitle("", UniversalFallbackTitle) == UniversalFallbackTitle
  {
    assert IsPlainName(UniversalFallbackTitle);
    EmptyTitleFallback(UniversalFallbackTitle);
  }

  lemma YouTubeFallbackIsPlain()
    ensures FolderTitle("", YouTubeFallbackTitle) == YouTubeFallbackTitle
  {
    assert IsPlainName(YouTubeFallbackTitle);
    EmptyTitleFallback(YouTubeFallbackTitle);
  }

  /**
   * The fallback covers only the empty title: a non-empty title made of
   * illegal characters and white space still names an empty folder.
   */
  lemma IllegalTitleEmptyFolder(title: string, fallback: string)
    requires title != []
    requires forall i :: 0 <= i < |title| ==> IsIllegal(title[i]) || IsSpace(title[i])
    ensures FolderTitle(title, fallback) == []
  {
    OnlyIllegalIsEmpty(title);
  }

  predicate NoCR(s: string) { '\r' !in s }

  /** Lines free of CR are read back by splitting the joined text on CRLF. */
  lemma InfoTextSplits(lines: seq<string>)
    requires |lines| >= 1 && forall k :: 0 <= k < |lines| ==> NoCR(lines[k])
    ensures Split(InfoText(lines), LineBreak) == lines
  {
    SplitJoin(lines, LineBreak);
  }

  lemma OrElseNoCR(v: Option<string>, fallback: string)
    requires NoCR(fallback) && (v.Some? ==> NoCR(v.value))
    ensures NoCR(OrElse(v, fallback))
  {
  }

  lemma UniversalLinesNoCR(info: VideoInfo, platform: string, url: string, downloaded: string)
    requires NoCR(info.title) && NoCR(platform) && NoCR(url) && NoCR(downloaded)
    requires info.uploader.Some? ==> NoCR(info.uploader.value)
    requires info.duration.Some? ==> NoCR(info.duration.value)
    ensures var lines := UniversalInfoLines(info, platform, url, downloaded);
      |lines| >= 1 && forall k :: 0 <= k < |lines| ==> NoCR(lines[k])
  {
    OrElseNoCR(Some(info.title), NoTitle);
    OrElseNoCR(info.uploader, Unknown);
    OrElseNoCR(info.duration, Unknown);
  }

  /**
   * universal-api.js's info.txt splits back into its seven lines when no
   * field holds a CR; missing fields appear as the default texts.
   */
  lemma UniversalInfoTextLines(info: VideoInfo, platform: string, url: string, downloaded: string)
    requires NoCR(info.title) && NoCR(platform) && NoCR(url) && NoCR(downloaded)
    requires info.uploader.Some? ==> NoCR(info.uploader.value)
    requires info.duration.Some? ==> NoCR(info.duration.value)
    ensures var lines := UniversalInfoLines(info, platform, url, downloaded);
      Split(InfoText(lines), LineBreak) == lines
      && (info.uploader.None? ==> lines[1] == "Channel/Creator: " + Unknown)
      && (info.duration.None? ==> lines[2] == "Durasi: " + Unknown + " detik")
  {
    UniversalLinesNoCR(info, platform, url, downloaded);
    InfoTextSplits(UniversalInfoLines(info, platform, url, downloaded));
  }

  lemma YouTubeLinesNoCR(info: VideoInfo, quality: string, url: string, downloaded: string)
    requires NoCR(info.title) && NoCR(quality) && NoCR(url) && NoCR(downloaded)
    requires info.uploader.Some? ==> NoCR(info.uploader.value)
    requires info.duration.Some? ==> NoCR(info.duration.value)
    ensures var lines := YouTubeInfoLines(info, quality, url, downloaded);
      |lines| >= 1 && forall k :: 0 <= k < |lines| ==> NoCR(lines[k])
  {
    OrElseNoCR(Some(info.title), NoTitle);
    OrElseNoCR(info.uploader, Unknown);
    OrElseNoCR(info.duration, Unknown);
  }

  /** The same for youtube-video-api.js's info.txt. */
  lemma YouTubeInfoTextLines(info: VideoInfo, quality: string, url: string, downloaded: string)
    requires NoCR(info.title) && NoCR(quality) && NoCR(url) && NoCR(downloaded)
    requires info.uploader.Some? ==> NoCR(info.uploader.value)
    requires info.duration.Some? ==> NoCR(info.duration.value)
    ensures var lines := YouTubeInfoLines(info, quality, url, downloaded);
      Split(InfoText(lines), LineBreak) == lines
      && (info.uploader.None? ==> lines[1] == "Channel: " + Unknown)
      && (info.duration.None? ==> lines[2] == "Durasi: " + Unknown + " detik")
  {
    YouTubeLinesNoCR(info, quality, url, downloaded);
    InfoTextSplits(YouTubeInfoLines(info, quality, url, downloaded));
  }
}
