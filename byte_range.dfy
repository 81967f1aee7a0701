/**
 * The `Range` handling of the two video-serving routes
 * (`/video/:videoName` and `/universal-video/:videoName`), which answer
 * with `Content-Range: bytes start-end/size` in the sense of sections 2.1
 * and 4.2 of RFC 7233 but read only the `a-b` and `a-` forms. The only
 * check on the bounds is the one `fs.createReadStream(path, {start, end})`
 * makes before any header is written: both bounds must be integers from 0
 * to `Number.MAX_SAFE_INTEGER` and `start` may not exceed `end`; otherwise
 * it throws, and the route answers with its error status instead of 206.
 */
module ByteRange {
  import opened Text

  /** A JavaScript number as these routes see it: an integer or `NaN` (`None`). */
  type Number = Option<int>

  /** `Number.MAX_SAFE_INTEGER`, the largest bound a read stream accepts. */
  const MaxSafeInteger: nat := 9007199254740991

  /** The two routes that serve a video file. */
  datatype Route = YouTubeRoute | UniversalRoute

  /** The reply a video route gives. */
  datatype Reply =
    | Whole(length: nat)
    | Partial(start: nat, end: nat, contentLength: nat, contentRange: string)
    | Refused(status: nat, error: Option<string>)

  /** The `Range` header `bytes=first-last`. */
  function RangeHeader(first: string, last: string): string
  {
    "bytes=" + first + "-" + last
  }

  /** The `Content-Range` text `bytes start-end/size`. */
  function ContentRange(start: nat, end: nat, fileSize: nat): string
  {
    "bytes " + Dec(start) + "-" + Dec(end) + "/" + Dec(fileSize)
  }

  /** `range.replace(/bytes=/, "").split("-")` */
  function RangeParts(range: string): (r: seq<string>)
    ensures |r| >= 1
  {
    Split(ReplaceFirst(range, "bytes=", ""), "-")
  }

  /** `parts[1] ? parseInt(parts[1], 10) : fileSize - 1`: a missing or empty second part means the last byte. */
  function RangeEnd(parts: seq<string>, fileSize: nat): Number
  {
    if |parts| > 1 && parts[1] != [] then ParseInt(parts[1]) else Some(fileSize - 1)
  }

  /** The bounds a read stream opens with; any others make it throw `ERR_OUT_OF_RANGE`. */
  predicate StreamAccepts(start: Number, end: Number)
  {
    start.Some? && end.Some? && 0 <= start.value <= end.value <= MaxSafeInteger
  }

  /**
   * What a route answers when the read stream throws: the YouTube route has
   * no `try`, so Express's default handler answers 500; the universal
   * route's `catch` answers 404 with `Video not found`.
   */
  function Refusal(route: Route): (r: Reply)
    ensures r.Refused?
    ensures route == YouTubeRoute ==> r.status == 500 && r.error.None?
    ensures route == UniversalRoute ==> r.status == 404 && r.error == Some("Video not found")
  {
    match route
    case YouTubeRoute => Refused(500, None)
    case UniversalRoute => Refused(404, Some("Video not found"))
  }

  /**
   * youtube-video-api.js:195-218 and universal-api.js:245-271: with a
   * non-empty `Range` header the reply is 206 with the parsed bounds, a
   * length of `end - start + 1` and the `Content-Range` text, provided the
   * read stream accepts the bounds, and the route's refusal otherwise;
   * without one it is 200 with the whole file.
   */
  function Serve(route: Route, range: Option<string>, fileSize: nat): (r: Reply)
    ensures r.Whole? <==> range.None? || range.value == []
    ensures r.Whole? ==> r.length == fileSize
    ensures r.Partial? ==>
      && r.start <= r.end <= MaxSafeInteger
      && r.contentLength == r.end - r.start + 1
      && r.contentRange == ContentRange(r.start, r.end, fileSize)
    ensures r.Refused? ==> r == Refusal(route)
    ensures !r.Whole? ==>
      var parts := RangeParts(range.value);
      (r.Partial? <==> StreamAccepts(ParseInt(parts[0]), RangeEnd(parts, fileSize)))
  {
    if range.None? || range.value == [] then Whole(fileSize)
    else
      var parts := RangeParts(range.value);
      Answer(route, ParseInt(parts[0]), RangeEnd(parts, fileSize), fileSize)
  }

  /** The reply for the parsed bounds. */
  function Answer(route: Route, start: Number, end: Number, fileSize: nat): (r: Reply)
    ensures r.Partial? <==> StreamAccepts(start, end)
    ensures r.Partial? ==> r.start == start.value && r.end == end.value
  {
    if StreamAccepts(start, end) then
      var a: nat, b: nat := start.value, end.value;
      Partial(a, b, b - a + 1, ContentRange(a, b, fileSize))
    else Refusal(route)
  }

  // ------------------------------------------------------------ lemmas

  /** The header parts of a well-formed `bytes=first-last` value. */
  lemma PartsOf(first: string, last: string)
    requires '-' !in first && '-' !in last
    ensures RangeParts(RangeHeader(first, last)) == [first, last]
  {
    ReplaceFirstAtStart("bytes=", first + "-" + last, "");
    assert "bytes=" + first + "-" + last == "bytes=" + (first + "-" + last);
    assert "" + (first + "-" + last) == Join([first, last], "-");
    SplitJoin([first, last], "-");
  }

  lemma DecHasNoDash(n: nat)
    ensures '-' !in Dec(n)
  {
    var d := Dec(n);
    forall k | 0 <= k < |d| ensures d[k] != '-' {
      assert IsDigit(d[k]);
    }
  }

  /** A `bytes=first-last` header is answered with the numbers its two parts parse to. */
  lemma ServeBounds(route: Route, first: string, last: string, fileSize: nat)
    requires '-' !in first && '-' !in last
    ensures Serve(route, Some(RangeHeader(first, last)), fileSize)
      == Answer(route, ParseInt(first), if last == [] then Some(fileSize - 1) else ParseInt(last), fileSize)
  {
    PartsOf(first, last);
  }

  /**
   * `bytes=a-b` is served from `a` to `b`, `b - a + 1` bytes, exactly when
   * `a <= b` and `b` is a safe integer; otherwise the route refuses it.
   */
  lemma ClosedRange(route: Route, a: nat, b: nat, fileSize: nat)
    ensures var r := Serve(route, Some(RangeHeader(Dec(a), Dec(b))), fileSize);
      && (a <= b <= MaxSafeInteger ==>
            r == Partial(a, b, b - a + 1, ContentRange(a, b, fileSize)))
      && (b < a || MaxSafeInteger < b ==> r == Refusal(route))
  {
    DecHasNoDash(a);
    DecHasNoDash(b);
    ServeBounds(route, Dec(a), Dec(b), fileSize);
    ParseIntDec(a);
    ParseIntDec(b);
  }

  /**
   * `bytes=a-` runs to the last byte of the file, `size - a` bytes, when `a`
   * is inside the file; a start at or past the end (and so any open range
   * on an empty file) is refused.
   */
  lemma OpenRange(route: Route, a: nat, fileSize: nat)
    ensures var r := Serve(route, Some(RangeHeader(Dec(a), "")), fileSize);
      && (a < fileSize <= MaxSafeInteger + 1 ==>
            r.Partial? && r.start == a && r.end == fileSize - 1 && r.contentLength == fileSize - a)
      && (fileSize <= a ==> r == Refusal(route))
  {
    DecHasNoDash(a);
    ServeBounds(route, Dec(a), "", fileSize);
    ParseIntDec(a);
  }

  /** The suffix form `bytes=-n` of RFC 7233 is not understood: its start is `NaN`, so it is refused. */
  lemma SuffixRange(route: Route, n: nat, fileSize: nat)
    ensures Serve(route, Some(RangeHeader("", Dec(n))), fileSize) == Refusal(route)
  {
    DecHasNoDash(n);
    ServeBounds(route, "", Dec(n), fileSize);
    assert ParseInt("") == None;
  }

  /**
   * The end is not held to the file: a range ending at or past the last
   * byte is answered with a `Content-Length` larger than what the file
   * holds from `a` on, as `bytes=0-999` on a 100-byte file claims 1000 bytes.
   */
  lemma UncheckedRange(route: Route, a: nat, b: nat, fileSize: nat)
    requires a <= b <= MaxSafeInteger && fileSize <= b
    ensures var r := Serve(route, Some(RangeHeader(Dec(a), Dec(b))), fileSize);
      r.Partial? && r.end == b && r.contentLength > fileSize - a
  {
    ClosedRange(route, a, b, fileSize);
  }
}
