/** The Express audio route: look the track up, check its file, and answer
    either the whole file (200) or one byte range (206) — the single-range,
    no-suffix subset of section 14 of RFC 9110. */
module Audio {
  import opened Common
  import opened Decimal
  import opened Text
  import opened Schema
  import opened Storage

  /** A `Range: bytes=S-E` header after splitting on "-" and `parseInt`.
      The split leaves no sign for `parseInt` to read, so both numbers are
      naturals; `end` is absent when nothing follows the dash. */
  datatype ByteRange = ByteRange(start: nat, end: Option<nat>)

  datatype Headers = Headers(
    contentRange: Option<string>,
    acceptRanges: Option<string>,
    contentLength: int,
    contentType: string)

  /** What is streamed: bytes `first..last` (inclusive) of the file, the
      whole file, or `length` generated bytes. */
  datatype Body = FileBytes(first: int, last: int) | WholeFile | MockBytes(length: int)

  datatype AudioReply =
    | JsonReply(status: int, message: string)
    | Stream(status: int, headers: Headers, body: Body)

  const AudioType := "audio/mpeg"

  /** The last byte asked for: the given end, or `size - 1`. */
  function LastByte(r: ByteRange, size: int): int {
    match r.end
    case Some(e) => e
    case None => size - 1
  }

  /** The `Content-Range` value, `bytes S-E/size`. */
  function ContentRange(start: nat, end: int, size: nat): string {
    "bytes " + NatToString(start) + "-" + IntToString(end) + "/" + NatToString(size)
  }

  /** Reads a `bytes S-E/size` value back. */
  function ParseContentRange(h: string): Option<(int, int, int)> {
    if !StartsWith(h, "bytes ") then None
    else match SplitOnce(h[6..], '-')
    case None => None
    case Some((a, rest)) =>
      match SplitOnce(rest, '/')
      case None => None
      case Some((e, n)) => ParseNumbers(a, e, n)
  }

  function ParseNumbers(a: string, e: string, n: string): Option<(int, int, int)> {
    match (ParseNat(a), ParseInt(e), ParseNat(n))
    case (Some(s), Some(e), Some(n)) => Some((s as int, e, n as int))
    case _ => None
  }

  lemma ParseShape(a: string, e: string, n: string)
    requires '-' !in a && '/' !in e
    ensures ParseContentRange("bytes " + (a + ['-'] + (e + ['/'] + n))) == ParseNumbers(a, e, n)
  {
    var h := "bytes " + (a + ['-'] + (e + ['/'] + n));
    assert StartsWith(h, "bytes ");
    assert h[6..] == a + ['-'] + (e + ['/'] + n);
    SplitOnceOf(a, '-', e + ['/'] + n);
    SplitOnceOf(e, '/', n);
  }

  /** The header is the three printed numbers around `-` and `/`. */
  lemma ContentRangeFields(start: nat, end: int, size: nat)
    ensures ContentRange(start, end, size) ==
      "bytes " + (NatToString(start) + ['-'] + (IntToString(end) + ['/'] + NatToString(size)))
  {
  }

  /** The header names exactly the start, end and size it was built from. */
  lemma ContentRangeRoundTrip(start: nat, end: int, size: nat)
    ensures ParseContentRange(ContentRange(start, end, size)) == Some((start, end, size))
  {
    var a, e, n := NatToString(start), IntToString(end), NatToString(size);
    ContentRangeFields(start, end, size);
    DigitsHaveNo(a, '-');
    assert '/' !in e by {
      if end >= 0 {
        DigitsHaveNo(e, '/');
      } else {
        DigitsHaveNo(NatToString(-end), '/');
      }
    }
    ParseShape(a, e, n);
    NatRoundTrip(start);
    IntRoundTrip(end);
    NatRoundTrip(size);
  }

  /** A header that reads back splits into its three number fields. */
  lemma ContentRangePieces(h: string) returns (a: string, e: string, n: string)
    requires ParseContentRange(h).Some?
    ensures h == "bytes " + (a + ['-'] + (e + ['/'] + n))
    ensures ParseNumbers(a, e, n) == ParseContentRange(h)
  {
    var tail := h[6..];
    assert h == "bytes " + tail;
    var rest;
    a, rest := SplitOnce(tail, '-').value.0, SplitOnce(tail, '-').value.1;
    e, n := SplitOnce(rest, '/').value.0, SplitOnce(rest, '/').value.1;
  }

  /** Only the header built from S, E and size reads back as them: a
      leading zero or `-0` in any number is refused. */
  lemma ContentRangeExact(h: string, start: int, end: int, size: int)
    requires ParseContentRange(h) == Some((start, end, size))
    ensures start >= 0 && size >= 0 && h == ContentRange(start, end, size)
  {
    var a, e, n := ContentRangePieces(h);
    assert ParseNat(a) == Some(start) && ParseInt(e) == Some(end) && ParseNat(n) == Some(size);
    NatExact(a, start);
    IntExact(e, end);
    NatExact(n, size);
    ContentRangeFields(start, end, size);
  }

  /** A header reads back as S, E and size exactly when it is the header
      built from them. */
  lemma ContentRangeText(h: string, start: nat, end: int, size: nat)
    ensures ParseContentRange(h) == Some((start as int, end, size as int)) <==> h == ContentRange(start, end, size)
  {
    if ParseContentRange(h) == Some((start as int, end, size as int)) {
      ContentRangeExact(h, start, end, size);
    } else {
      ContentRangeRoundTrip(start, end, size);
    }
  }

  /** The 206 headers for a range of a resource of `size` bytes: the
      `Content-Range` is the one text that reads back as start, last byte
      and size, the length is the inclusive span, and `Accept-Ranges`
      advertises byte ranges. */
  function PartialHeaders(r: ByteRange, size: nat): (h: Headers)
    ensures h.contentRange.Some?
    ensures ParseContentRange(h.contentRange.value) == Some((r.start as int, LastByte(r, size), size as int))
    ensures forall x :: ParseContentRange(x) == Some((r.start as int, LastByte(r, size), size as int)) ==> x == h.contentRange.value
    ensures h.acceptRanges == Some("bytes")
    ensures h.contentLength == LastByte(r, size) - r.start + 1
    ensures h.contentType == AudioType
  {
    ContentRangeRoundTrip(r.start, LastByte(r, size), size);
    forall x | ParseContentRange(x) == Some((r.start as int, LastByte(r, size), size as int))
      ensures x == ContentRange(r.start, LastByte(r, size), size)
    {
      ContentRangeExact(x, r.start, LastByte(r, size), size);
    }
    Headers(Some(ContentRange(r.start, LastByte(r, size), size)), Some("bytes"), LastByte(r, size) - r.start + 1, AudioType)
  }

  /** `GET /api/audio/:filename`. `file` is what the file system reports
      for the stored name: `None` when absent, otherwise its size. */
  function ServeAudio(s: Store, filename: string, file: Option<nat>, range: Option<ByteRange>): (r: AudioReply)
    ensures GetTrackByFilename(s, filename).None? ==> r == JsonReply(404, "Track not found")
    ensures GetTrackByFilename(s, filename).Some? && file.None? ==> r == JsonReply(404, "Audio file not found")
    ensures r.JsonReply? ==> r.status == 404
    ensures r.Stream? ==> GetTrackByFilename(s, filename).Some? && file.Some?
    ensures r.Stream? && range.None? ==>
      r == Stream(200, Headers(None, None, file.value, AudioType), WholeFile)
    ensures r.Stream? && range.Some? ==>
      && r.status == 206
      && r.headers == PartialHeaders(range.value, file.value)
      && r.body == FileBytes(range.value.start, LastByte(range.value, file.value))
  {
    if GetTrackByFilename(s, filename).None? then JsonReply(404, "Track not found")
    else match file
    case None => JsonReply(404, "Audio file not found")
    case Some(size) =>
      match range
      case Some(br) => Stream(206, PartialHeaders(br, size), FileBytes(br.start, LastByte(br, size)))
      case None => Stream(200, Headers(None, None, size, AudioType), WholeFile)
  }

  /** An open-ended range `bytes=S-` runs to the last byte, so its length
      is `size - S`. */
  lemma OpenEndedLength(s: Store, filename: string, size: nat, start: nat)
    requires GetTrackByFilename(s, filename).Some?
    ensures var r := ServeAudio(s, filename, Some(size), Some(ByteRange(start, None)));
      r.Stream? && r.status == 206 && r.headers.contentLength == size - start
      && ParseContentRange(r.headers.contentRange.value) == Some((start as int, size - 1, size as int))
  {
  }

  /** A satisfiable range (start <= end < size) yields between 1 and
      `size - start` bytes, and the body covers exactly that span. */
  lemma SatisfiableRange(s: Store, filename: string, size: nat, br: ByteRange)
    requires GetTrackByFilename(s, filename).Some?
    requires br.start <= LastByte(br, size) < size
    ensures var r := ServeAudio(s, filename, Some(size), Some(br));
      && 1 <= r.headers.contentLength <= size - br.start
      && r.headers.contentLength == r.body.last - r.body.first + 1
  {
  }

  /** The route never compares the range with the file: an end past the
      last byte is echoed, and the advertised length exceeds the bytes the
      file holds from the start on. */
  lemma NoBoundsCheck(s: Store, filename: string)
    requires GetTrackByFilename(s, filename).Some?
    ensures var r := ServeAudio(s, filename, Some(100), Some(ByteRange(50, Some(200))));
      && r.status == 206 && r.headers.contentLength == 151
      && ParseContentRange(r.headers.contentRange.value) == Some((50, 200, 100))
  {
  }

  lemma HundredHeader(n: nat)
    ensures ContentRange(0, 99, n) == "bytes 0-99/" + NatToString(n)
  {
    assert DigitChar(9) == '9';
    assert NatToString(9) == "9";
    assert NatToString(99) == NatToString(9) + [DigitChar(9)];
  }

  /** Bytes 0-99 of an N-byte file: 206, `bytes 0-99/N`, 100 bytes. */
  lemma FirstHundredBytes(s: Store, filename: string, n: nat)
    requires GetTrackByFilename(s, filename).Some?
    ensures var r := ServeAudio(s, filename, Some(n), Some(ByteRange(0, Some(99))));
      && r.status == 206
      && r.headers.contentRange == Some("bytes 0-99/" + NatToString(n))
      && r.headers.contentLength == 100
  {
    HundredHeader(n);
  }
}
