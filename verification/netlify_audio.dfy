/** The serverless audio function: a fixed table of two mock files, a
    plain route that always answers 1024 generated bytes, and a `/stream`
    route that serves byte ranges of a pretend 5 MiB file. The generated
    bytes are random and only their number is modelled. */
module NetlifyAudio {
  import opened Common
  import opened Audio

  /** The keys of the mock table. */
  const MockFiles: set<string> := {"track1.mp3", "track2.mp3"}

  /** The names every plain JavaScript object inherits from
      `Object.prototype`; indexing the table with one of them yields a
      function, which is truthy. */
  const PrototypeNames: set<string> := {
    "constructor", "hasOwnProperty", "isPrototypeOf", "propertyIsEnumerable",
    "toLocaleString", "toString", "valueOf", "__proto__",
    "__defineGetter__", "__defineSetter__", "__lookupGetter__", "__lookupSetter__"}

  /** `mockAudioFiles[filename]` is truthy, as the code is written: an own
      key or an inherited one. */
  predicate FoundAsWritten(filename: string) {
    filename in MockFiles || filename in PrototypeNames
  }

  /** The intended lookup: only the table's own keys. */
  predicate Found(filename: string) {
    filename in MockFiles
  }

  /** The size the stream route pretends the file has, 5 MiB (5 * 1024 * 1024 bytes). */
  const MockFileSize: nat := 5_242_880

  /** The size of the plain route's generated body. */
  const PlainBodySize: nat := 1024

  const NotFound := JsonReply(404, "Audio file not found")

  /** The plain route's answer once the lookup has passed. */
  const PlainReply := Stream(200, Headers(None, Some("bytes"), PlainBodySize, AudioType), MockBytes(PlainBodySize))

  /** `GET /:filename`, with the intended lookup. */
  function ServePlain(filename: string): (r: AudioReply)
    ensures r.JsonReply? <==> !Found(filename)
    ensures r.JsonReply? ==> r == NotFound
    ensures r.Stream? ==>
      && r.status == 200
      && r.headers.contentLength == 1024 && r.headers.acceptRanges == Some("bytes")
      && r.body == MockBytes(r.headers.contentLength)
  {
    if !Found(filename) then NotFound
    else PlainReply
  }

  /** The 206 answer for a range of a `size`-byte mock file: the range
      headers and `end - start + 1` generated bytes. */
  function RangeReply(br: ByteRange, size: nat): (r: AudioReply)
    ensures r.Stream? && r.status == 206
    ensures r.headers == PartialHeaders(br, size)
    ensures r.body.MockBytes? && r.body.length == r.headers.contentLength
    ensures r.body.length == LastByte(br, size) - br.start + 1
  {
    var chunk := LastByte(br, size) - br.start + 1;
    Stream(206, PartialHeaders(br, size), MockBytes(chunk))
  }

  /** `GET /:filename/stream`, with the intended lookup. */
  function ServeStream(filename: string, range: Option<ByteRange>): (r: AudioReply)
    ensures r.JsonReply? <==> !Found(filename)
    ensures r.JsonReply? ==> r == NotFound
    ensures r.Stream? && range.None? ==>
      r == Stream(200, Headers(None, None, MockFileSize, AudioType), MockBytes(MockFileSize))
    ensures r.Stream? && range.Some? ==>
      && r.status == 206
      && r.headers == PartialHeaders(range.value, MockFileSize)
      && r.body.MockBytes? && r.body.length == r.headers.contentLength
      && r.body.length == LastByte(range.value, MockFileSize) - range.value.start + 1
  {
    if !Found(filename) then NotFound else StreamReply(range)
  }

  /** What the stream route answers once the lookup has passed: the whole
      pretend file, or the 206 answer for the requested range. */
  function StreamReply(range: Option<ByteRange>): AudioReply {
    match range
    case None => Stream(200, Headers(None, None, MockFileSize, AudioType), MockBytes(MockFileSize))
    case Some(br) => RangeReply(br, MockFileSize)
  }

  /** The plain route as written: inherited names pass the lookup. */
  function ServePlainAsWritten(filename: string): (r: AudioReply)
    ensures r.JsonReply? <==> !FoundAsWritten(filename)
    ensures r.JsonReply? ==> r == NotFound
    ensures FoundAsWritten(filename) ==> r == ServePlain("track1.mp3")
  {
    if !FoundAsWritten(filename) then NotFound
    else PlainReply
  }

  /** The stream route as written: inherited names pass the lookup too. */
  function ServeStreamAsWritten(filename: string, range: Option<ByteRange>): (r: AudioReply)
    ensures r.JsonReply? <==> !FoundAsWritten(filename)
    ensures r.JsonReply? ==> r == NotFound
    ensures FoundAsWritten(filename) ==> r == ServeStream("track1.mp3", range)
  {
    if !FoundAsWritten(filename) then NotFound else StreamReply(range)
  }

  /** `/toString/stream` with `Range: bytes=0-99` gets a 206 and 100 bytes
      of audio from the code as written, while the intended lookup answers
      404. */
  lemma InheritedStreamServed()
    ensures var r := ServeStreamAsWritten("toString", Some(ByteRange(0, Some(99))));
      r.Stream? && r.status == 206 && r.body.MockBytes? && r.body.length == 100
    ensures ServeStream("toString", Some(ByteRange(0, Some(99)))) == NotFound
  {
    assert "toString" in PrototypeNames;
    assert "toString" !in MockFiles;
    assert "track1.mp3" in MockFiles;
  }

  /** Both stream lookups agree on every name that is not inherited. */
  lemma StreamLookupsAgree(filename: string, range: Option<ByteRange>)
    requires filename !in PrototypeNames
    ensures ServeStreamAsWritten(filename, range) == ServeStream(filename, range)
  {
  }

  /** A request for `/toString` is served 1024 bytes of audio by the code
      as written, while the intended lookup answers 404. */
  lemma InheritedNameServed()
    ensures ServePlainAsWritten("toString").Stream?
    ensures ServePlain("toString") == NotFound
  {
    assert "toString" in PrototypeNames;
    assert "toString" !in MockFiles;
  }

  /** Both lookups agree on every name that is not inherited. */
  lemma LookupsAgree(filename: string)
    requires filename !in PrototypeNames
    ensures ServePlainAsWritten(filename) == ServePlain(filename)
  {
  }

  /** Any range on a mock file: 206, a `Content-Range` that reads back as
      start, last byte and 5 MiB, and a body of the inclusive span. */
  lemma StreamAnyRange(filename: string, br: ByteRange)
    requires Found(filename)
    ensures var r := ServeStream(filename, Some(br));
      && r.status == 206
      && ParseContentRange(r.headers.contentRange.value) == Some((br.start as int, LastByte(br, MockFileSize), MockFileSize as int))
      && r.body.MockBytes? && r.body.length == LastByte(br, MockFileSize) - br.start + 1
  {
    assert ServeStream(filename, Some(br)).Stream?;
  }

  /** `bytes=S-E` on a mock file: 206, a `Content-Range` naming S, E and
      5242880, and exactly `E - S + 1` generated bytes. */
  lemma StreamRange(filename: string, start: nat, end: nat)
    requires Found(filename)
    ensures var r := ServeStream(filename, Some(ByteRange(start, Some(end))));
      && r.status == 206
      && ParseContentRange(r.headers.contentRange.value) == Some((start as int, end as int, 5242880))
      && r.body.MockBytes? && r.body.length == end - start + 1
  {
    StreamAnyRange(filename, ByteRange(start, Some(end)));
  }

  /** `bytes=S-` ends at byte 5242879. */
  lemma StreamOpenEnded(filename: string, start: nat)
    requires Found(filename)
    ensures var r := ServeStream(filename, Some(ByteRange(start, None)));
      && ParseContentRange(r.headers.contentRange.value) == Some((start as int, 5242879, 5242880))
      && r.body.MockBytes? && r.body.length == 5242880 - start
  {
    StreamAnyRange(filename, ByteRange(start, None));
  }
}
