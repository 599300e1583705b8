/** The three tables of the shared schema, the insert shapes the store
    accepts, and the upload descriptor check. */
module Schema {
  import opened Common

  /** A row of `tracks`: `album` and `coverImage` are nullable, times are
      milliseconds since the epoch. */
  datatype Track = Track(
    id: int,
    title: string,
    artist: string,
    album: Option<string>,
    duration: int,
    filename: string,
    coverImage: Option<string>,
    uploadedAt: int)

  /** A row of `playlists`. */
  datatype Playlist = Playlist(id: int, name: string, createdAt: int)

  /** A row of `playlist_tracks`, the many-to-many link. */
  datatype PlaylistTrack = PlaylistTrack(id: int, playlistId: int, trackId: int, addedAt: int)

  /** `InsertTrack`: a track without the store-assigned `id` and `uploadedAt`. */
  datatype NewTrack = NewTrack(
    title: string,
    artist: string,
    album: Option<string>,
    duration: int,
    filename: string,
    coverImage: Option<string>)

  /** The object handed to the insert schema; `None` is a missing or null field. */
  datatype TrackDraft = TrackDraft(
    title: Option<string>,
    artist: Option<string>,
    album: Option<string>,
    duration: Option<int>,
    filename: Option<string>,
    coverImage: Option<string>)

  /** The draft describing an insert record field for field. */
  function DraftOf(t: NewTrack): TrackDraft {
    TrackDraft(Some(t.title), Some(t.artist), t.album, Some(t.duration), Some(t.filename), t.coverImage)
  }

  /** `insertTrackSchema.parse`: title, artist, duration and filename are
      required (NOT NULL columns); album and coverImage may be null; id and
      uploadedAt are not part of the shape. Errors name the missing fields. */
  function ValidateTrack(d: TrackDraft): (r: Result<NewTrack, seq<string>>)
    ensures r.Ok? <==> d.title.Some? && d.artist.Some? && d.duration.Some? && d.filename.Some?
    ensures r.Ok? ==> DraftOf(r.value) == d
    ensures r.Err? ==> ("title" in r.error <==> d.title.None?)
    ensures r.Err? ==> ("artist" in r.error <==> d.artist.None?)
    ensures r.Err? ==> ("duration" in r.error <==> d.duration.None?)
    ensures r.Err? ==> ("filename" in r.error <==> d.filename.None?)
    ensures r.Err? ==> forall f :: f in r.error ==> f in ["title", "artist", "duration", "filename"]
  {
    var missing :=
      (if d.title.None? then ["title"] else [])
      + (if d.artist.None? then ["artist"] else [])
      + (if d.duration.None? then ["duration"] else [])
      + (if d.filename.None? then ["filename"] else []);
    if missing == [] then
      Ok(NewTrack(d.title.value, d.artist.value, d.album, d.duration.value, d.filename.value, d.coverImage))
    else
      Err(missing)
  }

  /** Every insert record passes the schema unchanged. */
  lemma ValidateDraftOf(t: NewTrack)
    ensures ValidateTrack(DraftOf(t)) == Ok(t)
  {
  }

  /** `insertPlaylistSchema.parse`: only `name` is required; id and createdAt
      are assigned by the store. */
  function ValidatePlaylist(name: Option<string>): (r: Result<string, seq<string>>)
    ensures r.Ok? <==> name.Some?
    ensures r.Ok? ==> r.value == name.value
    ensures r.Err? ==> r.error == ["name"]
  {
    match name
    case Some(n) => Ok(n)
    case None => Err(["name"])
  }

  /** `insertPlaylistTrackSchema.parse`: both ids are required; id and
      addedAt are assigned by the store. */
  function ValidateLink(playlistId: Option<int>, trackId: Option<int>): (r: Result<(int, int), seq<string>>)
    ensures r.Ok? <==> playlistId.Some? && trackId.Some?
    ensures r.Ok? ==> r.value == (playlistId.value, trackId.value)
    ensures r.Err? ==> ("playlistId" in r.error <==> playlistId.None?)
    ensures r.Err? ==> ("trackId" in r.error <==> trackId.None?)
  {
    var missing := (if playlistId.None? then ["playlistId"] else []) + (if trackId.None? then ["trackId"] else []);
    if missing == [] then Ok((playlistId.value, trackId.value)) else Err(missing)
  }

  /** The MIME types an upload may have. */
  const AllowedTypes: seq<string> := ["audio/mpeg", "audio/wav", "audio/flac"]

  /** The size ceiling of an upload, 50 MiB (50 * 1024 * 1024 bytes), inclusive. */
  const MaxUploadBytes: int := 52_428_800

  const TypeMessage := "Only MP3, WAV, and FLAC files are supported"
  const SizeMessage := "File size must be less than 50MB"

  /** The `file` object the upload schema is given. */
  datatype FileInfo = FileInfo(mimeType: string, size: int)

  /** The refinements of `uploadFileSchema`. Neither refinement is fatal, so
      both run and every failed check contributes its message, type first. */
  function FileIssues(f: FileInfo): (r: seq<string>)
    ensures r == [] <==> f.mimeType in AllowedTypes && f.size <= MaxUploadBytes
    ensures TypeMessage in r <==> f.mimeType !in AllowedTypes
    ensures SizeMessage in r <==> f.size > MaxUploadBytes
    ensures |r| <= 2 && (|r| == 2 ==> r == [TypeMessage, SizeMessage])
  {
    (if f.mimeType in AllowedTypes then [] else [TypeMessage])
    + (if f.size <= MaxUploadBytes then [] else [SizeMessage])
  }

  /** The ceiling is inclusive: 52,428,800 bytes pass, one more byte fails. */
  lemma UploadCeiling(t: string)
    requires t in AllowedTypes
    ensures FileIssues(FileInfo(t, 52428800)) == []
    ensures FileIssues(FileInfo(t, 52428801)) == [SizeMessage]
  {
  }

  /** The text fields of an upload form; `None` is a field left out. */
  datatype UploadForm = UploadForm(
    title: Option<string>,
    artist: Option<string>,
    album: Option<string>,
    coverImage: Option<string>)

  const UntitledTitle := "Untitled"
  const UnknownArtist := "Unknown Artist"

  /** A form field is given when it is present and non-empty (`""` is falsy). */
  predicate Given(v: Option<string>) {
    v.Some? && v.value != ""
  }

  /** `field || fallback`. */
  function FieldOr(v: Option<string>, fallback: string): (r: string)
    ensures Given(v) ==> r == v.value
    ensures !Given(v) ==> r == fallback
  {
    if Given(v) then v.value else fallback
  }

  /** `field || null`. */
  function FieldOrNull(v: Option<string>): (r: Option<string>)
    ensures r.Some? <==> Given(v)
    ensures r.Some? ==> r == v
  {
    if Given(v) then v else None
  }
}
