/** The Express handlers around the store: error classification, the
    placeholder duration and the track upload. */
module Routes {
  import opened Common
  import opened Text
  import opened Schema
  import opened Catalog
  import opened Storage

  /** What a handler can catch: a schema validation failure (a `ZodError`,
      carrying its issue messages) or any other thrown value, whose `message`
      may be missing. */
  datatype Thrown = ValidationError(issues: seq<string>) | OtherError(message: Option<string>)

  /** A JSON reply `{ message }` with a status code. */
  datatype Reply = Reply(status: int, message: string)

  const InternalError := "Internal server error"

  /** The message `fromZodError` builds from the issues, with its default
      prefix and separator. */
  function ValidationMessage(issues: seq<string>): string
    decreases |issues|
  {
    "Validation error: " + JoinIssues(issues)
  }

  function JoinIssues(issues: seq<string>): string
    decreases |issues|
  {
    if issues == [] then ""
    else if |issues| == 1 then issues[0]
    else issues[0] + "; " + JoinIssues(issues[1..])
  }

  /** `handleError`: validation failures are the client's fault (400);
      everything else is a 500 carrying the error's message, or a generic
      one when the message is missing or empty. */
  function HandleError(e: Thrown): (r: Reply)
    ensures r.status == 400 <==> e.ValidationError?
    ensures r.status == 500 <==> e.OtherError?
    ensures e.ValidationError? ==> r.message == ValidationMessage(e.issues)
    ensures e.OtherError? ==> r.message == FieldOr(e.message, InternalError)
  {
    match e
    case ValidationError(issues) => Reply(400, ValidationMessage(issues))
    case OtherError(m) => Reply(500, FieldOr(m, InternalError))
  }

  /** `getAudioDuration`: `Math.floor(Math.random() * 300) + 120`, where
      `random` is the value `Math.random` returned. */
  function AudioDuration(random: real): (d: int)
    requires 0.0 <= random < 1.0
    ensures 120 <= d <= 419
  {
    (random * 300.0).Floor + 120
  }

  /** The MIME types and size limit the upload middleware is configured with. */
  const MiddlewareTypes: seq<string> := ["audio/mpeg", "audio/wav", "audio/flac"]
  const MiddlewareLimit: int := 52_428_800  // 50 * 1024 * 1024

  const FilterMessage := "Only MP3, WAV, and FLAC files are allowed"
  const TooLargeMessage := "File too large"

  /** A file part as the upload middleware hands it over. */
  datatype UploadedFile = UploadedFile(originalName: string, mimeType: string, size: nat)

  /** The middleware's verdict on a file: the MIME filter runs first, the
      size limit (inclusive) while the bytes stream in. */
  function MiddlewareCheck(f: UploadedFile): (r: Option<string>)
    ensures r == None <==> f.mimeType in MiddlewareTypes && f.size <= MiddlewareLimit
    ensures f.mimeType !in MiddlewareTypes ==> r == Some(FilterMessage)
    ensures f.mimeType in MiddlewareTypes && f.size > MiddlewareLimit ==> r == Some(TooLargeMessage)
  {
    if f.mimeType !in MiddlewareTypes then Some(FilterMessage)
    else if f.size > MiddlewareLimit then Some(TooLargeMessage)
    else None
  }

  /** The middleware and the upload schema agree on every file: same type
      list, same inclusive 50 MiB ceiling. */
  lemma MiddlewareMatchesSchema(f: UploadedFile)
    ensures MiddlewareCheck(f) == None <==> FileIssues(FileInfo(f.mimeType, f.size)) == []
  {
  }

  /** What the environment supplies to one upload: the random UUID, the
      value `Math.random` returns, the clock, and the outcome of writing the
      file (`Some(message)` when the write throws). */
  datatype UploadEnv = UploadEnv(uuid: string, random: real, now: int, saveError: Option<string>)

  /** The result of `POST /api/tracks`: refused by the middleware before the
      handler runs, answered with an error, or 201 with the new track. */
  datatype UploadReply =
    | Refused(reason: string)
    | Failed(reply: Reply)
    | Created(track: Track)

  /** The stored name of an upload: the UUID followed by the extension of
      the name the client sent. */
  function StoredName(uuid: string, originalName: string): (r: string)
    ensures StartsWith(r, uuid)
    ensures r[|uuid|..] == Extname(originalName)
  {
    var r := uuid + Extname(originalName);
    assert r[..|uuid|] == uuid;
    r
  }

  /** The track fields the handler derives from the form. */
  function UploadDraft(form: UploadForm, filename: string, duration: int): (d: TrackDraft)
    ensures ValidateTrack(d).Ok?
  {
    TrackDraft(
      Some(FieldOr(form.title, UntitledTitle)),
      Some(FieldOr(form.artist, UnknownArtist)),
      FieldOrNull(form.album),
      Some(duration),
      Some(filename),
      FieldOrNull(form.coverImage))
  }

  /** The upload route: middleware, then the handler. */
  function Upload(s: Store, file: Option<UploadedFile>, form: UploadForm, env: UploadEnv): (res: (Store, UploadReply))
    requires 0.0 <= env.random < 1.0
    ensures file.None? ==> res.1 == Failed(Reply(400, "No file uploaded"))
    ensures file.Some? && MiddlewareCheck(file.value).Some? ==> res.1 == Refused(MiddlewareCheck(file.value).value)
    ensures res.1.Created? <==> file.Some? && MiddlewareCheck(file.value).None? && env.saveError.None?
    ensures file.Some? && MiddlewareCheck(file.value).None? && env.saveError.Some? ==>
      res.1 == Failed(Reply(500, FieldOr(env.saveError, InternalError)))
    ensures !res.1.Created? ==> res.0 == s
    ensures res.1.Failed? ==> res.1.reply.status == 400 || res.1.reply.status == 500
    ensures res.1.Created? ==>
      var t := res.1.track;
      && t.title == FieldOr(form.title, UntitledTitle)
      && t.artist == FieldOr(form.artist, UnknownArtist)
      && t.album == FieldOrNull(form.album)
      && t.coverImage == FieldOrNull(form.coverImage)
      && t.filename == StoredName(env.uuid, file.value.originalName)
      && 120 <= t.duration <= 419
      && t.uploadedAt == env.now
      && t.id == s.nextTrackId
      && res.0 == CreateTrack(s, NewTrack(t.title, t.artist, t.album, t.duration, t.filename, t.coverImage), env.now).0
  {
    match file
    case None => (s, Failed(Reply(400, "No file uploaded")))
    case Some(f) =>
      match MiddlewareCheck(f)
      case Some(reason) => (s, Refused(reason))
      case None =>
        var issues := FileIssues(FileInfo(f.mimeType, f.size));
        if issues != [] then (s, Failed(HandleError(ValidationError(issues))))
        else
          var filename := StoredName(env.uuid, f.originalName);
          match env.saveError
          case Some(m) => (s, Failed(HandleError(OtherError(Some(m)))))
          case None =>
            match ValidateTrack(UploadDraft(form, filename, AudioDuration(env.random)))
            case Err(missing) => (s, Failed(HandleError(ValidationError(missing))))
            case Ok(nt) =>
              var (s', t) := CreateTrack(s, nt, env.now);
              (s', Created(t))
  }

  /** An upload keeps the store's invariant and link integrity, and the new
      track is filed under the downloads playlist when that playlist exists. */
  lemma UploadKeepsStore(s: Store, file: Option<UploadedFile>, form: UploadForm, env: UploadEnv)
    requires 0.0 <= env.random < 1.0
    requires Valid(s) && Intact(s)
    ensures Valid(Upload(s, file, form, env).0) && Intact(Upload(s, file, form, env).0)
    ensures var (s', r) := Upload(s, file, form, env);
      r.Created? && DownloadsPlaylist(s).Some? ==>
        exists l :: l in s'.links && l.trackId == r.track.id && l.playlistId == DownloadsPlaylist(s).value.id
  {
    var (s', r) := Upload(s, file, form, env);
    if r.Created? && DownloadsPlaylist(s).Some? {
      assert s'.links[|s'.links| - 1] in s'.links;
    }
  }
}
