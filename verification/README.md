# Webmedia music library — a Dafny model

Webmedia is a small music library. An Express server keeps tracks, playlists
and playlist–track links in memory, accepts audio uploads and streams audio
files with HTTP byte ranges. A serverless twin of the API works on seeded
arrays. A React client plays tracks from a queue and formats durations,
relative dates and API URLs.

This project models the sequential core of that system as pure Dafny
functions over immutable datatypes, and proves what each part promises:

- **Library store** (`storage.dfy`, `catalog.dfy`). The three tables are
  sequences kept in insertion order, as JavaScript `Map`s iterate. Each table
  has its own id counter. The model covers:
  - the default playlists created by the constructor;
  - the side effect of `createTrack`, which links every new track to the
    "Musiques téléchargées" playlist;
  - cascading deletes;
  - the case-insensitive search;
  - playlist membership;
  - the newest-first stable sort.

  Any run of store operations keeps ids unique and never reuses a track
  id. It keeps links intact when links are added only between existing rows.
- **Serverless store** (`netlify_api.dfy`). The seed data, search and
  membership queries, and the upload handler, which allocates ids as
  `max(ids, 0) + 1`.
- **Upload validation** (`schema.dfy`, `routes.dfy`). The insert schemas, the
  upload file schema, and the upload middleware's filter and size limit. It
  also covers the handler's form defaults, the stored file name and
  `handleError`'s 400/500 classification.
- **Byte ranges** (`audio.dfy`, `netlify_audio.dfy`). The single-range,
  no-suffix subset of section 14 of RFC 9110 that both audio routes
  implement. The `Content-Range` value is rendered and parsed back.
- **Playback controller** (`player.dfy`, `player_view.dfy`). The music
  context as a state machine. The audio element is reduced to its source,
  current time and playing flag. Whether `load()`/`play()` succeed is an
  input. The player hook's labels, percentage and seeking are modelled too.
- **Formatters** (`format.dfy`, `query.dfy`). Artwork placeholders, `m:ss`
  durations with a parser that reads them back, and French relative times
  with a parser that reads them back. Also `getApiUrl`, `throwIfResNotOk` and
  the query function's 401 branch.

`common.dfy`, `decimal.dfy` and `text.dfy` hold the JavaScript primitives the
rest needs:
- `Option`/`Result`, `Array.prototype.find` and `Array.prototype.filter`, with a proof that filtering keeps order;
- integer rendering (`${n}`) with a parser that accepts exactly the printed form;
- `startsWith`, `includes`, `indexOf`/`lastIndexOf`, and splitting at the
  first separator;
- Node's `path.extname`.

Inputs the environment supplies become parameters:
- clock readings (`now`), `Math.random` results, `crypto.randomUUID`;
- the file system's answer (does the file exist, and its size);
- the outcome of writing a file;
- the outcome of `res.json()` on an ok response: the parsed value (kept as text) or the parser's error;
- Unicode `toLowerCase` (a function `lower`);
- `encodeURIComponent`;
- the deployment's API base.

## Model

| member | source | states |
|---|---|---|
| Storage.Init | server/storage.ts:51-62 | A fresh store has no tracks and no links. Its playlists are exactly "Favoris" (id 1) and "Musiques téléchargées" (id 2). The counters stand at 1, 3 and 1, and the store is valid and intact. |
| Storage.CreatePlaylist | server/storage.ts:134-143 | The playlist takes the counter's value and is appended. The counter moves on by one, nothing else changes, and the id is fresh in a valid store. |
| Storage.GetTracks | server/storage.ts:65-70 | The result is a permutation of the tracks, newest upload first. Tracks with the same timestamp keep their table order, as the stable sort does. |
| Catalog.SortNewestFirst | server/storage.ts:66-69 | The sort's output is ordered newest first and is a permutation of its input. |
| Catalog.SortStable | server/storage.ts:66-69 | For every timestamp, the tracks carrying it appear in the same relative order before and after sorting. |
| Catalog.SortSorted | server/storage.ts:66-69 | An already newest-first sequence is returned unchanged. |
| Catalog.InsertSorted | server/storage.ts:66-69 | Inserting into a newest-first sequence keeps it newest first. |
| Storage.GetTrack | server/storage.ts:72-74 | Returns a stored track with that id. It returns nothing exactly when no stored track has the id. |
| Storage.GetTrackByFilename | server/storage.ts:76-78 | Returns the first track, in table order, stored under that filename: every earlier track has another filename. It returns nothing exactly when no track has the filename. |
| Common.Find | server/storage.ts:77 | `find` returns an element satisfying the test, and every element before it fails the test. It returns nothing exactly when every element fails. |
| Storage.GetPlaylist | server/storage.ts:130-132 | Returns a stored playlist with that id. It returns nothing exactly when the id is absent. |
| Storage.CreateTrack | server/storage.ts:80-99 | The track takes the counter's value and the counter moves on. Exactly one link to the first "Musiques téléchargées" playlist is added when that playlist exists, and no link otherwise. Validity and integrity are kept, and the new id exceeds every stored id. |
| Storage.AddTrackToPlaylist | server/storage.ts:168-177 | Appends exactly one link under the link counter. Tracks and playlists are unchanged. The link id is fresh, and integrity is kept when both rows exist. |
| Storage.DeleteTrack | server/storage.ts:101-112 | Returns true iff the track existed. Exactly the links naming the track disappear, and in a valid store all other links stay. The remaining tracks and links keep their table order. No playlist lists the track afterwards, and validity and integrity are kept. |
| Storage.DeletePlaylist | server/storage.ts:145-156 | Returns true iff the playlist existed. Exactly the links into it disappear, all others stay (valid store), and the remaining playlists and links keep their table order. Tracks are untouched. |
| Storage.SearchTracks | server/storage.ts:114-123 | The empty query returns what `getTracks` returns. Any other query keeps, in table order, exactly the tracks whose lowercased title, artist or non-empty album contains the lowercased query. |
| Catalog.SearchFilter | server/storage.ts:117-122 | Membership in the result is exactly the substring test on title, artist or non-empty album, and the matches keep their table order. A table without duplicates yields a result without duplicates. |
| Text.Includes | server/storage.ts:119-121 | `includes` holds exactly when the needle occurs at some position of the haystack. |
| Storage.GetPlaylistTracks | server/storage.ts:159-166 | Returns exactly the stored tracks that some link of the playlist names, in table order. In a valid store each appears once, even when links are duplicated. |
| Catalog.TracksInPlaylist | server/storage.ts:159-166 | Filtering tracks by the playlist's linked ids keeps exactly the linked tracks, in table order. A table without duplicates yields none. |
| Common.FilterSubsequence | server/storage.ts:164-165 | `filter` keeps the surviving elements in their original order: the result embeds into the input at strictly increasing positions. |
| Catalog.LinkedTrackIds | server/storage.ts:160-162 | The mapped id list holds exactly the track ids of the playlist's links. |
| Storage.FirstJoin | server/storage.ts:180-181 | `find` returns the first link joining the playlist and the track, or none when no link joins them. |
| Storage.RemoveTrackFromPlaylist | server/storage.ts:179-188 | Returns true iff some link joins the two. Then exactly the first such link is removed, and duplicates stay. Otherwise the store is unchanged. |
| Storage.DeleteOneLink | server/storage.ts:183-185 | Deleting by the id of one row in a table with unique ids removes that row and no other. |
| Storage.Step | server/storage.ts:80-188 | Every mutating store call keeps the invariant, and none lowers the track counter. |
| Storage.RunValid | server/storage.ts:80-188 | Any sequence of store calls keeps ids unique and below their counters. |
| Storage.IdsNeverReused | server/storage.ts:80-87 | Track ids handed out along any run, deletes included, strictly increase. They lie between the starting counter and the final one. |
| Storage.IdsNeverReusedCounter | server/storage.ts:81 | No run lowers the track counter. |
| Storage.FreshAfterRun | server/storage.ts:80-87 | A track created after any run gets an id above every track stored before the run. |
| Storage.RunIntact | server/storage.ts:101-156 | With links added only between existing rows, as the routes check, every link keeps naming a stored track and playlist through creates and cascading deletes. |
| Schema.ValidateTrack | shared/schema.ts:5-19 | The insert schema accepts exactly when title, artist, duration and filename are present. It returns the record unchanged. Its errors name exactly the missing fields. |
| Schema.ValidateDraftOf | shared/schema.ts:16-19 | Every insert record passes the schema unchanged. |
| Schema.ValidatePlaylist | shared/schema.ts:44-53 | Only `name` is required. The error names it. |
| Schema.ValidateLink | shared/schema.ts:59-69 | Both ids are required, and the error names exactly the missing ones. |
| Schema.FileIssues | shared/schema.ts:25-39 | An upload is accepted iff its type is one of the three audio types and its size is at most 50 MiB. Each failed check contributes its message, the type message first. |
| Schema.UploadCeiling | shared/schema.ts:35-37 | 52,428,800 bytes pass; 52,428,801 bytes fail with the size message only. |
| Schema.FieldOr | server/routes.ts:171-172 | `field \|\| fallback`: the field when present and non-empty, the fallback otherwise. |
| Schema.FieldOrNull | server/routes.ts:173-176 | `field \|\| null`: the field when present and non-empty, null otherwise. |
| Routes.HandleError | server/routes.ts:35-47 | 400 exactly for validation errors, with the joined issue message. 500 for everything else, with the error's message or "Internal server error". |
| Routes.AudioDuration | server/routes.ts:28-32 | The placeholder duration lies in [120, 419]. |
| Routes.MiddlewareCheck | server/routes.ts:13-25 | The middleware passes a file iff its type is allowed and its size is at most 50 MiB. A bad type is refused by the filter, a big file by the limit. |
| Routes.MiddlewareMatchesSchema | server/routes.ts:16-20 | The middleware and the upload schema accept exactly the same files. |
| Text.Extname | server/routes.ts:163 | `path.extname` is empty or a dot followed by no dot or slash. It is a proper suffix of the last path component, and it is empty exactly for `..`, dot-files and names without a dot. |
| Routes.StoredName | server/routes.ts:163-164 | The stored name is the UUID followed by exactly the original name's extension. |
| Routes.UploadDraft | server/routes.ts:170-177 | The defaulted form always passes the insert schema. |
| Routes.Upload | server/routes.ts:146-186 | No file gives 400. A middleware refusal stops before the handler, and a failed write gives 500. Otherwise the track is created with the form defaults, the stored name, a duration in [120, 419] and the next id. Every non-creating outcome leaves the store unchanged. |
| Routes.UploadKeepsStore | server/routes.ts:180-185 | An upload keeps the store valid and intact. The new track is linked to the downloads playlist when that playlist exists. |
| Audio.ServeAudio | server/routes.ts:63-106 | An unknown filename gives 404 "Track not found", checked before the file. A missing file gives 404 "Audio file not found". No range gives 200 with the file size and no `Content-Range`. A range gives 206 with the range headers and exactly the requested bytes. |
| Audio.PartialHeaders | server/routes.ts:84-95 | `Content-Range` is the one text that reads back as start, end (default size − 1) and size. `Accept-Ranges` is `bytes`, the length is E − S + 1 and the type is audio/mpeg. |
| Audio.ContentRangeRoundTrip | server/routes.ts:91 | `bytes S-E/size` parses back to exactly S, E and size. |
| Audio.ContentRangeExact | server/routes.ts:91 | Any text that reads back as S, E and size is exactly `bytes S-E/size`, with S and size non-negative. |
| Audio.ContentRangeText | server/routes.ts:91 | A text reads back as S, E and size exactly when it is the header built from them. |
| Audio.OpenEndedLength | server/routes.ts:86-87 | `bytes=S-` ends at size − 1, so the length is size − S. |
| Audio.SatisfiableRange | server/routes.ts:84-95 | A range with S ≤ E < size yields between 1 and size − S bytes, matching the streamed span. |
| Audio.NoBoundsCheck | server/routes.ts:84-93 | An end past the file is echoed unchecked: the advertised length exceeds what the file holds. |
| Audio.FirstHundredBytes | server/routes.ts:84-95 | `bytes=0-99` gives 206, `bytes 0-99/N` and length 100. |
| NetlifyAudio.ServePlain | netlify/functions/audio.js:26-51 | 404 "Audio file not found" exactly for names outside the mock table. Otherwise 200 with length 1024, `Accept-Ranges: bytes` and a body of that length. |
| NetlifyAudio.ServeStream | netlify/functions/audio.js:59-108 | 404 exactly for unknown names. No range gives 200 with 5,242,880 bytes. A range gives 206 with the range headers for size 5,242,880 and a body of exactly the advertised length. |
| NetlifyAudio.StreamAnyRange | netlify/functions/audio.js:73-90 | Any range on a mock file gives 206. Its `Content-Range` reads back as start, last byte and 5242880, and the body has the inclusive span's length. |
| NetlifyAudio.StreamRange | netlify/functions/audio.js:69-90 | `bytes=S-E` gives 206, `Content-Range` naming S, E and 5242880, and E − S + 1 bytes. |
| NetlifyAudio.StreamOpenEnded | netlify/functions/audio.js:76 | `bytes=S-` ends at 5242879 and carries 5242880 − S bytes. |
| NetlifyAudio.ServePlainAsWritten | netlify/functions/audio.js:29-33 | The lookup as written also passes names inherited from `Object.prototype`. Those are then served like a mock file. |
| NetlifyAudio.InheritedNameServed | netlify/functions/audio.js:29-33 | `/toString` is served audio by the code as written and answered 404 by the intended lookup. |
| NetlifyAudio.LookupsAgree | netlify/functions/audio.js:29-33 | On every name that is not inherited, the two lookups answer alike. |
| NetlifyAudio.ServeStreamAsWritten | netlify/functions/audio.js:59-66 | The stream route's lookup as written also passes inherited names. Those are then streamed like a mock file. |
| NetlifyAudio.InheritedStreamServed | netlify/functions/audio.js:62-66 | `/toString/stream` with `bytes=0-99` gets 206 and 100 bytes from the code as written, and 404 from the intended lookup. |
| NetlifyAudio.StreamLookupsAgree | netlify/functions/audio.js:62-66 | On every name that is not inherited, the two stream lookups answer alike. |
| NetlifyApi.Seed | netlify/functions/api.cjs:13-70 | The seed has two tracks, two playlists (one of them id 2) and three links. Ids are unique, and every link names a seeded track and playlist. |
| NetlifyApi.SeedDownloads | netlify/functions/api.cjs:50-69 | The seeded downloads playlist lists both seeded tracks. |
| NetlifyApi.SearchTracks | netlify/functions/api.cjs:84-93 | The empty query returns the array unsorted. Any other query keeps, in array order, exactly the tracks matching on title, artist or non-empty album. |
| NetlifyApi.GetPlaylistTracks | netlify/functions/api.cjs:103-109 | Exactly the tracks whose id appears among the playlist's links, in array order. With unique track ids, each appears once. |
| NetlifyApi.HandleError | netlify/functions/api.cjs:131-136 | Always 500, with the message or "Internal server error". |
| Catalog.MaxOrZero | netlify/functions/api.cjs:275 | `Math.max(...ids, 0)` is at least every id and at least 0, and is 0 or one of the ids. |
| NetlifyApi.NextTrackId | netlify/functions/api.cjs:275 | The new track id is `max(ids, 0) + 1`, above every existing id. |
| NetlifyApi.NextLinkId | netlify/functions/api.cjs:296 | The new link id is `max(link ids, 0) + 1`, above every existing link id. |
| NetlifyApi.IdList | netlify/functions/api.cjs:275 | `map(row => row.id)` gives one id per row, position by position. |
| NetlifyApi.MockFilename | netlify/functions/api.cjs:263-272 | The generated name starts with `track-`. |
| NetlifyApi.MockDuration | netlify/functions/api.cjs:283 | The mock duration lies in [60, 359]. |
| NetlifyApi.Append | netlify/functions/api.cjs:292-303 | Exactly one track and one link to playlist 2 are pushed. Unique ids are kept, and integrity is kept when playlist 2 exists. |
| NetlifyApi.Upload | netlify/functions/api.cjs:239-312 | A file over 10 MiB is refused, and a missing body gives 400. Otherwise the track gets the next id, the form defaults, a duration in [60, 359] and the generated name. Its cover is always the placeholder URL for the encoded title, whatever the form sent. One link to playlist 2 follows. Ids stay unique and integrity holds. |
| NetlifyApi.UploadIntoSeed | netlify/functions/api.cjs:292-303 | Every upload into the seeded store keeps ids unique and links intact. |
| Format.ArtworkPlaceholder | client/src/lib/types.ts:4-19 | A non-negative id picks placeholder `id mod 8`, always one of the eight. A negative id with a nonzero remainder picks nothing. |
| Format.PlaceholderPeriodic | client/src/lib/types.ts:16-19 | Ids eight apart get the same artwork. |
| Format.Clock | client/src/lib/types.ts:22-25 | For d ≥ 0 the seconds field is below 60 and 60·minutes + seconds is the whole number of seconds in d. For d < 0 the minutes are negative and the seconds lie in [−60, 0], since `%` keeps the dividend's sign. |
| Format.FormatDuration | client/src/lib/types.ts:22-26 | The `m:ss` text of a non-negative duration parses back to its whole number of seconds, and it is the only text that parses back to that number. |
| Format.ClockRoundTrip | client/src/lib/types.ts:25 | Minutes, a colon and the zero-padded two-digit seconds read back as 60·minutes + seconds. |
| Format.SecondsField | client/src/lib/types.ts:25 | The padded seconds field has exactly two digits and reads back as the seconds. |
| Format.DurationRoundTrip | client/src/lib/types.ts:22-26 | Every whole, non-negative number of seconds survives formatting and parsing. |
| Format.OnlyRendering | client/src/lib/types.ts:22-26 | Any text that reads back as a duration's whole seconds is that duration's rendering. |
| Format.DurationTextExact | client/src/lib/types.ts:22-26 | Every text that reads back at all is the rendering of a whole, non-negative number of seconds. |
| Format.DurationText | client/src/lib/types.ts:22-26 | For whole, non-negative n, a text reads back as n exactly when it is the rendering of n. |
| Format.SecondsTextOf | client/src/lib/types.ts:25 | Two digits below 60 are the zero-padded seconds field of their value. |
| Decimal.CanonicalRoundTrip | client/src/lib/types.ts:25 | Digits without a leading zero (or a lone `0`) are exactly the printing of their value. |
| Decimal.NatExact | client/src/lib/types.ts:42 | The only text that reads back as a natural number is its `${n}` printing. |
| Decimal.IntExact | server/routes.ts:91 | The only text that reads back as an integer is its `${i}` printing, a minus sign only before a positive value. |
| Format.DivStep | client/src/lib/types.ts:33-38 | Flooring by b and then by c equals flooring once by b·c, so the chained counts are whole-difference divisions. |
| Format.Elapse | client/src/lib/types.ts:29-51 | "Just now" exactly when the difference is under 60 s, negative differences included. Otherwise the unit is the first one, in the order months, weeks, days, hours, minutes, whose count is nonzero. The count is the difference divided by that unit. |
| Format.FormatRelativeTime | client/src/lib/types.ts:29-53 | The text is "À l'instant" exactly for differences under a minute. It reads back as the elapsed count and unit, and it is the only text that does. |
| Format.RenderElapsedRoundTrip | client/src/lib/types.ts:40-51 | Every elapsed value reads back from its French text. A count of 1 takes the singular noun, any other count the plural. |
| Format.ElapsedTextExact | client/src/lib/types.ts:40-51 | Any text that reads back as an elapsed time is that time's French text: the count printed without leading zeros and the noun in the number the count takes. |
| Format.ElapsedText | client/src/lib/types.ts:40-51 | A text reads back as an elapsed time exactly when it is that time's French text. |
| Format.FutureIsJustNow | client/src/lib/types.ts:31-51 | A date in the future renders as "À l'instant". |
| Format.TenDaysIsOneWeek | client/src/lib/types.ts:36-43 | Ten days back is one week, because the week threshold is checked before the day threshold. |
| Query.GetApiUrl | client/src/lib/queryClient.ts:12-25 | A path already under the base is kept, and a leading `/api` is replaced by the base. Any other path is prefixed. The result always starts with the base. |
| Query.GetApiUrlIdempotent | client/src/lib/queryClient.ts:12-25 | Prefixing twice equals prefixing once. |
| Query.DevelopmentKeepsApiPaths | client/src/lib/queryClient.ts:14-16 | With the development base `/api`, every `/api` path is left alone. |
| Query.ThrowIfResNotOk | client/src/lib/queryClient.ts:4-9 | Ok responses pass unchanged. Otherwise the message is the status, a colon, a space and the body (the status text when the body is empty). The status reads back from the text before the colon. |
| Query.QueryFn | client/src/lib/queryClient.ts:47-69 | The URL fetched is `getApiUrl(key)`. The result is null exactly for a 401 under `returnNull`. It is the parsed body exactly for other ok responses whose body parses. A non-ok response raises the error `throwIfResNotOk` builds, and an ok response whose body does not parse raises the parser's error. |
| Query.DefaultQueryThrowsOn401 | client/src/lib/queryClient.ts:63-67 | Under `throw`, a 401 raises an error. |
| Query.UnparsableBodyThrows | client/src/lib/queryClient.ts:67-68 | An ok response whose body is not JSON (an HTML page, an empty body) fails the query with the parser's error instead of yielding a value. |
| Query.ApiRequest | client/src/lib/queryClient.ts:27-44 | `apiRequest` fetches `getApiUrl(url)` and returns the response iff it is ok. |
| Player.Initial | client/src/context/MusicContext.tsx:27-32 | The initial state has no current track, is not playing and has an empty queue. Volume is 0.7, and progress and duration are 0. |
| Player.Mount | client/src/context/MusicContext.tsx:36-45 | Mounting creates the element and changes nothing else. |
| Player.Resume | client/src/context/MusicContext.tsx:133-147 | A no-op without an element or a current track, or when play fails. Otherwise it sets playing. |
| Player.Pause | client/src/context/MusicContext.tsx:127-131 | With an element, playback stops and `isPlaying` is false. The track, queue and position stay. |
| Player.PlayTrack | client/src/context/MusicContext.tsx:90-125 | The current track again behaves as resume. A different track becomes current, with source `/api/audio/` + filename and progress 0. `isPlaying` becomes true if the start succeeds and otherwise keeps its earlier value. The queue is unchanged. |
| Player.Next | client/src/context/MusicContext.tsx:149-161 | An empty queue pauses and stays empty. Otherwise exactly the head leaves the queue and is played. |
| Player.Previous | client/src/context/MusicContext.tsx:163-173 | Both branches rewind the element to 0, and nothing else changes. |
| Player.SetProgress | client/src/context/MusicContext.tsx:175-179 | Seeking sets both the element's time and the progress, and nothing else. |
| Player.SetVolume | client/src/context/MusicContext.tsx:57-62 | The volume is stored as given, unclamped, and nothing else changes. |
| Player.AddToQueue | client/src/context/MusicContext.tsx:181-188 | The track joins the tail, and nothing else changes. |
| Player.ClearQueue | client/src/context/MusicContext.tsx:190-192 | The queue becomes empty, and nothing else changes. |
| Player.OnTimeUpdate | client/src/context/MusicContext.tsx:64-68 | Progress follows the element's time. |
| Player.OnMetadata | client/src/context/MusicContext.tsx:70-74 | The duration becomes the element's. |
| Player.OnEnded | client/src/context/MusicContext.tsx:76-78 | The ended event advances as `nextTrack` does. |
| Player.OnError | client/src/context/MusicContext.tsx:80-88 | The error event advances as `nextTrack` does. |
| Player.EnqueueAll | client/src/context/MusicContext.tsx:181-183 | Adding tracks one by one appends them in order. |
| Player.Advance | client/src/context/MusicContext.tsx:149-161 | One current-track observation per advance, with the mounted flag unchanged. |
| Player.AdvanceIsFifo | client/src/context/MusicContext.tsx:149-161 | Advancing k times through a queue plays its first k tracks in order and leaves the rest queued, whatever the starts' outcomes. |
| Player.PlaysQueuedInOrder | client/src/context/MusicContext.tsx:181-192 | Clearing, queueing tracks and advancing through them plays exactly those tracks in queue order. |
| Player.ReplayIsResume | client/src/context/MusicContext.tsx:95-98 | Replaying the current track keeps the track, the progress and the position. |
| Player.NextOnEmptyPauses | client/src/context/MusicContext.tsx:150-153 | Next on an empty queue pauses and keeps the queue empty and the track. |
| Player.FailedStartKeepsFlag | client/src/context/MusicContext.tsx:113-124 | After a failed start of a new track, `isPlaying` keeps its earlier true value while the element is stopped. |
| PlayerView.FormatTime | client/src/hooks/useMusicPlayer.tsx:17-21 | The hook's own `formatTime` yields the same text as `formatDuration` for every time, so its labels read back as whole seconds. |
| PlayerView.Percentage | client/src/hooks/useMusicPlayer.tsx:29-33 | The percentage is 0 when the duration is not positive, so there is no division by zero. Otherwise percentage · duration = progress · 100, which lies in [0, 100] when 0 ≤ progress ≤ duration. |
| PlayerView.SeekTime | client/src/hooks/useMusicPlayer.tsx:37-39 | A slider value in [0, 100] stands for a time within the duration. |
| PlayerView.SeekRoundTrip | client/src/hooks/useMusicPlayer.tsx:37-41 | Seeking to slider value p shows p again on the bar, for any positive duration. |
| PlayerView.HandleProgressChange | client/src/hooks/useMusicPlayer.tsx:37-41 | The player seeks to `p/100 · duration`, and the bar then shows p. |
| PlayerView.ViewOf | client/src/hooks/useMusicPlayer.tsx:24-34 | The labels are the `m:ss` texts of progress and duration. The percentage lies in [0, 100] when progress is within the duration. |
| PlayerView.InitialView | client/src/hooks/useMusicPlayer.tsx:12-14 | Before anything loads, both labels read `0:00` and the bar is at 0. |

## Left out

- File system and streams are parameters, not effects:
  - `existsSync`, `statSync`, `createReadStream`, `writeFile` and `unlinkSync`;
  - creating the uploads directory;
  - `saveFile` and `getFilePath`.

  The audio route takes "file exists, with this size" as an input. The upload takes the outcome of the write as an input.
- Express, multer, serverless-http and CORS wiring, request logging and the JSON header middleware. Also left out are the remaining CRUD routes of both APIs: they only dispatch to the store after 404 checks. The store operations and the link guard they rely on are modelled. `getPlaylists` returns a table as it is, which is `Store.playlists` itself.
- Routes.Upload: the cleanup after an error is not modelled (server/routes.ts:188-199). It deletes a freshly generated random name, not the file that was saved, so it does not undo the write.
- Audio.ServeAudio: Node's `createReadStream` throws when the start exceeds the end, and the catch turns that into a 500. The model treats the stream as given and answers 206 for every parsed range. The length is still computed as E − S + 1 with no bounds check.
- The `Range` header is taken already split and read by `parseInt`, as a start and an optional end. Suffix ranges (`bytes=-N`), NaN and multiple ranges are not modelled. An empty header counts as no header.
- NetlifyAudio.ServeStream: `Buffer.alloc` on a negative chunk size throws after the headers are written. The model carries the negative length in the body instead.
- The serverless API's own `/audio/:filename` route (netlify/functions/api.cjs:204-227) is not part of this model.
- `crypto.randomUUID`, `Math.random`, `Date.now()`/`new Date()` are parameters, and only their stated bounds and formats are kept. One clock reading stands for every `new Date()` within one call.
- `toLowerCase` is a parameter `lower`, and Unicode case mapping is not modelled. `encodeURIComponent` is a parameter too.
- NetlifyApi.MockFilename: states only the `track-` prefix. The full shape is `track-<now>-<n>.mp3` with n = floor(random · 1000).
- JavaScript numbers are exact integers or reals. IEEE rounding of the percentage and of `p/100 · duration`, and the 0.7 volume as a double, are not modelled.
- Format.FormatDuration: the read-back property is stated for non-negative durations only. The reading parser is the model's own and accepts only the rendered shape (minutes without a leading zero, two second digits below 60). Negative inputs render as the code renders them (for example −5 gives `-1:0-5`), with no further property.
- The audio element and its async `load()`/`play()` promises become a success flag and a `mounted` flag. Toasts are not modelled.
- Player.OnTimeUpdate: React state staleness is not modelled. The event handlers registered once on mount close over the first render's `null` element and empty queue. The model gives the handlers the current state.
- `fromZodError`'s path prefixes are not modelled. Issues are joined with "; " after "Validation error: ", and the missing-field issue texts are the field names.
- `config.ts` (environment detection from `window.location` and `process.env`) is not modelled: the API base is a parameter. Also left out: the UI components, pages, and `formatFileSize`.

## Findings

| source | as written | input that shows it | evidently intended | confidence | as-written member | corrected member |
|---|---|---|---|---|---|---|
| netlify/functions/audio.js:29-33 | `mockAudioFiles[filename]` is truthy for names inherited from `Object.prototype`, so the plain route serves audio for them | `GET /toString` answers 200 with 1024 bytes of audio | only the table's own keys (`track1.mp3`, `track2.mp3`) are found | high; not executed | NetlifyAudio.ServePlainAsWritten, NetlifyAudio.InheritedNameServed | NetlifyAudio.ServePlain, NetlifyAudio.LookupsAgree |
| netlify/functions/audio.js:62-66 | the same inherited-key lookup guards the stream route | `GET /toString/stream` with `Range: bytes=0-99` answers 206 with 100 bytes | only the table's own keys are found | high; not executed | NetlifyAudio.ServeStreamAsWritten, NetlifyAudio.InheritedStreamServed | NetlifyAudio.ServeStream, NetlifyAudio.StreamLookupsAgree |
