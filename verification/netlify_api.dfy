/** The serverless API's store and handlers: seeded arrays instead of
    counters, ids allocated as one more than the largest id in use. */
module NetlifyApi {
  import opened Common
  import opened Decimal
  import opened Text
  import opened Schema
  import opened Catalog

  /** The serverless store: three plain arrays. */
  datatype NetlifyStore = NetlifyStore(tracks: seq<Track>, playlists: seq<Playlist>, links: seq<PlaylistTrack>)

  predicate WellKeyed(s: NetlifyStore) {
    UniqueTrackIds(s.tracks) && UniquePlaylistIds(s.playlists) && UniqueLinkIds(s.links)
  }

  predicate Intact(s: NetlifyStore) {
    LinksIntact(s.tracks, s.playlists, s.links)
  }

  /** The id of the "Musiques téléchargées" playlist, fixed by the seed. */
  const DownloadsId := 2

  /** The constructor's seed: two tracks, the two default playlists and
      three links (times in milliseconds since the epoch, UTC). */
  function Seed(): (s: NetlifyStore)
    ensures WellKeyed(s) && Intact(s)
    ensures |s.tracks| == 2 && |s.playlists| == 2 && |s.links| == 3
    ensures DownloadsId in PlaylistIds(s.playlists)
  {
    var tracks := [
      Track(1, "Été Ensoleillé", "DJ Soleil", Some("Saisons Musicales"), 248, "track1.mp3",
            Some("https://via.placeholder.com/500?text=DJ+Soleil"), 1743503400000),
      Track(2, "Nuit Parisienne", "Mélodie Nocturne", Some("Voyages Sonores"), 186, "track2.mp3",
            Some("https://via.placeholder.com/500?text=Melodie+Nocturne"), 1743862800000)];
    var playlists := [
      Playlist(1, "Favoris", 1743498000000),
      Playlist(2, "Musiques téléchargées", 1743498000000)];
    var links := [
      PlaylistTrack(1, 1, 1, 1743505200000),
      PlaylistTrack(2, 2, 1, 1743505500000),
      PlaylistTrack(3, 2, 2, 1743865200000)];
    assert tracks[0].id in TrackIds(tracks) && tracks[1].id in TrackIds(tracks);
    assert playlists[0].id in PlaylistIds(playlists) && playlists[1].id in PlaylistIds(playlists);
    NetlifyStore(tracks, playlists, links)
  }

  /** `searchTracks`: an empty query returns the array as it is (no sort,
      unlike the Express store); otherwise the matching tracks in order. */
  function SearchTracks(s: NetlifyStore, query: string, lower: string -> string): (r: seq<Track>)
    ensures query == "" ==> r == s.tracks
    ensures query != "" ==> forall t :: t in r <==> t in s.tracks && Found(t, query, lower)
    ensures query != "" ==> IsSubsequence(r, s.tracks)
  {
    if query == "" then s.tracks else SearchFilter(s.tracks, query, lower)
  }

  /** `getPlaylistTracks`: tracks in array order named by a link of the playlist. */
  function GetPlaylistTracks(s: NetlifyStore, pid: int): (r: seq<Track>)
    ensures forall t :: t in r <==> t in s.tracks && exists l :: l in s.links && l.playlistId == pid && l.trackId == t.id
    ensures IsSubsequence(r, s.tracks)
    ensures UniqueTrackIds(s.tracks) ==> Distinct(r)
  {
    assert UniqueTrackIds(s.tracks) ==> Distinct(s.tracks) by {
      if UniqueTrackIds(s.tracks) { UniqueIdsDistinct(s.tracks); }
    }
    TracksInPlaylist(s.tracks, s.links, pid)
  }

  /** The seeded downloads playlist lists both seeded tracks. */
  lemma SeedDownloads()
    ensures GetPlaylistTracks(Seed(), DownloadsId) == Seed().tracks
  {
    var s := Seed();
    FilterAll(s.tracks, (t: Track) => t.id in LinkedTrackIds(s.links, DownloadsId));
  }

  /** `rows.map(row => row.id)`: the ids, one per row, in row order. */
  function IdList<T>(xs: seq<T>, id: T -> int): (r: seq<int>)
    ensures |r| == |xs| && forall i :: 0 <= i < |xs| ==> r[i] == id(xs[i])
  {
    seq(|xs|, i requires 0 <= i < |xs| => id(xs[i]))
  }

  /** `handleError`: every caught error is a 500, validation errors included. */
  function HandleError(message: Option<string>): (r: (int, string))
    ensures r.0 == 500
    ensures Given(message) ==> r.1 == message.value
    ensures !Given(message) ==> r.1 == "Internal server error"
  {
    (500, FieldOr(message, "Internal server error"))
  }

  /** The upload middleware's only check here: files up to 10 MiB (10 * 1024 * 1024 bytes). */
  const UploadLimit: int := 10_485_760

  datatype UploadReply =
    | Refused(reason: string)
    | Failed(status: int, message: string)
    | Created(track: Track)

  /** The generated stored name, `track-<now>-<n>.mp3` with n in [0, 999],
      whether or not a file was sent. */
  function MockFilename(now: int, random: real): (r: string)
    requires 0.0 <= random < 1.0
    ensures StartsWith(r, "track-")
  {
    "track-" + IntToString(now) + "-" + IntToString((random * 1000.0).Floor) + ".mp3"
  }

  /** `Math.max(...tracks.map(t => t.id), 0) + 1`: above every id in use. */
  function NextTrackId(ts: seq<Track>): (r: int)
    ensures r >= 1 && forall u :: u in ts ==> u.id < r
    ensures r == MaxOrZero(IdList(ts, (t: Track) => t.id)) + 1
  {
    var ids := IdList(ts, (t: Track) => t.id);
    assert forall u :: u in ts ==> u.id in ids by {
      forall u | u in ts ensures u.id in ids {
        var i :| 0 <= i < |ts| && ts[i] == u;
        assert ids[i] == u.id;
      }
    }
    MaxOrZero(ids) + 1
  }

  /** `Math.max(...playlistTracks.map(pt => pt.id), 0) + 1`. */
  function NextLinkId(ls: seq<PlaylistTrack>): (r: int)
    ensures r >= 1 && forall l :: l in ls ==> l.id < r
    ensures r == MaxOrZero(IdList(ls, (l: PlaylistTrack) => l.id)) + 1
  {
    var ids := IdList(ls, (l: PlaylistTrack) => l.id);
    assert forall l :: l in ls ==> l.id in ids by {
      forall l | l in ls ensures l.id in ids {
        var i :| 0 <= i < |ls| && ls[i] == l;
        assert ids[i] == l.id;
      }
    }
    MaxOrZero(ids) + 1
  }

  /** `Math.floor(Math.random() * 300) + 60`. */
  function MockDuration(random: real): (d: int)
    requires 0.0 <= random < 1.0
    ensures 60 <= d <= 359
  {
    (random * 300.0).Floor + 60
  }

  /** Pushes the new track and its link to the downloads playlist. */
  function Append(s: NetlifyStore, t: Track, now: int): (r: NetlifyStore)
    requires t.id == NextTrackId(s.tracks)
    ensures r.tracks == s.tracks + [t] && r.playlists == s.playlists
    ensures r.links == s.links + [PlaylistTrack(NextLinkId(s.links), DownloadsId, t.id, now)]
    ensures WellKeyed(s) ==> WellKeyed(r)
    ensures Intact(s) && DownloadsId in PlaylistIds(s.playlists) ==> Intact(r)
  {
    var r := NetlifyStore(s.tracks + [t], s.playlists, s.links + [PlaylistTrack(NextLinkId(s.links), DownloadsId, t.id, now)]);
    assert TrackIds(r.tracks) == TrackIds(s.tracks) + {t.id};
    r
  }

  /** `POST /tracks`. `nameRandom` and `durationRandom` are the two values
      `Math.random` returns, in call order; `encode` is
      `encodeURIComponent`. */
  function Upload(
    s: NetlifyStore, body: Option<UploadForm>, fileSize: Option<nat>,
    now: int, nameRandom: real, durationRandom: real, encode: string -> string): (res: (NetlifyStore, UploadReply))
    requires 0.0 <= nameRandom < 1.0 && 0.0 <= durationRandom < 1.0
    ensures fileSize.Some? && fileSize.value > UploadLimit ==> res == (s, Refused("File too large"))
    ensures (fileSize.None? || fileSize.value <= UploadLimit) && body.None? ==>
      res == (s, Failed(400, "No form data provided"))
    ensures res.1.Created? <==> (fileSize.None? || fileSize.value <= UploadLimit) && body.Some?
    ensures !res.1.Created? ==> res.0 == s
    ensures res.1.Created? ==>
      var t := res.1.track;
      && t.id == NextTrackId(s.tracks)
      && t.title == FieldOr(body.value.title, UntitledTitle)
      && t.artist == FieldOr(body.value.artist, UnknownArtist)
      && t.album == FieldOrNull(body.value.album)
      && t.coverImage == Some("https://via.placeholder.com/500?text=" + encode(t.title))
      && 60 <= t.duration <= 359
      && t.filename == MockFilename(now, nameRandom)
      && t.uploadedAt == now
      && res.0.tracks == s.tracks + [t]
      && res.0.playlists == s.playlists
      && res.0.links == s.links + [PlaylistTrack(NextLinkId(s.links), DownloadsId, t.id, now)]
    ensures WellKeyed(s) ==> WellKeyed(res.0)
    ensures Intact(s) && DownloadsId in PlaylistIds(s.playlists) ==> Intact(res.0)
  {
    if fileSize.Some? && fileSize.value > UploadLimit then (s, Refused("File too large"))
    else match body
    case None => (s, Failed(400, "No form data provided"))
    case Some(form) =>
      var title := FieldOr(form.title, UntitledTitle);
      var t := Track(NextTrackId(s.tracks), title, FieldOr(form.artist, UnknownArtist), FieldOrNull(form.album),
                     MockDuration(durationRandom), MockFilename(now, nameRandom),
                     Some("https://via.placeholder.com/500?text=" + encode(title)), now);
      (Append(s, t, now), Created(t))
  }

  /** Every upload into the seeded store keeps ids unique and links intact. */
  lemma UploadIntoSeed(body: Option<UploadForm>, fileSize: Option<nat>, now: int, r1: real, r2: real, encode: string -> string)
    requires 0.0 <= r1 < 1.0 && 0.0 <= r2 < 1.0
    ensures var s := Upload(Seed(), body, fileSize, now, r1, r2, encode).0; WellKeyed(s) && Intact(s)
  {
  }
}
