/** `MemStorage`, the Express server's in-memory store: three id-keyed
    tables kept in insertion order, each with its own id counter. */
module Storage {
  import opened Common
  import opened Text
  import opened Schema
  import opened Catalog

  const FavoritesName := "Favoris"
  const DownloadsName := "Musiques téléchargées"

  /** The store's state. Each table is a JavaScript `Map` from id to row; its
      iteration order is insertion order, so it is kept as a sequence. */
  datatype Store = Store(
    tracks: seq<Track>,
    playlists: seq<Playlist>,
    links: seq<PlaylistTrack>,
    nextTrackId: int,
    nextPlaylistId: int,
    nextLinkId: int)

  /** Map keys are unique, and every key was drawn from its counter, which
      therefore lies above all of them. */
  predicate Valid(s: Store) {
    && UniqueTrackIds(s.tracks)
    && UniquePlaylistIds(s.playlists)
    && UniqueLinkIds(s.links)
    && s.nextTrackId >= 1 && s.nextPlaylistId >= 1 && s.nextLinkId >= 1
    && (forall t :: t in s.tracks ==> 1 <= t.id < s.nextTrackId)
    && (forall p :: p in s.playlists ==> 1 <= p.id < s.nextPlaylistId)
    && (forall l :: l in s.links ==> 1 <= l.id < s.nextLinkId)
  }

  /** Every link names a stored track and a stored playlist. */
  predicate Intact(s: Store) {
    LinksIntact(s.tracks, s.playlists, s.links)
  }

  /** `createPlaylist`: the row takes the counter's value, which then moves on. */
  function CreatePlaylist(s: Store, name: string, now: int): (res: (Store, Playlist))
    ensures res.1.id == s.nextPlaylistId && res.1.name == name && res.1.createdAt == now
    ensures res.0.playlists == s.playlists + [res.1]
    ensures res.0.nextPlaylistId == s.nextPlaylistId + 1
    ensures res.0.tracks == s.tracks && res.0.links == s.links
    ensures res.0.nextTrackId == s.nextTrackId && res.0.nextLinkId == s.nextLinkId
    ensures Valid(s) ==> Valid(res.0) && res.1.id !in PlaylistIds(s.playlists)
    ensures Intact(s) ==> Intact(res.0)
  {
    var p := Playlist(s.nextPlaylistId, name, now);
    (s.(playlists := s.playlists + [p], nextPlaylistId := s.nextPlaylistId + 1), p)
  }

  /** The constructor: empty tables, counters at 1, then the two default
      playlists (one clock reading, `now`, stands for both). */
  function Init(now: int): (s: Store)
    ensures s.tracks == [] && s.links == []
    ensures s.playlists == [Playlist(1, FavoritesName, now), Playlist(2, DownloadsName, now)]
    ensures s.nextTrackId == 1 && s.nextPlaylistId == 3 && s.nextLinkId == 1
    ensures Valid(s) && Intact(s)
  {
    var empty := Store([], [], [], 1, 1, 1);
    var s1 := CreatePlaylist(empty, FavoritesName, now).0;
    CreatePlaylist(s1, DownloadsName, now).0
  }

  /** `getTracks`: every track, newest upload first. */
  function GetTracks(s: Store): (r: seq<Track>)
    ensures multiset(r) == multiset(s.tracks)
    ensures NewestFirst(r)
    ensures forall k :: Stamped(r, k) == Stamped(s.tracks, k)
  {
    var r := SortNewestFirst(s.tracks);
    assert forall k :: Stamped(r, k) == Stamped(s.tracks, k) by {
      forall k ensures Stamped(r, k) == Stamped(s.tracks, k) {
        SortStable(s.tracks, k);
      }
    }
    r
  }

  /** `getTrack`: the track with this id, if any. */
  function GetTrack(s: Store, id: int): (r: Option<Track>)
    ensures r.Some? ==> r.value in s.tracks && r.value.id == id
    ensures r.None? <==> id !in TrackIds(s.tracks)
  {
    Find(s.tracks, (t: Track) => t.id == id)
  }

  /** `getTrackByFilename`: the first track stored under this filename. */
  function GetTrackByFilename(s: Store, filename: string): (r: Option<Track>)
    ensures r.Some? ==> r.value in s.tracks && r.value.filename == filename
    ensures r.Some? ==>
      exists k :: 0 <= k < |s.tracks| && s.tracks[k] == r.value && forall j :: 0 <= j < k ==> s.tracks[j].filename != filename
    ensures r.None? <==> forall t :: t in s.tracks ==> t.filename != filename
  {
    Find(s.tracks, (t: Track) => t.filename == filename)
  }

  /** `getPlaylist`: the playlist with this id, if any. */
  function GetPlaylist(s: Store, id: int): (r: Option<Playlist>)
    ensures r.Some? ==> r.value in s.playlists && r.value.id == id
    ensures r.None? <==> id !in PlaylistIds(s.playlists)
  {
    Find(s.playlists, (p: Playlist) => p.id == id)
  }

  /** The playlist `createTrack` files new tracks under: the first one named
      "Musiques téléchargées". */
  function DownloadsPlaylist(s: Store): Option<Playlist> {
    Find(s.playlists, (p: Playlist) => p.name == DownloadsName)
  }

  /** `addTrackToPlaylist`: appends a link under the link counter's value.
      The store checks nothing; callers check that both rows exist. */
  function AddTrackToPlaylist(s: Store, playlistId: int, trackId: int, now: int): (res: (Store, PlaylistTrack))
    ensures res.1 == PlaylistTrack(s.nextLinkId, playlistId, trackId, now)
    ensures res.0.links == s.links + [res.1]
    ensures res.0.nextLinkId == s.nextLinkId + 1
    ensures res.0.tracks == s.tracks && res.0.playlists == s.playlists
    ensures res.0.nextTrackId == s.nextTrackId && res.0.nextPlaylistId == s.nextPlaylistId
    ensures Valid(s) ==> Valid(res.0) && res.1.id !in LinkIds(s.links)
    ensures Intact(s) && trackId in TrackIds(s.tracks) && playlistId in PlaylistIds(s.playlists) ==> Intact(res.0)
  {
    var l := PlaylistTrack(s.nextLinkId, playlistId, trackId, now);
    (s.(links := s.links + [l], nextLinkId := s.nextLinkId + 1), l)
  }

  /** `createTrack`: the track takes the counter's value, which then moves
      on; the track is also linked to the downloads playlist when one exists. */
  function CreateTrack(s: Store, nt: NewTrack, now: int): (res: (Store, Track))
    ensures res.1 == Track(s.nextTrackId, nt.title, nt.artist, nt.album, nt.duration, nt.filename, nt.coverImage, now)
    ensures res.0.tracks == s.tracks + [res.1]
    ensures res.0.nextTrackId == s.nextTrackId + 1
    ensures res.0.playlists == s.playlists && res.0.nextPlaylistId == s.nextPlaylistId
    ensures DownloadsPlaylist(s).None? ==> res.0.links == s.links && res.0.nextLinkId == s.nextLinkId
    ensures DownloadsPlaylist(s).Some? ==>
      && res.0.links == s.links + [PlaylistTrack(s.nextLinkId, DownloadsPlaylist(s).value.id, res.1.id, now)]
      && res.0.nextLinkId == s.nextLinkId + 1
    ensures Valid(s) ==> Valid(res.0) && forall t :: t in s.tracks ==> t.id < res.1.id
    ensures Intact(s) ==> Intact(res.0)
  {
    var t := Track(s.nextTrackId, nt.title, nt.artist, nt.album, nt.duration, nt.filename, nt.coverImage, now);
    var s1 := s.(tracks := s.tracks + [t], nextTrackId := s.nextTrackId + 1);
    assert TrackIds(s1.tracks) == TrackIds(s.tracks) + {t.id};
    match DownloadsPlaylist(s)
    case Some(p) => (AddTrackToPlaylist(s1, p.id, t.id, now).0, t)
    case None => (s1, t)
  }

  /** The rows that survive deleting the ids in `doomed`. */
  function Survives(doomed: set<int>): PlaylistTrack -> bool {
    (l: PlaylistTrack) => l.id !in doomed
  }

  /** `Map.prototype.delete` applied to each id in `doomed`. */
  function DeleteLinkIds(ls: seq<PlaylistTrack>, doomed: set<int>): (r: seq<PlaylistTrack>)
    ensures forall l :: l in r <==> l in ls && l.id !in doomed
    ensures IsSubsequence(r, ls)
    ensures UniqueLinkIds(ls) ==> UniqueLinkIds(r)
  {
    var r := Filter(ls, Survives(doomed));
    FilterSubsequence(ls, Survives(doomed));
    assert UniqueLinkIds(ls) ==> UniqueLinkIds(r) by {
      if UniqueLinkIds(ls) { FilterKeepsUniqueLinks(ls, Survives(doomed)); }
    }
    r
  }

  lemma {:induction false} FilterKeepsUniqueLinks(ls: seq<PlaylistTrack>, p: PlaylistTrack -> bool)
    requires UniqueLinkIds(ls)
    ensures UniqueLinkIds(Filter(ls, p))
    decreases |ls|
  {
    if ls != [] {
      FilterKeepsUniqueLinks(ls[1..], p);
      var rest := Filter(ls[1..], p);
      forall l | l in rest ensures l.id != ls[0].id {
        var i :| 0 <= i < |ls[1..]| && ls[1..][i] == l;
        assert ls[i + 1] == l;
      }
    }
  }

  lemma {:induction false} FilterKeepsUniqueTracks(ts: seq<Track>, p: Track -> bool)
    requires UniqueTrackIds(ts)
    ensures UniqueTrackIds(Filter(ts, p))
    decreases |ts|
  {
    if ts != [] {
      FilterKeepsUniqueTracks(ts[1..], p);
      var rest := Filter(ts[1..], p);
      forall t | t in rest ensures t.id != ts[0].id {
        var i :| 0 <= i < |ts[1..]| && ts[1..][i] == t;
        assert ts[i + 1] == t;
      }
    }
  }

  lemma {:induction false} FilterKeepsUniquePlaylists(ps: seq<Playlist>, p: Playlist -> bool)
    requires UniquePlaylistIds(ps)
    ensures UniquePlaylistIds(Filter(ps, p))
    decreases |ps|
  {
    if ps != [] {
      FilterKeepsUniquePlaylists(ps[1..], p);
      var rest := Filter(ps[1..], p);
      forall q | q in rest ensures q.id != ps[0].id {
        var i :| 0 <= i < |ps[1..]| && ps[1..][i] == q;
        assert ps[i + 1] == q;
      }
    }
  }

  /** `deleteTrack`: first every link naming the track is deleted, then the
      track itself; the answer is whether the track existed. */
  function DeleteTrack(s: Store, id: int): (res: (Store, bool))
    ensures res.1 <==> id in TrackIds(s.tracks)
    ensures forall t :: t in res.0.tracks <==> t in s.tracks && t.id != id
    ensures forall l :: l in res.0.links ==> l in s.links && l.trackId != id
    ensures Valid(s) ==> forall l :: l in s.links && l.trackId != id ==> l in res.0.links
    ensures IsSubsequence(res.0.tracks, s.tracks) && IsSubsequence(res.0.links, s.links)
    ensures res.0.playlists == s.playlists
    ensures res.0.nextTrackId == s.nextTrackId && res.0.nextPlaylistId == s.nextPlaylistId
    ensures res.0.nextLinkId == s.nextLinkId
    ensures Valid(s) ==> Valid(res.0)
    ensures Intact(s) ==> Intact(res.0)
    ensures forall pid, t :: t in GetPlaylistTracks(res.0, pid) ==> t.id != id
  {
    var doomed := set l | l in s.links && l.trackId == id :: l.id;
    var links := DeleteLinkIds(s.links, doomed);
    var tracks := Filter(s.tracks, (t: Track) => t.id != id);
    var s' := s.(tracks := tracks, links := links);
    FilterSubsequence(s.tracks, (t: Track) => t.id != id);
    assert Valid(s) ==> forall l :: l in s.links && l.trackId != id ==> l in links by {
      if Valid(s) {
        forall l | l in s.links && l.trackId != id ensures l in links {
          if l.id in doomed {
            var m :| m in s.links && m.trackId == id && m.id == l.id;
            SameLinkId(s.links, l, m);
          }
        }
      }
    }
    assert Valid(s) ==> Valid(s') by {
      if Valid(s) { FilterKeepsUniqueTracks(s.tracks, (t: Track) => t.id != id); }
    }
    (s', id in TrackIds(s.tracks))
  }

  /** `deletePlaylist`: first every link into the playlist is deleted, then
      the playlist itself; the answer is whether the playlist existed. */
  function DeletePlaylist(s: Store, id: int): (res: (Store, bool))
    ensures res.1 <==> id in PlaylistIds(s.playlists)
    ensures forall p :: p in res.0.playlists <==> p in s.playlists && p.id != id
    ensures forall l :: l in res.0.links ==> l in s.links && l.playlistId != id
    ensures Valid(s) ==> forall l :: l in s.links && l.playlistId != id ==> l in res.0.links
    ensures IsSubsequence(res.0.playlists, s.playlists) && IsSubsequence(res.0.links, s.links)
    ensures res.0.tracks == s.tracks
    ensures res.0.nextTrackId == s.nextTrackId && res.0.nextPlaylistId == s.nextPlaylistId
    ensures res.0.nextLinkId == s.nextLinkId
    ensures Valid(s) ==> Valid(res.0)
    ensures Intact(s) ==> Intact(res.0)
  {
    var doomed := set l | l in s.links && l.playlistId == id :: l.id;
    var links := DeleteLinkIds(s.links, doomed);
    var playlists := Filter(s.playlists, (p: Playlist) => p.id != id);
    var s' := s.(playlists := playlists, links := links);
    FilterSubsequence(s.playlists, (p: Playlist) => p.id != id);
    assert Valid(s) ==> forall l :: l in s.links && l.playlistId != id ==> l in links by {
      if Valid(s) {
        forall l | l in s.links && l.playlistId != id ensures l in links {
          if l.id in doomed {
            var m :| m in s.links && m.playlistId == id && m.id == l.id;
            SameLinkId(s.links, l, m);
          }
        }
      }
    }
    assert Valid(s) ==> Valid(s') by {
      if Valid(s) { FilterKeepsUniquePlaylists(s.playlists, (p: Playlist) => p.id != id); }
    }
    (s', id in PlaylistIds(s.playlists))
  }

  /** `searchTracks`: an empty query lists every track as `getTracks` does;
      otherwise the tracks, in table order, whose lowercased title, artist or
      (non-empty) album contains the lowercased query. */
  function SearchTracks(s: Store, query: string, lower: string -> string): (r: seq<Track>)
    ensures query == "" ==> r == GetTracks(s)
    ensures query != "" ==> forall t :: t in r <==> t in s.tracks && Found(t, query, lower)
    ensures query != "" ==> IsSubsequence(r, s.tracks)
    ensures query != "" ==> r == Filter(s.tracks, (t: Track) => MatchesQuery(t, lower(query), lower))
  {
    if query == "" then GetTracks(s) else SearchFilter(s.tracks, query, lower)
  }

  /** `getPlaylistTracks`: the stored tracks some link of the playlist names,
      in table order. */
  function GetPlaylistTracks(s: Store, pid: int): (r: seq<Track>)
    ensures forall t :: t in r <==> t in s.tracks && exists l :: l in s.links && l.playlistId == pid && l.trackId == t.id
    ensures IsSubsequence(r, s.tracks)
    ensures Valid(s) ==> Distinct(r)
  {
    assert Valid(s) ==> Distinct(s.tracks) by {
      if Valid(s) { UniqueIdsDistinct(s.tracks); }
    }
    TracksInPlaylist(s.tracks, s.links, pid)
  }

  /** The link joins this playlist to this track. */
  predicate Joins(l: PlaylistTrack, pid: int, tid: int) {
    l.playlistId == pid && l.trackId == tid
  }

  /** The position of the first link joining `pid` to `tid`, or -1. */
  function FirstJoin(ls: seq<PlaylistTrack>, pid: int, tid: int): (k: int)
    ensures -1 <= k < |ls|
    ensures k >= 0 ==> Joins(ls[k], pid, tid) && forall j :: 0 <= j < k ==> !Joins(ls[j], pid, tid)
    ensures k < 0 <==> forall l :: l in ls ==> !Joins(l, pid, tid)
    decreases |ls|
  {
    if ls == [] then -1
    else if Joins(ls[0], pid, tid) then 0
    else
      assert ls == [ls[0]] + ls[1..];
      var k := FirstJoin(ls[1..], pid, tid);
      if k < 0 then -1 else k + 1
  }

  /** `removeTrackFromPlaylist`: finds the first link joining the two and
      deletes it by id; other links, duplicates included, stay. */
  function RemoveTrackFromPlaylist(s: Store, pid: int, tid: int): (res: (Store, bool))
    ensures res.1 <==> exists l :: l in s.links && Joins(l, pid, tid)
    ensures !res.1 ==> res.0 == s
    ensures res.1 && Valid(s) ==>
      var k := FirstJoin(s.links, pid, tid);
      0 <= k && res.0.links == s.links[..k] + s.links[k + 1..]
    ensures res.0.tracks == s.tracks && res.0.playlists == s.playlists
    ensures res.0.nextTrackId == s.nextTrackId && res.0.nextPlaylistId == s.nextPlaylistId
    ensures res.0.nextLinkId == s.nextLinkId
    ensures Valid(s) ==> Valid(res.0)
    ensures Intact(s) ==> Intact(res.0)
  {
    var k := FirstJoin(s.links, pid, tid);
    if k < 0 then (s, false)
    else
      RemoveAt(s, pid, tid, k);
      (s.(links := DeleteLinkIds(s.links, {s.links[k].id})), true)
  }

  /** What deleting the first joining link at `k` does to the store. */
  lemma RemoveAt(s: Store, pid: int, tid: int, k: int)
    requires 0 <= k == FirstJoin(s.links, pid, tid)
    ensures exists l :: l in s.links && Joins(l, pid, tid)
    ensures var t := s.(links := DeleteLinkIds(s.links, {s.links[k].id}));
      && (Valid(s) ==> Valid(t) && t.links == s.links[..k] + s.links[k + 1..])
      && (Intact(s) ==> Intact(t))
  {
    assert s.links[k] in s.links;
    if Valid(s) { DeleteOneLink(s.links, k); }
    DropLinksKeeps(s, {s.links[k].id});
  }

  /** Dropping links by id keeps the store's invariant and its integrity. */
  lemma DropLinksKeeps(s: Store, doomed: set<int>)
    ensures var t := s.(links := DeleteLinkIds(s.links, doomed));
      (Valid(s) ==> Valid(t)) && (Intact(s) ==> Intact(t))
  {
  }

  /** Deleting the id of the row at `k` from a table with unique ids removes
      exactly that row. */
  lemma DeleteOneLink(ls: seq<PlaylistTrack>, k: int)
    requires UniqueLinkIds(ls) && 0 <= k < |ls|
    ensures DeleteLinkIds(ls, {ls[k].id}) == ls[..k] + ls[k + 1..]
  {
    var p := Survives({ls[k].id});
    var a, b := ls[..k], ls[k + 1..];
    forall l | l in a ensures p(l) {
      var i :| 0 <= i < k && a[i] == l;
      assert ls[i] == l;
    }
    forall l | l in b ensures p(l) {
      var i :| 0 <= i < |b| && b[i] == l;
      assert ls[k + 1 + i] == l;
    }
    assert ls == a + [ls[k]] + b;
    FilterDropsOne(a, ls[k], b, p);
  }

  // ---------------------------------------------------------------------
  // Sequences of store operations.

  /** A mutating call on the store. */
  datatype StoreOp =
    | CreateTrackOp(track: NewTrack, now: int)
    | DeleteTrackOp(id: int)
    | CreatePlaylistOp(name: string, now: int)
    | DeletePlaylistOp(id: int)
    | AddTrackOp(playlistId: int, trackId: int, now: int)
    | RemoveTrackOp(playlistId: int, trackId: int)

  function Step(s: Store, op: StoreOp): (r: Store)
    ensures r.nextTrackId >= s.nextTrackId
    ensures Valid(s) ==> Valid(r)
  {
    match op
    case CreateTrackOp(nt, now) => CreateTrack(s, nt, now).0
    case DeleteTrackOp(id) => DeleteTrack(s, id).0
    case CreatePlaylistOp(name, now) => CreatePlaylist(s, name, now).0
    case DeletePlaylistOp(id) => DeletePlaylist(s, id).0
    case AddTrackOp(pid, tid, now) => AddTrackToPlaylist(s, pid, tid, now).0
    case RemoveTrackOp(pid, tid) => RemoveTrackFromPlaylist(s, pid, tid).0
  }

  function Run(s: Store, ops: seq<StoreOp>): Store
    decreases |ops|
  {
    if ops == [] then s else Run(Step(s, ops[0]), ops[1..])
  }

  /** The ids handed to the tracks created along a run, in order. */
  function CreatedIds(s: Store, ops: seq<StoreOp>): seq<int>
    decreases |ops|
  {
    if ops == [] then []
    else
      var rest := CreatedIds(Step(s, ops[0]), ops[1..]);
      if ops[0].CreateTrackOp? then [s.nextTrackId] + rest else rest
  }

  predicate StrictlyIncreasing(xs: seq<int>) {
    forall i, j :: 0 <= i < j < |xs| ==> xs[i] < xs[j]
  }

  /** Any run keeps the store's invariant. */
  lemma {:induction false} RunValid(s: Store, ops: seq<StoreOp>)
    requires Valid(s)
    ensures Valid(Run(s, ops))
    decreases |ops|
  {
    if ops != [] {
      RunValid(Step(s, ops[0]), ops[1..]);
    }
  }

  /** Track ids strictly increase along any run, deletes included, and all
      lie at or above the counter the run started from: an id, once handed
      out, is never handed out again. */
  lemma {:induction false} IdsNeverReused(s: Store, ops: seq<StoreOp>)
    ensures StrictlyIncreasing(CreatedIds(s, ops))
    ensures forall id :: id in CreatedIds(s, ops) ==> s.nextTrackId <= id < Run(s, ops).nextTrackId
    decreases |ops|
  {
    if ops != [] {
      var s1 := Step(s, ops[0]);
      IdsNeverReused(s1, ops[1..]);
      IdsNeverReusedCounter(s1, ops[1..]);
      var rest := CreatedIds(s1, ops[1..]);
      assert Run(s, ops) == Run(s1, ops[1..]);
      if ops[0].CreateTrackOp? {
        assert s1.nextTrackId == s.nextTrackId + 1;
        assert CreatedIds(s, ops) == [s.nextTrackId] + rest;
        ConsIncreasing(s.nextTrackId, rest);
      } else {
        assert CreatedIds(s, ops) == rest;
      }
    }
  }

  lemma ConsIncreasing(x: int, rest: seq<int>)
    requires StrictlyIncreasing(rest)
    requires forall y :: y in rest ==> x < y
    ensures StrictlyIncreasing([x] + rest)
  {
    var ids := [x] + rest;
    forall i, j | 0 <= i < j < |ids| ensures ids[i] < ids[j] {
      assert ids[j] == rest[j - 1] && rest[j - 1] in rest;
      if i > 0 { assert ids[i] == rest[i - 1]; }
    }
  }

  /** So a track created after any run never takes the id of a track stored
      before it. */
  lemma FreshAfterRun(s: Store, ops: seq<StoreOp>, nt: NewTrack, now: int)
    requires Valid(s)
    ensures forall t :: t in s.tracks ==> t.id < CreateTrack(Run(s, ops), nt, now).1.id
  {
    IdsNeverReusedCounter(s, ops);
  }

  lemma {:induction false} IdsNeverReusedCounter(s: Store, ops: seq<StoreOp>)
    ensures Run(s, ops).nextTrackId >= s.nextTrackId
    decreases |ops|
  {
    if ops != [] {
      IdsNeverReusedCounter(Step(s, ops[0]), ops[1..]);
    }
  }

  /** The route layer adds a link only after finding both rows. */
  predicate Guarded(s: Store, op: StoreOp) {
    op.AddTrackOp? ==> op.trackId in TrackIds(s.tracks) && op.playlistId in PlaylistIds(s.playlists)
  }

  predicate GuardedRun(s: Store, ops: seq<StoreOp>)
    decreases |ops|
  {
    ops == [] || (Guarded(s, ops[0]) && GuardedRun(Step(s, ops[0]), ops[1..]))
  }

  /** With links added only between existing rows, every link keeps naming
      an existing track and playlist through creates and cascading deletes. */
  lemma {:induction false} RunIntact(s: Store, ops: seq<StoreOp>)
    requires Intact(s) && GuardedRun(s, ops)
    ensures Intact(Run(s, ops))
    decreases |ops|
  {
    if ops != [] {
      var s1 := Step(s, ops[0]);
      assert Intact(s1);
      RunIntact(s1, ops[1..]);
    }
  }
}
