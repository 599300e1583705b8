/** Table queries shared by the Express store and the serverless store:
    id bookkeeping, link integrity, search, playlist membership and the
    newest-first listing order. */
module Catalog {
  import opened Common
  import opened Text
  import opened Schema

  predicate UniqueTrackIds(ts: seq<Track>) {
    forall i, j :: 0 <= i < j < |ts| ==> ts[i].id != ts[j].id
  }

  predicate UniquePlaylistIds(ps: seq<Playlist>) {
    forall i, j :: 0 <= i < j < |ps| ==> ps[i].id != ps[j].id
  }

  predicate UniqueLinkIds(ls: seq<PlaylistTrack>) {
    forall i, j :: 0 <= i < j < |ls| ==> ls[i].id != ls[j].id
  }

  function TrackIds(ts: seq<Track>): set<int> {
    set t | t in ts :: t.id
  }

  function PlaylistIds(ps: seq<Playlist>): set<int> {
    set p | p in ps :: p.id
  }

  function LinkIds(ls: seq<PlaylistTrack>): set<int> {
    set l | l in ls :: l.id
  }

  /** Referential integrity: every link names a stored track and a stored playlist. */
  predicate LinksIntact(ts: seq<Track>, ps: seq<Playlist>, ls: seq<PlaylistTrack>) {
    forall l :: l in ls ==> l.trackId in TrackIds(ts) && l.playlistId in PlaylistIds(ps)
  }

  lemma UniqueIdsDistinct(ts: seq<Track>)
    requires UniqueTrackIds(ts)
    ensures Distinct(ts)
  {
  }

  /** In a table with unique ids, two rows with the same id are the same row. */
  lemma SameLinkId(ls: seq<PlaylistTrack>, a: PlaylistTrack, b: PlaylistTrack)
    requires UniqueLinkIds(ls) && a in ls && b in ls && a.id == b.id
    ensures a == b
  {
  }

  /** `Math.max(...ids, 0)`: the largest id, or 0 for an empty table. */
  function MaxOrZero(xs: seq<int>): (m: int)
    ensures m >= 0
    ensures forall x :: x in xs ==> x <= m
    ensures m == 0 || m in xs
    decreases |xs|
  {
    if xs == [] then 0
    else
      var rest := MaxOrZero(xs[1..]);
      assert xs == [xs[0]] + xs[1..];
      if xs[0] > rest then xs[0] else rest
  }

  /** The search test of both stores: `lq` is the lowercased query; a null or
      empty album never matches (it is falsy in JavaScript). */
  predicate MatchesQuery(t: Track, lq: string, lower: string -> string) {
    || Includes(lower(t.title), lq)
    || Includes(lower(t.artist), lq)
    || (t.album.Some? && t.album.value != "" && Includes(lower(t.album.value), lq))
  }

  /** Reference reading of the search test, on substrings. */
  ghost predicate Found(t: Track, query: string, lower: string -> string) {
    || IsSubstring(lower(query), lower(t.title))
    || IsSubstring(lower(query), lower(t.artist))
    || (t.album.Some? && t.album.value != "" && IsSubstring(lower(query), lower(t.album.value)))
  }

  /** The filtering branch of `searchTracks`: table order is kept. */
  function SearchFilter(ts: seq<Track>, query: string, lower: string -> string): (r: seq<Track>)
    ensures forall t :: t in r <==> (t in ts && Found(t, query, lower))
    ensures IsSubsequence(r, ts)
    ensures Distinct(ts) ==> Distinct(r)
  {
    var lq := lower(query);
    var r := Filter(ts, (t: Track) => MatchesQuery(t, lq, lower));
    FilterSubsequence(ts, (t: Track) => MatchesQuery(t, lq, lower));
    assert Distinct(ts) ==> Distinct(r) by {
      if Distinct(ts) { FilterDistinct(ts, (t: Track) => MatchesQuery(t, lq, lower)); }
    }
    r
  }

  /** The ids of the tracks linked to playlist `pid`, in link order. */
  function LinkedTrackIds(ls: seq<PlaylistTrack>, pid: int): (r: seq<int>)
    ensures forall id :: id in r <==> exists l :: l in ls && l.playlistId == pid && l.trackId == id
    decreases |ls|
  {
    if ls == [] then []
    else if ls[0].playlistId == pid then [ls[0].trackId] + LinkedTrackIds(ls[1..], pid)
    else LinkedTrackIds(ls[1..], pid)
  }

  /** `getPlaylistTracks`: the stored tracks, in table order, whose id some
      link of the playlist names; a track linked twice is listed once. */
  function TracksInPlaylist(ts: seq<Track>, ls: seq<PlaylistTrack>, pid: int): (r: seq<Track>)
    ensures forall t :: t in r <==> t in ts && exists l :: l in ls && l.playlistId == pid && l.trackId == t.id
    ensures IsSubsequence(r, ts)
    ensures Distinct(ts) ==> Distinct(r)
  {
    var ids := LinkedTrackIds(ls, pid);
    var r := Filter(ts, (t: Track) => t.id in ids);
    FilterSubsequence(ts, (t: Track) => t.id in ids);
    assert Distinct(ts) ==> Distinct(r) by {
      if Distinct(ts) { FilterDistinct(ts, (t: Track) => t.id in ids); }
    }
    r
  }

  // ---------------------------------------------------------------------
  // Newest-first listing: `getTracks` sorts by `uploadedAt`, descending,
  // with a stable sort, so tracks stamped with the same time keep their
  // table order.

  predicate NewestFirst(ts: seq<Track>) {
    forall i, j :: 0 <= i < j < |ts| ==> ts[i].uploadedAt >= ts[j].uploadedAt
  }

  /** The tracks stamped `k`, in order. */
  function Stamped(ts: seq<Track>, k: int): seq<Track> {
    Filter(ts, (t: Track) => t.uploadedAt == k)
  }

  /** Places `x` after every track at least as new as it. */
  function Insert(x: Track, ts: seq<Track>): (r: seq<Track>)
    ensures multiset(r) == multiset(ts) + multiset{x}
    decreases |ts|
  {
    if ts == [] then [x]
    else if ts[0].uploadedAt >= x.uploadedAt then
      assert ts == [ts[0]] + ts[1..];
      [ts[0]] + Insert(x, ts[1..])
    else
      [x] + ts
  }

  lemma {:induction false} InsertSorted(x: Track, ts: seq<Track>)
    requires NewestFirst(ts)
    ensures NewestFirst(Insert(x, ts))
    decreases |ts|
  {
    if ts != [] && ts[0].uploadedAt >= x.uploadedAt {
      var rest := Insert(x, ts[1..]);
      InsertSorted(x, ts[1..]);
      forall j | 0 <= j < |rest|
        ensures ts[0].uploadedAt >= rest[j].uploadedAt
      {
        assert rest[j] in multiset(rest);
        assert rest[j] in multiset(ts[1..]) || rest[j] == x;
        if rest[j] != x {
          var i :| 0 <= i < |ts[1..]| && ts[1..][i] == rest[j];
          assert ts[i + 1] == rest[j];
        }
      }
    }
  }

  /** Stable insertion sort, newest first. */
  function SortNewestFirst(ts: seq<Track>): (r: seq<Track>)
    ensures NewestFirst(r)
    ensures multiset(r) == multiset(ts)
    decreases |ts|
  {
    if ts == [] then []
    else
      assert ts == ts[..|ts| - 1] + [ts[|ts| - 1]];
      var sorted := SortNewestFirst(ts[..|ts| - 1]);
      InsertSorted(ts[|ts| - 1], sorted);
      Insert(ts[|ts| - 1], sorted)
  }

  lemma {:induction false} NoneStamped(ts: seq<Track>, k: int)
    requires forall t :: t in ts ==> t.uploadedAt != k
    ensures Stamped(ts, k) == []
    decreases |ts|
  {
    if ts != [] {
      assert ts[0] in ts;
      NoneStamped(ts[1..], k);
    }
  }

  lemma {:induction false} InsertStamped(x: Track, ts: seq<Track>, k: int)
    requires NewestFirst(ts)
    ensures Stamped(Insert(x, ts), k) == Stamped(ts, k) + (if x.uploadedAt == k then [x] else [])
    decreases |ts|
  {
    var p := (t: Track) => t.uploadedAt == k;
    if ts == [] {
      assert Insert(x, ts) == [x];
      assert Stamped([x], k) == Filter([x], p);
      assert [x][1..] == [];
    } else if ts[0].uploadedAt >= x.uploadedAt {
      InsertStamped(x, ts[1..], k);
      FilterAppend([ts[0]], Insert(x, ts[1..]), p);
      FilterAppend([ts[0]], ts[1..], p);
      assert ts == [ts[0]] + ts[1..];
    } else {
      FilterAppend([x], ts, p);
      assert [x][1..] == [];
      if x.uploadedAt == k {
        NoneStamped(ts, k);
      }
    }
  }

  lemma SortUnfold(ts: seq<Track>)
    requires ts != []
    ensures SortNewestFirst(ts) == Insert(ts[|ts| - 1], SortNewestFirst(ts[..|ts| - 1]))
  {
  }

  /** The sort keeps, for every time stamp, the tracks bearing it in their
      original order: it is a stable permutation. */
  lemma {:induction false} SortStable(ts: seq<Track>, k: int)
    ensures Stamped(SortNewestFirst(ts), k) == Stamped(ts, k)
    decreases |ts|
  {
    if ts != [] {
      var init := ts[..|ts| - 1];
      var last := ts[|ts| - 1];
      assert ts == init + [last];
      var tail := if last.uploadedAt == k then [last] else [];
      assert Stamped(ts, k) == Stamped(init, k) + tail by {
        FilterAppend(init, [last], (t: Track) => t.uploadedAt == k);
        assert [last][1..] == [];
      }
      assert Stamped(SortNewestFirst(ts), k) == Stamped(init, k) + tail by {
        SortStable(init, k);
        SortUnfold(ts);
        InsertStamped(last, SortNewestFirst(init), k);
      }
    }
  }

  /** A table already listed newest first is left as it is. */
  lemma {:induction false} SortSorted(ts: seq<Track>)
    requires NewestFirst(ts)
    ensures SortNewestFirst(ts) == ts
    decreases |ts|
  {
    if ts != [] {
      var init := ts[..|ts| - 1];
      var last := ts[|ts| - 1];
      assert ts == init + [last];
      assert SortNewestFirst(init) == init by {
        assert forall i :: 0 <= i < |init| ==> init[i] == ts[i];
        assert NewestFirst(init);
        SortSorted(init);
      }
      assert Insert(last, init) == ts by {
        forall t | t in init
          ensures t.uploadedAt >= last.uploadedAt
        {
          var i :| 0 <= i < |init| && init[i] == t;
          assert ts[i] == t;
        }
        InsertLast(last, init);
      }
      SortUnfold(ts);
    }
  }

  lemma {:induction false} InsertLast(x: Track, ts: seq<Track>)
    requires forall t :: t in ts ==> t.uploadedAt >= x.uploadedAt
    ensures Insert(x, ts) == ts + [x]
    decreases |ts|
  {
    if ts != [] {
      assert ts[0] in ts;
      InsertLast(x, ts[1..]);
      assert ts == [ts[0]] + ts[1..];
    }
  }
}
