/** The playback controller: the state the music context keeps and its
    transitions. The audio element is reduced to its source, its current
    time and whether it is playing; whether `load()`/`play()` succeed is an
    input to the transition that awaits them. */
module Player {
  import opened Common
  import opened Schema

  datatype PlayerState = PlayerState(
    current: Option<Track>,
    isPlaying: bool,
    queue: seq<Track>,
    volume: real,
    progress: real,
    duration: real,
    /** Whether the audio element exists yet (it is created on mount). */
    mounted: bool,
    /** The element's `src`, `currentTime` and playing flag. */
    source: string,
    position: real,
    elementPlaying: bool)

  const AudioRoute := "/api/audio/"

  /** The state before and right after the first render. */
  function Initial(): (s: PlayerState)
    ensures s.current.None? && !s.isPlaying && s.queue == []
    ensures s.volume == 0.7 && s.progress == 0.0 && s.duration == 0.0
    ensures !s.mounted
  {
    PlayerState(None, false, [], 0.7, 0.0, 0.0, false, "", 0.0, false)
  }

  /** The mount effect creates the audio element. */
  function Mount(s: PlayerState): (t: PlayerState)
    ensures t.mounted
    ensures t.(mounted := s.mounted) == s
  {
    s.(mounted := true)
  }

  /** `resumeTrack`: with an element and a current track, playing again
      sets `isPlaying` once it has started; otherwise nothing happens. */
  function Resume(s: PlayerState, started: bool): (t: PlayerState)
    ensures !s.mounted || s.current.None? ==> t == s
    ensures s.mounted && s.current.Some? && started ==> t == s.(isPlaying := true, elementPlaying := true)
    ensures !started ==> t == s
  {
    if !s.mounted || s.current.None? then s
    else if started then s.(isPlaying := true, elementPlaying := true)
    else s
  }

  /** `pauseTrack`. */
  function Pause(s: PlayerState): (t: PlayerState)
    ensures s.mounted ==> !t.isPlaying && !t.elementPlaying
    ensures t.current == s.current && t.queue == s.queue && t.position == s.position
    ensures !s.mounted ==> t == s
  {
    if !s.mounted then s else s.(isPlaying := false, elementPlaying := false)
  }

  /** `playTrack(track)`. The same track as the current one resumes it.
      A different one becomes current, its file becomes the source and
      progress restarts at 0; `isPlaying` is set only once loading and
      playing have succeeded, and is otherwise left as it was. */
  function PlayTrack(s: PlayerState, track: Track, started: bool): (t: PlayerState)
    ensures !s.mounted ==> t == s
    ensures s.mounted && s.current.Some? && s.current.value.id == track.id ==> t == Resume(s, started)
    ensures s.mounted && (s.current.None? || s.current.value.id != track.id) ==>
      && t.current == Some(track)
      && t.source == AudioRoute + track.filename
      && t.progress == 0.0 && t.position == 0.0
      && t.elementPlaying == started
      && t.isPlaying == (started || s.isPlaying)
      && t.queue == s.queue && t.volume == s.volume && t.duration == s.duration
    ensures t.queue == s.queue
  {
    if !s.mounted then s
    else if s.current.Some? && s.current.value.id == track.id then Resume(s, started)
    else
      var loaded := s.(current := Some(track), source := AudioRoute + track.filename,
                       progress := 0.0, position := 0.0, elementPlaying := false);
      if started then loaded.(isPlaying := true, elementPlaying := true) else loaded
  }

  /** `nextTrack`: an empty queue pauses; otherwise the head leaves the
      queue and is played. */
  function Next(s: PlayerState, started: bool): (t: PlayerState)
    ensures s.queue == [] ==> t == Pause(s) && t.queue == []
    ensures s.queue != [] ==> t == PlayTrack(s.(queue := s.queue[1..]), s.queue[0], started)
    ensures s.queue != [] ==> t.queue == s.queue[1..]
    ensures s.queue != [] && s.mounted ==> t.current.Some? && t.current.value.id == s.queue[0].id
  {
    if |s.queue| == 0 then Pause(s)
    else PlayTrack(s.(queue := s.queue[1..]), s.queue[0], started)
  }

  /** `previousTrack`: both branches rewind the element to 0. */
  function Previous(s: PlayerState): (t: PlayerState)
    ensures s.mounted ==> t.position == 0.0
    ensures t.current == s.current && t.queue == s.queue && t.isPlaying == s.isPlaying
    ensures t.(position := s.position) == s
  {
    if !s.mounted then s else s.(position := 0.0)
  }

  /** The `setProgress` the context exposes: seek the element and record
      the new progress. */
  function SetProgress(s: PlayerState, p: real): (t: PlayerState)
    ensures s.mounted ==> t.progress == p && t.position == p
    ensures !s.mounted ==> t == s
    ensures t.(progress := s.progress, position := s.position) == s
  {
    if !s.mounted then s else s.(progress := p, position := p)
  }

  /** `setVolume` stores the value as given; nothing clamps it. */
  function SetVolume(s: PlayerState, v: real): (t: PlayerState)
    ensures t.volume == v && t.(volume := s.volume) == s
  {
    s.(volume := v)
  }

  /** `addToQueue`: the track joins the tail. */
  function AddToQueue(s: PlayerState, track: Track): (t: PlayerState)
    ensures t.queue == s.queue + [track]
    ensures t.(queue := s.queue) == s
  {
    s.(queue := s.queue + [track])
  }

  /** `clearQueue`. */
  function ClearQueue(s: PlayerState): (t: PlayerState)
    ensures t.queue == [] && t.(queue := s.queue) == s
  {
    s.(queue := [])
  }

  /** The element reports a new current time. */
  function OnTimeUpdate(s: PlayerState, time: real): (t: PlayerState)
    ensures s.mounted ==> t.progress == time && t.position == time
    ensures !s.mounted ==> t == s
  {
    if !s.mounted then s else s.(progress := time, position := time)
  }

  /** The element has read the file's duration. */
  function OnMetadata(s: PlayerState, d: real): (t: PlayerState)
    ensures s.mounted ==> t.duration == d
    ensures !s.mounted ==> t == s
  {
    if !s.mounted then s else s.(duration := d)
  }

  /** The track has ended: advance. */
  function OnEnded(s: PlayerState, started: bool): (t: PlayerState)
    ensures t == Next(s, started)
  {
    Next(s, started)
  }

  /** A playback error (after the toast): advance as well. */
  function OnError(s: PlayerState, started: bool): (t: PlayerState)
    ensures t == Next(s, started)
  {
    Next(s, started)
  }

  /** Enqueueing several tracks one by one appends them in order. */
  function EnqueueAll(s: PlayerState, ts: seq<Track>): (t: PlayerState)
    ensures t.queue == s.queue + ts
    ensures t.(queue := s.queue) == s
    decreases |ts|
  {
    if ts == [] then s
    else
      var t := EnqueueAll(AddToQueue(s, ts[0]), ts[1..]);
      assert s.queue + [ts[0]] + ts[1..] == s.queue + ts;
      t
  }

  /** Advancing `n` times, each start succeeding or not as `outcomes` says;
      the result lists the current track after every step. */
  function Advance(s: PlayerState, outcomes: seq<bool>): (r: (PlayerState, seq<Option<Track>>))
    ensures |r.1| == |outcomes|
    ensures r.0.mounted == s.mounted
    decreases |outcomes|
  {
    if outcomes == [] then (s, [])
    else
      var t := Next(s, outcomes[0]);
      var rest := Advance(t, outcomes[1..]);
      (rest.0, [t.current] + rest.1)
  }

  /** The queue is first in, first out: advancing through it plays its
      tracks in the order they were queued and leaves the rest queued,
      whether or not each start succeeds. */
  lemma {:induction false} AdvanceIsFifo(s: PlayerState, outcomes: seq<bool>)
    requires s.mounted && |outcomes| <= |s.queue|
    ensures var r := Advance(s, outcomes);
      && r.0.queue == s.queue[|outcomes|..]
      && forall i :: 0 <= i < |outcomes| ==> r.1[i].Some? && r.1[i].value.id == s.queue[i].id
    decreases |outcomes|
  {
    if outcomes != [] {
      var t := Next(s, outcomes[0]);
      AdvanceIsFifo(t, outcomes[1..]);
      var r := Advance(s, outcomes);
      assert t.queue == s.queue[1..];
      forall i | 0 <= i < |outcomes|
        ensures r.1[i].Some? && r.1[i].value.id == s.queue[i].id
      {
        if i > 0 {
          assert r.1[i] == Advance(t, outcomes[1..]).1[i - 1];
        }
      }
    }
  }

  /** Queueing tracks after clearing the queue and then advancing through
      them plays exactly those tracks, in order. */
  lemma PlaysQueuedInOrder(s: PlayerState, ts: seq<Track>, outcomes: seq<bool>)
    requires s.mounted && |outcomes| == |ts|
    ensures var r := Advance(EnqueueAll(ClearQueue(s), ts), outcomes);
      && r.0.queue == []
      && forall i :: 0 <= i < |ts| ==> r.1[i].Some? && r.1[i].value.id == ts[i].id
  {
    var q := EnqueueAll(ClearQueue(s), ts);
    assert q.queue == ts;
    AdvanceIsFifo(q, outcomes);
  }

  /** Choosing the current track again resumes it: the current track and
      the progress do not move. */
  lemma ReplayIsResume(s: PlayerState, started: bool)
    requires s.mounted && s.current.Some?
    ensures var t := PlayTrack(s, s.current.value, started);
      t.current == s.current && t.progress == s.progress && t.position == s.position
  {
  }

  /** With an empty queue, advancing pauses and the queue stays empty. */
  lemma NextOnEmptyPauses(s: PlayerState, started: bool)
    requires s.mounted && s.queue == []
    ensures var t := Next(s, started);
      !t.isPlaying && t.queue == [] && t.current == s.current
  {
  }

  /** A failed start of a new track leaves `isPlaying` as it was: after
      playing one track, a second whose start fails is shown as playing
      while the element is stopped. */
  lemma FailedStartKeepsFlag(s: PlayerState, a: Track, b: Track)
    requires s.mounted && a.id != b.id
    ensures var t := PlayTrack(PlayTrack(s, a, true), b, false);
      t.isPlaying && !t.elementPlaying && t.current == Some(b)
  {
  }
}
