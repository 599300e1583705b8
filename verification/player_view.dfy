/** The player hook: `m:ss` labels for the progress and the duration, the
    progress bar's percentage, and seeking from a slider value. Numbers are
    exact reals; floating-point rounding is not modelled. */
module PlayerView {
  import opened Common
  import opened Decimal
  import opened Format
  import opened Player

  /** The hook's own `formatTime`, written out as the hook writes it. It
      yields the same text as `formatDuration` for every time. */
  function FormatTime(time: real): (r: string)
    ensures r == FormatDuration(time)
    ensures time >= 0.0 ==> ParseDuration(r) == Some(time.Floor)
  {
    var minutes := (time / 60.0).Floor;
    var seconds := (time - 60.0 * Trunc(time / 60.0) as real).Floor;
    IntToString(minutes) + ":" + (if seconds < 10 then "0" else "") + IntToString(seconds)
  }

  /** The progress bar: the share of the duration played, in percent, or 0
      when the duration is not positive. */
  function Percentage(progress: real, duration: real): (r: real)
    ensures duration <= 0.0 ==> r == 0.0
    ensures duration > 0.0 ==> r * duration == progress * 100.0
    ensures 0.0 <= progress <= duration ==> 0.0 <= r <= 100.0
  {
    if duration > 0.0 then progress / duration * 100.0 else 0.0
  }

  /** The time a slider value `p` (0 to 100) stands for. */
  function SeekTime(p: real, duration: real): (r: real)
    ensures 0.0 <= p <= 100.0 && duration >= 0.0 ==> 0.0 <= r <= duration
  {
    p / 100.0 * duration
  }

  /** Seeking to a slider value shows that same value on the bar. */
  lemma SeekRoundTrip(p: real, duration: real)
    requires duration > 0.0
    ensures Percentage(SeekTime(p, duration), duration) == p
  {
  }

  /** `handleProgressChange`: seek the player to the slider's time. */
  function HandleProgressChange(s: PlayerState, p: real): (t: PlayerState)
    ensures s.mounted ==> t.progress == SeekTime(p, s.duration)
    ensures s.mounted && s.duration > 0.0 ==> Percentage(t.progress, t.duration) == p
    ensures !s.mounted ==> t == s
  {
    SetProgress(s, SeekTime(p, s.duration))
  }

  /** What the hook derives from the player state. */
  datatype View = View(formattedProgress: string, formattedDuration: string, progressPercentage: real)

  function ViewOf(s: PlayerState): (v: View)
    ensures v.formattedProgress == FormatDuration(s.progress)
    ensures v.formattedDuration == FormatDuration(s.duration)
    ensures 0.0 <= s.progress <= s.duration ==> 0.0 <= v.progressPercentage <= 100.0
  {
    View(FormatTime(s.progress), FormatTime(s.duration), Percentage(s.progress, s.duration))
  }

  /** Before anything loads, both labels read `0:00` and the bar is empty. */
  lemma InitialView()
    ensures ViewOf(Initial()) == View("0:00", "0:00", 0.0)
  {
    var s := Initial();
    assert s.progress == 0.0 && s.duration == 0.0;
    ZeroDuration();
    assert ViewOf(s).formattedProgress == "0:00" && ViewOf(s).formattedDuration == "0:00";
  }
}
