/** The client's display helpers: artwork placeholders chosen by track id,
    `m:ss` durations and French relative times ("Il y a 3 jours"). JavaScript
    numbers are modelled as exact reals or integers; `%` is JavaScript's
    remainder, which takes the sign of the dividend. */
module Format {
  import opened Common
  import opened Decimal
  import opened Text

  /** The eight placeholder artwork URLs, in order. */
  const Placeholders: seq<string> := [
    "https://images.unsplash.com/photo-1514525253161-7a46d19cd819?auto=format&fit=crop&q=80&w=300&h=300",
    "https://images.unsplash.com/photo-1470225620780-dba8ba36b745?auto=format&fit=crop&q=80&w=300&h=300",
    "https://images.unsplash.com/photo-1511671782779-c97d3d27a1d4?auto=format&fit=crop&q=80&w=300&h=300",
    "https://images.unsplash.com/photo-1493225457124-a3eb161ffa5f?auto=format&fit=crop&q=80&w=300&h=300",
    "https://images.unsplash.com/photo-1518609878373-06d740f60d8b?auto=format&fit=crop&q=80&w=300&h=300",
    "https://images.unsplash.com/photo-1459749411175-04bf5292ceea?auto=format&fit=crop&q=80&w=300&h=300",
    "https://images.unsplash.com/photo-1483412033650-1015ddeb83d1?auto=format&fit=crop&q=80&w=300&h=300",
    "https://images.unsplash.com/photo-1511379938547-c1f69419868d?auto=format&fit=crop&q=80&w=300&h=300"
  ]

  /** JavaScript's `a % b` on integers for `b > 0`: the remainder of the
      magnitude, carrying the sign of `a`. */
  function JsRem(a: int, b: int): (r: int)
    requires b > 0
    ensures -b < r < b
  {
    if a >= 0 then a % b else -((-a) % b)
  }

  /** `ARTWORK_PLACEHOLDERS[id % 8]`; a negative remainder indexes nothing
      and the lookup is `undefined`. */
  function ArtworkPlaceholder(id: int): (r: Option<string>)
    ensures id >= 0 ==> r == Some(Placeholders[id % 8])
    ensures r.None? <==> id < 0 && (-id) % 8 != 0
    ensures r.Some? ==> r.value in Placeholders
  {
    assert |Placeholders| == 8;
    var k := JsRem(id, |Placeholders|);
    if k < 0 then None else Some(Placeholders[k])
  }

  /** Ids eight apart share their artwork. */
  lemma PlaceholderPeriodic(id: nat)
    ensures ArtworkPlaceholder(id + 8) == ArtworkPlaceholder(id)
  {
  }

  /** JavaScript's `Math.trunc`. */
  function Trunc(x: real): (n: int)
    ensures x >= 0.0 ==> n == x.Floor
    ensures x < 0.0 ==> n == -((-x).Floor)
  {
    if x >= 0.0 then x.Floor else -((-x).Floor)
  }

  /** The minutes and seconds fields, `Math.floor(d / 60)` and
      `Math.floor(d % 60)`. For a non-negative duration they split its whole
      seconds into minutes and a remainder below 60. */
  function Clock(d: real): (c: (int, int))
    ensures d >= 0.0 ==> c.0 >= 0 && 0 <= c.1 < 60 && 60 * c.0 + c.1 == d.Floor
    ensures d < 0.0 ==> c.0 < 0 && -60 <= c.1 <= 0
  {
    var q := Trunc(d / 60.0);
    ((d / 60.0).Floor, (d - 60.0 * q as real).Floor)
  }

  /** `${minutes}:${seconds < 10 ? '0' : ''}${seconds}`. */
  function RenderClock(minutes: int, seconds: int): string {
    IntToString(minutes) + ":" + SecondsText(seconds)
  }

  /** The seconds field, padded with one zero below 10. */
  function SecondsText(seconds: int): string {
    (if seconds < 10 then "0" else "") + IntToString(seconds)
  }

  /** `formatDuration`: a non-negative duration renders as its minutes, a
      colon and exactly two second digits, which read back as its whole
      number of seconds. */
  function FormatDuration(d: real): (r: string)
    ensures d >= 0.0 ==> ParseDuration(r) == Some(d.Floor)
    ensures d >= 0.0 ==> forall x :: ParseDuration(x) == Some(d.Floor) ==> x == r
  {
    var c := Clock(d);
    assert d >= 0.0 ==> ParseDuration(RenderClock(c.0, c.1)) == Some(d.Floor) by {
      if d >= 0.0 {
        ClockReadsBack(d);
      }
    }
    assert d >= 0.0 ==> forall x :: ParseDuration(x) == Some(d.Floor) ==> x == RenderClock(c.0, c.1) by {
      if d >= 0.0 {
        forall x | ParseDuration(x) == Some(d.Floor) ensures x == RenderClock(c.0, c.1) {
          OnlyRendering(x, d);
        }
      }
    }
    RenderClock(c.0, c.1)
  }

  lemma ClockReadsBack(d: real)
    requires d >= 0.0
    ensures ParseDuration(RenderClock(Clock(d).0, Clock(d).1)) == Some(d.Floor)
  {
    var (m, sec) := Clock(d);
    assert 60 * m + sec == d.Floor;
    ClockRoundTrip(m, sec);
  }

  /** Zero seconds render as `0:00`. */
  lemma ZeroDuration()
    ensures FormatDuration(0.0) == "0:00"
  {
    assert Clock(0.0) == (0, 0);
    assert IntToString(0) == "0";
    assert SecondsText(0) == "00";
  }

  /** Reads `m:ss` back as a number of seconds: the minutes without a
      leading zero, a colon, then two digits below 60. */
  function ParseDuration(r: string): Option<int> {
    match SplitOnce(r, ':')
    case None => None
    case Some((m, f)) => ParseFields(m, f)
  }

  function ParseFields(m: string, f: string): Option<int> {
    if |f| != 2 || !AllDigits(f) || DigitsValue(f) >= 60 then None
    else match ParseNat(m)
      case None => None
      case Some(mv) => Some(60 * mv + DigitsValue(f))
  }

  /** The two-character seconds field of a clock. */
  lemma SecondsField(seconds: int)
    requires 0 <= seconds < 60
    ensures var f := SecondsText(seconds);
      |f| == 2 && AllDigits(f) && DigitsValue(f) == seconds
  {
    var f := SecondsText(seconds);
    NatRoundTrip(seconds);
    if seconds < 10 {
      assert f == "0" + NatToString(seconds);
      assert f[..1] == "0";
      assert DigitsValue(f[..1]) == 10 * DigitsValue([]) + DigitValue('0') by {
        assert f[..1][..0] == [];
      }
    } else {
      assert f == NatToString(seconds);
      assert NatToString(seconds) == NatToString(seconds / 10) + [DigitChar(seconds % 10)];
    }
  }

  lemma ParseClockShape(m: string, f: string)
    requires ':' !in m
    ensures ParseDuration(m + [':'] + f) == ParseFields(m, f)
  {
    SplitOnceOf(m, ':', f);
  }

  lemma FieldsOf(m: string, f: string, mv: nat, sv: nat)
    requires ParseNat(m) == Some(mv)
    requires |f| == 2 && AllDigits(f) && DigitsValue(f) == sv < 60
    ensures ParseFields(m, f) == Some(60 * mv + sv)
  {
  }

  lemma ClockRoundTrip(minutes: int, seconds: int)
    requires minutes >= 0 && 0 <= seconds < 60
    ensures ParseDuration(RenderClock(minutes, seconds)) == Some(60 * minutes + seconds)
  {
    var m := NatToString(minutes);
    var f := SecondsText(seconds);
    SecondsField(seconds);
    NatRoundTrip(minutes);
    FieldsOf(m, f, minutes, seconds);
    DigitsHaveNo(m, ':');
    ParseClockShape(m, f);
    assert RenderClock(minutes, seconds) == m + [':'] + f;
  }

  /** Two digits below 60 are the padded seconds field of their value. */
  lemma SecondsTextOf(f: string)
    requires |f| == 2 && AllDigits(f) && DigitsValue(f) < 60
    ensures SecondsText(DigitsValue(f)) == f
  {
    var v := DigitsValue(f);
    assert f[..1][..0] == [];
    assert v == 10 * DigitValue(f[0]) + DigitValue(f[1]);
    if f[0] == '0' {
      CharRoundTrip(f[1]);
      assert NatToString(v) == [f[1]];
      assert f == "0" + [f[1]];
    } else {
      CanonicalRoundTrip(f);
    }
  }

  /** Only the rendering of a duration reads back as its whole seconds:
      minutes with a leading zero, a one-digit seconds field or seconds of
      60 and more are refused. */
  lemma OnlyRendering(x: string, d: real)
    requires d >= 0.0 && ParseDuration(x) == Some(d.Floor)
    ensures x == RenderClock(Clock(d).0, Clock(d).1)
  {
    var (m, f) := SplitOnce(x, ':').value;
    var mv := ParseNat(m).value;
    var sv := DigitsValue(f);
    assert d.Floor == 60 * mv + sv;
    assert Canonical(m);
    CanonicalRoundTrip(m);
    SecondsTextOf(f);
    assert Clock(d) == (mv, sv);
    assert x == RenderClock(mv, sv);
  }

  /** Every text that reads back is the rendering of a whole, non-negative
      number of seconds. */
  lemma DurationTextExact(x: string, n: int)
    requires ParseDuration(x) == Some(n)
    ensures n >= 0 && x == FormatDuration(n as real)
  {
    var (m, f) := SplitOnce(x, ':').value;
    assert n == 60 * ParseNat(m).value + DigitsValue(f);
    assert (n as real).Floor == n;
  }

  /** For whole, non-negative `n`, a text reads back as `n` exactly when it
      is the rendering of `n`. */
  lemma DurationText(x: string, n: nat)
    ensures ParseDuration(x) == Some(n) <==> x == FormatDuration(n as real)
  {
    if ParseDuration(x) == Some(n) {
      DurationTextExact(x, n);
    }
  }

  /** A whole, non-negative number of seconds reads back unchanged. */
  lemma DurationRoundTrip(n: nat)
    ensures ParseDuration(FormatDuration(n as real)) == Some(n)
  {
  }

  /** The units of a relative time, longest first. */
  datatype Unit = Month | Week | Day | Hour | Minute

  /** The length of a unit in milliseconds; a month is 30 days. */
  function UnitMs(u: Unit): nat {
    match u
    case Month => 30 * 24 * 60 * 60 * 1000
    case Week => 7 * 24 * 60 * 60 * 1000
    case Day => 24 * 60 * 60 * 1000
    case Hour => 60 * 60 * 1000
    case Minute => 60 * 1000
  }

  /** `u` is checked before `v`. */
  predicate Before(u: Unit, v: Unit) {
    UnitMs(u) > UnitMs(v)
  }

  datatype Elapsed = JustNow | Ago(count: int, unit: Unit)

  /** Flooring twice, by `b` then by `c`, is flooring once by `b * c`: the
      source's chain of floors equals one floor of the whole difference. */
  lemma DivStep(x: int, q: int, b: int, c: int)
    requires b > 0 && c > 0 && q == x / b
    ensures q / c == x / (b * c)
  {
    var m := q / c;
    assert b * c * m <= b * q by {
      assert c * m <= q;
      MulLe(b, c * m, q);
    }
    assert b * q <= x < b * q + b;
    assert b * q + b <= b * c * m + b * c by {
      assert q + 1 <= c * m + c;
      MulLe(b, q + 1, c * m + c);
    }
    DivUnique(x, b * c, m);
  }

  lemma MulLe(k: int, u: int, v: int)
    requires k > 0 && u <= v
    ensures k * u <= k * v
  {
  }

  lemma DivUnique(x: int, d: int, m: int)
    requires d > 0 && d * m <= x < d * m + d
    ensures x / d == m
  {
    var q := x / d;
    if q < m {
      MulLe(d, q + 1, m);
    } else if q > m {
      MulLe(d, m + 1, q);
    }
  }

  /** The counts `formatRelativeTime` computes from a difference `diff` in
      milliseconds, each by flooring the previous one, and the first nonzero
      one in the order months, weeks, days, hours, minutes. */
  function Elapse(diff: int): (e: Elapsed)
    ensures e.JustNow? <==> diff < UnitMs(Minute)
    ensures e.Ago? ==> e.count == diff / UnitMs(e.unit) && e.count >= 1
    ensures e.Ago? ==> forall u :: Before(u, e.unit) ==> diff < UnitMs(u)
  {
    var seconds := diff / 1000;
    var minutes := seconds / 60;
    var hours := minutes / 60;
    var days := hours / 24;
    var weeks := days / 7;
    var months := days / 30;
    DivStep(diff, seconds, 1000, 60);
    DivStep(diff, minutes, 60000, 60);
    DivStep(diff, hours, 3600000, 24);
    DivStep(diff, days, 86400000, 7);
    DivStep(diff, days, 86400000, 30);
    if months > 0 then Ago(months, Month)
    else if weeks > 0 then Ago(weeks, Week)
    else if days > 0 then Ago(days, Day)
    else if hours > 0 then Ago(hours, Hour)
    else if minutes > 0 then Ago(minutes, Minute)
    else JustNow
  }

  function Singular(u: Unit): string {
    match u
    case Month => "mois"
    case Week => "semaine"
    case Day => "jour"
    case Hour => "heure"
    case Minute => "minute"
  }

  function Plural(u: Unit): string {
    match u
    case Month => "mois"
    case Week => "semaines"
    case Day => "jours"
    case Hour => "heures"
    case Minute => "minutes"
  }

  const JustNowText := "À l'instant"
  const AgoPrefix := "Il y a "

  /** The French text of an elapsed time; a count of exactly 1 takes the
      singular noun. */
  function RenderElapsed(e: Elapsed): string {
    match e
    case JustNow => JustNowText
    case Ago(n, u) => AgoPrefix + IntToString(n) + " " + (if n == 1 then Singular(u) else Plural(u))
  }

  /** `formatRelativeTime`, with the clock reading `now` passed in. */
  function FormatRelativeTime(now: int, date: int): (r: string)
    ensures now - date < UnitMs(Minute) <==> r == JustNowText
    ensures ParseElapsed(r) == Some(Elapse(now - date))
    ensures forall x :: ParseElapsed(x) == Some(Elapse(now - date)) ==> x == r
  {
    var e := Elapse(now - date);
    RenderElapsedRoundTrip(e);
    forall x | ParseElapsed(x) == Some(e) ensures x == RenderElapsed(e) {
      ElapsedTextExact(x, e);
    }
    assert e.Ago? ==> RenderElapsed(e) != JustNowText by {
      if e.Ago? { AgoIsNotJustNow(e); }
    }
    RenderElapsed(e)
  }

  /** The unit a noun names, with the count it is allowed after. */
  function UnitOf(word: string, n: int): Option<Unit> {
    if word == "mois" then Some(Month)
    else if n == 1 then
      if word == "semaine" then Some(Week)
      else if word == "jour" then Some(Day)
      else if word == "heure" then Some(Hour)
      else if word == "minute" then Some(Minute)
      else None
    else
      if word == "semaines" then Some(Week)
      else if word == "jours" then Some(Day)
      else if word == "heures" then Some(Hour)
      else if word == "minutes" then Some(Minute)
      else None
  }

  /** Reads a rendered relative time back. */
  function ParseElapsed(r: string): Option<Elapsed> {
    if r == JustNowText then Some(JustNow)
    else if !StartsWith(r, AgoPrefix) then None
    else match SplitOnce(r[|AgoPrefix|..], ' ')
      case None => None
      case Some((num, word)) =>
        match ParseInt(num)
        case None => None
        case Some(n) =>
          match UnitOf(word, n)
          case None => None
          case Some(u) => Some(Ago(n, u))
  }

  lemma AgoIsNotJustNow(e: Elapsed)
    requires e.Ago?
    ensures RenderElapsed(e) != JustNowText
  {
    assert RenderElapsed(e)[0] == 'I';
  }

  /** The noun after a count names its unit again. */
  lemma UnitOfNoun(n: int, u: Unit)
    ensures UnitOf(if n == 1 then Singular(u) else Plural(u), n) == Some(u)
  {
  }

  lemma ParseAgo(num: string, word: string)
    requires ' ' !in num
    requires AgoPrefix + (num + [' '] + word) != JustNowText
    ensures ParseElapsed(AgoPrefix + (num + [' '] + word)) ==
      match ParseInt(num)
      case None => None
      case Some(n) =>
        match UnitOf(word, n)
        case None => None
        case Some(u) => Some(Ago(n, u))
  {
    var r := AgoPrefix + (num + [' '] + word);
    assert StartsWith(r, AgoPrefix);
    assert r[|AgoPrefix|..] == num + [' '] + word;
    SplitOnceOf(num, ' ', word);
  }

  /** Every elapsed time reads back from its text: the rendering loses
      neither the count nor the unit. */
  lemma RenderElapsedRoundTrip(e: Elapsed)
    ensures ParseElapsed(RenderElapsed(e)) == Some(e)
  {
    match e
    case JustNow =>
    case Ago(n, u) =>
      var num := IntToString(n);
      var word := if n == 1 then Singular(u) else Plural(u);
      AgoIsNotJustNow(e);
      assert RenderElapsed(e) == AgoPrefix + (num + [' '] + word);
      assert ' ' !in num by {
        if n >= 0 {
          DigitsHaveNo(num, ' ');
        } else {
          DigitsHaveNo(NatToString(-n), ' ');
        }
      }
      ParseAgo(num, word);
      IntRoundTrip(n);
      UnitOfNoun(n, u);
  }

  /** A noun read as a unit is the noun the count takes for that unit. */
  lemma UnitOfExact(word: string, n: int, u: Unit)
    requires UnitOf(word, n) == Some(u)
    ensures word == if n == 1 then Singular(u) else Plural(u)
  {
  }

  /** A text read as `n` units splits into the prefix, a count that reads
      as `n`, a space and a noun that names the unit after `n`. */
  lemma AgoPieces(x: string, n: int, u: Unit) returns (num: string, word: string)
    requires ParseElapsed(x) == Some(Ago(n, u))
    ensures x == AgoPrefix + (num + [' '] + word)
    ensures ParseInt(num) == Some(n) && UnitOf(word, n) == Some(u)
  {
    var rest := x[|AgoPrefix|..];
    assert x == AgoPrefix + rest;
    num, word := SplitOnce(rest, ' ').value.0, SplitOnce(rest, ' ').value.1;
  }

  /** The text of `n` units: prefix, count, a space and the noun. */
  lemma AgoText(n: int, u: Unit)
    ensures RenderElapsed(Ago(n, u)) == AgoPrefix + (IntToString(n) + [' '] + (if n == 1 then Singular(u) else Plural(u)))
  {
  }

  /** Only the rendering of an elapsed time reads back as it: a count with
      a leading zero or `-0`, or a noun of the wrong number, is refused. */
  lemma ElapsedTextExact(x: string, e: Elapsed)
    requires ParseElapsed(x) == Some(e)
    ensures x == RenderElapsed(e)
  {
    if e.Ago? {
      var num, word := AgoPieces(x, e.count, e.unit);
      IntExact(num, e.count);
      UnitOfExact(word, e.count, e.unit);
      AgoText(e.count, e.unit);
    }
  }

  /** A text reads back as an elapsed time exactly when it is that time's
      rendering. */
  lemma ElapsedText(x: string, e: Elapsed)
    ensures ParseElapsed(x) == Some(e) <==> x == RenderElapsed(e)
  {
    if ParseElapsed(x) == Some(e) {
      ElapsedTextExact(x, e);
    } else {
      RenderElapsedRoundTrip(e);
    }
  }

  /** A date in the future, or less than a minute old, is "just now". */
  lemma FutureIsJustNow(now: int, date: int)
    requires date > now
    ensures FormatRelativeTime(now, date) == JustNowText
  {
  }

  /** Ten days back is "Il y a 1 semaine": weeks are checked before days. */
  lemma TenDaysIsOneWeek()
    ensures Elapse(10 * UnitMs(Day)) == Ago(1, Week)
  {
  }
}
