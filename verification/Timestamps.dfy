/** UTC timestamps as `datetime.isoformat` prints them, and why comparing the texts
    compares the instants. */
module Timestamps {
  import opened Order
  import opened Decimals
  import J = JsonText

  datatype Moment = Moment(year: int, month: int, day: int, hour: int, minute: int, second: int, micro: int)

  predicate ValidMoment(m: Moment)
  {
    && 1 <= m.year <= 9999 && 1 <= m.month <= 12 && 1 <= m.day <= 31
    && 0 <= m.hour < 24 && 0 <= m.minute < 60 && 0 <= m.second < 60 && 0 <= m.micro < 1000000
  }

  /** A point in time, given by its UTC fields. */
  type Instant = m: Moment | ValidMoment(m) witness Moment(2000, 1, 1, 0, 0, 0, 0)

  const FIXED_TIME: Instant := Moment(2000, 1, 1, 0, 0, 0, 0)

  function Parts(m: Moment): seq<int>
  {
    [m.year, m.month, m.day, m.hour, m.minute, m.second, m.micro]
  }

  /** Chronological order. */
  predicate Before(a: Moment, b: Moment)
  {
    Less(Parts(a), Parts(b))
  }

  /** `n` in `width` decimal digits. */
  function Padded(width: nat, n: nat): (s: string)
    ensures |s| == width
  {
    if width == 0 then "" else Padded(width - 1, n / 10) + [J.DigitChar(n % 10)]
  }

  function FractionText(micro: nat): string
  {
    if micro == 0 then "+00:00" else "." + (Padded(6, micro) + "+00:00")
  }

  function SecondText(m: Instant): string
  {
    Padded(2, m.second) + FractionText(m.micro)
  }

  function MinuteText(m: Instant): string
  {
    Padded(2, m.minute) + (":" + SecondText(m))
  }

  function HourText(m: Instant): string
  {
    Padded(2, m.hour) + (":" + MinuteText(m))
  }

  function DayText(m: Instant): string
  {
    Padded(2, m.day) + ("T" + HourText(m))
  }

  function MonthText(m: Instant): string
  {
    Padded(2, m.month) + ("-" + DayText(m))
  }

  /** `value.astimezone(UTC).isoformat()`: microseconds are printed only when not zero. */
  function IsoText(m: Instant): string
  {
    Padded(4, m.year) + ("-" + MonthText(m))
  }

  /** Fixed-width numbers compare as numbers, whatever follows them. */
  lemma {:induction false} PaddedLess(width: nat, x: nat, y: nat, u: string, v: string)
    requires x < y < TenTo(width)
    ensures TextLess(Padded(width, x) + u, Padded(width, y) + v)
  {
    hide TextLess;
    if width > 0 {
      var c, d := [J.DigitChar(x % 10)], [J.DigitChar(y % 10)];
      assert Padded(width, x) + u == Padded(width - 1, x / 10) + (c + u);
      assert Padded(width, y) + v == Padded(width - 1, y / 10) + (d + v);
      if x / 10 < y / 10 {
        PaddedLess(width - 1, x / 10, y / 10, c + u, d + v);
      } else {
        FirstCharLess(c + u, d + v);
        TextAfterPrefix(Padded(width - 1, x / 10), c + u, d + v);
      }
    }
  }

  /** One field decides, or leaves it to the rest. */
  lemma FieldOrder(width: nat, x: nat, y: nat, u: string, v: string)
    requires x < TenTo(width) && y < TenTo(width)
    ensures x < y ==> TextLess(Padded(width, x) + u, Padded(width, y) + v)
    ensures x == y && TextLess(u, v) ==> TextLess(Padded(width, x) + u, Padded(width, y) + v)
  {
    hide TextLess;
    if x < y {
      PaddedLess(width, x, y, u, v);
    }
    if x == y {
      TextAfterPrefix(Padded(width, x), u, v);
    }
  }

  lemma TenPowers()
    ensures TenTo(2) == 100 && TenTo(4) == 10000 && TenTo(6) == 1000000
  {
    assert TenTo(1) == 10 * TenTo(0);
    assert TenTo(2) == 10 * TenTo(1);
    assert TenTo(3) == 10 * TenTo(2);
    assert TenTo(4) == 10 * TenTo(3);
    assert TenTo(5) == 10 * TenTo(4);
  }

  /** The text without microseconds sorts before every text of the same second with them. */
  lemma FractionOrder(x: nat, y: nat)
    requires x < y < 1000000
    ensures TextLess(FractionText(x), FractionText(y))
  {
    hide TextLess;
    if x == 0 {
      FirstCharLess("+00:00", FractionText(y));
    } else {
      TenPowers();
      PaddedLess(6, x, y, "+00:00", "+00:00");
      TextAfterPrefix(".", Padded(6, x) + "+00:00", Padded(6, y) + "+00:00");
    }
  }

  lemma SecondOrder(a: Instant, b: Instant)
    requires a.second < b.second || (a.second == b.second && a.micro < b.micro)
    ensures TextLess(SecondText(a), SecondText(b))
  {
    hide TextLess, FractionText;
    TenPowers();
    if a.second == b.second {
      FractionOrder(a.micro, b.micro);
    }
    FieldOrder(2, a.second, b.second, FractionText(a.micro), FractionText(b.micro));
  }

  predicate SecondBefore(a: Instant, b: Instant)
  {
    a.second < b.second || (a.second == b.second && a.micro < b.micro)
  }

  predicate MinuteBefore(a: Instant, b: Instant)
  {
    a.minute < b.minute || (a.minute == b.minute && SecondBefore(a, b))
  }

  predicate HourBefore(a: Instant, b: Instant)
  {
    a.hour < b.hour || (a.hour == b.hour && MinuteBefore(a, b))
  }

  predicate DayBefore(a: Instant, b: Instant)
  {
    a.day < b.day || (a.day == b.day && HourBefore(a, b))
  }

  predicate MonthBefore(a: Instant, b: Instant)
  {
    a.month < b.month || (a.month == b.month && DayBefore(a, b))
  }

  predicate YearBefore(a: Instant, b: Instant)
  {
    a.year < b.year || (a.year == b.year && MonthBefore(a, b))
  }

  lemma TimeOrder(a: Instant, b: Instant)
    requires HourBefore(a, b)
    ensures TextLess(HourText(a), HourText(b))
  {
    hide TextLess, SecondText;
    TenPowers();
    if SecondBefore(a, b) {
      SecondOrder(a, b);
      TextAfterPrefix(":", SecondText(a), SecondText(b));
    }
    FieldOrder(2, a.minute, b.minute, ":" + SecondText(a), ":" + SecondText(b));
    if MinuteBefore(a, b) {
      TextAfterPrefix(":", MinuteText(a), MinuteText(b));
    }
    FieldOrder(2, a.hour, b.hour, ":" + MinuteText(a), ":" + MinuteText(b));
  }

  lemma DateOrder(a: Instant, b: Instant)
    requires YearBefore(a, b)
    ensures TextLess(IsoText(a), IsoText(b))
  {
    hide TextLess, HourText, HourBefore;
    TenPowers();
    if HourBefore(a, b) {
      TimeOrder(a, b);
      TextAfterPrefix("T", HourText(a), HourText(b));
    }
    FieldOrder(2, a.day, b.day, "T" + HourText(a), "T" + HourText(b));
    if DayBefore(a, b) {
      TextAfterPrefix("-", DayText(a), DayText(b));
    }
    FieldOrder(2, a.month, b.month, "-" + DayText(a), "-" + DayText(b));
    if MonthBefore(a, b) {
      TextAfterPrefix("-", MonthText(a), MonthText(b));
    }
    FieldOrder(4, a.year, b.year, "-" + MonthText(a), "-" + MonthText(b));
  }

  lemma BeforeByFields(a: Instant, b: Instant)
    ensures Before(a, b) <==> YearBefore(a, b)
  {
    var x, y := Parts(a), Parts(b);
    assert x[1..] == [a.month, a.day, a.hour, a.minute, a.second, a.micro];
    assert y[1..] == [b.month, b.day, b.hour, b.minute, b.second, b.micro];
    assert x[1..][1..] == [a.day, a.hour, a.minute, a.second, a.micro];
    assert y[1..][1..] == [b.day, b.hour, b.minute, b.second, b.micro];
    assert x[1..][1..][1..] == [a.hour, a.minute, a.second, a.micro];
    assert y[1..][1..][1..] == [b.hour, b.minute, b.second, b.micro];
    TimeByFields(a, b);
    assert Less(x[1..][1..], y[1..][1..]) <==> DayBefore(a, b);
    assert Less(x[1..], y[1..]) <==> MonthBefore(a, b);
  }

  lemma TimeByFields(a: Instant, b: Instant)
    ensures Less([a.hour, a.minute, a.second, a.micro], [b.hour, b.minute, b.second, b.micro]) <==> HourBefore(a, b)
  {
    var x, y := [a.hour, a.minute, a.second, a.micro], [b.hour, b.minute, b.second, b.micro];
    assert x[1..] == [a.minute, a.second, a.micro] && y[1..] == [b.minute, b.second, b.micro];
    assert x[1..][1..] == [a.second, a.micro] && y[1..][1..] == [b.second, b.micro];
    assert x[1..][1..][1..] == [a.micro] && y[1..][1..][1..] == [b.micro];
    assert [a.micro][1..] == [] && [b.micro][1..] == [];
    assert Less([a.micro], [b.micro]) <==> a.micro < b.micro;
    assert Less(x[1..][1..], y[1..][1..]) <==> SecondBefore(a, b);
    assert Less(x[1..], y[1..]) <==> MinuteBefore(a, b);
  }

  lemma PartsInjective(a: Moment, b: Moment)
    requires Parts(a) == Parts(b)
    ensures a == b
  {
    assert Parts(a)[0] == Parts(b)[0] && Parts(a)[1] == Parts(b)[1] && Parts(a)[2] == Parts(b)[2]
           && Parts(a)[3] == Parts(b)[3] && Parts(a)[4] == Parts(b)[4] && Parts(a)[5] == Parts(b)[5]
           && Parts(a)[6] == Parts(b)[6];
  }

  lemma BeforeTotal(a: Moment, b: Moment)
    ensures Before(a, b) || a == b || Before(b, a)
  {
    hide Less;
    LessTotal(Parts(a), Parts(b));
    if Parts(a) == Parts(b) {
      PartsInjective(a, b);
    }
  }

  lemma BeforeTransitive(a: Moment, b: Moment, c: Moment)
    requires Before(a, b) && Before(b, c)
    ensures Before(a, c)
  {
    LessTransitive(Parts(a), Parts(b), Parts(c));
  }

  lemma BeforeAsymmetric(a: Moment, b: Moment)
    ensures !Before(a, a)
    ensures Before(a, b) ==> !Before(b, a)
  {
    LessIrreflexive(Parts(a));
    if Before(a, b) {
      LessAsymmetric(Parts(a), Parts(b));
    }
  }

  /** Comparing the texts compares the instants, and equal texts are equal instants. */
  lemma TextOrderIsTimeOrder(a: Instant, b: Instant)
    ensures TextLess(IsoText(a), IsoText(b)) <==> Before(a, b)
    ensures IsoText(a) == IsoText(b) <==> a == b
  {
    hide TextLess, IsoText, Before, YearBefore;
    BeforeByFields(a, b);
    BeforeByFields(b, a);
    BeforeTotal(a, b);
    BeforeAsymmetric(a, b);
    BeforeAsymmetric(b, a);
    if Before(a, b) {
      DateOrder(a, b);
      TextAsymmetric(IsoText(a), IsoText(b));
    } else if Before(b, a) {
      DateOrder(b, a);
      TextAsymmetric(IsoText(b), IsoText(a));
    } else {
      TextIrreflexive(IsoText(a));
    }
  }

  lemma TextIrreflexive(s: string)
    ensures !TextLess(s, s)
  {
    LessIrreflexive(Codes(s));
  }

  // ---------- the latest of several instants ----------

  predicate NotAfter(a: Instant, b: Instant)
  {
    !Before(b, a)
  }

  /** The latest instant of a list, or the fixed time when there is none. */
  function Latest(times: seq<Instant>): Instant
  {
    if times == [] then FIXED_TIME
    else if |times| == 1 then times[0]
    else
      var best := Latest(times[..|times| - 1]);
      if Before(best, times[|times| - 1]) then times[|times| - 1] else best
  }

  lemma {:induction false} LatestBounds(times: seq<Instant>, i: nat)
    requires i < |times|
    ensures NotAfter(times[i], Latest(times))
  {
    var n := |times| - 1;
    BeforeAsymmetric(times[i], times[i]);
    if n > 0 {
      var best := Latest(times[..n]);
      BeforeAsymmetric(best, times[n]);
      if i < n {
        LatestBounds(times[..n], i);
        if Before(best, times[n]) && Before(times[n], times[i]) {
          BeforeTransitive(best, times[n], times[i]);
        }
      }
    }
  }

  /** An instant of the list that no other is after is the latest. */
  lemma {:induction false} LatestIs(times: seq<Instant>, t: Instant, i: nat)
    requires i < |times| && times[i] == t && forall k :: 0 <= k < |times| ==> NotAfter(times[k], t)
    ensures Latest(times) == t
  {
    LatestBounds(times, i);
    LatestIsMember(times);
    var j :| 0 <= j < |times| && times[j] == Latest(times);
    BeforeTotal(t, Latest(times));
  }

  lemma {:induction false} LatestIsMember(times: seq<Instant>)
    requires times != []
    ensures exists j :: 0 <= j < |times| && times[j] == Latest(times)
  {
    if |times| > 1 {
      var n := |times| - 1;
      LatestIsMember(times[..n]);
      var j :| 0 <= j < |times[..n]| && times[..n][j] == Latest(times[..n]);
      assert times[j] == Latest(times[..n]);
    } else {
      assert times[0] == Latest(times);
    }
  }

  /** `max(texts, default=...)` over canonical texts: the text maximum is the latest. */
  method MaxText(times: seq<Instant>) returns (latest: Instant)
    ensures latest == Latest(times)
  {
    hide Before, IsoText, TextLess;
    if times == [] {
      return FIXED_TIME;
    }
    latest := times[0];
    assert times[..1] == [times[0]];
    for i := 1 to |times|
      invariant latest == Latest(times[..i])
    {
      assert times[..i + 1][..i] == times[..i];
      TextOrderIsTimeOrder(latest, times[i]);
      if TextLess(IsoText(latest), IsoText(times[i])) {
        latest := times[i];
      }
    }
    assert times[..|times|] == times;
  }
}
