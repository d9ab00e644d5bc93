/**
 * The countdown cell of the load reminder: remaining milliseconds split
 * into days, hours, minutes and seconds, the `D d HH:MM:SS` text, the
 * `due` colouring and the blinking rule of a row.
 */
module Countdown {
  import opened Wrappers
  import opened Text

  /** Whole days, hours, minutes and seconds of a duration. */
  datatype Parts = Parts(days: nat, hours: nat, mins: nat, secs: nat)

  /** The split of `updateTimerDisplay`: days, then what is left of the day, hour and minute. */
  function Split(seconds: nat): (p: Parts)
    ensures p.hours < 24 && p.mins < 60 && p.secs < 60
  {
    Parts(seconds / 86400, (seconds % 86400) / 3600, (seconds % 3600) / 60, seconds % 60)
  }

  /** The split loses nothing: the parts add back up to the seconds. */
  lemma SplitReconstructs(seconds: nat)
    ensures var p := Split(seconds); p.days * 86400 + p.hours * 3600 + p.mins * 60 + p.secs == seconds
  {
    var p := Split(seconds);
    var dayRest := seconds % 86400;
    var hourRest := dayRest % 3600;
    assert p.hours == dayRest / 3600;
    HourRest(seconds, seconds / 86400, dayRest / 3600, hourRest);
    MinuteRest(seconds, 60 * (seconds / 86400 * 24 + dayRest / 3600) + hourRest / 60, hourRest % 60);
    assert p.mins == hourRest / 60 && p.secs == hourRest % 60;
  }

  /** Within the day's rest, the remainder modulo an hour is the whole day's. */
  lemma HourRest(seconds: nat, days: int, hours: int, rest: int)
    requires seconds % 86400 == 3600 * hours + rest && 0 <= rest < 3600
    requires days == seconds / 86400
    ensures seconds == 3600 * (days * 24 + hours) + rest
    ensures seconds % 3600 == rest
  {
  }

  /** Within the hour's rest, the remainder modulo a minute is the whole time's. */
  lemma MinuteRest(seconds: nat, minutes: int, rest: int)
    requires seconds == 60 * minutes + rest && 0 <= rest < 60
    ensures seconds % 60 == rest
  {
  }

  /** `HH:MM:SS`, each field padded to two digits. */
  function Clock(p: Parts): (t: string)
    requires p.hours < 24 && p.mins < 60 && p.secs < 60
    ensures |t| == 8 && t[2] == ':' && t[5] == ':'
  {
    Pad2(p.hours) + ":" + Pad2(p.mins) + ":" + Pad2(p.secs)
  }

  /** The cell text for a positive remainder split into `p`. */
  function CountdownText(p: Parts): (t: string)
    requires p.hours < 24 && p.mins < 60 && p.secs < 60
    ensures p.days == 0 ==> t == Clock(p)
    ensures p.days > 0 ==> t == DecimalString(p.days) + "d " + Clock(p)
    ensures p.days == 0 <==> |t| == 8
    ensures p.days > 0 ==> t[0] != '0'
  {
    var prefix := if p.days > 0 then DecimalString(p.days) + "d " else "";
    prefix + Clock(p)
  }

  /** The text and class of a countdown cell; `due` is the extra `due` class. */
  datatype Display = Display(text: string, due: bool)

  /**
   * The text `updateTimerDisplay(element, timerEnd)` writes at clock `now`:
   * `00:00:00` once the timer has run out, otherwise the clock of the
   * remaining whole seconds, preceded by the unpadded day count and `d `
   * when at least one day is left.
   */
  function CellText(timerEnd: int, now: int): (t: string)
    ensures timerEnd - now <= 0 ==> t == "00:00:00"
    ensures |t| == 8 <==> timerEnd - now < 86400000
  {
    var remaining := timerEnd - now;
    if remaining <= 0 then "00:00:00"
    else CountdownText(Split(remaining / 1000))
  }

  /**
   * The `due` class as the page computes it: run out, or the hours field
   * of the split is 0, that is, less than an hour is left of the current day.
   */
  function DueAsWritten(timerEnd: int, now: int): (due: bool)
    ensures due <==> timerEnd - now <= 0 || ((timerEnd - now) / 1000) % 86400 < 3600
  {
    var remaining := timerEnd - now;
    remaining <= 0 || Split(remaining / 1000).hours < 1
  }

  /** The `due` class exactly when less than an hour is left, as the page's comment describes it. */
  function IntendedDue(timerEnd: int, now: int): (due: bool)
    ensures due <==> timerEnd - now < 3600000
  {
    var remaining := timerEnd - now;
    if remaining <= 0 then true
    else
      var p := Split(remaining / 1000);
      SplitReconstructs(remaining / 1000);
      p.days == 0 && p.hours < 1
  }

  /**
   * A countdown cell at clock `now` as `updateTimerDisplay` leaves it: its
   * text, and the `due` class by the page's own rule `DueAsWritten`. Under
   * a day left that rule means less than an hour left.
   */
  function TimerDisplay(timerEnd: int, now: int): (d: Display)
    ensures timerEnd - now <= 0 ==> d == Display("00:00:00", true)
    ensures timerEnd - now < 86400000 ==> (d.due <==> timerEnd - now < 3600000)
  {
    DueAsWrittenUnderADay(timerEnd, now);
    Display(CellText(timerEnd, now), DueAsWritten(timerEnd, now))
  }

  /** The digit fields of a `HH:MM:SS` clock, as seconds. */
  function ClockValue(c: string): nat
    requires |c| == 8 && AllDigits(c[0..2]) && AllDigits(c[3..5]) && AllDigits(c[6..8])
  {
    DigitsValue(c[0..2]) * 3600 + DigitsValue(c[3..5]) * 60 + DigitsValue(c[6..8])
  }

  /** Reads a countdown text back to whole seconds: `HH:MM:SS` or `<days>d HH:MM:SS`. */
  function ParseCountdown(t: string): Option<nat>
  {
    if |t| < 8 then None
    else
      var c := t[|t| - 8..];
      var head := t[..|t| - 8];
      if !(c[2] == ':' && c[5] == ':' && AllDigits(c[0..2]) && AllDigits(c[3..5]) && AllDigits(c[6..8])) then None
      else if head == [] then Some(ClockValue(c))
      else if |head| >= 3 && head[|head| - 2..] == "d " && AllDigits(head[..|head| - 2])
      then Some(DigitsValue(head[..|head| - 2]) * 86400 + ClockValue(c))
      else None
  }

  lemma ClockReadsBack(p: Parts)
    requires p.hours < 24 && p.mins < 60 && p.secs < 60
    ensures var c := Clock(p);
            && AllDigits(c[0..2]) && AllDigits(c[3..5]) && AllDigits(c[6..8])
            && ClockValue(c) == p.hours * 3600 + p.mins * 60 + p.secs
  {
    var c := Clock(p);
    assert c[0..2] == Pad2(p.hours);
    assert c[3..5] == Pad2(p.mins);
    assert c[6..8] == Pad2(p.secs);
    Pad2Value(p.hours);
    Pad2Value(p.mins);
    Pad2Value(p.secs);
  }

  /** Under a day left, the bare clock reads back to its seconds. */
  lemma ClockTextReadsBack(p: Parts)
    requires p.days == 0 && p.hours < 24 && p.mins < 60 && p.secs < 60
    ensures ParseCountdown(CountdownText(p)) == Some(p.hours * 3600 + p.mins * 60 + p.secs)
  {
    var t := CountdownText(p);
    ClockReadsBack(p);
    assert t[|t| - 8..] == t;
    assert t[..|t| - 8] == [];
  }

  /** With days left, the day count before `d ` reads back as whole days. */
  lemma DayTextReadsBack(p: Parts)
    requires p.days > 0 && p.hours < 24 && p.mins < 60 && p.secs < 60
    ensures ParseCountdown(CountdownText(p))
            == Some(p.days * 86400 + p.hours * 3600 + p.mins * 60 + p.secs)
  {
    var t := CountdownText(p);
    var c := Clock(p);
    var ds := DecimalString(p.days);
    ClockReadsBack(p);
    DecimalRoundTrip(p.days);
    assert t == (ds + "d ") + c;
    assert t[|t| - 8..] == c;
    var head := t[..|t| - 8];
    assert head == ds + "d ";
    assert head[..|head| - 2] == ds;
    assert head[|head| - 2..] == "d ";
  }

  /** A countdown text reads back to the total seconds of its parts. */
  lemma CountdownTextReadsBack(p: Parts)
    requires p.hours < 24 && p.mins < 60 && p.secs < 60
    ensures ParseCountdown(CountdownText(p))
            == Some(p.days * 86400 + p.hours * 3600 + p.mins * 60 + p.secs)
  {
    if p.days == 0 {
      ClockTextReadsBack(p);
    } else {
      DayTextReadsBack(p);
    }
  }

  /** The run-out text reads back as zero seconds. */
  lemma ZeroTextReadsBack()
    ensures ParseCountdown("00:00:00") == Some(0)
  {
    assert CountdownText(Parts(0, 0, 0, 0)) == "00:00:00";
    CountdownTextReadsBack(Parts(0, 0, 0, 0));
  }

  /** The text of a positive remainder of `seconds` reads back to `seconds`. */
  lemma SplitTextReadsBack(seconds: nat)
    ensures Split(seconds).hours < 24 && Split(seconds).mins < 60 && Split(seconds).secs < 60
    ensures ParseCountdown(CountdownText(Split(seconds))) == Some(seconds)
  {
    SplitReconstructs(seconds);
    CountdownTextReadsBack(Split(seconds));
  }

  /** The countdown text always reads back to the remaining whole seconds (0 once run out). */
  lemma DisplayReadsBack(timerEnd: int, now: int)
    ensures ParseCountdown(TimerDisplay(timerEnd, now).text)
            == Some(if timerEnd - now <= 0 then 0 else (timerEnd - now) / 1000)
  {
    if timerEnd - now <= 0 {
      assert CellText(timerEnd, now) == "00:00:00";
      ZeroTextReadsBack();
    } else {
      var seconds := (timerEnd - now) / 1000;
      SplitTextReadsBack(seconds);
      assert CellText(timerEnd, now) == CountdownText(Split(seconds));
    }
  }

  /** The text of one day and one second. */
  lemma DayAndSecondText()
    ensures CountdownText(Parts(1, 0, 0, 1)) == "1d 00:00:01"
  {
  }

  /** The text of two hours. */
  lemma TwoHoursText()
    ensures CountdownText(Split(7200)) == "02:00:00"
  {
    assert Split(7200) == Parts(0, 2, 0, 0);
  }

  /** The cell with one day and one second left. */
  lemma DayAndSecondCell()
    ensures CellText(86401000, 0) == "1d 00:00:01"
  {
    assert Split(86401) == Parts(1, 0, 0, 1);
    DayAndSecondText();
  }

  /** One day and one second left: the page shows `1d 00:00:01` and still colours the cell due. */
  lemma DueWithADayLeft()
    ensures CellText(86401000, 0) == "1d 00:00:01"
    ensures DueAsWritten(86401000, 0) && !IntendedDue(86401000, 0)
  {
    DayAndSecondCell();
    assert 86401 % 86400 == 1;
  }

  /** Under a day left the page's rule and the intended one agree: the hours field is then the whole hours left. */
  lemma DueAsWrittenUnderADay(timerEnd: int, now: int)
    ensures timerEnd - now < 86400000 ==> DueAsWritten(timerEnd, now) == IntendedDue(timerEnd, now)
  {
  }

  /** `checkTimers`' blinking rule for one row; a blinking row also shows a run-out, due countdown. */
  predicate Blinking(timerEnd: int, now: int): (b: bool)
    ensures b ==> TimerDisplay(timerEnd, now) == Display("00:00:00", true)
  {
    timerEnd <= now
  }
}
