/** `convert_time_to_format` (server.py lines 42-81): turns the caller's
    optional schedule into the UTC text sent as `scheduled_at`.

    The clock is read once, at line 54, and at once written out by
    `isoformat()`: that text is the parameter `nowText`; the properties
    below take it to be `IsoFormat(clock)` for a reading `clock`. The
    result is the later of the parsed input and `clock + 10 s`, taken as
    Asia/Shanghai wall-clock time (fixed offset +08:00) and written in UTC
    by `isoformat()` with its `+00:00` suffix. */
module Schedule {
  import opened Wrappers
  import opened Calendar
  import opened TimeText
  import opened Json

  /** The lead added to the clock reading (line 56). */
  const LeadSeconds := 10

  /** Asia/Shanghai's offset from UTC in hours. */
  const ShanghaiOffsetHours := 8

  /** `InvalidTimeFormat` is the `ValueError` of line 79, which every
      `ValueError` inside is turned into; `DateOverflow` is the
      `OverflowError` of `datetime` arithmetic past year 9999 or before
      year 1 (in the floor, or inside pytz's `localize`), which that
      handler does not catch. */
  datatype TimeError = InvalidTimeFormat | DateOverflow

  /** pytz's `localize` for a zone with transitions, Asia/Shanghai among
      them, first adds one day to the reading and subtracts one day from
      it; on the first and on the last day `datetime` can hold, one of
      those two raises `OverflowError`. */
  predicate LocalizeOverflows(local: DateTime) {
    || (local.year == MinYear && local.month == 1 && local.day == 1)
    || (local.year == MaxYear && local.month == 12 && local.day == 31)
  }

  /** Lines 74-76: localise a wall-clock reading in Asia/Shanghai, convert
      it to UTC and write it with `isoformat()`. */
  function UtcText(local: DateTime): (r: Result<string, TimeError>)
    requires Valid(local)
    ensures r.Success? ==> |r.value| >= 6 && r.value[|r.value| - 6..] == "+00:00"
    ensures r.Failure? ==> r.error == DateOverflow
  {
    if LocalizeOverflows(local) then Failure(DateOverflow)
    else
      var utc := SubtractHours(local, ShanghaiOffsetHours);
      // The range check of `astimezone`; `UtcTextShiftsEightHours` shows it never fails here.
      if Valid(utc) then Success(IsoFormat(utc) + "+00:00") else Failure(DateOverflow)
  }

  /** The function itself, step by step as the source takes it: the clock
      text is read back by `fromisoformat` (line 56) and the rest is
      `FromClock`. */
  function Normalize(time: Value, nowText: string): (r: Result<string, TimeError>)
    ensures r.Success? ==> |r.value| >= 6 && r.value[|r.value| - 6..] == "+00:00"
  {
    match ParseIsoFormat(nowText)
    case None => Failure(InvalidTimeFormat)
    case Some(now) => FromClock(time, now)
  }

  /** The floor (line 56): the clock reading plus the lead. */
  function Floor(clock: DateTime): DateTime
    requires Valid(clock)
  {
    AddSeconds(clock, LeadSeconds)
  }

  /** Lines 56-76 once the clock reading is back: the floor and the parsed
      input are compared as `isoformat()` strings (line 69), and the chosen
      string is parsed once more before the time-zone step. */
  function FromClock(time: Value, now: DateTime): (r: Result<string, TimeError>)
    requires Valid(now)
    ensures r.Success? ==> |r.value| >= 6 && r.value[|r.value| - 6..] == "+00:00"
  {
    var floor := Floor(now);
    if !Valid(floor) then Failure(DateOverflow)
    else
      var floorText := IsoFormat(floor);
      var timerText :- match time
        case Null => Success(floorText)
        case Str(s) =>
          (match ParseStrptime(s)
           case Some(t) => Success(IsoFormat(t))
           case None => Failure(InvalidTimeFormat))
        case _ => Failure(InvalidTimeFormat);
      var chosenText := if TextLe(timerText, floorText) then floorText else timerText;
      match ParseIsoFormat(chosenText)
      case None => Failure(InvalidTimeFormat)
      case Some(local) => UtcText(local)
  }

  /** The wall-clock time the source means to schedule, stated with
      instants instead of strings: the later of the parsed input and the
      floor, or the floor when there is no input. */
  function ScheduledLocal(time: Value, clock: DateTime): (r: Result<DateTime, TimeError>)
    requires Valid(clock)
    ensures r.Success? ==> Valid(r.value) && Instant(Floor(clock)) <= Instant(r.value)
    ensures r.Success? && time.Str? ==>
      ParseStrptime(time.s).Some? && Instant(ParseStrptime(time.s).value) <= Instant(r.value)
  {
    var floor := Floor(clock);
    if !Valid(floor) then Failure(DateOverflow)
    else
      match time
      case Null => Success(floor)
      case Str(s) =>
        (match ParseStrptime(s)
         case Some(t) => Success(if Instant(floor) < Instant(t) then t else floor)
         case None => Failure(InvalidTimeFormat))
      case _ => Failure(InvalidTimeFormat)
  }

  /** The string comparison of line 69 picks the later instant: the source
      computes exactly the instant-based schedule. */
  lemma NormalizeSchedulesLaterInstant(time: Value, clock: DateTime)
    requires Valid(clock)
    ensures Normalize(time, IsoFormat(clock)) ==
      match ScheduledLocal(time, clock)
      case Failure(e) => Failure(e)
      case Success(local) => UtcText(local)
  {
    IsoFormatRoundTrip(clock);
    FromClockSchedulesLaterInstant(time, clock);
  }

  lemma FromClockSchedulesLaterInstant(time: Value, clock: DateTime)
    requires Valid(clock)
    ensures FromClock(time, clock) ==
      match ScheduledLocal(time, clock)
      case Failure(e) => Failure(e)
      case Success(local) => UtcText(local)
  {
    if Valid(Floor(clock)) {
      if time.Null? {
        AbsentInputSchedulesFloor(clock);
      } else if time.Str? && ParseStrptime(time.s).Some? {
        ParsedInputSchedulesLaterInstant(time.s, clock);
      }
    }
  }

  /** The case of no input. */
  lemma AbsentInputSchedulesFloor(clock: DateTime)
    requires Valid(clock) && Valid(Floor(clock))
    ensures FromClock(Null, clock) == UtcText(Floor(clock))
  {
    IsoFormatRoundTrip(Floor(clock));
  }

  /** The case of a string strptime accepts. */
  lemma ParsedInputSchedulesLaterInstant(s: string, clock: DateTime)
    requires Valid(clock) && Valid(Floor(clock)) && ParseStrptime(s).Some?
    ensures FromClock(Str(s), clock) ==
      UtcText(if Instant(Floor(clock)) < Instant(ParseStrptime(s).value) then ParseStrptime(s).value else Floor(clock))
  {
    var floor := Floor(clock);
    var t := ParseStrptime(s).value;
    IsoFormatRoundTrip(floor);
    IsoFormatRoundTrip(t);
    IsoFormatComparesInstants(t, floor);
  }

  /** The UTC text is the local reading less eight hours, written by
      `isoformat()` with `+00:00`; it fails exactly on the first and the
      last day `datetime` can hold, where `localize` overflows. Every other
      reading has a UTC date. */
  lemma UtcTextShiftsEightHours(local: DateTime)
    requires Valid(local)
    ensures UtcText(local).Failure? <==> LocalizeOverflows(local)
    ensures UtcText(local).Failure? ==> UtcText(local).error == DateOverflow
    ensures UtcText(local).Success? ==>
      var out := UtcText(local).value;
      && |out| >= 6 && out[|out| - 6..] == "+00:00"
      && ParseIsoFormat(out[..|out| - 6]).Some?
      && Instant(ParseIsoFormat(out[..|out| - 6]).value)
         == Instant(local) - ShanghaiOffsetHours * MicrosPerHour
  {
    var utc := SubtractHours(local, ShanghaiOffsetHours);
    SubtractHoursYear(local, ShanghaiOffsetHours);
    if !LocalizeOverflows(local) && Valid(utc) {
      var out := IsoFormat(utc) + "+00:00";
      assert out[..|out| - 6] == IsoFormat(utc);
      IsoFormatRoundTrip(utc);
    }
  }

  /** An input later than the floor is kept exactly. */
  lemma LaterInputIsKept(s: string, clock: DateTime)
    requires Valid(clock) && Valid(Floor(clock))
    requires ParseStrptime(s).Some? && Instant(Floor(clock)) < Instant(ParseStrptime(s).value)
    ensures Normalize(Str(s), IsoFormat(clock)) == UtcText(ParseStrptime(s).value)
  {
    NormalizeSchedulesLaterInstant(Str(s), clock);
  }

  /** An input at or before the floor is replaced by the floor. */
  lemma EarlyInputIsRaisedToFloor(s: string, clock: DateTime)
    requires Valid(clock) && Valid(Floor(clock))
    requires ParseStrptime(s).Some? && Instant(ParseStrptime(s).value) <= Instant(Floor(clock))
    ensures Normalize(Str(s), IsoFormat(clock)) == UtcText(Floor(clock))
  {
    NormalizeSchedulesLaterInstant(Str(s), clock);
  }

  /** No input yields the floor; the call overflows when the floor passes
      year 9999 or falls on 0001-01-01 or 9999-12-31, where `localize`
      overflows. */
  lemma AbsentInputIsFloor(clock: DateTime)
    requires Valid(clock)
    ensures Normalize(Null, IsoFormat(clock)) ==
      if Valid(Floor(clock)) then UtcText(Floor(clock)) else Failure(DateOverflow)
    ensures Normalize(Null, IsoFormat(clock)) == Failure(DateOverflow) <==>
      !Valid(Floor(clock)) || LocalizeOverflows(Floor(clock))
  {
    NormalizeSchedulesLaterInstant(Null, clock);
    if Valid(Floor(clock)) {
      UtcTextShiftsEightHours(Floor(clock));
    }
  }

  /** Exactly the inputs that are neither absent nor a string strptime
      accepts are refused as an invalid time format; none is silently
      replaced by a default. */
  lemma InvalidInputIsRefused(time: Value, clock: DateTime)
    requires Valid(clock) && Valid(Floor(clock))
    ensures Normalize(time, IsoFormat(clock)) == Failure(InvalidTimeFormat) <==>
      (!time.Null? && !(time.Str? && ParseStrptime(time.s).Some?))
  {
    NormalizeSchedulesLaterInstant(time, clock);
  }

  /** Whatever the input, a schedule that comes out is, read back, never
      earlier than the clock reading plus the lead, and is exactly the
      instant the later of input and floor stands for. */
  lemma ScheduleNeverBeforeFloor(time: Value, clock: DateTime)
    requires Valid(clock)
    ensures Normalize(time, IsoFormat(clock)).Success? ==>
      var out := Normalize(time, IsoFormat(clock)).value;
      && |out| >= 6 && out[|out| - 6..] == "+00:00"
      && ParseIsoFormat(out[..|out| - 6]).Some?
      && var utc := ParseIsoFormat(out[..|out| - 6]).value;
      && Instant(utc) + ShanghaiOffsetHours * MicrosPerHour
         >= Instant(clock) + LeadSeconds * MicrosPerSecond
      && ScheduledLocal(time, clock).Success?
      && Instant(utc) + ShanghaiOffsetHours * MicrosPerHour
         == Instant(ScheduledLocal(time, clock).value)
  {
    NormalizeSchedulesLaterInstant(time, clock);
    var local := ScheduledLocal(time, clock);
    if local.Success? {
      ScheduledLocalNotBeforeFloor(time, clock);
      UtcTextShiftsEightHours(local.value);
    }
  }

  /** The wall-clock time chosen is never before the floor. */
  lemma ScheduledLocalNotBeforeFloor(time: Value, clock: DateTime)
    requires Valid(clock)
    ensures ScheduledLocal(time, clock).Success? ==>
      Instant(ScheduledLocal(time, clock).value) >= Instant(clock) + LeadSeconds * MicrosPerSecond
  {
  }
}
