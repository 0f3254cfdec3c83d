/** Daily schedules: the polling predicate and the next fire time. Instants are
    microseconds on the UTC line; a zone is a fixed offset added to reach local time. */
module Scheduler {
  import opened Basics
  import opened Text
  import opened Decimals

  const MINUTE := 60_000_000
  const HOUR := 60 * MINUTE
  const DAY := 24 * HOUR

  datatype ScheduleError = InvalidCron | TimeOutOfRange

  datatype Schedule = Schedule(scheduleId: string, businessId: string, reportType: string, enabled: bool, cron: string)

  datatype ScheduledRun = ScheduledRun(scheduleId: string, businessId: string, reportType: string, runAt: int)

  /** How many leading characters are not whitespace. */
  function WordRun(s: string): (n: nat)
    ensures n <= |s|
    ensures s != [] && !IsSpace(s[0]) ==> n > 0
  {
    if s != [] && !IsSpace(s[0]) then 1 + WordRun(s[1..]) else 0
  }

  /** `str.split()`. */
  function Words(s: string): seq<string>
    decreases |s|
  {
    var t := s[SpaceRun(s)..];
    if t == [] then [] else [t[..WordRun(t)]] + Words(t[WordRun(t)..])
  }

  /** Minute and hour of an `M H * * *` expression. */
  function ParseCron(expression: string): Result<(int, int), ScheduleError> {
    var parts := Words(expression);
    if |parts| < 2 then Err(InvalidCron)
    else
      match (ParseInt(parts[0]), ParseInt(parts[1]))
      case (Some(minute), Some(hour)) => Ok((minute, hour))
      case _ => Err(InvalidCron)
  }

  function LocalHour(local: int): int { local % DAY / HOUR }

  function LocalMinute(local: int): int { local % HOUR / MINUTE }

  predicate ShowsTime(local: int, hour: int, minute: int) {
    LocalHour(local) == hour && LocalMinute(local) == minute
  }

  /** Minute and hour of a schedule, once parsed. */
  type CronTime = Result<(int, int), ScheduleError>

  predicate InRange(time: CronTime) {
    time.Ok? && 0 <= time.value.0 <= 59 && 0 <= time.value.1 <= 23
  }

  /** The configuration guard: five fields, minute and hour in range. */
  predicate DailyCronAccepted(expression: string) {
    |Words(expression)| == 5 && InRange(ParseCron(expression))
  }

  function Due(enabled: bool, time: CronTime, local: int): Result<bool, ScheduleError> {
    if !enabled then Ok(false)
    else
      match time
      case Err(e) => Err(e)
      case Ok((minute, hour)) => Ok(ShowsTime(local, hour, minute))
  }

  function ShouldRun(schedule: Schedule, now: int, offset: int): Result<bool, ScheduleError> {
    Due(schedule.enabled, ParseCron(schedule.cron), now + offset)
  }

  /** Today's candidate in local time, or tomorrow's when today's is not after `local`. */
  function NextTimeOfDay(local: int, hour: int, minute: int): int {
    var today := local - local % DAY + hour * HOUR + minute * MINUTE;
    if today > local then today else today + DAY
  }

  function NextRun(time: CronTime, after: int, offset: int): Result<int, ScheduleError> {
    match time
    case Err(e) => Err(e)
    case Ok((minute, hour)) =>
      if !(0 <= hour <= 23 && 0 <= minute <= 59) then Err(TimeOutOfRange)
      else Ok(NextTimeOfDay(after + offset, hour, minute) - offset)
  }

  function NextDailyRun(schedule: Schedule, after: int, offset: int): Result<int, ScheduleError> {
    NextRun(ParseCron(schedule.cron), after, offset)
  }

  predicate FiresAt(enabled: bool, time: CronTime, now: int, offset: int) {
    (now + offset) % MINUTE == 0 && Due(enabled, time, now + offset) == Ok(true)
  }

  /** `now` is a local minute start at which polling would fire `schedule`. */
  predicate Fires(schedule: Schedule, now: int, offset: int) {
    FiresAt(schedule.enabled, ParseCron(schedule.cron), now, offset)
  }

  lemma LocalFields(local: int) returns (day: int, hour: int, minute: int, rest: int)
    ensures local == DAY * day + HOUR * hour + MINUTE * minute + rest
    ensures 0 <= hour < 24 && 0 <= minute < 60 && 0 <= rest < MINUTE
    ensures LocalHour(local) == hour && LocalMinute(local) == minute
    ensures local % MINUTE == rest && local % DAY == HOUR * hour + MINUTE * minute + rest
  {
    day, hour := local / DAY, local % DAY / HOUR;
    var inHour := local % DAY % HOUR;
    minute, rest := inHour / MINUTE, inHour % MINUTE;
    assert local == HOUR * (24 * day + hour) + inHour;
    assert local % HOUR == inHour;
    assert local == MINUTE * (60 * (24 * day + hour) + minute) + rest;
  }

  /** A minute start shows a given hour and minute exactly when it is that time of its day. */
  lemma MinuteStartOfDay(local: int, hour: int, minute: int)
    requires 0 <= hour <= 23 && 0 <= minute <= 59
    ensures local % MINUTE == 0 && ShowsTime(local, hour, minute)
       <==> local % DAY == hour * HOUR + minute * MINUTE
  {
    var _, _, _, _ := LocalFields(local);
  }

  lemma NextTimeOfDayShows(local: int, hour: int, minute: int)
    requires 0 <= hour <= 23 && 0 <= minute <= 59
    ensures var next := NextTimeOfDay(local, hour, minute);
            local < next <= local + DAY && next % MINUTE == 0 && ShowsTime(next, hour, minute)
  {
    var next, target := NextTimeOfDay(local, hour, minute), hour * HOUR + minute * MINUTE;
    assert 0 <= target < DAY;
    assert next % DAY == target;
    MinuteStartOfDay(next, hour, minute);
  }

  lemma NothingShownBefore(local: int, hour: int, minute: int, t: int)
    requires 0 <= hour <= 23 && 0 <= minute <= 59
    requires local < t < NextTimeOfDay(local, hour, minute)
    ensures !(t % MINUTE == 0 && ShowsTime(t, hour, minute))
  {
    var wanted := hour * HOUR + minute * MINUTE;
    assert 0 <= wanted < DAY;
    MinuteStartOfDay(t, hour, minute);
    OnlyThatTimeOfDay(local, wanted, t);
  }

  /** Between an instant and the next one of a given time of day there is no other of that time of day. */
  lemma OnlyThatTimeOfDay(local: int, wanted: int, t: int)
    requires 0 <= wanted < DAY && local < t
    requires var today := local - local % DAY + wanted; t < if today > local then today else today + DAY
    ensures t % DAY != wanted
  {
  }

  lemma NextRunIsLeast(time: CronTime, after: int, offset: int)
    requires InRange(time)
    ensures var next := NextRun(time, after, offset);
            && next.Ok? && after < next.value <= after + DAY && FiresAt(true, time, next.value, offset)
            && forall t :: after < t < next.value ==> !FiresAt(true, time, t, offset)
    ensures FiresAt(true, time, after, offset) ==> NextRun(time, after, offset) == Ok(after + DAY)
  {
    var (minute, hour) := time.value;
    NextTimeOfDayShows(after + offset, hour, minute);
    MinuteStartOfDay(after + offset, hour, minute);
    forall t | after < t < NextRun(time, after, offset).value ensures !FiresAt(true, time, t, offset) {
      NothingShownBefore(after + offset, hour, minute, t + offset);
    }
  }

  /** With an accepted cron expression the next fire time is the least minute start after `after`
      at which polling fires, at most a day away; after a fire it is exactly a day away. */
  lemma NextDailyRunIsLeast(schedule: Schedule, after: int, offset: int)
    requires schedule.enabled && InRange(ParseCron(schedule.cron))
    ensures var next := NextDailyRun(schedule, after, offset);
            && next.Ok? && after < next.value <= after + DAY && Fires(schedule, next.value, offset)
            && forall t :: after < t < next.value ==> !Fires(schedule, t, offset)
    ensures Fires(schedule, after, offset) ==> NextDailyRun(schedule, after, offset) == Ok(after + DAY)
  {
    NextRunIsLeast(ParseCron(schedule.cron), after, offset);
  }

  /** There is a next fire time exactly when minute and hour parse and are in range, which the
      configuration guard ensures. */
  lemma NextRunDefined(schedule: Schedule, after: int, offset: int)
    ensures NextDailyRun(schedule, after, offset).Ok? <==> InRange(ParseCron(schedule.cron))
    ensures DailyCronAccepted(schedule.cron) ==> NextDailyRun(schedule, after, offset).Ok?
  {
  }

  predicate IsDue(schedule: Schedule, now: int, offsets: map<string, int>) {
    && schedule.enabled && schedule.businessId in offsets
    && ShouldRun(schedule, now, offsets[schedule.businessId]) == Ok(true)
  }

  function DueRuns(schedules: seq<Schedule>, now: int, offsets: map<string, int>): seq<ScheduledRun> {
    if schedules == [] then []
    else
      var s := schedules[|schedules| - 1];
      DueRuns(schedules[..|schedules| - 1], now, offsets) +
      (if IsDue(s, now, offsets) then [ScheduledRun(s.scheduleId, s.businessId, s.reportType, now)] else [])
  }

  /** The schedules due now, in order; an unreadable cron of an enabled, configured schedule stops the batch. */
  method DueSchedules(schedules: seq<Schedule>, now: int, offsets: map<string, int>)
    returns (runs: Result<seq<ScheduledRun>, ScheduleError>)
    ensures runs.Ok? <==> forall s :: s in schedules && s.enabled && s.businessId in offsets ==> ParseCron(s.cron).Ok?
    ensures runs.Ok? ==> runs.value == DueRuns(schedules, now, offsets)
  {
    var due: seq<ScheduledRun> := [];
    for i := 0 to |schedules|
      invariant due == DueRuns(schedules[..i], now, offsets)
      invariant forall s :: s in schedules[..i] && s.enabled && s.businessId in offsets ==> ParseCron(s.cron).Ok?
    {
      var s := schedules[i];
      assert schedules[..i + 1][..i] == schedules[..i];
      if s.enabled && s.businessId in offsets {
        match ShouldRun(s, now, offsets[s.businessId])
        case Err(e) => return Err(e);
        case Ok(true) => due := due + [ScheduledRun(s.scheduleId, s.businessId, s.reportType, now)];
        case Ok(false) =>
      }
    }
    assert schedules[..|schedules|] == schedules;
    return Ok(due);
  }

  // ---- the text of a daily schedule

  lemma {:induction false} WordRunOf(w: string, rest: string)
    requires NoSpaces(w) && (rest == "" || IsSpace(rest[0]))
    ensures WordRun(w + rest) == |w|
  {
    if w == "" {
      assert w + rest == rest;
    } else {
      assert w[0] in w && (w + rest)[1..] == w[1..] + rest;
      assert forall c :: c in w[1..] ==> c in w;
      WordRunOf(w[1..], rest);
    }
  }

  lemma FirstWord(w: string, rest: string)
    requires w != "" && NoSpaces(w) && (rest == "" || IsSpace(rest[0]))
    ensures Words(w + rest) == [w] + Words(rest)
  {
    assert w[0] in w && SpaceRun(w + rest) == 0 && (w + rest)[0..] == w + rest;
    WordRunOf(w, rest);
    assert (w + rest)[..|w|] == w && (w + rest)[|w|..] == rest;
  }

  lemma AfterSpace(s: string)
    requires s != "" && !IsSpace(s[0])
    ensures Words(" " + s) == Words(s)
  {
    var t := " " + s;
    assert t[1..] == s && s[0..] == s;
    assert SpaceRun(t) == 1 && SpaceRun(s) == 0;
  }

  lemma NextWord(w: string, s: string)
    requires w != "" && NoSpaces(w) && s != "" && !IsSpace(s[0])
    ensures Words(w + " " + s) == [w] + Words(s)
  {
    assert w + " " + s == w + (" " + s);
    FirstWord(w, " " + s);
    AfterSpace(s);
  }

  lemma OneWord(w: string)
    requires w != "" && NoSpaces(w)
    ensures Words(w) == [w]
  {
    FirstWord(w, "");
    assert w + "" == w && [w] + [] == [w];
  }

  lemma ThreeStars()
    ensures Words("* * *") == ["*", "*", "*"]
  {
    OneWord("*");
    TwoStars();
    assert "* * *" == "*" + " " + "* *";
    NextWord("*", "* *");
  }

  lemma TwoStars()
    ensures Words("* *") == ["*", "*"]
  {
    OneWord("*");
    assert "* *" == "*" + " " + "*";
    NextWord("*", "*");
  }

  lemma LeadingWords(minute: string, hour: string, tail: string)
    requires minute != "" && hour != "" && NoSpaces(minute) && NoSpaces(hour) && tail != "" && !IsSpace(tail[0])
    ensures Words(minute + " " + hour + " " + tail) == [minute] + ([hour] + Words(tail))
  {
    var s := hour + " " + tail;
    assert hour[0] in hour && s[0] == hour[0];
    assert minute + " " + hour + " " + tail == minute + " " + s;
    NextWord(minute, s);
    NextWord(hour, tail);
  }

  /** The text of a daily schedule: the minute first, then the hour. */
  function DailyText(minute: int, hour: int): string { IntText(minute) + " " + IntText(hour) + " " + "* * *" }

  lemma IntTextIsWord(n: int)
    ensures IntText(n) != "" && NoSpaces(IntText(n))
  {
    if n < 0 { DigitsAreNumeral(DigitsOf(-n)); } else { DigitsAreNumeral(DigitsOf(n)); }
  }

  lemma DailyTextReads(minute: int, hour: int)
    ensures ParseCron(DailyText(minute, hour)) == Ok((minute, hour)) && |Words(DailyText(minute, hour))| == 5
  {
    IntTextIsWord(minute);
    IntTextIsWord(hour);
    LeadingWords(IntText(minute), IntText(hour), "* * *");
    ThreeStars();
    ParsePrintedInt(minute);
    ParsePrintedInt(hour);
  }

  lemma NextShows(minute: int, hour: int, after: int, offset: int)
    requires 0 <= minute <= 59 && 0 <= hour <= 23
    ensures var next := NextRun(Ok((minute, hour)), after, offset);
            && next.Ok? && after < next.value <= after + DAY
            && (next.value + offset) % DAY == hour * 3_600_000_000 + minute * 60_000_000
            && Due(true, Ok((minute, hour)), next.value + offset) == Ok(true)
  {
    NextRunIsLeast(Ok((minute, hour)), after, offset);
    MinuteStartOfDay(NextRun(Ok((minute, hour)), after, offset).value + offset, hour, minute);
  }

  /** A schedule written for a minute and an hour of the day is accepted, runs next at the next local time that shows
      them, and polling fires it then. */
  lemma DailyTextRunsThen(schedule: Schedule, minute: int, hour: int, after: int, offset: int)
    requires 0 <= minute <= 59 && 0 <= hour <= 23 && schedule.enabled && schedule.cron == DailyText(minute, hour)
    ensures DailyCronAccepted(schedule.cron) && NextDailyRun(schedule, after, offset).Ok?
    ensures var next := NextDailyRun(schedule, after, offset).value;
            && after < next <= after + DAY && (next + offset) % DAY == hour * 3_600_000_000 + minute * 60_000_000
            && ShouldRun(schedule, next, offset) == Ok(true)
  {
    DailyTextReads(minute, hour);
    AcceptedWhenRead(schedule.cron, minute, hour);
    RunsWhenRead(schedule, minute, hour, after, offset);
  }

  lemma AcceptedWhenRead(cron: string, minute: int, hour: int)
    requires 0 <= minute <= 59 && 0 <= hour <= 23 && ParseCron(cron) == Ok((minute, hour)) && |Words(cron)| == 5
    ensures DailyCronAccepted(cron)
  {
  }

  lemma RunsWhenRead(schedule: Schedule, minute: int, hour: int, after: int, offset: int)
    requires 0 <= minute <= 59 && 0 <= hour <= 23 && schedule.enabled && ParseCron(schedule.cron) == Ok((minute, hour))
    ensures NextDailyRun(schedule, after, offset).Ok?
    ensures var next := NextDailyRun(schedule, after, offset).value;
            && after < next <= after + DAY && (next + offset) % DAY == hour * 3_600_000_000 + minute * 60_000_000
            && ShouldRun(schedule, next, offset) == Ok(true)
  {
    NextShows(minute, hour, after, offset);
    RunsAsRead(schedule, ParseCron(schedule.cron), after, offset);
  }

  lemma RunsAsRead(schedule: Schedule, time: CronTime, after: int, offset: int)
    requires schedule.enabled && ParseCron(schedule.cron) == time
    ensures NextDailyRun(schedule, after, offset) == NextRun(time, after, offset)
    ensures forall now :: ShouldRun(schedule, now, offset) == Due(true, time, now + offset)
  {
  }

  /** A minute of local time is due when its own minute and hour are those of the schedule. */
  lemma ShowsTimeExactly(local: int, hour: int, minute: int)
    ensures ShowsTime(local, hour, minute) <==>
              local / 60_000_000 % 60 == minute && local / 3_600_000_000 % 24 == hour
  {
    var day, h, m, rest := LocalFields(local);
    assert local == HOUR * (24 * day + h) + (MINUTE * m + rest);
    assert local / HOUR == 24 * day + h;
    assert local == MINUTE * (60 * (24 * day + h) + m) + rest;
    assert local / MINUTE == 60 * (24 * day + h) + m;
  }

  function DueNow(now: int, offsets: map<string, int>): Schedule -> bool { s => IsDue(s, now, offsets) }

  function RunAt(now: int): Schedule -> ScheduledRun {
    (s: Schedule) => ScheduledRun(s.scheduleId, s.businessId, s.reportType, now)
  }

  /** The runs of a batch are those of its due schedules, in order and once each, all at the given instant. */
  lemma {:induction false} DueRunsExactly(schedules: seq<Schedule>, now: int, offsets: map<string, int>)
    ensures DueRuns(schedules, now, offsets) == Map(Filter(schedules, DueNow(now, offsets)), RunAt(now))
  {
    if schedules != [] {
      var front, last := schedules[..|schedules| - 1], schedules[|schedules| - 1];
      assert schedules == front + [last];
      DueRunsExactly(front, now, offsets);
      FilterSnoc(front, last, DueNow(now, offsets));
      MapSnoc(Filter(front, DueNow(now, offsets)), last, RunAt(now));
    }
  }

  lemma MapSnoc<A, B>(s: seq<A>, x: A, f: A -> B)
    ensures Map(s + [x], f) == Map(s, f) + [f(x)]
  {
  }

  /** A schedule is due exactly when it is enabled, its business has a time zone, its expression reads, and the local
      time shows its hour and minute. */
  lemma DueExactly(schedule: Schedule, now: int, offsets: map<string, int>)
    ensures IsDue(schedule, now, offsets) <==>
              && schedule.enabled && schedule.businessId in offsets && ParseCron(schedule.cron).Ok?
              && var (minute, hour) := ParseCron(schedule.cron).value;
                 var local := now + offsets[schedule.businessId];
                 local / 60_000_000 % 60 == minute && local / 3_600_000_000 % 24 == hour
  {
    if schedule.businessId in offsets && ParseCron(schedule.cron).Ok? {
      var (minute, hour) := ParseCron(schedule.cron).value;
      ShowsTimeExactly(now + offsets[schedule.businessId], hour, minute);
    }
  }
}
