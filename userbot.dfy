/**
 * The userbot process: its daily duty cycle (run until the stop clock, sleep
 * until the start clock the next day, back off 300 seconds after any error),
 * the truncation of notification bodies, and the handler that turns a
 * supergroup message into notifications.
 *
 * Time is whole seconds: an `Instant` is a day number and a second of that
 * day, as a naive local `datetime` without microseconds.
 */
module Userbot {
  import opened Wrappers
  import opened Text
  import opened Database
  import opened Dispatch

  const DaySeconds := 86400
  /** The pause after any exception in the scheduling loop. */
  const BackoffSeconds := 300
  /** Notification bodies longer than this are cut. */
  const BodyLimit := 500

  // ------------------------------------------------------------------ clock arithmetic

  datatype Instant = Instant(day: int, sec: int)

  predicate ValidInstant(t: Instant) {
    0 <= t.sec < DaySeconds
  }

  /** Seconds since the start of day 0. */
  function Seconds(t: Instant): int {
    t.day * 86400 + t.sec
  }

  /** `time(h, m)` raises `ValueError` outside these ranges. */
  predicate ValidClock(h: int, m: int) {
    0 <= h < 24 && 0 <= m < 60
  }

  /** The second of the day at which the clock `h:m` falls. */
  function ClockSeconds(h: int, m: int): (r: int)
    ensures ValidClock(h, m) ==> 0 <= r < DaySeconds
  {
    h * 3600 + m * 60
  }

  /**
   * `h, m = map(int, s.split(':'))`: exactly two parts, each accepted by
   * `int()`; anything else raises, which is `None` here.
   */
  function ParseClock(s: string): Option<(int, int)> {
    var parts := Split(s, ':');
    if |parts| != 2 then None
    else
      match (ParseInt(parts[0]), ParseInt(parts[1]))
      case (Some(h), Some(m)) => Some((h, m))
      case _ => None
  }

  /** A clock written as two digit strings around a colon parses to their values. */
  lemma ParseClockDigits(hh: string, mm: string)
    requires hh != [] && AllDigits(hh) && mm != [] && AllDigits(mm)
    ensures ParseClock(hh + ":" + mm) == Some((DigitsValue(hh), DigitsValue(mm)))
  {
    forall i | 0 <= i < |hh| ensures hh[i] != ':' {
      assert IsDigit(hh[i]);
    }
    forall i | 0 <= i < |mm| ensures mm[i] != ':' {
      assert IsDigit(mm[i]);
    }
    SplitAtFirst(hh, mm, ':');
    SplitNoSep(mm, ':');
    ParseUnsigned(hh);
    ParseUnsigned(mm);
  }

  /**
   * `stop_today`: today at the stop clock, rolled to tomorrow when `now` is
   * at or past it; so it always lies strictly after `now` and at most a day
   * later.
   */
  function NextStop(now: Instant, stopSec: int): (r: Instant)
    requires ValidInstant(now) && 0 <= stopSec < DaySeconds
    ensures ValidInstant(r) && r.sec == stopSec
    ensures Seconds(now) < Seconds(r) <= Seconds(now) + DaySeconds
  {
    if now.sec >= stopSec then Instant(now.day + 1, stopSec) else Instant(now.day, stopSec)
  }

  /** The stop instant is the first instant at the stop clock strictly after `now`. */
  lemma NextStopIsFirst(now: Instant, stopSec: int, later: Instant)
    requires ValidInstant(now) && 0 <= stopSec < DaySeconds
    requires later.sec == stopSec && Seconds(now) < Seconds(later)
    ensures Seconds(NextStop(now, stopSec)) <= Seconds(later)
  {
  }

  /** `seconds_until_stop`: positive, at most a day, and a whole day exactly when `now` is the stop clock. */
  function SecondsUntilStop(now: Instant, stopSec: int): (r: int)
    requires ValidInstant(now) && 0 <= stopSec < DaySeconds
    ensures 0 < r <= DaySeconds
    ensures r == DaySeconds <==> now.sec == stopSec
  {
    Seconds(NextStop(now, stopSec)) - Seconds(now)
  }

  /** The wait until the stop, in clock terms: the stop clock minus the current one, plus a day when the stop has passed today. */
  lemma UntilStopFormula(now: Instant, stopSec: int)
    requires ValidInstant(now) && 0 <= stopSec < DaySeconds
    ensures SecondsUntilStop(now, stopSec) == stopSec - now.sec + (if now.sec >= stopSec then DaySeconds else 0)
  {
  }

  /** `start_tomorrow`: the day after `now`'s date at the start clock, whether or not the stop rolled over. */
  function ResumeInstant(now: Instant, startSec: int): Instant {
    Instant(now.day + 1, startSec)
  }

  /** `sleep_seconds`: from the clock read after the run to `start_tomorrow`; not clamped. */
  function SleepSeconds(now: Instant, afterRun: Instant, startSec: int): int {
    Seconds(ResumeInstant(now, startSec)) - Seconds(afterRun)
  }

  /**
   * When the run ends at the stop instant, the sleep is the distance from the
   * stop clock to the start clock, plus a whole day when the stop fell on
   * `now`'s own date: the resume instant ignores the rollover of the stop.
   */
  lemma SleepAfterTimeout(now: Instant, stopSec: int, startSec: int)
    requires ValidInstant(now) && 0 <= stopSec < DaySeconds
    ensures SleepSeconds(now, NextStop(now, stopSec), startSec)
            == startSec - stopSec + (if now.sec < stopSec then DaySeconds else 0)
  {
  }

  /** Stop 00:00, start 02:00, now 23:00: the run lasts an hour and the sleep two hours. */
  lemma MidnightScenario(day: int)
    ensures SecondsUntilStop(Instant(day, 82800), 0) == 3600
    ensures SleepSeconds(Instant(day, 82800), NextStop(Instant(day, 82800), 0), 7200) == 7200
  {
    SleepAfterTimeout(Instant(day, 82800), 0, 7200);
  }

  /** Stop 22:00, start 02:00, now 23:00: the stop rolls to tomorrow 22:00, after tomorrow 02:00, so the sleep is negative. */
  lemma NegativeSleepScenario(day: int)
    ensures SecondsUntilStop(Instant(day, 82800), 79200) == 23 * 3600
    ensures SleepSeconds(Instant(day, 82800), NextStop(Instant(day, 82800), 79200), 7200) == -72000
  {
    SleepAfterTimeout(Instant(day, 82800), 79200, 7200);
  }

  // ------------------------------------------------------------------ the scheduling loop

  /** How a session started by the loop ended: returned or timed out (handled alike), or raised. */
  datatype Outcome = Finished | Crashed

  /**
   * The three `get_setting` results a pass reads, defaults applied, as the
   * pass uses them: whether the value is exactly `'true'`, and each clock
   * after `map(int, s.split(':'))`, `None` where that raises.
   */
  datatype Readings = Readings(scheduleOn: bool, stop: Option<(int, int)>, start: Option<(int, int)>)

  /** The pass's reads of the settings table, with the defaults `'true'`, `'00:00'` and `'02:00'`. */
  function ReadSettings(settings: map<string, string>): (r: Readings)
    ensures r.scheduleOn <==> ScheduleEnabledKey !in settings || settings[ScheduleEnabledKey] == "true"
    ensures StopTimeKey in settings ==> r.stop == ParseClock(settings[StopTimeKey])
    ensures StopTimeKey !in settings ==> r.stop == ParseClock(DefaultStopTime)
    ensures StartTimeKey in settings ==> r.start == ParseClock(settings[StartTimeKey])
    ensures StartTimeKey !in settings ==> r.start == ParseClock(DefaultStartTime)
  {
    Readings(SettingOr(settings, ScheduleEnabledKey, DefaultScheduleEnabled) == "true",
             ParseClock(SettingOr(settings, StopTimeKey, DefaultStopTime)),
             ParseClock(SettingOr(settings, StartTimeKey, DefaultStartTime)))
  }

  /**
   * What one pass of `while True` observes: the settings as read at its
   * start, the clock before the run, how the session ended, and the clock
   * after it.
   */
  datatype Tick = Tick(read: Readings, now: Instant, outcome: Outcome, afterRun: Instant)

  /** What the loop does, in order: run with no deadline, run with a deadline, sleep, or back off. */
  datatype Action = RunForever | RunUntil(timeout: int) | Sleep(seconds: int) | Backoff(pause: int)

  /** One pass of the loop in `start_with_schedule`. */
  function Iteration(t: Tick): seq<Action>
    requires ValidInstant(t.now)
  {
    if !t.read.scheduleOn then
      [RunForever] + (if t.outcome == Crashed then [Backoff(BackoffSeconds)] else [])
    else
      var stop := t.read.stop;
      var start := t.read.start;
      if stop.None? || start.None? || !ValidClock(stop.value.0, stop.value.1) then
        [Backoff(BackoffSeconds)]
      else
        var deadline := SecondsUntilStop(t.now, ClockSeconds(stop.value.0, stop.value.1));
        [RunUntil(deadline)] +
        if t.outcome == Crashed || !ValidClock(start.value.0, start.value.1) then [Backoff(BackoffSeconds)]
        else [Sleep(SleepSeconds(t.now, t.afterRun, ClockSeconds(start.value.0, start.value.1)))]
  }

  /** Unless the setting is exactly `'true'`, no deadline and no sleep: the session runs and the loop starts over. */
  lemma DisabledRunsForever(t: Tick)
    requires ValidInstant(t.now) && !t.read.scheduleOn
    ensures Iteration(t)[0] == RunForever
    ensures forall a :: a in Iteration(t) ==> !a.RunUntil? && !a.Sleep?
  {
  }

  /** A stop or start setting that `int()` rejects, or a stop clock out of range, ends the pass in the 300-second back-off before anything runs. */
  lemma MalformedClockBacksOff(t: Tick)
    requires ValidInstant(t.now) && t.read.scheduleOn
    requires t.read.start.None? || t.read.stop.None? || !ValidClock(t.read.stop.value.0, t.read.stop.value.1)
    ensures Iteration(t) == [Backoff(BackoffSeconds)]
  {
  }

  /**
   * A session that returns or times out is followed by the sleep until the
   * start clock: the pass is the deadline run, then the sleep, and nothing else.
   */
  lemma FinishedRunSleeps(t: Tick, stop: (int, int), start: (int, int))
    requires ValidInstant(t.now) && t.read == Readings(true, Some(stop), Some(start)) && t.outcome == Finished
    requires ValidClock(stop.0, stop.1) && ValidClock(start.0, start.1)
    ensures Iteration(t) == [RunUntil(SecondsUntilStop(t.now, ClockSeconds(stop.0, stop.1))),
                             Sleep(SleepSeconds(t.now, t.afterRun, ClockSeconds(start.0, start.1)))]
  {
  }

  /** A pass that crashes after the deadline was set still backs off instead of sleeping. */
  lemma CrashedRunBacksOff(t: Tick)
    requires ValidInstant(t.now) && t.read.scheduleOn && t.outcome == Crashed
    ensures Iteration(t)[|Iteration(t)| - 1] == Backoff(BackoffSeconds)
    ensures forall a :: a in Iteration(t) ==> !a.Sleep?
  {
  }

  /** The actions of the loop over a run of passes, in order. */
  function Schedule(ticks: seq<Tick>): seq<Action>
    requires forall i :: 0 <= i < |ticks| ==> ValidInstant(ticks[i].now)
    decreases |ticks|
  {
    if ticks == [] then []
    else Schedule(ticks[..|ticks| - 1]) + Iteration(ticks[|ticks| - 1])
  }

  /** Every deadline the loop sets is positive and at most a day, and every back-off is 300 seconds. */
  lemma {:induction false} ScheduleBounds(ticks: seq<Tick>)
    requires forall i :: 0 <= i < |ticks| ==> ValidInstant(ticks[i].now)
    ensures forall a :: a in Schedule(ticks) ==>
      (a.RunUntil? ==> 0 < a.timeout <= DaySeconds) && (a.Backoff? ==> a.pause == BackoffSeconds)
    decreases |ticks|
  {
    if ticks != [] {
      ScheduleBounds(ticks[..|ticks| - 1]);
    }
  }

  /** `start_with_schedule`, over the passes `ticks`: each pass re-reads the settings and acts on them. */
  method StartWithSchedule(ticks: seq<Tick>) returns (actions: seq<Action>)
    requires forall i :: 0 <= i < |ticks| ==> ValidInstant(ticks[i].now)
    ensures actions == Schedule(ticks)
  {
    actions := [];
    var i := 0;
    while i < |ticks|
      invariant 0 <= i <= |ticks|
      invariant actions == Schedule(ticks[..i])
    {
      assert ticks[..i + 1][..i] == ticks[..i];
      actions := actions + Iteration(ticks[i]);
      i := i + 1;
    }
    assert ticks[..|ticks|] == ticks;
  }

  /**
   * How `main` starts the userbot: the scheduling loop, or one session run
   * outside any loop, whose error ends the process.
   */
  datatype Startup = DutyCycle | SingleSession

  /**
   * `main`'s single read of `userbot_schedule_enabled` (default `'true'`): it
   * enters the scheduling loop exactly when the loop's own first pass would
   * read the schedule as on.
   */
  function MainStartup(settings: map<string, string>): (r: Startup)
    ensures r == DutyCycle <==> ReadSettings(settings).scheduleOn
    ensures r == SingleSession <==> ScheduleEnabledKey in settings && settings[ScheduleEnabledKey] != "true"
  {
    if SettingOr(settings, ScheduleEnabledKey, DefaultScheduleEnabled) == "true" then DutyCycle else SingleSession
  }

  // ------------------------------------------------------------------ notifications

  /** The body cut of `send_notification`: at most 500 characters kept, and `"..."` marks a cut. */
  function Truncate(msg: string): (r: string)
    ensures |msg| <= BodyLimit ==> r == msg
    ensures |msg| > BodyLimit ==> |r| == BodyLimit + 3 && r[..BodyLimit] == msg[..BodyLimit] && r[BodyLimit..] == "..."
  {
    if |msg| > BodyLimit then msg[..BodyLimit] + "..." else msg
  }

  /** Cutting is idempotent: a cut body, sent again, is not cut further. */
  lemma TruncateIdempotent(msg: string)
    ensures Truncate(Truncate(msg)) == Truncate(msg)
  {
    if |msg| > BodyLimit {
      assert Truncate(msg)[..BodyLimit] == msg[..BodyLimit];
    }
  }

  /** The message sender as the handler sees it; an empty name stands for a missing one. */
  datatype Sender = Sender(id: int, username: string, firstName: string)

  /**
   * A new-message event: the chat id, the text (empty for none), the chat's
   * `megagroup` attribute (`None` when the chat has none), its `title`
   * attribute, and the sender.
   */
  datatype Event = Event(chatId: int, text: string, megagroup: Option<bool>, title: Option<string>, sender: Option<Sender>)

  /** The handler's three guards: some text, a supergroup, a sender. */
  predicate Handled(e: Event) {
    e.text != "" && e.megagroup == Some(true) && e.sender.Some?
  }

  function ChatName(e: Event): string {
    e.title.GetOr("Unknown")
  }

  function SenderName(s: Sender): string {
    StrOr(s.username, StrOr(s.firstName, "Unknown"))
  }

  /**
   * `message_handler`: nothing for an event that fails a guard; otherwise one
   * `send_notification` per match with a truthy private group id, carrying
   * the truncated body.
   */
  method MessageHandler(store: Store, event: Event) returns (sent: seq<Notification>)
    requires store.Valid()
    ensures !Handled(event) ==> sent == []
    ensures Handled(event) ==>
      sent == Deliveries(store.Matches(event.chatId, event.text), ChatName(event),
                         SenderName(event.sender.value), event.sender.value.id, Truncate(event.text))
  {
    sent := [];
    if event.text == "" {
      return;
    }
    if event.megagroup.None? || !event.megagroup.value {
      return;
    }
    var groupName := event.title.GetOr("Unknown");
    if event.sender.None? {
      return;
    }
    var sender := event.sender.value;
    var username := if sender.username != "" then sender.username
                    else if sender.firstName != "" then sender.firstName else "Unknown";
    var matches := store.CheckKeywordsInMessage(event.chatId, event.text);
    sent := SendAll(matches, groupName, username, sender.id, Truncate(event.text));
  }
}
