/**
  The weekly schedule: which window is in force at an instant and when to look again.

  An instant is a number of nanoseconds of local time, counted from a Sunday midnight; the zone has a
  fixed offset, so every local day has 24 hours.
 */
module Schedule {
  import opened Prelude

  const SECOND := 1_000_000_000
  const MINUTE := 60 * SECOND
  const DAY := 1440 * MINUTE
  const ZONE := "Asia/Ho_Chi_Minh"

  datatype PollMode = Realtime | KeepaliveOnly | Paused | Unknown(name: string)
  datatype Profile = Profile(mode: PollMode, minSeconds: int, maxSeconds: int)
  datatype Window = Window(name: string, daysOfWeek: seq<int>, startTime: string, endTime: string, profile: Profile)
  datatype Settings = Settings(enabled: bool, timezone: string, defaultProfile: Profile, windows: seq<Window>)
  datatype Resolved = Resolved(
    mode: PollMode, minInterval: int, maxInterval: int, activeWindow: string,
    nextTransition: Option<int>, nextMode: Option<PollMode>)

  // ---------- clock texts ----------

  predicate IsDigit(c: char) {
    '0' <= c <= '9'
  }

  function Numeral(c: char): int {
    (c as int) - ('0' as int)
  }

  /** time.Parse("15:04"): one or two digits for the hour, two for the minute. */
  function ParseClock(s: string): (minutes: Option<nat>)
    ensures minutes.Some? ==> minutes.value < 1440
  {
    if |s| == 4 && IsDigit(s[0]) && s[1] == ':' && IsDigit(s[2]) && IsDigit(s[3]) then
      Clock(Numeral(s[0]), 10 * Numeral(s[2]) + Numeral(s[3]))
    else if |s| == 5 && IsDigit(s[0]) && IsDigit(s[1]) && s[2] == ':' && IsDigit(s[3]) && IsDigit(s[4]) then
      Clock(10 * Numeral(s[0]) + Numeral(s[1]), 10 * Numeral(s[3]) + Numeral(s[4]))
    else None
  }

  function Clock(hour: int, minute: int): (minutes: Option<nat>)
    requires hour >= 0 && minute >= 0
    ensures minutes.Some? ==> minutes.value < 1440
  {
    if hour < 24 && minute < 60 then Some(60 * hour + minute) else None
  }

  /** A text that does not parse leaves the zero time, which is midnight. */
  function Minutes(s: string): (minutes: nat)
    ensures minutes < 1440
  {
    var m := ParseClock(s);
    if m.Some? then m.value else 0
  }

  function DigitOf(n: nat): char
    requires n < 10
  {
    (n + ('0' as int)) as char
  }

  function TwoDigitsOf(n: nat): string
    requires n < 100
  {
    [DigitOf(n / 10), DigitOf(n % 10)]
  }

  /** The texts of a time of day: two digits for the minute, two or, before ten, one for the hour. */
  predicate Spells(s: string, hour: nat, minute: nat) {
    && hour < 24 && minute < 60
    && (s == TwoDigitsOf(hour) + ":" + TwoDigitsOf(minute)
        || (hour < 10 && s == [DigitOf(hour)] + ":" + TwoDigitsOf(minute)))
  }

  /** Those texts are read as that time, and nothing else is read at all. */
  lemma ClockTexts(s: string, minutes: nat)
    ensures ParseClock(s) == Some(minutes) <==>
            exists hour: nat, minute: nat :: Spells(s, hour, minute) && minutes == 60 * hour + minute
  {
    hide Spells;
    if ParseClock(s) == Some(minutes) {
      if |s| == 4 {
        ShortIsSpelled(s);
      } else {
        LongIsSpelled(s);
      }
    }
    if hour: nat, minute: nat :| Spells(s, hour, minute) && minutes == 60 * hour + minute {
      SpelledIsRead(s, hour, minute);
    }
  }

  lemma ShortIsSpelled(s: string)
    requires |s| == 4 && ParseClock(s).Some?
    ensures Spells(s, Numeral(s[0]), 10 * Numeral(s[2]) + Numeral(s[3]))
    ensures ParseClock(s).value == 60 * Numeral(s[0]) + 10 * Numeral(s[2]) + Numeral(s[3])
  {
    TensAndUnits(s[2], s[3]);
  }

  lemma LongIsSpelled(s: string)
    requires |s| == 5 && ParseClock(s).Some?
    ensures Spells(s, 10 * Numeral(s[0]) + Numeral(s[1]), 10 * Numeral(s[3]) + Numeral(s[4]))
    ensures ParseClock(s).value == 60 * (10 * Numeral(s[0]) + Numeral(s[1])) + 10 * Numeral(s[3]) + Numeral(s[4])
  {
    TensAndUnits(s[0], s[1]);
    TensAndUnits(s[3], s[4]);
  }

  lemma TensAndUnits(a: char, b: char)
    requires IsDigit(a) && IsDigit(b)
    ensures 0 <= 10 * Numeral(a) + Numeral(b) < 100 && TwoDigitsOf(10 * Numeral(a) + Numeral(b)) == [a, b]
  {
  }

  lemma SpelledIsRead(s: string, hour: nat, minute: nat)
    requires Spells(s, hour, minute)
    ensures ParseClock(s) == Some(60 * hour + minute)
  {
    assert s == TwoDigitsOf(hour) + ":" + TwoDigitsOf(minute) ==> |s| == 5;
  }

  // ---------- instants ----------

  function DayOf(t: int): int {
    t / DAY
  }

  function MinuteOf(t: int): int {
    t % DAY / MINUTE
  }

  function At(day: int, minute: nat): int {
    day * DAY + minute * MINUTE
  }

  /** The first instant after `t` at which the clock shows `minute`. */
  function NextAt(t: int, minute: nat): int {
    var today := At(DayOf(t), minute);
    if today > t then today else today + DAY
  }

  lemma NextAtIsNext(t: int, minute: nat, day: int)
    requires minute < 1440
    ensures t < NextAt(t, minute) <= t + DAY
    ensures NextAt(t, minute) == At(DayOf(NextAt(t, minute)), minute)
    ensures t < At(day, minute) ==> NextAt(t, minute) <= At(day, minute)
    ensures t < At(day, minute) <= t + DAY ==> NextAt(t, minute) == At(day, minute)
  {
    var today := DayOf(t);
    assert today * DAY <= t < today * DAY + DAY;
    Steps(day, today);
    Steps(day, today + 1);
    DayOfAt(today, minute);
    DayOfAt(today + 1, minute);
  }

  /** The first instant after `now` at which the clock shows `minute`, on the minute. */
  ghost predicate FirstInstant(now: int, minute: nat, t: int) {
    now < t && Shows(t, minute) && forall u: int :: now < u < t ==> !Shows(u, minute)
  }

  predicate Shows(t: int, minute: nat) {
    t % DAY == minute * MINUTE
  }

  lemma NextAtIsFirst(now: int, minute: nat)
    requires minute < 1440
    ensures FirstInstant(now, minute, NextAt(now, minute))
  {
    var t := NextAt(now, minute);
    NextAtIsNext(now, minute, 0);
    OnTheMinute(DayOf(t), minute);
    forall u: int | now < u < t ensures !Shows(u, minute) {
      NextAtIsNext(now, minute, DayOf(u));
      assert u == DayOf(u) * DAY + u % DAY;
    }
  }

  lemma OnTheMinute(day: int, minute: nat)
    requires minute < 1440
    ensures At(day, minute) % DAY == minute * MINUTE
  {
    var r := minute * MINUTE;
    assert 0 <= r < DAY;
    assert (day * DAY + r) % DAY == r;
  }

  lemma Steps(a: int, b: int)
    ensures a < b ==> a * DAY + DAY <= b * DAY
    ensures a > b ==> a * DAY >= b * DAY + DAY
  {
  }

  lemma DayOfAt(day: int, minute: nat)
    requires minute < 1440
    ensures DayOf(At(day, minute)) == day && MinuteOf(At(day, minute)) == minute
  {
    var r := minute * MINUTE;
    assert 0 <= r < DAY;
    assert (day * DAY + r) / DAY == day && (day * DAY + r) % DAY == r;
  }

  lemma ClockOrder(t: int, minute: nat)
    requires minute < 1440
    ensures MinuteOf(t) >= minute <==> At(DayOf(t), minute) <= t
    ensures At(DayOf(t), 0) <= t < At(DayOf(t) + 1, 0)
    ensures At(DayOf(t) + 1, minute) > t
    ensures At(DayOf(t) - 1, minute) <= t
  {
  }

  // ---------- when a window is in force ----------

  predicate Runs(w: Window, weekday: int) {
    w.daysOfWeek == [] || weekday in w.daysOfWeek
  }

  /** The test the code makes. */
  predicate Matches(w: Window, t: int) {
    var start, end := Minutes(w.startTime), Minutes(w.endTime);
    var now, weekday := MinuteOf(t), DayOf(t) % 7;
    if start < end then
      Runs(w, weekday) && start <= now < end
    else
      (Runs(w, weekday) && now >= start) || (Runs(w, (weekday + 6) % 7) && now < end)
  }

  /** What it is for: an occurrence that began on a listed day, `day`, is going on. */
  function Begin(w: Window, day: int): int {
    At(day, Minutes(w.startTime))
  }

  function End(w: Window, day: int): int {
    At(if Minutes(w.startTime) < Minutes(w.endTime) then day else day + 1, Minutes(w.endTime))
  }

  predicate Occurs(w: Window, day: int, t: int) {
    Runs(w, day % 7) && Begin(w, day) <= t < End(w, day)
  }

  lemma MatchesIffOccurs(w: Window, t: int)
    ensures Matches(w, t) <==> Occurs(w, DayOf(t), t) || Occurs(w, DayOf(t) - 1, t)
    ensures forall day :: Occurs(w, day, t) ==> day == DayOf(t) || day == DayOf(t) - 1
  {
    hide DayOf, MinuteOf, At, Minutes, Runs;
    var start, end := Minutes(w.startTime), Minutes(w.endTime);
    var today := DayOf(t);
    ClockOrder(t, start);
    ClockOrder(t, end);
    Yesterday(today);
    forall day | Occurs(w, day, t) ensures day == today || day == today - 1 {
      OccursNearby(w, day, t);
    }
  }

  lemma Yesterday(today: int)
    ensures (today % 7 + 6) % 7 == (today - 1) % 7
  {
  }

  lemma OccursNearby(w: Window, day: int, t: int)
    requires Begin(w, day) <= t < End(w, day)
    ensures day == DayOf(t) || day == DayOf(t) - 1
  {
    hide DayOf, Minutes;
    WithinDay(t);
    Steps(day, DayOf(t));
    Steps(day + 1, DayOf(t));
  }

  lemma WithinDay(t: int)
    ensures At(DayOf(t), 0) <= t < At(DayOf(t), 0) + DAY
  {
  }

  /** Matching means that some occurrence is going on. */
  lemma MatchesIffSomeOccurrence(w: Window, t: int)
    ensures Matches(w, t) <==> exists day :: Occurs(w, day, t)
  {
    MatchesIffOccurs(w, t);
  }

  // ---------- the resolver ----------

  /** The first window in force at `t`, among those from `k` on. */
  function SelectedFrom(ws: seq<Window>, k: nat, t: int): (r: Option<nat>)
    requires k <= |ws|
    ensures r.Some? ==> k <= r.value < |ws| && Matches(ws[r.value], t)
    ensures forall j :: k <= j < |ws| && (r.None? || j < r.value) ==> !Matches(ws[j], t)
    decreases |ws| - k
  {
    if k == |ws| then None
    else if Matches(ws[k], t) then Some(k)
    else SelectedFrom(ws, k + 1, t)
  }

  function Selected(ws: seq<Window>, t: int): Option<nat> {
    SelectedFrom(ws, 0, t)
  }

  function NextStart(w: Window, t: int): int {
    NextAt(t, Minutes(w.startTime))
  }

  /** The first of the first `n` windows whose start time comes round soonest. */
  function SoonestOf(ws: seq<Window>, n: nat, t: int): (r: Option<nat>)
    requires n <= |ws|
    ensures r.Some? <==> n > 0
    ensures r.Some? ==> r.value < n
    ensures forall j :: 0 <= j < n ==>
                          NextStart(ws[r.value], t) <= NextStart(ws[j], t) &&
                          (j < r.value ==> NextStart(ws[r.value], t) < NextStart(ws[j], t))
  {
    if n == 0 then None
    else
      var r := SoonestOf(ws, n - 1, t);
      if r.None? || NextStart(ws[n - 1], t) < NextStart(ws[r.value], t) then Some(n - 1) else r
  }

  function Soonest(ws: seq<Window>, t: int): Option<nat> {
    SoonestOf(ws, |ws|, t)
  }

  function Transition(s: Settings, now: int): int {
    var selected := Selected(s.windows, now);
    var soonest := Soonest(s.windows, now);
    if !s.enabled then now + DAY
    else if selected.Some? then NextAt(now, Minutes(s.windows[selected.value].endTime))
    else if soonest.Some? then NextStart(s.windows[soonest.value], now)
    else now + DAY
  }

  function Announced(s: Settings, now: int): PollMode {
    var soonest := Soonest(s.windows, now);
    if !s.enabled then Realtime
    else if Selected(s.windows, now).Some? || soonest.None? then s.defaultProfile.mode
    else s.windows[soonest.value].profile.mode
  }

  function Active(s: Settings, now: int): Profile {
    var selected := Selected(s.windows, now);
    if !s.enabled then Profile(Realtime, 5, 15)
    else if selected.Some? then s.windows[selected.value].profile
    else s.defaultProfile
  }

  const OUTSIDE := "Mặc định (Ngoài khung giờ)"
  const ALWAYS := "Cấu hình mặc định (Realtime liên tục)"

  /** The jitter bounds of a profile, in nanoseconds. */
  function Intervals(p: Profile): (r: (int, int))
    ensures 0 < r.0 <= r.1
  {
    var low := if p.minSeconds <= 0 then 5 * SECOND else p.minSeconds * SECOND;
    (low, if p.maxSeconds * SECOND < low then low else p.maxSeconds * SECOND)
  }

  function ActiveName(s: Settings, now: int): string {
    var selected := Selected(s.windows, now);
    if !s.enabled then ALWAYS
    else if selected.Some? then s.windows[selected.value].name
    else OUTSIDE
  }

  // ---------- what the resolver promises ----------

  /** The next look is later than now and within a day, whatever the settings. */
  lemma TransitionIsWithinADay(s: Settings, now: int)
    ensures now < Transition(s, now) <= now + DAY
  {
    hide NextAt, Matches;
    forall m: nat | m < 1440 ensures now < NextAt(now, m) <= now + DAY {
      NextAtIsNext(now, m, 0);
    }
  }

  /** The window in force stays in force up to the transition, which is the end of its occurrence. */
  lemma SelectedKeepsMatching(s: Settings, now: int, t: int)
    requires s.enabled && Selected(s.windows, now).Some?
    requires now <= t < Transition(s, now)
    ensures Matches(s.windows[Selected(s.windows, now).value], t)
    ensures exists day :: Occurs(s.windows[Selected(s.windows, now).value], day, now)
                          && Transition(s, now) == End(s.windows[Selected(s.windows, now).value], day)
  {
    var w := s.windows[Selected(s.windows, now).value];
    MatchesIffSomeOccurrence(w, now);
    var day :| Occurs(w, day, now);
    EndIsNext(w, day, now);
    assert Occurs(w, day, t);
    MatchesIffSomeOccurrence(w, t);
  }

  lemma EndIsNext(w: Window, day: int, now: int)
    requires Occurs(w, day, now)
    ensures NextAt(now, Minutes(w.endTime)) == End(w, day)
  {
    hide NextAt, Minutes;
    var endDay := if Minutes(w.startTime) < Minutes(w.endTime) then day else day + 1;
    NextAtIsNext(now, Minutes(w.endTime), endDay);
  }

  /** So until the transition the selected index never rises. */
  lemma SelectedIndexNeverRises(s: Settings, now: int, t: int)
    requires s.enabled && Selected(s.windows, now).Some?
    requires now <= t < Transition(s, now)
    ensures Selected(s.windows, t).Some? && Selected(s.windows, t).value <= Selected(s.windows, now).value
  {
    hide Matches, Transition;
    SelectedKeepsMatching(s, now, t);
  }

  /** No occurrence begins between now and the soonest start time. */
  lemma BeginsAtNextStart(w: Window, day: int, now: int)
    requires now < Begin(w, day)
    ensures NextStart(w, now) <= Begin(w, day)
  {
    hide NextAt, Minutes;
    NextAtIsNext(now, Minutes(w.startTime), day);
  }

  /** With no window in force now, none comes into force before the transition. */
  lemma NothingBeforeTransition(s: Settings, now: int, t: int)
    requires s.enabled && Selected(s.windows, now).None?
    requires now <= t < Transition(s, now)
    ensures Selected(s.windows, t).None?
  {
    hide Matches, NextStart;
    forall j: nat | j < |s.windows| ensures !Matches(s.windows[j], t) {
      NotBefore(s, now, t, j);
    }
  }

  lemma NotBefore(s: Settings, now: int, t: int, j: nat)
    requires s.enabled && Selected(s.windows, now).None?
    requires now <= t < Transition(s, now) && j < |s.windows|
    ensures !Matches(s.windows[j], t)
  {
    hide NextStart, NextAt, At;
    var w := s.windows[j];
    assert !Matches(w, now);
    MatchesIffSomeOccurrence(w, now);
    MatchesIffSomeOccurrence(w, t);
    if Matches(w, t) {
      var day :| Occurs(w, day, t);
      assert !Occurs(w, day, now);
      BeginsAtNextStart(w, day, now);
      assert false;
    }
  }

  /**
    With no window in force, the window whose mode is announced comes into force at the transition
    exactly when it runs on that weekday.
   */
  lemma AnnouncedWindowIsNext(s: Settings, now: int)
    requires s.enabled && Selected(s.windows, now).None? && s.windows != []
    ensures var k, next := Soonest(s.windows, now), Transition(s, now);
            Announced(s, now) == s.windows[k.value].profile.mode &&
            (Selected(s.windows, next) == k <==> Runs(s.windows[k.value], DayOf(next) % 7))
  {
    hide NextStart, Matches;
    var k, next := Soonest(s.windows, now).value, Transition(s, now);
    TransitionIsWithinADay(s, now);
    forall j: nat | j < |s.windows|
      ensures Matches(s.windows[j], next) <==>
              Runs(s.windows[j], DayOf(next) % 7) && NextStart(s.windows[j], now) == next
    {
      assert !Matches(s.windows[j], now);
      MatchesAtTransition(s.windows[j], now, next);
    }
  }

  lemma MatchesAtTransition(w: Window, now: int, next: int)
    requires !Matches(w, now) && now < next <= NextStart(w, now)
    ensures Matches(w, next) <==> Runs(w, DayOf(next) % 7) && NextStart(w, now) == next
  {
    hide NextAt, At, Minutes, Matches, Runs, DayOf;
    MatchesIffSomeOccurrence(w, now);
    MatchesIffSomeOccurrence(w, next);
    NextAtIsNext(now, Minutes(w.startTime), 0);
    DayOfAt(DayOf(next), Minutes(w.startTime));
    if Matches(w, next) {
      var day :| Occurs(w, day, next);
      assert !Occurs(w, day, now);
      BeginsAtNextStart(w, day, now);
      DayOfAt(day, Minutes(w.startTime));
    }
    if Runs(w, DayOf(next) % 7) && NextStart(w, now) == next {
      EndAfterBegin(w, DayOf(next));
      assert Occurs(w, DayOf(next), next);
    }
  }

  lemma EndAfterBegin(w: Window, day: int)
    ensures Begin(w, day) < End(w, day)
  {
  }

  /** The mode in force at the transition is the announced one. */
  predicate AnnouncementIsRight(s: Settings, now: int) {
    Announced(s, now) == Active(s, Transition(s, now)).mode
  }

  /**
    With a window in force the announcement is right if and only if no window matches at the end of its
    occurrence, or the first that matches there has the default mode.
   */
  lemma AnnouncementIsRightIff(s: Settings, now: int)
    requires s.enabled && Selected(s.windows, now).Some?
    ensures var next := Transition(s, now);
            AnnouncementIsRight(s, now) <==>
            (forall j: nat :: j < |s.windows| ==> !Matches(s.windows[j], next))
            || (exists j: nat :: IsFirstMatch(s.windows, j, next) && s.windows[j].profile.mode == s.defaultProfile.mode)
  {
    hide Matches;
    var next := Transition(s, now);
    var selected := Selected(s.windows, next);
    if selected.Some? {
      assert IsFirstMatch(s.windows, selected.value, next);
    }
  }

  predicate IsFirstMatch(ws: seq<Window>, j: nat, t: int) {
    j < |ws| && Matches(ws[j], t) && forall i: nat :: i < j ==> !Matches(ws[i], t)
  }

  /** Without windows in force at the transition it is right, and without a schedule always. */
  lemma AnnouncementWithoutSchedule(s: Settings, now: int)
    ensures !s.enabled || s.windows == [] ==> AnnouncementIsRight(s, now)
  {
  }

  /**
    With no window in force the announcement is right if and only if the announced window runs on the
    weekday of the transition, or what is in force there instead happens to have the same mode.
   */
  lemma AnnouncementOfNextWindowIsRightIff(s: Settings, now: int)
    requires s.enabled && Selected(s.windows, now).None? && s.windows != []
    ensures var next := Transition(s, now);
            var w := s.windows[Soonest(s.windows, now).value];
            AnnouncementIsRight(s, now) <==>
            Runs(w, DayOf(next) % 7)
            || w.profile.mode == (if forall j: nat :: j < |s.windows| ==> !StartsAt(s.windows[j], now, next)
                                  then s.defaultProfile.mode else FirstStarting(s, now, next).mode)
  {
    hide Matches, NextStart;
    AnnouncedWindowIsNext(s, now);
    TransitionIsWithinADay(s, now);
    var next := Transition(s, now);
    forall j: nat | j < |s.windows| ensures Matches(s.windows[j], next) <==> StartsAt(s.windows[j], now, next) {
      assert !Matches(s.windows[j], now);
      MatchesAtTransition(s.windows[j], now, next);
    }
    StartingIsSelected(s, now, next, 0);
  }

  /** A window runs on that weekday and its start time comes round then. */
  predicate StartsAt(w: Window, now: int, next: int) {
    Runs(w, DayOf(next) % 7) && NextStart(w, now) == next
  }

  /** The profile of the first window from `k` on that starts then. */
  function FirstStartingFrom(s: Settings, k: nat, now: int, next: int): Profile
    requires k <= |s.windows|
    decreases |s.windows| - k
  {
    if k == |s.windows| then s.defaultProfile
    else if StartsAt(s.windows[k], now, next) then s.windows[k].profile
    else FirstStartingFrom(s, k + 1, now, next)
  }

  function FirstStarting(s: Settings, now: int, next: int): Profile {
    FirstStartingFrom(s, 0, now, next)
  }

  lemma {:induction false} StartingIsSelected(s: Settings, now: int, next: int, k: nat)
    requires k <= |s.windows|
    requires forall j: nat :: j < |s.windows| ==> (Matches(s.windows[j], next) <==> StartsAt(s.windows[j], now, next))
    ensures var selected := SelectedFrom(s.windows, k, next);
            FirstStartingFrom(s, k, now, next) ==
            if selected.Some? then s.windows[selected.value].profile else s.defaultProfile
    decreases |s.windows| - k
  {
    hide Matches, StartsAt;
    if k == |s.windows| {
    } else {
      StartingIsSelected(s, now, next, k + 1);
    }
  }

  const MORNING := Window("sáng", [], "07:00", "12:00", Profile(Realtime, 5, 15))
  const AFTERNOON := Window("chiều", [], "12:00", "18:00", Profile(Realtime, 5, 15))
  const SHIFTS := Settings(true, ZONE, Profile(Paused, 0, 0), [MORNING, AFTERNOON])

  /** With a window in force the default mode is announced, even when another window follows on. */
  lemma AnnouncementIgnoresTheNextWindow()
    ensures var now := 600 * MINUTE;
            Transition(SHIFTS, now) == 720 * MINUTE
            && Announced(SHIFTS, now) == Paused
            && Active(SHIFTS, Transition(SHIFTS, now)).mode == Realtime
  {
    hide Matches;
    var now, next := 600 * MINUTE, 720 * MINUTE;
    assert Matches(MORNING, now) by { ShiftTimes(); MatchesAt(MORNING, 600); }
    assert !Matches(MORNING, next) && Matches(AFTERNOON, next) by {
      ShiftTimes();
      MatchesAt(MORNING, 720);
      MatchesAt(AFTERNOON, 720);
    }
    SelectedStep([MORNING, AFTERNOON], 0, next);
    SelectedStep([MORNING, AFTERNOON], 1, next);
    assert Selected([MORNING, AFTERNOON], now) == Some(0);
    assert Selected([MORNING, AFTERNOON], next) == Some(1);
    ShiftTimes();
  }

  lemma ShiftTimes()
    ensures Minutes("07:00") == 420 && Minutes("12:00") == 720 && Minutes("18:00") == 1080
  {
  }

  lemma MatchesAt(w: Window, minute: nat)
    requires w.daysOfWeek == [] && minute < 1440
    requires Minutes(w.startTime) < Minutes(w.endTime)
    ensures Matches(w, minute * MINUTE) <==> Minutes(w.startTime) <= minute < Minutes(w.endTime)
  {
    DayOfAt(0, minute);
  }

  // ---------- validation ----------

  datatype Problem =
    | Timezone | DefaultProfile
    | TimesRequired(index: nat) | StartFormat(index: nat) | EndFormat(index: nat)
    | TimesEqual(index: nat) | BadDay(index: nat) | BadProfile(index: nat)

  predicate ValidProfile(p: Profile) {
    match p.mode
    case Realtime => 5 <= p.minSeconds <= p.maxSeconds <= 300
    case KeepaliveOnly => 60 <= p.minSeconds <= p.maxSeconds <= 1800
    case Paused => true
    case Unknown(_) => false
  }

  predicate ValidDays(days: seq<int>) {
    forall k :: 0 <= k < |days| ==> 0 <= days[k] <= 6
  }

  predicate ValidWindow(w: Window) {
    && ParseClock(w.startTime).Some? && ParseClock(w.endTime).Some?
    && w.startTime != w.endTime
    && ValidDays(w.daysOfWeek) && ValidProfile(w.profile)
  }

  /** The zone in use; an empty one is replaced by the default. */
  function ZoneOf(s: Settings): string {
    if s.timezone == "" then ZONE else s.timezone
  }

  /** Whether `problem` is what is wrong with the settings. */
  predicate Explains(s: Settings, known: string -> bool, problem: Problem) {
    if problem.Timezone? then !known(ZoneOf(s))
    else if problem.DefaultProfile? then !ValidProfile(s.defaultProfile)
    else
      problem.index < |s.windows| &&
      var w := s.windows[problem.index];
      match problem
      case TimesRequired(_) => w.startTime == "" || w.endTime == ""
      case StartFormat(_) => ParseClock(w.startTime).None?
      case EndFormat(_) => ParseClock(w.endTime).None?
      case TimesEqual(_) => w.startTime == w.endTime
      case BadDay(_) => !ValidDays(w.daysOfWeek)
      case BadProfile(_) => !ValidProfile(w.profile)
      case _ => false
  }

  /** The limits of each mode, checked one by one. */
  method ValidateProfile(p: Profile) returns (ok: bool)
    ensures ok == ValidProfile(p)
    ensures ok <==> match p.mode
                    case Realtime => p.minSeconds >= 5 && p.maxSeconds <= 300 && p.minSeconds <= p.maxSeconds
                    case KeepaliveOnly => p.minSeconds >= 60 && p.maxSeconds <= 1800 && p.minSeconds <= p.maxSeconds
                    case Paused => true
                    case Unknown(_) => false
  {
    match p.mode {
      case Realtime =>
        return !(p.minSeconds < 5) && !(p.maxSeconds > 300) && !(p.maxSeconds < p.minSeconds);
      case KeepaliveOnly =>
        return !(p.minSeconds < 60) && !(p.maxSeconds > 1800) && !(p.maxSeconds < p.minSeconds);
      case Paused => return true;
      case Unknown(_) => return false;
    }
  }

  /** `known` says which zones the time zone database has. */
  method Validate(s: Settings, known: string -> bool) returns (problem: Option<Problem>, settled: Settings)
    ensures settled == s.(timezone := ZoneOf(s))
    ensures settled.timezone == if s.timezone == "" then "Asia/Ho_Chi_Minh" else s.timezone
    ensures problem.None? <==>
            known(ZoneOf(s)) && ValidProfile(s.defaultProfile) && forall w <- s.windows :: ValidWindow(w)
    ensures problem.None? ==>
              forall w <- s.windows ::
                && ParseClock(w.startTime).Some? && ParseClock(w.endTime).Some? && w.startTime != w.endTime
                && (forall k :: 0 <= k < |w.daysOfWeek| ==> 0 <= w.daysOfWeek[k] <= 6) && ValidProfile(w.profile)
    // the problem reported is real, and nothing checked before it has one
    ensures problem.Some? ==> Explains(s, known, problem.value)
    ensures problem.Some? && problem.value != Timezone ==> known(ZoneOf(s))
    ensures problem.Some? && !problem.value.Timezone? && !problem.value.DefaultProfile? ==>
              ValidProfile(s.defaultProfile) && forall j :: 0 <= j < problem.value.index ==> ValidWindow(s.windows[j])
  {
    hide ParseClock, ValidProfile;
    settled := s;
    if s.timezone == "" {
      settled := s.(timezone := ZONE);
    }
    if !known(settled.timezone) {
      return Some(Timezone), settled;
    }
    var defaultOk := ValidateProfile(s.defaultProfile);
    if !defaultOk {
      return Some(DefaultProfile), settled;
    }
    for i := 0 to |s.windows|
      invariant forall j :: 0 <= j < i ==> ValidWindow(s.windows[j])
    {
      var w := s.windows[i];
      assert w in s.windows;
      if w.startTime == "" || w.endTime == "" {
        EmptyIsNoClock();
        return Some(TimesRequired(i)), settled;
      }
      if ParseClock(w.startTime).None? {
        return Some(StartFormat(i)), settled;
      }
      if ParseClock(w.endTime).None? {
        return Some(EndFormat(i)), settled;
      }
      if w.startTime == w.endTime {
        return Some(TimesEqual(i)), settled;
      }
      for j := 0 to |w.daysOfWeek|
        invariant forall k :: 0 <= k < j ==> 0 <= w.daysOfWeek[k] <= 6
      {
        if w.daysOfWeek[j] < 0 || w.daysOfWeek[j] > 6 {
          return Some(BadDay(i)), settled;
        }
      }
      var profileOk := ValidateProfile(w.profile);
      if !profileOk {
        return Some(BadProfile(i)), settled;
      }
    }
    return None, settled;
  }

  lemma EmptyIsNoClock()
    ensures ParseClock("").None?
  {
  }

  /** Validated settings poll at the configured rate, within 5 seconds and half an hour, or pause. */
  lemma ValidIntervals(s: Settings, now: int)
    requires ValidProfile(s.defaultProfile) && forall w <- s.windows :: ValidWindow(w)
    ensures var p := Active(s, now);
            p.mode == Paused ||
            (Intervals(p) == (p.minSeconds * SECOND, p.maxSeconds * SECOND)
             && 5 * SECOND <= Intervals(p).0 <= Intervals(p).1 <= 1800 * SECOND)
  {
    hide Matches, ParseClock;
    var selected := Selected(s.windows, now);
    if s.enabled && selected.Some? {
      assert s.windows[selected.value] in s.windows;
    }
  }

  /**
    A window that runs on every day is in force at all times if and only if it starts and ends at the
    same minute.
   */
  lemma AlwaysInForceIff(w: Window)
    requires forall weekday :: 0 <= weekday < 7 ==> Runs(w, weekday)
    ensures (forall t: int :: Matches(w, t)) <==> Minutes(w.startTime) == Minutes(w.endTime)
  {
    hide DayOf, MinuteOf, Minutes, Runs;
    var start, end := Minutes(w.startTime), Minutes(w.endTime);
    forall t: int | start == end ensures Matches(w, t) {
      EveryWeekdayRuns(w, t);
    }
    if start != end {
      DayOfAt(0, end);
      assert !Matches(w, At(0, end));
    }
  }

  lemma EveryWeekdayRuns(w: Window, t: int)
    requires forall weekday :: 0 <= weekday < 7 ==> Runs(w, weekday)
    ensures Runs(w, DayOf(t) % 7) && Runs(w, (DayOf(t) % 7 + 6) % 7)
  {
  }

  /** Valid windows have different texts for their times; two texts are one time only by a leading zero. */
  lemma SpellingsOfOneTime(w: Window)
    requires ValidWindow(w)
    ensures Minutes(w.startTime) == Minutes(w.endTime) <==>
            w.startTime == "0" + w.endTime || w.endTime == "0" + w.startTime
  {
    OneTime(w.startTime, w.endTime);
  }

  lemma OneTime(a: string, b: string)
    requires ParseClock(a).Some? && ParseClock(b).Some?
    ensures Minutes(a) == Minutes(b) <==> a == b || a == "0" + b || b == "0" + a
  {
    if |a| == 4 {
      LeadingZero(a);
      if |b| == 4 {
        LeadingZero(b);
        SameLength("0" + a, "0" + b);
        assert a == ("0" + a)[1..] && b == ("0" + b)[1..];
      } else {
        SameLength("0" + a, b);
      }
    } else if |b| == 4 {
      LeadingZero(b);
      SameLength(a, "0" + b);
    } else {
      SameLength(a, b);
    }
  }

  lemma LeadingZero(a: string)
    requires |a| == 4 && ParseClock(a).Some?
    ensures ParseClock("0" + a) == ParseClock(a)
  {
    var b := "0" + a;
    assert b[0] == '0' && b[1] == a[0] && b[2] == a[1] && b[3] == a[2] && b[4] == a[3];
  }

  lemma SameLength(a: string, b: string)
    requires |a| == |b| == 5 && ParseClock(a).Some? && ParseClock(b).Some?
    ensures ParseClock(a) == ParseClock(b) <==> a == b
  {
    if ParseClock(a) == ParseClock(b) {
      TwoDigits(Numeral(a[0]), Numeral(a[1]), Numeral(b[0]), Numeral(b[1]));
      TwoDigits(Numeral(a[3]), Numeral(a[4]), Numeral(b[3]), Numeral(b[4]));
      assert a[0] == b[0] && a[1] == b[1] && a[2] == b[2] && a[3] == b[3] && a[4] == b[4];
    }
  }

  lemma TwoDigits(x: int, y: int, u: int, v: int)
    requires 0 <= x < 10 && 0 <= y < 10 && 0 <= u < 10 && 0 <= v < 10
    ensures 10 * x + y == 10 * u + v <==> x == u && y == v
  {
  }

  // ---------- what a resolved schedule says ----------

  /**
    Polling as the profile says: five seconds at least if it says nothing, the longest wait no shorter
    than the shortest.
   */
  predicate Follows(r: Resolved, p: Profile, name: string) {
    && r.mode == p.mode && r.activeWindow == name
    && r.minInterval == (if p.minSeconds <= 0 then 5 * SECOND else p.minSeconds * SECOND)
    && r.maxInterval == (if p.maxSeconds * SECOND < r.minInterval then r.minInterval else p.maxSeconds * SECOND)
  }

  /** The first window in force decides, up to the instant at which the clock shows its end. */
  ghost predicate InWindow(s: Settings, now: int, r: Resolved, j: nat) {
    && IsFirstMatch(s.windows, j, now)
    && var w := s.windows[j];
    && Follows(r, w.profile, w.name)
    && r.nextTransition.Some? && FirstInstant(now, Minutes(w.endTime), r.nextTransition.value)
    && r.nextMode == Some(s.defaultProfile.mode)
  }

  /** The clock comes to the start of window `k` before, or for a later one not after, that of any other. */
  ghost predicate ComesFirst(s: Settings, now: int, k: nat, t: int) {
    && k < |s.windows| && FirstInstant(now, Minutes(s.windows[k].startTime), t)
    && forall j: nat, u: int :: j < |s.windows| && now < u && Shows(u, Minutes(s.windows[j].startTime)) ==>
         t < u || (t == u && k <= j)
  }

  /** No window is in force: the default profile, up to the next start of any window. */
  ghost predicate Outside(s: Settings, now: int, r: Resolved) {
    && (forall j: nat :: j < |s.windows| ==> !Matches(s.windows[j], now))
    && Follows(r, s.defaultProfile, "Mặc định (Ngoài khung giờ)")
    && r.nextTransition.Some?
    && if s.windows == []
       then r.nextTransition.value == now + 24 * 60 * MINUTE && r.nextMode == Some(s.defaultProfile.mode)
       else exists k: nat ::
              ComesFirst(s, now, k, r.nextTransition.value) && r.nextMode == Some(s.windows[k].profile.mode)
  }

  lemma SoonestComesFirst(s: Settings, now: int, k: nat)
    requires Soonest(s.windows, now) == Some(k) && k < |s.windows|
    ensures ComesFirst(s, now, k, NextStart(s.windows[k], now))
  {
    hide NextAt, Minutes, Matches;
    var t := NextStart(s.windows[k], now);
    NextAtIsFirst(now, Minutes(s.windows[k].startTime));
    forall j: nat, u: int | j < |s.windows| && now < u && Shows(u, Minutes(s.windows[j].startTime))
      ensures t < u || (t == u && k <= j)
    {
      NextAtIsFirst(now, Minutes(s.windows[j].startTime));
      assert NextStart(s.windows[j], now) <= u;
    }
  }

  lemma ResolvedInWindow(s: Settings, now: int, r: Resolved, j: nat)
    requires s.enabled && Selected(s.windows, now) == Some(j) && j < |s.windows|
    requires Follows(r, s.windows[j].profile, s.windows[j].name) && r.nextMode == Some(s.defaultProfile.mode)
    requires r.nextTransition == Some(NextAt(now, Minutes(s.windows[j].endTime)))
    ensures InWindow(s, now, r, j)
  {
    hide NextAt, Minutes, Matches;
    NextAtIsFirst(now, Minutes(s.windows[j].endTime));
  }

  lemma ResolvedOutside(s: Settings, now: int, r: Resolved)
    requires s.enabled && Selected(s.windows, now).None? && Follows(r, s.defaultProfile, OUTSIDE)
    requires r.nextTransition == Some(Transition(s, now)) && r.nextMode == Some(Announced(s, now))
    ensures Outside(s, now, r)
  {
    hide NextAt, Minutes, Matches, ComesFirst, NextStart;
    if s.windows != [] {
      SoonestComesFirst(s, now, Soonest(s.windows, now).value);
    }
  }

  // ---------- the code ----------

  /** Whether one of the days is `weekday`, or none is listed. */
  method DayMatch(days: seq<int>, weekday: int) returns (dayMatch: bool)
    ensures dayMatch <==> days == [] || weekday in days
  {
    dayMatch := |days| == 0;
    for i := 0 to |days|
      invariant dayMatch <==> days == [] || weekday in days[..i]
    {
      if days[i] == weekday {
        dayMatch := true;
        break;
      }
    }
  }

  method ResolveSchedule(now: int, settings: Option<Settings>) returns (r: Resolved)
    ensures settings.None? ==> r == Resolved(Realtime, 5 * SECOND, 15 * SECOND, "", None, None)
    ensures settings.Some? ==>
              var s := settings.value;
              r.mode == Active(s, now).mode
              && (r.minInterval, r.maxInterval) == Intervals(Active(s, now))
              && r.activeWindow == ActiveName(s, now)
              && r.nextTransition == Some(Transition(s, now))
              && r.nextMode == Some(Announced(s, now))
    // said of the windows themselves
    ensures settings.Some? && !settings.value.enabled ==>
              r == Resolved(Realtime, 5 * SECOND, 15 * SECOND, "Cấu hình mặc định (Realtime liên tục)",
                            Some(now + 24 * 60 * MINUTE), Some(Realtime))
    ensures settings.Some? && settings.value.enabled ==>
              Outside(settings.value, now, r) || exists j: nat :: InWindow(settings.value, now, r, j)
  {
    hide Minutes, MinuteOf, DayOf, At, Outside, InWindow;
    if settings.None? {
      return Resolved(Realtime, 5 * SECOND, 15 * SECOND, "", None, None);
    }
    var s := settings.value;
    if !s.enabled {
      return Resolved(Realtime, 5 * SECOND, 15 * SECOND, ALWAYS, Some(now + DAY), Some(Realtime));
    }
    var matched := MatchWindow(now, s.windows);
    var profile, name := s.defaultProfile, OUTSIDE;
    if matched.Some? {
      profile, name := s.windows[matched.value].profile, s.windows[matched.value].name;
    }
    var nextTransition, nextMode := now + DAY, s.defaultProfile.mode;
    if matched.Some? {
      var endToday := At(DayOf(now), Minutes(s.windows[matched.value].endTime));
      nextTransition := if endToday > now then endToday else endToday + DAY;
    } else {
      var soonest: Option<int>;
      soonest, nextMode := SoonestStart(now, s.windows, nextMode);
      if soonest.Some? {
        nextTransition := soonest.value;
      }
    }
    var minDur := profile.minSeconds * SECOND;
    var maxDur := profile.maxSeconds * SECOND;
    if minDur <= 0 {
      minDur := 5 * SECOND;
    }
    if maxDur < minDur {
      maxDur := minDur;
    }
    r := Resolved(profile.mode, minDur, maxDur, name, Some(nextTransition), Some(nextMode));
    if matched.Some? {
      ResolvedInWindow(s, now, r, matched.value);
    } else {
      ResolvedOutside(s, now, r);
    }
  }

  method MatchWindow(now: int, windows: seq<Window>) returns (matched: Option<nat>)
    ensures matched == Selected(windows, now)
  {
    hide Minutes, MinuteOf, DayOf, SelectedFrom;
    var nowMinutes, nowWeekday := MinuteOf(now), DayOf(now) % 7;
    matched := None;
    var i := 0;
    while i < |windows|
      invariant i <= |windows| && matched.None?
      invariant Selected(windows, now) == SelectedFrom(windows, i, now)
    {
      var w := windows[i];
      var startMin, endMin := Minutes(w.startTime), Minutes(w.endTime);
      var isMatch := false;
      if startMin < endMin {
        var dayMatch := DayMatch(w.daysOfWeek, nowWeekday);
        if dayMatch && nowMinutes >= startMin && nowMinutes < endMin {
          isMatch := true;
        }
      } else {
        var yesterdayWeekday := (nowWeekday + 6) % 7;
        var dayMatchEvening := DayMatch(w.daysOfWeek, nowWeekday);
        var dayMatchMorning := DayMatch(w.daysOfWeek, yesterdayWeekday);
        if (dayMatchEvening && nowMinutes >= startMin) || (dayMatchMorning && nowMinutes < endMin) {
          isMatch := true;
        }
      }
      assert isMatch == Matches(w, now);
      SelectedStep(windows, i, now);
      if isMatch {
        return Some(i);
      }
      i := i + 1;
    }
    SelectedStep(windows, i, now);
  }

  lemma SelectedStep(ws: seq<Window>, k: nat, t: int)
    requires k <= |ws|
    ensures SelectedFrom(ws, k, t) ==
            if k == |ws| then None else if Matches(ws[k], t) then Some(k) else SelectedFrom(ws, k + 1, t)
  {
  }

  method SoonestStart(now: int, windows: seq<Window>, mode: PollMode) returns (soonest: Option<int>, nextMode: PollMode)
    ensures var k := Soonest(windows, now);
            if k.None? then soonest == None && nextMode == mode
            else soonest == Some(NextStart(windows[k.value], now)) && nextMode == windows[k.value].profile.mode
  {
    hide Minutes, DayOf, At;
    soonest, nextMode := None, mode;
    for i := 0 to |windows|
      invariant var k := SoonestOf(windows, i, now);
                if k.None? then soonest == None && nextMode == mode
                else soonest == Some(NextStart(windows[k.value], now)) && nextMode == windows[k.value].profile.mode
    {
      var w := windows[i];
      var candidate := At(DayOf(now), Minutes(w.startTime));
      if candidate <= now {
        candidate := candidate + DAY;
      }
      if soonest.None? || candidate < soonest.value {
        soonest := Some(candidate);
        nextMode := w.profile.mode;
      }
    }
  }
}
