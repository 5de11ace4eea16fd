/**
  Catching up after a pause: day by day, with a checkpoint that moves only over days whose history is in.

  Days and instants are integers (local days, nanoseconds of local time); comparing day texts as the
  code does is comparing these numbers. The outcome of every call into the bank and of every statement
  that can fail is a parameter, and a run may be cut off before any day.
 */
module CatchUp {
  import opened Prelude
  import opened HistoryFetch

  const SECOND := 1_000_000_000
  const HOUR := 3600 * SECOND
  const DAY := 24 * HOUR

  datatype Sync = Sync(at: int, rows: nat)
  datatype Checkpoint = Checkpoint(from: int, to: int)

  /** A complete fetch of `day` was ingested; `at` is the clock when that was recorded. */
  datatype Completed = Completed(day: int, at: int)

  /** Why a day counts as done: fetched by the run, or covered by an earlier sync when checked. */
  datatype Handled = Fetched(at: int) | Covered(at: int, checked: int)

  function DayOf(t: int): int {
    t / DAY
  }

  function EndOf(day: int): int {
    (day + 1) * DAY
  }

  /** The day of a moment is over from that moment on. */
  lemma EndOfIs(day: int, t: int)
    ensures DayOf(t) <= day <==> t < EndOf(day)
    ensures DayOf(t) == day <==> 0 <= t - day * 24 * HOUR < 24 * HOUR
  {
  }

  // ---------- how long a sync counts ----------

  function TimeToLive(day: int, today: int): int {
    if day == today then 30 * SECOND else if day == today - 1 then 2 * HOUR else 24 * HOUR
  }

  predicate Fresh(day: int, at: int, now: int) {
    now - at <= TimeToLive(day, DayOf(now))
  }

  /** Whether every sync that still counts for `day` was made after that day had ended. */
  ghost predicate FreshMeansSettled(day: int, now: int) {
    forall at :: Fresh(day, at, now) ==> at >= EndOf(day)
  }

  /**
    For a day that is over, that is so exactly when it is not yesterday or yesterday ended two hours
    ago: in the first two hours of a day, a sync made late yesterday evening still counts, although
    it cannot have seen the rest of the evening.
   */
  lemma FreshMeansSettledIff(day: int, now: int)
    requires day < DayOf(now)
    ensures FreshMeansSettled(day, now) <==> day != DayOf(now) - 1 || now >= EndOf(day) + 2 * HOUR
  {
    var today := DayOf(now);
    assert today * DAY <= now < today * DAY + DAY;
    if day == today - 1 {
      assert Fresh(day, now - 2 * HOUR, now);
    } else {
      assert EndOf(day) <= (today - 1) * DAY;
    }
  }

  /** So what a run has handled is settled, but for yesterday in those two hours. */
  lemma HandledIsSettled(day: int, h: Handled, now: int)
    requires day < DayOf(now)
    requires match h
             case Fetched(at) => at >= now
             case Covered(at, checked) => checked >= now && Fresh(day, at, checked)
    ensures h.at >= EndOf(day) || (h.Covered? && day == DayOf(h.checked) - 1 && h.checked < EndOf(day) + 2 * HOUR)
  {
    match h {
      case Fetched(at) =>
        assert EndOf(day) <= DayOf(now) * DAY <= now;
      case Covered(at, checked) =>
        assert DayOf(checked) >= DayOf(now);
        FreshMeansSettledIff(day, checked);
    }
  }

  // ---------- the monitor ----------

  /** What happens while one day is handled. */
  datatype DayRun = DayRun(
    checkedAt: int, checkFails: bool,   // the coverage check
    bank: Bank, formFound: bool,        // the fetch
    ingested: bool, at: int,            // the ingest, and the clock after it
    recordOk: bool, saveOk: bool)       // recording coverage, saving the checkpoint

  datatype Run = Run(now: int, monitoring: bool, bankReady: bool, script: seq<DayRun>)

  /** The clock does not go back during the run. */
  ghost predicate WellTimed(run: Run) {
    forall k :: 0 <= k < |run.script| ==> run.now <= run.script[k].checkedAt && run.now <= run.script[k].at
  }

  /** No attempt to save the checkpoint fails. */
  ghost predicate SavesAll(run: Run) {
    forall k :: 0 <= k < |run.script| ==> run.script[k].saveOk
  }

  lemma SavesEach(run: Run, k: nat)
    requires k < |run.script|
    ensures SavesAll(run) ==> run.script[k].saveOk
  {
  }

  /** A request for the days `from` to `to`; `rowsOn` counts the rows fetched for a day. */
  datatype RangeRequest = RangeRequest(
    now: int, from: int, to: int, monitoring: bool, bankReady: bool, d: DayRun, rowsOn: int -> nat)

  datatype Activity = CatchingUp(run: Run) | Looking(request: RangeRequest)

  datatype Outcome =
    | NotMonitoring | Unavailable | CutOff
    | FetchFailed(day: int) | IngestFailed(day: int) | Incomplete(day: int)
    | Done

  const CLAMP := 7
  const PAGES := 20
  const RANGE := 31
  const RANGE_PAGES := 10

  function Yesterday(now: int): int {
    DayOf(now) - 1
  }

  /** The first day of a run. */
  function StartDay(checkpoint: Option<Checkpoint>, now: int): int {
    var wanted := if checkpoint.Some? then checkpoint.value.to else Yesterday(now);
    var clamped := if wanted < DayOf(now) - CLAMP then DayOf(now) - CLAMP else wanted;
    if clamped > DayOf(now) then DayOf(now) else clamped
  }

  /** Whether a run starting now leaves no day between the checkpoint and its first day. */
  predicate Continues(checkpoint: Option<Checkpoint>, now: int) {
    checkpoint.Some? && checkpoint.value.to >= DayOf(now) - CLAMP
  }

  ghost predicate Returned(bank: Bank, maxPages: int, r: FetchResult) {
    if r.failure.None? then Finished(bank, Initial(maxPages), r) else Failed(bank, Initial(maxPages), r)
  }

  /** The day's history was fetched to the end and ingested. */
  ghost predicate Complete(d: DayRun) {
    d.formFound && d.ingested && exists r: FetchResult :: r.complete && Finished(d.bank, Initial(PAGES), r)
  }

  /** The run, which started at day `from`, handled the day: fetched it completely or found it covered. */
  ghost predicate Recent(handled: map<int, Handled>, run: Run, from: int, day: int) {
    from <= day && day in handled &&
    match handled[day]
    case Fetched(at) => at >= run.now && day - from < |run.script| && Complete(run.script[day - from])
    case Covered(at, checked) => checked >= run.now && day < DayOf(run.now)
  }

  ghost predicate RecentlyHandled(handled: map<int, Handled>, run: Run, from: int, to: int) {
    forall day :: from <= day <= to ==> Recent(handled, run, from, day)
  }

  predicate Justified(log: set<Completed>, day: int, h: Handled) {
    Completed(day, h.at) in log && (h.Covered? ==> Fresh(day, h.at, h.checked))
  }

  /**
    After a run that got through, every day it covered that is over has been fetched completely after
    its end, except that yesterday need not have been when the run began before two in the morning.
   */
  lemma RunSettlesDays(log: set<Completed>, handled: map<int, Handled>, run: Run, from: int, day: int)
    requires RecentlyHandled(handled, run, from, DayOf(run.now))
    requires forall x <- handled :: Justified(log, x, handled[x])
    requires from <= day < DayOf(run.now)
    requires day < DayOf(run.now) - 1 || run.now >= EndOf(day) + 2 * HOUR
    ensures exists at :: at >= EndOf(day) && Completed(day, at) in log
  {
    assert Recent(handled, run, from, day);
    HandledIsSettled(day, handled[day], run.now);
    assert Completed(day, handled[day].at) in log;
  }

  lemma NoneHandled(handled: map<int, Handled>, run: Run, from: int)
    ensures RecentlyHandled(handled, run, from, from - 1)
  {
  }

  lemma FewerHandled(handled: map<int, Handled>, run: Run, from: int, to: int, fewer: int)
    requires RecentlyHandled(handled, run, from, to) && fewer <= to
    ensures RecentlyHandled(handled, run, from, fewer)
  {
  }

  lemma RecentIsHandled(handled: map<int, Handled>, run: Run, from: int, to: int)
    requires RecentlyHandled(handled, run, from, to)
    ensures forall day :: from <= day <= to ==> day in handled
    ensures from <= DayOf(run.now) <= to ==> handled[DayOf(run.now)].Fetched?
  {
    forall day | from <= day <= to ensures day in handled {
      assert Recent(handled, run, from, day);
    }
    assert from <= DayOf(run.now) <= to ==> Recent(handled, run, from, DayOf(run.now));
  }

  predicate PassedOver(d: DayRun, day: int, today: int, coverage: map<int, Sync>) {
    day < today && !d.checkFails && day in coverage && Fresh(day, coverage[day].at, d.checkedAt)
  }

  lemma DayIsRecent(handled: map<int, Handled>, coverage: map<int, Sync>, run: Run, from: int, day: int)
    requires WellTimed(run) && from <= day && day - from < |run.script| && day in handled
    requires var d := run.script[day - from];
             if PassedOver(d, day, DayOf(run.now), coverage)
             then handled[day] == Covered(coverage[day].at, d.checkedAt)
             else Complete(d) && handled[day] == Fetched(d.at)
    ensures Recent(handled, run, from, day)
  {
    hide Complete, Fresh;
  }

  lemma RecentlyGrows(before: map<int, Handled>, handled: map<int, Handled>, run: Run, from: int, day: int)
    requires RecentlyHandled(before, run, from, day - 1)
    requires day in handled && handled == before[day := handled[day]] && Recent(handled, run, from, day)
    ensures RecentlyHandled(handled, run, from, day)
  {
    hide Complete;
    forall x | from <= x <= day ensures Recent(handled, run, from, x) {
      if x < day {
        assert Recent(before, run, from, x);
      }
    }
  }

  /** The coverage after a sync of some days, given with their row counts. */
  function Recorded(coverage: map<int, Sync>, dayRows: seq<(int, nat)>, at: int): map<int, Sync> {
    if dayRows == [] then coverage
    else
      var last := |dayRows| - 1;
      Recorded(coverage, dayRows[..last], at)[dayRows[last].0 := Sync(at, dayRows[last].1)]
  }

  /** Those days are covered as of `at`, the others as before. */
  lemma {:induction false} RecordedCovers(coverage: map<int, Sync>, dayRows: seq<(int, nat)>, at: int, day: int)
    ensures var after := Recorded(coverage, dayRows, at);
            if exists k :: 0 <= k < |dayRows| && dayRows[k].0 == day then
              day in after && after[day].at == at
              && exists k :: 0 <= k < |dayRows| && dayRows[k].0 == day && dayRows[k].1 == after[day].rows
            else (day in after <==> day in coverage) && (day in after ==> after[day] == coverage[day])
    decreases |dayRows|
  {
    if dayRows == [] {
    } else {
      var last := |dayRows| - 1;
      RecordedCovers(coverage, dayRows[..last], at, day);
    }
  }

  ghost predicate RangeCovered(before: map<int, Sync>, after: map<int, Sync>, from: int, to: int, at: int) {
    && (forall day <- before :: day in after)
    && (forall day :: from <= day <= to ==> day in after && after[day].at == at)
    && (forall day <- after :: from <= day <= to || (day in before && after[day] == before[day]))
  }

  ghost predicate RangeCounts(counts: seq<(int, nat)>, from: int, to: int) {
    && |counts| == to - from + 1
    && forall k :: 0 <= k < |counts| ==> counts[k].0 == from + k
  }

  lemma RangeRecorded(coverage: map<int, Sync>, counts: seq<(int, nat)>, from: int, to: int, at: int)
    requires from <= to && RangeCounts(counts, from, to)
    ensures RangeCovered(coverage, Recorded(coverage, counts, at), from, to, at)
    ensures forall day :: from <= day <= to ==> Recorded(coverage, counts, at)[day] == Sync(at, counts[day - from].1)
  {
    hide Recorded;
    var after := Recorded(coverage, counts, at);
    forall day: int
      ensures if from <= day <= to then day in after && after[day] == Sync(at, counts[day - from].1)
              else (day in after <==> day in coverage) && (day in after ==> after[day] == coverage[day])
    {
      if from <= day <= to {
        assert counts[day - from].0 == day;
      }
      RecordedCovers(coverage, counts, at, day);
    }
  }

  /** Every day of the range was just synced or has a sync that still counts. */
  ghost predicate RangeIsIn(coverage: map<int, Sync>, r: RangeRequest) {
    forall day :: r.from <= day <= r.to ==>
      day in coverage &&
      (coverage[day].at == r.d.at || Fresh(day, coverage[day].at, r.now) || Fresh(day, coverage[day].at, r.d.checkedAt))
  }

  /** Coverage changes only by a fetch that was read to the end and ingested, and only within the range. */
  ghost predicate SyncedOrSame(r: RangeRequest, before: map<int, Sync>, after: map<int, Sync>, ok: bool) {
    after == before ||
    (&& ok && r.d.ingested && (exists f: FetchResult :: f.complete && Finished(r.d.bank, Initial(RANGE_PAGES), f))
     && RangeCovered(before, after, r.from, r.to, r.d.at))
  }

  /** Why a range request may fail: a back-off, the bank, the ingest, the recording, or more rows than pages. */
  ghost predicate Hindered(r: RangeRequest, backoffUntil: int) {
    || r.d.checkedAt < backoffUntil || !r.bankReady || !r.d.ingested || !r.d.recordOk
    || (exists f: FetchResult :: Returned(r.d.bank, RANGE_PAGES, f) && (f.failure.Some? || !f.complete))
  }

  /**
    A run starts at the day the checkpoint reaches, or yesterday without one; at most a week back, never
    after today.
   */
  lemma StartDayIs(checkpoint: Option<Checkpoint>, now: int)
    ensures var today, start := now / DAY, StartDay(checkpoint, now);
            && (checkpoint.None? ==> start == today - 1)
            && (checkpoint.Some? && today - 7 <= checkpoint.value.to <= today ==> start == checkpoint.value.to)
            && (checkpoint.Some? && checkpoint.value.to < today - 7 ==> start == today - 7)
            && (checkpoint.Some? && checkpoint.value.to > today ==> start == today)
  {
  }

  lemma StartBounds(checkpoint: Option<Checkpoint>, now: int)
    ensures StartDay(checkpoint, now) <= DayOf(now)
    ensures Continues(checkpoint, now) ==> StartDay(checkpoint, now) <= checkpoint.value.to
  {
  }

  class Monitor {
    var coverage: map<int, Sync>
    var checkpoint: Option<Checkpoint>
    var catchUpPending: bool
    var backoffUntil: int
    ghost var log: set<Completed>
    ghost var handled: map<int, Handled>
    ghost var since: int // the checkpoint vouches for the days from here on

    /** Every sync on record, and every reason to count a day as done, goes back to a complete fetch. */
    ghost predicate Backed()
      reads this`coverage, this`handled, this`log
    {
      && (forall day <- coverage :: Completed(day, coverage[day].at) in log)
      && (forall day <- handled :: Justified(log, day, handled[day]))
    }

    ghost predicate Valid()
      reads this
    {
      && Backed()
      && (checkpoint.Some? ==> forall day :: since <= day <= checkpoint.value.to ==> day in handled)
    }

    constructor ()
      ensures Valid() && coverage == map[] && checkpoint == None && !catchUpPending && log == {}
    {
      coverage, checkpoint, catchUpPending, backoffUntil := map[], None, false, 0;
      log, handled, since := {}, map[], 0;
    }

    /** Whether every day of the range has a fresh sync; None is the error for an empty range. */
    method CheckRangeCoverage(now: int, from: int, to: int) returns (covered: Option<bool>)
      ensures covered.None? <==> from > to
      ensures covered.Some? ==>
                (covered.value <==>
                 forall day :: from <= day <= to ==> day in coverage && Fresh(day, coverage[day].at, now))
      // a sync counts for thirty seconds, two hours or a day: of today, of yesterday, of any other day
      ensures covered.Some? ==>
                (covered.value <==>
                 forall day :: from <= day <= to ==>
                   day in coverage && now - coverage[day].at <=
                   if day == now / DAY then 30 * SECOND else if day == now / DAY - 1 then 2 * HOUR else 24 * HOUR)
    {
      if from > to {
        return None;
      }
      var today, yesterday := DayOf(now), Yesterday(now);
      var cur := from;
      while cur <= to
        invariant forall day :: from <= day < cur ==> day in coverage && Fresh(day, coverage[day].at, now)
      {
        if cur !in coverage {
          return Some(false);
        }
        var age := now - coverage[cur].at;
        if cur == today {
          if age > 30 * SECOND {
            return Some(false);
          }
        } else if cur == yesterday {
          if age > 2 * HOUR {
            return Some(false);
          }
        } else if age > 24 * HOUR {
          return Some(false);
        }
        cur := cur + 1;
      }
      return Some(true);
    }

    method RecordCoveragePerDay(dayRows: seq<(int, nat)>, at: int)
      modifies this`coverage
      ensures coverage == Recorded(old(coverage), dayRows, at)
    {
      assert dayRows[..0] == [];
      for i := 0 to |dayRows|
        invariant coverage == Recorded(old(coverage), dayRows[..i], at)
      {
        assert dayRows[..i + 1][..i] == dayRows[..i];
        coverage := coverage[dayRows[i].0 := Sync(at, dayRows[i].1)];
      }
      assert dayRows[..|dayRows|] == dayRows;
    }

    method SaveCheckpoint(from: int, to: int)
      modifies this`checkpoint
      ensures checkpoint == Some(Checkpoint(from, to))
    {
      checkpoint := Some(Checkpoint(from, to));
    }

    /** fetchHistoryRange as the monitor calls it: a maintenance page starts the back-off. */
    method Fetch(bank: Bank, formFound: bool, maxPages: int, now: int) returns (r: FetchResult)
      modifies this`backoffUntil
      ensures Returned(bank, maxPages, r) && (r.failure.None? ==> formFound)
      ensures backoffUntil ==
              if r.failure == Some(Stopped(Maintenance)) then now + 60 * SECOND else old(backoffUntil)
    {
      hide Finished, Failed;
      r := FetchHistoryRange(bank, formFound, maxPages);
      if r.failure == Some(Stopped(Maintenance)) {
        backoffUntil := now + 60 * SECOND;
      }
    }

    /**
      One day of a run. `ok` says the day is done; the checkpoint has then moved to it unless saving
      failed. Otherwise neither the checkpoint nor the coverage has moved.
     */
    method HandleDay(d: DayRun, from: int, day: int, today: int)
      returns (ok: bool, saved: bool, outcome: Outcome)
      requires Backed() && from <= day <= today
      modifies this`coverage, this`checkpoint, this`catchUpPending, this`backoffUntil, this`log, this`handled
      ensures Backed() && old(log) <= log
      ensures ok ==> day in handled && handled == old(handled)[day := handled[day]]
      ensures !ok ==> !saved && handled == old(handled) && coverage == old(coverage)
      ensures checkpoint == if saved then Some(Checkpoint(from, day)) else old(checkpoint)
      ensures if ok then outcome == Done && catchUpPending == old(catchUpPending)
              else outcome in {FetchFailed(day), IngestFailed(day), Incomplete(day)} && catchUpPending
      // a past day that is covered is passed over, any other must be fetched to the end and ingested
      ensures PassedOver(d, day, today, old(coverage)) ==>
                ok && handled[day] == Covered(old(coverage)[day].at, d.checkedAt) && log == old(log)
      ensures ok && !PassedOver(d, day, today, old(coverage)) ==>
                Complete(d) && handled[day] == Fetched(d.at) && log == old(log) + {Completed(day, d.at)}
      // the checkpoint moves unless saving fails, the coverage of that day alone unless recording does
      ensures ok ==> (saved <==> d.saveOk)
      ensures ok && !PassedOver(d, day, today, old(coverage)) ==>
                if d.recordOk
                then day in coverage && coverage == old(coverage)[day := coverage[day]] && coverage[day].at == d.at
                else coverage == old(coverage)
      ensures PassedOver(d, day, today, old(coverage)) ==> coverage == old(coverage)
      // and it stops only for what went wrong
      ensures outcome.IngestFailed? ==> !d.ingested
      ensures outcome.FetchFailed? ==> exists r: FetchResult :: r.failure.Some? && Failed(d.bank, Initial(PAGES), r)
      ensures outcome.Incomplete? ==>
                d.ingested && exists r: FetchResult :: !r.complete && Finished(d.bank, Initial(PAGES), r)
    {
      saved, outcome := false, Done;
      if day < today && !d.checkFails {
        var covered := CheckRangeCoverage(d.checkedAt, day, day);
        if covered == Some(true) {
          handled := handled[day := Covered(coverage[day].at, d.checkedAt)];
          if d.saveOk {
            SaveCheckpoint(from, day);
            saved := true;
          }
          return true, saved, Done;
        }
      }
      assert !PassedOver(d, day, today, coverage);
      var r := Fetch(d.bank, d.formFound, PAGES, d.at);
      if r.failure.Some? {
        catchUpPending := true;
        return false, false, FetchFailed(day);
      }
      if !d.ingested {
        catchUpPending := true;
        return false, false, IngestFailed(day);
      }
      if !r.complete {
        catchUpPending := true;
        return false, false, Incomplete(day);
      }
      MarkDone(day, |r.transactions|, d.at, d.recordOk);
      if d.saveOk {
        SaveCheckpoint(from, day);
        saved := true;
      }
      ok := true;
    }

    method MarkDone(day: int, rows: nat, at: int, recordOk: bool)
      requires Backed()
      modifies this`coverage, this`log, this`handled
      ensures Backed() && log == old(log) + {Completed(day, at)} && handled == old(handled)[day := Fetched(at)]
      ensures coverage == if recordOk then old(coverage)[day := Sync(at, rows)] else old(coverage)
    {
      log := log + {Completed(day, at)};
      handled := handled[day := Fetched(at)];
      if recordOk {
        RecordCoveragePerDay([(day, rows)], at);
        assert [(day, rows)][..0] == [];
      }
    }

    /**
      A catch-up run starting at `now`. `saved` is the last day the checkpoint was moved to.
     */
    method CatchUp(run: Run) returns (outcome: Outcome, saved: Option<int>)
      requires Valid() && WellTimed(run)
      modifies this
      ensures Valid() && old(log) <= log
      // wherever the run ended, the checkpoint vouches only for days that are done
      ensures saved.Some? ==>
                var from := StartDay(old(checkpoint), run.now);
                checkpoint == Some(Checkpoint(from, saved.value)) && from <= saved.value <= DayOf(run.now)
                && RecentlyHandled(handled, run, from, saved.value)
      ensures saved.None? ==> checkpoint == old(checkpoint) && since == old(since)
      // and it joins on to what the checkpoint vouched for before, unless the clamp cut it off
      ensures saved.Some? ==>
                since == if Continues(old(checkpoint), run.now) then old(since) else StartDay(old(checkpoint), run.now)
      ensures outcome.Done? ==>
                !catchUpPending
                && RecentlyHandled(handled, run, StartDay(old(checkpoint), run.now), DayOf(run.now))
                && DayOf(run.now) in handled && handled[DayOf(run.now)].Fetched?
      ensures outcome.FetchFailed? || outcome.IngestFailed? || outcome.Incomplete? ==>
                catchUpPending && (saved.Some? ==> saved.value < outcome.day)
      ensures outcome.NotMonitoring? <==> !run.monitoring
      ensures outcome.Unavailable? <==> run.monitoring && !run.bankReady
      ensures outcome.CutOff? ==> |run.script| <= DayOf(run.now) - StartDay(old(checkpoint), run.now)
      ensures outcome.Done? && SavesAll(run) ==> saved == Some(DayOf(run.now))
      ensures outcome.NotMonitoring? || outcome.Unavailable? ==> saved.None? && coverage == old(coverage)
    {
      hide Fresh, Recent, RecentlyHandled, SavesAll, Backed, Justified, PassedOver, Complete, StartDay, DayOf;
      saved := None;
      if !run.monitoring {
        return NotMonitoring, saved;
      }
      var today := DayOf(run.now);
      var from := StartDay(checkpoint, run.now);
      StartBounds(checkpoint, run.now);
      if !run.bankReady {
        return Unavailable, saved;
      }
      ghost var base := if Continues(checkpoint, run.now) then since else from;
      ghost var before := checkpoint;
      NoneHandled(handled, run, from);
      var day, k := from, 0;
      while day <= today
        invariant from <= day <= today + 1 && k == day - from && k <= |run.script|
        invariant Valid() && old(log) <= log
        invariant RecentlyHandled(handled, run, from, day - 1)
        invariant saved.Some? ==> RecentlyHandled(handled, run, from, saved.value)
        invariant forall x <- old(handled) :: x in handled
        invariant saved.Some? ==> checkpoint == Some(Checkpoint(from, saved.value)) && from <= saved.value < day
        invariant if saved.Some? then since == base else checkpoint == before && since == old(since)
        invariant day == from ==> coverage == old(coverage) && saved.None?
        invariant day > from && SavesAll(run) ==> saved == Some(day - 1)
        decreases today - day
      {
        if k == |run.script| {
          return CutOff, saved;
        }
        ghost var handledBefore, coverageBefore := handled, coverage;
        var ok, moved;
        ok, moved, outcome := HandleDay(run.script[k], from, day, today);
        if !ok {
          return outcome, saved;
        }
        DayIsRecent(handled, coverageBefore, run, from, day);
        RecentlyGrows(handledBefore, handled, run, from, day);
        SavesEach(run, k);
        if moved {
          saved := Some(day);
          since := base;
          RecentIsHandled(handled, run, from, day);
        }
        if saved.Some? {
          FewerHandled(handled, run, from, day, saved.value);
        }
        day, k := day + 1, k + 1;
      }
      RecentIsHandled(handled, run, from, today);
      catchUpPending := false;
      outcome := Done;
    }

    /**
      Any number of runs, each ending anywhere, with users looking at ranges of days in between. As long
      as no run that moved the checkpoint had to be clamped, the checkpoint goes on vouching for every
      day from the same first day on.
     */
    method KeepUp(activities: seq<Activity>) returns (clamped: bool)
      requires Valid() && checkpoint.Some?
      requires forall k :: 0 <= k < |activities| && activities[k].CatchingUp? ==> WellTimed(activities[k].run)
      modifies this
      ensures Valid() && checkpoint.Some?
      ensures !clamped ==> since == old(since)
      ensures !clamped ==> forall day :: old(since) <= day <= checkpoint.value.to ==> day in handled
    {
      clamped := false;
      for i := 0 to |activities|
        invariant Valid() && checkpoint.Some?
        invariant !clamped ==> since == old(since)
      {
        match activities[i] {
          case CatchingUp(run) =>
            var continues := Continues(checkpoint, run.now);
            var outcome, saved := CatchUp(run);
            if saved.Some? && !continues {
              clamped := true;
            }
          case Looking(r) =>
            var ok := EnsureHistory(r);
        }
      }
    }

    /**
      A user looks at a range of days: what is not covered is fetched, ingested without notifying
      anybody, and recorded as covered. Returns whether the range is now in.
     */
    method EnsureHistory(r: RangeRequest) returns (ok: bool)
      requires Valid()
      modifies this`coverage, this`backoffUntil, this`log
      ensures Valid() && old(log) <= log
      ensures ok ==> r.from <= r.to <= r.from + RANGE && r.monitoring && RangeIsIn(coverage, r)
      ensures SyncedOrSame(r, old(coverage), coverage, ok)
      // what is covered already is not asked for again, what may not be asked for is refused
      ensures r.from > r.to || r.to - r.from > 31 || !r.monitoring ==> !ok && coverage == old(coverage)
      ensures r.from <= r.to <= r.from + 31 && r.monitoring
              && (forall day ::
                    r.from <= day <= r.to ==> day in old(coverage) && Fresh(day, old(coverage)[day].at, r.now)) ==>
                ok && coverage == old(coverage)
      ensures r.from <= r.to <= r.from + 31 && r.monitoring && !ok ==> Hindered(r, old(backoffUntil))
    {
      if r.from > r.to || r.to - r.from > RANGE || !r.monitoring {
        return false;
      }
      var covered := CheckRangeCoverage(r.now, r.from, r.to);
      if covered == Some(true) {
        return true;
      }
      ok := SyncRange(r);
    }

    /** What one flight for the range does, at the clock `r.d.checkedAt`. */
    method SyncRange(r: RangeRequest) returns (ok: bool)
      requires Valid() && r.from <= r.to
      modifies this`coverage, this`backoffUntil, this`log
      ensures Valid() && old(log) <= log
      ensures ok ==> RangeIsIn(coverage, r)
      ensures SyncedOrSame(r, old(coverage), coverage, ok)
      ensures !ok ==> Hindered(r, old(backoffUntil))
    {
      var d := r.d;
      if !d.checkFails {
        var covered := CheckRangeCoverage(d.checkedAt, r.from, r.to);
        if covered == Some(true) {
          return true;
        }
      }
      if d.checkedAt < backoffUntil || !r.bankReady {
        return false;
      }
      var fetched := Fetch(d.bank, d.formFound, RANGE_PAGES, d.at);
      if fetched.failure.Some? || !d.ingested || !fetched.complete {
        return false;
      }
      CoverRange(r.from, r.to, d.at, r.rowsOn, d.recordOk);
      ok := d.recordOk;
      assert ok ==> forall day :: r.from <= day <= r.to ==> day in coverage && coverage[day].at == d.at;
    }

    method CoverRange(from: int, to: int, at: int, rowsOn: int -> nat, recordOk: bool)
      requires Backed() && from <= to
      modifies this`coverage, this`log
      ensures Backed() && old(log) <= log
      ensures if recordOk then RangeCovered(old(coverage), coverage, from, to, at) else coverage == old(coverage)
      ensures recordOk ==> forall day :: from <= day <= to ==> day in coverage && coverage[day] == Sync(at, rowsOn(day))
    {
      log := log + set day | from <= day <= to :: Completed(day, at);
      if recordOk {
        var dayCounts := DaysWithCounts(from, to, rowsOn);
        RangeRecorded(coverage, dayCounts, from, to, at);
        RecordCoveragePerDay(dayCounts, at);
      }
    }

    static method DaysWithCounts(from: int, to: int, rowsOn: int -> nat) returns (counts: seq<(int, nat)>)
      requires from <= to
      ensures RangeCounts(counts, from, to)
      ensures forall k :: 0 <= k < |counts| ==> counts[k].1 == rowsOn(from + k)
    {
      counts := [];
      for cur := from to to + 1
        invariant |counts| == cur - from
        invariant forall k :: 0 <= k < |counts| ==> counts[k] == (from + k, rowsOn(from + k))
      {
        counts := counts + [(cur, rowsOn(cur))];
      }
    }
  }
}
