/**
  The handler of one event stream, run against the journal and the hub statement by statement.

  Between any two of its atomic steps the other actors do what the next element of `gaps` says; when
  `gaps` is used up the run is cut off there; `leaves` is the gap in which the client goes away, if any.
  Every step is recorded in `trace` and proved to be the
  step of that name of the EventStream state machine, so all that is proved there of runs holds of
  this code.
 */
module StreamHandler {
  import opened Prelude
  import opened Journal
  import opened EventHub
  import opened EventStream
  import Runs

  ghost predicate OthersOnly(gap: seq<Op>) {
    forall op <- gap :: IsEnvironment(op)
  }

  /** Operation `k` of the trace looks at the cursor. */
  ghost predicate LooksAt(trace: seq<Op>, k: nat, cursor: Cursor) {
    k < |trace| && trace[k] == Open(cursor) && Run(trace[..k]).stage == Opening
  }

  ghost predicate Refuses(trace: seq<Op>, k: nat, cursor: Cursor, reason: string) {
    k < |trace| && RefusedFor(Run(trace[..k]).rows, cursor, reason)
  }

  lemma StillLooksAt(before: seq<Op>, after: seq<Op>, k: nat, cursor: Cursor)
    requires before <= after && LooksAt(before, k, cursor)
    ensures LooksAt(after, k, cursor)
  {
    hide Run;
    assert after[..k] == before[..k];
  }

  /** Operation `k` of the trace looked at the cursor, and the stream of `w` stands where that put it. */
  ghost predicate OpenedAt(trace: seq<Op>, k: nat, cursor: Cursor, w: World) {
    k < |trace| && trace[k] == Open(cursor) &&
    var rows := Run(trace[..k]).rows;
    Placed(rows, cursor, w) && (cursor.Absent? ==> forall e <- w.emitted, s <- rows :: e.number > s)
  }

  lemma BegunAt(trace: seq<Op>, k: nat, cursor: Cursor)
    requires LooksAt(trace, k, cursor)
    ensures OpenedAt(trace, k, cursor, Run(trace))
  {
    hide Run, Placed;
    assert trace == trace[..k] + [Open(cursor)] + trace[k + 1..];
    StartIsTheCursor(trace[..k], cursor, trace[k + 1..]);
  }

  class Server {
    const journal: EventJournal
    const hub: Hub
    var history: Rows // the rows publishers hold
    var id: nat
    var watermark: int
    var emitted: seq<Entry>
    ghost var published: set<nat>
    ghost var start: int
    ghost var lost: set<nat>
    ghost var stage: Stage
    ghost var trace: seq<Op>

    ghost function Channel(): seq<Entry>
      reads this, hub
    {
      if stage != Connecting && !stage.Closed? && id in hub.subscribers then hub.subscribers[id] else []
    }

    ghost function Now(): World
      reads this, journal, hub
    {
      World(journal.rows, journal.last, history, published, Channel(), start, watermark, emitted, lost, stage)
    }

    ghost predicate Valid()
      reads this, journal, hub
    {
      && journal.Valid() && hub.Valid()
      && Now() == Run(trace)
      && (Listening(Now()) ==> id in hub.subscribers)
    }

    constructor (journal: EventJournal, hub: Hub)
      requires journal.Valid() && journal.rows == map[] && journal.last == 0 && hub.Valid()
      ensures Valid() && trace == [] && stage == Connecting
      ensures this.journal == journal && this.hub == hub
    {
      this.journal, this.hub := journal, hub;
      history, id, watermark, emitted := map[], 0, 0, [];
      published, start, lost, stage, trace := {}, 0, {}, Connecting, [];
    }

    /** Records a step that has just been taken. */
    ghost method Note(before: World, op: Op)
      requires before == Run(trace) && Now() == Step(before, op)
      modifies this`trace
      ensures trace == old(trace) + [op] && Now() == Run(trace)
    {
      Runs.Snoc(Step, INIT, trace, op);
      trace := trace + [op];
    }

    method AppendEntry(payload: string, createdAt: int)
      requires Valid()
      modifies this`history, this`trace, journal
      ensures Valid() && trace == old(trace) + [Append(payload, createdAt)]
    {
      hide Run;
      ghost var before := Now();
      var e := journal.Append(payload, createdAt);
      history := history[e.number := e];
      Note(before, Append(payload, createdAt));
    }

    method PublishHint(number: nat)
      requires Valid()
      modifies this`published, this`trace, hub
      ensures Valid() && trace == old(trace) + [Publish(number)]
    {
      hide Run;
      ghost var before := Now();
      if number in history {
        hub.Publish(history[number]);
        published := published + {number};
      }
      Note(before, Publish(number));
    }

    method Retain(cutoff: int)
      requires Valid()
      modifies this`lost, this`trace, journal
      ensures Valid() && trace == old(trace) + [DeleteBefore(cutoff)]
    {
      hide Run;
      ghost var before := Now();
      journal.DeleteBefore(cutoff);
      lost := Step(before, DeleteBefore(cutoff)).lost;
      Note(before, DeleteBefore(cutoff));
    }

    /** A transaction of another actor. */
    method Others(op: Op)
      requires Valid() && IsEnvironment(op)
      modifies this`history, this`published, this`lost, this`trace, journal, hub
      ensures Valid() && trace == old(trace) + [op]
    {
      hide Run, Step, Valid;
      match op {
        case Append(payload, createdAt) => AppendEntry(payload, createdAt);
        case Publish(number) => PublishHint(number);
        case DeleteBefore(cutoff) => Retain(cutoff);
      }
    }

    method Gap(ops: seq<Op>)
      requires Valid() && OthersOnly(ops)
      modifies this`history, this`published, this`lost, this`trace, journal, hub
      ensures Valid() && trace == old(trace) + ops
    {
      for i := 0 to |ops|
        invariant Valid() && trace == old(trace) + ops[..i]
      {
        Others(ops[i]);
        assert ops[..i + 1] == ops[..i] + [ops[i]];
      }
      assert ops[..|ops|] == ops;
    }

    method SubscribeToHub()
      requires Valid() && stage == Connecting
      modifies this`id, this`stage, this`trace, hub
      ensures Valid() && stage == Opening && trace == old(trace) + [Subscribe]
    {
      ghost var before := Now();
      id := hub.Subscribe();
      stage := Opening;
      Note(before, Subscribe);
    }

    /** The deferred cancel. */
    method CloseStream()
      requires Valid()
      modifies this`stage, this`trace, hub
      ensures Valid() && stage.Closed? && trace == old(trace) + [Close]
    {
      ghost var before := Now();
      hub.Cancel(id);
      stage := Closed("client_gone");
      Note(before, Close);
    }

    /** Chooses the watermark, or the reason to refuse the cursor. */
    method ChooseWatermark(cursor: Cursor) returns (reason: string, chosen: int)
      requires Valid()
      ensures Opened(Now(), cursor) ==
              if reason != "" then Now().(stage := Closed(reason), channel := []) else OpenAt(Now(), chosen)
      // without a cursor, the largest number in the journal
      ensures cursor.Absent? ==> reason == ""
      ensures cursor.Absent? && journal.rows == map[] ==> chosen == 0
      ensures cursor.Absent? && journal.rows != map[] ==>
                chosen in journal.rows && forall s <- journal.rows :: s <= chosen
      // with one, its number, unless it is malformed or a row right above it may be gone
      ensures cursor.Text? ==>
                reason ==
                if cursor.epoch != "ep1" || cursor.number.None? || cursor.number.value < 0 then "invalid_cursor"
                else if journal.rows != map[] && forall s <- journal.rows :: s > cursor.number.value + 1
                then "retention_expired"
                else ""
      ensures cursor.Text? && reason == "" ==> cursor.number == Some(chosen)
      ensures if reason != "" then RefusedFor(journal.rows, cursor, reason) else StartsAt(journal.rows, cursor, chosen)
    {
      hide Run, OpenAt, Channel;
      reason, chosen := "", 0;
      match cursor {
        case Absent =>
          chosen := journal.MaxSeq();
          assert chosen == MaxSeq(journal.rows);
        case Text(epoch, number) =>
          if epoch != EPOCH || number.None? || number.value < 0 {
            reason := "invalid_cursor";
          } else {
            var minSeq := journal.MinSeq();
            assert journal.rows != map[] ==> journal.rows.Keys != {} && minSeq == Min(journal.rows.Keys);
            if minSeq > 0 && number.value < minSeq - 1 {
              reason := "retention_expired";
            }
            chosen := number.value;
          }
      }
    }

    /** Opens the stream at the chosen watermark; false when the cursor is refused. */
    method OpenCursor(cursor: Cursor) returns (ok: bool)
      requires Valid() && stage == Opening
      modifies this`watermark, this`start, this`lost, this`stage, this`trace, hub
      ensures Valid() && trace == old(trace) + [Open(cursor)]
      ensures ok <==> stage == Reading(Replay)
      ensures !ok ==> stage.Closed? && RefusedFor(old(journal.rows), cursor, stage.reason) && emitted == old(emitted)
      ensures ok ==> start == watermark && StartsAt(old(journal.rows), cursor, start)
    {
      hide Run, Opened, RefusedFor, StartsAt;
      ghost var before := Now();
      var reason, chosen := ChooseWatermark(cursor);
      if reason != "" {
        hub.Cancel(id);
        stage := Closed(reason);
        ok := false;
      } else {
        watermark := chosen;
        start, lost, stage := OpenAt(before, chosen).start, OpenAt(before, chosen).lost, Reading(Replay);
        ok := true;
      }
      Note(before, Open(cursor));
    }

    method ReadBatch() returns (entries: seq<Entry>)
      requires Valid() && stage.Reading?
      modifies this`stage, this`trace
      ensures Valid() && trace == old(trace) + [Read]
      ensures stage.Emitting? && stage.batch == entries && stage.size == |entries| && stage.phase == old(stage).phase
    {
      ghost var before := Now();
      entries := journal.Read(watermark, BATCH);
      stage := Emitting(entries, |entries|, journal.last, stage.phase);
      Note(before, Read);
    }

    method WriteEntry(e: Entry)
      requires Valid() && stage.Emitting? && stage.batch != [] && stage.batch[0] == e
      modifies this`emitted, this`watermark, this`stage, this`trace
      ensures Valid() && trace == old(trace) + [Emit]
      ensures stage == old(stage).(batch := old(stage).batch[1..])
    {
      ghost var before := Now();
      emitted := emitted + [e];
      watermark := e.number;
      stage := stage.(batch := stage.batch[1..]);
      Note(before, Emit);
    }

    /**
      Reads and sends batches until one comes back short. Serves the replay loop and the drain; false
      when the client went away or the run is cut off.
     */
    method DrainJournal(gaps: seq<seq<Op>>, leaves: nat, from: nat) returns (ok: bool, clock: nat)
      requires Valid() && stage.Reading? && from <= |gaps|
      requires forall k :: 0 <= k < |gaps| ==> OthersOnly(gaps[k])
      modifies this, journal, hub
      ensures Valid() && from <= clock <= |gaps| && old(trace) <= trace && stage != Connecting
      ensures ok ==> stage.Emitting? && stage.batch == [] && stage.size < BATCH && stage.phase == old(stage).phase
      ensures !ok ==> if stage.Closed? then leaves < clock else clock == |gaps|
    {
      hide Step, Run, Valid, Now, Channel;
      ghost var phase := stage.phase;
      clock := from;
      while true
        invariant Valid() && from <= clock <= |gaps| && old(trace) <= trace
        invariant stage == Reading(phase)
        decreases |gaps| - clock
      {
        if clock == |gaps| {
          return false, clock;
        }
        Gap(gaps[clock]);
        clock := clock + 1;
        var entries := ReadBatch();
        ok, clock := SendBatch(entries, gaps, leaves, clock);
        if !ok {
          return false, clock;
        }
        if |entries| < BATCH {
          return true, clock;
        }
        ReadOn();
      }
    }

    /** Sends what was read; false when the client went away or the run is cut off. */
    method SendBatch(entries: seq<Entry>, gaps: seq<seq<Op>>, leaves: nat, from: nat)
      returns (ok: bool, clock: nat)
      requires Valid() && from <= |gaps|
      requires stage.Emitting? && stage.batch == entries && stage.size == |entries|
      requires forall k :: 0 <= k < |gaps| ==> OthersOnly(gaps[k])
      modifies this, journal, hub
      ensures Valid() && from <= clock <= |gaps| && old(trace) <= trace && stage != Connecting
      ensures ok ==> stage == old(stage).(batch := [])
      ensures !ok ==> if stage.Closed? then leaves < clock else clock == |gaps|
    {
      hide Step, Run, Valid, Now, Channel;
      clock := from;
      var i := 0;
      while i < |entries|
        invariant Valid() && from <= clock <= |gaps| && old(trace) <= trace && i <= |entries|
        invariant stage == old(stage).(batch := entries[i..])
      {
        if clock == |gaps| {
          return false, clock;
        }
        Gap(gaps[clock]);
        clock := clock + 1;
        if clock > leaves {
          CloseStream();
          return false, clock;
        }
        WriteEntry(entries[i]);
        i := i + 1;
      }
      ok := true;
    }

    /** A full batch is followed by another read. */
    method ReadOn()
      requires Valid() && stage.Emitting? && stage.batch == [] && stage.size >= BATCH
      modifies this`stage, this`trace
      ensures Valid() && stage == Reading(old(stage).phase) && trace == old(trace) + [EndBatch]
    {
      ghost var before := Now();
      stage := Reading(stage.phase);
      Note(before, EndBatch);
    }

    /** The end of a drain: sends the hint itself when it is still above the watermark. */
    method FinishDrain(hint: Entry)
      requires Valid() && stage.Emitting? && stage.batch == [] && stage.size < BATCH && stage.phase == Drain(hint)
      modifies this`emitted, this`watermark, this`stage, this`trace
      ensures Valid() && stage == Idle && trace == old(trace) + [EndBatch]
    {
      ghost var before := Now();
      if hint.number > watermark {
        emitted := emitted + [hint];
        watermark := hint.number;
      }
      stage := Idle;
      Note(before, EndBatch);
    }

    method FinishReplay()
      requires Valid() && stage.Emitting? && stage.batch == [] && stage.size < BATCH && stage.phase == Replay
      modifies this`stage, this`trace
      ensures Valid() && stage == Idle && trace == old(trace) + [EndBatch]
    {
      ghost var before := Now();
      stage := Idle;
      Note(before, EndBatch);
    }

    method ReceiveHint() returns (hint: Entry)
      requires Valid() && stage == Idle && Channel() != []
      modifies this`stage, this`trace, hub
      ensures Valid() && stage == Reading(Drain(hint)) && trace == old(trace) + [Receive]
    {
      ghost var before := Now();
      hint := hub.Receive(id);
      stage := Reading(Drain(hint));
      Note(before, Receive);
    }

    method HasHint() returns (pending: bool)
      requires Valid() && stage == Idle
      ensures pending <==> Channel() != []
    {
      pending := hub.subscribers[id] != [];
    }

    /** eventsStream. `waiting` says the run was cut off in the select statement. */
    method EventsStream(cursor: Cursor, gaps: seq<seq<Op>>, leaves: nat) returns (waiting: bool)
      requires Valid() && stage == Connecting
      requires forall k :: 0 <= k < |gaps| ==> OthersOnly(gaps[k])
      modifies this, journal, hub
      ensures Valid() && old(trace) <= trace && stage != Connecting
      // exactly once and in order, wherever the run is cut off
      ensures Increasing(emitted)
      ensures forall e <- emitted :: e.number in history && history[e.number] == e && start < e.number <= watermark
      ensures forall s <- history :: start < s <= watermark && s !in lost ==> Has(emitted, s)
      // at rest with no hint pending, nothing published is missing
      ensures waiting && Channel() == [] ==>
                forall s <- published :: s > start && s !in lost ==> Has(emitted, s)
      // the cursor decided where it began: without one, nothing stored at that moment is sent
      ensures gaps != [] ==> exists k: nat :: OpenedAt(trace, k, cursor, Now())
      // what is excused as lost was deleted before it was read
      ensures forall s <- lost :: exists k :: DeletedUnread(trace, k, s)
      // it ends early only for a client that leaves or a cursor that is refused
      ensures gaps != [] && stage.Closed? && leaves >= |gaps| ==>
                exists k: nat :: LooksAt(trace, k, cursor) && Refuses(trace, k, cursor, stage.reason)
    {
      hide LooksAt, OpenedAt, DeletedUnread, Run, Refuses;
      SubscribeToHub();
      ghost var moment;
      waiting, moment := Serve(cursor, gaps, leaves);
      Reachable(trace);
      if gaps != [] {
        BegunAt(trace, moment, cursor);
        assert OpenedAt(trace, moment, cursor, Now());
      }
      forall s <- lost ensures exists k :: DeletedUnread(trace, k, s) {
        LostMeansDeletedUnread(trace, s);
      }
      assert Inv(Now());
      if waiting && Channel() == [] {
        forall s <- published | s > start && s !in lost ensures Has(emitted, s) {
          IdleStreamIsCaughtUp(trace, s);
        }
      }
    }

    /** What others do before the cursor is looked at, and then that; `moment` is its position in the trace. */
    method Begin(cursor: Cursor, gap: seq<Op>) returns (ok: bool, ghost moment: nat)
      requires Valid() && stage == Opening && OthersOnly(gap)
      modifies this, journal, hub
      ensures Valid() && old(trace) <= trace && LooksAt(trace, moment, cursor)
      ensures if ok then stage == Reading(Replay) else stage.Closed? && Refuses(trace, moment, cursor, stage.reason)
    {
      hide Run, Step, Channel, RefusedFor, StartsAt;
      Gap(gap);
      moment := |trace|;
      ghost var before := trace;
      ok := OpenCursor(cursor);
      assert trace[..moment] == before;
    }

    method Serve(cursor: Cursor, gaps: seq<seq<Op>>, leaves: nat) returns (waiting: bool, ghost moment: nat)
      requires Valid() && stage == Opening
      requires forall k :: 0 <= k < |gaps| ==> OthersOnly(gaps[k])
      modifies this, journal, hub
      ensures Valid() && old(trace) <= trace && stage != Connecting
      ensures waiting ==> stage == Idle
      ensures gaps != [] ==> LooksAt(trace, moment, cursor)
      // only a client that leaves and a refused cursor end it before the gaps are used up
      ensures gaps != [] && stage.Closed? && leaves >= |gaps| ==> Refuses(trace, moment, cursor, stage.reason)
    {
      hide Step, Run, Valid, Now, Channel, LooksAt, Refuses;
      moment := 0;
      if gaps == [] {
        return false, moment;
      }
      var ok;
      ok, moment := Begin(cursor, gaps[0]);
      ghost var begun := trace;
      if !ok {
        return false, moment;
      }
      var clock;
      ok, clock := DrainJournal(gaps, leaves, 1);
      StillLooksAt(begun, trace, moment, cursor);
      if !ok {
        return false, moment;
      }
      FinishReplay();
      while clock < |gaps|
        invariant Valid() && old(trace) <= begun <= trace && stage == Idle && clock <= |gaps|
        decreases |gaps| - clock
      {
        StillLooksAt(begun, trace, moment, cursor);
        Gap(gaps[clock]);
        clock := clock + 1;
        if clock > leaves {
          CloseStream();
          StillLooksAt(begun, trace, moment, cursor);
          return false, moment;
        }
        var pending := HasHint();
        if pending {
          var hint := ReceiveHint();
          ok, clock := DrainJournal(gaps, leaves, clock);
          if !ok {
            StillLooksAt(begun, trace, moment, cursor);
            return false, moment;
          }
          FinishDrain(hint);
        }
      }
      StillLooksAt(begun, trace, moment, cursor);
      return true, moment;
    }
  }
}
