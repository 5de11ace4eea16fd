/**
  One server-sent-events stream over the journal: subscribe, accept a cursor, replay, then drain the
  journal at every hint, while other actors append, publish hints and delete expired rows.

  `World` is the journal, the stream's channel and the stream's own progress. Environment and stream
  operations may come in any order; an operation that is not enabled does nothing, so a sequence of
  operations is an arbitrary interleaving cut off at an arbitrary point.
 */
module EventStream {
  import opened Prelude
  import opened Journal
  import opened EventHub
  import Runs

  const BATCH := 250
  const EPOCH := "ep1"

  /** The Last-Event-ID split at its first colon; `number` is absent when it is no decimal integer. */
  datatype Cursor = Absent | Text(epoch: string, number: Option<int>)

  datatype Phase = Replay | Drain(hint: Entry)

  /** Where the handler stands between two atomic steps. */
  datatype Stage =
    | Connecting
    | Opening
    | Reading(phase: Phase)
      // `size` rows were read when the journal ended at `seenLast`; `batch` is what is left to send
    | Emitting(batch: seq<Entry>, size: nat, seenLast: nat, phase: Phase)
    | Idle
    | Closed(reason: string)

  datatype World = World(
    rows: Rows,
    last: nat,
    history: Rows,         // every row ever appended
    published: set<nat>,   // rows whose hint was published
    channel: seq<Entry>,
    start: int,
    watermark: int,
    emitted: seq<Entry>,
    lost: set<nat>,        // rows above the cursor that retention deleted before they were read
    stage: Stage)

  const INIT := World(map[], 0, map[], {}, [], 0, 0, [], {}, Connecting)

  datatype Op =
    | Append(payload: string, createdAt: int)
    | Publish(number: nat)
    | DeleteBefore(cutoff: int)
    | Subscribe
    | Open(cursor: Cursor)
    | Read
    | Emit
    | EndBatch
    | Receive
    | Close

  predicate IsEnvironment(op: Op) {
    op.Append? || op.Publish? || op.DeleteBefore?
  }

  // ---- Steps ----

  predicate Listening(w: World) {
    w.stage != Connecting && !w.stage.Closed?
  }

  predicate Started(w: World) {
    w.stage.Reading? || w.stage.Emitting? || w.stage.Idle?
  }

  function Left(w: World): seq<Entry> {
    if w.stage.Emitting? then w.stage.batch else []
  }

  function Surviving(rows: Rows, cutoff: int): Rows {
    map s | s in rows && rows[s].createdAt >= cutoff :: rows[s]
  }

  ghost predicate IsMax(s: set<nat>, m: nat) {
    m in s && forall k <- s :: k <= m
  }

  lemma {:induction false} MaxExists(s: set<nat>)
    requires s != {}
    ensures exists m :: IsMax(s, m)
    decreases |s|
  {
    var x :| x in s;
    if s == {x} {
      assert IsMax(s, x);
    } else {
      MaxExists(s - {x});
      var m: nat :| IsMax(s - {x}, m);
      assert forall k <- s :: k == x || k in s - {x};
      assert IsMax(s, if x < m then m else x);
    }
  }

  ghost function MaxSeq(rows: Rows): nat {
    if rows.Keys == {} then 0
    else
      MaxExists(rows.Keys);
      var m: nat :| IsMax(rows.Keys, m);
      m
  }

  predicate WellFormed(cursor: Cursor) {
    cursor.Text? && cursor.epoch == EPOCH && cursor.number.Some? && cursor.number.value >= 0
  }

  ghost predicate Expired(rows: Rows, after: int) {
    rows.Keys != {} && after < Min(rows.Keys) - 1
  }

  ghost function OpenAt(w: World, after: int): World {
    w.(start := after, watermark := after, stage := Reading(Replay),
       lost := set s | s in w.history && s > after && s !in w.rows)
  }

  ghost function Opened(w: World, cursor: Cursor): World {
    match cursor
    case Absent => OpenAt(w, MaxSeq(w.rows))
    case Text(_, number) =>
      if !WellFormed(cursor) then w.(stage := Closed("invalid_cursor"), channel := [])
      else if Expired(w.rows, number.value) then w.(stage := Closed("retention_expired"), channel := [])
      else OpenAt(w, number.value)
  }

  function EndOfBatch(w: World): World
    requires w.stage.Emitting?
  {
    if w.stage.size >= BATCH then w.(stage := Reading(w.stage.phase))
    else
      match w.stage.phase
      case Replay => w.(stage := Idle)
      case Drain(hint) =>
        if hint.number > w.watermark
        then w.(stage := Idle, emitted := w.emitted + [hint], watermark := hint.number)
        else w.(stage := Idle)
  }

  ghost function Step(w: World, op: Op): World {
    match op
    case Append(payload, createdAt) =>
      var e := Entry(w.last + 1, payload, createdAt);
      w.(rows := w.rows[e.number := e], history := w.history[e.number := e], last := e.number)
    case Publish(number) =>
      if number !in w.history then w
      else w.(published := w.published + {number},
              channel := if Listening(w) then Offer(w.channel, w.history[number]) else w.channel)
    case DeleteBefore(cutoff) =>
      var kept := Surviving(w.rows, cutoff);
      var gone := set s | s in w.rows && s !in kept && s > w.watermark && !Has(Left(w), s);
      w.(rows := kept, lost := if Started(w) then w.lost + gone else w.lost)
    case Subscribe => if w.stage == Connecting then w.(stage := Opening, channel := []) else w
    case Open(cursor) => if w.stage == Opening then Opened(w, cursor) else w
    case Read =>
      if w.stage.Reading? then
        var batch := ReadSpec(w.rows, w.watermark, BATCH);
        w.(stage := Emitting(batch, |batch|, w.last, w.stage.phase))
      else w
    case Emit =>
      if w.stage.Emitting? && w.stage.batch != [] then
        var e := w.stage.batch[0];
        w.(emitted := w.emitted + [e], watermark := e.number, stage := w.stage.(batch := w.stage.batch[1..]))
      else w
    case EndBatch => if w.stage.Emitting? && w.stage.batch == [] then EndOfBatch(w) else w
    case Receive =>
      if w.stage.Idle? && w.channel != []
      then w.(stage := Reading(Drain(w.channel[0])), channel := w.channel[1..]) else w
    case Close => w.(stage := Closed("client_gone"), channel := [])
  }

  ghost function Run(ops: seq<Op>): World {
    Runs.Fold(Step, INIT, ops)
  }

  // ---- The invariant, in parts ----

  ghost predicate InHistory(w: World, e: Entry) {
    e.number in w.history && w.history[e.number] == e
  }

  ghost predicate TablesOk(w: World) {
    && Keyed(w.history) && Keyed(w.rows)
    && (forall s: nat :: s in w.history <==> 1 <= s <= w.last)
    && (forall s <- w.rows :: s in w.history && w.rows[s] == w.history[s])
    && w.published <= w.history.Keys
    && (forall e <- w.channel :: InHistory(w, e))
  }

  /** What was sent: journal rows above the start, in strictly increasing order, up to the watermark. */
  ghost predicate SentOk(w: World) {
    && 0 <= w.start <= w.watermark
    && (w.watermark == w.start || w.watermark <= w.last)
    && Increasing(w.emitted)
    && (forall e <- w.emitted :: InHistory(w, e) && w.start < e.number <= w.watermark)
  }

  /** Everything up to the watermark was sent or lost. */
  ghost predicate BelowOk(w: World) {
    forall s <- w.history :: w.start < s <= w.watermark ==> Has(w.emitted, s) || s in w.lost
  }

  /** Everything above it is in the journal, about to be sent, or lost. */
  ghost predicate AboveOk(w: World) {
    forall s <- w.history :: s > w.watermark ==> s in w.rows || Has(Left(w), s) || s in w.lost
  }

  /** The batch in hand skips nothing up to where it reaches. */
  ghost predicate BatchOk(w: World) {
    w.stage.Emitting? ==>
      var b := w.stage.batch;
      && Increasing(b)
      && (forall e <- b :: InHistory(w, e) && w.watermark < e.number <= w.stage.seenLast)
      && w.stage.seenLast <= w.last
      && w.stage.size <= BATCH
      && (forall s <- w.history ::
            w.watermark < s <= w.stage.seenLast && (w.stage.size < BATCH || (b != [] && s <= b[|b| - 1].number)) ==>
            Has(b, s) || s in w.lost)
      && (w.stage.phase.Drain? ==> w.stage.phase.hint.number <= w.stage.seenLast)
  }

  ghost predicate HintOk(w: World) {
    (w.stage.Reading? || w.stage.Emitting?) && w.stage.phase.Drain? ==> InHistory(w, w.stage.phase.hint)
  }

  /** Published rows not yet sent still have a hint waiting, or a read ahead of them. */
  ghost predicate HintsOk(w: World) {
    && (w.stage.Idle? ==>
          forall s <- w.published :: s > w.watermark && s !in w.lost ==> w.channel != [])
    && (w.stage.Emitting? && w.stage.size < BATCH ==>
          forall s <- w.published :: s > w.stage.seenLast && s > w.watermark && s !in w.lost ==> w.channel != [])
  }

  ghost predicate Inv(w: World) {
    && TablesOk(w)
    && (Started(w) ==> SentOk(w) && BelowOk(w) && AboveOk(w) && BatchOk(w) && HintOk(w) && HintsOk(w))
    && (w.stage.Closed? ==> SentOk(w) && BelowOk(w))
    && (w.stage.Connecting? || w.stage.Opening? ==> w.emitted == [] && w.start == w.watermark == 0)
  }

  lemma HasOneMore(entries: seq<Entry>, e: Entry)
    ensures forall s: nat :: Has(entries + [e], s) <==> Has(entries, s) || s == e.number
  {
    forall s: nat ensures Has(entries + [e], s) <==> Has(entries, s) || s == e.number {
      if Has(entries, s) {
        var x :| x in entries && x.number == s;
        assert x in entries + [e];
      }
      assert e in entries + [e];
    }
  }

  lemma HasSplit(entries: seq<Entry>)
    requires entries != []
    ensures forall s: nat :: Has(entries, s) <==> s == entries[0].number || Has(entries[1..], s)
  {
    assert entries == [entries[0]] + entries[1..];
    forall s: nat ensures Has(entries, s) <==> s == entries[0].number || Has(entries[1..], s) {
      if Has(entries[1..], s) {
        var x :| x in entries[1..] && x.number == s;
        assert x in entries;
      }
    }
  }

  // ---- Environment steps ----

  /** The stream has not moved; the journal may have grown and lost rows. */
  ghost predicate Frame(w: World, w': World) {
    && w'.start == w.start && w'.watermark == w.watermark && w'.emitted == w.emitted && w'.stage == w.stage
    && w.last <= w'.last && w.lost <= w'.lost
    && (forall s <- w.history :: s in w'.history && w'.history[s] == w.history[s])
    && (forall s <- w'.history :: s in w.history || s > w.last)
  }

  lemma FrameKeepsParts(w: World, w': World)
    requires Frame(w, w') && TablesOk(w) && Started(w)
    requires SentOk(w) && BelowOk(w) && BatchOk(w) && HintOk(w)
    ensures SentOk(w') && BelowOk(w') && BatchOk(w') && HintOk(w')
  {
  }

  lemma FrameKeepsClosed(w: World, w': World)
    requires Frame(w, w') && TablesOk(w) && SentOk(w) && BelowOk(w)
    ensures SentOk(w') && BelowOk(w')
  {
  }

  lemma EnvironmentFrame(w: World, op: Op)
    requires IsEnvironment(op) && TablesOk(w)
    ensures Frame(w, Step(w, op)) && TablesOk(Step(w, op))
  {
  }

  lemma EnvironmentAbove(w: World, op: Op)
    requires IsEnvironment(op) && TablesOk(w) && Started(w) && AboveOk(w)
    ensures AboveOk(Step(w, op))
  {
  }

  /** A hint dropped on a full channel leaves the channel non-empty, so nothing is forgotten. */
  lemma EnvironmentHints(w: World, op: Op)
    requires IsEnvironment(op) && TablesOk(w) && Started(w) && HintsOk(w)
    ensures HintsOk(Step(w, op))
  {
    if op.Publish? && op.number in w.history {
      assert Offer(w.channel, w.history[op.number]) != [];
    }
  }

  lemma EnvironmentKeepsInv(w: World, op: Op)
    requires Inv(w) && IsEnvironment(op)
    ensures Inv(Step(w, op))
  {
    hide TablesOk, SentOk, BelowOk, AboveOk, BatchOk, HintOk, HintsOk;
    var w' := Step(w, op);
    EnvironmentFrame(w, op);
    if Started(w) {
      FrameKeepsParts(w, w');
      EnvironmentAbove(w, op);
      EnvironmentHints(w, op);
    } else if w.stage.Closed? {
      FrameKeepsClosed(w, w');
    }
  }

  // ---- Stream steps ----

  lemma OpenAtParts(w: World, after: int)
    requires TablesOk(w) && w.emitted == [] && after >= 0
    ensures var w' := OpenAt(w, after);
            SentOk(w') && BelowOk(w') && AboveOk(w') && BatchOk(w') && HintOk(w') && HintsOk(w')
  {
  }

  lemma OpenRefused(w: World, cursor: Cursor)
    requires w.emitted == [] && w.start == w.watermark == 0 && Opened(w, cursor).stage.Closed?
    ensures SentOk(Opened(w, cursor)) && BelowOk(Opened(w, cursor))
  {
  }

  lemma OpenKeepsInv(w: World, cursor: Cursor)
    requires Inv(w)
    ensures Inv(Step(w, Open(cursor)))
  {
    hide SentOk, BelowOk, AboveOk, BatchOk, HintOk, HintsOk, MaxSeq, Expired;
    if w.stage == Opening && Step(w, Open(cursor)).stage.Closed? {
      OpenRefused(w, cursor);
    }
    if w.stage == Opening && !Step(w, Open(cursor)).stage.Closed? {
      OpenAtParts(w, if cursor.Absent? then MaxSeq(w.rows) else cursor.number.value);
    }
  }

  /** A read batch holds every unlost row up to where it reaches. */
  lemma ReadReaches(w: World, s: nat)
    requires Keyed(w.rows) && AboveOk(w) && Left(w) == [] && s in w.history && s > w.watermark
    requires var b := ReadSpec(w.rows, w.watermark, BATCH); |b| < BATCH || (b != [] && s <= b[|b| - 1].number)
    ensures Has(ReadSpec(w.rows, w.watermark, BATCH), s) || s in w.lost
  {
    if s in w.rows {
      ReadSkipsNothing(w.rows, w.watermark, BATCH, s);
    }
  }

  lemma ReadBatch(w: World)
    requires TablesOk(w) && w.stage.Reading? && AboveOk(w) && HintOk(w)
    ensures BatchOk(Step(w, Read))
  {
    hide ReadSpec, AboveOk;
    var b := ReadSpec(w.rows, w.watermark, BATCH);
    ReadIsOrdered(w.rows, w.watermark, BATCH);
    forall s <- w.history |
      w.watermark < s <= w.last && (|b| < BATCH || (b != [] && s <= b[|b| - 1].number))
      ensures Has(b, s) || s in w.lost
    {
      ReadReaches(w, s);
    }
    RowsAreHistory(w, b);
  }

  lemma RowsAreHistory(w: World, entries: seq<Entry>)
    requires TablesOk(w) && RowsOf(entries, w.rows, w.watermark)
    ensures forall e <- entries :: InHistory(w, e) && w.watermark < e.number <= w.last
  {
    forall e <- entries ensures InHistory(w, e) && w.watermark < e.number <= w.last {
      assert e.number in w.rows;
    }
  }

  lemma ReadRest(w: World)
    requires TablesOk(w) && w.stage.Reading? && AboveOk(w) && HintOk(w)
    ensures AboveOk(Step(w, Read)) && HintOk(Step(w, Read)) && HintsOk(Step(w, Read))
  {
  }

  lemma ReadKeepsInv(w: World)
    requires Inv(w)
    ensures Inv(Step(w, Read))
  {
    hide AboveOk, BatchOk, HintOk, HintsOk, ReadSpec;
    if w.stage.Reading? {
      ReadBatch(w);
      ReadRest(w);
    }
  }

  lemma HeadIsLeast(entries: seq<Entry>)
    requires Increasing(entries) && entries != []
    ensures Increasing(entries[1..]) && (forall e <- entries[1..] :: e in entries && e.number > entries[0].number)
  {
  }

  /** The head of the batch is the next unlost row above the watermark. */
  lemma HeadIsNext(w: World, s: nat)
    requires w.stage.Emitting? && w.stage.batch != [] && BatchOk(w)
    requires s in w.history && w.watermark < s <= w.stage.batch[0].number
    ensures s == w.stage.batch[0].number || s in w.lost
  {
    assert w.stage.batch[0] in w.stage.batch;
    HasSplit(w.stage.batch);
    HeadIsLeast(w.stage.batch);
  }

  lemma EmitSends(w: World)
    requires w.stage.Emitting? && w.stage.batch != [] && SentOk(w) && BatchOk(w)
    ensures SentOk(Step(w, Emit))
  {
    assert w.stage.batch[0] in w.stage.batch;
  }

  lemma EmitCovers(w: World)
    requires w.stage.Emitting? && w.stage.batch != [] && BelowOk(w) && BatchOk(w)
    ensures BelowOk(Step(w, Emit))
  {
    var e := w.stage.batch[0];
    HasOneMore(w.emitted, e);
    forall s <- w.history | w.watermark < s <= e.number ensures s == e.number || s in w.lost {
      HeadIsNext(w, s);
    }
    hide BatchOk;
  }

  lemma EmitShrinksBatch(w: World)
    requires w.stage.Emitting? && w.stage.batch != [] && BatchOk(w)
    ensures BatchOk(Step(w, Emit))
  {
    HasSplit(w.stage.batch);
    HeadIsLeast(w.stage.batch);
  }

  lemma EmitKeepsAbove(w: World)
    requires w.stage.Emitting? && w.stage.batch != [] && AboveOk(w) && w.watermark < w.stage.batch[0].number
    ensures AboveOk(Step(w, Emit))
  {
    HasSplit(w.stage.batch);
  }

  lemma EmitKeepsHints(w: World)
    requires w.stage.Emitting? && w.stage.batch != [] && w.watermark < w.stage.batch[0].number
    requires HintOk(w) && HintsOk(w)
    ensures HintOk(Step(w, Emit)) && HintsOk(Step(w, Emit))
  {
  }

  lemma EmitKeepsInv(w: World)
    requires Inv(w)
    ensures Inv(Step(w, Emit))
  {
    if w.stage.Emitting? && w.stage.batch != [] {
      assert w.stage.batch[0] in w.stage.batch;
      EmitSends(w);
      EmitCovers(w);
      EmitShrinksBatch(w);
      EmitKeepsAbove(w);
      EmitKeepsHints(w);
    }
    hide SentOk, BelowOk, AboveOk, BatchOk, HintOk, HintsOk;
  }

  /** When a draining batch ends short, only lost rows lie between the watermark and the hint. */
  lemma ShortBatchReachesHint(w: World, s: nat)
    requires w.stage.Emitting? && w.stage.batch == [] && w.stage.size < BATCH && w.stage.phase.Drain? && BatchOk(w)
    requires s in w.history && w.watermark < s <= w.stage.phase.hint.number
    ensures s in w.lost
  {
  }

  lemma DirectSend(w: World)
    requires TablesOk(w) && w.stage.Emitting? && w.stage.batch == [] && w.stage.size < BATCH && w.stage.phase.Drain?
    requires w.stage.phase.hint.number > w.watermark
    requires SentOk(w) && BelowOk(w) && BatchOk(w) && HintOk(w)
    ensures SentOk(Step(w, EndBatch)) && BelowOk(Step(w, EndBatch))
  {
    var hint := w.stage.phase.hint;
    HasOneMore(w.emitted, hint);
    forall s <- w.history | w.watermark < s <= hint.number ensures s in w.lost {
      ShortBatchReachesHint(w, s);
    }
  }

  lemma EndBatchRest(w: World)
    requires TablesOk(w) && w.stage.Emitting? && w.stage.batch == []
    requires SentOk(w) && BelowOk(w) && AboveOk(w) && BatchOk(w) && HintOk(w) && HintsOk(w)
    ensures var w' := Step(w, EndBatch); AboveOk(w') && BatchOk(w') && HintOk(w') && HintsOk(w')
    ensures var w' := Step(w, EndBatch); w'.watermark == w.watermark ==> SentOk(w') && BelowOk(w')
  {
  }

  lemma EndBatchKeepsInv(w: World)
    requires Inv(w)
    ensures Inv(Step(w, EndBatch))
  {
    hide SentOk, BelowOk, AboveOk, BatchOk, HintOk, HintsOk, TablesOk;
    if w.stage.Emitting? && w.stage.batch == [] {
      EndBatchRest(w);
      if w.stage.size < BATCH && w.stage.phase.Drain? && w.stage.phase.hint.number > w.watermark {
        DirectSend(w);
      }
      EndBatchTables(w);
    }
  }

  lemma EndBatchTables(w: World)
    requires TablesOk(w) && w.stage.Emitting? && w.stage.batch == []
    ensures TablesOk(Step(w, EndBatch))
  {
  }

  lemma ReceiveKeepsInv(w: World)
    requires Inv(w)
    ensures Inv(Step(w, Receive))
  {
    if w.stage.Idle? && w.channel != [] {
      assert w.channel[0] in w.channel;
      assert forall e <- w.channel[1..] :: e in w.channel;
    }
  }

  lemma SubscribeOrCloseKeepsInv(w: World, op: Op)
    requires Inv(w) && (op.Subscribe? || op.Close?)
    ensures Inv(Step(w, op))
  {
  }

  lemma StepKeepsInv(w: World, op: Op)
    requires Inv(w)
    ensures Inv(Step(w, op))
  {
    hide Inv, Step;
    match op
    case Open(cursor) => OpenKeepsInv(w, cursor);
    case Read => ReadKeepsInv(w);
    case Emit => EmitKeepsInv(w);
    case EndBatch => EndBatchKeepsInv(w);
    case Receive => ReceiveKeepsInv(w);
    case Subscribe => SubscribeOrCloseKeepsInv(w, op);
    case Close => SubscribeOrCloseKeepsInv(w, op);
    case _ => EnvironmentKeepsInv(w, op);
  }

  lemma Reachable(ops: seq<Op>)
    ensures Inv(Run(ops))
  {
    forall w: World, op: Op | Inv(w) ensures Inv(Step(w, op)) {
      StepKeepsInv(w, op);
    }
    hide Step;
    Runs.Invariant(Step, Inv, INIT, ops);
  }

  // ---- What every interleaving guarantees ----

  /** Exactly once and in order: whatever was not lost to retention is sent, nothing else is. */
  lemma ExactlyOnceInOrder(ops: seq<Op>)
    requires Started(Run(ops)) || Run(ops).stage.Closed?
    ensures var w := Run(ops);
            && Increasing(w.emitted)
            && (forall e <- w.emitted :: InHistory(w, e) && w.start < e.number <= w.watermark)
            && (forall s <- w.history :: w.start < s <= w.watermark && s !in w.lost ==> Has(w.emitted, s))
  {
    Reachable(ops);
  }

  lemma {:induction false} AtLeast(entries: seq<Entry>, start: int, i: nat)
    requires Increasing(entries) && (forall e <- entries :: start < e.number)
    requires i < |entries|
    ensures entries[i].number >= start + 1 + i
    decreases i
  {
    assert entries[i] in entries;
    if i == 0 {
    } else {
      AtLeast(entries, start, i - 1);
    }
  }

  lemma {:induction false} DenseAndIncreasing(entries: seq<Entry>, start: nat, end: nat, i: nat)
    requires Increasing(entries) && (forall e <- entries :: start < e.number <= end)
    requires forall s: nat :: start < s <= end ==> Has(entries, s)
    requires start + 1 + i <= end
    ensures i < |entries| && entries[i].number == start + 1 + i
    decreases i
  {
    assert Has(entries, start + 1 + i);
    var e :| e in entries && e.number == start + 1 + i;
    var j: nat :| j < |entries| && entries[j] == e;
    AtLeast(entries, start, j);
    if i == 0 {
    } else {
      DenseAndIncreasing(entries, start, end, i - 1);
    }
  }

  /** If retention took nothing unread, the stream sent the journal from start + 1 to the watermark, verbatim. */
  lemma NothingLostMeansExact(ops: seq<Op>)
    requires Started(Run(ops)) && Run(ops).lost == {}
    ensures var w := Run(ops);
            && |w.emitted| == w.watermark - w.start
            && forall i :: 0 <= i < |w.emitted| ==> InHistory(w, w.emitted[i]) && w.emitted[i].number == w.start + 1 + i
  {
    Reachable(ops);
    var w := Run(ops);
    if w.watermark > w.start {
      assert forall s: nat :: w.start < s <= w.watermark ==> s in w.history;
      forall i: nat | w.start + 1 + i <= w.watermark
        ensures i < |w.emitted| && w.emitted[i].number == w.start + 1 + i
      {
        DenseAndIncreasing(w.emitted, w.start, w.watermark, i);
      }
      DenseAndIncreasing(w.emitted, w.start, w.watermark, w.watermark - w.start - 1);
    }
    if w.emitted != [] {
      var last := |w.emitted| - 1;
      assert w.emitted[last] in w.emitted;
      AtLeast(w.emitted, w.start, last);
    }
  }

  /** The branch that sends a hint directly is taken only for a row retention deleted unread. */
  lemma DirectSendOnlyAfterLoss(ops: seq<Op>)
    requires var w := Run(ops);
             && w.stage.Emitting? && w.stage.batch == [] && w.stage.size < BATCH
             && w.stage.phase.Drain? && w.stage.phase.hint.number > w.watermark
    ensures Run(ops).stage.phase.hint.number in Run(ops).lost
  {
    Reachable(ops);
    ShortBatchReachesHint(Run(ops), Run(ops).stage.phase.hint.number);
  }

  /** A stream at rest with an empty channel has sent everything published above its start. */
  lemma IdleStreamIsCaughtUp(ops: seq<Op>, s: nat)
    requires Run(ops).stage.Idle? && Run(ops).channel == []
    requires s in Run(ops).published && s > Run(ops).start
    ensures Has(Run(ops).emitted, s) || s in Run(ops).lost
  {
    Reachable(ops);
    var w := Run(ops);
    assert s in w.history;
  }

  // ---- Where a stream starts ----

  /** Why a cursor is refused, given the rows stored at that moment; the empty text if it is not. */
  ghost predicate RefusedFor(rows: Rows, cursor: Cursor, reason: string) {
    && cursor.Text?
    && var malformed := cursor.epoch != "ep1" || cursor.number.None? || cursor.number.value < 0;
    if malformed then reason == "invalid_cursor"
    else rows != map[] && reason == "retention_expired" && forall s <- rows :: s > cursor.number.value + 1
  }

  /** A stream without a cursor starts after everything stored, one with a cursor right at it. */
  ghost predicate StartsAt(rows: Rows, cursor: Cursor, start: int) {
    match cursor
    case Absent => if rows == map[] then start == 0 else start in rows && forall s <- rows :: s <= start
    case Text(_, number) => number == Some(start)
  }

  lemma OpenDecides(w: World, cursor: Cursor)
    requires w.stage == Opening
    ensures var w' := Step(w, Open(cursor));
            if exists reason :: RefusedFor(w.rows, cursor, reason)
            then w'.stage.Closed? && RefusedFor(w.rows, cursor, w'.stage.reason) && w'.emitted == w.emitted
            else w'.stage == Reading(Replay) && w'.watermark == w'.start && StartsAt(w.rows, cursor, w'.start)
  {
    var w' := Step(w, Open(cursor));
    if cursor.Text? {
      if w.rows.Keys != {} {
        assert Min(w.rows.Keys) in w.rows;
      }
      assert w'.stage.Closed? ==> RefusedFor(w.rows, cursor, w'.stage.reason);
    } else if w.rows != map[] {
      SomeRow(w.rows);
      assert IsMax(w.rows.Keys, MaxSeq(w.rows));
    }
  }

  lemma SomeRow(rows: Rows)
    requires rows != map[]
    ensures rows.Keys != {}
  {
  }

  function Rank(stage: Stage): nat {
    match stage
    case Connecting => 0
    case Opening => 1
    case Closed(_) => 3
    case _ => 2
  }

  /** A stream opens once: its start never moves again, and a closed stream sends nothing. */
  lemma {:induction false} OpenedOnce(w: World, ops: seq<Op>)
    ensures var w' := Runs.Fold(Step, w, ops);
            && Rank(w.stage) <= Rank(w'.stage)
            && (Rank(w.stage) >= 2 ==> w'.start == w.start)
            && (Rank(w.stage) == 3 ==> w'.emitted == w.emitted)
    decreases |ops|
  {
    if ops == [] {
    } else {
      StepRises(w, ops[0]);
      OpenedOnce(Step(w, ops[0]), ops[1..]);
    }
  }

  lemma StepRises(w: World, op: Op)
    ensures var w' := Step(w, op);
            && Rank(w.stage) <= Rank(w'.stage)
            && (Rank(w.stage) >= 2 ==> w'.start == w.start)
            && (Rank(w.stage) == 3 ==> w'.emitted == w.emitted)
  {
  }

  /** Where the stream of `w` stands, given the rows stored when it opened. */
  ghost predicate Placed(rows: Rows, cursor: Cursor, w: World) {
    if exists reason :: RefusedFor(rows, cursor, reason) then w.stage.Closed? && w.emitted == []
    else StartsAt(rows, cursor, w.start) && forall e <- w.emitted :: e.number > w.start
  }

  /**
    In every run the cursor alone decides where the stream starts: without one, nothing that was stored
    when it opened is ever sent; with an accepted one, everything sent lies above it; with a refused one,
    nothing is sent.
   */
  lemma StartIsTheCursor(before: seq<Op>, cursor: Cursor, after: seq<Op>)
    requires Run(before).stage == Opening
    ensures var rows, w := Run(before).rows, Run(before + [Open(cursor)] + after);
            && Placed(rows, cursor, w)
            && (cursor.Absent? ==> forall e <- w.emitted, s <- rows :: e.number > s)
            && (cursor.Absent? && rows == map[] ==> w.start == 0)
  {
    hide Step, RefusedFor;
    var w0 := Run(before);
    var w1 := Step(w0, Open(cursor));
    Reachable(before);
    Runs.Snoc(Step, INIT, before, Open(cursor));
    Runs.Concat(Step, INIT, before + [Open(cursor)], after);
    Reachable(before + [Open(cursor)] + after);
    OpenDecides(w0, cursor);
    OpenedOnce(w1, after);
    assert cursor.Absent? ==> !exists reason :: RefusedFor(w0.rows, cursor, reason) by {
      NeverRefused(w0.rows);
    }
  }

  lemma NeverRefused(rows: Rows)
    ensures !exists reason :: RefusedFor(rows, Absent, reason)
  {
  }

  // ---- What the other actors do, and what counts as lost ----

  /** Appends are kept under the next number, hints wait in the channel if it has room, retention goes by the stamp. */
  lemma EnvironmentDoes(w: World, op: Op)
    requires IsEnvironment(op)
    ensures var w' := Step(w, op);
            match op
            case Append(payload, createdAt) =>
              var e := Entry(w.last + 1, payload, createdAt);
              w'.last == e.number && w'.rows == w.rows[e.number := e] && w'.history == w.history[e.number := e]
            case Publish(number) =>
              && w'.rows == w.rows && w'.history == w.history
              && w'.published == (if number in w.history then w.published + {number} else w.published)
              && w'.channel == if number in w.history && w.stage != Connecting && !w.stage.Closed? && |w.channel| < 128
                               then w.channel + [w.history[number]] else w.channel
            case DeleteBefore(cutoff) =>
              && w'.history == w.history
              && (forall s: nat :: s in w'.rows <==> s in w.rows && w.rows[s].createdAt >= cutoff)
              && (forall s <- w'.rows :: w'.rows[s] == w.rows[s])
  {
  }

  /** Operation `k` of the run deletes row `s` before the stream has read it. */
  ghost predicate DeletedUnread(ops: seq<Op>, k: int, s: nat) {
    0 <= k < |ops| && ops[k].DeleteBefore? &&
    var w := Run(ops[..k]);
    && s in w.rows && w.rows[s].createdAt < ops[k].cutoff
    && s > w.watermark && !Has(Left(w), s)
  }

  lemma StillDeletedUnread(ops: seq<Op>, n: nat, k: int, s: nat)
    requires n <= |ops| && DeletedUnread(ops[..n], k, s)
    ensures DeletedUnread(ops, k, s)
  {
    hide Run;
    assert ops[..n][..k] == ops[..k];
  }

  /** Before a stream has opened, every row that is gone was deleted unread. */
  lemma {:induction false} GoneBeforeOpening(ops: seq<Op>, s: nat)
    requires Rank(Run(ops).stage) <= 1 && s in Run(ops).history && s !in Run(ops).rows
    ensures exists k :: DeletedUnread(ops, k, s)
    decreases |ops|
  {
    hide Inv, Step;
    if ops == [] {
    } else {
      var n := |ops| - 1;
      var w := Run(ops[..n]);
      assert ops == ops[..n] + [ops[n]];
      Runs.Snoc(Step, INIT, ops[..n], ops[n]);
      Reachable(ops[..n]);
      StepRises(w, ops[n]);
      if s in w.history && s !in w.rows {
        GoneBeforeOpening(ops[..n], s);
        var k :| DeletedUnread(ops[..n], k, s);
        StillDeletedUnread(ops, n, k, s);
      } else {
        NewlyGone(w, ops[n], s);
        assert DeletedUnread(ops, n, s);
      }
    }
  }

  lemma NewlyGone(w: World, op: Op, s: nat)
    requires Inv(w) && Rank(w.stage) <= 1 && s in Step(w, op).history && s !in Step(w, op).rows
    requires s in w.history ==> s in w.rows
    ensures op.DeleteBefore? && s in w.rows && w.rows[s].createdAt < op.cutoff && s > w.watermark && !Has(Left(w), s)
  {
  }

  /** Only retention loses a row: what counts as lost was deleted before the stream had read it. */
  lemma {:induction false} LostMeansDeletedUnread(ops: seq<Op>, s: nat)
    requires s in Run(ops).lost
    ensures exists k :: DeletedUnread(ops, k, s)
    decreases |ops|
  {
    hide Step;
    if ops == [] {
    } else {
      var n := |ops| - 1;
      var w := Run(ops[..n]);
      assert ops == ops[..n] + [ops[n]];
      Runs.Snoc(Step, INIT, ops[..n], ops[n]);
      if s in w.lost {
        LostMeansDeletedUnread(ops[..n], s);
        var k :| DeletedUnread(ops[..n], k, s);
        StillDeletedUnread(ops, n, k, s);
      } else {
        NewlyLost(w, ops[n], s);
        if ops[n].Open? {
          GoneBeforeOpening(ops[..n], s);
          var k :| DeletedUnread(ops[..n], k, s);
          StillDeletedUnread(ops, n, k, s);
        } else {
          assert DeletedUnread(ops, n, s);
        }
      }
    }
  }

  lemma NewlyLost(w: World, op: Op, s: nat)
    requires s !in w.lost && s in Step(w, op).lost
    ensures if op.Open? then w.stage == Opening && s in w.history && s !in w.rows
            else op.DeleteBefore? && s in w.rows && w.rows[s].createdAt < op.cutoff
                 && s > w.watermark && !Has(Left(w), s)
  {
  }

  // ---- What an accepted cursor is worth ----

  /** Rows were stamped in sequence order. */
  ghost predicate StampedInOrder(history: Rows) {
    forall a <- history, b <- history :: a < b ==> history[a].createdAt <= history[b].createdAt
  }

  /** Retention removed a prefix of the journal. */
  ghost predicate PrefixDeleted(w: World) {
    forall a <- w.history, b <- w.history :: a < b && b !in w.rows ==> a !in w.rows
  }

  lemma AppendOrDeleteKeepsPrefix(w: World, op: Op)
    requires op.Append? || op.DeleteBefore?
    requires TablesOk(w) && PrefixDeleted(w) && StampedInOrder(w.history)
    ensures PrefixDeleted(Step(w, op))
  {
  }

  lemma OtherStepsLeaveJournal(w: World, op: Op)
    requires !op.Append? && !op.DeleteBefore?
    ensures Step(w, op).rows == w.rows && Step(w, op).history == w.history
  {
  }

  lemma HistoryOnlyGrows(w: World, op: Op)
    requires TablesOk(w) && StampedInOrder(Step(w, op).history)
    ensures StampedInOrder(w.history)
  {
    if op.Append? {
      assert forall s <- w.history :: s in Step(w, op).history && Step(w, op).history[s] == w.history[s];
    } else if !op.DeleteBefore? {
      OtherStepsLeaveJournal(w, op);
    }
  }

  lemma {:induction false} InOrderMeansPrefix(ops: seq<Op>)
    requires StampedInOrder(Run(ops).history)
    ensures PrefixDeleted(Run(ops))
    decreases |ops|
  {
    if ops == [] {
    } else {
      var n := |ops| - 1;
      assert ops == ops[..n] + [ops[n]];
      Runs.Snoc(Step, INIT, ops[..n], ops[n]);
      Reachable(ops[..n]);
      var w := Run(ops[..n]);
      hide Step, StampedInOrder;
      HistoryOnlyGrows(w, ops[n]);
      InOrderMeansPrefix(ops[..n]);
      if ops[n].Append? || ops[n].DeleteBefore? {
        AppendOrDeleteKeepsPrefix(w, ops[n]);
      } else {
        OtherStepsLeaveJournal(w, ops[n]);
      }
    }
  }

  /**
    With rows stamped in order and a journal that is not empty, the retention check is exact: a
    well-formed cursor is accepted if and only if no row above it has been deleted.
   */
  lemma CursorAcceptedIffNothingLost(ops: seq<Op>, after: int)
    requires Run(ops).stage == Opening && StampedInOrder(Run(ops).history) && after >= 0
    requires Run(ops).rows.Keys != {}
    ensures var w := Run(ops);
            var accepted := Step(w, Open(Text(EPOCH, Some(after))));
            && (accepted.stage == Reading(Replay) <==> forall s <- w.history :: s > after ==> s in w.rows)
            && (accepted.stage == Reading(Replay) ==> accepted.lost == {})
  {
    Reachable(ops);
    InOrderMeansPrefix(ops);
    var w := Run(ops);
    var m: nat := Min(w.rows.Keys);
    assert m in w.rows && m in w.history;
    if after < m - 1 {
      assert (m - 1) in w.history;
    }
  }

  /** The retention check tells the truth about the cursor: accepted exactly if no row above it is gone. */
  ghost predicate ExactAt(w: World, after: int) {
    var accepted := Step(w, Open(Text(EPOCH, Some(after)))).stage == Reading(Replay);
    accepted <==> forall s <- w.history :: s > after ==> s in w.rows
  }

  ghost predicate CheckIsExact(w: World) {
    w.rows.Keys != {} ==> forall after: int :: after >= 0 ==> ExactAt(w, after)
  }

  lemma PrefixMeansExact(w: World, after: int)
    requires TablesOk(w) && w.stage == Opening && w.rows.Keys != {} && PrefixDeleted(w) && after >= 0
    ensures ExactAt(w, after)
  {
    var m: nat := Min(w.rows.Keys);
    assert m in w.rows && m in w.history;
    if after < m - 1 {
      assert (m - 1) in w.history;
    }
  }

  lemma ExactMeansPrefix(w: World, a: nat, b: nat)
    requires TablesOk(w) && w.stage == Opening && a in w.rows && b in w.history && b !in w.rows && a < b
    ensures !ExactAt(w, a - 1) && a - 1 >= 0
  {
    assert Min(w.rows.Keys) <= a;
  }

  /**
    Whatever the stamps, in every reachable state with a journal that is not empty the check is exact
    for all cursors if and only if the deleted rows are a prefix.
   */
  lemma CheckIsExactIffPrefixDeleted(ops: seq<Op>)
    requires Run(ops).stage == Opening && Run(ops).rows.Keys != {}
    ensures CheckIsExact(Run(ops)) <==> PrefixDeleted(Run(ops))
  {
    hide ExactAt;
    Reachable(ops);
    var w := Run(ops);
    if PrefixDeleted(w) {
      forall after: int | after >= 0 ensures ExactAt(w, after) {
        PrefixMeansExact(w, after);
      }
    } else {
      var a, b :| a in w.history && b in w.history && a < b && b !in w.rows && a in w.rows;
      ExactMeansPrefix(w, a, b);
    }
  }

  /**
    From a complete journal, the check is exact after every retention pass if and only if the rows are
    stamped in sequence order. Otherwise there are a cutoff and a cursor that defeat it.
   */
  lemma ExactAfterRetentionIffStampedInOrder(w: World)
    requires TablesOk(w) && w.stage == Opening && w.rows == w.history
    ensures (forall cutoff: int :: CheckIsExact(Step(w, DeleteBefore(cutoff)))) <==> StampedInOrder(w.history)
    ensures !StampedInOrder(w.history) ==>
              exists cutoff: int, after: int :: after >= 0 && Defeated(Step(w, DeleteBefore(cutoff)), after)
  {
    hide ExactAt, Step;
    if StampedInOrder(w.history) {
      forall cutoff: int | true ensures CheckIsExact(Step(w, DeleteBefore(cutoff))) {
        RetentionIsExact(w, cutoff);
      }
    } else {
      var a, b :| a in w.history && b in w.history && a < b && w.history[a].createdAt > w.history[b].createdAt;
      RetentionDefeats(w, a, b);
    }
  }

  /** The check accepts the cursor although a row above it has been deleted. */
  ghost predicate Defeated(w: World, after: int) {
    var accepted := Step(w, Open(Text(EPOCH, Some(after))));
    w.rows.Keys != {} && accepted.stage == Reading(Replay) && accepted.lost != {}
  }

  lemma RetentionIsExact(w: World, cutoff: int)
    requires TablesOk(w) && w.stage == Opening && w.rows == w.history && StampedInOrder(w.history)
    ensures CheckIsExact(Step(w, DeleteBefore(cutoff)))
  {
    hide ExactAt;
    var after := Step(w, DeleteBefore(cutoff));
    if after.rows.Keys != {} {
      forall cursor: int | cursor >= 0 ensures ExactAt(after, cursor) {
        PrefixMeansExact(after, cursor);
      }
    }
  }

  lemma RetentionDefeats(w: World, a: nat, b: nat)
    requires TablesOk(w) && w.stage == Opening && w.rows == w.history
    requires a in w.history && b in w.history && a < b && w.history[a].createdAt > w.history[b].createdAt
    ensures var left := Step(w, DeleteBefore(w.history[a].createdAt));
            !CheckIsExact(left) && a - 1 >= 0 && Defeated(left, a - 1)
  {
    var left := Step(w, DeleteBefore(w.history[a].createdAt));
    assert a in left.rows && b !in left.rows;
    ExactMeansPrefix(left, a, b);
    assert Min(left.rows.Keys) <= a;
    assert b in Step(left, Open(Text(EPOCH, Some(a - 1)))).lost;
  }

  /** With an empty journal every cursor is accepted, and keeps its promise only if nothing was ever above it. */
  lemma EmptyJournalAcceptsAnyCursor(ops: seq<Op>, after: int)
    requires Run(ops).stage == Opening && Run(ops).rows.Keys == {} && after >= 0
    ensures var w := Run(ops);
            var accepted := Step(w, Open(Text(EPOCH, Some(after))));
            accepted.stage == Reading(Replay) && (accepted.lost == {} <==> after >= w.last)
  {
    Reachable(ops);
    var w := Run(ops);
    if after < w.last {
      assert w.last in w.history && w.last !in w.rows.Keys;
      assert w.last in Step(w, Open(Text(EPOCH, Some(after)))).lost;
    }
  }

  ghost const FIRST := Entry(1, "a", 10)
  ghost const SECOND := Entry(2, "b", 5)

  /** Row 2 was stamped before row 1 and retention took row 2 only. */
  ghost const MISORDERED :=
    World(map[1 := FIRST], 2, map[1 := FIRST, 2 := SECOND], {}, [], 0, 0, [], {}, Opening)

  lemma MisorderedIsReachable()
    ensures Run([Append("a", 10), Append("b", 5), DeleteBefore(7), Subscribe]) == MISORDERED
  {
    var ops := [Append("a", 10), Append("b", 5), DeleteBefore(7), Subscribe];
    var w1 := Step(INIT, ops[0]);
    assert w1.rows == map[1 := FIRST];
    var w2 := Step(w1, ops[1]);
    assert w2.rows == map[1 := FIRST, 2 := SECOND];
    var w3 := Step(w2, ops[2]);
    assert Surviving(w2.rows, 7) == map[1 := FIRST];
    assert w3 == MISORDERED.(stage := Connecting);
    Runs.Snoc(Step, INIT, [], ops[0]);
    Runs.Snoc(Step, INIT, [ops[0]], ops[1]);
    Runs.Snoc(Step, INIT, [ops[0], ops[1]], ops[2]);
    Runs.Snoc(Step, INIT, [ops[0], ops[1], ops[2]], ops[3]);
  }

  /** Without stamps in order the check is not exact: cursor 0 is accepted although row 2 is gone. */
  lemma OutOfOrderStampsDefeatTheCheck()
    ensures !StampedInOrder(MISORDERED.history) && MISORDERED.rows.Keys != {}
    ensures var after := Step(MISORDERED, Open(Text(EPOCH, Some(0))));
            after.stage == Reading(Replay) && 2 in after.lost
  {
    assert MISORDERED.history[2].createdAt < MISORDERED.history[1].createdAt;
    assert 1 in MISORDERED.rows.Keys && Min(MISORDERED.rows.Keys) == 1;
  }
}
