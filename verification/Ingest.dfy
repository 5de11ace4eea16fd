/**
  Batch ingest: dedupe by transaction number and, for each newly seen credit, the event, the
  deliveries and the journal entry, all in one store transaction behind the generation fence.
 */
module Ingest {
  import opened Prelude
  import Channels
  import Connections
  import Runs

  datatype Item = Item(number: string, credit: int, debit: int, transactionAt: string, description: string)

  /** The canonical hash: equal for one number exactly when amounts and time are equal. */
  datatype Hash = Hash(number: string, credit: int, debit: int, transactionAt: string)

  /** A row of `transactions`; `emits` and `delivers` are the notification policy applied to it. */
  datatype Row = Row(id: nat, hash: Hash, baseline: bool, source: string)

  datatype JournalRow = JournalRow(event: string, transaction: nat)

  datatype Conflict = Conflict(key: string, existing: Hash, candidate: string)

  datatype Db = Db(
    conn: Option<Connections.Connection>,
    transactions: map<string, Row>, // by semantic key, which is unique
    events: map<string, nat>,       // event id to transaction id
    journal: seq<JournalRow>,
    quarantine: seq<Conflict>,
    channels: Channels.Db,
    nextId: nat)

  const EMPTY := Db(None, map[], map[], [], [], Channels.EMPTY, 0)

  datatype Op =
    | SetConnection(conn: Option<Connections.Connection>)
    | Channel(op: Channels.Op)
    | Batch(generation: int, items: seq<Item>, baseline: bool, source: string)

  function SemanticKey(number: string): string {
    "ACB:" + number
  }

  /** Stands for the digest of the semantic key, taken to be injective. */
  function EventId(number: string): string {
    "bevt_" + SemanticKey(number)
  }

  function HashOf(item: Item): Hash {
    Hash(item.number, item.credit, item.debit, item.transactionAt)
  }

  predicate Blank(item: Item) {
    item.number == "" || item.transactionAt == ""
  }

  predicate Emits(row: Row) {
    !row.baseline && row.hash.credit > 0 && row.source != "FILTER_SYNC" && row.source != "BOOTSTRAP"
  }

  predicate Delivers(row: Row) {
    Emits(row) && (row.source == "REALTIME" || row.source == "CATCH_UP")
  }

  function Source(source: string): string {
    if source == "" then "REALTIME" else source
  }

  // ---- What one item does ----

  predicate Known(db: Db, item: Item) {
    SemanticKey(item.number) in db.transactions
  }

  function Quarantined(db: Db, item: Item): Db
    requires Known(db, item)
  {
    var row := db.transactions[SemanticKey(item.number)];
    if row.hash == HashOf(item) then db
    else db.(quarantine := db.quarantine + [Conflict(SemanticKey(item.number), row.hash, item.description)])
  }

  ghost function Inserted(db: Db, item: Item, baseline: bool, source: string): Db {
    var row := Row(db.nextId, HashOf(item), baseline, source);
    var event := EventId(item.number);
    var stored := db.(transactions := db.transactions[SemanticKey(item.number) := row], nextId := db.nextId + 1);
    if !Emits(row) then stored
    else
      stored.(events := db.events[event := row.id],
              journal := db.journal + [JournalRow(event, row.id)],
              channels := if Delivers(row) then Channels.FannedOut(db.channels, event) else db.channels)
  }

  ghost function ItemStep(db: Db, item: Item, baseline: bool, source: string): Db {
    if Blank(item) then db
    else if Known(db, item) then Quarantined(db, item)
    else Inserted(db, item, baseline, source)
  }

  ghost function Batched(db: Db, items: seq<Item>, baseline: bool, source: string): Db {
    Runs.Fold((d: Db, item: Item) => ItemStep(d, item, baseline, source), db, items)
  }

  predicate FenceAccepts(db: Db, generation: int) {
    db.conn == Some(Connections.Connection(Connections.Monitoring, generation))
  }

  ghost function Apply(db: Db, op: Op): Db {
    match op
    case SetConnection(conn) => db.(conn := conn)
    case Channel(c) => if c.Queue? then db else db.(channels := Channels.Apply(db.channels, c))
    case Batch(generation, items, baseline, source) =>
      if FenceAccepts(db, generation) then Batched(db, items, baseline, Source(source)) else db
  }

  ghost function Run(ops: seq<Op>): Db {
    Runs.Fold(Apply, EMPTY, ops)
  }

  // ---- The invariant ----

  ghost predicate RowsOk(db: Db) {
    && (forall k <- db.transactions ::
          && k == SemanticKey(db.transactions[k].hash.number)
          && db.transactions[k].id < db.nextId)
    && (forall j <- db.transactions, k <- db.transactions ::
          db.transactions[j].id == db.transactions[k].id ==> j == k)
  }

  ghost predicate HasEvent(db: Db, row: Row) {
    EventId(row.hash.number) in db.events && db.events[EventId(row.hash.number)] == row.id
  }

  /** There is an event for a transaction exactly when its first observation called for one. */
  ghost predicate EventsOk(db: Db) {
    && (forall k <- db.transactions :: Emits(db.transactions[k]) ==> HasEvent(db, db.transactions[k]))
    && (forall e <- db.events :: exists k <- db.transactions ::
          Emits(db.transactions[k]) && e == EventId(db.transactions[k].hash.number))
  }

  /** One journal entry per event. */
  ghost predicate JournalMatches(journal: seq<JournalRow>, events: map<string, nat>) {
    && (forall row <- journal :: row.event in events && row.transaction == events[row.event])
    && (forall i, j :: 0 <= i < j < |journal| ==> journal[i].event != journal[j].event)
    && (forall e <- events :: exists row <- journal :: row.event == e)
  }

  ghost predicate JournalOk(db: Db) {
    JournalMatches(db.journal, db.events)
  }

  ghost predicate QueueOk(db: Db) {
    Channels.Inv(db.channels) && forall event <- db.channels.queue :: event in db.events
  }

  ghost predicate Inv(db: Db) {
    RowsOk(db) && EventsOk(db) && JournalOk(db) && QueueOk(db)
  }

  lemma KeysAreInjective(a: string, b: string)
    ensures SemanticKey(a) == SemanticKey(b) <==> a == b
    ensures EventId(a) == EventId(b) <==> a == b
  {
    assert SemanticKey(a)[4..] == a && SemanticKey(b)[4..] == b;
    assert EventId(a)[9..] == a && EventId(b)[9..] == b;
  }

  /** A number that is not on file has no event, so inserting its event cannot hit the primary key. */
  lemma NewNumberHasNoEvent(db: Db, item: Item)
    requires RowsOk(db) && EventsOk(db) && !Known(db, item)
    ensures EventId(item.number) !in db.events
  {
    if EventId(item.number) in db.events {
      var k :| k in db.transactions && Emits(db.transactions[k])
               && EventId(item.number) == EventId(db.transactions[k].hash.number);
      KeysAreInjective(item.number, db.transactions[k].hash.number);
    }
  }

  lemma InsertedRows(db: Db, item: Item, baseline: bool, source: string)
    requires RowsOk(db) && !Known(db, item)
    ensures RowsOk(Inserted(db, item, baseline, source))
  {
  }

  lemma InsertedEvents(db: Db, item: Item, baseline: bool, source: string)
    requires RowsOk(db) && EventsOk(db) && !Known(db, item)
    ensures EventsOk(Inserted(db, item, baseline, source))
  {
    var db' := Inserted(db, item, baseline, source);
    var key := SemanticKey(item.number);
    NewNumberHasNoEvent(db, item);
    forall k <- db'.transactions | Emits(db'.transactions[k]) ensures HasEvent(db', db'.transactions[k]) {
      KeysAreInjective(item.number, db'.transactions[k].hash.number);
    }
    forall e <- db'.events
      ensures exists k <- db'.transactions ::
                Emits(db'.transactions[k]) && e == EventId(db'.transactions[k].hash.number)
    {
      if e in db.events {
        var k :| k in db.transactions && Emits(db.transactions[k]) && e == EventId(db.transactions[k].hash.number);
        assert db'.transactions[k] == db.transactions[k];
      } else {
        assert e == EventId(db'.transactions[key].hash.number);
      }
    }
  }

  lemma JournalAppend(journal: seq<JournalRow>, events: map<string, nat>, row: JournalRow)
    requires JournalMatches(journal, events) && row.event !in events
    ensures JournalMatches(journal + [row], events[row.event := row.transaction])
  {
    var journal', events' := journal + [row], events[row.event := row.transaction];
    forall e <- events' ensures exists r <- journal' :: r.event == e {
      if e == row.event {
        assert row in journal';
      } else {
        var r :| r in journal && r.event == e;
        assert r in journal';
      }
    }
    assert forall i :: 0 <= i < |journal| ==> journal[i] in journal;
  }

  lemma InsertedJournal(db: Db, item: Item, baseline: bool, source: string)
    requires JournalOk(db) && EventId(item.number) !in db.events
    ensures JournalOk(Inserted(db, item, baseline, source))
  {
    JournalAppend(db.journal, db.events, JournalRow(EventId(item.number), db.nextId));
    hide JournalMatches;
  }

  lemma InsertedQueue(db: Db, item: Item, baseline: bool, source: string)
    requires QueueOk(db)
    ensures QueueOk(Inserted(db, item, baseline, source))
  {
    Channels.FannedOutKeepsInv(db.channels, EventId(item.number));
    hide Channels.Inv;
  }

  lemma ItemStepKeepsInv(db: Db, item: Item, baseline: bool, source: string)
    requires Inv(db)
    ensures Inv(ItemStep(db, item, baseline, source))
  {
    hide RowsOk, EventsOk, JournalOk, QueueOk, Inserted;
    if Blank(item) {
    } else if Known(db, item) {
      QuarantineFrame(db, item);
    } else {
      NewNumberHasNoEvent(db, item);
      InsertedRows(db, item, baseline, source);
      InsertedEvents(db, item, baseline, source);
      InsertedJournal(db, item, baseline, source);
      InsertedQueue(db, item, baseline, source);
    }
  }

  lemma QuarantineFrame(db: Db, item: Item)
    requires Inv(db) && Known(db, item)
    ensures Inv(Quarantined(db, item))
  {
  }

  lemma BatchKeepsInv(db: Db, items: seq<Item>, baseline: bool, source: string)
    requires Inv(db)
    ensures Inv(Batched(db, items, baseline, source))
  {
    var step := (d: Db, item: Item) => ItemStep(d, item, baseline, source);
    forall d: Db, item: Item | Inv(d) ensures Inv(step(d, item)) {
      ItemStepKeepsInv(d, item, baseline, source);
    }
    hide Inv, ItemStep;
    Runs.Invariant(step, Inv, db, items);
  }

  lemma ChannelKeepsInv(db: Db, c: Channels.Op)
    requires Inv(db) && !c.Queue?
    ensures Inv(db.(channels := Channels.Apply(db.channels, c)))
  {
    hide Channels.Inv, Channels.Apply, Channels.Grows, RowsOk, EventsOk, JournalOk;
    Channels.ApplyKeepsInv(db.channels, c);
    Channels.OnlyQueueQueues(db.channels, c);
    OnlyChannelsChanged(db, Channels.Apply(db.channels, c));
  }

  lemma OnlyChannelsChanged(db: Db, channels: Channels.Db)
    ensures RowsOk(db.(channels := channels)) <==> RowsOk(db)
    ensures EventsOk(db.(channels := channels)) <==> EventsOk(db)
    ensures JournalOk(db.(channels := channels)) <==> JournalOk(db)
  {
    var db' := db.(channels := channels);
    assert forall r: Row :: HasEvent(db, r) <==> HasEvent(db', r);
  }

  lemma ApplyKeepsInv(db: Db, op: Op)
    requires Inv(db)
    ensures Inv(Apply(db, op))
  {
    hide Channels.Apply, Channels.Inv, Batched;
    match op
    case SetConnection(_) =>
    case Channel(c) => if !c.Queue? { ChannelKeepsInv(db, c); }
    case Batch(_, items, baseline, source) => BatchKeepsInv(db, items, baseline, Source(source));
  }

  lemma Reachable(ops: seq<Op>)
    ensures Inv(Run(ops))
  {
    forall db: Db, op: Op | Inv(db) ensures Inv(Apply(db, op)) {
      ApplyKeepsInv(db, op);
    }
    hide Apply;
    Runs.Invariant(Apply, Inv, EMPTY, ops);
  }

  // ---- Nothing is ever taken back ----

  /** Rows, events, journal entries and queued deliveries are only added. */
  ghost predicate Grows(db: Db, db': Db) {
    && (forall k <- db.transactions :: k in db'.transactions && db'.transactions[k] == db.transactions[k])
    && (forall e <- db.events :: e in db'.events && db'.events[e] == db.events[e])
    && db.journal <= db'.journal
    && Channels.QueueGrows(db.channels.queue, db'.channels.queue)
  }

  /** A batch queues deliveries and leaves the channels themselves alone. */
  ghost predicate SameChannels(c: Channels.Db, c': Channels.Db) {
    c'.endpoints == c.endpoints && c'.versions == c.versions && c'.secrets == c.secrets
  }

  lemma InsertedGrows(db: Db, item: Item, baseline: bool, source: string)
    requires RowsOk(db) && EventsOk(db) && !Known(db, item)
    ensures var db' := Inserted(db, item, baseline, source);
            Grows(db, db') && SameChannels(db.channels, db'.channels)
  {
    NewNumberHasNoEvent(db, item);
    FanOutGrowsQueue(db.channels, EventId(item.number));
    hide RowsOk, EventsOk, Channels.FanRows, Channels.QueueGrows;
  }

  lemma FanOutGrowsQueue(c: Channels.Db, event: string)
    ensures Channels.QueueGrows(c.queue, c.queue)
    ensures Channels.QueueGrows(c.queue, Channels.FannedOut(c, event).queue)
  {
    hide Channels.QueuedNow;
  }

  lemma ItemStepGrows(db: Db, item: Item, baseline: bool, source: string)
    requires RowsOk(db) && EventsOk(db)
    ensures var db' := ItemStep(db, item, baseline, source);
            Grows(db, db') && SameChannels(db.channels, db'.channels)
  {
    hide RowsOk, EventsOk, Inserted;
    if !Blank(item) && !Known(db, item) {
      InsertedGrows(db, item, baseline, source);
    }
  }

  lemma BatchGrows(db: Db, items: seq<Item>, baseline: bool, source: string)
    requires Inv(db)
    ensures var db' := Batched(db, items, baseline, source);
            Grows(db, db') && SameChannels(db.channels, db'.channels)
  {
    var step := (d: Db, item: Item) => ItemStep(d, item, baseline, source);
    var inv := (d: Db) => Inv(d) && Grows(db, d) && SameChannels(db.channels, d.channels);
    forall d: Db, item: Item | inv(d) ensures inv(step(d, item)) {
      ItemStepKeepsInv(d, item, baseline, source);
      ItemStepGrows(d, item, baseline, source);
      GrowsTransitively(db, d, step(d, item));
    }
    hide Inv, ItemStep, Grows, SameChannels;
    assert inv(db) by {
      GrowsReflexively(db);
    }
    Runs.Invariant(step, inv, db, items);
  }

  lemma GrowsReflexively(db: Db)
    ensures Grows(db, db) && SameChannels(db.channels, db.channels)
  {
  }

  lemma GrowsTransitively(a: Db, b: Db, c: Db)
    requires Grows(a, b) && Grows(b, c)
    ensures Grows(a, c)
    ensures SameChannels(a.channels, b.channels) && SameChannels(b.channels, c.channels) ==>
              SameChannels(a.channels, c.channels)
  {
    assert a.journal == c.journal[..|a.journal|];
  }

  lemma ApplyGrows(db: Db, op: Op)
    requires Inv(db)
    ensures Grows(db, Apply(db, op))
  {
    hide Channels.Apply, Channels.Inv, Batched, Inv;
    GrowsReflexively(db);
    match op
    case SetConnection(_) =>
    case Channel(c) => if !c.Queue? { Channels.OnlyQueueQueues(db.channels, c); }
    case Batch(_, items, baseline, source) => BatchGrows(db, items, baseline, Source(source));
  }

  /**
    In every run a transaction number keeps one row for good, its first observation; its event and
    its queued deliveries stay as they were made.
   */
  lemma {:induction false} FirstObservationWins(ops: seq<Op>, k: nat)
    requires k <= |ops|
    ensures Grows(Run(ops[..k]), Run(ops))
    decreases |ops| - k
  {
    if k == |ops| {
      assert ops[..k] == ops;
    } else {
      Reachable(ops[..k]);
      Runs.Prefix(Apply, EMPTY, ops, k);
      hide Apply, Inv, Grows;
      ApplyGrows(Run(ops[..k]), ops[k]);
      FirstObservationWins(ops, k + 1);
      GrowsTransitively(Run(ops[..k]), Run(ops[..k + 1]), Run(ops));
    }
  }

  /** What its first observation called for is what a number has. */
  ghost predicate NotifiedAsStored(db: Db, number: string)
    requires SemanticKey(number) in db.transactions
  {
    var row := db.transactions[SemanticKey(number)];
    && row.hash.number == number
    && (Emits(row) <==> EventId(number) in db.events)
    && (Emits(row) <==> exists entry <- db.journal :: entry.event == EventId(number))
    && (forall i, j | 0 <= i < j < |db.journal| && db.journal[i].event == EventId(number) ::
          db.journal[j].event != EventId(number))
  }

  lemma InvMeansNotifiedAsStored(db: Db, number: string)
    requires Inv(db) && SemanticKey(number) in db.transactions
    ensures NotifiedAsStored(db, number)
  {
    var row := db.transactions[SemanticKey(number)];
    KeysAreInjective(number, row.hash.number);
    if EventId(number) in db.events {
      var k :| k in db.transactions && Emits(db.transactions[k])
               && EventId(number) == EventId(db.transactions[k].hash.number);
      KeysAreInjective(number, db.transactions[k].hash.number);
    }
  }

  lemma NotifiedIffFirstObservationEmits(ops: seq<Op>, number: string)
    requires SemanticKey(number) in Run(ops).transactions
    ensures NotifiedAsStored(Run(ops), number)
  {
    Reachable(ops);
    InvMeansNotifiedAsStored(Run(ops), number);
  }

  // ---- What one batch does to one number ----

  /** One delivery for each active endpoint, pinned as of `c`, and no other. */
  ghost function FreshRows(c: Channels.Db): Channels.Rows {
    map e | e in c.endpoints && c.endpoints[e].active :: Channels.QueuedNow(c, e)
  }

  /** The first usable item with this number, if any, from position `i` on. */
  function FirstOf(items: seq<Item>, number: string): Option<Item>
    decreases |items|
  {
    if items == [] then None
    else if !Blank(items[0]) && items[0].number == number then Some(items[0])
    else FirstOf(items[1..], number)
  }

  lemma FanOutDelivers(c: Channels.Db, event: string)
    requires event !in c.queue
    ensures Channels.RowsFor(Channels.FannedOut(c, event).queue, event) == FreshRows(c)
  {
  }

  lemma SameChannelsSameRows(c: Channels.Db, c': Channels.Db)
    requires SameChannels(c, c')
    ensures FreshRows(c) == FreshRows(c')
  {
    assert forall e <- c.endpoints :: Channels.QueuedNow(c, e) == Channels.QueuedNow(c', e);
  }

  lemma StepLeavesClosedEvent(db: Db, item: Item, baseline: bool, source: string, event: string)
    requires RowsOk(db) && EventsOk(db) && event in db.events
    ensures var db' := ItemStep(db, item, baseline, source);
            && event in db'.events
            && Channels.RowsFor(db'.channels.queue, event) == Channels.RowsFor(db.channels.queue, event)
  {
    hide RowsOk, EventsOk, Channels.FanRows;
    if !Blank(item) && !Known(db, item) {
      NewNumberHasNoEvent(db, item);
    }
  }

  /** Once an event exists, the rest of a batch leaves its deliveries alone. */
  lemma {:induction false} EventQueueIsClosed(db: Db, items: seq<Item>, baseline: bool, source: string, event: string)
    requires Inv(db) && event in db.events
    ensures Channels.RowsFor(Batched(db, items, baseline, source).channels.queue, event)
         == Channels.RowsFor(db.channels.queue, event)
    decreases |items|
  {
    if items == [] {
    } else {
      hide RowsOk, EventsOk, JournalOk, QueueOk, ItemStep;
      ItemStepKeepsInv(db, items[0], baseline, source);
      StepLeavesClosedEvent(db, items[0], baseline, source, event);
      EventQueueIsClosed(ItemStep(db, items[0], baseline, source), items[1..], baseline, source, event);
    }
  }

  /** No operation queues a delivery for an event that exists already. */
  lemma EventStaysClosed(db: Db, op: Op, event: string)
    requires Inv(db) && event in db.events
    ensures Channels.RowsFor(Apply(db, op).channels.queue, event) == Channels.RowsFor(db.channels.queue, event)
  {
    hide Channels.Apply, Batched, Inv;
    match op
    case SetConnection(_) =>
    case Channel(c) => if !c.Queue? { Channels.OnlyQueueQueues(db.channels, c); }
    case Batch(_, items, baseline, source) => EventQueueIsClosed(db, items, baseline, Source(source), event);
  }

  /** What a batch leaves for a number that was not on file before it. */
  ghost predicate Outcome(before: Db, after: Db, number: string, first: Option<Item>, baseline: bool, source: string) {
    var key, event := SemanticKey(number), EventId(number);
    match first
    case None => key !in after.transactions && event !in after.events && event !in after.channels.queue
    case Some(item) =>
      && key in after.transactions
      && after.transactions[key] == Row(after.transactions[key].id, HashOf(item), baseline, source)
      && (Emits(after.transactions[key]) <==> event in after.events)
      && Channels.RowsFor(after.channels.queue, event)
         == if Delivers(after.transactions[key]) then FreshRows(before.channels) else map[]
  }

  lemma NewNumberUntouched(db: Db, number: string)
    requires Inv(db) && SemanticKey(number) !in db.transactions
    ensures EventId(number) !in db.events && EventId(number) !in db.channels.queue
  {
    NewNumberHasNoEvent(db, Item(number, 0, 0, "", ""));
  }

  lemma NoEventForSuppressed(db: Db, number: string)
    requires RowsOk(db) && EventsOk(db) && QueueOk(db) && SemanticKey(number) in db.transactions
    requires !Emits(db.transactions[SemanticKey(number)])
    ensures EventId(number) !in db.events && EventId(number) !in db.channels.queue
  {
    if EventId(number) in db.events {
      var k :| k in db.transactions && Emits(db.transactions[k])
               && EventId(number) == EventId(db.transactions[k].hash.number);
      KeysAreInjective(number, db.transactions[k].hash.number);
    }
  }

  /** The state right after the first usable item with a new number. */
  lemma InsertedOutcome(db: Db, item: Item, baseline: bool, source: string)
    requires Inv(db) && !Known(db, item)
    ensures Outcome(db, Inserted(db, item, baseline, source), item.number, Some(item), baseline, source)
  {
    NewNumberUntouched(db, item.number);
    FanOutDelivers(db.channels, EventId(item.number));
    hide Inv, FreshRows, Channels.FannedOut;
  }

  /** What it left is what the whole batch leaves. */
  lemma OutcomePersists(db: Db, db1: Db, items: seq<Item>, number: string, first: Item, baseline: bool, source: string)
    requires Inv(db1) && Outcome(db, db1, number, Some(first), baseline, source) && first.number == number
    ensures Outcome(db, Batched(db1, items, baseline, source), number, Some(first), baseline, source)
  {
    var event, after := EventId(number), Batched(db1, items, baseline, source);
    BatchGrows(db1, items, baseline, source);
    BatchKeepsInv(db1, items, baseline, source);
    assert after.transactions[SemanticKey(number)] == db1.transactions[SemanticKey(number)];
    if Emits(db1.transactions[SemanticKey(number)]) {
      EventQueueIsClosed(db1, items, baseline, source, event);
    } else {
      NoEventForSuppressed(after, number);
    }
    hide FreshRows, Batched, Inv;
  }

  lemma OutcomeFrame(db: Db, db1: Db, after: Db, number: string, first: Option<Item>, baseline: bool, source: string)
    requires SameChannels(db.channels, db1.channels) && Outcome(db1, after, number, first, baseline, source)
    ensures Outcome(db, after, number, first, baseline, source)
  {
    SameChannelsSameRows(db.channels, db1.channels);
    hide FreshRows;
  }

  /** A step for another number leaves a new number new. */
  lemma OtherItemLeavesNumber(db: Db, item: Item, number: string, baseline: bool, source: string)
    requires Inv(db) && SemanticKey(number) !in db.transactions && (Blank(item) || item.number != number)
    ensures SemanticKey(number) !in ItemStep(db, item, baseline, source).transactions
  {
    KeysAreInjective(number, item.number);
  }

  /**
    The whole story of one batch and one number that was not on file: its first usable item is what
    is stored; it gets an event, a journal entry and deliveries, one per endpoint active at that
    moment and pinned as of that moment, exactly when source and amount call for them.
   */
  lemma {:induction false} BatchOutcome(db: Db, items: seq<Item>, number: string, baseline: bool, source: string)
    requires Inv(db) && SemanticKey(number) !in db.transactions
    ensures Outcome(db, Batched(db, items, baseline, source), number, FirstOf(items, number), baseline, source)
    decreases |items|
  {
    if items == [] {
      NewNumberUntouched(db, number);
    } else {
      var db1 := ItemStep(db, items[0], baseline, source);
      assert Batched(db, items, baseline, source) == Batched(db1, items[1..], baseline, source);
      ItemStepKeepsInv(db, items[0], baseline, source);
      if !Blank(items[0]) && items[0].number == number {
        InsertedOutcome(db, items[0], baseline, source);
        OutcomePersists(db, db1, items[1..], number, items[0], baseline, source);
      } else {
        OtherItemLeavesNumber(db, items[0], number, baseline, source);
        ItemStepGrows(db, items[0], baseline, source);
        BatchOutcome(db1, items[1..], number, baseline, source);
        OutcomeFrame(db, db1, Batched(db, items, baseline, source), number, FirstOf(items, number), baseline, source);
      }
    }
    hide Outcome, Inv, ItemStep;
  }

  /** Item `i` is the first with its number and a date. */
  ghost predicate FirstUsable(items: seq<Item>, i: nat) {
    && i < |items| && items[i].number != "" && items[i].transactionAt != ""
    && (forall j :: 0 <= j < i && items[j].number == items[i].number ==> items[j].transactionAt == "")
  }

  /**
    What the first observation of a number leaves, in its own columns: the row; an event with one
    journal entry exactly for a credit that is no baseline and neither from a filter sync nor from a
    bootstrap; and, if besides it was seen in real time or while catching up, one delivery for each
    endpoint that was active, and no other.
   */
  ghost predicate Decided(before: Db, after: Db, item: Item, baseline: bool, source: string) {
    var key, event := SemanticKey(item.number), EventId(item.number);
    var seen := if source == "" then "REALTIME" else source;
    var announced := !baseline && item.credit > 0 && seen != "FILTER_SYNC" && seen != "BOOTSTRAP";
    && key in after.transactions
    && var row := after.transactions[key];
    && row == Row(row.id, Hash(item.number, item.credit, item.debit, item.transactionAt), baseline, seen)
    && (event in after.events <==> announced)
    && ((exists entry <- after.journal :: entry.event == event) <==> announced)
    && (forall entry <- after.journal :: entry.event == event ==> entry.transaction == row.id)
    && (forall i, j :: 0 <= i < j < |after.journal| && after.journal[i].event == event ==>
          after.journal[j].event != event)
    && (forall e: nat ::
          event in after.channels.queue && e in after.channels.queue[event] <==>
          announced && (seen == "REALTIME" || seen == "CATCH_UP")
          && e in before.channels.endpoints && before.channels.endpoints[e].active)
    && (event in after.channels.queue ==> PinnedAsOf(before.channels, after.channels.queue[event]))
  }

  /** Each delivery carries the revision and the active key its endpoint had. */
  ghost predicate PinnedAsOf(c: Channels.Db, rows: Channels.Rows) {
    forall e <- rows ::
      && rows[e].pin.endpoint == e
      && e in c.endpoints && rows[e].pin.revision == c.endpoints[e].revision
      && e in c.secrets && rows[e].pin.key in c.secrets[e] && c.secrets[e][rows[e].pin.key].active
  }

  lemma {:induction false} FirstOfAt(items: seq<Item>, i: nat)
    requires FirstUsable(items, i)
    ensures FirstOf(items, items[i].number) == Some(items[i])
    decreases i
  {
    if i == 0 {
    } else {
      assert items[1..][i - 1] == items[i];
      assert FirstUsable(items[1..], i - 1) by {
        assert forall j :: 0 <= j < i - 1 ==> items[1..][j] == items[j + 1];
      }
      FirstOfAt(items[1..], i - 1);
    }
  }

  /** Of an accepted batch and a number not on file, the first usable item decides. */
  lemma FirstObservationDecides(
    db: Db, generation: int, items: seq<Item>, baseline: bool, source: string, i: nat)
    requires Inv(db) && db.conn == Some(Connections.Connection(Connections.Monitoring, generation))
    requires FirstUsable(items, i) && SemanticKey(items[i].number) !in db.transactions
    ensures Decided(db, Apply(db, Batch(generation, items, baseline, source)), items[i], baseline, source)
  {
    hide RowsOk, EventsOk, QueueOk, Batched, PinnedAsOf;
    ChannelsAreSound(db);
    var number, after := items[i].number, Apply(db, Batch(generation, items, baseline, source));
    FirstOfAt(items, i);
    hide FirstUsable;
    BatchOutcome(db, items, number, baseline, Source(source));
    ApplyKeepsInv(db, Batch(generation, items, baseline, source));
    InvMeansNotifiedAsStored(after, number);
    var event := EventId(number);
    EntriesOf(after, number);
    DeliveriesOf(db.channels, after.channels.queue, event, Delivers(after.transactions[SemanticKey(number)]));
  }

  lemma DeliveriesOf(c: Channels.Db, queue: map<string, Channels.Rows>, event: string, delivers: bool)
    requires Channels.VersionsOk(c) && Channels.SecretsOk(c)
    requires Channels.RowsFor(queue, event) == if delivers then FreshRows(c) else map[]
    ensures forall e: nat :: event in queue && e in queue[event] <==>
                             delivers && e in c.endpoints && c.endpoints[e].active
    ensures event in queue ==> PinnedAsOf(c, queue[event])
  {
    hide Channels.QueuedNow, Channels.SecretsOk, Channels.VersionsOk;
    assert c.secrets.Keys == c.endpoints.Keys by {
      SecretsJoin(c);
    }
    forall e <- FreshRows(c)
      ensures e in c.endpoints && e in c.secrets
      ensures var pin := FreshRows(c)[e].pin;
              pin.endpoint == e && pin.revision == c.endpoints[e].revision
              && pin.key in c.secrets[e] && c.secrets[e][pin.key].active
    {
      Channels.FanOutResolves(c, e);
    }
    forall e: nat
      ensures event in queue && e in queue[event] <==> delivers && e in c.endpoints && c.endpoints[e].active
    {
      assert event in queue && e in queue[event] <==> e in Channels.RowsFor(queue, event);
      assert e in FreshRows(c) <==> e in c.endpoints && c.endpoints[e].active;
    }
  }

  lemma SecretsJoin(c: Channels.Db)
    requires Channels.SecretsOk(c)
    ensures c.secrets.Keys == c.endpoints.Keys
  {
  }

  lemma EntriesOf(db: Db, number: string)
    requires Inv(db) && SemanticKey(number) in db.transactions
    ensures forall entry <- db.journal :: entry.event == EventId(number) ==>
              entry.transaction == db.transactions[SemanticKey(number)].id
  {
    InvMeansNotifiedAsStored(db, number);
    var row := db.transactions[SemanticKey(number)];
    forall entry <- db.journal | entry.event == EventId(number) ensures entry.transaction == row.id {
      assert HasEvent(db, row);
    }
  }

  /** A number on file whose amounts or time differ goes to the quarantine; the same item changes nothing. */
  lemma OnlyConflictsAreQuarantined(db: Db, item: Item, baseline: bool, source: string)
    requires Inv(db) && item.number != "" && item.transactionAt != ""
    requires SemanticKey(item.number) in db.transactions
    ensures var first := db.transactions[SemanticKey(item.number)].hash;
            ItemStep(db, item, baseline, source) ==
            if first.credit == item.credit && first.debit == item.debit && first.transactionAt == item.transactionAt
            then db
            else db.(quarantine := db.quarantine + [Conflict("ACB:" + item.number, first, item.description)])
  {
    KeysAreInjective(item.number, db.transactions[SemanticKey(item.number)].hash.number);
  }

  // ---- Counting and re-ingesting ----

  function Blanks(items: seq<Item>): nat
    decreases |items|
  {
    if items == [] then 0 else (if Blank(items[0]) then 1 else 0) + Blanks(items[1..])
  }

  /** A batch whose usable numbers are all on file can only add to the quarantine. */
  lemma {:induction false} KnownBatchOnlyQuarantines(db: Db, items: seq<Item>, baseline: bool, source: string)
    requires forall item <- items :: Blank(item) || Known(db, item)
    ensures Batched(db, items, baseline, source) == db.(quarantine := Batched(db, items, baseline, source).quarantine)
    decreases |items|
  {
    if items == [] {
    } else {
      var db1 := ItemStep(db, items[0], baseline, source);
      assert items[0] in items && forall item <- items[1..] :: item in items;
      assert db1 == db.(quarantine := db1.quarantine);
      KnownBatchOnlyQuarantines(db1, items[1..], baseline, source);
    }
  }

  lemma {:induction false} BatchMakesKnown(db: Db, items: seq<Item>, baseline: bool, source: string, item: Item)
    requires Inv(db) && item in items && !Blank(item)
    ensures Known(Batched(db, items, baseline, source), item)
    decreases |items|
  {
    var db1 := ItemStep(db, items[0], baseline, source);
    ItemStepKeepsInv(db, items[0], baseline, source);
    hide Inv;
    if item == items[0] {
      BatchGrows(db1, items[1..], baseline, source);
    } else {
      BatchMakesKnown(db1, items[1..], baseline, source, item);
    }
  }

  /** Ingesting a batch again, from any source, changes nothing outside the quarantine. */
  lemma ReingestOnlyQuarantines(db: Db, items: seq<Item>, baseline: bool, source: string, again: bool, source': string)
    requires Inv(db)
    ensures var once := Batched(db, items, baseline, source);
            var twice := Batched(once, items, again, source');
            twice == once.(quarantine := twice.quarantine)
  {
    var once := Batched(db, items, baseline, source);
    forall item <- items ensures Blank(item) || Known(once, item) {
      if !Blank(item) {
        BatchMakesKnown(db, items, baseline, source, item);
      }
    }
    KnownBatchOnlyQuarantines(once, items, again, source');
  }

  // ---- The store ----

  datatype Notification = Notification(event: string, transaction: nat, journalSeq: nat)

  datatype BatchResult = BatchResult(inserted: nat, skipped: nat, conflicts: nat, newEvents: seq<Notification>)

  /** The notifications of the journal entries from position `from` on. */
  function Announced(journal: seq<JournalRow>, from: nat): seq<Notification>
    requires from <= |journal|
  {
    seq(|journal| - from, i requires 0 <= i < |journal| - from =>
      Notification(journal[from + i].event, journal[from + i].transaction, from + i + 1))
  }

  /** The rows of the active-endpoint query: each with its current revision and active key. */
  ghost predicate Current(refs: map<nat, Channels.Pin>, c: Channels.Db) {
    && (forall e: nat :: e in refs <==> e in c.endpoints && c.endpoints[e].active)
    && (forall e <- refs :: e in c.endpoints && refs[e] == Channels.PinOf(c, e))
  }

  ghost function PinsUpTo(c: Channels.Db, done: set<nat>): map<nat, Channels.Pin>
    requires done <= c.endpoints.Keys
  {
    map e | e in done && c.endpoints[e].active :: Channels.PinOf(c, e)
  }

  lemma NoPins(c: Channels.Db)
    ensures PinsUpTo(c, {}) == map[]
  {
  }

  lemma PinsOneMore(c: Channels.Db, done: set<nat>, e: nat)
    requires done <= c.endpoints.Keys && e in c.endpoints
    ensures PinsUpTo(c, done + {e}) ==
            if c.endpoints[e].active then PinsUpTo(c, done)[e := Channels.PinOf(c, e)] else PinsUpTo(c, done)
  {
    hide Channels.PinOf;
  }

  lemma AllPins(c: Channels.Db)
    ensures Current(PinsUpTo(c, c.endpoints.Keys), c)
  {
    hide Channels.PinOf;
  }

  lemma CurrentAt(refs: map<nat, Channels.Pin>, c: Channels.Db, e: nat)
    requires Current(refs, c) && e in refs
    ensures e in c.endpoints && refs[e] == Channels.PinOf(c, e)
  {
  }

  /** The fan-out restricted to the endpoints in `done`. */
  ghost function RowsUpTo(c: Channels.Db, rows: Channels.Rows, done: set<nat>): Channels.Rows
    requires done <= c.endpoints.Keys
  {
    rows + map e | e in done && e !in rows :: Channels.QueuedNow(c, e)
  }

  lemma RowsUpToOneMore(c: Channels.Db, rows: Channels.Rows, done: set<nat>, e: nat)
    requires done <= c.endpoints.Keys && e in c.endpoints && e !in done
    ensures var mid := RowsUpTo(c, rows, done);
            && (e in mid <==> e in rows)
            && RowsUpTo(c, rows, done + {e}) == if e in rows then mid else mid[e := Channels.QueuedNow(c, e)]
  {
    hide Channels.QueuedNow;
  }

  lemma RowsUpToAll(c: Channels.Db, rows: Channels.Rows, refs: map<nat, Channels.Pin>)
    requires Current(refs, c)
    ensures refs.Keys <= c.endpoints.Keys
    ensures RowsUpTo(c, rows, {}) == rows && RowsUpTo(c, rows, refs.Keys) == Channels.FanRows(c, rows)
  {
    hide Channels.QueuedNow, Channels.PinOf;
  }

  lemma ChannelsAreSound(db: Db)
    requires QueueOk(db)
    ensures Channels.VersionsOk(db.channels) && Channels.SecretsOk(db.channels)
  {
  }

  class Ledger {
    var conn: Option<Connections.Connection>
    var transactions: map<string, Row>
    var events: map<string, nat>
    var journal: seq<JournalRow>
    var quarantine: seq<Conflict>
    var channels: Channels.Db
    var nextId: nat

    ghost function Tables(): Db
      reads this
    {
      Db(conn, transactions, events, journal, quarantine, channels, nextId)
    }

    constructor ()
      ensures Tables() == EMPTY
    {
      conn, transactions, events, journal, quarantine := None, map[], map[], [], [];
      channels, nextId := Channels.EMPTY, 0;
    }

    /** One row of the active-endpoint query, joined with the active secret. */
    method PinRow(e: nat) returns (pin: Channels.Pin)
      requires Channels.SecretsOk(channels) && e in channels.endpoints
      ensures pin == Channels.PinOf(channels, e)
    {
      assert Channels.KeysOk(channels.secrets[e], channels.nextKey);
      var k :| k in channels.secrets[e] && channels.secrets[e][k].active;
      return Channels.Pin(e, channels.endpoints[e].revision, k);
    }

    /** The active endpoints with their current revision and active key. */
    method ActiveEndpoints() returns (refs: map<nat, Channels.Pin>)
      requires Channels.SecretsOk(channels)
      ensures Current(refs, channels)
    {
      hide Channels.SecretsOk, Channels.PinOf, PinsUpTo;
      refs := map[];
      var todo := channels.endpoints.Keys;
      ghost var done: set<nat> := {};
      NoPins(channels);
      while todo != {}
        invariant done + todo == channels.endpoints.Keys && done !! todo
        invariant refs == PinsUpTo(channels, done)
        decreases |todo|
      {
        var e :| e in todo;
        PinsOneMore(channels, done, e);
        if channels.endpoints[e].active {
          var pin := PinRow(e);
          refs := refs[e := pin];
        }
        done, todo := done + {e}, todo - {e};
      }
      assert done == channels.endpoints.Keys;
      AllPins(channels);
    }

    /** The row inserted for one endpoint of the query result. */
    method DeliveryRow(e: nat, pin: Channels.Pin) returns (row: Channels.Queued)
      requires Channels.VersionsOk(channels) && Channels.SecretsOk(channels)
      requires e in channels.endpoints && pin == Channels.PinOf(channels, e)
      ensures row == Channels.QueuedNow(channels, e)
    {
      Channels.FanOutResolves(channels, e);
      row := Channels.Queued(pin, channels.versions[e][pin.revision], channels.secrets[e][pin.key].value);
    }

    /** Inserts one delivery per active endpoint, skipping those that exist. */
    method QueueDeliveries(event: string, refs: map<nat, Channels.Pin>)
      requires Channels.VersionsOk(channels) && Channels.SecretsOk(channels) && Current(refs, channels)
      modifies this`channels
      ensures channels == Channels.FannedOut(old(channels), event)
    {
      hide Channels.VersionsOk, Channels.SecretsOk, Channels.QueuedNow, Channels.FanRows, Channels.PinOf;
      hide RowsUpTo, Current;
      var rows := Channels.RowsFor(channels.queue, event);
      var todo := refs.Keys;
      ghost var before := rows;
      ghost var done: set<nat> := {};
      RowsUpToAll(channels, rows, refs);
      while todo != {}
        modifies {}
        invariant done + todo == refs.Keys && done !! todo
        invariant rows == RowsUpTo(channels, before, done)
        decreases |todo|
      {
        var e :| e in todo;
        CurrentAt(refs, channels, e);
        RowsUpToOneMore(channels, before, done, e);
        if e !in rows {
          var row := DeliveryRow(e, refs[e]);
          rows := rows[e := row];
        }
        done, todo := done + {e}, todo - {e};
      }
      assert done == refs.Keys;
      channels := channels.(queue := channels.queue[event := rows]);
    }

    /** One pass of the item loop. */
    method IngestItem(item: Item, baseline: bool, source: string, refs: map<nat, Channels.Pin>, sofar: BatchResult)
      returns (r: BatchResult)
      requires Inv(Tables()) && Current(refs, channels)
      modifies this
      ensures Tables() == ItemStep(old(Tables()), item, baseline, source)
      // a number on file: only a difference is kept, in the quarantine
      ensures item.number != "" && item.transactionAt != "" && SemanticKey(item.number) in old(transactions) ==>
                var first := old(transactions)[SemanticKey(item.number)].hash;
                quarantine ==
                if first == Hash(item.number, item.credit, item.debit, item.transactionAt) then old(quarantine)
                else old(quarantine) + [Conflict(SemanticKey(item.number), first, item.description)]
      // a new number: its row, and what the policy says for it
      ensures item.number != "" && item.transactionAt != "" && SemanticKey(item.number) !in old(transactions) ==>
                var hash := Hash(item.number, item.credit, item.debit, item.transactionAt);
                var row := Row(old(nextId), hash, baseline, source);
                var announced := !baseline && item.credit > 0 && source != "FILTER_SYNC" && source != "BOOTSTRAP";
                && transactions == old(transactions)[SemanticKey(item.number) := row]
                && journal == old(journal) + (if announced then [JournalRow(EventId(item.number), row.id)] else [])
                && events == (if announced then old(events)[EventId(item.number) := row.id] else old(events))
                && channels == if announced && (source == "REALTIME" || source == "CATCH_UP")
                               then Channels.FannedOut(old(channels), EventId(item.number)) else old(channels)
      ensures r.inserted - sofar.inserted == |transactions| - |old(transactions)|
      ensures r.conflicts - sofar.conflicts == |quarantine| - |old(quarantine)|
      ensures r.inserted + r.skipped + (if Blank(item) then 1 else 0) == sofar.inserted + sofar.skipped + 1
      ensures old(journal) <= journal && r.newEvents == sofar.newEvents + Announced(journal, |old(journal)|)
    {
      hide RowsOk, EventsOk, JournalOk, QueueOk, Current, Channels.FannedOut, Announced;
      AnnouncedLast(journal, JournalRow(EventId(item.number), nextId));
      r := sofar;
      if item.number == "" || item.transactionAt == "" {
        return;
      }
      var semanticKey := SemanticKey(item.number);
      if semanticKey in transactions {
        if transactions[semanticKey].hash != HashOf(item) {
          r := r.(conflicts := r.conflicts + 1);
          quarantine := quarantine + [Conflict(semanticKey, transactions[semanticKey].hash, item.description)];
        }
        r := r.(skipped := r.skipped + 1);
        return;
      }
      ghost var before := Tables();
      var txn := nextId;
      nextId := nextId + 1;
      transactions := transactions[semanticKey := Row(txn, HashOf(item), baseline, source)];
      r := r.(inserted := r.inserted + 1);
      var emitCreditEvent := !baseline && item.credit > 0 && source != "FILTER_SYNC" && source != "BOOTSTRAP";
      var deliverWebhooks := emitCreditEvent && (source == "REALTIME" || source == "CATCH_UP");
      if emitCreditEvent {
        var event := EventId(item.number);
        NewNumberHasNoEvent(before, item);
        ChannelsAreSound(before);
        assert event !in events; // neither unique constraint of `events` can reject the insert
        events := events[event := txn];
        if deliverWebhooks {
          QueueDeliveries(event, refs);
        }
        journal := journal + [JournalRow(event, txn)];
        r := r.(newEvents := r.newEvents + [Notification(event, txn, |journal|)]);
      }
    }

    /** The item loop. */
    method IngestItems(items: seq<Item>, baseline: bool, source: string, refs: map<nat, Channels.Pin>)
      returns (res: BatchResult)
      requires Inv(Tables()) && Current(refs, channels)
      modifies this
      ensures Inv(Tables()) && Tables() == Batched(old(Tables()), items, baseline, source)
      ensures Tallied(old(Tables()), Tables(), items, res)
    {
      hide Inv, ItemStep, Current, Tallied;
      ghost var before := Tables();
      ghost var step := (d: Db, item: Item) => ItemStep(d, item, baseline, source);
      res := BatchResult(0, 0, 0, []);
      NothingTallied(before);
      for i := 0 to |items|
        invariant Tables() == Runs.Fold(step, before, items[..i])
        invariant Inv(Tables()) && Current(refs, channels)
        invariant Tallied(before, Tables(), items[..i], res)
      {
        ghost var mid := Tables();
        Runs.Prefix(step, before, items, i);
        ItemStepKeepsInv(mid, items[i], baseline, source);
        StepKeepsCurrent(mid, items[i], baseline, source, refs);
        ghost var sofar := res;
        res := IngestItem(items[i], baseline, source, refs, res);
        OneMoreTallied(before, mid, Tables(), items[..i], items[i], sofar, res);
        assert items[..i + 1] == items[..i] + [items[i]];
      }
      assert items[..|items|] == items;
    }

    /** The whole ingest transaction: fence, endpoint query, item loop. None is a fence mismatch. */
    method IngestTransactionsBatch(generation: int, items: seq<Item>, baseline: bool, source: string)
      returns (r: Option<BatchResult>)
      requires Inv(Tables())
      modifies this
      ensures Inv(Tables())
      ensures Tables() == Apply(old(Tables()), Batch(generation, items, baseline, source))
      ensures r.Some? <==> FenceAccepts(old(Tables()), generation)
      ensures r.Some? ==> Tallied(old(Tables()), Tables(), items, r.value)
      // the fence, and what becomes of every number not on file
      ensures r.Some? <==> old(conn) == Some(Connections.Connection(Connections.Monitoring, generation))
      ensures r.None? ==> Tables() == old(Tables())
      ensures r.Some? ==> forall i: nat ::
                i < |items| && FirstUsable(items, i) && SemanticKey(items[i].number) !in old(transactions) ==>
                Decided(old(Tables()), Tables(), items[i], baseline, source)
    {
      hide Inv, Current, Tallied, Batched, FirstUsable, Decided;
      ghost var before := Tables();
      if conn.None? || conn.value.generation != generation || conn.value.state != Connections.Monitoring {
        return None;
      }
      SoundForBatch(Tables());
      var refs := ActiveEndpoints();
      var res := IngestItems(items, baseline, if source == "" then "REALTIME" else source, refs);
      forall i: nat | i < |items| && FirstUsable(items, i) && SemanticKey(items[i].number) !in before.transactions
        ensures Decided(before, Tables(), items[i], baseline, source)
      {
        FirstObservationDecides(before, generation, items, baseline, source, i);
      }
      return Some(res);
    }
  }

  /** What the returned counters say about the tables. */
  ghost predicate Tallied(before: Db, after: Db, items: seq<Item>, r: BatchResult) {
    && r.inserted + r.skipped + Blanks(items) == |items|
    && r.inserted == |after.transactions| - |before.transactions|
    && r.conflicts == |after.quarantine| - |before.quarantine|
    && |before.journal| <= |after.journal| && r.newEvents == Announced(after.journal, |before.journal|)
  }

  lemma AnnouncedLast(journal: seq<JournalRow>, row: JournalRow)
    ensures Announced(journal, |journal|) == []
    ensures Announced(journal + [row], |journal|) == [Notification(row.event, row.transaction, |journal| + 1)]
  {
  }

  lemma NothingTallied(db: Db)
    ensures Tallied(db, db, [], BatchResult(0, 0, 0, []))
  {
  }

  lemma OneMoreTallied(before: Db, mid: Db, after: Db, items: seq<Item>, item: Item, r: BatchResult, r': BatchResult)
    requires Tallied(before, mid, items, r)
    requires mid.journal <= after.journal
    requires r'.inserted - r.inserted == |after.transactions| - |mid.transactions|
    requires r'.conflicts - r.conflicts == |after.quarantine| - |mid.quarantine|
    requires r'.inserted + r'.skipped + (if Blank(item) then 1 else 0) == r.inserted + r.skipped + 1
    requires r'.newEvents == r.newEvents + Announced(after.journal, |mid.journal|)
    ensures Tallied(before, after, items + [item], r')
  {
    BlanksSnoc(items, item);
    AnnouncedAppends(after.journal, |before.journal|, |mid.journal|);
    assert after.journal[..|mid.journal|] == mid.journal;
  }

  lemma SoundForBatch(db: Db)
    requires Inv(db)
    ensures Channels.SecretsOk(db.channels)
  {
  }

  lemma StepKeepsCurrent(db: Db, item: Item, baseline: bool, source: string, refs: map<nat, Channels.Pin>)
    requires Inv(db) && Current(refs, db.channels)
    ensures Current(refs, ItemStep(db, item, baseline, source).channels)
  {
    hide Channels.PinOf, ItemStep, RowsOk, EventsOk, JournalOk, QueueOk, Grows;
    ItemStepGrows(db, item, baseline, source);
    SameChannelsSamePins(db.channels, ItemStep(db, item, baseline, source).channels);
  }

  lemma SameChannelsSamePins(c: Channels.Db, c': Channels.Db)
    requires SameChannels(c, c')
    ensures forall e <- c.endpoints :: Channels.PinOf(c, e) == Channels.PinOf(c', e)
  {
  }

  lemma {:induction false} BlanksSnoc(items: seq<Item>, item: Item)
    ensures Blanks(items + [item]) == Blanks(items) + if Blank(item) then 1 else 0
    decreases |items|
  {
    if items != [] {
      assert (items + [item])[1..] == items[1..] + [item];
      BlanksSnoc(items[1..], item);
    } else {
      assert ([] + [item])[1..] == [];
    }
  }

  lemma AnnouncedAppends(journal: seq<JournalRow>, from: nat, mid: nat)
    requires from <= mid <= |journal|
    ensures Announced(journal[..mid], from) + Announced(journal, mid) == Announced(journal, from)
  {
  }
}
