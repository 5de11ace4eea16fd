/**
  The whole way of a credit: the connection, the ledger, one event stream and the outbox side by side.

  A batch commits its rows, its journal entries and its deliveries in one transaction, so one step of
  this machine changes all three components: the stream's journal gets the new entries, the outbox the
  new deliveries. Everything else steps in one component alone. `ids` remembers which delivery row was
  made for which event and endpoint.
 */
module Pipeline {
  import opened Prelude
  import Channels
  import Connections
  import EventStream
  import Ingest
  import Journal
  import Outbox
  import Runs

  /** A new delivery row: event, endpoint and the fresh id it gets. */
  datatype Ticket = Ticket(event: string, endpoint: nat, id: nat)

  datatype World = World(
    connections: Connections.Db,
    ledger: Ingest.Db,
    stream: EventStream.World,
    outbox: Outbox.Db,
    ids: map<(string, nat), nat>)

  datatype Op =
    | Connect(c: Connections.Op)
    | Administer(a: Channels.Op)
    | Batch(generation: int, items: seq<Ingest.Item>, baseline: bool, source: string, tickets: seq<Ticket>, now: int)
    | Stream(s: EventStream.Op)
    | Deliver(d: Outbox.Op)

  function Init(config: Outbox.Config): World {
    World(Connections.EMPTY, Ingest.EMPTY, EventStream.INIT, Outbox.Empty(config), map[])
  }

  // ---------- one step ----------

  function Appends(rows: seq<Ingest.JournalRow>, now: int): seq<EventStream.Op> {
    seq(|rows|, i requires 0 <= i < |rows| => EventStream.Append(rows[i].event, now))
  }

  function Queueings(tickets: seq<Ticket>, now: int): seq<Outbox.Op> {
    seq(|tickets|, i requires 0 <= i < |tickets| => Outbox.Queue(tickets[i].id, tickets[i].endpoint, now))
  }

  predicate InQueue(queue: map<string, Channels.Rows>, event: string, endpoint: nat) {
    event in queue && endpoint in queue[event]
  }

  predicate IsNew(before: map<string, Channels.Rows>, after: map<string, Channels.Rows>, t: Ticket) {
    InQueue(after, t.event, t.endpoint) && !InQueue(before, t.event, t.endpoint)
  }

  /** The tickets are the new rows of the queue, each once, with fresh ids. */
  ghost predicate Lists(
    tickets: seq<Ticket>, before: map<string, Channels.Rows>, after: map<string, Channels.Rows>,
    deliveries: map<nat, Outbox.Delivery>)
  {
    && (forall i :: 0 <= i < |tickets| ==> IsNew(before, after, tickets[i]) && tickets[i].id !in deliveries)
    && (forall i, j :: 0 <= i < j < |tickets| ==>
          tickets[i].id != tickets[j].id && Key(tickets[i]) != Key(tickets[j]))
    && (forall event, e: nat :: InQueue(after, event, e) && !InQueue(before, event, e) ==>
          exists i :: 0 <= i < |tickets| && Key(tickets[i]) == (event, e))
  }

  function Key(t: Ticket): (string, nat) {
    (t.event, t.endpoint)
  }

  function Registered(ids: map<(string, nat), nat>, tickets: seq<Ticket>): map<(string, nat), nat> {
    if tickets == [] then ids
    else
      var last := tickets[|tickets| - 1];
      Registered(ids, tickets[..|tickets| - 1])[Key(last) := last.id]
  }

  function BatchOf(op: Op): Ingest.Op
    requires op.Batch?
  {
    Ingest.Batch(op.generation, op.items, op.baseline, op.source)
  }

  function NewRows(before: seq<Ingest.JournalRow>, after: seq<Ingest.JournalRow>): seq<Ingest.JournalRow> {
    if |before| <= |after| then after[|before|..] else []
  }

  /** Whether a batch step can be taken: its tickets list what it queues. */
  ghost predicate Enabled(w: World, op: Op)
    requires op.Batch?
  {
    Lists(op.tickets, w.ledger.channels.queue, Ingest.Apply(w.ledger, BatchOf(op)).channels.queue, w.outbox.deliveries)
  }

  ghost function Step(w: World, op: Op): World {
    match op
    case Connect(c) =>
      var connections := Connections.Apply(w.connections, c);
      w.(connections := connections, ledger := Ingest.Apply(w.ledger, Ingest.SetConnection(connections.conn)))
    case Administer(a) =>
      var ledger := Ingest.Apply(w.ledger, Ingest.Channel(a));
      w.(ledger := ledger,
         outbox := if a.SetStatus? && a.endpoint in w.ledger.channels.endpoints
                   then Outbox.Apply(w.outbox, Outbox.SetActive(a.endpoint, a.on)) else w.outbox)
    case Batch(_, _, _, _, tickets, now) =>
      if !Enabled(w, op) then w
      else
        var ledger := Ingest.Apply(w.ledger, BatchOf(op));
        World(w.connections, ledger,
              Runs.Fold(EventStream.Step, w.stream, Appends(NewRows(w.ledger.journal, ledger.journal), now)),
              Outbox.Run(w.outbox, Queueings(tickets, now)),
              Registered(w.ids, tickets))
    case Stream(s) => if s.Append? then w else w.(stream := EventStream.Step(w.stream, s))
    case Deliver(d) => if d.Queue? || d.SetActive? then w else w.(outbox := Outbox.Apply(w.outbox, d))
  }

  ghost function Run(config: Outbox.Config, ops: seq<Op>): World {
    Runs.Fold(Step, Init(config), ops)
  }

  // ---------- the invariant ----------

  /** Entry s of the stream's journal carries the event of the s-th journal row of the ledger. */
  ghost predicate JournalsAgree(journal: seq<Ingest.JournalRow>, stream: EventStream.World) {
    && stream.last == |journal|
    && forall s: nat :: 1 <= s <= |journal| ==> s in stream.history && stream.history[s].payload == journal[s - 1].event
  }

  /** There is one delivery row for each queued event and endpoint, and no other. */
  ghost predicate DeliveriesAgree(
    queue: map<string, Channels.Rows>, ids: map<(string, nat), nat>, deliveries: map<nat, Outbox.Delivery>)
  {
    && (forall event, e: nat :: InQueue(queue, event, e) <==> (event, e) in ids)
    && (forall k <- ids :: ids[k] in deliveries && deliveries[ids[k]].endpoint == k.1)
    && (forall j <- ids, k <- ids :: ids[j] == ids[k] ==> j == k)
    && (forall id <- deliveries :: exists k <- ids :: ids[k] == id)
  }

  ghost predicate ActiveAgree(endpoints: map<nat, Channels.Endpoint>, active: set<nat>) {
    forall e: nat :: e in active <==> e in endpoints && endpoints[e].active
  }

  ghost predicate Agree(w: World) {
    && w.ledger.conn == w.connections.conn
    && JournalsAgree(w.ledger.journal, w.stream)
    && DeliveriesAgree(w.ledger.channels.queue, w.ids, w.outbox.deliveries)
    && ActiveAgree(w.ledger.channels.endpoints, w.outbox.active)
  }

  ghost predicate Inv(w: World) {
    && Connections.Inv(w.connections) && Ingest.Inv(w.ledger) && EventStream.Inv(w.stream) && Outbox.Inv(w.outbox)
    && Agree(w)
  }

  // ---------- the stream's side ----------

  /** The stream's own progress, which an append leaves alone. */
  ghost predicate SameProgress(a: EventStream.World, b: EventStream.World) {
    a == b.(rows := a.rows, history := a.history, last := a.last)
  }

  ghost predicate HistoryStays(a: EventStream.World, b: EventStream.World) {
    forall s <- a.history :: s in b.history && b.history[s] == a.history[s]
  }

  lemma AppendAgrees(journal: seq<Ingest.JournalRow>, stream: EventStream.World, row: Ingest.JournalRow, now: int)
    requires EventStream.Inv(stream) && JournalsAgree(journal, stream)
    ensures var after := EventStream.Step(stream, EventStream.Append(row.event, now));
            JournalsAgree(journal + [row], after) && SameProgress(stream, after) && HistoryStays(stream, after)
  {
  }

  lemma {:induction false} AppendsAgree(
    journal: seq<Ingest.JournalRow>, stream: EventStream.World, rows: seq<Ingest.JournalRow>, now: int)
    requires EventStream.Inv(stream) && JournalsAgree(journal, stream)
    ensures var after := Runs.Fold(EventStream.Step, stream, Appends(rows, now));
            EventStream.Inv(after) && JournalsAgree(journal + rows, after)
            && SameProgress(stream, after) && HistoryStays(stream, after)
    decreases |rows|
  {
    hide EventStream.Inv, EventStream.Step, JournalsAgree;
    if rows == [] {
      assert journal + rows == journal;
    } else {
      var op := EventStream.Append(rows[0].event, now);
      AppendAgrees(journal, stream, rows[0], now);
      EventStream.StepKeepsInv(stream, op);
      assert Appends(rows, now)[0] == op && Appends(rows, now)[1..] == Appends(rows[1..], now);
      AppendsAgree(journal + [rows[0]], EventStream.Step(stream, op), rows[1..], now);
      assert journal + [rows[0]] + rows[1..] == journal + rows;
    }
  }

  lemma StreamStepAgrees(journal: seq<Ingest.JournalRow>, stream: EventStream.World, op: EventStream.Op)
    requires JournalsAgree(journal, stream) && !op.Append?
    ensures JournalsAgree(journal, EventStream.Step(stream, op))
    ensures HistoryStays(stream, EventStream.Step(stream, op))
  {
  }

  // ---------- the outbox's side ----------

  ghost predicate Distinct(tickets: seq<Ticket>, deliveries: map<nat, Outbox.Delivery>) {
    && (forall i :: 0 <= i < |tickets| ==> tickets[i].id !in deliveries)
    && (forall i, j :: 0 <= i < j < |tickets| ==>
          tickets[i].id != tickets[j].id && Key(tickets[i]) != Key(tickets[j]))
  }

  /** Not tried yet and due at once. */
  function NewDelivery(endpoint: nat, now: int): Outbox.Delivery {
    Outbox.Delivery(endpoint, Outbox.Pending, 0, 0, now, None, None, now)
  }

  /** The deliveries after queueing the tickets. */
  ghost predicate Queued(
    before: map<nat, Outbox.Delivery>, tickets: seq<Ticket>, after: map<nat, Outbox.Delivery>, now: int)
  {
    && (forall id <- before :: id in after && after[id] == before[id])
    && (forall i :: 0 <= i < |tickets| ==>
          tickets[i].id in after && after[tickets[i].id] == NewDelivery(tickets[i].endpoint, now))
    && (forall id <- after :: id in before || exists i :: 0 <= i < |tickets| && tickets[i].id == id)
  }

  lemma {:induction false} QueueingsQueue(outbox: Outbox.Db, tickets: seq<Ticket>, now: int)
    requires Outbox.Inv(outbox) && Distinct(tickets, outbox.deliveries)
    ensures var after := Outbox.Run(outbox, Queueings(tickets, now));
            && Outbox.Inv(after) && after.active == outbox.active
            && Queued(outbox.deliveries, tickets, after.deliveries, now)
    decreases |tickets|
  {
    hide Outbox.Inv, Outbox.Apply;
    if tickets == [] {
    } else {
      var n := |tickets| - 1;
      var ops := Queueings(tickets, now);
      var op := Outbox.Queue(tickets[n].id, tickets[n].endpoint, now);
      assert ops == Queueings(tickets[..n], now) + [op];
      Runs.Snoc(Outbox.Apply, outbox, Queueings(tickets[..n], now), op);
      QueueingsQueue(outbox, tickets[..n], now);
      var mid := Outbox.Run(outbox, Queueings(tickets[..n], now));
      Outbox.ApplyKeepsInv(mid, op);
      OneQueued(outbox.deliveries, tickets, mid, now);
    }
  }

  lemma OneQueued(before: map<nat, Outbox.Delivery>, tickets: seq<Ticket>, mid: Outbox.Db, now: int)
    requires tickets != [] && Distinct(tickets, before) && Queued(before, tickets[..|tickets| - 1], mid.deliveries, now)
    ensures var last := tickets[|tickets| - 1];
            var after := Outbox.Apply(mid, Outbox.Queue(last.id, last.endpoint, now));
            after.active == mid.active && Queued(before, tickets, after.deliveries, now)
  {
    var n := |tickets| - 1;
    assert tickets[n].id !in mid.deliveries;
    forall i | 0 <= i < n ensures tickets[..n][i] == tickets[i] {
    }
  }

  lemma {:induction false} RegisteredHas(ids: map<(string, nat), nat>, tickets: seq<Ticket>, k: (string, nat))
    requires forall i, j :: 0 <= i < j < |tickets| ==> Key(tickets[i]) != Key(tickets[j])
    ensures var r := Registered(ids, tickets);
            (forall i :: 0 <= i < |tickets| && Key(tickets[i]) == k ==> k in r && r[k] == tickets[i].id)
            && ((forall i :: 0 <= i < |tickets| ==> Key(tickets[i]) != k) ==>
                  (k in r <==> k in ids) && (k in r ==> r[k] == ids[k]))
    decreases |tickets|
  {
    if tickets == [] {
    } else {
      RegisteredHas(ids, tickets[..|tickets| - 1], k);
    }
  }

  /** Key k is registered with its old delivery, with that of its one ticket, or not at all. */
  lemma RegisteredAt(before: map<string, Channels.Rows>, after: map<string, Channels.Rows>,
    ids: map<(string, nat), nat>, deliveries: map<nat, Outbox.Delivery>, tickets: seq<Ticket>, k: (string, nat))
    requires DeliveriesAgree(before, ids, deliveries)
    requires Channels.QueueGrows(before, after) && Lists(tickets, before, after, deliveries)
    ensures var r := Registered(ids, tickets);
            if k in ids then InQueue(after, k.0, k.1) && k in r && r[k] == ids[k]
            else if k in r
              then && InQueue(after, k.0, k.1)
                   && exists i :: 0 <= i < |tickets| && Key(tickets[i]) == k && r[k] == tickets[i].id
            else !InQueue(after, k.0, k.1)
  {
    RegisteredHas(ids, tickets, k);
    assert InQueue(before, k.0, k.1) <==> (k.0, k.1) in ids;
    if i :| 0 <= i < |tickets| && Key(tickets[i]) == k {
      assert IsNew(before, after, tickets[i]);
    }
  }

  lemma RegisteredRow(before: map<string, Channels.Rows>, after: map<string, Channels.Rows>,
    ids: map<(string, nat), nat>, deliveries: map<nat, Outbox.Delivery>, tickets: seq<Ticket>,
    deliveries': map<nat, Outbox.Delivery>, now: int, k: (string, nat))
    requires DeliveriesAgree(before, ids, deliveries) && Queued(deliveries, tickets, deliveries', now)
    requires Channels.QueueGrows(before, after) && Lists(tickets, before, after, deliveries)
    ensures var r := Registered(ids, tickets);
            && (InQueue(after, k.0, k.1) <==> k in r)
            && (k in r ==> r[k] in deliveries' && deliveries'[r[k]].endpoint == k.1)
            && (k in r ==> (r[k] in deliveries <==> k in ids))
  {
    RegisteredAt(before, after, ids, deliveries, tickets, k);
    hide InQueue, Registered;
  }

  lemma RegisteredApart(before: map<string, Channels.Rows>, after: map<string, Channels.Rows>,
    ids: map<(string, nat), nat>, deliveries: map<nat, Outbox.Delivery>, tickets: seq<Ticket>,
    j: (string, nat), k: (string, nat))
    requires DeliveriesAgree(before, ids, deliveries)
    requires Channels.QueueGrows(before, after) && Lists(tickets, before, after, deliveries)
    requires var r := Registered(ids, tickets); j in r && k in r && r[j] == r[k]
    ensures j == k
  {
    RegisteredAt(before, after, ids, deliveries, tickets, j);
    RegisteredAt(before, after, ids, deliveries, tickets, k);
    hide InQueue, Registered, Channels.QueueGrows;
  }

  lemma RegisteredAll(before: map<string, Channels.Rows>, after: map<string, Channels.Rows>,
    ids: map<(string, nat), nat>, deliveries: map<nat, Outbox.Delivery>, tickets: seq<Ticket>,
    deliveries': map<nat, Outbox.Delivery>, now: int, id: nat)
    requires DeliveriesAgree(before, ids, deliveries) && Queued(deliveries, tickets, deliveries', now)
    requires Channels.QueueGrows(before, after) && Lists(tickets, before, after, deliveries)
    requires id in deliveries'
    ensures exists k <- Registered(ids, tickets) :: Registered(ids, tickets)[k] == id
  {
    if id in deliveries {
      var k :| k in ids && ids[k] == id;
      RegisteredAt(before, after, ids, deliveries, tickets, k);
    } else {
      var i :| 0 <= i < |tickets| && tickets[i].id == id;
      RegisteredHas(ids, tickets, Key(tickets[i]));
    }
    hide InQueue, Registered, Channels.QueueGrows;
  }

  lemma TicketsAgree(before: map<string, Channels.Rows>, after: map<string, Channels.Rows>,
    ids: map<(string, nat), nat>, deliveries: map<nat, Outbox.Delivery>, tickets: seq<Ticket>,
    deliveries': map<nat, Outbox.Delivery>, now: int)
    requires DeliveriesAgree(before, ids, deliveries) && Queued(deliveries, tickets, deliveries', now)
    requires Channels.QueueGrows(before, after) && Lists(tickets, before, after, deliveries)
    ensures DeliveriesAgree(after, Registered(ids, tickets), deliveries')
  {
    hide InQueue, Registered, Lists, Queued, Channels.QueueGrows;
    var r := Registered(ids, tickets);
    forall event, e: nat ensures InQueue(after, event, e) <==> (event, e) in r {
      RegisteredRow(before, after, ids, deliveries, tickets, deliveries', now, (event, e));
    }
    forall k <- r ensures r[k] in deliveries' && deliveries'[r[k]].endpoint == k.1 {
      RegisteredRow(before, after, ids, deliveries, tickets, deliveries', now, k);
    }
    forall j <- r, k <- r | r[j] == r[k] ensures j == k {
      RegisteredApart(before, after, ids, deliveries, tickets, j, k);
    }
    forall id <- deliveries' ensures exists k <- r :: r[k] == id {
      RegisteredAll(before, after, ids, deliveries, tickets, deliveries', now, id);
    }
  }

  /** Only queueing adds a delivery row, and no operation moves one to another endpoint. */
  lemma DispatchKeepsRows(outbox: Outbox.Db, op: Outbox.Op)
    requires !op.Queue?
    ensures var after := Outbox.Apply(outbox, op);
            && after.deliveries.Keys == outbox.deliveries.Keys
            && (forall id <- outbox.deliveries :: after.deliveries[id].endpoint == outbox.deliveries[id].endpoint)
            && after.active == match op
                 case SetActive(e, on) => if on then outbox.active + {e} else outbox.active - {e}
                 case _ => outbox.active
  {
    hide Outbox.EligibleIds;
    if op.Claim? && Outbox.Pick(outbox.deliveries, outbox.active, op.now).Some? {
      Outbox.PickIsEligible(outbox, op.now);
    }
  }

  lemma SameRowsAgree(queue: map<string, Channels.Rows>, ids: map<(string, nat), nat>,
    deliveries: map<nat, Outbox.Delivery>, deliveries': map<nat, Outbox.Delivery>)
    requires DeliveriesAgree(queue, ids, deliveries) && deliveries'.Keys == deliveries.Keys
    requires forall id <- deliveries :: deliveries'[id].endpoint == deliveries[id].endpoint
    ensures DeliveriesAgree(queue, ids, deliveries')
  {
  }

  // ---------- administration ----------

  /** A channel operation other than a toggle of an existing endpoint leaves the active endpoints as they are. */
  lemma AdministrationAgrees(c: Channels.Db, op: Channels.Op, active: set<nat>)
    requires Channels.VersionsOk(c) && ActiveAgree(c.endpoints, active) && !op.Queue?
    ensures ActiveAgree(Channels.Apply(c, op).endpoints,
                        if op.SetStatus? && op.endpoint in c.endpoints
                        then if op.on then active + {op.endpoint} else active - {op.endpoint}
                        else active)
  {
  }

  // ---------- every step keeps the invariant ----------

  lemma ConnectKeepsInv(w: World, c: Connections.Op)
    requires Inv(w)
    ensures Inv(Step(w, Connect(c)))
  {
    hide Connections.Inv, Connections.Apply, Ingest.Inv, EventStream.Inv, Outbox.Inv;
    hide JournalsAgree, DeliveriesAgree, ActiveAgree;
    Connections.ApplyKeepsInv(w.connections, c);
    Ingest.ApplyKeepsInv(w.ledger, Ingest.SetConnection(Connections.Apply(w.connections, c).conn));
  }

  lemma AdministerKeepsInv(w: World, a: Channels.Op)
    requires Inv(w)
    ensures Inv(Step(w, Administer(a)))
  {
    hide Channels.Apply, Connections.Inv, EventStream.Inv, JournalsAgree, Channels.VersionsOk, ActiveAgree;
    Ingest.ApplyKeepsInv(w.ledger, Ingest.Channel(a));
    if !a.Queue? {
      Channels.OnlyQueueQueues(w.ledger.channels, a);
      AdministrationAgrees(w.ledger.channels, a, w.outbox.active);
      if a.SetStatus? && a.endpoint in w.ledger.channels.endpoints {
        var op := Outbox.SetActive(a.endpoint, a.on);
        Outbox.ApplyKeepsInv(w.outbox, op);
        DispatchKeepsRows(w.outbox, op);
        SameRowsAgree(w.ledger.channels.queue, w.ids, w.outbox.deliveries, Outbox.Apply(w.outbox, op).deliveries);
      }
    }
    hide Ingest.RowsOk, Ingest.EventsOk, Ingest.JournalOk, Outbox.Inv, DeliveriesAgree;
  }

  lemma BatchKeepsEndpoints(ledger: Ingest.Db, op: Op)
    requires Ingest.Inv(ledger) && op.Batch?
    ensures var after := Ingest.Apply(ledger, BatchOf(op));
            after.conn == ledger.conn && after.channels.endpoints == ledger.channels.endpoints
  {
    hide Ingest.Inv, Ingest.Batched;
    Ingest.BatchGrows(ledger, op.items, op.baseline, Ingest.Source(op.source));
    BatchKeepsConnection(ledger, op.items, op.baseline, Ingest.Source(op.source));
  }

  lemma {:induction false} BatchKeepsConnection(
    ledger: Ingest.Db, items: seq<Ingest.Item>, baseline: bool, source: string)
    ensures Ingest.Batched(ledger, items, baseline, source).conn == ledger.conn
    decreases |items|
  {
    if items == [] {
    } else {
      BatchKeepsConnection(Ingest.ItemStep(ledger, items[0], baseline, source), items[1..], baseline, source);
    }
  }

  lemma BatchKeepsInv(w: World, op: Op)
    requires Inv(w) && op.Batch?
    ensures Inv(Step(w, op))
  {
    hide Connections.Inv, Ingest.Inv, EventStream.Inv, Outbox.Inv, EventStream.Step;
    var ledger := Ingest.Apply(w.ledger, BatchOf(op));
    var rows := NewRows(w.ledger.journal, ledger.journal);
    Ingest.ApplyKeepsInv(w.ledger, BatchOf(op));
    Ingest.ApplyGrows(w.ledger, BatchOf(op));
    assert ledger.journal == w.ledger.journal + rows;
    BatchKeepsEndpoints(w.ledger, op);
    if Enabled(w, op) {
      AppendsAgree(w.ledger.journal, w.stream, rows, op.now);
      QueueingsQueue(w.outbox, op.tickets, op.now);
      TicketsAgree(w.ledger.channels.queue, ledger.channels.queue, w.ids, w.outbox.deliveries, op.tickets,
                   Outbox.Run(w.outbox, Queueings(op.tickets, op.now)).deliveries, op.now);
    }
  }

  lemma StreamKeepsInv(w: World, s: EventStream.Op)
    requires Inv(w)
    ensures Inv(Step(w, Stream(s)))
  {
    hide Connections.Inv, Ingest.Inv, EventStream.Inv, Outbox.Inv, EventStream.Step;
    hide JournalsAgree, DeliveriesAgree, ActiveAgree;
    EventStream.StepKeepsInv(w.stream, s);
    if !s.Append? {
      StreamStepAgrees(w.ledger.journal, w.stream, s);
    }
  }

  lemma DeliverKeepsInv(w: World, d: Outbox.Op)
    requires Inv(w)
    ensures Inv(Step(w, Deliver(d)))
  {
    hide Connections.Inv, Ingest.Inv, EventStream.Inv, Outbox.Inv, Outbox.Apply;
    hide JournalsAgree, DeliveriesAgree, ActiveAgree;
    Outbox.ApplyKeepsInv(w.outbox, d);
    if !d.Queue? {
      DispatchKeepsRows(w.outbox, d);
      SameRowsAgree(w.ledger.channels.queue, w.ids, w.outbox.deliveries, Outbox.Apply(w.outbox, d).deliveries);
    }
  }

  lemma StepKeepsInv(w: World, op: Op)
    requires Inv(w)
    ensures Inv(Step(w, op))
  {
    hide Inv, Step;
    match op
    case Connect(c) => ConnectKeepsInv(w, c);
    case Administer(a) => AdministerKeepsInv(w, a);
    case Batch(_, _, _, _, _, _) => BatchKeepsInv(w, op);
    case Stream(s) => StreamKeepsInv(w, s);
    case Deliver(d) => DeliverKeepsInv(w, d);
  }

  lemma InitOk(config: Outbox.Config)
    ensures Inv(Init(config))
  {
  }

  /** In every interleaving the tables agree with each other. */
  lemma Reachable(config: Outbox.Config, ops: seq<Op>)
    ensures Inv(Run(config, ops))
  {
    InitOk(config);
    hide Inv, Step;
    forall w: World, op: Op | Inv(w) ensures Inv(Step(w, op)) {
      StepKeepsInv(w, op);
    }
    Runs.Invariant(Step, Inv, Init(config), ops);
  }

  /** A batch changes the ledger only while the connection monitors at its generation, with that session stored. */
  lemma BatchLandsOnlyWhileMonitoring(config: Outbox.Config, ops: seq<Op>, op: Op)
    requires op.Batch? && Step(Run(config, ops), op).ledger != Run(config, ops).ledger
    ensures var c := Run(config, ops).connections;
            && Connections.At(c, op.generation, Connections.Monitoring)
            && c.session.Some? && c.session.value.generation == op.generation
  {
    Reachable(config, ops);
    hide Run, Enabled, Ingest.Batched, Ingest.Inv, EventStream.Inv, Outbox.Inv, JournalsAgree, DeliveriesAgree;
  }

  // ---------- a batch can always be listed ----------

  /** The queued event and endpoint pairs that are new. */
  ghost function Missing(before: map<string, Channels.Rows>, after: map<string, Channels.Rows>): set<(string, nat)> {
    set event, e | event in after && e in after[event] && !InQueue(before, event, e) :: (event, e)
  }

  lemma {:induction false} TicketsFor(keys: set<(string, nat)>, base: nat) returns (tickets: seq<Ticket>)
    ensures forall i :: 0 <= i < |tickets| ==> tickets[i].id == base + i && Key(tickets[i]) in keys
    ensures forall i, j :: 0 <= i < j < |tickets| ==> Key(tickets[i]) != Key(tickets[j])
    ensures forall k <- keys :: exists i :: 0 <= i < |tickets| && Key(tickets[i]) == k
    decreases |keys|
  {
    if keys == {} {
      tickets := [];
    } else {
      var k :| k in keys;
      var rest := TicketsFor(keys - {k}, base);
      tickets := rest + [Ticket(k.0, k.1, base + |rest|)];
      forall other <- keys ensures exists i :: 0 <= i < |tickets| && Key(tickets[i]) == other {
        if other == k {
          assert Key(tickets[|rest|]) == other;
        } else {
          assert other in keys - {k};
          var i :| 0 <= i < |rest| && Key(rest[i]) == other;
          assert Key(tickets[i]) == other;
        }
      }
    }
  }

  /** Tickets for a batch exist in every state, so no batch is ever held up for want of them. */
  lemma TicketsExist(w: World, op: Op)
    requires op.Batch?
    ensures exists tickets :: Enabled(w, op.(tickets := tickets))
  {
    var before, after := w.ledger.channels.queue, Ingest.Apply(w.ledger, BatchOf(op)).channels.queue;
    var base: nat := 0;
    if w.outbox.deliveries.Keys != {} {
      EventStream.MaxExists(w.outbox.deliveries.Keys);
      var m: nat :| EventStream.IsMax(w.outbox.deliveries.Keys, m);
      base := m + 1;
    }
    var tickets := TicketsFor(Missing(before, after), base);
    hide Ingest.Apply;
    forall event, e: nat | InQueue(after, event, e) && !InQueue(before, event, e)
      ensures exists i :: 0 <= i < |tickets| && Key(tickets[i]) == (event, e)
    {
      assert (event, e) in Missing(before, after);
    }
    assert Lists(tickets, before, after, w.outbox.deliveries);
    assert Enabled(w, op.(tickets := tickets));
  }

  // ---------- runs of the parts ----------

  /** What a step does to the stream, the outbox and the ledger, in terms of their own operations. */
  ghost function StreamOps(w: World, op: Op): seq<EventStream.Op> {
    match op
    case Batch(_, _, _, _, _, now) =>
      if Enabled(w, op) then Appends(NewRows(w.ledger.journal, Step(w, op).ledger.journal), now) else []
    case Stream(s) => if s.Append? then [] else [s]
    case _ => []
  }

  ghost function OutboxOps(w: World, op: Op): seq<Outbox.Op> {
    match op
    case Administer(a) =>
      if a.SetStatus? && a.endpoint in w.ledger.channels.endpoints then [Outbox.SetActive(a.endpoint, a.on)] else []
    case Batch(_, _, _, _, tickets, now) => if Enabled(w, op) then Queueings(tickets, now) else []
    case Deliver(d) => if d.Queue? || d.SetActive? then [] else [d]
    case _ => []
  }

  ghost function LedgerOps(w: World, op: Op): seq<Ingest.Op> {
    match op
    case Connect(c) => [Ingest.SetConnection(Connections.Apply(w.connections, c).conn)]
    case Administer(a) => [Ingest.Channel(a)]
    case Batch(_, _, _, _, _, _) => if Enabled(w, op) then [BatchOf(op)] else []
    case _ => []
  }

  lemma StepProjects(w: World, op: Op)
    ensures var w' := Step(w, op);
            && w'.stream == Runs.Fold(EventStream.Step, w.stream, StreamOps(w, op))
            && w'.outbox == Outbox.Run(w.outbox, OutboxOps(w, op))
            && w'.ledger == Runs.Fold(Ingest.Apply, w.ledger, LedgerOps(w, op))
  {
    hide Enabled, EventStream.Step, Outbox.Apply, Ingest.Apply, Connections.Apply;
    match op
    case Connect(c) => Runs.Single(Ingest.Apply, w.ledger, LedgerOps(w, op)[0]);
    case Administer(a) =>
      Runs.Single(Ingest.Apply, w.ledger, Ingest.Channel(a));
      if a.SetStatus? {
        Runs.Single(Outbox.Apply, w.outbox, Outbox.SetActive(a.endpoint, a.on));
      }
    case Batch(_, _, _, _, _, _) => Runs.Single(Ingest.Apply, w.ledger, BatchOf(op));
    case Stream(s) => Runs.Single(EventStream.Step, w.stream, s);
    case Deliver(d) => Runs.Single(Outbox.Apply, w.outbox, d);
  }

  /** Every run is a run of each part, so what holds in every run of a part holds here. */
  lemma {:induction false} RunProjects(config: Outbox.Config, ops: seq<Op>)
    returns (stream: seq<EventStream.Op>, outbox: seq<Outbox.Op>, ledger: seq<Ingest.Op>)
    ensures var w := Run(config, ops);
            && w.stream == EventStream.Run(stream)
            && w.outbox == Outbox.Run(Outbox.Empty(config), outbox)
            && w.ledger == Ingest.Run(ledger)
    decreases |ops|
  {
    if ops == [] {
      stream, outbox, ledger := [], [], [];
    } else {
      var n := |ops| - 1;
      stream, outbox, ledger := RunProjects(config, ops[..n]);
      var w, op := Run(config, ops[..n]), ops[n];
      assert ops[..n] + [op] == ops;
      Runs.Snoc(Step, Init(config), ops[..n], op);
      StepProjects(w, op);
      Runs.Concat(EventStream.Step, EventStream.INIT, stream, StreamOps(w, op));
      Runs.Concat(Outbox.Apply, Outbox.Empty(config), outbox, OutboxOps(w, op));
      Runs.Concat(Ingest.Apply, Ingest.EMPTY, ledger, LedgerOps(w, op));
      stream, outbox, ledger := stream + StreamOps(w, op), outbox + OutboxOps(w, op), ledger + LedgerOps(w, op);
    }
    hide Step, StreamOps, OutboxOps, LedgerOps;
  }

  // ---------- from a stored credit to the stream ----------

  /** The number is on file as a credit, no baseline and seen neither by a filter sync nor by a bootstrap. */
  ghost predicate CallsForEvent(w: World, number: string) {
    var key := Ingest.SemanticKey(number);
    key in w.ledger.transactions &&
    var row := w.ledger.transactions[key];
    !row.baseline && row.hash.credit > 0 && row.source != "FILTER_SYNC" && row.source != "BOOTSTRAP"
  }

  ghost predicate Announces(w: World, s: nat, number: string) {
    s in w.stream.history && w.stream.history[s].payload == Ingest.EventId(number)
  }

  lemma EventMeansCall(w: World, number: string)
    requires Ingest.Inv(w.ledger)
    ensures Ingest.EventId(number) in w.ledger.events <==> CallsForEvent(w, number)
  {
    if Ingest.EventId(number) in w.ledger.events {
      var k :| k in w.ledger.transactions && Ingest.Emits(w.ledger.transactions[k])
               && Ingest.EventId(number) == Ingest.EventId(w.ledger.transactions[k].hash.number);
      Ingest.KeysAreInjective(number, w.ledger.transactions[k].hash.number);
    }
    if CallsForEvent(w, number) {
      Ingest.InvMeansNotifiedAsStored(w.ledger, number);
    }
  }

  lemma AnnouncesAt(w: World, s: nat, number: string)
    requires EventStream.Inv(w.stream) && JournalsAgree(w.ledger.journal, w.stream)
    ensures Announces(w, s, number) <==>
            1 <= s <= |w.ledger.journal| && w.ledger.journal[s - 1].event == Ingest.EventId(number)
  {
  }

  /** A credit has an entry in the stream's journal exactly when its first observation called for it, and just one. */
  lemma OneEntryEach(config: Outbox.Config, ops: seq<Op>, number: string)
    ensures var w := Run(config, ops);
            && (CallsForEvent(w, number) <==> exists s: nat :: Announces(w, s, number))
            && (forall s: nat, t: nat :: Announces(w, s, number) && Announces(w, t, number) ==> s == t)
  {
    hide Step, EventStream.Inv, Connections.Inv, Outbox.Inv, CallsForEvent, DeliveriesAgree, ActiveAgree;
    Reachable(config, ops);
    var w := Run(config, ops);
    EventMeansCall(w, number);
    hide Run, Ingest.RowsOk, Ingest.EventsOk, Ingest.QueueOk;
    forall s: nat ensures Announces(w, s, number) <==>
      1 <= s <= |w.ledger.journal| && w.ledger.journal[s - 1].event == Ingest.EventId(number)
    {
      AnnouncesAt(w, s, number);
    }
    if CallsForEvent(w, number) {
      var row :| row in w.ledger.journal && row.event == Ingest.EventId(number);
      var i :| 0 <= i < |w.ledger.journal| && w.ledger.journal[i] == row;
      assert Announces(w, i + 1, number);
    }
  }

  lemma SentCredit(w: World, e: Journal.Entry) returns (number: string)
    requires Inv(w) && e in w.stream.emitted
    ensures e.payload == Ingest.EventId(number) && CallsForEvent(w, number) && Announces(w, e.number, number)
  {
    assert EventStream.InHistory(w.stream, e);
    var row := w.ledger.journal[e.number - 1];
    assert row in w.ledger.journal;
    var k :| k in w.ledger.transactions && Ingest.Emits(w.ledger.transactions[k])
             && row.event == Ingest.EventId(w.ledger.transactions[k].hash.number);
    number := w.ledger.transactions[k].hash.number;
    EventMeansCall(w, number);
  }

  lemma SamePayloadSameEntry(config: Outbox.Config, ops: seq<Op>, e: Journal.Entry, f: Journal.Entry)
    requires e in Run(config, ops).stream.emitted && f in Run(config, ops).stream.emitted && e.payload == f.payload
    ensures e.number == f.number
  {
    hide Step, EventStream.Inv, Connections.Inv, Outbox.Inv, Ingest.Inv, Agree;
    Reachable(config, ops);
    var w := Run(config, ops);
    var number := SentCredit(w, e);
    assert Announces(w, f.number, number) by {
      var other := SentCredit(w, f);
    }
    OneEntryEach(config, ops, number);
  }

  /** What the stream sends are the events of stored credits, each at most once. */
  lemma SentAreCredits(config: Outbox.Config, ops: seq<Op>)
    ensures var w := Run(config, ops);
            && (forall e <- w.stream.emitted ::
                  exists number :: e.payload == Ingest.EventId(number) && CallsForEvent(w, number))
            && (forall i, j :: 0 <= i < j < |w.stream.emitted| ==>
                  w.stream.emitted[i].payload != w.stream.emitted[j].payload)
  {
    hide Step, Connections.Inv, Outbox.Inv, Ingest.Inv, Agree;
    Reachable(config, ops);
    var w := Run(config, ops);
    forall e <- w.stream.emitted
      ensures exists number :: e.payload == Ingest.EventId(number) && CallsForEvent(w, number)
    {
      var number := SentCredit(w, e);
    }
    forall i, j | 0 <= i < j < |w.stream.emitted|
      ensures w.stream.emitted[i].payload != w.stream.emitted[j].payload
    {
      if w.stream.emitted[i].payload == w.stream.emitted[j].payload {
        SamePayloadSameEntry(config, ops, w.stream.emitted[i], w.stream.emitted[j]);
      }
    }
  }

  /**
    A stream at rest with no hint waiting has sent every credit whose entry was published, lies above its
    start and was not deleted unread.
   */
  lemma CreditsReachTheStream(config: Outbox.Config, ops: seq<Op>, number: string, s: nat)
    requires var w := Run(config, ops);
             && w.stream.stage.Idle? && w.stream.channel == []
             && Announces(w, s, number) && s in w.stream.published && s > w.stream.start && s !in w.stream.lost
    ensures exists e <- Run(config, ops).stream.emitted :: e.payload == Ingest.EventId(number)
  {
    var streamOps, _, _ := RunProjects(config, ops);
    var w := Run(config, ops);
    EventStream.IdleStreamIsCaughtUp(streamOps, s);
    EventStream.Reachable(streamOps);
    var e :| e in w.stream.emitted && e.number == s;
    assert EventStream.InHistory(w.stream, e);
    hide Run, Step, EventStream.Run;
  }

  // ---------- from a stored credit to the endpoints ----------

  /** The row of a number and its deliveries are the same in both states. */
  ghost predicate SameFor(w: World, w': World, number: string) {
    var key, event := Ingest.SemanticKey(number), Ingest.EventId(number);
    && key in w.ledger.transactions && key in w'.ledger.transactions
    && w'.ledger.transactions[key] == w.ledger.transactions[key]
    && forall e: nat ::
         && ((event, e) in w'.ids <==> (event, e) in w.ids)
         && ((event, e) in w.ids ==> w'.ids[(event, e)] == w.ids[(event, e)])
  }

  /** No step of the ledger queues anything more for a number on file. */
  lemma LedgerStaysClosed(ledger: Ingest.Db, op: Ingest.Op, number: string)
    requires Ingest.Inv(ledger) && Ingest.SemanticKey(number) in ledger.transactions
    ensures var after, event := Ingest.Apply(ledger, op), Ingest.EventId(number);
            && Ingest.SemanticKey(number) in after.transactions
            && after.transactions[Ingest.SemanticKey(number)] == ledger.transactions[Ingest.SemanticKey(number)]
            && forall e: nat :: InQueue(after.channels.queue, event, e) <==> InQueue(ledger.channels.queue, event, e)
  {
    hide Ingest.Apply, Ingest.Inv;
    var after, event := Ingest.Apply(ledger, op), Ingest.EventId(number);
    Ingest.ApplyGrows(ledger, op);
    Ingest.ApplyKeepsInv(ledger, op);
    Ingest.InvMeansNotifiedAsStored(ledger, number);
    if event in ledger.events {
      Ingest.EventStaysClosed(ledger, op, event);
      forall e: nat ensures InQueue(after.channels.queue, event, e) <==> InQueue(ledger.channels.queue, event, e) {
        assert InQueue(after.channels.queue, event, e) <==> e in Channels.RowsFor(after.channels.queue, event);
      }
    } else {
      NothingQueued(ledger, number);
      NothingQueued(after, number);
    }
  }

  lemma NothingQueued(ledger: Ingest.Db, number: string)
    requires Ingest.Inv(ledger) && Ingest.SemanticKey(number) in ledger.transactions
    requires !Ingest.Emits(ledger.transactions[Ingest.SemanticKey(number)])
    ensures forall e: nat :: !InQueue(ledger.channels.queue, Ingest.EventId(number), e)
  {
    Ingest.NoEventForSuppressed(ledger, number);
  }

  lemma ClosedStaysRegistered(before: map<string, Channels.Rows>, after: map<string, Channels.Rows>,
    ids: map<(string, nat), nat>, deliveries: map<nat, Outbox.Delivery>, tickets: seq<Ticket>, event: string, e: nat)
    requires DeliveriesAgree(before, ids, deliveries)
    requires Channels.QueueGrows(before, after) && Lists(tickets, before, after, deliveries)
    requires InQueue(after, event, e) <==> InQueue(before, event, e)
    ensures var r := Registered(ids, tickets);
            ((event, e) in r <==> (event, e) in ids) && ((event, e) in ids ==> r[(event, e)] == ids[(event, e)])
  {
    RegisteredAt(before, after, ids, deliveries, tickets, (event, e));
    assert InQueue(before, event, e) <==> (event, e) in ids;
    hide Lists, Registered, InQueue, Channels.QueueGrows;
  }

  lemma BatchKeepsDeliveries(w: World, op: Op, number: string)
    requires Inv(w) && Ingest.SemanticKey(number) in w.ledger.transactions && op.Batch? && Enabled(w, op)
    ensures SameFor(w, Step(w, op), number)
  {
    hide Ingest.Inv, EventStream.Inv, Outbox.Inv, Connections.Inv, Ingest.Apply, EventStream.Step, Outbox.Apply;
    hide JournalsAgree, ActiveAgree, Channels.QueueGrows, Lists, DeliveriesAgree, Registered, InQueue;
    var event, after := Ingest.EventId(number), Ingest.Apply(w.ledger, BatchOf(op)).channels.queue;
    LedgerStaysClosed(w.ledger, BatchOf(op), number);
    assert Channels.QueueGrows(w.ledger.channels.queue, after) by {
      Ingest.ApplyGrows(w.ledger, BatchOf(op));
    }
    var r := Registered(w.ids, op.tickets);
    assert Step(w, op).ids == r && Step(w, op).ledger == Ingest.Apply(w.ledger, BatchOf(op));
    hide Step;
    forall e: nat
      ensures (event, e) in r <==> (event, e) in w.ids
      ensures (event, e) in w.ids ==> r[(event, e)] == w.ids[(event, e)]
    {
      ClosedStaysRegistered(w.ledger.channels.queue, after, w.ids, w.outbox.deliveries, op.tickets, event, e);
    }
  }

  lemma StepKeepsDeliveries(w: World, op: Op, number: string)
    requires Inv(w) && Ingest.SemanticKey(number) in w.ledger.transactions
    ensures SameFor(w, Step(w, op), number)
  {
    hide Ingest.Apply, Ingest.Inv, EventStream.Inv, Outbox.Inv, Connections.Inv, Outbox.Apply, EventStream.Step;
    hide JournalsAgree, ActiveAgree, DeliveriesAgree, Connections.Apply, Enabled;
    match op
    case Connect(c) =>
      LedgerStaysClosed(w.ledger, Ingest.SetConnection(Connections.Apply(w.connections, c).conn), number);
    case Administer(a) => LedgerStaysClosed(w.ledger, Ingest.Channel(a), number);
    case Batch(_, _, _, _, _, _) =>
      if Enabled(w, op) {
        BatchKeepsDeliveries(w, op, number);
      }
    case Stream(_) =>
    case Deliver(_) =>
  }

  lemma {:induction false} RunKeepsDeliveries(config: Outbox.Config, ops: seq<Op>, k: nat, number: string)
    requires k <= |ops| && Ingest.SemanticKey(number) in Run(config, ops[..k]).ledger.transactions
    ensures SameFor(Run(config, ops[..k]), Run(config, ops), number)
    decreases |ops| - k
  {
    hide Step, Inv;
    if k == |ops| {
      assert ops[..k] == ops;
    } else {
      Reachable(config, ops[..k]);
      Runs.Prefix(Step, Init(config), ops, k);
      StepKeepsDeliveries(Run(config, ops[..k]), ops[k], number);
      RunKeepsDeliveries(config, ops, k + 1, number);
    }
  }

  /** The batch is accepted, and its item `i` is the first with a number that is not on file. */
  ghost predicate Stores(w: World, op: Op, i: nat) {
    && op.Batch? && Enabled(w, op)
    && w.ledger.conn == Some(Connections.Connection(Connections.Monitoring, op.generation))
    && i < |op.items| && Ingest.FirstUsable(op.items, i)
    && Ingest.SemanticKey(op.items[i].number) !in w.ledger.transactions
  }

  /** What the amount and the source of an item call for. */
  predicate Announced(op: Op, item: Ingest.Item)
    requires op.Batch?
  {
    !op.baseline && item.credit > 0 && op.source != "FILTER_SYNC" && op.source != "BOOTSTRAP"
  }

  predicate SeenLive(op: Op)
    requires op.Batch?
  {
    op.source == "REALTIME" || op.source == "" || op.source == "CATCH_UP"
  }

  lemma StoredDelivers(w: World, op: Op, i: nat, e: nat)
    requires op.Batch? && i < |op.items| && Inv(w) && Stores(w, op, i)
    ensures var w', event := Step(w, op), Ingest.EventId(op.items[i].number);
            && Ingest.SemanticKey(op.items[i].number) in w'.ledger.transactions
            && (CallsForEvent(w', op.items[i].number) <==> Announced(op, op.items[i]))
            && ((event, e) in w'.ids <==> Announced(op, op.items[i]) && SeenLive(op) && e in w.outbox.active)
  {
    hide Ingest.Apply, Ingest.Inv, EventStream.Inv, Outbox.Inv, Connections.Inv, EventStream.Step, Outbox.Apply;
    hide JournalsAgree, Ingest.FirstUsable, Ingest.PinnedAsOf, Registered, Lists;
    var event, queue := Ingest.EventId(op.items[i].number), Step(w, op).ledger.channels.queue;
    Ingest.FirstObservationDecides(w.ledger, op.generation, op.items, op.baseline, op.source, i);
    BatchKeepsInv(w, op);
    assert InQueue(queue, event, e) <==> (event, e) in Step(w, op).ids;
  }

  /** A delivery made by the batch is pending, untried and due at once. */
  lemma StoredIsDue(w: World, op: Op, i: nat, e: nat)
    requires op.Batch? && i < |op.items| && Inv(w) && Stores(w, op, i)
    requires (Ingest.EventId(op.items[i].number), e) in Step(w, op).ids
    ensures var w', event := Step(w, op), Ingest.EventId(op.items[i].number);
            w'.ids[(event, e)] in w'.outbox.deliveries
            && w'.outbox.deliveries[w'.ids[(event, e)]] == NewDelivery(e, op.now)
  {
    hide Ingest.Apply, Ingest.Inv, EventStream.Inv, Outbox.Inv, Connections.Inv, EventStream.Step, Outbox.Apply;
    hide JournalsAgree, ActiveAgree, Ingest.FirstUsable, Channels.QueueGrows;
    var number, event := op.items[i].number, Ingest.EventId(op.items[i].number);
    var ledger := Ingest.Apply(w.ledger, BatchOf(op));
    Ingest.NewNumberUntouched(w.ledger, number);
    assert !InQueue(w.ledger.channels.queue, event, e);
    assert Channels.QueueGrows(w.ledger.channels.queue, ledger.channels.queue) by {
      Ingest.ApplyGrows(w.ledger, BatchOf(op));
    }
    QueueingsQueue(w.outbox, op.tickets, op.now);
    RegisteredAt(w.ledger.channels.queue, ledger.channels.queue, w.ids, w.outbox.deliveries, op.tickets, (event, e));
    hide Lists, Registered, InQueue;
  }

  /**
    At whatever moment an accepted batch first brings a number, the number has from then on, in every
    later state: an entry in the journal of the stream if the item is a credit to be announced, and none
    otherwise; one delivery to each endpoint that was active at that moment if besides it was seen in
    real time or while catching up, and none otherwise or to any other endpoint. The deliveries begin
    untried and due at once.
   */
  lemma CreditsReachTheEndpoints(config: Outbox.Config, ops: seq<Op>, k: nat, i: nat, e: nat)
    requires k < |ops| && ops[k].Batch? && i < |ops[k].items|
    requires Stores(Run(config, ops[..k]), ops[k], i)
    ensures var w, item := Run(config, ops), ops[k].items[i];
            var first, event := Run(config, ops[..k + 1]), Ingest.EventId(item.number);
            var announced := !ops[k].baseline && item.credit > 0
                             && ops[k].source != "FILTER_SYNC" && ops[k].source != "BOOTSTRAP";
            var live := ops[k].source == "REALTIME" || ops[k].source == "" || ops[k].source == "CATCH_UP";
            && ((exists s: nat :: Announces(w, s, item.number)) <==> announced)
            && ((event, e) in w.ids <==> announced && live && e in Run(config, ops[..k]).outbox.active)
            && ((event, e) in w.ids ==>
                  && (event, e) in first.ids && w.ids[(event, e)] == first.ids[(event, e)]
                  && w.ids[(event, e)] in w.outbox.deliveries && w.ids[(event, e)] in first.outbox.deliveries
                  && w.outbox.deliveries[w.ids[(event, e)]].endpoint == e
                  && first.outbox.deliveries[first.ids[(event, e)]]
                     == Outbox.Delivery(e, Outbox.Pending, 0, 0, ops[k].now, None, None, ops[k].now))
  {
    hide Step, Ingest.Inv, EventStream.Inv, Outbox.Inv, Connections.Inv, JournalsAgree, ActiveAgree, Stores, Announces;
    var w, number := Run(config, ops[..k]), ops[k].items[i].number;
    Reachable(config, ops[..k]);
    Reachable(config, ops);
    Runs.Prefix(Step, Init(config), ops, k);
    StoredDelivers(w, ops[k], i, e);
    if (Ingest.EventId(number), e) in Step(w, ops[k]).ids {
      StoredIsDue(w, ops[k], i, e);
    }
    RunKeepsDeliveries(config, ops, k + 1, number);
    OneEntryEach(config, ops, number);
  }
}
