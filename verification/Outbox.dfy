/**
  The delivery outbox: leased claims, claim tokens, retries, dead letters and replay.

  Dispatchers run concurrently and may crash at any point. `workers` remembers every claim ever
  made, by token, with what its dispatcher was told and how far it has come; a crashed dispatcher is
  one that never takes another step. A sequence of operations is an arbitrary interleaving.
 */
module Outbox {
  import opened Prelude
  import Runs

  datatype Status = Pending | InFlight | Delivered | DeadLetter

  /**
    A row of `deliveries`; times are points on one integer clock. `claimedAt` is no column: it
    remembers the clock reading of the last claim, where the window of that claim begins.
   */
  datatype Delivery = Delivery(
    endpoint: nat,
    status: Status,
    attempts: nat,
    cycleStart: nat,
    nextAttempt: int,
    token: Option<nat>,
    lease: Option<int>,
    claimedAt: int)

  /** What a send came to; `Unavailable` is a target or payload that could not be loaded. */
  datatype Outcome = Success | Retry | TerminalFailure | Unavailable

  datatype Phase = Claimed | Recorded | Done

  /** One claim, as its dispatcher knows it. */
  datatype Worker = Worker(delivery: nat, attempts: nat, cycleStart: nat, claimAt: int, leaseUntil: int, phase: Phase)

  datatype Policy = Policy(maxRetries: nat, backoffs: seq<int>)

  /** The setters keep both positive. */
  type Config = p: Policy | p.maxRetries > 0 && |p.backoffs| > 0 witness Policy(1, [2])

  datatype Db = Db(
    config: Config,
    deliveries: map<nat, Delivery>,
    active: set<nat>,
    attemptRows: map<(nat, nat), Outcome>,
    workers: map<nat, Worker>,
    nextToken: nat)

  datatype Op =
    | Queue(id: nat, endpoint: nat, now: int)
    | SetActive(endpoint: nat, on: bool)
    | Claim(now: int, lease: int)
    | Record(token: nat, outcome: Outcome)
    | Settle(token: nat, outcome: Outcome)
    | Replay(id: nat, now: int)

  const ZERO_TIME := 0

  // ---- Choosing the delivery to claim ----

  predicate LiveElsewhere(deliveries: map<nat, Delivery>, id: nat, now: int)
    requires id in deliveries
  {
    exists other <- deliveries ::
      && other != id
      && deliveries[other].endpoint == deliveries[id].endpoint
      && deliveries[other].status == InFlight
      && deliveries[other].lease.Some? && deliveries[other].lease.value >= now
  }

  predicate Due(d: Delivery, now: int) {
    || (d.status == Pending && d.nextAttempt <= now)
    || (d.status == InFlight && d.lease.Some? && d.lease.value < now)
  }

  predicate Eligible(deliveries: map<nat, Delivery>, active: set<nat>, id: nat, now: int)
    requires id in deliveries
  {
    && deliveries[id].endpoint in active
    && Due(deliveries[id], now)
    && !LiveElsewhere(deliveries, id, now)
  }

  function EligibleIds(deliveries: map<nat, Delivery>, active: set<nat>, now: int): set<nat> {
    set id | id in deliveries && Eligible(deliveries, active, id, now)
  }

  /** The order in which eligible deliveries are claimed: by next attempt, then by id. */
  predicate Before(deliveries: map<nat, Delivery>, a: nat, b: nat)
    requires a in deliveries && b in deliveries
  {
    || deliveries[a].nextAttempt < deliveries[b].nextAttempt
    || (deliveries[a].nextAttempt == deliveries[b].nextAttempt && a < b)
  }

  ghost predicate IsFirst(deliveries: map<nat, Delivery>, ids: set<nat>, id: nat)
    requires ids <= deliveries.Keys
  {
    id in ids && forall other <- ids :: other == id || Before(deliveries, id, other)
  }

  lemma FirstOfMore(deliveries: map<nat, Delivery>, seen: set<nat>, first: nat, id: nat)
    requires seen + {id} <= deliveries.Keys && IsFirst(deliveries, seen, first) && id !in seen
    ensures IsFirst(deliveries, seen + {id}, if Before(deliveries, id, first) then id else first)
  {
    assert forall other <- seen :: other == first || Before(deliveries, first, other);
  }

  lemma {:induction false} FirstExists(deliveries: map<nat, Delivery>, ids: set<nat>)
    requires ids <= deliveries.Keys && ids != {}
    ensures exists id :: IsFirst(deliveries, ids, id)
    decreases |ids|
  {
    var x :| x in ids;
    if ids == {x} {
      assert IsFirst(deliveries, ids, x);
    } else {
      FirstExists(deliveries, ids - {x});
      var y :| IsFirst(deliveries, ids - {x}, y);
      FirstOfMore(deliveries, ids - {x}, y, x);
      assert ids - {x} + {x} == ids;
    }
  }

  ghost function Pick(deliveries: map<nat, Delivery>, active: set<nat>, now: int): Option<nat> {
    var ids := EligibleIds(deliveries, active, now);
    if ids == {} then None
    else
      FirstExists(deliveries, ids);
      var id :| IsFirst(deliveries, ids, id);
      Some(id)
  }

  // ---- What each transaction does ----

  /** The attempts made in the current retry cycle, clamped as the dispatcher clamps it. */
  function Effective(w: Worker): int {
    if w.attempts - w.cycleStart < 1 then 1 else w.attempts - w.cycleStart
  }

  function BackoffIndex(config: Config, w: Worker): int {
    var i := Effective(w) - 1;
    var i := if i < 0 then 0 else i;
    if i >= |config.backoffs| then |config.backoffs| - 1 else i
  }

  /** The outcome written to the attempt row. */
  function RecordedOutcome(config: Config, w: Worker, outcome: Outcome): Outcome {
    if outcome == Retry && Effective(w) >= config.maxRetries then TerminalFailure else outcome
  }

  /** The row the dispatcher's settlement leaves, provided it still holds the claim. */
  function Settled(config: Config, d: Delivery, w: Worker, outcome: Outcome): Delivery
  {
    var released := d.(token := None, lease := None);
    if outcome == Success then
      released.(status := Delivered, nextAttempt := ZERO_TIME)
    else if outcome != Retry || Effective(w) >= config.maxRetries then
      released.(status := DeadLetter)
    else
      released.(status := Pending, nextAttempt := w.claimAt + config.backoffs[BackoffIndex(config, w)])
  }

  predicate Holds(deliveries: map<nat, Delivery>, id: nat, token: nat) {
    id in deliveries && deliveries[id].status == InFlight && deliveries[id].token == Some(token)
  }

  predicate CanSettle(db: Db, token: nat, outcome: Outcome) {
    && token in db.workers
    && db.workers[token].phase == if outcome == Unavailable then Claimed else Recorded
  }

  predicate CanReplay(db: Db, id: nat) {
    id in db.deliveries && db.deliveries[id].status == DeadLetter && db.deliveries[id].endpoint in db.active
  }

  function ClaimedRow(d: Delivery, token: nat, now: int, until: int): Delivery {
    d.(status := InFlight, attempts := d.attempts + 1, token := Some(token), lease := Some(until), claimedAt := now)
  }

  /** Delivery `id` handed to a new worker until `until`. */
  function ClaimOf(db: Db, id: nat, now: int, until: int): Db
    requires id in db.deliveries
  {
    var d, t := db.deliveries[id], db.nextToken;
    db.(deliveries := db.deliveries[id := ClaimedRow(d, t, now, until)],
        workers := db.workers[t := Worker(id, d.attempts + 1, d.cycleStart, now, until, Claimed)],
        nextToken := t + 1)
  }

  function QueueOf(db: Db, id: nat, endpoint: nat, now: int): Db {
    if id in db.deliveries then db
    else db.(deliveries := db.deliveries[id := Delivery(endpoint, Pending, 0, 0, now, None, None, now)])
  }

  /** A second attempt row of the same number would be rejected by the unique constraint. */
  function RecordOf(db: Db, token: nat, outcome: Outcome): Db {
    if token !in db.workers || db.workers[token].phase != Claimed then db
    else
      var w := db.workers[token];
      var key := (w.delivery, w.attempts);
      db.(workers := db.workers[token := w.(phase := Recorded)],
          attemptRows := if key in db.attemptRows then db.attemptRows
                         else db.attemptRows[key := RecordedOutcome(db.config, w, outcome)])
  }

  function SettleOf(db: Db, token: nat, outcome: Outcome): Db
  {
    if !CanSettle(db, token, outcome) then db
    else
      var w := db.workers[token];
      db.(workers := db.workers[token := w.(phase := Done)],
          deliveries := if Holds(db.deliveries, w.delivery, token)
                        then db.deliveries[w.delivery := Settled(db.config, db.deliveries[w.delivery], w, outcome)]
                        else db.deliveries)
  }

  function ReplayOf(db: Db, id: nat, now: int): Db {
    if !CanReplay(db, id) then db
    else
      var d := db.deliveries[id];
      db.(deliveries := db.deliveries[id := d.(status := Pending, nextAttempt := now, cycleStart := d.attempts)])
  }

  ghost function Apply(db: Db, op: Op): Db
  {
    match op
    case Queue(id, endpoint, now) => QueueOf(db, id, endpoint, now)
    case SetActive(endpoint, on) =>
      db.(active := if on then db.active + {endpoint} else db.active - {endpoint})
    case Claim(now, lease) =>
      var pick := Pick(db.deliveries, db.active, now);
      if lease <= 0 || pick.None? then db else ClaimOf(db, pick.value, now, now + lease)
    case Record(token, outcome) => RecordOf(db, token, outcome)
    case Settle(token, outcome) => SettleOf(db, token, outcome)
    case Replay(id, now) => ReplayOf(db, id, now)
  }

  ghost function Run(db: Db, ops: seq<Op>): Db {
    Runs.Fold(Apply, db, ops)
  }

  function Empty(config: Config): Db {
    Db(config, map[], {}, map[], map[], 0)
  }

  // ---- The invariant ----

  /** The tokens of all claims ever made of a delivery. */
  ghost function Claims(workers: map<nat, Worker>, id: nat): set<nat> {
    set t | t in workers && workers[t].delivery == id
  }

  ghost predicate RowOk(config: Config, workers: map<nat, Worker>, id: nat, d: Delivery) {
    && d.cycleStart <= d.attempts
    && d.attempts == |Claims(workers, id)|
    && (d.status == Pending ==> d.attempts - d.cycleStart < config.maxRetries)
    && (d.status == InFlight <==> d.token.Some?)
    && (d.status == InFlight ==>
          && d.token.value in workers
          && var w := workers[d.token.value];
          && w.delivery == id && w.phase != Done
          && w.attempts == d.attempts && w.cycleStart == d.cycleStart
          && w.claimAt == d.claimedAt && d.lease == Some(w.leaseUntil))
  }

  ghost predicate WorkerOk(db: Db, t: nat, w: Worker) {
    && t < db.nextToken
    && w.delivery in db.deliveries
    && w.cycleStart < w.attempts <= db.deliveries[w.delivery].attempts
    && (w.phase == Claimed ==> (w.delivery, w.attempts) !in db.attemptRows)
  }

  /** Two claims of one delivery carry different attempt numbers, the later claim the larger one. */
  ghost predicate Numbered(workers: map<nat, Worker>) {
    forall t <- workers, u <- workers ::
      t < u && workers[t].delivery == workers[u].delivery ==> workers[t].attempts < workers[u].attempts
  }

  ghost predicate RowsOk(attemptRows: map<(nat, nat), Outcome>, deliveries: map<nat, Delivery>) {
    forall key <- attemptRows :: key.0 in deliveries && key.1 <= deliveries[key.0].attempts
  }

  /** Two in-flight deliveries of one endpoint: one window ends before the other begins. */
  ghost predicate WindowsDisjoint(deliveries: map<nat, Delivery>) {
    forall a <- deliveries, b <- deliveries ::
      && a != b && deliveries[a].endpoint == deliveries[b].endpoint
      && deliveries[a].status == InFlight && deliveries[b].status == InFlight
      && deliveries[a].lease.Some? && deliveries[b].lease.Some? ==>
      || deliveries[a].lease.value < deliveries[b].claimedAt
      || deliveries[b].lease.value < deliveries[a].claimedAt
  }

  ghost predicate AllRowsOk(db: Db) {
    forall id <- db.deliveries :: RowOk(db.config, db.workers, id, db.deliveries[id])
  }

  ghost predicate AllWorkersOk(db: Db) {
    forall t <- db.workers :: WorkerOk(db, t, db.workers[t])
  }

  ghost predicate Inv(db: Db) {
    && AllRowsOk(db)
    && AllWorkersOk(db)
    && Numbered(db.workers)
    && RowsOk(db.attemptRows, db.deliveries)
    && WindowsDisjoint(db.deliveries)
  }

  /** A row keeps its invariant when a worker that does not hold it appears or changes. */
  lemma RowFrame(config: Config, workers: map<nat, Worker>, t: nat, w: Worker, id: nat, d: Delivery)
    requires RowOk(config, workers, id, d)
    requires if t in workers then w.delivery == workers[t].delivery else w.delivery != id
    requires d.token != Some(t) || (t in workers && w.phase != Done && w == workers[t].(phase := w.phase))
    ensures RowOk(config, workers[t := w], id, d)
  {
    assert Claims(workers[t := w], id) == Claims(workers, id);
  }

  lemma ClaimedRowOk(config: Config, workers: map<nat, Worker>, id: nat, d: Delivery, t: nat, now: int, until: int)
    requires RowOk(config, workers, id, d) && t !in workers
    ensures RowOk(config, workers[t := Worker(id, d.attempts + 1, d.cycleStart, now, until, Claimed)], id,
                  ClaimedRow(d, t, now, until))
  {
    assert Claims(workers[t := Worker(id, d.attempts + 1, d.cycleStart, now, until, Claimed)], id)
        == Claims(workers, id) + {t};
  }

  lemma ClaimRows(db: Db, id: nat, now: int, until: int)
    requires Inv(db) && id in db.deliveries
    ensures AllRowsOk(ClaimOf(db, id, now, until))
  {
    var db' := ClaimOf(db, id, now, until);
    var t := db.nextToken;
    assert t !in db.workers by {
      assert forall u <- db.workers :: WorkerOk(db, u, db.workers[u]);
    }
    forall other <- db'.deliveries
      ensures RowOk(db'.config, db'.workers, other, db'.deliveries[other])
    {
      if other == id {
        ClaimedRowOk(db.config, db.workers, id, db.deliveries[id], t, now, until);
      } else {
        RowFrame(db.config, db.workers, t, db'.workers[t], other, db.deliveries[other]);
      }
    }
  }

  lemma ClaimWorkers(db: Db, id: nat, now: int, until: int)
    requires Inv(db) && id in db.deliveries
    ensures var db' := ClaimOf(db, id, now, until);
            && AllWorkersOk(db')
            && Numbered(db'.workers)
            && RowsOk(db'.attemptRows, db'.deliveries)
  {
    var db' := ClaimOf(db, id, now, until);
    assert RowOk(db.config, db.workers, id, db.deliveries[id]);
    forall t <- db'.workers ensures WorkerOk(db', t, db'.workers[t]) {
      assert t in db.workers ==> WorkerOk(db, t, db.workers[t]);
    }
    forall t <- db.workers
      ensures t < db.nextToken
      ensures db.workers[t].delivery == id ==> db.workers[t].attempts <= db.deliveries[id].attempts
    {
      assert WorkerOk(db, t, db.workers[t]);
    }
  }

  /** A claim made while no other delivery of the endpoint is live starts after all their windows. */
  lemma ClaimWindows(deliveries: map<nat, Delivery>, id: nat, token: nat, now: int, until: int)
    requires WindowsDisjoint(deliveries) && id in deliveries && !LiveElsewhere(deliveries, id, now)
    ensures WindowsDisjoint(deliveries[id := ClaimedRow(deliveries[id], token, now, until)])
  {
  }

  lemma PickIsEligible(db: Db, now: int)
    requires Pick(db.deliveries, db.active, now).Some?
    ensures var id := Pick(db.deliveries, db.active, now).value;
            id in db.deliveries && Due(db.deliveries[id], now) && !LiveElsewhere(db.deliveries, id, now)
  {
    assert Pick(db.deliveries, db.active, now).value in EligibleIds(db.deliveries, db.active, now);
  }

  lemma ClaimKeepsInv(db: Db, now: int, lease: int)
    requires Inv(db)
    ensures Inv(Apply(db, Claim(now, lease)))
  {
    hide AllRowsOk, AllWorkersOk, Numbered, RowsOk, WindowsDisjoint, LiveElsewhere;
    var pick := Pick(db.deliveries, db.active, now);
    if lease > 0 && pick.Some? {
      PickIsEligible(db, now);
      ClaimRows(db, pick.value, now, now + lease);
      ClaimWorkers(db, pick.value, now, now + lease);
      ClaimWindows(db.deliveries, pick.value, db.nextToken, now, now + lease);
    }
  }

  lemma RecordRows(db: Db, token: nat, outcome: Outcome)
    requires Inv(db) && token in db.workers && db.workers[token].phase == Claimed
    ensures AllRowsOk(RecordOf(db, token, outcome))
  {
    var db' := RecordOf(db, token, outcome);
    forall id <- db'.deliveries
      ensures RowOk(db'.config, db'.workers, id, db'.deliveries[id])
    {
      RowFrame(db.config, db.workers, token, db'.workers[token], id, db.deliveries[id]);
    }
  }

  lemma RecordWorkers(db: Db, token: nat, outcome: Outcome)
    requires Inv(db) && token in db.workers && db.workers[token].phase == Claimed
    ensures AllWorkersOk(RecordOf(db, token, outcome))
    ensures RowsOk(RecordOf(db, token, outcome).attemptRows, db.deliveries)
  {
    var db' := RecordOf(db, token, outcome);
    assert WorkerOk(db, token, db.workers[token]);
    forall t <- db'.workers ensures WorkerOk(db', t, db'.workers[t]) {
      assert WorkerOk(db, t, db.workers[t]);
      assert t < token || token < t || token == t;
    }
  }

  lemma RecordKeepsInv(db: Db, token: nat, outcome: Outcome)
    requires Inv(db)
    ensures Inv(RecordOf(db, token, outcome))
  {
    hide AllRowsOk, AllWorkersOk, Numbered, RowsOk, WindowsDisjoint;
    if token in db.workers && db.workers[token].phase == Claimed {
      RecordRows(db, token, outcome);
      RecordWorkers(db, token, outcome);
      NumberedFrame(db.workers, token, Recorded);
    }
  }

  lemma SettledRowOk(config: Config, workers: map<nat, Worker>, id: nat, d: Delivery, t: nat, outcome: Outcome)
    requires RowOk(config, workers, id, d) && d.token == Some(t) && t in workers
    ensures RowOk(config, workers[t := workers[t].(phase := Done)], id, Settled(config, d, workers[t], outcome))
  {
    assert Claims(workers[t := workers[t].(phase := Done)], id) == Claims(workers, id);
  }

  lemma SettleRows(db: Db, token: nat, outcome: Outcome)
    requires Inv(db) && CanSettle(db, token, outcome)
    ensures AllRowsOk(SettleOf(db, token, outcome))
  {
    var db' := SettleOf(db, token, outcome);
    var w := db.workers[token];
    forall id <- db'.deliveries
      ensures RowOk(db'.config, db'.workers, id, db'.deliveries[id])
    {
      if id == w.delivery && Holds(db.deliveries, id, token) {
        SettledRowOk(db.config, db.workers, id, db.deliveries[id], token, outcome);
      } else {
        assert RowOk(db.config, db.workers, id, db.deliveries[id]);
        RowFrame(db.config, db.workers, token, db'.workers[token], id, db.deliveries[id]);
      }
    }
  }

  lemma SettleWindows(deliveries: map<nat, Delivery>, id: nat, d: Delivery)
    requires WindowsDisjoint(deliveries) && id in deliveries && d.status != InFlight
    ensures WindowsDisjoint(deliveries[id := d])
  {
  }

  /** Nothing but the phase of one worker and the rows' statuses changed: the worker facts carry over. */
  lemma WorkersFrame(db: Db, db': Db, token: nat)
    requires token in db.workers && db'.workers == db.workers[token := db.workers[token].(phase := Done)]
    requires db'.nextToken == db.nextToken && db'.attemptRows == db.attemptRows
    requires db'.deliveries.Keys == db.deliveries.Keys
    requires forall id <- db.deliveries :: db'.deliveries[id].attempts == db.deliveries[id].attempts
    requires AllWorkersOk(db)
    ensures AllWorkersOk(db')
  {
    forall t <- db'.workers ensures WorkerOk(db', t, db'.workers[t]) {
      assert WorkerOk(db, t, db.workers[t]);
    }
  }

  lemma NumberedFrame(workers: map<nat, Worker>, token: nat, phase: Phase)
    requires Numbered(workers) && token in workers
    ensures Numbered(workers[token := workers[token].(phase := phase)])
  {
    var workers' := workers[token := workers[token].(phase := phase)];
    forall t <- workers', u <- workers' | t < u && workers'[t].delivery == workers'[u].delivery
      ensures workers'[t].attempts < workers'[u].attempts
    {
      assert workers[t].delivery == workers[u].delivery;
    }
  }

  lemma RowsFrame(attemptRows: map<(nat, nat), Outcome>, before: map<nat, Delivery>, after: map<nat, Delivery>)
    requires RowsOk(attemptRows, before)
    requires forall id <- before :: id in after && before[id].attempts <= after[id].attempts
    ensures RowsOk(attemptRows, after)
  {
  }

  lemma WorkerHasRow(db: Db, token: nat)
    requires AllWorkersOk(db) && token in db.workers
    ensures db.workers[token].delivery in db.deliveries && token < db.nextToken
  {
    assert WorkerOk(db, token, db.workers[token]);
  }

  lemma SettleKeepsInv(db: Db, token: nat, outcome: Outcome)
    requires Inv(db)
    ensures Inv(SettleOf(db, token, outcome))
  {
    hide AllRowsOk, AllWorkersOk, Numbered, RowsOk, WindowsDisjoint;
    if CanSettle(db, token, outcome) {
      var w := db.workers[token];
      WorkerHasRow(db, token);
      SettleRows(db, token, outcome);
      WorkersFrame(db, SettleOf(db, token, outcome), token);
      NumberedFrame(db.workers, token, Done);
      RowsFrame(db.attemptRows, db.deliveries, SettleOf(db, token, outcome).deliveries);
      SettleWindows(db.deliveries, w.delivery, Settled(db.config, db.deliveries[w.delivery], w, outcome));
    }
  }

  lemma QueueKeepsInv(db: Db, id: nat, endpoint: nat, now: int)
    requires Inv(db)
    ensures Inv(QueueOf(db, id, endpoint, now))
  {
    hide AllRowsOk, AllWorkersOk, RowsOk, WindowsDisjoint;
    if id !in db.deliveries {
      QueueRows(db, id, endpoint, now);
      QueueWorkers(db, id, endpoint, now);
      RowsFrame(db.attemptRows, db.deliveries, QueueOf(db, id, endpoint, now).deliveries);
      QueueWindows(db.deliveries, id, endpoint, now);
    }
  }

  lemma QueueRows(db: Db, id: nat, endpoint: nat, now: int)
    requires Inv(db) && id !in db.deliveries
    ensures AllRowsOk(QueueOf(db, id, endpoint, now))
  {
    hide WindowsDisjoint, RowsOk, Numbered;
    var db' := QueueOf(db, id, endpoint, now);
    NoClaims(db, id);
    forall other <- db'.deliveries ensures RowOk(db'.config, db'.workers, other, db'.deliveries[other]) {
      assert other != id ==> RowOk(db.config, db.workers, other, db.deliveries[other]);
    }
  }

  lemma QueueWorkers(db: Db, id: nat, endpoint: nat, now: int)
    requires AllWorkersOk(db) && id !in db.deliveries
    ensures AllWorkersOk(QueueOf(db, id, endpoint, now))
  {
    var db' := QueueOf(db, id, endpoint, now);
    forall t <- db'.workers ensures WorkerOk(db', t, db'.workers[t]) {
      assert WorkerOk(db, t, db.workers[t]);
    }
  }

  lemma QueueWindows(deliveries: map<nat, Delivery>, id: nat, endpoint: nat, now: int)
    requires WindowsDisjoint(deliveries) && id !in deliveries
    ensures WindowsDisjoint(deliveries[id := Delivery(endpoint, Pending, 0, 0, now, None, None, now)])
  {
  }

  lemma ReplayKeepsInv(db: Db, id: nat, now: int)
    requires Inv(db)
    ensures Inv(ReplayOf(db, id, now))
  {
    if CanReplay(db, id) {
      var db' := ReplayOf(db, id, now);
      assert RowOk(db.config, db.workers, id, db.deliveries[id]);
      assert RowOk(db'.config, db'.workers, id, db'.deliveries[id]);
      forall t <- db'.workers ensures WorkerOk(db', t, db'.workers[t]) {
        assert WorkerOk(db, t, db.workers[t]);
      }
    }
  }

  lemma NoClaims(db: Db, id: nat)
    requires Inv(db) && id !in db.deliveries
    ensures Claims(db.workers, id) == {}
  {
    forall t <- db.workers ensures db.workers[t].delivery != id {
      assert WorkerOk(db, t, db.workers[t]);
    }
  }

  lemma ApplyKeepsInv(db: Db, op: Op)
    requires Inv(db)
    ensures Inv(Apply(db, op))
  {
    match op
    case Queue(id, endpoint, now) => QueueKeepsInv(db, id, endpoint, now);
    case SetActive(_, _) =>
      forall t <- db.workers ensures WorkerOk(Apply(db, op), t, db.workers[t]) {
        assert WorkerOk(db, t, db.workers[t]);
      }
    case Claim(now, lease) => ClaimKeepsInv(db, now, lease);
    case Record(token, outcome) => RecordKeepsInv(db, token, outcome);
    case Settle(token, outcome) => SettleKeepsInv(db, token, outcome);
    case Replay(id, now) => ReplayKeepsInv(db, id, now);
  }

  lemma ApplyKeepsConfig(db: Db, op: Op)
    ensures Apply(db, op).config == db.config
  {
  }

  /** From a state that satisfies the invariant every run keeps it and the retry settings. */
  lemma Reachable(db: Db, ops: seq<Op>)
    requires Inv(db)
    ensures Inv(Run(db, ops)) && Run(db, ops).config == db.config
  {
    hide Inv, Apply;
    var inv := (s: Db) => Inv(s) && s.config == db.config;
    forall s: Db, op: Op | inv(s) ensures inv(Apply(s, op)) {
      ApplyKeepsInv(s, op);
      ApplyKeepsConfig(s, op);
    }
    Runs.Invariant(Apply, inv, db, ops);
  }

  lemma EmptyIsOk(config: Config)
    ensures Inv(Empty(config))
  {
  }

  // ---- What holds in every run ----

  /** At no instant do two deliveries of one endpoint both hold a live lease, whatever clocks the claimers had. */
  lemma AtMostOneLiveLease(config: Config, ops: seq<Op>, a: nat, b: nat, instant: int)
    requires var ds := Run(Empty(config), ops).deliveries;
             && a in ds && b in ds && a != b && ds[a].endpoint == ds[b].endpoint
             && ds[a].status == InFlight && ds[b].status == InFlight
    ensures var ds := Run(Empty(config), ops).deliveries;
            && ds[a].lease.Some? && ds[b].lease.Some?
            && (ds[a].lease.value < ds[b].claimedAt || ds[b].lease.value < ds[a].claimedAt)
            && !(ds[a].claimedAt <= instant <= ds[a].lease.value && ds[b].claimedAt <= instant <= ds[b].lease.value)
  {
    Reachable(Empty(config), ops);
    var db := Run(Empty(config), ops);
    assert RowOk(db.config, db.workers, a, db.deliveries[a]) && RowOk(db.config, db.workers, b, db.deliveries[b]);
  }

  /** Attempts count claims, and the attempt number a worker records is always still free. */
  lemma AttemptsCountClaims(config: Config, ops: seq<Op>)
    ensures var db := Run(Empty(config), ops);
            && (forall id <- db.deliveries :: db.deliveries[id].attempts == |Claims(db.workers, id)|)
            && (forall t <- db.workers :: db.workers[t].phase == Claimed ==>
                  (db.workers[t].delivery, db.workers[t].attempts) !in db.attemptRows)
  {
    Reachable(Empty(config), ops);
    var db := Run(Empty(config), ops);
    forall id <- db.deliveries ensures db.deliveries[id].attempts == |Claims(db.workers, id)| {
      assert RowOk(db.config, db.workers, id, db.deliveries[id]);
    }
    forall t <- db.workers | db.workers[t].phase == Claimed
      ensures (db.workers[t].delivery, db.workers[t].attempts) !in db.attemptRows
    {
      assert WorkerOk(db, t, db.workers[t]);
    }
  }

  /**
    The retry budget. The lower clamp on the effective attempts never acts; the upper clamp on the
    backoff index acts on a retry only when the limit exceeds the table by two or more.
   */
  lemma RetryBudget(config: Config, ops: seq<Op>, id: nat, t: nat)
    requires var db := Run(Empty(config), ops); id in db.deliveries && t in db.workers
    ensures var db := Run(Empty(config), ops);
            var d, w := db.deliveries[id], db.workers[t];
            && (d.status == Pending ==> 0 <= d.attempts - d.cycleStart < config.maxRetries)
            && Effective(w) == w.attempts - w.cycleStart >= 1
            && 0 <= BackoffIndex(config, w) < |config.backoffs|
            && (Effective(w) < config.maxRetries <= |config.backoffs| + 1 ==>
                  BackoffIndex(config, w) == Effective(w) - 1)
  {
    Reachable(Empty(config), ops);
    var db := Run(Empty(config), ops);
    assert RowOk(db.config, db.workers, id, db.deliveries[id]) && WorkerOk(db, t, db.workers[t]);
  }

  /** The outcome in the attempt row says what the settlement then does to the delivery. */
  lemma RecordedOutcomeIsSettlement(config: Config, d: Delivery, w: Worker, outcome: Outcome)
    requires outcome != Unavailable
    ensures RecordedOutcome(config, w, outcome) ==
            match Settled(config, d, w, outcome).status
            case Delivered => Success
            case Pending => Retry
            case _ => TerminalFailure
  {
  }

  /** A claim that has been superseded or settled. */
  ghost predicate Lost(db: Db, token: nat) {
    && token in db.workers
    && !Holds(db.deliveries, db.workers[token].delivery, token)
  }

  lemma ApplyKeepsLost(db: Db, op: Op, token: nat)
    requires Inv(db) && Lost(db, token)
    ensures Lost(Apply(db, op), token)
    ensures op.Settle? && op.token == token ==> Apply(db, op).deliveries == db.deliveries
  {
    hide AllRowsOk, AllWorkersOk, Numbered, RowsOk, WindowsDisjoint;
    WorkerHasRow(db, token);
    if op.Claim? && Pick(db.deliveries, db.active, op.now).Some? {
      PickIsEligible(db, op.now);
    }
  }

  /** A lost claim stays lost, so however late its dispatcher settles it, no delivery changes. */
  lemma {:induction false} LostClaimsAreInert(db: Db, ops: seq<Op>, token: nat, outcome: Outcome)
    requires Inv(db) && Lost(db, token)
    ensures Inv(Run(db, ops)) && Lost(Run(db, ops), token)
    ensures Apply(Run(db, ops), Settle(token, outcome)).deliveries == Run(db, ops).deliveries
    decreases |ops|
  {
    if ops == [] {
      ApplyKeepsLost(db, Settle(token, outcome), token);
    } else {
      ApplyKeepsLost(db, ops[0], token);
      ApplyKeepsInv(db, ops[0]);
      LostClaimsAreInert(Apply(db, ops[0]), ops[1..], token, outcome);
    }
  }

  /** Settling a claim loses it, so no later settlement of the same claim changes a delivery. */
  lemma SettledAtMostOnce(db: Db, token: nat, first: Outcome, ops: seq<Op>, second: Outcome)
    requires Inv(db) && CanSettle(db, token, first)
    ensures var after := Run(SettleOf(db, token, first), ops);
            Apply(after, Settle(token, second)).deliveries == after.deliveries
  {
    SettleKeepsInv(db, token, first);
    assert Lost(SettleOf(db, token, first), token);
    LostClaimsAreInert(SettleOf(db, token, first), ops, token, second);
  }

  /** A second claim of the same delivery loses the first one. */
  lemma ReclaimLosesOldClaim(db: Db, now: int, lease: int, token: nat)
    requires Inv(db) && lease > 0 && token in db.workers
    requires Pick(db.deliveries, db.active, now) == Some(db.workers[token].delivery)
    ensures Lost(Apply(db, Claim(now, lease)), token)
  {
    assert WorkerOk(db, token, db.workers[token]);
  }

  /** DELIVERED is final; DEAD_LETTER is left only by a replay while the endpoint is active. */
  lemma FinalStates(db: Db, op: Op, id: nat)
    requires Inv(db) && id in db.deliveries
    ensures id in Apply(db, op).deliveries
    ensures db.deliveries[id].status == Delivered ==> Apply(db, op).deliveries[id] == db.deliveries[id]
    ensures db.deliveries[id].status == DeadLetter && Apply(db, op).deliveries[id] != db.deliveries[id] ==>
              && op.Replay? && op.id == id && db.deliveries[id].endpoint in db.active
              && Apply(db, op).deliveries[id].status == Pending
              && Apply(db, op).deliveries[id].attempts == Apply(db, op).deliveries[id].cycleStart
  {
    if op.Claim? {
      var pick := Pick(db.deliveries, db.active, op.now);
      assert pick.Some? ==> pick.value in EligibleIds(db.deliveries, db.active, op.now);
    }
  }

  lemma {:induction false} DeliveredForever(db: Db, ops: seq<Op>, id: nat)
    requires Inv(db) && id in db.deliveries && db.deliveries[id].status == Delivered
    ensures id in Run(db, ops).deliveries && Run(db, ops).deliveries[id] == db.deliveries[id]
    decreases |ops|
  {
    if ops == [] {
    } else {
      FinalStates(db, ops[0], id);
      ApplyKeepsInv(db, ops[0]);
      DeliveredForever(Apply(db, ops[0]), ops[1..], id);
    }
  }

  /**
    In every run a dead letter stays as it is until a replay takes it back while its endpoint is
    active; that replay starts a fresh retry cycle.
   */
  lemma {:induction false} DeadLetterUntilReplay(db: Db, ops: seq<Op>, id: nat)
    requires Inv(db) && id in db.deliveries && db.deliveries[id].status == DeadLetter
    ensures id in Run(db, ops).deliveries
    ensures Run(db, ops).deliveries[id] == db.deliveries[id] || exists k :: ReplayedAt(db, ops, id, k)
    decreases |ops|
  {
    if ops == [] {
    } else {
      hide Inv, Apply;
      var n := |ops| - 1;
      var mid := Run(db, ops[..n]);
      assert ops == ops[..n] + [ops[n]];
      Runs.Snoc(Apply, db, ops[..n], ops[n]);
      Reachable(db, ops[..n]);
      DeadLetterUntilReplay(db, ops[..n], id);
      FinalStates(mid, ops[n], id);
      if mid.deliveries[id] == db.deliveries[id] {
        assert ops[..n + 1] == ops;
        if Apply(mid, ops[n]).deliveries[id] != mid.deliveries[id] {
          assert ReplayedAt(db, ops, id, n);
        }
      } else {
        hide Run;
        var k :| ReplayedAt(db, ops[..n], id, k);
        StillReplayedAt(db, ops, id, n, k);
      }
    }
  }

  lemma StillReplayedAt(db: Db, ops: seq<Op>, id: nat, n: nat, k: int)
    requires id in db.deliveries && n <= |ops| && ReplayedAt(db, ops[..n], id, k)
    ensures ReplayedAt(db, ops, id, k)
  {
    hide Run;
    assert ops[..n][..k] == ops[..k] && ops[..n][..k + 1] == ops[..k + 1];
  }

  /** Operation `k` of the run replays the delivery, a dead letter up to then, for its active endpoint. */
  ghost predicate ReplayedAt(db: Db, ops: seq<Op>, id: nat, k: int)
    requires id in db.deliveries
  {
    0 <= k < |ops| && ops[k].Replay? && ops[k].id == id &&
    var before, after := Run(db, ops[..k]), Run(db, ops[..k + 1]);
    && id in before.deliveries && before.deliveries[id] == db.deliveries[id]
    && db.deliveries[id].endpoint in before.active
    && id in after.deliveries && after.deliveries[id].status == Pending
    && after.deliveries[id].attempts == after.deliveries[id].cycleStart
  }

  /** The claimed delivery is determined: there is only one first row. */
  lemma FirstIsUnique(deliveries: map<nat, Delivery>, ids: set<nat>, a: nat, b: nat)
    requires ids <= deliveries.Keys && IsFirst(deliveries, ids, a) && IsFirst(deliveries, ids, b)
    ensures a == b
  {
    assert a == b || Before(deliveries, a, b);
  }

  lemma PickIsFirst(deliveries: map<nat, Delivery>, active: set<nat>, now: int, first: nat)
    requires IsFirst(deliveries, EligibleIds(deliveries, active, now), first)
    ensures Pick(deliveries, active, now) == Some(first)
  {
    var pick := Pick(deliveries, active, now);
    assert pick.Some?;
    FirstIsUnique(deliveries, EligibleIds(deliveries, active, now), first, pick.value);
  }

  // ---- Which delivery is claimed, and when ----

  /** Its endpoint is active, it is due or its lease has run out, and the endpoint has no other live lease. */
  ghost predicate Claimable(deliveries: map<nat, Delivery>, active: set<nat>, id: nat, now: int) {
    && id in deliveries
    && var d := deliveries[id];
    && d.endpoint in active
    && (if d.status == Pending then d.nextAttempt <= now
        else d.status == InFlight && d.lease.Some? && d.lease.value < now)
    && (forall other <- deliveries ::
          other != id && deliveries[other].endpoint == d.endpoint
          && deliveries[other].status == InFlight && deliveries[other].lease.Some? ==>
          deliveries[other].lease.value < now)
  }

  /** Of the claimable deliveries, the one due longest; of several, the one with the least id. */
  ghost predicate FirstClaimable(deliveries: map<nat, Delivery>, active: set<nat>, id: nat, now: int) {
    && Claimable(deliveries, active, id, now)
    && (forall other: nat :: Claimable(deliveries, active, other, now) ==>
          deliveries[id].nextAttempt < deliveries[other].nextAttempt
          || (deliveries[id].nextAttempt == deliveries[other].nextAttempt && id <= other))
  }

  lemma ClaimableIffEligible(deliveries: map<nat, Delivery>, active: set<nat>, now: int)
    ensures forall id: nat :: Claimable(deliveries, active, id, now) <==> id in EligibleIds(deliveries, active, now)
  {
    forall id: nat | true
      ensures Claimable(deliveries, active, id, now) <==> id in EligibleIds(deliveries, active, now)
    {
      if id in deliveries && !LiveElsewhere(deliveries, id, now) {
        assert Claimable(deliveries, active, id, now) <==>
               deliveries[id].endpoint in active && Due(deliveries[id], now);
      }
    }
  }

  lemma FirstIsFirstClaimable(deliveries: map<nat, Delivery>, active: set<nat>, id: nat, now: int)
    requires IsFirst(deliveries, EligibleIds(deliveries, active, now), id)
    ensures FirstClaimable(deliveries, active, id, now)
  {
    ClaimableIffEligible(deliveries, active, now);
    hide Claimable, EligibleIds;
  }

  /** A claim takes the first claimable delivery if there is one, and does nothing otherwise. */
  lemma ClaimTakesFirst(db: Db, now: int, lease: int)
    ensures var db' := Apply(db, Claim(now, lease));
            if lease <= 0 || forall id: nat :: !Claimable(db.deliveries, db.active, id, now) then db' == db
            else exists id: nat :: ClaimedBy(db, db', id, now, lease)
  {
    var pick := Pick(db.deliveries, db.active, now);
    ClaimableIffEligible(db.deliveries, db.active, now);
    if lease > 0 && pick.Some? {
      FirstIsFirstClaimable(db.deliveries, db.active, pick.value, now);
      assert ClaimedBy(db, Apply(db, Claim(now, lease)), pick.value, now, lease);
    }
    hide Claimable, EligibleIds, FirstClaimable;
  }

  /** Delivery `id`, the first claimable one, is in flight under a fresh token for `lease`, with one more attempt. */
  ghost predicate ClaimedBy(db: Db, db': Db, id: nat, now: int, lease: int) {
    && FirstClaimable(db.deliveries, db.active, id, now)
    && var d, t := db.deliveries[id], db.nextToken;
    && db'.deliveries == db.deliveries[id := Delivery(d.endpoint, InFlight, d.attempts + 1, d.cycleStart, d.nextAttempt,
                                                      Some(t), Some(now + lease), now)]
    && db'.workers == db.workers[t := Worker(id, d.attempts + 1, d.cycleStart, now, now + lease, Claimed)]
    && db'.nextToken == t + 1 && db'.active == db.active && db'.attemptRows == db.attemptRows
  }

  // ---- What a settlement leaves ----

  /**
    In every run, a claim that is still held when it is settled leaves the delivery DELIVERED after a
    success; PENDING after a failure worth retrying while the cycle has attempts left, due the backoff
    of that attempt after the claim; and a dead letter otherwise.
   */
  lemma WhatASettlementLeaves(config: Config, ops: seq<Op>, token: nat, outcome: Outcome)
    requires var db := Run(Empty(config), ops);
             && token in db.workers
             && db.workers[token].phase == (if outcome == Unavailable then Claimed else Recorded)
             && var id := db.workers[token].delivery;
             id in db.deliveries && db.deliveries[id].token == Some(token)
    ensures var db := Run(Empty(config), ops);
            var db' := Apply(db, Settle(token, outcome));
            var id, claimAt := db.workers[token].delivery, db.workers[token].claimAt;
            var d, n := db.deliveries[id], db.deliveries[id].attempts - db.deliveries[id].cycleStart;
            var step := (if n < |config.backoffs| then n else |config.backoffs|) - 1;
            && n >= 1
            && db'.deliveries == db.deliveries[id := db'.deliveries[id]]
            && db'.deliveries[id] ==
               if outcome == Success then
                 d.(status := Delivered, nextAttempt := ZERO_TIME, token := None, lease := None)
               else if outcome == Retry && n < config.maxRetries then
                 d.(status := Pending, token := None, lease := None, nextAttempt := claimAt + config.backoffs[step])
               else
                 d.(status := DeadLetter, token := None, lease := None)
  {
    hide Run, Apply, Inv;
    EmptyIsOk(config);
    Reachable(Empty(config), ops);
    SettlementLeaves(Run(Empty(config), ops), token, outcome);
  }

  lemma SettlementLeaves(db: Db, token: nat, outcome: Outcome)
    requires Inv(db) && token in db.workers
    requires db.workers[token].phase == if outcome == Unavailable then Claimed else Recorded
    requires db.workers[token].delivery in db.deliveries
    requires db.deliveries[db.workers[token].delivery].token == Some(token)
    ensures var db' := Apply(db, Settle(token, outcome));
            var id, claimAt := db.workers[token].delivery, db.workers[token].claimAt;
            var d, n := db.deliveries[id], db.deliveries[id].attempts - db.deliveries[id].cycleStart;
            && n >= 1
            && db'.deliveries == db.deliveries[id := db'.deliveries[id]]
            && db'.deliveries[id] ==
               if outcome == Success then
                 d.(status := Delivered, nextAttempt := ZERO_TIME, token := None, lease := None)
               else if outcome == Retry && n < db.config.maxRetries then
                 var b := db.config.backoffs;
                 d.(status := Pending, token := None, lease := None,
                    nextAttempt := claimAt + b[(if n < |b| then n else |b|) - 1])
               else
                 d.(status := DeadLetter, token := None, lease := None)
  {
    hide AllRowsOk, AllWorkersOk, WindowsDisjoint, Numbered, RowsOk, Claims;
    OneRowOk(db, db.workers[token].delivery);
    OneWorkerOk(db, token);
  }

  lemma OneWorkerOk(db: Db, token: nat)
    requires AllWorkersOk(db) && token in db.workers
    ensures WorkerOk(db, token, db.workers[token])
  {
  }

  /** A pending delivery stays as it is until a claim whose clock has reached its due time. */
  ghost predicate TakenWhenDue(db: Db, ops: seq<Op>, id: nat, k: int)
    requires id in db.deliveries
  {
    0 <= k < |ops| && ops[k].Claim? && ops[k].now >= db.deliveries[id].nextAttempt
    && id in Run(db, ops[..k]).deliveries && Run(db, ops[..k]).deliveries[id] == db.deliveries[id]
  }

  lemma PendingStep(db: Db, op: Op, id: nat)
    requires Inv(db) && id in db.deliveries && db.deliveries[id].status == Pending
    ensures id in Apply(db, op).deliveries
    ensures Apply(db, op).deliveries[id] == db.deliveries[id]
            || (op.Claim? && op.now >= db.deliveries[id].nextAttempt)
  {
    hide AllRowsOk, AllWorkersOk, Numbered, RowsOk, WindowsDisjoint, LiveElsewhere;
    if op.Claim? && Pick(db.deliveries, db.active, op.now).Some? {
      PickIsEligible(db, op.now);
    }
    OneRowOk(db, id);
  }

  lemma OneRowOk(db: Db, id: nat)
    requires AllRowsOk(db) && id in db.deliveries
    ensures RowOk(db.config, db.workers, id, db.deliveries[id])
  {
  }

  lemma {:induction false} PendingUntilDue(db: Db, ops: seq<Op>, id: nat)
    requires Inv(db) && id in db.deliveries && db.deliveries[id].status == Pending
    ensures id in Run(db, ops).deliveries
    ensures Run(db, ops).deliveries[id] == db.deliveries[id] || exists k :: TakenWhenDue(db, ops, id, k)
    decreases |ops|
  {
    if ops == [] {
    } else {
      hide Inv, Apply;
      var n := |ops| - 1;
      var mid := Run(db, ops[..n]);
      assert ops == ops[..n] + [ops[n]];
      Runs.Snoc(Apply, db, ops[..n], ops[n]);
      Reachable(db, ops[..n]);
      PendingUntilDue(db, ops[..n], id);
      StepKeepsRow(mid, ops[n], id);
      if mid.deliveries[id] == db.deliveries[id] {
        PendingStep(mid, ops[n], id);
        if Apply(mid, ops[n]).deliveries[id] != mid.deliveries[id] {
          assert TakenWhenDue(db, ops, id, n);
        }
      } else {
        hide Run;
        var k :| TakenWhenDue(db, ops[..n], id, k);
        assert ops[..n][..k] == ops[..k];
        assert TakenWhenDue(db, ops, id, k);
      }
    }
  }

  lemma StepKeepsRow(db: Db, op: Op, id: nat)
    requires id in db.deliveries
    ensures id in Apply(db, op).deliveries
  {
  }

  /** Delivery `id` is due at `due` or later, and so was every claim of it from token `from` on. */
  ghost predicate NotBefore(db: Db, id: nat, from: nat, due: int) {
    && id in db.deliveries && from <= db.nextToken
    && var d := db.deliveries[id];
    && (d.status == Pending ==> d.nextAttempt >= due)
    && (d.status == InFlight ==> d.token.Some? && d.token.value >= from && d.lease.Some? && d.lease.value >= due)
    && (forall t <- db.workers :: t >= from && db.workers[t].delivery == id ==> db.workers[t].claimAt >= due)
  }

  lemma StepKeepsNotBefore(db: Db, op: Op, id: nat, from: nat, due: int)
    requires Inv(db) && NotBefore(db, id, from, due)
    requires forall k :: 0 <= k < |db.config.backoffs| ==> db.config.backoffs[k] >= 0
    requires !(op.Replay? && op.id == id)
    ensures NotBefore(Apply(db, op), id, from, due)
  {
    hide AllRowsOk, AllWorkersOk, Numbered, RowsOk, WindowsDisjoint, LiveElsewhere;
    OneRowOk(db, id);
    if op.Claim? && Pick(db.deliveries, db.active, op.now).Some? {
      PickIsEligible(db, op.now);
    }
  }

  lemma {:induction false} RunKeepsNotBefore(db: Db, ops: seq<Op>, id: nat, from: nat, due: int)
    requires Inv(db) && NotBefore(db, id, from, due)
    requires forall k :: 0 <= k < |db.config.backoffs| ==> db.config.backoffs[k] >= 0
    requires forall op <- ops :: !(op.Replay? && op.id == id)
    ensures NotBefore(Run(db, ops), id, from, due)
    decreases |ops|
  {
    hide Inv, Apply, NotBefore;
    if ops == [] {
    } else {
      assert ops[0] in ops && forall op <- ops[1..] :: op in ops;
      StepKeepsNotBefore(db, ops[0], id, from, due);
      ApplyKeepsInv(db, ops[0]);
      ApplyKeepsConfig(db, ops[0]);
      RunKeepsNotBefore(Apply(db, ops[0]), ops[1..], id, from, due);
    }
  }

  /**
    So after a settlement that schedules another attempt, and in every run without a replay of the
    delivery, no claim of it is made with a clock before the due time, whoever makes it.
   */
  lemma NoClaimBeforeTheBackoff(config: Config, ops: seq<Op>, token: nat, after: seq<Op>, t: nat)
    requires forall k :: 0 <= k < |config.backoffs| ==> config.backoffs[k] >= 0
    requires var db := Run(Empty(config), ops);
             && token in db.workers && db.workers[token].phase == Recorded
             && var id := db.workers[token].delivery;
             && id in db.deliveries && db.deliveries[id].token == Some(token)
             && db.deliveries[id].attempts - db.deliveries[id].cycleStart < config.maxRetries
             && (forall op <- after :: !(op.Replay? && op.id == id))
             && t >= db.nextToken
    requires var end := Run(Empty(config), ops + [Settle(token, Retry)] + after);
             t in end.workers && end.workers[t].delivery == Run(Empty(config), ops).workers[token].delivery
    ensures var db, end := Run(Empty(config), ops), Run(Empty(config), ops + [Settle(token, Retry)] + after);
            var id, b := db.workers[token].delivery, config.backoffs;
            var n := db.deliveries[id].attempts - db.deliveries[id].cycleStart;
            && 1 <= n
            && end.workers[t].claimAt >= db.workers[token].claimAt + b[(if n < |b| then n else |b|) - 1]
  {
    hide Inv, Apply;
    var db, settled := Run(Empty(config), ops), Apply(Run(Empty(config), ops), Settle(token, Retry));
    Runs.Snoc(Apply, Empty(config), ops, Settle(token, Retry));
    Runs.Concat(Apply, Empty(config), ops + [Settle(token, Retry)], after);
    assert Run(Empty(config), ops + [Settle(token, Retry)] + after) == Run(settled, after);
    hide Run;
    EmptyIsOk(config);
    Reachable(Empty(config), ops);
    SettlementLeaves(db, token, Retry);
    ApplyKeepsInv(db, Settle(token, Retry));
    ApplyKeepsConfig(db, Settle(token, Retry));
    var id := db.workers[token].delivery;
    NoneYet(db, token, id, settled.deliveries[id].nextAttempt);
    RunKeepsNotBefore(settled, after, id, db.nextToken, settled.deliveries[id].nextAttempt);
  }

  lemma NoneYet(db: Db, token: nat, id: nat, due: int)
    requires Inv(db)
    requires var settled := Apply(db, Settle(token, Retry));
             id in settled.deliveries && settled.deliveries[id].status == Pending
             && settled.deliveries[id].nextAttempt >= due
    ensures NotBefore(Apply(db, Settle(token, Retry)), id, db.nextToken, due)
  {
    forall t <- db.workers ensures t < db.nextToken {
      OneWorkerOk(db, t);
    }
    hide AllRowsOk, AllWorkersOk, Numbered, RowsOk, WindowsDisjoint;
  }

  // ---- The budget that makes draining terminate ----

  /** How many more dispatches this row can absorb before it leaves the queue for good. */
  function Weight(maxRetries: nat, d: Delivery): nat {
    match d.status
    case Pending => if d.attempts - d.cycleStart < maxRetries then maxRetries - (d.attempts - d.cycleStart) else 1
    case InFlight => if d.attempts - d.cycleStart < maxRetries then maxRetries - (d.attempts - d.cycleStart) else 1
    case _ => 0
  }

  ghost function Budget(maxRetries: nat, deliveries: map<nat, Delivery>): nat
    decreases |deliveries|
  {
    if deliveries == map[] then 0
    else
      var id :| id in deliveries;
      Weight(maxRetries, deliveries[id]) + Budget(maxRetries, deliveries - {id})
  }

  lemma {:induction false} BudgetSplit(maxRetries: nat, deliveries: map<nat, Delivery>, id: nat)
    requires id in deliveries
    ensures Budget(maxRetries, deliveries) == Weight(maxRetries, deliveries[id]) + Budget(maxRetries, deliveries - {id})
    decreases |deliveries|
  {
    var x :| x in deliveries &&
      Budget(maxRetries, deliveries) == Weight(maxRetries, deliveries[x]) + Budget(maxRetries, deliveries - {x});
    if x == id {
    } else {
      BudgetSplit(maxRetries, deliveries - {x}, id);
      BudgetSplit(maxRetries, deliveries - {id}, x);
      assert deliveries - {x} - {id} == deliveries - {id} - {x};
    }
  }

  lemma BudgetUpdate(maxRetries: nat, deliveries: map<nat, Delivery>, id: nat, d: Delivery)
    requires id in deliveries
    ensures Budget(maxRetries, deliveries[id := d]) - Weight(maxRetries, d) ==
            Budget(maxRetries, deliveries) - Weight(maxRetries, deliveries[id])
  {
    BudgetSplit(maxRetries, deliveries, id);
    BudgetSplit(maxRetries, deliveries[id := d], id);
    assert deliveries[id := d] - {id} == deliveries - {id};
  }

  /** Only queueing and replaying give a delivery new retry budget. */
  predicate Spends(op: Op) {
    !op.Queue? && !op.Replay?
  }

  ghost predicate Quiet(ops: seq<Op>) {
    forall op <- ops :: Spends(op)
  }

  ghost function BudgetOf(db: Db): nat {
    Budget(db.config.maxRetries, db.deliveries)
  }

  lemma ClaimSpends(db: Db, now: int, lease: int)
    ensures BudgetOf(Apply(db, Claim(now, lease))) <= BudgetOf(db)
  {
    hide Budget;
    if lease > 0 && Pick(db.deliveries, db.active, now).Some? {
      PickIsEligible(db, now);
      var id := Pick(db.deliveries, db.active, now).value;
      var row := ClaimedRow(db.deliveries[id], db.nextToken, now, now + lease);
      BudgetUpdate(db.config.maxRetries, db.deliveries, id, row);
    }
  }

  lemma SettleSpends(db: Db, token: nat, outcome: Outcome)
    requires AllRowsOk(db)
    ensures BudgetOf(SettleOf(db, token, outcome)) <= BudgetOf(db)
  {
    hide Budget;
    if CanSettle(db, token, outcome) && Holds(db.deliveries, db.workers[token].delivery, token) {
      var w := db.workers[token];
      assert RowOk(db.config, db.workers, w.delivery, db.deliveries[w.delivery]);
      BudgetUpdate(db.config.maxRetries, db.deliveries, w.delivery,
                   Settled(db.config, db.deliveries[w.delivery], w, outcome));
    }
  }

  lemma {:induction false} QuietSpends(db: Db, ops: seq<Op>)
    requires Inv(db) && Quiet(ops)
    ensures BudgetOf(Run(db, ops)) <= BudgetOf(db)
    decreases |ops|
  {
    if ops == [] {
    } else {
      hide Inv, Budget, Apply, Spends;
      StepSpends(db, ops[0]);
      ApplyKeepsInv(db, ops[0]);
      QuietSpends(Apply(db, ops[0]), ops[1..]);
    }
  }

  lemma StepSpends(db: Db, op: Op)
    requires Inv(db) && Spends(op)
    ensures BudgetOf(Apply(db, op)) <= BudgetOf(db)
  {
    hide Budget;
    match op
    case Claim(now, lease) => ClaimSpends(db, now, lease);
    case Settle(token, outcome) => SettleSpends(db, token, outcome);
    case _ =>
  }

  /** What a claim and the settlement that still holds it use up together. */
  lemma ClaimAndSettleSpend(before: Db, id: nat, now: int, held: Db, outcome: Outcome)
    requires Inv(before) && Pick(before.deliveries, before.active, now) == Some(id)
    requires Inv(held) && held.config == before.config
    requires BudgetOf(held) <= BudgetOf(Apply(before, Claim(now, LEASE)))
    requires CanSettle(held, before.nextToken, outcome)
    requires SameWorker(Apply(before, Claim(now, LEASE)).workers, held.workers, before.nextToken)
    requires Holds(held.deliveries, id, before.nextToken)
    ensures BudgetOf(SettleOf(held, before.nextToken, outcome)) < BudgetOf(before)
  {
    hide Budget, WindowsDisjoint, RowsOk, Numbered, Weight, Settled, Inv, AllWorkersOk, Claims, Pick;
    RowsAreOk(before);
    RowsAreOk(held);
    ClaimedWorker(before, id, now);
    var d, token := before.deliveries[id], before.nextToken;
    var w, max := held.workers[token], before.config.maxRetries;
    assert RowOk(before.config, before.workers, id, d);
    assert RowOk(held.config, held.workers, id, held.deliveries[id]);
    BudgetUpdate(max, before.deliveries, id, ClaimedRow(d, token, now, now + LEASE));
    BudgetUpdate(max, held.deliveries, id, Settled(held.config, held.deliveries[id], w, outcome));
    TwoWeights(before.config, d, ClaimedRow(d, token, now, now + LEASE), held.deliveries[id], w, outcome);
  }

  /** The same claim in two states, but for how far its dispatcher has come. */
  ghost predicate SameWorker(before: map<nat, Worker>, after: map<nat, Worker>, token: nat) {
    token in before && token in after && after[token] == before[token].(phase := after[token].phase)
  }

  lemma RowsAreOk(db: Db)
    requires Inv(db)
    ensures AllRowsOk(db)
  {
  }

  /** Either the claim or the settlement lowers the weight of the delivery. */
  lemma TwoWeights(config: Config, d: Delivery, claimed: Delivery, held: Delivery, w: Worker, outcome: Outcome)
    requires d.status == Pending || d.status == InFlight
    requires d.cycleStart <= d.attempts
    requires claimed == d.(status := InFlight, attempts := d.attempts + 1, token := claimed.token,
                           lease := claimed.lease, claimedAt := claimed.claimedAt)
    requires held.status == InFlight && w.attempts == held.attempts == claimed.attempts
    requires w.cycleStart == held.cycleStart == claimed.cycleStart
    ensures var max := config.maxRetries;
            Weight(max, claimed) <= Weight(max, d)
            && Weight(max, Settled(config, held, w, outcome)) <= Weight(max, held)
            && Weight(max, claimed) + Weight(max, Settled(config, held, w, outcome))
               < Weight(max, d) + Weight(max, held)
  {
  }

  /**
    A dispatch that still holds its claim when it settles uses up retry budget, whatever other
    dispatchers, crashes and toggles do in between, as long as nothing is queued or replayed.
   */
  lemma DispatchUsesBudget(db: Db, id: nat, now: int, gap1: seq<Op>, gap2: seq<Op>, outcome: Outcome)
    requires Inv(db) && Pick(db.deliveries, db.active, now) == Some(id)
    requires Quiet(gap1) && Quiet(gap2) && NotBy(gap1, db.nextToken) && NotBy(gap2, db.nextToken)
    requires Holds(Run(db, BeforeSettle(db.nextToken, now, gap1, gap2, outcome)).deliveries, id, db.nextToken)
    ensures BudgetOf(Run(db, DispatchOps(db.nextToken, now, gap1, gap2, outcome))) < BudgetOf(db)
  {
    hide Budget, Inv, Apply, RecordOf, SettleOf, Holds, Quiet, NotBy;
    var token := db.nextToken;
    var claimed := Apply(db, Claim(now, LEASE));
    ClaimedWorker(db, id, now);
    ApplyKeepsInv(db, Claim(now, LEASE));
    ApplyKeepsConfig(db, Claim(now, LEASE));
    Reachable(claimed, gap1);
    QuietSpends(claimed, gap1);
    OthersLeaveWorker(claimed, gap1, token);
    var mid := Run(claimed, gap1);
    if outcome == Unavailable {
      ComposeEarly(db, now, gap1, gap2, token);
      ClaimAndSettleSpend(db, id, now, mid, outcome);
      return;
    }
    RecordedWorker(mid, token, outcome);
    RecordKeepsInv(mid, token, outcome);
    var recorded := RecordOf(mid, token, outcome);
    Reachable(recorded, gap2);
    QuietSpends(recorded, gap2);
    OthersLeaveWorker(recorded, gap2, token);
    ComposeHeld(db, now, gap1, gap2, token, outcome);
    ComposeFull(db, now, gap1, gap2, token, outcome);
    ClaimAndSettleSpend(db, id, now, Run(recorded, gap2), outcome);
  }

  lemma ClaimedWorker(db: Db, id: nat, now: int)
    requires Pick(db.deliveries, db.active, now) == Some(id)
    ensures id in db.deliveries
    ensures var claimed := Apply(db, Claim(now, LEASE));
            claimed == ClaimOf(db, id, now, now + LEASE) && Due(db.deliveries[id], now)
            && db.nextToken in claimed.workers && claimed.workers[db.nextToken].phase == Claimed
            && db.nextToken < claimed.nextToken
  {
    PickIsEligible(db, now);
  }

  lemma RecordedWorker(db: Db, token: nat, outcome: Outcome)
    requires token in db.workers && db.workers[token].phase == Claimed
    ensures var after := RecordOf(db, token, outcome);
            token in after.workers && after.workers[token] == db.workers[token].(phase := Recorded)
            && after.nextToken == db.nextToken && after.deliveries == db.deliveries && after.config == db.config
  {
  }

  // ---- Store and dispatcher ----

  const LEASE := 30

  /** What ClaimDelivery hands to its caller. */
  datatype Snapshot = Snapshot(id: nat, attempts: nat, cycleStart: nat, token: nat)

  /** Operations that are not steps of the worker holding `token`. */
  ghost predicate NotBy(ops: seq<Op>, token: nat) {
    forall op <- ops :: (op.Record? ==> op.token != token) && (op.Settle? ==> op.token != token)
  }

  lemma StepLeavesWorker(db: Db, op: Op, token: nat)
    requires token in db.workers && token < db.nextToken && NotBy([op], token)
    ensures token in Apply(db, op).workers && Apply(db, op).workers[token] == db.workers[token]
    ensures token < Apply(db, op).nextToken
  {
    assert op in [op];
  }

  lemma {:induction false} OthersLeaveWorker(db: Db, ops: seq<Op>, token: nat)
    requires token in db.workers && token < db.nextToken && NotBy(ops, token)
    ensures token in Run(db, ops).workers && Run(db, ops).workers[token] == db.workers[token]
    ensures token < Run(db, ops).nextToken
    decreases |ops|
  {
    if ops == [] {
    } else {
      assert NotBy(ops[1..], token) && NotBy([ops[0]], token);
      StepLeavesWorker(db, ops[0], token);
      OthersLeaveWorker(Apply(db, ops[0]), ops[1..], token);
    }
  }

  /** The store calls of one dispatch, with what other actors do between them. */
  ghost function DispatchOps(token: nat, now: int, gap1: seq<Op>, gap2: seq<Op>, outcome: Outcome): seq<Op> {
    if outcome == Unavailable
    then [Claim(now, LEASE)] + gap1 + [Settle(token, outcome)]
    else [Claim(now, LEASE)] + gap1 + [Record(token, outcome)] + gap2 + [Settle(token, outcome)]
  }

  /** The part of it before the settlement. */
  ghost function BeforeSettle(token: nat, now: int, gap1: seq<Op>, gap2: seq<Op>, outcome: Outcome): seq<Op> {
    if outcome == Unavailable then [Claim(now, LEASE)] + gap1
    else [Claim(now, LEASE)] + gap1 + [Record(token, outcome)] + gap2
  }

  /** What the other actors among `ops` do, without the steps of the worker holding `token`. */
  function Except(ops: seq<Op>, token: nat): (others: seq<Op>)
    ensures NotBy(others, token)
    ensures Quiet(ops) ==> Quiet(others)
    ensures NotBy(ops, token) ==> others == ops
  {
    if ops == [] then []
    else
      var op, rest := ops[0], Except(ops[1..], token);
      assert forall o <- ops[1..] :: o in ops;
      if (op.Record? && op.token == token) || (op.Settle? && op.token == token) then rest else [op] + rest
  }

  /** One round of a drain: clock and outcome of the dispatch, and what others do before and inside it. */
  datatype Round = Round(before: seq<Op>, now: int, gap1: seq<Op>, outcome: Outcome, gap2: seq<Op>)

  ghost predicate QuietRound(r: Round) {
    Quiet(r.before) && Quiet(r.gap1) && Quiet(r.gap2)
  }

  class Store {
    const config: Config
    var deliveries: map<nat, Delivery>
    var active: set<nat>
    var attemptRows: map<(nat, nat), Outcome>
    var nextToken: nat
    var workers: map<nat, Worker> // the local state of every dispatcher run, past and present

    ghost function Tables(): Db
      reads this
    {
      Db(config, deliveries, active, attemptRows, workers, nextToken)
    }

    constructor (config: Config)
      ensures Tables() == Empty(config)
    {
      this.config := config;
      deliveries, active, attemptRows, nextToken, workers := map[], {}, map[], 0, map[];
    }

    /** The first row in that order. */
    static method ScanForFirst(rows: map<nat, Delivery>, ids: set<nat>) returns (first: nat)
      requires ids <= rows.Keys && ids != {}
      ensures IsFirst(rows, ids, first)
    {
      first :| first in ids;
      var todo := ids - {first};
      ghost var seen := {first};
      while todo != {}
        invariant seen + todo == ids && seen !! todo && IsFirst(rows, seen, first)
        decreases |todo|
      {
        var id :| id in todo;
        FirstOfMore(rows, seen, first, id);
        if Before(rows, id, first) {
          first := id;
        }
        seen := seen + {id};
        todo := todo - {id};
      }
      assert seen == ids;
    }

    /** Finds the first eligible delivery in claim order and takes it. */
    method ClaimDelivery(now: int, lease: int) returns (claim: Option<Snapshot>)
      modifies this
      ensures Tables() == Apply(old(Tables()), Claim(now, lease))
      ensures claim.None? <==> lease <= 0 || EligibleIds(old(deliveries), old(active), now) == {}
      ensures claim.Some? ==>
                var c := claim.value;
                && IsFirst(old(deliveries), EligibleIds(old(deliveries), old(active), now), c.id)
                && c == Snapshot(c.id, old(deliveries)[c.id].attempts + 1, old(deliveries)[c.id].cycleStart,
                                 old(nextToken))
                && Tables() == ClaimOf(old(Tables()), c.id, now, now + lease)
      // in the columns of the table
      ensures claim.None? <==> lease <= 0 || forall id: nat :: !Claimable(old(deliveries), old(active), id, now)
      ensures claim.None? ==> Tables() == old(Tables())
      ensures claim.Some? ==> claim.value.id in old(deliveries)
                              && ClaimedBy(old(Tables()), Tables(), claim.value.id, now, lease)
    {
      hide Claimable;
      ClaimableIffEligible(deliveries, active, now);
      if lease <= 0 {
        return None;
      }
      var ids := EligibleIds(deliveries, active, now);
      if ids == {} {
        return None;
      }
      var first := ScanForFirst(deliveries, ids);
      PickIsFirst(deliveries, active, now, first);
      FirstIsFirstClaimable(deliveries, active, first, now);
      var d, token := deliveries[first], nextToken;
      workers := workers[token := Worker(first, d.attempts + 1, d.cycleStart, now, now + lease, Claimed)];
      deliveries := deliveries[first := ClaimedRow(d, token, now, now + lease)];
      nextToken := nextToken + 1;
      return Some(Snapshot(first, d.attempts + 1, d.cycleStart, token));
    }

    method CompleteDelivery(id: nat, token: nat, delivered: bool, retryAt: int) returns (ok: bool)
      modifies this`deliveries
      ensures ok <==> id in old(deliveries) && old(deliveries)[id].status == InFlight
                      && old(deliveries)[id].token == Some(token)
      ensures ok == Holds(old(deliveries), id, token)
      ensures deliveries ==
              if !ok then old(deliveries)
              else old(deliveries)[id := old(deliveries)[id].(status := if delivered then Delivered else Pending,
                                                              nextAttempt := retryAt, token := None, lease := None)]
    {
      var status := if delivered then Delivered else Pending;
      if id !in deliveries || deliveries[id].status != InFlight || deliveries[id].token != Some(token) {
        return false;
      }
      var released := deliveries[id].(token := None, lease := None);
      deliveries := deliveries[id := released.(status := status, nextAttempt := retryAt)];
      return true;
    }

    method FailDelivery(id: nat, token: nat) returns (ok: bool)
      modifies this`deliveries
      ensures ok <==> id in old(deliveries) && old(deliveries)[id].status == InFlight
                      && old(deliveries)[id].token == Some(token)
      ensures ok == Holds(old(deliveries), id, token)
      ensures deliveries ==
              if !ok then old(deliveries)
              else old(deliveries)[id := old(deliveries)[id].(status := DeadLetter, token := None, lease := None)]
    {
      if id !in deliveries || deliveries[id].status != InFlight || deliveries[id].token != Some(token) {
        return false;
      }
      deliveries := deliveries[id := deliveries[id].(status := DeadLetter, token := None, lease := None)];
      return true;
    }

    method RecordAttempt(id: nat, number: nat, outcome: Outcome) returns (ok: bool)
      modifies this`attemptRows
      ensures ok == ((id, number) !in old(attemptRows))
      ensures attemptRows == if ok then old(attemptRows)[(id, number) := outcome] else old(attemptRows)
    {
      if (id, number) in attemptRows {
        return false;
      }
      attemptRows := attemptRows[(id, number) := outcome];
      return true;
    }

    method ReplayDelivery(id: nat, now: int) returns (ok: bool)
      modifies this`deliveries
      ensures ok == CanReplay(old(Tables()), id)
      ensures Tables() == ReplayOf(old(Tables()), id, now)
      ensures ok <==> id in old(deliveries) && old(deliveries)[id].status == DeadLetter
                      && old(deliveries)[id].endpoint in active
      ensures deliveries ==
              if !ok then old(deliveries)
              else old(deliveries)[id := old(deliveries)[id].(status := Pending, nextAttempt := now,
                                                              cycleStart := old(deliveries)[id].attempts)]
    {
      if id !in deliveries || deliveries[id].status != DeadLetter || deliveries[id].endpoint !in active {
        return false;
      }
      var d := deliveries[id];
      deliveries := deliveries[id := d.(status := Pending, nextAttempt := now, cycleStart := d.attempts)];
      return true;
    }

    /** Whether the local state of this dispatch is what the history says it is. */
    ghost predicate Knows(c: Snapshot, phase: Phase)
      reads this
    {
      && c.token in workers
      && workers[c.token].delivery == c.id && workers[c.token].attempts == c.attempts
      && workers[c.token].cycleStart == c.cycleStart && workers[c.token].phase == phase
    }

    method RecordClaim(c: Snapshot, outcome: Outcome)
      requires Knows(c, Claimed)
      modifies this`attemptRows, this`workers
      ensures Tables() == RecordOf(old(Tables()), c.token, outcome)
      ensures Knows(c, Recorded)
      // what is written is the outcome, unless the retries are used up
      ensures (c.id, c.attempts) !in old(attemptRows) ==>
                var n: int := if c.attempts - c.cycleStart < 1 then 1 else c.attempts - c.cycleStart;
                attemptRows == old(attemptRows)[(c.id, c.attempts) :=
                  if outcome == Retry && n >= config.maxRetries then TerminalFailure else outcome]
      ensures (c.id, c.attempts) in old(attemptRows) ==> attemptRows == old(attemptRows)
    {
      var effective: int := c.attempts - c.cycleStart;
      if effective < 1 {
        effective := 1;
      }
      var final := outcome;
      if outcome == Retry && effective >= config.maxRetries {
        final := TerminalFailure;
      }
      var _ := RecordAttempt(c.id, c.attempts, final);
      workers := workers[c.token := workers[c.token].(phase := Recorded)];
    }

    method SettleClaim(c: Snapshot, now: int, outcome: Outcome) returns (ok: bool)
      requires outcome != Unavailable && Knows(c, Recorded) && workers[c.token].claimAt == now
      modifies this`deliveries, this`workers
      ensures ok == Holds(old(deliveries), c.id, c.token)
      ensures Tables() == SettleOf(old(Tables()), c.token, outcome)
      // a retry is due the backoff of the attempt after the claim, the last one for all further attempts
      ensures ok ==>
                var n: int := if c.attempts - c.cycleStart < 1 then 1 else c.attempts - c.cycleStart;
                var last := |config.backoffs|;
                c.id in old(deliveries) &&
                var released := old(deliveries)[c.id].(token := None, lease := None);
                deliveries == old(deliveries)[c.id :=
                  if outcome == Success then released.(status := Delivered, nextAttempt := ZERO_TIME)
                  else if outcome == TerminalFailure || n >= config.maxRetries then released.(status := DeadLetter)
                  else released.(status := Pending,
                                 nextAttempt := now + config.backoffs[(if n < last then n else last) - 1])]
      ensures !ok ==> deliveries == old(deliveries)
    {
      var effective: int := c.attempts - c.cycleStart;
      if effective < 1 {
        effective := 1;
      }
      if outcome == Success {
        ok := CompleteDelivery(c.id, c.token, true, ZERO_TIME);
      } else if outcome == TerminalFailure || effective >= config.maxRetries {
        ok := FailDelivery(c.id, c.token);
      } else {
        var backoffIdx := effective - 1;
        if backoffIdx < 0 {
          backoffIdx := 0;
        }
        if backoffIdx >= |config.backoffs| {
          backoffIdx := |config.backoffs| - 1;
        }
        ok := CompleteDelivery(c.id, c.token, false, now + config.backoffs[backoffIdx]);
      }
      workers := workers[c.token := workers[c.token].(phase := Done)];
    }

    /**
      DispatchOne: claim, load the target, send, record the attempt, settle. `outcome` is what the
      loading and the send came to; `gap1` and `gap2` are the other actors' transactions between
      claim and record, and between record and settlement. `ok` is false when an error is returned.
     */
    method DispatchOne(now: int, outcome: Outcome, gap1: seq<Op>, gap2: seq<Op>) returns (processed: bool, ok: bool)
      requires NotBy(gap1, nextToken) && NotBy(gap2, nextToken)
      modifies this
      ensures processed == (EligibleIds(old(deliveries), old(active), now) != {})
      ensures processed <==> exists id: nat :: Claimable(old(deliveries), old(active), id, now)
      ensures Tables() ==
              if processed then Run(old(Tables()), DispatchOps(old(nextToken), now, gap1, gap2, outcome))
              else old(Tables())
      ensures !processed ==> ok
      ensures processed && outcome == Unavailable ==> !ok
      // without an error, the claim was still held when it was settled
      ensures processed && ok ==>
                var id := Pick(old(deliveries), old(active), now);
                id.Some? && Holds(Run(old(Tables()), BeforeSettle(old(nextToken), now, gap1, gap2, outcome)).deliveries,
                                  id.value, old(nextToken))
    {
      ghost var before := Tables();
      var claim := ClaimDelivery(now, LEASE);
      if claim.None? {
        return false, true;
      }
      var c := claim.value;
      OthersLeaveWorker(Tables(), gap1, c.token);
      Interfere(gap1);
      ghost var afterGap1 := Tables();
      if outcome == Unavailable {
        var _ := FailDelivery(c.id, c.token);
        workers := workers[c.token := workers[c.token].(phase := Done)];
        assert Tables() == SettleOf(afterGap1, c.token, outcome);
        ComposeEarly(before, now, gap1, gap2, c.token);
        return true, false;
      }
      RecordClaim(c, outcome);
      OthersLeaveWorker(Tables(), gap2, c.token);
      Interfere(gap2);
      ComposeHeld(before, now, gap1, gap2, c.token, outcome);
      ok := SettleClaim(c, now, outcome);
      ComposeFull(before, now, gap1, gap2, c.token, outcome);
      return true, ok;
    }

    /**
      drain: dispatches until nothing is due or an error is returned. `script` says what happens in each
      round: any clock readings, any outcomes, and any transactions of other dispatchers, toggles and
      crashes before and between the store calls; only queueing and replaying are excluded. It ends
      because a dispatch that returns no error has used up retry budget, and nothing else adds any.
     */
    method Drain(script: nat -> Round) returns (ok: bool, rounds: nat)
      requires Inv(Tables())
      requires forall i: nat :: QuietRound(script(i))
      modifies this
      ensures Inv(Tables())
      ensures ok ==> forall id: nat :: !Claimable(deliveries, active, id, script(rounds).now)
      ensures rounds <= Budget(config.maxRetries, old(deliveries))
      ensures Budget(config.maxRetries, deliveries) + rounds <= Budget(config.maxRetries, old(deliveries))
    {
      hide Inv, Budget, Quiet, Apply, DispatchOps, BeforeSettle;
      rounds := 0;
      while true
        invariant Inv(Tables())
        invariant Budget(config.maxRetries, deliveries) + rounds <= Budget(config.maxRetries, old(deliveries))
        decreases Budget(config.maxRetries, deliveries)
      {
        var r := script(rounds);
        assert QuietRound(script(rounds));
        Reachable(Tables(), r.before);
        QuietSpends(Tables(), r.before);
        Interfere(r.before);
        ghost var before, token := Tables(), nextToken;
        var gap1, gap2 := Except(r.gap1, nextToken), Except(r.gap2, nextToken);
        var processed;
        processed, ok := DispatchOne(r.now, r.outcome, gap1, gap2);
        if !processed {
          return;
        }
        AnyDispatch(before, token, r.now, gap1, gap2, r.outcome);
        if !ok {
          return;
        }
        DispatchUsesBudget(before, Pick(before.deliveries, before.active, r.now).value, r.now, gap1, gap2, r.outcome);
        rounds := rounds + 1;
      }
    }

    /** Other actors' transactions; a dispatcher's own steps go by what it was told at its claim. */
    method Interfere(ops: seq<Op>)
      modifies this
      ensures Tables() == Run(old(Tables()), ops)
    {
      for i := 0 to |ops|
        invariant Tables() == Run(old(Tables()), ops[..i])
      {
        Runs.Prefix(Apply, old(Tables()), ops, i);
        match ops[i] {
          case Queue(id, endpoint, now) =>
            if id !in deliveries {
              deliveries := deliveries[id := Delivery(endpoint, Pending, 0, 0, now, None, None, now)];
            }
          case SetActive(endpoint, on) =>
            active := if on then active + {endpoint} else active - {endpoint};
          case Claim(now, lease) =>
            var _ := ClaimDelivery(now, lease);
          case Record(token, outcome) =>
            if token in workers && workers[token].phase == Claimed {
              var w := workers[token];
              var _ := RecordAttempt(w.delivery, w.attempts, RecordedOutcome(config, w, outcome));
              workers := workers[token := w.(phase := Recorded)];
            }
          case Settle(token, outcome) =>
            if token in workers && workers[token].phase == (if outcome == Unavailable then Claimed else Recorded) {
              var w := workers[token];
              workers := workers[token := w.(phase := Done)];
              if w.delivery in deliveries && deliveries[w.delivery].status == InFlight
                 && deliveries[w.delivery].token == Some(token) {
                deliveries := deliveries[w.delivery := Settled(config, deliveries[w.delivery], w, outcome)];
              }
            }
          case Replay(id, now) =>
            var _ := ReplayDelivery(id, now);
        }
      }
      assert ops[..|ops|] == ops;
    }
  }

  lemma ComposeEarly(db: Db, now: int, gap1: seq<Op>, gap2: seq<Op>, token: nat)
    ensures Run(db, BeforeSettle(token, now, gap1, gap2, Unavailable)) == Run(Apply(db, Claim(now, LEASE)), gap1)
    ensures Run(db, DispatchOps(token, now, gap1, gap2, Unavailable)) ==
            SettleOf(Run(Apply(db, Claim(now, LEASE)), gap1), token, Unavailable)
  {
    var head := [Claim(now, LEASE)] + gap1;
    Runs.Snoc(Apply, db, head, Settle(token, Unavailable));
    assert head[1..] == gap1;
  }

  lemma ComposeHeld(db: Db, now: int, gap1: seq<Op>, gap2: seq<Op>, token: nat, outcome: Outcome)
    requires outcome != Unavailable
    ensures Run(db, BeforeSettle(token, now, gap1, gap2, outcome)) ==
            Run(RecordOf(Run(Apply(db, Claim(now, LEASE)), gap1), token, outcome), gap2)
  {
    var head := [Claim(now, LEASE)] + gap1;
    Runs.Concat(Apply, db, head + [Record(token, outcome)], gap2);
    Runs.Snoc(Apply, db, head, Record(token, outcome));
    assert head[1..] == gap1;
  }

  /** Any dispatch, also one that fails, keeps the invariant and adds no budget. */
  lemma AnyDispatch(db: Db, token: nat, now: int, gap1: seq<Op>, gap2: seq<Op>, outcome: Outcome)
    requires Inv(db) && Quiet(gap1) && Quiet(gap2)
    ensures var after := Run(db, DispatchOps(token, now, gap1, gap2, outcome));
            Inv(after) && after.config == db.config && BudgetOf(after) <= BudgetOf(db)
  {
    hide Inv, Apply, Budget;
    var ops := DispatchOps(token, now, gap1, gap2, outcome);
    Reachable(db, ops);
    assert Quiet(ops);
    QuietSpends(db, ops);
  }

  lemma ComposeFull(db: Db, now: int, gap1: seq<Op>, gap2: seq<Op>, token: nat, outcome: Outcome)
    requires outcome != Unavailable
    ensures Run(db, DispatchOps(token, now, gap1, gap2, outcome)) ==
            SettleOf(Run(RecordOf(Run(Apply(db, Claim(now, LEASE)), gap1), token, outcome), gap2), token, outcome)
  {
    var head := [Claim(now, LEASE)] + gap1;
    Runs.Snoc(Apply, db, head + [Record(token, outcome)] + gap2, Settle(token, outcome));
    Runs.Concat(Apply, db, head + [Record(token, outcome)], gap2);
    Runs.Snoc(Apply, db, head, Record(token, outcome));
    assert head[1..] == gap1;
  }
}
