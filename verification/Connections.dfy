/**
  The bank connection, its interactive sign-in attempts, the stored session and the poll runs.

  Every operation is one atomic store transaction. `Apply` says what each transaction does to the
  tables as a whole; the class `ConnectionStore` executes the statements one by one, with rollback,
  and is proved to do exactly that. Whatever a caller read before its transaction is an argument of
  the operation, so a sequence of operations with arbitrary arguments is an arbitrary interleaving
  of actors, stale reads included.
 */
module Connections {
  import opened Prelude
  import Runs

  datatype State = AuthRequired | AuthStarting | Monitoring | Paused

  datatype Connection = Connection(state: State, generation: int)

  datatype AttemptStatus =
    | Starting | InProgress | Exporting | Verifying
    | Verified | Cancelled | Expired | Failed

  datatype Attempt = Attempt(generation: int, status: AttemptStatus, expiresAt: int) {
    predicate Active() {
      IsLive(status)
    }

    predicate Stale(now: int) {
      Active() && expiresAt <= now
    }
  }

  datatype Session = Session(generation: int, envelope: string, keyId: string)

  datatype PollStatus = PollRunning | PollSucceeded | PollFailed | PollAuthRequired | PollProtocolChanged | PollPartial

  datatype Poll = Poll(generation: int, status: PollStatus)

  /** The readings of the clock in StartAuthAttempt. */
  datatype Clocks = Clocks(expire: int, check: int, start: int)

  datatype Action = Pause | Resume | UnsupportedAction

  /** The tables. `nextId` is the supply of fresh row identifiers. */
  datatype Db = Db(
    conn: Option<Connection>,
    attempts: map<nat, Attempt>,
    session: Option<Session>,
    polls: map<nat, Poll>,
    nextId: nat)

  const EMPTY := Db(None, map[], None, map[], 0)

  datatype Op =
    | Configure(masked: string)
    | Transition(action: Action)
    | ExpireStale(now: int)
    | StartAttempt(readGeneration: int, expiresAt: int)
    | MarkInProgress(attempt: nat)
    | FinishAttempt(attempt: nat, outcome: AttemptStatus)
    | CompleteSession(attempt: nat, envelope: string)
    | InsertPoll(readGeneration: int)
    | FinishPoll(poll: nat, generation: int, status: PollStatus)
    | RefreshSession(generation: int, envelope: string, keyId: string)

  // ---- What each transaction does to the tables as a whole ----

  predicate At(db: Db, generation: int, state: State) {
    db.conn == Some(Connection(state, generation))
  }

  /** The connection is at that generation, which is what guarded updates ask for. */
  predicate AtGeneration(db: Db, generation: int) {
    db.conn.Some? && db.conn.value.generation == generation
  }

  predicate AnyActive(attempts: map<nat, Attempt>) {
    exists a <- attempts :: attempts[a].Active()
  }

  function Bumped(conn: Option<Connection>, next: State): Option<Connection> {
    match conn
    case None => None
    case Some(c) => Some(Connection(next, c.generation + 1))
  }

  function WithStatus(attempts: map<nat, Attempt>, id: nat, status: AttemptStatus): map<nat, Attempt>
    requires id in attempts
  {
    attempts[id := attempts[id].(status := status)]
  }

  function ExpireAll(attempts: map<nat, Attempt>, now: int): map<nat, Attempt> {
    map a | a in attempts :: if attempts[a].Stale(now) then attempts[a].(status := Expired) else attempts[a]
  }

  function StaleAttempts(attempts: map<nat, Attempt>, now: int): set<nat> {
    set a | a in attempts && attempts[a].Stale(now)
  }

  predicate StaleAtGeneration(attempts: map<nat, Attempt>, now: int, generation: int) {
    exists a <- attempts :: attempts[a].Stale(now) && attempts[a].generation == generation
  }

  predicate Ending(status: AttemptStatus) {
    status == Cancelled || status == Expired || status == Failed
  }

  /** A sign-in under way: the four statuses of the partial unique index. */
  predicate IsLive(status: AttemptStatus) {
    status == Starting || status == InProgress || status == Exporting || status == Verifying
  }

  /** Whether the operation's guards hold, that is, whether its transaction commits. */
  predicate Commits(db: Db, op: Op) {
    match op
    case Configure(masked) => masked != "" && db.conn.None?
    case Transition(action) => action != UnsupportedAction && db.conn.Some?
    case ExpireStale(_) => true
    case StartAttempt(g, _) => AtGeneration(db, g) && !AnyActive(db.attempts)
    case MarkInProgress(a) =>
      && a in db.attempts && db.attempts[a].status == Starting
      && At(db, db.attempts[a].generation, AuthStarting)
    case FinishAttempt(a, outcome) => Ending(outcome) && a in db.attempts && db.attempts[a].Active()
    case CompleteSession(a, _) =>
      && a in db.attempts && (db.attempts[a].status == Starting || db.attempts[a].status == InProgress)
      && At(db, db.attempts[a].generation, AuthStarting)
    case InsertPoll(_) => db.conn.Some?
    case FinishPoll(p, g, status) =>
      && status != PollRunning
      && p in db.polls && db.polls[p].status == PollRunning
      && (status == PollSucceeded ==> At(db, g, Monitoring))
      && (status == PollAuthRequired ==> AtGeneration(db, g))
    case RefreshSession(g, _, _) =>
      db.session.Some? && db.session.value.generation == g && At(db, g, Monitoring)
  }

  function Apply(db: Db, op: Op): Db {
    if !Commits(db, op) then db else
      match op
      case Configure(_) => db.(conn := Some(Connection(AuthRequired, 0)))
      case Transition(action) => db.(conn := Bumped(db.conn, if action == Pause then Paused else AuthRequired))
      case ExpireStale(now) =>
        var conn :=
          if db.conn.Some? && db.conn.value.state == AuthStarting
             && StaleAtGeneration(db.attempts, now, db.conn.value.generation)
          then Bumped(db.conn, AuthRequired) else db.conn;
        db.(attempts := ExpireAll(db.attempts, now), conn := conn)
      case StartAttempt(g, expiresAt) =>
        db.(conn := Bumped(db.conn, AuthStarting),
            attempts := db.attempts[db.nextId := Attempt(g + 1, Starting, expiresAt)],
            nextId := db.nextId + 1)
      case MarkInProgress(a) => db.(attempts := WithStatus(db.attempts, a, InProgress))
      case FinishAttempt(a, outcome) =>
        db.(attempts := WithStatus(db.attempts, a, outcome),
            conn := if AtGeneration(db, db.attempts[a].generation) then Bumped(db.conn, AuthRequired) else db.conn)
      case CompleteSession(a, envelope) =>
        var keyId := if db.session.Some? then db.session.value.keyId else "k1";
        db.(attempts := WithStatus(db.attempts, a, Verified),
            session := Some(Session(db.attempts[a].generation, envelope, keyId)),
            conn := Some(Connection(Monitoring, db.attempts[a].generation)))
      case InsertPoll(g) =>
        db.(polls := db.polls[db.nextId := Poll(g, PollRunning)], nextId := db.nextId + 1)
      case FinishPoll(p, g, status) =>
        db.(polls := db.polls[p := db.polls[p].(status := status)],
            conn := if status == PollAuthRequired then Bumped(db.conn, AuthRequired) else db.conn)
      case RefreshSession(g, envelope, keyId) => db.(session := Some(Session(g, envelope, keyId)))
  }

  ghost function Run(db: Db, ops: seq<Op>): Db {
    Runs.Fold(Apply, db, ops)
  }

  // ---- The invariant of every reachable state ----

  ghost predicate Inv(db: Db) {
    && (forall a <- db.attempts :: a < db.nextId)
    && (forall a <- db.attempts, b <- db.attempts ::
          db.attempts[a].Active() && db.attempts[b].Active() ==> a == b)
    && (db.conn.None? ==> db.attempts == map[] && db.session.None?)
    && (db.conn.Some? ==>
          var c := db.conn.value;
          && (forall a <- db.attempts :: db.attempts[a].generation <= c.generation)
          && (forall a <- db.attempts :: db.attempts[a].Active() ==>
                (db.attempts[a].generation == c.generation <==> c.state == AuthStarting))
          && (c.state == AuthStarting ==> AnyActive(db.attempts))
          && (c.state == Monitoring ==> db.session.Some? && db.session.value.generation == c.generation)
          && (db.session.Some? ==> db.session.value.generation <= c.generation))
  }

  lemma MarkKeepsInv(db: Db, a: nat)
    requires Inv(db)
    ensures Inv(Apply(db, MarkInProgress(a)))
  {
    if Commits(db, MarkInProgress(a)) {
      assert Apply(db, MarkInProgress(a)).attempts[a].Active();
    }
  }

  /** Ending the active attempt ends the only one there is, so it takes its sign-in with it. */
  lemma EndKeepsInv(db: Db, op: Op)
    requires Inv(db) && (op.FinishAttempt? || op.CompleteSession?)
    ensures Inv(Apply(db, op))
  {
    if Commits(db, op) {
      assert db.attempts[op.attempt].Active();
    }
  }

  lemma OtherOpsKeepInv(db: Db, op: Op)
    requires Inv(db)
    requires op.Configure? || op.Transition? || op.InsertPoll? || op.FinishPoll? || op.RefreshSession?
    ensures Inv(Apply(db, op))
  {
  }

  lemma StartKeepsInv(db: Db, g: int, expiresAt: int)
    requires Inv(db)
    ensures Inv(Apply(db, StartAttempt(g, expiresAt)))
  {
    if Commits(db, StartAttempt(g, expiresAt)) {
      assert Apply(db, StartAttempt(g, expiresAt)).attempts[db.nextId].Active();
    }
  }

  lemma ApplyKeepsInv(db: Db, op: Op)
    requires Inv(db)
    ensures Inv(Apply(db, op))
  {
    hide Inv, Apply;
    match op
    case StartAttempt(g, expiresAt) => StartKeepsInv(db, g, expiresAt);
    case MarkInProgress(a) => MarkKeepsInv(db, a);
    case ExpireStale(now) => ExpireKeepsInv(db, now);
    case FinishAttempt(_, _) => EndKeepsInv(db, op);
    case CompleteSession(_, _) => EndKeepsInv(db, op);
    case _ => OtherOpsKeepInv(db, op);
  }

  lemma ExpireKeepsInv(db: Db, now: int)
    requires Inv(db)
    ensures Inv(Apply(db, ExpireStale(now)))
  {
    var db' := Apply(db, ExpireStale(now));
    assert forall a <- db'.attempts :: db'.attempts[a].Active() ==> db'.attempts[a] == db.attempts[a];
    if db.conn.Some? && db.conn.value.state == AuthStarting {
      var a :| a in db.attempts && db.attempts[a].Active();
      if !db.attempts[a].Stale(now) {
        assert db'.attempts[a].Active();
      }
    }
  }

  /** The invariant holds after every sequence of transactions from the empty store. */
  lemma Reachable(ops: seq<Op>)
    ensures Inv(Run(EMPTY, ops))
  {
    forall db: Db, op: Op | Inv(db) ensures Inv(Apply(db, op)) {
      ApplyKeepsInv(db, op);
    }
    Runs.Invariant(Apply, Inv, EMPTY, ops);
  }

  /** What the invariant means to a reader of the tables, in every run from the empty store. */
  lemma AttemptsAndSessionsAgreeWithConnection(ops: seq<Op>)
    ensures var db := Run(EMPTY, ops);
            && (forall a <- db.attempts, b <- db.attempts ::
                  db.attempts[a].Active() && db.attempts[b].Active() ==> a == b)
            && (forall a <- db.attempts :: db.attempts[a].Active() ==>
                  (AtGeneration(db, db.attempts[a].generation) <==>
                   db.conn.Some? && db.conn.value.state == AuthStarting))
            && (forall g: int :: At(db, g, Monitoring) ==> db.session.Some? && db.session.value.generation == g)
  {
    Reachable(ops);
  }

  // ---- Generations ----

  /** One transaction either moves the generation up, or leaves the state, or completes a sign-in. */
  predicate Advances(before: Db, after: Db) {
    before.conn.Some? ==>
      && after.conn.Some?
      && before.conn.value.generation <= after.conn.value.generation
      && (after.conn.value.generation == before.conn.value.generation ==>
            || after.conn.value.state == before.conn.value.state
            || (before.conn.value.state == AuthStarting && after.conn.value.state == Monitoring))
  }

  lemma ApplyAdvances(db: Db, op: Op)
    ensures Advances(db, Apply(db, op))
  {
  }

  /** The same over any number of transactions: within one generation only AUTH_STARTING -> MONITORING. */
  lemma {:induction false} RunAdvances(db: Db, ops: seq<Op>)
    ensures Advances(db, Run(db, ops))
    decreases |ops|
  {
    if ops == [] {
    } else {
      ApplyAdvances(db, ops[0]);
      RunAdvances(Apply(db, ops[0]), ops[1..]);
    }
  }

  /** The same between any two moments of a run. */
  lemma AdvancesBetween(ops: seq<Op>, i: nat, k: nat)
    requires i <= k <= |ops|
    ensures Advances(Run(EMPTY, ops[..i]), Run(EMPTY, ops[..k]))
  {
    hide Apply, Advances;
    assert ops[..k] == ops[..i] + ops[i..k];
    Runs.Concat(Apply, EMPTY, ops[..i], ops[i..k]);
    RunAdvances(Run(EMPTY, ops[..i]), ops[i..k]);
  }

  /** The check the batch ingest makes inside its own transaction. */
  predicate FenceAccepts(db: Db, expectedGeneration: int) {
    At(db, expectedGeneration, Monitoring)
  }

  /**
    A caller reads MONITORING at generation g after `i` transactions; its ingest is accepted for g
    after all of them. Then at every moment in between the connection was MONITORING at g and the
    stored session was the one of g.
   */
  lemma FenceHeldThroughout(ops: seq<Op>, i: nat, k: nat, g: int)
    requires i <= k <= |ops|
    requires At(Run(EMPTY, ops[..i]), g, Monitoring)
    requires FenceAccepts(Run(EMPTY, ops), g)
    ensures At(Run(EMPTY, ops[..k]), g, Monitoring)
    ensures Run(EMPTY, ops[..k]).session.Some? && Run(EMPTY, ops[..k]).session.value.generation == g
  {
    hide Apply, Run;
    AdvancesBetween(ops, i, k);
    AdvancesBetween(ops, k, |ops|);
    assert ops[..|ops|] == ops;
    AttemptsAndSessionsAgreeWithConnection(ops[..k]);
  }

  /** So the fence accepts exactly when no transaction since that read moved the connection at all. */
  lemma FenceAcceptsIffNeverLeft(ops: seq<Op>, i: nat, g: int)
    requires i <= |ops|
    requires At(Run(EMPTY, ops[..i]), g, Monitoring)
    ensures FenceAccepts(Run(EMPTY, ops), g) <==>
            forall k: nat | i <= k <= |ops| :: At(Run(EMPTY, ops[..k]), g, Monitoring)
  {
    assert ops[..|ops|] == ops;
    if FenceAccepts(Run(EMPTY, ops), g) {
      forall k: nat | i <= k <= |ops| ensures At(Run(EMPTY, ops[..k]), g, Monitoring) {
        FenceHeldThroughout(ops, i, k, g);
      }
    }
  }

  // ---- Attempts ----

  /** Finishing an attempt never takes a monitoring connection down, whichever attempt is named. */
  lemma FinishNeverStopsMonitoring(ops: seq<Op>, g: int, attempt: nat, outcome: AttemptStatus)
    requires At(Run(EMPTY, ops), g, Monitoring)
    ensures At(Apply(Run(EMPTY, ops), FinishAttempt(attempt, outcome)), g, Monitoring)
  {
    Reachable(ops);
  }

  /** Attempt rows stay, keep their generation, and once ended never become active again. */
  lemma ApplyKeepsEndedAttempts(db: Db, op: Op, attempt: nat)
    requires Inv(db) && attempt in db.attempts
    ensures var after := Apply(db, op).attempts;
            && attempt in after
            && after[attempt].generation == db.attempts[attempt].generation
            && (!db.attempts[attempt].Active() ==> after[attempt] == db.attempts[attempt])
  {
  }

  lemma {:induction false} EndedAttemptsStayEnded(db: Db, ops: seq<Op>, attempt: nat)
    requires Inv(db) && attempt in db.attempts
    ensures var after := Run(db, ops).attempts;
            && attempt in after
            && after[attempt].generation == db.attempts[attempt].generation
            && (!db.attempts[attempt].Active() ==> after[attempt] == db.attempts[attempt])
    decreases |ops|
  {
    if ops == [] {
    } else {
      ApplyKeepsInv(db, ops[0]);
      ApplyKeepsEndedAttempts(db, ops[0], attempt);
      EndedAttemptsStayEnded(Apply(db, ops[0]), ops[1..], attempt);
    }
  }

  /** The effect of ending a chosen set of attempts, whatever the order. */
  ghost function ExpireSome(db: Db, done: set<nat>): Db
    requires done <= db.attempts.Keys
  {
    var hit := db.conn.Some? && db.conn.value.state == AuthStarting
               && exists a <- done :: db.attempts[a].generation == db.conn.value.generation;
    db.(attempts := map a | a in db.attempts ::
          if a in done then db.attempts[a].(status := Expired) else db.attempts[a],
        conn := if hit then Bumped(db.conn, AuthRequired) else db.conn)
  }

  lemma ExpireNone(db: Db)
    ensures ExpireSome(db, {}) == db
  {
    assert ExpireSome(db, {}).attempts == db.attempts;
  }

  /** One attempt ended as expired; only a sign-in still starting at its generation is called off. */
  ghost function Ended(db: Db, a: nat): Db
    requires a in db.attempts
  {
    db.(attempts := WithStatus(db.attempts, a, Expired),
        conn := if At(db, db.attempts[a].generation, AuthStarting) then Bumped(db.conn, AuthRequired) else db.conn)
  }

  lemma ExpireOneMore(db: Db, done: set<nat>, a: nat)
    requires done <= db.attempts.Keys && a in db.attempts && a !in done
    ensures ExpireSome(db, done + {a}) == Ended(ExpireSome(db, done), a)
  {
    assert a in done + {a};
    assert forall b <- done :: b in done + {a};
  }

  lemma ExpireSomeIsExpireStale(db: Db, now: int)
    ensures ExpireSome(db, StaleAttempts(db.attempts, now)) == Apply(db, ExpireStale(now))
  {
    assert ExpireSome(db, StaleAttempts(db.attempts, now)).attempts == ExpireAll(db.attempts, now);
    assert StaleAttempts(db.attempts, now) <= db.attempts.Keys;
  }

  // ---- The stored session ----

  /** The sign-in of that attempt is the one the connection is waiting for. */
  predicate Awaited(db: Db, attempt: nat) {
    && attempt in db.attempts
    && (db.attempts[attempt].status == Starting || db.attempts[attempt].status == InProgress)
    && db.conn == Some(Connection(AuthStarting, db.attempts[attempt].generation))
  }

  /** Operation `k` of the run completes a sign-in. */
  ghost predicate CompletesAt(ops: seq<Op>, k: int) {
    0 <= k < |ops| && ops[k].CompleteSession? && Awaited(Run(EMPTY, ops[..k]), ops[k].attempt)
  }

  /** Operation `k` of the run renews the session of the generation that is being monitored. */
  ghost predicate RefreshesAt(ops: seq<Op>, k: int) {
    0 <= k < |ops| && ops[k].RefreshSession? &&
    var db := Run(EMPTY, ops[..k]);
    && db.session.Some? && db.session.value.generation == ops[k].generation
    && db.conn == Some(Connection(Monitoring, ops[k].generation))
  }

  ghost predicate StoresAt(ops: seq<Op>, k: int) {
    CompletesAt(ops, k) || RefreshesAt(ops, k)
  }

  lemma StepStores(db: Db, op: Op)
    ensures var db' := Apply(db, op);
            if op.CompleteSession? && Awaited(db, op.attempt) then
              && db'.session.Some? && db'.session.value.envelope == op.envelope
              && db'.session.value.generation == db.attempts[op.attempt].generation
              && db'.session.value.keyId == (if db.session.Some? then db.session.value.keyId else "k1")
              && db'.conn == Some(Connection(Monitoring, db.attempts[op.attempt].generation))
              && op.attempt in db'.attempts && db'.attempts[op.attempt].status == Verified
            else if op.RefreshSession? && db.session.Some? && db.session.value.generation == op.generation
                    && db.conn == Some(Connection(Monitoring, op.generation)) then
              db'.session == Some(Session(op.generation, op.envelope, op.keyId))
            else
              db'.session == db.session
              && (forall g: int :: db'.conn == Some(Connection(Monitoring, g)) ==> db'.conn == db.conn)
  {
  }

  /** A sign-in that completes leaves its own envelope stored, its attempt verified and the connection monitoring. */
  lemma WhatACompletionLeaves(ops: seq<Op>, attempt: nat, envelope: string)
    requires Awaited(Run(EMPTY, ops), attempt)
    ensures var g := Run(EMPTY, ops).attempts[attempt].generation;
            var db := Run(EMPTY, ops + [CompleteSession(attempt, envelope)]);
            && db.conn == Some(Connection(Monitoring, g))
            && attempt in db.attempts && db.attempts[attempt].status == Verified
            && db.session.Some? && db.session.value.generation == g && db.session.value.envelope == envelope
  {
    Runs.Snoc(Apply, EMPTY, ops, CompleteSession(attempt, envelope));
    StepStores(Run(EMPTY, ops), CompleteSession(attempt, envelope));
    hide Apply;
  }

  lemma RunStep(ops: seq<Op>, n: nat)
    requires n < |ops|
    ensures Run(EMPTY, ops[..n + 1]) == Apply(Run(EMPTY, ops[..n]), ops[n])
  {
    Runs.Prefix(Apply, EMPTY, ops, n);
  }

  /** The key id a session stored next by a sign-in would get. */
  function KeyOf(session: Option<Session>): string {
    if session.Some? then session.value.keyId else "k1"
  }

  lemma {:induction false} NothingStored(ops: seq<Op>, i: nat, n: nat)
    requires i <= n <= |ops| && forall j :: i <= j < n ==> !StoresAt(ops, j)
    ensures Run(EMPTY, ops[..n]).session == Run(EMPTY, ops[..i]).session
    decreases n
  {
    hide Apply;
    if i == n {
    } else {
      NothingStored(ops, i, n - 1);
      assert !StoresAt(ops, n - 1);
      RunStep(ops, n - 1);
      StepStores(Run(EMPTY, ops[..n - 1]), ops[n - 1]);
    }
  }

  lemma {:induction false} NothingRefreshed(ops: seq<Op>, i: nat, n: nat)
    requires i <= n <= |ops| && forall j :: i <= j < n ==> !RefreshesAt(ops, j)
    ensures KeyOf(Run(EMPTY, ops[..n]).session) == KeyOf(Run(EMPTY, ops[..i]).session)
    decreases n
  {
    hide Apply;
    if i == n {
    } else {
      NothingRefreshed(ops, i, n - 1);
      assert !RefreshesAt(ops, n - 1);
      RunStep(ops, n - 1);
      StepStores(Run(EMPTY, ops[..n - 1]), ops[n - 1]);
    }
  }

  /** In every run the session stored is that of the last sign-in completed or session renewed. */
  lemma SessionIsTheLastStored(ops: seq<Op>, k: nat)
    requires StoresAt(ops, k) && forall j :: k < j < |ops| ==> !StoresAt(ops, j)
    ensures var session := Run(EMPTY, ops).session;
            && session.Some? && session.value.envelope == ops[k].envelope
            && session.value.generation ==
               if ops[k].CompleteSession? then Run(EMPTY, ops[..k]).attempts[ops[k].attempt].generation
               else ops[k].generation
  {
    hide Apply;
    RunStep(ops, k);
    StepStores(Run(EMPTY, ops[..k]), ops[k]);
    NothingStored(ops, k + 1, |ops|);
    assert ops[..|ops|] == ops;
  }

  /** And there is none exactly when none has been. */
  lemma NoSessionIffNoneStored(ops: seq<Op>)
    ensures Run(EMPTY, ops).session.None? <==> forall j :: !StoresAt(ops, j)
  {
    hide Apply;
    assert ops[..|ops|] == ops;
    if forall j :: !StoresAt(ops, j) {
      NothingStored(ops, 0, |ops|);
    } else {
      var k: int :| StoresAt(ops, k);
      RunStep(ops, k);
      StepStores(Run(EMPTY, ops[..k]), ops[k]);
      SessionStays(ops, k + 1);
    }
  }

  lemma {:induction false} SessionStays(ops: seq<Op>, i: nat)
    requires i <= |ops| && Run(EMPTY, ops[..i]).session.Some?
    ensures Run(EMPTY, ops).session.Some?
    decreases |ops| - i
  {
    hide Apply;
    if i == |ops| {
      assert ops[..i] == ops;
    } else {
      RunStep(ops, i);
      StepStores(Run(EMPTY, ops[..i]), ops[i]);
      SessionStays(ops, i + 1);
    }
  }

  /**
    The key id stored is that of the last session renewed, whatever sign-ins came after it, and "k1" if
    none was: a sign-in stores a new envelope under the key id that is there.
   */
  lemma KeyIsTheLastRefreshed(ops: seq<Op>, k: nat)
    ensures RefreshesAt(ops, k) && (forall j :: k < j < |ops| ==> !RefreshesAt(ops, j)) ==>
              KeyOf(Run(EMPTY, ops).session) == ops[k].keyId
    ensures (forall j :: !RefreshesAt(ops, j)) ==> KeyOf(Run(EMPTY, ops).session) == "k1"
  {
    hide Apply;
    assert ops[..|ops|] == ops;
    if RefreshesAt(ops, k) && forall j :: k < j < |ops| ==> !RefreshesAt(ops, j) {
      RunStep(ops, k);
      StepStores(Run(EMPTY, ops[..k]), ops[k]);
      NothingRefreshed(ops, k + 1, |ops|);
    }
    if forall j :: !RefreshesAt(ops, j) {
      NothingRefreshed(ops, 0, |ops|);
    }
  }

  // ---- Pausing ----

  /** Only completing a sign-in starts monitoring. */
  lemma {:induction false} MonitoringComesFromASignIn(ops: seq<Op>, i: nat, g: int)
    requires i <= |ops| && Run(EMPTY, ops[..i]).conn != Some(Connection(Monitoring, g))
    requires Run(EMPTY, ops).conn == Some(Connection(Monitoring, g))
    ensures exists k :: i <= k < |ops| && CompletesAt(ops, k)
    decreases |ops| - i
  {
    hide Apply;
    assert ops[..|ops|] == ops;
    RunStep(ops, i);
    StepStores(Run(EMPTY, ops[..i]), ops[i]);
    RefreshKeepsConnection(Run(EMPTY, ops[..i]), ops[i]);
    if !CompletesAt(ops, i) {
      MonitoringComesFromASignIn(ops, i + 1, g);
    }
  }

  lemma RefreshKeepsConnection(db: Db, op: Op)
    ensures op.RefreshSession? ==> Apply(db, op).conn == db.conn
  {
  }

  /** After a pause no batch is accepted before somebody has signed in again; nor after a resume. */
  lemma PauseStopsIngest(before: seq<Op>, action: Action, after: seq<Op>, g: int)
    requires Run(EMPTY, before).conn.Some? && (action == Pause || action == Resume)
    requires FenceAccepts(Run(EMPTY, before + [Transition(action)] + after), g)
    ensures exists k :: k > |before| && CompletesAt(before + [Transition(action)] + after, k)
  {
    hide FenceAccepts;
    var ops, n := before + [Transition(action)] + after, |before| + 1;
    assert ops[..n] == before + [Transition(action)];
    Runs.Snoc(Apply, EMPTY, before, Transition(action));
    TransitionLeaves(Run(EMPTY, before), action);
    hide Apply, Run;
    assert Run(EMPTY, ops).conn == Some(Connection(Monitoring, g)) by {
      AcceptedMeansMonitoring(Run(EMPTY, ops), g);
    }
    MonitoringComesFromASignIn(ops, n, g);
  }

  lemma AcceptedMeansMonitoring(db: Db, g: int)
    requires FenceAccepts(db, g)
    ensures db.conn == Some(Connection(Monitoring, g))
  {
  }

  lemma TransitionLeaves(db: Db, action: Action)
    requires db.conn.Some? && (action == Pause || action == Resume)
    ensures Apply(db, Transition(action)).conn ==
            Some(Connection(if action == Pause then Paused else AuthRequired, db.conn.value.generation + 1))
  {
  }

  // ---- Attempts that run out ----

  /** The connection is starting a sign-in at generation `g` and its attempt has run out. */
  ghost predicate Expires(db: Db, g: int, now: int) {
    && db.conn == Some(Connection(AuthStarting, g))
    && exists a <- db.attempts ::
         db.attempts[a].generation == g && IsLive(db.attempts[a].status) && db.attempts[a].expiresAt <= now
  }

  lemma ExpiresIsStale(db: Db, now: int)
    ensures (exists g: int :: Expires(db, g, now)) <==>
            db.conn.Some? && db.conn.value.state == AuthStarting
            && StaleAtGeneration(db.attempts, now, db.conn.value.generation)
  {
    if db.conn.Some? && db.conn.value.state == AuthStarting
       && StaleAtGeneration(db.attempts, now, db.conn.value.generation) {
      assert Expires(db, db.conn.value.generation, now);
    }
  }

  /**
    The attempts under way whose time is up are EXPIRED, the others as they were; the sign-in of the
    current generation, if it is one of them, is called off.
   */
  ghost predicate RanOut(db: Db, db': Db, now: int) {
    && db' == db.(attempts := db'.attempts, conn := db'.conn)
    && db'.attempts.Keys == db.attempts.Keys
    && (forall a <- db'.attempts ::
          db'.attempts[a] == if IsLive(db.attempts[a].status) && db.attempts[a].expiresAt <= now
                             then db.attempts[a].(status := Expired) else db.attempts[a])
    && db'.conn == if exists g: int :: Expires(db, g, now)
                   then Some(Connection(AuthRequired, db.conn.value.generation + 1)) else db.conn
  }

  lemma ExpireStaleRunsOut(db: Db, now: int)
    ensures RanOut(db, Apply(db, ExpireStale(now)), now)
  {
    ExpiresIsStale(db, now);
    hide Expires, StaleAtGeneration;
  }

  // ---- The store itself ----

  class ConnectionStore {
    var conn: Option<Connection>
    var attempts: map<nat, Attempt>
    var session: Option<Session>
    var polls: map<nat, Poll>
    var nextId: nat

    ghost function Tables(): Db
      reads this
    {
      Db(conn, attempts, session, polls, nextId)
    }

    constructor ()
      ensures Tables() == EMPTY
    {
      conn, attempts, session, polls, nextId := None, map[], None, map[], 0;
    }

    method ConfigureConnection(masked: string) returns (ok: bool)
      modifies this
      ensures ok == Commits(old(Tables()), Configure(masked))
      ensures Tables() == Apply(old(Tables()), Configure(masked))
      ensures ok <==> masked != "" && old(conn).None?
      ensures conn == (if ok then Some(Connection(AuthRequired, 0)) else old(conn))
      ensures unchanged(`attempts, `session, `polls, `nextId)
    {
      if masked == "" || conn.Some? {
        return false;
      }
      conn := Some(Connection(AuthRequired, 0));
      return true;
    }

    method TransitionConnection(action: Action) returns (ok: bool)
      modifies this
      ensures ok == Commits(old(Tables()), Transition(action))
      ensures Tables() == Apply(old(Tables()), Transition(action))
      ensures ok <==> (action == Pause || action == Resume) && old(conn).Some?
      ensures ok && action == Pause ==> conn == Some(Connection(Paused, old(conn).value.generation + 1))
      ensures ok && action == Resume ==> conn == Some(Connection(AuthRequired, old(conn).value.generation + 1))
      ensures !ok ==> conn == old(conn)
      ensures unchanged(`attempts, `session, `polls, `nextId)
    {
      var next;
      match action {
        case Pause => next := Paused;
        case Resume => next := AuthRequired;
        case UnsupportedAction => return false;
      }
      if conn.None? {
        return false;
      }
      conn := Some(Connection(next, conn.value.generation + 1));
      return true;
    }

    /** Collects the stale attempts, then ends them one by one. */
    method ExpireStaleAuthAttempts(now: int) returns (expired: nat)
      modifies this
      ensures Tables() == Apply(old(Tables()), ExpireStale(now))
      ensures expired == |StaleAttempts(old(attempts), now)|
      ensures RanOut(old(Tables()), Tables(), now)
    {
      hide ExpireSome, Ended, Apply, RanOut;
      var stale := StaleAttempts(attempts, now);
      ExpireNone(Tables());
      var todo := stale;
      ghost var done: set<nat> := {};
      expired := 0;
      while todo != {}
        invariant done + todo == stale && done !! todo && expired == |done|
        invariant attempts.Keys == old(attempts).Keys
        invariant Tables() == ExpireSome(old(Tables()), done)
        decreases |todo|
      {
        var a :| a in todo;
        ExpireOneMore(old(Tables()), done, a);
        ExpireOne(a);
        done := done + {a};
        todo := todo - {a};
        expired := expired + 1;
      }
      assert done == stale;
      ExpireSomeIsExpireStale(old(Tables()), now);
      ExpireStaleRunsOut(old(Tables()), now);
    }

    method ExpireOne(a: nat)
      requires a in attempts
      modifies this
      ensures Tables() == Ended(old(Tables()), a)
      ensures attempts.Keys == old(attempts).Keys
    {
      var g := attempts[a].generation;
      attempts := WithStatus(attempts, a, Expired);
      if conn.Some? && conn.value.generation == g && conn.value.state == AuthStarting {
        conn := Some(Connection(AuthRequired, conn.value.generation + 1));
      }
    }

    /** The transaction of StartAuthAttempt; `readGeneration` was read before it began. */
    method BeginAttempt(readGeneration: int, expiresAt: int) returns (ok: bool, id: nat)
      modifies this
      ensures ok == Commits(old(Tables()), StartAttempt(readGeneration, expiresAt))
      ensures Tables() == Apply(old(Tables()), StartAttempt(readGeneration, expiresAt))
      ensures ok ==> id == old(nextId)
      ensures ok <==> old(conn).Some? && old(conn).value.generation == readGeneration
                      && !exists a <- old(attempts) :: IsLive(old(attempts)[a].status)
      ensures ok ==>
                && conn == Some(Connection(AuthStarting, readGeneration + 1))
                && attempts == old(attempts)[id := Attempt(readGeneration + 1, Starting, expiresAt)]
                && nextId == id + 1
      ensures !ok ==> Tables() == old(Tables())
      ensures unchanged(`session, `polls)
    {
      id := nextId;
      if conn.None? || conn.value.generation != readGeneration {
        return false, id;
      }
      var savedConn := conn;
      conn := Some(Connection(AuthStarting, readGeneration + 1));
      if exists a <- attempts :: attempts[a].Active() {
        conn := savedConn; // the unique index rejects the insert and the transaction rolls back
        return false, id;
      }
      attempts := attempts[id := Attempt(readGeneration + 1, Starting, expiresAt)];
      nextId := nextId + 1;
      return true, id;
    }

    method HasActiveAuthAttempt(now: int) returns (active: bool)
      ensures active <==> exists a <- attempts :: IsLive(attempts[a].status) && attempts[a].expiresAt > now
    {
      active := exists a <- attempts :: attempts[a].Active() && attempts[a].expiresAt > now;
    }

    /**
      The whole of StartAuthAttempt. Between its four store calls any other transactions may commit:
      `gap1`, `gap2` and `gap3` are what the other actors do there. The clock is read three times.
     */
    method StartAuthAttempt(clocks: Clocks, ttl: int, gap1: seq<Op>, gap2: seq<Op>, gap3: seq<Op>)
      returns (ok: bool, tail: seq<Op>)
      modifies this
      ensures ttl <= 0 ==> !ok && Tables() == old(Tables())
      ensures ttl > 0 ==>
                Tables() == Run(old(Tables()), [ExpireStale(clocks.expire)] + gap1 + gap2 + gap3 + tail)
      ensures |tail| <= 1 && (ok ==> |tail| == 1)
      ensures ok ==> exists id <- attempts ::
                  && attempts[id].status == Starting
                  && attempts[id].expiresAt == clocks.start + ttl
                  && conn == Some(Connection(AuthStarting, attempts[id].generation))
    {
      tail := [];
      if ttl <= 0 {
        return false, tail;
      }
      ghost var before := Tables();
      var _ := ExpireStaleAuthAttempts(clocks.expire);
      Others(gap1);
      var read := conn;
      Others(gap2);
      var active := HasActiveAuthAttempt(clocks.check);
      Others(gap3);
      ghost var reached := Tables();
      GapsCompose(before, ExpireStale(clocks.expire), gap1, gap2, gap3, []);
      if read.None? || active {
        return false, tail;
      }
      var id;
      ok, id := BeginAttempt(read.value.generation, clocks.start + ttl);
      tail := [StartAttempt(read.value.generation, clocks.start + ttl)];
      GapsCompose(before, ExpireStale(clocks.expire), gap1, gap2, gap3, tail);
      Runs.Single(Apply, reached, tail[0]);
      assert ok ==> id in attempts && attempts[id] == Attempt(read.value.generation + 1, Starting, clocks.start + ttl);
    }

    method MarkAuthAttemptInProgress(id: nat) returns (ok: bool)
      modifies this
      ensures ok == Commits(old(Tables()), MarkInProgress(id))
      ensures Tables() == Apply(old(Tables()), MarkInProgress(id))
      ensures ok <==> id in old(attempts) && old(attempts)[id].status == Starting
                      && conn == Some(Connection(AuthStarting, old(attempts)[id].generation))
      ensures attempts == if ok then old(attempts)[id := old(attempts)[id].(status := InProgress)] else old(attempts)
      ensures unchanged(`conn, `session, `polls, `nextId)
    {
      if id !in attempts || attempts[id].status != Starting || conn.None?
         || conn.value.generation != attempts[id].generation || conn.value.state != AuthStarting {
        return false;
      }
      attempts := WithStatus(attempts, id, InProgress);
      return true;
    }

    /** Bumps the connection by generation alone, whatever state it is in, then ends the attempt. */
    method FinishAuthAttempt(id: nat, outcome: AttemptStatus) returns (ok: bool)
      modifies this
      ensures ok == Commits(old(Tables()), FinishAttempt(id, outcome))
      ensures Tables() == Apply(old(Tables()), FinishAttempt(id, outcome))
      ensures ok <==> (outcome == Cancelled || outcome == Expired || outcome == Failed)
                      && id in old(attempts) && IsLive(old(attempts)[id].status)
      ensures attempts == if ok then old(attempts)[id := old(attempts)[id].(status := outcome)] else old(attempts)
      ensures conn ==
              if ok && old(conn).Some? && old(conn).value.generation == old(attempts)[id].generation
              then Some(Connection(AuthRequired, old(conn).value.generation + 1)) else old(conn)
      ensures unchanged(`session, `polls, `nextId)
    {
      if !Ending(outcome) || id !in attempts || !attempts[id].Active() {
        return false;
      }
      if conn.Some? && conn.value.generation == attempts[id].generation {
        conn := Some(Connection(AuthRequired, conn.value.generation + 1));
      }
      attempts := WithStatus(attempts, id, outcome);
      return true;
    }

    /** Ends the attempt and replaces the session first; rolls both back when the connection moved on. */
    method CompleteAuthSession(id: nat, envelope: string) returns (ok: bool)
      modifies this
      ensures ok == Commits(old(Tables()), CompleteSession(id, envelope))
      ensures Tables() == Apply(old(Tables()), CompleteSession(id, envelope))
      ensures ok <==> id in old(attempts)
                      && (old(attempts)[id].status == Starting || old(attempts)[id].status == InProgress)
                      && old(conn) == Some(Connection(AuthStarting, old(attempts)[id].generation))
      // the verified session is the one handed in, under the key id of the row that was there, else k1
      ensures ok ==>
                var g := old(attempts)[id].generation;
                && conn == Some(Connection(Monitoring, g))
                && attempts == old(attempts)[id := old(attempts)[id].(status := Verified)]
                && session == Some(Session(g, envelope, if old(session).Some? then old(session).value.keyId else "k1"))
      ensures !ok ==> Tables() == old(Tables())
      ensures unchanged(`polls, `nextId)
    {
      if id !in attempts || !(attempts[id].status == Starting || attempts[id].status == InProgress) {
        return false;
      }
      var savedAttempts, savedSession := attempts, session;
      var g := attempts[id].generation;
      attempts := WithStatus(attempts, id, Verified);
      session := match session {
        case None => Some(Session(g, envelope, "k1"))
        case Some(s) => Some(s.(generation := g, envelope := envelope))
      };
      if conn.None? || conn.value.generation != g || conn.value.state != AuthStarting {
        attempts, session := savedAttempts, savedSession;
        return false;
      }
      conn := Some(conn.value.(state := Monitoring));
      return true;
    }

    /** The insert of StartPoll; `readGeneration` was read before it. */
    method InsertPollRun(readGeneration: int) returns (ok: bool, id: nat)
      modifies this
      ensures ok == Commits(old(Tables()), InsertPoll(readGeneration))
      ensures Tables() == Apply(old(Tables()), InsertPoll(readGeneration))
      ensures ok ==> id == old(nextId)
      ensures ok <==> old(conn).Some?
      ensures polls == if ok then old(polls)[id := Poll(readGeneration, PollRunning)] else old(polls)
      ensures unchanged(`conn, `attempts, `session)
    {
      id := nextId;
      if conn.None? { // the foreign key rejects the row
        return false, id;
      }
      polls := polls[id := Poll(readGeneration, PollRunning)];
      nextId := nextId + 1;
      return true, id;
    }

    /** The whole of StartPoll: a poll starts only if the connection read was monitoring. */
    method StartPoll(gap: seq<Op>) returns (poll: Option<(nat, int)>)
      modifies this
      ensures old(conn).None? || old(conn).value.state != Monitoring ==> poll.None? && Tables() == old(Tables())
      ensures old(conn).Some? && old(conn).value.state == Monitoring ==>
                Tables() == Run(old(Tables()), gap + [InsertPoll(old(conn).value.generation)])
      ensures poll.Some? ==>
                var id, g := poll.value.0, poll.value.1;
                At(old(Tables()), g, Monitoring) && id in polls && polls[id] == Poll(g, PollRunning)
    {
      if conn.None? || conn.value.state != Monitoring {
        return None;
      }
      var g := conn.value.generation;
      Runs.Snoc(Apply, Tables(), gap, InsertPoll(g));
      Others(gap);
      var ok, id := InsertPollRun(g);
      poll := if ok then Some((id, g)) else None;
    }

    /** Only AUTH_REQUIRED demotes the connection, and only at the generation the poll ran for. */
    method FinishPollRun(id: nat, generation: int, status: PollStatus) returns (ok: bool)
      modifies this
      ensures ok == Commits(old(Tables()), FinishPoll(id, generation, status))
      ensures Tables() == Apply(old(Tables()), FinishPoll(id, generation, status))
      ensures ok <==> status != PollRunning && id in old(polls) && old(polls)[id].status == PollRunning
                      && (status == PollSucceeded ==> old(conn) == Some(Connection(Monitoring, generation)))
                      && (status == PollAuthRequired ==> old(conn).Some? && old(conn).value.generation == generation)
      ensures polls == if ok then old(polls)[id := old(polls)[id].(status := status)] else old(polls)
      ensures conn ==
              if ok && status == PollAuthRequired then Some(Connection(AuthRequired, generation + 1)) else old(conn)
      ensures unchanged(`attempts, `session, `nextId)
    {
      if status == PollRunning || id !in polls || polls[id].status != PollRunning {
        return false;
      }
      var saved := polls;
      polls := polls[id := polls[id].(status := status)];
      if status == PollSucceeded {
        if conn.None? || conn.value.generation != generation || conn.value.state != Monitoring {
          polls := saved;
          return false;
        }
      } else if status == PollAuthRequired {
        if conn.None? || conn.value.generation != generation {
          polls := saved;
          return false;
        }
        conn := Some(Connection(AuthRequired, conn.value.generation + 1));
      }
      return true;
    }

    method RefreshStoredSession(generation: int, envelope: string, keyId: string) returns (ok: bool)
      modifies this
      ensures ok == Commits(old(Tables()), RefreshSession(generation, envelope, keyId))
      ensures Tables() == Apply(old(Tables()), RefreshSession(generation, envelope, keyId))
      ensures ok <==> old(session).Some? && old(session).value.generation == generation
                      && conn == Some(Connection(Monitoring, generation))
      ensures session == if ok then Some(Session(generation, envelope, keyId)) else old(session)
      ensures unchanged(`conn, `attempts, `polls, `nextId)
    {
      if session.None? || session.value.generation != generation
         || conn.None? || conn.value.generation != generation || conn.value.state != Monitoring {
        return false;
      }
      session := Some(Session(generation, envelope, keyId));
      return true;
    }

    /** Other actors' transactions. */
    method Others(ops: seq<Op>)
      modifies this
      ensures Tables() == Run(old(Tables()), ops)
    {
      for i := 0 to |ops|
        invariant Tables() == Run(old(Tables()), ops[..i])
      {
        Runs.Prefix(Apply, old(Tables()), ops, i);
        Execute(ops[i]);
      }
      assert ops[..|ops|] == ops;
    }

    method Execute(op: Op)
      modifies this
      ensures Tables() == Apply(old(Tables()), op)
    {
      var ok, id;
      match op {
        case Configure(masked) => ok := ConfigureConnection(masked);
        case Transition(action) => ok := TransitionConnection(action);
        case ExpireStale(now) => id := ExpireStaleAuthAttempts(now);
        case StartAttempt(g, expiresAt) => ok, id := BeginAttempt(g, expiresAt);
        case MarkInProgress(a) => ok := MarkAuthAttemptInProgress(a);
        case FinishAttempt(a, outcome) => ok := FinishAuthAttempt(a, outcome);
        case CompleteSession(a, envelope) => ok := CompleteAuthSession(a, envelope);
        case InsertPoll(g) => ok, id := InsertPollRun(g);
        case FinishPoll(p, g, status) => ok := FinishPollRun(p, g, status);
        case RefreshSession(g, envelope, keyId) => ok := RefreshStoredSession(g, envelope, keyId);
      }
    }
  }

  lemma GapsCompose(db: Db, op: Op, gap1: seq<Op>, gap2: seq<Op>, gap3: seq<Op>, tail: seq<Op>)
    ensures Run(Run(Run(Run(Apply(db, op), gap1), gap2), gap3), tail) == Run(db, [op] + gap1 + gap2 + gap3 + tail)
  {
    Runs.Concat(Apply, db, [op] + gap1 + gap2 + gap3, tail);
    Runs.Concat(Apply, db, [op] + gap1 + gap2, gap3);
    Runs.Concat(Apply, db, [op] + gap1, gap2);
    Runs.Concat(Apply, db, [op], gap1);
    Runs.Single(Apply, db, op);
  }
}
