/**
  Single flight: callers that ask for the same key while it is being computed share one computation.

  One state machine for both implementations. A caller enters under the lock, where it starts a flight
  or joins the one in the table; the owner then computes, settles the flight's future and, under the
  lock again, takes the key out of the table. Cancelling a caller exists only in the Python gateway.
 */
module Flights {
  import Runs

  /** Values are given by their bytes. */
  datatype Result = Value(value: seq<int>) | Failure(error: string)

  datatype Future = Pending | Settled(result: Result) | Dropped   // Dropped: cancelled by a joiner

  datatype Flight = Flight(key: string, future: Future, owner: nat)

  /** What a caller of the flight ends with. */
  datatype Outcome = Got(result: Result) | WasCancelled | InvalidState

  datatype Caller =
    | Computing(flight: nat)
    | Leaving(flight: nat, outcome: Outcome)   // the owner, before it takes the key out of the table
    | Joined(flight: nat)
    | Gone(flight: nat, outcome: Outcome)

  datatype World = World(table: map<string, nat>, flights: seq<Flight>, callers: map<nat, Caller>)

  datatype Op =
    | Enter(id: nat, key: string)
    | Finish(id: nat, result: Result)
    | Leave(id: nat)
    | Wake(id: nat)
    | CancelOwner(id: nat)
    | CancelJoiner(id: nat)

  const INIT := World(map[], [], map[])

  predicate IsCancel(op: Op) {
    op.CancelOwner? || op.CancelJoiner?
  }

  predicate Inside(w: World, id: nat) {
    id in w.callers && w.callers[id].flight < |w.flights|
  }

  function FutureOf(w: World, id: nat): Future
    requires Inside(w, id)
  {
    w.flights[w.callers[id].flight].future
  }

  function Become(w: World, id: nat, caller: Caller): World {
    w.(callers := w.callers[id := caller])
  }

  function SetFuture(w: World, f: nat, future: Future): World
    requires f < |w.flights|
  {
    w.(flights := w.flights[f := w.flights[f].(future := future)])
  }

  /** The owner's computation is over. A future that a joiner has cancelled cannot be settled any more. */
  function Finished(w: World, id: nat, result: Result): World
    requires Inside(w, id)
  {
    var f := w.callers[id].flight;
    if w.flights[f].future == Pending then Become(SetFuture(w, f, Settled(result)), id, Leaving(f, Got(result)))
    else Become(w, id, Leaving(f, InvalidState))
  }

  function Step(w: World, op: Op): World {
    match op
    case Enter(id, key) =>
      if id in w.callers then w
      else if key in w.table then Become(w, id, Joined(w.table[key]))
      else
        var f := |w.flights|;
        Become(World(w.table[key := f], w.flights + [Flight(key, Pending, id)], w.callers), id, Computing(f))
    case Finish(id, result) =>
      if Inside(w, id) && w.callers[id].Computing? then Finished(w, id, result) else w
    case Leave(id) =>
      if Inside(w, id) && w.callers[id].Leaving? then
        var c := w.callers[id];
        Become(w.(table := w.table - {w.flights[c.flight].key}), id, Gone(c.flight, c.outcome))
      else w
    case Wake(id) =>
      if Inside(w, id) && w.callers[id].Joined? then
        var f := w.callers[id].flight;
        match w.flights[f].future
        case Pending => w
        case Settled(result) => Become(w, id, Gone(f, Got(result)))
        case Dropped => Become(w, id, Gone(f, WasCancelled))
      else w
    case CancelOwner(id) =>
      if Inside(w, id) && w.callers[id].Computing? then
        Become(w, id, Leaving(w.callers[id].flight, WasCancelled))
      else w
    case CancelJoiner(id) =>
      if Inside(w, id) && w.callers[id].Joined? && FutureOf(w, id) == Pending then
        var f := w.callers[id].flight;
        Become(SetFuture(w, f, Dropped), id, Gone(f, WasCancelled))
      else w
  }

  ghost function Run(ops: seq<Op>): World {
    Runs.Fold(Step, INIT, ops)
  }

  // ---------- the invariant ----------

  /** The caller is the owner of the flight and has not yet taken its key out of the table. */
  predicate Owns(w: World, id: nat, f: int) {
    id in w.callers && (w.callers[id].Computing? || w.callers[id].Leaving?) && w.callers[id].flight == f
  }

  /** A key in the table leads to a flight whose owner is still in the call. */
  ghost predicate KeyFits(w: World, key: string) {
    key in w.table ==>
      var f := w.table[key];
      f < |w.flights| && w.flights[f].key == key && Owns(w, w.flights[f].owner, f)
  }

  /** An owner leads to its key; a result that a caller has is the one of the flight. */
  ghost predicate CallerFits(w: World, id: nat) {
    id in w.callers ==>
      var c := w.callers[id];
      c.flight < |w.flights| && var flight := w.flights[c.flight];
      (Owns(w, id, c.flight) ==> flight.owner == id && flight.key in w.table && w.table[flight.key] == c.flight)
      && (c.Gone? && c.outcome.Got? ==> flight.future == Settled(c.outcome.result))
  }

  ghost predicate FlightFits(w: World, f: nat) {
    f < |w.flights| ==>
      var flight := w.flights[f];
      flight.owner in w.callers && w.callers[flight.owner].flight == f
      && FutureFits(flight.future, w.callers[flight.owner])
  }

  /** How the owner stands determines the future, up to a joiner's cancellation. */
  ghost predicate FutureFits(future: Future, owner: Caller) {
    match owner
    case Computing(_) => future == Pending || future == Dropped
    case Leaving(_, outcome) => Fits(future, outcome)
    case Gone(_, outcome) => Fits(future, outcome)
    case Joined(_) => false
  }

  ghost predicate Fits(future: Future, outcome: Outcome) {
    match outcome
    case Got(result) => future == Settled(result)
    case InvalidState => future == Dropped
    case WasCancelled => future == Pending || future == Dropped
  }

  ghost predicate Inv(w: World) {
    && (forall key :: KeyFits(w, key))
    && (forall id: nat :: CallerFits(w, id))
    && (forall f: nat :: FlightFits(w, f))
  }

  /** The caller whose step it is. */
  lemma Actor(w: World, id: nat)
    requires Inv(w) && id in w.callers
    ensures var c := w.callers[id];
            c.flight < |w.flights|
            && (Owns(w, id, c.flight) ==> w.flights[c.flight].owner == id && w.flights[c.flight].key in w.table
                                          && w.table[w.flights[c.flight].key] == c.flight)
            && w.flights[c.flight].owner in w.callers
            && FutureFits(w.flights[c.flight].future, w.callers[w.flights[c.flight].owner])
  {
    assert CallerFits(w, id);
    assert FlightFits(w, w.callers[id].flight);
  }

  lemma StepKeepsKeyFits(w: World, op: Op, key: string)
    requires Inv(w)
    ensures KeyFits(Step(w, op), key)
  {
    hide FutureFits;
    assert KeyFits(w, key);
    if op.id in w.callers {
      Actor(w, op.id);
    }
  }

  lemma StepKeepsCallerFits(w: World, op: Op, id: nat)
    requires Inv(w)
    ensures CallerFits(Step(w, op), id)
  {
    assert CallerFits(w, id);
    if op.id in w.callers {
      Actor(w, op.id);
    }
    if op.Enter? {
      assert KeyFits(w, op.key);
    }
  }

  lemma StepKeepsFlightFits(w: World, op: Op, f: nat)
    requires Inv(w)
    ensures FlightFits(Step(w, op), f)
  {
    assert FlightFits(w, f);
    if op.id in w.callers {
      Actor(w, op.id);
    }
  }

  lemma StepKeepsInv(w: World, op: Op)
    requires Inv(w)
    ensures Inv(Step(w, op))
  {
    hide Step, KeyFits, CallerFits, FlightFits;
    forall key ensures KeyFits(Step(w, op), key) {
      StepKeepsKeyFits(w, op, key);
    }
    forall id: nat | true ensures CallerFits(Step(w, op), id) {
      StepKeepsCallerFits(w, op, id);
    }
    forall f: nat | true ensures FlightFits(Step(w, op), f) {
      StepKeepsFlightFits(w, op, f);
    }
  }

  lemma Reachable(ops: seq<Op>)
    ensures Inv(Run(ops))
  {
    hide Step, Inv;
    assert Inv(INIT) by { InitInv(); }
    forall w, op | Inv(w) ensures Inv(Step(w, op)) {
      StepKeepsInv(w, op);
    }
    Runs.Invariant(Step, Inv, INIT, ops);
  }

  lemma InitInv()
    ensures Inv(INIT)
  {
  }

  // ---------- what holds of every run ----------

  /** At most one computation per key at a time. */
  lemma OneComputationPerKey(ops: seq<Op>, id: nat, other: nat)
    requires var w := Run(ops);
             Inside(w, id) && Inside(w, other) && w.callers[id].Computing? && w.callers[other].Computing?
             && w.flights[w.callers[id].flight].key == w.flights[w.callers[other].flight].key
    ensures id == other
  {
    hide Run, FutureFits;
    Reachable(ops);
    Actor(Run(ops), id);
    Actor(Run(ops), other);
  }

  /** No entry outlives the call that made it. */
  lemma EntriesBelongToCallers(ops: seq<Op>, key: string)
    requires key in Run(ops).table
    ensures exists id :: Owns(Run(ops), id, Run(ops).table[key])
  {
    hide Run, FutureFits;
    Reachable(ops);
    assert KeyFits(Run(ops), key);
    assert Owns(Run(ops), Run(ops).flights[Run(ops).table[key]].owner, Run(ops).table[key]);
  }

  /** Callers that get a result from the same flight get the same one: the one its owner computed. */
  lemma ResultIsShared(ops: seq<Op>, id: nat, other: nat)
    requires var w := Run(ops);
             id in w.callers && other in w.callers && w.callers[id].flight == w.callers[other].flight
             && w.callers[id].Gone? && w.callers[id].outcome.Got?
             && w.callers[other].Gone? && w.callers[other].outcome.Got?
    ensures Run(ops).callers[id].outcome == Run(ops).callers[other].outcome
  {
    hide Run;
    Reachable(ops);
    assert CallerFits(Run(ops), id) && CallerFits(Run(ops), other);
  }

  // ---------- cancellation ----------

  /** Nothing cancelled yet: no future dropped, no outcome but a result. */
  ghost predicate Undisturbed(w: World) {
    && (forall f :: 0 <= f < |w.flights| ==> w.flights[f].future != Dropped)
    && (forall id <- w.callers :: w.callers[id].Leaving? || w.callers[id].Gone? ==> w.callers[id].outcome.Got?)
  }

  lemma {:induction false} NoCancelNoDisturbance(ops: seq<Op>)
    requires forall op <- ops :: !IsCancel(op)
    ensures Undisturbed(Run(ops))
    decreases |ops|
  {
    if ops == [] {
    } else {
      var n := |ops| - 1;
      assert ops == ops[..n] + [ops[n]];
      NoCancelNoDisturbance(ops[..n]);
      Reachable(ops[..n]);
      Runs.Snoc(Step, INIT, ops[..n], ops[n]);
      StepStaysUndisturbed(Run(ops[..n]), ops[n]);
    }
  }

  lemma StepStaysUndisturbed(w: World, op: Op)
    requires Inv(w) && Undisturbed(w) && !IsCancel(op)
    ensures Undisturbed(Step(w, op))
  {
    if op.id in w.callers {
      Actor(w, op.id);
    }
  }

  /**
    Without cancellation every caller that returns has the owner's result, and a joiner whose future is
    pending has an owner that is still computing.
   */
  lemma JoinersGetTheResult(ops: seq<Op>, id: nat)
    requires forall op <- ops :: !IsCancel(op)
    requires id in Run(ops).callers
    ensures var w, c := Run(ops), Run(ops).callers[id];
            c.flight < |w.flights| && var flight := w.flights[c.flight];
            (c.Gone? ==> c.outcome.Got? && flight.future == Settled(c.outcome.result))
            && (c.Joined? && flight.future == Pending ==>
                  flight.owner in w.callers && w.callers[flight.owner] == Computing(c.flight))
  {
    hide Run;
    Reachable(ops);
    NoCancelNoDisturbance(ops);
    Actor(Run(ops), id);
    assert CallerFits(Run(ops), id);
    assert FlightFits(Run(ops), Run(ops).callers[id].flight);
  }

  /** A flight nobody will settle: pending, with its owner past the computation. */
  ghost predicate Stranded(w: World, f: nat) {
    f < |w.flights| && w.flights[f].future == Pending
    && !(w.flights[f].owner in w.callers && w.callers[w.flights[f].owner].Computing?)
  }

  /** That happens exactly when the owner was cancelled and no joiner was. */
  lemma StrandedIffOwnerCancelled(ops: seq<Op>, f: nat)
    requires f < |Run(ops).flights|
    ensures var w := Run(ops); var flight := w.flights[f];
            Stranded(w, f) <==>
            flight.future != Dropped && flight.owner in w.callers && w.callers[flight.owner].flight == f
            && (w.callers[flight.owner].Leaving? || w.callers[flight.owner].Gone?)
            && w.callers[flight.owner].outcome == WasCancelled
  {
    hide Run;
    Reachable(ops);
    assert FlightFits(Run(ops), f);
  }

  /** And then its joiners wait for ever: only cancelling one of them ends it. */
  lemma {:induction false} StrandedForGood(w: World, f: nat, ops: seq<Op>)
    requires Inv(w) && Stranded(w, f)
    requires forall op <- ops :: !op.CancelJoiner?
    ensures Stranded(Runs.Fold(Step, w, ops), f)
    ensures forall id <- w.callers :: w.callers[id] == Joined(f) ==>
              id in Runs.Fold(Step, w, ops).callers && Runs.Fold(Step, w, ops).callers[id] == Joined(f)
    decreases |ops|
  {
    if ops == [] {
    } else {
      var after := Step(w, ops[0]);
      StepKeepsInv(w, ops[0]);
      StrandedStep(w, f, ops[0]);
      StrandedForGood(after, f, ops[1..]);
    }
  }

  lemma StrandedStep(w: World, f: nat, op: Op)
    requires Inv(w) && Stranded(w, f) && !op.CancelJoiner?
    ensures Stranded(Step(w, op), f)
    ensures forall id <- w.callers :: w.callers[id] == Joined(f) ==>
              id in Step(w, op).callers && Step(w, op).callers[id] == Joined(f)
  {
    assert FlightFits(w, f);
    if op.id in w.callers {
      Actor(w, op.id);
    }
  }

  /** One client goes away: its cancellation strands another that asked for the same text. */
  lemma CancelledOwnerStrandsJoiner()
    ensures var w := Run([Enter(1, "k"), Enter(2, "k"), CancelOwner(1), Leave(1)]);
            w.table == map[] && 2 in w.callers && w.callers[2] == Joined(0) && Stranded(w, 0)
  {
    var ops := [Enter(1, "k"), Enter(2, "k"), CancelOwner(1), Leave(1)];
    var w1 := Step(INIT, ops[0]);
    var w2 := Step(w1, ops[1]);
    var w3 := Step(w2, ops[2]);
    var w4 := Step(w3, ops[3]);
    assert w4 == Run(ops) by {
      assert ops[1..][1..][1..][1..] == [];
      Unroll(INIT, ops);
      Unroll(w1, ops[1..]);
      Unroll(w2, ops[1..][1..]);
      Unroll(w3, ops[1..][1..][1..]);
    }
    assert w2.callers[2] == Joined(0);
  }

  /** A joiner goes away: the owner fails although it has computed a result. */
  lemma CancelledJoinerFailsOwner(result: Result)
    ensures var w := Run([Enter(1, "k"), Enter(2, "k"), CancelJoiner(2), Finish(1, result)]);
            1 in w.callers && w.callers[1] == Leaving(0, InvalidState)
  {
    var ops := [Enter(1, "k"), Enter(2, "k"), CancelJoiner(2), Finish(1, result)];
    var w1 := Step(INIT, ops[0]);
    var w2 := Step(w1, ops[1]);
    var w3 := Step(w2, ops[2]);
    var w4 := Step(w3, ops[3]);
    assert w4 == Run(ops) by {
      assert ops[1..][1..][1..][1..] == [];
      Unroll(INIT, ops);
      Unroll(w1, ops[1..]);
      Unroll(w2, ops[1..][1..]);
      Unroll(w3, ops[1..][1..][1..]);
    }
    assert w2.callers[2] == Joined(0);
  }

  // ---------- who drops a future ----------

  /** In operation `j` a joiner of the flight is cancelled while the flight is pending. */
  ghost predicate JoinerCancelledAt(ops: seq<Op>, f: nat, j: int) {
    0 <= j < |ops| && ops[j].CancelJoiner? &&
    var w := Run(ops[..j]);
    Inside(w, ops[j].id) && w.callers[ops[j].id] == Joined(f) && w.flights[f].future == Pending
  }

  ghost predicate JoinerCancelled(ops: seq<Op>, f: nat) {
    exists j :: JoinerCancelledAt(ops, f, j)
  }

  lemma EarlierJoinerCancelledAt(ops: seq<Op>, f: nat, n: nat, j: int)
    requires n <= |ops| && j < n
    ensures JoinerCancelledAt(ops[..n], f, j) <==> JoinerCancelledAt(ops, f, j)
  {
    hide Run;
    if 0 <= j {
      assert ops[..n][..j] == ops[..j] && ops[..n][j] == ops[j];
    }
  }

  /** What one step does to the future of a flight. */
  lemma StepDrops(w: World, op: Op, f: nat)
    requires f < |Step(w, op).flights|
    ensures f >= |w.flights| ==> Step(w, op).flights[f].future == Pending
    ensures f < |w.flights| ==>
              (Step(w, op).flights[f].future == Dropped <==>
               w.flights[f].future == Dropped
               || (op.CancelJoiner? && Inside(w, op.id) && w.callers[op.id] == Joined(f)
                   && w.flights[f].future == Pending))
  {
  }

  /** In every run a future is dropped exactly when a joiner was cancelled while it was pending. */
  lemma {:induction false} DroppedIffJoinerCancelled(ops: seq<Op>, f: nat)
    requires f < |Run(ops).flights|
    ensures Run(ops).flights[f].future == Dropped <==> JoinerCancelled(ops, f)
    decreases |ops|
  {
    if ops == [] {
    } else {
      hide Step;
      var n := |ops| - 1;
      assert ops == ops[..n] + [ops[n]];
      Runs.Snoc(Step, INIT, ops[..n], ops[n]);
      var w := Run(ops[..n]);
      StepDrops(w, ops[n], f);
      forall j | j < n ensures JoinerCancelledAt(ops[..n], f, j) <==> JoinerCancelledAt(ops, f, j) {
        EarlierJoinerCancelledAt(ops, f, n, j);
      }
      if f < |w.flights| {
        DroppedIffJoinerCancelled(ops[..n], f);
        assert JoinerCancelledAt(ops, f, n) <==>
               ops[n].CancelJoiner? && Inside(w, ops[n].id) && w.callers[ops[n].id] == Joined(f)
               && w.flights[f].future == Pending;
      } else {
        NoFlightNoJoiner(ops[..n], f);
        Reachable(ops[..n]);
      }
    }
  }

  lemma NoFlightNoJoiner(ops: seq<Op>, f: nat)
    requires f >= |Run(ops).flights|
    ensures !JoinerCancelled(ops, f)
  {
    if j :| JoinerCancelledAt(ops, f, j) {
      FlightsStay(ops, j);
    }
  }

  lemma {:induction false} FlightsStay(ops: seq<Op>, n: nat)
    requires n <= |ops|
    ensures |Run(ops[..n]).flights| <= |Run(ops).flights|
    decreases |ops| - n
  {
    hide Step;
    if n == |ops| {
      assert ops[..n] == ops;
    } else {
      Runs.Prefix(Step, INIT, ops, n);
      OneMoreFlight(Run(ops[..n]), ops[n]);
      FlightsStay(ops, n + 1);
    }
  }

  lemma OneMoreFlight(w: World, op: Op)
    ensures |w.flights| <= |Step(w, op).flights|
  {
  }

  /** Past its computation, an owner keeps the outcome it has. */
  lemma {:induction false} OutcomeStays(w: World, ops: seq<Op>, id: nat, f: nat, outcome: Outcome)
    requires id in w.callers && (w.callers[id] == Leaving(f, outcome) || w.callers[id] == Gone(f, outcome))
    ensures var after := Runs.Fold(Step, w, ops);
            id in after.callers && (after.callers[id] == Leaving(f, outcome) || after.callers[id] == Gone(f, outcome))
    decreases |ops|
  {
    if ops == [] {
    } else {
      OutcomeStays(Step(w, ops[0]), ops[1..], id, f, outcome);
    }
  }

  /**
    The owner of a flight finishes its computation, having not been cancelled. From then on, in every
    run, it ends with InvalidState if and only if a joiner of its flight was cancelled before, and with
    its own result otherwise.
   */
  lemma OwnerFailsIffJoinerCancelled(before: seq<Op>, id: nat, result: Result, after: seq<Op>)
    requires id in Run(before).callers && Run(before).callers[id].Computing?
    ensures var f := Run(before).callers[id].flight;
            var c := Run(before + [Finish(id, result)] + after).callers;
            id in c && (c[id].Leaving? || c[id].Gone?) && c[id].flight == f
            && c[id].outcome == if JoinerCancelled(before, f) then InvalidState else Got(result)
  {
    hide JoinerCancelled, Inv;
    Reachable(before);
    var w := Run(before);
    Actor(w, id);
    var f := w.callers[id].flight;
    DroppedIffJoinerCancelled(before, f);
    Runs.Snoc(Step, INIT, before, Finish(id, result));
    Runs.Concat(Step, INIT, before + [Finish(id, result)], after);
    var finished := Step(w, Finish(id, result));
    OutcomeStays(finished, after, id, f, finished.callers[id].outcome);
  }

  lemma Unroll(w: World, ops: seq<Op>)
    ensures Runs.Fold(Step, w, ops) == if ops == [] then w else Runs.Fold(Step, Step(w, ops[0]), ops[1..])
  {
  }
}
