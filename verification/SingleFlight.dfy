/** The Go implementation of single flight. There is no cancellation: Do waits for the function. */
module SingleFlight {
  import opened Prelude
  import opened Flights
  import Runs

  class Group {
    var m: map<string, nat>          // key to call, under the mutex
    var calls: seq<Flight>           // the calls ever made; `future` is val, err and the wait group
    var callers: map<nat, Caller>    // where each goroutine in Do stands
    ghost var trace: seq<Op>

    ghost function Now(): World
      reads this
    {
      World(m, calls, callers)
    }

    ghost predicate Valid()
      reads this
    {
      Now() == Run(trace) && Inv(Now()) && Undisturbed(Now())
    }

    constructor ()
      ensures Valid() && m == map[] && callers == map[]
    {
      m, calls, callers, trace := map[], [], map[], [];
      new;
      Reachable(trace);
    }

    ghost method Note(before: World, op: Op)
      requires before == Run(trace) && Inv(before) && Undisturbed(before) && !IsCancel(op)
      requires Now() == Step(before, op)
      modifies this`trace
      ensures Valid() && trace == old(trace) + [op] && Keeps(before, Now(), op.id)
    {
      hide Step, Inv, Run, Undisturbed, Keeps;
      RunSnoc(trace, op);
      StepKeepsInv(before, op);
      StepStaysUndisturbed(before, op);
      StepKeepsOthers(before, op);
      trace := trace + [op];
    }

    /** The first locked section: joins the call in the map or starts one. */
    method Begin(id: nat, key: string) returns (c: nat, mine: bool)
      requires Valid() && id !in callers
      modifies this
      ensures Valid() && trace == old(trace) + [Enter(id, key)] && Keeps(old(Now()), Now(), id)
      ensures id in callers && callers[id] == (if mine then Computing(c) else Joined(c))
      ensures c < |calls| && calls[c].key == key && (mine <==> key !in old(m))
      ensures !mine ==> c == old(m)[key] && m == old(m) && calls == old(calls)
      ensures mine ==> c == |old(calls)| && calls == old(calls) + [Flight(key, Pending, id)] && m == old(m)[key := c]
    {
      hide Inv, Run, Undisturbed, Keeps;
      ghost var before := Now();
      if key in m {
        c, mine := m[key], false;
        KeyLeads(before, key);
        callers := callers[id := Joined(c)];
      } else {
        c, mine := |calls|, true;
        calls := calls + [Flight(key, Pending, id)];
        m := m[key := c];
        callers := callers[id := Computing(c)];
      }
      Note(before, Enter(id, key));
    }

    /** The function has returned: val and err are set and the waiters released. */
    method Complete(id: nat, c: nat, result: Result)
      requires Valid() && id in callers && callers[id] == Computing(c)
      modifies this
      ensures Valid() && trace == old(trace) + [Finish(id, result)] && Keeps(old(Now()), Now(), id)
      ensures callers == old(callers)[id := Leaving(c, Got(result))] && m == old(m)
      ensures c < |old(calls)| && calls == old(calls)[c := old(calls)[c].(future := Settled(result))]
    {
      hide Inv, Run, Undisturbed, Keeps;
      ghost var before := Now();
      Positions(before, id);
      calls := calls[c := calls[c].(future := Settled(result))];
      callers := callers[id := Leaving(c, Got(result))];
      Note(before, Finish(id, result));
    }

    /** The second locked section; returns val and err. */
    method Remove(id: nat, key: string, c: nat) returns (result: Result)
      requires Valid() && id in callers && callers[id].Leaving? && callers[id].flight == c
      requires c < |calls| && calls[c].key == key
      modifies this
      ensures Valid() && trace == old(trace) + [Leave(id)] && Keeps(old(Now()), Now(), id)
      ensures id in callers && old(callers)[id].outcome == Got(result) && callers[id] == Gone(c, Got(result))
      ensures m == old(m) - {key} && calls == old(calls) && calls[c].future == Settled(result)
    {
      hide Inv, Run, Undisturbed, Keeps;
      ghost var before := Now();
      Positions(before, id);
      m := m - {key};
      match calls[c].future {
        case Settled(r) => result := r;
        case _ => assert false;
      }
      callers := callers[id := Gone(c, Got(result))];
      Note(before, Leave(id));
    }

    /** A joiner at the wait group: None while it is still blocked. */
    method Await(id: nat, c: nat) returns (result: Option<Result>)
      requires Valid() && id in callers && callers[id] == Joined(c)
      modifies this
      ensures Valid() && trace == old(trace) + [Wake(id)] && Keeps(old(Now()), Now(), id)
      ensures id in callers && callers[id] == if result.Some? then Gone(c, Got(result.value)) else Joined(c)
      ensures c < |calls| && calls == old(calls) && m == old(m)
      ensures calls[c].future == if result.Some? then Settled(result.value) else Pending
    {
      hide Inv, Run, Undisturbed, Keeps;
      ghost var before := Now();
      Positions(before, id);
      result := None;
      if calls[c].future.Settled? {
        result := Some(calls[c].future.result);
        callers := callers[id := Gone(c, Got(calls[c].future.result))];
      }
      Note(before, Wake(id));
    }

    /** A step of another goroutine, if it is one it can take. */
    method Others(op: Op)
      requires Valid()
      modifies this
      ensures Valid() && Keeps(old(Now()), Now(), op.id)
    {
      hide Inv, Run, Undisturbed;
      if op.id !in callers {
        if op.Enter? {
          var c, mine := Begin(op.id, op.key);
        }
        return;
      }
      Positions(Now(), op.id);
      var c := callers[op.id].flight;
      if op.Finish? && callers[op.id].Computing? {
        Complete(op.id, c, op.result);
      } else if op.Leave? && callers[op.id].Leaving? {
        var result := Remove(op.id, calls[c].key, c);
      } else if op.Wake? && callers[op.id].Joined? {
        var result := Await(op.id, c);
      }
    }

    method Gap(ops: seq<Op>, ghost me: nat)
      requires Valid() && me in callers && forall k :: 0 <= k < |ops| ==> ops[k].id != me
      modifies this
      ensures Valid() && me in callers && callers[me] == old(callers)[me]
      ensures |old(calls)| <= |calls| && forall c :: 0 <= c < |old(calls)| ==> calls[c].key == old(calls)[c].key
    {
      hide Inv, Run, Undisturbed;
      for i := 0 to |ops|
        invariant Valid() && me in callers && callers[me] == old(callers)[me]
        invariant |old(calls)| <= |calls| && forall c :: 0 <= c < |old(calls)| ==> calls[c].key == old(calls)[c].key
      {
        Others(ops[i]);
      }
    }

    /**
      Do. `computed` is what the function returns if it is called; other goroutines take the steps
      `during` meanwhile and `after` before the second locked section. None: still waiting.
     */
    method Do(id: nat, key: string, computed: Result, during: seq<Op>, after: seq<Op>) returns (r: Option<Result>)
      requires Valid() && id !in callers
      requires forall k :: 0 <= k < |during| ==> during[k].id != id
      requires forall k :: 0 <= k < |after| ==> after[k].id != id
      modifies this
      ensures Valid() && id in callers && callers[id].flight < |calls| && calls[callers[id].flight].key == key
      // the first caller gets its own result, a joiner that of the flight it joined
      ensures key !in old(m) ==> r == Some(computed)
      ensures r.Some? ==> callers[id] == Gone(callers[id].flight, Got(r.value))
                          && calls[callers[id].flight].future == Settled(r.value)
      // and whoever still waits does so for an owner that is at it
      ensures r.None? ==> callers[id].Joined? && calls[callers[id].flight].owner in callers
    {
      hide Inv, Run, Undisturbed, Step;
      var c, mine := Begin(id, key);
      Gap(during, id);
      if mine {
        Complete(id, c, computed);
        Gap(after, id);
        var result := Remove(id, key, c);
        r := Some(result);
      } else {
        r := Await(id, c);
      }
      Positions(Now(), id);
    }
  }

  /** What a step leaves alone. */
  ghost predicate Keeps(before: World, after: World, actor: nat) {
    && (forall id <- before.callers :: id != actor ==> id in after.callers && after.callers[id] == before.callers[id])
    && |before.flights| <= |after.flights|
    && (forall f :: 0 <= f < |before.flights| ==> after.flights[f].key == before.flights[f].key)
  }

  lemma StepKeepsOthers(w: World, op: Op)
    ensures Keeps(w, Step(w, op), op.id)
  {
  }

  lemma RunSnoc(trace: seq<Op>, op: Op)
    ensures Run(trace + [op]) == Step(Run(trace), op)
  {
    Runs.Snoc(Step, INIT, trace, op);
  }

  lemma KeyLeads(w: World, key: string)
    requires Inv(w) && key in w.table
    ensures w.table[key] < |w.flights| && w.flights[w.table[key]].key == key
  {
    assert KeyFits(w, key);
  }

  /** Where a caller stands says how its flight stands, when nothing is ever cancelled. */
  lemma Positions(w: World, id: nat)
    requires Inv(w) && Undisturbed(w) && id in w.callers
    ensures var c := w.callers[id];
            c.flight < |w.flights| && var flight := w.flights[c.flight];
            match c
            case Computing(_) => flight.future == Pending
            case Leaving(_, outcome) => outcome.Got? && flight.future == Settled(outcome.result)
            case Gone(_, outcome) => outcome.Got? && flight.future == Settled(outcome.result)
            case Joined(_) => !flight.future.Dropped? && flight.owner in w.callers
  {
    Actor(w, id);
    assert CallerFits(w, id);
    assert FlightFits(w, w.callers[id].flight);
  }
}
