/**
  The speech gateway's cache: entries with an age limit, a count limit and a byte limit, and single
  flight for entries that are being synthesised.

  Each section under the lock is one method; `now` is the clock in it. The steps of get_or_compute
  between the sections are the steps of the Flights state machine, cancellations included.
 */
module TtsCache {
  import opened Prelude
  import opened Flights
  import Runs

  datatype Entry = Entry(data: seq<int>, at: int, provider: string, voice: string)

  type Entries = map<string, Entry>

  // ---------- the byte counter ----------

  /** Any key of a non-empty table. */
  ghost function SomeKey(keys: set<string>): (key: string)
    requires keys != {}
    ensures key in keys
  {
    var key :| key in keys; key
  }

  ghost function TotalBytes(entries: Entries): nat
    decreases |entries.Keys|
  {
    if entries.Keys == {} then 0
    else
      var key := SomeKey(entries.Keys);
      |entries[key].data| + TotalBytes(entries - {key})
  }

  lemma {:induction false} TotalWithout(entries: Entries, key: string)
    requires key in entries
    ensures TotalBytes(entries) == |entries[key].data| + TotalBytes(entries - {key})
    decreases |entries.Keys|
  {
    var first := SomeKey(entries.Keys);
    if first == key {
    } else {
      TotalWithout(entries - {first}, key);
      TotalWithout(entries - {key}, first);
      assert entries - {first} - {key} == entries - {key} - {first};
    }
  }

  lemma TotalWith(entries: Entries, key: string, e: Entry)
    requires key !in entries
    ensures TotalBytes(entries[key := e]) == TotalBytes(entries) + |e.data|
  {
    TotalWithout(entries[key := e], key);
    assert entries[key := e] - {key} == entries;
  }

  // ---------- what a set does to the table ----------

  /** Whether another entry of `size` bytes fits beside the entries. */
  ghost predicate Fits(entries: Entries, size: nat, maxItems: int, maxBytes: int) {
    |entries.Keys| < maxItems && TotalBytes(entries) + size <= maxBytes
  }

  /** What is left of `before` when the oldest entries make way for `size` more bytes. */
  ghost predicate Trimmed(before: Entries, after: Entries, size: nat, maxItems: int, maxBytes: int) {
    && Within(after, before)
    && (after.Keys == {} || Fits(after, size, maxItems, maxBytes))
    && OldestGone(before, after)
    && (after != before ==> LastEvictionNeeded(before, after, size, maxItems, maxBytes))
  }

  ghost predicate Within(some: Entries, all: Entries) {
    forall key <- some :: key in all && all[key] == some[key]
  }

  ghost predicate OldestGone(before: Entries, after: Entries) {
    forall gone, kept :: gone in before && gone !in after && kept in after && kept in before ==>
      before[gone].at <= before[kept].at
  }

  /** The last entry evicted had to go: with it, the new entry would not have fitted. */
  ghost predicate LastEvictionNeeded(before: Entries, after: Entries, size: nat, maxItems: int, maxBytes: int) {
    exists key :: key in before && key !in after && !Fits(after[key := before[key]], size, maxItems, maxBytes)
  }

  lemma EvictionStep(before: Entries, mid: Entries, oldest: string, size: nat, maxItems: int, maxBytes: int)
    requires Within(mid, before) && OldestGone(before, mid)
    requires oldest in mid && forall key <- mid :: mid[oldest].at <= mid[key].at
    requires !Fits(mid, size, maxItems, maxBytes)
    ensures Within(mid - {oldest}, before) && OldestGone(before, mid - {oldest})
    ensures LastEvictionNeeded(before, mid - {oldest}, size, maxItems, maxBytes)
  {
    hide Fits;
    var after := mid - {oldest};
    assert after[oldest := before[oldest]] == mid;
  }

  // ---------- the class ----------

  class Cache {
    const maxItems: int
    const maxBytes: int
    const ttl: int
    var entries: Entries
    var currentBytes: int
    var inFlight: map<string, nat>
    var flights: seq<Flight>
    var callers: map<nat, Caller>   // where each request in get_or_compute stands
    ghost var trace: seq<Op>

    ghost function Now(): World
      reads this
    {
      World(inFlight, flights, callers)
    }

    /** The byte counter is right, the cache is within both limits, the flights are a run. */
    ghost predicate Valid()
      reads this
    {
      && currentBytes == TotalBytes(entries)
      && (entries.Keys != {} ==> currentBytes <= maxBytes)
      && (maxItems >= 1 ==> |entries.Keys| <= maxItems)
      && Now() == Run(trace) && Inv(Now())
    }

    constructor (maxItems: int, maxBytes: int, ttl: int)
      ensures Valid() && entries == map[] && trace == []
      ensures this.maxItems == maxItems && this.maxBytes == maxBytes && this.ttl == ttl
    {
      this.maxItems, this.maxBytes, this.ttl := maxItems, maxBytes, ttl;
      entries, currentBytes, inFlight, flights, callers, trace := map[], 0, map[], [], map[], [];
      new;
      Reachable(trace);
    }

    /** An entry within its time to live; one that is past it is dropped. */
    method Get(key: string, now: int) returns (found: Option<Entry>)
      requires Valid()
      modifies this`entries, this`currentBytes
      ensures Valid()
      ensures found.Some? <==> key in old(entries) && now - old(entries)[key].at <= ttl
      ensures found.Some? ==> found.value == old(entries)[key] && entries == old(entries)
      ensures found.None? ==> entries == old(entries) - {key}
    {
      hide Inv, Run, TotalBytes;
      if key in entries {
        var e := entries[key];
        if now - e.at <= ttl {
          return Some(e);
        }
        LimitsKept(entries, key);
        Drop(key);
      } else {
        assert entries - {key} == entries;
      }
      found := None;
    }

    /** Takes an entry out, if it is there. */
    method Drop(key: string)
      requires currentBytes == TotalBytes(entries)
      modifies this`entries, this`currentBytes
      ensures currentBytes == TotalBytes(entries) && entries == old(entries) - {key}
    {
      hide TotalBytes;
      if key in entries {
        TotalWithout(entries, key);
        currentBytes := currentBytes - |entries[key].data|;
        entries := entries - {key};
      } else {
        assert entries - {key} == entries;
      }
    }

    /** The key of an oldest entry. */
    method Oldest() returns (oldest: string)
      requires entries != map[]
      ensures oldest in entries && forall key <- entries :: entries[oldest].at <= entries[key].at
    {
      NotEmpty(entries);
      oldest :| oldest in entries.Keys;
      var todo := entries.Keys;
      while todo != {}
        invariant todo <= entries.Keys && oldest in entries
        invariant forall key <- entries :: key in todo || entries[oldest].at <= entries[key].at
        decreases |todo|
      {
        var key :| key in todo;
        if entries[key].at < entries[oldest].at {
          oldest := key;
        }
        todo := todo - {key};
      }
    }

    /** Evicts oldest entries until one more of `size` bytes fits, or none is left. */
    method Trim(size: nat)
      requires currentBytes == TotalBytes(entries)
      modifies this`entries, this`currentBytes
      ensures currentBytes == TotalBytes(entries)
      ensures Trimmed(old(entries), entries, size, maxItems, maxBytes)
      // nothing goes while there is room, and there is room afterwards
      ensures |old(entries).Keys| < maxItems && old(currentBytes) + size <= maxBytes ==> entries == old(entries)
      ensures entries.Keys != {} ==> |entries.Keys| < maxItems && currentBytes + size <= maxBytes
    {
      hide TotalBytes, Within, OldestGone, LastEvictionNeeded;
      ghost var before := entries;
      NothingEvicted(before);
      while entries.Keys != {} && (|entries.Keys| >= maxItems || currentBytes + size > maxBytes)
        invariant currentBytes == TotalBytes(entries)
        invariant Within(entries, before) && OldestGone(before, entries)
        invariant entries != before ==> LastEvictionNeeded(before, entries, size, maxItems, maxBytes)
        invariant |before.Keys| < maxItems && TotalBytes(before) + size <= maxBytes ==> entries == before
        decreases |entries.Keys|
      {
        var oldest := Oldest();
        EvictionStep(before, entries, oldest, size, maxItems, maxBytes);
        TotalWithout(entries, oldest);
        currentBytes := currentBytes - |entries[oldest].data|;
        assert (entries - {oldest}).Keys == entries.Keys - {oldest};
        entries := entries - {oldest};
      }
    }

    /** Stores an entry, unless it alone is over the byte limit. */
    method Set(key: string, data: seq<int>, provider: string, voice: string, now: int)
      requires Valid()
      modifies this`entries, this`currentBytes
      ensures Valid()
      ensures |data| > maxBytes ==> entries == old(entries)
      ensures |data| <= maxBytes ==>
                key in entries && entries[key] == Entry(data, now, provider, voice)
                && Trimmed(old(entries) - {key}, entries - {key}, |data|, maxItems, maxBytes)
      // nothing else goes while there is room for one more
      ensures |data| <= maxBytes && |(old(entries) - {key}).Keys| < maxItems
              && TotalBytes(old(entries) - {key}) + |data| <= maxBytes ==>
                entries == old(entries)[key := Entry(data, now, provider, voice)]
      // the count limit is kept exactly when there is room for one entry at all
      ensures |data| <= maxBytes ==> currentBytes <= maxBytes && (|entries.Keys| <= maxItems <==> maxItems >= 1)
    {
      hide TotalBytes, Inv, Run, Trimmed;
      var size := |data|;
      if size > maxBytes {
        return;
      }
      PutBack(entries, key, Entry(data, now, provider, voice));
      Drop(key);
      Trim(size);
      AfterTrim(old(entries) - {key}, entries, key, Entry(data, now, provider, voice), maxItems, maxBytes);
      entries := entries[key := Entry(data, now, provider, voice)];
      currentBytes := currentBytes + size;
    }

    ghost method Note(before: World, op: Op)
      requires before == Run(trace) && Inv(before) && Now() == Step(before, op)
      modifies this`trace
      ensures trace == old(trace) + [op] && Now() == Run(trace) && Inv(Now())
    {
      hide Step, Inv, Run;
      assert Run(trace + [op]) == Step(Run(trace), op) by { Snoc(trace, op); }
      StepKeepsInv(before, op);
      trace := trace + [op];
    }

    /** The second locked section of get_or_compute. */
    method Join(id: nat, key: string) returns (flight: nat, shouldCompute: bool)
      requires Valid() && id !in callers
      modifies this`inFlight, this`flights, this`callers, this`trace
      ensures Valid() && trace == old(trace) + [Enter(id, key)]
      ensures id in callers && callers[id] == (if shouldCompute then Computing(flight) else Joined(flight))
      ensures shouldCompute <==> key !in old(inFlight)
      ensures !shouldCompute ==> flight == old(inFlight)[key] && inFlight == old(inFlight) && flights == old(flights)
      ensures shouldCompute ==> && flight == |old(flights)| && flights == old(flights) + [Flight(key, Pending, id)]
                                && inFlight == old(inFlight)[key := flight]
    {
      hide Inv, Run, TotalBytes;
      ghost var before := Now();
      if key in inFlight {
        flight, shouldCompute := inFlight[key], false;
        callers := callers[id := Joined(flight)];
      } else {
        flight, shouldCompute := |flights|, true;
        flights := flights + [Flight(key, Pending, id)];
        inFlight := inFlight[key := flight];
        callers := callers[id := Computing(flight)];
      }
      Note(before, Enter(id, key));
    }

    /**
      The computation is over: what it made is stored and the future settled. A future that a joiner
      has cancelled refuses both a result and an exception; what was made is in the cache all the same.
     */
    method Computed(id: nat, flight: nat, key: string, result: Result, provider: string, voice: string, now: int)
      requires Valid() && id in callers && callers[id] == Computing(flight)
      modifies this`entries, this`currentBytes, this`flights, this`callers, this`trace
      ensures Valid() && trace == old(trace) + [Finish(id, result)]
      ensures id in callers && callers[id].Leaving? && callers[id].flight == flight
      ensures flight < |old(flights)| == |flights|
      // a future that a cancelled joiner has taken down cannot be settled any more
      ensures if old(flights)[flight].future == Pending
              then callers[id].outcome == Got(result) && flights[flight].future == Settled(result)
              else callers[id].outcome == InvalidState && flights == old(flights)
      ensures result.Value? && |result.value| <= maxBytes ==>
                key in entries && entries[key] == Entry(result.value, now, provider, voice)
      ensures result.Failure? || |result.value| > maxBytes ==> entries == old(entries)
    {
      hide Inv, Run, TotalBytes;
      if result.Value? {
        Set(key, result.value, provider, voice, now);
      }
      ghost var before := Now();
      InTheList(before, id);
      if flights[flight].future == Pending {
        flights := flights[flight := flights[flight].(future := Settled(result))];
        callers := callers[id := Leaving(flight, Got(result))];
      } else {
        callers := callers[id := Leaving(flight, InvalidState)];
      }
      Note(before, Finish(id, result));
    }

    /** The owner is cancelled while it computes: no exception handler settles the future. */
    method OwnerCancelled(id: nat, flight: nat)
      requires Valid() && id in callers && callers[id] == Computing(flight)
      modifies this`callers, this`trace
      ensures Valid() && trace == old(trace) + [CancelOwner(id)]
      ensures callers == old(callers)[id := Leaving(flight, WasCancelled)]
    {
      hide Inv, Run, TotalBytes;
      ghost var before := Now();
      InTheList(before, id);
      callers := callers[id := Leaving(flight, WasCancelled)];
      Note(before, CancelOwner(id));
    }

    /** The finally clause of the owner. */
    method Finally(id: nat, flight: nat, key: string)
      requires Valid() && id in callers && callers[id].Leaving? && callers[id].flight == flight
      requires flight < |flights| && flights[flight].key == key
      modifies this`inFlight, this`callers, this`trace
      ensures Valid() && trace == old(trace) + [Leave(id)]
      ensures inFlight == old(inFlight) - {key}
      ensures callers == old(callers)[id := Gone(flight, old(callers)[id].outcome)]
    {
      hide Inv, Run, TotalBytes;
      ghost var before := Now();
      inFlight := inFlight - {key};
      callers := callers[id := Gone(flight, callers[id].outcome)];
      Note(before, Leave(id));
    }

    /** A joiner at its await: it goes on once the future is done. */
    method AwaitFuture(id: nat, flight: nat) returns (done: bool)
      requires Valid() && id in callers && callers[id] == Joined(flight)
      modifies this`callers, this`trace
      ensures Valid() && trace == old(trace) + [Wake(id)]
      ensures id in callers && (done <==> callers[id].Gone?) && (!done ==> callers == old(callers))
      ensures flight < |flights| && (done <==> flights[flight].future != Pending)
      ensures flights[flight].future.Settled? ==>
                callers == old(callers)[id := Gone(flight, Got(flights[flight].future.result))]
      ensures flights[flight].future == Dropped ==> callers == old(callers)[id := Gone(flight, WasCancelled)]
    {
      hide Inv, Run, TotalBytes;
      ghost var before := Now();
      InTheList(before, id);
      done := true;
      match flights[flight].future {
        case Pending => done := false;
        case Settled(result) => callers := callers[id := Gone(flight, Got(result))];
        case Dropped => callers := callers[id := Gone(flight, WasCancelled)];
      }
      Note(before, Wake(id));
    }

    /** A joiner is cancelled at its await, and with it the future it awaits. */
    method JoinerCancelled(id: nat, flight: nat)
      requires Valid() && id in callers && callers[id] == Joined(flight)
      requires flight < |flights| && flights[flight].future == Pending
      modifies this`flights, this`callers, this`trace
      ensures Valid() && trace == old(trace) + [CancelJoiner(id)]
      ensures flights == old(flights)[flight := old(flights)[flight].(future := Dropped)]
      ensures callers == old(callers)[id := Gone(flight, WasCancelled)]
    {
      hide Inv, Run, TotalBytes;
      ghost var before := Now();
      flights := flights[flight := flights[flight].(future := Dropped)];
      callers := callers[id := Gone(flight, WasCancelled)];
      Note(before, CancelJoiner(id));
    }
  }

  lemma InTheList(w: World, id: nat)
    requires Inv(w) && id in w.callers
    ensures w.callers[id].flight < |w.flights|
  {
    Actor(w, id);
  }

  lemma Snoc(trace: seq<Op>, op: Op)
    ensures Run(trace + [op]) == Step(Run(trace), op)
  {
    Runs.Snoc(Step, INIT, trace, op);
  }

  lemma LimitsKept(entries: Entries, key: string)
    requires key in entries
    ensures TotalBytes(entries - {key}) <= TotalBytes(entries)
    ensures |(entries - {key}).Keys| < |entries.Keys|
  {
    TotalWithout(entries, key);
    assert (entries - {key}).Keys == entries.Keys - {key};
  }

  lemma NotEmpty(entries: Entries)
    requires entries != map[]
    ensures exists key :: key in entries.Keys
  {
  }

  lemma NothingEvicted(entries: Entries)
    ensures Within(entries, entries) && OldestGone(entries, entries)
  {
  }

  /** The new entry goes in. */
  lemma AfterTrim(before: Entries, trimmed: Entries, key: string, e: Entry, maxItems: int, maxBytes: int)
    requires key !in before && |e.data| <= maxBytes
    requires Trimmed(before, trimmed, |e.data|, maxItems, maxBytes)
    ensures var after := trimmed[key := e];
            TotalBytes(after) == TotalBytes(trimmed) + |e.data| <= maxBytes
            && after - {key} == trimmed
            && (|after.Keys| <= maxItems <==> maxItems >= 1)
  {
    hide TotalBytes, OldestGone, LastEvictionNeeded;
    assert key !in trimmed;
    TotalWith(trimmed, key, e);
    EmptyTotal(trimmed);
    assert trimmed[key := e].Keys == trimmed.Keys + {key};
  }

  lemma PutBack(entries: Entries, key: string, e: Entry)
    ensures (entries - {key})[key := e] == entries[key := e]
  {
  }

  lemma EmptyTotal(entries: Entries)
    ensures entries.Keys == {} ==> TotalBytes(entries) == 0
  {
  }
}
