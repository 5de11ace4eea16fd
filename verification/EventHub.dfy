/** Fan-out of journal hints to the open streams, over bounded channels that drop when full. */
module EventHub {
  import opened Journal

  const CAPACITY := 128

  /** A non-blocking send. */
  function Offer(channel: seq<Entry>, e: Entry): seq<Entry> {
    if |channel| < CAPACITY then channel + [e] else channel
  }

  /** The subscribers to which a publication is lost. */
  ghost function Full(subscribers: map<nat, seq<Entry>>): set<nat> {
    set id | id in subscribers && |subscribers[id]| >= CAPACITY
  }

  /** The channels after the subscribers in `done` have been offered the event. */
  ghost function Offered(subscribers: map<nat, seq<Entry>>, done: set<nat>, e: Entry): map<nat, seq<Entry>> {
    map id | id in subscribers :: if id in done then Offer(subscribers[id], e) else subscribers[id]
  }

  lemma OfferOneMore(subscribers: map<nat, seq<Entry>>, done: set<nat>, id: nat, e: Entry)
    requires id in subscribers && id !in done
    ensures id in Offered(subscribers, done, e) && Offered(subscribers, done, e)[id] == subscribers[id]
    ensures Offered(subscribers, done + {id}, e) == Offered(subscribers, done, e)[id := Offer(subscribers[id], e)]
    ensures |Full(subscribers) * (done + {id})|
         == |Full(subscribers) * done| + if |subscribers[id]| >= CAPACITY then 1 else 0
  {
    if |subscribers[id]| >= CAPACITY {
      assert Full(subscribers) * (done + {id}) == Full(subscribers) * done + {id};
    } else {
      assert Full(subscribers) * (done + {id}) == Full(subscribers) * done;
    }
  }

  class Hub {
    var subscribers: map<nat, seq<Entry>>
    var nextID: nat
    var dropped: nat

    ghost predicate Valid()
      reads this
    {
      forall id <- subscribers :: id <= nextID && |subscribers[id]| <= CAPACITY
    }

    constructor ()
      ensures Valid() && subscribers == map[]
    {
      subscribers, nextID, dropped := map[], 0, 0;
    }

    method Subscribe() returns (id: nat)
      requires Valid()
      modifies this
      ensures Valid() && id !in old(subscribers) && subscribers == old(subscribers)[id := []]
    {
      nextID := nextID + 1;
      id := nextID;
      subscribers := subscribers[id := []];
    }

    /** Cancelling twice is harmless. */
    method Cancel(id: nat)
      requires Valid()
      modifies this
      ensures Valid() && subscribers == old(subscribers) - {id}
    {
      if id in subscribers {
        subscribers := subscribers - {id};
      }
    }

    /** Every subscriber is offered the event once; the ones that are full are counted as dropped. */
    method Publish(e: Entry)
      requires Valid()
      modifies this`subscribers, this`dropped
      ensures Valid()
      ensures subscribers == Offered(old(subscribers), old(subscribers).Keys, e)
      ensures dropped == old(dropped) + |Full(old(subscribers))|
      ensures subscribers.Keys == old(subscribers).Keys
      ensures forall id <- subscribers ::
                var queue := old(subscribers)[id];
                subscribers[id] == if |queue| < 128 then queue + [e] else queue
    {
      hide Full, Offer, Offered;
      var todo := subscribers.Keys;
      ghost var done: set<nat> := {};
      NoneOffered(subscribers, e);
      while todo != {}
        invariant done + todo == old(subscribers).Keys && done !! todo
        invariant subscribers == Offered(old(subscribers), done, e)
        invariant dropped == old(dropped) + |Full(old(subscribers)) * done|
        decreases |todo|
      {
        var id :| id in todo;
        OfferOneMore(old(subscribers), done, id, e);
        SendTo(id, e);
        done, todo := done + {id}, todo - {id};
      }
      assert done == old(subscribers).Keys;
      FullAreSubscribers(old(subscribers));
      OfferedToAll(old(subscribers), e);
      StillBounded(old(subscribers), e);
    }

    /** `select { case ch <- e: default: dropped++ }` */
    method SendTo(id: nat, e: Entry)
      requires id in subscribers
      modifies this`subscribers, this`dropped
      ensures subscribers == old(subscribers)[id := Offer(old(subscribers)[id], e)]
      ensures if |old(subscribers)[id]| < 128
              then dropped == old(dropped) && subscribers == old(subscribers)[id := old(subscribers)[id] + [e]]
              else dropped == old(dropped) + 1 && subscribers == old(subscribers)
    {
      if |subscribers[id]| < CAPACITY {
        subscribers := subscribers[id := subscribers[id] + [e]];
      } else {
        dropped := dropped + 1;
      }
    }

    /** A receive on a channel that holds something. */
    method Receive(id: nat) returns (e: Entry)
      requires Valid() && id in subscribers && subscribers[id] != []
      modifies this`subscribers
      ensures Valid() && e == old(subscribers)[id][0]
      ensures subscribers == old(subscribers)[id := old(subscribers)[id][1..]]
    {
      e := subscribers[id][0];
      subscribers := subscribers[id := subscribers[id][1..]];
    }
  }

  lemma NoneOffered(subscribers: map<nat, seq<Entry>>, e: Entry)
    ensures Offered(subscribers, {}, e) == subscribers && Full(subscribers) * {} == {}
  {
  }

  lemma OfferedToAll(subscribers: map<nat, seq<Entry>>, e: Entry)
    ensures var after := Offered(subscribers, subscribers.Keys, e);
            && after.Keys == subscribers.Keys
            && forall id <- after ::
                 after[id] == if |subscribers[id]| < 128 then subscribers[id] + [e] else subscribers[id]
  {
  }

  lemma FullAreSubscribers(subscribers: map<nat, seq<Entry>>)
    ensures Full(subscribers) * subscribers.Keys == Full(subscribers)
  {
  }

  lemma StillBounded(subscribers: map<nat, seq<Entry>>, e: Entry)
    requires forall id <- subscribers :: |subscribers[id]| <= CAPACITY
    ensures var after := Offered(subscribers, subscribers.Keys, e); forall id <- after :: |after[id]| <= CAPACITY
  {
  }
}
