/**
  The subscription manager and the per-connection id set as the objects the daemon updates in place. Each
  method is one uninterrupted run of its lock region; Fanout interleaves the same regions.
*/
module SubscriptionManagers {
  import opened Watch

  class Subscription {
    const id: nat
    const filter: WatchFilter
    const capacity: nat
    var buf: seq<WatchEvent>
    var closed: bool
    var dropped: nat

    /** The channel and the drop counter as one value. */
    function Chan(): Channel reads this { Channel(buf, closed, dropped) }

    constructor (id: nat, filter: WatchFilter, capacity: nat)
      ensures this.id == id && this.filter == filter && this.capacity == capacity
      ensures Chan() == Channel([], false, 0)
    {
      this.id, this.filter, this.capacity := id, filter, capacity;
      buf, closed, dropped := [], false, 0;
    }

    /** The non-blocking send. Sending on a closed channel panics, so the caller must know it is open. */
    method Send(ev: WatchEvent)
      requires !closed
      modifies this
      ensures Chan() == Offer(old(Chan()), capacity, ev)
    {
      if |buf| < capacity {
        buf := buf + [ev];
      } else {
        dropped := dropped + 1;
      }
    }

    /** Clears the drop counter and returns what it held. */
    method ResetDropped() returns (n: nat)
      modifies this
      ensures n == old(dropped) && Chan() == old(Chan()).(dropped := 0)
    {
      n := dropped;
      dropped := 0;
    }

    /** Idempotent: the once guard closes the channel the first time only. */
    method Close()
      modifies this
      ensures Chan() == old(Chan()).(closed := true)
    {
      if !closed {
        closed := true;
      }
    }
  }

  class SubscriptionManager {
    const bufSize: nat
    var nextID: nat
    var subs: map<nat, Subscription>
    var closed: bool

    ghost predicate Valid()
      reads this, subs.Values
    {
      && bufSize > 0
      && (closed ==> subs == map[])
      && (forall id :: id in subs ==>
            && 1 <= id <= nextID
            && subs[id].id == id
            && subs[id].capacity == bufSize
            && !subs[id].closed
            && |subs[id].buf| <= bufSize)
    }

    constructor (size: int)
      ensures Valid() && subs == map[] && !closed && nextID == 0
      ensures bufSize == if size <= 0 then 64 else size
    {
      bufSize := if size <= 0 then 64 else size;
      nextID, subs, closed := 0, map[], false;
    }

    method Subscribe(filter: WatchFilter) returns (sub: Subscription)
      requires Valid()
      modifies this
      ensures Valid() && fresh(sub) && closed == old(closed)
      ensures nextID == old(nextID) + 1 && sub.id == nextID && sub.id !in old(subs) && sub.filter == filter
      ensures sub.Chan() == Channel([], closed, 0)
      ensures subs == if closed then old(subs) else old(subs)[sub.id := sub]
    {
      nextID := nextID + 1;
      sub := new Subscription(nextID, filter, bufSize);
      if closed {
        sub.Close();
        return;
      }
      subs := subs[sub.id := sub];
    }

    /** Deletes under the lock and closes after it; nobody can reach the channel through the map in between. */
    method Unsubscribe(id: nat) returns (found: bool)
      requires Valid()
      modifies this, if id in subs then {subs[id]} else {}
      ensures Valid() && closed == old(closed) && nextID == old(nextID)
      ensures found == (id in old(subs))
      ensures subs == old(subs) - {id}
      ensures found ==> old(subs)[id].Chan() == old(subs[id].Chan()).(closed := true)
    {
      found := id in subs;
      if found {
        var sub := subs[id];
        subs := subs - {id};
        sub.Close();
      }
    }

    /** Whatever order the map is walked in, every matching subscription is offered the event exactly once. */
    method Publish(ev: WatchEvent)
      requires Valid()
      modifies subs.Values
      ensures Valid()
      ensures forall id :: id in subs ==>
                subs[id].Chan() == if Matches(subs[id].filter, ev) then Offer(old(subs[id].Chan()), bufSize, ev)
                                   else old(subs[id].Chan())
    {
      if closed {
        return;
      }
      Unshared();
      var pending := subs.Keys;
      while pending != {}
        invariant Valid() && pending <= subs.Keys
        invariant forall id :: id in pending ==> subs[id].Chan() == old(subs[id].Chan())
        invariant forall id :: id in subs && id !in pending ==>
                    subs[id].Chan() == if Matches(subs[id].filter, ev) then Offer(old(subs[id].Chan()), bufSize, ev)
                                       else old(subs[id].Chan())
        decreases pending
      {
        var id :| id in pending;
        pending := pending - {id};
        var sub := subs[id];
        var wanted := CheckMatches(sub.filter, ev);
        if wanted {
          sub.Send(ev);
        }
      }
    }

    method Close()
      requires Valid()
      modifies this, subs.Values
      ensures Valid() && closed && subs == map[] && nextID == old(nextID)
      ensures forall id :: id in old(subs) ==> old(subs)[id].Chan() == old(subs[id].Chan()).(closed := true)
    {
      if closed {
        return;
      }
      Unshared();
      closed := true;
      var pending := subs.Keys;
      while pending != {}
        invariant subs == old(subs) && closed && nextID == old(nextID) && pending <= subs.Keys
        invariant forall id :: id in subs ==>
                    subs[id].Chan() ==
                    if id in pending then old(subs[id].Chan()) else old(subs[id].Chan()).(closed := true)
        decreases pending
      {
        var id :| id in pending;
        pending := pending - {id};
        assert forall i :: i in subs && subs[i] == subs[id] ==> i == id;
        subs[id].Close();
      }
      subs := map[];
    }

    /** Different ids lead to different subscriptions. */
    lemma Unshared()
      requires Valid()
      ensures forall i, j :: i in subs && j in subs && subs[i] == subs[j] ==> i == j
    {
    }

    method Len() returns (n: nat)
      ensures n == |subs|
    {
      n := |subs|;
    }
  }

  lemma CancelledOneMore<T>(subs: map<nat, T>, ids: set<nat>, pending: set<nat>, id: nat)
    requires id in pending && pending <= ids
    ensures ids - (pending - {id}) == ids - pending + {id}
    ensures subs - (ids - pending) - {id} == subs - (ids - (pending - {id}))
  {
  }

  /** The ids one connection must cancel when it ends. */
  class ConnSubSet {
    var ids: set<nat>

    constructor ()
      ensures ids == {}
    {
      ids := {};
    }

    method Add(id: nat)
      modifies this
      ensures ids == old(ids) + {id}
    {
      ids := ids + {id};
    }

    method Remove(id: nat)
      modifies this
      ensures ids == old(ids) - {id}
    {
      ids := ids - {id};
    }

    /** Cancels exactly the ids of this set that are still live; stale ones are harmless. */
    method CloseAll(mgr: SubscriptionManager)
      requires mgr.Valid()
      modifies this, mgr, mgr.subs.Values
      ensures mgr.Valid() && ids == {} && mgr.closed == old(mgr.closed) && mgr.nextID == old(mgr.nextID)
      ensures mgr.subs == old(mgr.subs) - old(ids)
      ensures forall id :: id in old(mgr.subs) ==>
                old(mgr.subs)[id].Chan() ==
                if id in old(ids) then old(mgr.subs[id].Chan()).(closed := true) else old(mgr.subs[id].Chan())
    {
      var pending := ids;
      ids := {};
      ghost var subs := mgr.subs;
      mgr.Unshared();
      while pending != {}
        invariant mgr.Valid() && ids == {} && mgr.closed == old(mgr.closed) && mgr.nextID == old(mgr.nextID)
        invariant pending <= old(ids)
        invariant mgr.subs == old(mgr.subs) - (old(ids) - pending)
        invariant forall id :: id in old(mgr.subs) ==>
                    old(mgr.subs)[id].Chan() ==
                    if id in old(ids) - pending then old(mgr.subs[id].Chan()).(closed := true)
                    else old(mgr.subs[id].Chan())
        decreases pending
      {
        var id :| id in pending;
        CancelledOneMore(subs, old(ids), pending, id);
        pending := pending - {id};
        var _ := mgr.Unsubscribe(id);
      }
    }
  }
}
