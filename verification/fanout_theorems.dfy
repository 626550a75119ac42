/** What the fan-out guarantees in every reachable state, under every interleaving of its threads. */
module FanoutTheorems {
  import opened Watch
  import opened Fanout
  import opened FanoutInvariant
  import opened FanoutSteps

  ghost predicate Reachable(bufSize: int, s: State) {
    exists states, steps :: IsRun(bufSize, states, steps) && states[|steps|] == s
  }

  lemma {:induction false} RunInv(bufSize: int, states: seq<State>, steps: seq<Step>, i: nat)
    requires IsRun(bufSize, states, steps) && i <= |steps|
    ensures Inv(states[i]) && states[i].bufSize == Init(bufSize).bufSize
  {
    if i == 0 {
      InitInv(bufSize);
    } else {
      RunInv(bufSize, states, steps, i - 1);
      StepKeepsInv(states[i - 1], steps[i - 1]);
      StepKeepsSize(states[i - 1], steps[i - 1]);
    }
  }

  lemma StepKeepsSize(s: State, st: Step)
    requires Enabled(s, st)
    ensures Apply(s, st).bufSize == s.bufSize
  {
  }

  lemma ReachableInv(bufSize: int, s: State)
    requires Reachable(bufSize, s)
    ensures Inv(s) && s.bufSize == if bufSize <= 0 then 64 else bufSize
  {
    var states, steps :| IsRun(bufSize, states, steps) && states[|steps|] == s;
    RunInv(bufSize, states, steps, |steps|);
  }

  /**
    Conservation. Of the matching events published while the subscription was live, every one is on the
    wire as an update, held by the streamer, buffered, or counted exactly once as a drop: still pending on
    the counter, reported in a lag frame, or taken by the streamer and not yet written. The events that
    were not dropped keep their order, and the buffer stays within its size.
  */
  lemma Conservation(bufSize: int, s: State, id: SubId)
    requires Reachable(bufSize, s) && id in s.subs
    ensures SubAt(s, id)
    ensures s.subs[id].born <= Horizon(s, id) <= |s.published|
    ensures var sub, frames := s.subs[id], FramesOf(Wire(s, id), id);
      && |Offered(s, id)| ==
           |Updates(frames)| + |Held(sub.streamer)| + |sub.ch.buf|
           + sub.ch.dropped + LagTotal(frames) + HeldDrops(sub.streamer)
      && Subsequence(Updates(frames) + Held(sub.streamer) + sub.ch.buf, Offered(s, id))
      && |sub.ch.buf| <= s.bufSize
  {
    ReachableInv(bufSize, s);
    assert SubInv(s, id);
  }

  /** Where the events that were not dropped stand among all matching events: at rising positions. */
  lemma KeptInOrder(bufSize: int, s: State, id: SubId) returns (at: seq<nat>)
    requires Reachable(bufSize, s) && id in s.subs
    ensures SubAt(s, id) && s.subs[id].born <= Horizon(s, id) <= |s.published|
    ensures var kept := Updates(FramesOf(Wire(s, id), id)) + Held(s.subs[id].streamer) + s.subs[id].ch.buf;
      && |at| == |kept|
      && (forall i :: 0 <= i < |at| ==> at[i] < |Offered(s, id)| && Offered(s, id)[at[i]] == kept[i])
      && (forall i, j :: 0 <= i < j < |at| ==> at[i] < at[j])
  {
    Conservation(bufSize, s, id);
    at := SubsequencePositions(
      Updates(FramesOf(Wire(s, id), id)) + Held(s.subs[id].streamer) + s.subs[id].ch.buf, Offered(s, id));
  }

  /** The streamer waits with drops on the counter only when an event is there to wake it. */
  lemma DropsWakeTheStreamer(bufSize: int, s: State, id: SubId)
    requires Reachable(bufSize, s) && id in s.subs
    requires s.subs[id].streamer.Waiting? && s.subs[id].ch.dropped > 0
    ensures |s.subs[id].ch.buf| == s.bufSize > 0
    ensures Enabled(s, Stream(id, Receive))
  {
    ReachableInv(bufSize, s);
    assert SubInv(s, id);
  }

  /** A streamer that ended because its channel was closed and drained has told the client everything. */
  lemma CleanEndReportsAll(bufSize: int, s: State, id: SubId)
    requires Reachable(bufSize, s) && id in s.subs
    requires s.subs[id].streamer.Exited? && s.subs[id].streamer.reason.ChannelClosed?
    ensures SubAt(s, id) && s.subs[id].born <= Horizon(s, id) <= |s.published|
    ensures var frames := FramesOf(Wire(s, id), id);
      && |Offered(s, id)| == |Updates(frames)| + LagTotal(frames)
      && Subsequence(Updates(frames), Offered(s, id))
  {
    ReachableInv(bufSize, s);
    assert SubInv(s, id);
    var frames := FramesOf(Wire(s, id), id);
    assert Updates(frames) + [] + [] == Updates(frames);
  }

  /** No send meets a closed channel. */
  lemma NoSendOnClosed(bufSize: int, s: State, id: SubId)
    requires Reachable(bufSize, s) && Enabled(s, Manager(PublishVisit(id)))
    ensures !s.subs[id].ch.closed
  {
    ReachableInv(bufSize, s);
    assert SubInv(s, id);
  }

  /** The shutdown closes no channel that is closed already, even without the once guard. */
  lemma ShutdownClosesOnce(bufSize: int, s: State, id: SubId)
    requires Reachable(bufSize, s) && Enabled(s, Manager(CloseOne(id)))
    ensures !s.subs[id].ch.closed && s.subs[id].closeCalls == 0
  {
    ReachableInv(bufSize, s);
    assert SubInv(s, id);
  }

  /** A handler between its delete and its close holds a subscription that is still to be closed. */
  lemma ClosingHere(s: State, c: ConnId, id: SubId)
    requires c in s.conns && PcOk(s.subs, s.live, c, s.conns[c])
    requires s.conns[c].pc.Unsubscribing? || s.conns[c].pc.DrainClosing?
    requires id == s.conns[c].pc.sub
    ensures id in s.subs
    ensures SubInv(s, id) ==> !s.subs[id].ch.closed && s.subs[id].closeCalls == 0
  {
  }

  /** Nor does a handler, although its close runs after the lock is released. */
  lemma HandlerClosesOnce(bufSize: int, s: State, c: ConnId)
    requires Reachable(bufSize, s) && c in s.conns && (s.conns[c].pc.Unsubscribing? || s.conns[c].pc.DrainClosing?)
    ensures s.conns[c].pc.sub in s.subs
    ensures var sub := s.subs[s.conns[c].pc.sub]; !sub.ch.closed && sub.closeCalls == 0
  {
    var id := s.conns[c].pc.sub;
    assert PcOk(s.subs, s.live, c, s.conns[c]) && (id in s.subs ==> SubInv(s, id)) by {
      ReachableInv(bufSize, s);
      assert ConnOk(s.subs, s.live, c, s.conns[c]);
    }
    ClosingHere(s, c, id);
  }

  /** A closed manager holds nothing, and a later Subscribe is handed a channel that is already closed. */
  lemma ClosedManager(bufSize: int, s: State, c: ConnId, req: nat, filter: WatchFilter)
    requires Reachable(bufSize, s) && s.closed && s.lock.Free?
    requires c in s.conns && HandlerEnabled(s, s.conns[c], Subscribe(req, filter))
    ensures s.live == {}
    ensures var s' := HandlerApply(s, c, Subscribe(req, filter));
      && s'.live == {}
      && s'.conns[c].pc == Adding(req, s.nextID + 1)
      && s'.subs[s.nextID + 1].ch == Channel([], true, 0)
  {
    ReachableInv(bufSize, s);
  }

  /** Ids are never reused: a new subscription's id was never handed out before. */
  lemma FreshId(bufSize: int, s: State, c: ConnId, req: nat, filter: WatchFilter)
    requires Reachable(bufSize, s) && c in s.conns && HandlerEnabled(s, s.conns[c], Subscribe(req, filter))
    ensures var s' := HandlerApply(s, c, Subscribe(req, filter));
      && s'.conns[c].pc.Adding?
      && s'.conns[c].pc.sub !in s.subs
      && s'.subs.Keys == s.subs.Keys + {s'.conns[c].pc.sub}
  {
    ReachableInv(bufSize, s);
    NextIdUnused(s);
  }

  /** Every live subscription is tracked by exactly one connection, and that connection has not ended. */
  lemma OneOwner(bufSize: int, s: State, id: SubId)
    requires Reachable(bufSize, s) && id in s.live
    ensures SubAt(s, id) && !s.conns[s.subs[id].owner].pc.Ended?
    ensures forall c :: c in s.conns ==> (Tracks(s.conns[c], id) <==> c == s.subs[id].owner)
  {
    ReachableInv(bufSize, s);
    assert LiveOk(s, id);
    forall c | c in s.conns && Tracks(s.conns[c], id) ensures c == s.subs[id].owner {
      assert ConnOk(s.subs, s.live, c, s.conns[c]);
    }
    assert ConnOk(s.subs, s.live, s.subs[id].owner, s.conns[s.subs[id].owner]);
  }

  /** Once a connection has finished its clean-up, none of its subscriptions is live, stale ids or not. */
  lemma EndedOwnsNothingLive(bufSize: int, s: State, c: ConnId)
    requires Reachable(bufSize, s) && c in s.conns
    requires s.conns[c].pc.Cancelling? || s.conns[c].pc.Disconnecting? || s.conns[c].pc.Ended?
    ensures forall id :: id in s.live ==> id in s.subs && s.subs[id].owner != c
  {
    ReachableInv(bufSize, s);
    assert ConnOk(s.subs, s.live, c, s.conns[c]);
    forall id | id in s.live ensures id in s.subs && s.subs[id].owner != c {
      assert LiveOk(s, id);
    }
  }

  /** The steps of a connection's clean-up. */
  predicate CleanUp(h: HandlerStep) {
    h.Hangup? || h.DrainOne? || h.DrainClose? || h.FinishDrain? || h.Cancel? || h.CloseSocket?
  }

  /** Every other connection, and every subscription it owns, is exactly as it was. */
  predicate OthersUntouched(s: State, s': State, c: ConnId) {
    && (forall id :: id in s.subs && s.subs[id].owner != c ==>
          id in s'.subs && s'.subs[id] == s.subs[id] && (id in s'.live <==> id in s.live))
    && (forall d :: d in s.conns && d != c ==> d in s'.conns && s'.conns[d] == s.conns[d])
  }

  lemma CleanUpStep(s: State, c: ConnId, h: HandlerStep)
    requires c in s.conns && PcOk(s.subs, s.live, c, s.conns[c]) && CleanUp(h) && HandlerEnabled(s, s.conns[c], h)
    ensures OthersUntouched(s, HandlerApply(s, c, h), c)
  {
  }

  /** Cleaning up one connection leaves every other connection and its subscriptions alone. */
  lemma CleanUpIsPrivate(bufSize: int, s: State, c: ConnId, h: HandlerStep)
    requires Reachable(bufSize, s) && c in s.conns && CleanUp(h) && HandlerEnabled(s, s.conns[c], h)
    ensures OthersUntouched(s, HandlerApply(s, c, h), c)
  {
    ReachableInv(bufSize, s);
    assert ConnOk(s.subs, s.live, c, s.conns[c]);
    CleanUpStep(s, c, h);
  }

  /** The frame at `j` is a subscribe response for `id`. */
  predicate ConfirmsAt(wire: seq<Frame>, j: nat, id: SubId) {
    j < |wire| && wire[j].Subscribed? && wire[j].confirms == id
  }

  lemma {:induction false} ConfirmedSomewhere(wire: seq<Frame>, id: SubId) returns (i: nat)
    requires Confirmed(wire, id)
    ensures ConfirmsAt(wire, i, id)
  {
    var last := |wire| - 1;
    if ConfirmsAt(wire, last, id) {
      i := last;
    } else {
      i := ConfirmedSomewhere(wire[..last], id);
    }
  }

  lemma {:induction false} StreamFrameConfirmed(wire: seq<Frame>, j: nat) returns (i: nat)
    requires ConfirmedBefore(wire) && j < |wire| && StreamFrame(wire[j])
    ensures i < j && ConfirmsAt(wire, i, wire[j].sub)
  {
    var front := wire[..|wire| - 1];
    if j == |wire| - 1 {
      i := ConfirmedSomewhere(front, wire[j].sub);
    } else {
      i := StreamFrameConfirmed(front, j);
    }
  }

  /**
    Order on the wire. Hello is the first frame and the only one of its kind. Every update or lag frame
    belongs to a subscription of this connection whose subscribe response was written earlier.
  */
  lemma WireOrder(bufSize: int, s: State, c: ConnId)
    requires Reachable(bufSize, s) && c in s.conns
    ensures var wire := s.conns[c].wire;
      && (forall i :: 0 <= i < |wire| ==> (wire[i].Hello? <==> i == 0))
      && (forall j :: 0 <= j < |wire| && StreamFrame(wire[j]) ==>
            Owns(s.subs, c, wire[j].sub) && exists i: nat :: i < j && ConfirmsAt(wire, i, wire[j].sub))
  {
    ReachableInv(bufSize, s);
    var wire := s.conns[c].wire;
    assert HelloFirst(wire) && ConfirmedBefore(wire) && FramesOwned(s.subs, c, wire) by {
      assert ConnOk(s.subs, s.live, c, s.conns[c]);
    }
    forall j | 0 <= j < |wire| && StreamFrame(wire[j])
      ensures exists i: nat :: i < j && ConfirmsAt(wire, i, wire[j].sub)
    {
      var i := StreamFrameConfirmed(wire, j);
    }
  }

  /**
    Among a subscription's own frames every lag frame reports at least one drop and is followed at once by
    an update; it is the last frame only while that update is being written, or after a failed write.
  */
  lemma LagThenUpdate(bufSize: int, s: State, id: SubId)
    requires Reachable(bufSize, s) && id in s.subs
    ensures SubAt(s, id)
    ensures var frames := FramesOf(Wire(s, id), id);
      forall i :: 0 <= i < |frames| && frames[i].Lag? ==>
        && frames[i].count > 0
        && (if i + 1 < |frames| then frames[i + 1].Update?
            else
              s.subs[id].streamer.Updating?
              || (s.subs[id].streamer.Exited? && s.subs[id].streamer.reason.WriteFailed?))
  {
    ReachableInv(bufSize, s);
    assert SubInv(s, id);
  }
}
