/** The fan-out measured against the steps of a run alone, not against the records the state keeps. */
module FanoutRuns {
  import opened Wrappers
  import opened Watch
  import opened Fanout
  import opened FanoutInvariant
  import opened FanoutSteps
  import opened FanoutTheorems

  // ----- what the steps say -----

  predicate ClosedBy(steps: seq<Step>, i: nat)
    requires i <= |steps|
  {
    i > 0 && (steps[i - 1] == Manager(CloseBegin) || ClosedBy(steps, i - 1))
  }

  /** The events given to the publisher before the shutdown. */
  function PublishedBy(steps: seq<Step>, i: nat): seq<WatchEvent>
    requires i <= |steps|
  {
    if i == 0 then []
    else
      var st, front := steps[i - 1], PublishedBy(steps, i - 1);
      if st.Manager? && st.m.PublishBegin? && !ClosedBy(steps, i - 1) then front + [st.m.ev] else front
  }

  predicate Subscribes(st: Step) { st.Handler? && st.h.Subscribe? }

  function SubscribeCount(steps: seq<Step>, i: nat): nat
    requires i <= |steps|
  {
    if i == 0 then 0 else SubscribeCount(steps, i - 1) + if Subscribes(steps[i - 1]) then 1 else 0
  }

  /** Subscription `id` is the answer to step `j`: ids count the subscribe requests. */
  predicate BornAt(steps: seq<Step>, j: nat, id: SubId) {
    j < |steps| && Subscribes(steps[j]) && SubscribeCount(steps, j) + 1 == id
  }

  /** The steps that take a subscription out of the manager's map. */
  predicate Removes(st: Step, id: SubId) {
    || (st.Handler? && st.h.Unsubscribe? && st.h.target == id)
    || (st.Handler? && st.h.DrainOne? && st.h.sub == id)
    || st == Manager(CloseEnd)
  }

  predicate LiveAfter(steps: seq<Step>, i: nat, id: SubId)
    requires i <= |steps|
  {
    i > 0 &&
    if BornAt(steps, i - 1, id) then !ClosedBy(steps, i - 1)
    else LiveAfter(steps, i - 1, id) && !Removes(steps[i - 1], id)
  }

  /** The matching events published while the subscription was live. */
  function Seen(steps: seq<Step>, i: nat, id: SubId, filter: WatchFilter): seq<WatchEvent>
    requires i <= |steps|
  {
    if i == 0 then []
    else
      var st, front := steps[i - 1], Seen(steps, i - 1, id, filter);
      if st.Manager? && st.m.PublishBegin? && !ClosedBy(steps, i - 1) && LiveAfter(steps, i - 1, id)
         && Matches(filter, st.m.ev)
      then front + [st.m.ev] else front
  }

  // ----- the state agrees -----

  /** What one step does to the manager's flag, its history, its counter and its map. */
  ghost predicate ManagerMoves(s: State, st: Step, s': State) {
    && (s'.closed <==> s.closed || st == Manager(CloseBegin))
    && s'.published == s.published + (if st.Manager? && st.m.PublishBegin? && !s.closed then [st.m.ev] else [])
    && s'.nextID == s.nextID + (if Subscribes(st) then 1 else 0)
    && (forall id :: id in s'.live <==>
          if Subscribes(st) && id == s.nextID + 1 then !s.closed else id in s.live && !Removes(st, id))
  }

  lemma ManagerStepMoves(s: State, m: ManagerStep)
    requires ManagerEnabled(s, m)
    ensures ManagerMoves(s, Manager(m), ManagerApply(s, m))
  {
  }

  /** The handler steps that run one of the manager's operations. */
  predicate ManagerCall(h: HandlerStep) { h.Subscribe? || h.Unsubscribe? || h.DrainOne? }

  lemma CallStepMoves(s: State, c: ConnId, h: HandlerStep)
    requires c in s.conns && HandlerEnabled(s, s.conns[c], h) && ManagerCall(h)
    requires s.nextID + 1 !in s.live && (forall id :: id in s.live ==> id in s.subs)
    ensures ManagerMoves(s, Handler(c, h), HandlerApply(s, c, h))
  {
  }

  lemma HandlerStepMoves(s: State, c: ConnId, h: HandlerStep)
    requires c in s.conns && HandlerEnabled(s, s.conns[c], h) && !ManagerCall(h)
    requires s.nextID + 1 !in s.live
    ensures ManagerMoves(s, Handler(c, h), HandlerApply(s, c, h))
  {
  }

  lemma StreamerStepMoves(s: State, id: SubId, t: StreamerStep)
    requires Enabled(s, Stream(id, t))
    ensures ManagerMoves(s, Stream(id, t), StreamerApply(s, id, t))
  {
  }

  lemma LiveIds(s: State)
    requires Inv(s)
    ensures s.nextID + 1 !in s.live && (forall id :: id in s.live ==> id in s.subs)
  {
    forall id | id in s.live ensures id in s.subs && id <= s.nextID {
      assert LiveOk(s, id) && SubInv(s, id);
    }
  }

  lemma StepMoves(s: State, st: Step)
    requires Enabled(s, st)
    requires s.nextID + 1 !in s.live && (forall id :: id in s.live ==> id in s.subs)
    ensures ManagerMoves(s, st, Apply(s, st))
  {
    match st
    case Manager(m) => ManagerStepMoves(s, m);
    case Handler(c, h) =>
      if ManagerCall(h) { CallStepMoves(s, c, h); } else if !h.Accept? { HandlerStepMoves(s, c, h); }
    case Stream(id, t) => StreamerStepMoves(s, id, t);
  }

  lemma RunMoves(bufSize: int, states: seq<State>, steps: seq<Step>, i: nat)
    requires IsRun(bufSize, states, steps) && i < |steps|
    ensures ManagerMoves(states[i], steps[i], states[i + 1])
  {
    RunInv(bufSize, states, steps, i);
    LiveIds(states[i]);
    StepMoves(states[i], steps[i]);
  }

  lemma {:induction false} ClosedIff(bufSize: int, states: seq<State>, steps: seq<Step>, i: nat)
    requires IsRun(bufSize, states, steps) && i <= |steps|
    ensures states[i].closed <==> ClosedBy(steps, i)
  {
    if i > 0 {
      ClosedIff(bufSize, states, steps, i - 1);
      RunMoves(bufSize, states, steps, i - 1);
    }
  }

  /** Every event the publisher is given before the shutdown is published, in order, and no other. */
  lemma {:induction false} PublishedIsTrue(bufSize: int, states: seq<State>, steps: seq<Step>, i: nat)
    requires IsRun(bufSize, states, steps) && i <= |steps|
    ensures states[i].published == PublishedBy(steps, i)
  {
    if i > 0 {
      PublishedIsTrue(bufSize, states, steps, i - 1);
      ClosedIff(bufSize, states, steps, i - 1);
      RunMoves(bufSize, states, steps, i - 1);
    }
  }

  lemma {:induction false} NextIdCounts(bufSize: int, states: seq<State>, steps: seq<Step>, i: nat)
    requires IsRun(bufSize, states, steps) && i <= |steps|
    ensures states[i].nextID == SubscribeCount(steps, i)
  {
    if i > 0 {
      NextIdCounts(bufSize, states, steps, i - 1);
      RunMoves(bufSize, states, steps, i - 1);
    }
  }

  /** The manager's map holds what was subscribed before the shutdown and not removed since. */
  lemma {:induction false} LiveIff(bufSize: int, states: seq<State>, steps: seq<Step>, i: nat, id: SubId)
    requires IsRun(bufSize, states, steps) && i <= |steps|
    ensures id in states[i].live <==> LiveAfter(steps, i, id)
  {
    if i > 0 {
      LiveIff(bufSize, states, steps, i - 1, id);
      ClosedIff(bufSize, states, steps, i - 1);
      NextIdCounts(bufSize, states, steps, i - 1);
      RunMoves(bufSize, states, steps, i - 1);
    }
  }

  lemma {:induction false} CountGrows(steps: seq<Step>, i: nat, j: nat)
    requires i <= j <= |steps|
    ensures SubscribeCount(steps, i) <= SubscribeCount(steps, j)
    decreases j
  {
    if i < j { CountGrows(steps, i, j - 1); }
  }

  lemma BornOnce(steps: seq<Step>, i: nat, j: nat, id: SubId)
    requires BornAt(steps, i, id) && BornAt(steps, j, id)
    ensures i == j
  {
    if i < j { CountGrows(steps, i + 1, j); } else if j < i { CountGrows(steps, j + 1, i); }
  }

  // ----- a subscription is the one that was asked for -----

  /** What one step does to the subscriptions: it adds the requested one, and keeps owners and filters. */
  ghost predicate SubsMove(s: State, st: Step, s': State) {
    && (forall id :: id in s.subs ==>
          id in s'.subs && s'.subs[id].filter == s.subs[id].filter && s'.subs[id].owner == s.subs[id].owner)
    && (forall id :: id in s'.subs && id !in s.subs ==>
          && Subscribes(st) && id == s.nextID + 1
          && s'.subs[id].filter == st.h.filter && s'.subs[id].owner == st.conn)
  }

  lemma ManagerSubsMove(s: State, m: ManagerStep)
    requires ManagerEnabled(s, m)
    ensures SubsMove(s, Manager(m), ManagerApply(s, m))
  {
  }

  lemma CallSubsMove(s: State, c: ConnId, h: HandlerStep)
    requires c in s.conns && HandlerEnabled(s, s.conns[c], h) && s.nextID + 1 !in s.subs && ManagerCall(h)
    ensures SubsMove(s, Handler(c, h), HandlerApply(s, c, h))
  {
  }

  lemma HandlerSubsMove(s: State, c: ConnId, h: HandlerStep)
    requires c in s.conns && HandlerEnabled(s, s.conns[c], h) && !ManagerCall(h)
    ensures SubsMove(s, Handler(c, h), HandlerApply(s, c, h))
  {
  }

  lemma StreamerSubsMove(s: State, id: SubId, t: StreamerStep)
    requires Enabled(s, Stream(id, t))
    ensures SubsMove(s, Stream(id, t), StreamerApply(s, id, t))
  {
  }

  lemma RunSubsMove(bufSize: int, states: seq<State>, steps: seq<Step>, i: nat)
    requires IsRun(bufSize, states, steps) && i < |steps|
    ensures SubsMove(states[i], steps[i], states[i + 1])
  {
    var s, st := states[i], steps[i];
    RunInv(bufSize, states, steps, i);
    NextIdUnused(s);
    match st
    case Manager(m) => ManagerSubsMove(s, m);
    case Handler(c, h) =>
      if ManagerCall(h) { CallSubsMove(s, c, h); } else if !h.Accept? { HandlerSubsMove(s, c, h); }
    case Stream(id, t) => StreamerSubsMove(s, id, t);
  }

  /** A subscription has the filter and the owner of the request it answers. */
  lemma {:induction false} BirthOf(bufSize: int, states: seq<State>, steps: seq<Step>, i: nat, id: SubId)
    returns (j: nat)
    requires IsRun(bufSize, states, steps) && i <= |steps| && id in states[i].subs
    ensures j < i && BornAt(steps, j, id)
    ensures states[i].subs[id].filter == steps[j].h.filter && states[i].subs[id].owner == steps[j].conn
  {
    RunSubsMove(bufSize, states, steps, i - 1);
    NextIdCounts(bufSize, states, steps, i - 1);
    if id in states[i - 1].subs {
      j := BirthOf(bufSize, states, steps, i - 1, id);
    } else {
      j := i - 1;
    }
  }

  // ----- a subscription is offered what was published in its lifetime -----

  /** The event a walk under way has yet to put to this subscription. */
  function Pending(s: State, id: SubId): seq<WatchEvent>
    requires id in s.subs
  {
    if s.lock.Publishing? && id in s.lock.pending && Matches(s.subs[id].filter, s.lock.ev) then [s.lock.ev] else []
  }

  function EndOf(published: seq<WatchEvent>, died: Option<nat>): nat {
    if died.Some? then died.value else |published|
  }

  predicate LifeWithin(s: State, id: SubId) {
    id in s.subs && s.subs[id].born <= EndOf(s.published, s.subs[id].died) <= |s.published|
  }

  function Lifetime(s: State, id: SubId): seq<WatchEvent>
    requires LifeWithin(s, id)
  {
    Matching(s.subs[id].filter, s.published[s.subs[id].born..EndOf(s.published, s.subs[id].died)])
  }

  /** One more published event, seen from the birth of a subscription. */
  lemma MatchingGrows(f: WatchFilter, published: seq<WatchEvent>, born: nat)
    requires born < |published|
    ensures var last := |published| - 1;
      Matching(f, published[born..]) ==
      Matching(f, published[born..last]) + if Matches(f, published[last]) then [published[last]] else []
  {
    var last := |published| - 1;
    assert published[born..] == published[born..last] + [published[last]];
    MatchingAppend(f, published[born..last], published[last]);
  }

  /** The manager's view of one subscription, as far as its lifetime goes. */
  predicate LifeOk(s: State, id: SubId) {
    && id in s.subs && s.subs[id].born <= Horizon(s, id) <= |s.published|
    && (Open(s, id) <==> s.subs[id].died.None?)
  }

  lemma OfferedAndPending(s: State, id: SubId)
    requires LockOk(s) && LifeOk(s, id)
    ensures LifeWithin(s, id) && Lifetime(s, id) == Offered(s, id) + Pending(s, id)
  {
    if s.lock.Publishing? && id in s.lock.pending {
      assert Open(s, id);
      MatchingGrows(s.subs[id].filter, s.published, s.subs[id].born);
      assert s.published[s.subs[id].born..|s.published|] == s.published[s.subs[id].born..];
    }
  }

  /** A subscription's lifetime is fixed when it ends, and ends at the present. */
  predicate LifeMoves(s: State, s': State, id: SubId)
    requires id in s.subs
  {
    && id in s'.subs && s'.subs[id].born == s.subs[id].born && s'.subs[id].filter == s.subs[id].filter
    && (s.subs[id].died.Some? ==> s'.subs[id].died == s.subs[id].died)
    && (s.subs[id].died.None? && s'.subs[id].died.Some? ==>
          s'.subs[id].died == Some(|s.published|) && s'.published == s.published)
  }

  lemma ManagerLifeMoves(s: State, m: ManagerStep, id: SubId)
    requires ManagerEnabled(s, m) && LockOk(s) && id in s.subs && (Open(s, id) <==> s.subs[id].died.None?)
    ensures LifeMoves(s, ManagerApply(s, m), id)
  {
  }

  lemma HandlerLifeMoves(s: State, c: ConnId, h: HandlerStep, id: SubId)
    requires c in s.conns && HandlerEnabled(s, s.conns[c], h) && id in s.subs && id <= s.nextID
    requires Open(s, id) <==> s.subs[id].died.None?
    ensures LifeMoves(s, HandlerApply(s, c, h), id)
  {
  }

  lemma StreamerLifeMoves(s: State, sub: SubId, t: StreamerStep, id: SubId)
    requires Enabled(s, Stream(sub, t)) && id in s.subs
    ensures LifeMoves(s, StreamerApply(s, sub, t), id)
  {
  }

  lemma StepLifeMoves(s: State, st: Step, id: SubId)
    requires LockOk(s) && Enabled(s, st) && id in s.subs && id <= s.nextID
    requires Open(s, id) <==> s.subs[id].died.None?
    ensures LifeMoves(s, Apply(s, st), id)
  {
    match st
    case Manager(m) => ManagerLifeMoves(s, m, id);
    case Handler(c, h) => if !h.Accept? { HandlerLifeMoves(s, c, h, id); }
    case Stream(sub, t) => StreamerLifeMoves(s, sub, t, id);
  }

  /** The event a step publishes to a subscription that is live and wants it. */
  function Given(s: State, st: Step, id: SubId): seq<WatchEvent>
    requires id in s.subs
  {
    if st.Manager? && st.m.PublishBegin? && !s.closed && id in s.live && Matches(s.subs[id].filter, st.m.ev)
    then [st.m.ev] else []
  }

  lemma LifeSlice(f: WatchFilter, p: seq<WatchEvent>, ev: WatchEvent, born: nat, died: Option<nat>)
    requires born <= EndOf(p, died) <= |p|
    ensures born <= EndOf(p + [ev], died) <= |p| + 1
    ensures Matching(f, (p + [ev])[born..EndOf(p + [ev], died)]) ==
            Matching(f, p[born..EndOf(p, died)]) + if died.None? && Matches(f, ev) then [ev] else []
  {
    if died.Some? {
      assert (p + [ev])[born..died.value] == p[born..died.value];
    } else {
      assert (p + [ev])[born..|p| + 1] == p[born..|p|] + [ev];
      MatchingAppend(f, p[born..|p|], ev);
    }
  }

  lemma LifetimeGrows(s: State, st: Step, s': State, id: SubId)
    requires LifeWithin(s, id) && LifeMoves(s, s', id)
    requires st.Manager? && st.m.PublishBegin? ==> (id in s.live <==> s.subs[id].died.None?)
    requires s'.published == s.published + (if st.Manager? && st.m.PublishBegin? && !s.closed then [st.m.ev] else [])
    ensures LifeWithin(s', id) && Lifetime(s', id) == Lifetime(s, id) + Given(s, st, id)
  {
    if s'.published != s.published {
      LifeSlice(s.subs[id].filter, s.published, st.m.ev, s.subs[id].born, s.subs[id].died);
    }
  }

  lemma LifetimeStep(s: State, st: Step, s': State, id: SubId)
    requires LockOk(s) && LifeOk(s, id) && id <= s.nextID
    requires Enabled(s, st) && s' == Apply(s, st) && ManagerMoves(s, st, s')
    ensures LifeWithin(s, id) && LifeWithin(s', id) && Lifetime(s', id) == Lifetime(s, id) + Given(s, st, id)
    ensures s'.subs[id].filter == s.subs[id].filter
  {
    OfferedAndPending(s, id);
    StepLifeMoves(s, st, id);
    LifetimeGrows(s, st, s', id);
  }

  lemma RunLifetimeStep(bufSize: int, states: seq<State>, steps: seq<Step>, i: nat, id: SubId)
    requires IsRun(bufSize, states, steps) && i < |steps| && id in states[i].subs
    ensures LifeWithin(states[i], id) && LifeWithin(states[i + 1], id)
    ensures Lifetime(states[i + 1], id) == Lifetime(states[i], id) + Given(states[i], steps[i], id)
    ensures states[i + 1].subs[id].filter == states[i].subs[id].filter
  {
    RunMoves(bufSize, states, steps, i);
    RunInv(bufSize, states, steps, i);
    assert SubInv(states[i], id);
    LifetimeStep(states[i], steps[i], states[i + 1], id);
  }

  lemma RunGiven(bufSize: int, states: seq<State>, steps: seq<Step>, i: nat, id: SubId)
    requires IsRun(bufSize, states, steps) && i < |steps| && id in states[i].subs
    ensures var filter := states[i].subs[id].filter;
      Seen(steps, i + 1, id, filter) == Seen(steps, i, id, filter) + Given(states[i], steps[i], id)
  {
    LiveIff(bufSize, states, steps, i, id);
    ClosedIff(bufSize, states, steps, i);
  }

  lemma {:induction false} SeenNothing(bufSize: int, states: seq<State>, steps: seq<Step>, i: nat, id: SubId,
                                       filter: WatchFilter)
    requires IsRun(bufSize, states, steps) && i <= |steps| && id !in states[i].subs
    ensures Seen(steps, i, id, filter) == []
  {
    if i > 0 {
      RunSubsMove(bufSize, states, steps, i - 1);
      SeenNothing(bufSize, states, steps, i - 1, id, filter);
      LiveIff(bufSize, states, steps, i - 1, id);
      RunInv(bufSize, states, steps, i - 1);
      LiveIds(states[i - 1]);
    }
  }

  lemma BornEmpty(s: State, c: ConnId, h: HandlerStep)
    requires c in s.conns && HandlerEnabled(s, s.conns[c], h) && h.Subscribe?
    ensures var s' := HandlerApply(s, c, h); LifeWithin(s', s.nextID + 1) && Lifetime(s', s.nextID + 1) == []
  {
    var end := |s.published|;
    assert s.published[end..end] == [];
  }

  lemma {:induction false} LifetimeIsSeen(bufSize: int, states: seq<State>, steps: seq<Step>, i: nat, id: SubId)
    requires IsRun(bufSize, states, steps) && i <= |steps| && id in states[i].subs
    ensures LifeWithin(states[i], id)
    ensures Lifetime(states[i], id) == Seen(steps, i, id, states[i].subs[id].filter)
  {
    if id in states[i - 1].subs {
      LifetimeIsSeen(bufSize, states, steps, i - 1, id);
      RunLifetimeStep(bufSize, states, steps, i - 1, id);
      RunGiven(bufSize, states, steps, i - 1, id);
    } else {
      NewlySeen(bufSize, states, steps, i - 1, id);
    }
  }

  lemma NewlySeen(bufSize: int, states: seq<State>, steps: seq<Step>, i: nat, id: SubId)
    requires IsRun(bufSize, states, steps) && i < |steps| && id !in states[i].subs && id in states[i + 1].subs
    ensures LifeWithin(states[i + 1], id)
    ensures Lifetime(states[i + 1], id) == [] == Seen(steps, i + 1, id, states[i + 1].subs[id].filter)
  {
    RunSubsMove(bufSize, states, steps, i);
    BornEmpty(states[i], steps[i].conn, steps[i].h);
    SeenNothing(bufSize, states, steps, i, id, states[i + 1].subs[id].filter);
  }

  /**
    Conservation against the run. Take the events given to the publisher before the shutdown, while the
    subscription was in the manager's map, that its filter lets through. Each is on the wire as an update,
    held by the streamer, buffered, counted once as a drop, or, at the last, still to be put to it by the
    walk under way. Those that were not dropped stand on the wire, in the streamer's hand and in the buffer
    in the order they were given.
  */
  lemma ConservationOfRun(bufSize: int, states: seq<State>, steps: seq<Step>, i: nat, id: SubId)
    requires IsRun(bufSize, states, steps) && i <= |steps| && id in states[i].subs
    ensures SubAt(states[i], id)
    ensures var s, sub := states[i], states[i].subs[id];
      var seen, frames := Seen(steps, i, id, sub.filter), FramesOf(Wire(s, id), id);
      && |seen| ==
           |Updates(frames)| + |Held(sub.streamer)| + |sub.ch.buf|
           + sub.ch.dropped + LagTotal(frames) + HeldDrops(sub.streamer) + |Pending(s, id)|
      && |Pending(s, id)| <= 1
      && Pending(s, id) == seen[|seen| - |Pending(s, id)|..]
      && Subsequence(Updates(frames) + Held(sub.streamer) + sub.ch.buf, seen[..|seen| - |Pending(s, id)|])
  {
    var s := states[i];
    LifetimeIsSeen(bufSize, states, steps, i, id);
    RunInv(bufSize, states, steps, i);
    assert SubInv(s, id);
    OfferedAndPending(s, id);
  }

  lemma NothingLeft(s: State, id: SubId)
    requires LockOk(s) && SubInv(s, id)
    requires s.subs[id].streamer.Exited? && s.subs[id].streamer.reason.ChannelClosed?
    ensures var frames := FramesOf(Wire(s, id), id);
      |Offered(s, id)| == |Updates(frames)| + LagTotal(frames) && Subsequence(Updates(frames), Offered(s, id))
    ensures Pending(s, id) == []
  {
    assert ChannelOk(s.bufSize, s.subs[id], Open(s, id));
    assert ReportOk(s.bufSize, s.subs[id]);
    var frames := FramesOf(Wire(s, id), id);
    assert Updates(frames) + [] + [] == Updates(frames);
  }

  /** A stream that ended cleanly told the client of every event published while it was subscribed. */
  lemma CleanEndOfRun(bufSize: int, states: seq<State>, steps: seq<Step>, i: nat, id: SubId)
    requires IsRun(bufSize, states, steps) && i <= |steps| && id in states[i].subs
    requires states[i].subs[id].streamer.Exited? && states[i].subs[id].streamer.reason.ChannelClosed?
    ensures SubAt(states[i], id)
    ensures var frames := FramesOf(Wire(states[i], id), id);
      var seen := Seen(steps, i, id, states[i].subs[id].filter);
      |seen| == |Updates(frames)| + LagTotal(frames) && Subsequence(Updates(frames), seen)
  {
    var s := states[i];
    LifetimeIsSeen(bufSize, states, steps, i, id);
    assert LockOk(s) && SubInv(s, id) by { RunInv(bufSize, states, steps, i); }
    OfferedAndPending(s, id);
    NothingLeft(s, id);
    assert Offered(s, id) + [] == Offered(s, id);
  }

  // ----- an answer belongs to a request of the same connection -----

  /** What the handler is about to confirm, and whose reply it still owes. */
  function Asks(pc: ConnPc): Option<(nat, SubId)> {
    if pc.Adding? || pc.Confirming? then Some((pc.req, pc.sub)) else None
  }

  function Owes(pc: ConnPc): Option<nat> {
    if pc.Unsubscribing? || pc.Forgetting? || pc.Answering? then Some(pc.req) else None
  }

  /** What one step does to a connection's handler and adds to its wire. */
  predicate ConnMoves(nextID: nat, st: Step, c: ConnId, conn: Conn, conn': Conn) {
    && (Asks(conn'.pc) in {None, Asks(conn.pc)}
        || (Subscribes(st) && st.conn == c && Asks(conn'.pc) == Some((st.h.req, nextID + 1))))
    && (Owes(conn'.pc) in {None, Owes(conn.pc)}
        || (st.Handler? && st.conn == c && st.h.Unsubscribe? && Owes(conn'.pc) == Some(st.h.req)))
    && conn.wire <= conn'.wire && |conn'.wire| <= |conn.wire| + 1
    && (|conn'.wire| == |conn.wire| + 1 ==>
          var f := conn'.wire[|conn.wire|];
          && (f.Subscribed? ==> Asks(conn.pc) == Some((f.req, f.confirms)))
          && (f.Reply? ==> Owes(conn.pc) == Some(f.req) || st == Handler(c, HandlerReply(f.req, true))))
  }

  lemma CallConnMoves(s: State, c: ConnId, h: HandlerStep)
    requires c in s.conns && HandlerEnabled(s, s.conns[c], h) && ManagerCall(h)
    ensures var s' := HandlerApply(s, c, h);
      && c in s'.conns && ConnMoves(s.nextID, Handler(c, h), c, s.conns[c], s'.conns[c])
      && s'.conns == s.conns[c := s'.conns[c]]
  {
  }

  lemma HandlerConnMoves(s: State, c: ConnId, h: HandlerStep)
    requires c in s.conns && HandlerEnabled(s, s.conns[c], h) && !ManagerCall(h)
    ensures var s' := HandlerApply(s, c, h);
      && c in s'.conns && ConnMoves(s.nextID, Handler(c, h), c, s.conns[c], s'.conns[c])
      && s'.conns == s.conns[c := s'.conns[c]]
  {
  }

  lemma StreamerConnMoves(s: State, id: SubId, t: StreamerStep)
    requires Enabled(s, Stream(id, t))
    ensures var c, s' := s.subs[id].owner, StreamerApply(s, id, t);
      && c in s'.conns && ConnMoves(s.nextID, Stream(id, t), c, s.conns[c], s'.conns[c])
      && s'.conns == s.conns[c := s'.conns[c]]
  {
  }

  lemma StepConnMoves(s: State, st: Step, c: ConnId)
    requires Enabled(s, st) && c in Apply(s, st).conns
    ensures if c in s.conns then ConnMoves(s.nextID, st, c, s.conns[c], Apply(s, st).conns[c])
            else Apply(s, st).conns[c] == Conn(Greeting, {}, [], false, false)
  {
    match st
    case Manager(m) => assert Apply(s, st).conns == s.conns;
    case Handler(d, h) =>
      if ManagerCall(h) { CallConnMoves(s, d, h); } else if !h.Accept? { HandlerConnMoves(s, d, h); }
    case Stream(id, t) => StreamerConnMoves(s, id, t);
  }

  /** Step `j` is a subscribe request `req` on connection `c`, and `id` is the subscription it made. */
  predicate AskedAt(steps: seq<Step>, j: nat, c: ConnId, req: nat, id: SubId) {
    BornAt(steps, j, id) && steps[j].conn == c && steps[j].h.req == req
  }

  /** Step `j` takes up request `req` on connection `c`, or is the write of its reply by an RPC handler. */
  predicate RepliedAt(steps: seq<Step>, j: nat, c: ConnId, req: nat) {
    j < |steps| && steps[j].Handler? && steps[j].conn == c
    && ((steps[j].h.Unsubscribe? && steps[j].h.req == req) || steps[j].h == HandlerReply(req, true))
  }

  ghost predicate Asked(steps: seq<Step>, i: nat, c: ConnId, req: nat, id: SubId) {
    exists j: nat :: j < i && AskedAt(steps, j, c, req, id)
  }

  ghost predicate Replied(steps: seq<Step>, i: nat, c: ConnId, req: nat) {
    exists j: nat :: j < i && RepliedAt(steps, j, c, req)
  }

  ghost predicate HandlerAsked(steps: seq<Step>, i: nat, c: ConnId, pc: ConnPc) {
    && (Asks(pc).Some? ==> Asked(steps, i, c, Asks(pc).value.0, Asks(pc).value.1))
    && (Owes(pc).Some? ==> Replied(steps, i, c, Owes(pc).value))
  }

  ghost predicate FrameAsked(steps: seq<Step>, i: nat, c: ConnId, f: Frame) {
    && (f.Subscribed? ==> Asked(steps, i, c, f.req, f.confirms))
    && (f.Reply? ==> Replied(steps, i, c, f.req))
  }

  lemma AskedLater(steps: seq<Step>, i: nat, c: ConnId, pc: ConnPc)
    requires HandlerAsked(steps, i, c, pc)
    ensures HandlerAsked(steps, i + 1, c, pc)
  {
  }

  lemma FrameAskedLater(steps: seq<Step>, i: nat, c: ConnId, f: Frame)
    requires FrameAsked(steps, i, c, f)
    ensures FrameAsked(steps, i + 1, c, f)
  {
  }

  lemma HandlerAskedStep(steps: seq<Step>, i: nat, nextID: nat, c: ConnId, conn: Conn, conn': Conn)
    requires i < |steps| && nextID == SubscribeCount(steps, i)
    requires ConnMoves(nextID, steps[i], c, conn, conn') && HandlerAsked(steps, i, c, conn.pc)
    ensures HandlerAsked(steps, i + 1, c, conn'.pc)
  {
    AskedLater(steps, i, c, conn.pc);
    if Asks(conn'.pc).Some? && Asks(conn'.pc) != Asks(conn.pc) {
      assert AskedAt(steps, i, c, Asks(conn'.pc).value.0, Asks(conn'.pc).value.1);
    }
    if Owes(conn'.pc).Some? && Owes(conn'.pc) != Owes(conn.pc) {
      assert RepliedAt(steps, i, c, Owes(conn'.pc).value);
    }
  }

  lemma FrameAskedStep(steps: seq<Step>, i: nat, nextID: nat, c: ConnId, conn: Conn, conn': Conn)
    requires i < |steps| && ConnMoves(nextID, steps[i], c, conn, conn') && HandlerAsked(steps, i, c, conn.pc)
    requires |conn'.wire| == |conn.wire| + 1
    ensures FrameAsked(steps, i + 1, c, conn'.wire[|conn.wire|])
  {
    var f := conn'.wire[|conn.wire|];
    AskedLater(steps, i, c, conn.pc);
    if f.Reply? && Owes(conn.pc) != Some(f.req) { assert RepliedAt(steps, i, c, f.req); }
  }

  ghost predicate WireAsked(steps: seq<Step>, i: nat, c: ConnId, wire: seq<Frame>) {
    forall k :: 0 <= k < |wire| ==> FrameAsked(steps, i, c, wire[k])
  }

  lemma WireAskedStep(steps: seq<Step>, i: nat, nextID: nat, c: ConnId, conn: Conn, conn': Conn)
    requires i < |steps| && ConnMoves(nextID, steps[i], c, conn, conn') && HandlerAsked(steps, i, c, conn.pc)
    requires WireAsked(steps, i, c, conn.wire)
    ensures WireAsked(steps, i + 1, c, conn'.wire)
  {
    forall k | 0 <= k < |conn'.wire| ensures FrameAsked(steps, i + 1, c, conn'.wire[k]) {
      if k < |conn.wire| {
        FrameAskedLater(steps, i, c, conn.wire[k]);
      } else {
        FrameAskedStep(steps, i, nextID, c, conn, conn');
      }
    }
  }

  /**
    Every subscribe response on a connection's wire names a request of that connection and the subscription
    that request made; every other reply names a request the connection made.
  */
  lemma {:induction false} AnswersWereAsked(bufSize: int, states: seq<State>, steps: seq<Step>, i: nat, c: ConnId)
    requires IsRun(bufSize, states, steps) && i <= |steps| && c in states[i].conns
    ensures HandlerAsked(steps, i, c, states[i].conns[c].pc) && WireAsked(steps, i, c, states[i].conns[c].wire)
  {
    var s, s' := states[i - 1], states[i];
    StepConnMoves(s, steps[i - 1], c);
    if c in s.conns {
      AnswersWereAsked(bufSize, states, steps, i - 1, c);
      NextIdCounts(bufSize, states, steps, i - 1);
      HandlerAskedStep(steps, i - 1, s.nextID, c, s.conns[c], s'.conns[c]);
      WireAskedStep(steps, i - 1, s.nextID, c, s.conns[c], s'.conns[c]);
    }
  }

  // ----- whoever takes a subscription out of the map closes its channel -----

  /** The handler that removed the subscription stands right before the close. */
  predicate AboutToClose(conns: map<ConnId, Conn>, closer: Option<ConnId>, id: SubId) {
    closer.Some? && closer.value in conns
    && var pc := conns[closer.value].pc; (pc.Unsubscribing? || pc.DrainClosing?) && pc.sub == id
  }

  predicate CloseDue(s: State, id: SubId) {
    id in s.subs && (s.subs[id].died.Some? ==> s.subs[id].ch.closed || AboutToClose(s.conns, s.subs[id].closer, id))
  }

  lemma ManagerCloseDue(s: State, m: ManagerStep, id: SubId)
    requires ManagerEnabled(s, m) && CloseDue(s, id)
    ensures CloseDue(ManagerApply(s, m), id)
  {
  }

  lemma CallCloseDue(s: State, c: ConnId, h: HandlerStep, id: SubId)
    requires c in s.conns && HandlerEnabled(s, s.conns[c], h) && ManagerCall(h)
    requires id in s.subs ==> CloseDue(s, id)
    requires id in HandlerApply(s, c, h).subs
    ensures CloseDue(HandlerApply(s, c, h), id)
  {
  }

  lemma HandlerCloseDue(s: State, c: ConnId, h: HandlerStep, id: SubId)
    requires c in s.conns && HandlerEnabled(s, s.conns[c], h) && !ManagerCall(h) && CloseDue(s, id)
    ensures CloseDue(HandlerApply(s, c, h), id)
  {
  }

  lemma StreamerCloseDue(s: State, sub: SubId, t: StreamerStep, id: SubId)
    requires Enabled(s, Stream(sub, t)) && CloseDue(s, id)
    ensures CloseDue(StreamerApply(s, sub, t), id)
  {
  }

  /**
    A subscription that is no longer the manager's has a closed channel, unless the very handler that
    removed it stands between the removal and the close.
  */
  lemma {:induction false} RemovedIsClosed(bufSize: int, states: seq<State>, steps: seq<Step>, i: nat, id: SubId)
    requires IsRun(bufSize, states, steps) && i <= |steps| && id in states[i].subs
    ensures CloseDue(states[i], id)
  {
    var s, st := states[i - 1], steps[i - 1];
    RunSubsMove(bufSize, states, steps, i - 1);
    if id in s.subs { RemovedIsClosed(bufSize, states, steps, i - 1, id); }
    match st
    case Manager(m) => ManagerCloseDue(s, m, id);
    case Handler(c, h) =>
      if ManagerCall(h) { CallCloseDue(s, c, h, id); } else if !h.Accept? { HandlerCloseDue(s, c, h, id); }
    case Stream(sub, t) => StreamerCloseDue(s, sub, t, id);
  }
}
