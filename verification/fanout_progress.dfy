/**
  What the daemon's operations come to when they are carried through: from every reachable state in which
  they may start, a run of steps is given that ends with the whole effect and disturbs nothing else.
*/
module FanoutProgress {
  import opened Wrappers
  import opened Watch
  import opened Fanout
  import opened FanoutInvariant
  import opened FanoutSteps
  import opened FanoutTheorems
  import opened Paths
  import opened Sequences

  // ----- carrying steps through -----

  function Next(s: State, st: Step): Option<State> { if Enabled(s, st) then Some(Apply(s, st)) else None }

  predicate Leads(s: State, st: Step, s': State) { Next(s, st) == Some(s') }

  // ----- a publication reaches every live subscription that wants it -----

  /** The channel of a subscription once the event has been put to it. */
  function Reached(bufSize: nat, sub: Sub, ev: WatchEvent): Channel {
    if Matches(sub.filter, ev) then Offer(sub.ch, bufSize, ev) else sub.ch
  }

  /** The same request and the same goroutine. */
  predicate SameStream(sub: Sub, sub': Sub) {
    sub'.owner == sub.owner && sub'.filter == sub.filter && sub'.streamer == sub.streamer
  }

  /** The event has been put to the subscriptions in `done`, and nothing else has changed but the lock. */
  predicate Put(s: State, s': State, done: set<SubId>, ev: WatchEvent) {
    && s' == s.(lock := s'.lock, subs := s'.subs)
    && s'.subs.Keys == s.subs.Keys
    && (forall id :: id in s.subs ==>
          && SameStream(s.subs[id], s'.subs[id])
          && s'.subs[id].ch == if id in done then Reached(s.bufSize, s.subs[id], ev) else s.subs[id].ch)
  }

  lemma VisitOne(s: State, id: SubId)
    requires ManagerEnabled(s, PublishVisit(id))
    ensures var s' := Apply(s, Manager(PublishVisit(id)));
      s'.lock == Publishing(s.lock.ev, s.lock.pending - {id}) && Put(s, s', {id}, s.lock.ev)
  {
  }

  lemma PutBoth(s: State, s1: State, s2: State, a: set<SubId>, b: set<SubId>, ev: WatchEvent)
    requires Put(s, s1, a, ev) && Put(s1, s2, b, ev) && a !! b
    ensures Put(s, s2, a + b, ev)
  {
  }

  lemma {:induction false} VisitAll(s: State) returns (steps: seq<Step>)
    requires s.lock.Publishing? && s.lock.pending <= s.subs.Keys
    ensures After(Next, s, steps).Some?
    ensures var s' := After(Next, s, steps).value;
      s'.lock == Publishing(s.lock.ev, {}) && Put(s, s', s.lock.pending, s.lock.ev)
    decreases |s.lock.pending|
  {
    var pending, ev := s.lock.pending, s.lock.ev;
    if pending == {} {
      steps := [];
    } else {
      var id :| id in pending;
      var st := Manager(PublishVisit(id));
      VisitOne(s, id);
      var s1 := Apply(s, st);
      var rest := VisitAll(s1);
      AfterOne(Next, s, st, rest);
      PutBoth(s, s1, After(Next, s1, rest).value, {id}, pending - {id}, ev);
      assert {id} + (pending - {id}) == pending;
      steps := [st] + rest;
    }
  }

  /** The walk ends, every live subscription has been reached, no other channel or connection has changed. */
  lemma PublishRound(bufSize: int, s: State, ev: WatchEvent) returns (steps: seq<Step>)
    requires Reachable(bufSize, s) && s.lock.Free? && !s.closed
    ensures After(Next, s, steps).Some?
    ensures var s' := After(Next, s, steps).value;
      && s'.lock.Free? && s'.published == s.published + [ev] && s'.live == s.live && s'.conns == s.conns
      && s'.subs.Keys == s.subs.Keys
      && (forall id :: id in s.subs ==>
            && SameStream(s.subs[id], s'.subs[id])
            && s'.subs[id].ch == if id in s.live then Reached(s.bufSize, s.subs[id], ev) else s.subs[id].ch)
  {
    ReachableInv(bufSize, s);
    NextIdUnused(s);
    assert forall id :: id in s.live ==> LiveOk(s, id);
    var first := Manager(PublishBegin(ev));
    var s1 := Apply(s, first);
    var visits := VisitAll(s1);
    AfterBoth(Next, s1, visits, [Manager(PublishEnd)]);
    AfterOne(Next, After(Next, s1, visits).value, Manager(PublishEnd), []);
    AfterOne(Next, s, first, visits + [Manager(PublishEnd)]);
    steps := [first] + (visits + [Manager(PublishEnd)]);
  }

  // ----- the shutdown closes every channel -----

  /** The channels of the subscriptions in `done` are closed, and nothing else has changed but the lock. */
  predicate Shut(s: State, s': State, done: set<SubId>) {
    && s' == s.(lock := s'.lock, subs := s'.subs)
    && s'.subs.Keys == s.subs.Keys
    && (forall id :: id in s.subs ==>
          && SameStream(s.subs[id], s'.subs[id])
          && s'.subs[id].ch == if id in done then s.subs[id].ch.(closed := true) else s.subs[id].ch)
  }

  lemma CloseOneMore(s: State, id: SubId)
    requires ManagerEnabled(s, CloseOne(id))
    ensures var s' := Apply(s, Manager(CloseOne(id)));
      s'.lock == Closing(s.lock.pending - {id}) && Shut(s, s', {id})
  {
  }

  lemma ShutBoth(s: State, s1: State, s2: State, a: set<SubId>, b: set<SubId>)
    requires Shut(s, s1, a) && Shut(s1, s2, b)
    ensures Shut(s, s2, a + b)
  {
  }

  lemma {:induction false} CloseAll(s: State) returns (steps: seq<Step>)
    requires s.lock.Closing? && s.lock.pending <= s.subs.Keys
    ensures After(Next, s, steps).Some?
    ensures var s' := After(Next, s, steps).value; s'.lock == Closing({}) && Shut(s, s', s.lock.pending)
    decreases |s.lock.pending|
  {
    var pending := s.lock.pending;
    if pending == {} {
      steps := [];
    } else {
      var id :| id in pending;
      var st := Manager(CloseOne(id));
      CloseOneMore(s, id);
      var s1 := Apply(s, st);
      var rest := CloseAll(s1);
      AfterOne(Next, s, st, rest);
      ShutBoth(s, s1, After(Next, s1, rest).value, {id}, pending - {id});
      assert {id} + (pending - {id}) == pending;
      steps := [st] + rest;
    }
  }

  /** A shutdown ends with an empty map and every live channel closed, what was buffered still in it. */
  lemma ShutdownRound(bufSize: int, s: State) returns (steps: seq<Step>)
    requires Reachable(bufSize, s) && s.lock.Free? && !s.closed
    ensures After(Next, s, steps).Some?
    ensures var s' := After(Next, s, steps).value;
      && s'.lock.Free? && s'.closed && s'.live == {} && s'.published == s.published && s'.conns == s.conns
      && s'.subs.Keys == s.subs.Keys
      && (forall id :: id in s.subs ==>
            && SameStream(s.subs[id], s'.subs[id])
            && s'.subs[id].ch == if id in s.live then s.subs[id].ch.(closed := true) else s.subs[id].ch)
  {
    ReachableInv(bufSize, s);
    assert forall id :: id in s.live ==> LiveOk(s, id);
    var first := Manager(CloseBegin);
    var s1 := Apply(s, first);
    var closes := CloseAll(s1);
    AfterBoth(Next, s1, closes, [Manager(CloseEnd)]);
    AfterOne(Next, After(Next, s1, closes).value, Manager(CloseEnd), []);
    AfterOne(Next, s, first, closes + [Manager(CloseEnd)]);
    steps := [first] + (closes + [Manager(CloseEnd)]);
  }

  // ----- a streamer tells its client what it has -----

  /** The frames for a buffer: the drops first, then every event in order. */
  function Report(id: SubId, buf: seq<WatchEvent>, dropped: nat): seq<Frame> {
    (if dropped > 0 then [Lag(id, dropped)] else []) + seq(|buf|, i requires 0 <= i < |buf| => Update(id, buf[i]))
  }

  /** The state after the streamer of `id` has written `frames` and left `buf` in the channel. */
  function Told(s: State, id: SubId, frames: seq<Frame>, buf: seq<WatchEvent>): State
    requires SubAt(s, id)
  {
    var sub := s.subs[id];
    var conn := s.conns[sub.owner];
    SetSub(SetConn(s, sub.owner, conn.(wire := conn.wire + frames)), id,
           sub.(ch := Channel(buf, sub.ch.closed, 0), taken := sub.taken + sub.ch.dropped, streamer := Waiting))
  }

  predicate CanTell(s: State, id: SubId) {
    SubAt(s, id) && s.subs[id].streamer.Waiting? && !s.conns[s.subs[id].owner].broken
  }

  /** One turn of the streamer's loop. */
  function TellOne(dropped: nat, id: SubId): seq<Step> {
    [Stream(id, Receive), Stream(id, ResetDropped)]
    + (if dropped > 0 then [Stream(id, WriteLag(true))] else []) + [Stream(id, WriteUpdate(true))]
  }

  /** The state once an event has been received and the counter taken. */
  function Took(s: State, id: SubId): State
    requires CanTell(s, id) && s.subs[id].ch.buf != []
  {
    var sub := s.subs[id];
    var n, ev := sub.ch.dropped, sub.ch.buf[0];
    SetSub(s, id, sub.(ch := Channel(sub.ch.buf[1..], sub.ch.closed, 0), taken := sub.taken + n,
                       streamer := if n > 0 then Lagging(n, ev) else Updating(ev)))
  }

  lemma Took2(s: State, id: SubId)
    requires CanTell(s, id) && s.subs[id].ch.buf != []
    ensures var s1 := DoReceive(s, id);
      Leads(s, Stream(id, Receive), s1) && Leads(s1, Stream(id, ResetDropped), Took(s, id))
  {
    var s1 := DoReceive(s, id);
    SameKey(s.subs, id, s1.subs[id], Took(s, id).subs[id]);
  }

  /** The state the turn ends in. */
  function ToldOne(s: State, id: SubId): State
    requires CanTell(s, id) && s.subs[id].ch.buf != []
  {
    var ch := s.subs[id].ch;
    Told(s, id, Report(id, ch.buf[..1], ch.dropped), ch.buf[1..])
  }

  lemma OneReport(id: SubId, buf: seq<WatchEvent>, dropped: nat)
    requires buf != []
    ensures Report(id, buf[..1], dropped) == (if dropped > 0 then [Lag(id, dropped)] else []) + [Update(id, buf[0])]
  {
  }

  /** With nothing dropped, the update is written at once. */
  lemma WroteUpdate(s: State, id: SubId)
    requires CanTell(s, id) && s.subs[id].ch.buf != [] && s.subs[id].ch.dropped == 0
    ensures Leads(Took(s, id), Stream(id, WriteUpdate(true)), ToldOne(s, id))
  {
    OneReport(id, s.subs[id].ch.buf, 0);
    SameKey(s.subs, id, Took(s, id).subs[id], ToldOne(s, id).subs[id]);
    assert [] + [Update(id, s.subs[id].ch.buf[0])] == [Update(id, s.subs[id].ch.buf[0])];
  }

  /** Otherwise the drops are written first. */
  lemma WroteLag(s: State, id: SubId)
    requires CanTell(s, id) && s.subs[id].ch.buf != [] && s.subs[id].ch.dropped > 0
    ensures var s2 := Took(s, id);
      Enabled(s2, Stream(id, WriteLag(true)))
      && Leads(DoWriteLag(s2, id, true), Stream(id, WriteUpdate(true)), ToldOne(s, id))
  {
    var s2 := Took(s, id);
    var s3 := DoWriteLag(s2, id, true);
    var owner, n, ev := s.subs[id].owner, s.subs[id].ch.dropped, s.subs[id].ch.buf[0];
    OneReport(id, s.subs[id].ch.buf, n);
    SameKey(s.subs, id, s2.subs[id], s3.subs[id]);
    SameKey(s.subs, id, s3.subs[id], ToldOne(s, id).subs[id]);
    SameKey(s.conns, owner, s3.conns[owner], ToldOne(s, id).conns[owner]);
    assert (s.conns[owner].wire + [Lag(id, n)]) + [Update(id, ev)]
        == s.conns[owner].wire + ([Lag(id, n)] + [Update(id, ev)]);
  }

  lemma ReportSplits(id: SubId, buf: seq<WatchEvent>, dropped: nat)
    requires buf != []
    ensures Report(id, buf[..1], dropped) + Report(id, buf[1..], 0) == Report(id, buf, dropped)
  {
  }

  lemma ToldTwice(s: State, id: SubId, first: seq<Frame>, buf: seq<WatchEvent>, second: seq<Frame>)
    requires SubAt(s, id)
    ensures Told(Told(s, id, first, buf), id, second, []) == Told(s, id, first + second, [])
  {
    var owner := s.subs[id].owner;
    assert (s.conns[owner].wire + first) + second == s.conns[owner].wire + (first + second);
    var s1 := Told(s, id, first, buf);
    SameKey(s.subs, id, s1.subs[id], Told(s1, id, second, []).subs[id]);
    SameKey(s.conns, owner, s1.conns[owner], Told(s1, id, second, []).conns[owner]);
  }

  lemma NothingToTell(s: State, id: SubId)
    requires CanTell(s, id) && s.subs[id].ch.buf == [] && s.subs[id].ch.dropped == 0
    ensures Told(s, id, Report(id, [], 0), []) == s
  {
    assert Report(id, [], 0) == [];
    assert s.conns[s.subs[id].owner].wire + [] == s.conns[s.subs[id].owner].wire;
    assert s.conns[s.subs[id].owner := s.conns[s.subs[id].owner]] == s.conns;
    assert s.subs[id := s.subs[id]] == s.subs;
  }

  lemma {:induction false} TellAll(s: State, id: SubId) returns (steps: seq<Step>)
    requires CanTell(s, id) && (s.subs[id].ch.buf == [] ==> s.subs[id].ch.dropped == 0)
    ensures After(Next, s, steps) == Some(Told(s, id, Report(id, s.subs[id].ch.buf, s.subs[id].ch.dropped), []))
    decreases |s.subs[id].ch.buf|
  {
    var buf, n := s.subs[id].ch.buf, s.subs[id].ch.dropped;
    if buf == [] {
      steps := [];
      NothingToTell(s, id);
    } else {
      var turn := TellOne(n, id);
      if n > 0 { TurnWithLag(s, id); } else { TurnWithoutLag(s, id); }
      var rest := TellAll(ToldOne(s, id), id);
      AfterBoth(Next, s, turn, rest);
      ReportSplits(id, buf, n);
      ToldTwice(s, id, Report(id, buf[..1], n), buf[1..], Report(id, buf[1..], 0));
      steps := turn + rest;
    }
  }

  lemma TurnWithLag(s: State, id: SubId)
    requires CanTell(s, id) && s.subs[id].ch.buf != [] && s.subs[id].ch.dropped > 0
    ensures After(Next, s, TellOne(s.subs[id].ch.dropped, id)) == Some(ToldOne(s, id))
  {
    var s1, s2 := DoReceive(s, id), Took(s, id);
    var receive, reset, lag, update :=
      Stream(id, Receive), Stream(id, ResetDropped), Stream(id, WriteLag(true)), Stream(id, WriteUpdate(true));
    Took2(s, id);
    WroteLag(s, id);
    Chain4(Next, s, receive, s1, reset, s2, lag, DoWriteLag(s2, id, true), update, ToldOne(s, id));
    assert TellOne(s.subs[id].ch.dropped, id) == [receive, reset, lag, update];
  }

  lemma TurnWithoutLag(s: State, id: SubId)
    requires CanTell(s, id) && s.subs[id].ch.buf != [] && s.subs[id].ch.dropped == 0
    ensures After(Next, s, TellOne(0, id)) == Some(ToldOne(s, id))
  {
    var receive, reset, update := Stream(id, Receive), Stream(id, ResetDropped), Stream(id, WriteUpdate(true));
    Took2(s, id);
    WroteUpdate(s, id);
    Chain3(Next, s, receive, DoReceive(s, id), reset, Took(s, id), update, ToldOne(s, id));
    assert TellOne(0, id) == [receive, reset, update];
  }

  /**
    A waiting streamer on a working connection empties its buffer by its own steps: the client reads the
    number of drops, if there are any, and then every buffered event in order.
  */
  lemma StreamerCatchesUp(bufSize: int, s: State, id: SubId) returns (steps: seq<Step>)
    requires Reachable(bufSize, s) && id in s.subs && s.subs[id].streamer.Waiting?
    requires s.subs[id].owner in s.conns ==> !s.conns[s.subs[id].owner].broken
    ensures SubAt(s, id)
    ensures After(Next, s, steps).Some?
    ensures var sub, s' := s.subs[id], After(Next, s, steps).value;
      && SubAt(s', id) && sub.owner in s'.conns
      && s'.conns[sub.owner] ==
           s.conns[sub.owner].(wire := s.conns[sub.owner].wire + Report(id, sub.ch.buf, sub.ch.dropped))
      && s'.subs[id].ch == Channel([], sub.ch.closed, 0) && s'.subs[id].streamer.Waiting?
      && s' == s.(conns := s'.conns, subs := s'.subs)
      && s'.conns == s.conns[sub.owner := s'.conns[sub.owner]] && s'.subs == s.subs[id := s'.subs[id]]
  {
    ReachableInv(bufSize, s);
    assert SubInv(s, id);
    steps := TellAll(s, id);
  }

  /**
    From the publisher to the client: an event that a live subscription wants is published, and its waiting
    streamer writes it behind everything buffered before, or counts it into the drops it reports.
  */
  lemma EventReachesClient(bufSize: int, s: State, ev: WatchEvent, id: SubId) returns (steps: seq<Step>)
    requires Reachable(bufSize, s) && s.lock.Free? && !s.closed
    requires id in s.live && id in s.subs && Matches(s.subs[id].filter, ev) && s.subs[id].streamer.Waiting?
    requires s.subs[id].owner in s.conns ==> !s.conns[s.subs[id].owner].broken
    ensures SubAt(s, id)
    ensures After(Next, s, steps).Some?
    ensures var ch, owner, s' := s.subs[id].ch, s.subs[id].owner, After(Next, s, steps).value;
      && owner in s'.conns
      && s'.conns[owner].wire == s.conns[owner].wire +
           if |ch.buf| < s.bufSize then Report(id, ch.buf + [ev], ch.dropped) else Report(id, ch.buf, ch.dropped + 1)
  {
    BufferFits(bufSize, s, id);
    var publication := PublishRound(bufSize, s, ev);
    var s1 := After(Next, s, publication).value;
    ReachedReport(s.bufSize, s.subs[id], s1.subs[id], id, ev);
    var turns := TellWire(s1, id);
    AfterBoth(Next, s, publication, turns);
    steps := publication + turns;
  }

  /** What the streamer will report once the event has been put to its subscription. */
  lemma ReachedReport(bufSize: nat, sub: Sub, sub': Sub, id: SubId, ev: WatchEvent)
    requires 0 < bufSize && |sub.ch.buf| <= bufSize && Matches(sub.filter, ev)
    requires sub'.ch == Reached(bufSize, sub, ev)
    ensures sub'.ch.buf != []
    ensures Report(id, sub'.ch.buf, sub'.ch.dropped) ==
            if |sub.ch.buf| < bufSize then Report(id, sub.ch.buf + [ev], sub.ch.dropped)
            else Report(id, sub.ch.buf, sub.ch.dropped + 1)
  {
  }

  lemma BufferFits(bufSize: int, s: State, id: SubId)
    requires Reachable(bufSize, s) && id in s.subs
    ensures SubAt(s, id) && |s.subs[id].ch.buf| <= s.bufSize && s.bufSize > 0
  {
    ReachableInv(bufSize, s);
    assert SubInv(s, id);
  }

  lemma TellWire(s: State, id: SubId) returns (steps: seq<Step>)
    requires CanTell(s, id) && s.subs[id].ch.buf != []
    ensures After(Next, s, steps).Some? && s.subs[id].owner in After(Next, s, steps).value.conns
    ensures var owner := s.subs[id].owner;
      After(Next, s, steps).value.conns[owner].wire ==
      s.conns[owner].wire + Report(id, s.subs[id].ch.buf, s.subs[id].ch.dropped)
  {
    steps := TellAll(s, id);
  }

  /** Once the channel is closed, a waiting streamer on a working connection tells all and ends cleanly. */
  lemma StreamerEnds(bufSize: int, s: State, id: SubId) returns (steps: seq<Step>)
    requires Reachable(bufSize, s) && id in s.subs && s.subs[id].streamer.Waiting? && s.subs[id].ch.closed
    requires s.subs[id].owner in s.conns ==> !s.conns[s.subs[id].owner].broken
    ensures SubAt(s, id)
    ensures After(Next, s, steps).Some?
    ensures var sub, s' := s.subs[id], After(Next, s, steps).value;
      && SubAt(s', id) && sub.owner in s'.conns
      && s'.conns[sub.owner].wire == s.conns[sub.owner].wire + Report(id, sub.ch.buf, sub.ch.dropped)
      && s'.subs[id].streamer == Exited(ChannelClosed, [], 0)
  {
    var telling := StreamerCatchesUp(bufSize, s, id);
    var s1 := After(Next, s, telling).value;
    AfterOne(Next, s1, Stream(id, SeeClosed), []);
    AfterBoth(Next, s, telling, [Stream(id, SeeClosed)]);
    steps := telling + [Stream(id, SeeClosed)];
  }

  /** A cancelled connection ends its waiting streamers, whatever their buffers hold. */
  lemma CancelEndsStreamer(s: State, c: ConnId, id: SubId)
    requires c in s.conns && id in s.subs && s.subs[id].owner == c && s.subs[id].streamer.Waiting?
    ensures After(Next, s, [Handler(c, CancelContext), Stream(id, SeeContext)])
         == Some(SetSub(SetConn(s, c, s.conns[c].(ctxDone := true)), id,
                        s.subs[id].(streamer := Exited(ContextDone, [], 0))))
  {
    var s1 := SetConn(s, c, s.conns[c].(ctxDone := true));
    Chain2(Next, s, Handler(c, CancelContext), s1, Stream(id, SeeContext),
           SetSub(s1, id, s.subs[id].(streamer := Exited(ContextDone, [], 0))));
  }

  // ----- what a client asks for, it gets -----

  /** A handler step that changes its own connection only. */
  predicate Turns(s: State, c: ConnId, conn: Conn, h: HandlerStep, conn': Conn)
    requires c in s.conns
  {
    Leads(SetConn(s, c, conn), Handler(c, h), SetConn(s, c, conn'))
  }

  lemma ForgetTurn(s: State, c: ConnId, conn: Conn)
    requires c in s.conns && conn.pc.Forgetting?
    ensures Turns(s, c, conn, ForgetId, conn.(ids := conn.ids - {conn.pc.sub}, pc := Answering(conn.pc.req)))
  {
    SameKey(s.conns, c, conn, conn.(ids := conn.ids - {conn.pc.sub}, pc := Answering(conn.pc.req)));
  }

  lemma AnswerTurn(s: State, c: ConnId, conn: Conn)
    requires c in s.conns && conn.pc.Answering? && !conn.broken
    ensures Turns(s, c, conn, Answer(true), conn.(wire := conn.wire + [Reply(conn.pc.req)], pc := Reading))
  {
    SameKey(s.conns, c, conn, conn.(wire := conn.wire + [Reply(conn.pc.req)], pc := Reading));
  }

  lemma AddTurn(s: State, c: ConnId, conn: Conn)
    requires c in s.conns && conn.pc.Adding?
    ensures Turns(s, c, conn, AddId, conn.(ids := conn.ids + {conn.pc.sub}, pc := Confirming(conn.pc.req, conn.pc.sub)))
  {
    SameKey(s.conns, c, conn, conn.(ids := conn.ids + {conn.pc.sub}, pc := Confirming(conn.pc.req, conn.pc.sub)));
  }

  lemma ConfirmTurn(s: State, c: ConnId, conn: Conn)
    requires c in s.conns && conn.pc.Confirming? && !conn.broken
    ensures Turns(s, c, conn, Confirm(true),
                  conn.(wire := conn.wire + [Subscribed(conn.pc.req, conn.pc.sub)], pc := Launching(conn.pc.sub)))
  {
    SameKey(s.conns, c, conn,
            conn.(wire := conn.wire + [Subscribed(conn.pc.req, conn.pc.sub)], pc := Launching(conn.pc.sub)));
  }

  /** A new connection is greeted and then read from. */
  lemma GreetingRound(s: State, c: ConnId)
    requires c !in s.conns
    ensures After(Next, s, [Handler(c, Accept), Handler(c, Greet(true))])
         == Some(s.(conns := s.conns[c := Conn(Reading, {}, [Hello], false, false)]))
  {
    var s1 := SetConn(s, c, Conn(Greeting, {}, [], false, false));
    var s2 := s.(conns := s.conns[c := Conn(Reading, {}, [Hello], false, false)]);
    SameKey(s.conns, c, s1.conns[c], s2.conns[c]);
    assert [] + [Hello] == [Hello];
    Chain2(Next, s, Handler(c, Accept), s1, Handler(c, Greet(true)), s2);
  }

  /** The subscription a request makes in the manager's map, before and after its streamer is launched. */
  function Mapped(s: State, c: ConnId, filter: WatchFilter, streamer: Streamer): State {
    var id := s.nextID + 1;
    var sub := Sub(c, filter, Channel([], false, 0), streamer, 0, None, |s.published|, None, [], 0, 0);
    s.(nextID := id, live := s.live + {id}, subs := s.subs[id := sub])
  }

  lemma LaunchTurn(s: State, c: ConnId, filter: WatchFilter, conn: Conn)
    requires c in s.conns && conn.pc == Launching(s.nextID + 1)
    ensures Leads(SetConn(Mapped(s, c, filter, NotStarted), c, conn), Handler(c, Launch),
                  SetConn(Mapped(s, c, filter, Waiting), c, conn.(pc := Reading)))
  {
    var before, after := Mapped(s, c, filter, NotStarted), Mapped(s, c, filter, Waiting);
    SameKey(s.subs, s.nextID + 1, before.subs[s.nextID + 1], after.subs[s.nextID + 1]);
    SameKey(s.conns, c, conn, conn.(pc := Reading));
  }

  lemma SubscribeTurn(s: State, c: ConnId, req: nat, filter: WatchFilter)
    requires c in s.conns && s.conns[c].pc.Reading? && s.lock.Free? && !s.closed
    ensures Leads(s, Handler(c, Subscribe(req, filter)),
                  SetConn(Mapped(s, c, filter, NotStarted), c, s.conns[c].(pc := Adding(req, s.nextID + 1))))
  {
  }

  /** What a handler does for a subscribe request. */
  function Subscription(c: ConnId, req: nat, filter: WatchFilter): seq<Step> {
    [Handler(c, Subscribe(req, filter)), Handler(c, AddId), Handler(c, Confirm(true)), Handler(c, Launch)]
  }

  lemma SubscribeChain(s: State, c: ConnId, req: nat, filter: WatchFilter, confirming: Conn, launching: Conn)
    requires c in s.conns && s.conns[c].pc.Reading? && !s.conns[c].broken && s.lock.Free? && !s.closed
    requires var id, conn := s.nextID + 1, s.conns[c];
      && confirming == conn.(ids := conn.ids + {id}, pc := Confirming(req, id))
      && launching == confirming.(wire := conn.wire + [Subscribed(req, id)], pc := Launching(id))
    ensures After(Next, s, Subscription(c, req, filter)) ==
            Some(SetConn(Mapped(s, c, filter, Waiting), c, launching.(pc := Reading)))
  {
    var s0, adding := Mapped(s, c, filter, NotStarted), s.conns[c].(pc := Adding(req, s.nextID + 1));
    SubscribeTurn(s, c, req, filter);
    AddTurn(s0, c, adding);
    ConfirmTurn(s0, c, confirming);
    LaunchTurn(s, c, filter, launching);
    Chain4(Next, s, Handler(c, Subscribe(req, filter)), SetConn(s0, c, adding), Handler(c, AddId),
           SetConn(s0, c, confirming), Handler(c, Confirm(true)), SetConn(s0, c, launching), Handler(c, Launch),
           SetConn(Mapped(s, c, filter, Waiting), c, launching.(pc := Reading)));
  }

  /**
    A subscribe request on an idle, working connection ends with a streaming subscription in the manager's
    map: an open empty channel behind the requested filter, owned by this connection and confirmed to it.
  */
  lemma SubscribeRound(s: State, c: ConnId, req: nat, filter: WatchFilter)
    requires c in s.conns && s.conns[c].pc.Reading? && !s.conns[c].broken && s.lock.Free? && !s.closed
    ensures var id, conn := s.nextID + 1, s.conns[c];
      After(Next, s, Subscription(c, req, filter)) == Some(
        SetConn(Mapped(s, c, filter, Waiting), c,
                conn.(ids := conn.ids + {id}, wire := conn.wire + [Subscribed(req, id)])))
  {
    var id, conn := s.nextID + 1, s.conns[c];
    var confirming := conn.(ids := conn.ids + {id}, pc := Confirming(req, id));
    var launching := confirming.(wire := conn.wire + [Subscribed(req, id)], pc := Launching(id));
    assert launching.(pc := Reading) == conn.(ids := conn.ids + {id}, wire := conn.wire + [Subscribed(req, id)]);
    SubscribeChain(s, c, req, filter, confirming, launching);
  }

  /** The manager without the subscription, before and after its channel is closed. */
  function Unmapped(s: State, c: ConnId, id: SubId): State
    requires id in s.subs
  {
    s.(live := s.live - {id}, subs := s.subs[id := s.subs[id].(died := Some(|s.published|), closer := Some(c))])
  }

  function Closed(s: State, c: ConnId, id: SubId): State
    requires id in s.subs
  {
    SetSub(Unmapped(s, c, id), id, CloseChannel(Unmapped(s, c, id).subs[id]))
  }

  lemma RemoveTurn(s: State, c: ConnId, req: nat, id: SubId)
    requires c in s.conns && s.conns[c].pc.Reading? && s.lock.Free? && id in s.live && id in s.subs
    ensures Leads(s, Handler(c, Unsubscribe(req, id)),
                  SetConn(Unmapped(s, c, id), c, s.conns[c].(pc := Unsubscribing(req, id))))
  {
  }

  lemma CloseTurn(s: State, c: ConnId, conn: Conn)
    requires c in s.conns && conn.pc.Unsubscribing? && conn.pc.sub in s.subs
    ensures Leads(SetConn(s, c, conn), Handler(c, UnsubscribeClose),
                  SetConn(SetSub(s, conn.pc.sub, CloseChannel(s.subs[conn.pc.sub])), c,
                          conn.(pc := Forgetting(conn.pc.req, conn.pc.sub))))
  {
    SameKey(s.conns, c, conn, conn.(pc := Forgetting(conn.pc.req, conn.pc.sub)));
  }

  /** An unsubscribe request takes the subscription out of the map, closes its channel and is answered. */
  lemma UnsubscribeRound(s: State, c: ConnId, req: nat, id: SubId)
    requires c in s.conns && s.conns[c].pc.Reading? && !s.conns[c].broken && s.lock.Free?
    requires id in s.live && id in s.subs
    ensures var conn, sub := s.conns[c], s.subs[id];
      After(Next, s, [Handler(c, Unsubscribe(req, id)), Handler(c, UnsubscribeClose), Handler(c, ForgetId),
                Handler(c, Answer(true))])
      == Some(s.(live := s.live - {id},
                 subs := s.subs[id := sub.(ch := sub.ch.(closed := true), closeCalls := sub.closeCalls + 1,
                                           died := Some(|s.published|), closer := Some(c))],
                 conns := s.conns[c := conn.(ids := conn.ids - {id}, wire := conn.wire + [Reply(req)])]))
  {
    var conn, s1, s2 := s.conns[c], Unmapped(s, c, id), Closed(s, c, id);
    var removing, forgetting := conn.(pc := Unsubscribing(req, id)), conn.(pc := Forgetting(req, id));
    var answering := conn.(ids := conn.ids - {id}, pc := Answering(req));
    RemoveTurn(s, c, req, id);
    CloseTurn(s1, c, removing);
    ForgetTurn(s2, c, forgetting);
    AnswerTurn(s2, c, answering);
    SameKey(s.subs, id, s1.subs[id], s2.subs[id]);
    Chain4(Next, s, Handler(c, Unsubscribe(req, id)), SetConn(s1, c, removing), Handler(c, UnsubscribeClose),
           SetConn(s2, c, forgetting), Handler(c, ForgetId), SetConn(s2, c, answering), Handler(c, Answer(true)),
           SetConn(s2, c, answering.(wire := conn.wire + [Reply(req)], pc := Reading)));
  }

  /** An unsubscribe request for a subscription that is gone changes nothing else and is answered all the same. */
  lemma UnsubscribeGone(s: State, c: ConnId, req: nat, id: SubId)
    requires c in s.conns && s.conns[c].pc.Reading? && !s.conns[c].broken && s.lock.Free? && id !in s.live
    ensures var conn := s.conns[c];
      After(Next, s, [Handler(c, Unsubscribe(req, id)), Handler(c, ForgetId), Handler(c, Answer(true))])
      == Some(s.(conns := s.conns[c := conn.(ids := conn.ids - {id}, wire := conn.wire + [Reply(req)])]))
  {
    var conn := s.conns[c];
    var forgetting := conn.(pc := Forgetting(req, id));
    var answering := conn.(ids := conn.ids - {id}, pc := Answering(req));
    assert Leads(s, Handler(c, Unsubscribe(req, id)), SetConn(s, c, forgetting));
    ForgetTurn(s, c, forgetting);
    AnswerTurn(s, c, answering);
    Chain3(Next, s, Handler(c, Unsubscribe(req, id)), SetConn(s, c, forgetting), Handler(c, ForgetId),
           SetConn(s, c, answering), Handler(c, Answer(true)),
           SetConn(s, c, answering.(wire := conn.wire + [Reply(req)], pc := Reading)));
  }

  // ----- a disconnecting client -----

  /** One subscription drained: out of the map and closed if it was still there. */
  predicate Drained(s: State, s': State, c: ConnId, gone: set<SubId>, pc: ConnPc)
    requires c in s.conns
  {
    && s' == s.(live := s.live - gone, subs := s'.subs, conns := s.conns[c := s.conns[c].(pc := pc)])
    && s'.subs.Keys == s.subs.Keys
    && (forall id :: id in s.subs ==>
          && SameStream(s.subs[id], s'.subs[id])
          && s'.subs[id].ch == if id in gone && id in s.live then s.subs[id].ch.(closed := true) else s.subs[id].ch)
  }

  lemma DrainLive(s: State, c: ConnId, id: SubId)
    requires c in s.conns && s.conns[c].pc.Draining? && id in s.conns[c].pc.todo && s.lock.Free?
    requires id in s.live && id in s.subs
    ensures var todo := s.conns[c].pc.todo - {id};
      var r := After(Next, s, [Handler(c, DrainOne(id)), Handler(c, DrainClose)]);
      r.Some? && Drained(s, r.value, c, {id}, Draining(todo))
  {
    var todo := s.conns[c].pc.todo - {id};
    var s1 := SetConn(Unmapped(s, c, id), c, s.conns[c].(pc := DrainClosing(todo, id)));
    var s2 := SetConn(Closed(s, c, id), c, s.conns[c].(pc := Draining(todo)));
    SameKey(s.conns, c, s1.conns[c], s2.conns[c]);
    Chain2(Next, s, Handler(c, DrainOne(id)), s1, Handler(c, DrainClose), s2);
  }

  lemma DrainGone(s: State, c: ConnId, id: SubId)
    requires c in s.conns && s.conns[c].pc.Draining? && id in s.conns[c].pc.todo && s.lock.Free? && id !in s.live
    ensures var r := After(Next, s, [Handler(c, DrainOne(id))]);
      r.Some? && Drained(s, r.value, c, {id}, Draining(s.conns[c].pc.todo - {id}))
  {
    var s1 := SetConn(s, c, s.conns[c].(pc := Draining(s.conns[c].pc.todo - {id})));
    assert s.live - {id} == s.live;
    AfterOne(Next, s, Handler(c, DrainOne(id)), []);
    assert Apply(s, Handler(c, DrainOne(id))) == s1;
  }

  lemma DrainedTwice(s: State, s1: State, s2: State, c: ConnId, a: set<SubId>, b: set<SubId>, pc1: ConnPc, pc2: ConnPc)
    requires c in s.conns && Drained(s, s1, c, a, pc1) && c in s1.conns && Drained(s1, s2, c, b, pc2)
    ensures Drained(s, s2, c, a + b, pc2)
  {
    SameKey(s.conns, c, s1.conns[c], s2.conns[c]);
    assert s.live - a - b == s.live - (a + b);
  }

  lemma {:induction false} DrainAll(s: State, c: ConnId) returns (steps: seq<Step>)
    requires c in s.conns && s.conns[c].pc.Draining? && s.lock.Free? && (forall id :: id in s.live ==> id in s.subs)
    ensures After(Next, s, steps).Some? && Drained(s, After(Next, s, steps).value, c, s.conns[c].pc.todo, Draining({}))
    decreases |s.conns[c].pc.todo|
  {
    var todo := s.conns[c].pc.todo;
    if todo == {} {
      steps := [];
      assert s.live - todo == s.live && s.conns[c := s.conns[c]] == s.conns;
    } else {
      var id :| id in todo;
      var first: seq<Step>;
      if id in s.live {
        first := [Handler(c, DrainOne(id)), Handler(c, DrainClose)];
        DrainLive(s, c, id);
      } else {
        first := [Handler(c, DrainOne(id))];
        DrainGone(s, c, id);
      }
      var s1 := After(Next, s, first).value;
      var rest := DrainAll(s1, c);
      AfterBoth(Next, s, first, rest);
      DrainedTwice(s, s1, After(Next, s1, rest).value, c, {id}, todo - {id}, Draining(todo - {id}), Draining({}));
      assert {id} + (todo - {id}) == todo;
      steps := first + rest;
    }
  }

  /**
    A client that hangs up: every subscription its connection tracked is out of the map and closed, the
    connection's context is cancelled and its socket closed, and every other connection is as it was.
  */
  lemma DisconnectRound(bufSize: int, s: State, c: ConnId) returns (steps: seq<Step>)
    requires Reachable(bufSize, s) && c in s.conns && s.conns[c].pc.Reading? && s.lock.Free?
    ensures After(Next, s, steps).Some?
    ensures var s', conn := After(Next, s, steps).value, s.conns[c];
      && s'.conns == s.conns[c := conn.(pc := Ended, ids := {}, broken := true, ctxDone := true)]
      && s'.live == s.live - conn.ids
      && s'.subs.Keys == s.subs.Keys
      && (forall id :: id in s.subs ==>
            && SameStream(s.subs[id], s'.subs[id])
            && s'.subs[id].ch ==
               if id in conn.ids && id in s.live then s.subs[id].ch.(closed := true) else s.subs[id].ch)
  {
    ReachableInv(bufSize, s);
    assert forall id :: id in s.live ==> LiveOk(s, id);
    var conn := s.conns[c];
    var hangup, last := Handler(c, Hangup), [Handler(c, FinishDrain), Handler(c, Cancel), Handler(c, CloseSocket)];
    var s1 := SetConn(s, c, conn.(pc := Draining(conn.ids), ids := {}));
    assert Apply(s, hangup) == s1;
    var drains := DrainAll(s1, c);
    var s2 := After(Next, s1, drains).value;
    LastSteps(s2, c);
    AfterBoth(Next, s1, drains, last);
    AfterOne(Next, s, hangup, drains + last);
    SameKey(s.conns, c, s1.conns[c], s2.conns[c]);
    SameKey(s.conns, c, s2.conns[c], s2.conns[c].(pc := Ended, broken := true, ctxDone := true));
    steps := [hangup] + (drains + last);
  }

  lemma QuietTurn(s: State, c: ConnId, conn: Conn, h: HandlerStep, conn': Conn)
    requires c in s.conns && Quiet(h) && HandlerEnabled(SetConn(s, c, conn), conn, h)
    requires QuietApply(SetConn(s, c, conn), conn, h) == conn'
    ensures Turns(s, c, conn, h, conn')
  {
    SameKey(s.conns, c, conn, conn');
  }

  lemma LastSteps(s: State, c: ConnId)
    requires c in s.conns && s.conns[c].pc == Draining({})
    ensures After(Next, s, [Handler(c, FinishDrain), Handler(c, Cancel), Handler(c, CloseSocket)])
         == Some(SetConn(s, c, s.conns[c].(pc := Ended, broken := true, ctxDone := true)))
  {
    var conn := s.conns[c];
    var cancelling, disconnecting := conn.(pc := Cancelling), conn.(pc := Disconnecting, ctxDone := true);
    var ended := disconnecting.(pc := Ended, broken := true);
    assert s == SetConn(s, c, conn) by { assert s.conns[c := conn] == s.conns; }
    QuietTurn(s, c, conn, FinishDrain, cancelling);
    QuietTurn(s, c, cancelling, Cancel, disconnecting);
    QuietTurn(s, c, disconnecting, CloseSocket, ended);
    Chain3(Next, s, Handler(c, FinishDrain), SetConn(s, c, cancelling), Handler(c, Cancel),
           SetConn(s, c, disconnecting), Handler(c, CloseSocket), SetConn(s, c, ended));
  }
}
