/** Every step of the fan-out keeps the invariant. */
module FanoutSteps {
  import opened Wrappers
  import opened Watch
  import opened Fanout
  import opened FanoutInvariant

  lemma InitInv(bufSize: int)
    ensures Inv(Init(bufSize))
  {
  }

  // ----- the manager -----

  lemma PublishBeginInv(s: State, ev: WatchEvent)
    requires Inv(s) && s.lock.Free?
    ensures Inv(DoPublishBegin(s, ev))
  {
    var s' := DoPublishBegin(s, ev);
    forall id | id in s.subs ensures Open(s', id) == Open(s, id) && Horizon(s', id) == Horizon(s, id) {
      assert SubInv(s, id);
    }
    LockStep(s, s');
  }

  // ----- one subscription's account, on its own -----

  lemma VisitOk(capacity: nat, sub: Sub, offered: seq<WatchEvent>, frames: seq<Frame>, confirmed: bool, ev: WatchEvent)
    requires SubOk(capacity, sub, true, offered, frames, confirmed)
    ensures SubOk(capacity,
                  if |sub.ch.buf| < capacity
                  then sub.(ch := Offer(sub.ch, capacity, ev), accepted := sub.accepted + [ev])
                  else sub.(ch := Offer(sub.ch, capacity, ev), drops := sub.drops + 1),
                  true, offered + [ev], frames, confirmed)
  {
    SubsequenceTake(sub.accepted, offered, ev);
    SubsequenceSkip(sub.accepted, offered, ev);
  }

  lemma CloseOk(
    capacity: nat, sub: Sub, open: bool, n: nat, offered: seq<WatchEvent>, frames: seq<Frame>, confirmed: bool)
    requires SubOk(capacity, sub, open, offered, frames, confirmed) && sub.closeCalls == 0
    ensures SubOk(capacity, CloseChannel(sub).(died := if open then Some(n) else sub.died), false, offered, frames,
                  confirmed)
  {
  }

  lemma ReceiveOk(capacity: nat, sub: Sub, open: bool, offered: seq<WatchEvent>, frames: seq<Frame>, confirmed: bool)
    requires SubOk(capacity, sub, open, offered, frames, confirmed) && sub.streamer.Waiting? && sub.ch.buf != []
    ensures SubOk(capacity, sub.(ch := sub.ch.(buf := sub.ch.buf[1..]), streamer := Received(sub.ch.buf[0])),
                  open, offered, frames, confirmed)
  {
    var buf, front := sub.ch.buf, Updates(frames);
    assert front + [] + buf == front + [buf[0]] + buf[1..];
  }

  lemma ResetOk(capacity: nat, sub: Sub, open: bool, offered: seq<WatchEvent>, frames: seq<Frame>, confirmed: bool)
    requires SubOk(capacity, sub, open, offered, frames, confirmed) && sub.streamer.Received?
    ensures var n := sub.ch.dropped;
      SubOk(capacity,
            sub.(ch := sub.ch.(dropped := 0), taken := sub.taken + n,
                 streamer := if n > 0 then Lagging(n, sub.streamer.ev) else Updating(sub.streamer.ev)),
            open, offered, frames, confirmed)
  {
  }

  lemma ExitOk(
    capacity: nat, sub: Sub, open: bool, offered: seq<WatchEvent>, frames: seq<Frame>, confirmed: bool,
    reason: ExitReason)
    requires SubOk(capacity, sub, open, offered, frames, confirmed) && sub.streamer.Waiting? && !reason.WriteFailed?
    requires reason.ChannelClosed? ==> sub.ch.buf == [] && sub.ch.closed
    requires capacity > 0
    ensures SubOk(capacity, sub.(streamer := Exited(reason, [], 0)), open, offered, frames, confirmed)
  {
  }

  lemma LagOk(
    capacity: nat, sub: Sub, open: bool, offered: seq<WatchEvent>, frames: seq<Frame>, confirmed: bool,
    id: SubId, ok: bool)
    requires SubOk(capacity, sub, open, offered, frames, confirmed) && sub.streamer.Lagging?
    ensures var st := sub.streamer;
      SubOk(capacity, sub.(streamer := if ok then Updating(st.ev) else Exited(WriteFailed, [st.ev], st.count)),
            open, offered, if ok then frames + [Lag(id, st.count)] else frames, true)
  {
    UpdatesAppend(frames, Lag(id, sub.streamer.count));
  }

  lemma UpdateOk(
    capacity: nat, sub: Sub, open: bool, offered: seq<WatchEvent>, frames: seq<Frame>, confirmed: bool,
    id: SubId, ok: bool)
    requires SubOk(capacity, sub, open, offered, frames, confirmed) && sub.streamer.Updating?
    ensures var st := sub.streamer;
      SubOk(capacity, sub.(streamer := if ok then Waiting else Exited(WriteFailed, [st.ev], 0)),
            open, offered, if ok then frames + [Update(id, st.ev)] else frames, true)
  {
    var f := Update(id, sub.streamer.ev);
    UpdatesAppend(frames, f);
    assert Updates(frames) + [f.ev] + sub.ch.buf == Updates(frames) + [f.ev] + [] + sub.ch.buf;
  }

  /** A subscription's part of the invariant, put together from its account. */
  lemma Rebuilt(s: State, id: SubId, offered: seq<WatchEvent>, frames: seq<Frame>, confirmed: bool)
    requires SubAt(s, id) && 1 <= id <= s.nextID && s.subs[id].born <= Horizon(s, id) <= |s.published|
    requires SubOk(s.bufSize, s.subs[id], Open(s, id), offered, frames, confirmed)
    requires offered == Offered(s, id) && frames == FramesOf(Wire(s, id), id)
    requires confirmed ==> Confirmed(Wire(s, id), id) || s.conns[s.subs[id].owner].broken
    ensures SubInv(s, id)
  {
  }

  // ----- steps that touch one subscription and no connection -----

  predicate SubOnly(s: State, s': State, x: SubId) {
    && x in s.subs && x in s'.subs && s'.subs == s.subs[x := s'.subs[x]]
    && s' == s.(subs := s'.subs, lock := s'.lock)
    && (s'.lock == s.lock
        || (s.lock.Publishing? && s'.lock == Publishing(s.lock.ev, s.lock.pending - {x}))
        || (s.lock.Closing? && s'.lock == Closing(s.lock.pending - {x})))
    && s'.subs[x].owner == s.subs[x].owner
    && s'.subs[x].closer == s.subs[x].closer
    && (s.subs[x].died.Some? ==> s'.subs[x].died == s.subs[x].died && s'.subs[x].closeCalls == s.subs[x].closeCalls)
    && (s'.subs[x].streamer.NotStarted? <==> s.subs[x].streamer.NotStarted?)
  }

  lemma SubOnlyLocal(s: State, s': State, x: SubId)
    requires SubOnly(s, s', x) && SubInv(s, x)
    ensures Local(s, s', s.subs[x].owner, x)
  {
    var c := s.subs[x].owner;
    assert s'.conns == s.conns[c := s'.conns[c]];
  }

  lemma SubOnlyConn(s: State, s': State, c: ConnId, x: SubId)
    requires SubOnly(s, s', x) && s.subs[x].owner == c && (s.subs[x].died.None? || SubInv(s, x))
    requires SubInv(s, x) && c in s.conns && ConnOk(s.subs, s.live, c, s.conns[c])
    ensures ConnOk(s'.subs, s'.live, c, s.conns[c])
  {
    assert forall i :: Owns(s.subs, c, i) <==> Owns(s'.subs, c, i);
  }

  lemma SubOnlyInv(s: State, s': State, x: SubId)
    requires Inv(s) && SubOnly(s, s', x) && SubInv(s', x)
    ensures Inv(s')
  {
    var c := s.subs[x].owner;
    InvHere(s, c, x);
    SubOnlyLocal(s, s', x);
    SubOnlyConn(s, s', c, x);
    LocalStep(s, s', c, x);
  }

  lemma PublishVisitInv(s: State, id: SubId)
    requires Inv(s) && s.lock.Publishing? && id in s.lock.pending && id in s.subs
    ensures Inv(DoPublishVisit(s, id))
  {
    assert SubInv(s, id);
    VisitSub(s, id);
    VisitOnly(s, id);
    SubOnlyInv(s, DoPublishVisit(s, id), id);
  }

  /** Putting the event to one subscription moves its horizon over exactly that event. */
  lemma VisitOffered(s: State, id: SubId)
    requires LockOk(s) && s.lock.Publishing? && id in s.lock.pending && id in s.subs && s.subs[id].died.None?
    requires s.subs[id].born <= Horizon(s, id) <= |s.published|
    ensures var s', sub, ev := DoPublishVisit(s, id), s.subs[id], s.lock.ev;
      && sub.born <= Horizon(s', id) <= |s'.published|
      && Offered(s', id) == if Matches(sub.filter, ev) then Offered(s, id) + [ev] else Offered(s, id)
  {
    var sub, ev := s.subs[id], s.lock.ev;
    var before := s.published[sub.born..|s.published| - 1];
    assert s.published[sub.born..|s.published|] == before + [ev];
    MatchingAppend(sub.filter, before, ev);
  }

  lemma VisitSub(s: State, id: SubId)
    requires LockOk(s) && SubInv(s, id) && s.lock.Publishing? && id in s.lock.pending
    ensures SubInv(DoPublishVisit(s, id), id)
  {
    var s' := DoPublishVisit(s, id);
    var sub, ev := s.subs[id], s.lock.ev;
    VisitOffered(s, id);
    assert s'.conns == s.conns && Wire(s', id) == Wire(s, id);
    var frames, confirmed := FramesOf(Wire(s, id), id), Confirmed(Wire(s, id), id) || s.conns[sub.owner].broken;
    if Matches(sub.filter, ev) {
      VisitOk(s.bufSize, sub, Offered(s, id), frames, confirmed, ev);
      Rebuilt(s', id, Offered(s, id) + [ev], frames, confirmed);
    } else {
      Rebuilt(s', id, Offered(s, id), frames, confirmed);
    }
  }

  lemma VisitOnly(s: State, id: SubId)
    requires ManagerEnabled(s, PublishVisit(id)) && (s.subs[id].died.None? || s.subs[id].closeCalls == 0)
    ensures SubOnly(s, DoPublishVisit(s, id), id)
  {
    var s' := DoPublishVisit(s, id);
    assert s'.subs == s.subs[id := s'.subs[id]];
  }

  lemma CloseOneInv(s: State, id: SubId)
    requires Inv(s) && s.lock.Closing? && id in s.lock.pending && id in s.subs
    ensures Inv(DoCloseOne(s, id))
  {
    assert SubInv(s, id);
    CloseOneSub(s, id);
    SubOnlyInv(s, DoCloseOne(s, id), id);
  }

  lemma CloseOneSub(s: State, id: SubId)
    requires LockOk(s) && SubInv(s, id) && s.lock.Closing? && id in s.lock.pending
    ensures SubInv(DoCloseOne(s, id), id) && SubOnly(s, DoCloseOne(s, id), id)
  {
    var s' := DoCloseOne(s, id);
    CloseOk(s.bufSize, s.subs[id], true, |s.published|, Offered(s, id), FramesOf(Wire(s, id), id),
            Confirmed(Wire(s, id), id) || s.conns[s.subs[id].owner].broken);
    assert Wire(s', id) == Wire(s, id) && Offered(s', id) == Offered(s, id);
  }

  /** The streamer steps that write nothing, as one record update. */
  lemma StreamerSub(s: State, s': State, id: SubId, sub': Sub)
    requires SubInv(s, id) && s' == SetSub(s, id, sub')
    requires sub' == s.subs[id].(ch := sub'.ch, streamer := sub'.streamer, taken := sub'.taken)
    requires SubOk(s.bufSize, sub', Open(s, id), Offered(s, id), FramesOf(Wire(s, id), id),
                   Confirmed(Wire(s, id), id) || s.conns[s.subs[id].owner].broken)
    ensures SubInv(s', id)
  {
    assert Wire(s', id) == Wire(s, id) && Offered(s', id) == Offered(s, id);
  }

  predicate StreamerOnly(s: State, id: SubId, sub': Sub)
    requires id in s.subs
  {
    && sub' == s.subs[id].(ch := sub'.ch, streamer := sub'.streamer, taken := sub'.taken)
    && !s.subs[id].streamer.NotStarted? && !sub'.streamer.NotStarted?
  }

  lemma StreamerSubInv(s: State, id: SubId, sub': Sub)
    requires Inv(s) && SubAt(s, id) && StreamerOnly(s, id, sub')
    requires SubInv(s, id) ==>
               SubOk(s.bufSize, sub', Open(s, id), Offered(s, id), FramesOf(Wire(s, id), id),
                     Confirmed(Wire(s, id), id) || s.conns[s.subs[id].owner].broken)
    ensures Inv(SetSub(s, id, sub'))
  {
    assert SubInv(s, id);
    StreamerSub(s, SetSub(s, id, sub'), id, sub');
    SubOnlyInv(s, SetSub(s, id, sub'), id);
  }

  lemma ReceiveInv(s: State, id: SubId)
    requires Inv(s) && Enabled(s, Stream(id, Receive))
    ensures Inv(DoReceive(s, id))
  {
    if SubInv(s, id) {
      ReceiveOk(s.bufSize, s.subs[id], Open(s, id), Offered(s, id), FramesOf(Wire(s, id), id),
                Confirmed(Wire(s, id), id) || s.conns[s.subs[id].owner].broken);
    }
    StreamerSubInv(s, id, DoReceive(s, id).subs[id]);
  }

  lemma ResetDroppedInv(s: State, id: SubId)
    requires Inv(s) && Enabled(s, Stream(id, ResetDropped))
    ensures Inv(DoResetDropped(s, id))
  {
    if SubInv(s, id) {
      ResetOk(s.bufSize, s.subs[id], Open(s, id), Offered(s, id), FramesOf(Wire(s, id), id),
              Confirmed(Wire(s, id), id) || s.conns[s.subs[id].owner].broken);
    }
    StreamerSubInv(s, id, DoResetDropped(s, id).subs[id]);
  }

  lemma ExitInv(s: State, id: SubId, reason: ExitReason)
    requires Inv(s) && SubAt(s, id) && s.subs[id].streamer.Waiting? && !reason.WriteFailed?
    requires reason.ChannelClosed? ==> s.subs[id].ch.buf == [] && s.subs[id].ch.closed
    ensures Inv(Exit(s, id, reason))
  {
    if SubInv(s, id) {
      ExitOk(s.bufSize, s.subs[id], Open(s, id), Offered(s, id), FramesOf(Wire(s, id), id),
             Confirmed(Wire(s, id), id) || s.conns[s.subs[id].owner].broken, reason);
    }
    StreamerSubInv(s, id, Exit(s, id, reason).subs[id]);
  }

  lemma ManagerStepInv(s: State, s': State)
    requires Inv(s)
    requires || (s.lock.Publishing? && s.lock.pending == {} && s' == s.(lock := Free))
             || (s.lock.Free? && s' == DoCloseBegin(s))
             || (s.lock.Closing? && s.lock.pending == {} && s' == s.(lock := Free, live := {}))
    ensures Inv(s')
  {
    LockStep(s, s');
  }

  // ----- a connection's handler -----

  lemma AcceptSub(s: State, c: ConnId, id: SubId)
    requires c !in s.conns && SubInv(s, id)
    ensures SubInv(SetConn(s, c, Conn(Greeting, {}, [], false, false)), id)
  {
    SubStays(s, SetConn(s, c, Conn(Greeting, {}, [], false, false)), id);
  }

  lemma AcceptInv(s: State, c: ConnId)
    requires Inv(s) && c !in s.conns
    ensures Inv(SetConn(s, c, Conn(Greeting, {}, [], false, false)))
  {
    var s' := SetConn(s, c, Conn(Greeting, {}, [], false, false));
    forall id | id in s'.subs ensures SubInv(s', id) {
      AcceptSub(s, c, id);
    }
    forall id | id in s'.live ensures LiveOk(s', id) {
      AcceptLive(s, c, id);
    }
  }

  lemma AcceptLive(s: State, c: ConnId, id: SubId)
    requires c !in s.conns && LiveOk(s, id)
    ensures LiveOk(SetConn(s, c, Conn(Greeting, {}, [], false, false)), id)
  {
  }

  lemma WrittenHere(s: State, c: ConnId, f: Frame, pc: ConnPc, ok: bool)
    requires c in s.conns && ConnOk(s.subs, s.live, c, s.conns[c]) && (ok ==> !s.conns[c].broken)
    requires !StreamFrame(f) && (f.Hello? <==> s.conns[c].pc.Greeting?)
    requires f.Subscribed? ==> Owns(s.subs, c, f.confirms)
    requires match s.conns[c].pc
             case Greeting => pc == if ok then Reading else Cancelling
             case Confirming(req, id) => (pc == Launching(id) && f == Subscribed(req, id)) || pc == s.conns[c].pc
             case Answering(_) => pc == Reading || pc == s.conns[c].pc
             case _ => pc == s.conns[c].pc
    ensures var conn' := Written(s.conns[c], f, ok).(pc := pc);
      ConnLocal(s, c, conn', if ok then [f] else []) && ConnOk(s.subs, s.live, c, conn')
  {
    var conn := s.conns[c];
    var conn' := Written(conn, f, ok).(pc := pc);
    if ok {
      WireAppend(conn.wire, f);
      assert conn'.wire == conn.wire + [f];
    } else {
      assert conn'.wire == conn.wire + [];
    }
    if pc.Launching? {
      ConfirmedAppend(conn.wire, f, pc.sub);
    }
  }

  /** Every frame outside the streams: hello, a subscribe response, any other reply. */
  lemma WrittenInv(s: State, c: ConnId, f: Frame, pc: ConnPc, ok: bool)
    requires Inv(s) && c in s.conns && (ok ==> !s.conns[c].broken)
    requires !StreamFrame(f) && (f.Hello? <==> s.conns[c].pc.Greeting?)
    requires f.Subscribed? ==> s.conns[c].pc.Confirming? && f.confirms == s.conns[c].pc.sub
    requires match s.conns[c].pc
             case Greeting => pc == if ok then Reading else Cancelling
             case Confirming(req, id) => (pc == Launching(id) && f == Subscribed(req, id)) || pc == s.conns[c].pc
             case Answering(_) => pc == Reading || pc == s.conns[c].pc
             case _ => pc == s.conns[c].pc
    ensures Inv(SetConn(s, c, Written(s.conns[c], f, ok).(pc := pc)))
  {
    assert ConnOk(s.subs, s.live, c, s.conns[c]);
    WrittenHere(s, c, f, pc, ok);
    ConnStep(s, c, Written(s.conns[c], f, ok).(pc := pc), if ok then [f] else []);
  }

  lemma QuietHere(s: State, c: ConnId, st: HandlerStep)
    requires c in s.conns && ConnOk(s.subs, s.live, c, s.conns[c])
    requires Quiet(st) && HandlerEnabled(s, s.conns[c], st)
    ensures ConnLocal(s, c, QuietApply(s, s.conns[c], st), [])
    ensures ConnOk(s.subs, s.live, c, QuietApply(s, s.conns[c], st))
  {
    assert s.conns[c].wire == s.conns[c].wire + [];
  }

  lemma QuietInv(s: State, c: ConnId, st: HandlerStep)
    requires Inv(s) && c in s.conns && Quiet(st) && HandlerEnabled(s, s.conns[c], st)
    ensures Inv(SetConn(s, c, QuietApply(s, s.conns[c], st)))
  {
    assert ConnOk(s.subs, s.live, c, s.conns[c]);
    QuietHere(s, c, st);
    ConnStep(s, c, QuietApply(s, s.conns[c], st), []);
  }

  lemma SubscribeSub(s: State, c: ConnId, req: nat, filter: WatchFilter)
    requires s.lock.Free? && (s.closed ==> s.live == {}) && s.nextID + 1 !in s.live
    requires c in s.conns && FramesOf(s.conns[c].wire, s.nextID + 1) == []
    ensures SubInv(DoSubscribe(s, c, req, filter), s.nextID + 1)
  {
    var s' := DoSubscribe(s, c, req, filter);
    assert Offered(s', s.nextID + 1) == [];
  }

  lemma SubscribeConn(s: State, c: ConnId, req: nat, filter: WatchFilter)
    requires s.lock.Free? && c in s.conns && s.conns[c].pc.Reading? && ConnOk(s.subs, s.live, c, s.conns[c])
    requires s.nextID + 1 !in s.subs && s.nextID + 1 !in s.live
    ensures var s' := DoSubscribe(s, c, req, filter);
      ConnOk(s'.subs, s'.live, c, s'.conns[c]) && Local(s, s', c, s.nextID + 1)
  {
    assert forall i :: Owns(s.subs, c, i) ==> Owns(DoSubscribe(s, c, req, filter).subs, c, i);
  }

  /** Ids are never reused: the next one has never been handed out. */
  lemma NextIdUnused(s: State)
    requires Inv(s)
    ensures forall id :: id > s.nextID ==> id !in s.subs && id !in s.live
  {
    assert forall id :: id in s.subs ==> SubInv(s, id) && id <= s.nextID;
    assert forall id :: id in s.live ==> LiveOk(s, id) && id in s.subs;
  }

  lemma SubscribeInv(s: State, c: ConnId, req: nat, filter: WatchFilter)
    requires Inv(s) && s.lock.Free? && c in s.conns && s.conns[c].pc.Reading?
    ensures Inv(DoSubscribe(s, c, req, filter))
  {
    var id := s.nextID + 1;
    NextIdUnused(s);
    assert ConnOk(s.subs, s.live, c, s.conns[c]);
    FramesOfNobody(s.subs, c, s.conns[c].wire, id);
    SubscribeSub(s, c, req, filter);
    SubscribeConn(s, c, req, filter);
    LocalStep(s, DoSubscribe(s, c, req, filter), c, id);
  }

  lemma LaunchSub(s: State, c: ConnId, id: SubId)
    requires SubInv(s, id) && c in s.conns && s.subs[id].owner == c && s.subs[id].streamer.NotStarted?
    requires Confirmed(Wire(s, id), id) || s.conns[c].broken
    ensures SubInv(DoLaunch(s, c, id), id)
  {
    Rebuilt(DoLaunch(s, c, id), id, Offered(s, id), FramesOf(Wire(s, id), id), true);
  }

  lemma LaunchConn(s: State, c: ConnId, id: SubId)
    requires c in s.conns && ConnOk(s.subs, s.live, c, s.conns[c]) && s.conns[c].pc == Launching(id)
    ensures id in s.subs && ConnOk(DoLaunch(s, c, id).subs, s.live, c, DoLaunch(s, c, id).conns[c])
    ensures Local(s, DoLaunch(s, c, id), c, id)
  {
    assert forall i :: Owns(s.subs, c, i) <==> Owns(DoLaunch(s, c, id).subs, c, i);
  }

  lemma LaunchHere(s: State, c: ConnId, id: SubId)
    requires Here(s, c, id) && s.conns[c].pc == Launching(id)
    ensures Local(s, DoLaunch(s, c, id), c, id) && Here(DoLaunch(s, c, id), c, id)
  {
    LaunchSub(s, c, id);
    LaunchConn(s, c, id);
  }

  lemma LaunchInv(s: State, c: ConnId, id: SubId)
    requires Inv(s) && c in s.conns && s.conns[c].pc == Launching(id) && id in s.subs
    ensures Inv(DoLaunch(s, c, id))
  {
    InvHere(s, c, id);
    LaunchHere(s, c, id);
    LocalStep(s, DoLaunch(s, c, id), c, id);
  }

  /** Deleting from the map ends the subscription's life at the present length of the history. */
  lemma RemoveSub(s: State, c: ConnId, id: SubId, pc: ConnPc)
    requires SubInv(s, id) && s.lock.Free? && id in s.live && c in s.conns
    ensures SubInv(SetConn(Remove(s, c, id), c, s.conns[c].(pc := pc)), id)
  {
    var s' := SetConn(Remove(s, c, id), c, s.conns[c].(pc := pc));
    assert Wire(s', id) == Wire(s, id);
    assert Horizon(s', id) == Horizon(s, id) && Offered(s', id) == Offered(s, id);
  }

  predicate Removing(conn: Conn, id: SubId, pc: ConnPc) {
    || (conn.pc.Reading? && pc.Unsubscribing? && pc.sub == id)
    || (conn.pc.Draining? && id in conn.pc.todo && pc == DrainClosing(conn.pc.todo - {id}, id))
  }

  lemma RemoveLocal(s: State, c: ConnId, id: SubId, pc: ConnPc)
    requires SubInv(s, id) && s.lock.Free? && id in s.live && c in s.conns && Removing(s.conns[c], id, pc)
    ensures Local(s, SetConn(Remove(s, c, id), c, s.conns[c].(pc := pc)), c, id)
  {
  }

  lemma RemoveConn(s: State, c: ConnId, id: SubId, pc: ConnPc)
    requires c in s.conns && ConnOk(s.subs, s.live, c, s.conns[c]) && Removing(s.conns[c], id, pc)
    requires id in s.live && id in s.subs && s.subs[id].closeCalls == 0
    ensures var s' := SetConn(Remove(s, c, id), c, s.conns[c].(pc := pc)); ConnOk(s'.subs, s'.live, c, s'.conns[c])
  {
    assert forall i :: Owns(s.subs, c, i) <==> Owns(Remove(s, c, id).subs, c, i);
  }

  lemma RemoveInv(s: State, c: ConnId, id: SubId, pc: ConnPc)
    requires Inv(s) && s.lock.Free? && id in s.live && c in s.conns && Removing(s.conns[c], id, pc)
    ensures Inv(SetConn(Remove(s, c, id), c, s.conns[c].(pc := pc)))
  {
    assert LiveOk(s, id) && SubInv(s, id) && ConnOk(s.subs, s.live, c, s.conns[c]);
    RemoveSub(s, c, id, pc);
    RemoveLocal(s, c, id, pc);
    RemoveConn(s, c, id, pc);
    LocalStep(s, SetConn(Remove(s, c, id), c, s.conns[c].(pc := pc)), c, id);
  }

  lemma NothingToRemove(s: State, c: ConnId, id: SubId, pc: ConnPc)
    requires c in s.conns && ConnOk(s.subs, s.live, c, s.conns[c]) && id !in s.live
    requires || (s.conns[c].pc.Reading? && pc.Forgetting? && pc.sub == id)
             || (s.conns[c].pc.Draining? && pc == Draining(s.conns[c].pc.todo - {id}))
    ensures var conn' := s.conns[c].(pc := pc);
      ConnLocal(s, c, conn', []) && ConnOk(s.subs, s.live, c, conn')
  {
    assert s.conns[c].wire == s.conns[c].wire + [];
  }

  lemma UnsubscribeInv(s: State, c: ConnId, req: nat, id: SubId)
    requires Inv(s) && s.lock.Free? && c in s.conns && s.conns[c].pc.Reading?
    ensures Inv(DoUnsubscribe(s, c, req, id))
  {
    if id in s.live {
      assert LiveOk(s, id);
      RemoveInv(s, c, id, Unsubscribing(req, id));
    } else {
      assert ConnOk(s.subs, s.live, c, s.conns[c]);
      NothingToRemove(s, c, id, Forgetting(req, id));
      ConnStep(s, c, s.conns[c].(pc := Forgetting(req, id)), []);
    }
  }

  lemma DrainOneInv(s: State, c: ConnId, id: SubId)
    requires Inv(s) && s.lock.Free? && c in s.conns && s.conns[c].pc.Draining? && id in s.conns[c].pc.todo
    ensures Inv(DoDrainOne(s, c, id))
  {
    var todo := s.conns[c].pc.todo - {id};
    if id in s.live {
      assert LiveOk(s, id);
      RemoveInv(s, c, id, DrainClosing(todo, id));
    } else {
      assert ConnOk(s.subs, s.live, c, s.conns[c]);
      NothingToRemove(s, c, id, Draining(todo));
      ConnStep(s, c, s.conns[c].(pc := Draining(todo)), []);
    }
  }

  /** The close that runs outside the lock, after this handler's own delete. */
  lemma CloseOutsideLockSub(s: State, c: ConnId, id: SubId, pc: ConnPc)
    requires SubInv(s, id) && c in s.conns && ToClose(s.subs, c, id)
    ensures SubInv(DoCloseOutsideLock(s, c, id, pc), id)
  {
    var s' := DoCloseOutsideLock(s, c, id, pc);
    CloseOk(s.bufSize, s.subs[id], false, 0, Offered(s, id), FramesOf(Wire(s, id), id),
            Confirmed(Wire(s, id), id) || s.conns[s.subs[id].owner].broken);
    assert s'.subs[id] == CloseChannel(s.subs[id]).(died := s.subs[id].died);
    assert Wire(s', id) == Wire(s, id) && Offered(s', id) == Offered(s, id);
  }

  /** The handler stands between its delete of `id` and the close, and goes on to `next`. */
  predicate AfterDelete(pc: ConnPc, id: SubId, next: ConnPc) {
    || (pc.Unsubscribing? && pc.sub == id && next == Forgetting(pc.req, id))
    || (pc.DrainClosing? && pc.sub == id && next == Draining(pc.todo))
  }

  lemma CloseOutsideLockConn(s: State, c: ConnId, id: SubId, pc: ConnPc)
    requires c in s.conns && ConnOk(s.subs, s.live, c, s.conns[c]) && id !in s.live && id in s.subs
    requires AfterDelete(s.conns[c].pc, id, pc)
    ensures var s' := DoCloseOutsideLock(s, c, id, pc); ConnOk(s'.subs, s'.live, c, s'.conns[c])
  {
    assert forall i :: Owns(s.subs, c, i) <==> Owns(DoCloseOutsideLock(s, c, id, pc).subs, c, i);
  }

  lemma CloseOutsideLockLocal(s: State, c: ConnId, id: SubId, pc: ConnPc)
    requires c in s.conns && id in s.subs && s.subs[id].closer == Some(c) && id !in s.live
    requires AfterDelete(s.conns[c].pc, id, pc)
    ensures Local(s, DoCloseOutsideLock(s, c, id, pc), c, id)
  {
  }

  lemma CloseOutsideLockInv(s: State, c: ConnId, id: SubId, pc: ConnPc)
    requires Inv(s) && c in s.conns && AfterDelete(s.conns[c].pc, id, pc) && id in s.subs
    ensures Inv(DoCloseOutsideLock(s, c, id, pc))
  {
    InvHere(s, c, id);
    CloseOutsideLockHere(s, c, id, pc);
    LocalStep(s, DoCloseOutsideLock(s, c, id, pc), c, id);
  }

  lemma CloseOutsideLockHere(s: State, c: ConnId, id: SubId, pc: ConnPc)
    requires Here(s, c, id) && AfterDelete(s.conns[c].pc, id, pc)
    ensures Local(s, DoCloseOutsideLock(s, c, id, pc), c, id) && Here(DoCloseOutsideLock(s, c, id, pc), c, id)
  {
    CloseOutsideLockSub(s, c, id, pc);
    CloseOutsideLockConn(s, c, id, pc);
    CloseOutsideLockLocal(s, c, id, pc);
  }

  // ----- a streamer -----

  function StreamFrameOf(s: State, id: SubId): Frame
    requires id in s.subs && (s.subs[id].streamer.Lagging? || s.subs[id].streamer.Updating?)
  {
    var st := s.subs[id].streamer;
    if st.Lagging? then Lag(id, st.count) else Update(id, st.ev)
  }

  function StreamWritten(s: State, id: SubId, ok: bool): State
    requires SubAt(s, id) && (s.subs[id].streamer.Lagging? || s.subs[id].streamer.Updating?)
    requires ok ==> !s.conns[s.subs[id].owner].broken
  {
    if s.subs[id].streamer.Lagging? then DoWriteLag(s, id, ok) else DoWriteUpdate(s, id, ok)
  }

  /** What one streamer write shows of its own subscription: one more frame, or a broken connection. */
  lemma StreamFrames(s: State, id: SubId, ok: bool)
    requires SubAt(s, id) && (ok ==> !s.conns[s.subs[id].owner].broken)
    requires s.subs[id].streamer.Lagging? || s.subs[id].streamer.Updating?
    ensures var s', frames := StreamWritten(s, id, ok), FramesOf(Wire(s, id), id);
      && SubAt(s', id)
      && FramesOf(Wire(s', id), id) == (if ok then frames + [StreamFrameOf(s, id)] else frames)
      && (Confirmed(Wire(s, id), id) ==> Confirmed(Wire(s', id), id))
  {
    FramesAppend(Wire(s, id), StreamFrameOf(s, id), id);
    ConfirmedAppend(Wire(s, id), StreamFrameOf(s, id), id);
  }

  lemma LagSub(s: State, id: SubId, ok: bool)
    requires SubInv(s, id) && (ok ==> !s.conns[s.subs[id].owner].broken) && s.subs[id].streamer.Lagging?
    ensures SubInv(StreamWritten(s, id, ok), id)
  {
    var s', frames := StreamWritten(s, id, ok), FramesOf(Wire(s, id), id);
    StreamFrames(s, id, ok);
    LagOk(s.bufSize, s.subs[id], Open(s, id), Offered(s, id), frames,
          Confirmed(Wire(s, id), id) || s.conns[s.subs[id].owner].broken, id, ok);
    Rebuilt(s', id, Offered(s, id), if ok then frames + [StreamFrameOf(s, id)] else frames, true);
  }

  lemma UpdateSub(s: State, id: SubId, ok: bool)
    requires SubInv(s, id) && (ok ==> !s.conns[s.subs[id].owner].broken) && s.subs[id].streamer.Updating?
    ensures SubInv(StreamWritten(s, id, ok), id)
  {
    var s', frames := StreamWritten(s, id, ok), FramesOf(Wire(s, id), id);
    StreamFrames(s, id, ok);
    UpdateOk(s.bufSize, s.subs[id], Open(s, id), Offered(s, id), frames,
          Confirmed(Wire(s, id), id) || s.conns[s.subs[id].owner].broken, id, ok);
    Rebuilt(s', id, Offered(s, id), if ok then frames + [StreamFrameOf(s, id)] else frames, true);
  }

  /** A streamer's frame leaves every other stream on the wire as it was. */
  lemma StreamWire(conn: Conn, f: Frame, id: SubId, ok: bool)
    requires StreamFrame(f) && f.sub == id
    ensures WireAgrees(conn, Written(conn, f, ok), id)
  {
    forall i: SubId ensures i != id ==> FramesOf(conn.wire + [f], i) == FramesOf(conn.wire, i) {
      FramesAppend(conn.wire, f, i);
    }
    forall i: SubId ensures Confirmed(conn.wire, i) ==> Confirmed(conn.wire + [f], i) {
      ConfirmedAppend(conn.wire, f, i);
    }
  }

  lemma StreamConn(s: State, subs': map<SubId, Sub>, c: ConnId, id: SubId, f: Frame, ok: bool)
    requires c in s.conns && ConnOk(s.subs, s.live, c, s.conns[c]) && Owns(s.subs, c, id) && (ok ==> !s.conns[c].broken)
    requires StreamFrame(f) && f.sub == id
    requires Confirmed(s.conns[c].wire, id) || s.conns[c].broken
    requires !s.subs[id].streamer.NotStarted?
    requires id in subs' && subs' == s.subs[id := s.subs[id].(streamer := subs'[id].streamer)]
    ensures ConnOk(subs', s.live, c, Written(s.conns[c], f, ok))
  {
    var conn := s.conns[c];
    assert forall i :: Owns(s.subs, c, i) <==> Owns(subs', c, i);
    if ok {
      WireAppend(conn.wire, f);
      forall i: SubId ensures Confirmed(conn.wire, i) ==> Confirmed(conn.wire + [f], i) {
        ConfirmedAppend(conn.wire, f, i);
      }
    }
  }

  lemma StreamLocal(s: State, c: ConnId, id: SubId, ok: bool)
    requires SubAt(s, id) && s.subs[id].owner == c && (s.subs[id].streamer.Lagging? || s.subs[id].streamer.Updating?)
    requires ok ==> !s.conns[c].broken
    ensures Local(s, StreamWritten(s, id, ok), c, id)
  {
    StreamWire(s.conns[c], StreamFrameOf(s, id), id, ok);
  }

  lemma StreamSub(s: State, id: SubId, ok: bool)
    requires SubInv(s, id) && (ok ==> !s.conns[s.subs[id].owner].broken)
    requires s.subs[id].streamer.Lagging? || s.subs[id].streamer.Updating?
    ensures SubInv(StreamWritten(s, id, ok), id)
  {
    if s.subs[id].streamer.Lagging? { LagSub(s, id, ok); } else { UpdateSub(s, id, ok); }
  }

  /** The streamer has been started, so its subscription was confirmed on the wire unless that broke. */
  lemma StreamConfirmed(s: State, id: SubId)
    requires SubInv(s, id) && (s.subs[id].streamer.Lagging? || s.subs[id].streamer.Updating?)
    ensures Confirmed(Wire(s, id), id) || s.conns[s.subs[id].owner].broken
  {
  }

  lemma StreamOwner(s: State, c: ConnId, id: SubId, ok: bool)
    requires Here(s, c, id) && s.subs[id].owner == c && (ok ==> !s.conns[c].broken)
    requires s.subs[id].streamer.Lagging? || s.subs[id].streamer.Updating?
    ensures var s' := StreamWritten(s, id, ok);
      c in s'.conns && ConnOk(s'.subs, s'.live, c, s'.conns[c])
  {
    StreamConfirmed(s, id);
    var s' := StreamWritten(s, id, ok);
    assert s'.conns[c] == Written(s.conns[c], StreamFrameOf(s, id), ok);
    StreamConn(s, s'.subs, c, id, StreamFrameOf(s, id), ok);
  }

  /** The connection tracks its live subscriptions as before. */
  lemma StreamLive(s: State, c: ConnId, id: SubId, ok: bool)
    requires Here(s, c, id) && s.subs[id].owner == c && (ok ==> !s.conns[c].broken)
    requires s.subs[id].streamer.Lagging? || s.subs[id].streamer.Updating?
    ensures var s' := StreamWritten(s, id, ok);
      s'.bufSize == s.bufSize && LockOk(s') && (id in s'.live ==> LiveOk(s', id))
  {
  }

  lemma StreamHere(s: State, c: ConnId, id: SubId, ok: bool)
    requires Here(s, c, id) && s.subs[id].owner == c && (ok ==> !s.conns[c].broken)
    requires s.subs[id].streamer.Lagging? || s.subs[id].streamer.Updating?
    ensures Here(StreamWritten(s, id, ok), c, id)
  {
    StreamSub(s, id, ok);
    StreamOwner(s, c, id, ok);
    StreamLive(s, c, id, ok);
  }

  lemma StreamInv(s: State, id: SubId, ok: bool)
    requires Inv(s) && SubAt(s, id) && (s.subs[id].streamer.Lagging? || s.subs[id].streamer.Updating?)
    requires ok ==> !s.conns[s.subs[id].owner].broken
    ensures Inv(StreamWritten(s, id, ok))
  {
    var c := s.subs[id].owner;
    InvHere(s, c, id);
    StreamHere(s, c, id, ok);
    StreamLocal(s, c, id, ok);
    LocalStep(s, StreamWritten(s, id, ok), c, id);
  }

  // ----- all of them -----

  lemma ManagerKeepsInv(s: State, st: ManagerStep)
    requires Inv(s) && ManagerEnabled(s, st)
    ensures Inv(ManagerApply(s, st))
  {
    if st.PublishBegin? { PublishBeginInv(s, st.ev); }
    else if st.PublishVisit? { PublishVisitInv(s, st.sub); }
    else if st.CloseOne? { CloseOneInv(s, st.sub); }
    else { ManagerStepInv(s, ManagerApply(s, st)); }
  }

  lemma SubscribeStepInv(s: State, c: ConnId, st: HandlerStep)
    requires Inv(s) && c in s.conns && HandlerEnabled(s, s.conns[c], st) && (st.Subscribe? || st.Launch?)
    ensures Inv(HandlerApply(s, c, st))
  {
    if st.Subscribe? {
      SubscribeInv(s, c, st.req, st.filter);
    } else {
      LaunchInv(s, c, s.conns[c].pc.sub);
    }
  }

  lemma UnsubscribeStepInv(s: State, c: ConnId, st: HandlerStep)
    requires Inv(s) && c in s.conns && HandlerEnabled(s, s.conns[c], st) && (st.Unsubscribe? || st.DrainOne?)
    ensures Inv(HandlerApply(s, c, st))
  {
    if st.Unsubscribe? {
      UnsubscribeInv(s, c, st.req, st.target);
    } else {
      DrainOneInv(s, c, st.sub);
    }
  }

  lemma CloseStepInv(s: State, c: ConnId, st: HandlerStep)
    requires Inv(s) && c in s.conns && HandlerEnabled(s, s.conns[c], st) && (st.UnsubscribeClose? || st.DrainClose?)
    ensures Inv(HandlerApply(s, c, st))
  {
    var pc := s.conns[c].pc;
    if st.DrainClose? {
      CloseOutsideLockInv(s, c, pc.sub, Draining(pc.todo));
    } else {
      CloseOutsideLockInv(s, c, pc.sub, Forgetting(pc.req, pc.sub));
    }
  }

  lemma GreetInv(s: State, c: ConnId, ok: bool)
    requires Inv(s) && c in s.conns && HandlerEnabled(s, s.conns[c], Greet(ok))
    ensures Inv(HandlerApply(s, c, Greet(ok)))
  {
    WrittenInv(s, c, Hello, if ok then Reading else Cancelling, ok);
  }

  lemma ConfirmInv(s: State, c: ConnId, ok: bool)
    requires Inv(s) && c in s.conns && HandlerEnabled(s, s.conns[c], Confirm(ok))
    ensures Inv(HandlerApply(s, c, Confirm(ok)))
  {
    var pc := s.conns[c].pc;
    WrittenInv(s, c, Subscribed(pc.req, pc.sub), Launching(pc.sub), ok);
  }

  lemma GreetStepInv(s: State, c: ConnId, st: HandlerStep)
    requires Inv(s) && c in s.conns && HandlerEnabled(s, s.conns[c], st) && (st.Greet? || st.Confirm?)
    ensures Inv(HandlerApply(s, c, st))
  {
    if st.Greet? { GreetInv(s, c, st.ok); } else { ConfirmInv(s, c, st.ok); }
  }

  lemma ReplyStepInv(s: State, c: ConnId, st: HandlerStep)
    requires Inv(s) && c in s.conns && HandlerEnabled(s, s.conns[c], st) && (st.Answer? || st.HandlerReply?)
    ensures Inv(HandlerApply(s, c, st))
  {
    var pc := s.conns[c].pc;
    if st.Answer? {
      WrittenInv(s, c, Reply(pc.req), Reading, st.ok);
    } else {
      assert Written(s.conns[c], Reply(st.req), st.ok) == Written(s.conns[c], Reply(st.req), st.ok).(pc := pc);
      WrittenInv(s, c, Reply(st.req), pc, st.ok);
    }
  }

  lemma HandlerKeepsInv(s: State, c: ConnId, st: HandlerStep)
    requires Inv(s) && c in s.conns && HandlerEnabled(s, s.conns[c], st)
    ensures Inv(HandlerApply(s, c, st))
  {
    if Quiet(st) { QuietInv(s, c, st); }
    else if st.Subscribe? || st.Launch? { SubscribeStepInv(s, c, st); }
    else if st.Unsubscribe? || st.DrainOne? { UnsubscribeStepInv(s, c, st); }
    else if st.UnsubscribeClose? || st.DrainClose? { CloseStepInv(s, c, st); }
    else if st.Greet? || st.Confirm? { GreetStepInv(s, c, st); }
    else { ReplyStepInv(s, c, st); }
  }

  lemma StreamerKeepsInv(s: State, id: SubId, st: StreamerStep)
    requires Inv(s) && Enabled(s, Stream(id, st))
    ensures Inv(StreamerApply(s, id, st))
  {
    match st
    case Receive => ReceiveInv(s, id);
    case SeeClosed => ExitInv(s, id, ChannelClosed);
    case SeeContext => ExitInv(s, id, ContextDone);
    case ResetDropped => ResetDroppedInv(s, id);
    case WriteLag(ok) => StreamInv(s, id, ok);
    case WriteUpdate(ok) => StreamInv(s, id, ok);
  }

  lemma StepKeepsInv(s: State, st: Step)
    requires Inv(s) && Enabled(s, st)
    ensures Inv(Apply(s, st))
  {
    match st
    case Manager(m) => ManagerKeepsInv(s, m);
    case Handler(c, h) =>
      if h.Accept? { AcceptInv(s, c); } else { HandlerKeepsInv(s, c, h); }
    case Stream(id, t) => StreamerKeepsInv(s, id, t);
  }
}
