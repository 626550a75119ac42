/** The inductive invariant of the fan-out; FanoutSteps proves that every step keeps it. */
module FanoutInvariant {
  import opened Wrappers
  import opened Watch
  import opened Fanout

  // ----- one subscription -----

  /** An open channel has never been closed, and no channel is closed twice. */
  predicate ChannelOk(capacity: nat, sub: Sub, open: bool) {
    && |sub.ch.buf| <= capacity
    && (open <==> sub.died.None?)
    && (sub.closer.Some? ==> sub.died.Some?)
    && (open ==> sub.closeCalls == 0)
    && sub.closeCalls <= 1
    && (sub.ch.closed <==> sub.closeCalls == 1)
  }

  /** Every offered event is accepted or counted, every accepted one is written, held or buffered. */
  predicate AccountOk(sub: Sub, offered: seq<WatchEvent>, frames: seq<Frame>) {
    && sub.drops == sub.ch.dropped + sub.taken
    && |offered| == |sub.accepted| + sub.drops
    && Subsequence(sub.accepted, offered)
    && sub.accepted == Updates(frames) + Held(sub.streamer) + sub.ch.buf
    && sub.taken == LagTotal(frames) + HeldDrops(sub.streamer)
  }

  /** Outside the window between a receive and the counter reset, a pending drop means a full buffer. */
  predicate ReportOk(capacity: nat, sub: Sub) {
    match sub.streamer
    case Received(_) => true
    case Lagging(n, _) => n > 0 && (sub.ch.dropped > 0 ==> |sub.ch.buf| == capacity)
    case Exited(reason, lost, n) =>
      && (!reason.WriteFailed? ==> lost == [] && n == 0)
      && (reason.ChannelClosed? ==> sub.ch.closed && sub.ch.buf == [] && sub.ch.dropped == 0)
    case _ => sub.ch.dropped > 0 ==> |sub.ch.buf| == capacity
  }

  /** No two lag frames in a row. */
  predicate LagsFollowed(frames: seq<Frame>) {
    forall i :: 0 <= i < |frames| - 1 && frames[i].Lag? ==> frames[i + 1].Update?
  }

  predicate EndsInLag(frames: seq<Frame>) { frames != [] && frames[|frames| - 1].Lag? }

  predicate FramesOk(sub: Sub, frames: seq<Frame>, confirmed: bool) {
    && (if sub.streamer.NotStarted? then frames == [] else confirmed)
    && LagsFollowed(frames)
    && (forall i :: 0 <= i < |frames| ==> StreamFrame(frames[i]) && (frames[i].Lag? ==> frames[i].count > 0))
    && (EndsInLag(frames) ==> sub.streamer.Updating? || (sub.streamer.Exited? && sub.streamer.reason.WriteFailed?))
  }

  predicate SubOk(capacity: nat, sub: Sub, open: bool, offered: seq<WatchEvent>, frames: seq<Frame>, confirmed: bool) {
    && ChannelOk(capacity, sub, open)
    && AccountOk(sub, offered, frames)
    && ReportOk(capacity, sub)
    && FramesOk(sub, frames, confirmed)
  }

  // ----- one connection -----

  /** The connection still answers for the subscription. */
  predicate Tracks(conn: Conn, id: SubId) {
    || id in conn.ids
    || (conn.pc.Adding? && conn.pc.sub == id)
    || (conn.pc.Draining? && id in conn.pc.todo)
    || (conn.pc.DrainClosing? && id in conn.pc.todo)
  }

  predicate Finishing(pc: ConnPc) {
    pc.Draining? || pc.DrainClosing? || pc.Cancelling? || pc.Disconnecting? || pc.Ended?
  }

  predicate Owns(subs: map<SubId, Sub>, c: ConnId, id: SubId) { id in subs && subs[id].owner == c }

  predicate PcOk(subs: map<SubId, Sub>, live: set<SubId>, c: ConnId, conn: Conn) {
    match conn.pc
    case Adding(_, id) => Owns(subs, c, id) && subs[id].streamer.NotStarted?
    case Confirming(_, id) => Owns(subs, c, id) && subs[id].streamer.NotStarted?
    case Launching(id) =>
      Owns(subs, c, id) && subs[id].streamer.NotStarted? && (Confirmed(conn.wire, id) || conn.broken)
    case Unsubscribing(_, id) => ToClose(subs, c, id) && id !in live
    case Forgetting(_, id) => !(id in live && Owns(subs, c, id))
    case Draining(todo) => forall id :: id in todo ==> Owns(subs, c, id)
    case DrainClosing(todo, id) =>
      (forall i :: i in todo ==> Owns(subs, c, i)) && ToClose(subs, c, id) && Owns(subs, c, id) && id !in live
    case _ => true
  }

  /** Deleted from the map by this connection's handler, which has yet to close the channel. */
  predicate ToClose(subs: map<SubId, Sub>, c: ConnId, id: SubId) {
    id in subs && subs[id].closer == Some(c) && subs[id].died.Some? && subs[id].closeCalls == 0
  }

  predicate HelloFirst(wire: seq<Frame>) {
    forall i :: 0 <= i < |wire| ==> (wire[i].Hello? <==> i == 0)
  }

  /** Every stream frame comes after the response that confirmed its subscription. */
  predicate ConfirmedBefore(wire: seq<Frame>) {
    wire == [] ||
    var f, front := wire[|wire| - 1], wire[..|wire| - 1];
    ConfirmedBefore(front) && (StreamFrame(f) ==> Confirmed(front, f.sub))
  }

  predicate FramesOwned(subs: map<SubId, Sub>, c: ConnId, wire: seq<Frame>) {
    forall j :: 0 <= j < |wire| ==>
      && (StreamFrame(wire[j]) ==> Owns(subs, c, wire[j].sub))
      && (wire[j].Subscribed? ==> Owns(subs, c, wire[j].confirms))
  }

  predicate WireOk(conn: Conn) {
    && HelloFirst(conn.wire)
    && ConfirmedBefore(conn.wire)
    && (if conn.pc.Greeting? then conn.wire == [] else conn.wire != [] || conn.broken)
  }

  predicate ConnOk(subs: map<SubId, Sub>, live: set<SubId>, c: ConnId, conn: Conn) {
    && PcOk(subs, live, c, conn)
    && WireOk(conn)
    && FramesOwned(subs, c, conn.wire)
    && (forall id :: id in conn.ids ==> Owns(subs, c, id))
    && (conn.pc.Greeting? || Finishing(conn.pc) ==> conn.ids == {})
    && (conn.pc.Disconnecting? || conn.pc.Ended? ==> conn.ctxDone)
    && (conn.pc.Ended? ==> conn.broken)
  }

  // ----- the whole state -----

  predicate LockOk(s: State) {
    match s.lock
    case Free => s.closed ==> s.live == {}
    case Publishing(ev, pending) =>
      !s.closed && pending <= s.live && s.published != [] && s.published[|s.published| - 1] == ev
    case Closing(pending) => s.closed && pending <= s.live
  }

  predicate SubInv(s: State, id: SubId) {
    && SubAt(s, id)
    && 1 <= id <= s.nextID
    && s.subs[id].born <= Horizon(s, id) <= |s.published|
    && SubOk(s.bufSize, s.subs[id], Open(s, id), Offered(s, id), FramesOf(Wire(s, id), id),
             Confirmed(Wire(s, id), id) || s.conns[s.subs[id].owner].broken)
  }

  predicate LiveOk(s: State, id: SubId) { SubAt(s, id) && Tracks(s.conns[s.subs[id].owner], id) }

  ghost predicate Inv(s: State) {
    && s.bufSize > 0
    && LockOk(s)
    && (forall id :: id in s.subs ==> SubInv(s, id))
    && (forall id :: id in s.live ==> LiveOk(s, id))
    && (forall c :: c in s.conns ==> ConnOk(s.subs, s.live, c, s.conns[c]))
  }

  // ----- appending one frame -----

  lemma FramesAppend(wire: seq<Frame>, f: Frame, id: SubId)
    ensures FramesOf(wire + [f], id) ==
            if StreamFrame(f) && f.sub == id then FramesOf(wire, id) + [f] else FramesOf(wire, id)
  {
    assert (wire + [f])[..|wire|] == wire;
  }

  lemma UpdatesAppend(frames: seq<Frame>, f: Frame)
    ensures Updates(frames + [f]) == if f.Update? then Updates(frames) + [f.ev] else Updates(frames)
    ensures LagTotal(frames + [f]) == LagTotal(frames) + if f.Lag? then f.count else 0
  {
    assert (frames + [f])[..|frames|] == frames;
  }

  lemma ConfirmedAppend(wire: seq<Frame>, f: Frame, id: SubId)
    ensures Confirmed(wire + [f], id) <==> Confirmed(wire, id) || (f.Subscribed? && f.confirms == id)
  {
    assert (wire + [f])[..|wire|] == wire;
  }

  /** A frame other than hello may follow anything; a stream frame only its confirmation. */
  lemma WireAppend(wire: seq<Frame>, f: Frame)
    requires HelloFirst(wire) && ConfirmedBefore(wire)
    requires f.Hello? <==> wire == []
    requires StreamFrame(f) ==> Confirmed(wire, f.sub)
    ensures HelloFirst(wire + [f]) && ConfirmedBefore(wire + [f])
  {
    assert (wire + [f])[..|wire|] == wire;
  }

  lemma FramesOfNobody(subs: map<SubId, Sub>, c: ConnId, wire: seq<Frame>, id: SubId)
    requires FramesOwned(subs, c, wire)
    requires !Owns(subs, c, id)
    ensures FramesOf(wire, id) == [] && !Confirmed(wire, id)
  {
    if wire != [] {
      var front := wire[..|wire| - 1];
      FramesOfNobody(subs, c, front, id);
    }
  }

  lemma MatchingAppend(f: WatchFilter, evs: seq<WatchEvent>, ev: WatchEvent)
    ensures Matching(f, evs + [ev]) == Matching(f, evs) + if Matches(f, ev) then [ev] else []
  {
    assert (evs + [ev])[..|evs|] == evs;
  }

  // ----- what a step leaves alone -----

  lemma SubStays(s: State, s': State, id: SubId)
    requires SubInv(s, id)
    requires id in s'.subs && s'.subs[id] == s.subs[id] && s.subs[id].owner in s'.conns
    requires s'.bufSize == s.bufSize && s.nextID <= s'.nextID && s.published <= s'.published
    requires Open(s', id) == Open(s, id) && Horizon(s', id) == Horizon(s, id)
    requires FramesOf(Wire(s', id), id) == FramesOf(Wire(s, id), id)
    requires Confirmed(Wire(s, id), id) ==> Confirmed(Wire(s', id), id)
    requires s.conns[s.subs[id].owner].broken ==> s'.conns[s.subs[id].owner].broken
    ensures SubInv(s', id)
  {
    var born, h := s.subs[id].born, Horizon(s, id);
    assert s'.published[born..h] == s.published[born..h];
  }

  /** A step of the manager that touches no subscription and no connection. */
  lemma LockStep(s: State, s': State)
    requires Inv(s)
    requires s'.subs == s.subs && s'.conns == s.conns && s'.bufSize == s.bufSize && s'.nextID == s.nextID
    requires LockOk(s') && s'.live <= s.live && s.published <= s'.published
    requires forall id :: id in s.subs ==> Open(s', id) == Open(s, id) && Horizon(s', id) == Horizon(s, id)
    ensures Inv(s')
  {
    forall id | id in s'.subs ensures SubInv(s', id) {
      assert SubInv(s, id);
      SubStays(s, s', id);
    }
    forall id | id in s'.live ensures LiveOk(s', id) {
      assert LiveOk(s, id);
    }
    forall c | c in s'.conns ensures ConnOk(s'.subs, s'.live, c, s'.conns[c]) {
      assert ConnOk(s.subs, s.live, c, s.conns[c]);
    }
  }

  /** What the other connections rely on about a changed subscription. */
  predicate SubAgrees(s: State, s': State, c: ConnId, x: SubId)
    requires x in s'.subs
  {
    if x in s.subs then
      && s'.subs[x].owner == s.subs[x].owner
      && (s'.subs[x].owner != c ==> (s'.subs[x].streamer.NotStarted? <==> s.subs[x].streamer.NotStarted?))
      && (s.subs[x].closer.Some? && s.subs[x].closer.value != c ==>
            && s'.subs[x].closer == s.subs[x].closer
            && s'.subs[x].died == s.subs[x].died
            && s'.subs[x].closeCalls == s.subs[x].closeCalls)
      && (x in s'.live ==> x in s.live)
    else s'.subs[x].owner == c
  }

  /** The other subscriptions read the same frames off the changed connection. */
  ghost predicate WireAgrees(conn: Conn, conn': Conn, x: SubId) {
    && (conn.broken ==> conn'.broken)
    && (forall i: SubId :: i != x ==> FramesOf(conn'.wire, i) == FramesOf(conn.wire, i))
    && (forall i: SubId :: i != x && Confirmed(conn.wire, i) ==> Confirmed(conn'.wire, i))
  }

  /** A step that changes at most connection `c` and subscription `x`. */
  ghost predicate Local(s: State, s': State, c: ConnId, x: SubId) {
    && s'.bufSize == s.bufSize && s'.published == s.published && s.nextID <= s'.nextID
    && c in s.conns && c in s'.conns && s'.conns == s.conns[c := s'.conns[c]]
    && x in s'.subs && s'.subs == s.subs[x := s'.subs[x]]
    && s'.live - {x} == s.live - {x}
    && (forall i :: i in s.subs && i != x ==> Open(s', i) == Open(s, i) && Horizon(s', i) == Horizon(s, i))
    && WireAgrees(s.conns[c], s'.conns[c], x)
    && SubAgrees(s, s', c, x)
    && (forall i :: i in s.live && i != x && Owns(s.subs, c, i) && Tracks(s.conns[c], i) ==> Tracks(s'.conns[c], i))
  }

  lemma LocalSub(s: State, s': State, c: ConnId, x: SubId, id: SubId)
    requires Local(s, s', c, x) && id != x && id in s'.subs && SubInv(s, id)
    ensures SubInv(s', id)
  {
    SubStays(s, s', id);
  }

  lemma LocalLive(s: State, s': State, c: ConnId, x: SubId, id: SubId)
    requires Local(s, s', c, x) && id != x && id in s'.live
    requires id in s.live ==> LiveOk(s, id)
    ensures LiveOk(s', id)
  {
    assert id in s'.live - {x};
    assert id in s.live;
  }

  /** The part of the invariant that speaks of the manager, connection `c` and subscription `x`. */
  predicate Here(s: State, c: ConnId, x: SubId) {
    && s.bufSize > 0
    && LockOk(s)
    && c in s.conns && ConnOk(s.subs, s.live, c, s.conns[c])
    && SubInv(s, x)
    && (x in s.live ==> LiveOk(s, x))
  }

  lemma InvHere(s: State, c: ConnId, x: SubId)
    requires Inv(s) && c in s.conns && x in s.subs
    ensures Here(s, c, x)
  {
  }

  lemma LocalStep(s: State, s': State, c: ConnId, x: SubId)
    requires Inv(s) && Local(s, s', c, x) && Here(s', c, x)
    ensures Inv(s')
  {
    forall id | id in s'.subs ensures SubInv(s', id) {
      if id != x { LocalSub(s, s', c, x, id); }
    }
    forall id | id in s'.live ensures LiveOk(s', id) {
      if id != x { LocalLive(s, s', c, x, id); }
    }
    forall d | d in s'.conns ensures ConnOk(s'.subs, s'.live, d, s'.conns[d]) {
      if d != c { OtherConn(s, s', c, x, d); }
    }
  }

  lemma OtherConn(s: State, s': State, c: ConnId, x: SubId, d: ConnId)
    requires x in s'.subs && s'.subs == s.subs[x := s'.subs[x]]
    requires s'.live - {x} == s.live - {x}
    requires SubAgrees(s, s', c, x)
    requires d != c && d in s.conns && ConnOk(s.subs, s.live, d, s.conns[d])
    ensures ConnOk(s'.subs, s'.live, d, s.conns[d])
  {
    assert forall i :: Owns(s.subs, d, i) ==> Owns(s'.subs, d, i);
    assert forall i :: i != x ==> (i in s'.live <==> i in s.live) by {
      forall i | i != x ensures i in s'.live <==> i in s.live {
        assert i in s'.live - {x} <==> i in s.live - {x};
      }
    }
    assert forall i :: Owns(s'.subs, d, i) ==> Owns(s.subs, d, i);
  }

  /** A step of connection `c`'s handler that at most writes a frame outside every stream. */
  ghost predicate ConnLocal(s: State, c: ConnId, conn': Conn, written: seq<Frame>) {
    && c in s.conns
    && |written| <= 1 && (forall i :: 0 <= i < |written| ==> !StreamFrame(written[i]))
    && conn'.wire == s.conns[c].wire + written
    && (s.conns[c].broken ==> conn'.broken)
    && (forall i :: i in s.live && Owns(s.subs, c, i) && Tracks(s.conns[c], i) ==> Tracks(conn', i))
  }

  lemma ConnFrames(wire: seq<Frame>, written: seq<Frame>, id: SubId)
    requires |written| <= 1 && (forall i :: 0 <= i < |written| ==> !StreamFrame(written[i]))
    ensures FramesOf(wire + written, id) == FramesOf(wire, id)
    ensures Confirmed(wire, id) ==> Confirmed(wire + written, id)
  {
    if written == [] {
      assert wire + written == wire;
    } else {
      assert written == [written[0]];
      FramesAppend(wire, written[0], id);
      ConfirmedAppend(wire, written[0], id);
    }
  }

  lemma ConnStepSub(s: State, c: ConnId, conn': Conn, written: seq<Frame>, id: SubId)
    requires ConnLocal(s, c, conn', written) && SubInv(s, id)
    ensures SubInv(SetConn(s, c, conn'), id)
  {
    ConnFrames(s.conns[c].wire, written, id);
    SubStays(s, SetConn(s, c, conn'), id);
  }

  lemma ConnStep(s: State, c: ConnId, conn': Conn, written: seq<Frame>)
    requires Inv(s) && ConnLocal(s, c, conn', written) && ConnOk(s.subs, s.live, c, conn')
    ensures Inv(SetConn(s, c, conn'))
  {
    var s' := SetConn(s, c, conn');
    forall id | id in s'.subs ensures SubInv(s', id) {
      ConnStepSub(s, c, conn', written, id);
    }
    forall id | id in s'.live ensures LiveOk(s', id) {
      assert LiveOk(s, id);
    }
  }
}
