/**
  The daemon's fan-out as a labelled step system.

  The threads are one publisher (the event pump), one handler per connection, one streamer per
  subscription, any number of RPC handlers that may write a reply at any time, and the shutdown that
  closes the manager. Each step is one lock region, one channel operation or one frame written under the
  connection's encoder mutex; everything between two steps may interleave with every other thread. The
  non-blocking send in the publisher, "send, or else count the drop", is one step.

  The record of what happened (`accepted`, `drops`, `taken`, `born`, `died`, `closeCalls`, `closer`) is
  never read by an enabling condition: it exists for the statements in FanoutTheorems.
*/
module Fanout {
  import opened Wrappers
  import opened Watch

  type SubId = nat
  type ConnId = nat

  datatype Frame =
    | Hello
    | Reply(req: nat)
    | Subscribed(req: nat, confirms: SubId)
    | Update(sub: SubId, ev: WatchEvent)
    | Lag(sub: SubId, count: nat)

  datatype ExitReason = ChannelClosed | ContextDone | WriteFailed

  /** Where a subscription's streamer goroutine stands. `lost` is what it held when a write failed. */
  datatype Streamer =
    | NotStarted
    | Waiting
    | Received(ev: WatchEvent)
    | Lagging(count: nat, ev: WatchEvent)
    | Updating(ev: WatchEvent)
    | Exited(reason: ExitReason, lost: seq<WatchEvent>, lostCount: nat)

  datatype Sub = Sub(
    owner: ConnId,
    filter: WatchFilter,
    ch: Channel,
    streamer: Streamer,
    closeCalls: nat,
    closer: Option<ConnId>,
    born: nat,
    died: Option<nat>,
    accepted: seq<WatchEvent>,
    drops: nat,
    taken: nat)

  /** Where a connection's handler goroutine stands. */
  datatype ConnPc =
    | Greeting
    | Reading
    | Adding(req: nat, sub: SubId)
    | Confirming(req: nat, sub: SubId)
    | Launching(sub: SubId)
    | Unsubscribing(req: nat, sub: SubId)
    | Forgetting(req: nat, sub: SubId)
    | Answering(req: nat)
    | Draining(todo: set<SubId>)
    | DrainClosing(todo: set<SubId>, sub: SubId)
    | Cancelling
    | Disconnecting
    | Ended

  /** `wire` is every frame the daemon has written; `broken` is the encoder's sticky write error. */
  datatype Conn = Conn(pc: ConnPc, ids: set<SubId>, wire: seq<Frame>, broken: bool, ctxDone: bool)

  /** The manager's mutex: a walk over the map holds it across steps, every other region is one step. */
  datatype Lock =
    | Free
    | Publishing(ev: WatchEvent, pending: set<SubId>)
    | Closing(pending: set<SubId>)

  datatype State = State(
    bufSize: nat,
    nextID: nat,
    closed: bool,
    live: set<SubId>,
    lock: Lock,
    published: seq<WatchEvent>,
    subs: map<SubId, Sub>,
    conns: map<ConnId, Conn>)

  /** The publisher's walk over the map, and the shutdown's. */
  datatype ManagerStep =
    | PublishBegin(ev: WatchEvent)
    | PublishVisit(sub: SubId)
    | PublishEnd
    | CloseBegin
    | CloseOne(sub: SubId)
    | CloseEnd

  /** A connection's handler goroutine, the RPC handlers it started, and the cancellation of its context. */
  datatype HandlerStep =
    | Accept
    | Greet(ok: bool)
    | Subscribe(req: nat, filter: WatchFilter)
    | AddId
    | Confirm(ok: bool)
    | Launch
    | Unsubscribe(req: nat, target: SubId)
    | UnsubscribeClose
    | ForgetId
    | Answer(ok: bool)
    | HandlerReply(req: nat, ok: bool)
    | CancelContext
    | Hangup
    | DrainOne(sub: SubId)
    | DrainClose
    | FinishDrain
    | Cancel
    | CloseSocket

  datatype StreamerStep =
    | Receive
    | SeeClosed
    | SeeContext
    | ResetDropped
    | WriteLag(ok: bool)
    | WriteUpdate(ok: bool)

  datatype Step =
    | Manager(m: ManagerStep)
    | Handler(conn: ConnId, h: HandlerStep)
    | Stream(sub: SubId, t: StreamerStep)

  /** The manager picks 64 for a non-positive buffer size. */
  function Init(bufSize: int): (s: State)
    ensures s.bufSize > 0
  {
    State(if bufSize <= 0 then 64 else bufSize, 0, false, {}, Free, [], map[], map[])
  }

  // ----- small updates the steps are written with -----

  function SetSub(s: State, id: SubId, sub: Sub): State { s.(subs := s.subs[id := sub]) }

  function SetConn(s: State, c: ConnId, conn: Conn): State { s.(conns := s.conns[c := conn]) }

  /** One write under the encoder mutex: it appends the frame, or fails and the error sticks. */
  function Written(conn: Conn, f: Frame, ok: bool): Conn {
    if ok then conn.(wire := conn.wire + [f]) else conn.(broken := true)
  }

  /** close(C) behind closeOnce. */
  function CloseChannel(sub: Sub): Sub {
    sub.(ch := sub.ch.(closed := true), closeCalls := sub.closeCalls + 1)
  }

  predicate SubAt(s: State, id: SubId) { id in s.subs && s.subs[id].owner in s.conns }

  // ----- enabling conditions -----

  predicate ManagerEnabled(s: State, st: ManagerStep) {
    match st
    case PublishBegin(_) => s.lock.Free?
    case PublishVisit(id) => s.lock.Publishing? && id in s.lock.pending && id in s.subs
    case PublishEnd => s.lock.Publishing? && s.lock.pending == {}
    case CloseBegin => s.lock.Free?
    case CloseOne(id) => s.lock.Closing? && id in s.lock.pending && id in s.subs
    case CloseEnd => s.lock.Closing? && s.lock.pending == {}
  }

  predicate HandlerEnabled(s: State, conn: Conn, st: HandlerStep) {
    match st
    case Accept => false
    case Greet(ok) => conn.pc.Greeting? && (ok ==> !conn.broken)
    case Subscribe(_, _) => conn.pc.Reading? && s.lock.Free?
    case AddId => conn.pc.Adding?
    case Confirm(ok) => conn.pc.Confirming? && (ok ==> !conn.broken)
    case Launch => conn.pc.Launching? && conn.pc.sub in s.subs
    case Unsubscribe(_, _) => conn.pc.Reading? && s.lock.Free?
    case UnsubscribeClose => conn.pc.Unsubscribing? && conn.pc.sub in s.subs
    case ForgetId => conn.pc.Forgetting?
    case Answer(ok) => conn.pc.Answering? && (ok ==> !conn.broken)
    case HandlerReply(_, ok) => !conn.pc.Greeting? && (ok ==> !conn.broken)
    case CancelContext => true
    case Hangup => conn.pc.Reading?
    case DrainOne(id) => conn.pc.Draining? && id in conn.pc.todo && s.lock.Free?
    case DrainClose => conn.pc.DrainClosing? && conn.pc.sub in s.subs
    case FinishDrain => conn.pc.Draining? && conn.pc.todo == {}
    case Cancel => conn.pc.Cancelling?
    case CloseSocket => conn.pc.Disconnecting?
  }

  predicate StreamerEnabled(sub: Sub, conn: Conn, st: StreamerStep) {
    match st
    case Receive => sub.streamer.Waiting? && sub.ch.buf != []
    case SeeClosed => sub.streamer.Waiting? && sub.ch.buf == [] && sub.ch.closed
    case SeeContext => sub.streamer.Waiting? && conn.ctxDone
    case ResetDropped => sub.streamer.Received?
    case WriteLag(ok) => sub.streamer.Lagging? && (ok ==> !conn.broken)
    case WriteUpdate(ok) => sub.streamer.Updating? && (ok ==> !conn.broken)
  }

  predicate Enabled(s: State, st: Step) {
    match st
    case Manager(m) => ManagerEnabled(s, m)
    case Handler(c, h) => if h.Accept? then c !in s.conns else c in s.conns && HandlerEnabled(s, s.conns[c], h)
    case Stream(id, t) => SubAt(s, id) && StreamerEnabled(s.subs[id], s.conns[s.subs[id].owner], t)
  }

  // ----- effects -----

  function DoPublishBegin(s: State, ev: WatchEvent): State {
    if s.closed then s
    else s.(lock := Publishing(ev, s.live), published := s.published + [ev])
  }

  function DoPublishVisit(s: State, id: SubId): State
    requires ManagerEnabled(s, PublishVisit(id))
  {
    var sub := s.subs[id];
    var ev := s.lock.ev;
    var s1 := s.(lock := Publishing(ev, s.lock.pending - {id}));
    if !Matches(sub.filter, ev) then s1
    else if |sub.ch.buf| < s.bufSize then
      SetSub(s1, id, sub.(ch := Offer(sub.ch, s.bufSize, ev), accepted := sub.accepted + [ev]))
    else
      SetSub(s1, id, sub.(ch := Offer(sub.ch, s.bufSize, ev), drops := sub.drops + 1))
  }

  function DoCloseBegin(s: State): State {
    if s.closed then s else s.(closed := true, lock := Closing(s.live))
  }

  function DoCloseOne(s: State, id: SubId): State
    requires ManagerEnabled(s, CloseOne(id))
  {
    SetSub(s.(lock := Closing(s.lock.pending - {id})), id,
           CloseChannel(s.subs[id]).(died := Some(|s.published|)))
  }

  /** A closed manager hands out a subscription whose channel is already closed and does not keep it. */
  function DoSubscribe(s: State, c: ConnId, req: nat, filter: WatchFilter): State
    requires c in s.conns
  {
    var id := s.nextID + 1;
    var created := Sub(c, filter, Channel([], false, 0), NotStarted, 0, None, |s.published|, None, [], 0, 0);
    var s1 := SetConn(s.(nextID := id), c, s.conns[c].(pc := Adding(req, id)));
    if s.closed then SetSub(s1, id, CloseChannel(created).(died := Some(|s.published|)))
    else SetSub(s1.(live := s1.live + {id}), id, created)
  }

  /** The locked half of Unsubscribe: look up and delete. The close comes later, outside the lock. */
  function Remove(s: State, c: ConnId, id: SubId): State {
    if id in s.live && id in s.subs then
      SetSub(s.(live := s.live - {id}), id, s.subs[id].(died := Some(|s.published|), closer := Some(c)))
    else s
  }

  function DoUnsubscribe(s: State, c: ConnId, req: nat, id: SubId): State
    requires c in s.conns
  {
    SetConn(Remove(s, c, id), c,
            s.conns[c].(pc := if id in s.live && id in s.subs then Unsubscribing(req, id) else Forgetting(req, id)))
  }

  function DoDrainOne(s: State, c: ConnId, id: SubId): State
    requires c in s.conns && HandlerEnabled(s, s.conns[c], DrainOne(id))
  {
    var todo := s.conns[c].pc.todo - {id};
    SetConn(Remove(s, c, id), c,
            s.conns[c].(pc := if id in s.live && id in s.subs then DrainClosing(todo, id) else Draining(todo)))
  }

  function DoReceive(s: State, id: SubId): State
    requires Enabled(s, Stream(id, Receive))
  {
    var sub := s.subs[id];
    SetSub(s, id, sub.(ch := sub.ch.(buf := sub.ch.buf[1..]), streamer := Received(sub.ch.buf[0])))
  }

  function DoResetDropped(s: State, id: SubId): State
    requires Enabled(s, Stream(id, ResetDropped))
  {
    var sub := s.subs[id];
    var n := sub.ch.dropped;
    SetSub(s, id, sub.(ch := sub.ch.(dropped := 0), taken := sub.taken + n,
                       streamer := if n > 0 then Lagging(n, sub.streamer.ev) else Updating(sub.streamer.ev)))
  }

  function DoWriteLag(s: State, id: SubId, ok: bool): State
    requires Enabled(s, Stream(id, WriteLag(ok)))
  {
    var sub := s.subs[id];
    var st := sub.streamer;
    SetSub(SetConn(s, sub.owner, Written(s.conns[sub.owner], Lag(id, st.count), ok)), id,
           sub.(streamer := if ok then Updating(st.ev) else Exited(WriteFailed, [st.ev], st.count)))
  }

  function DoWriteUpdate(s: State, id: SubId, ok: bool): State
    requires Enabled(s, Stream(id, WriteUpdate(ok)))
  {
    var sub := s.subs[id];
    var st := sub.streamer;
    SetSub(SetConn(s, sub.owner, Written(s.conns[sub.owner], Update(id, st.ev), ok)), id,
           sub.(streamer := if ok then Waiting else Exited(WriteFailed, [st.ev], 0)))
  }

  function Exit(s: State, id: SubId, reason: ExitReason): State
    requires id in s.subs
  {
    SetSub(s, id, s.subs[id].(streamer := Exited(reason, [], 0)))
  }

  function DoLaunch(s: State, c: ConnId, id: SubId): State
    requires c in s.conns && id in s.subs
  {
    SetSub(SetConn(s, c, s.conns[c].(pc := Reading)), id, s.subs[id].(streamer := Waiting))
  }

  /** The close of a deleted subscription, outside the lock. */
  function DoCloseOutsideLock(s: State, c: ConnId, id: SubId, pc: ConnPc): State
    requires c in s.conns && id in s.subs
  {
    SetSub(SetConn(s, c, s.conns[c].(pc := pc)), id, CloseChannel(s.subs[id]))
  }

  /** The handler steps that write nothing and touch no subscription. */
  predicate Quiet(st: HandlerStep) {
    st.AddId? || st.ForgetId? || st.CancelContext? || st.Hangup? || st.FinishDrain? || st.Cancel? || st.CloseSocket?
  }

  function QuietApply(s: State, conn: Conn, st: HandlerStep): Conn
    requires Quiet(st) && HandlerEnabled(s, conn, st)
  {
    var pc := conn.pc;
    if st.AddId? then conn.(ids := conn.ids + {pc.sub}, pc := Confirming(pc.req, pc.sub))
    else if st.ForgetId? then conn.(ids := conn.ids - {pc.sub}, pc := Answering(pc.req))
    else if st.CancelContext? then conn.(ctxDone := true)
    else if st.Hangup? then conn.(pc := Draining(conn.ids), ids := {})
    else if st.FinishDrain? then conn.(pc := Cancelling)
    else if st.Cancel? then conn.(pc := Disconnecting, ctxDone := true)
    else conn.(pc := Ended, broken := true)
  }

  function ManagerApply(s: State, st: ManagerStep): State
    requires ManagerEnabled(s, st)
  {
    match st
    case PublishBegin(ev) => DoPublishBegin(s, ev)
    case PublishVisit(id) => DoPublishVisit(s, id)
    case PublishEnd => s.(lock := Free)
    case CloseBegin => DoCloseBegin(s)
    case CloseOne(id) => DoCloseOne(s, id)
    case CloseEnd => s.(lock := Free, live := {})
  }

  function HandlerApply(s: State, c: ConnId, st: HandlerStep): State
    requires c in s.conns && HandlerEnabled(s, s.conns[c], st)
  {
    var conn := s.conns[c];
    var pc := conn.pc;
    if Quiet(st) then SetConn(s, c, QuietApply(s, conn, st))
    else if st.Greet? then SetConn(s, c, Written(conn, Hello, st.ok).(pc := if st.ok then Reading else Cancelling))
    else if st.Confirm? then SetConn(s, c, Written(conn, Subscribed(pc.req, pc.sub), st.ok).(pc := Launching(pc.sub)))
    else if st.Answer? then SetConn(s, c, Written(conn, Reply(pc.req), st.ok).(pc := Reading))
    else if st.HandlerReply? then SetConn(s, c, Written(conn, Reply(st.req), st.ok))
    else if st.Subscribe? then DoSubscribe(s, c, st.req, st.filter)
    else if st.Launch? then DoLaunch(s, c, pc.sub)
    else if st.Unsubscribe? then DoUnsubscribe(s, c, st.req, st.target)
    else if st.UnsubscribeClose? then DoCloseOutsideLock(s, c, pc.sub, Forgetting(pc.req, pc.sub))
    else if st.DrainOne? then DoDrainOne(s, c, st.sub)
    else DoCloseOutsideLock(s, c, pc.sub, Draining(pc.todo))
  }

  function StreamerApply(s: State, id: SubId, st: StreamerStep): State
    requires Enabled(s, Stream(id, st))
  {
    match st
    case Receive => DoReceive(s, id)
    case SeeClosed => Exit(s, id, ChannelClosed)
    case SeeContext => Exit(s, id, ContextDone)
    case ResetDropped => DoResetDropped(s, id)
    case WriteLag(ok) => DoWriteLag(s, id, ok)
    case WriteUpdate(ok) => DoWriteUpdate(s, id, ok)
  }

  function Apply(s: State, st: Step): State
    requires Enabled(s, st)
  {
    match st
    case Manager(m) => ManagerApply(s, m)
    case Handler(c, h) =>
      if h.Accept? then SetConn(s, c, Conn(Greeting, {}, [], false, false)) else HandlerApply(s, c, h)
    case Stream(id, t) => StreamerApply(s, id, t)
  }

  // ----- what the wire and the history say about one subscription -----

  predicate StreamFrame(f: Frame) { f.Update? || f.Lag? }

  /** The update and lag frames of one subscription, in the order they were written. */
  function FramesOf(wire: seq<Frame>, id: SubId): seq<Frame> {
    if wire == [] then []
    else
      var f := wire[|wire| - 1];
      var front := FramesOf(wire[..|wire| - 1], id);
      if StreamFrame(f) && f.sub == id then front + [f] else front
  }

  function Updates(frames: seq<Frame>): seq<WatchEvent> {
    if frames == [] then []
    else
      var f := frames[|frames| - 1];
      var front := Updates(frames[..|frames| - 1]);
      if f.Update? then front + [f.ev] else front
  }

  function LagTotal(frames: seq<Frame>): nat {
    if frames == [] then 0
    else
      var f := frames[|frames| - 1];
      LagTotal(frames[..|frames| - 1]) + if f.Lag? then f.count else 0
  }

  /** The event a streamer has received but not written (or lost to a failed write). */
  function Held(st: Streamer): seq<WatchEvent> {
    match st
    case Received(ev) => [ev]
    case Lagging(_, ev) => [ev]
    case Updating(ev) => [ev]
    case Exited(_, lost, _) => lost
    case _ => []
  }

  /** The drops a streamer has taken off the counter but not reported (or lost to a failed write). */
  function HeldDrops(st: Streamer): nat {
    match st
    case Lagging(n, _) => n
    case Exited(_, _, n) => n
    case _ => 0
  }

  /** In the manager's map, and not yet reached by a Close that is under way. */
  predicate Open(s: State, id: SubId) {
    id in s.live && (s.lock.Closing? ==> id in s.lock.pending)
  }

  /** How much of the published history has been put to this subscription. */
  function Horizon(s: State, id: SubId): int
    requires id in s.subs
  {
    if s.subs[id].died.Some? then s.subs[id].died.value
    else if s.lock.Publishing? && id in s.lock.pending then |s.published| - 1
    else |s.published|
  }

  /** The matching events published while the subscription was live. */
  function Offered(s: State, id: SubId): seq<WatchEvent>
    requires id in s.subs
    requires 0 <= s.subs[id].born <= Horizon(s, id) <= |s.published|
  {
    Matching(s.subs[id].filter, s.published[s.subs[id].born..Horizon(s, id)])
  }

  function Wire(s: State, id: SubId): seq<Frame>
    requires SubAt(s, id)
  {
    s.conns[s.subs[id].owner].wire
  }

  /** The subscribe response for `id` is on the wire. */
  predicate Confirmed(wire: seq<Frame>, id: SubId) {
    wire != [] &&
    var f := wire[|wire| - 1];
    (f.Subscribed? && f.confirms == id) || Confirmed(wire[..|wire| - 1], id)
  }

  // ----- runs -----

  ghost predicate IsRun(bufSize: int, states: seq<State>, steps: seq<Step>) {
    && |states| == |steps| + 1
    && states[0] == Init(bufSize)
    && forall i :: 0 <= i < |steps| ==> Enabled(states[i], steps[i]) && states[i + 1] == Apply(states[i], steps[i])
  }
}
