/**
  Request and response matching over one connection: any number of concurrent calls, one FIFO socket each
  way, handlers that finish in any order, and the reader goroutine that hands each response to its caller.
  Runs without a concurrent Close of the client.
*/
module Rpc {
  import opened Wrappers

  datatype Outcome = Result(body: string) | Error(message: string)

  datatype Request = Request(id: nat, method_: string, params: string)

  datatype Frame = Response(id: nat, outcome: Outcome) | Event(name: string)

  datatype CallResult = Returned(outcome: Outcome) | ContextDone | SendFailed

  datatype CallPc = Registering | Sending | Waiting | Leaving(result: CallResult) | Done(result: CallResult)

  /** `chan` is the call's response channel, of capacity one. */
  datatype Call = Call(method_: string, params: string, pc: CallPc, chan: seq<Outcome>)

  /** A request the server has taken off the socket. Built-in methods block the dispatcher until answered. */
  datatype Job = Job(req: Request, blocking: bool, outcome: Option<Outcome>)

  datatype Answer = Answer(req: Request, outcome: Outcome)

  datatype Reader =
    | Idle
    | Matching(id: nat, outcome: Outcome)
    | Delivering(id: nat, outcome: Outcome)
    | PushingEvent(name: string)

  /** `ran` and `answered` and `delivered` are records; no step reads them. */
  datatype State = State(
    handlers: set<string>,
    nextID: nat,
    calls: map<nat, Call>,
    pending: set<nat>,
    toServer: seq<Request>,
    jobs: seq<Job>,
    toClient: seq<Frame>,
    broken: bool,
    reader: Reader,
    events: seq<string>,
    ran: seq<Answer>,
    answered: seq<nat>,
    delivered: set<nat>)

  const EVENTS_CAPACITY: nat := 64

  const BUILT_IN: set<string> := {"ping", "daemon.stats", "subscribe", "unsubscribe"}

  function Init(handlers: set<string>): State {
    State(handlers, 0, map[], {}, [], [], [], false, Idle, [], [], [], {})
  }

  datatype Step =
    | Begin(method_: string, params: string)
    | Register(id: nat)
    | Send(id: nat, ok: bool)
    | TakeResponse(id: nat)
    | GiveUp(id: nat)
    | Leave(id: nat)
    | Dispatch
    | Finish(job: nat, outcome: Outcome)
    | WriteResponse(job: nat, ok: bool)
    | RejectFrame
    | PushServerEvent(name: string)
    | ReadFrame
    | Lookup
    | Deliver
    | PushEvent
    | ConsumeEvent

  predicate CallAt(s: State, id: nat, pc: CallPc) { id in s.calls && s.calls[id].pc == pc }

  predicate Blocked(jobs: seq<Job>) { exists i :: 0 <= i < |jobs| && jobs[i].blocking }

  predicate Enabled(s: State, st: Step) {
    match st
    case Begin(_, _) => true
    case Register(id) => CallAt(s, id, Registering)
    case Send(id, _) => CallAt(s, id, Sending)
    case TakeResponse(id) => CallAt(s, id, Waiting) && s.calls[id].chan != []
    case GiveUp(id) => CallAt(s, id, Waiting)
    case Leave(id) => id in s.calls && s.calls[id].pc.Leaving?
    case Dispatch => s.toServer != [] && !Blocked(s.jobs)
    case Finish(j, _) => j < |s.jobs| && s.jobs[j].outcome.None?
    case WriteResponse(j, ok) => j < |s.jobs| && s.jobs[j].outcome.Some? && (ok ==> !s.broken)
    case RejectFrame => !s.broken
    case PushServerEvent(_) => !s.broken
    case ReadFrame => s.reader.Idle? && s.toClient != []
    case Lookup => s.reader.Matching?
    case Deliver => s.reader.Delivering? && s.reader.id in s.calls && |s.calls[s.reader.id].chan| < 1
    case PushEvent => s.reader.PushingEvent? && |s.events| < EVENTS_CAPACITY
    case ConsumeEvent => s.events != []
  }

  function SetCall(s: State, id: nat, call: Call): State { s.(calls := s.calls[id := call]) }

  function DoSend(s: State, id: nat, ok: bool): State
    requires id in s.calls
  {
    var call := s.calls[id];
    if ok then
      SetCall(s, id, call.(pc := Waiting)).(toServer := s.toServer + [Request(id, call.method_, call.params)])
    else SetCall(s, id, call.(pc := Leaving(SendFailed)))
  }

  function DoDispatch(s: State): State
    requires s.toServer != []
  {
    var req := s.toServer[0];
    var blocking := req.method_ in BUILT_IN || req.method_ !in s.handlers;
    s.(toServer := s.toServer[1..], jobs := s.jobs + [Job(req, blocking, None)])
  }

  function DoFinish(s: State, j: nat, outcome: Outcome): State
    requires j < |s.jobs|
  {
    s.(jobs := s.jobs[j := s.jobs[j].(outcome := Some(outcome))], ran := s.ran + [Answer(s.jobs[j].req, outcome)])
  }

  function DoWriteResponse(s: State, j: nat, ok: bool): State
    requires j < |s.jobs| && s.jobs[j].outcome.Some?
  {
    var id := s.jobs[j].req.id;
    var s1 := s.(jobs := s.jobs[..j] + s.jobs[j + 1..]);
    if ok then s1.(toClient := s.toClient + [Response(id, s.jobs[j].outcome.value)], answered := s.answered + [id])
    else s1.(broken := true)
  }

  function DoReadFrame(s: State): State
    requires s.toClient != []
  {
    var f := s.toClient[0];
    s.(toClient := s.toClient[1..], reader := if f.Event? then PushingEvent(f.name) else Matching(f.id, f.outcome))
  }

  function DoDeliver(s: State): State
    requires s.reader.Delivering? && s.reader.id in s.calls
  {
    var id := s.reader.id;
    SetCall(s, id, s.calls[id].(chan := s.calls[id].chan + [s.reader.outcome]))
      .(reader := Idle, delivered := s.delivered + {id})
  }

  function Apply(s: State, st: Step): State
    requires Enabled(s, st)
  {
    match st
    case Begin(m, p) => SetCall(s, s.nextID + 1, Call(m, p, Registering, [])).(nextID := s.nextID + 1)
    case Register(id) => SetCall(s, id, s.calls[id].(pc := Sending)).(pending := s.pending + {id})
    case Send(id, ok) => DoSend(s, id, ok)
    case TakeResponse(id) =>
      var call := s.calls[id];
      SetCall(s, id, call.(pc := Leaving(Returned(call.chan[0])), chan := call.chan[1..]))
    case GiveUp(id) => SetCall(s, id, s.calls[id].(pc := Leaving(ContextDone)))
    case Leave(id) =>
      SetCall(s, id, s.calls[id].(pc := Done(s.calls[id].pc.result))).(pending := s.pending - {id})
    case Dispatch => DoDispatch(s)
    case Finish(j, outcome) => DoFinish(s, j, outcome)
    case WriteResponse(j, ok) => DoWriteResponse(s, j, ok)
    case RejectFrame => s.(toClient := s.toClient + [Response(0, Error("invalid_frame"))])
    case PushServerEvent(name) => s.(toClient := s.toClient + [Event(name)])
    case ReadFrame => DoReadFrame(s)
    case Lookup =>
      var r := s.reader;
      s.(reader := if r.id in s.pending then Delivering(r.id, r.outcome) else Idle)
    case Deliver => DoDeliver(s)
    case PushEvent => s.(reader := Idle, events := s.events + [s.reader.name])
    case ConsumeEvent => s.(events := s.events[1..])
  }

  // ----- where a request's one token is -----

  function ReqIds(q: seq<Request>): (ids: seq<nat>)
    ensures |ids| == |q| && forall i :: 0 <= i < |q| ==> ids[i] == q[i].id
  {
    seq(|q|, i requires 0 <= i < |q| => q[i].id)
  }

  function JobIds(jobs: seq<Job>): (ids: seq<nat>)
    ensures |ids| == |jobs| && forall i :: 0 <= i < |jobs| ==> ids[i] == jobs[i].req.id
  {
    seq(|jobs|, i requires 0 <= i < |jobs| => jobs[i].req.id)
  }

  /** Events carry no id; 0 is the id no request uses. */
  function FrameId(f: Frame): nat { if f.Response? then f.id else 0 }

  function FrameIds(q: seq<Frame>): (ids: seq<nat>)
    ensures |ids| == |q| && forall i :: 0 <= i < |q| ==> ids[i] == FrameId(q[i])
  {
    seq(|q|, i requires 0 <= i < |q| => FrameId(q[i]))
  }

  function ReaderIds(r: Reader): seq<nat> {
    match r
    case Matching(id, _) => [id]
    case Delivering(id, _) => [id]
    case _ => []
  }

  /** Every place a request, or the response to it, can be: one occurrence per id at most. */
  function Tokens(s: State): multiset<nat> {
    multiset(ReqIds(s.toServer)) + multiset(JobIds(s.jobs)) + multiset(FrameIds(s.toClient))
    + multiset(ReaderIds(s.reader)) + multiset(s.delivered)
  }

  predicate Sent(call: Call) {
    && !call.pc.Registering? && !call.pc.Sending?
    && call.pc != Leaving(SendFailed) && call.pc != Done(SendFailed)
  }

  /** The request belongs to a call and carries that call's method and parameters. */
  predicate ReqOk(calls: map<nat, Call>, r: Request) {
    r.id in calls && Sent(calls[r.id]) && calls[r.id].method_ == r.method_ && calls[r.id].params == r.params
  }

  /** Some handler run on the call's own method and parameters produced the outcome. */
  predicate Produced(calls: map<nat, Call>, ran: seq<Answer>, id: nat, outcome: Outcome) {
    id in calls &&
    exists k :: 0 <= k < |ran| && ran[k] == Answer(Request(id, calls[id].method_, calls[id].params), outcome)
  }

  /** No handler has finished this request and no response to it was written. */
  predicate Untouched(ran: seq<Answer>, answered: seq<nat>, id: nat) {
    id !in answered && forall k :: 0 <= k < |ran| ==> ran[k].req.id != id
  }

  predicate CallOk(s: State, id: nat)
    requires id in s.calls
  {
    var call := s.calls[id];
    && 1 <= id <= s.nextID
    && (id in s.pending <==> call.pc.Sending? || call.pc.Waiting? || call.pc.Leaving?)
    && |call.chan| <= 1
    && (call.chan != [] ==> id in s.delivered && Produced(s.calls, s.ran, id, call.chan[0]))
    && (call.pc.Leaving? && call.pc.result.Returned? ==> Produced(s.calls, s.ran, id, call.pc.result.outcome))
    && (call.pc.Done? && call.pc.result.Returned? ==> Produced(s.calls, s.ran, id, call.pc.result.outcome))
  }

  predicate JobOk(calls: map<nat, Call>, ran: seq<Answer>, answered: seq<nat>, job: Job) {
    && ReqOk(calls, job.req)
    && job.req.id !in answered
    && (if job.outcome.Some? then Produced(calls, ran, job.req.id, job.outcome.value)
        else Untouched(ran, answered, job.req.id))
  }

  predicate FrameOk(calls: map<nat, Call>, ran: seq<Answer>, f: Frame) {
    f.Response? && f.id != 0 ==> Produced(calls, ran, f.id, f.outcome)
  }

  predicate ReaderOk(calls: map<nat, Call>, ran: seq<Answer>, reader: Reader) {
    match reader
    case Matching(id, o) => id != 0 ==> Produced(calls, ran, id, o)
    case Delivering(id, o) => Produced(calls, ran, id, o)
    case _ => true
  }

  predicate Distinct(ids: seq<nat>) { forall i, j :: 0 <= i < j < |ids| ==> ids[i] != ids[j] }

  ghost predicate CallsInv(s: State) {
    && (forall id :: id in s.calls ==> CallOk(s, id))
    && s.pending <= s.calls.Keys
  }

  predicate RequestsInv(calls: map<nat, Call>, ran: seq<Answer>, answered: seq<nat>, q: seq<Request>) {
    forall i :: 0 <= i < |q| ==> ReqOk(calls, q[i]) && Untouched(ran, answered, q[i].id)
  }

  predicate JobsInv(calls: map<nat, Call>, ran: seq<Answer>, answered: seq<nat>, jobs: seq<Job>) {
    forall i :: 0 <= i < |jobs| ==> JobOk(calls, ran, answered, jobs[i])
  }

  predicate FramesInv(calls: map<nat, Call>, ran: seq<Answer>, q: seq<Frame>) {
    forall i :: 0 <= i < |q| ==> FrameOk(calls, ran, q[i])
  }

  /** Each id has at most one token, and only requests that were sent have one. */
  ghost predicate TokensInv(calls: map<nat, Call>, tokens: multiset<nat>) {
    forall id :: id != 0 && id in tokens ==> tokens[id] == 1 && id in calls && Sent(calls[id])
  }

  predicate RanInv(calls: map<nat, Call>, ran: seq<Answer>) {
    && (forall k :: 0 <= k < |ran| ==> ReqOk(calls, ran[k].req))
    && (forall j, k :: 0 <= j < k < |ran| ==> ran[j].req.id != ran[k].req.id)
  }

  predicate AnsweredInv(calls: map<nat, Call>, answered: seq<nat>) {
    Distinct(answered) && forall i :: 0 <= i < |answered| ==> answered[i] in calls && Sent(calls[answered[i]])
  }

  ghost predicate Inv(s: State) {
    && CallsInv(s)
    && RequestsInv(s.calls, s.ran, s.answered, s.toServer)
    && JobsInv(s.calls, s.ran, s.answered, s.jobs)
    && FramesInv(s.calls, s.ran, s.toClient)
    && ReaderOk(s.calls, s.ran, s.reader)
    && TokensInv(s.calls, Tokens(s))
    && RanInv(s.calls, s.ran)
    && AnsweredInv(s.calls, s.answered)
    && |s.events| <= EVENTS_CAPACITY
  }

  // ----- what later states keep -----

  /** The calls and their contents, and what was sent. */
  predicate Extends(calls: map<nat, Call>, calls': map<nat, Call>) {
    forall id :: id in calls ==>
      && id in calls'
      && calls'[id].method_ == calls[id].method_ && calls'[id].params == calls[id].params
      && (Sent(calls[id]) ==> Sent(calls'[id]))
  }

  lemma ProducedStays(
    calls: map<nat, Call>, calls': map<nat, Call>, ran: seq<Answer>, more: seq<Answer>, id: nat,
    outcome: Outcome)
    requires Extends(calls, calls') && Produced(calls, ran, id, outcome)
    ensures Produced(calls', ran + more, id, outcome)
  {
    var k :| 0 <= k < |ran| && ran[k] == Answer(Request(id, calls[id].method_, calls[id].params), outcome);
    assert (ran + more)[k] == ran[k];
  }

  lemma FramesStay(
    calls: map<nat, Call>, calls': map<nat, Call>, ran: seq<Answer>, more: seq<Answer>, q: seq<Frame>,
    reader: Reader)
    requires Extends(calls, calls') && FramesInv(calls, ran, q) && ReaderOk(calls, ran, reader)
    ensures FramesInv(calls', ran + more, q) && ReaderOk(calls', ran + more, reader)
  {
    forall i | 0 <= i < |q| ensures FrameOk(calls', ran + more, q[i]) {
      assert FrameOk(calls, ran, q[i]);
      if q[i].Response? && q[i].id != 0 { ProducedStays(calls, calls', ran, more, q[i].id, q[i].outcome); }
    }
    match reader
    case Matching(id, o) => if id != 0 { ProducedStays(calls, calls', ran, more, id, o); }
    case Delivering(id, o) => ProducedStays(calls, calls', ran, more, id, o);
    case _ =>
  }

  lemma JobsStay(calls: map<nat, Call>, calls': map<nat, Call>, ran: seq<Answer>, answered: seq<nat>, jobs: seq<Job>)
    requires Extends(calls, calls') && JobsInv(calls, ran, answered, jobs)
    ensures JobsInv(calls', ran, answered, jobs)
  {
    forall i | 0 <= i < |jobs| ensures JobOk(calls', ran, answered, jobs[i]) {
      assert JobOk(calls, ran, answered, jobs[i]);
      if jobs[i].outcome.Some? {
        ProducedStays(calls, calls', ran, [], jobs[i].req.id, jobs[i].outcome.value);
        assert ran + [] == ran;
      }
    }
  }

  lemma RecordsStay(
    calls: map<nat, Call>, calls': map<nat, Call>, ran: seq<Answer>, answered: seq<nat>, q: seq<Request>)
    requires Extends(calls, calls')
    requires RequestsInv(calls, ran, answered, q) && RanInv(calls, ran) && AnsweredInv(calls, answered)
    ensures RequestsInv(calls', ran, answered, q) && RanInv(calls', ran) && AnsweredInv(calls', answered)
  {
  }

  lemma CallStays(s: State, s': State, id: nat, more: seq<Answer>)
    requires Extends(s.calls, s'.calls) && id in s.calls && CallOk(s, id) && s'.calls[id] == s.calls[id]
    requires s'.ran == s.ran + more
    requires s.nextID <= s'.nextID && s.delivered <= s'.delivered && (id in s'.pending <==> id in s.pending)
    ensures CallOk(s', id)
  {
    var call := s.calls[id];
    if call.chan != [] { ProducedStays(s.calls, s'.calls, s.ran, more, id, call.chan[0]); }
    if call.pc.Leaving? && call.pc.result.Returned? {
      ProducedStays(s.calls, s'.calls, s.ran, more, id, call.pc.result.outcome);
    }
    if call.pc.Done? && call.pc.result.Returned? {
      ProducedStays(s.calls, s'.calls, s.ran, more, id, call.pc.result.outcome);
    }
  }

  /** A step that leaves the calls as they are. */
  lemma CallsStay(s: State, s': State, more: seq<Answer>)
    requires CallsInv(s) && s'.calls == s.calls && s'.pending == s.pending && s'.ran == s.ran + more
    requires s.nextID <= s'.nextID && s.delivered <= s'.delivered
    ensures CallsInv(s')
  {
    forall id | id in s'.calls ensures CallOk(s', id) { CallStays(s, s', id, more); }
  }

  // ----- tokens -----

  lemma TokensKept(calls: map<nat, Call>, calls': map<nat, Call>, tokens: multiset<nat>, tokens': multiset<nat>)
    requires TokensInv(calls, tokens) && Extends(calls, calls')
    requires forall id :: id != 0 ==> tokens'[id] <= tokens[id]
    ensures TokensInv(calls', tokens')
  {
  }

  lemma SendTokens(s: State, s': State, r: Request)
    requires s'.toServer == s.toServer + [r]
    requires s'.jobs == s.jobs && s'.toClient == s.toClient && s'.reader == s.reader && s'.delivered == s.delivered
    ensures Tokens(s') == Tokens(s) + multiset{r.id}
  {
    assert ReqIds(s'.toServer) == ReqIds(s.toServer) + [r.id];
  }

  lemma DispatchTokens(s: State)
    requires s.toServer != []
    ensures Tokens(DoDispatch(s)) == Tokens(s)
  {
    var s' := DoDispatch(s);
    var r := s.toServer[0];
    assert ReqIds(s.toServer) == [r.id] + ReqIds(s.toServer[1..]);
    assert JobIds(s'.jobs) == JobIds(s.jobs) + [r.id];
  }

  lemma FinishTokens(s: State, j: nat, outcome: Outcome)
    requires j < |s.jobs|
    ensures Tokens(DoFinish(s, j, outcome)) == Tokens(s)
  {
    assert JobIds(DoFinish(s, j, outcome).jobs) == JobIds(s.jobs);
  }

  lemma RemovedJobIds(jobs: seq<Job>, j: nat)
    requires j < |jobs|
    ensures multiset(JobIds(jobs)) == multiset(JobIds(jobs[..j] + jobs[j + 1..])) + multiset{jobs[j].req.id}
  {
    var front, id, back := JobIds(jobs[..j]), jobs[j].req.id, JobIds(jobs[j + 1..]);
    assert JobIds(jobs) == front + [id] + back;
    assert JobIds(jobs[..j] + jobs[j + 1..]) == front + back;
  }

  lemma WriteTokens(s: State, j: nat, ok: bool)
    requires j < |s.jobs| && s.jobs[j].outcome.Some?
    ensures Tokens(DoWriteResponse(s, j, ok)) <= Tokens(s)
  {
    RemovedJobIds(s.jobs, j);
    if ok {
      assert FrameIds(DoWriteResponse(s, j, ok).toClient) == FrameIds(s.toClient) + [s.jobs[j].req.id];
    }
  }

  lemma PushTokens(s: State, f: Frame)
    requires FrameId(f) == 0
    ensures Tokens(s.(toClient := s.toClient + [f])) == Tokens(s) + multiset{0}
  {
    assert FrameIds(s.toClient + [f]) == FrameIds(s.toClient) + [0];
  }

  lemma ReadTokens(s: State)
    requires s.reader.Idle? && s.toClient != []
    ensures Tokens(DoReadFrame(s)) <= Tokens(s)
  {
    var s' := DoReadFrame(s);
    var id, rest := FrameId(s.toClient[0]), FrameIds(s.toClient[1..]);
    assert FrameIds(s.toClient) == [id] + rest;
    assert multiset(FrameIds(s.toClient)) == multiset{id} + multiset(rest);
    assert multiset(ReaderIds(s'.reader)) == if s.toClient[0].Event? then multiset{} else multiset{id};
  }

  lemma DeliverTokens(s: State)
    requires s.reader.Delivering? && s.reader.id in s.calls && s.reader.id !in s.delivered
    ensures Tokens(DoDeliver(s)) == Tokens(s)
  {
    assert multiset(DoDeliver(s).delivered) == multiset(s.delivered) + multiset{s.reader.id};
  }

  /** A job's id is in no other job and not on the socket. */
  lemma JobToken(s: State, j: nat)
    requires TokensInv(s.calls, Tokens(s)) && j < |s.jobs| && s.jobs[j].req.id != 0
    ensures var id := s.jobs[j].req.id;
      && (forall i :: 0 <= i < |s.jobs| && i != j ==> s.jobs[i].req.id != id)
      && (forall i :: 0 <= i < |s.toServer| ==> s.toServer[i].id != id)
  {
    var id := s.jobs[j].req.id;
    var rest, reqs := s.jobs[..j] + s.jobs[j + 1..], ReqIds(s.toServer);
    RemovedJobIds(s.jobs, j);
    assert id in Tokens(s);
    assert id !in multiset(JobIds(rest)) && id !in multiset(reqs);
    forall i | 0 <= i < |s.jobs| && i != j ensures s.jobs[i].req.id != id {
      var at := if i < j then i else i - 1;
      assert rest[at] == s.jobs[i] && JobIds(rest)[at] in JobIds(rest);
    }
    forall i | 0 <= i < |s.toServer| ensures s.toServer[i].id != id {
      assert reqs[i] in reqs;
    }
  }

  // ----- a caller's own steps -----

  /** A step that changes one call and its registration. */
  predicate OneCallChanged(s: State, s': State, id: nat) {
    && id in s'.calls && s'.calls == s.calls[id := s'.calls[id]] && s.nextID <= s'.nextID
    && s'.pending - {id} == s.pending - {id}
    && s' == s.(nextID := s'.nextID, calls := s'.calls, pending := s'.pending)
  }

  lemma CallerCalls(s: State, s': State, id: nat)
    requires CallsInv(s) && Extends(s.calls, s'.calls) && OneCallChanged(s, s', id) && CallOk(s', id)
    ensures CallsInv(s')
  {
    assert s.ran + [] == s.ran;
    forall i ensures i != id ==> (i in s'.pending <==> i in s.pending) {
      assert i in s'.pending - {id} <==> i in s.pending - {id};
    }
    forall i | i in s'.calls ensures CallOk(s', i) {
      if i != id { CallStays(s, s', i, []); }
    }
  }

  lemma CallerStep(s: State, s': State, id: nat)
    requires Inv(s) && Extends(s.calls, s'.calls) && OneCallChanged(s, s', id) && CallOk(s', id)
    ensures Inv(s')
  {
    CallerCalls(s, s', id);
    assert s.ran + [] == s.ran;
    FramesStay(s.calls, s'.calls, s.ran, [], s.toClient, s.reader);
    JobsStay(s.calls, s'.calls, s.ran, s.answered, s.jobs);
    RecordsStay(s.calls, s'.calls, s.ran, s.answered, s.toServer);
    assert Tokens(s') == Tokens(s);
    TokensKept(s.calls, s'.calls, Tokens(s), Tokens(s'));
  }

  /** A request that was never sent has left no trace. */
  lemma UnsentUntouched(calls: map<nat, Call>, ran: seq<Answer>, answered: seq<nat>, id: nat)
    requires RanInv(calls, ran) && AnsweredInv(calls, answered) && id in calls && !Sent(calls[id])
    ensures Untouched(ran, answered, id)
  {
  }

  /** One more request on the way, if its id is nowhere yet. */
  lemma RequestAdded(
    calls: map<nat, Call>, ran: seq<Answer>, answered: seq<nat>, q: seq<Request>, r: Request)
    requires RequestsInv(calls, ran, answered, q) && ReqOk(calls, r) && Untouched(ran, answered, r.id)
    ensures RequestsInv(calls, ran, answered, q + [r])
  {
  }

  lemma TokenAdded(calls: map<nat, Call>, tokens: multiset<nat>, id: nat)
    requires TokensInv(calls, tokens) && id !in tokens && id in calls && Sent(calls[id])
    ensures TokensInv(calls, tokens + multiset{id})
  {
  }

  /** The request goes on its way. */
  lemma QueueInv(s: State, r: Request)
    requires Inv(s) && ReqOk(s.calls, r) && Untouched(s.ran, s.answered, r.id) && r.id !in Tokens(s)
    ensures Inv(s.(toServer := s.toServer + [r]))
  {
    var s' := s.(toServer := s.toServer + [r]);
    SendTokens(s, s', r);
    TokenAdded(s.calls, Tokens(s), r.id);
    RequestAdded(s.calls, s.ran, s.answered, s.toServer, r);
    assert s.ran + [] == s.ran;
    CallsStay(s, s', []);
  }

  /** An id that has not been sent is nowhere. */
  lemma UnsentNowhere(s: State, id: nat)
    requires Inv(s) && CallAt(s, id, Sending)
    ensures Untouched(s.ran, s.answered, id) && id !in Tokens(s)
  {
    assert CallOk(s, id);
    UnsentUntouched(s.calls, s.ran, s.answered, id);
  }

  lemma SendInv(s: State, id: nat)
    requires Inv(s) && CallAt(s, id, Sending)
    ensures Inv(DoSend(s, id, true))
  {
    var call := s.calls[id];
    var s1 := SetCall(s, id, call.(pc := Waiting));
    UnsentNowhere(s, id);
    assert Inv(s1) by {
      assert CallOk(s, id);
      CallerStep(s, s1, id);
    }
    assert Tokens(s1) == Tokens(s);
    QueueInv(s1, Request(id, call.method_, call.params));
  }

  // ----- the server -----

  lemma DispatchJobs(
    calls: map<nat, Call>, ran: seq<Answer>, answered: seq<nat>, q: seq<Request>, jobs: seq<Job>, blocking: bool)
    requires RequestsInv(calls, ran, answered, q) && JobsInv(calls, ran, answered, jobs) && q != []
    ensures RequestsInv(calls, ran, answered, q[1..])
    ensures JobsInv(calls, ran, answered, jobs + [Job(q[0], blocking, None)])
  {
    assert ReqOk(calls, q[0]) && Untouched(ran, answered, q[0].id);
  }

  lemma DispatchInv(s: State)
    requires Inv(s) && s.toServer != []
    ensures Inv(DoDispatch(s))
  {
    var s' := DoDispatch(s);
    DispatchTokens(s);
    DispatchJobs(s.calls, s.ran, s.answered, s.toServer, s.jobs, s'.jobs[|s.jobs|].blocking);
    assert s.ran + [] == s.ran;
    CallsStay(s, s', []);
  }

  lemma FinishJobs(
    calls: map<nat, Call>, ran: seq<Answer>, answered: seq<nat>, jobs: seq<Job>, j: nat, outcome: Outcome)
    requires JobsInv(calls, ran, answered, jobs) && j < |jobs|
    requires forall i :: 0 <= i < |jobs| && i != j ==> jobs[i].req.id != jobs[j].req.id
    ensures JobsInv(calls, ran + [Answer(jobs[j].req, outcome)], answered,
                    jobs[j := jobs[j].(outcome := Some(outcome))])
  {
    var ran', jobs' := ran + [Answer(jobs[j].req, outcome)], jobs[j := jobs[j].(outcome := Some(outcome))];
    assert JobOk(calls, ran, answered, jobs[j]);
    assert ran'[|ran|] == Answer(jobs[j].req, outcome);
    forall i | 0 <= i < |jobs'| ensures JobOk(calls, ran', answered, jobs'[i]) {
      assert JobOk(calls, ran, answered, jobs[i]);
      if i != j && jobs[i].outcome.Some? {
        ProducedStays(calls, calls, ran, [Answer(jobs[j].req, outcome)], jobs[i].req.id, jobs[i].outcome.value);
      }
    }
  }

  lemma FinishRecords(
    calls: map<nat, Call>, ran: seq<Answer>, answered: seq<nat>, q: seq<Request>, job: Job, outcome: Outcome)
    requires RequestsInv(calls, ran, answered, q) && RanInv(calls, ran)
    requires JobOk(calls, ran, answered, job) && job.outcome.None?
    requires forall i :: 0 <= i < |q| ==> q[i].id != job.req.id
    ensures RequestsInv(calls, ran + [Answer(job.req, outcome)], answered, q)
    ensures RanInv(calls, ran + [Answer(job.req, outcome)])
  {
  }

  lemma FinishInv(s: State, j: nat, outcome: Outcome)
    requires Inv(s) && j < |s.jobs| && s.jobs[j].outcome.None?
    ensures Inv(DoFinish(s, j, outcome))
  {
    var s' := DoFinish(s, j, outcome);
    assert JobOk(s.calls, s.ran, s.answered, s.jobs[j]) && CallOk(s, s.jobs[j].req.id);
    FinishTokens(s, j, outcome);
    JobToken(s, j);
    FinishJobs(s.calls, s.ran, s.answered, s.jobs, j, outcome);
    FinishRecords(s.calls, s.ran, s.answered, s.toServer, s.jobs[j], outcome);
    FramesStay(s.calls, s.calls, s.ran, [Answer(s.jobs[j].req, outcome)], s.toClient, s.reader);
    CallsStay(s, s', [Answer(s.jobs[j].req, outcome)]);
  }

  lemma WriteJobs(calls: map<nat, Call>, ran: seq<Answer>, answered: seq<nat>, jobs: seq<Job>, j: nat)
    requires JobsInv(calls, ran, answered, jobs) && j < |jobs|
    requires forall i :: 0 <= i < |jobs| && i != j ==> jobs[i].req.id != jobs[j].req.id
    ensures JobsInv(calls, ran, answered, jobs[..j] + jobs[j + 1..])
    ensures JobsInv(calls, ran, answered + [jobs[j].req.id], jobs[..j] + jobs[j + 1..])
  {
    var jobs' := jobs[..j] + jobs[j + 1..];
    forall i | 0 <= i < |jobs'|
      ensures JobOk(calls, ran, answered, jobs'[i]) && JobOk(calls, ran, answered + [jobs[j].req.id], jobs'[i])
    {
      var was := if i < j then i else i + 1;
      assert jobs'[i] == jobs[was] && JobOk(calls, ran, answered, jobs[was]);
    }
  }

  lemma WriteRecords(
    calls: map<nat, Call>, ran: seq<Answer>, answered: seq<nat>, q: seq<Request>, toClient: seq<Frame>, job: Job)
    requires RequestsInv(calls, ran, answered, q) && AnsweredInv(calls, answered) && FramesInv(calls, ran, toClient)
    requires JobOk(calls, ran, answered, job) && job.outcome.Some?
    requires forall i :: 0 <= i < |q| ==> q[i].id != job.req.id
    ensures RequestsInv(calls, ran, answered + [job.req.id], q) && AnsweredInv(calls, answered + [job.req.id])
    ensures FramesInv(calls, ran, toClient + [Response(job.req.id, job.outcome.value)])
  {
  }

  lemma WriteTokensInv(s: State, j: nat, ok: bool)
    requires TokensInv(s.calls, Tokens(s)) && j < |s.jobs| && s.jobs[j].outcome.Some?
    ensures TokensInv(s.calls, Tokens(DoWriteResponse(s, j, ok)))
  {
    WriteTokens(s, j, ok);
    TokensKept(s.calls, s.calls, Tokens(s), Tokens(DoWriteResponse(s, j, ok)));
  }

  lemma WriteCalls(s: State, j: nat, ok: bool)
    requires CallsInv(s) && j < |s.jobs| && s.jobs[j].outcome.Some?
    ensures CallsInv(DoWriteResponse(s, j, ok))
  {
    assert s.ran + [] == s.ran;
    CallsStay(s, DoWriteResponse(s, j, ok), []);
  }

  lemma WriteResponseInv(s: State, j: nat, ok: bool)
    requires Inv(s) && j < |s.jobs| && s.jobs[j].outcome.Some?
    ensures Inv(DoWriteResponse(s, j, ok))
  {
    assert JobOk(s.calls, s.ran, s.answered, s.jobs[j]) && CallOk(s, s.jobs[j].req.id);
    JobToken(s, j);
    WriteTokensInv(s, j, ok);
    WriteJobs(s.calls, s.ran, s.answered, s.jobs, j);
    WriteRecords(s.calls, s.ran, s.answered, s.toServer, s.toClient, s.jobs[j]);
    WriteCalls(s, j, ok);
  }

  lemma PushFrameInv(s: State, f: Frame)
    requires Inv(s) && FrameId(f) == 0
    ensures Inv(s.(toClient := s.toClient + [f]))
  {
    var s' := s.(toClient := s.toClient + [f]);
    PushTokens(s, f);
    TokensKept(s.calls, s'.calls, Tokens(s), Tokens(s'));
    assert s.ran + [] == s.ran;
    CallsStay(s, s', []);
  }

  // ----- the reader -----

  lemma ReadFrameInv(s: State)
    requires Inv(s) && s.reader.Idle? && s.toClient != []
    ensures Inv(DoReadFrame(s))
  {
    var s' := DoReadFrame(s);
    ReadTokens(s);
    TokensKept(s.calls, s'.calls, Tokens(s), Tokens(s'));
    assert FrameOk(s.calls, s.ran, s.toClient[0]);
    assert s.ran + [] == s.ran;
    CallsStay(s, s', []);
  }

  predicate ReaderMoves(s: State, s': State) {
    && s' == s.(reader := s'.reader, events := s'.events) && |s'.events| <= EVENTS_CAPACITY
    && (|| (s.reader.Matching?
            && s'.reader == if s.reader.id in s.pending then Delivering(s.reader.id, s.reader.outcome) else Idle)
        || (s.reader.PushingEvent? && s'.reader == Idle)
        || s'.reader == s.reader)
  }

  lemma ReaderTokens(s: State, s': State)
    requires TokensInv(s.calls, Tokens(s)) && ReaderMoves(s, s')
    ensures TokensInv(s'.calls, Tokens(s'))
  {
    assert Tokens(s') <= Tokens(s);
    TokensKept(s.calls, s'.calls, Tokens(s), Tokens(s'));
  }

  lemma ReaderHolds(s: State, s': State)
    requires CallsInv(s) && ReaderOk(s.calls, s.ran, s.reader) && ReaderMoves(s, s')
    ensures ReaderOk(s'.calls, s'.ran, s'.reader)
  {
    if s.reader.Matching? && s.reader.id in s.pending {
      assert CallOk(s, s.reader.id);
    }
  }

  lemma ReaderStepInv(s: State, s': State)
    requires Inv(s) && ReaderMoves(s, s')
    ensures Inv(s')
  {
    ReaderTokens(s, s');
    ReaderHolds(s, s');
    assert s.ran + [] == s.ran;
    CallsStay(s, s', []);
  }

  /** The channel of the call being served is empty, so the reader's send cannot block. */
  lemma ChannelEmpty(s: State)
    requires Inv(s) && s.reader.Delivering?
    ensures s.reader.id in s.calls && s.calls[s.reader.id].chan == [] && s.reader.id !in s.delivered
  {
    var id := s.reader.id;
    assert CallOk(s, id);
    assert id in ReaderIds(s.reader);
    assert id in Tokens(s) && Tokens(s)[id] == 1;
    assert multiset(s.delivered)[id] == 0;
  }

  lemma DeliverInv(s: State)
    requires Inv(s) && s.reader.Delivering?
    ensures s.reader.id in s.calls && Inv(DoDeliver(s))
  {
    ChannelEmpty(s);
    DeliverTokens(s);
    var s' := DoDeliver(s);
    TokensKept(s.calls, s'.calls, Tokens(s), Tokens(s'));
    assert s.ran + [] == s.ran;
    FramesStay(s.calls, s'.calls, s.ran, [], s.toClient, s.reader);
    JobsStay(s.calls, s'.calls, s.ran, s.answered, s.jobs);
    DeliverCalls(s, s');
  }

  lemma DeliverCalls(s: State, s': State)
    requires CallsInv(s) && s.reader.Delivering? && s.reader.id in s.calls && s' == DoDeliver(s)
    requires ReaderOk(s'.calls, s'.ran, s.reader) && s.calls[s.reader.id].chan == []
    ensures CallsInv(s')
  {
    assert s.ran + [] == s.ran;
    forall i | i in s'.calls ensures CallOk(s', i) {
      if i != s.reader.id { CallStays(s, s', i, []); } else { DeliveredCall(s, s'); }
    }
  }

  lemma DeliveredCall(s: State, s': State)
    requires s.reader.Delivering? && s.reader.id in s.calls && s' == DoDeliver(s) && CallOk(s, s.reader.id)
    requires ReaderOk(s'.calls, s'.ran, s.reader) && s.calls[s.reader.id].chan == []
    ensures CallOk(s', s.reader.id)
  {
    var id := s.reader.id;
    assert s.ran + [] == s.ran;
    assert forall o :: Produced(s.calls, s.ran, id, o) ==> Produced(s'.calls, s'.ran, id, o);
  }

  // ----- all of them -----

  lemma BeginInv(s: State, m: string, p: string)
    requires Inv(s)
    ensures Inv(SetCall(s, s.nextID + 1, Call(m, p, Registering, [])).(nextID := s.nextID + 1))
  {
    var id := s.nextID + 1;
    assert id !in s.calls by { assert forall i :: i in s.calls ==> CallOk(s, i) && i <= s.nextID; }
    CallerStep(s, SetCall(s, id, Call(m, p, Registering, [])).(nextID := id), id);
  }

  predicate CallMoves(s: State, s': State, id: nat) {
    && id in s.calls && id in s'.calls
    && s' == SetCall(s, id, s'.calls[id]).(pending := s'.pending)
    && s'.pending - {id} == s.pending - {id}
    && s'.calls[id] == s.calls[id].(pc := s'.calls[id].pc, chan := s'.calls[id].chan)
    && (Sent(s.calls[id]) ==> Sent(s'.calls[id]))
  }

  lemma CallMovesInv(s: State, s': State, id: nat)
    requires Inv(s) && CallMoves(s, s', id) && CallOk(s', id)
    ensures Inv(s')
  {
    assert CallOk(s, id);
    CallerStep(s, s', id);
  }

  lemma MovedCallOk(s: State, s': State, id: nat)
    requires CallMoves(s, s', id) && CallOk(s, id)
    requires id in s'.pending <==> s'.calls[id].pc.Sending? || s'.calls[id].pc.Waiting? || s'.calls[id].pc.Leaving?
    requires s'.calls[id].chan == s.calls[id].chan || s'.calls[id].chan == []
    requires s'.calls[id].pc.Leaving? && s'.calls[id].pc.result.Returned? ==>
               Produced(s.calls, s.ran, id, s'.calls[id].pc.result.outcome)
    requires s'.calls[id].pc.Done? && s'.calls[id].pc.result.Returned? ==>
               Produced(s.calls, s.ran, id, s'.calls[id].pc.result.outcome)
    ensures CallOk(s', id)
  {
    assert forall o :: Produced(s.calls, s.ran, id, o) ==> Produced(s'.calls, s'.ran, id, o);
  }

  predicate CallerOwn(st: Step) {
    st.Register? || (st.Send? && !st.ok) || st.TakeResponse? || st.GiveUp? || st.Leave?
  }

  lemma CallerMoves(s: State, st: Step)
    requires Enabled(s, st) && CallerOwn(st) && st.id in s.calls && CallOk(s, st.id)
    ensures CallMoves(s, Apply(s, st), st.id) && CallOk(Apply(s, st), st.id)
  {
    MovedCallOk(s, Apply(s, st), st.id);
  }

  lemma CallerKeepsInv(s: State, st: Step)
    requires Inv(s) && Enabled(s, st) && CallerOwn(st)
    ensures Inv(Apply(s, st))
  {
    assert CallOk(s, st.id);
    CallerMoves(s, st);
    CallMovesInv(s, Apply(s, st), st.id);
  }

  lemma StepKeepsInv(s: State, st: Step)
    requires Inv(s) && Enabled(s, st)
    ensures Inv(Apply(s, st))
  {
    match st
    case Begin(m, p) => BeginInv(s, m, p);
    case Register(_) => CallerKeepsInv(s, st);
    case Send(id, ok) => if ok { SendInv(s, id); } else { CallerKeepsInv(s, st); }
    case TakeResponse(_) => CallerKeepsInv(s, st);
    case GiveUp(_) => CallerKeepsInv(s, st);
    case Leave(_) => CallerKeepsInv(s, st);
    case Dispatch => DispatchInv(s);
    case Finish(j, outcome) => FinishInv(s, j, outcome);
    case WriteResponse(j, ok) => WriteResponseInv(s, j, ok);
    case RejectFrame => PushFrameInv(s, Response(0, Error("invalid_frame")));
    case PushServerEvent(name) => PushFrameInv(s, Event(name));
    case ReadFrame => ReadFrameInv(s);
    case Lookup => ReaderStepInv(s, Apply(s, st));
    case Deliver => DeliverInv(s);
    case PushEvent => ReaderStepInv(s, Apply(s, st));
    case ConsumeEvent => ReaderStepInv(s, Apply(s, st));
  }

  // ----- runs -----

  ghost predicate IsRun(handlers: set<string>, states: seq<State>, steps: seq<Step>) {
    && |states| == |steps| + 1
    && states[0] == Init(handlers)
    && forall i :: 0 <= i < |steps| ==> Enabled(states[i], steps[i]) && states[i + 1] == Apply(states[i], steps[i])
  }

  lemma {:induction false} RunInv(handlers: set<string>, states: seq<State>, steps: seq<Step>, i: nat)
    requires IsRun(handlers, states, steps) && i <= |steps|
    ensures Inv(states[i])
  {
    if i > 0 {
      RunInv(handlers, states, steps, i - 1);
      StepKeepsInv(states[i - 1], steps[i - 1]);
    }
  }

  ghost predicate Reachable(s: State) {
    exists handlers, states, steps :: IsRun(handlers, states, steps) && states[|steps|] == s
  }

  lemma ReachableInv(s: State)
    requires Reachable(s)
    ensures Inv(s)
  {
    var handlers, states, steps :| IsRun(handlers, states, steps) && states[|steps|] == s;
    RunInv(handlers, states, steps, |steps|);
  }

  /** A call that returns a response returns what a handler produced for that call's own method and parameters. */
  lemma Correlation(s: State, id: nat)
    requires Reachable(s) && id in s.calls && s.calls[id].pc.Done? && s.calls[id].pc.result.Returned?
    ensures exists k :: 0 <= k < |s.ran| &&
              s.ran[k] == Answer(Request(id, s.calls[id].method_, s.calls[id].params), s.calls[id].pc.result.outcome)
  {
    ReachableInv(s);
    assert CallOk(s, id);
  }

  /** No request is run twice and none is answered twice. */
  lemma AtMostOnce(s: State)
    requires Reachable(s)
    ensures forall j, k :: 0 <= j < k < |s.ran| ==> s.ran[j].req.id != s.ran[k].req.id
    ensures forall j, k :: 0 <= j < k < |s.answered| ==> s.answered[j] != s.answered[k]
  {
    ReachableInv(s);
  }

  /** The reader never blocks on a response channel: whenever it holds a response, the send is enabled. */
  lemma ReaderNeverBlocks(s: State)
    requires Reachable(s) && s.reader.Delivering?
    ensures Enabled(s, Deliver)
  {
    ReachableInv(s);
    ChannelEmpty(s);
  }

  /** The pending map holds exactly the calls between registration and the deferred delete. */
  lemma PendingIsExact(s: State)
    requires Reachable(s)
    ensures forall id :: id in s.pending <==>
              id in s.calls && (s.calls[id].pc.Sending? || s.calls[id].pc.Waiting? || s.calls[id].pc.Leaving?)
  {
    ReachableInv(s);
    assert forall id :: id in s.calls ==> CallOk(s, id);
  }
}
