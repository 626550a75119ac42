/**
  No response is lost, and so every call can be answered: what a connection whose writes succeed owes its
  callers, and what a returned response has to do with the steps of the run.
*/
module RpcProgress {
  import opened Wrappers
  import opened Rpc
  import opened Paths
  import opened Sequences

  // ----- no response is lost -----

  /** The request or its response is on a socket, in a job or in the reader's hand. */
  predicate Travels(s: State, id: nat) {
    id in ReqIds(s.toServer) || id in JobIds(s.jobs) || id in FrameIds(s.toClient) || id in ReaderIds(s.reader)
  }

  predicate Awaits(s: State, id: nat) { CallAt(s, id, Waiting) && s.calls[id].chan == [] }

  /** Unless a write has failed, every waiting call's request or response is still on its way. */
  ghost predicate NothingLost(s: State) {
    !s.broken ==> forall id :: Awaits(s, id) ==> Travels(s, id)
  }

  lemma QueueTravels(s: State, r: Request, id: nat)
    ensures Travels(s.(toServer := s.toServer + [r]), id) <==> Travels(s, id) || id == r.id
  {
    assert ReqIds(s.toServer + [r]) == ReqIds(s.toServer) + [r.id];
  }

  lemma DispatchTravels(s: State, id: nat)
    requires s.toServer != []
    ensures Travels(DoDispatch(s), id) <==> Travels(s, id)
  {
    var r := s.toServer[0];
    assert ReqIds(s.toServer) == [r.id] + ReqIds(s.toServer[1..]);
    assert JobIds(DoDispatch(s).jobs) == JobIds(s.jobs) + [r.id];
  }

  lemma FinishTravels(s: State, j: nat, outcome: Outcome, id: nat)
    requires j < |s.jobs|
    ensures Travels(DoFinish(s, j, outcome), id) <==> Travels(s, id)
  {
    assert JobIds(DoFinish(s, j, outcome).jobs) == JobIds(s.jobs);
  }

  lemma WriteTravels(s: State, j: nat, id: nat)
    requires j < |s.jobs| && s.jobs[j].outcome.Some?
    ensures Travels(DoWriteResponse(s, j, true), id) <==> Travels(s, id)
  {
    var front, own, back := JobIds(s.jobs[..j]), s.jobs[j].req.id, JobIds(s.jobs[j + 1..]);
    assert JobIds(s.jobs) == front + [own] + back;
    assert JobIds(s.jobs[..j] + s.jobs[j + 1..]) == front + back;
    assert FrameIds(DoWriteResponse(s, j, true).toClient) == FrameIds(s.toClient) + [own];
  }

  lemma PushTravels(s: State, f: Frame, id: nat)
    requires Travels(s, id)
    ensures Travels(s.(toClient := s.toClient + [f]), id)
  {
    assert FrameIds(s.toClient + [f]) == FrameIds(s.toClient) + [FrameId(f)];
  }

  lemma ReadTravels(s: State, id: nat)
    requires s.reader.Idle? && s.toClient != [] && id != 0
    ensures Travels(DoReadFrame(s), id) <==> Travels(s, id)
  {
    assert FrameIds(s.toClient) == [FrameId(s.toClient[0])] + FrameIds(s.toClient[1..]);
  }

  /** The client's steps do not touch the queues, apart from a send. */
  predicate CallerStepOf(st: Step) {
    st.Begin? || st.Register? || st.Send? || st.TakeResponse? || st.GiveUp? || st.Leave?
  }

  lemma CallerLosesNothing(s: State, st: Step, id: nat)
    requires Enabled(s, st) && CallerStepOf(st) && Awaits(Apply(s, st), id) && (Awaits(s, id) ==> Travels(s, id))
    ensures Travels(Apply(s, st), id)
  {
    if st.Send? && st.ok {
      var call := s.calls[st.id];
      QueueTravels(s, Request(st.id, call.method_, call.params), id);
    }
  }

  lemma ServerLosesNothing(s: State, st: Step, id: nat)
    requires Enabled(s, st) && Travels(s, id) && !Apply(s, st).broken
    requires st.Dispatch? || st.Finish? || st.WriteResponse? || st.RejectFrame? || st.PushServerEvent?
    ensures Travels(Apply(s, st), id)
  {
    match st
    case Dispatch => DispatchTravels(s, id);
    case Finish(j, outcome) => FinishTravels(s, j, outcome, id);
    case WriteResponse(j, ok) => WriteTravels(s, j, id);
    case RejectFrame => PushTravels(s, Response(0, Error("invalid_frame")), id);
    case PushServerEvent(name) => PushTravels(s, Event(name), id);
  }

  /** The reader drops a response only when nobody is registered for it. */
  lemma ReaderLosesNothing(s: State, st: Step, id: nat)
    requires Enabled(s, st) && Travels(s, id) && Awaits(Apply(s, st), id) && id in s.pending && id != 0
    requires st.ReadFrame? || st.Lookup? || st.Deliver? || st.PushEvent? || st.ConsumeEvent?
    ensures Travels(Apply(s, st), id)
  {
    if st.ReadFrame? { ReadTravels(s, id); }
  }

  lemma StepLosesNothing(s: State, st: Step)
    requires Inv(s) && NothingLost(s) && Enabled(s, st)
    ensures NothingLost(Apply(s, st))
  {
    var s' := Apply(s, st);
    BrokenStays(s, st);
    if !s'.broken {
      forall id | Awaits(s', id) ensures Travels(s', id) {
        if CallerStepOf(st) {
          CallerLosesNothing(s, st, id);
        } else {
          StillAwaits(s, st, id);
          assert CallOk(s, id);
          if st.ReadFrame? || st.Lookup? || st.Deliver? || st.PushEvent? || st.ConsumeEvent? {
            ReaderLosesNothing(s, st, id);
          } else {
            ServerLosesNothing(s, st, id);
          }
        }
      }
    }
  }

  lemma BrokenStays(s: State, st: Step)
    requires Enabled(s, st)
    ensures s.broken ==> Apply(s, st).broken
  {
  }

  lemma StillAwaits(s: State, st: Step, id: nat)
    requires Enabled(s, st) && !CallerStepOf(st) && Awaits(Apply(s, st), id)
    ensures Awaits(s, id)
  {
  }

  lemma {:induction false} RunLosesNothing(handlers: set<string>, states: seq<State>, steps: seq<Step>, i: nat)
    requires IsRun(handlers, states, steps) && i <= |steps|
    ensures Inv(states[i]) && NothingLost(states[i])
  {
    if i == 0 {
      RunInv(handlers, states, steps, 0);
    } else {
      RunLosesNothing(handlers, states, steps, i - 1);
      StepKeepsInv(states[i - 1], steps[i - 1]);
      StepLosesNothing(states[i - 1], steps[i - 1]);
    }
  }

  lemma ReachableSound(s: State)
    requires Reachable(s)
    ensures Inv(s) && NothingLost(s)
  {
    var handlers, states, steps :| IsRun(handlers, states, steps) && states[|steps|] == s;
    RunLosesNothing(handlers, states, steps, |steps|);
  }

  lemma Counted(ids: seq<nat>, id: nat)
    ensures id in ids <==> multiset(ids)[id] > 0
  {
  }

  lemma TravelsOnce(s: State, id: nat)
    requires TokensInv(s.calls, Tokens(s)) && Travels(s, id) && id != 0
    ensures Tokens(s)[id] == 1 && id !in s.delivered
  {
    Counted(ReqIds(s.toServer), id);
    Counted(JobIds(s.jobs), id);
    Counted(FrameIds(s.toClient), id);
    Counted(ReaderIds(s.reader), id);
    assert id in Tokens(s);
    assert multiset(s.delivered)[id] == 0;
  }

  /**
    No response is lost. While the server's writes succeed, the request of a waiting call, or the response
    to it, is in exactly one place: a socket, a job or the reader's hand.
  */
  lemma NoResponseLost(s: State, id: nat)
    requires Reachable(s) && !s.broken && Awaits(s, id)
    ensures Travels(s, id) && Tokens(s)[id] == 1 && id !in s.delivered
  {
    ReachableSound(s);
    assert CallOk(s, id);
    TravelsOnce(s, id);
  }

  // ----- serving every call -----

  function Next(s: State, st: Step): Option<State> { if Enabled(s, st) then Some(Apply(s, st)) else None }

  predicate Leads(s: State, st: Step, s': State) { Next(s, st) == Some(s') }

  /** Nothing is queued, running or in the reader's hand. */
  predicate Served(s: State) { s.toServer == [] && s.jobs == [] && s.toClient == [] && s.reader.Idle? }

  /** The step with which the server and the reader go on: a held frame first, then the oldest job. */
  function NextStep(s: State, answer: Request -> Outcome): Step
    requires !Served(s)
  {
    match s.reader
    case Matching(_, _) => Lookup
    case Delivering(_, _) => Deliver
    case PushingEvent(_) => if |s.events| < EVENTS_CAPACITY then PushEvent else ConsumeEvent
    case Idle =>
      if s.toClient != [] then ReadFrame
      else if s.jobs == [] then Dispatch
      else if s.jobs[0].outcome.None? then Finish(0, answer(s.jobs[0].req))
      else WriteResponse(0, true)
  }

  function ReaderWork(r: Reader): nat {
    match r
    case Matching(_, _) => 2
    case Delivering(_, _) => 1
    case PushingEvent(_) => 1
    case Idle => 0
  }

  /** Whether the oldest job has yet to finish. */
  function FirstWork(jobs: seq<Job>): nat { if jobs != [] && jobs[0].outcome.None? then 1 else 0 }

  /** What serving leaves alone, and that every new answer is the server's. */
  predicate Serves(s: State, s': State, answer: Request -> Outcome) {
    && s'.calls.Keys == s.calls.Keys && s'.pending == s.pending && s'.nextID == s.nextID
    && s'.broken == s.broken && s'.handlers == s.handlers
    && (forall id :: id in s.calls ==> s'.calls[id] == s.calls[id].(chan := s'.calls[id].chan))
    && (forall id :: id in s.calls ==> s.calls[id].chan <= s'.calls[id].chan)
    && s.ran <= s'.ran
    && (forall k :: |s.ran| <= k < |s'.ran| ==> s'.ran[k].outcome == answer(s'.ran[k].req))
  }

  lemma NextEnabled(s: State, answer: Request -> Outcome)
    requires !Served(s) && !s.broken && (s.reader.Delivering? ==> Enabled(s, Deliver))
    ensures Enabled(s, NextStep(s, answer))
  {
  }

  /** A step of the service comes closer to its end, measured lexicographically. */
  predicate Closer(s': State, s: State) {
    if |s'.toServer| != |s.toServer| then |s'.toServer| < |s.toServer|
    else if |s'.jobs| != |s.jobs| then |s'.jobs| < |s.jobs|
    else if FirstWork(s'.jobs) != FirstWork(s.jobs) then FirstWork(s'.jobs) < FirstWork(s.jobs)
    else if |s'.toClient| != |s.toClient| then |s'.toClient| < |s.toClient|
    else if ReaderWork(s'.reader) != ReaderWork(s.reader) then ReaderWork(s'.reader) < ReaderWork(s.reader)
    else |s'.events| < |s.events|
  }

  lemma NextCloser(s: State, answer: Request -> Outcome)
    requires !Served(s) && !s.broken && Enabled(s, NextStep(s, answer))
    ensures Closer(Apply(s, NextStep(s, answer)), s)
  {
  }

  lemma NextServes(s: State, answer: Request -> Outcome)
    requires !Served(s) && !s.broken && Enabled(s, NextStep(s, answer))
    ensures Serves(s, Apply(s, NextStep(s, answer)), answer)
  {
  }

  lemma ServesBoth(s: State, s1: State, s2: State, answer: Request -> Outcome)
    requires Serves(s, s1, answer) && Serves(s1, s2, answer)
    ensures Serves(s, s2, answer)
  {
    forall k | |s.ran| <= k < |s2.ran| ensures s2.ran[k].outcome == answer(s2.ran[k].req) {
      if k < |s1.ran| { assert s2.ran[k] == s1.ran[k]; }
    }
  }

  /** What a run keeps while no write fails. */
  ghost predicate Sound(s: State) { Inv(s) && NothingLost(s) && !s.broken }

  lemma NextSound(s: State, answer: Request -> Outcome)
    requires Sound(s) && !Served(s)
    ensures Enabled(s, NextStep(s, answer)) && Sound(Apply(s, NextStep(s, answer)))
    ensures Serves(s, Apply(s, NextStep(s, answer)), answer)
  {
    if s.reader.Delivering? { ChannelEmpty(s); }
    NextEnabled(s, answer);
    NextServes(s, answer);
    StepKeepsInv(s, NextStep(s, answer));
    StepLosesNothing(s, NextStep(s, answer));
  }

  lemma {:induction false} ServeAll(s: State, answer: Request -> Outcome) returns (steps: seq<Step>)
    requires Sound(s)
    ensures After(Next, s, steps).Some?
    ensures var s' := After(Next, s, steps).value; Sound(s') && Served(s') && Serves(s, s', answer)
    decreases |s.toServer|, |s.jobs|, FirstWork(s.jobs), |s.toClient|, ReaderWork(s.reader), |s.events|
  {
    if Served(s) {
      steps := [];
    } else {
      NextSound(s, answer);
      NextCloser(s, answer);
      var st := NextStep(s, answer);
      var s1 := Apply(s, st);
      var rest := ServeAll(s1, answer);
      AfterOne(Next, s, st, rest);
      ServesBoth(s, s1, After(Next, s1, rest).value, answer);
      steps := [st] + rest;
    }
  }

  /** An idle connection owes nobody: whoever waits has its response. */
  lemma NobodyWaits(s: State, id: nat)
    requires NothingLost(s) && !s.broken && Served(s)
    ensures !Awaits(s, id)
  {
  }

  /** Whatever the calls in flight, the server and the reader can answer all of them. */
  lemma EveryCallAnswered(s: State, answer: Request -> Outcome) returns (steps: seq<Step>)
    requires Reachable(s) && !s.broken
    ensures After(Next, s, steps).Some?
    ensures var s' := After(Next, s, steps).value;
      && Serves(s, s', answer)
      && forall id :: CallAt(s, id, Waiting) ==> CallAt(s', id, Waiting) && |s'.calls[id].chan| == 1
  {
    ReachableSound(s);
    steps := ServeAll(s, answer);
    var s' := After(Next, s, steps).value;
    forall id | CallAt(s, id, Waiting) ensures CallAt(s', id, Waiting) && |s'.calls[id].chan| == 1 {
      NobodyWaits(s', id);
      assert CallOk(s', id);
    }
  }

  // ----- one call from beginning to end -----

  /** The call has been sent. */
  function Calling(s: State, m: string, p: string): State {
    var id := s.nextID + 1;
    s.(nextID := id, calls := s.calls[id := Call(m, p, Waiting, [])], pending := s.pending + {id},
       toServer := s.toServer + [Request(id, m, p)])
  }

  lemma FreshCall(s: State)
    requires CallsInv(s)
    ensures s.nextID + 1 !in s.calls
  {
    assert forall i :: i in s.calls ==> CallOk(s, i) && i <= s.nextID;
  }

  /** The state with the new call at one point of its way out. */
  function Outgoing(s: State, m: string, p: string, pc: CallPc, pending: set<nat>): State {
    var id := s.nextID + 1;
    s.(nextID := id, calls := s.calls[id := Call(m, p, pc, [])], pending := pending)
  }

  lemma BeginLeads(s: State, m: string, p: string)
    ensures Leads(s, Begin(m, p), Outgoing(s, m, p, Registering, s.pending))
  {
  }

  lemma RegisterLeads(s: State, m: string, p: string)
    ensures Leads(Outgoing(s, m, p, Registering, s.pending), Register(s.nextID + 1),
                  Outgoing(s, m, p, Sending, s.pending + {s.nextID + 1}))
  {
    SameKey(s.calls, s.nextID + 1, Call(m, p, Registering, []), Call(m, p, Sending, []));
  }

  lemma SendLeads(s: State, m: string, p: string)
    ensures Leads(Outgoing(s, m, p, Sending, s.pending + {s.nextID + 1}), Send(s.nextID + 1, true), Calling(s, m, p))
  {
    SameKey(s.calls, s.nextID + 1, Call(m, p, Sending, []), Call(m, p, Waiting, []));
  }

  lemma CallGoesOut(s: State, m: string, p: string)
    ensures var id := s.nextID + 1;
      After(Next, s, [Begin(m, p), Register(id), Send(id, true)]) == Some(Calling(s, m, p))
  {
    var id := s.nextID + 1;
    BeginLeads(s, m, p);
    RegisterLeads(s, m, p);
    SendLeads(s, m, p);
    Chain3(Next, s, Begin(m, p), Outgoing(s, m, p, Registering, s.pending), Register(id),
           Outgoing(s, m, p, Sending, s.pending + {id}), Send(id, true), Calling(s, m, p));
  }

  lemma CallIsSound(s: State, m: string, p: string)
    requires Sound(s)
    ensures Sound(Calling(s, m, p))
  {
    var id := s.nextID + 1;
    BeginLeads(s, m, p);
    RegisterLeads(s, m, p);
    SendLeads(s, m, p);
    ThreeSound(s, Begin(m, p), Outgoing(s, m, p, Registering, s.pending), Register(id),
               Outgoing(s, m, p, Sending, s.pending + {id}), Send(id, true), Calling(s, m, p));
  }

  lemma ThreeSound(s: State, a: Step, s1: State, b: Step, s2: State, c: Step, s3: State)
    requires Sound(s) && Leads(s, a, s1) && Leads(s1, b, s2) && Leads(s2, c, s3) && !s3.broken
    ensures Sound(s3)
  {
    StepKeepsInv(s, a);
    StepLosesNothing(s, a);
    StepKeepsInv(s1, b);
    StepLosesNothing(s1, b);
    StepKeepsInv(s2, c);
    StepLosesNothing(s2, c);
  }

  lemma NotRunYet(s: State, ran': seq<Answer>, id: nat)
    requires RanInv(s.calls, s.ran) && id !in s.calls && s.ran <= ran'
    ensures forall k :: 0 <= k < |s.ran| ==> ran'[k].req.id != id
  {
    forall k | 0 <= k < |s.ran| ensures ran'[k].req.id != id {
      assert ran'[k] == s.ran[k] && ReqOk(s.calls, s.ran[k].req);
    }
  }

  /** What is in the channel once everything is served: the answer to this very request. */
  lemma ServedAnswer(s: State, s': State, id: nat, m: string, p: string, answer: Request -> Outcome)
    requires Inv(s) && id !in s.calls && Serves(Calling(s, m, p), s', answer) && id == s.nextID + 1
    requires Sound(s') && Served(s')
    ensures id in s'.calls && s'.calls[id] == Call(m, p, Waiting, [answer(Request(id, m, p))])
  {
    NobodyWaits(s', id);
    assert CallOk(s', id);
    var o := s'.calls[id].chan[0];
    assert s'.calls[id].chan == [o];
    NotRunYet(s, s'.ran, id);
    NewAnswer(s.ran, s', id, o, answer);
  }

  lemma NewAnswer(ran: seq<Answer>, s': State, id: nat, o: Outcome, answer: Request -> Outcome)
    requires Produced(s'.calls, s'.ran, id, o) && |ran| <= |s'.ran|
    requires forall k :: 0 <= k < |ran| ==> s'.ran[k].req.id != id
    requires forall k :: |ran| <= k < |s'.ran| ==> s'.ran[k].outcome == answer(s'.ran[k].req)
    ensures o == answer(Request(id, s'.calls[id].method_, s'.calls[id].params))
  {
  }

  lemma CallReturns(s: State, id: nat, m: string, p: string, o: Outcome)
    requires id in s.calls && s.calls[id] == Call(m, p, Waiting, [o])
    ensures After(Next, s, [TakeResponse(id), Leave(id)])
         == Some(SetCall(s, id, Call(m, p, Done(Returned(o)), [])).(pending := s.pending - {id}))
  {
    var taken := Call(m, p, Leaving(Returned(o)), []);
    var s1 := SetCall(s, id, taken);
    SameKey(s.calls, id, taken, Call(m, p, Done(Returned(o)), []));
    assert [o][1..] == [];
    assert Apply(s, TakeResponse(id)) == s1;
    AfterOne(Next, s1, Leave(id), []);
    AfterOne(Next, s, TakeResponse(id), [Leave(id)]);
  }

  /**
    A call made while no write has failed can always be carried to its end: it returns the server's answer
    to its own id, method and parameters, however many others are in flight, and is forgotten.
  */
  lemma CallRound(s: State, m: string, p: string, answer: Request -> Outcome) returns (steps: seq<Step>)
    requires Reachable(s) && !s.broken
    ensures After(Next, s, steps).Some?
    ensures var id, s' := s.nextID + 1, After(Next, s, steps).value;
      && id in s'.calls
      && s'.calls[id] == Call(m, p, Done(Returned(answer(Request(id, m, p)))), [])
      && id !in s'.pending
      && (forall i :: i in s.calls ==> i in s'.calls && s'.calls[i] == s.calls[i].(chan := s'.calls[i].chan))
  {
    ReachableSound(s);
    var id := s.nextID + 1;
    FreshCall(s);
    CallGoesOut(s, m, p);
    CallIsSound(s, m, p);
    var first := [Begin(m, p), Register(id), Send(id, true)];
    var service := ServeAll(Calling(s, m, p), answer);
    var s4 := After(Next, Calling(s, m, p), service).value;
    ServedAnswer(s, s4, id, m, p, answer);
    CallReturns(s4, id, m, p, answer(Request(id, m, p)));
    AfterBoth(Next, s, first, service);
    AfterBoth(Next, s, first + service, [TakeResponse(id), Leave(id)]);
    steps := first + service + [TakeResponse(id), Leave(id)];
  }

  // ----- a response and the steps of the run -----

  /** Step `b` begins call `id`: ids count the calls begun. */
  predicate BegunAt(steps: seq<Step>, b: nat, id: nat) {
    b < |steps| && steps[b].Begin? && BeginCount(steps, b) + 1 == id
  }

  function BeginCount(steps: seq<Step>, i: nat): nat
    requires i <= |steps|
  {
    if i == 0 then 0 else BeginCount(steps, i - 1) + if steps[i - 1].Begin? then 1 else 0
  }

  /** Step `f` finishes a handler on this request with this outcome. */
  predicate FinishedAt(states: seq<State>, steps: seq<Step>, f: nat, a: Answer) {
    && f < |steps| && f < |states| && steps[f].Finish?
    && steps[f].job < |states[f].jobs|
    && states[f].jobs[steps[f].job].req == a.req && steps[f].outcome == a.outcome
  }

  predicate RecordMoves(s: State, st: Step, s': State) {
    && s'.nextID == s.nextID + (if st.Begin? then 1 else 0)
    && (forall id :: id in s'.calls && id !in s.calls ==>
          st.Begin? && id == s.nextID + 1 && s'.calls[id].method_ == st.method_ && s'.calls[id].params == st.params)
    && (forall id :: id in s.calls ==>
          id in s'.calls && s'.calls[id].method_ == s.calls[id].method_ && s'.calls[id].params == s.calls[id].params)
    && s'.ran == s.ran + (if st.Finish? && st.job < |s.jobs| then [Answer(s.jobs[st.job].req, st.outcome)] else [])
  }

  lemma StepRecords(s: State, st: Step)
    requires Enabled(s, st) && s.nextID + 1 !in s.calls
    ensures RecordMoves(s, st, Apply(s, st))
  {
  }

  lemma RunRecords(handlers: set<string>, states: seq<State>, steps: seq<Step>, i: nat)
    requires IsRun(handlers, states, steps) && i < |steps|
    ensures RecordMoves(states[i], steps[i], states[i + 1])
  {
    RunInv(handlers, states, steps, i);
    assert forall id :: id in states[i].calls ==> CallOk(states[i], id) && id <= states[i].nextID;
    StepRecords(states[i], steps[i]);
  }

  lemma {:induction false} NextIdCounts(handlers: set<string>, states: seq<State>, steps: seq<Step>, i: nat)
    requires IsRun(handlers, states, steps) && i <= |steps|
    ensures states[i].nextID == BeginCount(steps, i)
  {
    if i > 0 {
      NextIdCounts(handlers, states, steps, i - 1);
      RunRecords(handlers, states, steps, i - 1);
    }
  }

  /** A call has the method and parameters it was begun with. */
  lemma {:induction false} BeginOf(handlers: set<string>, states: seq<State>, steps: seq<Step>, i: nat, id: nat)
    returns (b: nat)
    requires IsRun(handlers, states, steps) && i <= |steps| && id in states[i].calls
    ensures b < i && BegunAt(steps, b, id)
    ensures states[i].calls[id].method_ == steps[b].method_ && states[i].calls[id].params == steps[b].params
  {
    RunRecords(handlers, states, steps, i - 1);
    NextIdCounts(handlers, states, steps, i - 1);
    if id in states[i - 1].calls {
      b := BeginOf(handlers, states, steps, i - 1, id);
    } else {
      b := i - 1;
    }
  }

  /** Every recorded answer is a handler's. */
  lemma {:induction false} FinishOf(handlers: set<string>, states: seq<State>, steps: seq<Step>, i: nat, k: nat)
    returns (f: nat)
    requires IsRun(handlers, states, steps) && i <= |steps| && k < |states[i].ran|
    ensures f < i && FinishedAt(states, steps, f, states[i].ran[k])
  {
    RunRecords(handlers, states, steps, i - 1);
    if k < |states[i - 1].ran| {
      f := FinishOf(handlers, states, steps, i - 1, k);
      assert states[i].ran[k] == states[i - 1].ran[k];
    } else {
      f := i - 1;
    }
  }

  /**
    Correlation against the run: a call that returns a response was begun by a step of this method and these
    parameters, and returns what a later step, a handler's run on that very request, produced.
  */
  lemma CorrelationOfRun(handlers: set<string>, states: seq<State>, steps: seq<Step>, i: nat, id: nat)
    returns (b: nat, f: nat)
    requires IsRun(handlers, states, steps) && i <= |steps| && id in states[i].calls
    requires states[i].calls[id].pc.Done? && states[i].calls[id].pc.result.Returned?
    ensures b < i && BegunAt(steps, b, id)
    ensures f < i
    ensures FinishedAt(states, steps, f, Answer(Request(id, steps[b].method_, steps[b].params),
                                                states[i].calls[id].pc.result.outcome))
  {
    var s := states[i];
    assert CallOk(s, id) by { RunInv(handlers, states, steps, i); }
    b := BeginOf(handlers, states, steps, i, id);
    var k :| 0 <= k < |s.ran| &&
      s.ran[k] == Answer(Request(id, s.calls[id].method_, s.calls[id].params), s.calls[id].pc.result.outcome);
    f := FinishOf(handlers, states, steps, i, k);
  }

  // ----- pushed events -----

  function EventNames(q: seq<Frame>): seq<string> {
    if q == [] then []
    else EventNames(q[..|q| - 1]) + if q[|q| - 1].Event? then [q[|q| - 1].name] else []
  }

  function HeldEvent(r: Reader): seq<string> { if r.PushingEvent? then [r.name] else [] }

  /** The events still on their way to the client's channel, and in it, oldest first. */
  function EventsUnderWay(s: State): seq<string> { s.events + HeldEvent(s.reader) + EventNames(s.toClient) }

  /** The events the server pushed in the first `i` steps, and those the client's application took. */
  function Pushed(steps: seq<Step>, i: nat): seq<string>
    requires i <= |steps|
  {
    if i == 0 then []
    else Pushed(steps, i - 1) + if steps[i - 1].PushServerEvent? then [steps[i - 1].name] else []
  }

  function Consumed(states: seq<State>, steps: seq<Step>, i: nat): seq<string>
    requires i <= |steps| <= |states|
  {
    if i == 0 then []
    else
      Consumed(states, steps, i - 1)
      + if steps[i - 1].ConsumeEvent? && states[i - 1].events != [] then [states[i - 1].events[0]] else []
  }

  lemma EventNamesAppend(q: seq<Frame>, f: Frame)
    ensures EventNames(q + [f]) == EventNames(q) + if f.Event? then [f.name] else []
  {
    assert (q + [f])[..|q|] == q;
  }

  lemma {:induction false} EventNamesFirst(q: seq<Frame>)
    requires q != []
    ensures EventNames(q) == (if q[0].Event? then [q[0].name] else []) + EventNames(q[1..])
    decreases |q|
  {
    var last := |q| - 1;
    if last > 0 {
      EventNamesFirst(q[..last]);
      assert q[1..][..last - 1] == q[..last][1..];
    }
  }

  /** What one step adds to the events on their way, and what it takes from their front. */
  predicate EventsMove(s: State, st: Step, s': State)
    requires Enabled(s, st)
  {
    EventsUnderWay(s) + (if st.PushServerEvent? then [st.name] else [])
    == (if st.ConsumeEvent? then [s.events[0]] else []) + EventsUnderWay(s')
  }

  lemma SameEvents(s: State, st: Step, s': State)
    requires Enabled(s, st) && !st.PushServerEvent? && !st.ConsumeEvent?
    requires EventsUnderWay(s') == EventsUnderWay(s)
    ensures EventsMove(s, st, s')
  {
  }

  predicate MovesEvents(st: Step) {
    st.PushServerEvent? || st.RejectFrame? || st.WriteResponse? || st.ReadFrame? || st.PushEvent? || st.ConsumeEvent?
  }

  lemma OtherSteps(s: State, st: Step)
    requires Enabled(s, st) && !MovesEvents(st)
    ensures EventsMove(s, st, Apply(s, st))
  {
    var s' := Apply(s, st);
    assert s'.events == s.events && HeldEvent(s'.reader) == HeldEvent(s.reader) && s'.toClient == s.toClient;
    SameEvents(s, st, s');
  }

  lemma FrameAppended(s: State, s': State, f: Frame)
    requires s'.events == s.events && s'.reader == s.reader && s'.toClient == s.toClient + [f]
    ensures EventsUnderWay(s') == EventsUnderWay(s) + if f.Event? then [f.name] else []
  {
    EventNamesAppend(s.toClient, f);
    var before, names := s.events + HeldEvent(s.reader), EventNames(s.toClient);
    var more := if f.Event? then [f.name] else [];
    assert (before + names) + more == before + (names + more);
  }

  lemma WriteStep(s: State, j: nat, ok: bool)
    requires Enabled(s, WriteResponse(j, ok))
    ensures EventsUnderWay(DoWriteResponse(s, j, ok)) == EventsUnderWay(s)
  {
    if ok { FrameAppended(s, DoWriteResponse(s, j, ok), Response(s.jobs[j].req.id, s.jobs[j].outcome.value)); }
  }

  lemma FrameSteps(s: State, st: Step)
    requires Enabled(s, st) && (st.PushServerEvent? || st.RejectFrame? || st.WriteResponse?)
    ensures EventsMove(s, st, Apply(s, st))
  {
    if st.WriteResponse? {
      WriteStep(s, st.job, st.ok);
    } else {
      FrameAppended(s, Apply(s, st), if st.RejectFrame? then Response(0, Error("invalid_frame")) else Event(st.name));
    }
  }

  lemma ReadStep(s: State)
    requires Enabled(s, ReadFrame)
    ensures EventsUnderWay(Apply(s, ReadFrame)) == EventsUnderWay(s)
  {
    EventNamesFirst(s.toClient);
  }

  lemma PushStep(s: State)
    requires Enabled(s, PushEvent)
    ensures EventsUnderWay(Apply(s, PushEvent)) == EventsUnderWay(s)
  {
  }

  lemma ConsumeStep(s: State)
    requires Enabled(s, ConsumeEvent)
    ensures EventsUnderWay(s) == [s.events[0]] + EventsUnderWay(Apply(s, ConsumeEvent))
  {
    assert s.events == [s.events[0]] + s.events[1..];
  }

  lemma EventsOfStep(s: State, st: Step)
    requires Enabled(s, st)
    ensures EventsMove(s, st, Apply(s, st))
  {
    if st.ReadFrame? { ReadStep(s); }
    else if st.PushEvent? { PushStep(s); }
    else if st.ConsumeEvent? { ConsumeStep(s); }
    else if MovesEvents(st) { FrameSteps(s, st); }
    else { OtherSteps(s, st); }
  }

  lemma MovedAlong(taken: seq<string>, way: seq<string>, added: seq<string>, first: seq<string>, way': seq<string>)
    requires way + added == first + way'
    ensures (taken + way) + added == (taken + first) + way'
  {
    assert (taken + way) + added == taken + (way + added);
    assert (taken + first) + way' == taken + (first + way');
  }

  /** Every event the server pushes reaches the client's channel, in order, and no other does. */
  lemma {:induction false} EventsInOrder(handlers: set<string>, states: seq<State>, steps: seq<Step>, i: nat)
    requires IsRun(handlers, states, steps) && i <= |steps|
    ensures Pushed(steps, i) == Consumed(states, steps, i) + EventsUnderWay(states[i])
  {
    if i > 0 {
      var s, st := states[i - 1], steps[i - 1];
      EventsInOrder(handlers, states, steps, i - 1);
      EventsOfStep(s, st);
      MovedAlong(Consumed(states, steps, i - 1), EventsUnderWay(s),
                 if st.PushServerEvent? then [st.name] else [],
                 if st.ConsumeEvent? then [s.events[0]] else [], EventsUnderWay(states[i]));
    }
  }

  // ----- requests answered in line -----

  /** A built-in method or one nobody registered is answered before the next request is taken up. */
  predicate InLine(s: State, job: Job) { job.req.method_ in BUILT_IN || job.req.method_ !in s.handlers }

  predicate InLineLast(s: State) {
    forall i :: 0 <= i < |s.jobs| && InLine(s, s.jobs[i]) ==> s.jobs[i].blocking && i == |s.jobs| - 1
  }

  lemma RemovedJobs(s: State, j: nat, ok: bool)
    requires j < |s.jobs| && s.jobs[j].outcome.Some? && InLineLast(s)
    ensures InLineLast(DoWriteResponse(s, j, ok))
  {
    var s' := DoWriteResponse(s, j, ok);
    forall i | 0 <= i < |s'.jobs| && InLine(s', s'.jobs[i]) ensures s'.jobs[i].blocking && i == |s'.jobs| - 1 {
      var was := if i < j then i else i + 1;
      assert s'.jobs[i] == s.jobs[was] && InLine(s, s.jobs[was]);
    }
  }

  lemma InLineStep(s: State, st: Step)
    requires Enabled(s, st) && InLineLast(s)
    ensures InLineLast(Apply(s, st)) && Apply(s, st).handlers == s.handlers
  {
    if st.WriteResponse? { RemovedJobs(s, st.job, st.ok); }
  }

  /** Of the requests being handled, at most the last one taken up is a built-in or an unknown method. */
  lemma {:induction false} BuiltInsBlock(handlers: set<string>, states: seq<State>, steps: seq<Step>, i: nat)
    requires IsRun(handlers, states, steps) && i <= |steps|
    ensures states[i].handlers == handlers && InLineLast(states[i])
  {
    if i > 0 {
      BuiltInsBlock(handlers, states, steps, i - 1);
      InLineStep(states[i - 1], steps[i - 1]);
    }
  }

  // ----- a result and the caller's steps -----

  function ResultOf(pc: CallPc): Option<CallResult> {
    if pc.Leaving? || pc.Done? then Some(pc.result) else None
  }

  /** Call `id` took this step among the first `i`. */
  predicate Took(steps: seq<Step>, i: nat, st: Step)
    requires i <= |steps|
  {
    i > 0 && (steps[i - 1] == st || Took(steps, i - 1, st))
  }

  /** What a call returns, from the steps it took. */
  predicate ResultFits(pc: CallPc, taken: bool, gaveUp: bool, unsent: bool) {
    && (taken <==> ResultOf(pc).Some? && ResultOf(pc).value.Returned?)
    && (gaveUp <==> ResultOf(pc) == Some(ContextDone))
    && (unsent <==> ResultOf(pc) == Some(SendFailed))
  }

  predicate ResultAt(s: State, steps: seq<Step>, i: nat, id: nat)
    requires i <= |steps|
  {
    if id in s.calls then
      ResultFits(s.calls[id].pc, Took(steps, i, TakeResponse(id)), Took(steps, i, GiveUp(id)),
                 Took(steps, i, Send(id, false)))
    else
      !Took(steps, i, TakeResponse(id)) && !Took(steps, i, GiveUp(id)) && !Took(steps, i, Send(id, false))
  }

  lemma ResultStep(s: State, st: Step, id: nat, taken: bool, gaveUp: bool, unsent: bool)
    requires Enabled(s, st) && id in s.calls && ResultFits(s.calls[id].pc, taken, gaveUp, unsent)
    requires st.Begin? ==> s.nextID + 1 != id
    ensures id in Apply(s, st).calls
    ensures ResultFits(Apply(s, st).calls[id].pc, taken || st == TakeResponse(id), gaveUp || st == GiveUp(id),
                       unsent || st == Send(id, false))
  {
  }

  lemma NewCallStep(s: State, st: Step, id: nat)
    requires Enabled(s, st) && id !in s.calls
    ensures st != TakeResponse(id) && st != GiveUp(id) && st != Send(id, false)
    ensures id in Apply(s, st).calls ==> ResultOf(Apply(s, st).calls[id].pc) == None
  {
  }

  /**
    A call returns a response exactly when it took one, its context's error exactly when it gave up, and a
    send error exactly when its send failed.
  */
  lemma {:induction false} ResultHasCause(
    handlers: set<string>, states: seq<State>, steps: seq<Step>, i: nat, id: nat)
    requires IsRun(handlers, states, steps) && i <= |steps|
    ensures ResultAt(states[i], steps, i, id)
  {
    if i > 0 {
      var s, st := states[i - 1], steps[i - 1];
      ResultHasCause(handlers, states, steps, i - 1, id);
      if id in s.calls {
        assert s.nextID + 1 !in s.calls by {
          RunInv(handlers, states, steps, i - 1);
          FreshCall(s);
        }
        ResultStep(s, st, id, Took(steps, i - 1, TakeResponse(id)), Took(steps, i - 1, GiveUp(id)),
                   Took(steps, i - 1, Send(id, false)));
      } else {
        NewCallStep(s, st, id);
      }
    }
  }

  /** A call that gives up is forgotten, and its response, if it still comes, is not for it. */
  lemma GiveUpRound(s: State, id: nat)
    requires CallAt(s, id, Waiting)
    ensures After(Next, s, [GiveUp(id), Leave(id)])
         == Some(SetCall(s, id, s.calls[id].(pc := Done(ContextDone))).(pending := s.pending - {id}))
  {
    var left := s.calls[id].(pc := Leaving(ContextDone));
    SameKey(s.calls, id, left, left.(pc := Done(ContextDone)));
    Chain2(Next, s, GiveUp(id), SetCall(s, id, left), Leave(id),
           SetCall(s, id, left.(pc := Done(ContextDone))).(pending := s.pending - {id}));
  }
}
