/** What a call's outcome says about the steps it took, and that undisturbed calls do what they are for. */
module AtomicWriteRuns {
  import opened Bytes
  import opened Wrappers
  import opened AtomicWrite
  import opened AtomicWriteTheorems
  import opened Paths
  import opened Sequences

  // ----- an outcome has a cause -----

  /** Call `id` took this step among the first `i`. */
  predicate Took(steps: seq<Step>, i: nat, id: nat, op: WriterStep)
    requires i <= |steps|
  {
    i > 0 && (steps[i - 1] == Write(id, op) || Took(steps, i - 1, id, op))
  }

  /** What the call has decided to return. */
  function OutcomeOf(pc: Pc): Option<Outcome> {
    match pc
    case Removing(outcome) => Some(outcome)
    case Unlocking(outcome) => Some(outcome)
    case Done(outcome) => Some(outcome)
    case _ => None
  }

  /** What the steps a call has taken say about where it is. */
  predicate Accounted(pc: Pc, failed: bool, timedOut: bool, crashed: bool, renamed: bool) {
    && (pc.Crashed? <==> crashed)
    && (!crashed ==>
          OutcomeOf(pc) ==
          if failed then Some(Failed) else if timedOut then Some(Busy) else if renamed then Some(Success) else None)
    && (pc.Crashed? ==> (pc.published <==> renamed))
    && !(failed && timedOut) && !(failed && renamed) && !(timedOut && renamed)
  }

  lemma StepAccounted(s: State, wr: Writer, op: WriterStep, failed: bool, timedOut: bool, crashed: bool, renamed: bool)
    requires WriterEnabled(s, wr, op) && Accounted(wr.pc, failed, timedOut, crashed, renamed)
    ensures Accounted(NextPc(wr, op), failed || op == Fail, timedOut || op == Timeout, crashed || op == Crash,
                      renamed || op == Rename)
  {
  }

  lemma NotYetSpawned(s: State, st: Step, id: nat)
    requires Enabled(s, st) && id !in Apply(s, st).writers
    ensures id !in s.writers && !(st.Write? && st.id == id)
  {
  }

  lemma {:induction false} TookNothing(
    files: map<nat, seq<Byte>>, states: seq<State>, steps: seq<Step>, i: nat, id: nat, op: WriterStep)
    requires IsRun(files, states, steps) && i <= |steps| && id !in states[i].writers
    ensures !Took(steps, i, id, op)
  {
    if i > 0 {
      NotYetSpawned(states[i - 1], steps[i - 1], id);
      TookNothing(files, states, steps, i - 1, id, op);
    }
  }

  ghost predicate AccountedIn(states: seq<State>, steps: seq<Step>, i: nat, id: nat)
    requires i <= |steps| && |states| == |steps| + 1
  {
    id in states[i].writers ==>
      Accounted(states[i].writers[id].pc, Took(steps, i, id, Fail), Took(steps, i, id, Timeout),
                Took(steps, i, id, Crash), Took(steps, i, id, Rename))
  }

  lemma OwnStepAccounted(files: map<nat, seq<Byte>>, states: seq<State>, steps: seq<Step>, i: nat, id: nat)
    requires IsRun(files, states, steps) && i < |steps| && AccountedIn(states, steps, i, id)
    requires steps[i].Write? && steps[i].id == id
    ensures AccountedIn(states, steps, i + 1, id)
  {
    StepAccounted(states[i], states[i].writers[id], steps[i].op, Took(steps, i, id, Fail),
                  Took(steps, i, id, Timeout), Took(steps, i, id, Crash), Took(steps, i, id, Rename));
  }

  lemma OtherStepAccounted(files: map<nat, seq<Byte>>, states: seq<State>, steps: seq<Step>, i: nat, id: nat)
    requires IsRun(files, states, steps) && i < |steps| && AccountedIn(states, steps, i, id)
    requires !(steps[i].Write? && steps[i].id == id)
    ensures AccountedIn(states, steps, i + 1, id)
  {
    if id !in states[i].writers {
      TookNothing(files, states, steps, i, id, Fail);
      TookNothing(files, states, steps, i, id, Timeout);
      TookNothing(files, states, steps, i, id, Crash);
      TookNothing(files, states, steps, i, id, Rename);
    }
  }

  /**
    A call fails exactly when one of its operations did, is busy exactly when it ran out of time waiting for
    the lock, succeeds exactly when it renamed its file, and is crashed exactly when it was; no two of the
    first three happen to one call.
  */
  lemma {:induction false} OutcomeHasCause(
    files: map<nat, seq<Byte>>, states: seq<State>, steps: seq<Step>, i: nat, id: nat)
    requires IsRun(files, states, steps) && i <= |steps|
    ensures AccountedIn(states, steps, i, id)
  {
    if i > 0 {
      OutcomeHasCause(files, states, steps, i - 1, id);
      if steps[i - 1].Write? && steps[i - 1].id == id {
        OwnStepAccounted(files, states, steps, i - 1, id);
      } else {
        OtherStepAccounted(files, states, steps, i - 1, id);
      }
    }
  }

  /** A call that came to its removal, with no failure, no timeout and no crash on the way, has succeeded. */
  lemma NothingWentWrong(files: map<nat, seq<Byte>>, states: seq<State>, steps: seq<Step>, i: nat, id: nat)
    requires IsRun(files, states, steps) && i <= |steps| && id in states[i].writers
    requires var pc := states[i].writers[id].pc; pc.Removing? || pc.Unlocking? || pc.Done?
    ensures states[i].writers[id].pc.outcome == Success <==>
            !Took(steps, i, id, Fail) && !Took(steps, i, id, Timeout)
    ensures states[i].writers[id].pc.outcome == Success <==> Took(steps, i, id, Rename)
    ensures states[i].writers[id].pc.outcome == Failed <==> Took(steps, i, id, Fail)
    ensures states[i].writers[id].pc.outcome == Busy <==> Took(steps, i, id, Timeout)
  {
    OutcomeHasCause(files, states, steps, i, id);
  }

  // ----- an undisturbed write -----

  function Next(s: State, st: Step): Option<State> { if Enabled(s, st) then Some(Apply(s, st)) else None }

  predicate Leads(s: State, st: Step, s': State) { Next(s, st) == Some(s') }

  /** The state with one call's share of it replaced. */
  function With(s: State, id: nat, wr: Writer, dir: map<Name, nat>, inodes: map<nat, seq<Byte>>, lock: Option<nat>)
    : State
  {
    s.(dir := dir, inodes := inodes, lock := lock, writers := s.writers[id := wr])
  }

  /** A writer's step changes that share only. */
  lemma Moves(
    s: State, id: nat, wr: Writer, dir: map<Name, nat>, inodes: map<nat, seq<Byte>>, lock: Option<nat>,
    op: WriterStep)
    requires WriterEnabled(With(s, id, wr, dir, inodes, lock), wr, op)
    requires !op.Rename? && !op.Crash? && !op.RemoveFails?
    ensures Leads(With(s, id, wr, dir, inodes, lock), Write(id, op),
                  With(s, id, NextWriter(wr, op), NextDir(dir, wr, op), NextInodes(inodes, wr, op),
                       NextLock(lock, id, op)))
  {
    SameKey(s.writers, id, wr, NextWriter(wr, op));
  }

  /** The call takes the lock and makes its temp file. */
  lemma StartsWriting(s: State, id: nat, path: nat, data: seq<Byte>, k: nat, inode: nat)
    requires id !in s.writers && s.lock == None && Temp(k) !in s.dir && inode !in s.inodes
    ensures
      After(Next, s, [Spawn(id, path, data), Write(id, Touch), Write(id, TryLock), Write(id, CreateTemp(k, inode))])
         == Some(With(s, id, Writer(Writing(0), path, data, k, inode), s.dir[Temp(k) := inode],
                      s.inodes[inode := []], Some(id)))
  {
    var begin := Writer(Begin, path, data, 0, 0);
    var waiting, locked := begin.(pc := Waiting), begin.(pc := Locked);
    var writing := Writer(Writing(0), path, data, k, inode);
    Moves(s, id, begin, s.dir, s.inodes, None, Touch);
    Moves(s, id, waiting, s.dir, s.inodes, None, TryLock);
    Moves(s, id, locked, s.dir, s.inodes, Some(id), CreateTemp(k, inode));
    Chain4(Next, s, Spawn(id, path, data), With(s, id, begin, s.dir, s.inodes, None), Write(id, Touch),
           With(s, id, waiting, s.dir, s.inodes, None), Write(id, TryLock),
           With(s, id, locked, s.dir, s.inodes, Some(id)), Write(id, CreateTemp(k, inode)),
           With(s, id, writing, s.dir[Temp(k) := inode], s.inodes[inode := []], Some(id)));
  }

  /** The data goes into the temp file, which is closed. */
  lemma FillsTemp(s: State, id: nat, path: nat, data: seq<Byte>, k: nat, inode: nat, dir: map<Name, nat>)
    ensures var writing := Writer(Writing(0), path, data, k, inode);
      After(Next, With(s, id, writing, dir, s.inodes[inode := []], Some(id)),
            [Write(id, WriteSome(|data|)), Write(id, WriteEnd), Write(id, Chmod), Write(id, CloseFile)])
      == Some(With(s, id, writing.(pc := Renaming), dir, s.inodes[inode := data], Some(id)))
  {
    var writing, inodes := Writer(Writing(0), path, data, k, inode), s.inodes[inode := data];
    var full := writing.(pc := Writing(|data|));
    assert data[..|data|] == data && s.inodes[inode := []][inode := data] == inodes;
    Moves(s, id, writing, dir, s.inodes[inode := []], Some(id), WriteSome(|data|));
    Moves(s, id, full, dir, inodes, Some(id), WriteEnd);
    Moves(s, id, writing.(pc := Chmodding), dir, inodes, Some(id), Chmod);
    Moves(s, id, writing.(pc := Closing), dir, inodes, Some(id), CloseFile);
    Chain4(Next, With(s, id, writing, dir, s.inodes[inode := []], Some(id)), Write(id, WriteSome(|data|)),
           With(s, id, full, dir, inodes, Some(id)), Write(id, WriteEnd),
           With(s, id, writing.(pc := Chmodding), dir, inodes, Some(id)), Write(id, Chmod),
           With(s, id, writing.(pc := Closing), dir, inodes, Some(id)), Write(id, CloseFile),
           With(s, id, writing.(pc := Renaming), dir, inodes, Some(id)));
  }

  /** The temp file takes the target's place; the deferred removal and unlock run. */
  lemma Publishes(s: State, id: nat, wr: Writer, inodes: map<nat, seq<Byte>>)
    requires wr.pc == Renaming && Temp(wr.name) !in s.dir
    ensures After(Next, With(s, id, wr, s.dir[Temp(wr.name) := wr.inode], inodes, Some(id)),
                  [Write(id, Rename), Write(id, Remove), Write(id, Unlock)])
         == Some(With(s, id, wr.(pc := Done(Success)), s.dir[Target(wr.path) := wr.inode], inodes, None)
                   .(log := s.log + [Published(id, wr.path, wr.data)]))
  {
    var s' := s.(log := s.log + [Published(id, wr.path, wr.data)]);
    var dir, dir' := s.dir[Temp(wr.name) := wr.inode], s.dir[Target(wr.path) := wr.inode];
    assert (dir - {Temp(wr.name)})[Target(wr.path) := wr.inode] == dir' && dir' - {Temp(wr.name)} == dir';
    SameKey(s.writers, id, wr, wr.(pc := Removing(Success)));
    Moves(s', id, wr.(pc := Removing(Success)), dir', inodes, Some(id), Remove);
    Moves(s', id, wr.(pc := Unlocking(Success)), dir', inodes, Some(id), Unlock);
    Chain3(Next, With(s, id, wr, dir, inodes, Some(id)), Write(id, Rename),
           With(s', id, wr.(pc := Removing(Success)), dir', inodes, Some(id)), Write(id, Remove),
           With(s', id, wr.(pc := Unlocking(Success)), dir', inodes, Some(id)), Write(id, Unlock),
           With(s', id, wr.(pc := Done(Success)), dir', inodes, None));
  }

  /** The steps of a call that meets no error. */
  function WholeCall(id: nat, path: nat, data: seq<Byte>, k: nat, inode: nat): seq<Step> {
    [Spawn(id, path, data), Write(id, Touch), Write(id, TryLock), Write(id, CreateTemp(k, inode))]
    + [Write(id, WriteSome(|data|)), Write(id, WriteEnd), Write(id, Chmod), Write(id, CloseFile)]
    + [Write(id, Rename), Write(id, Remove), Write(id, Unlock)]
  }

  /**
    A call that finds the lock free and meets no error succeeds: the target holds its data, its temp name is
    gone, the lock is free again, and every other name is as it was.
  */
  lemma WriteRound(files: map<nat, seq<Byte>>, s: State, id: nat, path: nat, data: seq<Byte>, k: nat, inode: nat)
    requires Reachable(files, s)
    requires id !in s.writers && s.lock == None && Temp(k) !in s.dir && inode !in s.inodes
    ensures After(Next, s, WholeCall(id, path, data, k, inode)).Some?
    ensures var s' := After(Next, s, WholeCall(id, path, data, k, inode)).value;
      && s'.writers == s.writers[id := Writer(Done(Success), path, data, k, inode)]
      && s'.lock == None
      && Content(s'.dir, s'.inodes, path) == Some(data)
      && (forall p :: p != path ==> Content(s'.dir, s'.inodes, p) == Content(s.dir, s.inodes, p))
      && (forall j :: Temp(j) in s'.dir <==> Temp(j) in s.dir)
      && s'.readers == s.readers
  {
    var s1 := With(s, id, Writer(Writing(0), path, data, k, inode), s.dir[Temp(k) := inode], s.inodes[inode := []],
                   Some(id));
    var renaming := Writer(Renaming, path, data, k, inode);
    StartsWriting(s, id, path, data, k, inode);
    FillsTemp(s, id, path, data, k, inode, s.dir[Temp(k) := inode]);
    Publishes(s, id, renaming, s.inodes[inode := data]);
    var start := [Spawn(id, path, data), Write(id, Touch), Write(id, TryLock), Write(id, CreateTemp(k, inode))];
    var fill := [Write(id, WriteSome(|data|)), Write(id, WriteEnd), Write(id, Chmod), Write(id, CloseFile)];
    var finish := [Write(id, Rename), Write(id, Remove), Write(id, Unlock)];
    AfterBoth(Next, s, start, fill);
    AfterBoth(Next, s, start + fill, finish);
    ContentPublished(s, path, data, inode) by { ReachableInv(files, s); }
  }

  lemma ContentPublished(s: State, path: nat, data: seq<Byte>, inode: nat)
    requires DirInv(s.dir, s.inodes) && inode !in s.inodes
    ensures var dir, inodes := s.dir[Target(path) := inode], s.inodes[inode := data];
      && Content(dir, inodes, path) == Some(data)
      && (forall p :: p != path ==> Content(dir, inodes, p) == Content(s.dir, s.inodes, p))
  {
  }

  /** A call that finds the lock held until its time is up returns busy and touches no file. */
  lemma BusyRound(s: State, id: nat, path: nat, data: seq<Byte>)
    requires id !in s.writers && s.lock.Some?
    ensures After(Next, s, [Spawn(id, path, data), Write(id, Touch), Write(id, Timeout)])
         == Some(s.(writers := s.writers[id := Writer(Done(Busy), path, data, 0, 0)]))
  {
    var begin := Writer(Begin, path, data, 0, 0);
    SameKey(s.writers, id, begin, begin.(pc := Waiting));
    SameKey(s.writers, id, begin.(pc := Waiting), begin.(pc := Done(Busy)));
    Chain3(Next, s, Spawn(id, path, data), With(s, id, begin, s.dir, s.inodes, s.lock), Write(id, Touch),
           With(s, id, begin.(pc := Waiting), s.dir, s.inodes, s.lock), Write(id, Timeout),
           With(s, id, begin.(pc := Done(Busy)), s.dir, s.inodes, s.lock));
  }

  /** A deletion empties its own target and no other. */
  lemma DeleteRound(s: State, path: nat)
    ensures var s' := Apply(s, Delete(path));
      && Content(s'.dir, s'.inodes, path) == None
      && (forall p :: p != path ==> Content(s'.dir, s'.inodes, p) == Content(s.dir, s.inodes, p))
  {
  }

  /** The lock of a crashed process is freed, so that the next call can take it. */
  lemma CrashFreesTheLock(files: map<nat, seq<Byte>>, s: State, id: nat)
    requires Reachable(files, s) && s.lock == Some(id) && id in s.writers && s.writers[id].pc.Crashed?
    ensures Enabled(s, Write(id, Reap))
    ensures var s' := Apply(s, Write(id, Reap));
      s'.lock == None && s'.dir == s.dir && s'.inodes == s.inodes
  {
    ReachableInv(files, s);
  }

  /** A read that meets no error and no writer in between returns what the target holds. */
  lemma ReadRound(files: map<nat, seq<Byte>>, s: State, id: nat, path: nat) returns (steps: seq<Step>)
    requires Reachable(files, s) && id !in s.readers
    ensures After(Next, s, steps)
         == Some(s.(readers := s.readers[id := ReadDone(path, |s.log|, Content(s.dir, s.inodes, path))]))
  {
    assert DirInv(s.dir, s.inodes) by { ReachableInv(files, s); }
    if Target(path) in s.dir {
      var inode := s.dir[Target(path)];
      var content := s.inodes[inode];
      var started, full := Reading(path, |s.log|, inode, []), Reading(path, |s.log|, inode, content);
      var finished := ReadDone(path, |s.log|, Some(content));
      assert [] + content[0..|content|] == content;
      assert s.readers[id := started][id := full] == s.readers[id := full];
      assert s.readers[id := full][id := finished] == s.readers[id := finished];
      Chain3(Next, s, Open(id, path), s.(readers := s.readers[id := started]), ReadSome(id, |content|),
             s.(readers := s.readers[id := full]), ReadEnd(id), s.(readers := s.readers[id := finished]));
      steps := [Open(id, path), ReadSome(id, |content|), ReadEnd(id)];
    } else {
      AfterOne(Next, s, Open(id, path), []);
      steps := [Open(id, path)];
    }
  }
}
