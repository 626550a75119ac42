/** What readers, writers and crashes can and cannot do to the files of an account. */
module AtomicWriteTheorems {
  import opened Bytes
  import opened Wrappers
  import opened AtomicWrite
  import opened AtomicWriteSteps
  import opened SessionFrame

  ghost predicate Reachable(files: map<nat, seq<Byte>>, s: State) {
    exists states, steps :: IsRun(files, states, steps) && states[|steps|] == s
  }

  lemma {:induction false} RunInv(files: map<nat, seq<Byte>>, states: seq<State>, steps: seq<Step>, i: nat)
    requires IsRun(files, states, steps) && i <= |steps|
    ensures Inv(files, states[i])
  {
    if i == 0 {
      InitInv(files);
    } else {
      RunInv(files, states, steps, i - 1);
      StepKeepsInv(files, states[i - 1], steps[i - 1]);
    }
  }

  lemma ReachableInv(files: map<nat, seq<Byte>>, s: State)
    requires Reachable(files, s)
    ensures Inv(files, s)
  {
    var states, steps :| IsRun(files, states, steps) && states[|steps|] == s;
    RunInv(files, states, steps, |steps|);
  }

  // ----- targets -----

  /** The complete bytes of some call that got as far as its rename. */
  ghost predicate WholeWrite(s: State, path: nat, content: seq<Byte>) {
    exists id <- s.writers ::
      Renamed(s.writers[id].pc) && s.writers[id].path == path && s.writers[id].data == content
  }

  lemma {:induction false} LatestIsWhole(files: map<nat, seq<Byte>>, s: State, n: nat, path: nat)
    requires LogInv(s.log, s.writers) && n <= |s.log|
    ensures var content := Latest(files, s.log[..n], path);
      || content == None
      || (path in files && content.value == files[path])
      || WholeWrite(s, path, content.value)
  {
    if n > 0 {
      assert s.log[..n][..n - 1] == s.log[..n - 1];
      LatestIsWhole(files, s, n - 1, path);
      var c := s.log[n - 1];
      if c.Published? && c.path == path {
        PublisherRenamed(s.log, c, n - 1);
        assert c.writer in s.writers && Renamed(s.writers[c.writer].pc);
      }
    }
  }

  lemma {:induction false} PublisherRenamed(log: seq<Change>, c: Change, i: nat)
    requires i < |log| && log[i] == c && c.Published?
    ensures Count(log, c.writer) > 0
    decreases |log|
  {
    if i < |log| - 1 { PublisherRenamed(log[..|log| - 1], c, i); }
  }

  /**
    A target never holds part of a write or a mixture: it is absent, as it was at the start, or exactly the
    bytes one call was given. This includes every state after a crash.
  */
  lemma TargetsAreWhole(files: map<nat, seq<Byte>>, s: State, path: nat)
    requires Reachable(files, s)
    ensures var content := Content(s.dir, s.inodes, path);
      || content == None
      || (path in files && content.value == files[path])
      || WholeWrite(s, path, content.value)
  {
    ReachableInv(files, s);
    assert Content(s.dir, s.inodes, path) == Latest(files, s.log, path);
    assert s.log[..|s.log|] == s.log;
    LatestIsWhole(files, s, |s.log|, path);
  }

  /** Only a rename and a deletion change what a target holds; no other step, and no crash, does. */
  lemma OnlyRenameOrDelete(files: map<nat, seq<Byte>>, s: State, st: Step, path: nat)
    requires Reachable(files, s) && Enabled(s, st)
    ensures Content(Apply(s, st).dir, Apply(s, st).inodes, path) ==
            if st.Write? && st.op.Rename? && s.writers[st.id].path == path then Some(s.writers[st.id].data)
            else if st == Delete(path) then None
            else Content(s.dir, s.inodes, path)
  {
    ReachableInv(files, s);
    if st.Write? { ContentStep(s, st.id, st.op, path); }
  }

  // ----- writers -----

  /** Between taking the lock and giving it back there is one call at a time. */
  lemma OneWriter(files: map<nat, seq<Byte>>, s: State, i: nat, j: nat)
    requires Reachable(files, s)
    requires i in s.writers && j in s.writers && Holds(s.writers[i].pc) && Holds(s.writers[j].pc)
    ensures i == j
  {
    ReachableInv(files, s);
  }

  /**
    The deferred removal runs before the deferred unlock, so the name it removes is still this call's own:
    either the rename took it away and nobody has it, or it leads to the file this call created.
  */
  lemma RemovesOnlyItsOwn(files: map<nat, seq<Byte>>, s: State, id: nat)
    requires Reachable(files, s) && id in s.writers && s.writers[id].pc.Removing?
    ensures var wr := s.writers[id];
      && (wr.pc.outcome == Success ==> Temp(wr.name) !in s.dir)
      && (wr.pc.outcome != Success ==> Temp(wr.name) in s.dir && s.dir[Temp(wr.name)] == wr.inode)
    ensures forall n <- s.dir :: n !in Apply(s, Write(id, Remove)).dir ==> s.dir[n] == s.writers[id].inode
  {
    ReachableInv(files, s);
    assert s.lock == Some(id);
  }

  /** A call reports success exactly when its bytes reached the target, and it puts them there once. */
  lemma OutcomeIsTrue(files: map<nat, seq<Byte>>, s: State, id: nat)
    requires Reachable(files, s) && id in s.writers && s.writers[id].pc.Done?
    ensures Count(s.log, id) == if s.writers[id].pc.outcome == Success then 1 else 0
  {
    ReachableInv(files, s);
  }

  lemma {:induction false} NoOrphans(files: map<nat, seq<Byte>>, states: seq<State>, steps: seq<Step>, i: nat)
    requires IsRun(files, states, steps) && i <= |steps|
    requires forall k :: 0 <= k < |steps| && steps[k].Write? ==> !steps[k].op.Crash? && !steps[k].op.RemoveFails?
    ensures states[i].orphans == {}
  {
    if i > 0 {
      NoOrphans(files, states, steps, i - 1);
      assert Enabled(states[i - 1], steps[i - 1]) && states[i] == Apply(states[i - 1], steps[i - 1]);
    }
  }

  /** Without crashes and failed removals, temp files exist only while a call holds the lock. */
  lemma NoLeftovers(files: map<nat, seq<Byte>>, states: seq<State>, steps: seq<Step>, i: nat, k: nat)
    requires IsRun(files, states, steps) && i <= |steps| && Temp(k) in states[i].dir
    requires forall k :: 0 <= k < |steps| && steps[k].Write? ==> !steps[k].op.Crash? && !steps[k].op.RemoveFails?
    ensures states[i].lock.Some? && states[i].lock.value in states[i].writers
    ensures states[i].writers[states[i].lock.value].name == k && !states[i].writers[states[i].lock.value].pc.Done?
  {
    NoOrphans(files, states, steps, i);
    RunInv(files, states, steps, i);
  }

  // ----- readers -----

  /** Reads without a lock: a finished one returns what the target held after the first `at` changes. */
  lemma ReadsOneVersion(files: map<nat, seq<Byte>>, s: State, id: nat)
    requires Reachable(files, s) && id in s.readers && s.readers[id].ReadDone?
    ensures var r := s.readers[id];
      r.at <= |s.log| && r.content == Latest(files, s.log[..r.at], r.path)
  {
    ReachableInv(files, s);
    assert ReaderInv(files, s.inodes, s.log, s.lock, s.writers, s.readers[id]);
  }

  lemma LogOnlyGrows(s: State, st: Step)
    requires Enabled(s, st)
    ensures s.log <= Apply(s, st).log
  {
  }

  /** Where a reader was opened. */
  lemma {:induction false} OpenedAt(
    files: map<nat, seq<Byte>>, states: seq<State>, steps: seq<Step>, j: nat, id: nat) returns (i: nat)
    requires IsRun(files, states, steps) && j <= |steps|
    requires id in states[j].readers && !states[j].readers[id].ReadFailed?
    ensures i < j && steps[i] == Open(id, states[j].readers[id].path)
    ensures states[j].readers[id].at == |states[i].log| && states[i].log <= states[j].log
  {
    assert j > 0;
    var s, st := states[j - 1], steps[j - 1];
    assert Enabled(s, st) && states[j] == Apply(s, st);
    LogOnlyGrows(s, st);
    if st.Open? && st.id == id {
      i := j - 1;
    } else {
      assert id in s.readers && !s.readers[id].ReadFailed?;
      i := OpenedAt(files, states, steps, j - 1, id);
    }
  }

  /** A finished read returns exactly what the target held at the moment it was opened. */
  lemma ReadIsASnapshot(
    files: map<nat, seq<Byte>>, states: seq<State>, steps: seq<Step>, j: nat, id: nat) returns (i: nat)
    requires IsRun(files, states, steps) && j <= |steps|
    requires id in states[j].readers && states[j].readers[id].ReadDone?
    ensures i < j && steps[i] == Open(id, states[j].readers[id].path)
    ensures var r := states[j].readers[id]; r.content == Content(states[i].dir, states[i].inodes, r.path)
  {
    i := OpenedAt(files, states, steps, j, id);
    RunInv(files, states, steps, i);
    RunInv(files, states, steps, j);
    var r := states[j].readers[id];
    assert ReaderInv(files, states[j].inodes, states[j].log, states[j].lock, states[j].writers, r);
    assert states[j].log[..r.at] == states[i].log;
    assert Content(states[i].dir, states[i].inodes, r.path) == Latest(files, states[i].log, r.path);
  }

  // ----- sessions -----

  datatype LoadError = NotFound | Malformed(error: SessionError)

  /** Loading a session from what a read returned. */
  function LoadSession(content: Option<seq<Byte>>): Result<seq<Byte>, LoadError> {
    match content
    case None => Err(NotFound)
    case Some(file) =>
      match Parse(file)
      case Ok(payload) => Ok(payload)
      case Err(e) => Err(Malformed(e))
  }

  /** Everything ever written to the session file is the frame of some payload. */
  ghost predicate OnlySessions(files: map<nat, seq<Byte>>, s: State, path: nat) {
    && (path in files ==> IsFrame(files[path]))
    && (forall id <- s.writers :: s.writers[id].path == path ==> IsFrame(s.writers[id].data))
  }

  ghost predicate IsFrame(file: seq<Byte>) { exists payload :: file == Frame(payload) }

  /** A payload whose frame was in the session file at the start or was put there by a whole write. */
  ghost predicate Stored(files: map<nat, seq<Byte>>, s: State, path: nat, payload: seq<Byte>) {
    (path in files && files[path] == Frame(payload)) || WholeWrite(s, path, Frame(payload))
  }

  /**
    A load that could read the file at all says that there is no session or returns exactly some stored
    payload; the one other answer is the length error, for a stored payload too long for the length field.
  */
  lemma LoadSessionIsSafe(files: map<nat, seq<Byte>>, s: State, id: nat)
    requires Reachable(files, s) && id in s.readers && s.readers[id].ReadDone?
    requires OnlySessions(files, s, s.readers[id].path)
    ensures var path, loaded := s.readers[id].path, LoadSession(s.readers[id].content);
      || loaded == Err(NotFound)
      || (loaded.Ok? && |loaded.value| < 0x1_0000_0000 && Stored(files, s, path, loaded.value))
      || (loaded == Err(Malformed(BadLength))
          && exists payload :: |payload| >= 0x1_0000_0000 && Stored(files, s, path, payload))
  {
    var r := s.readers[id];
    ReachableInv(files, s);
    ReadsOneVersion(files, s, id);
    LatestIsWhole(files, s, r.at, r.path);
    if r.content.Some? {
      var file := r.content.value;
      assert IsFrame(file);
      var payload :| file == Frame(payload);
      LoadWhatWasStored(payload);
      assert Stored(files, s, r.path, payload);
    }
  }
}
