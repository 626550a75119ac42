/** Every step keeps the invariant: one lemma for each part and kind of step. */
module AtomicWriteSteps {
  import opened Bytes
  import opened Wrappers
  import opened AtomicWrite

  // ----- steps of a writer -----

  /** A writer outside the lock changes no file. */
  lemma OutsideLock(s: State, id: nat, op: WriterStep)
    requires LockInv(s.lock, s.writers) && Enabled(s, Write(id, op)) && s.lock != Some(id)
    ensures var s' := Apply(s, Write(id, op));
      && s'.dir == s.dir && s'.inodes == s.inodes && s'.log == s.log && s'.orphans == s.orphans
      && (s'.lock == s.lock || (s.lock == None && s'.lock == Some(id) && s'.writers[id].pc == Locked))
  {
    var wr := s.writers[id];
    assert !Holds(wr.pc);
  }

  lemma LockKept(lock: Option<nat>, writers: map<nat, Writer>, id: nat, wr': Writer, lock': Option<nat>)
    requires LockInv(lock, writers) && id in writers
    requires Holds(wr'.pc) <==> lock' == Some(id)
    requires lock' == lock || (lock == None && lock' == Some(id)) || (lock == Some(id) && lock' == None)
    ensures LockInv(lock', writers[id := wr'])
  {
  }

  lemma LockStep(s: State, id: nat, op: WriterStep)
    requires LockInv(s.lock, s.writers) && Enabled(s, Write(id, op))
    ensures var s' := Apply(s, Write(id, op)); LockInv(s'.lock, s'.writers)
  {
    var wr := s.writers[id];
    assert Holds(wr.pc) <==> s.lock == Some(id);
    LockKept(s.lock, s.writers, id, NextWriter(wr, op), NextLock(s.lock, id, op));
  }

  lemma DirStep(dir: map<Name, nat>, inodes: map<nat, seq<Byte>>, wr: Writer, op: WriterStep)
    requires DirInv(dir, inodes) && TempInv(dir, inodes, wr) && (op.Rename? ==> wr.pc == Renaming)
    ensures DirInv(NextDir(dir, wr, op), NextInodes(inodes, wr, op))
  {
  }

  /** The holder's temp file through its own step. */
  lemma TempStep(s: State, id: nat, op: WriterStep)
    requires Enabled(s, Write(id, op)) && DirInv(s.dir, s.inodes) && TempInv(s.dir, s.inodes, s.writers[id])
    ensures var s' := Apply(s, Write(id, op));
      !s'.writers[id].pc.Done? && !s'.writers[id].pc.Crashed? ==> TempInv(s'.dir, s'.inodes, s'.writers[id])
  {
    var wr := s.writers[id];
    if op.WriteSome? {
      assert wr.data[..op.n] == NextInodes(s.inodes, wr, op)[wr.inode];
    } else if op.WriteEnd? {
      assert wr.data[..|wr.data|] == wr.data;
    }
  }

  lemma HolderStep(s: State, id: nat, op: WriterStep)
    requires LockInv(s.lock, s.writers) && Enabled(s, Write(id, op))
    requires DirInv(s.dir, s.inodes) && HolderInv(s.dir, s.inodes, s.lock, s.writers)
    ensures var s' := Apply(s, Write(id, op)); HolderInv(s'.dir, s'.inodes, s'.lock, s'.writers)
  {
    if s.lock == Some(id) {
      TempStep(s, id, op);
    } else {
      OutsideLock(s, id, op);
    }
  }

  lemma OrphansStep(s: State, id: nat, op: WriterStep)
    requires LockInv(s.lock, s.writers) && Enabled(s, Write(id, op))
    requires OrphansInv(s.dir, s.lock, s.writers, s.orphans)
    ensures var s' := Apply(s, Write(id, op)); OrphansInv(s'.dir, s'.lock, s'.writers, s'.orphans)
  {
    var s' := Apply(s, Write(id, op));
    forall k | Temp(k) in s'.dir
      ensures k in s'.orphans ||
              exists i <- s'.writers :: s'.lock == Some(i) && HasTemp(s'.writers[i].pc) && s'.writers[i].name == k
    {
      if s.lock != Some(id) {
        OutsideLock(s, id, op);
        if k !in s.orphans {
          var i :| i in s.writers && s.lock == Some(i) && HasTemp(s.writers[i].pc) && s.writers[i].name == k;
          assert i in s'.writers && s'.writers[i] == s.writers[i];
        }
      } else {
        OwnTempStep(s, id, op, k);
        assert id in s'.writers;
      }
    }
  }

  /** The holder's step and one temp name: it stays accounted for. */
  lemma OwnTempStep(s: State, id: nat, op: WriterStep, k: nat)
    requires Enabled(s, Write(id, op)) && Holds(s.writers[id].pc)
    requires Temp(k) in s.dir ==> k in s.orphans || (HasTemp(s.writers[id].pc) && s.writers[id].name == k)
    requires Temp(k) in Apply(s, Write(id, op)).dir
    ensures var s' := Apply(s, Write(id, op));
      k in s'.orphans || (s'.lock == s.lock && HasTemp(s'.writers[id].pc) && s'.writers[id].name == k)
  {
  }

  // ----- what targets hold -----

  lemma LatestAppend(files: map<nat, seq<Byte>>, log: seq<Change>, c: Change, path: nat)
    ensures Latest(files, log + [c], path) ==
            if c.path != path then Latest(files, log, path) else if c.Published? then Some(c.data) else None
  {
    assert (log + [c])[..|log|] == log;
  }

  /** What one step of a writer does to one target: nothing, unless it is the rename onto it. */
  lemma ContentStep(s: State, id: nat, op: WriterStep, path: nat)
    requires LockInv(s.lock, s.writers) && Enabled(s, Write(id, op))
    requires DirInv(s.dir, s.inodes) && HolderInv(s.dir, s.inodes, s.lock, s.writers)
    ensures var s' := Apply(s, Write(id, op));
      Content(s'.dir, s'.inodes, path) ==
      if op.Rename? && s.writers[id].path == path then Some(s.writers[id].data) else Content(s.dir, s.inodes, path)
  {
    if s.lock == Some(id) {
      var wr := s.writers[id];
      assert TempInv(s.dir, s.inodes, wr);
      if Target(path) in s.dir && op.CreateTemp? {
        assert s.dir[Target(path)] != op.inode;
      }
    } else {
      OutsideLock(s, id, op);
    }
  }

  lemma ContentInvStep(files: map<nat, seq<Byte>>, s: State, id: nat, op: WriterStep)
    requires LockInv(s.lock, s.writers) && Enabled(s, Write(id, op))
    requires DirInv(s.dir, s.inodes) && HolderInv(s.dir, s.inodes, s.lock, s.writers)
    requires ContentInv(files, s.dir, s.inodes, s.log)
    ensures var s' := Apply(s, Write(id, op)); ContentInv(files, s'.dir, s'.inodes, s'.log)
  {
    var s' := Apply(s, Write(id, op));
    var wr := s.writers[id];
    forall path ensures Content(s'.dir, s'.inodes, path) == Latest(files, s'.log, path) {
      ContentStep(s, id, op, path);
      LatestAppend(files, s.log, Published(id, wr.path, wr.data), path);
    }
  }

  // ----- readers -----

  /** An inode that is not a temp file keeps its bytes and stays private to nobody. */
  lemma InodeStep(s: State, id: nat, op: WriterStep, inode: nat)
    requires LockInv(s.lock, s.writers) && Enabled(s, Write(id, op))
    requires inode in s.inodes && Private(s.lock, s.writers, inode)
    ensures var s' := Apply(s, Write(id, op));
      && inode in s'.inodes && s'.inodes[inode] == s.inodes[inode]
      && Private(s'.lock, s'.writers, inode)
  {
    if s.lock != Some(id) { OutsideLock(s, id, op); }
  }

  lemma ReadersStep(files: map<nat, seq<Byte>>, s: State, id: nat, op: WriterStep)
    requires LockInv(s.lock, s.writers) && Enabled(s, Write(id, op))
    requires ReadersInv(files, s.inodes, s.log, s.lock, s.writers, s.readers)
    ensures var s' := Apply(s, Write(id, op));
      ReadersInv(files, s'.inodes, s'.log, s'.lock, s'.writers, s'.readers)
  {
    var s' := Apply(s, Write(id, op));
    forall i | i in s'.readers
      ensures ReaderInv(files, s'.inodes, s'.log, s'.lock, s'.writers, s'.readers[i])
    {
      var r := s.readers[i];
      assert ReaderInv(files, s.inodes, s.log, s.lock, s.writers, r);
      if !r.ReadFailed? { assert s'.log[..r.at] == s.log[..r.at]; }
      if r.Reading? { InodeStep(s, id, op, r.inode); }
    }
  }

  // ----- the log -----

  lemma CountAppend(log: seq<Change>, c: Change, id: nat)
    ensures Count(log + [c], id) == Count(log, id) + if c.Published? && c.writer == id then 1 else 0
  {
    assert (log + [c])[..|log|] == log;
  }

  lemma LogKept(log: seq<Change>, writers: map<nat, Writer>, id: nat, wr': Writer)
    requires LogInv(log, writers) && id in writers
    requires wr'.path == writers[id].path && wr'.data == writers[id].data
    requires Renamed(wr'.pc) <==> Renamed(writers[id].pc)
    ensures LogInv(log, writers[id := wr'])
  {
  }

  lemma LogGrows(log: seq<Change>, writers: map<nat, Writer>, id: nat, wr': Writer)
    requires LogInv(log, writers) && id in writers
    requires wr'.path == writers[id].path && wr'.data == writers[id].data
    requires Renamed(wr'.pc) && !Renamed(writers[id].pc)
    ensures LogInv(log + [Published(id, wr'.path, wr'.data)], writers[id := wr'])
  {
    var c, writers' := Published(id, wr'.path, wr'.data), writers[id := wr'];
    forall i | i in writers' ensures Count(log + [c], i) == if Renamed(writers'[i].pc) then 1 else 0 {
      CountAppend(log, c, i);
    }
  }

  lemma LogStep(s: State, id: nat, op: WriterStep)
    requires Enabled(s, Write(id, op)) && LogInv(s.log, s.writers)
    ensures var s' := Apply(s, Write(id, op)); LogInv(s'.log, s'.writers)
  {
    var wr := s.writers[id];
    if op.Rename? {
      LogGrows(s.log, s.writers, id, NextWriter(wr, op));
    } else {
      LogKept(s.log, s.writers, id, NextWriter(wr, op));
    }
  }

  lemma WriterKeepsInv(files: map<nat, seq<Byte>>, s: State, id: nat, op: WriterStep)
    requires Inv(files, s) && Enabled(s, Write(id, op))
    ensures Inv(files, Apply(s, Write(id, op)))
  {
    LockStep(s, id, op);
    HolderStep(s, id, op);
    OrphansStep(s, id, op);
    ContentInvStep(files, s, id, op);
    ReadersStep(files, s, id, op);
    LogStep(s, id, op);
    if s.lock == Some(id) {
      DirStep(s.dir, s.inodes, s.writers[id], op);
    } else {
      OutsideLock(s, id, op);
    }
  }

  // ----- the other steps -----

  lemma SpawnKeepsInv(files: map<nat, seq<Byte>>, s: State, id: nat, path: nat, data: seq<Byte>)
    requires Inv(files, s) && id !in s.writers
    ensures Inv(files, Apply(s, Spawn(id, path, data)))
  {
    var s' := Apply(s, Spawn(id, path, data));
    UnknownUncounted(s.log, s.writers, id);
    assert OrphansInv(s'.dir, s'.lock, s'.writers, s'.orphans) by {
      forall k | Temp(k) in s.dir && k !in s.orphans
        ensures exists i <- s'.writers :: s'.lock == Some(i) && HasTemp(s'.writers[i].pc) && s'.writers[i].name == k
      {
        var i :| i in s.writers && s.lock == Some(i) && HasTemp(s.writers[i].pc) && s.writers[i].name == k;
        assert s'.writers[i] == s.writers[i];
      }
    }
    assert ReadersInv(files, s'.inodes, s'.log, s'.lock, s'.writers, s'.readers) by {
      forall i | i in s'.readers ensures ReaderInv(files, s'.inodes, s'.log, s'.lock, s'.writers, s'.readers[i]) {
        assert ReaderInv(files, s.inodes, s.log, s.lock, s.writers, s.readers[i]);
      }
    }
  }

  lemma {:induction false} UnknownUncounted(log: seq<Change>, writers: map<nat, Writer>, id: nat)
    requires id !in writers
    requires forall i :: 0 <= i < |log| && log[i].Published? ==> log[i].writer in writers
    ensures Count(log, id) == 0
  {
    if log != [] { UnknownUncounted(log[..|log| - 1], writers, id); }
  }

  lemma DeleteKeepsInv(files: map<nat, seq<Byte>>, s: State, path: nat)
    requires Inv(files, s)
    ensures Inv(files, Apply(s, Delete(path)))
  {
    var s' := Apply(s, Delete(path));
    if Target(path) in s.dir {
      forall p ensures Content(s'.dir, s'.inodes, p) == Latest(files, s'.log, p) {
        LatestAppend(files, s.log, Deleted(path), p);
      }
      forall i | i in s.writers ensures Count(s'.log, i) == Count(s.log, i) {
        CountAppend(s.log, Deleted(path), i);
      }
      forall i | i in s'.readers ensures ReaderInv(files, s'.inodes, s'.log, s'.lock, s'.writers, s'.readers[i]) {
        var r := s.readers[i];
        assert ReaderInv(files, s.inodes, s.log, s.lock, s.writers, r);
        if !r.ReadFailed? { assert s'.log[..r.at] == s.log[..r.at]; }
      }
    }
  }

  lemma ReaderKeepsInv(files: map<nat, seq<Byte>>, s: State, id: nat, r': Reader)
    requires Inv(files, s) && ReaderInv(files, s.inodes, s.log, s.lock, s.writers, r')
    ensures Inv(files, s.(readers := s.readers[id := r']))
  {
  }

  /** Opening finds the target's latest content. */
  lemma OpenKeepsInv(files: map<nat, seq<Byte>>, s: State, id: nat, path: nat)
    requires Inv(files, s) && id !in s.readers
    ensures Inv(files, Apply(s, Open(id, path)))
  {
    assert s.log[..|s.log|] == s.log;
    assert Content(s.dir, s.inodes, path) == Latest(files, s.log, path);
    var r := if Target(path) in s.dir then Reading(path, |s.log|, s.dir[Target(path)], [])
             else ReadDone(path, |s.log|, None);
    ReaderKeepsInv(files, s, id, r);
  }

  lemma StepKeepsInv(files: map<nat, seq<Byte>>, s: State, st: Step)
    requires Inv(files, s) && Enabled(s, st)
    ensures Inv(files, Apply(s, st))
  {
    match st
    case Spawn(id, path, data) => SpawnKeepsInv(files, s, id, path, data);
    case Write(id, op) => WriterKeepsInv(files, s, id, op);
    case Delete(path) => DeleteKeepsInv(files, s, path);
    case Open(id, path) => OpenKeepsInv(files, s, id, path);
    case ReadSome(id, n) =>
      assert ReaderInv(files, s.inodes, s.log, s.lock, s.writers, s.readers[id]);
      var r, content := s.readers[id], s.inodes[s.readers[id].inode];
      assert r.got + content[|r.got|..n] == content[..n];
      ReaderKeepsInv(files, s, id, r.(got := r.got + content[|r.got|..n]));
    case ReadEnd(id) =>
      assert ReaderInv(files, s.inodes, s.log, s.lock, s.writers, s.readers[id]);
      var r, content := s.readers[id], s.inodes[s.readers[id].inode];
      assert r.got == content[..|content|] == content;
      ReaderKeepsInv(files, s, id, ReadDone(r.path, r.at, Some(r.got)));
    case ReadFails(id) => ReaderKeepsInv(files, s, id, ReadFailed);
  }

  lemma InitInv(files: map<nat, seq<Byte>>)
    ensures Inv(files, Init(files))
  {
  }
}
