/**
  Durable files of one account directory: any number of writers, each a lock, temp file and rename, any number
  of readers without a lock, deletions without a lock, and a crash of any process between any two steps.
*/
module AtomicWrite {
  import opened Bytes
  import opened Wrappers

  /** Targets (account.json, session.bin, ...) and temp names share one directory. */
  datatype Name = Target(path: nat) | Temp(k: nat)

  datatype Outcome = Success | Failed | Busy

  /** Where a call of the writing function is; from `Writing` on its deferred removal is registered. */
  datatype Pc =
    | Begin
    | Waiting
    | Locked
    | Writing(n: nat)
    | Chmodding
    | Closing
    | Renaming
    | Removing(outcome: Outcome)
    | Unlocking(outcome: Outcome)
    | Done(outcome: Outcome)
    | Crashed(locked: bool, published: bool)

  datatype Writer = Writer(pc: Pc, path: nat, data: seq<Byte>, name: nat, inode: nat)

  /** `at` is the number of changes made to the directory's targets when the file was opened. */
  datatype Reader =
    | Reading(path: nat, at: nat, inode: nat, got: seq<Byte>)
    | ReadDone(path: nat, at: nat, content: Option<seq<Byte>>)
    | ReadFailed

  /** A change of what a target holds. */
  datatype Change = Published(writer: nat, path: nat, data: seq<Byte>) | Deleted(path: nat)

  /** `log` and `orphans` are records; no step reads them. */
  datatype State = State(
    dir: map<Name, nat>,
    inodes: map<nat, seq<Byte>>,
    lock: Option<nat>,
    writers: map<nat, Writer>,
    readers: map<nat, Reader>,
    orphans: set<nat>,
    log: seq<Change>)

  datatype WriterStep =
    | Touch
    | TryLock
    | Timeout
    | CreateTemp(k: nat, inode: nat)
    | WriteSome(n: nat)
    | WriteEnd
    | Chmod
    | CloseFile
    | Rename
    | Remove
    | RemoveFails
    | Unlock
    | Fail
    | Crash
    | Reap

  datatype Step =
    | Spawn(id: nat, path: nat, data: seq<Byte>)
    | Write(id: nat, op: WriterStep)
    | Delete(path: nat)
    | Open(id: nat, path: nat)
    | ReadSome(id: nat, n: nat)
    | ReadEnd(id: nat)
    | ReadFails(id: nat)

  /** What a reader of the name would find. */
  function Content(dir: map<Name, nat>, inodes: map<nat, seq<Byte>>, path: nat): Option<seq<Byte>> {
    if Target(path) in dir && dir[Target(path)] in inodes then Some(inodes[dir[Target(path)]]) else None
  }

  /** The files a directory starts with; every one of them is a target. */
  function Init(files: map<nat, seq<Byte>>): State {
    State(map n: Name | n in (set p <- files :: Target(p)) :: n.path, files, None, map[], map[], {}, [])
  }

  predicate Holds(pc: Pc) {
    match pc
    case Begin | Waiting | Done(_) => false
    case Crashed(locked, _) => locked
    case _ => true
  }

  /** The temp file exists under its own name and nobody else's. */
  predicate HasTemp(pc: Pc) {
    || pc.Writing? || pc.Chmodding? || pc.Closing? || pc.Renaming?
    || (pc.Removing? && pc.outcome != Success)
  }

  /** The rename has happened. */
  predicate Renamed(pc: Pc) {
    match pc
    case Removing(outcome) => outcome == Success
    case Unlocking(outcome) => outcome == Success
    case Done(outcome) => outcome == Success
    case Crashed(_, published) => published
    case _ => false
  }

  predicate WriterEnabled(s: State, wr: Writer, op: WriterStep) {
    match op
    case Touch => wr.pc == Begin
    case TryLock => wr.pc == Waiting && s.lock == None
    case Timeout => wr.pc == Waiting && s.lock.Some?
    case CreateTemp(k, inode) => wr.pc == Locked && Temp(k) !in s.dir && inode !in s.inodes
    case WriteSome(n) => wr.pc.Writing? && wr.pc.n <= n <= |wr.data|
    case WriteEnd => wr.pc == Writing(|wr.data|)
    case Chmod => wr.pc == Chmodding
    case CloseFile => wr.pc == Closing
    case Rename => wr.pc == Renaming
    case Remove => wr.pc.Removing?
    case RemoveFails => wr.pc.Removing?
    case Unlock => wr.pc.Unlocking?
    case Fail => wr.pc in {Begin, Waiting, Locked, Chmodding, Closing, Renaming} || wr.pc.Writing?
    case Crash => !wr.pc.Done? && !wr.pc.Crashed?
    case Reap => wr.pc.Crashed? && wr.pc.locked
  }

  /** Where a step leaves its writer. The deferred removal runs before the deferred unlock. */
  function NextPc(wr: Writer, op: WriterStep): Pc {
    match op
    case Touch => Waiting
    case TryLock => Locked
    case Timeout => Done(Busy)
    case CreateTemp(_, _) => Writing(0)
    case WriteSome(n) => Writing(n)
    case WriteEnd => Chmodding
    case Chmod => Closing
    case CloseFile => Renaming
    case Rename => Removing(Success)
    case Remove => if wr.pc.Removing? then Unlocking(wr.pc.outcome) else wr.pc
    case RemoveFails => if wr.pc.Removing? then Unlocking(wr.pc.outcome) else wr.pc
    case Unlock => if wr.pc.Unlocking? then Done(wr.pc.outcome) else wr.pc
    case Fail =>
      if wr.pc in {Begin, Waiting} then Done(Failed)
      else if wr.pc == Locked then Unlocking(Failed)
      else Removing(Failed)
    case Crash => Crashed(Holds(wr.pc), Renamed(wr.pc))
    case Reap => if wr.pc.Crashed? then Crashed(false, wr.pc.published) else wr.pc
  }

  function NextWriter(wr: Writer, op: WriterStep): Writer {
    var wr' := wr.(pc := NextPc(wr, op));
    if op.CreateTemp? then wr'.(name := op.k, inode := op.inode) else wr'
  }

  function NextDir(dir: map<Name, nat>, wr: Writer, op: WriterStep): map<Name, nat> {
    match op
    case CreateTemp(k, inode) => dir[Temp(k) := inode]
    case Rename => (dir - {Temp(wr.name)})[Target(wr.path) := wr.inode]
    case Remove => dir - {Temp(wr.name)}
    case _ => dir
  }

  function NextInodes(inodes: map<nat, seq<Byte>>, wr: Writer, op: WriterStep): map<nat, seq<Byte>> {
    match op
    case CreateTemp(_, inode) => inodes[inode := []]
    case WriteSome(n) => if n <= |wr.data| then inodes[wr.inode := wr.data[..n]] else inodes
    case _ => inodes
  }

  function NextLock(lock: Option<nat>, id: nat, op: WriterStep): Option<nat> {
    match op
    case TryLock => Some(id)
    case Unlock => None
    case Reap => None
    case _ => lock
  }

  /** A crash leaves the temp file behind, and so does a removal that fails. */
  function NextOrphans(orphans: set<nat>, wr: Writer, op: WriterStep): set<nat> {
    if (op.Crash? || op.RemoveFails?) && HasTemp(wr.pc) then orphans + {wr.name} else orphans
  }

  function NextLog(log: seq<Change>, id: nat, wr: Writer, op: WriterStep): seq<Change> {
    if op.Rename? then log + [Published(id, wr.path, wr.data)] else log
  }

  predicate Enabled(s: State, st: Step) {
    match st
    case Spawn(id, _, _) => id !in s.writers
    case Write(id, op) => id in s.writers && WriterEnabled(s, s.writers[id], op)
    case Delete(_) => true
    case Open(id, _) => id !in s.readers
    case ReadSome(id, n) =>
      && id in s.readers && s.readers[id].Reading? && s.readers[id].inode in s.inodes
      && |s.readers[id].got| <= n <= |s.inodes[s.readers[id].inode]|
    case ReadEnd(id) =>
      && id in s.readers && s.readers[id].Reading? && s.readers[id].inode in s.inodes
      && |s.readers[id].got| == |s.inodes[s.readers[id].inode]|
    case ReadFails(id) => id in s.readers && s.readers[id].Reading?
  }

  function Apply(s: State, st: Step): State
    requires Enabled(s, st)
  {
    match st
    case Spawn(id, path, data) => s.(writers := s.writers[id := Writer(Begin, path, data, 0, 0)])
    case Write(id, op) =>
      var wr := s.writers[id];
      State(NextDir(s.dir, wr, op), NextInodes(s.inodes, wr, op), NextLock(s.lock, id, op),
        s.writers[id := NextWriter(wr, op)], s.readers, NextOrphans(s.orphans, wr, op), NextLog(s.log, id, wr, op))
    case Delete(path) =>
      if Target(path) in s.dir then s.(dir := s.dir - {Target(path)}, log := s.log + [Deleted(path)]) else s
    case Open(id, path) =>
      s.(readers := s.readers[id :=
        if Target(path) in s.dir then Reading(path, |s.log|, s.dir[Target(path)], [])
        else ReadDone(path, |s.log|, None)])
    case ReadSome(id, n) =>
      var r := s.readers[id];
      s.(readers := s.readers[id := r.(got := r.got + s.inodes[r.inode][|r.got|..n])])
    case ReadEnd(id) =>
      var r := s.readers[id];
      s.(readers := s.readers[id := ReadDone(r.path, r.at, Some(r.got))])
    case ReadFails(id) => s.(readers := s.readers[id := ReadFailed])
  }

  ghost predicate IsRun(files: map<nat, seq<Byte>>, states: seq<State>, steps: seq<Step>) {
    && |states| == |steps| + 1
    && states[0] == Init(files)
    && (forall i :: 0 <= i < |steps| ==> Enabled(states[i], steps[i]) && states[i + 1] == Apply(states[i], steps[i]))
  }

  // ----- the invariant -----

  /** What the changes so far make of a target. */
  function Latest(files: map<nat, seq<Byte>>, log: seq<Change>, path: nat): Option<seq<Byte>> {
    if log == [] then if path in files then Some(files[path]) else None
    else
      match log[|log| - 1]
      case Published(_, p, data) => if p == path then Some(data) else Latest(files, log[..|log| - 1], path)
      case Deleted(p) => if p == path then None else Latest(files, log[..|log| - 1], path)
  }

  function Count(log: seq<Change>, id: nat): nat {
    if log == [] then 0
    else
      var c := log[|log| - 1];
      Count(log[..|log| - 1], id) + if c.Published? && c.writer == id then 1 else 0
  }

  ghost predicate LockInv(lock: Option<nat>, writers: map<nat, Writer>) {
    && (lock.Some? ==> lock.value in writers)
    && (forall id <- writers :: Holds(writers[id].pc) <==> lock == Some(id))
  }

  ghost predicate DirInv(dir: map<Name, nat>, inodes: map<nat, seq<Byte>>) { forall n <- dir :: dir[n] in inodes }

  /** What the temp file holds at each point. */
  predicate TempContent(wr: Writer, content: seq<Byte>) {
    match wr.pc
    case Writing(n) => n <= |wr.data| && content == wr.data[..n]
    case Chmodding => content == wr.data
    case Closing => content == wr.data
    case Renaming => content == wr.data
    case _ => true
  }

  /** The lock holder's temp file is reachable by its temp name only. */
  ghost predicate TempInv(dir: map<Name, nat>, inodes: map<nat, seq<Byte>>, wr: Writer) {
    && (HasTemp(wr.pc) ==>
          && Temp(wr.name) in dir && dir[Temp(wr.name)] == wr.inode
          && (forall n <- dir :: dir[n] == wr.inode ==> n == Temp(wr.name))
          && wr.inode in inodes && TempContent(wr, inodes[wr.inode]))
    && (wr.pc == Removing(Success) ==> Temp(wr.name) !in dir)
  }

  ghost predicate HolderInv(
    dir: map<Name, nat>, inodes: map<nat, seq<Byte>>, lock: Option<nat>, writers: map<nat, Writer>)
  {
    lock.Some? && lock.value in writers ==> TempInv(dir, inodes, writers[lock.value])
  }

  ghost predicate OrphansInv(dir: map<Name, nat>, lock: Option<nat>, writers: map<nat, Writer>, orphans: set<nat>) {
    forall k :: Temp(k) in dir ==>
      k in orphans || exists id <- writers :: lock == Some(id) && HasTemp(writers[id].pc) && writers[id].name == k
  }

  ghost predicate ContentInv(
    files: map<nat, seq<Byte>>, dir: map<Name, nat>, inodes: map<nat, seq<Byte>>, log: seq<Change>)
  {
    forall path :: Content(dir, inodes, path) == Latest(files, log, path)
  }

  /** Nobody can open the temp file's inode before the rename. */
  predicate Private(lock: Option<nat>, writers: map<nat, Writer>, inode: nat) {
    lock.Some? && lock.value in writers && HasTemp(writers[lock.value].pc) ==> writers[lock.value].inode != inode
  }

  ghost predicate ReaderInv(
    files: map<nat, seq<Byte>>, inodes: map<nat, seq<Byte>>, log: seq<Change>, lock: Option<nat>,
    writers: map<nat, Writer>, r: Reader)
  {
    match r
    case Reading(path, at, inode, got) =>
      && at <= |log| && inode in inodes && Latest(files, log[..at], path) == Some(inodes[inode])
      && got <= inodes[inode] && Private(lock, writers, inode)
    case ReadDone(path, at, content) => at <= |log| && Latest(files, log[..at], path) == content
    case ReadFailed => true
  }

  ghost predicate ReadersInv(
    files: map<nat, seq<Byte>>, inodes: map<nat, seq<Byte>>, log: seq<Change>, lock: Option<nat>,
    writers: map<nat, Writer>, readers: map<nat, Reader>)
  {
    forall id <- readers :: ReaderInv(files, inodes, log, lock, writers, readers[id])
  }

  ghost predicate LogInv(log: seq<Change>, writers: map<nat, Writer>) {
    && (forall id <- writers :: Count(log, id) == if Renamed(writers[id].pc) then 1 else 0)
    && (forall i :: 0 <= i < |log| && log[i].Published? ==>
          && log[i].writer in writers
          && log[i].path == writers[log[i].writer].path && log[i].data == writers[log[i].writer].data)
  }

  ghost predicate Inv(files: map<nat, seq<Byte>>, s: State) {
    && LockInv(s.lock, s.writers)
    && DirInv(s.dir, s.inodes)
    && HolderInv(s.dir, s.inodes, s.lock, s.writers)
    && OrphansInv(s.dir, s.lock, s.writers, s.orphans)
    && ContentInv(files, s.dir, s.inodes, s.log)
    && ReadersInv(files, s.inodes, s.log, s.lock, s.writers, s.readers)
    && LogInv(s.log, s.writers)
  }
}
