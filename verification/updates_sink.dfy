/** The append-only updates file with size-driven rotation, and the pump that feeds it. */
module UpdatesSinks {
  import opened Bytes
  import opened Sequences
  import opened Wrappers

  /** How the file system answers one write; the later answers matter only when the write leads to a rotation. */
  datatype IO = IO(failsAfter: Option<nat>, closeOk: bool, removeOk: bool, renameOk: bool, reopenOk: bool)

  datatype Outcome = Written | WriteFailed | RotateFailed

  /** The two files and the writer's fields; `open` is false once the handle is closed or gone. */
  datatype Sink = Sink(
    maxSize: int, current: Option<seq<Byte>>, backup: Option<seq<Byte>>, open: bool, written: int)

  function Content(file: Option<seq<Byte>>): seq<Byte> { if file.Some? then file.value else [] }

  predicate Valid(s: Sink) { s.open ==> s.current.Some? }

  // ----- the specification -----

  function Opened(maxSize: int, current: Option<seq<Byte>>, backup: Option<seq<Byte>>, statOk: bool): (s: Sink)
    ensures Valid(s)
  {
    Sink(maxSize, Some(Content(current)), backup, true, if statOk then |Content(current)| else 0)
  }

  /** The old backup goes before the rename is tried. */
  function Rotated(s: Sink, io: IO): (r: (Sink, Outcome))
    requires s.current.Some?
    ensures Valid(r.0)
  {
    var closed := s.(open := false);
    if !io.closeOk then (closed, RotateFailed)
    else
      var removed := closed.(backup := if io.removeOk then None else s.backup);
      if !io.renameOk then (removed.(open := io.reopenOk), RotateFailed)
      else
        var renamed := removed.(backup := s.current, current := None);
        if !io.reopenOk then (renamed, RotateFailed)
        else (renamed.(current := Some([]), open := true, written := 0), Written)
  }

  /** The new state, how many bytes were accepted, and the error. */
  function AfterWrite(s: Sink, p: seq<Byte>, io: IO): (r: (Sink, nat, Outcome))
    requires Valid(s)
    ensures Valid(r.0) && r.1 <= |p|
  {
    if !s.open then (s, 0, WriteFailed)
    else if io.failsAfter.Some? && io.failsAfter.value < |p| then
      (s.(current := Some(s.current.value + p[..io.failsAfter.value])), io.failsAfter.value, WriteFailed)
    else
      var grown := s.(current := Some(s.current.value + p), written := s.written + |p|);
      if s.maxSize > 0 && grown.written >= s.maxSize then
        var (rotated, outcome) := Rotated(grown, io);
        (rotated, |p|, outcome)
      else (grown, |p|, Written)
  }

  class UpdatesSink {
    const maxSize: int
    var current: Option<seq<Byte>>
    var backup: Option<seq<Byte>>
    var open: bool
    var written: int

    function State(): Sink
      reads this
    {
      Sink(maxSize, current, backup, open, written)
    }

    /** Opens the file for appending and picks up its size; an unknown size counts as zero. */
    constructor (maxSize: int, current: Option<seq<Byte>>, backup: Option<seq<Byte>>, statOk: bool)
      ensures State() == Opened(maxSize, current, backup, statOk)
    {
      this.maxSize := maxSize;
      this.backup := backup;
      this.current := Some(Content(current));
      open := true;
      written := if statOk then |Content(current)| else 0;
    }

    method RotateLocked(io: IO) returns (outcome: Outcome)
      requires current.Some?
      modifies this
      ensures (State(), outcome) == Rotated(old(State()), io)
    {
      open := false;
      if !io.closeOk {
        return RotateFailed;
      }
      if io.removeOk {
        backup := None;
      }
      if !io.renameOk {
        open := io.reopenOk;
        return RotateFailed;
      }
      backup, current := current, None;
      if !io.reopenOk {
        return RotateFailed;
      }
      current, open, written := Some([]), true, 0;
      outcome := Written;
    }

    method Write(p: seq<Byte>, io: IO) returns (n: nat, outcome: Outcome)
      requires Valid(State())
      modifies this
      ensures (State(), n, outcome) == AfterWrite(old(State()), p, io)
    {
      if !open {
        return 0, WriteFailed;
      }
      if io.failsAfter.Some? && io.failsAfter.value < |p| {
        current := Some(current.value + p[..io.failsAfter.value]);
        return io.failsAfter.value, WriteFailed;
      }
      current := Some(current.value + p);
      written := written + |p|;
      outcome := Written;
      if maxSize > 0 && written >= maxSize {
        outcome := RotateLocked(io);
      }
      n := |p|;
    }
  }

  // ----- one write -----

  /** A write without error put the whole record on disk, and the current file is below the limit again. */
  lemma CleanWrite(s: Sink, p: seq<Byte>, io: IO)
    requires Valid(s) && AfterWrite(s, p, io).2 == Written
    ensures var s' := AfterWrite(s, p, io).0;
      && AfterWrite(s, p, io).1 == |p| && s'.open
      && (s.maxSize > 0 ==> s'.written < s.maxSize)
      && ((s'.current == Some(Content(s.current) + p) && s'.backup == s.backup)
          || (s'.backup == Some(Content(s.current) + p) && s'.current == Some([]) && s'.written == 0))
  {
  }

  /** A rotation that fails at the rename keeps every byte of the current file, the new record included. */
  lemma FailedRenameKeepsCurrent(s: Sink, p: seq<Byte>, io: IO)
    requires Valid(s) && AfterWrite(s, p, io).2 == RotateFailed && !io.renameOk
    ensures AfterWrite(s, p, io).0.current == Some(Content(s.current) + p)
    ensures AfterWrite(s, p, io).0.backup == if io.closeOk && io.removeOk then None else s.backup
  {
  }

  // ----- any number of writes -----

  function Concat(chunks: seq<seq<Byte>>): seq<Byte> {
    if chunks == [] then [] else Concat(chunks[..|chunks| - 1]) + chunks[|chunks| - 1]
  }

  lemma {:induction false} ConcatSplit(a: seq<seq<Byte>>, b: seq<seq<Byte>>)
    ensures Concat(a + b) == Concat(a) + Concat(b)
    decreases |b|
  {
    if b == [] {
      assert a + b == a;
    } else {
      var front, c := b[..|b| - 1], b[|b| - 1];
      assert (a + b)[..|a + b| - 1] == a + front;
      ConcatSplit(a, front);
      Regroup(Concat(a), Concat(front), c);
    }
  }

  /**
    The history of a sink. `chunks` is what the writes put on disk, one chunk for each, after the contents the
    two files had at the start; the first `cut` of them are discarded, those up to `mark` are in the backup.
  */
  datatype History = History(sink: Sink, chunks: seq<seq<Byte>>, cut: nat, mark: nat)

  function Start(maxSize: int, current: Option<seq<Byte>>, backup: Option<seq<Byte>>, statOk: bool): History {
    History(Opened(maxSize, current, backup, statOk), [Content(backup), Content(current)], 0, 1)
  }

  /** The write itself stops short, leaving its first bytes in the file. */
  predicate StopsShort(p: seq<Byte>, io: IO) { io.failsAfter.Some? && io.failsAfter.value < |p| }

  predicate RotationOk(io: IO) { io.closeOk && io.renameOk && io.reopenOk }

  predicate Rotates(s: Sink, p: seq<Byte>, io: IO) {
    s.open && !StopsShort(p, io) && s.maxSize > 0 && s.written + |p| >= s.maxSize
  }

  function Record(h: History, p: seq<Byte>, io: IO): History
    requires Valid(h.sink)
  {
    var (sink', n, _) := AfterWrite(h.sink, p, io);
    var chunks' := h.chunks + [p[..n]];
    if Rotates(h.sink, p, io) && io.closeOk then
      if io.renameOk then History(sink', chunks', h.mark, |chunks'|)
      else History(sink', chunks', if io.removeOk then h.mark else h.cut, h.mark)
    else History(sink', chunks', h.cut, h.mark)
  }

  /** The two files hold whole chunks, one after the other. */
  predicate HoldsChunks(backup: seq<Byte>, current: seq<Byte>, chunks: seq<seq<Byte>>, cut: nat, mark: nat) {
    cut <= mark <= |chunks| && backup == Concat(chunks[cut..mark]) && current == Concat(chunks[mark..])
  }

  ghost predicate HistoryInv(h: History) {
    && Valid(h.sink)
    && HoldsChunks(Content(h.sink.backup), Content(h.sink.current), h.chunks, h.cut, h.mark)
  }

  lemma StartInv(maxSize: int, current: Option<seq<Byte>>, backup: Option<seq<Byte>>, statOk: bool)
    ensures HistoryInv(Start(maxSize, current, backup, statOk))
  {
    var h := Start(maxSize, current, backup, statOk);
    assert h.chunks[0..1] == [Content(backup)] && h.chunks[1..] == [Content(current)];
    ConcatOne(Content(backup));
    ConcatOne(Content(current));
  }

  lemma ConcatOne(c: seq<Byte>)
    ensures Concat([c]) == c
  {
    assert Concat([]) + c == c;
  }

  /** One more chunk belongs to the current file. */
  lemma ChunkAdded(backup: seq<Byte>, current: seq<Byte>, chunks: seq<seq<Byte>>, cut: nat, mark: nat, c: seq<Byte>)
    requires HoldsChunks(backup, current, chunks, cut, mark)
    ensures HoldsChunks(backup, current + c, chunks + [c], cut, mark)
  {
    assert (chunks + [c])[mark..] == chunks[mark..] + [c];
    assert (chunks + [c])[cut..mark] == chunks[cut..mark];
    ConcatSplit(chunks[mark..], [c]);
    ConcatOne(c);
  }

  /** The backup is removed. */
  lemma BackupGone(backup: seq<Byte>, current: seq<Byte>, chunks: seq<seq<Byte>>, cut: nat, mark: nat)
    requires HoldsChunks(backup, current, chunks, cut, mark)
    ensures HoldsChunks([], current, chunks, mark, mark)
  {
    assert chunks[mark..mark] == [];
  }

  /** The current file becomes the backup. */
  lemma Renamed(backup: seq<Byte>, current: seq<Byte>, chunks: seq<seq<Byte>>, cut: nat, mark: nat)
    requires HoldsChunks(backup, current, chunks, cut, mark)
    ensures HoldsChunks(current, [], chunks, mark, |chunks|)
  {
    assert chunks[|chunks|..] == [] && chunks[mark..|chunks|] == chunks[mark..];
  }

  lemma RecordInv(h: History, p: seq<Byte>, io: IO)
    requires HistoryInv(h)
    ensures HistoryInv(Record(h, p, io))
  {
    var c := p[..AfterWrite(h.sink, p, io).1];
    assert p[..|p|] == p;
    var backup, current, chunks' := Content(h.sink.backup), Content(h.sink.current) + c, h.chunks + [c];
    ChunkAdded(backup, Content(h.sink.current), h.chunks, h.cut, h.mark, c);
    if !h.sink.open { assert current == Content(h.sink.current); }
    if Rotates(h.sink, p, io) && io.closeOk {
      BackupGone(backup, current, chunks', h.cut, h.mark);
      Renamed(backup, current, chunks', h.cut, h.mark);
    }
  }

  datatype Call = Call(p: seq<Byte>, io: IO)

  function Run(h: History, calls: seq<Call>): (h': History)
    requires HistoryInv(h)
    ensures HistoryInv(h')
    decreases |calls|
  {
    if calls == [] then h
    else
      RecordInv(h, calls[0].p, calls[0].io);
      Run(Record(h, calls[0].p, calls[0].io), calls[1..])
  }

  /** The sink after the calls. */
  function SinkAfter(s: Sink, calls: seq<Call>): (s': Sink)
    requires Valid(s)
    ensures Valid(s')
    decreases |calls|
  {
    if calls == [] then s else SinkAfter(AfterWrite(s, calls[0].p, calls[0].io).0, calls[1..])
  }

  /** What the calls report as written: of each line its first `n` bytes. */
  function Accepted(s: Sink, calls: seq<Call>): (chunks: seq<seq<Byte>>)
    requires Valid(s)
    ensures |chunks| == |calls|
    decreases |calls|
  {
    if calls == [] then []
    else
      var (s', n, _) := AfterWrite(s, calls[0].p, calls[0].io);
      [calls[0].p[..n]] + Accepted(s', calls[1..])
  }

  lemma OneRecord(h: History, p: seq<Byte>, io: IO)
    requires Valid(h.sink)
    ensures Record(h, p, io).sink == AfterWrite(h.sink, p, io).0
    ensures Record(h, p, io).chunks == h.chunks + [p[..AfterWrite(h.sink, p, io).1]]
  {
  }

  lemma {:induction false} ChunksOfRun(h: History, calls: seq<Call>)
    requires HistoryInv(h)
    ensures Run(h, calls).chunks == h.chunks + Accepted(h.sink, calls)
    ensures Run(h, calls).sink == SinkAfter(h.sink, calls)
    decreases |calls|
  {
    if calls == [] {
      assert h.chunks + [] == h.chunks;
    } else {
      var c := calls[0];
      RecordInv(h, c.p, c.io);
      OneRecord(h, c.p, c.io);
      ChunksOfRun(Record(h, c.p, c.io), calls[1..]);
      var chunk := c.p[..AfterWrite(h.sink, c.p, c.io).1];
      Regroup(h.chunks, [chunk], Accepted(AfterWrite(h.sink, c.p, c.io).0, calls[1..]));
    }
  }

  /**
    From opening, after any writes, under any failures: what was discarded, then the backup, then the current
    file are what the two files had and everything that reached the disk since, in order; each file is made of
    whole chunks.
  */
  lemma NothingLostInBetween(
    maxSize: int, current: Option<seq<Byte>>, backup: Option<seq<Byte>>, statOk: bool, calls: seq<Call>)
    returns (cut: nat, mark: nat)
    ensures var s := Opened(maxSize, current, backup, statOk);
      var s' := SinkAfter(s, calls);
      var all := [Content(backup), Content(current)] + Accepted(s, calls);
      && cut <= mark <= |all|
      && Content(s'.backup) == Concat(all[cut..mark])
      && Content(s'.current) == Concat(all[mark..])
      && Concat(all[..cut]) + Content(s'.backup) + Content(s'.current) == Concat(all)
  {
    StartInv(maxSize, current, backup, statOk);
    var h := Start(maxSize, current, backup, statOk);
    var all := h.chunks + Accepted(h.sink, calls);
    ChunksOfRun(h, calls);
    cut, mark := Run(h, calls).cut, Run(h, calls).mark;
    ThreeParts(all, cut, mark);
  }

  lemma ThreeParts(all: seq<seq<Byte>>, i: nat, j: nat)
    requires i <= j <= |all|
    ensures Concat(all[..i]) + Concat(all[i..j]) + Concat(all[j..]) == Concat(all)
  {
    assert all == all[..j] + all[j..];
    assert all[..j] == all[..i] + all[i..j];
    ConcatSplit(all[..j], all[j..]);
    ConcatSplit(all[..i], all[i..j]);
  }

  // ----- the counter and the size -----

  /** The counter is the size of the current file. */
  predicate Counted(s: Sink) { s.written == |Content(s.current)| }

  /** The writes after which the counter misses bytes: they fail after their first byte. */
  predicate LeavesBytes(c: Call) { StopsShort(c.p, c.io) && c.io.failsAfter.value > 0 }

  /** No such write since the last rotation that went through, or since an opening that learned the size. */
  predicate NoneMissed(s: Sink, known: bool, calls: seq<Call>)
    requires Valid(s)
    decreases |calls|
  {
    if calls == [] then known
    else
      var c := calls[0];
      NoneMissed(AfterWrite(s, c.p, c.io).0,
        if Rotates(s, c.p, c.io) && RotationOk(c.io) then true else known && !LeavesBytes(c), calls[1..])
  }

  lemma OneWriteCounts(s: Sink, c: Call)
    requires Valid(s) && s.open && s.written <= |Content(s.current)|
    ensures var s' := AfterWrite(s, c.p, c.io).0;
      s'.open ==>
        && s'.written <= |Content(s'.current)|
        && (Counted(s') <==>
              if Rotates(s, c.p, c.io) && RotationOk(c.io) then true else Counted(s) && !LeavesBytes(c))
  {
  }

  lemma {:induction false} ClosedStaysClosed(s: Sink, calls: seq<Call>)
    requires Valid(s) && !s.open
    ensures SinkAfter(s, calls) == s
    decreases |calls|
  {
    if calls != [] { ClosedStaysClosed(s, calls[1..]); }
  }

  lemma {:induction false} CallsCount(s: Sink, calls: seq<Call>)
    requires Valid(s) && s.open && s.written <= |Content(s.current)|
    requires SinkAfter(s, calls).open
    ensures Counted(SinkAfter(s, calls)) <==> NoneMissed(s, Counted(s), calls)
    decreases |calls|
  {
    if calls != [] {
      var s' := AfterWrite(s, calls[0].p, calls[0].io).0;
      if s'.open {
        OneWriteCounts(s, calls[0]);
        CallsCount(s', calls[1..]);
      } else {
        ClosedStaysClosed(s', calls[1..]);
      }
    }
  }

  /**
    Any calls after opening, failed ones included: while the handle is open, the counter is the file's size
    exactly when the size was known or the file empty at the start, and no write has failed half-way since, or
    a rotation has gone through after all that.
  */
  lemma CounterIsSize(
    maxSize: int, current: Option<seq<Byte>>, backup: Option<seq<Byte>>, statOk: bool, calls: seq<Call>)
    requires SinkAfter(Opened(maxSize, current, backup, statOk), calls).open
    ensures var s := Opened(maxSize, current, backup, statOk);
      Counted(SinkAfter(s, calls)) <==> NoneMissed(s, statOk || Content(current) == [], calls)
  {
    CallsCount(Opened(maxSize, current, backup, statOk), calls);
  }

  /** A write of two bytes that fails after the first one: the file has one byte, the counter none. */
  lemma HalfWriteIsNotCounted()
    ensures var s := SinkAfter(Opened(10, None, None, true), [Call([1, 2], IO(Some(1), true, true, true, true))]);
      s.open && s.current == Some([1]) && s.written == 0
  {
    var c := Call([1, 2], IO(Some(1), true, true, true, true));
    var s := AfterWrite(Opened(10, None, None, true), c.p, c.io).0;
    var half: seq<Byte> := [1, 2][..1];
    assert half == [1] && [] + half == [1];
    assert [c][1..] == [] && SinkAfter(s, []) == s;
  }

  // ----- the pump -----

  /** One event off the dispatcher's channel: its encoded line and how the file system answers. */
  datatype Pumped = Pumped(event: nat, line: seq<Byte>, io: IO)

  /** The sink afterwards, how many events were published, and whether the pump ended with an error. */
  function Pump(s: Sink, events: seq<Pumped>): (r: (Sink, nat, bool))
    requires Valid(s)
    ensures Valid(r.0) && r.1 <= |events| && (r.2 <==> r.1 < |events|)
    decreases |events|
  {
    if events == [] then (s, 0, false)
    else
      var (s', _, outcome) := AfterWrite(s, events[0].line, events[0].io);
      if outcome != Written then (s', 0, true)
      else
        var (s2, k, failed) := Pump(s', events[1..]);
        (s2, k + 1, failed)
  }

  /** Writes each event, then publishes and counts it; the first write error ends the loop. */
  method PumpEvents(sink: UpdatesSink, events: seq<Pumped>) returns (published: seq<nat>, failed: bool)
    requires Valid(sink.State())
    modifies sink
    ensures var r := Pump(old(sink.State()), events);
      sink.State() == r.0 && failed == r.2
      && published == seq(r.1, i requires 0 <= i < r.1 => events[i].event)
  {
    published, failed := [], false;
    for i := 0 to |events|
      invariant Valid(sink.State())
      invariant !failed && |published| == i && forall k :: 0 <= k < i ==> published[k] == events[k].event
      invariant var r, rest := Pump(old(sink.State()), events), Pump(sink.State(), events[i..]);
        r.0 == rest.0 && r.1 == i + rest.1 && r.2 == rest.2
    {
      assert events[i..][1..] == events[i + 1..];
      var _, outcome := sink.Write(events[i].line, events[i].io);
      if outcome != Written {
        failed := true;
        return;
      }
      published := published + [events[i].event];
    }
  }

  /** Each published event had been written without error, and nothing after the first error is published. */
  lemma {:induction false} PublishedWereWritten(s: Sink, events: seq<Pumped>, i: nat)
    requires Valid(s) && i < |events|
    ensures Valid(Pump(s, events[..i]).0)
    ensures i < Pump(s, events).1 <==>
            !Pump(s, events[..i]).2 && AfterWrite(Pump(s, events[..i]).0, events[i].line, events[i].io).2 == Written
    decreases i
  {
    if i == 0 {
      assert events[..0] == [];
    } else {
      var (s', _, outcome) := AfterWrite(s, events[0].line, events[0].io);
      assert events[..i][0] == events[0] && events[..i][1..] == events[1..][..i - 1];
      if outcome == Written { PublishedWereWritten(s', events[1..], i - 1); }
    }
  }

  // ----- what the pump makes of the counter -----

  function TotalLines(events: seq<Pumped>): nat {
    if events == [] then 0 else |events[0].line| + TotalLines(events[1..])
  }

  /** Without an error the counter's distance to the size stays, until the lines add up to a rotation. */
  lemma {:induction false} PumpDistance(s: Sink, events: seq<Pumped>)
    requires Valid(s) && s.open && !Pump(s, events).2
    ensures var s' := Pump(s, events).0;
      && s'.open
      && |Content(s'.current)| - s'.written ==
         (if events != [] && s.maxSize > 0 && s.written + TotalLines(events) >= s.maxSize then 0
          else |Content(s.current)| - s.written)
      && (events != [] && s.maxSize > 0 ==> s'.written < s.maxSize)
    decreases |events|
  {
    if events != [] {
      var s' := AfterWrite(s, events[0].line, events[0].io).0;
      CleanWrite(s, events[0].line, events[0].io);
      PumpDistance(s', events[1..]);
    }
  }

  /** A pump on a sink that knows its size, without an error: it still does, and the file is below the limit. */
  lemma PumpKeepsCount(s: Sink, events: seq<Pumped>)
    requires Valid(s) && s.open && Counted(s) && !Pump(s, events).2
    ensures var s' := Pump(s, events).0;
      && s'.open && Counted(s')
      && (events != [] && s.maxSize > 0 ==> |Content(s'.current)| < s.maxSize)
  {
    PumpDistance(s, events);
  }

  /**
    A pump from opening, without an error: the counter is right exactly when the size was learned, or the file
    was empty, or the lines alone have reached the limit, so that the file was rotated.
  */
  lemma CountFromOpening(
    maxSize: int, current: Option<seq<Byte>>, backup: Option<seq<Byte>>, statOk: bool, events: seq<Pumped>)
    requires !Pump(Opened(maxSize, current, backup, statOk), events).2
    ensures Counted(Pump(Opened(maxSize, current, backup, statOk), events).0) <==>
            statOk || Content(current) == [] || (maxSize > 0 && TotalLines(events) >= maxSize)
  {
    PumpDistance(Opened(maxSize, current, backup, statOk), events);
  }

  /** An unknown size at a concrete input: seven bytes in a file limited to four, and no error. */
  lemma UnknownSizeOverruns()
    ensures var s := Opened(4, Some([1, 2, 3, 4, 5, 6]), None, false);
      var (s', published, failed) := Pump(s, [Pumped(0, [7], IO(None, true, true, true, true))]);
      published == 1 && !failed && s'.written == 1 && |Content(s'.current)| == 7
  {
    var e := Pumped(0, [7], IO(None, true, true, true, true));
    assert [e][1..] == [];
  }

  // ----- how far the pump gets -----

  /** The counter before event `j`, as long as nothing fails, read off the lengths of the lines. */
  function CounterBefore(maxSize: int, written: int, events: seq<Pumped>, j: nat): int
    requires j <= |events|
    decreases j, 0
  {
    if j == 0 then written
    else if RotationDue(maxSize, written, events, j - 1) then 0
    else CounterBefore(maxSize, written, events, j - 1) + |events[j - 1].line|
  }

  predicate RotationDue(maxSize: int, written: int, events: seq<Pumped>, j: nat)
    requires j < |events|
    decreases j, 1
  {
    maxSize > 0 && CounterBefore(maxSize, written, events, j) + |events[j].line| >= maxSize
  }

  /** Event `j` passes: its line is written whole and, when a rotation is due, every call of that succeeds. */
  predicate Passes(maxSize: int, written: int, events: seq<Pumped>, j: nat)
    requires j < |events|
  {
    !StopsShort(events[j].line, events[j].io)
    && (RotationDue(maxSize, written, events, j) ==> RotationOk(events[j].io))
  }

  lemma WrittenIff(s: Sink, p: seq<Byte>, io: IO)
    requires Valid(s)
    ensures AfterWrite(s, p, io).2 == Written <==>
            s.open && !StopsShort(p, io) && (Rotates(s, p, io) ==> RotationOk(io))
    ensures AfterWrite(s, p, io).2 == Written ==>
              && AfterWrite(s, p, io).0.open && AfterWrite(s, p, io).0.maxSize == s.maxSize
              && AfterWrite(s, p, io).0.written == if Rotates(s, p, io) then 0 else s.written + |p|
  {
  }

  lemma {:induction false} CounterShift(maxSize: int, written: int, events: seq<Pumped>, j: nat)
    requires j < |events|
    ensures CounterBefore(maxSize, written, events, j + 1) ==
            CounterBefore(maxSize, CounterBefore(maxSize, written, events, 1), events[1..], j)
    decreases j
  {
    if j > 0 {
      CounterShift(maxSize, written, events, j - 1);
      assert events[1..][j - 1] == events[j];
    }
  }

  lemma PassesShift(maxSize: int, written: int, events: seq<Pumped>, j: nat)
    requires 0 < j < |events|
    ensures Passes(maxSize, written, events, j) <==>
            Passes(maxSize, CounterBefore(maxSize, written, events, 1), events[1..], j - 1)
  {
    CounterShift(maxSize, written, events, j - 1);
    assert events[1..][j - 1] == events[j];
  }

  /**
    How many events are published, read off the inputs: event `i` is exactly when the handle is open and every
    event up to it passes. So a rotation that fails at any call does end the loop, and only at that event.
  */
  lemma {:induction false} PublishedIff(s: Sink, events: seq<Pumped>, i: nat)
    requires Valid(s) && i < |events|
    ensures i < Pump(s, events).1 <==> s.open && forall j :: 0 <= j <= i ==> Passes(s.maxSize, s.written, events, j)
    decreases i
  {
    var e := events[0];
    var (s', _, outcome) := AfterWrite(s, e.line, e.io);
    WrittenIff(s, e.line, e.io);
    assert outcome == Written <==> s.open && Passes(s.maxSize, s.written, events, 0);
    if outcome == Written {
      assert s'.written == CounterBefore(s.maxSize, s.written, events, 1);
      if i > 0 {
        PublishedIff(s', events[1..], i - 1);
        forall j | 0 < j <= i
          ensures Passes(s.maxSize, s.written, events, j) <==> Passes(s'.maxSize, s'.written, events[1..], j - 1)
        {
          PassesShift(s.maxSize, s.written, events, j);
        }
        assert forall j :: 0 <= j <= i - 1 ==>
          (Passes(s'.maxSize, s'.written, events[1..], j) <==> Passes(s.maxSize, s.written, events, j + 1));
      }
    }
  }

  /** The same for one event on any sink. */
  lemma PumpContinuesIff(s: Sink, e: Pumped, rest: seq<Pumped>)
    requires Valid(s)
    ensures Pump(s, [e] + rest).1 > 0 <==>
            s.open && !StopsShort(e.line, e.io) && (Rotates(s, e.line, e.io) ==> RotationOk(e.io))
  {
    assert ([e] + rest)[1..] == rest;
  }

  /**
    The event a failed rotation stops at is on disk all the same, at the end of the current file, or of the
    backup when only the reopening failed; it and everything after it stay unpublished.
  */
  lemma {:induction false} RotationFailureEndsPump(s: Sink, events: seq<Pumped>)
    requires Valid(s) && Pump(s, events).2 && Pump(s, events[..Pump(s, events).1]).0.open
    requires !StopsShort(events[Pump(s, events).1].line, events[Pump(s, events).1].io)
    ensures var (s', i, _) := Pump(s, events);
      var before, e := Pump(s, events[..i]).0, events[i];
      && before.maxSize > 0 && before.written + |e.line| >= before.maxSize && !RotationOk(e.io)
      && (if e.io.closeOk && e.io.renameOk
          then s'.current == None && s'.backup == Some(Content(before.current) + e.line)
          else s'.current == Some(Content(before.current) + e.line)
               && s'.backup == if e.io.closeOk && e.io.removeOk then None else before.backup)
      && (s'.open <==> e.io.closeOk && !e.io.renameOk && e.io.reopenOk)
    decreases |events|
  {
    var i := Pump(s, events).1;
    if i == 0 {
      assert events[..0] == [];
      if !events[0].io.renameOk { FailedRenameKeepsCurrent(s, events[0].line, events[0].io); }
    } else {
      var s' := AfterWrite(s, events[0].line, events[0].io).0;
      assert events[..i][0] == events[0] && events[..i][1..] == events[1..][..i - 1];
      RotationFailureEndsPump(s', events[1..]);
    }
  }

  /** A rename that fails at a concrete input: the event is in the file, nothing is published, the pump ends. */
  lemma FailedRenameExample()
    ensures var s := Opened(2, Some([1]), None, true);
      var (s', published, failed) := Pump(s, [Pumped(0, [2], IO(None, true, true, false, true))]);
      published == 0 && failed && s'.current == Some([1, 2])
  {
    assert [1] + [2] == [1, 2];
  }
}
