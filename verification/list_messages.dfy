/** Message history as rows: filtering, album folding and the limit in one early-exit loop. */
module ListMessages {
  import opened Wrappers

  datatype Message = Message(id: int, date: int, text: string, groupedID: int, media: Option<string>)

  /** One element of the history iterator: a service message or a real one. */
  datatype Item = Service | Regular(m: Message)

  datatype AlbumItem = AlbumItem(id: int, text: string, media: Option<string>)

  datatype Row = Row(
    id: int, date: int, text: string, groupedID: int, hasMedia: bool, mediaKind: string, album: seq<AlbumItem>)

  /** Dates are instants in nanoseconds; a message's date is in whole seconds. */
  datatype Query = Query(limit: int, minID: int, minDate: Option<int>, maxDate: Option<int>, asc: bool)

  const SECOND: int := 1_000_000_000

  predicate Below(q: Query, m: Message) {
    || (q.minID > 0 && m.id <= q.minID)
    || (q.minDate.Some? && m.date * SECOND < q.minDate.value)
  }

  predicate TooNew(q: Query, m: Message) { q.maxDate.Some? && m.date * SECOND > q.maxDate.value }

  // ----- the specification -----

  function Regulars(items: seq<Item>): seq<Message> {
    if items == [] then []
    else if items[0].Regular? then [items[0].m] + Regulars(items[1..])
    else Regulars(items[1..])
  }

  function TakeWhileAbove(q: Query, ms: seq<Message>): seq<Message> {
    if ms == [] || Below(q, ms[0]) then [] else [ms[0]] + TakeWhileAbove(q, ms[1..])
  }

  function DropTooNew(q: Query, ms: seq<Message>): seq<Message> {
    if ms == [] then []
    else if TooNew(q, ms[0]) then DropTooNew(q, ms[1..])
    else [ms[0]] + DropTooNew(q, ms[1..])
  }

  /** The messages the query admits, newest first. */
  function Eligible(q: Query, items: seq<Item>): seq<Message> {
    DropTooNew(q, TakeWhileAbove(q, Regulars(items)))
  }

  predicate Joins(group: seq<Message>, m: Message) {
    group != [] && m.groupedID != 0 && group[0].groupedID == m.groupedID
  }

  /** Consecutive messages with one non-zero grouped id make one group, any other message its own. */
  function Groups(ms: seq<Message>): (gs: seq<seq<Message>>)
    ensures ms != [] ==> gs != []
  {
    if ms == [] then []
    else
      var front, m := Groups(ms[..|ms| - 1]), ms[|ms| - 1];
      if front != [] && Joins(front[|front| - 1], m) then
        front[..|front| - 1] + [front[|front| - 1] + [m]]
      else front + [[m]]
  }

  function FirstText(ms: seq<Message>): string {
    if ms == [] then ""
    else if ms[0].text != "" then ms[0].text
    else FirstText(ms[1..])
  }

  function ItemOf(m: Message): AlbumItem { AlbumItem(m.id, m.text, m.media) }

  function ItemsOf(ms: seq<Message>): (items: seq<AlbumItem>)
    ensures |items| == |ms| && forall i :: 0 <= i < |ms| ==> items[i] == ItemOf(ms[i])
  {
    seq(|ms|, i requires 0 <= i < |ms| => ItemOf(ms[i]))
  }

  function MessageToRow(m: Message): Row {
    Row(m.id, m.date, m.text, m.groupedID, m.media.Some?, if m.media.Some? then m.media.value else "", [])
  }

  /** The row of one group before its album is sorted: the first member anchors it. */
  function UnsortedRow(g: seq<Message>): Row
    requires g != []
  {
    if g[0].groupedID == 0 then MessageToRow(g[0])
    else MessageToRow(g[0]).(text := FirstText(g), hasMedia := false, mediaKind := "", album := ItemsOf(g))
  }

  function InsertById(x: AlbumItem, s: seq<AlbumItem>): seq<AlbumItem> {
    if s == [] || x.id <= s[0].id then [x] + s else [s[0]] + InsertById(x, s[1..])
  }

  /** The library sort, as insertion; the order of equal ids is unspecified there and arbitrary here. */
  function SortById(s: seq<AlbumItem>): seq<AlbumItem> {
    if s == [] then [] else InsertById(s[0], SortById(s[1..]))
  }

  function RowOf(g: seq<Message>): Row
    requires g != []
  {
    var r := UnsortedRow(g);
    r.(album := SortById(r.album))
  }

  predicate NonEmpty(gs: seq<seq<Message>>) { forall i :: 0 <= i < |gs| ==> gs[i] != [] }

  function RowsOf(gs: seq<seq<Message>>): (rows: seq<Row>)
    requires NonEmpty(gs)
    ensures |rows| == |gs| && forall i :: 0 <= i < |gs| ==> rows[i] == RowOf(gs[i])
  {
    seq(|gs|, i requires 0 <= i < |gs| => RowOf(gs[i]))
  }

  function Take<T>(s: seq<T>, n: int): seq<T> {
    if n <= 0 then [] else if n < |s| then s[..n] else s
  }

  function Reversed<T>(s: seq<T>): (r: seq<T>)
    ensures |r| == |s| && forall i :: 0 <= i < |s| ==> r[i] == s[|s| - 1 - i]
  {
    seq(|s|, i requires 0 <= i < |s| => s[|s| - 1 - i])
  }

  /** The groups a listing shows. */
  function Shown(q: Query, items: seq<Item>): seq<seq<Message>> { Take(Groups(Eligible(q, items)), q.limit) }

  function Listing(q: Query, items: seq<Item>): seq<Row> {
    GroupsNonEmpty(Eligible(q, items));
    var rows := RowsOf(Shown(q, items));
    if q.asc then Reversed(rows) else rows
  }

  // ----- facts about grouping -----

  lemma {:induction false} GroupsNonEmpty(ms: seq<Message>)
    ensures NonEmpty(Groups(ms))
  {
    if ms != [] { GroupsNonEmpty(ms[..|ms| - 1]); }
  }

  lemma GroupsAppend(ms: seq<Message>, m: Message)
    ensures var front := Groups(ms);
      Groups(ms + [m]) ==
        if front != [] && Joins(front[|front| - 1], m)
        then front[..|front| - 1] + [front[|front| - 1] + [m]]
        else front + [[m]]
  {
    assert (ms + [m])[..|ms|] == ms;
  }

  predicate SamePrefix<T(==)>(s: seq<T>, s': seq<T>, n: nat) { n <= |s| && n <= |s'| && s[..n] == s'[..n] }

  /** One more message never reaches back past the last group. */
  lemma GroupsStep(ms: seq<Message>, m: Message, n: nat)
    requires n < |Groups(ms)|
    ensures n < |Groups(ms + [m])| && SamePrefix(Groups(ms), Groups(ms + [m]), n)
  {
    GroupsAppend(ms, m);
  }

  lemma {:induction false} GroupsPrefix(a: seq<Message>, b: seq<Message>, n: nat)
    requires n < |Groups(a)|
    ensures n < |Groups(a + b)| && SamePrefix(Groups(a), Groups(a + b), n)
    decreases |b|
  {
    if b == [] {
      assert a + b == a;
    } else {
      var b', m := b[..|b| - 1], b[|b| - 1];
      GroupsPrefix(a, b', n);
      assert a + b == (a + b') + [m];
      GroupsStep(a + b', m, n);
    }
  }

  /** A message that starts a new group closes all earlier ones for good. */
  lemma GroupsClosed(a: seq<Message>, m: Message, b: seq<Message>)
    requires Groups(a) == [] || !Joins(Groups(a)[|Groups(a)| - 1], m)
    ensures |Groups(a)| < |Groups(a + [m] + b)|
    ensures Groups(a + [m] + b)[..|Groups(a)|] == Groups(a)
  {
    GroupsAppend(a, m);
    GroupsPrefix(a + [m], b, |Groups(a)|);
    assert (Groups(a) + [[m]])[..|Groups(a)|] == Groups(a);
  }

  // ----- the loop -----

  lemma EligibleStep(q: Query, items: seq<Item>)
    requires items != []
    ensures Eligible(q, items) ==
            if items[0].Service? then Eligible(q, items[1..])
            else if Below(q, items[0].m) then []
            else if TooNew(q, items[0].m) then Eligible(q, items[1..])
            else [items[0].m] + Eligible(q, items[1..])
  {
    if items[0].Regular? {
      assert Regulars(items)[1..] == Regulars(items[1..]);
      var ms := TakeWhileAbove(q, Regulars(items));
      if !Below(q, items[0].m) {
        assert ms[1..] == TakeWhileAbove(q, Regulars(items[1..]));
      }
    }
  }

  lemma {:induction false} FirstTextAppend(g: seq<Message>, m: Message)
    ensures FirstText(g + [m]) == if FirstText(g) == "" then m.text else FirstText(g)
  {
    if g == [] {
      assert (g + [m])[1..] == [];
    } else {
      assert (g + [m])[1..] == g[1..] + [m];
      FirstTextAppend(g[1..], m);
    }
  }

  /** Folding one more member into the last row. */
  lemma RowAppend(g: seq<Message>, m: Message)
    requires g != [] && g[0].groupedID != 0
    ensures UnsortedRow(g + [m]) ==
            var r := UnsortedRow(g);
            r.(album := r.album + [ItemOf(m)], text := if r.text == "" then m.text else r.text)
  {
    FirstTextAppend(g, m);
    assert ItemsOf(g + [m]) == ItemsOf(g) + [ItemOf(m)];
  }

  lemma SingleRow(m: Message)
    ensures UnsortedRow([m]) ==
            if m.groupedID == 0 then MessageToRow(m)
            else MessageToRow(m).(album := [ItemOf(m)], mediaKind := "", hasMedia := false)
  {
    FirstTextAppend([], m);
    assert [] + [m] == [m];
    assert ItemsOf([m]) == [ItemOf(m)];
  }

  function UnsortedRows(gs: seq<seq<Message>>): (rows: seq<Row>)
    requires NonEmpty(gs)
    ensures |rows| == |gs| && forall i :: 0 <= i < |gs| ==> rows[i] == UnsortedRow(gs[i])
  {
    seq(|gs|, i requires 0 <= i < |gs| => UnsortedRow(gs[i]))
  }

  lemma UnsortedRowsAppend(gs: seq<seq<Message>>, g: seq<Message>)
    requires NonEmpty(gs) && g != []
    ensures NonEmpty(gs + [g]) && UnsortedRows(gs + [g]) == UnsortedRows(gs) + [UnsortedRow(g)]
  {
  }

  method ReverseMessageRows(rows: array<Row>)
    modifies rows
    ensures rows[..] == Reversed(old(rows[..]))
  {
    var i, j := 0, rows.Length - 1;
    while i < j
      invariant 0 <= i <= rows.Length && j == rows.Length - 1 - i
      invariant forall k :: 0 <= k < i || j < k < rows.Length ==> rows[k] == old(rows[rows.Length - 1 - k])
      invariant forall k :: i <= k <= j ==> rows[k] == old(rows[k])
    {
      rows[i], rows[j] := rows[j], rows[i];
      i, j := i + 1, j - 1;
    }
  }

  /** The loop's test for folding a message into the last row. */
  predicate FoldsInto(rows: seq<Row>, m: Message) {
    m.groupedID != 0 && |rows| > 0 && rows[|rows| - 1].groupedID == m.groupedID
  }

  lemma FoldedRows(done: seq<Message>, m: Message, rows: seq<Row>)
    requires NonEmpty(Groups(done)) && rows == UnsortedRows(Groups(done)) && FoldsInto(rows, m)
    ensures NonEmpty(Groups(done + [m]))
    ensures var r := rows[|rows| - 1];
      UnsortedRows(Groups(done + [m])) ==
      rows[..|rows| - 1] + [r.(album := r.album + [ItemOf(m)], text := if r.text == "" then m.text else r.text)]
  {
    var gs := Groups(done);
    var front, g := gs[..|gs| - 1], gs[|gs| - 1];
    assert gs == front + [g];
    GroupsAppend(done, m);
    RowAppend(g, m);
    UnsortedRowsAppend(front, g);
    UnsortedRowsAppend(front, g + [m]);
  }

  lemma NewRow(done: seq<Message>, m: Message, rows: seq<Row>)
    requires NonEmpty(Groups(done)) && rows == UnsortedRows(Groups(done)) && !FoldsInto(rows, m)
    ensures NonEmpty(Groups(done + [m]))
    ensures UnsortedRows(Groups(done + [m])) == rows + [UnsortedRow([m])]
  {
    GroupsAppend(done, m);
    UnsortedRowsAppend(Groups(done), [m]);
  }

  /** Folds the message into the last row, or appends a row while the limit allows. */
  method AddMessage(rows: seq<Row>, m: Message, ghost done: seq<Message>, ghost limit: int) returns (rows': seq<Row>)
    requires NonEmpty(Groups(done)) && rows == UnsortedRows(Groups(done))
    requires |rows| <= limit || rows == []
    requires FoldsInto(rows, m) || |rows| < limit
    ensures NonEmpty(Groups(done + [m])) && rows' == UnsortedRows(Groups(done + [m]))
    ensures |rows'| <= limit || rows' == []
  {
    if FoldsInto(rows, m) {
      FoldedRows(done, m, rows);
      var last := rows[|rows| - 1];
      last := last.(album := last.album + [ItemOf(m)]);
      if last.text == "" {
        last := last.(text := m.text);
      }
      rows' := rows[..|rows| - 1] + [last];
    } else {
      NewRow(done, m, rows);
      SingleRow(m);
      var row := MessageToRow(m);
      if m.groupedID != 0 {
        row := row.(album := [ItemOf(m)], mediaKind := "", hasMedia := false);
      }
      rows' := rows + [row];
    }
  }

  /** Reaching the limit at a message that starts a new group fixes what is shown. */
  lemma LimitReached(q: Query, items: seq<Item>, done: seq<Message>, m: Message, rest: seq<Message>)
    requires Eligible(q, items) == done + [m] + rest
    requires Groups(done) == [] || !Joins(Groups(done)[|Groups(done)| - 1], m)
    requires |Groups(done)| == q.limit || (Groups(done) == [] && q.limit <= 0)
    ensures Shown(q, items) == Groups(done)
  {
    GroupsClosed(done, m, rest);
  }

  /** One regular, admitted item moves from the rest to the part that is done. */
  lemma Admitted(q: Query, items: seq<Item>, i: nat, done: seq<Message>)
    requires i < |items| && items[i].Regular? && !Below(q, items[i].m) && !TooNew(q, items[i].m)
    requires Eligible(q, items) == done + Eligible(q, items[i..])
    ensures Eligible(q, items) == done + [items[i].m] + Eligible(q, items[i + 1..])
  {
    EligibleStep(q, items[i..]);
    assert items[i..][1..] == items[i + 1..];
  }

  lemma Skipped(q: Query, items: seq<Item>, i: nat)
    requires i < |items| && (items[i].Regular? ==> TooNew(q, items[i].m) && !Below(q, items[i].m))
    ensures Eligible(q, items[i..]) == Eligible(q, items[i + 1..])
  {
    EligibleStep(q, items[i..]);
    assert items[i..][1..] == items[i + 1..];
  }

  lemma Exhausted(q: Query, items: seq<Item>, done: seq<Message>)
    requires Eligible(q, items) == done + []
    requires |Groups(done)| <= q.limit || Groups(done) == []
    ensures Shown(q, items) == Groups(done)
  {
    assert done + [] == done;
  }

  /** The early-exit loop: rows in iterator order, albums folded but not yet sorted. */
  method CollectRows(q: Query, items: seq<Item>) returns (rows: seq<Row>)
    ensures NonEmpty(Shown(q, items)) && rows == UnsortedRows(Shown(q, items))
  {
    rows := [];
    ghost var done: seq<Message> := [];
    for i := 0 to |items|
      invariant NonEmpty(Groups(done)) && rows == UnsortedRows(Groups(done))
      invariant |rows| <= q.limit || rows == []
      invariant Eligible(q, items) == done + Eligible(q, items[i..])
    {
      if items[i].Service? {
        Skipped(q, items, i);
        continue;
      }
      var m := items[i].m;
      if Below(q, m) {
        EligibleStep(q, items[i..]);
        Exhausted(q, items, done);
        return;
      }
      if TooNew(q, m) {
        Skipped(q, items, i);
        continue;
      }
      Admitted(q, items, i, done);
      if !FoldsInto(rows, m) && |rows| >= q.limit {
        LimitReached(q, items, done, m, Eligible(q, items[i + 1..]));
        return;
      }
      rows := AddMessage(rows, m, done, q.limit);
      done := done + [m];
    }
    Exhausted(q, items, done);
  }

  method ListRows(q: Query, items: seq<Item>) returns (result: seq<Row>)
    ensures result == Listing(q, items)
  {
    var rows := CollectRows(q, items);
    result := Finish(q, items, rows);
  }

  /** Sorts every album and applies the order. */
  method Finish(q: Query, items: seq<Item>, rows: seq<Row>) returns (result: seq<Row>)
    requires NonEmpty(Shown(q, items)) && rows == UnsortedRows(Shown(q, items))
    ensures result == Listing(q, items)
  {
    var sorted := new Row[|rows|](i requires 0 <= i < |rows| => rows[i]);
    for k := 0 to |rows|
      invariant forall j :: 0 <= j < |rows| ==>
                  sorted[j] == if j < k then RowOf(Shown(q, items)[j]) else rows[j]
    {
      sorted[k] := sorted[k].(album := SortById(sorted[k].album));
    }
    assert sorted[..] == RowsOf(Shown(q, items));
    if q.asc {
      ReverseMessageRows(sorted);
    }
    result := sorted[..];
  }

  // ----- what the listing promises -----

  function Flatten(gs: seq<seq<Message>>): seq<Message> {
    if gs == [] then [] else Flatten(gs[..|gs| - 1]) + gs[|gs| - 1]
  }

  /** All members carry the first one's grouped id, and without one the message is alone. */
  predicate OneAlbum(g: seq<Message>) {
    && g != []
    && (forall i :: 0 <= i < |g| ==> g[i].groupedID == g[0].groupedID)
    && (g[0].groupedID == 0 ==> |g| == 1)
  }

  /** A cut of `ms` into maximal runs of equal non-zero grouped id. */
  predicate IsAlbumSplit(gs: seq<seq<Message>>, ms: seq<Message>) {
    && Flatten(gs) == ms
    && (forall i :: 0 <= i < |gs| ==> OneAlbum(gs[i]))
    && (forall i :: 0 <= i < |gs| - 1 ==> !Joins(gs[i], gs[i + 1][0]))
  }

  /** The same in plain terms: neighbouring groups never share a non-zero grouped id. */
  lemma NeighboursDiffer(gs: seq<seq<Message>>, ms: seq<Message>, i: nat)
    requires IsAlbumSplit(gs, ms) && i < |gs| - 1
    ensures gs[i] != [] && gs[i + 1] != []
    ensures gs[i][0].groupedID != gs[i + 1][0].groupedID || gs[i][0].groupedID == 0
    ensures gs[i][|gs[i]| - 1].groupedID != gs[i + 1][0].groupedID || gs[i + 1][0].groupedID == 0
  {
    assert OneAlbum(gs[i]) && OneAlbum(gs[i + 1]);
  }

  lemma FlattenAppend(gs: seq<seq<Message>>, g: seq<Message>)
    ensures Flatten(gs + [g]) == Flatten(gs) + g
  {
    assert (gs + [g])[..|gs|] == gs;
  }

  lemma SplitAddGroup(gs: seq<seq<Message>>, ms: seq<Message>, m: Message)
    requires IsAlbumSplit(gs, ms) && (gs == [] || !Joins(gs[|gs| - 1], m))
    ensures IsAlbumSplit(gs + [[m]], ms + [m])
  {
    FlattenAppend(gs, [m]);
  }

  lemma SplitExtendGroup(front: seq<seq<Message>>, g: seq<Message>, ms: seq<Message>, m: Message)
    requires IsAlbumSplit(front + [g], ms) && Joins(g, m)
    ensures IsAlbumSplit(front + [g + [m]], ms + [m])
  {
    FlattenAppend(front, g);
    FlattenAppend(front, g + [m]);
    var gs, gs' := front + [g], front + [g + [m]];
    assert OneAlbum(gs[|front|]);
    forall i | 0 <= i < |gs'| ensures OneAlbum(gs'[i]) {
      if i < |front| { assert gs'[i] == gs[i]; }
    }
    forall i | 0 <= i < |gs'| - 1 ensures !Joins(gs'[i], gs'[i + 1][0]) {
      assert gs'[i] == gs[i] && gs'[i + 1][0] == gs[i + 1][0];
    }
  }

  lemma SplitDropGroup(front: seq<seq<Message>>, m: Message, ms: seq<Message>)
    requires IsAlbumSplit(front + [[m]], ms)
    ensures ms != [] && ms[|ms| - 1] == m && IsAlbumSplit(front, ms[..|ms| - 1])
    ensures front == [] || !Joins(front[|front| - 1], m)
  {
    FlattenAppend(front, [m]);
    var gs := front + [[m]];
    forall i | 0 <= i < |front| ensures OneAlbum(front[i]) { assert gs[i] == front[i]; }
    forall i | 0 <= i < |front| - 1 ensures !Joins(front[i], front[i + 1][0]) {
      assert gs[i] == front[i] && gs[i + 1] == front[i + 1];
    }
    if front != [] { assert !Joins(gs[|front| - 1], gs[|front|][0]); }
  }

  lemma SplitShrinkGroup(front: seq<seq<Message>>, g: seq<Message>, m: Message, ms: seq<Message>)
    requires IsAlbumSplit(front + [g + [m]], ms) && g != []
    ensures ms != [] && ms[|ms| - 1] == m && IsAlbumSplit(front + [g], ms[..|ms| - 1]) && Joins(g, m)
  {
    FlattenAppend(front, g);
    FlattenAppend(front, g + [m]);
    assert ms[..|ms| - 1] == Flatten(front) + g;
    var gs, gs' := front + [g + [m]], front + [g];
    assert OneAlbum(gs[|front|]);
    assert (g + [m])[|g|] == m && (g + [m])[0] == g[0];
    assert forall i :: 0 <= i < |g| ==> (g + [m])[i] == g[i];
    forall i | 0 <= i < |gs'| ensures OneAlbum(gs'[i]) {
      if i < |front| { assert gs'[i] == gs[i]; }
    }
    forall i | 0 <= i < |gs'| - 1 ensures !Joins(gs'[i], gs'[i + 1][0]) {
      assert gs'[i] == gs[i] && gs'[i + 1][0] == gs[i + 1][0];
    }
  }

  lemma {:induction false} GroupsSplit(ms: seq<Message>)
    ensures IsAlbumSplit(Groups(ms), ms)
  {
    if ms != [] {
      var ms', m := ms[..|ms| - 1], ms[|ms| - 1];
      var gs := Groups(ms');
      GroupsSplit(ms');
      assert ms == ms' + [m];
      GroupsAppend(ms', m);
      if gs != [] && Joins(gs[|gs| - 1], m) {
        assert gs == gs[..|gs| - 1] + [gs[|gs| - 1]];
        SplitExtendGroup(gs[..|gs| - 1], gs[|gs| - 1], ms', m);
      } else {
        SplitAddGroup(gs, ms', m);
      }
    }
  }

  /** There is only one such cut, so the fold computes it. */
  lemma {:induction false} SplitUnique(gs: seq<seq<Message>>, ms: seq<Message>)
    requires IsAlbumSplit(gs, ms)
    ensures gs == Groups(ms)
    decreases |ms|
  {
    if gs != [] {
      var front, g := gs[..|gs| - 1], gs[|gs| - 1];
      assert OneAlbum(g);
      var g', m := g[..|g| - 1], g[|g| - 1];
      assert g == g' + [m] && gs == front + [g' + [m]];
      if g' == [] {
        assert g' + [m] == [m];
        SplitDropGroup(front, m, ms);
        SplitUnique(front, ms[..|ms| - 1]);
      } else {
        SplitShrinkGroup(front, g', m, ms);
        SplitUnique(front + [g'], ms[..|ms| - 1]);
        assert (front + [g'])[..|front|] == front;
      }
      assert ms == ms[..|ms| - 1] + [m];
      GroupsAppend(ms[..|ms| - 1], m);
    }
  }

  lemma {:induction false} FlattenPrefix(gs: seq<seq<Message>>, n: nat)
    requires n <= |gs|
    ensures Flatten(gs[..n]) <= Flatten(gs)
    decreases |gs|
  {
    if n < |gs| {
      var front := gs[..|gs| - 1];
      FlattenPrefix(front, n);
      assert front[..n] == gs[..n];
    } else {
      assert gs[..n] == gs;
    }
  }

  /**
    What is shown is a prefix of the eligible messages, none lost and none repeated, in as many rows as the
    limit allows; and the limit never cuts an album: the next eligible message does not belong to the last.
  */
  lemma ShownIsPrefix(q: Query, items: seq<Item>)
    ensures var ms, shown := Eligible(q, items), Shown(q, items);
      && Flatten(shown) <= ms
      && (|shown| <= q.limit || shown == [])
      && (Flatten(shown) != ms ==> |shown| == q.limit || q.limit < 0)
      && (Flatten(shown) != ms && shown != [] ==>
            && |Flatten(shown)| < |ms| && shown[|shown| - 1] != []
            && (var last, next := shown[|shown| - 1][0], ms[|Flatten(shown)|];
                next.groupedID == 0 || next.groupedID != last.groupedID))
  {
    var ms, gs := Eligible(q, items), Groups(Eligible(q, items));
    GroupsSplit(ms);
    var n := |Shown(q, items)|;
    assert Shown(q, items) == gs[..n];
    FirstGroups(gs, ms, n);
  }

  /** The first groups of a cut, and the message after them. */
  lemma FirstGroups(gs: seq<seq<Message>>, ms: seq<Message>, n: nat)
    requires IsAlbumSplit(gs, ms) && n <= |gs|
    ensures Flatten(gs[..n]) <= ms
    ensures n == |gs| ==> Flatten(gs[..n]) == ms
    ensures n < |gs| ==> |Flatten(gs[..n])| < |ms| && gs[n] != [] && ms[|Flatten(gs[..n])|] == gs[n][0]
    ensures 0 < n < |gs| ==>
              && gs[n - 1] != []
              && (gs[n][0].groupedID == 0 || gs[n][0].groupedID != gs[n - 1][0].groupedID)
  {
    FlattenPrefix(gs, n);
    if n < |gs| {
      FlattenPrefix(gs, n + 1);
      FlattenAppend(gs[..n], gs[n]);
      assert gs[..n + 1] == gs[..n] + [gs[n]];
      assert OneAlbum(gs[n]);
      if n > 0 { NeighboursDiffer(gs, ms, n - 1); }
    } else {
      assert gs[..n] == gs;
    }
  }

  /** Each row stands for one shown group: its anchor, its members' first text, its members sorted by id. */
  lemma RowMeaning(q: Query, items: seq<Item>, i: nat)
    requires !q.asc && i < |Shown(q, items)|
    ensures |Listing(q, items)| == |Shown(q, items)|
    ensures var g, row := Shown(q, items)[i], Listing(q, items)[i];
      && OneAlbum(g)
      && row.id == g[0].id && row.groupedID == g[0].groupedID && row.text == FirstText(g)
      && SortedById(row.album)
      && row.date == g[0].date
      && (if g[0].groupedID == 0
          then row.album == [] && row.hasMedia == g[0].media.Some?
               && row.mediaKind == (if g[0].media.Some? then g[0].media.value else "")
          else !row.hasMedia && row.mediaKind == "" && |row.album| == |g|
               && (forall j :: 0 <= j < |g| ==> AlbumItem(g[j].id, g[j].text, g[j].media) in row.album)
               && multiset(row.album) == multiset(ItemsOf(g)))
  {
    GroupsNonEmpty(Eligible(q, items));
    GroupsSplit(Eligible(q, items));
    var g := Shown(q, items)[i];
    assert OneAlbum(g);
    SortByIdSorts(UnsortedRow(g).album);
    if g[0].groupedID == 0 {
      assert g == [g[0]];
      FirstTextAppend([], g[0]);
      assert [] + [g[0]] == g;
    } else {
      AlbumHasAll(g);
    }
  }

  lemma AlbumHasAll(g: seq<Message>)
    ensures |SortById(ItemsOf(g))| == |g|
    ensures forall j :: 0 <= j < |g| ==> AlbumItem(g[j].id, g[j].text, g[j].media) in SortById(ItemsOf(g))
  {
    var sorted := SortById(ItemsOf(g));
    SortByIdSorts(ItemsOf(g));
    assert |multiset(sorted)| == |multiset(ItemsOf(g))|;
    forall j | 0 <= j < |g| ensures AlbumItem(g[j].id, g[j].text, g[j].media) in sorted {
      assert ItemsOf(g)[j] in multiset(sorted);
    }
  }

  predicate SortedById(s: seq<AlbumItem>) { forall i, j :: 0 <= i < j < |s| ==> s[i].id <= s[j].id }

  lemma {:induction false} InsertByIdKeeps(x: AlbumItem, s: seq<AlbumItem>)
    ensures multiset(InsertById(x, s)) == multiset(s) + multiset{x}
  {
    if s != [] && x.id > s[0].id {
      InsertByIdKeeps(x, s[1..]);
      assert s == [s[0]] + s[1..];
    }
  }

  lemma {:induction false} InsertByIdSorts(x: AlbumItem, s: seq<AlbumItem>)
    requires SortedById(s)
    ensures SortedById(InsertById(x, s))
  {
    if s != [] && x.id > s[0].id {
      InsertByIdSorts(x, s[1..]);
      var r := InsertById(x, s[1..]);
      forall j | 0 <= j < |r| ensures s[0].id <= r[j].id {
        InsertByIdKeeps(x, s[1..]);
        assert r[j] in multiset(r);
        if r[j] != x { assert r[j] in s[1..]; }
      }
    }
  }

  lemma {:induction false} SortByIdSorts(s: seq<AlbumItem>)
    ensures SortedById(SortById(s)) && multiset(SortById(s)) == multiset(s)
  {
    if s != [] {
      SortByIdSorts(s[1..]);
      InsertByIdSorts(s[0], SortById(s[1..]));
      InsertByIdKeeps(s[0], SortById(s[1..]));
      assert s == [s[0]] + s[1..];
    }
  }

  /** First non-empty text: every earlier member has none. */
  lemma {:induction false} FirstTextMeaning(g: seq<Message>) returns (k: nat)
    ensures k <= |g| && forall i :: 0 <= i < k ==> g[i].text == ""
    ensures FirstText(g) == if k < |g| then g[k].text else ""
    ensures k < |g| ==> g[k].text != ""
  {
    if g == [] || g[0].text != "" {
      k := 0;
    } else {
      k := FirstTextMeaning(g[1..]);
      k := k + 1;
    }
  }

  /** Ascending order is the exact reverse of descending. */
  lemma AscReverses(q: Query, items: seq<Item>)
    ensures Listing(q.(asc := true), items) == Reversed(Listing(q.(asc := false), items))
    ensures Listing(q.(asc := false), items) == Reversed(Listing(q.(asc := true), items))
  {
    var down := Listing(q.(asc := false), items);
    assert Eligible(q.(asc := true), items) == Eligible(q.(asc := false), items) by {
      EligibleIgnoresOrder(q, Regulars(items));
    }
    assert Reversed(Reversed(down)) == down;
  }

  lemma {:induction false} EligibleIgnoresOrder(q: Query, ms: seq<Message>)
    ensures TakeWhileAbove(q.(asc := true), ms) == TakeWhileAbove(q.(asc := false), ms)
    ensures DropTooNew(q.(asc := true), ms) == DropTooNew(q.(asc := false), ms)
    ensures DropTooNew(q.(asc := true), TakeWhileAbove(q.(asc := true), ms)) ==
            DropTooNew(q.(asc := false), TakeWhileAbove(q.(asc := false), ms))
    decreases |ms|
  {
    if ms != [] {
      EligibleIgnoresOrder(q, ms[1..]);
      if !Below(q, ms[0]) {
        assert TakeWhileAbove(q, ms)[1..] == TakeWhileAbove(q, ms[1..]);
      }
    }
  }

  // ----- the early exit loses nothing -----

  /** History order: ids fall, dates do not rise. */
  predicate NewestFirst(ms: seq<Message>) {
    forall i, j :: 0 <= i < j < |ms| ==> ms[i].id > ms[j].id && ms[i].date >= ms[j].date
  }

  function Admissible(q: Query, ms: seq<Message>): seq<Message> {
    if ms == [] then []
    else if Below(q, ms[0]) || TooNew(q, ms[0]) then Admissible(q, ms[1..])
    else [ms[0]] + Admissible(q, ms[1..])
  }

  /** On a newest-first history, stopping at the first message below the bounds is the same as filtering. */
  lemma {:induction false} EarlyExitIsFilter(q: Query, ms: seq<Message>)
    requires NewestFirst(ms)
    ensures DropTooNew(q, TakeWhileAbove(q, ms)) == Admissible(q, ms)
  {
    if ms != [] {
      if Below(q, ms[0]) {
        AllBelow(q, ms);
      } else {
        EarlyExitIsFilter(q, ms[1..]);
        assert TakeWhileAbove(q, ms)[1..] == TakeWhileAbove(q, ms[1..]);
      }
    }
  }

  lemma {:induction false} AllBelow(q: Query, ms: seq<Message>)
    requires NewestFirst(ms) && ms != [] && Below(q, ms[0])
    ensures Admissible(q, ms) == []
  {
    if |ms| > 1 {
      assert Below(q, ms[1]) by {
        assert ms[0].id > ms[1].id && ms[0].date >= ms[1].date;
      }
      AllBelow(q, ms[1..]);
    }
  }

  // ----- the bounds in plain terms -----

  lemma {:induction false} RegularsHas(items: seq<Item>, m: Message)
    ensures m in Regulars(items) <==> Regular(m) in items
  {
    if items != [] {
      RegularsHas(items[1..], m);
      assert items == [items[0]] + items[1..];
    }
  }

  /** Where the early exit happens, on any history: at the first message at or below a lower bound. */
  lemma {:induction false} TakesUntilBelow(q: Query, ms: seq<Message>, i: nat)
    requires i < |ms|
    ensures TakeWhileAbove(q, ms) <= ms
    ensures i < |TakeWhileAbove(q, ms)| <==> forall j :: 0 <= j <= i ==>
              && (q.minID <= 0 || ms[j].id > q.minID)
              && (q.minDate.Some? ==> ms[j].date * 1_000_000_000 >= q.minDate.value)
    decreases i
  {
    TakesPrefix(q, ms);
    if !Below(q, ms[0]) && i > 0 {
      TakesUntilBelow(q, ms[1..], i - 1);
      forall j | 0 < j <= i ensures ms[j] == ms[1..][j - 1] {}
      assert forall j :: 0 <= j <= i - 1 ==> ms[1..][j] == ms[j + 1];
    }
  }

  lemma {:induction false} TakesPrefix(q: Query, ms: seq<Message>)
    ensures TakeWhileAbove(q, ms) <= ms
    decreases |ms|
  {
    if ms != [] && !Below(q, ms[0]) {
      TakesPrefix(q, ms[1..]);
      assert ms == [ms[0]] + ms[1..];
    }
  }

  lemma {:induction false} KeptAreWithin(q: Query, ms: seq<Message>, m: Message)
    ensures m in DropTooNew(q, ms) <==>
            m in ms && (q.maxDate.Some? ==> m.date * 1_000_000_000 <= q.maxDate.value)
    decreases |ms|
  {
    if ms != [] {
      KeptAreWithin(q, ms[1..], m);
      assert ms == [ms[0]] + ms[1..];
    }
  }

  lemma {:induction false} TakenAreAbove(q: Query, ms: seq<Message>, m: Message)
    requires m in TakeWhileAbove(q, ms)
    ensures m in ms && (q.minID <= 0 || m.id > q.minID)
    ensures q.minDate.Some? ==> m.date * 1_000_000_000 >= q.minDate.value
    decreases |ms|
  {
    if m != ms[0] {
      assert TakeWhileAbove(q, ms)[1..] == TakeWhileAbove(q, ms[1..]);
      TakenAreAbove(q, ms[1..], m);
    }
  }

  lemma {:induction false} AboveAreTaken(q: Query, ms: seq<Message>, m: Message)
    requires NewestFirst(ms) && m in ms && (q.minID <= 0 || m.id > q.minID)
    requires q.minDate.Some? ==> m.date * 1_000_000_000 >= q.minDate.value
    ensures m in TakeWhileAbove(q, ms)
    decreases |ms|
  {
    var i :| 0 <= i < |ms| && ms[i] == m;
    assert !Below(q, ms[0]) by {
      if i > 0 { assert ms[0].id > ms[i].id && ms[0].date >= ms[i].date; }
    }
    if i > 0 {
      assert ms[1..][i - 1] == m;
      AboveAreTaken(q, ms[1..], m);
    }
  }

  /** Whatever the history, a listed message is a regular one within all three bounds. */
  lemma EligibleWithin(q: Query, items: seq<Item>, m: Message)
    requires m in Eligible(q, items)
    ensures Regular(m) in items && (q.minID <= 0 || m.id > q.minID)
    ensures q.minDate.Some? ==> m.date * 1_000_000_000 >= q.minDate.value
    ensures q.maxDate.Some? ==> m.date * 1_000_000_000 <= q.maxDate.value
  {
    var ms := Regulars(items);
    KeptAreWithin(q, TakeWhileAbove(q, ms), m);
    TakenAreAbove(q, ms, m);
    RegularsHas(items, m);
  }

  /** On a newest-first history exactly those are, in their order. */
  lemma EligibleIff(q: Query, items: seq<Item>, m: Message)
    requires NewestFirst(Regulars(items))
    ensures m in Eligible(q, items) <==>
            && Regular(m) in items && (q.minID <= 0 || m.id > q.minID)
            && (q.minDate.Some? ==> m.date * 1_000_000_000 >= q.minDate.value)
            && (q.maxDate.Some? ==> m.date * 1_000_000_000 <= q.maxDate.value)
    ensures NewestFirst(Eligible(q, items))
  {
    var ms := Regulars(items);
    RegularsHas(items, m);
    KeptAreWithin(q, TakeWhileAbove(q, ms), m);
    if m in Eligible(q, items) {
      EligibleWithin(q, items, m);
    } else if m in ms && (q.minID <= 0 || m.id > q.minID)
      && (q.minDate.Some? ==> m.date * 1_000_000_000 >= q.minDate.value) {
      AboveAreTaken(q, ms, m);
    }
    TakesPrefix(q, ms);
    DropKeepsOrder(q, TakeWhileAbove(q, ms));
  }

  lemma {:induction false} DropKeepsOrder(q: Query, ms: seq<Message>)
    requires NewestFirst(ms)
    ensures NewestFirst(DropTooNew(q, ms))
    decreases |ms|
  {
    if ms != [] {
      DropKeepsOrder(q, ms[1..]);
      var rest := DropTooNew(q, ms[1..]);
      forall j | 0 <= j < |rest| ensures ms[0].id > rest[j].id && ms[0].date >= rest[j].date {
        KeptAreWithin(q, ms[1..], rest[j]);
        var k :| 0 <= k < |ms[1..]| && ms[1..][k] == rest[j];
        assert ms[k + 1] == rest[j];
      }
    }
  }

  lemma {:induction false} FlattenHas(gs: seq<seq<Message>>, i: nat, m: Message)
    requires i < |gs| && m in gs[i]
    ensures m in Flatten(gs)
    decreases |gs|
  {
    if i < |gs| - 1 { FlattenHas(gs[..|gs| - 1], i, m); }
  }

  /** So is every message behind a row of the listing, however the rows are ordered. */
  lemma ShownWithin(q: Query, items: seq<Item>, i: nat, m: Message)
    requires i < |Shown(q, items)| && m in Shown(q, items)[i]
    ensures Regular(m) in items && (q.minID <= 0 || m.id > q.minID)
    ensures q.minDate.Some? ==> m.date * 1_000_000_000 >= q.minDate.value
    ensures q.maxDate.Some? ==> m.date * 1_000_000_000 <= q.maxDate.value
  {
    ShownIsPrefix(q, items);
    FlattenHas(Shown(q, items), i, m);
    EligibleWithin(q, items, m);
  }
}
