/** One send answers with several updates about the same message; they are folded into one row each. */
module SentMessages {
  import opened Sequences

  datatype SendResultRow = SendResultRow(action: string, messageID: int, chatID: int, date: string)

  /** `a`, with what it lacks taken from `b`. */
  function Richer(a: SendResultRow, b: SendResultRow): SendResultRow {
    a.(chatID := if a.chatID == 0 && b.chatID != 0 then b.chatID else a.chatID,
       date := if a.date == "" && b.date != "" then b.date else a.date)
  }

  // ----- the specification -----

  function WithID(id: int, rows: seq<SendResultRow>): (r: seq<SendResultRow>)
    ensures forall i :: 0 <= i < |r| ==> r[i].messageID == id
  {
    if rows == [] then []
    else if rows[0].messageID == id then [rows[0]] + WithID(id, rows[1..])
    else WithID(id, rows[1..])
  }

  function WithoutID(id: int, rows: seq<SendResultRow>): (r: seq<SendResultRow>)
    ensures |r| <= |rows|
    ensures forall i :: 0 <= i < |r| ==> r[i].messageID != id
  {
    if rows == [] then []
    else if rows[0].messageID == id then WithoutID(id, rows[1..])
    else [rows[0]] + WithoutID(id, rows[1..])
  }

  /** The first non-zero chat id. */
  function FirstChat(rows: seq<SendResultRow>): int {
    if rows == [] then 0 else if rows[0].chatID != 0 then rows[0].chatID else FirstChat(rows[1..])
  }

  /** The first non-empty date. */
  function FirstDate(rows: seq<SendResultRow>): string {
    if rows == [] then "" else if rows[0].date != "" then rows[0].date else FirstDate(rows[1..])
  }

  /** All rows about one message as one: the first of them, with the first chat and the first date there is. */
  function Gather(rows: seq<SendResultRow>): SendResultRow
    requires rows != []
  {
    rows[0].(chatID := FirstChat(rows), date := FirstDate(rows))
  }

  /** Rows in order of first mention; a row without a positive id is about no known message and stays. */
  function Deduped(rows: seq<SendResultRow>): seq<SendResultRow>
    decreases |rows|
  {
    if rows == [] then []
    else
      var first, rest := rows[0], rows[1..];
      if first.messageID <= 0 then [first] + Deduped(rest)
      else [Gather([first] + WithID(first.messageID, rest))] + Deduped(WithoutID(first.messageID, rest))
  }

  /** Where a message's row is, or the length. */
  function Find(rows: seq<SendResultRow>, id: int): (k: nat)
    ensures k <= |rows| && (k < |rows| ==> rows[k].messageID == id)
    ensures forall i :: 0 <= i < k ==> rows[i].messageID != id
  {
    if rows == [] || rows[0].messageID == id then 0 else 1 + Find(rows[1..], id)
  }

  // ----- one more row -----

  lemma {:induction false} FilterAppend(id: int, rows: seq<SendResultRow>, r: SendResultRow)
    ensures WithID(id, rows + [r]) == WithID(id, rows) + if r.messageID == id then [r] else []
    ensures WithoutID(id, rows + [r]) == WithoutID(id, rows) + if r.messageID == id then [] else [r]
  {
    if rows == [] {
      assert [] + [r] == [r];
    } else {
      assert (rows + [r])[1..] == rows[1..] + [r];
      FilterAppend(id, rows[1..], r);
    }
  }

  lemma {:induction false} GatherAppend(rows: seq<SendResultRow>, r: SendResultRow)
    ensures FirstChat(rows + [r]) == if FirstChat(rows) == 0 then r.chatID else FirstChat(rows)
    ensures FirstDate(rows + [r]) == if FirstDate(rows) == "" then r.date else FirstDate(rows)
    ensures rows != [] ==> Gather(rows + [r]) == Richer(Gather(rows), r)
  {
    if rows == [] {
      assert (rows + [r])[1..] == [];
    } else {
      assert (rows + [r])[1..] == rows[1..] + [r];
      GatherAppend(rows[1..], r);
    }
  }

  lemma GatherOne(r: SendResultRow)
    ensures Gather([r] + WithID(r.messageID, [])) == r
  {
    assert [r] + WithID(r.messageID, []) == [r];
    assert [r][1..] == [];
    assert FirstChat([r][1..]) == 0 && FirstDate([r][1..]) == "";
  }

  /** What the loop does with one row. */
  function Step(out: seq<SendResultRow>, r: SendResultRow): seq<SendResultRow> {
    var k := Find(out, r.messageID);
    if r.messageID <= 0 || k == |out| then out + [r] else out[k := Richer(out[k], r)]
  }

  lemma StepCons(first: SendResultRow, out: seq<SendResultRow>, r: SendResultRow)
    requires r.messageID <= 0 || first.messageID != r.messageID
    ensures Step([first] + out, r) == [first] + Step(out, r)
  {
    assert ([first] + out)[1..] == out;
  }

  lemma StepHead(first: SendResultRow, out: seq<SendResultRow>, r: SendResultRow)
    requires first.messageID == r.messageID > 0
    ensures Step([first] + out, r) == [Richer(first, r)] + out
  {
  }

  lemma AppendToFirst(rows: seq<SendResultRow>, r: SendResultRow)
    requires rows != [] && rows[0].messageID == r.messageID > 0
    ensures Deduped(rows + [r]) == Step(Deduped(rows), r)
  {
    var id, first, rest := r.messageID, rows[0], rows[1..];
    var same, others := [first] + WithID(id, rest), WithoutID(id, rest);
    var rows' := rows + [r];
    assert rows'[0] == first && rows'[1..] == rest + [r];
    assert [first] + WithID(id, rest + [r]) == same + [r] by {
      FilterAppend(id, rest, r);
      Regroup([first], WithID(id, rest), [r]);
    }
    assert WithoutID(id, rest + [r]) == others by {
      FilterAppend(id, rest, r);
      assert others + [] == others;
    }
    DedupedHead(rows);
    DedupedHead(rows');
    GatherAppend(same, r);
    StepHead(Gather(same), Deduped(others), r);
  }

  lemma DedupedHead(rows: seq<SendResultRow>)
    requires rows != [] && rows[0].messageID > 0
    ensures var id := rows[0].messageID;
      Deduped(rows) == [Gather([rows[0]] + WithID(id, rows[1..]))] + Deduped(WithoutID(id, rows[1..]))
  {
  }

  lemma {:induction false} DedupedAppend(rows: seq<SendResultRow>, r: SendResultRow)
    ensures Deduped(rows + [r]) == Step(Deduped(rows), r)
    decreases |rows|
  {
    if rows == [] {
      assert [] + [r] == [r];
      GatherOne(r);
    } else {
      var first, rest := rows[0], rows[1..];
      var id := first.messageID;
      assert (rows + [r])[1..] == rest + [r];
      if id <= 0 {
        DedupedAppend(rest, r);
        StepCons(first, Deduped(rest), r);
      } else {
        FilterAppend(id, rest, r);
        if r.messageID == id {
          AppendToFirst(rows, r);
        } else {
          DedupedAppend(WithoutID(id, rest), r);
          assert WithID(id, rest) + [] == WithID(id, rest);
          StepCons(Gather([first] + WithID(id, rest)), Deduped(WithoutID(id, rest)), r);
        }
      }
    }
  }

  // ----- the loop -----

  /** The index map knows every row with a positive id, and nothing else. */
  ghost predicate Indexes(seen: map<int, nat>, out: seq<SendResultRow>) {
    && (forall id <- seen :: seen[id] < |out| && out[seen[id]].messageID == id)
    && (forall k :: 0 <= k < |out| && out[k].messageID > 0 ==>
          out[k].messageID in seen && seen[out[k].messageID] == k)
  }

  lemma FindIndexed(seen: map<int, nat>, out: seq<SendResultRow>, id: int)
    requires Indexes(seen, out) && id > 0
    ensures Find(out, id) == if id in seen then seen[id] else |out|
  {
  }

  lemma IndexesAppend(seen: map<int, nat>, out: seq<SendResultRow>, row: SendResultRow)
    requires Indexes(seen, out) && (row.messageID <= 0 || row.messageID !in seen)
    ensures Indexes(if row.messageID <= 0 then seen else seen[row.messageID := |out|], out + [row])
  {
  }

  lemma IndexesUpdate(seen: map<int, nat>, out: seq<SendResultRow>, k: nat, row: SendResultRow)
    requires Indexes(seen, out) && k < |out| && row.messageID == out[k].messageID
    ensures Indexes(seen, out[k := row])
  {
  }

  method DedupeSentMessages(rows: seq<SendResultRow>) returns (out: seq<SendResultRow>)
    ensures out == Deduped(rows)
  {
    if |rows| < 2 {
      ShortIsDeduped(rows);
      return rows;
    }
    var seen: map<int, nat> := map[];
    out := [];
    for i := 0 to |rows|
      invariant out == Deduped(rows[..i])
      invariant Indexes(seen, out)
    {
      var row := rows[i];
      Appended(rows, i);
      if row.messageID <= 0 {
        IndexesAppend(seen, out, row);
        out := out + [row];
        continue;
      }
      FindIndexed(seen, out, row.messageID);
      if row.messageID in seen {
        var idx := seen[row.messageID];
        IndexesUpdate(seen, out, idx, Richer(out[idx], row));
        out := out[idx := Richer(out[idx], row)];
        continue;
      }
      IndexesAppend(seen, out, row);
      seen := seen[row.messageID := |out|];
      out := out + [row];
    }
    assert rows[..|rows|] == rows;
  }

  lemma Appended(rows: seq<SendResultRow>, i: nat)
    requires i < |rows|
    ensures Deduped(rows[..i + 1]) == Step(Deduped(rows[..i]), rows[i])
  {
    assert rows[..i + 1] == rows[..i] + [rows[i]];
    DedupedAppend(rows[..i], rows[i]);
  }

  lemma ShortIsDeduped(rows: seq<SendResultRow>)
    requires |rows| < 2
    ensures Deduped(rows) == rows
  {
    if rows != [] {
      GatherOne(rows[0]);
    }
  }

  // ----- what the result promises -----

  predicate DistinctIDs(rows: seq<SendResultRow>) {
    forall i, j :: 0 <= i < j < |rows| && rows[i].messageID > 0 ==> rows[i].messageID != rows[j].messageID
  }

  predicate Mentions(rows: seq<SendResultRow>, id: int) { exists i :: 0 <= i < |rows| && rows[i].messageID == id }

  /** Every message has one row, and no row is about a message nobody mentioned. */
  lemma {:induction false} OneRowEach(rows: seq<SendResultRow>)
    ensures DistinctIDs(Deduped(rows))
    ensures forall id :: Mentions(rows, id) <==> Mentions(Deduped(rows), id)
    decreases |rows|
  {
    if rows != [] {
      var front, r := rows[..|rows| - 1], rows[|rows| - 1];
      assert rows == front + [r];
      OneRowEach(front);
      DedupedAppend(front, r);
      StepIDs(Deduped(front), r);
      forall id ensures Mentions(rows, id) <==> Mentions(Deduped(rows), id) {
        MentionsAppend(front, r, id);
        assert Mentions(front, id) <==> Mentions(Deduped(front), id);
      }
    }
  }

  lemma MentionsAppend(rows: seq<SendResultRow>, r: SendResultRow, id: int)
    ensures Mentions(rows + [r], id) <==> Mentions(rows, id) || r.messageID == id
  {
    if Mentions(rows, id) {
      var i :| 0 <= i < |rows| && rows[i].messageID == id;
      assert (rows + [r])[i].messageID == id;
    }
    assert (rows + [r])[|rows|] == r;
  }

  lemma StepIDs(out: seq<SendResultRow>, r: SendResultRow)
    requires DistinctIDs(out)
    ensures DistinctIDs(Step(out, r))
    ensures forall id :: Mentions(Step(out, r), id) <==> Mentions(out, id) || r.messageID == id
  {
    var k := Find(out, r.messageID);
    if r.messageID <= 0 || k == |out| {
      forall id ensures Mentions(Step(out, r), id) <==> Mentions(out, id) || r.messageID == id {
        MentionsAppend(out, r, id);
      }
    } else {
      var out' := Step(out, r);
      assert forall i :: 0 <= i < |out| ==> out'[i].messageID == out[i].messageID;
      assert out[k].messageID == r.messageID;
      forall id ensures Mentions(out', id) <==> Mentions(out, id) || r.messageID == id {
        if Mentions(out, id) {
          var i :| 0 <= i < |out| && out[i].messageID == id;
          assert out'[i].messageID == id;
        }
      }
    }
  }

  /** A message's row gathers everything the answer said about it. */
  lemma {:induction false} GathersAll(rows: seq<SendResultRow>, id: int)
    requires id > 0 && Mentions(rows, id)
    ensures WithID(id, rows) != []
    ensures FoundAs(Deduped(rows), id, Gather(WithID(id, rows)))
    decreases |rows|
  {
    var first, rest := rows[0], rows[1..];
    if first.messageID == id {
      DedupedHead(rows);
    } else {
      MentionsTail(rows, id);
      assert WithID(id, rows) == WithID(id, rest);
      if first.messageID <= 0 {
        GathersAll(rest, id);
        FindCons(first, Deduped(rest), id, Gather(WithID(id, rest)));
      } else {
        var others := WithoutID(first.messageID, rest);
        FilterOthers(first.messageID, id, rest);
        GathersAll(others, id);
        FindCons(Gather([first] + WithID(first.messageID, rest)), Deduped(others), id, Gather(WithID(id, others)));
        DedupedHead(rows);
      }
    }
  }

  predicate FoundAs(out: seq<SendResultRow>, id: int, row: SendResultRow) {
    Find(out, id) < |out| && out[Find(out, id)] == row
  }

  lemma FindCons(first: SendResultRow, out: seq<SendResultRow>, id: int, row: SendResultRow)
    requires first.messageID != id && FoundAs(out, id, row)
    ensures FoundAs([first] + out, id, row)
  {
    assert ([first] + out)[1..] == out;
  }

  lemma MentionsTail(rows: seq<SendResultRow>, id: int)
    requires Mentions(rows, id) && rows[0].messageID != id
    ensures Mentions(rows[1..], id)
  {
    var i :| 0 <= i < |rows| && rows[i].messageID == id;
    assert rows[1..][i - 1] == rows[i];
  }

  lemma {:induction false} FilterOthers(gone: int, id: int, rows: seq<SendResultRow>)
    requires gone != id
    ensures WithID(id, WithoutID(gone, rows)) == WithID(id, rows)
    ensures Mentions(rows, id) ==> Mentions(WithoutID(gone, rows), id)
  {
    if rows != [] {
      FilterOthers(gone, id, rows[1..]);
      var r := WithoutID(gone, rows);
      if rows[0].messageID != gone {
        assert r[1..] == WithoutID(gone, rows[1..]);
      }
      if Mentions(rows, id) {
        var i :| 0 <= i < |rows| && rows[i].messageID == id;
        if i == 0 {
          assert r[0].messageID == id;
        } else {
          assert rows[1..][i - 1] == rows[i];
          var j :| 0 <= j < |WithoutID(gone, rows[1..])| && WithoutID(gone, rows[1..])[j].messageID == id;
          assert r[if rows[0].messageID != gone then j + 1 else j].messageID == id;
        }
      }
    }
  }

  /** Rows that are already one per message stay as they are. */
  lemma {:induction false} DistinctUnchanged(rows: seq<SendResultRow>)
    requires DistinctIDs(rows)
    ensures Deduped(rows) == rows
    decreases |rows|
  {
    if rows != [] {
      var front, r := rows[..|rows| - 1], rows[|rows| - 1];
      assert rows == front + [r];
      DistinctUnchanged(front);
      DedupedAppend(front, r);
    }
  }

  /** Deduplicating in batches, in any split, gives the same rows as deduplicating once. */
  lemma {:induction false} Batches(a: seq<SendResultRow>, b: seq<SendResultRow>)
    ensures Deduped(Deduped(a) + b) == Deduped(a + b)
    decreases |b|
  {
    if b == [] {
      assert Deduped(a) + [] == Deduped(a) && a + [] == a;
      OneRowEach(a);
      DistinctUnchanged(Deduped(a));
    } else {
      var front, r := b[..|b| - 1], b[|b| - 1];
      Batches(a, front);
      assert b == front + [r];
      DedupedSnoc(Deduped(a), front, r);
      DedupedSnoc(a, front, r);
    }
  }

  lemma DedupedSnoc(a: seq<SendResultRow>, front: seq<SendResultRow>, r: SendResultRow)
    ensures Deduped(a + (front + [r])) == Step(Deduped(a + front), r)
  {
    Regroup(a, front, [r]);
    DedupedAppend(a + front, r);
  }

  // ----- the same, said of the rows themselves -----

  /** Row `k` is about the message and has a chat, and no earlier row about it has one. */
  predicate FirstChatAt(rows: seq<SendResultRow>, id: int, k: nat) {
    && k < |rows| && rows[k].messageID == id && rows[k].chatID != 0
    && forall j :: 0 <= j < k && rows[j].messageID == id ==> rows[j].chatID == 0
  }

  predicate FirstDateAt(rows: seq<SendResultRow>, id: int, k: nat) {
    && k < |rows| && rows[k].messageID == id && rows[k].date != ""
    && forall j :: 0 <= j < k && rows[j].messageID == id ==> rows[j].date == ""
  }

  lemma {:induction false} ChatOf(rows: seq<SendResultRow>, id: int)
    ensures var chat := FirstChat(WithID(id, rows));
      if chat == 0 then forall i :: 0 <= i < |rows| && rows[i].messageID == id ==> rows[i].chatID == 0
      else exists k: nat :: FirstChatAt(rows, id, k) && rows[k].chatID == chat
  {
    if rows != [] && !FirstChatAt(rows, id, 0) {
      var rest := rows[1..];
      ChatOf(rest, id);
      HeadDoesNotMatter(rows, id);
      if FirstChat(WithID(id, rest)) != 0 {
        var k: nat :| FirstChatAt(rest, id, k) && rest[k].chatID == FirstChat(WithID(id, rest));
        assert FirstChatAt(rows, id, k + 1);
      }
    } else if rows != [] {
      assert ([rows[0]] + WithID(id, rows[1..]))[0] == rows[0];
    }
  }

  lemma {:induction false} DateOf(rows: seq<SendResultRow>, id: int)
    ensures var date := FirstDate(WithID(id, rows));
      if date == "" then forall i :: 0 <= i < |rows| && rows[i].messageID == id ==> rows[i].date == ""
      else exists k: nat :: FirstDateAt(rows, id, k) && rows[k].date == date
  {
    if rows != [] && !FirstDateAt(rows, id, 0) {
      var rest := rows[1..];
      DateOf(rest, id);
      HeadDoesNotMatter(rows, id);
      if FirstDate(WithID(id, rest)) != "" {
        var k: nat :| FirstDateAt(rest, id, k) && rest[k].date == FirstDate(WithID(id, rest));
        assert FirstDateAt(rows, id, k + 1);
      }
    } else if rows != [] {
      assert ([rows[0]] + WithID(id, rows[1..]))[0] == rows[0];
    }
  }

  /** A row that has nothing to give is passed over. */
  lemma HeadDoesNotMatter(rows: seq<SendResultRow>, id: int)
    requires rows != []
    ensures !FirstChatAt(rows, id, 0) ==> FirstChat(WithID(id, rows)) == FirstChat(WithID(id, rows[1..]))
    ensures !FirstDateAt(rows, id, 0) ==> FirstDate(WithID(id, rows)) == FirstDate(WithID(id, rows[1..]))
  {
    var rest := WithID(id, rows[1..]);
    assert ([rows[0]] + rest)[1..] == rest;
  }

  /**
    A message's row, field by field: its chat is the first one among the rows about it that have one, its
    date the first one among those that have a date, each looked for on its own.
  */
  lemma FieldsOfRow(rows: seq<SendResultRow>, id: int)
    requires id > 0 && Mentions(rows, id)
    ensures Find(Deduped(rows), id) < |Deduped(rows)|
    ensures var row := Deduped(rows)[Find(Deduped(rows), id)];
      && row.messageID == id
      && (if row.chatID == 0 then forall i :: 0 <= i < |rows| && rows[i].messageID == id ==> rows[i].chatID == 0
          else exists k: nat :: FirstChatAt(rows, id, k) && rows[k].chatID == row.chatID)
      && (if row.date == "" then forall i :: 0 <= i < |rows| && rows[i].messageID == id ==> rows[i].date == ""
          else exists k: nat :: FirstDateAt(rows, id, k) && rows[k].date == row.date)
  {
    GathersAll(rows, id);
    ChatOf(rows, id);
    DateOf(rows, id);
  }

  /** The first row about its message, or a row about no known message. */
  predicate Anchor(rows: seq<SendResultRow>, j: nat) {
    j < |rows| && (rows[j].messageID <= 0 || forall i :: 0 <= i < j ==> rows[i].messageID != rows[j].messageID)
  }

  /** The result's row for an anchor: its message and action, and the whole row where no message is known. */
  predicate RowFor(row: SendResultRow, anchor: SendResultRow) {
    row.messageID == anchor.messageID && row.action == anchor.action && (anchor.messageID <= 0 ==> row == anchor)
  }

  ghost predicate Anchored(rows: seq<SendResultRow>, out: seq<SendResultRow>, at: seq<nat>) {
    && |at| == |out|
    && (forall i :: 0 <= i < |at| ==> Anchor(rows, at[i]) && RowFor(out[i], rows[at[i]]))
    && (forall i, j :: 0 <= i < j < |at| ==> at[i] < at[j])
    && (forall j: nat :: Anchor(rows, j) ==> j in at)
  }

  lemma AnchorAppend(rows: seq<SendResultRow>, r: SendResultRow, j: nat)
    ensures j < |rows| ==> (Anchor(rows + [r], j) <==> Anchor(rows, j))
    ensures Anchor(rows + [r], |rows|) <==> r.messageID <= 0 || !Mentions(rows, r.messageID)
  {
    var rows' := rows + [r];
    assert forall i :: 0 <= i < |rows| ==> rows'[i] == rows[i];
    if r.messageID > 0 && Mentions(rows, r.messageID) {
      var i :| 0 <= i < |rows| && rows[i].messageID == r.messageID;
      assert rows'[i].messageID == rows'[|rows|].messageID;
    }
  }

  /** One row for each anchor and in their order: that of first mention, rows about no message in their place. */
  lemma {:induction false} RowsInOrder(rows: seq<SendResultRow>) returns (at: seq<nat>)
    ensures Anchored(rows, Deduped(rows), at)
    decreases |rows|
  {
    if rows == [] {
      at := [];
    } else {
      var front, r := rows[..|rows| - 1], rows[|rows| - 1];
      assert rows == front + [r];
      at := RowsInOrder(front);
      DedupedAppend(front, r);
      OneRowEach(front);
      at := OneMoreRow(front, Deduped(front), at, r);
    }
  }

  lemma OneMoreRow(front: seq<SendResultRow>, out: seq<SendResultRow>, at: seq<nat>, r: SendResultRow)
    returns (at': seq<nat>)
    requires Anchored(front, out, at) && (Mentions(front, r.messageID) <==> Mentions(out, r.messageID))
    ensures Anchored(front + [r], Step(out, r), at')
  {
    var k := Find(out, r.messageID);
    forall j: nat ensures j < |front| ==> (Anchor(front + [r], j) <==> Anchor(front, j)) {
      AnchorAppend(front, r, j);
    }
    AnchorAppend(front, r, 0);
    if r.messageID <= 0 || k == |out| {
      at' := at + [|front|];
    } else {
      assert Mentions(out, r.messageID);
      at' := at;
    }
  }
}
