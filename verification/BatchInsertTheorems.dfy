/** Whole rows, in order, none lost and none sent twice: the laws of the batched INSERT. */
module BatchInsertTheorems {
  import opened Wrappers
  import opened BatchInsert

  /** The values text of a list of rows. */
  function Joined(rows: seq<string>): string {
    if rows == [] then "" else Append(Joined(rows[..|rows| - 1]), rows[|rows| - 1])
  }

  ghost predicate Safe(row: string) { forall m: nat :: !JointAt(row, m) }

  ghost predicate AllSafe(rows: seq<string>) { forall k :: 0 <= k < |rows| ==> Safe(rows[k]) }

  function Flatten(groups: seq<seq<string>>): seq<string> {
    if groups == [] then [] else groups[0] + Flatten(groups[1..])
  }

  function JoinedAll(groups: seq<seq<string>>): (r: seq<string>)
    ensures |r| == |groups|
  {
    if groups == [] then [] else [Joined(groups[0])] + JoinedAll(groups[1..])
  }

  lemma {:induction false} JoinedNonempty(rows: seq<string>)
    ensures Joined(rows) == "" <==> rows == []
    ensures rows != [] ==> |Joined(rows)| >= 2 && Joined(rows)[|Joined(rows)| - 1] == ')'
  {
  }

  lemma JoinedSnoc(rows: seq<string>, row: string)
    ensures Joined(rows + [row]) == Append(Joined(rows), row)
  {
    assert (rows + [row])[..|rows|] == rows;
  }

  lemma AppendAfter(before: string, values: string, row: string)
    requires values != ""
    ensures Append(before + values, row) == before + Append(values, row)
  {
  }

  lemma JoinedRow(a: seq<string>, row: string)
    requires a != []
    ensures Joined(a + [row]) == Joined(a) + "," + Joined([row])
  {
    JoinedSnoc(a, row);
    JoinedNonempty(a);
    assert [row][..0] == [];
  }

  lemma JoinedRows(a: seq<string>, b: seq<string>, row: string)
    requires a != [] && b != [] && Joined(a + b) == Joined(a) + "," + Joined(b)
    ensures Joined(a + (b + [row])) == Joined(a) + "," + Joined(b + [row])
  {
    Regrouped(a, b, [row]);
    JoinedSnoc(b, row);
    JoinedSnoc(a + b, row);
    JoinedNonempty(b);
    AppendAfter(Joined(a) + ",", Joined(b), row);
  }

  lemma {:induction false} JoinedConcat(a: seq<string>, b: seq<string>)
    requires a != [] && b != []
    ensures Joined(a + b) == Joined(a) + "," + Joined(b)
    decreases |b|
  {
    var front, row := b[..|b| - 1], b[|b| - 1];
    assert front + [row] == b;
    if front == [] {
      JoinedRow(a, row);
    } else {
      JoinedConcat(a, front);
      JoinedRows(a, front, row);
    }
  }

  lemma WrappedHasNoJoint(row: string, m: nat)
    requires Safe(row)
    ensures !JointAt("(" + row + ")", m)
  {
    var text := "(" + row + ")";
    if 1 <= m && m + 3 < |text| {
      assert !JointAt(row, m - 1);
      assert row[m - 1] == text[m] && row[m] == text[m + 1] && row[m + 1] == text[m + 2];
    }
  }

  lemma JointAtShift(prefix: string, s: string, m: nat)
    requires m >= |prefix|
    ensures JointAt(prefix + s, m) <==> JointAt(s, m - |prefix|)
  {
    var text := prefix + s;
    assert forall k :: 0 <= k < |s| ==> text[|prefix| + k] == s[k];
    if m + 3 <= |text| {
      var d := m - |prefix|;
      assert text[|prefix| + d] == s[d] && text[|prefix| + (d + 1)] == s[d + 1] && text[|prefix| + (d + 2)] == s[d + 2];
    }
  }

  /** A joint of a text with one more row is a joint of the text, or the new one. */
  lemma JointPosition(front: string, row: string, m: nat)
    requires front != "" && front[|front| - 1] == ')' && Safe(row)
    requires JointAt(front + ",(" + row + ")", m)
    ensures JointAt(front, m) || m + 1 == |front|
  {
    var text, wrapped := front + ",(" + row + ")", "(" + row + ")";
    var f := |front|;
    assert text == (front + ",") + wrapped;
    assert text[f - 1] == ')' && text[f] == ',';
    if m > f {
      JointAtShift(front + ",", wrapped, m);
      WrappedHasNoJoint(row, m - f - 1);
    }
  }

  /** With safe rows, a joint of the text is the end of one row and the start of the next. */
  lemma {:induction false} JointIsBoundary(rows: seq<string>, m: nat) returns (k: nat)
    requires AllSafe(rows) && JointAt(Joined(rows), m)
    ensures 0 < k < |rows| && m + 1 == |Joined(rows[..k])|
    decreases |rows|
  {
    var n := |rows| - 1;
    var front, row := Joined(rows[..n]), rows[n];
    JoinedNonempty(rows[..n]);
    assert Safe(row);
    if n == 0 {
      WrappedHasNoJoint(row, m);
    }
    JointPosition(front, row, m);
    if m + 1 == |front| {
      k := n;
    } else {
      k := JointIsBoundary(rows[..n], m);
      assert rows[..n][..k] == rows[..k];
    }
  }

  /** A joint stands wherever two rows meet. */
  lemma BoundaryIsJoint(rows: seq<string>, k: nat)
    requires 0 < k < |rows|
    ensures JointAt(Joined(rows), |Joined(rows[..k])| - 1)
    ensures Joined(rows)[..|Joined(rows[..k])|] == Joined(rows[..k])
    ensures Joined(rows)[|Joined(rows[..k])| + 1..] == Joined(rows[k..])
  {
    var a, b := rows[..k], rows[k..];
    assert a + b == rows;
    JoinedConcat(a, b);
    JoinedNonempty(a);
    JoinedStart(b);
  }

  lemma {:induction false} JoinedStart(rows: seq<string>)
    requires rows != []
    ensures |Joined(rows)| >= 2 && Joined(rows)[0] == '('
    decreases |rows|
  {
    if |rows| > 1 { JoinedStart(rows[..|rows| - 1]); }
  }

  /** Every group has a row, and its text is at most one byte longer than the room. */
  predicate Fits(groups: seq<seq<string>>, room: nat) {
    forall k :: 0 <= k < |groups| ==> groups[k] != [] && |Joined(groups[k])| <= room + 1
  }

  /** The pieces are the texts of nonempty groups whose rows are those of `rows` from the
      first on; `left` are the rows that stay behind, which happens only when no joint is in
      reach. */
  predicate Splits(p: Pieces, rows: seq<string>, room: nat, groups: seq<seq<string>>, left: seq<string>) {
    && p == Pieces(JoinedAll(groups), left == [])
    && Flatten(groups) + left == rows
    && Fits(groups, room)
  }

  lemma JoinedAllCons(group: seq<string>, groups: seq<seq<string>>)
    ensures JoinedAll([group] + groups) == [Joined(group)] + JoinedAll(groups)
    ensures Flatten([group] + groups) == group + Flatten(groups)
  {
    assert ([group] + groups)[1..] == groups;
  }

  lemma FitsCons(group: seq<string>, groups: seq<seq<string>>, room: nat)
    requires group != [] && |Joined(group)| <= room + 1 && Fits(groups, room)
    ensures Fits([group] + groups, room)
  {
  }

  lemma NothingSplits(rows: seq<string>, room: nat)
    ensures Splits(Pieces([], rows == []), rows, room, [], rows)
  {
    assert Flatten([]) + rows == rows;
  }

  lemma SplitsCons(
      p: Pieces, head: seq<string>, tail: seq<string>, room: nat, groups: seq<seq<string>>, left: seq<string>)
    requires head != [] && |Joined(head)| <= room + 1 && Splits(p, tail, room, groups, left)
    ensures Splits(Pieces([Joined(head)] + p.texts, p.complete), head + tail, room, [head] + groups, left)
  {
    JoinedAllCons(head, groups);
    FitsCons(head, groups, room);
    Regrouped(head, Flatten(groups), left);
  }

  lemma CutWhole(rows: seq<string>)
    requires rows != []
    ensures
      var text := Joined(rows);
      DropComma(text[..|text|]) == Joined(rows[..|rows|]) && text[|text|..] == Joined(rows[|rows|..])
  {
    JoinedNonempty(rows);
    assert rows[..|rows|] == rows && rows[|rows|..] == [];
    assert Joined(rows)[..|Joined(rows)|] == Joined(rows);
  }

  lemma CutAtJoint(rows: seq<string>, j: nat) returns (k: nat)
    requires AllSafe(rows) && JointAt(Joined(rows), j)
    ensures
      var text := Joined(rows);
      && 0 < k < |rows|
      && DropComma(text[..j + 2]) == Joined(rows[..k]) && text[j + 2..] == Joined(rows[k..])
      && |Joined(rows[..k])| == j + 1
  {
    k := JointIsBoundary(rows, j);
    BoundaryIsJoint(rows, k);
    CommaDrops(Joined(rows), Joined(rows[..k]), j);
  }

  /** One cut takes the text of the first `k` rows and leaves the text of the others. */
  lemma CutOffRows(rows: seq<string>, room: nat) returns (k: nat)
    requires AllSafe(rows) && rows != [] && CutPosition(Joined(rows), room).Some?
    ensures
      var text, cut := Joined(rows), CutPosition(Joined(rows), room).value;
      && 0 < k <= |rows|
      && DropComma(text[..cut]) == Joined(rows[..k]) && text[cut..] == Joined(rows[k..])
      && |Joined(rows[..k])| <= room + 1
  {
    if room >= |Joined(rows)| {
      k := |rows|;
      CutWhole(rows);
      assert rows[..k] == rows;
    } else {
      k := CutAtJoint(rows, LastJoint(Joined(rows), room).value);
    }
  }

  lemma CommaDrops(text: string, head: string, j: nat)
    requires JointAt(text, j) && j + 1 == |head| && text[..j + 1] == head
    ensures DropComma(text[..j + 2]) == head
  {
    assert text[..j + 2] == head + ",";
  }

  /** Cutting the text of safe rows cuts between rows. */
  lemma {:induction false} CutBetweenRows(rows: seq<string>, room: nat)
    returns (groups: seq<seq<string>>, left: seq<string>)
    requires AllSafe(rows)
    ensures Splits(Cut(Joined(rows), room), rows, room, groups, left)
    decreases |rows|
  {
    JoinedNonempty(rows);
    if rows == [] || CutPosition(Joined(rows), room).None? {
      groups, left := [], rows;
      NothingSplits(rows, room);
    } else {
      var k := CutOffRows(rows, room);
      CutTakesRows(rows, room, k);
      var rest;
      rest, left := CutBetweenRows(rows[k..], room);
      SplitsCons(Cut(Joined(rows[k..]), room), rows[..k], rows[k..], room, rest, left);
      groups := [rows[..k]] + rest;
    }
  }

  lemma CutTakesRows(rows: seq<string>, room: nat, k: nat)
    requires rows != [] && k <= |rows| && Joined(rows) != "" && CutPosition(Joined(rows), room).Some?
    requires
      var text, cut := Joined(rows), CutPosition(Joined(rows), room).value;
      DropComma(text[..cut]) == Joined(rows[..k]) && text[cut..] == Joined(rows[k..])
    ensures rows[..k] + rows[k..] == rows
    ensures
      var rest := Cut(Joined(rows[k..]), room);
      Cut(Joined(rows), room) == Pieces([Joined(rows[..k])] + rest.texts, rest.complete)
  {
    CutOnce(Joined(rows), room, CutPosition(Joined(rows), room).value);
  }

  // ---- Runs of the builder ----

  datatype Op = Add(row: string) | Flush

  function Perform(c: Config, w: World, op: Op): Reply {
    match op
    case Add(row) => AddRow(c, w, row)
    case Flush => Execute(c, w)
  }

  function RunOps(c: Config, w: World, ops: seq<Op>): Reply
    decreases |ops|
  {
    if ops == [] then Reply(w, true)
    else
      var r := Perform(c, w, ops[0]);
      var rest := RunOps(c, r.world, ops[1..]);
      Reply(rest.world, r.ok && rest.ok)
  }

  function RowsOf(ops: seq<Op>): seq<string> {
    if ops == [] then []
    else RowOf(ops[0]) + RowsOf(ops[1..])
  }

  function Fresh(c: Config): World { World("", |c.query|, 0, []) }

  /** The recorded length is the length of the statement so far, whatever the database says. */
  predicate LengthExact(c: Config, w: World) { w.length == |c.query| + |w.values| }

  lemma {:induction false} SendAllKeepsText(c: Config, w: World, pieces: seq<string>)
    ensures SendAll(c, w, pieces).world.values == w.values
    ensures SendAll(c, w, pieces).world.length == w.length
    decreases |pieces|
  {
    if pieces != [] && SendOne(c, w, pieces[0]).ok {
      SendAllKeepsText(c, SendOne(c, w, pieces[0]).world, pieces[1..]);
    }
  }

  lemma ExecuteKeepsLength(c: Config, w: World)
    requires LengthExact(c, w)
    ensures LengthExact(c, Execute(c, w).world)
    ensures Execute(c, w).ok ==> Execute(c, w).world.values == ""
  {
    if PrefixSize(c) < MAX_QUERY_SIZE {
      SendAllKeepsText(c, w, Cut(w.values, Room(c)).texts);
    }
  }

  lemma GrownKeepsLength(c: Config, w: World, row: string)
    requires LengthExact(c, w)
    ensures LengthExact(c, Grown(w, row))
  {
  }

  lemma PerformKeepsLength(c: Config, w: World, op: Op)
    requires LengthExact(c, w)
    ensures LengthExact(c, Perform(c, w, op).world)
  {
    ExecuteKeepsLength(c, w);
    if op.Add? {
      GrownKeepsLength(c, w, op.row);
      GrownKeepsLength(c, Execute(c, w).world, op.row);
    }
  }

  lemma {:induction false} RunKeepsLength(c: Config, w: World, ops: seq<Op>)
    requires LengthExact(c, w)
    ensures LengthExact(c, RunOps(c, w, ops).world)
    decreases |ops|
  {
    if ops != [] {
      PerformKeepsLength(c, w, ops[0]);
      RunKeepsLength(c, Perform(c, w, ops[0]).world, ops[1..]);
    }
  }

  function Statements(c: Config, texts: seq<string>): seq<string> {
    if texts == [] then [] else [Statement(c, texts[0])] + Statements(c, texts[1..])
  }

  lemma {:induction false} StatementsConcat(c: Config, a: seq<string>, b: seq<string>)
    ensures Statements(c, a + b) == Statements(c, a) + Statements(c, b)
    decreases |a|
  {
    if a == [] {
      assert a + b == b;
    } else {
      assert (a + b)[1..] == a[1..] + b;
      StatementsConcat(c, a[1..], b);
    }
  }

  /** The log is one statement for each group of rows; each group has a row and fits. */
  predicate Sent(c: Config, log: seq<string>, groups: seq<seq<string>>) {
    && log == Statements(c, JoinedAll(groups))
    && Fits(groups, Room(c))
    && (groups != [] ==> PrefixSize(c) < MAX_QUERY_SIZE)
  }

  lemma {:induction false} SendAllLogs(c: Config, w: World, pieces: seq<string>)
    requires SendAll(c, w, pieces).ok
    ensures SendAll(c, w, pieces).world.log == w.log + Statements(c, pieces)
    decreases |pieces|
  {
    if pieces != [] {
      SendAllLogs(c, SendOne(c, w, pieces[0]).world, pieces[1..]);
    }
  }

  lemma {:induction false} FlattenConcat(a: seq<seq<string>>, b: seq<seq<string>>)
    ensures Flatten(a + b) == Flatten(a) + Flatten(b)
    decreases |a|
  {
    if a == [] {
      assert a + b == b;
    } else {
      assert (a + b)[1..] == a[1..] + b;
      FlattenConcat(a[1..], b);
    }
  }

  lemma {:induction false} JoinedAllConcat(a: seq<seq<string>>, b: seq<seq<string>>)
    ensures JoinedAll(a + b) == JoinedAll(a) + JoinedAll(b)
    decreases |a|
  {
    if a == [] {
      assert a + b == b;
    } else {
      assert (a + b)[1..] == a[1..] + b;
      JoinedAllConcat(a[1..], b);
    }
  }

  /** Everything given so far is in the executed statements or in the pending text. */
  ghost predicate Delivered(c: Config, w: World, groups: seq<seq<string>>, pending: seq<string>, given: seq<string>) {
    && AllSafe(pending) && w.values == Joined(pending)
    && Sent(c, w.log, groups)
    && Flatten(groups) + pending == given
  }

  lemma SentMore(c: Config, log: seq<string>, groups: seq<seq<string>>, more: seq<seq<string>>)
    requires Sent(c, log, groups) && Fits(more, Room(c)) && PrefixSize(c) < MAX_QUERY_SIZE
    ensures Sent(c, log + Statements(c, JoinedAll(more)), groups + more)
  {
    JoinedAllConcat(groups, more);
    StatementsConcat(c, JoinedAll(groups), JoinedAll(more));
  }

  /** A successful execute sends exactly the pending rows. */
  lemma ExecuteDelivers(
      c: Config, w: World, groups: seq<seq<string>>, pending: seq<string>, given: seq<string>)
    returns (groups': seq<seq<string>>)
    requires Delivered(c, w, groups, pending, given) && Execute(c, w).ok
    ensures Delivered(c, Execute(c, w).world, groups', [], given)
    ensures Execute(c, w).world.values == ""
  {
    JoinedNonempty(pending);
    groups' := groups;
    if pending != [] {
      var more, left := CutBetweenRows(pending, Room(c));
      assert Cut(w.values, Room(c)) == Pieces(JoinedAll(more), true) && left == [];
      SendAllLogs(c, w, JoinedAll(more));
      SentMore(c, w.log, groups, more);
      FlattenConcat(groups, more);
      groups' := groups + more;
      assert Flatten(more) + [] == pending && Flatten(groups') + [] == given;
    }
  }

  ghost predicate SafeOps(ops: seq<Op>) { forall k :: 0 <= k < |ops| && ops[k].Add? ==> Safe(ops[k].row) }

  function RowOf(op: Op): seq<string> { if op.Add? then [op.row] else [] }

  lemma GrownDelivers(
      c: Config, w: World, row: string, groups: seq<seq<string>>, pending: seq<string>, given: seq<string>)
    requires Delivered(c, w, groups, pending, given) && Safe(row)
    ensures Delivered(c, Grown(w, row), groups, pending + [row], given + [row])
  {
    JoinedSnoc(pending, row);
    assert Flatten(groups) + (pending + [row]) == Flatten(groups) + pending + [row];
  }

  lemma PerformDelivers(
      c: Config, w: World, op: Op, groups: seq<seq<string>>, pending: seq<string>, given: seq<string>)
    returns (groups': seq<seq<string>>, pending': seq<string>)
    requires Delivered(c, w, groups, pending, given) && Perform(c, w, op).ok
    requires op.Add? ==> Safe(op.row)
    ensures Delivered(c, Perform(c, w, op).world, groups', pending', given + RowOf(op))
    ensures op.Flush? ==> pending' == []
  {
    if op.Flush? {
      groups' := ExecuteDelivers(c, w, groups, pending, given);
      pending' := [];
      assert given + [] == given;
    } else if Grown(w, op.row) == Perform(c, w, op).world {
      GrownDelivers(c, w, op.row, groups, pending, given);
      groups', pending' := groups, pending + [op.row];
    } else {
      groups' := ExecuteDelivers(c, w, groups, pending, given);
      GrownDelivers(c, Execute(c, w).world, op.row, groups', [], given);
      pending' := [op.row];
      assert [] + [op.row] == [op.row];
    }
  }

  lemma Regrouped<T>(a: seq<T>, b: seq<T>, c: seq<T>)
    ensures (a + b) + c == a + (b + c)
  {
  }

  lemma RunUnfolds(c: Config, w: World, ops: seq<Op>)
    requires ops != [] && RunOps(c, w, ops).ok && SafeOps(ops)
    ensures Perform(c, w, ops[0]).ok && (ops[0].Add? ==> Safe(ops[0].row))
    ensures RunOps(c, Perform(c, w, ops[0]).world, ops[1..]).ok && SafeOps(ops[1..])
    ensures RunOps(c, w, ops).world == RunOps(c, Perform(c, w, ops[0]).world, ops[1..]).world
    ensures RowsOf(ops) == RowOf(ops[0]) + RowsOf(ops[1..])
    ensures ops[|ops| - 1] == (if ops[1..] == [] then ops[0] else ops[1..][|ops[1..]| - 1])
  {
  }

  lemma {:induction false} RunDelivers(
      c: Config, w: World, ops: seq<Op>, groups: seq<seq<string>>, pending: seq<string>, given: seq<string>)
    returns (groups': seq<seq<string>>, pending': seq<string>)
    requires Delivered(c, w, groups, pending, given) && RunOps(c, w, ops).ok
    requires SafeOps(ops)
    ensures Delivered(c, RunOps(c, w, ops).world, groups', pending', given + RowsOf(ops))
    ensures ops == [] ==> pending' == pending
    ensures ops != [] && ops[|ops| - 1].Flush? ==> pending' == []
    decreases |ops|
  {
    if ops == [] {
      groups', pending' := groups, pending;
      assert given + [] == given;
    } else {
      RunUnfolds(c, w, ops);
      var g, p := PerformDelivers(c, w, ops[0], groups, pending, given);
      Regrouped(given, RowOf(ops[0]), RowsOf(ops[1..]));
      groups', pending' := RunDelivers(c, Perform(c, w, ops[0]).world, ops[1..], g, p, given + RowOf(ops[0]));
    }
  }

  /** For rows that do not contain a joint: when every call of a run reports success and the
      run ends with an execute, the statements executed carry whole rows, and their rows put
      together are exactly the rows added, in order. */
  lemma StatementsPartitionRows(c: Config, ops: seq<Op>)
    requires SafeOps(ops)
    requires RunOps(c, Fresh(c), ops).ok
    requires ops != [] && ops[|ops| - 1].Flush?
    ensures exists groups :: Sent(c, RunOps(c, Fresh(c), ops).world.log, groups) && Flatten(groups) == RowsOf(ops)
  {
    assert Statements(c, []) == [] && Flatten([]) + [] == [];
    assert Delivered(c, Fresh(c), [], [], []);
    var groups, pending := RunDelivers(c, Fresh(c), ops, [], [], []);
    assert Flatten(groups) + pending == Flatten(groups);
    assert [] + RowsOf(ops) == RowsOf(ops);
  }

  /** A text cut at a joint loses the comma, so it is at most one byte longer than the room. */
  lemma {:induction false} PiecesFit(text: string, room: nat, piece: string)
    requires piece in Cut(text, room).texts
    ensures |piece| <= room + 1
    decreases |text|
  {
    var cut := CutPosition(text, room).value;
    CutOnce(text, room, cut);
    if piece != DropComma(text[..cut]) {
      PiecesFit(text[cut..], room, piece);
    }
  }

  ghost predicate AllFit(log: seq<string>) { forall k :: 0 <= k < |log| ==> |log[k]| <= MAX_QUERY_SIZE + 1 }

  lemma {:induction false} SendAllFits(c: Config, w: World, pieces: seq<string>)
    requires AllFit(w.log) && forall k :: 0 <= k < |pieces| ==> PrefixSize(c) + |pieces[k]| <= MAX_QUERY_SIZE + 1
    ensures AllFit(SendAll(c, w, pieces).world.log)
    decreases |pieces|
  {
    if pieces != [] {
      SendAllFits(c, SendOne(c, w, pieces[0]).world, pieces[1..]);
    }
  }

  lemma ExecuteFits(c: Config, w: World)
    requires AllFit(w.log)
    ensures AllFit(Execute(c, w).world.log)
  {
    if PrefixSize(c) < MAX_QUERY_SIZE {
      var room := MAX_QUERY_SIZE - PrefixSize(c);
      var texts := Cut(w.values, room).texts;
      forall k | 0 <= k < |texts| ensures |texts[k]| <= room + 1 { PiecesFit(w.values, room, texts[k]); }
      SendAllFits(c, w, texts);
    }
  }

  /** Whatever the rows are and whatever the database says: no statement of any run is more
      than one byte over the query size. */
  lemma {:induction false} StatementsFit(c: Config, w: World, ops: seq<Op>)
    requires AllFit(w.log)
    ensures AllFit(RunOps(c, w, ops).world.log)
    decreases |ops|
  {
    if ops != [] {
      ExecuteFits(c, w);
      StatementsFit(c, Perform(c, w, ops[0]).world, ops[1..]);
    }
  }

  /** A joint shows that there are rows on both sides of it. */
  lemma {:induction false} OneRowHasNoJoint(rows: seq<string>, m: nat)
    requires AllSafe(rows) && |rows| == 1
    ensures !JointAt(Joined(rows), m)
  {
    if JointAt(Joined(rows), m) { var k := JointIsBoundary(rows, m); }
  }

  /** The first boundary of one list is the first boundary of the other. */
  lemma FirstRowsAgree(a: seq<string>, b: seq<string>)
    requires AllSafe(a) && AllSafe(b) && |a| > 1 && Joined(a) == Joined(b)
    ensures |b| > 1 && Joined(a[..1]) == Joined(b[..1]) && Joined(a[1..]) == Joined(b[1..])
  {
    BoundaryIsJoint(a, 1);
    var k := JointIsBoundary(b, |Joined(a[..1])| - 1);
    BoundaryIsJoint(b, k);
    JoinedNonempty(a[..1]);
    if k > 1 {
      BoundaryIsJoint(b[..k], 1);
      OneRowHasNoJoint(a[..1], |Joined(b[..k][..1])| - 1);
      assert false;
    }
  }

  lemma OneRowText(row: string)
    ensures Joined([row]) == "(" + row + ")"
    ensures Joined([row])[1..|row| + 1] == row && |Joined([row])| == |row| + 2
  {
    assert [row][..0] == [];
  }

  lemma OneRowAgrees(x: string, y: string)
    requires Joined([x]) == Joined([y])
    ensures x == y
  {
    OneRowText(x);
    OneRowText(y);
  }

  /** The rows can be read back from the text: joining safe rows is injective. */
  lemma {:induction false} JoinedInjective(a: seq<string>, b: seq<string>)
    requires AllSafe(a) && AllSafe(b) && Joined(a) == Joined(b)
    ensures a == b
    decreases |a|
  {
    JoinedNonempty(a);
    JoinedNonempty(b);
    if |a| > 1 {
      FirstRowsAgree(a, b);
      assert a[..1] == [a[0]] && b[..1] == [b[0]];
      OneRowAgrees(a[0], b[0]);
      JoinedInjective(a[1..], b[1..]);
      assert a == [a[0]] + a[1..] && b == [b[0]] + b[1..];
    } else if |a| == 1 {
      if |b| > 1 { FirstRowsAgree(b, a); }
      assert a == [a[0]] && b == [b[0]];
      OneRowAgrees(a[0], b[0]);
    }
  }

  // ---- When a statement is over the size ----

  /** Some cut of the text falls on a joint that starts exactly where the room ends. */
  predicate Tight(text: string, room: nat)
    decreases |text|
  {
    text != "" && CutPosition(text, room).Some?
    && ((room < |text| && JointAt(text, room)) || Tight(text[CutPosition(text, room).value..], room))
  }

  ghost predicate SomeOver(texts: seq<string>, room: nat) { exists k :: 0 <= k < |texts| && |texts[k]| > room }

  lemma OverCons(first: string, rest: seq<string>, room: nat)
    ensures SomeOver([first] + rest, room) <==> |first| > room || SomeOver(rest, room)
  {
    var all := [first] + rest;
    if |first| > room { assert |all[0]| > room; }
    if SomeOver(rest, room) {
      var k :| 0 <= k < |rest| && |rest[k]| > room;
      assert all[k + 1] == rest[k];
    }
    if SomeOver(all, room) {
      var k :| 0 <= k < |all| && |all[k]| > room;
      assert k > 0 ==> all[k] == rest[k - 1];
    }
  }

  lemma CutOverIff(text: string, room: nat)
    requires text != "" && CutPosition(text, room).Some?
    ensures |DropComma(text[..CutPosition(text, room).value])| > room <==> room < |text| && JointAt(text, room)
  {
  }

  /** A piece is longer than the room exactly when a cut of the text is tight. */
  lemma {:induction false} OverIffTight(text: string, room: nat)
    ensures SomeOver(Cut(text, room).texts, room) <==> Tight(text, room)
    decreases |text|
  {
    if text != "" && CutPosition(text, room).Some? {
      var cut := CutPosition(text, room).value;
      CutOnce(text, room, cut);
      CutOverIff(text, room);
      OverIffTight(text[cut..], room);
      OverCons(DropComma(text[..cut]), Cut(text[cut..], room).texts, room);
    }
  }

  /** The text that an operation hands to the splitting loop, if it gets that far. */
  function Flushed(c: Config, w: World, op: Op): string {
    if PrefixSize(c) >= MAX_QUERY_SIZE then ""
    else if op.Flush? then w.values
    else if w.length + |op.row| + (if w.values == "" then 2 else 3) <= c.maxPacket then ""
    else w.values
  }

  /** Some text that the run splits is tight. */
  predicate TightRun(c: Config, w: World, ops: seq<Op>)
    decreases |ops|
  {
    ops != [] && (Tight(Flushed(c, w, ops[0]), Room(c)) || TightRun(c, Perform(c, w, ops[0]).world, ops[1..]))
  }

  ghost predicate LogOver(log: seq<string>) { exists k :: 0 <= k < |log| && |log[k]| > MAX_QUERY_SIZE }

  lemma LogOverConcat(a: seq<string>, b: seq<string>)
    ensures LogOver(a + b) <==> LogOver(a) || LogOver(b)
  {
    var all := a + b;
    if LogOver(a) { var k :| 0 <= k < |a| && |a[k]| > MAX_QUERY_SIZE; assert all[k] == a[k]; }
    if LogOver(b) { var k :| 0 <= k < |b| && |b[k]| > MAX_QUERY_SIZE; assert all[|a| + k] == b[k]; }
    if LogOver(all) {
      var k :| 0 <= k < |all| && |all[k]| > MAX_QUERY_SIZE;
      assert if k < |a| then all[k] == a[k] else all[k] == b[k - |a|];
    }
  }

  lemma {:induction false} StatementAt(c: Config, texts: seq<string>, k: nat)
    requires k < |texts|
    ensures |Statements(c, texts)| == |texts| && Statements(c, texts)[k] == Statement(c, texts[k])
    ensures |Statement(c, texts[k])| == PrefixSize(c) + |texts[k]|
  {
    if |texts| > 1 { StatementAt(c, texts[1..], if k > 0 then k - 1 else 0); }
  }

  lemma StatementsOverIff(c: Config, texts: seq<string>)
    requires PrefixSize(c) < MAX_QUERY_SIZE
    ensures LogOver(Statements(c, texts)) <==> SomeOver(texts, Room(c))
  {
    if texts != [] { StatementAt(c, texts, 0); }
    forall k | 0 <= k < |texts|
      ensures |Statements(c, texts)[k]| > MAX_QUERY_SIZE <==> |texts[k]| > Room(c)
    {
      StatementAt(c, texts, k);
    }
    if LogOver(Statements(c, texts)) {
      var k :| 0 <= k < |Statements(c, texts)| && |Statements(c, texts)[k]| > MAX_QUERY_SIZE;
      assert |texts[k]| > Room(c);
    }
    if SomeOver(texts, Room(c)) {
      var k :| 0 <= k < |texts| && |texts[k]| > Room(c);
      assert |Statements(c, texts)[k]| > MAX_QUERY_SIZE;
    }
  }

  lemma ExecuteOverIff(c: Config, w: World)
    requires Execute(c, w).ok
    ensures LogOver(Execute(c, w).world.log) <==> LogOver(w.log) || (w.values != "" && Tight(w.values, Room(c)))
  {
    if w.values != "" {
      var texts := Cut(w.values, Room(c)).texts;
      SendAllLogs(c, w, texts);
      StatementsOverIff(c, texts);
      OverIffTight(w.values, Room(c));
      LogOverConcat(w.log, Statements(c, texts));
    }
  }

  lemma PerformOverIff(c: Config, w: World, op: Op)
    requires Perform(c, w, op).ok
    ensures LogOver(Perform(c, w, op).world.log) <==> LogOver(w.log) || Tight(Flushed(c, w, op), Room(c))
  {
    if op.Flush? || Grown(w, op.row) != Perform(c, w, op).world {
      ExecuteOverIff(c, w);
    }
  }

  /** In a run whose calls all succeed some statement is over the query size if and only if
      some text that the run splits has a joint exactly where a cut runs out of room. */
  lemma {:induction false} StatementOverIffTight(c: Config, w: World, ops: seq<Op>)
    requires RunOps(c, w, ops).ok
    ensures LogOver(RunOps(c, w, ops).world.log) <==> LogOver(w.log) || TightRun(c, w, ops)
    decreases |ops|
  {
    if ops != [] {
      PerformOverIff(c, w, ops[0]);
      StatementOverIffTight(c, Perform(c, w, ops[0]).world, ops[1..]);
    }
  }

  lemma {:induction false} SendAllOver(c: Config, w: World, pieces: seq<string>)
    requires PrefixSize(c) < MAX_QUERY_SIZE && LogOver(SendAll(c, w, pieces).world.log)
    ensures LogOver(w.log) || SomeOver(pieces, Room(c))
    decreases |pieces|
  {
    if pieces != [] {
      OverCons(pieces[0], pieces[1..], Room(c));
      assert [pieces[0]] + pieces[1..] == pieces;
      LogOverConcat(w.log, [Statement(c, pieces[0])]);
      if c.answers(w.calls) { SendAllOver(c, SendOne(c, w, pieces[0]).world, pieces[1..]); }
    }
  }

  /** In a run with failures too, no statement is over the size unless some text is tight. */
  lemma {:induction false} OverOnlyIfTight(c: Config, w: World, ops: seq<Op>)
    requires LogOver(RunOps(c, w, ops).world.log)
    ensures LogOver(w.log) || TightRun(c, w, ops)
    decreases |ops|
  {
    if ops != [] {
      OverOnlyIfTight(c, Perform(c, w, ops[0]).world, ops[1..]);
      if LogOver(Perform(c, w, ops[0]).world.log) && PrefixSize(c) < MAX_QUERY_SIZE && w.values != "" {
        var texts := Cut(w.values, Room(c)).texts;
        OverIffTight(w.values, Room(c));
        if LogOver(SendAll(c, w, texts).world.log) { SendAllOver(c, w, texts); }
      }
    }
  }

  // ---- The bound is met ----

  /** The text of two rows, the first of which just overfills the room. */
  lemma TwoRowText(a: string, b: string, room: nat)
    requires |a| + 1 == room && |b| + 2 <= room
    ensures Cut(Append(Append("", a), b), room) == Pieces(["(" + a + ")", "(" + b + ")"], true)
  {
    var first, second := "(" + a + ")", "(" + b + ")";
    var text := first + ",(" + b + ")";
    assert text == (first + ",") + second;
    assert text[room] == ')' && text[room + 1] == ',' && text[room + 2] == '(';
    CutOnce(text, room, room + 2);
    assert text[..room + 2] == first + "," && text[room + 2..] == second;
    assert DropComma(first + ",") == first;
    CutOnce(second, room, |second|);
    assert second[..|second|] == second && second[|second|..] == "" && Cut("", room) == Pieces([], true);
    assert DropComma(second) == second;
    assert text == Append(Append("", a), b);
  }

  /** Two rows, the first one byte short of the room: it fills a statement that is one byte
      over the query size. */
  lemma OneByteOver(c: Config, a: string, b: string)
    requires |a| + 1 == Room(c) && |b| + 2 <= Room(c) && |c.query| + |a| + |b| + 5 <= c.maxPacket
    requires c.answers(0) && c.answers(1)
    ensures
      var r := RunOps(c, Fresh(c), [Add(a), Add(b), Flush]);
      && r.ok && r.world.log == [Statement(c, "(" + a + ")"), Statement(c, "(" + b + ")")]
      && |r.world.log[0]| == MAX_QUERY_SIZE + 1
  {
    var ops := [Add(a), Add(b), Flush];
    assert ops[1..] == [Add(b), Flush] && ops[1..][1..] == [Flush] && ops[1..][1..][1..] == [];
    var w := Grown(Grown(Fresh(c), a), b);
    assert w.values == Append(Append("", a), b) != "";
    TwoRowText(a, b, Room(c));
    var texts := ["(" + a + ")", "(" + b + ")"];
    SendTwo(c, w, texts[0], texts[1]);
    assert Execute(c, w).ok;
    RunOne(c, w, Flush);
    assert RunOps(c, Grown(Fresh(c), a), [Add(b), Flush]) == RunOps(c, w, [Flush]);
  }

  lemma RunOne(c: Config, w: World, op: Op)
    ensures RunOps(c, w, [op]) == Perform(c, w, op)
  {
    assert [op][1..] == [];
  }

  lemma SendTwo(c: Config, w: World, x: string, y: string)
    requires c.answers(w.calls) && c.answers(w.calls + 1)
    ensures SendAll(c, w, [x, y]).ok
    ensures SendAll(c, w, [x, y]).world == w.(calls := w.calls + 2, log := w.log + [Statement(c, x), Statement(c, y)])
  {
    assert [x, y] == [x] + [y] && [y] == [y] + [];
    SendFirst(c, w, x, [y]);
    SendFirst(c, SendOne(c, w, x).world, y, []);
  }

  /** For instance, rows without any joint, sent by a plain query. */
  lemma PieceOneByteOver()
    ensures
      var c := Config("INSERT INTO `t` VALUES ", [], 2 * MAX_QUERY_SIZE, Always);
      var a := seq(MAX_QUERY_SIZE - |c.query| - 1, _ => 'a');
      var log := RunOps(c, Fresh(c), [Add(a), Add("b"), Flush]).world.log;
      && Safe(a) && Safe("b")
      && |log| == 2 && |log[0]| == MAX_QUERY_SIZE + 1
  {
    var c := Config("INSERT INTO `t` VALUES ", [], 2 * MAX_QUERY_SIZE, Always);
    var a := seq(MAX_QUERY_SIZE - |c.query| - 1, _ => 'a');
    assert c.query[|c.query| - 1] == ' ';
    OneByteOver(c, a, "b");
  }

  function Always(call: nat): bool { true }
}
