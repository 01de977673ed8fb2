/** When the batched INSERT succeeds: the exact conditions on rows, packet and query size under
    which `addRow` and `execute` report success, for a database that answers every query. */
module BatchInsertOutcomes {
  import opened Wrappers
  import opened BatchInsert
  import opened BatchInsertTheorems

  // ---- When a text can be cut ----

  /** The last row fits the room with its parentheses, every other one up to its joint. */
  predicate RowsFit(rows: seq<string>, room: nat) {
    && (rows != [] ==> |rows[|rows| - 1]| + 2 <= room)
    && (forall i :: 0 <= i < |rows| - 1 ==> |rows[i]| + 1 <= room)
  }

  lemma {:induction false} RowInText(rows: seq<string>, i: nat)
    requires i < |rows|
    ensures |rows[i]| + 2 <= |Joined(rows)|
    decreases |rows|
  {
    if i < |rows| - 1 {
      RowInText(rows[..|rows| - 1], i);
    }
  }

  lemma RowsFitSplit(rows: seq<string>, room: nat, k: nat)
    requires 0 < k < |rows| && |Joined(rows[..k])| <= room + 1
    ensures RowsFit(rows, room) <==> RowsFit(rows[k..], room)
  {
    forall i | 0 <= i < k ensures |rows[i]| + 1 <= room {
      RowInText(rows[..k], i);
    }
    if RowsFit(rows[k..], room) {
      forall i | k <= i < |rows| - 1 ensures |rows[i]| + 1 <= room {
        assert rows[k..][i - k] == rows[i];
      }
    }
  }

  /** No cut within reach means that the first row is too long. */
  lemma NoCutFirstRow(rows: seq<string>, room: nat)
    requires AllSafe(rows) && rows != [] && Joined(rows) != "" && CutPosition(Joined(rows), room).None?
    ensures !RowsFit(rows, room)
  {
    if |rows| == 1 {
      assert rows[..0] == [];
    } else {
      BoundaryIsJoint(rows, 1);
      assert rows[..1] == [rows[0]];
      OneRowText(rows[0]);
    }
  }

  /** All of a text is cut exactly when its rows fit. */
  lemma {:induction false} CompleteIff(rows: seq<string>, room: nat)
    requires AllSafe(rows)
    ensures Cut(Joined(rows), room).complete <==> RowsFit(rows, room)
    decreases |rows|
  {
    JoinedNonempty(rows);
    if rows != [] {
      if CutPosition(Joined(rows), room).None? {
        NoCutFirstRow(rows, room);
      } else if |Joined(rows)| <= room {
        CutOnce(Joined(rows), room, |Joined(rows)|);
        forall i | 0 <= i < |rows| ensures |rows[i]| + 2 <= room { RowInText(rows, i); }
      } else {
        var k := CutOffRows(rows, room);
        CutShort(rows, room, k);
        CutTakesRows(rows, room, k);
        RowsFitSplit(rows, room, k);
        CompleteIff(rows[k..], room);
      }
    }
  }

  lemma CutShort(rows: seq<string>, room: nat, k: nat)
    requires rows != [] && Joined(rows) != "" && room < |Joined(rows)| && CutPosition(Joined(rows), room).Some?
    requires 0 < k <= |rows| && Joined(rows)[CutPosition(Joined(rows), room).value..] == Joined(rows[k..])
    ensures k < |rows|
  {
    var cut := CutPosition(Joined(rows), room).value;
    assert JointAt(Joined(rows), cut - 2);
    JoinedNonempty(rows[k..]);
    assert |Joined(rows)[cut..]| > 0;
  }

  /** A cut takes as many rows as it can: with the next one they would not fit the room. */
  lemma CutIsGreedy(rows: seq<string>, room: nat, k: nat)
    requires AllSafe(rows) && 0 < k < |rows| && room < |Joined(rows)|
    requires CutPosition(Joined(rows), room) == Some(|Joined(rows[..k])| + 1)
    ensures |Joined(rows[..k + 1])| > room
  {
    if k + 1 < |rows| {
      BoundaryIsJoint(rows, k + 1);
      assert rows[..k + 1][..k] == rows[..k];
    } else {
      assert rows[..k + 1] == rows;
    }
  }

  // ---- When execute succeeds ----

  ghost predicate AlwaysYes(c: Config) { forall n: nat :: c.answers(n) }

  lemma {:induction false} AllSent(c: Config, w: World, pieces: seq<string>)
    requires AlwaysYes(c)
    ensures SendAll(c, w, pieces).ok
    decreases |pieces|
  {
    if pieces != [] {
      AllSent(c, SendOne(c, w, pieces[0]).world, pieces[1..]);
    }
  }

  predicate CanSend(c: Config, rows: seq<string>) {
    rows == [] || (PrefixSize(c) < MAX_QUERY_SIZE && RowsFit(rows, Room(c)))
  }

  /** `execute` succeeds exactly when the statement without rows is below the query size and the
      pending rows fit what is left of it. */
  lemma ExecuteOkIff(c: Config, w: World, rows: seq<string>)
    requires AlwaysYes(c) && AllSafe(rows) && w.values == Joined(rows)
    ensures Execute(c, w).ok <==> CanSend(c, rows)
    ensures Execute(c, w).world.values == if Execute(c, w).ok then "" else w.values
  {
    JoinedNonempty(rows);
    if rows != [] && PrefixSize(c) < MAX_QUERY_SIZE {
      var pieces := Cut(w.values, Room(c));
      AllSent(c, w, pieces.texts);
      SendAllKeepsText(c, w, pieces.texts);
      CompleteIff(rows, Room(c));
    }
  }

  // ---- When addRow succeeds ----

  /** The packet that rows would make. */
  function PacketSize(c: Config, rows: seq<string>): nat { |c.query| + |Joined(rows)| }

  lemma PacketGrows(c: Config, rows: seq<string>, row: string)
    ensures PacketSize(c, rows + [row]) == PacketSize(c, rows) + |row| + (if rows == [] then 2 else 3)
    ensures PacketSize(c, [row]) == |c.query| + |row| + 2
  {
    JoinedSnoc(rows, row);
    JoinedNonempty(rows);
    OneRowText(row);
  }

  /** The builder holds these rows. */
  ghost predicate Holding(c: Config, w: World, rows: seq<string>) {
    AllSafe(rows) && w.values == Joined(rows) && LengthExact(c, w)
  }

  /** A row that fits the packet joins the pending ones, and nothing is sent. */
  lemma AddRowJoins(c: Config, w: World, rows: seq<string>, row: string)
    requires Holding(c, w, rows) && Safe(row) && PacketSize(c, rows + [row]) <= c.maxPacket
    ensures AddRow(c, w, row).ok && AddRow(c, w, row).world.log == w.log
    ensures Holding(c, AddRow(c, w, row).world, rows + [row])
  {
    PacketGrows(c, rows, row);
    JoinedNonempty(rows);
    JoinedSnoc(rows, row);
    GrownKeepsLength(c, w, row);
  }

  /** A row that does not fit together with the pending ones: these are sent first, all of them
      and in order, and the row is taken exactly when they can be sent and it fits a packet of
      its own; nothing is sent when nothing is pending. */
  lemma AddRowFlushes(c: Config, w: World, rows: seq<string>, row: string) returns (groups: seq<seq<string>>)
    requires AlwaysYes(c) && Holding(c, w, rows) && Safe(row) && PacketSize(c, rows + [row]) > c.maxPacket
    ensures AddRow(c, w, row).ok <==> rows != [] && CanSend(c, rows) && PacketSize(c, [row]) <= c.maxPacket
    ensures AddRow(c, w, row).ok ==> Holding(c, AddRow(c, w, row).world, [row])
    ensures rows == [] ==> AddRow(c, w, row).world == w
    ensures rows != [] && CanSend(c, rows) ==>
      && Flatten(groups) == rows && Fits(groups, Room(c))
      && AddRow(c, w, row).world.log == w.log + Statements(c, JoinedAll(groups))
    ensures rows != [] && !CanSend(c, rows) ==> AddRow(c, w, row).world.values == w.values
  {
    groups := [];
    PacketGrows(c, rows, row);
    JoinedNonempty(rows);
    ExecuteOkIff(c, w, rows);
    if rows != [] && CanSend(c, rows) {
      groups := SentGroups(c, w, rows);
      var w1 := Execute(c, w).world;
      ExecuteKeepsLength(c, w);
      GrownKeepsLength(c, w1, row);
      OneRowText(row);
    }
  }

  lemma SentGroups(c: Config, w: World, rows: seq<string>) returns (groups: seq<seq<string>>)
    requires AllSafe(rows) && w.values == Joined(rows) && rows != [] && Execute(c, w).ok
    ensures Flatten(groups) == rows && Fits(groups, Room(c))
    ensures Execute(c, w).world.log == w.log + Statements(c, JoinedAll(groups))
  {
    JoinedNonempty(rows);
    var left;
    groups, left := CutBetweenRows(rows, Room(c));
    assert left == [] && Flatten(groups) + [] == rows;
    SendAllLogs(c, w, JoinedAll(groups));
  }

  // ---- When a run succeeds ----

  predicate RowFits(c: Config, row: string) { |row| + 2 <= Room(c) }

  predicate AllRowsFit(c: Config, rows: seq<string>) { forall i :: 0 <= i < |rows| ==> RowFits(c, rows[i]) }

  predicate OpsFit(c: Config, ops: seq<Op>) {
    forall k :: 0 <= k < |ops| && ops[k].Add? ==> RowFits(c, ops[k].row)
  }

  predicate PacketsFit(c: Config, ops: seq<Op>) {
    forall k :: 0 <= k < |ops| && ops[k].Add? ==> PacketSize(c, [ops[k].row]) <= c.maxPacket
  }

  lemma FittingRowsAreSent(c: Config, rows: seq<string>)
    requires AllRowsFit(c, rows)
    ensures CanSend(c, rows)
  {
    if rows != [] { assert RowFits(c, rows[|rows| - 1]); }
  }

  /** One operation on fitting rows succeeds unless its row is too large for any packet. */
  lemma PerformOkIff(c: Config, w: World, rows: seq<string>, op: Op) returns (rows': seq<string>)
    requires AlwaysYes(c) && Holding(c, w, rows) && AllRowsFit(c, rows)
    requires op.Add? ==> Safe(op.row) && RowFits(c, op.row)
    ensures Perform(c, w, op).ok <==> (op.Add? ==> PacketSize(c, [op.row]) <= c.maxPacket)
    ensures Perform(c, w, op).ok ==> Holding(c, Perform(c, w, op).world, rows') && AllRowsFit(c, rows')
  {
    FittingRowsAreSent(c, rows);
    if op.Flush? {
      rows' := [];
      ExecuteOkIff(c, w, rows);
      ExecuteKeepsLength(c, w);
    } else if PacketSize(c, rows + [op.row]) <= c.maxPacket {
      rows' := rows + [op.row];
      AddRowJoins(c, w, rows, op.row);
      PacketGrows(c, rows, op.row);
    } else {
      rows' := [op.row];
      PacketGrows(c, rows, op.row);
      var groups := AddRowFlushes(c, w, rows, op.row);
    }
  }

  /** With a database that answers every query and rows that fit a statement, a run succeeds if
      and only if every row added fits a packet of its own. */
  lemma {:induction false} RunOkIff(c: Config, w: World, rows: seq<string>, ops: seq<Op>)
    requires AlwaysYes(c) && Holding(c, w, rows) && AllRowsFit(c, rows) && SafeOps(ops) && OpsFit(c, ops)
    ensures RunOps(c, w, ops).ok <==> PacketsFit(c, ops)
    decreases |ops|
  {
    if ops != [] {
      var rows' := PerformOkIff(c, w, rows, ops[0]);
      var t := Perform(c, w, ops[0]).world;
      if Perform(c, w, ops[0]).ok {
        RunOkIff(c, t, rows', ops[1..]);
        assert PacketsFit(c, ops) <==> PacketsFit(c, ops[1..]) by { PacketsFitTail(c, ops); }
      }
    }
  }

  lemma PacketsFitTail(c: Config, ops: seq<Op>)
    requires ops != []
    ensures PacketsFit(c, ops) <==>
      (ops[0].Add? ==> PacketSize(c, [ops[0].row]) <= c.maxPacket) && PacketsFit(c, ops[1..])
  {
    if PacketsFit(c, ops[1..]) && (ops[0].Add? ==> PacketSize(c, [ops[0].row]) <= c.maxPacket) {
      forall k | 0 <= k < |ops| && ops[k].Add? ensures PacketSize(c, [ops[k].row]) <= c.maxPacket {
        if k > 0 { assert ops[1..][k - 1] == ops[k]; }
      }
    }
  }

  /** So every such run that ends with an execute delivers every row, in order. */
  lemma EveryRowIsDelivered(c: Config, ops: seq<Op>)
    requires AlwaysYes(c) && SafeOps(ops) && OpsFit(c, ops) && PacketsFit(c, ops)
    requires ops != [] && ops[|ops| - 1].Flush?
    ensures exists groups :: Sent(c, RunOps(c, Fresh(c), ops).world.log, groups) && Flatten(groups) == RowsOf(ops)
  {
    RunOkIff(c, Fresh(c), [], ops);
    StatementsPartitionRows(c, ops);
  }

  // ---- The text of a statement ----

  /** A statement is the query, its rows, and the upsert clause, in this order. */
  lemma StatementParts(c: Config, piece: string)
    ensures
      var sql, at := Statement(c, piece), |c.query| + |Separator(c.query)|;
      && |sql| == PrefixSize(c) + |piece|
      && sql[..|c.query|] == c.query
      && sql[at..at + |piece|] == piece
      && sql[at + |piece|..] == UpsertClause(c.columns)
      && (at > 0 ==> sql[at - 1] == ' ')
  {
  }

  /** The rows can be read back from a statement. */
  lemma StatementInjective(c: Config, a: seq<string>, b: seq<string>)
    requires AllSafe(a) && AllSafe(b) && Statement(c, Joined(a)) == Statement(c, Joined(b))
    ensures a == b
  {
    StatementParts(c, Joined(a));
    StatementParts(c, Joined(b));
    JoinedInjective(a, b);
  }

  function UpsertItem(column: string): string { "`" + column + "` = VALUES(`" + column + "`)" }

  /** The upsert clause lists the columns in order, with a comma and a blank between two. */
  lemma {:induction false} UpsertListSnoc(columns: seq<string>, last: string)
    ensures UpsertList(columns + [last]) ==
      (if columns == [] then "" else UpsertList(columns) + ", ") + UpsertItem(last)
    decreases |columns|
  {
    var all := columns + [last];
    if columns == [] {
      assert all[1..] == [];
    } else {
      assert all[1..] == columns[1..] + [last];
      UpsertListSnoc(columns[1..], last);
    }
  }

  lemma UpsertClauseParts(columns: seq<string>)
    ensures columns == [] ==> UpsertClause(columns) == ""
    ensures columns != [] ==> UpsertClause(columns) == " ON DUPLICATE KEY UPDATE " + UpsertList(columns)
    ensures |columns| == 1 ==> UpsertList(columns) == UpsertItem(columns[0])
  {
    if |columns| == 1 { assert columns[1..] == []; }
  }
}
