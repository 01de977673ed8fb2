/** The batched INSERT builder: rows are joined into one text, which is cut at row joints
    into statements that fit the query size. */
module BatchInsert {
  import opened Wrappers

  const MAX_QUERY_SIZE: nat := 8 * 1024 * 1024

  // ---- Text ----

  /** The text `),(` stands at position `m`. */
  predicate JointAt(text: string, m: nat) {
    m + 3 <= |text| && text[m] == ')' && text[m + 1] == ',' && text[m + 2] == '('
  }

  /** `rfind("),(", pos)`: the last joint that starts at or before `pos`. */
  function LastJoint(text: string, pos: nat): (r: Option<nat>)
    ensures r.Some? ==> r.value <= pos && JointAt(text, r.value)
    ensures forall m: nat :: m <= pos && JointAt(text, m) ==> r.Some? && m <= r.value
  {
    if JointAt(text, pos) then Some(pos)
    else if pos == 0 then None
    else LastJoint(text, pos - 1)
  }

  /** Where the next statement ends; `None` when no joint is in reach. */
  function CutPosition(text: string, room: nat): (r: Option<nat>)
    requires text != ""
    ensures r.Some? ==> 0 < r.value <= |text|
  {
    if room < |text| then
      var j := LastJoint(text, room);
      if j.None? then None else Some(j.value + 2)
    else Some(|text|)
  }

  function DropComma(piece: string): string {
    if piece != "" && piece[|piece| - 1] == ',' then piece[..|piece| - 1] else piece
  }

  /** The values texts of the statements; `complete` when no text was left without a cut. */
  datatype Pieces = Pieces(texts: seq<string>, complete: bool)

  function Cut(text: string, room: nat): Pieces
    decreases |text|
  {
    if text == "" then Pieces([], true)
    else
      var c := CutPosition(text, room);
      if c.None? then Pieces([], false)
      else
        var rest := Cut(text[c.value..], room);
        Pieces([DropComma(text[..c.value])] + rest.texts, rest.complete)
  }

  lemma CutOnce(text: string, room: nat, cut: nat)
    requires text != "" && CutPosition(text, room) == Some(cut)
    ensures Cut(text, room) ==
      Pieces([DropComma(text[..cut])] + Cut(text[cut..], room).texts, Cut(text[cut..], room).complete)
  {
  }

  function UpsertList(columns: seq<string>): string {
    if columns == [] then ""
    else "`" + columns[0] + "` = VALUES(`" + columns[0] + "`)"
         + (if |columns| > 1 then ", " else "") + UpsertList(columns[1..])
  }

  function UpsertClause(columns: seq<string>): string {
    if columns == [] then "" else " ON DUPLICATE KEY UPDATE " + UpsertList(columns)
  }

  function Separator(query: string): string {
    if query != "" && query[|query| - 1] == ' ' then "" else " "
  }

  function Statement(c: Config, piece: string): string {
    c.query + Separator(c.query) + piece + UpsertClause(c.columns)
  }

  function PrefixSize(c: Config): nat {
    |c.query| + |Separator(c.query)| + |UpsertClause(c.columns)|
  }

  /** The room for values in a statement. */
  function Room(c: Config): nat {
    if PrefixSize(c) < MAX_QUERY_SIZE then MAX_QUERY_SIZE - PrefixSize(c) else 0
  }

  lemma SeparatorSize(query: string)
    ensures |Separator(query)| == if query != "" && query[|query| - 1] == ' ' then 0 else 1
    ensures Separator(query) == "" <==> query != "" && query[|query| - 1] == ' '
  {
  }

  // ---- The builder as a function of its inputs ----

  /** `answers(n)` is what the database says to the n-th query. */
  datatype Config = Config(query: string, columns: seq<string>, maxPacket: nat, answers: nat -> bool)

  /** The builder's text and length, and the queries made: how many, and which succeeded. */
  datatype World = World(values: string, length: nat, calls: nat, log: seq<string>)

  datatype Reply = Reply(world: World, ok: bool)

  function SendOne(c: Config, w: World, piece: string): Reply {
    var w1 := w.(calls := w.calls + 1);
    if c.answers(w.calls) then Reply(w1.(log := w.log + [Statement(c, piece)]), true) else Reply(w1, false)
  }

  /** Sends the pieces in order up to the first query that fails. */
  function SendAll(c: Config, w: World, pieces: seq<string>): Reply
    decreases |pieces|
  {
    if pieces == [] then Reply(w, true)
    else
      var r := SendOne(c, w, pieces[0]);
      if r.ok then SendAll(c, r.world, pieces[1..]) else r
  }

  lemma SendFirst(c: Config, w: World, piece: string, rest: seq<string>)
    ensures SendAll(c, w, [piece] + rest) ==
      var r := SendOne(c, w, piece);
      if r.ok then SendAll(c, r.world, rest) else r
  {
    assert ([piece] + rest)[1..] == rest;
  }

  function Execute(c: Config, w: World): Reply {
    if w.values == "" then Reply(w, true)
    else if PrefixSize(c) >= MAX_QUERY_SIZE then Reply(w, false)
    else
      var pieces := Cut(w.values, Room(c));
      var r := SendAll(c, w, pieces.texts);
      if r.ok && pieces.complete then Reply(r.world.(values := "", length := |c.query|), true)
      else Reply(r.world, false)
  }

  function Append(values: string, row: string): string {
    if values == "" then "(" + row + ")" else values + ",(" + row + ")"
  }

  function Grown(w: World, row: string): World {
    w.(values := Append(w.values, row), length := w.length + |row| + (if w.values == "" then 2 else 3))
  }

  function AddRow(c: Config, w: World, row: string): Reply {
    var added := if w.values == "" then |row| + 2 else |row| + 3;
    if w.length + added <= c.maxPacket then Reply(Grown(w, row), true)
    else if w.values == "" then Reply(w, false)
    else
      var r := Execute(c, w);
      if !r.ok || r.world.length + |row| + 2 > c.maxPacket then Reply(r.world, false)
      else Reply(Grown(r.world, row), true)
  }

  // ---- The objects ----

  class Database {
    const maxPacketSize: nat
    const answers: nat -> bool
    var calls: nat
    var log: seq<string>

    constructor (maxPacketSize: nat, answers: nat -> bool)
      ensures this.maxPacketSize == maxPacketSize && this.answers == answers
      ensures calls == 0 && log == []
    {
      this.maxPacketSize, this.answers := maxPacketSize, answers;
      calls, log := 0, [];
    }

    method ExecuteQuery(sql: string) returns (ok: bool)
      modifies this
      ensures ok == answers(old(calls)) && calls == old(calls) + 1
      ensures log == if ok then old(log) + [sql] else old(log)
    {
      ok := answers(calls);
      calls := calls + 1;
      if ok { log := log + [sql]; }
    }
  }

  class DBInsert {
    const db: Database
    const query: string
    var upsertColumns: seq<string>
    var values: string
    var length: nat

    ghost function Cfg(): Config
      reads this
    {
      Config(query, upsertColumns, db.maxPacketSize, db.answers)
    }

    ghost function View(): World
      reads this, db
    {
      World(values, length, db.calls, db.log)
    }

    constructor (db: Database, insertQuery: string)
      ensures this.db == db && query == insertQuery && upsertColumns == []
      ensures View() == World("", |insertQuery|, db.calls, db.log)
    {
      this.db, query := db, insertQuery;
      upsertColumns, values, length := [], "", |insertQuery|;
    }

    method Upsert(columns: seq<string>)
      modifies this`upsertColumns
      ensures upsertColumns == columns
    {
      upsertColumns := columns;
    }

    method UpsertText() returns (text: string)
      ensures text == UpsertClause(upsertColumns)
    {
      text := "";
      if upsertColumns != [] {
        text := " ON DUPLICATE KEY UPDATE ";
        var i := 0;
        while i < |upsertColumns|
          invariant i <= |upsertColumns|
          invariant text + UpsertList(upsertColumns[i..]) == UpsertClause(upsertColumns)
        {
          ghost var tail := upsertColumns[i..];
          assert tail[0] == upsertColumns[i] && tail[1..] == upsertColumns[i + 1..];
          ghost var before := text;
          var column := "`" + upsertColumns[i] + "` = VALUES(`" + upsertColumns[i] + "`)";
          text := text + column;
          if i + 1 < |upsertColumns| {
            text := text + ", ";
          }
          assert before + UpsertList(tail) == text + UpsertList(tail[1..]);
          i := i + 1;
        }
        assert upsertColumns[i..] == [];
        assert text + "" == text;
      }
    }

    /** The cut at the start of the splitting loop. */
    static method TakePiece(currentBatch: string, room: nat) returns (found: bool, piece: string, rest: string)
      requires currentBatch != ""
      ensures !found ==> Cut(currentBatch, room) == Pieces([], false)
      ensures found ==> |rest| < |currentBatch|
      ensures found ==> Cut(currentBatch, room) == Pieces([piece] + Cut(rest, room).texts, Cut(rest, room).complete)
    {
      var cutPos := room;
      if cutPos < |currentBatch| {
        var joint := LastJoint(currentBatch, cutPos);
        if joint.None? {
          return false, "", "";
        }
        cutPos := joint.value + 2;
      } else {
        cutPos := |currentBatch|;
      }
      piece := currentBatch[..cutPos];
      if piece != "" && piece[|piece| - 1] == ',' {
        piece := piece[..|piece| - 1];
      }
      found, rest := true, currentBatch[cutPos..];
      CutOnce(currentBatch, room, cutPos);
    }

    /** Builds one statement and executes it. */
    method SendPiece(batchValues: string, baseHasSpace: bool, upsertQuery: string) returns (ok: bool)
      requires upsertQuery == UpsertClause(upsertColumns) && baseHasSpace == (Separator(query) == "")
      modifies db
      ensures Reply(View(), ok) == SendOne(old(Cfg()), old(View()), batchValues)
    {
      var sql := query + (if baseHasSpace then "" else " ") + batchValues + upsertQuery;
      ok := db.ExecuteQuery(sql);
    }

    /** One turn of the splitting loop of `execute`. */
    method SendNext(currentBatch: string, room: nat, baseHasSpace: bool, upsertQuery: string)
      returns (ok: bool, rest: string)
      requires currentBatch != ""
      requires upsertQuery == UpsertClause(upsertColumns) && baseHasSpace == (Separator(query) == "")
      modifies db
      ensures values == old(values) && Cfg() == old(Cfg())
      ensures
        var pieces := Cut(currentBatch, room);
        var all := SendAll(old(Cfg()), old(View()), pieces.texts);
        if ok then
          var left := Cut(rest, room);
          && |rest| < |currentBatch| && left.complete == pieces.complete
          && SendAll(old(Cfg()), View(), left.texts) == all
        else
          View() == all.world && !(all.ok && pieces.complete)
    {
      var batchValues;
      ok, batchValues, rest := TakePiece(currentBatch, room);
      if !ok {
        return;
      }
      SendFirst(Cfg(), View(), batchValues, Cut(rest, room).texts);
      ok := SendPiece(batchValues, baseHasSpace, upsertQuery);
    }

    /** The splitting loop of `execute`. */
    method SendBatches(room: nat, baseHasSpace: bool, upsertQuery: string) returns (ok: bool)
      requires upsertQuery == UpsertClause(upsertColumns) && baseHasSpace == (Separator(query) == "")
      modifies db
      ensures
        var pieces := Cut(values, room);
        var r := SendAll(old(Cfg()), old(View()), pieces.texts);
        View() == r.world && ok == (r.ok && pieces.complete)
    {
      var currentBatch := values;
      ghost var c := Cfg();
      ghost var all := Cut(values, room);
      ghost var goal := SendAll(c, View(), all.texts);
      while currentBatch != ""
        invariant values == old(values) && Cfg() == c
        invariant all.complete == Cut(currentBatch, room).complete
        invariant goal == SendAll(c, View(), Cut(currentBatch, room).texts)
        decreases |currentBatch|
      {
        var sent, rest := SendNext(currentBatch, room, baseHasSpace, upsertQuery);
        if !sent {
          return false;
        }
        currentBatch := rest;
      }
      return true;
    }

    /** The statements of `execute`, built and sent. */
    method SendValues() returns (ok: bool)
      modifies db
      ensures PrefixSize(old(Cfg())) >= MAX_QUERY_SIZE ==> !ok && View() == old(View())
      ensures PrefixSize(old(Cfg())) < MAX_QUERY_SIZE ==>
        var pieces := Cut(values, Room(old(Cfg())));
        var r := SendAll(old(Cfg()), old(View()), pieces.texts);
        View() == r.world && ok == (r.ok && pieces.complete)
    {
      var upsertQuery := UpsertText();
      var baseHasSpace := query != "" && query[|query| - 1] == ' ';
      var separatorSize := if baseHasSpace then 0 else 1;
      var queryPrefixSize := |query| + separatorSize + |upsertQuery|;
      SeparatorSize(query);
      if queryPrefixSize >= MAX_QUERY_SIZE {
        return false;
      }
      var room := MAX_QUERY_SIZE - queryPrefixSize;
      assert room == Room(Cfg());
      ok := SendBatches(room, baseHasSpace, upsertQuery);
    }

    method Flush() returns (ok: bool)
      modifies this`values, this`length, db
      ensures Reply(View(), ok) == Execute(old(Cfg()), old(View()))
    {
      if values == "" {
        return true;
      }
      ok := SendValues();
      if ok {
        values := "";
        length := |query|;
      }
    }

    method AddRowText(row: string) returns (ok: bool)
      modifies this`values, this`length, db
      ensures Reply(View(), ok) == AddRow(old(Cfg()), old(View()), row)
    {
      var addedLength := if values == "" then |row| + 2 else |row| + 3;
      if length + addedLength > db.maxPacketSize {
        if values == "" {
          return false;
        }
        var flushed := Flush();
        if !flushed {
          return false;
        }
        addedLength := |row| + 2;
        if length + addedLength > db.maxPacketSize {
          return false;
        }
      }
      length := length + addedLength;
      if values == "" {
        values := "(" + row + ")";
      } else {
        values := values + ",(" + row + ")";
      }
      return true;
    }
  }
}
