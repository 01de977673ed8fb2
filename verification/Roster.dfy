/** A creature list with two indexes, by id and by lower-case name, kept under swap-remove.
    Monsters and NPCs are each kept in one. */
module Roster {
  import opened Wrappers

  datatype Creature = Creature(id: nat, name: string)

  datatype Index = Index(list: seq<Creature>, byId: map<nat, nat>, byName: map<string, nat>)

  const EMPTY := Index([], map[], map[])

  /** The id index is exactly the position map. */
  ghost predicate IdsExact(x: Index) {
    && (forall i :: 0 <= i < |x.list| ==> x.list[i].id in x.byId && x.byId[x.list[i].id] == i)
    && (forall id :: id in x.byId ==> x.byId[id] < |x.list| && x.list[x.byId[id]].id == id)
  }

  /** Every name entry points in bounds to a holder of that name. */
  ghost predicate NamesSound(x: Index) {
    forall n :: n in x.byName ==> x.byName[n] < |x.list| && x.list[x.byName[n]].name == n
  }

  ghost predicate Consistent(x: Index) { IdsExact(x) && NamesSound(x) }

  function Add(x: Index, c: Creature): Index {
    Index(x.list + [c], x.byId[c.id := |x.list|], x.byName[c.name := |x.list|])
  }

  /** Removal by id; the name of the removed creature is erased even when others bear it. */
  function Remove(x: Index, c: Creature): Index
    requires c.id in x.byId ==> x.byId[c.id] < |x.list|
  {
    if c.id !in x.byId then x
    else
      var index, last := x.byId[c.id], |x.list| - 1;
      var ids, names := x.byId - {c.id}, x.byName - {c.name};
      if index == last then Index(x.list[..last], ids, names)
      else
        var moved := x.list[last];
        Index(x.list[..last][index := moved], ids[moved.id := index], names[moved.name := index])
  }

  /** The mutable list with its indexes. */
  class CreatureRoster {
    var list: seq<Creature>
    var byId: map<nat, nat>
    var byName: map<string, nat>

    ghost function View(): Index reads this { Index(list, byId, byName) }

    constructor ()
      ensures View() == EMPTY
    {
      list, byId, byName := [], map[], map[];
    }

    method AddCreature(c: Creature)
      modifies this
      ensures View() == Add(old(View()), c)
    {
      list := list + [c];
      var index := |list| - 1;
      byName := byName[c.name := index];
      byId := byId[c.id := index];
    }

    method RemoveCreature(c: Creature)
      requires IdsExact(View())
      modifies this
      ensures View() == Remove(old(View()), c)
    {
      if c.id in byId {
        var index := byId[c.id];
        byName := byName - {c.name};
        byId := byId - {c.id};
        if index != |list| - 1 {
          list := list[index := list[|list| - 1]][|list| - 1 := list[index]];
          var moved := list[index];
          byName := byName[moved.name := index];
          byId := byId[moved.id := index];
        }
        list := list[..|list| - 1];
      }
    }

    /** `getMonsterByID` and `getNpcByID`: with exact ids, a creature is found exactly when it
        is listed. */
    method GetById(id: nat) returns (r: Option<Creature>)
      requires IdsExact(View())
      ensures r.Some? ==> r.value in list && r.value.id == id
      ensures id != 0 ==> (r.Some? <==> exists i :: 0 <= i < |list| && list[i].id == id)
      ensures id == 0 ==> r == None
    {
      if id == 0 {
        return None;
      }
      if id !in byId {
        return None;
      }
      if byId[id] >= |list| {
        return None;
      }
      return Some(list[byId[id]]);
    }

    /** The name lookups: what is found is listed and bears the name. */
    method GetByName(name: string) returns (r: Option<Creature>)
      requires NamesSound(View())
      ensures r.Some? ==> r.value in list && r.value.name == name
      ensures r.Some? <==> name in byName
    {
      if name !in byName {
        return None;
      }
      return Some(list[byName[name]]);
    }
  }

  // ---- Runs ----

  datatype Op = AddOp(c: Creature) | RemoveOp(c: Creature)

  predicate Listed(x: Index, id: nat) { exists i :: 0 <= i < |x.list| && x.list[i].id == id }

  /** Ids are fresh when added, and a creature keeps its name while it is listed. */
  predicate Proper(x: Index, op: Op) {
    match op
    case AddOp(c) => c.id != 0 && !Listed(x, c.id)
    case RemoveOp(c) => forall i :: 0 <= i < |x.list| && x.list[i].id == c.id ==> x.list[i].name == c.name
  }

  lemma AddKeeps(x: Index, c: Creature)
    requires Consistent(x) && !Listed(x, c.id)
    ensures Consistent(Add(x, c))
  {
    forall n | n in Add(x, c).byName
      ensures Add(x, c).byName[n] < |x.list| + 1 && Add(x, c).list[Add(x, c).byName[n]].name == n
    {
      if n != c.name { assert n in x.byName; }
    }
    assert c.id !in x.byId;
  }

  lemma RemoveKeeps(x: Index, c: Creature)
    requires Consistent(x) && Proper(x, RemoveOp(c))
    ensures Consistent(Remove(x, c))
  {
    if c.id in x.byId {
      var index, last := x.byId[c.id], |x.list| - 1;
      var y := Remove(x, c);
      assert x.list[index].name == c.name;
      forall i | 0 <= i < |y.list| ensures y.list[i].id in y.byId && y.byId[y.list[i].id] == i {
        assert x.byId[x.list[i].id] == i;
        assert x.byId[x.list[last].id] == last;
      }
      forall id | id in y.byId ensures y.byId[id] < |y.list| && y.list[y.byId[id]].id == id {
        assert id in x.byId;
        assert x.byId[x.list[last].id] == last;
      }
      forall n | n in y.byName ensures y.byName[n] < |y.list| && y.list[y.byName[n]].name == n {
        if index == last || n != x.list[last].name { assert n in x.byName; }
      }
    }
  }

  /** The list after a removal: the removed creature is gone and everyone else stays. */
  lemma RemoveTakesOne(x: Index, c: Creature, d: Creature)
    requires Consistent(x) && Proper(x, RemoveOp(c))
    ensures d in Remove(x, c).list <==> d in x.list && d.id != c.id
  {
    if c.id in x.byId {
      var index, last := x.byId[c.id], |x.list| - 1;
      var y := Remove(x, c);
      if d in x.list && d.id != c.id {
        var i: nat :| i < |x.list| && x.list[i] == d;
        assert i != index;
        assert y.list[if i == last then index else i] == d;
      }
      if d in y.list {
        var i: nat :| i < |y.list| && y.list[i] == d;
        var j := if i == index then last else i;
        assert x.list[j] == d && x.byId[x.list[j].id] == j;
      }
    } else if d in x.list {
      var i: nat :| i < |x.list| && x.list[i] == d;
      assert x.byId[x.list[i].id] == i;
    }
  }

  predicate ProperRun(x: Index, ops: seq<Op>)
    decreases |ops|
  {
    ops == [] ||
    (Proper(x, ops[0])
     && (ops[0].RemoveOp? && ops[0].c.id in x.byId ==> x.byId[ops[0].c.id] < |x.list|)
     && ProperRun(Perform(x, ops[0]), ops[1..]))
  }

  function Perform(x: Index, op: Op): Index
    requires op.RemoveOp? && op.c.id in x.byId ==> x.byId[op.c.id] < |x.list|
  {
    match op
    case AddOp(c) => Add(x, c)
    case RemoveOp(c) => Remove(x, c)
  }

  function After(x: Index, ops: seq<Op>): Index
    requires ProperRun(x, ops)
    decreases |ops|
  {
    if ops == [] then x else After(Perform(x, ops[0]), ops[1..])
  }

  /** Over any run of adds and removes the id index is exactly the position map, and every
      name entry points to a live holder of its name, also when names repeat. */
  lemma {:induction false} RunKeepsConsistent(x: Index, ops: seq<Op>)
    requires Consistent(x) && ProperRun(x, ops)
    ensures Consistent(After(x, ops))
    decreases |ops|
  {
    if ops != [] {
      match ops[0]
      case AddOp(c) => AddKeeps(x, c);
        RunKeepsConsistent(Perform(x, ops[0]), ops[1..]);
      case RemoveOp(c) => RemoveKeeps(x, c);
        RunKeepsConsistent(Perform(x, ops[0]), ops[1..]);
    }
  }

  /** The index never points anywhere it should not when a removal looks it up. */
  lemma RemovalInBounds(x: Index, c: Creature)
    requires Consistent(x)
    ensures c.id in x.byId <==> Listed(x, c.id)
    ensures c.id in x.byId ==> x.byId[c.id] < |x.list|
  {
    if c.id in x.byId { assert x.list[x.byId[c.id]].id == c.id; }
  }

  // ---- Names need not be complete ----

  ghost predicate NamesComplete(x: Index) {
    forall i :: 0 <= i < |x.list| ==> x.list[i].name in x.byName
  }

  /** A removal leaves every listed name findable exactly when no one else bears the name of
      the removed creature, or the last creature in the list does and is moved up. */
  lemma RemoveCompleteIff(x: Index, c: Creature)
    requires Consistent(x) && NamesComplete(x) && Proper(x, RemoveOp(c)) && c.id in x.byId
    ensures
      var index, last := x.byId[c.id], |x.list| - 1;
      NamesComplete(Remove(x, c)) <==>
        (forall i :: 0 <= i < |x.list| && i != index ==> x.list[i].name != c.name)
        || (index != last && x.list[last].name == c.name)
  {
    var index, last := x.byId[c.id], |x.list| - 1;
    var y := Remove(x, c);
    assert x.list[index].name == c.name;
    if NamesComplete(y) && !(index != last && x.list[last].name == c.name) {
      forall i | 0 <= i < |x.list| && i != index ensures x.list[i].name != c.name {
        var j := if i == last then index else i;
        assert y.list[j].name in y.byName && y.list[j] == x.list[i];
      }
    }
  }

  /** Two rats and a cat: after the second rat is gone, the first one is not found by name. */
  lemma RepeatedNameIsLost()
    ensures
      var x := Add(Add(Add(EMPTY, Creature(1, "rat")), Creature(2, "rat")), Creature(3, "cat"));
      var y := Remove(x, Creature(2, "rat"));
      Creature(1, "rat") in y.list && "rat" !in y.byName
  {
    var x := Add(Add(Add(EMPTY, Creature(1, "rat")), Creature(2, "rat")), Creature(3, "cat"));
    assert x.list == [Creature(1, "rat"), Creature(2, "rat"), Creature(3, "cat")];
    assert "cat"[0] != "rat"[0];
    assert Remove(x, Creature(2, "rat")).list[0] == Creature(1, "rat");
  }

  /** An added creature is found by its id and by its name, and whoever was listed stays
      findable by name. */
  lemma AddIsFound(x: Index, c: Creature)
    requires Consistent(x) && !Listed(x, c.id)
    ensures
      var y := Add(x, c);
      && c.id in y.byId && y.byId[c.id] < |y.list| && y.list[y.byId[c.id]] == c
      && c.name in y.byName && y.byName[c.name] < |y.list| && y.list[y.byName[c.name]] == c
      && (forall d :: d in y.list <==> d in x.list || d == c)
      && (NamesComplete(x) ==> NamesComplete(y))
  {
  }

  /** No two listed creatures bear the same name. */
  ghost predicate NamesDistinct(x: Index) {
    forall i, j :: 0 <= i < j < |x.list| ==> x.list[i].name != x.list[j].name
  }

  predicate Listing(x: Index, name: string) { exists i :: 0 <= i < |x.list| && x.list[i].name == name }

  /** A run in which no name is added while it is listed. */
  predicate FreshNames(x: Index, ops: seq<Op>)
    requires ProperRun(x, ops)
    decreases |ops|
  {
    ops == [] ||
    ((ops[0].AddOp? ==> !Listing(x, ops[0].c.name)) && FreshNames(Perform(x, ops[0]), ops[1..]))
  }

  lemma RemoveKeepsDistinct(x: Index, c: Creature)
    requires Consistent(x) && NamesComplete(x) && NamesDistinct(x) && Proper(x, RemoveOp(c))
    ensures NamesComplete(Remove(x, c)) && NamesDistinct(Remove(x, c))
  {
    if c.id in x.byId {
      assert x.list[x.byId[c.id]].name == c.name;
      RemoveCompleteIff(x, c);
    }
  }

  /** While names do not repeat, the name index is complete: over any run of adds and removes
      every listed creature is found by its name. */
  lemma {:induction false} DistinctNamesAreFound(x: Index, ops: seq<Op>)
    requires Consistent(x) && NamesComplete(x) && NamesDistinct(x) && ProperRun(x, ops) && FreshNames(x, ops)
    ensures
      var y := After(x, ops);
      && Consistent(y) && NamesComplete(y) && NamesDistinct(y)
      && forall i :: 0 <= i < |y.list| ==> y.list[i].name in y.byName && y.byName[y.list[i].name] == i
    decreases |ops|
  {
    if ops != [] {
      var y := Perform(x, ops[0]);
      match ops[0] {
        case AddOp(c) =>
          AddKeeps(x, c);
          AddIsFound(x, c);
        case RemoveOp(c) =>
          RemoveKeeps(x, c);
          RemoveKeepsDistinct(x, c);
      }
      DistinctNamesAreFound(y, ops[1..]);
    }
  }
}
