/** The condition list of a creature and the cache of how many conditions of each type it
    holds. */
module Conditions {
  import opened Wrappers

  type ConditionType = nat

  const CONDITION_COUNT: nat := 40
  const PARALYZE: ConditionType := 6
  const COUNTER_RANGE: nat := 0x1_0000

  datatype Condition = Condition(typ: ConditionType, id: nat, subId: nat)

  /** How many conditions of a type the list holds. */
  function Count(list: seq<Condition>, t: ConditionType): nat {
    if list == [] then 0 else Count(list[..|list| - 1], t) + (if list[|list| - 1].typ == t then 1 else 0)
  }

  lemma {:induction false} CountConcat(a: seq<Condition>, b: seq<Condition>, t: ConditionType)
    ensures Count(a + b, t) == Count(a, t) + Count(b, t)
    decreases |b|
  {
    if b == [] {
      assert a + b == a;
    } else {
      assert (a + b)[..|a + b| - 1] == a + b[..|b| - 1];
      CountConcat(a, b[..|b| - 1], t);
    }
  }

  /** What a removal or a query looks for. */
  datatype Pattern =
    | OfType(t: ConditionType)
    | OfTypeAndId(t: ConditionType, id: nat)
    | Exactly(t: ConditionType, id: nat, subId: nat)

  predicate Matches(p: Pattern, c: Condition) {
    && c.typ == p.t
    && (p.OfTypeAndId? || p.Exactly? ==> c.id == p.id)
    && (p.Exactly? ==> c.subId == p.subId)
  }

  predicate Any(list: seq<Condition>, p: Pattern) {
    exists i :: 0 <= i < |list| && Matches(p, list[i])
  }

  /** The conditions a removal keeps, in order. */
  function Without(list: seq<Condition>, p: Pattern): seq<Condition> {
    if list == [] then []
    else Without(list[..|list| - 1], p) + (if Matches(p, list[|list| - 1]) then [] else [list[|list| - 1]])
  }

  lemma {:induction false} CountsAny(list: seq<Condition>, t: ConditionType)
    ensures Count(list, t) > 0 <==> Any(list, OfType(t))
    ensures Count(list, t) <= |list|
  {
    if list != [] {
      var n := |list| - 1;
      CountsAny(list[..n], t);
      if Any(list, OfType(t)) && list[n].typ != t {
        var i :| 0 <= i < |list| && Matches(OfType(t), list[i]);
        assert list[..n][i] == list[i];
      }
    }
  }

  lemma AnyOfType(list: seq<Condition>, p: Pattern)
    requires Any(list, p)
    ensures Any(list, OfType(p.t))
  {
    var i :| 0 <= i < |list| && Matches(p, list[i]);
    assert Matches(OfType(p.t), list[i]);
  }

  lemma {:induction false} WithoutNothing(list: seq<Condition>, p: Pattern)
    requires !Any(list, p)
    ensures Without(list, p) == list
  {
    if list != [] {
      var front, last := list[..|list| - 1], list[|list| - 1];
      assert list == front + [last];
      AnySnoc(front, last, p);
      WithoutNothing(front, p);
    }
  }

  lemma WithoutSnoc(list: seq<Condition>, c: Condition, p: Pattern)
    ensures Without(list + [c], p) == Without(list, p) + (if Matches(p, c) then [] else [c])
  {
    assert (list + [c])[..|list|] == list;
  }

  lemma AnySnoc(list: seq<Condition>, c: Condition, p: Pattern)
    ensures Any(list + [c], p) <==> Any(list, p) || Matches(p, c)
  {
    var all := list + [c];
    if Any(list, p) {
      var i :| 0 <= i < |list| && Matches(p, list[i]);
      assert Matches(p, all[i]);
    }
    if Matches(p, c) { assert Matches(p, all[|list|]); }
  }

  lemma AnyPrefix(a: seq<Condition>, b: seq<Condition>, p: Pattern)
    requires Any(a, p)
    ensures Any(a + b, p)
  {
    var i :| 0 <= i < |a| && Matches(p, a[i]);
    assert Matches(p, (a + b)[i]);
  }

  class ConditionHolder {
    var conditions: seq<Condition>
    var counts: seq<nat>         // 16-bit counters, one for each type

    /** The cache is exact: every type has its counter, and no counter has wrapped. */
    ghost predicate Exact()
      reads this
    {
      && |counts| == CONDITION_COUNT && |conditions| < COUNTER_RANGE
      && (forall c :: c in conditions ==> c.typ < CONDITION_COUNT)
      && (forall t :: 0 <= t < CONDITION_COUNT ==> counts[t] == Count(conditions, t))
    }

    constructor ()
      ensures conditions == [] && Exact()
    {
      conditions := [];
      counts := seq(CONDITION_COUNT, _ => 0);
    }

    predicate HasTracked(t: ConditionType)
      reads this
    {
      t < |counts| && counts[t] > 0
    }

    method TrackAdded(t: ConditionType)
      requires |counts| == CONDITION_COUNT
      modifies this`counts
      ensures counts ==
        if t < CONDITION_COUNT then old(counts)[t := (old(counts)[t] + 1) % COUNTER_RANGE] else old(counts)
    {
      if t < |counts| {
        counts := counts[t := (counts[t] + 1) % COUNTER_RANGE];
      }
    }

    method TrackRemoved(t: ConditionType)
      requires |counts| == CONDITION_COUNT
      modifies this`counts
      ensures counts ==
        if t < CONDITION_COUNT && old(counts)[t] > 0 then old(counts)[t := old(counts)[t] - 1] else old(counts)
    {
      if t < |counts| && counts[t] > 0 {
        counts := counts[t := counts[t] - 1];
      }
    }

    /** The cache answers as the list does. */
    lemma TrackedIffListed(t: ConditionType)
      requires Exact()
      ensures HasTracked(t) <==> Any(conditions, OfType(t))
    {
      CountsAny(conditions, t);
    }

    /** The list part of `addCondition`, for a condition that has started. */
    method Append(c: Condition)
      requires Exact() && c.typ < CONDITION_COUNT && |conditions| + 1 < COUNTER_RANGE
      modifies this
      ensures Exact() && conditions == old(conditions) + [c]
    {
      CountsAny(conditions, c.typ);
      forall t ensures Count(conditions + [c], t) == Count(conditions, t) + (if c.typ == t then 1 else 0) {
        assert (conditions + [c])[..|conditions|] == conditions;
      }
      conditions := conditions + [c];
      TrackAdded(c.typ);
    }

    /** The erasing loop of the removals by type: `stop` is the early return for a paralysed
        creature that is still walking. */
    method EraseMatching(p: Pattern, stop: bool) returns (stopped: bool)
      requires Exact()
      modifies this
      ensures Exact()
      ensures stopped <==> stop && Any(old(conditions), p)
      ensures conditions == if stopped then old(conditions) else Without(old(conditions), p)
    {
      var it := 0;
      ghost var list, kept, rest := conditions, [], conditions;
      ghost var seen: seq<Condition> := [];
      while it < |conditions|
        invariant Exact()
        invariant list == seen + rest && conditions == kept + rest && it == |kept|
        invariant kept == Without(seen, p)
        invariant stop ==> kept == seen && !Any(seen, p)
        decreases |rest|
      {
        var c := conditions[it];
        assert c == rest[0] && rest == [c] + rest[1..];
        WithoutSnoc(seen, c, p);
        AnySnoc(seen, c, p);
        rest, seen := rest[1..], seen + [c];
        assert list == seen + rest;
        if !Matches(p, c) {
          kept := kept + [c];
          assert conditions == kept + rest;
          it := it + 1;
        } else {
          if stop {
            AnyPrefix(seen, rest, p);
            return true;
          }
          Erase(it);
          assert conditions == kept + rest;
        }
      }
      assert rest == [] && conditions == kept && list == seen;
      return false;
    }

    method Erase(it: nat)
      requires Exact() && it < |conditions|
      modifies this
      ensures Exact() && conditions == old(conditions)[..it] + old(conditions)[it + 1..]
    {
      var c := conditions[it];
      ghost var before, after := conditions[..it], conditions[it + 1..];
      forall t ensures Count(conditions, t) == Count(before + after, t) + (if c.typ == t then 1 else 0) {
        assert conditions == before + ([c] + after);
        CountConcat(before, [c] + after, t);
        CountConcat([c], after, t);
        CountConcat(before, after, t);
        assert [c][..0] == [];
      }
      conditions := conditions[..it] + conditions[it + 1..];
      TrackRemoved(c.typ);
    }

    /** `removeCondition(type)`: with the shortcut through the cache, all conditions of the
        type go and the others stay in order. */
    method RemoveByType(t: ConditionType)
      requires Exact()
      modifies this
      ensures Exact() && conditions == Without(old(conditions), OfType(t))
      ensures forall c :: c in conditions <==> c in old(conditions) && c.typ != t
    {
      WithoutLeaves(conditions, OfType(t));
      TrackedIffListed(t);
      if !HasTracked(t) {
        WithoutNothing(conditions, OfType(t));
        return;
      }
      var stopped := EraseMatching(OfType(t), false);
    }

    /** `removeCondition(type, id, force)`; `walking` is a walk delay that is not over. */
    method RemoveByTypeAndId(t: ConditionType, id: nat, force: bool, walking: bool) returns (postponed: bool)
      requires Exact()
      modifies this
      ensures Exact()
      ensures postponed <==> !force && t == PARALYZE && walking && Any(old(conditions), OfTypeAndId(t, id))
      ensures conditions == if postponed then old(conditions) else Without(old(conditions), OfTypeAndId(t, id))
      ensures !postponed ==> forall c :: c in conditions <==> c in old(conditions) && !(c.typ == t && c.id == id)
    {
      WithoutLeaves(conditions, OfTypeAndId(t, id));
      TrackedIffListed(t);
      if Any(conditions, OfTypeAndId(t, id)) { AnyOfType(conditions, OfTypeAndId(t, id)); }
      if !HasTracked(t) {
        WithoutNothing(conditions, OfTypeAndId(t, id));
        return false;
      }
      postponed := EraseMatching(OfTypeAndId(t, id), !force && t == PARALYZE && walking);
    }

    /** `getCondition(type, id, subId)`: the shortcut gives what the scan of the list gives. */
    method Get(t: ConditionType, id: nat, subId: nat) returns (r: Option<Condition>)
      requires Exact()
      ensures r.Some? ==>
        r.value in conditions && r.value.typ == t && r.value.id == id && r.value.subId == subId
      ensures r.None? ==> forall c :: c in conditions ==> !(c.typ == t && c.id == id && c.subId == subId)
    {
      TrackedIffListed(t);
      if !HasTracked(t) {
        if Any(conditions, Exactly(t, id, subId)) { AnyOfType(conditions, Exactly(t, id, subId)); }
        return None;
      }
      var k := 0;
      while k < |conditions|
        invariant k <= |conditions|
        invariant forall i :: 0 <= i < k ==> !Matches(Exactly(t, id, subId), conditions[i])
      {
        var c := conditions[k];
        if c.typ == t && c.id == id && c.subId == subId {
          return Some(c);
        }
        k := k + 1;
      }
      return None;
    }

    /** `addCondition`: a suppressed one is refused, one that is there already is merged into
        it, any other is listed when it starts. No condition is ever listed twice. */
    method AddCondition(c: Condition, suppressed: bool, starts: bool) returns (ok: bool)
      requires Exact() && c.typ < CONDITION_COUNT && |conditions| + 1 < COUNTER_RANGE
      modifies this
      ensures Exact()
      ensures ok <==> !suppressed && (starts || c in old(conditions))
      ensures conditions == if ok && c !in old(conditions) then old(conditions) + [c] else old(conditions)
      ensures Distinct(old(conditions)) ==> Distinct(conditions)
    {
      if suppressed {
        return false;
      }
      var previous := Get(c.typ, c.id, c.subId);
      if previous.Some? {
        return true;
      }
      if starts {
        Append(c);
        return true;
      }
      return false;
    }
  }

  predicate Distinct(list: seq<Condition>) { forall i, j :: 0 <= i < j < |list| ==> list[i] != list[j] }

  /** A removal takes what matches and keeps the rest, in order and each once. */
  lemma {:induction false} WithoutKeeps(list: seq<Condition>, p: Pattern, c: Condition)
    ensures c in Without(list, p) <==> c in list && !Matches(p, c)
    ensures Distinct(list) ==> Distinct(Without(list, p))
  {
    if list != [] {
      var front, last := list[..|list| - 1], list[|list| - 1];
      WithoutKeeps(front, p, c);
      assert list == front + [last];
      if Distinct(list) {
        WithoutKeeps(front, p, last);
        assert last !in front;
      }
    }
  }

  /** Spelled out for the two kinds of removal. */
  lemma WithoutLeaves(list: seq<Condition>, p: Pattern)
    ensures p.OfType? ==> forall c :: c in Without(list, p) <==> c in list && c.typ != p.t
    ensures p.OfTypeAndId? ==> forall c :: c in Without(list, p) <==> c in list && !(c.typ == p.t && c.id == p.id)
  {
    forall c ensures c in Without(list, p) <==> c in list && !Matches(p, c) { WithoutKeeps(list, p, c); }
  }
}
