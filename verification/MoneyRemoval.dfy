/** `removeMoney`: what it takes is exactly what was asked. */
module MoneyRemoval {
  import opened Coins
  import opened Money
  import opened MoneyGame

  /** An item is in one place: no coin stack is met twice in the slots and the bags. */
  ghost predicate OnePlaceEach(stacks: seq<Stack>, slots: seq<Item>) {
    forall e :: Tally(stacks, slots, StacksLike(e)) <= 1
  }

  lemma {:induction false} TallyIsOfStack(stacks: seq<Stack>, items: seq<Item>, e: Entry)
    requires Tally(stacks, items, StacksLike(e)) > 0
    ensures e.ref < |stacks| && e.worth == StackWorth(stacks[e.ref]) != 0
    decreases items
  {
    if TallyOf(stacks, items[0], StacksLike(e)) > 0 {
      if items[0].Bag? { TallyIsOfStack(stacks, items[0].contents, e); }
    } else {
      TallyIsOfStack(stacks, items[1..], e);
    }
  }

  /** The entries stand for different stacks, each with its worth. */
  predicate EntriesOk(stacks: seq<Stack>, entries: seq<Entry>) {
    && (forall i :: 0 <= i < |entries| ==>
          entries[i].ref < |stacks| && entries[i].worth == StackWorth(stacks[entries[i].ref]) != 0)
    && (forall i, j :: 0 <= i < j < |entries| ==> entries[i].ref != entries[j].ref)
  }

  lemma TwiceInList<T>(s: seq<T>, i: nat, j: nat)
    requires i < j < |s| && s[i] == s[j]
    ensures multiset(s)[s[i]] >= 2
  {
    var tail := s[i + 1..];
    assert s == s[..i] + [s[i]] + tail;
    assert tail[j - i - 1] == s[j] && s[j] in multiset(tail);
  }

  lemma CollectedEntriesOk(stacks: seq<Stack>, slots: seq<Item>, entries: seq<Entry>)
    requires OnePlaceEach(stacks, slots)
    requires forall e :: multiset(entries)[e] == Tally(stacks, slots, StacksLike(e))
    ensures EntriesOk(stacks, entries)
  {
    forall i | 0 <= i < |entries|
      ensures entries[i].ref < |stacks| && entries[i].worth == StackWorth(stacks[entries[i].ref]) != 0
    {
      assert entries[i] in multiset(entries);
      TallyIsOfStack(stacks, slots, entries[i]);
    }
    forall i, j | 0 <= i < j < |entries| ensures entries[i].ref != entries[j].ref {
      assert multiset(entries)[entries[i]] <= 1 by { assert Tally(stacks, slots, StacksLike(entries[i])) <= 1; }
      if entries[i] == entries[j] { TwiceInList(entries, i, j); }
    }
  }

  /** What can be paid with: the coins found, and the bank when it may be used. */
  ghost function Means(g: Game, slots: seq<Item>, isPlayer: bool, useBalance: bool): nat
    reads g
  {
    Tally(g.stacks, slots, WorthOf) + if useBalance && isPlayer then g.bank else 0
  }

  /** The last turn of a payment: the first entry that covers what is due by then, or the end. */
  datatype Turn = Turn(k: nat, due: nat)

  function LastTurn(entries: seq<Entry>, k: nat, money: nat): Turn
    requires k <= |entries|
    decreases |entries| - k
  {
    if k == |entries| || entries[k].worth >= money then Turn(k, money)
    else LastTurn(entries, k + 1, money - entries[k].worth)
  }

  lemma {:induction false} LastTurnAhead(entries: seq<Entry>, k: nat, money: nat)
    requires k < |entries| && money > 0
    ensures
      var t := LastTurn(entries, k, money);
      && k <= t.k <= |entries| && t.due > 0
      && (if entries[k].worth < money then k < t.k else t == Turn(k, money))
    decreases |entries| - k
  {
    if entries[k].worth < money && k + 1 < |entries| {
      LastTurnAhead(entries, k + 1, money - entries[k].worth);
    }
  }

  /** The last turn comes after entries that are worth less than the money, by what is due. */
  lemma {:induction false} LastTurnDue(entries: seq<Entry>, k: nat, money: nat)
    requires k <= |entries| && money > 0
    ensures
      var t := LastTurn(entries, k, money);
      && k <= t.k <= |entries| && t.due > 0
      && EntryTotal(entries[..t.k]) + t.due == EntryTotal(entries[..k]) + money
      && (t.k < |entries| ==> entries[t.k].worth >= t.due)
    decreases |entries| - k
  {
    if k < |entries| && entries[k].worth < money {
      TotalSteps(entries, k);
      LastTurnDue(entries, k + 1, money - entries[k].worth);
    }
  }

  lemma {:induction false} TotalSteps(entries: seq<Entry>, k: nat)
    requires k < |entries|
    ensures EntryTotal(entries[..k + 1]) == EntryTotal(entries[..k]) + entries[k].worth <= EntryTotal(entries)
    decreases |entries|
  {
    if k + 1 < |entries| {
      var front := entries[..|entries| - 1];
      TotalSteps(front, k);
      assert front[..k + 1] == entries[..k + 1] && front[..k] == entries[..k];
    } else {
      assert entries[..k + 1] == entries;
    }
  }

  lemma AllEntries(entries: seq<Entry>)
    ensures EntryTotal(entries[..|entries|]) == EntryTotal(entries)
  {
    assert entries[..|entries|] == entries;
  }

  /** The payment ends on an entry exactly when the coins suffice. */
  lemma LastTurnIff(entries: seq<Entry>, money: nat)
    requires money > 0
    ensures
      var t := LastTurn(entries, 0, money);
      && t.k <= |entries| && (t.k < |entries| <==> EntryTotal(entries) >= money)
      && (t.k == |entries| ==> EntryTotal(entries) + t.due == money)
  {
    LastTurnDue(entries, 0, money);
    AllEntries(entries);
    var t := LastTurn(entries, 0, money);
    if t.k < |entries| { TotalSteps(entries, t.k); }
  }

  /** How many stacks a payment touches. */
  function Touched(entries: seq<Entry>, t: Turn): nat { if t.k < |entries| then t.k + 1 else |entries| }

  /** The change of a payment: that of the last turn, if an entry covers what is due. */
  function ChangeDue(stacks: seq<Stack>, entries: seq<Entry>, t: Turn): nat {
    if t.k < |entries| && entries[t.k].ref < |stacks| then ChangeOf(stacks[entries[t.k].ref], t.due) else 0
  }

  predicate AllRemoved(removals: nat -> bool, first: nat, count: nat) {
    forall n :: first <= n < first + count ==> removals(n)
  }

  lemma FoundEntriesOk(stacks: seq<Stack>, slots: seq<Item>)
    requires OnePlaceEach(stacks, slots)
    ensures EntriesOk(stacks, Found(stacks, slots).entries)
  {
    FoundIsAll(stacks, slots);
    CollectedEntriesOk(stacks, slots, Found(stacks, slots).entries);
  }

  lemma SurplusIff(env: Env, call: nat, change: nat, drop: bool)
    ensures Surplus(env, call, change, drop) == 0 <==> !PaysTwice(env, call, change, drop)
  {
    if PaysTwice(env, call, change, drop) { AddMoneyOffers(env, call, change); }
  }

  /** What `removeMoney` owes as change when it pays `money` with the coins in the slots. */
  function Change(stacks: seq<Stack>, slots: seq<Item>, money: nat): nat {
    var entries := Found(stacks, slots).entries;
    if money == 0 then 0 else ChangeDue(stacks, entries, LastTurn(entries, 0, money))
  }

  /** The game around lets a payment through: it removes every stack touched, and hands out
      the change. */
  ghost predicate Granted(g: Game, slots: seq<Item>, money: nat, drop: bool)
    reads g
  {
    var entries := Found(g.stacks, slots).entries;
    && AllRemoved(g.removals, g.removed, Touched(entries, LastTurn(entries, 0, money)))
    && DeliverChange(g.env, g.calls, Change(g.stacks, slots, money), drop).ok
  }

  /** `Game::removeMoney`. Too little money is refused without touching anything; otherwise it
      returns true exactly when the game around grants the removals and the change. Then coins,
      dropped coins and bank together fall by exactly the money, if and only if the change is
      not paid twice; if it is, by the money less the surplus. */
  method RemoveMoney(g: Game, present: bool, isPlayer: bool, slots: seq<Item>, money: nat, drop: bool, useBalance: bool)
    returns (ok: bool)
    requires OnePlaceEach(g.stacks, slots)
    modifies g
    ensures money == 0 || !present ==> ok == present && unchanged(g)
    ensures old(Means(g, slots, isPlayer, useBalance)) < money ==> !ok && unchanged(g)
    ensures present && old(Means(g, slots, isPlayer, useBalance)) >= money > 0 ==>
      (ok <==> old(Granted(g, slots, money, drop)))
    ensures ok ==>
      var change := Change(old(g.stacks), slots, money);
      && g.Wealth() + money == old(g.Wealth()) + Surplus(g.env, old(g.calls), change, drop)
      && (g.Wealth() + money == old(g.Wealth()) <==> !PaysTwice(g.env, old(g.calls), change, drop))
  {
    if !present {
      return false;
    }
    if money == 0 {
      NothingDue(g.env, g.calls, drop);
      return true;
    }
    var collection := CollectMoney(g.stacks, slots);
    var balance := if useBalance && isPlayer then g.bank else 0;
    if collection.total + balance < money {
      return false;
    }
    SurplusIff(g.env, g.calls, Change(g.stacks, slots, money), drop);
    ghost var env := g.env;
    ghost var deliver := (call: nat, change: nat) =>
      Paid(DeliverChange(env, call, change, drop).ok, Surplus(env, call, change, drop));
    FoundEntriesOk(g.stacks, slots);
    ok := Pay(g, collection.entries, money, drop, useBalance && isPlayer, deliver);
  }

  /** The payment, once it is known that the means suffice. */
  method Pay(g: Game, entries: seq<Entry>, money: nat, drop: bool, fromBank: bool, ghost deliver: Deliveries)
    returns (ok: bool)
    requires EntriesOk(g.stacks, entries) && money > 0 && DeliveriesOf(deliver, g.env, drop)
    requires EntryTotal(entries) + (if fromBank then g.bank else 0) >= money
    modifies g
    ensures
      var t := LastTurn(entries, 0, money);
      var paid := deliver(old(g.calls), ChangeDue(old(g.stacks), entries, t));
      && (ok <==> AllRemoved(g.removals, old(g.removed), Touched(entries, t)) && paid.ok)
      && (ok ==> g.Wealth() + money == old(g.Wealth()) + paid.surplus)
  {
    LastTurnIff(entries, money);
    var left;
    ok, left := TakeEntries(g, entries, money, drop, deliver);
    if !ok || left == 0 {
      return;
    }
    if fromBank && g.bank >= left {
      g.bank := g.bank - left;
    }
  }

  /** The payment loop: it stops at the first failure, and when nothing is left to pay. */
  method TakeEntries(g: Game, entries: seq<Entry>, money: nat, drop: bool, ghost deliver: Deliveries)
    returns (ok: bool, left: nat)
    requires EntriesOk(g.stacks, entries) && money > 0 && DeliveriesOf(deliver, g.env, drop)
    modifies g
    ensures g.bank == old(g.bank)
    ensures
      var t := LastTurn(entries, 0, money);
      var paid := deliver(old(g.calls), ChangeDue(old(g.stacks), entries, t));
      && (ok <==> AllRemoved(g.removals, old(g.removed), Touched(entries, t)) && paid.ok)
      && (ok ==> left == if t.k < |entries| then 0 else t.due)
      && (ok ==> Total(g.stacks) + g.ground + money == Total(old(g.stacks)) + old(g.ground) + left + paid.surplus)
  {
    left := money;
    ghost var t, first, before := LastTurn(entries, 0, money), g.removed, g.stacks;
    var k := 0;
    while k < |entries|
      invariant k <= |entries| && left > 0 && t == LastTurn(entries, k, left)
      invariant |g.stacks| == |before| && Total(g.stacks) + money == Total(before) + left
      invariant forall j :: k <= j < |entries| ==> g.stacks[entries[j].ref] == before[entries[j].ref]
      invariant g.ground == old(g.ground) && g.bank == old(g.bank) && g.calls == old(g.calls)
      invariant g.removed == first + k && AllRemoved(g.removals, first, k)
    {
      LastTurnAhead(entries, k, left);
      assert g.stacks[entries[k].ref].count > 0;
      var outcome, rest := g.ProcessEntry(entries[k].ref, left, drop, deliver);
      if outcome == Failed {
        return false, left;
      }
      if outcome == Done {
        return true, 0;
      }
      left := rest;
      k := k + 1;
    }
    NoDelivery(deliver, g.env, g.calls, drop);
    return true, left;
  }
}
