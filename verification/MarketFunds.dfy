/** Market payments: bank first, then coins from the inventory, with change to the bank. */
module MarketFunds {
  import opened Coins
  import opened MoneyGame
  import opened MoneyRemoval

  datatype Withdrawn = Withdrawn(bank: nat, inventory: nat)

  function ByWorth(stacks: seq<Stack>, refs: seq<nat>): Collection {
    if refs == [] then NOTHING else Collect(ByWorth(stacks, refs[..|refs| - 1]), stacks, refs[|refs| - 1])
  }

  /** All the coins in the inventory, containers skipped, are worth this much. */
  function InventoryWorth(stacks: seq<Stack>, refs: seq<nat>): nat {
    if refs == [] then 0 else InventoryWorth(stacks, refs[..|refs| - 1]) + WorthAt(stacks, refs[|refs| - 1])
  }

  lemma {:induction false} ByWorthTotal(stacks: seq<Stack>, refs: seq<nat>)
    ensures ByWorth(stacks, refs).total == InventoryWorth(stacks, refs)
  {
    if refs != [] { ByWorthTotal(stacks, refs[..|refs| - 1]); }
  }

  /** The inventory lists every item once. */
  predicate Distinct(refs: seq<nat>) { forall i, j :: 0 <= i < j < |refs| ==> refs[i] != refs[j] }

  lemma {:induction false} ByWorthOk(stacks: seq<Stack>, refs: seq<nat>)
    requires Distinct(refs)
    ensures Proper(ByWorth(stacks, refs))
    ensures forall e :: e in ByWorth(stacks, refs).entries ==>
      e.ref in refs && e.worth == WorthAt(stacks, e.ref) != 0 && multiset(ByWorth(stacks, refs).entries)[e] == 1
  {
    if refs != [] {
      var front, last := refs[..|refs| - 1], refs[|refs| - 1];
      ByWorthOk(stacks, front);
      var c, d := ByWorth(stacks, front), ByWorth(stacks, refs);
      CollectOne(c, stacks, last);
      assert last !in front;
      forall e | e in d.entries
        ensures e.ref in refs && e.worth == WorthAt(stacks, e.ref) != 0 && multiset(d.entries)[e] == 1
      {
        assert Measured(d, StacksLike(e)) == Measured(c, StacksLike(e)) + Weight(stacks, last, StacksLike(e));
        assert e in multiset(d.entries);
        if e in c.entries {
          assert e.ref in front;
        } else {
          assert multiset(c.entries)[e] == 0;
        }
      }
    }
  }

  lemma ByWorthEntriesOk(stacks: seq<Stack>, refs: seq<nat>)
    requires Distinct(refs)
    ensures EntriesOk(stacks, ByWorth(stacks, refs).entries)
    ensures forall e :: e in ByWorth(stacks, refs).entries ==> e.ref in refs
    ensures ByWorth(stacks, refs).total == EntryTotal(ByWorth(stacks, refs).entries)
  {
    ByWorthOk(stacks, refs);
    var entries := ByWorth(stacks, refs).entries;
    forall i | 0 <= i < |entries|
      ensures entries[i].ref < |stacks| && entries[i].worth == StackWorth(stacks[entries[i].ref]) != 0
    {
      assert entries[i] in entries;
    }
    forall i, j | 0 <= i < j < |entries| ensures entries[i].ref != entries[j].ref {
      assert entries[i] in entries && entries[j] in entries;
      if entries[i] == entries[j] { TwiceInList(entries, i, j); }
    }
  }

  // ---- Which stacks pay ----

  /** The stacks after the payment loop, from the `k`-th entry on: whole stacks, then as many
      coins of the next one as cover what is left. */
  function Spend(stacks: seq<Stack>, entries: seq<Entry>, k: nat, left: nat): seq<Stack>
    decreases |entries| - k
  {
    if k >= |entries| || entries[k].ref >= |stacks| then stacks
    else
      var ref := entries[k].ref;
      var s := stacks[ref];
      if StackWorth(s) < left then Spend(stacks[ref := s.(count := 0)], entries, k + 1, left - StackWorth(s))
      else stacks[ref := s.(count := Kept(s, left))]
  }

  /** The coins a stack keeps when it covers `money`. */
  function Kept(s: Stack, money: nat): nat { if CoinsFor(s, money) <= s.count then s.count - CoinsFor(s, money) else 0 }

  function AfterPaying(stacks: seq<Stack>, inventory: seq<nat>, money: nat): seq<Stack> {
    if money == 0 then stacks else Spend(stacks, ByWorth(stacks, inventory).entries, 0, money)
  }

  /** Stacks that pay lose coins and stay what they are; every other stack stays as it is. */
  lemma {:induction false} SpendOnly(stacks: seq<Stack>, entries: seq<Entry>, k: nat, left: nat, i: nat)
    requires i < |stacks|
    ensures
      var after := Spend(stacks, entries, k, left);
      && |after| == |stacks| && after[i].coin == stacks[i].coin && after[i].count <= stacks[i].count
      && ((forall j :: 0 <= j < |entries| ==> entries[j].ref != i) ==> after[i] == stacks[i])
    decreases |entries| - k
  {
    if k < |entries| && entries[k].ref < |stacks| {
      var ref := entries[k].ref;
      var s := stacks[ref];
      if StackWorth(s) < left {
        SpendOnly(stacks[ref := s.(count := 0)], entries, k + 1, left - StackWorth(s), i);
      }
    }
  }

  /** A payment takes coins from stacks in the inventory only. */
  lemma OnlyInventoryPays(stacks: seq<Stack>, inventory: seq<nat>, money: nat, i: nat)
    requires Distinct(inventory) && i < |stacks|
    ensures
      var after := AfterPaying(stacks, inventory, money);
      && |after| == |stacks| && after[i].coin == stacks[i].coin && after[i].count <= stacks[i].count
      && (i !in inventory ==> after[i] == stacks[i])
  {
    if money > 0 {
      ByWorthEntriesOk(stacks, inventory);
      SpendOnly(stacks, ByWorth(stacks, inventory).entries, 0, money, i);
    }
  }

  lemma ExactCoins(s: Stack, money: nat)
    requires money == StackWorth(s)
    ensures Kept(s, money) == 0
  {
  }

  class MarketPlayer {
    var stacks: seq<Stack>
    var bank: nat
    var inventory: seq<nat>      // the coin stacks among all inventory items

    ghost function Wealth(): nat
      reads this
    {
      Total(stacks) + bank
    }

    constructor (stacks: seq<Stack>, bank: nat, inventory: seq<nat>)
      ensures this.stacks == stacks && this.bank == bank && this.inventory == inventory
    {
      this.stacks, this.bank, this.inventory := stacks, bank, inventory;
    }

    /** `internalRemoveItem`, which is taken to succeed. */
    method RemoveItem(ref: nat, kept: nat)
      requires ref < |stacks| && kept <= stacks[ref].count
      modifies this`stacks
      ensures stacks == old(stacks)[ref := old(stacks)[ref].(count := kept)]
      ensures Total(stacks) + Worth(old(stacks)[ref].coin, old(stacks)[ref].count) ==
              Total(old(stacks)) + Worth(old(stacks)[ref].coin, kept)
    {
      TotalUpdate(stacks, ref, stacks[ref].(count := kept));
      stacks := stacks[ref := stacks[ref].(count := kept)];
    }

    method CollectInventory() returns (c: Collection)
      ensures c == ByWorth(stacks, inventory)
    {
      c := NOTHING;
      var k := 0;
      while k < |inventory|
        invariant k <= |inventory|
        invariant c == ByWorth(stacks, inventory[..k])
      {
        assert inventory[..k + 1][..k] == inventory[..k];
        c := Collect(c, stacks, inventory[k]);
        k := k + 1;
      }
      assert inventory[..k] == inventory;
    }

    /** One entry of the payment loop: the whole stack when it is worth less than what is left
        to pay, else as many coins as cover that, with the change going to the bank. */
    method TakeEntry(ref: nat, left: nat) returns (paid: bool)
      requires ref < |stacks| && stacks[ref].count > 0 && left > 0
      modifies this`stacks, this`bank
      ensures paid <==> StackWorth(old(stacks)[ref]) >= left
      ensures paid ==> Wealth() + left == old(Wealth())
      ensures paid ==> stacks == old(stacks)[ref := old(stacks)[ref].(count := Kept(old(stacks)[ref], left))]
      ensures !paid ==>
        && bank == old(bank) && stacks == old(stacks)[ref := old(stacks)[ref].(count := 0)]
        && Total(stacks) + StackWorth(old(stacks)[ref]) == Total(old(stacks))
    {
      var stack := stacks[ref];
      var worth := StackWorth(stack);
      if worth < left {
        RemoveItem(ref, 0);
        return false;
      }
      if worth > left {
        var unit, removeCount, change := CoinsNeeded(stack, worth, left);
        WorthSplits(stack.coin, stack.count - removeCount, removeCount);
        RemoveItem(ref, stack.count - removeCount);
        if change > 0 {
          bank := bank + change;
        }
        return true;
      }
      RemoveItem(ref, 0);
      ExactCoins(stack, left);
      return true;
    }

    /** `removeInventoryMoneyToBank`: takes exactly the money, or nothing when it is short. */
    method RemoveInventoryMoney(money: nat) returns (ok: bool)
      requires Distinct(inventory)
      modifies this`stacks, this`bank
      ensures ok <==> InventoryWorth(old(stacks), inventory) >= money
      ensures ok ==> Wealth() + money == old(Wealth())
      ensures !ok ==> unchanged(this)
      ensures ok ==> stacks == AfterPaying(old(stacks), inventory, money)
    {
      if money == 0 {
        return true;
      }
      var collection := CollectInventory();
      ByWorthTotal(stacks, inventory);
      if collection.total < money {
        return false;
      }
      ByWorthEntriesOk(stacks, inventory);
      PayFrom(collection.entries, money);
      return true;
    }

    /** The payment loop, over entries that suffice. */
    method PayFrom(entries: seq<Entry>, money: nat)
      requires EntriesOk(stacks, entries) && EntryTotal(entries) >= money > 0
      modifies this`stacks, this`bank
      ensures Wealth() + money == old(Wealth())
      ensures stacks == Spend(old(stacks), entries, 0, money)
    {
      var left: nat := money;
      var k := 0;
      while k < |entries|
        invariant k <= |entries|
        invariant left > 0 && left + EntryTotal(entries[..k]) == money
        invariant |stacks| == |old(stacks)| && bank == old(bank)
        invariant Total(stacks) + EntryTotal(entries[..k]) == Total(old(stacks))
        invariant forall j :: k <= j < |entries| ==> stacks[entries[j].ref] == old(stacks)[entries[j].ref]
        invariant Spend(old(stacks), entries, 0, money) == Spend(stacks, entries, k, left)
      {
        ghost var before := stacks;
        assert before[entries[k].ref] == old(stacks)[entries[k].ref];
        assert entries[..k + 1][..k] == entries[..k];
        assert EntryTotal(entries[..k + 1]) == EntryTotal(entries[..k]) + entries[k].worth;
        var paid := TakeEntry(entries[k].ref, left);
        if paid {
          return;
        }
        left := left - entries[k].worth;
        k := k + 1;
      }
      AllEntries(entries);
    }

    /** `withdrawMarketFunds`: exactly the amount on success, nothing on failure, which
        happens exactly when bank and inventory together are short. */
    method Withdraw(amount: nat) returns (ok: bool, funds: Withdrawn)
      requires Distinct(inventory)
      modifies this`stacks, this`bank
      ensures Wealth() + funds.bank + funds.inventory == old(Wealth())
      ensures ok ==> funds.bank + funds.inventory == amount
      ensures !ok ==> stacks == old(stacks) && bank == old(bank) && funds == Withdrawn(0, 0)
      ensures ok <==> old(bank) + InventoryWorth(old(stacks), inventory) >= amount
      ensures ok ==>
        stacks == AfterPaying(old(stacks), inventory, if old(bank) >= amount then 0 else amount - old(bank))
    {
      if amount == 0 {
        return true, Withdrawn(0, 0);
      }
      var fromBank := if bank <= amount then bank else amount;
      if fromBank > 0 {
        bank := bank - fromBank;
      }
      var fromInventory := amount - fromBank;
      if fromInventory > 0 {
        var taken := RemoveInventoryMoney(fromInventory);
        if !taken {
          if fromBank > 0 {
            bank := bank + fromBank;
          }
          return false, Withdrawn(0, 0);
        }
      }
      return true, Withdrawn(fromBank, fromInventory);
    }

    /** `refundMarketFunds`. */
    method Refund(funds: Withdrawn)
      modifies this`bank
      ensures bank == old(bank) + funds.bank + funds.inventory
      ensures Wealth() == old(Wealth()) + funds.bank + funds.inventory
    {
      if funds.bank + funds.inventory == 0 {
        return;
      }
      bank := bank + funds.bank + funds.inventory;
    }

    /** A withdrawal that is given back leaves the player as rich as before. */
    method WithdrawAndRefund(amount: nat) returns (ok: bool)
      requires Distinct(inventory)
      modifies this`stacks, this`bank
      ensures Wealth() == old(Wealth())
    {
      var funds;
      ok, funds := Withdraw(amount);
      Refund(funds);
    }
  }
}
