/** The object whose coins move: `addMoney` and `removeMoney` as they change stacks, map and
    bank. */
module MoneyGame {
  import opened Coins
  import opened Money

  /** Removing money from a stack continues with the next one, is done, or failed. */
  datatype Outcome = Continue | Done | Failed

  /** How adding coins may change the stacks: coins worth `amount` come, on new stacks or on
      old ones of a coin worth at most `most`; every other stack stays as it is. */
  ghost predicate Gains(before: seq<Stack>, after: seq<Stack>, amount: nat, most: nat) {
    && |before| <= |after|
    && Total(after) == Total(before) + amount
    && (forall i :: 0 <= i < |before| && UnitWorth(before[i].coin) > most ==> after[i] == before[i])
  }

  lemma GainsTrans(a: seq<Stack>, b: seq<Stack>, c: seq<Stack>, x: nat, y: nat, most: nat)
    requires Gains(a, b, x, most) && Gains(b, c, y, most)
    ensures Gains(a, c, x + y, most)
  {
  }

  lemma GainsMore(a: seq<Stack>, b: seq<Stack>, x: nat, most: nat, more: nat)
    requires Gains(a, b, x, most) && most <= more
    ensures Gains(a, b, x, more)
  {
  }

  /** Whether change is handed out in full, and what is paid on top of it. */
  datatype Paid = Paid(ok: bool, surplus: nat)

  /** What comes of every delivery of change, by its first call and its amount. */
  type Deliveries = (nat, nat) -> Paid

  ghost predicate DeliveriesOf(deliver: Deliveries, env: Env, drop: bool) {
    forall call, change {:trigger DeliverChange(env, call, change, drop)} ::
      deliver(call, change) == Paid(DeliverChange(env, call, change, drop).ok, Surplus(env, call, change, drop))
  }

  /** No change is paid at once, and only once. */
  lemma NothingDue(env: Env, call: nat, drop: bool)
    ensures DeliverChange(env, call, 0, drop).ok && !PaysTwice(env, call, 0, drop)
  {
    NoMoney(env, call, drop);
    AllOrNothingIsExact(env, call, 0, drop);
  }

  lemma NoDelivery(deliver: Deliveries, env: Env, call: nat, drop: bool)
    requires DeliveriesOf(deliver, env, drop)
    ensures deliver(call, 0) == Paid(true, 0)
  {
    NothingDue(env, call, drop);
  }

  /** The change when a stack pays `money`. */
  function ChangeOf(s: Stack, money: nat): nat {
    if money < StackWorth(s) then
      CeilingCoins(s, money);
      UnitWorth(s.coin) * CoinsFor(s, money) - money
    else 0
  }

  /** As many coins as cover the money. */
  function CoinsFor(s: Stack, money: nat): nat {
    match s.coin
    case Gold => money
    case Platinum => (money + 99) / 100
    case Crystal => (money + 9999) / 10000
  }

  class Game {
    const env: Env
    const removals: nat -> bool      // whether the n-th removal of an item succeeds
    var stacks: seq<Stack>
    var ground: nat                  // the worth of the coins dropped on the tile
    var bank: nat
    var calls: nat
    var removed: nat

    ghost function Wealth(): nat
      reads this
    {
      Total(stacks) + ground + bank
    }

    constructor (env: Env, removals: nat -> bool, stacks: seq<Stack>, bank: nat)
      ensures this.env == env && this.removals == removals && this.stacks == stacks && this.bank == bank
      ensures ground == 0 && calls == 0 && removed == 0
    {
      this.env, this.removals, this.stacks, this.bank := env, removals, stacks, bank;
      ground, calls, removed := 0, 0, 0;
    }

    /** `internalAddItem` on the cylinder or on its tile. The contract leaves open which
        stacks of the same coin the coins join. */
    method InternalAddItem(toTile: bool, coin: CoinType, count: nat) returns (o: ItemOutcome)
      modifies this`stacks, this`ground, this`calls
      ensures o == AddItem(env, old(calls), count) && calls == old(calls) + 1
      ensures Gains(old(stacks), stacks, if toTile then 0 else Worth(coin, o.placed), UnitWorth(coin))
      ensures ground == old(ground) + (if toTile then Worth(coin, o.placed) else 0)
    {
      o := AddItem(env, calls, count);
      calls := calls + 1;
      if toTile {
        ground := ground + Worth(coin, o.placed);
      } else {
        TotalAppend(stacks, Stack(coin, o.placed));
        stacks := stacks + [Stack(coin, o.placed)];
      }
    }

    method AddStack(coin: CoinType, count: nat, drop: bool) returns (ret: ReturnValue, added: nat, ghost c: Course)
      requires 1 <= count <= STACK_LIMIT
      modifies this`stacks, this`ground, this`calls
      ensures c == AddCoinStack(env, old(calls), coin, count, drop)
      ensures ret == c.ret && added == c.added && calls == c.calls && ground == old(ground) + c.dropped
      ensures Gains(old(stacks), stacks, c.carried, UnitWorth(coin))
    {
      c := AddCoinStack(env, calls, coin, count, drop);
      var o := InternalAddItem(false, coin, count);
      added := Worth(coin, o.placed);
      if o.ret == NoError && o.remainder == 0 {
        return NoError, added, c;
      }
      if !drop || !env.hasTile {
        return Missing(o.ret), added, c;
      }
      var dropCount := count - o.placed;
      if dropCount == 0 {
        return Missing(o.ret), added, c;
      }
      ghost var middle := stacks;
      var d := InternalAddItem(true, coin, dropCount);
      GainsTrans(old(stacks), middle, stacks, c.carried, 0, UnitWorth(coin));
      added := added + Worth(coin, d.placed);
      if d.ret != NoError {
        return d.ret, added, c;
      }
      if d.remainder != 0 {
        return Missing(o.ret), added, c;
      }
      return NoError, added, c;
    }

    method AddAll(coin: CoinType, count: nat, drop: bool) returns (ret: ReturnValue, added: nat, ghost c: Course)
      modifies this`stacks, this`ground, this`calls
      ensures c == AddCoins(env, old(calls), coin, count, drop)
      ensures ret == c.ret && added == c.added && calls == c.calls && ground == old(ground) + c.dropped
      ensures Gains(old(stacks), stacks, c.carried, UnitWorth(coin))
    {
      ghost var goal := AddCoins(env, calls, coin, count, drop);
      ghost var sofar := NoCourse(calls);
      NoneThen(calls, goal);
      var left: nat := count;
      added := 0;
      while left > 0
        invariant left <= count
        invariant sofar.ret == NoError && sofar.calls == calls && sofar.added == added
        invariant ground == old(ground) + sofar.dropped
        invariant Gains(old(stacks), stacks, sofar.carried, UnitWorth(coin))
        invariant goal == Then(sofar, AddCoins(env, calls, coin, left, drop))
      {
        ghost var before, carried := stacks, sofar.carried;
        ret, added, left, sofar := AddRound(coin, left, drop, added, sofar);
        GainsTrans(old(stacks), before, stacks, carried, sofar.carried - carried, UnitWorth(coin));
        if ret != NoError {
          return ret, added, sofar;
        }
      }
      ThenNone(sofar);
      return NoError, added, sofar;
    }

    /** One round of the loop of `addCoins`. */
    method AddRound(coin: CoinType, count: nat, drop: bool, total: nat, ghost sofar: Course)
      returns (ret: ReturnValue, added: nat, left: nat, ghost next: Course)
      requires count > 0 && sofar.calls == calls && sofar.added == total
      modifies this`stacks, this`ground, this`calls
      ensures left < count
      ensures Then(sofar, AddCoins(env, old(calls), coin, count, drop)) ==
        if ret != NoError then next else Then(next, AddCoins(env, calls, coin, left, drop))
      ensures next.ret == ret && next.added == added && next.calls == calls
      ensures next.carried >= sofar.carried && next.dropped >= sofar.dropped
      ensures ground == old(ground) + (next.dropped - sofar.dropped)
      ensures Gains(old(stacks), stacks, next.carried - sofar.carried, UnitWorth(coin))
    {
      var create := if count <= STACK_LIMIT then count else STACK_LIMIT;
      AddCoinsOnce(env, calls, coin, count, drop, sofar);
      ghost var one;
      ret, added, one := AddStack(coin, create, drop);
      added := total + added;
      left := count - create;
      next := Then(sofar, one);
    }

    /** `addMoney`: the worth added and the return value. */
    method AddMoneyTo(present: bool, money: nat, drop: bool) returns (added: nat, ret: ReturnValue)
      modifies this`stacks, this`ground, this`calls
      ensures !present ==> added == 0 && ret == NotPossible && unchanged(this)
      ensures present ==>
        var c := AddMoney(env, old(calls), money, drop);
        && added == c.added && ret == c.ret && calls == c.calls
        && ground == old(ground) + c.dropped
        && Gains(old(stacks), stacks, c.carried, money)
      ensures Total(stacks) + ground == Total(old(stacks)) + old(ground) + added
      ensures present ==> (ret == NoError <==> added == money)
    {
      if !present {
        return 0, NotPossible;
      }
      AddMoneyHonest(env, calls, money, drop);
      if money == 0 {
        NoMoney(env, calls, drop);
        return 0, NoError;
      }
      var b := Breakdown(money);
      added, ret := AddKinds(b.crystals, b.platinum, b.gold, drop, money);
    }

    method AddKinds(crystals: nat, platinum: nat, gold: nat, drop: bool, ghost most: nat)
      returns (added: nat, ret: ReturnValue)
      requires (crystals > 0 ==> most >= 10000) && (platinum > 0 ==> most >= 100) && (gold > 0 ==> most >= 1)
      modifies this`stacks, this`ground, this`calls
      ensures
        var c := AddBreakdown(env, old(calls), crystals, platinum, gold, drop);
        && added == c.added && ret == c.ret && calls == c.calls
        && ground == old(ground) + c.dropped
        && Gains(old(stacks), stacks, c.carried, most)
    {
      ghost var c, p, g;
      var more;
      ret, added, c := AddKind(Crystal, crystals, drop, most);
      if ret != NoError {
        return;
      }
      ghost var before := stacks;
      ret, more, p := AddKind(Platinum, platinum, drop, most);
      GainsTrans(old(stacks), before, stacks, c.carried, p.carried, most);
      added := added + more;
      if ret != NoError {
        return;
      }
      before := stacks;
      ret, more, g := AddKind(Gold, gold, drop, most);
      GainsTrans(old(stacks), before, stacks, c.carried + p.carried, g.carried, most);
      added := added + more;
    }

    method AddKind(coin: CoinType, count: nat, drop: bool, ghost most: nat)
      returns (ret: ReturnValue, added: nat, ghost c: Course)
      requires count > 0 ==> UnitWorth(coin) <= most
      modifies this`stacks, this`ground, this`calls
      ensures c == AddCoins(env, old(calls), coin, count, drop)
      ensures ret == c.ret && added == c.added && calls == c.calls && ground == old(ground) + c.dropped
      ensures Gains(old(stacks), stacks, c.carried, most)
    {
      if count == 0 {
        return NoError, 0, NoCourse(calls);
      }
      ret, added, c := AddAll(coin, count, drop);
      GainsMore(old(stacks), stacks, c.carried, UnitWorth(coin), most);
    }

    // ---- Taking money ----

    /** `removeItemFromOwner`: `count` coins, or the whole stack for 0. */
    method RemoveItem(ref: nat, count: nat) returns (ok: bool)
      requires ref < |stacks| && count <= stacks[ref].count
      modifies this`stacks, this`removed
      ensures ok == removals(old(removed)) && removed == old(removed) + 1
      ensures
        var kept := if count == 0 then 0 else old(stacks)[ref].count - count;
        stacks == if ok then old(stacks)[ref := old(stacks)[ref].(count := kept)] else old(stacks)
    {
      ok := removals(removed);
      removed := removed + 1;
      if ok {
        stacks := stacks[ref := stacks[ref].(count := if count == 0 then 0 else stacks[ref].count - count)];
      }
    }

    /** `deliverChange`. */
    method Deliver(change: nat, drop: bool) returns (ok: bool)
      modifies this`stacks, this`ground, this`calls
      ensures
        var d := DeliverChange(env, old(calls), change, drop);
        && ok == d.ok && calls == d.all.calls
        && ground == old(ground) + d.all.dropped
        && Gains(old(stacks), stacks, d.all.carried, change)
    {
      var added, ret := AddMoneyTo(true, change, drop);
      if added < change && !drop && Full(ret) {
        ghost var before, first := stacks, AddMoney(env, old(calls), change, drop);
        added, ret := AddMoneyTo(true, change, true);
        ghost var second := AddMoney(env, first.calls, change, true);
        GainsTrans(old(stacks), before, stacks, first.carried, second.carried, change);
      }
      ok := added >= change;
    }

    /** `processMoneyEntry`. When the stack is split, its change is worth less than one of its
        coins, so none of it can land on the stack itself. It fails exactly when the removal or
        the delivery of the change fails, and takes the money less what is paid twice. */
    method ProcessEntry(ref: nat, money: nat, drop: bool, ghost deliver: Deliveries)
      returns (outcome: Outcome, left: nat)
      requires ref < |stacks| && stacks[ref].count > 0 && money > 0 && DeliveriesOf(deliver, env, drop)
      modifies this`stacks, this`ground, this`calls, this`removed
      ensures outcome == Continue ==>
        && StackWorth(old(stacks)[ref]) < money && left == money - StackWorth(old(stacks)[ref])
        && stacks == old(stacks)[ref := old(stacks)[ref].(count := 0)]
        && Total(stacks) + StackWorth(old(stacks)[ref]) == Total(old(stacks))
        && ground == old(ground) && calls == old(calls)
      ensures outcome == Done ==>
        && StackWorth(old(stacks)[ref]) >= money && left == 0
        && Total(stacks) + ground + money ==
           Total(old(stacks)) + old(ground) + deliver(old(calls), ChangeOf(old(stacks)[ref], money)).surplus
      ensures outcome != Failed ==> removed == old(removed) + 1 && removals(old(removed))
      ensures outcome == Done ==> deliver(old(calls), ChangeOf(old(stacks)[ref], money)).ok
      ensures outcome == Failed ==>
        || !removals(old(removed))
        || (StackWorth(old(stacks)[ref]) >= money && !deliver(old(calls), ChangeOf(old(stacks)[ref], money)).ok)
    {
      var worth := StackWorth(stacks[ref]);
      left := money;
      TotalUpdate(stacks, ref, stacks[ref].(count := 0));
      NoDelivery(deliver, env, calls, drop);
      if worth < money {
        var ok := RemoveItem(ref, 0);
        if !ok {
          return Failed, left;
        }
        left := money - worth;
        return Continue, left;
      }
      if worth > money {
        outcome := Split(ref, money, worth, drop, deliver);
        if outcome == Done {
          left := 0;
        }
        return;
      }
      var ok := RemoveItem(ref, 0);
      if !ok {
        return Failed, left;
      }
      return Done, 0;
    }

    /** The branch of `processMoneyEntry` for a stack worth more than what is left to pay. */
    method Split(ref: nat, money: nat, worth: nat, drop: bool, ghost deliver: Deliveries) returns (outcome: Outcome)
      requires ref < |stacks| && stacks[ref].count > 0 && money > 0 && DeliveriesOf(deliver, env, drop)
      requires worth == StackWorth(stacks[ref]) > money
      modifies this`stacks, this`ground, this`calls, this`removed
      ensures outcome == Failed || outcome == Done
      ensures
        var paid := deliver(old(calls), ChangeOf(old(stacks)[ref], money));
        && (outcome == Done ==>
              && removed == old(removed) + 1
              && Total(stacks) + ground + money == Total(old(stacks)) + old(ground) + paid.surplus)
        && (outcome == Done <==> removals(old(removed)) && paid.ok)
    {
      var unitWorth, removeCount, change := CoinsNeeded(stacks[ref], worth, money);
      outcome := TakeCoins(ref, money, removeCount, change, drop, deliver);
    }

    /** The coins of a split are taken once their change is paid. */
    method TakeCoins(ref: nat, money: nat, removeCount: nat, change: nat, drop: bool, ghost deliver: Deliveries)
      returns (outcome: Outcome)
      requires ref < |stacks| && 0 < removeCount <= stacks[ref].count && change < UnitWorth(stacks[ref].coin)
      requires Worth(stacks[ref].coin, removeCount) == money + change && DeliveriesOf(deliver, env, drop)
      modifies this`stacks, this`ground, this`calls, this`removed
      ensures outcome == Failed || outcome == Done
      ensures
        var paid := deliver(old(calls), change);
        && (outcome == Done ==>
              && removed == old(removed) + 1
              && Total(stacks) + ground + money == Total(old(stacks)) + old(ground) + paid.surplus)
        && (outcome == Done <==> removals(old(removed)) && paid.ok)
    {
      ghost var stack := stacks[ref];
      var ok := PayChange(change, drop, deliver);
      if !ok {
        return Failed;
      }
      assert stacks[ref] == stack;
      TotalUpdate(stacks, ref, stack.(count := stack.count - removeCount));
      WorthSplits(stack.coin, stack.count - removeCount, removeCount);
      ok := RemoveItem(ref, removeCount);
      if !ok {
        return Failed;
      }
      return Done;
    }

    /** The change of a split, unless there is none. */
    method PayChange(change: nat, drop: bool, ghost deliver: Deliveries) returns (ok: bool)
      requires DeliveriesOf(deliver, env, drop)
      modifies this`stacks, this`ground, this`calls
      ensures
        var paid := deliver(old(calls), change);
        && ok == paid.ok
        && (ok ==> Total(stacks) + ground == Total(old(stacks)) + old(ground) + change + paid.surplus)
      ensures |old(stacks)| <= |stacks|
      ensures forall i ::
        0 <= i < |old(stacks)| && UnitWorth(old(stacks)[i].coin) > change ==> stacks[i] == old(stacks)[i]
    {
      if change == 0 {
        NoDelivery(deliver, env, calls, drop);
        return true;
      }
      ok := Deliver(change, drop);
      if ok {
        DeliveryExactIff(env, old(calls), change, drop);
      }
    }
  }

  /** The coins to take from a stack that is worth more than the money, and the change. */
  method CoinsNeeded(s: Stack, worth: nat, money: nat) returns (unitWorth: nat, removeCount: nat, change: nat)
    requires s.count > 0 && worth == StackWorth(s) && 0 < money < worth
    ensures unitWorth == UnitWorth(s.coin)
    ensures 0 < removeCount <= s.count && Worth(s.coin, removeCount) == money + change
    ensures removeCount == CoinsFor(s, money) && change == ChangeOf(s, money) && change < unitWorth
  {
    WorthPerCoin(s);
    unitWorth := worth / s.count;
    removeCount := (money + unitWorth - 1) / unitWorth;
    CeilingCoins(s, money);
    change := unitWorth * removeCount - money;
  }

  lemma NoneThen(call: nat, c: Course)
    ensures Then(NoCourse(call), c) == c
  {
    assert [] + c.created == c.created;
  }

  lemma ThenAssociates(a: Course, b: Course, c: Course)
    ensures Then(a, Then(b, c)) == Then(Then(a, b), c)
  {
    assert a.created + b.created + c.created == a.created + (b.created + c.created);
  }

  /** One round of the loop of `addCoins`, after the course `sofar`. */
  lemma AddCoinsOnce(env: Env, call: nat, coin: CoinType, left: nat, drop: bool, sofar: Course)
    requires left > 0
    ensures
      var create := if left <= STACK_LIMIT then left else STACK_LIMIT;
      var one := AddCoinStack(env, call, coin, create, drop);
      Then(sofar, AddCoins(env, call, coin, left, drop)) ==
        if one.ret != NoError then Then(sofar, one)
        else Then(Then(sofar, one), AddCoins(env, one.calls, coin, left - create, drop))
  {
    var create := if left <= STACK_LIMIT then left else STACK_LIMIT;
    var one := AddCoinStack(env, call, coin, create, drop);
    ThenAssociates(sofar, one, AddCoins(env, one.calls, coin, left - create, drop));
  }

  lemma ThenNone(a: Course)
    requires a.ret == NoError
    ensures Then(a, NoCourse(a.calls)) == a
  {
  }

  lemma NoMoney(env: Env, call: nat, drop: bool)
    ensures AddMoney(env, call, 0, drop) == NoCourse(call)
  {
    assert Breakdown(0) == Coinage(0, 0, 0);
    assert forall coin :: AddCoins(env, call, coin, 0, drop) == NoCourse(call);
    NoneThen(call, NoCourse(call));
    assert AddBreakdown(env, call, 0, 0, 0, drop) == NoCourse(call);
  }

  lemma WorthPerCoin(s: Stack)
    requires s.count > 0
    ensures StackWorth(s) / s.count == UnitWorth(s.coin)
  {
    match s.coin
    case Gold => assert s.count / s.count == 1;
    case Platinum => DivideBack(s.count, 100);
    case Crystal => DivideBack(s.count, 10000);
  }

  lemma DivideBack(count: nat, unit: nat)
    requires count > 0
    ensures count * unit / count == unit
  {
    var q := count * unit / count;
    assert count * unit == q * count + count * unit % count;
    if q < unit { MulGrows(count, q + 1, unit); }
    if unit < q { MulGrows(count, unit + 1, q); }
  }

  lemma MulGrows(count: nat, a: nat, b: nat)
    requires a <= b
    ensures count * a <= count * b
  {
    assert count * b == count * a + count * (b - a);
  }

  /** As many coins as cover the money, and less than one coin too much. */
  lemma CeilingCoins(s: Stack, money: nat)
    requires money < StackWorth(s)
    ensures
      var u, n := UnitWorth(s.coin), CoinsFor(s, money);
      && (money > 0 ==> 0 < n) && n <= s.count
      && n == (money + u - 1) / u && u * n == Worth(s.coin, n) && 0 <= u * n - money < u
  {
  }
}
