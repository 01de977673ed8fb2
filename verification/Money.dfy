/** Paying money out as coins, and taking money from coins and bank. */
module Money {
  import opened Coins

  const STACK_LIMIT: nat := 100

  datatype ReturnValue = NoError | NotEnoughCapacity | NotEnoughRoom | ContainerNotEnoughRoom | NotPossible | OtherError

  /** The answer to one `internalAddItem`: on success all but the remainder is placed, on an
      error nothing is. */
  datatype Answer = Answer(ret: ReturnValue, remainder: nat)

  /** What the game around decides: the answers in the order of the calls, and whether the
      cylinder stands on a tile. */
  datatype Env = Env(answers: nat -> Answer, hasTile: bool)

  datatype ItemOutcome = ItemOutcome(placed: nat, remainder: nat, ret: ReturnValue)

  function AddItem(env: Env, call: nat, count: nat): (o: ItemOutcome)
    ensures o.placed <= count
    ensures o.ret == NoError && o.remainder == 0 ==> o.placed == count
  {
    var a := env.answers(call);
    ItemOutcome(if a.ret == NoError && a.remainder <= count then count - a.remainder else 0, a.remainder, a.ret)
  }

  /** The course of an addition: its return value, the calls made, the worth it reports, the
      worth that went to the cylinder and to the map, and the stacks it created. */
  datatype Course = Course(ret: ReturnValue, calls: nat, added: nat, carried: nat, dropped: nat, created: seq<nat>)

  function Missing(ret: ReturnValue): ReturnValue { if ret != NoError then ret else NotEnoughRoom }

  function AddCoinStack(env: Env, call: nat, coin: CoinType, count: nat, drop: bool): Course {
    var o := AddItem(env, call, count);
    var carried := Worth(coin, o.placed);
    if o.ret == NoError && o.remainder == 0 then Course(NoError, call + 1, carried, carried, 0, [count])
    else if !drop || !env.hasTile then Course(Missing(o.ret), call + 1, carried, carried, 0, [count])
    else
      var dropCount := count - o.placed;
      if dropCount == 0 then Course(Missing(o.ret), call + 1, carried, carried, 0, [count])
      else
        var d := AddItem(env, call + 1, dropCount);
        var dropped := Worth(coin, d.placed);
        Course(if d.ret != NoError then d.ret else if d.remainder != 0 then Missing(o.ret) else NoError,
               call + 2, carried + dropped, carried, dropped, [count, dropCount])
  }

  /** One course after another. */
  function Then(a: Course, b: Course): Course {
    Course(b.ret, b.calls, a.added + b.added, a.carried + b.carried, a.dropped + b.dropped, a.created + b.created)
  }

  function NoCourse(call: nat): Course { Course(NoError, call, 0, 0, 0, []) }

  function AddCoins(env: Env, call: nat, coin: CoinType, count: nat, drop: bool): Course
    decreases count
  {
    if count == 0 then NoCourse(call)
    else
      var create := if count <= STACK_LIMIT then count else STACK_LIMIT;
      var c := AddCoinStack(env, call, coin, create, drop);
      if c.ret != NoError then c else Then(c, AddCoins(env, c.calls, coin, count - create, drop))
  }

  /** So many crystal, platinum and gold coins, each kind only when the one before went well. */
  function AddBreakdown(env: Env, call: nat, crystals: nat, platinum: nat, gold: nat, drop: bool): Course {
    var c := AddCoins(env, call, Crystal, crystals, drop);
    if c.ret != NoError then c
    else
      var p := Then(c, AddCoins(env, c.calls, Platinum, platinum, drop));
      if p.ret != NoError then p else Then(p, AddCoins(env, p.calls, Gold, gold, drop))
  }

  datatype Coinage = Coinage(crystals: nat, platinum: nat, gold: nat)

  function Breakdown(money: nat): (c: Coinage)
    ensures c.crystals * 10000 + c.platinum * 100 + c.gold == money
    ensures c.platinum < 100 && c.gold < 100
  {
    var crystals := money / 10000;
    var rest := money - crystals * 10000;
    Coinage(crystals, rest / 100, rest - rest / 100 * 100)
  }

  function AddMoney(env: Env, call: nat, money: nat, drop: bool): Course {
    var b := Breakdown(money);
    AddBreakdown(env, call, b.crystals, b.platinum, b.gold, drop)
  }

  /** The report is the worth placed, never more than asked, and there is no error exactly
      when everything asked was placed; every stack created holds 1 to 100 coins. */
  predicate Honest(c: Course, asked: nat) {
    && c.added == c.carried + c.dropped <= asked
    && (c.ret == NoError <==> c.added == asked)
    && (forall k :: 0 <= k < |c.created| ==> 1 <= c.created[k] <= STACK_LIMIT)
  }

  lemma AddCoinStackHonest(env: Env, call: nat, coin: CoinType, count: nat, drop: bool)
    requires 1 <= count <= STACK_LIMIT
    ensures Honest(AddCoinStack(env, call, coin, count, drop), Worth(coin, count))
  {
  }

  lemma ThenHonest(a: Course, b: Course, x: nat, y: nat)
    requires Honest(a, x) && a.ret == NoError && Honest(b, y)
    ensures Honest(Then(a, b), x + y)
  {
  }

  lemma HonestLess(c: Course, x: nat, y: nat)
    requires Honest(c, x) && c.ret != NoError && x <= y
    ensures Honest(c, y)
  {
  }

  lemma {:induction false} AddCoinsHonest(env: Env, call: nat, coin: CoinType, count: nat, drop: bool)
    ensures Honest(AddCoins(env, call, coin, count, drop), Worth(coin, count))
    decreases count
  {
    if count > 0 {
      var create := if count <= STACK_LIMIT then count else STACK_LIMIT;
      AddCoinStackHonest(env, call, coin, create, drop);
      var c := AddCoinStack(env, call, coin, create, drop);
      WorthSplits(coin, create, count - create);
      if c.ret == NoError {
        var left := count - create;
        AddCoinsHonest(env, c.calls, coin, left, drop);
        ThenHonest(c, AddCoins(env, c.calls, coin, left, drop), Worth(coin, create), Worth(coin, left));
      } else {
        HonestLess(c, Worth(coin, create), Worth(coin, count));
      }
    }
  }

  lemma AddBreakdownHonest(env: Env, call: nat, crystals: nat, platinum: nat, gold: nat, drop: bool)
    ensures Honest(AddBreakdown(env, call, crystals, platinum, gold, drop), crystals * 10000 + platinum * 100 + gold)
  {
    var all := crystals * 10000 + platinum * 100 + gold;
    AddCoinsHonest(env, call, Crystal, crystals, drop);
    var c := AddCoins(env, call, Crystal, crystals, drop);
    if c.ret != NoError {
      HonestLess(c, crystals * 10000, all);
    } else {
      AddCoinsHonest(env, c.calls, Platinum, platinum, drop);
      ThenHonest(c, AddCoins(env, c.calls, Platinum, platinum, drop), crystals * 10000, platinum * 100);
      var p := Then(c, AddCoins(env, c.calls, Platinum, platinum, drop));
      if p.ret != NoError {
        HonestLess(p, crystals * 10000 + platinum * 100, all);
      } else {
        AddCoinsHonest(env, p.calls, Gold, gold, drop);
        ThenHonest(p, AddCoins(env, p.calls, Gold, gold, drop), crystals * 10000 + platinum * 100, gold);
      }
    }
  }

  /** The breakdown of an amount into coins is exact, so every payment is honest. */
  lemma AddMoneyHonest(env: Env, call: nat, money: nat, drop: bool)
    ensures Honest(AddMoney(env, call, money, drop), money)
  {
    var b := Breakdown(money);
    AddBreakdownHonest(env, call, b.crystals, b.platinum, b.gold, drop);
  }

  // ---- Change ----

  predicate Full(ret: ReturnValue) { ret == NotEnoughCapacity || ret == NotEnoughRoom || ret == ContainerNotEnoughRoom }

  /** Change is paid once, and once more with dropping allowed when there was no room. */
  datatype Delivery = Delivery(ok: bool, first: Course, retried: bool, all: Course)

  function DeliverChange(env: Env, call: nat, change: nat, drop: bool): Delivery {
    var first := AddMoney(env, call, change, drop);
    if first.added < change && !drop && Full(first.ret) then
      var second := AddMoney(env, first.calls, change, true);
      Delivery(second.added >= change, first, true, Then(first, second))
    else
      Delivery(first.added >= change, first, false, first)
  }

  // ---- When change is paid exactly ----

  /** The sizes of the stacks that `addCoins` makes of a number of coins. */
  function StackSizes(count: nat): seq<nat> {
    if count == 0 then []
    else
      var create := if count <= STACK_LIMIT then count else STACK_LIMIT;
      [create] + StackSizes(count - create)
  }

  /** The sizes of the stacks of an amount, crystal coins first. */
  function ChangeStacks(money: nat): seq<nat> {
    var b := Breakdown(money);
    StackSizes(b.crystals) + StackSizes(b.platinum) + StackSizes(b.gold)
  }

  /** Why the cylinder does not take these stacks, offered one after another: what it says to
      the first one that it does not take whole. */
  function Refusal(env: Env, call: nat, sizes: seq<nat>): ReturnValue
    decreases |sizes|
  {
    if sizes == [] then NoError
    else
      var o := AddItem(env, call, sizes[0]);
      if o.ret == NoError && o.remainder == 0 then Refusal(env, call + 1, sizes[1..]) else Missing(o.ret)
  }

  /** How many coins of the first stack the cylinder takes. */
  function FirstPlaced(env: Env, call: nat, sizes: seq<nat>): nat {
    if sizes == [] then 0 else AddItem(env, call, sizes[0]).placed
  }

  /** Change is handed out twice in part: coins may not be dropped, the cylinder has no room
      for all of the stacks, and it takes something of the first one. */
  predicate PaysTwice(env: Env, call: nat, change: nat, drop: bool) {
    !drop && Full(Refusal(env, call, ChangeStacks(change))) && FirstPlaced(env, call, ChangeStacks(change)) > 0
  }

  /** What is handed out on top of the change. */
  function Surplus(env: Env, call: nat, change: nat, drop: bool): nat {
    if PaysTwice(env, call, change, drop) then AddMoney(env, call, change, drop).added else 0
  }

  /** The course `c` without dropping is the offer of stacks of these sizes. */
  predicate Offers(env: Env, call: nat, c: Course, sizes: seq<nat>) {
    && c.ret == Refusal(env, call, sizes)
    && (c.ret == NoError ==> c.calls == call + |sizes|)
    && (c.added == 0 <==> FirstPlaced(env, call, sizes) == 0)
    && (c.ret == NoError && sizes != [] ==> c.added > 0)
  }

  lemma {:induction false} RefusalConcat(env: Env, call: nat, a: seq<nat>, b: seq<nat>)
    ensures
      var r := Refusal(env, call, a);
      Refusal(env, call, a + b) == if r != NoError then r else Refusal(env, call + |a|, b)
    decreases |a|
  {
    if a == [] {
      assert a + b == b;
    } else {
      assert (a + b)[1..] == a[1..] + b;
      RefusalConcat(env, call + 1, a[1..], b);
    }
  }

  lemma {:induction false} AddCoinsOffers(env: Env, call: nat, coin: CoinType, count: nat)
    ensures Offers(env, call, AddCoins(env, call, coin, count, false), StackSizes(count))
    decreases count
  {
    if count > 0 {
      var create := if count <= STACK_LIMIT then count else STACK_LIMIT;
      assert StackSizes(count)[1..] == StackSizes(count - create);
      AddCoinsOffers(env, call + 1, coin, count - create);
    }
  }

  /** Offers one after another are the offer of all their stacks. */
  lemma OffersThen(env: Env, call: nat, a: Course, b: Course, x: seq<nat>, y: seq<nat>)
    requires Offers(env, call, a, x) && (x == [] ==> a.ret == NoError)
    requires a.ret == NoError ==> Offers(env, a.calls, b, y)
    ensures Offers(env, call, if a.ret != NoError then a else Then(a, b), x + y)
  {
    RefusalConcat(env, call, x, y);
    assert x + y != [] ==> (x + y)[0] == if x == [] then y[0] else x[0];
    assert x == [] ==> x + y == y;
  }

  lemma AddMoneyOffers(env: Env, call: nat, money: nat)
    ensures Offers(env, call, AddMoney(env, call, money, false), ChangeStacks(money))
  {
    var b := Breakdown(money);
    var c := AddCoins(env, call, Crystal, b.crystals, false);
    AddCoinsOffers(env, call, Crystal, b.crystals);
    var p := AddCoins(env, c.calls, Platinum, b.platinum, false);
    AddCoinsOffers(env, c.calls, Platinum, b.platinum);
    var x := StackSizes(b.crystals) + StackSizes(b.platinum);
    OffersThen(env, call, c, p, StackSizes(b.crystals), StackSizes(b.platinum));
    if c.ret == NoError {
      var cp := Then(c, p);
      AddCoinsOffers(env, cp.calls, Gold, b.gold);
      OffersThen(env, call, cp, AddCoins(env, cp.calls, Gold, b.gold, false), x, StackSizes(b.gold));
    } else {
      RefusalConcat(env, call, x, StackSizes(b.gold));
    }
  }

  /** A delivery that succeeds hands out exactly the change if and only if it does not pay
      twice, and otherwise on top of it what the first attempt had placed. */
  lemma DeliveryExactIff(env: Env, call: nat, change: nat, drop: bool)
    requires DeliverChange(env, call, change, drop).ok
    ensures
      var d := DeliverChange(env, call, change, drop);
      && (d.all.added == change <==> !PaysTwice(env, call, change, drop))
      && d.all.added == change + Surplus(env, call, change, drop)
      && d.all.added == d.all.carried + d.all.dropped
  {
    AddMoneyHonest(env, call, change, drop);
    AddMoneyHonest(env, AddMoney(env, call, change, drop).calls, change, true);
    if !drop { AddMoneyOffers(env, call, change); }
  }

  /** In particular it is exact when the first attempt places all of the change or nothing. */
  lemma AllOrNothingIsExact(env: Env, call: nat, change: nat, drop: bool)
    requires
      var added := AddMoney(env, call, change, drop).added;
      added == 0 || added == change
    ensures !PaysTwice(env, call, change, drop)
  {
    AddMoneyHonest(env, call, change, drop);
    if !drop { AddMoneyOffers(env, call, change); }
  }

  /** The change of 150 costs 250 when the platinum coin fits into the cylinder, and fits
      again, the gold coins do not, and the second attempt drops them on the map. */
  lemma PartialDeliveryOverpays()
    ensures PaysTwice(Env(NoRoomForGold, true), 0, 150, false)
    ensures
      var d := DeliverChange(Env(NoRoomForGold, true), 0, 150, false);
      d.ok && d.retried && d.all.added == 250 && d.all.carried == 200 && d.all.dropped == 50
  {
    var env := Env(NoRoomForGold, true);
    OneStack(env, 0, Platinum, 1, false);
    OneStack(env, 1, Gold, 50, false);
    OneStack(env, 2, Platinum, 1, true);
    OneStack(env, 3, Gold, 50, true);
    assert AddMoney(env, 0, 150, false).carried == 100 && AddMoney(env, 0, 150, false).ret == NotEnoughRoom;
    assert AddMoney(env, 2, 150, true).carried == 100 && AddMoney(env, 2, 150, true).dropped == 50;
    DeliveryExactIff(env, 0, 150, false);
  }

  lemma OneStack(env: Env, call: nat, coin: CoinType, count: nat, drop: bool)
    requires 0 < count <= STACK_LIMIT
    ensures
      var c := AddCoinStack(env, call, coin, count, drop);
      AddCoins(env, call, coin, count, drop) == if c.ret != NoError then c else Then(c, NoCourse(c.calls))
  {
    assert forall n :: AddCoins(env, n, coin, 0, drop) == NoCourse(n);
  }

  /** The gold is offered to the cylinder at calls 1 and 3, and to the tile at call 4. */
  function NoRoomForGold(call: nat): Answer {
    if call == 1 || call == 3 then Answer(NotEnoughRoom, 50) else Answer(NoError, 0)
  }

  // ---- One stack and one delivery ----

  /** What does not fit goes to the map exactly when that is allowed and there is a tile; the
      stack is placed exactly when the cylinder takes all of it or the map takes the rest. */
  lemma StackPlacedIff(env: Env, call: nat, coin: CoinType, count: nat, drop: bool)
    requires 1 <= count <= STACK_LIMIT
    ensures
      var c, o := AddCoinStack(env, call, coin, count, drop), AddItem(env, call, count);
      var d := AddItem(env, call + 1, count - o.placed);
      var whole := o.ret == NoError && o.remainder == 0;
      var drops := !whole && drop && env.hasTile && o.placed < count;
      && c.carried == Worth(coin, o.placed)
      && c.dropped == (if drops then Worth(coin, d.placed) else 0)
      && (c.ret == NoError <==> whole || (drops && d.ret == NoError && d.remainder == 0))
      && (c.ret != NoError ==>
            c.ret == if drops && d.ret != NoError then d.ret else if o.ret != NoError then o.ret else NotEnoughRoom)
  {
  }

  /** A delivery succeeds exactly when the first attempt places everything, or was refused for
      room without leave to drop and the second one, with that leave, does. */
  lemma DeliveryOkIff(env: Env, call: nat, change: nat, drop: bool)
    ensures
      var first := AddMoney(env, call, change, drop);
      DeliverChange(env, call, change, drop).ok <==>
        || first.ret == NoError
        || (!drop && AddMoney(env, first.calls, change, true).ret == NoError
            && Refusal(env, call, ChangeStacks(change)) in {NotEnoughCapacity, NotEnoughRoom, ContainerNotEnoughRoom})
  {
    var first := AddMoney(env, call, change, drop);
    AddMoneyHonest(env, call, change, drop);
    AddMoneyHonest(env, first.calls, change, true);
    if !drop { AddMoneyOffers(env, call, change); }
  }
}
