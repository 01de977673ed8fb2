/** Coin stacks, their worth, and the search for them in nested containers. */
module Coins {

  datatype CoinType = Gold | Platinum | Crystal

  function Worth(t: CoinType, count: nat): nat {
    match t
    case Gold => count
    case Platinum => count * 100
    case Crystal => count * 10000
  }

  lemma WorthSplits(t: CoinType, a: nat, b: nat)
    ensures Worth(t, a + b) == Worth(t, a) + Worth(t, b)
  {
  }

  function UnitWorth(t: CoinType): nat { Worth(t, 1) }

  /** A stack of coins of one type. A stack of no coins is gone. */
  datatype Stack = Stack(coin: CoinType, count: nat)

  function StackWorth(s: Stack): nat { Worth(s.coin, s.count) }

  /** All coin stacks of a cylinder; an item is known by its index. */
  function Total(stacks: seq<Stack>): nat {
    if stacks == [] then 0 else Total(stacks[..|stacks| - 1]) + StackWorth(stacks[|stacks| - 1])
  }

  lemma {:induction false} TotalUpdate(stacks: seq<Stack>, i: nat, s: Stack)
    requires i < |stacks|
    ensures Total(stacks[i := s]) + StackWorth(stacks[i]) == Total(stacks) + StackWorth(s)
    ensures StackWorth(stacks[i]) <= Total(stacks)
  {
    var n := |stacks| - 1;
    if i == n {
      assert stacks[i := s][..n] == stacks[..n];
    } else {
      assert stacks[i := s][..n] == stacks[..n][i := s];
      TotalUpdate(stacks[..n], i, s);
    }
  }

  lemma TotalAppend(stacks: seq<Stack>, s: Stack)
    ensures Total(stacks + [s]) == Total(stacks) + StackWorth(s)
  {
    assert (stacks + [s])[..|stacks|] == stacks;
  }

  /** What a slot or a container list may hold. */
  datatype Item = Nothing | Coin(ref: nat) | Other | Bag(contents: seq<Item>)

  function WorthAt(stacks: seq<Stack>, ref: nat): nat {
    if ref < |stacks| then StackWorth(stacks[ref]) else 0
  }

  datatype Entry = Entry(worth: nat, ref: nat)

  /** What is counted over nested containers: their worth, or the coin stacks like `e`. */
  datatype Measure = WorthOf | StacksLike(e: Entry)

  function Weight(stacks: seq<Stack>, ref: nat, m: Measure): nat {
    match m
    case WorthOf => WorthAt(stacks, ref)
    case StacksLike(e) => if WorthAt(stacks, ref) != 0 && e == Entry(WorthAt(stacks, ref), ref) then 1 else 0
  }

  /** The measure of a list of items, all bags inside included. */
  function Tally(stacks: seq<Stack>, items: seq<Item>, m: Measure): nat
    decreases items, 1
  {
    if items == [] then 0 else TallyOf(stacks, items[0], m) + Tally(stacks, items[1..], m)
  }

  function TallyOf(stacks: seq<Stack>, item: Item, m: Measure): nat
    decreases item, 0
  {
    match item
    case Coin(ref) => Weight(stacks, ref, m)
    case Bag(contents) => Tally(stacks, contents, m)
    case _ => 0
  }

  function TallyBags(stacks: seq<Stack>, bags: seq<seq<Item>>, m: Measure): nat {
    if bags == [] then 0 else Tally(stacks, bags[0], m) + TallyBags(stacks, bags[1..], m)
  }

  /** How many items there are, bags and their contents counted. */
  function Size(items: seq<Item>): nat
    decreases items, 1
  {
    if items == [] then 0 else SizeOf(items[0]) + Size(items[1..])
  }

  function SizeOf(item: Item): nat
    decreases item, 0
  {
    1 + if item.Bag? then Size(item.contents) else 0
  }

  function SizeBags(bags: seq<seq<Item>>): nat {
    if bags == [] then 0 else 1 + Size(bags[0]) + SizeBags(bags[1..])
  }

  lemma {:induction false} BagsConcat(stacks: seq<Stack>, a: seq<seq<Item>>, b: seq<seq<Item>>, m: Measure)
    ensures TallyBags(stacks, a + b, m) == TallyBags(stacks, a, m) + TallyBags(stacks, b, m)
    decreases |a|
  {
    if a == [] {
      assert a + b == b;
    } else {
      assert (a + b)[1..] == a[1..] + b;
      BagsConcat(stacks, a[1..], b, m);
    }
  }

  lemma OneBag(stacks: seq<Stack>, bag: seq<Item>, m: Measure)
    ensures TallyBags(stacks, [bag], m) == Tally(stacks, bag, m)
  {
    assert [bag][1..] == [];
  }

  // ---- The sorted list of coin stacks ----

  predicate Sorted(entries: seq<Entry>) {
    forall i, j :: 0 <= i < j < |entries| ==> entries[i].worth <= entries[j].worth
  }

  /** `emplace` of a multimap: behind the entries of the same key. */
  function Insert(entries: seq<Entry>, e: Entry): (r: seq<Entry>)
    ensures |r| == |entries| + 1
  {
    if entries == [] || entries[|entries| - 1].worth <= e.worth then entries + [e]
    else Insert(entries[..|entries| - 1], e) + [entries[|entries| - 1]]
  }

  function EntryTotal(entries: seq<Entry>): nat {
    if entries == [] then 0 else EntryTotal(entries[..|entries| - 1]) + entries[|entries| - 1].worth
  }

  predicate AtMost(entries: seq<Entry>, w: nat) { forall i :: 0 <= i < |entries| ==> entries[i].worth <= w }

  lemma {:induction false} InsertAtMost(entries: seq<Entry>, e: Entry, w: nat)
    requires AtMost(entries, w) && e.worth <= w
    ensures AtMost(Insert(entries, e), w)
  {
    if entries != [] && entries[|entries| - 1].worth > e.worth {
      InsertAtMost(entries[..|entries| - 1], e, w);
    }
  }

  lemma {:induction false} InsertKeeps(entries: seq<Entry>, e: Entry)
    requires Sorted(entries)
    ensures Sorted(Insert(entries, e))
    ensures EntryTotal(Insert(entries, e)) == EntryTotal(entries) + e.worth
  {
    if entries == [] || entries[|entries| - 1].worth <= e.worth {
      assert (entries + [e])[..|entries|] == entries;
    } else {
      var front, last := entries[..|entries| - 1], entries[|entries| - 1];
      InsertKeeps(front, e);
      InsertAtMost(front, e, last.worth);
      assert (Insert(front, e) + [last])[..|front| + 1] == Insert(front, e);
    }
  }

  lemma {:induction false} InsertAdds(entries: seq<Entry>, e: Entry, x: Entry)
    ensures multiset(Insert(entries, e))[x] == multiset(entries)[x] + (if x == e then 1 else 0)
  {
    if entries != [] && entries[|entries| - 1].worth > e.worth {
      InsertAdds(entries[..|entries| - 1], e, x);
      assert entries == entries[..|entries| - 1] + [entries[|entries| - 1]];
    }
  }

  // ---- The search ----

  datatype Collection = Collection(entries: seq<Entry>, total: nat)

  const NOTHING := Collection([], 0)

  function Measured(c: Collection, m: Measure): nat {
    match m
    case WorthOf => c.total
    case StacksLike(e) => multiset(c.entries)[e]
  }

  predicate Proper(c: Collection) { Sorted(c.entries) && c.total == EntryTotal(c.entries) }

  function Collect(c: Collection, stacks: seq<Stack>, ref: nat): Collection {
    var worth := WorthAt(stacks, ref);
    if worth == 0 then c else Collection(Insert(c.entries, Entry(worth, ref)), c.total + worth)
  }

  lemma CollectOne(c: Collection, stacks: seq<Stack>, ref: nat)
    requires Proper(c)
    ensures Proper(Collect(c, stacks, ref))
    ensures forall m :: Measured(Collect(c, stacks, ref), m) == Measured(c, m) + Weight(stacks, ref, m)
  {
    InsertKeeps(c.entries, Entry(WorthAt(stacks, ref), ref));
    forall m ensures Measured(Collect(c, stacks, ref), m) == Measured(c, m) + Weight(stacks, ref, m) {
      CollectMeasured(c, stacks, ref, m);
    }
  }

  lemma CollectMeasured(c: Collection, stacks: seq<Stack>, ref: nat, m: Measure)
    ensures Measured(Collect(c, stacks, ref), m) == Measured(c, m) + Weight(stacks, ref, m)
  {
    if m.StacksLike? { InsertAdds(c.entries, Entry(WorthAt(stacks, ref), ref), m.e); }
  }

  /** The coins in a list, bags passed over. */
  function CollectList(stacks: seq<Stack>, items: seq<Item>, c: Collection): Collection {
    if items == [] then c
    else
      var front, last := items[..|items| - 1], items[|items| - 1];
      var c1 := CollectList(stacks, front, c);
      if last.Coin? then Collect(c1, stacks, last.ref) else c1
  }

  /** The bags in a list, in order. */
  function BagsOf(items: seq<Item>): (bags: seq<seq<Item>>)
    ensures SizeBags(bags) <= Size(items)
  {
    if items == [] then []
    else
      var front, last := items[..|items| - 1], items[|items| - 1];
      SizeSnoc(front, last);
      assert items == front + [last];
      if last.Bag? then BagsSizeSnoc(BagsOf(front), last.contents); BagsOf(front) + [last.contents] else BagsOf(front)
  }

  /** The coins in the waiting bags, breadth first. */
  function Search(stacks: seq<Stack>, waiting: seq<seq<Item>>, c: Collection): Collection
    decreases SizeBags(waiting)
  {
    if waiting == [] then c
    else
      SizeBagsConcat(waiting[1..], BagsOf(waiting[0]));
      Search(stacks, waiting[1..] + BagsOf(waiting[0]), CollectList(stacks, waiting[0], c))
  }

  /** What `collectMoney` finds: the slots first, then the containers breadth first. */
  function Found(stacks: seq<Stack>, slots: seq<Item>): Collection {
    Search(stacks, BagsOf(slots), CollectList(stacks, slots, NOTHING))
  }

  lemma {:induction false} SizeSnoc(items: seq<Item>, last: Item)
    ensures Size(items + [last]) == Size(items) + SizeOf(last)
    decreases |items|
  {
    if items != [] {
      assert (items + [last])[1..] == items[1..] + [last];
      SizeSnoc(items[1..], last);
    }
  }

  lemma {:induction false} SizeBagsConcat(a: seq<seq<Item>>, b: seq<seq<Item>>)
    ensures SizeBags(a + b) == SizeBags(a) + SizeBags(b)
    decreases |a|
  {
    if a == [] {
      assert a + b == b;
    } else {
      assert (a + b)[1..] == a[1..] + b;
      SizeBagsConcat(a[1..], b);
    }
  }

  lemma BagsSizeSnoc(bags: seq<seq<Item>>, bag: seq<Item>)
    ensures SizeBags(bags + [bag]) == SizeBags(bags) + 1 + Size(bag)
  {
    SizeBagsConcat(bags, [bag]);
  }

  lemma {:induction false} TallySnoc(stacks: seq<Stack>, items: seq<Item>, last: Item, m: Measure)
    ensures Tally(stacks, items + [last], m) == Tally(stacks, items, m) + TallyOf(stacks, last, m)
    decreases |items|
  {
    if items != [] {
      assert (items + [last])[1..] == items[1..] + [last];
      TallySnoc(stacks, items[1..], last, m);
    }
  }

  lemma {:induction false} ListProper(stacks: seq<Stack>, items: seq<Item>, c: Collection)
    requires Proper(c)
    ensures Proper(CollectList(stacks, items, c))
  {
    if items != [] {
      var front, last := items[..|items| - 1], items[|items| - 1];
      ListProper(stacks, front, c);
      if last.Coin? { CollectOne(CollectList(stacks, front, c), stacks, last.ref); }
    }
  }

  /** What is collected from a list and what waits in its bags is what the list holds. */
  lemma {:induction false} ListMeasures(stacks: seq<Stack>, items: seq<Item>, c: Collection, m: Measure)
    requires Proper(c)
    ensures
      var r := CollectList(stacks, items, c);
      Measured(r, m) + TallyBags(stacks, BagsOf(items), m) == Measured(c, m) + Tally(stacks, items, m)
  {
    if items != [] {
      var front, last := items[..|items| - 1], items[|items| - 1];
      assert items == front + [last];
      ListMeasures(stacks, front, c, m);
      ListProper(stacks, front, c);
      TallySnoc(stacks, front, last, m);
      match last
      case Coin(ref) => CollectOne(CollectList(stacks, front, c), stacks, ref);
      case Bag(contents) =>
        BagsConcat(stacks, BagsOf(front), [contents], m);
        OneBag(stacks, contents, m);
      case _ =>
    }
  }

  lemma {:induction false} SearchMeasures(stacks: seq<Stack>, waiting: seq<seq<Item>>, c: Collection, m: Measure)
    requires Proper(c)
    ensures Proper(Search(stacks, waiting, c))
    ensures Measured(Search(stacks, waiting, c), m) == Measured(c, m) + TallyBags(stacks, waiting, m)
    decreases SizeBags(waiting)
  {
    if waiting != [] {
      var bags := BagsOf(waiting[0]);
      SizeBagsConcat(waiting[1..], bags);
      ListProper(stacks, waiting[0], c);
      ListMeasures(stacks, waiting[0], c, m);
      BagsConcat(stacks, waiting[1..], bags, m);
      SearchMeasures(stacks, waiting[1..] + bags, CollectList(stacks, waiting[0], c), m);
    }
  }

  /** The total found is the recursive worth of the nested containers, and the list holds every
      coin stack with worth as often as it is there, sorted by worth. */
  lemma FoundIsAll(stacks: seq<Stack>, slots: seq<Item>)
    ensures Proper(Found(stacks, slots))
    ensures Found(stacks, slots).total == Tally(stacks, slots, WorthOf)
    ensures forall e :: multiset(Found(stacks, slots).entries)[e] == Tally(stacks, slots, StacksLike(e))
  {
    var c := CollectList(stacks, slots, NOTHING);
    ListProper(stacks, slots, NOTHING);
    forall m ensures Proper(Found(stacks, slots)) && Measured(Found(stacks, slots), m) == Tally(stacks, slots, m) {
      ListMeasures(stacks, slots, NOTHING, m);
      SearchMeasures(stacks, BagsOf(slots), c, m);
    }
    assert Measured(Found(stacks, slots), WorthOf) == Tally(stacks, slots, WorthOf);
    forall e ensures multiset(Found(stacks, slots).entries)[e] == Tally(stacks, slots, StacksLike(e)) {
      assert Measured(Found(stacks, slots), StacksLike(e)) == Tally(stacks, slots, StacksLike(e));
    }
  }

  /** `collectMoneyFromItem` over a list: coins are collected at once, bags wait in `added`. */
  method CollectFromList(stacks: seq<Stack>, items: seq<Item>, c0: Collection)
    returns (added: seq<seq<Item>>, c: Collection)
    ensures added == BagsOf(items) && c == CollectList(stacks, items, c0)
  {
    added, c := [], c0;
    var k := 0;
    while k < |items|
      invariant k <= |items|
      invariant added == BagsOf(items[..k]) && c == CollectList(stacks, items[..k], c0)
    {
      assert items[..k + 1][..k] == items[..k];
      match items[k] {
        case Bag(contents) =>
          added := added + [contents];
        case Coin(ref) =>
          var worth := if ref < |stacks| then StackWorth(stacks[ref]) else 0;
          if worth != 0 {
            c := Collection(Insert(c.entries, Entry(worth, ref)), c.total + worth);
          }
        case _ =>
      }
      k := k + 1;
    }
    assert items[..k] == items;
  }

  /** `collectMoney`: the slots first, then the containers breadth first, in the order they
      were met. */
  method CollectMoney(stacks: seq<Stack>, slots: seq<Item>) returns (c: Collection)
    ensures c == Found(stacks, slots) && Proper(c)
    ensures c.total == Tally(stacks, slots, WorthOf)
    ensures forall e :: multiset(c.entries)[e] == Tally(stacks, slots, StacksLike(e))
  {
    FoundIsAll(stacks, slots);
    var containers;
    containers, c := CollectFromList(stacks, slots, NOTHING);
    var i := 0;
    while i < |containers|
      invariant i <= |containers|
      invariant Search(stacks, containers[i..], c) == Found(stacks, slots)
      decreases SizeBags(containers[i..])
    {
      ghost var waiting := containers[i..];
      var container := containers[i];
      i := i + 1;
      var added;
      added, c := CollectFromList(stacks, container, c);
      assert waiting[1..] == containers[i..] && (containers + added)[i..] == containers[i..] + added;
      SizeBagsConcat(waiting[1..], added);
      containers := containers + added;
    }
    assert containers[i..] == [];
  }

  // ---- The order of the search ----

  /** The entries of one worth, in order. */
  function OfWorth(entries: seq<Entry>, w: nat): seq<Entry> {
    if entries == [] then []
    else
      var last := entries[|entries| - 1];
      OfWorth(entries[..|entries| - 1], w) + (if last.worth == w then [last] else [])
  }

  /** Coin stacks of the same worth stay in the order in which they were found. */
  lemma {:induction false} InsertIsStable(entries: seq<Entry>, e: Entry, w: nat)
    ensures OfWorth(Insert(entries, e), w) == OfWorth(entries, w) + (if e.worth == w then [e] else [])
  {
    if entries == [] || entries[|entries| - 1].worth <= e.worth {
      assert (entries + [e])[..|entries|] == entries;
    } else {
      var front, last := entries[..|entries| - 1], entries[|entries| - 1];
      InsertIsStable(front, e, w);
      assert (Insert(front, e) + [last])[..|front| + 1] == Insert(front, e);
    }
  }

  /** The coins of a list of bags, and the bags in them. */
  function CollectBags(stacks: seq<Stack>, bags: seq<seq<Item>>, c: Collection): Collection {
    if bags == [] then c else CollectBags(stacks, bags[1..], CollectList(stacks, bags[0], c))
  }

  function NextLevel(bags: seq<seq<Item>>): seq<seq<Item>> {
    if bags == [] then [] else BagsOf(bags[0]) + NextLevel(bags[1..])
  }

  /** Breadth first: all bags of a level are searched, in order, before any bag inside them. */
  lemma {:induction false} LevelByLevel(stacks: seq<Stack>, a: seq<seq<Item>>, b: seq<seq<Item>>, c: Collection)
    ensures Search(stacks, a + b, c) == Search(stacks, b + NextLevel(a), CollectBags(stacks, a, c))
    decreases |a|
  {
    if a == [] {
      assert a + b == b && b + [] == b;
    } else {
      SearchFirst(stacks, a[0], a[1..] + b, c);
      var inner := BagsOf(a[0]);
      Regroup([a[0]], a[1..], b);
      Regroup(a[1..], b, inner);
      Regroup(b, inner, NextLevel(a[1..]));
      assert a == [a[0]] + a[1..];
      LevelByLevel(stacks, a[1..], b + inner, CollectList(stacks, a[0], c));
    }
  }

  lemma Regroup<T>(a: seq<T>, b: seq<T>, c: seq<T>)
    ensures (a + b) + c == a + (b + c)
  {
  }

  lemma SearchFirst(stacks: seq<Stack>, bag: seq<Item>, rest: seq<seq<Item>>, c: Collection)
    ensures Search(stacks, [bag] + rest, c) == Search(stacks, rest + BagsOf(bag), CollectList(stacks, bag, c))
  {
    assert ([bag] + rest)[1..] == rest;
  }
}
