/** The trade state machine between players. */
module Trade {
  import opened Wrappers

  type PlayerId = nat

  type ItemId = nat

  datatype TradeState = NoTrade | Initiated | Accepted | Acknowledge | Transfer

  datatype Trader = Trader(state: TradeState, partner: Option<PlayerId>, item: Option<ItemId>)

  const AT_EASE := Trader(NoTrade, None, None)

  /** The players online, and the offered items with their offerers. `inside` holds the pairs
      of a container and an item it holds at any depth. */
  datatype Market = Market(
    traders: map<PlayerId, Trader>,
    tradeItems: map<ItemId, PlayerId>,
    inside: set<(ItemId, ItemId)>)

  function Set(m: Market, p: PlayerId, t: Trader): Market { m.(traders := m.traders[p := t]) }

  function Erase(m: Market, item: Option<ItemId>): Market {
    if item.Some? then m.(tradeItems := m.tradeItems - {item.value}) else m
  }

  /** The item is offered already, is inside an offered one, or holds one. */
  predicate Overlaps(m: Market, item: ItemId) {
    item in m.tradeItems || exists i :: i in m.tradeItems && ((item, i) in m.inside || (i, item) in m.inside)
  }

  /** `internalStartTrade`, after the checks of `playerRequestTrade`: two different players, an
      item that overlaps no offered one. `tradeable` stands for the remaining checks of the item. */
  function Request(m: Market, p: PlayerId, q: PlayerId, item: ItemId, tradeable: bool): Market {
    if p !in m.traders || q !in m.traders || p == q || Overlaps(m, item) then m
    else
      var a, b := m.traders[p], m.traders[q];
      if a.state != NoTrade && !(a.state == Acknowledge && a.partner == Some(q)) then m
      else if b.state != NoTrade && b.partner != Some(p) then m
      else if !tradeable then m
      else
        var m1 := Set(m, p, Trader(Initiated, Some(q), Some(item))).(tradeItems := m.tradeItems[item := p]);
        if b.state == NoTrade then Set(m1, q, b.(state := Acknowledge, partner := Some(p))) else m1
  }

  /** `internalCloseTrade`. */
  function Close(m: Market, p: PlayerId): Market {
    if p !in m.traders then m
    else
      var a := m.traders[p];
      if a.partner.Some? && a.partner.value in m.traders then
        var q := a.partner.value;
        if m.traders[q].state == Transfer || a.state == Transfer then m
        else
          var m1 := Set(Erase(m, a.item), p, AT_EASE);
          var b := m1.traders[q];
          Set(Erase(m1, b.item), q, AT_EASE)
      else if a.state == Transfer then m
      else Set(Erase(m, a.item), p, AT_EASE)
  }

  /** `playerAcceptTrade`: `reachable` is the sight check, `agreed` the answer of the event
      handlers. Whether the items then move does not matter for the trade itself. */
  function Accept(m: Market, p: PlayerId, reachable: bool, agreed: bool): Market {
    if p !in m.traders then m
    else
      var a := m.traders[p];
      if !(a.state == Acknowledge || a.state == Initiated) || a.partner.None? || !reachable then m
      else if a.partner.value !in m.traders then m
      else
        var q := a.partner.value;
        var m1 := Set(m, p, a.(state := Accepted));
        if m1.traders[q].state != Accepted then m1
        else if !agreed then Close(m1, p)
        else
          var m2 := Erase(Erase(m1, m1.traders[p].item), m1.traders[q].item);
          Set(Set(m2, p, AT_EASE), q, AT_EASE)
  }

  // ---- The invariant between calls ----

  ghost predicate Matched(m: Market) {
    forall p :: p in m.traders && m.traders[p].partner.Some? ==>
      var q := m.traders[p].partner.value;
      q != p && q in m.traders && m.traders[q].partner == Some(p)
  }

  predicate StateOk(t: Trader) {
    && (t.state == NoTrade <==> t.partner == None)
    && (t.state == Initiated ==> t.item.Some?)
    && (t.state == Acknowledge || t.state == NoTrade ==> t.item == None)
    && t.state != Transfer
  }

  /** The offered items are exactly the items of the players, each of its one offerer. */
  ghost predicate ItemsExact(m: Market) {
    && (forall p :: p in m.traders && m.traders[p].item.Some? ==>
          m.traders[p].item.value in m.tradeItems && m.tradeItems[m.traders[p].item.value] == p)
    && (forall i :: i in m.tradeItems ==> m.tradeItems[i] in m.traders && m.traders[m.tradeItems[i]].item == Some(i))
  }

  ghost predicate Consistent(m: Market) {
    Matched(m) && ItemsExact(m) && forall p :: p in m.traders ==> StateOk(m.traders[p])
  }

  predicate Requested(m: Market, p: PlayerId, q: PlayerId, item: ItemId, tradeable: bool) {
    Request(m, p, q, item, tradeable) != m
  }

  /** Where a request takes effect, both players were free or already partners. */
  lemma RequestGuard(m: Market, p: PlayerId, q: PlayerId, item: ItemId, tradeable: bool)
    requires Consistent(m) && Requested(m, p, q, item, tradeable)
    ensures p in m.traders && q in m.traders && p != q && item !in m.tradeItems
    ensures m.traders[p].item == None
    ensures (m.traders[p].partner == None && m.traders[q].partner == None)
         || (m.traders[p].partner == Some(q) && m.traders[q].partner == Some(p))
    ensures
      var t := Request(m, p, q, item, tradeable);
      var b := if m.traders[q].state == NoTrade then Trader(Acknowledge, Some(p), None) else m.traders[q];
      && t.tradeItems == m.tradeItems[item := p]
      && t.traders == m.traders[p := Trader(Initiated, Some(q), Some(item))][q := b]
  {
    assert StateOk(m.traders[p]) && StateOk(m.traders[q]);
  }

  lemma RequestKeepsMatched(m: Market, p: PlayerId, q: PlayerId, item: ItemId, tradeable: bool)
    requires Consistent(m) && Requested(m, p, q, item, tradeable)
    ensures Matched(Request(m, p, q, item, tradeable))
    ensures forall r :: r in m.traders ==> StateOk(Request(m, p, q, item, tradeable).traders[r])
  {
    RequestGuard(m, p, q, item, tradeable);
    var t := Request(m, p, q, item, tradeable).traders;
    forall r | r in m.traders ensures StateOk(t[r]) {
      assert StateOk(m.traders[r]);
    }
    forall r | r in t && t[r].partner.Some?
      ensures t[r].partner.value != r && t[r].partner.value in t && t[t[r].partner.value].partner == Some(r)
    {
      assert r != p && r != q ==> t[r] == m.traders[r] && t[r].partner != Some(p) && t[r].partner != Some(q);
    }
  }

  lemma RequestKeepsItems(m: Market, p: PlayerId, q: PlayerId, item: ItemId, tradeable: bool)
    requires Consistent(m) && Requested(m, p, q, item, tradeable)
    ensures ItemsExact(Request(m, p, q, item, tradeable))
  {
    RequestGuard(m, p, q, item, tradeable);
  }

  lemma RequestKeeps(m: Market, p: PlayerId, q: PlayerId, item: ItemId, tradeable: bool)
    requires Consistent(m)
    ensures Consistent(Request(m, p, q, item, tradeable))
  {
    if Requested(m, p, q, item, tradeable) {
      RequestGuard(m, p, q, item, tradeable);
      RequestKeepsMatched(m, p, q, item, tradeable);
      RequestKeepsItems(m, p, q, item, tradeable);
    }
  }

  /** Both players at ease, their items withdrawn. */
  function Ended(m: Market, p: PlayerId, q: PlayerId): Market
    requires p in m.traders && q in m.traders
  {
    Erase(Erase(m, m.traders[p].item), m.traders[q].item).(traders := m.traders[p := AT_EASE][q := AT_EASE])
  }

  lemma EndedKeepsItems(m: Market, p: PlayerId, q: PlayerId)
    requires ItemsExact(m) && p in m.traders && q in m.traders
    ensures ItemsExact(Ended(m, p, q))
  {
    var t := Ended(m, p, q);
    forall i | i in t.tradeItems ensures t.tradeItems[i] in t.traders && t.traders[t.tradeItems[i]].item == Some(i) {
      assert i in m.tradeItems && m.traders[p].item != Some(i) && m.traders[q].item != Some(i);
    }
    forall r | r in t.traders && t.traders[r].item.Some?
      ensures t.traders[r].item.value in t.tradeItems && t.tradeItems[t.traders[r].item.value] == r
    {
      assert r != p && r != q && t.traders[r] == m.traders[r];
    }
  }

  lemma EndedKeeps(m: Market, p: PlayerId, q: PlayerId)
    requires Consistent(m) && p in m.traders && m.traders[p].partner == Some(q)
    ensures Consistent(Ended(m, p, q))
  {
    EndedKeepsItems(m, p, q);
    var t := Ended(m, p, q);
    forall r | r in t.traders ensures StateOk(t.traders[r]) {
      assert t.traders[r] == AT_EASE || t.traders[r] == m.traders[r];
    }
  }

  lemma CloseIs(m: Market, p: PlayerId)
    requires Consistent(m) && p in m.traders
    ensures Close(m, p) == if m.traders[p].partner.Some? then Ended(m, p, m.traders[p].partner.value) else m
  {
    assert StateOk(m.traders[p]);
    if m.traders[p].partner.None? {
      assert m.traders[p] == AT_EASE;
      assert m.traders[p := AT_EASE] == m.traders;
    } else {
      assert StateOk(m.traders[m.traders[p].partner.value]);
    }
  }

  /** A close ends the trade for both players; whoever else trades is not touched. */
  lemma CloseEnds(m: Market, p: PlayerId)
    requires Consistent(m) && p in m.traders
    ensures Consistent(Close(m, p))
    ensures Close(m, p).traders.Keys == m.traders.Keys && Close(m, p).traders[p] == AT_EASE
    ensures m.traders[p].partner.Some? ==>
      && m.traders[p].partner.value in m.traders
      && Close(m, p).traders[m.traders[p].partner.value] == AT_EASE
    ensures forall r ::
      r in m.traders && r != p && m.traders[p].partner != Some(r) ==> Close(m, p).traders[r] == m.traders[r]
  {
    CloseIs(m, p);
    if m.traders[p].partner.Some? {
      EndedKeeps(m, p, m.traders[p].partner.value);
    } else {
      assert StateOk(m.traders[p]);
    }
  }

  predicate BothAccept(m: Market, p: PlayerId, reachable: bool) {
    && p in m.traders && (m.traders[p].state == Acknowledge || m.traders[p].state == Initiated) && reachable
    && m.traders[p].partner.Some? && m.traders[p].partner.value in m.traders
    && m.traders[m.traders[p].partner.value].state == Accepted
  }

  lemma AcceptedConsistent(m: Market, p: PlayerId)
    requires Consistent(m) && p in m.traders && m.traders[p].partner.Some?
    ensures
      m.traders[p].state == Initiated || m.traders[p].state == Acknowledge ==>
        Consistent(Set(m, p, m.traders[p].(state := Accepted)))
  {
    var t := Set(m, p, m.traders[p].(state := Accepted)).traders;
    assert forall r :: r in t ==> t[r].partner == m.traders[r].partner && t[r].item == m.traders[r].item;
  }

  /** The second accept ends the trade for both players, agreed or not. */
  lemma AcceptEnds(m: Market, p: PlayerId, reachable: bool, agreed: bool)
    requires Consistent(m)
    ensures Consistent(Accept(m, p, reachable, agreed))
    ensures BothAccept(m, p, reachable) ==>
      var t := Accept(m, p, reachable, agreed);
      && p in t.traders && t.traders[p] == AT_EASE
      && m.traders[p].partner.value in t.traders && t.traders[m.traders[p].partner.value] == AT_EASE
  {
    if p in m.traders && m.traders[p].partner.Some? {
      AcceptedConsistent(m, p);
      CloseEnds(Set(m, p, m.traders[p].(state := Accepted)), p);
    }
  }

  // ---- Runs ----

  datatype Op =
    | Login(p: PlayerId)
    | RequestOp(p: PlayerId, q: PlayerId, item: ItemId, tradeable: bool)
    | AcceptOp(p: PlayerId, reachable: bool, agreed: bool)
    | CloseOp(p: PlayerId)

  function Perform(m: Market, op: Op): Market {
    match op
    case Login(p) => if p in m.traders then m else Set(m, p, AT_EASE)
    case RequestOp(p, q, item, tradeable) => Request(m, p, q, item, tradeable)
    case AcceptOp(p, reachable, agreed) => Accept(m, p, reachable, agreed)
    case CloseOp(p) => Close(m, p)
  }

  function After(m: Market, ops: seq<Op>): Market
    decreases |ops|
  {
    if ops == [] then m else After(Perform(m, ops[0]), ops[1..])
  }

  /** Over any run of requests, accepts and closes: partners are a symmetric matching without
      self-pairs, the states fit, and the offered items are exactly those of their offerers. */
  lemma {:induction false} RunKeepsConsistent(m: Market, ops: seq<Op>)
    requires Consistent(m)
    ensures Consistent(After(m, ops))
    decreases |ops|
  {
    if ops != [] {
      match ops[0] {
        case Login(p) =>
        case RequestOp(p, q, item, tradeable) => RequestKeeps(m, p, q, item, tradeable);
        case AcceptOp(p, reachable, agreed) => AcceptEnds(m, p, reachable, agreed);
        case CloseOp(p) => if p in m.traders { CloseEnds(m, p); }
      }
      RunKeepsConsistent(Perform(m, ops[0]), ops[1..]);
    }
  }

  /** No item is ever offered by two players. */
  lemma OneOffererEach(m: Market, ops: seq<Op>, p: PlayerId, q: PlayerId)
    requires Consistent(m)
    requires p in After(m, ops).traders && q in After(m, ops).traders && p != q
    ensures
      var t := After(m, ops);
      t.traders[p].item.Some? ==> t.traders[p].item != t.traders[q].item
  {
    RunKeepsConsistent(m, ops);
  }

  // ---- What a single call achieves ----

  predicate MayAccept(m: Market, p: PlayerId, reachable: bool) {
    && reachable && p in m.traders && m.traders[p].partner.Some?
    && (m.traders[p].state == Acknowledge || m.traders[p].state == Initiated)
  }

  /** A request takes effect exactly when the item may be offered and overlaps no offer, and
      the two players are both free or the asked one answers. */
  lemma RequestIff(m: Market, p: PlayerId, q: PlayerId, item: ItemId, tradeable: bool)
    requires Consistent(m)
    ensures Requested(m, p, q, item, tradeable) <==>
      && p in m.traders && q in m.traders && p != q && tradeable && !Overlaps(m, item)
      && ((m.traders[p] == AT_EASE && m.traders[q] == AT_EASE)
          || (m.traders[p].state == Acknowledge && m.traders[p].partner == Some(q)))
  {
    if p in m.traders && q in m.traders {
      assert StateOk(m.traders[p]) && StateOk(m.traders[q]);
      assert m.traders[p].state == NoTrade <==> m.traders[p] == AT_EASE;
      if m.traders[p].state == Acknowledge && m.traders[p].partner == Some(q) && Requestable(m, p, q, item, tradeable) {
        assert Request(m, p, q, item, tradeable).traders[p].state == Initiated;
      }
      if m.traders[p] == AT_EASE && m.traders[q] == AT_EASE && Requestable(m, p, q, item, tradeable) {
        assert Request(m, p, q, item, tradeable).traders[p].state == Initiated;
      }
    }
  }

  predicate Requestable(m: Market, p: PlayerId, q: PlayerId, item: ItemId, tradeable: bool) {
    p in m.traders && q in m.traders && p != q && tradeable && !Overlaps(m, item)
  }

  /** The first of the two accepts marks the acceptor and touches nobody and nothing else. */
  lemma FirstAccept(m: Market, p: PlayerId, reachable: bool, agreed: bool)
    requires Consistent(m) && MayAccept(m, p, reachable) && !BothAccept(m, p, reachable)
    ensures
      var t := Accept(m, p, reachable, agreed);
      && t.traders.Keys == m.traders.Keys && t.tradeItems == m.tradeItems
      && t.traders[p].state == Accepted
      && t.traders[p].partner == m.traders[p].partner && t.traders[p].item == m.traders[p].item
      && (forall r :: r in m.traders && r != p ==> t.traders[r] == m.traders[r])
  {
  }

  /** An accept that is not permitted changes nothing. */
  lemma AcceptIgnored(m: Market, p: PlayerId, reachable: bool, agreed: bool)
    requires Consistent(m) && !MayAccept(m, p, reachable)
    ensures Accept(m, p, reachable, agreed) == m
  {
  }

  /** The second accept leaves the market of an ended trade, agreed or not. */
  lemma SecondAccept(m: Market, q: PlayerId, p: PlayerId, agreed: bool)
    requires Consistent(m) && BothAccept(m, q, true) && m.traders[q].partner == Some(p)
    ensures
      var t := Accept(m, q, true, agreed);
      t.traders == m.traders[q := AT_EASE][p := AT_EASE] && Withdrawn(m, t, q, p)
  {
    AcceptedConsistent(m, q);
    var m1 := Set(m, q, m.traders[q].(state := Accepted));
    CloseIs(m1, q);
    assert m1.traders[q := AT_EASE][p := AT_EASE] == m.traders[q := AT_EASE][p := AT_EASE];
  }

  /** Between `m` and `t` exactly the items of the two players are withdrawn from the offers. */
  ghost predicate Withdrawn(m: Market, t: Market, p: PlayerId, q: PlayerId) {
    && p in m.traders && q in m.traders
    && (forall i :: i in t.tradeItems <==>
          i in m.tradeItems && m.traders[p].item != Some(i) && m.traders[q].item != Some(i))
    && (forall i :: i in t.tradeItems ==> t.tradeItems[i] == m.tradeItems[i])
  }

  /** Two reachable accepts of partners, whoever is first, end the trade: both are at ease,
      their items are withdrawn, all else is as before. */
  lemma BothAcceptsEnd(m: Market, p: PlayerId, q: PlayerId, agreed1: bool, agreed2: bool)
    requires Consistent(m) && p in m.traders && m.traders[p].partner == Some(q)
    requires MayAccept(m, p, true) && MayAccept(m, q, true)
    ensures
      var t := Accept(Accept(m, p, true, agreed1), q, true, agreed2);
      t.traders == m.traders[p := AT_EASE][q := AT_EASE] && Withdrawn(m, t, p, q)
  {
    FirstAccept(m, p, true, agreed1);
    AcceptEnds(m, p, true, agreed1);
    var m1 := Accept(m, p, true, agreed1);
    assert m1.traders[q] == m.traders[q] && BothAccept(m1, q, true);
    SecondAccept(m1, q, p, agreed2);
    AcceptUndone(m.traders, m1.traders, p, q);
  }

  lemma AcceptUndone(a: map<PlayerId, Trader>, b: map<PlayerId, Trader>, p: PlayerId, q: PlayerId)
    requires b.Keys == a.Keys && forall r :: r in a && r != p ==> b[r] == a[r]
    ensures b[q := AT_EASE][p := AT_EASE] == a[p := AT_EASE][q := AT_EASE]
  {
  }

  /** A permitted request offers the item and pairs the two players. */
  lemma RequestOffers(m: Market, p: PlayerId, q: PlayerId, item: ItemId)
    requires Consistent(m) && Requestable(m, p, q, item, true)
    requires (m.traders[p] == AT_EASE && m.traders[q] == AT_EASE)
          || (m.traders[p].state == Acknowledge && m.traders[p].partner == Some(q))
    ensures
      var t := Request(m, p, q, item, true);
      && Consistent(t) && t.traders.Keys == m.traders.Keys
      && t.traders[p] == Trader(Initiated, Some(q), Some(item))
      && t.traders[q].partner == Some(p) && t.traders[q].item == m.traders[q].item
      && (m.traders[q] == AT_EASE ==> t.traders[q].state == Acknowledge)
      && (m.traders[q] != AT_EASE ==> t.traders[q] == m.traders[q])
      && (forall r :: r in m.traders && r != p && r != q ==> t.traders[r] == m.traders[r])
      && t.tradeItems == m.tradeItems[item := p]
  {
    RequestIff(m, p, q, item, true);
    RequestGuard(m, p, q, item, true);
    RequestKeeps(m, p, q, item, true);
    assert StateOk(m.traders[q]);
  }

  /** A whole trade: two free players offer an item each and both accept. Afterwards both are
      at ease, and exactly the items on offer before are on offer. */
  lemma TradeCompletes(m: Market, p: PlayerId, q: PlayerId, x: ItemId, y: ItemId, agreed: bool)
    requires Consistent(m) && Requestable(m, p, q, x, true) && m.traders[p] == AT_EASE && m.traders[q] == AT_EASE
    requires Requestable(Request(m, p, q, x, true), q, p, y, true)
    ensures
      var offered := Request(Request(m, p, q, x, true), q, p, y, true);
      && p in offered.traders && offered.traders[p].item == Some(x)
      && q in offered.traders && offered.traders[q].item == Some(y)
      && var t := Accept(Accept(offered, p, true, agreed), q, true, agreed);
         t.traders == m.traders && t.tradeItems == m.tradeItems
  {
    RequestOffers(m, p, q, x);
    var m1 := Request(m, p, q, x, true);
    RequestOffers(m1, q, p, y);
    var m2 := Request(m1, q, p, y, true);
    BothAcceptsEnd(m2, p, q, agreed, agreed);
    OffersUndone(m, m2, Accept(Accept(m2, p, true, agreed), q, true, agreed), p, q, x, y);
  }

  lemma OffersUndone(m: Market, m2: Market, t: Market, p: PlayerId, q: PlayerId, x: ItemId, y: ItemId)
    requires p in m.traders && q in m.traders && m.traders[p] == AT_EASE && m.traders[q] == AT_EASE
    requires x !in m.tradeItems && y !in m.tradeItems
    requires m2.traders.Keys == m.traders.Keys && m2.traders[p].item == Some(x) && m2.traders[q].item == Some(y)
    requires forall r :: r in m.traders && r != p && r != q ==> m2.traders[r] == m.traders[r]
    requires m2.tradeItems == m.tradeItems[x := p][y := q]
    requires t.traders == m2.traders[p := AT_EASE][q := AT_EASE] && Withdrawn(m2, t, p, q)
    ensures t.traders == m.traders && t.tradeItems == m.tradeItems
  {
  }

  // ---- Nested items ----

  /** No offered item holds another one. */
  ghost predicate Unnested(m: Market) {
    forall i, j :: i in m.tradeItems && j in m.tradeItems && i != j ==> (i, j) !in m.inside
  }

  lemma PerformOffers(m: Market, op: Op)
    ensures Perform(m, op).inside == m.inside
    ensures forall i :: i in Perform(m, op).tradeItems && i !in m.tradeItems ==>
      op.RequestOp? && i == op.item && !Overlaps(m, i)
  {
  }

  /** Over any run no item is offered together with one that it holds or that holds it. */
  lemma {:induction false} RunKeepsUnnested(m: Market, ops: seq<Op>)
    requires Unnested(m)
    ensures Unnested(After(m, ops))
    decreases |ops|
  {
    if ops != [] {
      PerformOffers(m, ops[0]);
      RunKeepsUnnested(Perform(m, ops[0]), ops[1..]);
    }
  }

  // ---- While items are moved ----

  /** Where both players accepted and their items are about to move. */
  function Moving(m: Market, p: PlayerId, q: PlayerId): Market
    requires p in m.traders && q in m.traders
  {
    var m1 := Set(Set(m, p, m.traders[p].(state := Transfer)), q, m.traders[q].(state := Transfer));
    Erase(Erase(m1, m.traders[p].item), m.traders[q].item)
  }

  /** Two players are in transfer with each other, and everyone else is as between calls. */
  ghost predicate InTransfer(m: Market, p: PlayerId, q: PlayerId) {
    && p != q && p in m.traders && q in m.traders && Matched(m)
    && m.traders[p].partner == Some(q)
    && m.traders[p].state == Transfer && m.traders[q].state == Transfer
    && (forall r :: r in m.traders && r != p && r != q ==> StateOk(m.traders[r]))
  }

  lemma TransferBegins(m: Market, p: PlayerId, q: PlayerId)
    requires Consistent(m) && p in m.traders && m.traders[p].partner == Some(q)
    ensures q in m.traders && InTransfer(Moving(m, p, q), p, q)
  {
    var t := Moving(m, p, q).traders;
    forall r | r in t && t[r].partner.Some?
      ensures t[r].partner.value != r && t[r].partner.value in t && t[t[r].partner.value].partner == Some(r)
    {
      assert t[r].partner == m.traders[r].partner;
    }
  }

  /** What a call by or towards a player in transfer does: nothing. */
  lemma TransferBlocks(m: Market, p: PlayerId, q: PlayerId, op: Op)
    requires InTransfer(m, p, q)
    requires !op.Login? && (op.p == p || op.p == q || (op.RequestOp? && (op.q == p || op.q == q)))
    ensures Perform(m, op) == m
  {
  }

  lemma OthersRequest(m: Market, p: PlayerId, q: PlayerId, op: Op)
    requires InTransfer(m, p, q) && op.RequestOp? && op.p != p && op.p != q && op.q != p && op.q != q
    ensures InTransfer(Perform(m, op), p, q)
    ensures Perform(m, op).traders[p] == m.traders[p] && Perform(m, op).traders[q] == m.traders[q]
  {
    if Perform(m, op) != m {
      assert StateOk(m.traders[op.p]) && StateOk(m.traders[op.q]);
      var t := Perform(m, op).traders;
      forall r | r in t && t[r].partner.Some?
        ensures t[r].partner.value != r && t[r].partner.value in t && t[t[r].partner.value].partner == Some(r)
      {
        assert r != op.p && r != op.q ==> t[r] == m.traders[r];
      }
    }
  }

  lemma OthersEnd(m: Market, p: PlayerId, q: PlayerId, r: PlayerId)
    requires InTransfer(m, p, q) && r in m.traders && r != p && r != q
    ensures InTransfer(Close(m, r), p, q)
    ensures Close(m, r).traders[p] == m.traders[p] && Close(m, r).traders[q] == m.traders[q]
  {
    assert StateOk(m.traders[r]);
    var t := Close(m, r).traders;
    forall x | x in t && t[x].partner.Some?
      ensures t[x].partner.value != x && t[x].partner.value in t && t[t[x].partner.value].partner == Some(x)
    {
      assert t[x] == m.traders[x];
    }
  }

  lemma OthersAccept(m: Market, p: PlayerId, q: PlayerId, op: Op)
    requires InTransfer(m, p, q) && op.AcceptOp? && op.p != p && op.p != q
    ensures InTransfer(Perform(m, op), p, q)
    ensures Perform(m, op).traders[p] == m.traders[p] && Perform(m, op).traders[q] == m.traders[q]
  {
    var t := Perform(m, op).traders;
    if Perform(m, op) != m {
      var r := op.p;
      assert StateOk(m.traders[r]);
      var s := m.traders[r].partner.value;
      assert s != p && s != q && StateOk(m.traders[s]);
      var m1 := Set(m, r, m.traders[r].(state := Accepted));
      assert Matched(m1) by {
        forall x | x in m1.traders ensures m1.traders[x].partner == m.traders[x].partner { }
      }
      assert InTransfer(m1, p, q);
      OthersEnd(m1, p, q, r);
      assert t == m1.traders || t == Close(m1, r).traders;
    }
  }

  lemma TransferStep(m: Market, p: PlayerId, q: PlayerId, op: Op)
    requires InTransfer(m, p, q)
    ensures InTransfer(Perform(m, op), p, q)
    ensures Perform(m, op).traders[p] == m.traders[p] && Perform(m, op).traders[q] == m.traders[q]
  {
    if op.Login? {
      assert StateOk(AT_EASE);
    } else if op.p == p || op.p == q || (op.RequestOp? && (op.q == p || op.q == q)) {
      TransferBlocks(m, p, q, op);
    } else if op.RequestOp? {
      OthersRequest(m, p, q, op);
    } else if op.AcceptOp? {
      OthersAccept(m, p, q, op);
    } else if op.p in m.traders {
      OthersEnd(m, p, q, op.p);
    }
  }

  lemma {:induction false} TransferLasts(m: Market, p: PlayerId, q: PlayerId, ops: seq<Op>)
    requires InTransfer(m, p, q)
    ensures InTransfer(After(m, ops), p, q)
    ensures After(m, ops).traders[p] == m.traders[p] && After(m, ops).traders[q] == m.traders[q]
    decreases |ops|
  {
    if ops != [] {
      TransferStep(m, p, q, ops[0]);
      TransferLasts(Perform(m, ops[0]), p, q, ops[1..]);
    }
  }

  /** While the items of two players are being moved, whatever requests, accepts and closes
      anybody makes, the two stay as they are, and everyone else's trades stay consistent. */
  lemma UndisturbedDuringTransfer(m: Market, p: PlayerId, q: PlayerId, ops: seq<Op>)
    requires Consistent(m) && p in m.traders && m.traders[p].partner == Some(q)
    ensures q in m.traders
    ensures
      var t := After(Moving(m, p, q), ops);
      && p in t.traders && t.traders[p] == m.traders[p].(state := Transfer)
      && q in t.traders && t.traders[q] == m.traders[q].(state := Transfer)
      && InTransfer(t, p, q)
  {
    TransferBegins(m, p, q);
    TransferLasts(Moving(m, p, q), p, q, ops);
  }

  // ---- The object ----

  class TradeGame {
    var traders: map<PlayerId, Trader>
    var tradeItems: map<ItemId, PlayerId>

    const inside: set<(ItemId, ItemId)>

    ghost function View(): Market reads this { Market(traders, tradeItems, inside) }

    constructor (inside: set<(ItemId, ItemId)>)
      ensures View() == Market(map[], map[], inside)
    {
      traders, tradeItems, this.inside := map[], map[], inside;
    }

    /** The loop of `playerRequestTrade` over the offered items. */
    method OverlapsOffer(item: ItemId) returns (overlaps: bool)
      ensures overlaps == Overlaps(View(), item)
    {
      var left := tradeItems.Keys;
      while left != {}
        invariant left <= tradeItems.Keys
        invariant forall i :: i in tradeItems && i !in left ==>
          i != item && (item, i) !in inside && (i, item) !in inside
        decreases |left|
      {
        var i :| i in left;
        if item == i || (item, i) in inside || (i, item) in inside {
          return true;
        }
        left := left - {i};
      }
      return false;
    }

    method EraseItem(item: Option<ItemId>)
      modifies this`tradeItems
      ensures View() == Erase(old(View()), item)
    {
      if item.Some? && item.value in tradeItems {
        tradeItems := tradeItems - {item.value};
      }
    }

    method RequestTrade(p: PlayerId, q: PlayerId, item: ItemId, tradeable: bool) returns (ok: bool)
      modifies this
      ensures View() == Request(old(View()), p, q, item, tradeable)
      ensures ok ==> p in traders && traders[p].state == Initiated && traders[p].item == Some(item)
    {
      if p !in traders || q !in traders || p == q {
        return false;
      }
      var overlaps := OverlapsOffer(item);
      if overlaps {
        return false;
      }
      if traders[p].state != NoTrade && !(traders[p].state == Acknowledge && traders[p].partner == Some(q)) {
        return false;
      }
      if traders[q].state != NoTrade && traders[q].partner != Some(p) {
        return false;
      }
      if !tradeable {
        return false;
      }
      traders := traders[p := Trader(Initiated, Some(q), Some(item))];
      tradeItems := tradeItems[item := p];
      if traders[q].state == NoTrade {
        traders := traders[q := traders[q].(state := Acknowledge)];
        traders := traders[q := traders[q].(partner := Some(p))];
      }
      return true;
    }

    method CloseTrade(p: PlayerId)
      requires Matched(View())
      modifies this
      ensures View() == Close(old(View()), p)
    {
      if p !in traders {
        return;
      }
      var partner := traders[p].partner;
      if (partner.Some? && traders[partner.value].state == Transfer) || traders[p].state == Transfer {
        return;
      }
      EraseItem(traders[p].item);
      traders := traders[p := AT_EASE];
      if partner.Some? {
        EraseItem(traders[partner.value].item);
        traders := traders[partner.value := AT_EASE];
      }
    }

    method AcceptTrade(p: PlayerId, reachable: bool, agreed: bool)
      requires Matched(View())
      modifies this
      ensures View() == Accept(old(View()), p, reachable, agreed)
    {
      if p !in traders {
        return;
      }
      if !(traders[p].state == Acknowledge || traders[p].state == Initiated) {
        return;
      }
      var partner := traders[p].partner;
      if partner.None? || !reachable {
        return;
      }
      var q := partner.value;
      traders := traders[p := traders[p].(state := Accepted)];
      if traders[q].state == Accepted {
        if !agreed {
          CloseTrade(p);
          return;
        }
        MoveItems(p, q);
      }
    }

    /** Both accepted: the offers are withdrawn, the items move, both players are done. */
    method MoveItems(p: PlayerId, q: PlayerId)
      requires p in traders && q in traders && p != q
      modifies this
      ensures
        var m := old(View());
        View() == Set(Set(Erase(Erase(m, m.traders[p].item), m.traders[q].item), p, AT_EASE), q, AT_EASE)
    {
      var item1, item2 := traders[p].item, traders[q].item;
      traders := traders[p := traders[p].(state := Transfer)];
      traders := traders[q := traders[q].(state := Transfer)];
      EraseItem(item1);
      EraseItem(item2);
      assert View() == Moving(old(View()), p, q);
      traders := traders[p := AT_EASE];
      traders := traders[q := AT_EASE];
      assert traders == old(traders)[p := AT_EASE][q := AT_EASE];
    }
  }
}
