/** No money appears and none is lost over any run of bids, and over any run of transfers. */
module HouseEscrowTheorems {
  import opened Wrappers
  import opened HouseEscrow

  function Balances(accounts: seq<Account>): nat {
    if accounts == [] then 0 else Balances(accounts[..|accounts| - 1]) + accounts[|accounts| - 1].balance
  }

  lemma {:induction false} BalancesUpdate(accounts: seq<Account>, p: nat, b: Amount)
    requires p < |accounts|
    ensures Balances(accounts[p := accounts[p].(balance := b)]) == Balances(accounts) - accounts[p].balance + b
    ensures accounts[p].balance <= Balances(accounts)
  {
    var n := |accounts| - 1;
    var updated := accounts[p := accounts[p].(balance := b)];
    if p == n {
      assert updated[..n] == accounts[..n];
    } else {
      assert updated[..n] == accounts[..n][p := accounts[..n][p].(balance := b)];
      BalancesUpdate(accounts[..n], p, b);
    }
  }

  lemma SetBalanceTotal(w: World, p: Guid, b: Amount)
    requires IsPlayer(w, p)
    ensures Balances(SetBalance(w, p, b).accounts) == Balances(w.accounts) - w.accounts[p].balance + b
    ensures NamesOk(w) ==> NamesOk(SetBalance(w, p, b))
  {
    BalancesUpdate(w.accounts, p, b);
  }

  // ---- Auction ----

  /** The money in the accounts and in the hands of the auction. */
  function AuctionTotal(w: World): nat {
    Balances(w.accounts) + if w.house.bidderName == "" then 0 else w.house.bidHolderLimit + w.house.rent
  }

  /** A house under auction: its bidder is a player, and the limit is the bid that holds. */
  ghost predicate AuctionOk(w: World) {
    && NamesOk(w)
    && (w.house.bidderName != "" ==>
          && w.house.internalBid == w.house.bidHolderLimit
          && exists q: nat :: IsPlayer(w, q) && w.accounts[q].name == w.house.bidderName)
  }

  /** All the money there is, and the rent once more, fits into 64 bits. */
  predicate MoneyFits(w: World) { AuctionTotal(w) + w.house.rent < TWO_64 }

  lemma PlusExact(a: Amount, b: Amount)
    requires a + b < TWO_64
    ensures Plus(a, b) == a + b
  {
  }

  lemma MinusExact(a: Amount, b: Amount)
    requires b <= a
    ensures Minus(a, b) == a - b
  {
  }

  /** What is left of `t` after `w`: the same players under the same names. */
  ghost predicate SamePlayers(w: World, t: World) {
    && NamesOk(t) && t.resolve == w.resolve && t.house == w.house && |t.accounts| == |w.accounts|
    && (forall q :: 0 <= q < |w.accounts| ==> t.accounts[q].name == w.accounts[q].name)
  }

  lemma Pay(w: World, p: Guid, amount: Amount)
    requires NamesOk(w) && IsPlayer(w, p) && amount <= w.accounts[p].balance
    ensures
      var t := SetBalance(w, p, Minus(w.accounts[p].balance, amount));
      Balances(t.accounts) + amount == Balances(w.accounts) && SamePlayers(w, t)
  {
    MinusExact(w.accounts[p].balance, amount);
    SetBalanceTotal(w, p, w.accounts[p].balance - amount);
  }

  lemma Receive(w: World, q: Guid, amount: Amount)
    requires NamesOk(w) && IsPlayer(w, q) && Balances(w.accounts) + amount < TWO_64
    ensures
      var t := Credit(w, Some(q), amount);
      Balances(t.accounts) == Balances(w.accounts) + amount && SamePlayers(w, t)
  {
    BalancesUpdate(w.accounts, q, 0);
    PlusExact(w.accounts[q].balance, amount);
    SetBalanceTotal(w, q, w.accounts[q].balance + amount);
  }

  /** Paying a first bid, or outbidding: the balances fall by the new escrow less the old. */
  lemma PayAndRefund(w: World, p: Guid, bid: Amount)
    requires AuctionOk(w) && IsPlayer(w, p) && ProcessBank(w, p, bid, false).ok
    requires w.house.bidderName != w.accounts[p].name && MoneyFits(w)
    ensures
      var t := ProcessBank(w, p, bid, false).world;
      && Balances(t.accounts) + w.house.rent + bid == AuctionTotal(w)
      && SamePlayers(w, t)
  {
    var h := w.house;
    BalancesUpdate(w.accounts, p, 0);
    PlusExact(h.rent, bid);
    Pay(w, p, h.rent + bid);
    var paid := SetBalance(w, p, Minus(w.accounts[p].balance, h.rent + bid));
    assert ProcessBank(w, p, bid, false).world == Credit(paid, w.resolve(h.bidderName), Plus(h.bidHolderLimit, h.rent));
    Refund(w, paid);
  }

  lemma Refund(w: World, paid: World)
    requires AuctionOk(w) && SamePlayers(w, paid)
    requires
      var escrow := if w.house.bidderName == "" then 0 else w.house.bidHolderLimit + w.house.rent;
      Balances(paid.accounts) + escrow < TWO_64
    ensures
      var t := Credit(paid, w.resolve(w.house.bidderName), Plus(w.house.bidHolderLimit, w.house.rent));
      && Balances(t.accounts) == Balances(paid.accounts) + (AuctionTotal(w) - Balances(w.accounts))
      && SamePlayers(w, t)
  {
    var h := w.house;
    if h.bidderName != "" {
      var q: nat :| IsPlayer(w, q) && w.accounts[q].name == h.bidderName;
      assert w.resolve(h.bidderName) == Some(q);
      PlusExact(h.bidHolderLimit, h.rent);
      Receive(paid, q, h.bidHolderLimit + h.rent);
    }
  }

  /** Changing the own bid: the difference moves, also downwards through the wrap-around. */
  lemma ReplaceBid(w: World, p: Guid, bid: Amount)
    requires AuctionOk(w) && IsPlayer(w, p) && ProcessBank(w, p, bid, true).ok
    requires w.house.bidderName == w.accounts[p].name && MoneyFits(w)
    ensures
      var t := ProcessBank(w, p, bid, true).world;
      && Balances(t.accounts) + w.house.rent + bid == AuctionTotal(w)
      && SamePlayers(w, t)
  {
    var h, balance := w.house, w.accounts[p].balance;
    BalancesUpdate(w.accounts, p, 0);
    assert Minus(balance, Minus(bid, h.internalBid)) == balance + h.internalBid - bid;
    SetBalanceTotal(w, p, Minus(balance, Minus(bid, h.internalBid)));
  }

  lemma BidConserves(w: World, p: Guid, value: Amount)
    requires AuctionOk(w) && IsPlayer(w, p) && MoneyFits(w)
    ensures AuctionOk(Bid(w, p, value))
    ensures AuctionTotal(Bid(w, p, value)) == AuctionTotal(w)
    ensures Bid(w, p, value).house.rent == w.house.rent && |Bid(w, p, value).accounts| == |w.accounts|
  {
    var h, name := w.house, w.accounts[p].name;
    var t := Bid(w, p, value);
    if h.bidderName == name {
      if ProcessBank(w, p, value, true).ok {
        ReplaceBid(w, p, value);
        assert t.accounts[p].name == name;
      }
    } else if h.bidderName == "" || value > h.internalBid {
      if ProcessBank(w, p, value, false).ok {
        PayAndRefund(w, p, value);
        assert t.accounts[p].name == name;
      }
    }
  }

  datatype BidOp = BidOp(p: Guid, value: Amount)

  function Bids(w: World, ops: seq<BidOp>): World
    decreases |ops|
  {
    if ops == [] then w
    else Bids(if IsPlayer(w, ops[0].p) then Bid(w, ops[0].p, ops[0].value) else w, ops[1..])
  }

  /** Over any run of bids, whoever bids and whatever the bids are, the accounts and the
      holder's limit and rent together never change. */
  lemma {:induction false} BidsConserve(w: World, ops: seq<BidOp>)
    requires AuctionOk(w) && MoneyFits(w)
    ensures AuctionTotal(Bids(w, ops)) == AuctionTotal(w)
    ensures AuctionOk(Bids(w, ops))
    decreases |ops|
  {
    if ops != [] {
      if IsPlayer(w, ops[0].p) {
        BidConserves(w, ops[0].p, ops[0].value);
        BidsConserve(Bid(w, ops[0].p, ops[0].value), ops[1..]);
      } else {
        BidsConserve(w, ops[1..]);
      }
    }
  }

  // ---- Transfer ----

  /** The money in the accounts and paid for an accepted transfer. */
  function TransferTotal(w: World): nat {
    Balances(w.accounts) + if w.house.transferStatus then w.house.internalBid + w.house.rent else 0
  }

  ghost predicate TransferOk(w: World) {
    && NamesOk(w)
    && (w.house.transferStatus ==> w.house.state == Transfer)
    && (w.house.state == Transfer ==>
          w.house.bidder.Some? && IsPlayer(w, w.house.bidder.value) && w.resolve(w.house.bidderName) == w.house.bidder)
  }

  predicate TransferFits(w: World) { TransferTotal(w) + w.house.rent < TWO_64 }

  /** The name stored with the offer is the exact name of the new owner. */
  predicate ExactName(w: World) {
    w.house.bidder.Some? && IsPlayer(w, w.house.bidder.value)
    && w.accounts[w.house.bidder.value].name == w.house.bidderName
  }

  predicate AcceptTakesEffect(w: World, p: Guid, allowed: bool)
    requires IsPlayer(w, p)
  {
    Accept(w, p, allowed).house.transferStatus && !w.house.transferStatus
  }

  /** What an accepted transfer pays back to the acceptor although nobody was outbid. */
  function StaleRefund(w: World): Amount { Plus(w.house.bidHolderLimit, w.house.rent) }

  /** An accept conserves the money exactly when the stored name is exact, or the limit of a
      former auction and the rent happen to add up to nothing. */
  lemma AcceptConservesIffExact(w: World, p: Guid, allowed: bool)
    requires TransferOk(w) && IsPlayer(w, p) && AcceptTakesEffect(w, p, allowed) && TransferFits(w)
    ensures TransferTotal(Accept(w, p, allowed)) == TransferTotal(w) <==> ExactName(w) || StaleRefund(w) == 0
    ensures TransferOk(Accept(w, p, allowed))
  {
    var h, balance := w.house, w.accounts[p].balance;
    BalancesUpdate(w.accounts, p, 0);
    assert Plus(h.rent, h.internalBid) == h.rent + h.internalBid;
    var after := Minus(balance, Plus(h.rent, h.internalBid));
    assert after == balance - h.rent - h.internalBid;
    var paid := SetBalance(w, p, after);
    SetBalanceTotal(w, p, after);
    if h.bidderName != w.accounts[p].name {
      SetBalanceTotal(paid, p, Plus(after, StaleRefund(w)));
      StaleIsSeen(after, StaleRefund(w));
    }
  }

  lemma StaleIsSeen(a: Amount, b: Amount)
    ensures Plus(a, b) == a <==> b == 0
  {
  }

  /** A transfer offered to "BOB" and accepted by Bob, on a house once auctioned for 50:
      Bob is paid 60 back on top. */
  lemma InexactNameCreatesMoney()
    ensures
      && TransferOk(Example()) && AcceptTakesEffect(Example(), 0, true)
      && TransferTotal(Example()) == 500 && TransferTotal(Accept(Example(), 0, true)) == 560
  {
    var w := Example();
    assert "BOB" != "Bob" by { assert "BOB"[1] != "Bob"[1]; }
    assert w.accounts[0].name == "Bob" && w.accounts[1].name == "Ann";
    assert NamesOk(w);
    assert Accept(w, 0, true).accounts == [Account("Bob", 450), Account("Ann", 0)];
    SumOfTwo(Account("Bob", 500), Account("Ann", 0));
    SumOfTwo(Account("Bob", 450), Account("Ann", 0));
  }

  lemma SumOfTwo(a: Account, b: Account)
    ensures Balances([a, b]) == a.balance + b.balance
  {
    assert [a, b][..1] == [a] && [a][..0] == [];
    assert Balances([a]) == Balances([]) + a.balance;
  }

  /** A lookup that does not tell "BOB" from "Bob". */
  function Lookup(n: string): Option<Guid> {
    if n == "Bob" || n == "BOB" then Some(0) else if n == "Ann" then Some(1) else None
  }

  function Example(): World {
    World([Account("Bob", 500), Account("Ann", 0)],
          House(Transfer, Some(1), 10, "BOB", Some(0), 0, 100, 50, false), Lookup)
  }

  datatype TransferOp =
    | OfferOp(p: Guid, name: string, value: Amount, allowed: bool)
    | AcceptOp(p: Guid, allowed: bool)
    | CancelOp(p: Guid)
    | RejectOp(p: Guid)

  function Perform(w: World, op: TransferOp): World
    requires IsPlayer(w, op.p)
  {
    match op
    case OfferOp(p, name, value, allowed) => Offer(w, p, name, value, allowed)
    case AcceptOp(p, allowed) => Accept(w, p, allowed)
    case CancelOp(p) => Cancel(w, p)
    case RejectOp(p) => Reject(w, p)
  }

  /** An offer that names the new owner exactly as stored. */
  predicate NamesExactly(w: World, op: TransferOp) {
    op.OfferOp? ==>
      var n := w.resolve(op.name);
      n.Some? && IsPlayer(w, n.value) ==> w.accounts[n.value].name == op.name
  }

  lemma SameNames(w: World, t: World)
    requires NamesOk(w) && t.resolve == w.resolve && |t.accounts| == |w.accounts|
    requires forall q :: 0 <= q < |w.accounts| ==> t.accounts[q].name == w.accounts[q].name
    ensures NamesOk(t)
  {
  }

  lemma WithdrawConserves(w: World)
    requires TransferOk(w) && TransferFits(w) && w.house.state == Transfer
    ensures TransferTotal(Withdraw(w)) == TransferTotal(w) && TransferOk(Withdraw(w))
    ensures |Withdraw(w).accounts| == |w.accounts| && Withdraw(w).house.rent == w.house.rent
    ensures forall q :: 0 <= q < |w.accounts| ==> Withdraw(w).accounts[q].name == w.accounts[q].name
  {
    var h := w.house;
    if h.transferStatus {
      var q := h.bidder.value;
      BalancesUpdate(w.accounts, q, 0);
      SetBalanceTotal(w, q, Plus(w.accounts[q].balance, Plus(h.internalBid, h.rent)));
    }
    SameNames(w, Withdraw(w));
  }

  /** The rest of the invariant that runs with exact names keep. */
  ghost predicate ExactOk(w: World) { TransferOk(w) && (w.house.state == Transfer ==> ExactName(w)) }

  lemma PerformConserves(w: World, op: TransferOp)
    requires ExactOk(w) && TransferFits(w) && IsPlayer(w, op.p) && NamesExactly(w, op)
    ensures ExactOk(Perform(w, op)) && TransferTotal(Perform(w, op)) == TransferTotal(w)
    ensures |Perform(w, op).accounts| == |w.accounts| && Perform(w, op).house.rent == w.house.rent
    ensures Perform(w, op).resolve == w.resolve
    ensures forall q :: 0 <= q < |w.accounts| ==> Perform(w, op).accounts[q].name == w.accounts[q].name
  {
    match op
    case OfferOp(p, name, value, allowed) =>
    case AcceptOp(p, allowed) =>
      if AcceptTakesEffect(w, p, allowed) { AcceptConservesIffExact(w, p, allowed); }
    case CancelOp(p) =>
      if w.house.state == Transfer { WithdrawConserves(w); }
    case RejectOp(p) =>
      if w.house.state == Transfer { WithdrawConserves(w); }
  }

  function Transfers(w: World, ops: seq<TransferOp>): World
    decreases |ops|
  {
    if ops == [] then w
    else Transfers(if IsPlayer(w, ops[0].p) then Perform(w, ops[0]) else w, ops[1..])
  }

  /** Over any run of offers, accepts, rejects and cancels in which offers name the new owner
      exactly, the accounts and the paid price together never change. */
  lemma {:induction false} TransfersConserve(w: World, ops: seq<TransferOp>)
    requires ExactOk(w) && TransferFits(w)
    requires forall k :: 0 <= k < |ops| ==> NamesExactly(w, ops[k])
    ensures TransferTotal(Transfers(w, ops)) == TransferTotal(w)
    decreases |ops|
  {
    if ops != [] {
      var t := if IsPlayer(w, ops[0].p) then Perform(w, ops[0]) else w;
      if IsPlayer(w, ops[0].p) { PerformConserves(w, ops[0]); }
      assert forall k :: 0 <= k < |ops[1..]| ==> NamesExactly(t, ops[1..][k]);
      TransfersConserve(t, ops[1..]);
    }
  }
}
