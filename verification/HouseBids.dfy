/** Who holds the house and who has paid what: the outcome of every bid and every transfer
    call, player by player. */
module HouseBids {
  import opened Wrappers
  import opened HouseEscrow
  import opened HouseEscrowTheorems

  // ---- Auction ----

  /** The house is free, or the player `Holder` named by the bid that holds. */
  ghost predicate HeldOk(w: World) {
    AuctionOk(w) && (w.house.bidderName != "" ==> w.house.bidder == w.resolve(w.house.bidderName))
  }

  predicate Holds(w: World, q: Guid) { IsPlayer(w, q) && w.accounts[q].name == w.house.bidderName }

  /** What player `q` owns: the balance, and what the auction keeps of it. */
  function Owns(w: World, q: Guid): nat
    requires IsPlayer(w, q)
  {
    w.accounts[q].balance + if Holds(w, q) then w.house.bidHolderLimit + w.house.rent else 0
  }

  /** A bid wins: a first one that can be paid with the rent, one of the holder that is covered
      by the balance, or one above the bid that holds which can be paid with the rent. */
  predicate Wins(w: World, p: Guid, value: Amount)
    requires IsPlayer(w, p)
  {
    var h, balance := w.house, w.accounts[p].balance;
    if Holds(w, p) then value <= balance
    else (h.bidderName == "" || value > h.internalBid) && h.rent + value <= balance
  }

  lemma BalanceFits(w: World, q: Guid)
    requires AuctionOk(w) && MoneyFits(w) && IsPlayer(w, q)
    ensures w.accounts[q].balance + w.house.rent < TWO_64
    ensures w.house.bidderName != "" ==> w.accounts[q].balance + w.house.bidHolderLimit + 2 * w.house.rent < TWO_64
  {
    BalancesUpdate(w.accounts, q, 0);
  }

  /** The bank accepts exactly the payments that are covered; the sum of rent and bid may wrap
      around, but then the bid alone is refused. */
  lemma BankAccepts(w: World, p: Guid, bid: Amount, replace: bool)
    requires AuctionOk(w) && MoneyFits(w) && IsPlayer(w, p)
    ensures ProcessBank(w, p, bid, replace).ok <==>
      (if replace then bid else w.house.rent + bid) <= w.accounts[p].balance
  {
    BalanceFits(w, p);
  }

  function With(a: Account, balance: Amount): Account { a.(balance := balance) }

  /** The holder pays the difference, or gets it back. */
  lemma OwnChangePays(w: World, p: Guid, bid: Amount)
    requires HeldOk(w) && MoneyFits(w) && Holds(w, p) && bid <= w.accounts[p].balance
    ensures
      var left := w.accounts[p].balance + w.house.bidHolderLimit - bid;
      && 0 <= left < TWO_64
      && ProcessBank(w, p, bid, true).world == w.(accounts := w.accounts[p := With(w.accounts[p], left)])
  {
    assert w.accounts[p].name != "";
    BalanceFits(w, p);
  }

  /** Anybody else pays bid and rent; the holder, if there is one, gets limit and rent back. */
  lemma OthersPay(w: World, p: Guid, bid: Amount)
    requires HeldOk(w) && MoneyFits(w) && IsPlayer(w, p) && !Holds(w, p)
    requires w.house.rent + bid <= w.accounts[p].balance
    ensures
      var h := w.house;
      var paid := w.accounts[p := With(w.accounts[p], w.accounts[p].balance - h.rent - bid)];
      var t := ProcessBank(w, p, bid, false).world;
      if h.bidderName == "" then t == w.(accounts := paid)
      else
        && w.resolve(h.bidderName).Some? && IsPlayer(w, w.resolve(h.bidderName).value)
        && var q := w.resolve(h.bidderName).value;
           var got := w.accounts[q].balance + h.bidHolderLimit + h.rent;
           q != p && Holds(w, q) && got < TWO_64 && t == w.(accounts := paid[q := With(w.accounts[q], got)])
  {
    var h := w.house;
    BalanceFits(w, p);
    if h.bidderName != "" {
      var q: nat :| IsPlayer(w, q) && w.accounts[q].name == h.bidderName;
      assert w.resolve(h.bidderName) == Some(q);
      BalanceFits(w, q);
      PlusExact(h.bidHolderLimit, h.rent);
      PlusExact(w.accounts[q].balance, h.bidHolderLimit + h.rent);
    }
  }

  lemma HoldsIffResolved(w: World)
    requires AuctionOk(w)
    ensures forall q :: 0 <= q < |w.accounts| ==> (Holds(w, q) <==> w.resolve(w.house.bidderName) == Some(q))
  {
    forall q | 0 <= q < |w.accounts| ensures Holds(w, q) <==> w.resolve(w.house.bidderName) == Some(q) {
      assert w.resolve(w.accounts[q].name) == Some(q);
      if w.house.bidderName != "" {
        var r: nat :| IsPlayer(w, r) && w.accounts[r].name == w.house.bidderName;
        assert w.resolve(w.accounts[r].name) == Some(r);
      }
    }
  }

  /** What a payment leaves on every account. */
  lemma BankPays(w: World, p: Guid, bid: Amount, replace: bool)
    requires HeldOk(w) && MoneyFits(w) && IsPlayer(w, p) && ProcessBank(w, p, bid, replace).ok
    requires replace == Holds(w, p)
    ensures
      var t := ProcessBank(w, p, bid, replace).world;
      && |t.accounts| == |w.accounts| && t.house == w.house && t.resolve == w.resolve
      && (forall q :: 0 <= q < |w.accounts| ==> t.accounts[q].name == w.accounts[q].name)
      && (forall q :: 0 <= q < |w.accounts| ==>
            t.accounts[q].balance == Owns(w, q) - (if q == p then w.house.rent + bid else 0))
  {
    BankAccepts(w, p, bid, replace);
    HoldsIffResolved(w);
    if replace { OwnChangePays(w, p, bid); } else { OthersPay(w, p, bid); }
  }

  /** A bid that wins makes the bidder the holder at its value, one that does not leaves holder,
      limit and all accounts as they are; what each single player owns never changes. */
  lemma BidDecides(w: World, p: Guid, value: Amount)
    requires HeldOk(w) && MoneyFits(w) && IsPlayer(w, p)
    ensures
      var t := Bid(w, p, value);
      && |t.accounts| == |w.accounts|
      && (Wins(w, p, value) ==>
            Holds(t, p) && t.house.bidder == Some(p) && t.house.internalBid == t.house.bidHolderLimit == value)
      && (!Wins(w, p, value) ==>
            t.accounts == w.accounts && t.house.bidderName == w.house.bidderName && t.house.bidder == w.house.bidder
            && t.house.internalBid == w.house.internalBid && t.house.bidHolderLimit == w.house.bidHolderLimit)
      && (forall q :: 0 <= q < |w.accounts| ==> Owns(t, q) == Owns(w, q))
  {
    var h := w.house;
    assert w.resolve(w.accounts[p].name) == Some(p);
    if Holds(w, p) || h.bidderName == "" || value > h.internalBid {
      BankAccepts(w, p, value, Holds(w, p));
      if Wins(w, p, value) {
        BankPays(w, p, value, Holds(w, p));
        NewHolder(w, Bid(w, p, value), p);
      }
    }
  }

  /** Names tell players apart: only `p` bears the name of `p`. */
  lemma NewHolder(w: World, t: World, p: Guid)
    requires NamesOk(w) && IsPlayer(w, p) && |t.accounts| == |w.accounts|
    requires forall q :: 0 <= q < |w.accounts| ==> t.accounts[q].name == w.accounts[q].name
    requires t.house.bidderName == w.accounts[p].name
    ensures forall q :: 0 <= q < |w.accounts| ==> (Holds(t, q) <==> q == p)
  {
    forall q | 0 <= q < |w.accounts| ensures Holds(t, q) <==> q == p {
      assert w.resolve(w.accounts[q].name) == Some(q) && w.resolve(w.accounts[p].name) == Some(p);
    }
  }

  /** The bid that is shown to the others: one above the outbid one, or the last lower bid. */
  lemma ShownBid(w: World, p: Guid, value: Amount)
    requires HeldOk(w) && MoneyFits(w) && IsPlayer(w, p)
    ensures Bid(w, p, value).house.highestBid ==
      if Holds(w, p) then w.house.highestBid
      else if Wins(w, p, value) then (if w.house.bidderName == "" then 0 else w.house.internalBid + 1)
      else if w.house.bidderName != "" && value <= w.house.internalBid then value
      else w.house.highestBid
  {
    BankAccepts(w, p, value, Holds(w, p));
  }

  lemma BidKeepsHeld(w: World, p: Guid, value: Amount)
    requires HeldOk(w) && MoneyFits(w) && IsPlayer(w, p)
    ensures HeldOk(Bid(w, p, value)) && MoneyFits(Bid(w, p, value))
    ensures Bid(w, p, value).house.rent == w.house.rent
  {
    BidConserves(w, p, value);
    BidDecides(w, p, value);
    assert w.resolve(w.accounts[p].name) == Some(p);
  }

  // ---- Runs of bids ----

  /** Bids in a row, none of them by the holder of the moment. */
  predicate ByOthers(w: World, ops: seq<BidOp>)
    decreases |ops|
  {
    ops == [] ||
    (IsPlayer(w, ops[0].p) && !Holds(w, ops[0].p) && ByOthers(Bid(w, ops[0].p, ops[0].value), ops[1..]))
  }

  /** Over any run of bids each single player keeps what he owns. */
  lemma {:induction false} EachPlayerKeeps(w: World, ops: seq<BidOp>, q: Guid)
    requires HeldOk(w) && MoneyFits(w) && IsPlayer(w, q)
    ensures IsPlayer(Bids(w, ops), q) && Owns(Bids(w, ops), q) == Owns(w, q)
    decreases |ops|
  {
    if ops != [] {
      if IsPlayer(w, ops[0].p) {
        BidDecides(w, ops[0].p, ops[0].value);
        BidKeepsHeld(w, ops[0].p, ops[0].value);
        EachPlayerKeeps(Bid(w, ops[0].p, ops[0].value), ops[1..], q);
      } else {
        EachPlayerKeeps(w, ops[1..], q);
      }
    }
  }

  /** The bid that holds never falls except by the holder's own change. */
  lemma {:induction false} HeldBidNeverFalls(w: World, ops: seq<BidOp>)
    requires HeldOk(w) && MoneyFits(w) && ByOthers(w, ops) && w.house.bidderName != ""
    ensures Bids(w, ops).house.bidderName != "" && Bids(w, ops).house.internalBid >= w.house.internalBid
    decreases |ops|
  {
    if ops != [] {
      var p, value := ops[0].p, ops[0].value;
      BidDecides(w, p, value);
      BidKeepsHeld(w, p, value);
      if Wins(w, p, value) { assert Bid(w, p, value).accounts[p].name != ""; }
      HeldBidNeverFalls(Bid(w, p, value), ops[1..]);
    }
  }

  /** Where the `k`-th bid of a run meets the house. */
  function Before(w: World, ops: seq<BidOp>, k: nat): World { Bids(w, ops[..if k <= |ops| then k else |ops|]) }

  /** No bid that could be paid when it was made is above the one that holds in the end. */
  lemma {:induction false} HighestBidHolds(w: World, ops: seq<BidOp>, k: nat)
    requires HeldOk(w) && MoneyFits(w) && ByOthers(w, ops) && k < |ops|
    requires
      var u := Before(w, ops, k);
      IsPlayer(u, ops[k].p) && u.house.rent + ops[k].value <= u.accounts[ops[k].p].balance
    ensures Bids(w, ops).house.bidderName != "" && Bids(w, ops).house.internalBid >= ops[k].value
    decreases k
  {
    var p, value := ops[0].p, ops[0].value;
    var t := Bid(w, p, value);
    BidDecides(w, p, value);
    BidKeepsHeld(w, p, value);
    if k == 0 {
      assert ops[..0] == [] && Before(w, ops, 0) == w;
      if Wins(w, p, value) { assert t.accounts[p].name != ""; }
      HeldBidNeverFalls(t, ops[1..]);
    } else {
      assert ops[..k][1..] == ops[1..][..k - 1] && ops[..k][0] == ops[0];
      assert Before(t, ops[1..], k - 1) == Before(w, ops, k);
      HighestBidHolds(t, ops[1..], k - 1);
    }
  }

  // ---- Transfer ----

  /** What player `q` owns: the balance, and the price paid for an accepted transfer. */
  function OwnsWithPrice(w: World, q: Guid): nat
    requires IsPlayer(w, q)
  {
    w.accounts[q].balance
    + if w.house.transferStatus && w.house.bidder == Some(q) then w.house.internalBid + w.house.rent else 0
  }

  lemma PriceFits(w: World, q: Guid)
    requires TransferFits(w) && IsPlayer(w, q)
    ensures w.accounts[q].balance + w.house.rent < TWO_64
    ensures w.house.transferStatus ==>
      w.accounts[q].balance + w.house.internalBid + 2 * w.house.rent < TWO_64
  {
    BalancesUpdate(w.accounts, q, 0);
  }

  predicate OfferStands(w: World, p: Guid, name: string, allowed: bool) {
    && w.resolve(name).Some? && w.resolve(name) != Some(p) && allowed
    && w.house.state == Rented && w.house.owner == Some(p)
  }

  /** An offer of the owner of a rented house to somebody else stands, any other does nothing. */
  lemma OfferDecides(w: World, p: Guid, name: string, value: Amount, allowed: bool)
    ensures
      var t := Offer(w, p, name, value, allowed);
      && t.accounts == w.accounts
      && (OfferStands(w, p, name, allowed) ==>
            && t.house.state == Transfer && t.house.bidder == w.resolve(name) && t.house.internalBid == value
            && t.house.bidderName == name
            && t.house.owner == w.house.owner && t.house.transferStatus == w.house.transferStatus)
      && (!OfferStands(w, p, name, allowed) ==> t == w)
  {
  }

  /** The new owner, and nobody else, accepts once, if price and rent can be paid; the price is
      taken from the new owner alone. */
  lemma AcceptDecides(w: World, p: Guid, allowed: bool)
    requires ExactOk(w) && TransferFits(w) && IsPlayer(w, p)
    ensures AcceptTakesEffect(w, p, allowed) <==>
      && w.house.state == Transfer && w.house.bidder == Some(p) && allowed && !w.house.transferStatus
      && w.house.rent + w.house.internalBid <= w.accounts[p].balance
    ensures
      var t := Accept(w, p, allowed);
      && |t.accounts| == |w.accounts|
      && (AcceptTakesEffect(w, p, allowed) ==>
            && t.house == w.house.(transferStatus := true)
            && t.accounts[p].balance == w.accounts[p].balance - w.house.rent - w.house.internalBid)
      && (!AcceptTakesEffect(w, p, allowed) ==> t == w)
      && (forall q :: 0 <= q < |w.accounts| && q != p ==> t.accounts[q] == w.accounts[q])
  {
    PriceFits(w, p);
  }

  /** A cancel by the owner or a reject by the new owner, and no other, clears the offer; a
      price paid goes back to the one who paid it. */
  lemma EndDecides(w: World, p: Guid, byOwner: bool)
    requires ExactOk(w) && TransferFits(w) && IsPlayer(w, p)
    ensures
      var t := if byOwner then Cancel(w, p) else Reject(w, p);
      && |t.accounts| == |w.accounts|
      && (w.house.state == Transfer && Some(p) == (if byOwner then w.house.owner else w.house.bidder) ==>
            && t.house.state == Rented && t.house.bidder == None && t.house.bidderName == ""
            && t.house.internalBid == 0 && !t.house.transferStatus
            && t.house.owner == w.house.owner && t.house.rent == w.house.rent
            && t.house.highestBid == w.house.highestBid && t.house.bidHolderLimit == w.house.bidHolderLimit
            && forall q :: 0 <= q < |w.accounts| ==> t.accounts[q].balance == OwnsWithPrice(w, q))
      && (!(w.house.state == Transfer && Some(p) == (if byOwner then w.house.owner else w.house.bidder)) ==> t == w)
  {
    if w.house.transferStatus {
      var q := w.house.bidder.value;
      PriceFits(w, q);
      PlusExact(w.house.internalBid, w.house.rent);
      PlusExact(w.accounts[q].balance, w.house.internalBid + w.house.rent);
    }
  }

  /** An accepted transfer that is then cancelled or rejected leaves every account as it was. */
  lemma AcceptThenEndRestores(w: World, p: Guid, r: Guid, allowed: bool, byOwner: bool)
    requires ExactOk(w) && TransferFits(w) && IsPlayer(w, p) && IsPlayer(w, r)
    requires AcceptTakesEffect(w, p, allowed)
    requires Some(r) == if byOwner then w.house.owner else w.house.bidder
    ensures
      var t := Accept(w, p, allowed);
      (if byOwner then Cancel(t, r) else Reject(t, r)).accounts == w.accounts
  {
    var t := Accept(w, p, allowed);
    AcceptDecides(w, p, allowed);
    PerformConserves(w, AcceptOp(p, allowed));
    EndDecides(t, r, byOwner);
    var u := if byOwner then Cancel(t, r) else Reject(t, r);
    WithdrawConserves(t);
    assert forall q :: 0 <= q < |w.accounts| ==> OwnsWithPrice(t, q) == w.accounts[q].balance;
    SameAccounts(w, u);
  }

  lemma SameAccounts(w: World, u: World)
    requires |u.accounts| == |w.accounts|
    requires forall q :: 0 <= q < |w.accounts| ==>
      u.accounts[q].name == w.accounts[q].name && u.accounts[q].balance == w.accounts[q].balance
    ensures u.accounts == w.accounts
  {
    assert forall q :: 0 <= q < |w.accounts| ==> u.accounts[q] == w.accounts[q];
  }

  /** Over any run of transfer calls with exact names each single player keeps what he owns. */
  lemma {:induction false} EachPlayerKeepsPrice(w: World, ops: seq<TransferOp>, q: Guid)
    requires ExactOk(w) && TransferFits(w) && IsPlayer(w, q)
    requires forall k :: 0 <= k < |ops| ==> NamesExactly(w, ops[k])
    ensures IsPlayer(Transfers(w, ops), q) && OwnsWithPrice(Transfers(w, ops), q) == OwnsWithPrice(w, q)
    decreases |ops|
  {
    if ops != [] {
      if IsPlayer(w, ops[0].p) {
        var t := Perform(w, ops[0]);
        PerformConserves(w, ops[0]);
        PerformKeepsEach(w, ops[0], q);
        forall k | 0 <= k < |ops[1..]| ensures NamesExactly(t, ops[1..][k]) {
          assert NamesExactly(w, ops[k + 1]);
        }
        EachPlayerKeepsPrice(t, ops[1..], q);
      } else {
        EachPlayerKeepsPrice(w, ops[1..], q);
      }
    }
  }

  lemma PerformKeepsEach(w: World, op: TransferOp, q: Guid)
    requires ExactOk(w) && TransferFits(w) && IsPlayer(w, op.p) && IsPlayer(w, q)
    ensures IsPlayer(Perform(w, op), q) && OwnsWithPrice(Perform(w, op), q) == OwnsWithPrice(w, q)
  {
    match op
    case OfferOp(p, name, value, allowed) =>
    case AcceptOp(p, allowed) => AcceptDecides(w, p, allowed);
    case CancelOp(p) => EndDecides(w, p, true);
    case RejectOp(p) => EndDecides(w, p, false);
  }
}
