/** House auction and house transfer: the bank balances, and the money a house holds. All
    amounts are unsigned 64-bit numbers. */
module HouseEscrow {
  import opened Wrappers

  const TWO_64: nat := 0x1_0000_0000_0000_0000

  type Amount = a: nat | a < TWO_64

  function Plus(a: Amount, b: Amount): Amount { (a + b) % TWO_64 }

  function Minus(a: Amount, b: Amount): Amount { (a - b) % TWO_64 }

  datatype Account = Account(name: string, balance: Amount)

  /** A player is known by the index of the account. */
  type Guid = nat

  datatype HouseState = Available | Rented | Transfer | MoveOut

  datatype House = House(
    state: HouseState, owner: Option<Guid>, rent: Amount,
    bidderName: string, bidder: Option<Guid>,
    highestBid: Amount, internalBid: Amount, bidHolderLimit: Amount,
    transferStatus: bool)

  /** `resolve` is the lookup of an account by a name as typed, online first and then in the
      database; it need not tell upper from lower case. */
  datatype World = World(accounts: seq<Account>, house: House, resolve: string -> Option<Guid>)

  predicate IsPlayer(w: World, p: Guid) { p < |w.accounts| }

  /** Names are unique, nobody has an empty name, and an account is found by its exact name. */
  ghost predicate NamesOk(w: World) {
    && (forall n :: w.resolve(n).Some? ==> IsPlayer(w, w.resolve(n).value))
    && (forall p :: 0 <= p < |w.accounts| ==> w.accounts[p].name != "" && w.resolve(w.accounts[p].name) == Some(p))
    && w.resolve("") == None
  }

  function SetBalance(w: World, p: Guid, b: Amount): World
    requires IsPlayer(w, p)
  {
    w.(accounts := w.accounts[p := w.accounts[p].(balance := b)])
  }

  function Credit(w: World, p: Option<Guid>, amount: Amount): World {
    if p.Some? && IsPlayer(w, p.value) then SetBalance(w, p.value, Plus(w.accounts[p.value].balance, amount)) else w
  }

  datatype Reply = Reply(world: World, ok: bool)

  /** `processBankAuction`: takes the bid from the player and pays the other bidder back. */
  function ProcessBank(w: World, p: Guid, bid: Amount, replace: bool): Reply
    requires IsPlayer(w, p)
  {
    var h := w.house;
    var balance := w.accounts[p].balance;
    if !replace && balance < Plus(h.rent, bid) then Reply(w, false)
    else if balance < bid then Reply(w, false)
    else
      var paid := SetBalance(w, p,
        if replace then Minus(balance, Minus(bid, h.internalBid)) else Minus(balance, Plus(h.rent, bid)));
      if h.bidderName != w.accounts[p].name then
        Reply(Credit(paid, w.resolve(h.bidderName), Plus(h.bidHolderLimit, h.rent)), true)
      else
        Reply(paid, true)
  }

  /** `playerCyclopediaHouseBid`: a refused bid changes nothing, and a failed permission check
      does not stop it. */
  function Bid(w: World, p: Guid, value: Amount): World
    requires IsPlayer(w, p)
  {
    var h := w.house;
    var name := w.accounts[p].name;
    if h.bidderName == "" then
      var r := ProcessBank(w, p, value, false);
      if !r.ok then w
      else
        r.world.(house := h.(
          highestBid := 0, internalBid := value, bidHolderLimit := value, bidderName := name, bidder := Some(p)))
    else if h.bidderName == name then
      var r := ProcessBank(w, p, value, true);
      if !r.ok then w else r.world.(house := h.(internalBid := value, bidHolderLimit := value))
    else if value <= h.internalBid then
      w.(house := h.(highestBid := value))
    else
      var r := ProcessBank(w, p, value, false);
      if !r.ok then w
      else r.world.(house := h.(highestBid := Plus(h.internalBid, 1), internalBid := value, bidHolderLimit := value,
                                bidderName := name, bidder := Some(p)))
  }

  /** `playerCyclopediaHouseTransfer`; `allowed` stands for vocation, premium and bid checks. */
  function Offer(w: World, p: Guid, newOwnerName: string, value: Amount, allowed: bool): World {
    var h := w.house;
    var n := w.resolve(newOwnerName);
    if n.None? || h.state != Rented || h.owner != Some(p) || n == Some(p) || !allowed then w
    else w.(house := h.(bidderName := newOwnerName, bidder := n, internalBid := value, state := Transfer))
  }

  /** `playerCyclopediaHouseAcceptTransfer`. */
  function Accept(w: World, p: Guid, allowed: bool): World
    requires IsPlayer(w, p)
  {
    var h := w.house;
    if h.state != Transfer || h.bidder != Some(p) || !allowed
       || w.accounts[p].balance < Plus(h.rent, h.internalBid) || h.transferStatus
    then w
    else
      var r := ProcessBank(w, p, h.internalBid, false);
      if !r.ok then w else r.world.(house := h.(transferStatus := true))
  }

  /** The common end of cancel and reject: a payment made goes back, the offer is cleared. */
  function Withdraw(w: World): World {
    var h := w.house;
    var w1 := if h.transferStatus then Credit(w, h.bidder, Plus(h.internalBid, h.rent)) else w;
    w1.(house := h.(bidderName := "", bidder := None, internalBid := 0, state := Rented, transferStatus := false))
  }

  function Cancel(w: World, p: Guid): World {
    if w.house.state != Transfer || w.house.owner != Some(p) then w else Withdraw(w)
  }

  function Reject(w: World, p: Guid): World {
    if w.house.bidder != Some(p) || w.house.state != Transfer then w else Withdraw(w)
  }

  /** The mutable bank and house. */
  class HouseAuction {
    var accounts: seq<Account>
    var house: House
    const resolve: string -> Option<Guid>

    ghost function View(): World
      reads this
    {
      World(accounts, house, resolve)
    }

    constructor (accounts: seq<Account>, house: House, resolve: string -> Option<Guid>)
      ensures View() == World(accounts, house, resolve)
    {
      this.accounts, this.house, this.resolve := accounts, house, resolve;
    }

    method SetBankBalance(p: Guid, b: Amount)
      requires p < |accounts|
      modifies this`accounts
      ensures View() == SetBalance(old(View()), p, b)
    {
      accounts := accounts[p := accounts[p].(balance := b)];
    }

    method IncreaseBankBalance(p: Option<Guid>, amount: Amount)
      modifies this`accounts
      ensures View() == Credit(old(View()), p, amount)
    {
      if p.Some? && p.value < |accounts| {
        SetBankBalance(p.value, Plus(accounts[p.value].balance, amount));
      }
    }

    method ProcessBankAuction(p: Guid, bid: Amount, replace: bool) returns (ok: bool)
      requires p < |accounts|
      modifies this`accounts
      ensures Reply(View(), ok) == ProcessBank(old(View()), p, bid, replace)
    {
      var balance := accounts[p].balance;
      if !replace && balance < Plus(house.rent, bid) {
        return false;
      }
      if balance < bid {
        return false;
      }
      if replace {
        SetBankBalance(p, Minus(balance, Minus(bid, house.internalBid)));
      } else {
        SetBankBalance(p, Minus(balance, Plus(house.rent, bid)));
      }
      if house.bidderName != accounts[p].name {
        IncreaseBankBalance(resolve(house.bidderName), Plus(house.bidHolderLimit, house.rent));
      }
      return true;
    }

    method PlayerBid(p: Guid, value: Amount)
      requires p < |accounts|
      modifies this
      ensures View() == Bid(old(View()), p, value)
    {
      var ok;
      var name := accounts[p].name;
      if house.bidderName == "" {
        ok := ProcessBankAuction(p, value, false);
        if !ok { return; }
        house := house.(
          highestBid := 0, internalBid := value, bidHolderLimit := value, bidderName := name, bidder := Some(p));
      } else if house.bidderName == name {
        ok := ProcessBankAuction(p, value, true);
        if !ok { return; }
        house := house.(internalBid := value, bidHolderLimit := value);
      } else if value <= house.internalBid {
        house := house.(highestBid := value);
      } else {
        ok := ProcessBankAuction(p, value, false);
        if !ok { return; }
        house := house.(highestBid := Plus(house.internalBid, 1));
        house := house.(internalBid := value, bidHolderLimit := value, bidderName := name, bidder := Some(p));
      }
    }

    method PlayerTransfer(p: Guid, newOwnerName: string, value: Amount, allowed: bool)
      modifies this`house
      ensures View() == Offer(old(View()), p, newOwnerName, value, allowed)
    {
      var newOwner := resolve(newOwnerName);
      if newOwner.None? || house.state != Rented || house.owner != Some(p) || newOwner == Some(p) || !allowed {
        return;
      }
      house := house.(bidderName := newOwnerName, bidder := newOwner, internalBid := value, state := Transfer);
    }

    method PlayerAcceptTransfer(p: Guid, allowed: bool)
      requires p < |accounts|
      modifies this
      ensures View() == Accept(old(View()), p, allowed)
    {
      if house.state != Transfer || house.bidder != Some(p) || !allowed
         || accounts[p].balance < Plus(house.rent, house.internalBid) || house.transferStatus {
        return;
      }
      var ok := ProcessBankAuction(p, house.internalBid, false);
      if ok {
        house := house.(transferStatus := true);
      }
    }

    method PlayerCancelTransfer(p: Guid)
      modifies this
      ensures View() == Cancel(old(View()), p)
    {
      if house.state != Transfer || house.owner != Some(p) {
        return;
      }
      ClearOffer();
    }

    method PlayerRejectTransfer(p: Guid)
      modifies this
      ensures View() == Reject(old(View()), p)
    {
      if house.bidder != Some(p) || house.state != Transfer {
        return;
      }
      ClearOffer();
    }

    method ClearOffer()
      modifies this
      ensures View() == Withdraw(old(View()))
    {
      if house.transferStatus {
        IncreaseBankBalance(house.bidder, Plus(house.internalBid, house.rent));
      }
      house := house.(bidderName := "", bidder := None, internalBid := 0, state := Rented, transferStatus := false);
    }
  }
}
