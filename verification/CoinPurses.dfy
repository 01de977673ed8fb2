/** Taking coins from two purses of an account, in one transaction. */
module CoinPurses {
  import opened Transactions

  type U32 = n: nat | n < 0x1_0000_0000

  datatype CoinType = Normal | Tournament | Transferable | Invalid

  type AccountId = nat

  datatype Purse = Purse(coins: U32, tournament: U32, transferable: U32)

  datatype LedgerRow = Removed(id: AccountId, amount: U32, coin: CoinType, detail: string)

  datatype Tables = Tables(accounts: map<AccountId, Purse>, ledger: seq<LedgerRow>)

  datatype Error = Ok | Storage | RemoveCoins

  /** `coinTypeToColumn` knows the three coin types. */
  predicate HasColumn(c: CoinType) { c != Invalid }

  function Coins(p: Purse, c: CoinType): U32 {
    match c
    case Normal => p.coins
    case Tournament => p.tournament
    case Transferable => p.transferable
    case Invalid => 0
  }

  function WithCoins(p: Purse, c: CoinType, n: U32): Purse {
    match c
    case Normal => p.(coins := n)
    case Tournament => p.(tournament := n)
    case Transferable => p.(transferable := n)
    case Invalid => p
  }

  /** What `removeCoins` is asked for. */
  datatype Order = Order(id: AccountId, primary: CoinType, secondary: CoinType, amount: U32, detail: string)

  /** The variables the callback writes: the error, and the two out-counters. */
  datatype Captured = Captured(result: Error, primaryRemoved: U32, secondaryRemoved: U32)

  function Register(t: Tables, o: Order, c: CoinType, amount: U32): Tables {
    t.(ledger := t.ledger + [Removed(o.id, amount, c, o.detail)])
  }

  /** The transaction callback: the rows are read, the columns updated, the ledger written. */
  function Body(o: Order, answers: nat -> bool, t: Tables, call: nat): Run<Tables, Captured> {
    if !answers(call) || o.id !in t.accounts then Run(t, call + 1, Returned(false), Captured(Storage, 0, 0))
    else
      var purse := t.accounts[o.id];
      var p, s := Coins(purse, o.primary), Coins(purse, o.secondary);
      if p + s < o.amount then Run(t, call + 1, Returned(false), Captured(RemoveCoins, 0, 0))
      else
        var fromP := if p <= o.amount then p else o.amount;
        var fromS := o.amount - fromP;
        if !answers(call + 1) then Run(t, call + 2, Returned(false), Captured(Storage, fromP, fromS))
        else
          var paid := WithCoins(WithCoins(purse, o.primary, p - fromP), o.secondary, s - fromS);
          var t1 := t.(accounts := t.accounts[o.id := paid]);
          BodyLedger(o, answers, t1, call + 2, fromP, fromS)
  }

  function BodyLedger(
      o: Order, answers: nat -> bool, t: Tables, call: nat, fromP: U32, fromS: U32): Run<Tables, Captured>
  {
    var logP, logS := o.detail != "" && fromP > 0, o.detail != "" && fromS > 0;
    var call1 := if logP then call + 1 else call;
    if logP && !answers(call) then Run(t, call1, Returned(false), Captured(Storage, fromP, fromS))
    else
      var t1 := if logP then Register(t, o, o.primary, fromP) else t;
      var call2 := if logS then call1 + 1 else call1;
      if logS && !answers(call1) then Run(t1, call2, Returned(false), Captured(Storage, fromP, fromS))
      else
        var t2 := if logS then Register(t1, o, o.secondary, fromS) else t1;
        Run(t2, call2, Returned(true), Captured(Ok, fromP, fromS))
  }

  /** `removeCoins`. */
  method RemoveCoinsFrom(db: Database<Tables>, o: Order)
    returns (error: Error, primaryRemoved: U32, secondaryRemoved: U32)
    requires db.working == db.committed
    modifies db
    ensures Removal(o, old(db.committed), db.committed, error, primaryRemoved, secondaryRemoved)
    ensures db.locks == old(db.locks) && db.working == db.committed
  {
    primaryRemoved, secondaryRemoved := 0, 0;
    if !HasColumn(o.primary) || !HasColumn(o.secondary) {
      return Storage, 0, 0;
    }
    if o.primary == o.secondary {
      return Storage, 0, 0;
    }
    var answers := db.answers;
    var callback := (t: Tables, call: nat) => Body(o, answers, t, call);
    WrapperRemoves(o, db.connected, answers, db.committed, db.calls, callback);
    var success, captured := ExecuteRollbackOnFailure(db, callback);
    var result := Storage;
    if captured.Some? {
      result, primaryRemoved, secondaryRemoved :=
        captured.value.result, captured.value.primaryRemoved, captured.value.secondaryRemoved;
    }
    if !success {
      primaryRemoved, secondaryRemoved := 0, 0;
      if result == Ok {
        return Storage, 0, 0;
      }
    }
    return result, primaryRemoved, secondaryRemoved;
  }

  function Rows(o: Order, fromP: U32, fromS: U32): seq<LedgerRow> {
    if o.detail == "" then []
    else (if fromP > 0 then [Removed(o.id, fromP, o.primary, o.detail)] else [])
         + (if fromS > 0 then [Removed(o.id, fromS, o.secondary, o.detail)] else [])
  }

  /** What a removal means. Ok: the two columns fall by the amount together, the secondary one
      only by what the primary one lacks, nothing else in the accounts moves, and the ledger
      gets the matching rows when there is a detail. Anything else: nothing changed at all,
      and both counters are zero. */
  predicate Removal(o: Order, before: Tables, after: Tables, error: Error, fromP: nat, fromS: nat) {
    if error == Ok then
      && o.id in before.accounts && after.accounts.Keys == before.accounts.Keys
      && (forall id :: id in before.accounts && id != o.id ==> after.accounts[id] == before.accounts[id])
      && (forall c :: HasColumn(c) && c != o.primary && c != o.secondary ==>
            Coins(after.accounts[o.id], c) == Coins(before.accounts[o.id], c))
      && Coins(after.accounts[o.id], o.primary) + fromP == Coins(before.accounts[o.id], o.primary)
      && Coins(after.accounts[o.id], o.secondary) + fromS == Coins(before.accounts[o.id], o.secondary)
      && fromP + fromS == o.amount && fromP < 0x1_0000_0000 && fromS < 0x1_0000_0000
      && (fromS > 0 ==> Coins(after.accounts[o.id], o.primary) == 0)
      && after.ledger == before.ledger + Rows(o, fromP, fromS)
    else
      after == before && fromP == 0 && fromS == 0
  }

  /** A callback that returns true has removed; it never throws. */
  lemma BodyRemoves(o: Order, answers: nat -> bool, t: Tables, call: nat)
    requires HasColumn(o.primary) && HasColumn(o.secondary) && o.primary != o.secondary
    ensures
      var r := Body(o, answers, t, call);
      && r.ending.Returned? && (r.ending.ok <==> r.extra.result == Ok)
      && (r.ending.ok ==> Removal(o, t, r.tables, Ok, r.extra.primaryRemoved, r.extra.secondaryRemoved))
  {
    BodyPays(o, answers, t, call);
    var r := Body(o, answers, t, call);
    if r.ending.ok { PaidIsRemoval(o, t, r.extra.primaryRemoved, r.extra.secondaryRemoved); }
  }

  /** What the tables are when the callback returns true. */
  lemma BodyPays(o: Order, answers: nat -> bool, t: Tables, call: nat)
    ensures
      var r := Body(o, answers, t, call);
      && r.ending.Returned? && (r.ending.ok <==> r.extra.result == Ok)
      && (r.ending.ok ==>
            var fromP, fromS := r.extra.primaryRemoved, r.extra.secondaryRemoved;
            && Payable(o, t, fromP, fromS)
            && r.tables == PaidTables(o, t, fromP, fromS))
  {
    if o.id in t.accounts {
      var purse := t.accounts[o.id];
      var p, s := Coins(purse, o.primary), Coins(purse, o.secondary);
      if p + s >= o.amount {
        var fromP := if p <= o.amount then p else o.amount;
        var fromS := o.amount - fromP;
        var paid := WithCoins(WithCoins(purse, o.primary, p - fromP), o.secondary, s - fromS);
        LedgerGrows(o, answers, t.(accounts := t.accounts[o.id := paid]), call + 2, fromP, fromS);
      }
    }
  }

  /** The two parts make up the amount, each purse holds its part, the secondary one pays only
      what the primary one lacks. */
  predicate Payable(o: Order, t: Tables, fromP: U32, fromS: U32) {
    && o.id in t.accounts
    && fromP <= Coins(t.accounts[o.id], o.primary) && fromS <= Coins(t.accounts[o.id], o.secondary)
    && fromP + fromS == o.amount && (fromS > 0 ==> fromP == Coins(t.accounts[o.id], o.primary))
  }

  function PaidTables(o: Order, t: Tables, fromP: U32, fromS: U32): Tables
    requires Payable(o, t, fromP, fromS)
  {
    var purse := t.accounts[o.id];
    var p, s := Coins(purse, o.primary) - fromP, Coins(purse, o.secondary) - fromS;
    var paid := WithCoins(WithCoins(purse, o.primary, p), o.secondary, s);
    Tables(t.accounts[o.id := paid], t.ledger + Rows(o, fromP, fromS))
  }

  /** Writing two columns changes these two and no other. */
  lemma PursePays(o: Order, purse: Purse, p: U32, s: U32)
    requires HasColumn(o.primary) && HasColumn(o.secondary) && o.primary != o.secondary
    ensures
      var paid := WithCoins(WithCoins(purse, o.primary, p), o.secondary, s);
      && Coins(paid, o.primary) == p && Coins(paid, o.secondary) == s
      && (forall c :: HasColumn(c) && c != o.primary && c != o.secondary ==> Coins(paid, c) == Coins(purse, c))
  {
  }

  /** The tables after both columns fell and the ledger grew are a removal. */
  lemma PaidIsRemoval(o: Order, t: Tables, fromP: U32, fromS: U32)
    requires HasColumn(o.primary) && HasColumn(o.secondary) && o.primary != o.secondary
    requires Payable(o, t, fromP, fromS)
    ensures Removal(o, t, PaidTables(o, t, fromP, fromS), Ok, fromP, fromS)
  {
    var purse := t.accounts[o.id];
    PursePays(o, purse, Coins(purse, o.primary) - fromP, Coins(purse, o.secondary) - fromS);
  }

  lemma LedgerGrows(o: Order, answers: nat -> bool, t: Tables, call: nat, fromP: U32, fromS: U32)
    ensures
      var r := BodyLedger(o, answers, t, call, fromP, fromS);
      && r.ending.Returned? && (r.ending.ok <==> r.extra.result == Ok)
      && r.tables.accounts == t.accounts && r.extra.primaryRemoved == fromP && r.extra.secondaryRemoved == fromS
      && (r.ending.ok ==> r.tables.ledger == t.ledger + Rows(o, fromP, fromS))
  {
    assert t.ledger + [] == t.ledger;
  }

  /** The wrapper turns every failure, that of the commit included, into no change. */
  lemma WrapperRemoves(
      o: Order, connected: bool, answers: nat -> bool, t: Tables, calls: nat,
      callback: (Tables, nat) -> Run<Tables, Captured>)
    requires HasColumn(o.primary) && HasColumn(o.secondary) && o.primary != o.secondary
    requires callback(t, calls + 1) == Body(o, answers, t, calls + 1)
    ensures
      var r := RollbackOnFailure(connected, answers, t, calls, callback);
      && (!r.ok ==> r.tables == t)
      && (r.ok ==>
            && r.extra.Some? && r.extra.value.result == Ok
            && Removal(o, t, r.tables, Ok, r.extra.value.primaryRemoved, r.extra.value.secondaryRemoved))
  {
    BodyRemoves(o, answers, t, calls + 1);
  }

  /** When the server answers everything, the outcome depends on the coins alone: Ok exactly
      when the account exists and both purses together hold the amount. */
  lemma OkIffEnough(o: Order, answers: nat -> bool, t: Tables, call: nat)
    requires HasColumn(o.primary) && HasColumn(o.secondary) && o.primary != o.secondary
    requires forall n: nat :: answers(n)
    ensures
      var r := RollbackOnFailure(true, answers, t, call, (t: Tables, n: nat) => Body(o, answers, t, n));
      r.ok <==>
        && o.id in t.accounts
        && Coins(t.accounts[o.id], o.primary) + Coins(t.accounts[o.id], o.secondary) >= o.amount
  {
  }

  /** A ledger row is refused after the accounts were updated, and the next query, which would
      be the commit, is answered. */
  predicate LedgerRefused(o: Order, answers: nat -> bool, t: Tables, call: nat) {
    && o.id in t.accounts && answers(call) && answers(call + 1) && o.detail != ""
    && Coins(t.accounts[o.id], o.primary) + Coins(t.accounts[o.id], o.secondary) >= o.amount > 0
    && ((!answers(call + 2) && answers(call + 3))
        || (FromBoth(o, t.accounts[o.id]) && answers(call + 2) && !answers(call + 3) && answers(call + 4)))
  }

  /** Both purses pay, so there are two ledger rows. */
  predicate FromBoth(o: Order, purse: Purse) { 0 < Coins(purse, o.primary) < o.amount }

  /** Why the removal runs in the wrapper that rolls back: in the other one a failure would
      keep the coins if and only if the accounts were updated, a ledger row was then refused,
      and the commit still went through. */
  lemma CommittingRemovalAtomicIff(o: Order, connected: bool, answers: nat -> bool, t: Tables, calls: nat)
    requires HasColumn(o.primary) && HasColumn(o.secondary) && o.primary != o.secondary
    ensures
      var r := CommitAlways(connected, answers, t, calls, (t: Tables, n: nat) => Body(o, answers, t, n));
      (!r.ok ==> r.tables == t) <==> !(connected && answers(calls) && LedgerRefused(o, answers, t, calls + 1))
  {
    var callback := (t: Tables, n: nat) => Body(o, answers, t, n);
    CommitAtomicIff(connected, answers, t, calls, callback);
    BodyFails(o, answers, t, calls + 1);
  }

  /** The callback fails with changed tables exactly when a ledger row is refused. */
  lemma BodyFails(o: Order, answers: nat -> bool, t: Tables, call: nat)
    requires HasColumn(o.primary) && HasColumn(o.secondary) && o.primary != o.secondary
    ensures
      var r := Body(o, answers, t, call);
      r.ending == Returned(false) && r.tables != t && answers(r.calls) <==> LedgerRefused(o, answers, t, call)
  {
    var r := Body(o, answers, t, call);
    if o.id in t.accounts && r.tables.accounts == t.accounts {
      assert r.tables.accounts[o.id] == t.accounts[o.id];
    }
  }
}
