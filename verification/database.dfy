/** The mutable tables, and the ledger operations on them (src/ledger/ledger.service.ts). */
module DatabaseRows {
  import opened Wrappers
  import opened Ledger
  import opened Banking

  class Database {
    var entries: seq<Entry>
    var holds: seq<Hold>
    var orders: seq<Order>
    var trades: seq<Trade>
    var payments: seq<Payment>
    var deposits: seq<ChainDeposit>
    var requests: seq<Request>

    constructor ()
      ensures Rows() == EMPTY
    {
      entries, holds, orders, trades, payments, deposits, requests := [], [], [], [], [], [], [];
    }

    function Rows(): Bank
      reads this
    {
      Bank.Bank(entries, holds, orders, trades, payments, deposits, requests)
    }

    /** The end of a transaction that threw. */
    method RollBack(saved: Bank)
      modifies this
      ensures Rows() == saved
    {
      entries, holds, orders, trades := saved.entries, saved.holds, saved.orders, saved.trades;
      payments, deposits, requests := saved.payments, saved.deposits, saved.requests;
    }
  }

  /** One database transaction: it ends in the result, or in an exception and the rows it started from. */
  ghost predicate Transaction(before: Bank, result: Option<Bank>, ok: bool, after: Bank) {
    ok == result.Some? && after == if result.Some? then result.value else before
  }

  class LedgerService {
    const db: Database

    constructor (db: Database)
      ensures this.db == db
    {
      this.db := db;
    }

    /** The most that can still be held back: one more hold is covered by the balance exactly up to this amount. */
    method AvailableOf(account: Account) returns (available: int)
      ensures available == Balance(db.entries, account) - Held(db.holds, account)
      ensures forall more: int :: more <= available <==> Balance(db.entries, account) >= Held(db.holds + [Hold(account, more, Active)], account)
    {
      var balance := Balance(db.entries, account);
      var held := Held(db.holds, account);
      available := balance - held;
      forall more: int
        ensures Held(db.holds + [Hold(account, more, Active)], account) == held + more
      {
        HeldAppend(db.holds, Hold(account, more, Active), account);
      }
    }

    /** Checks the legs, then inserts them one by one; a refused journal inserts nothing. */
    method PostJournal(j: Journal, legs: seq<Leg>) returns (ok: bool)
      modifies db
      ensures ok <==> Postable(legs)
      ensures Transaction(old(db.Rows()), Post(old(db.Rows()), j, legs), ok, db.Rows())
    {
      if |legs| < 2 {
        return false;
      }
      var debit, credit := 0, 0;
      for i := 0 to |legs|
        invariant debit == SumDirection(legs[..i], Debit) && credit == SumDirection(legs[..i], Credit)
        invariant forall k :: 0 <= k < i ==> legs[k].amount > 0
      {
        assert legs[..i + 1][..i] == legs[..i];
        if legs[i].amount <= 0 {
          return false;
        }
        if legs[i].direction == Debit {
          debit := debit + legs[i].amount;
        } else {
          credit := credit + legs[i].amount;
        }
      }
      assert legs[..|legs|] == legs;
      if debit != credit {
        return false;
      }
      for i := 0 to |legs|
        invariant db.Rows() == old(db.Rows()).(entries := old(db.entries) + AsEntries(j, legs[..i]))
      {
        assert AsEntries(j, legs[..i + 1]) == AsEntries(j, legs[..i]) + [Entry(j, legs[i])];
        db.entries := db.entries + [Entry(j, legs[i])];
      }
      return true;
    }

    method CreateHold(account: Account, amount: int) returns (id: nat)
      modifies db`holds
      ensures id == |old(db.holds)| && db.Rows() == AddHold(old(db.Rows()), account, amount)
    {
      id := |db.holds|;
      db.holds := db.holds + [Hold(account, amount, Active)];
    }

    /** UPDATE holds SET status WHERE id: no look at the status before. */
    method SetHoldStatus(id: nat, status: HoldStatus)
      modifies db`holds
      ensures db.Rows() == SetHold(old(db.Rows()), id, status)
    {
      if id < |db.holds| {
        db.holds := db.holds[id := db.holds[id].(status := status)];
      }
    }
  }

  /** The entries of money coming in: custody, the user's net, and the fee if there is one. */
  method EntryJournal(user: string, asset: string, gross: int, fee: int) returns (entries: seq<Leg>)
    ensures entries == EntryLegs(user, asset, gross, fee)
  {
    entries := [Leg(CustodyAccount(asset), Debit, gross), Leg(UserAccount(user, asset), Credit, gross - fee)];
    if fee > 0 {
      entries := entries + [Leg(FeeAccount(asset), Credit, fee)];
    }
  }
}
