/** Faucet credits and transfers as the service runs them (src/payments/payments.service.ts). */
module Payments {
  import opened Wrappers
  import opened Fees
  import opened Ledger
  import opened Banking
  import opened Custody
  import opened DatabaseRows
  import opened CustodyPayments
  import opened Idempotency

  class PaymentsService {
    const cfg: BankConfig
    const ledger: LedgerService

    constructor (cfg: BankConfig, ledger: LedgerService)
      ensures this.cfg == cfg && this.ledger == ledger
    {
      this.cfg, this.ledger := cfg, ledger;
    }

    /** Saving a payment row; false is the unique violation. */
    method SavePayment(p: Payment) returns (ok: bool)
      modifies ledger.db`payments
      ensures Transaction(old(ledger.db.Rows()), InsertPayment(old(ledger.db.Rows()), p), ok, ledger.db.Rows())
    {
      var db := ledger.db;
      if FindPayment(db.payments, p.user, p.key).Some? {
        return false;
      }
      db.payments := db.payments + [p];
      return true;
    }

    /** After a unique violation: the payment that is already there, if it is under this very key. */
    method ReadDuplicate(user: string, key: string) returns (out: Progress)
      ensures var dup := FindPayment(ledger.db.payments, user, key); out == if dup.Some? then Returned(dup.value) else Refused
      ensures out.Returned? ==>
                var rows := ledger.db.payments;
                out.payment < |rows| && rows[out.payment].user == user && rows[out.payment].key == key
      ensures out.Refused? <==> forall i :: 0 <= i < |ledger.db.payments| ==> ledger.db.payments[i].user != user || ledger.db.payments[i].key != key
    {
      var dup := FindPayment(ledger.db.payments, user, key);
      out := if dup.Some? then Returned(dup.value) else Refused;
    }

    /** The faucet's transaction, and the second look at the key if it hit a unique violation. */
    method CommitCredit(user: string, asset: string, amount: int, key: string) returns (out: Progress)
      requires WellFormed(cfg, DoFaucet(user, asset, amount, key))
      modifies ledger.db
      ensures (ledger.db.Rows(), out) == Finish(cfg, old(ledger.db.Rows()), DoFaucet(user, asset, amount, key))
    {
      var id := |ledger.db.payments|;
      var inserted := SavePayment(Payment(user, key, Faucet, asset, amount, PaymentCompleted));
      if !inserted {
        out := ReadDuplicate(user, key);
        return;
      }
      TransferPosts(user, user, asset, amount);
      var posted := ledger.PostJournal(PaymentJournal(id), FaucetLegs(user, asset, amount));
      return Returned(id);
    }

    method Credit(user: string, asset: string, amount: int, key: string) returns (out: Progress)
      modifies ledger.db
      ensures (ledger.db.Rows(), out) == Once(cfg, old(ledger.db.Rows()), DoFaucet(user, asset, amount, key))
      ensures old(Inv(ledger.db.Rows())) ==> Inv(ledger.db.Rows())
    {
      OnceKeepsInv(cfg, ledger.db.Rows(), DoFaucet(user, asset, amount, key));
      if !cfg.faucetEnabled || asset !in cfg.assets || amount <= 0 || amount > cfg.faucetMax {
        return Refused;
      }
      var existing := FindPayment(ledger.db.payments, user, key);
      if existing.Some? {
        return Returned(existing.value);
      }
      out := CommitCredit(user, asset, amount, key);
    }

    /** The transfer's transaction: both rows and the journal, or, on a unique violation, none of them. */
    method CommitTransfer(user: string, recipient: string, asset: string, amount: int, key: string) returns (out: Progress)
      requires WellFormed(cfg, DoTransfer(user, recipient, asset, amount, key)) && recipient != user
      modifies ledger.db
      ensures (ledger.db.Rows(), out) == Finish(cfg, old(ledger.db.Rows()), DoTransfer(user, recipient, asset, amount, key))
    {
      var db := ledger.db;
      var saved, id := db.Rows(), |db.payments|;
      var available := ledger.AvailableOf(UserAccount(user, asset));
      if available < amount {
        return Refused;
      }
      var inserted := SavePayment(Payment(user, key, Kind.Transfer(recipient), asset, amount, PaymentCompleted));
      if inserted {
        inserted := SavePayment(Payment(recipient, key + ":in", Receive(id), asset, amount, PaymentCompleted));
      }
      if !inserted {
        db.RollBack(saved);
        out := ReadDuplicate(user, key);
        return;
      }
      TransferPosts(user, recipient, asset, amount);
      var posted := ledger.PostJournal(PaymentJournal(id), TransferLegs(user, recipient, asset, amount));
      return Returned(id);
    }

    method Transfer(user: string, recipient: string, asset: string, amount: int, key: string) returns (out: Progress)
      modifies ledger.db
      ensures (ledger.db.Rows(), out) == Once(cfg, old(ledger.db.Rows()), DoTransfer(user, recipient, asset, amount, key))
      ensures old(Inv(ledger.db.Rows())) ==> Inv(ledger.db.Rows())
    {
      OnceKeepsInv(cfg, ledger.db.Rows(), DoTransfer(user, recipient, asset, amount, key));
      if asset !in cfg.assets || amount <= 0 {
        return Refused;
      }
      var existing := FindPayment(ledger.db.payments, user, key);
      if existing.Some? {
        return Returned(existing.value);
      }
      if recipient == user {
        return Refused;
      }
      out := CommitTransfer(user, recipient, asset, amount, key);
    }
  }
}
