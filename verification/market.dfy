/** The P2P market as the service runs it (src/marketplace/p2p-market.service.ts): rows are loaded, assigned and saved. */
module Market {
  import opened Wrappers
  import opened Fees
  import opened Ledger
  import opened Banking
  import opened DatabaseRows
  import opened Custody
  import opened CustodyRuns

  const SWEEP_BATCH := 50

  /** Trades of one status whose deadline has passed, in table order, at most `limit` of them from row `from` on. */
  function Overdue(b: Bank, status: TradeStatus, now: int, from: nat, limit: nat): (r: seq<nat>)
    requires from <= |b.trades|
    ensures forall i :: 0 <= i < |r| ==> from <= r[i] < |b.trades| && IsOverdue(b.trades[r[i]], status, now)
    ensures |r| < limit ==> forall t :: from <= t < |b.trades| && IsOverdue(b.trades[t], status, now) ==> t in r
    decreases |b.trades| - from
  {
    if from == |b.trades| || limit == 0 then []
    else if IsOverdue(b.trades[from], status, now) then [from] + Overdue(b, status, now, from + 1, limit - 1)
    else Overdue(b, status, now, from + 1, limit)
  }

  predicate IsOverdue(t: Trade, status: TradeStatus, now: int) {
    var deadline := if status == Pending then t.paymentDeadline else t.releaseDeadline;
    t.status == status && deadline.Some? && deadline.value < now
  }

  /** The worker on a list of trades read beforehand: `b0` is the bank at that reading, `chats` the trades with messages. */
  function SweepPayments(b0: Bank, b: Bank, ids: seq<nat>, chats: set<nat>): Bank {
    if |ids| == 0 then b
    else
      var t := ids[|ids| - 1];
      var before := SweepPayments(b0, b, ids[..|ids| - 1], chats);
      SweepPayment(before, t, Engaged(b0, t, chats)).GetOr(before)
  }

  function SweepReleases(b: Bank, ids: seq<nat>): Bank {
    if |ids| == 0 then b
    else
      var before := SweepReleases(b, ids[..|ids| - 1]);
      SweepRelease(before, ids[|ids| - 1]).GetOr(before)
  }

  predicate Engaged(b: Bank, t: nat, chats: set<nat>) {
    (t < |b.trades| && b.trades[t].extensions > 0) || t in chats
  }

  function Sweep(b: Bank, now: int, chats: set<nat>): Bank {
    var paid := SweepPayments(b, b, Overdue(b, Pending, now, 0, SWEEP_BATCH), chats);
    SweepReleases(paid, Overdue(paid, Paid, now, 0, SWEEP_BATCH))
  }

  lemma {:induction false} SweepPaymentsEffect(b: Bank, ids: seq<nat>, chats: set<nat>, t: nat)
    requires Inv(b) && t < |b.trades| && forall i :: 0 <= i < |ids| ==> ids[i] < |b.trades| && b.trades[ids[i]].status == Pending
    ensures var after := SweepPayments(b, b, ids, chats);
            && Inv(after) && |after.trades| == |b.trades|
            && after.trades[t].status == (if t !in ids then b.trades[t].status else if Engaged(b, t, chats) then Disputed else Expired)
            && (t !in ids ==> after.trades[t] == b.trades[t])
  {
    if |ids| > 0 {
      var shorter, last := ids[..|ids| - 1], ids[|ids| - 1];
      assert ids == shorter + [last];
      SweepPaymentsEffect(b, shorter, chats, t);
      var before := SweepPayments(b, b, shorter, chats);
      if SweepPayment(before, last, Engaged(b, last, chats)).Some? {
        SweepPaymentKeeps(before, last, Engaged(b, last, chats));
      } else {
        SweepPaymentsEffect(b, shorter, chats, last);
      }
    }
  }

  lemma {:induction false} SweepReleasesEffect(b: Bank, ids: seq<nat>, t: nat)
    requires Inv(b) && t < |b.trades| && forall i :: 0 <= i < |ids| ==> ids[i] < |b.trades| && b.trades[ids[i]].status == Paid
    ensures var after := SweepReleases(b, ids);
            && Inv(after) && |after.trades| == |b.trades|
            && after.trades[t].status == (if t in ids then Disputed else b.trades[t].status)
            && (t !in ids ==> after.trades[t] == b.trades[t])
  {
    if |ids| > 0 {
      var shorter, last := ids[..|ids| - 1], ids[|ids| - 1];
      assert ids == shorter + [last];
      SweepReleasesEffect(b, shorter, t);
      var before := SweepReleases(b, shorter);
      if SweepRelease(before, last).Some? {
        DisputedKeeps(before, last);
      } else {
        SweepReleasesEffect(b, shorter, last);
      }
    }
  }

  lemma {:induction false} SweepEffect(b: Bank, now: int, chats: set<nat>, t: nat)
    requires Inv(b) && t < |b.trades|
    requires |Overdue(b, Pending, now, 0, SWEEP_BATCH)| < SWEEP_BATCH
    requires var paid := SweepPayments(b, b, Overdue(b, Pending, now, 0, SWEEP_BATCH), chats);
             |Overdue(paid, Paid, now, 0, SWEEP_BATCH)| < SWEEP_BATCH
    ensures var after, trade := Sweep(b, now, chats), b.trades[t];
            && Inv(after) && |after.trades| == |b.trades|
            && after.trades[t].status ==
               (if IsOverdue(trade, Pending, now) then (if Engaged(b, t, chats) then Disputed else Expired)
                else if IsOverdue(trade, Paid, now) then Disputed else trade.status)
  {
    var pending := Overdue(b, Pending, now, 0, SWEEP_BATCH);
    SweepPaymentsEffect(b, pending, chats, t);
    var paid := SweepPayments(b, b, pending, chats);
    var releases := Overdue(paid, Paid, now, 0, SWEEP_BATCH);
    SweepReleasesEffect(paid, releases, t);
  }

  /**
   * One sweep leaves no trade waiting past its deadline, as long as fewer than a batch were:
   * an unpaid one is refunded if the parties never interacted and disputed otherwise, a paid
   * one is disputed, and no other trade is touched.
   */
  lemma {:induction false} SweepSettlesOverdueTrades(b: Bank, now: int, chats: set<nat>, t: nat)
    requires Inv(b) && t < |b.trades|
    requires |Overdue(b, Pending, now, 0, 50)| < 50
    requires var paid := SweepPayments(b, b, Overdue(b, Pending, now, 0, 50), chats);
             |Overdue(paid, Paid, now, 0, 50)| < 50
    ensures var after, trade := Sweep(b, now, chats), b.trades[t];
            && Inv(after) && |after.trades| == |b.trades|
            && after.trades[t].status ==
               (if trade.status == Pending && trade.paymentDeadline.Some? && trade.paymentDeadline.value < now then
                  (if trade.extensions > 0 || t in chats then Disputed else Expired)
                else if trade.status == Paid && trade.releaseDeadline.Some? && trade.releaseDeadline.value < now then Disputed
                else trade.status)
  {
    SweepEffect(b, now, chats, t);
  }

  lemma SweepKeepsInv(b: Bank, now: int, chats: set<nat>)
    requires Inv(b)
    ensures Inv(Sweep(b, now, chats))
  {
    var pending := Overdue(b, Pending, now, 0, SWEEP_BATCH);
    if |b.trades| > 0 {
      SweepPaymentsEffect(b, pending, chats, 0);
      var paid := SweepPayments(b, b, pending, chats);
      SweepReleasesEffect(paid, Overdue(paid, Paid, now, 0, SWEEP_BATCH), 0);
    }
  }

  /** What an operation of the market promises about the bank it leaves. */
  lemma KeepsInv(cfg: BankConfig, b: Bank, act: MarketAction)
    ensures Inv(b) && SaneAction(Action.Market(act)) ==> Inv(AttemptMarket(cfg, b, act).GetOr(b))
  {
    if Inv(b) && SaneAction(Action.Market(act)) && AttemptMarket(cfg, b, act).Some? {
      MarketKeepsInv(cfg, b, act);
    }
  }

  class P2pMarketService {
    const cfg: BankConfig
    const ledger: LedgerService
    var sweeping: bool

    constructor (cfg: BankConfig, ledger: LedgerService)
      ensures this.cfg == cfg && this.ledger == ledger && !sweeping
    {
      this.cfg, this.ledger, sweeping := cfg, ledger, false;
    }

    method CreateOrder(user: string, side: Side, asset: string, amount: int, price: int, band: Option<(int, int)>) returns (ok: bool)
      modifies ledger.db
      ensures Transaction(old(ledger.db.Rows()), Banking.CreateOrder(cfg, old(ledger.db.Rows()), user, side, asset, amount, price, band), ok, ledger.db.Rows())
      ensures old(Inv(ledger.db.Rows())) ==> Inv(ledger.db.Rows())
    {
      KeepsInv(cfg, ledger.db.Rows(), DoCreateOrder(user, side, asset, amount, price, band));
      if asset !in cfg.assets || amount <= 0 || price <= 0 {
        return false;
      }
      if band.Some? && (price < band.value.0 || price > band.value.1) {
        return false;
      }
      var db := ledger.db;
      var hold: Option<nat> := None;
      if side == Sell {
        var available := ledger.AvailableOf(UserAccount(user, asset));
        if available < amount {
          return false;
        }
        var id := ledger.CreateHold(UserAccount(user, asset), amount);
        hold := Some(id);
      }
      db.orders := db.orders + [Order(user, side, asset, amount, Open, hold)];
      return true;
    }

    method CancelOrder(user: string, o: nat) returns (ok: bool)
      modifies ledger.db
      ensures Transaction(old(ledger.db.Rows()), Banking.CancelOrder(old(ledger.db.Rows()), user, o), ok, ledger.db.Rows())
      ensures old(Inv(ledger.db.Rows())) ==> Inv(ledger.db.Rows())
    {
      KeepsInv(cfg, ledger.db.Rows(), DoCancelOrder(user, o));
      var db := ledger.db;
      if o >= |db.orders| || db.orders[o].maker != user || db.orders[o].status != Open {
        return false;
      }
      var order := db.orders[o];
      if order.hold.Some? {
        ledger.SetHoldStatus(order.hold.value, Released);
      }
      order := order.(status := OrderCancelled);
      db.orders := db.orders[o := order];
      return true;
    }

    method TakeOrder(taker: string, o: nat, now: int) returns (ok: bool)
      modifies ledger.db
      ensures Transaction(old(ledger.db.Rows()), Banking.TakeOrder(old(ledger.db.Rows()), taker, o, now), ok, ledger.db.Rows())
      ensures old(Inv(ledger.db.Rows())) ==> Inv(ledger.db.Rows())
    {
      KeepsInv(cfg, ledger.db.Rows(), DoTakeOrder(taker, o, now));
      var db := ledger.db;
      if o >= |db.orders| || db.orders[o].status != Open || db.orders[o].maker == taker {
        return false;
      }
      var order := db.orders[o];
      var buyer := if order.side == Sell then taker else order.maker;
      var seller := if order.side == Sell then order.maker else taker;
      var hold := order.hold;
      if order.side == Buy {
        var available := ledger.AvailableOf(UserAccount(seller, order.asset));
        if available < order.amount {
          return false;
        }
        var id := ledger.CreateHold(UserAccount(seller, order.asset), order.amount);
        hold := Some(id);
      }
      db.orders := db.orders[o := order.(status := Taken)];
      db.trades := db.trades +
        [Trade(o, buyer, seller, order.asset, order.amount, Pending, hold, 0, 0, Some(now + PAYMENT_WINDOW), None)];
      return true;
    }

    /** Commit the escrow, then post; if the journal is refused the whole transaction is rolled back. */
    method Release(t: nat, rates: Rates) returns (ok: bool)
      requires t < |ledger.db.trades|
      modifies ledger.db
      ensures Transaction(old(ledger.db.Rows()), Banking.Release(old(ledger.db.Rows()), t, rates), ok, ledger.db.Rows())
    {
      var db := ledger.db;
      var saved, trade := db.Rows(), db.trades[t];
      var quote := QuoteP2p(trade.amount, rates);
      if trade.hold.Some? {
        ledger.SetHoldStatus(trade.hold.value, Committed);
      }
      var entries := [Leg(UserAccount(trade.seller, trade.asset), Debit, trade.amount),
                      Leg(UserAccount(trade.buyer, trade.asset), Credit, quote.net)];
      if quote.platformFee > 0 {
        entries := entries + [Leg(FeeAccount(trade.asset), Credit, quote.platformFee)];
      }
      assert entries == ReleaseLegs(trade.(status := Completed, fee := quote.platformFee));
      ok := ledger.PostJournal(TradeJournal(t), entries);
      if !ok {
        db.RollBack(saved);
        return;
      }
      trade := trade.(fee := quote.platformFee);
      trade := trade.(status := Completed);
      db.trades := db.trades[t := trade];
    }

    method Refund(t: nat, status: TradeStatus)
      requires t < |ledger.db.trades|
      modifies ledger.db
      ensures ledger.db.Rows() == Banking.Refund(old(ledger.db.Rows()), t, status)
    {
      var db := ledger.db;
      var trade := db.trades[t];
      if trade.hold.Some? {
        ledger.SetHoldStatus(trade.hold.value, Released);
      }
      db.trades := db.trades[t := trade.(status := status)];
    }

    method ConfirmTrade(user: string, t: nat, rates: Rates) returns (ok: bool)
      modifies ledger.db
      ensures Transaction(old(ledger.db.Rows()), Banking.ConfirmTrade(old(ledger.db.Rows()), user, t, rates), ok, ledger.db.Rows())
      ensures old(Inv(ledger.db.Rows())) && SaneRates(rates) ==> Inv(ledger.db.Rows())
    {
      KeepsInv(cfg, ledger.db.Rows(), DoConfirmTrade(user, t, rates));
      var db := ledger.db;
      if t >= |db.trades| || db.trades[t].seller != user || !Waiting(db.trades[t]) {
        return false;
      }
      ok := Release(t, rates);
      assert db.Rows() == AttemptMarket(cfg, old(db.Rows()), DoConfirmTrade(user, t, rates)).GetOr(old(db.Rows()));
    }

    method CancelTrade(user: string, t: nat) returns (ok: bool)
      modifies ledger.db
      ensures Transaction(old(ledger.db.Rows()), Banking.CancelTrade(old(ledger.db.Rows()), user, t), ok, ledger.db.Rows())
      ensures old(Inv(ledger.db.Rows())) ==> Inv(ledger.db.Rows())
    {
      KeepsInv(cfg, ledger.db.Rows(), DoCancelTrade(user, t));
      var db := ledger.db;
      if t >= |db.trades| || !Party(db.trades[t], user) || db.trades[t].status != Pending {
        return false;
      }
      Refund(t, Cancelled);
      return true;
    }

    method MarkPaid(user: string, t: nat, now: int) returns (ok: bool)
      modifies ledger.db
      ensures Transaction(old(ledger.db.Rows()), Banking.MarkPaid(old(ledger.db.Rows()), user, t, now), ok, ledger.db.Rows())
      ensures old(Inv(ledger.db.Rows())) ==> Inv(ledger.db.Rows())
    {
      KeepsInv(cfg, ledger.db.Rows(), DoMarkPaid(user, t, now));
      var db := ledger.db;
      if t >= |db.trades| || db.trades[t].buyer != user || db.trades[t].status != Pending {
        return false;
      }
      var trade := db.trades[t].(status := Paid);
      trade := trade.(releaseDeadline := Some(now + RELEASE_WINDOW));
      db.trades := db.trades[t := trade];
      return true;
    }

    method ExtendTrade(user: string, t: nat, now: int) returns (ok: bool)
      modifies ledger.db
      ensures Transaction(old(ledger.db.Rows()), Banking.ExtendTrade(old(ledger.db.Rows()), user, t, now), ok, ledger.db.Rows())
      ensures old(Inv(ledger.db.Rows())) ==> Inv(ledger.db.Rows())
    {
      KeepsInv(cfg, ledger.db.Rows(), DoExtendTrade(user, t, now));
      var db := ledger.db;
      if t >= |db.trades| || !Party(db.trades[t], user) || !Waiting(db.trades[t]) {
        return false;
      }
      var trade := db.trades[t];
      if trade.extensions >= MAX_EXTENSIONS {
        return false;
      }
      if trade.status == Pending {
        var base := if trade.paymentDeadline.Some? then trade.paymentDeadline.value else now;
        trade := trade.(paymentDeadline := Some((if base > now then base else now) + EXTENSION));
      } else {
        var base := if trade.releaseDeadline.Some? then trade.releaseDeadline.value else now;
        trade := trade.(releaseDeadline := Some((if base > now then base else now) + EXTENSION));
      }
      trade := trade.(extensions := trade.extensions + 1);
      db.trades := db.trades[t := trade];
      return true;
    }

    method OpenDispute(user: string, t: nat) returns (ok: bool)
      modifies ledger.db
      ensures Transaction(old(ledger.db.Rows()), Banking.OpenDispute(old(ledger.db.Rows()), user, t), ok, ledger.db.Rows())
      ensures old(Inv(ledger.db.Rows())) ==> Inv(ledger.db.Rows())
    {
      KeepsInv(cfg, ledger.db.Rows(), DoOpenDispute(user, t));
      var db := ledger.db;
      if t >= |db.trades| || !Party(db.trades[t], user) || !Waiting(db.trades[t]) {
        return false;
      }
      db.trades := db.trades[t := db.trades[t].(status := Disputed)];
      assert db.Rows() == AttemptMarket(cfg, old(db.Rows()), DoOpenDispute(user, t)).GetOr(old(db.Rows()));
      return true;
    }

    method ResolveDispute(t: nat, toBuyer: bool, rates: Rates) returns (ok: bool)
      modifies ledger.db
      ensures Transaction(old(ledger.db.Rows()), Banking.ResolveDispute(old(ledger.db.Rows()), t, toBuyer, rates), ok, ledger.db.Rows())
      ensures old(Inv(ledger.db.Rows())) && SaneRates(rates) ==> Inv(ledger.db.Rows())
    {
      KeepsInv(cfg, ledger.db.Rows(), DoResolveDispute(t, toBuyer, rates));
      var db := ledger.db;
      if t >= |db.trades| || db.trades[t].status != Disputed {
        return false;
      }
      if toBuyer {
        ok := Release(t, rates);
      } else {
        Refund(t, Cancelled);
        ok := true;
      }
    }

    method SweepUnpaid(now: int, chats: set<nat>)
      modifies ledger.db
      ensures var b := old(ledger.db.Rows());
              ledger.db.Rows() == SweepPayments(b, b, Overdue(b, Pending, now, 0, SWEEP_BATCH), chats)
    {
      var db := ledger.db;
      var read := db.Rows();
      var expired := Overdue(read, Pending, now, 0, SWEEP_BATCH);
      for i := 0 to |expired|
        invariant db.Rows() == SweepPayments(read, read, expired[..i], chats)
      {
        assert expired[..i + 1][..i] == expired[..i];
        var t := expired[i];
        if t < |db.trades| && db.trades[t].status == Pending {
          if read.trades[t].extensions > 0 || t in chats {
            db.trades := db.trades[t := db.trades[t].(status := Disputed)];
          } else {
            Refund(t, Expired);
          }
        }
      }
      assert expired[..|expired|] == expired;
    }

    method SweepUnreleased(now: int)
      modifies ledger.db
      ensures var b := old(ledger.db.Rows());
              ledger.db.Rows() == SweepReleases(b, Overdue(b, Paid, now, 0, SWEEP_BATCH))
    {
      var db := ledger.db;
      var read := db.Rows();
      var overdue := Overdue(read, Paid, now, 0, SWEEP_BATCH);
      for i := 0 to |overdue|
        invariant db.Rows() == SweepReleases(read, overdue[..i])
      {
        assert overdue[..i + 1][..i] == overdue[..i];
        var t := overdue[i];
        if t < |db.trades| && db.trades[t].status == Paid {
          db.trades := db.trades[t := db.trades[t].(status := Disputed)];
        }
      }
      assert overdue[..|overdue|] == overdue;
    }

    /** The timeout worker; a call while another is running does nothing. */
    method SweepTimeouts(now: int, chats: set<nat>)
      modifies this`sweeping, ledger.db
      ensures sweeping == old(sweeping)
      ensures ledger.db.Rows() == if old(sweeping) then old(ledger.db.Rows()) else Sweep(old(ledger.db.Rows()), now, chats)
      ensures old(Inv(ledger.db.Rows())) ==> Inv(ledger.db.Rows())
    {
      ghost var b := ledger.db.Rows();
      if Inv(b) {
        SweepKeepsInv(b, now, chats);
      }
      if sweeping {
        return;
      }
      sweeping := true;
      SweepUnpaid(now, chats);
      SweepUnreleased(now);
      sweeping := false;
    }
  }
}
