/** What the books of the bank say after any run: where the money is, what is held for whom, and how trades end. */
module CustodyBooks {
  import opened Wrappers
  import opened Fees
  import opened Ledger
  import opened Banking
  import opened Custody
  import opened CustodySteps
  import opened CustodyRuns

  function SumBy<T>(f: T -> int, s: seq<T>): int {
    if |s| == 0 then 0 else SumBy(f, s[..|s| - 1]) + f(s[|s| - 1])
  }

  lemma {:induction false} SumByAppend<T>(f: T -> int, s: seq<T>, x: T)
    ensures SumBy(f, s + [x]) == SumBy(f, s) + f(x)
  {
    assert (s + [x])[..|s|] == s;
  }

  lemma {:induction false} SumByUpdate<T>(f: T -> int, s: seq<T>, i: nat, x: T)
    requires i < |s|
    ensures SumBy(f, s[i := x]) == SumBy(f, s) - f(s[i]) + f(x)
  {
    var after := s[i := x];
    if i == |s| - 1 {
      assert after[..i] == s[..i];
    } else {
      SumByUpdate(f, s[..|s| - 1], i, x);
      assert after[..|s| - 1] == s[..|s| - 1][i := x];
    }
  }

  // ---- Conservation ----

  function DepositedIn(asset: string): Payment -> int {
    (p: Payment) => if p.asset == asset && p.kind.Deposit? then p.kind.gross else 0
  }

  function RechargedIn(asset: string): Payment -> int {
    (p: Payment) => if p.asset == asset && p.kind.Recharge? then p.amount else 0
  }

  function WithdrawnIn(asset: string): Payment -> int {
    (p: Payment) => if p.asset == asset && p.kind.Withdrawal? && p.status == PaymentCompleted then p.amount else 0
  }

  function FaucetIn(asset: string): Payment -> int {
    (p: Payment) => if p.asset == asset && p.kind.Faucet? then p.amount else 0
  }

  function PaymentFeeIn(asset: string): Payment -> int {
    (p: Payment) =>
      if p.asset != asset then 0
      else match p.kind
        case Deposit(_, fee) => fee
        case Recharge(_, fee) => fee
        case Withdrawal(_, totalFee, _, _) => if p.status == PaymentCompleted then totalFee else 0
        case _ => 0
  }

  function TradeFeeIn(asset: string): Trade -> int {
    (t: Trade) => if t.asset == asset && t.status == Completed then t.fee else 0
  }

  lemma PaymentOnSystemAccounts(p: Payment, asset: string)
    requires GoodPayment(p)
    ensures LegsEffect(PaymentLegs(p), CustodyAccount(asset)) == WithdrawnIn(asset)(p) - DepositedIn(asset)(p) - RechargedIn(asset)(p)
    ensures LegsEffect(PaymentLegs(p), FeeAccount(asset)) == PaymentFeeIn(asset)(p)
    ensures LegsEffect(PaymentLegs(p), IssuerAccount(asset)) == -FaucetIn(asset)(p)
  {
    PaymentLegsEffect(p, CustodyAccount(asset));
    PaymentLegsEffect(p, FeeAccount(asset));
    PaymentLegsEffect(p, IssuerAccount(asset));
  }

  /** The effect of a payment's journal on an account, leg by leg. */
  function PaymentEffect(p: Payment, a: Account): int {
    match p.kind
    case Faucet => LegEffect(Leg(IssuerAccount(p.asset), Debit, p.amount), a) + LegEffect(Leg(UserAccount(p.user, p.asset), Credit, p.amount), a)
    case Transfer(to) => LegEffect(Leg(UserAccount(p.user, p.asset), Debit, p.amount), a) + LegEffect(Leg(UserAccount(to, p.asset), Credit, p.amount), a)
    case Receive(_) => 0
    case Withdrawal(_, totalFee, totalDebit, _) =>
      if p.status != PaymentCompleted then 0
      else LegEffect(Leg(UserAccount(p.user, p.asset), Debit, totalDebit), a) + LegEffect(Leg(CustodyAccount(p.asset), Credit, p.amount), a)
           + (if totalFee > 0 && a == FeeAccount(p.asset) then totalFee else 0)
    case Deposit(gross, fee) => EntryEffect(p.user, p.asset, gross, fee, a)
    case Recharge(_, fee) => EntryEffect(p.user, p.asset, p.amount, fee, a)
  }

  lemma {:induction false} PaymentLegsEffect(p: Payment, a: Account)
    ensures LegsEffect(PaymentLegs(p), a) == PaymentEffect(p, a)
  {
    match p.kind
    case Faucet => PairEffect(Leg(IssuerAccount(p.asset), Debit, p.amount), Leg(UserAccount(p.user, p.asset), Credit, p.amount), a);
    case Transfer(to) => PairEffect(Leg(UserAccount(p.user, p.asset), Debit, p.amount), Leg(UserAccount(to, p.asset), Credit, p.amount), a);
    case Receive(_) =>
    case Withdrawal(_, totalFee, totalDebit, _) =>
      FeeLegsEffect(Leg(UserAccount(p.user, p.asset), Debit, totalDebit), Leg(CustodyAccount(p.asset), Credit, p.amount), p.asset, totalFee, a);
    case Deposit(gross, fee) => EntryLegsEffect(p.user, p.asset, gross, fee, a);
    case Recharge(_, fee) => EntryLegsEffect(p.user, p.asset, p.amount, fee, a);
  }

  function EntryEffect(user: string, asset: string, gross: int, fee: int, a: Account): int {
    LegEffect(Leg(CustodyAccount(asset), Debit, gross), a) + LegEffect(Leg(UserAccount(user, asset), Credit, gross - fee), a)
    + if fee > 0 && a == FeeAccount(asset) then fee else 0
  }

  lemma {:induction false} EntryLegsEffect(user: string, asset: string, gross: int, fee: int, a: Account)
    ensures LegsEffect(EntryLegs(user, asset, gross, fee), a) == EntryEffect(user, asset, gross, fee, a)
  {
    FeeLegsEffect(Leg(CustodyAccount(asset), Debit, gross), Leg(UserAccount(user, asset), Credit, gross - fee), asset, fee, a);
  }

  lemma {:induction false} PaymentsOnSystemAccounts(payments: seq<Payment>, asset: string)
    requires forall i :: 0 <= i < |payments| ==> GoodPayment(payments[i])
    ensures PaymentsBooked(payments, CustodyAccount(asset))
            == SumBy(WithdrawnIn(asset), payments) - SumBy(DepositedIn(asset), payments) - SumBy(RechargedIn(asset), payments)
    ensures PaymentsBooked(payments, FeeAccount(asset)) == SumBy(PaymentFeeIn(asset), payments)
    ensures PaymentsBooked(payments, IssuerAccount(asset)) == -SumBy(FaucetIn(asset), payments)
  {
    if |payments| > 0 {
      PaymentsOnSystemAccounts(payments[..|payments| - 1], asset);
      PaymentOnSystemAccounts(payments[|payments| - 1], asset);
    }
  }

  lemma {:induction false} TradesOnSystemAccounts(trades: seq<Trade>, asset: string)
    requires forall i :: 0 <= i < |trades| ==> GoodTrade(trades[i])
    ensures TradesBooked(trades, CustodyAccount(asset)) == 0
    ensures TradesBooked(trades, IssuerAccount(asset)) == 0
    ensures TradesBooked(trades, FeeAccount(asset)) == SumBy(TradeFeeIn(asset), trades)
  {
    if |trades| > 0 {
      var t := trades[|trades| - 1];
      TradesOnSystemAccounts(trades[..|trades| - 1], asset);
      if t.status == Completed {
        var x, y := Leg(UserAccount(t.seller, t.asset), Debit, t.amount), Leg(UserAccount(t.buyer, t.asset), Credit, t.amount - t.fee);
        FeeLegsEffect(x, y, t.asset, t.fee, CustodyAccount(asset));
        FeeLegsEffect(x, y, t.asset, t.fee, IssuerAccount(asset));
        FeeLegsEffect(x, y, t.asset, t.fee, FeeAccount(asset));
      }
    }
  }

  /**
   * Conservation. After any run: all balances of an asset cancel out, custody owes exactly the
   * gross deposits and recharges less the withdrawals sent, the treasury holds exactly the fees
   * charged, and the issuer owes exactly the test credits.
   */
  lemma {:induction false} MoneyIsConserved(cfg: BankConfig, acts: seq<Action>, asset: string)
    requires SaneRun(acts)
    ensures var b := Run(cfg, EMPTY, acts);
            && Total(b.entries, asset) == 0
            && -Balance(b.entries, CustodyAccount(asset))
               == SumBy(DepositedIn(asset), b.payments) + SumBy(RechargedIn(asset), b.payments) - SumBy(WithdrawnIn(asset), b.payments)
            && Balance(b.entries, FeeAccount(asset)) == SumBy(PaymentFeeIn(asset), b.payments) + SumBy(TradeFeeIn(asset), b.trades)
            && -Balance(b.entries, IssuerAccount(asset)) == SumBy(FaucetIn(asset), b.payments)
  {
    EmptyInv();
    RunKeepsInv(cfg, EMPTY, acts);
    var b := Run(cfg, EMPTY, acts);
    PaymentsOnSystemAccounts(b.payments, asset);
    TradesOnSystemAccounts(b.trades, asset);
    assert Balance(b.entries, CustodyAccount(asset)) == Booked(b, CustodyAccount(asset));
    assert Balance(b.entries, FeeAccount(asset)) == Booked(b, FeeAccount(asset));
    assert Balance(b.entries, IssuerAccount(asset)) == Booked(b, IssuerAccount(asset));
  }

  // ---- Holds are the sum of what is owed ----

  function OrderDue(a: Account): Order -> int {
    (o: Order) => if o.status == Open && o.side == Sell && UserAccount(o.maker, o.asset) == a then o.amount else 0
  }

  function TradeDue(a: Account): Trade -> int {
    (t: Trade) => if Live(t.status) && UserAccount(t.seller, t.asset) == a then t.amount else 0
  }

  function WithdrawalDue(a: Account): Payment -> int {
    (p: Payment) => if p.kind.Withdrawal? && p.status == Processing && UserAccount(p.user, p.asset) == a then p.kind.totalDebit else 0
  }

  /** What an account must keep back: its open sell orders, its live trades as seller, its withdrawals under way. */
  function Obliged(b: Bank, a: Account): int {
    SumBy(OrderDue(a), b.orders) + SumBy(TradeDue(a), b.trades) + SumBy(WithdrawalDue(a), b.payments)
  }

  lemma TradeRowObliged(b: Bank, after: Bank, t: nat, a: Account)
    requires t < |b.trades| == |after.trades| && after.trades == b.trades[t := after.trades[t]]
    requires after.orders == b.orders && after.payments == b.payments
    ensures Obliged(after, a) == Obliged(b, a) - TradeDue(a)(b.trades[t]) + TradeDue(a)(after.trades[t])
  {
    SumByUpdate(TradeDue(a), b.trades, t, after.trades[t]);
  }

  lemma PaymentRowObliged(b: Bank, after: Bank, p: nat, a: Account)
    requires p < |b.payments| == |after.payments| && after.payments == b.payments[p := after.payments[p]]
    requires after.orders == b.orders && after.trades == b.trades
    ensures Obliged(after, a) == Obliged(b, a) - WithdrawalDue(a)(b.payments[p]) + WithdrawalDue(a)(after.payments[p])
  {
    SumByUpdate(WithdrawalDue(a), b.payments, p, after.payments[p]);
  }

  /** Settling the hold of a live trade lowers both sides by the trade's amount. */
  lemma {:induction false} SettledTradeObliged(b: Bank, after: Bank, t: nat, status: HoldStatus, a: Account)
    requires HoldsOwned(b) && t < |b.trades| == |after.trades| && Live(b.trades[t].status) && !Live(after.trades[t].status)
    requires b.trades[t].hold.Some? && after.trades == b.trades[t := after.trades[t]]
    requires after.orders == b.orders && after.payments == b.payments
    requires status != Active && after.holds == SetHold(b, b.trades[t].hold.value, status).holds
    requires Held(b.holds, a) == Obliged(b, a)
    ensures Held(after.holds, a) == Obliged(after, a)
  {
    var h := b.trades[t].hold.value;
    assert Claims(b, ByTrade(t), h);
    HeldUpdate(b.holds, h, b.holds[h].(status := status), a);
    TradeRowObliged(b, after, t, a);
  }

  lemma {:induction false} SettledWithdrawalObliged(b: Bank, after: Bank, p: nat, status: HoldStatus, a: Account)
    requires HoldsOwned(b) && IsWithdrawal(b, p) && |after.payments| == |b.payments| && b.payments[p].status == Processing
    requires after.payments == b.payments[p := after.payments[p]] && after.payments[p].status != Processing
    requires after.orders == b.orders && after.trades == b.trades
    requires status != Active && after.holds == SetHold(b, b.payments[p].kind.hold, status).holds
    requires Held(b.holds, a) == Obliged(b, a)
    ensures Held(after.holds, a) == Obliged(after, a)
  {
    var h := b.payments[p].kind.hold;
    assert Claims(b, ByWithdrawal(p), h);
    HeldUpdate(b.holds, h, b.holds[h].(status := status), a);
    PaymentRowObliged(b, after, p, a);
  }

  lemma {:induction false} CreatedOrderObliged(b: Bank, order: Order, a: Account)
    requires order.status == Open && Held(b.holds, a) == Obliged(b, a)
    ensures var after := WithOrder(b, order); Held(after.holds, a) == Obliged(after, a)
  {
    SumByAppend(OrderDue(a), b.orders, order);
    HeldAppend(b.holds, Hold(UserAccount(order.maker, order.asset), order.amount, Active), a);
  }

  lemma {:induction false} CancelledOrderObliged(b: Bank, user: string, o: nat, a: Account)
    requires HoldsOwned(b) && CancelOrder(b, user, o).Some? && GoodOrder(b.orders[o]) && Held(b.holds, a) == Obliged(b, a)
    ensures var after := CancelOrder(b, user, o).value; Held(after.holds, a) == Obliged(after, a)
  {
    var order := b.orders[o];
    SumByUpdate(OrderDue(a), b.orders, o, order.(status := OrderCancelled));
    if order.hold.Some? {
      var h := order.hold.value;
      assert Claims(b, ByOrder(o), h);
      HeldUpdate(b.holds, h, b.holds[h].(status := Released), a);
    }
  }

  /** A taken order hands its due over to the trade. */
  lemma OrderToTradeObliged(b: Bank, o: nat, trade: Trade, a: Account)
    requires o < |b.orders|
    ensures var after := b.(orders := b.orders[o := b.orders[o].(status := Taken)], trades := b.trades + [trade]);
            Obliged(after, a) == Obliged(b, a) - OrderDue(a)(b.orders[o]) + TradeDue(a)(trade)
  {
    SumByUpdate(OrderDue(a), b.orders, o, b.orders[o].(status := Taken));
    SumByAppend(TradeDue(a), b.trades, trade);
  }

  lemma {:induction false} TakenOrderObliged(b: Bank, taker: string, o: nat, now: int, a: Account)
    requires TakeOrder(b, taker, o, now).Some? && GoodOrder(b.orders[o]) && Held(b.holds, a) == Obliged(b, a)
    ensures var after := TakeOrder(b, taker, o, now).value; Held(after.holds, a) == Obliged(after, a)
  {
    var after, order := TakeOrder(b, taker, o, now).value, b.orders[o];
    var trade := after.trades[|b.trades|];
    OrderToTradeObliged(b, o, trade, a);
    if order.side == Buy {
      var hold := Hold(UserAccount(taker, order.asset), order.amount, Active);
      assert after.holds == b.holds + [hold] && TradeDue(a)(trade) == ActiveAmount(hold, a) && OrderDue(a)(order) == 0;
      HeldAppend(b.holds, hold, a);
    } else {
      assert after.holds == b.holds && TradeDue(a)(trade) == OrderDue(a)(order);
    }
  }

  lemma {:induction false} RefundedObliged(b: Bank, t: nat, status: TradeStatus, a: Account)
    requires Inv(b) && t < |b.trades| && Live(b.trades[t].status) && status in {Cancelled, Expired} && Held(b.holds, a) == Obliged(b, a)
    ensures var after := Refund(b, t, status); Held(after.holds, a) == Obliged(after, a)
  {
    assert GoodTrade(b.trades[t]);
    SettledTradeObliged(b, Refund(b, t, status), t, Released, a);
  }

  lemma {:induction false} ReleasedObliged(b: Bank, t: nat, rates: Rates, a: Account)
    requires Inv(b) && t < |b.trades| && Live(b.trades[t].status) && Release(b, t, rates).Some? && Held(b.holds, a) == Obliged(b, a)
    ensures var after := Release(b, t, rates).value; Held(after.holds, a) == Obliged(after, a)
  {
    assert GoodTrade(b.trades[t]);
    SettledTradeObliged(b, Release(b, t, rates).value, t, Committed, a);
  }

  lemma {:induction false} LiveTradeObliged(b: Bank, t: nat, trade: Trade, a: Account)
    requires t < |b.trades| && Live(b.trades[t].status) && Live(trade.status) && SameTerms(b.trades[t], trade)
    requires Held(b.holds, a) == Obliged(b, a)
    ensures var after := UpdateTrade(b, t, trade); Held(after.holds, a) == Obliged(after, a)
  {
    TradeRowObliged(b, UpdateTrade(b, t, trade), t, a);
  }

  lemma {:induction false} OrdersKeepObliged(cfg: BankConfig, b: Bank, act: MarketAction, a: Account)
    requires act.DoCreateOrder? || act.DoCancelOrder? || act.DoTakeOrder?
    requires Inv(b) && AttemptMarket(cfg, b, act).Some? && Held(b.holds, a) == Obliged(b, a)
    ensures var after := AttemptMarket(cfg, b, act).value; Held(after.holds, a) == Obliged(after, a)
  {
    match act
    case DoCreateOrder(u, s, x, n, p, band) => CreatedOrderObliged(b, Order(u, s, x, n, Open, if s == Sell then Some(|b.holds|) else None), a);
    case DoCancelOrder(u, o) =>
      assert GoodOrder(b.orders[o]);
      CancelledOrderObliged(b, u, o, a);
    case DoTakeOrder(u, o, now) =>
      assert GoodOrder(b.orders[o]);
      TakenOrderObliged(b, u, o, now, a);
  }

  lemma {:induction false} SweepsKeepObliged(cfg: BankConfig, b: Bank, act: MarketAction, a: Account)
    requires act.DoSweepPayment? || act.DoSweepRelease?
    requires Inv(b) && AttemptMarket(cfg, b, act).Some? && Held(b.holds, a) == Obliged(b, a)
    ensures var after := AttemptMarket(cfg, b, act).value; Held(after.holds, a) == Obliged(after, a)
  {
    match act
    case DoSweepPayment(t, engaged) =>
      if engaged {
        LiveTradeObliged(b, t, b.trades[t].(status := Disputed), a);
      } else {
        RefundedObliged(b, t, Expired, a);
      }
    case DoSweepRelease(t) => LiveTradeObliged(b, t, b.trades[t].(status := Disputed), a);
  }

  lemma {:induction false} MarketKeepsObliged(cfg: BankConfig, b: Bank, act: MarketAction, a: Account)
    requires Inv(b) && AttemptMarket(cfg, b, act).Some? && Held(b.holds, a) == Obliged(b, a)
    ensures var after := AttemptMarket(cfg, b, act).value; Held(after.holds, a) == Obliged(after, a)
  {
    match act
    case DoConfirmTrade(u, t, r) => ReleasedObliged(b, t, r, a);
    case DoCancelTrade(u, t) => RefundedObliged(b, t, Cancelled, a);
    case DoMarkPaid(u, t, now) => LiveTradeObliged(b, t, MarkPaid(b, u, t, now).value.trades[t], a);
    case DoExtendTrade(u, t, now) => LiveTradeObliged(b, t, ExtendTrade(b, u, t, now).value.trades[t], a);
    case DoOpenDispute(u, t) => LiveTradeObliged(b, t, b.trades[t].(status := Disputed), a);
    case DoResolveDispute(t, toBuyer, r) =>
      if toBuyer {
        ReleasedObliged(b, t, r, a);
      } else {
        RefundedObliged(b, t, Cancelled, a);
      }
    case DoSweepPayment(_, _) => SweepsKeepObliged(cfg, b, act, a);
    case DoSweepRelease(_) => SweepsKeepObliged(cfg, b, act, a);
    case _ => OrdersKeepObliged(cfg, b, act, a);
  }

  /** Rows that hold nothing back. */
  lemma PlainRowObliged(b: Bank, p: Payment, a: Account)
    requires !p.kind.Withdrawal?
    ensures Obliged(b.(payments := b.payments + [p]), a) == Obliged(b, a)
  {
    SumByAppend(WithdrawalDue(a), b.payments, p);
  }

  lemma OneRowObliged(b: Bank, after: Bank, a: Account)
    requires |after.payments| == |b.payments| + 1 && after.payments == b.payments + [after.payments[|b.payments|]]
    requires !after.payments[|b.payments|].kind.Withdrawal? && after.orders == b.orders && after.trades == b.trades
    ensures Obliged(after, a) == Obliged(b, a)
  {
    PlainRowObliged(b, after.payments[|b.payments|], a);
  }

  lemma TransferObliged(cfg: BankConfig, b: Bank, user: string, recipient: string, asset: string, amount: int, key: string, a: Account)
    requires SendTransfer(cfg, b, user, recipient, asset, amount, key).Some?
    ensures var after := SendTransfer(cfg, b, user, recipient, asset, amount, key).value;
            Obliged(after, a) == Obliged(b, a) && after.holds == b.holds
  {
    var n, after := |b.payments|, SendTransfer(cfg, b, user, recipient, asset, amount, key).value;
    PlainRowObliged(b, after.payments[n], a);
    PlainRowObliged(b.(payments := b.payments + [after.payments[n]]), after.payments[n + 1], a);
  }

  lemma {:induction false} RequestedObliged(b: Bank, user: string, asset: string, amount: int, key: string, rates: Rates, a: Account)
    requires RequestWithdrawal(b, user, asset, amount, key, rates).Some? && Held(b.holds, a) == Obliged(b, a)
    ensures var after := RequestWithdrawal(b, user, asset, amount, key, rates).value; Held(after.holds, a) == Obliged(after, a)
  {
    var quote := QuoteWithdraw(amount, rates);
    var row := Payment(user, key, Withdrawal(PendingBroadcast, quote.totalFee, quote.total, |b.holds|), asset, amount, Processing);
    var hold := Hold(UserAccount(user, asset), quote.total, Active);
    assert RequestWithdrawal(b, user, asset, amount, key, rates).value == b.(payments := b.payments + [row], holds := b.holds + [hold]);
    SumByAppend(WithdrawalDue(a), b.payments, row);
    HeldAppend(b.holds, hold, a);
    assert WithdrawalDue(a)(row) == ActiveAmount(hold, a);
  }

  lemma {:induction false} StagedObliged(b: Bank, p: nat, stage: Stage, a: Account)
    requires IsWithdrawal(b, p) && Held(b.holds, a) == Obliged(b, a)
    ensures var after := SetStage(b, p, stage); Held(after.holds, a) == Obliged(after, a)
  {
    PaymentRowObliged(b, SetStage(b, p, stage), p, a);
  }

  lemma {:induction false} CompletedObliged(b: Bank, p: nat, a: Account)
    requires HoldsOwned(b) && IsWithdrawal(b, p) && b.payments[p].status == Processing && CompleteWithdrawal(b, p).Some?
    requires Held(b.holds, a) == Obliged(b, a)
    ensures var after := CompleteWithdrawal(b, p).value; Held(after.holds, a) == Obliged(after, a)
  {
    SettledWithdrawalObliged(b, CompleteWithdrawal(b, p).value, p, Committed, a);
  }

  lemma {:induction false} FailedObliged(b: Bank, p: nat, a: Account)
    requires HoldsOwned(b) && IsWithdrawal(b, p) && b.payments[p].status == Processing
    requires Held(b.holds, a) == Obliged(b, a)
    ensures var after := FailWithdrawal(b, p); Held(after.holds, a) == Obliged(after, a)
  {
    SettledWithdrawalObliged(b, FailWithdrawal(b, p), p, Released, a);
  }

  lemma {:induction false} FaucetObliged(cfg: BankConfig, b: Bank, user: string, asset: string, amount: int, key: string, a: Account)
    requires CreditFaucet(cfg, b, user, asset, amount, key).Some? && Held(b.holds, a) == Obliged(b, a)
    ensures var after := CreditFaucet(cfg, b, user, asset, amount, key).value; Held(after.holds, a) == Obliged(after, a)
  {
    PlainRowObliged(b, Payment(user, key, Faucet, asset, amount, PaymentCompleted), a);
  }

  lemma {:induction false} DepositObliged(b: Bank, t: OnChainTransfer, rates: Rates, a: Account)
    requires CreditDeposit(b, t, rates).Credited? && Held(b.holds, a) == Obliged(b, a)
    ensures var after := CreditDeposit(b, t, rates).bank; Held(after.holds, a) == Obliged(after, a)
  {
    OneRowObliged(b, CreditDeposit(b, t, rates).bank, a);
  }

  lemma {:induction false} PaymentKeepsObliged(cfg: BankConfig, b: Bank, act: PaymentAction, a: Account)
    requires Inv(b) && AttemptPayment(cfg, b, act).Some? && Held(b.holds, a) == Obliged(b, a)
    ensures var after := AttemptPayment(cfg, b, act).value; Held(after.holds, a) == Obliged(after, a)
  {
    match act
    case DoFaucet(u, x, m, k) => FaucetObliged(cfg, b, u, x, m, k, a);
    case DoTransfer(u, r, x, m, k) => TransferObliged(cfg, b, u, r, x, m, k, a);
    case DoRequestWithdrawal(u, x, m, k, r) => RequestedObliged(b, u, x, m, k, r, a);
    case DoBroadcasting(p) => StagedObliged(b, p, Broadcasting, a);
    case DoSent(p, h) => StagedObliged(b, p, Broadcast(h), a);
    case DoComplete(p) => CompletedObliged(b, p, a);
    case DoFail(p) => FailedObliged(b, p, a);
    case DoDeposit(t, r) => DepositObliged(b, t, r, a);
  }

  lemma {:induction false} RequestKeepsObliged(cfg: BankConfig, b: Bank, act: RequestAction, a: Account)
    requires AttemptRequest(cfg, b, act).Some? && Held(b.holds, a) == Obliged(b, a)
    ensures var after := AttemptRequest(cfg, b, act).value; Held(after.holds, a) == Obliged(after, a)
  {
    if act.DoConfirmRequest? {
      OneRowObliged(b, AttemptRequest(cfg, b, act).value, a);
    }
  }

  lemma {:induction false} ActionKeepsObliged(cfg: BankConfig, b: Bank, act: Action, a: Account)
    requires Inv(b) && Held(b.holds, a) == Obliged(b, a)
    ensures var after := Apply(cfg, b, act); Held(after.holds, a) == Obliged(after, a)
  {
    match act
    case Market(m) => if AttemptMarket(cfg, b, m).Some? { MarketKeepsObliged(cfg, b, m, a); }
    case Pay(p) => if AttemptPayment(cfg, b, p).Some? { PaymentKeepsObliged(cfg, b, p, a); }
    case Ask(r) => if AttemptRequest(cfg, b, r).Some? { RequestKeepsObliged(cfg, b, r, a); }
  }

  lemma {:induction false} RunKeepsObliged(cfg: BankConfig, b: Bank, acts: seq<Action>, a: Account)
    requires Inv(b) && SaneRun(acts) && Held(b.holds, a) == Obliged(b, a)
    ensures var after := Run(cfg, b, acts); Held(after.holds, a) == Obliged(after, a)
    decreases |acts|
  {
    if |acts| > 0 {
      ActionKeepsInv(cfg, b, acts[0]);
      ActionKeepsObliged(cfg, b, acts[0], a);
      RunKeepsObliged(cfg, Apply(cfg, b, acts[0]), acts[1..], a);
    }
  }

  /** Every user can always pay what is held back, and what is held back is exactly what is owed. */
  lemma {:induction false} UsersCoverTheirObligations(cfg: BankConfig, acts: seq<Action>, user: string, asset: string)
    requires SaneRun(acts)
    ensures var b, a := Run(cfg, EMPTY, acts), UserAccount(user, asset);
            Held(b.holds, a) == Obliged(b, a) <= Balance(b.entries, a)
  {
    EmptyInv();
    RunKeepsInv(cfg, EMPTY, acts);
    RunKeepsObliged(cfg, EMPTY, acts, UserAccount(user, asset));
  }

  // ---- Holds and journals are spent once ----

  /** In any reachable bank each hold has one owner, whose status is the hold's. */
  lemma EveryHoldHasOneOwner(cfg: BankConfig, acts: seq<Action>, h: nat) returns (w: Claimer)
    requires SaneRun(acts) && h < |Run(cfg, EMPTY, acts).holds|
    ensures var b := Run(cfg, EMPTY, acts);
            && Claims(b, w, h) && b.holds[h] == HoldOf(b, w)
            && forall v :: Claims(b, v, h) ==> v == w
  {
    EmptyInv();
    RunKeepsInv(cfg, EMPTY, acts);
    var b := Run(cfg, EMPTY, acts);
    assert Owned(b, h);
    w :| Claims(b, w, h);
  }

  /** The escrow of a trade: committed with one journal if completed, released with none if cancelled or expired, active until then. */
  lemma {:induction false} EscrowIsSpentOnce(cfg: BankConfig, acts: seq<Action>, t: nat)
    requires SaneRun(acts) && t < |Run(cfg, EMPTY, acts).trades|
    ensures var b := Run(cfg, EMPTY, acts);
            var trade, legs := b.trades[t], LegsOf(b.entries, TradeJournal(t));
            && trade.buyer != trade.seller && trade.hold.Some? && trade.hold.value < |b.holds|
            && var hold := b.holds[trade.hold.value];
               && hold.account == UserAccount(trade.seller, trade.asset) && hold.amount == trade.amount
               && (hold.status == Active <==> Live(trade.status))
               && (hold.status == Committed <==> trade.status == Completed)
               && legs == (if trade.status == Completed then ReleaseLegs(trade) else [])
  {
    EmptyInv();
    RunKeepsInv(cfg, EMPTY, acts);
    var b := Run(cfg, EMPTY, acts);
    assert GoodTrade(b.trades[t]);
    assert Claims(b, ByTrade(t), b.trades[t].hold.value);
    assert LegsOf(b.entries, TradeJournal(t)) == ExpectedLegs(b, TradeJournal(t));
  }

  // ---- Every trade ends ----

  /** How many more steps a trade can take. */
  function StepsLeft(t: Trade): int {
    match t.status
    case Pending => 3 + MAX_EXTENSIONS - t.extensions
    case Paid => 2 + MAX_EXTENSIONS - t.extensions
    case Disputed => 1
    case _ => 0
  }

  lemma MarketOnTrade(cfg: BankConfig, b: Bank, act: MarketAction, t: nat)
    requires t < |b.trades| && b.trades[t].extensions <= MAX_EXTENSIONS && AttemptMarket(cfg, b, act).Some?
    ensures var after := AttemptMarket(cfg, b, act).value;
            && t < |after.trades|
            && after.trades[t].extensions <= MAX_EXTENSIONS
            && (after.trades[t] != b.trades[t] ==> 0 <= StepsLeft(after.trades[t]) < StepsLeft(b.trades[t]))
  {
  }

  lemma OthersLeaveTrades(cfg: BankConfig, b: Bank, act: Action)
    requires !act.Market?
    ensures Apply(cfg, b, act).trades == b.trades
  {
  }

  lemma ActionOnTrade(cfg: BankConfig, b: Bank, act: Action, t: nat)
    requires t < |b.trades| && b.trades[t].extensions <= MAX_EXTENSIONS
    ensures var after := Apply(cfg, b, act);
            && t < |after.trades|
            && after.trades[t].extensions <= MAX_EXTENSIONS
            && (after.trades[t] != b.trades[t] ==> 0 <= StepsLeft(after.trades[t]) < StepsLeft(b.trades[t]))
  {
    if !act.Market? {
      OthersLeaveTrades(cfg, b, act);
    } else if Attempt(cfg, b, act).Some? {
      MarketOnTrade(cfg, b, act.m, t);
    }
  }

  /** How many actions of a run change trade t. */
  function TradeChanges(cfg: BankConfig, b: Bank, acts: seq<Action>, t: nat): nat
    requires t < |b.trades| && b.trades[t].extensions <= MAX_EXTENSIONS
    decreases |acts|
  {
    if |acts| == 0 then 0
    else
      var after := Apply(cfg, b, acts[0]);
      ActionOnTrade(cfg, b, acts[0], t);
      (if after.trades[t] != b.trades[t] then 1 else 0) + TradeChanges(cfg, after, acts[1..], t)
  }

  /** No run changes a trade more often than its steps left, at most five after it is created; a finished trade never changes. */
  lemma {:induction false} TradesAreFinite(cfg: BankConfig, b: Bank, acts: seq<Action>, t: nat)
    requires t < |b.trades| && 0 <= b.trades[t].extensions <= MAX_EXTENSIONS
    ensures TradeChanges(cfg, b, acts, t) <= StepsLeft(b.trades[t]) <= 5
    decreases |acts|
  {
    if |acts| > 0 {
      ActionOnTrade(cfg, b, acts[0], t);
      ExtensionsStayNonNegative(cfg, b, acts[0], t);
      TradesAreFinite(cfg, Apply(cfg, b, acts[0]), acts[1..], t);
    }
  }

  lemma ExtensionsStayNonNegative(cfg: BankConfig, b: Bank, act: Action, t: nat)
    requires t < |b.trades| && 0 <= b.trades[t].extensions
    ensures t < |Apply(cfg, b, act).trades| && 0 <= Apply(cfg, b, act).trades[t].extensions
  {
    match act
    case Market(m) => if AttemptMarket(cfg, b, m).Some? { MarketExtensions(cfg, b, m, t); }
    case Pay(p) =>
    case Ask(r) =>
  }

  lemma MarketExtensions(cfg: BankConfig, b: Bank, act: MarketAction, t: nat)
    requires t < |b.trades| && 0 <= b.trades[t].extensions && AttemptMarket(cfg, b, act).Some?
    ensures var after := AttemptMarket(cfg, b, act).value; t < |after.trades| && 0 <= after.trades[t].extensions
  {
  }
}
