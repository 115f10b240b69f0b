/** Whole runs of the custodial bank: the invariant, conservation of money, and the end of every trade. */
module CustodyRuns {
  import opened Wrappers
  import opened Fees
  import opened Ledger
  import opened Banking
  import opened Custody
  import opened CustodySteps
  import opened CustodyPayments

  // ---- One action ----

  lemma ConfirmTradeKeeps(b: Bank, user: string, t: nat, rates: Rates)
    requires Inv(b) && SaneRates(rates) && ConfirmTrade(b, user, t, rates).Some?
    ensures Inv(ConfirmTrade(b, user, t, rates).value)
  {
    TradeReleased(b, t, rates);
  }

  lemma MarkPaidKeeps(b: Bank, user: string, t: nat, now: int)
    requires Inv(b) && MarkPaid(b, user, t, now).Some?
    ensures Inv(MarkPaid(b, user, t, now).value)
  {
    assert GoodTrade(b.trades[t]);
    TradeStaysLive(b, t, MarkPaid(b, user, t, now).value.trades[t]);
  }

  lemma ExtendTradeKeeps(b: Bank, user: string, t: nat, now: int)
    requires Inv(b) && ExtendTrade(b, user, t, now).Some?
    ensures Inv(ExtendTrade(b, user, t, now).value)
  {
    assert GoodTrade(b.trades[t]);
    TradeStaysLive(b, t, ExtendTrade(b, user, t, now).value.trades[t]);
  }

  lemma DisputedKeeps(b: Bank, t: nat)
    requires Inv(b) && t < |b.trades| && Waiting(b.trades[t])
    ensures Inv(UpdateTrade(b, t, b.trades[t].(status := Disputed)))
  {
    assert GoodTrade(b.trades[t]);
    TradeStaysLive(b, t, b.trades[t].(status := Disputed));
  }

  lemma ResolveDisputeKeeps(b: Bank, t: nat, toBuyer: bool, rates: Rates)
    requires Inv(b) && SaneRates(rates) && ResolveDispute(b, t, toBuyer, rates).Some?
    ensures Inv(ResolveDispute(b, t, toBuyer, rates).value)
  {
    if toBuyer {
      TradeReleased(b, t, rates);
    } else {
      TradeRefunded(b, t, Cancelled);
    }
  }

  lemma SweepPaymentKeeps(b: Bank, t: nat, engaged: bool)
    requires Inv(b) && SweepPayment(b, t, engaged).Some?
    ensures Inv(SweepPayment(b, t, engaged).value)
  {
    if engaged {
      DisputedKeeps(b, t);
    } else {
      TradeRefunded(b, t, Expired);
    }
  }

  lemma MarketKeepsInv(cfg: BankConfig, b: Bank, act: MarketAction)
    requires Inv(b) && SaneAction(Market(act)) && AttemptMarket(cfg, b, act).Some?
    ensures Inv(AttemptMarket(cfg, b, act).value)
  {
    match act
    case DoCreateOrder(u, s, a, n, p, band) => OrderCreated(b, Order(u, s, a, n, Open, if s == Sell then Some(|b.holds|) else None));
    case DoCancelOrder(u, o) => OrderCancelledKeeps(b, u, o);
    case DoTakeOrder(u, o, now) => OrderTaken(b, u, o, now);
    case DoConfirmTrade(u, t, r) => ConfirmTradeKeeps(b, u, t, r);
    case DoCancelTrade(u, t) => TradeRefunded(b, t, Cancelled);
    case DoMarkPaid(u, t, now) => MarkPaidKeeps(b, u, t, now);
    case DoExtendTrade(u, t, now) => ExtendTradeKeeps(b, u, t, now);
    case DoOpenDispute(u, t) => DisputedKeeps(b, t);
    case DoResolveDispute(t, toBuyer, r) => ResolveDisputeKeeps(b, t, toBuyer, r);
    case DoSweepPayment(t, engaged) => SweepPaymentKeeps(b, t, engaged);
    case DoSweepRelease(t) => DisputedKeeps(b, t);
  }

  lemma PaymentKeepsInv(cfg: BankConfig, b: Bank, act: PaymentAction)
    requires Inv(b) && SaneAction(Pay(act)) && AttemptPayment(cfg, b, act).Some?
    ensures Inv(AttemptPayment(cfg, b, act).value)
  {
    match act
    case DoFaucet(u, a, n, k) => FaucetKeeps(cfg, b, u, a, n, k);
    case DoTransfer(u, r, a, n, k) => TransferKeeps(cfg, b, u, r, a, n, k);
    case DoRequestWithdrawal(u, a, n, k, r) => WithdrawalRequested(b, u, a, n, k, r);
    case DoBroadcasting(p) => StageMoved(b, p, Broadcasting);
    case DoSent(p, h) => StageMoved(b, p, Broadcast(h));
    case DoComplete(p) => WithdrawalCompleted(b, p);
    case DoFail(p) => WithdrawalFailed(b, p);
    case DoDeposit(t, r) => DepositKeeps(b, t, r);
  }

  lemma RequestKeepsInv(cfg: BankConfig, b: Bank, act: RequestAction)
    requires Inv(b) && SaneAction(Ask(act)) && AttemptRequest(cfg, b, act).Some?
    ensures Inv(AttemptRequest(cfg, b, act).value)
  {
    if act.DoConfirmRequest? {
      ConfirmKeeps(b, act.user, act.request, act.rates);
    } else {
      RequestRowKeeps(b, AttemptRequest(cfg, b, act).value);
    }
  }

  lemma ActionKeepsInv(cfg: BankConfig, b: Bank, act: Action)
    requires Inv(b) && SaneAction(act)
    ensures Inv(Apply(cfg, b, act))
  {
    if Attempt(cfg, b, act).Some? {
      match act
      case Market(m) => MarketKeepsInv(cfg, b, m);
      case Pay(p) => PaymentKeepsInv(cfg, b, p);
      case Ask(r) => RequestKeepsInv(cfg, b, r);
    }
  }

  predicate SaneRun(acts: seq<Action>) {
    forall i :: 0 <= i < |acts| ==> SaneAction(acts[i])
  }

  /** Any number of operations, in any order, by anybody. */
  lemma {:induction false} RunKeepsInv(cfg: BankConfig, b: Bank, acts: seq<Action>)
    requires Inv(b) && SaneRun(acts)
    ensures Inv(Run(cfg, b, acts))
    decreases |acts|
  {
    if |acts| > 0 {
      ActionKeepsInv(cfg, b, acts[0]);
      RunKeepsInv(cfg, Apply(cfg, b, acts[0]), acts[1..]);
    }
  }

  lemma {:induction false} RunSnoc(cfg: BankConfig, b: Bank, acts: seq<Action>, act: Action)
    ensures Run(cfg, b, acts + [act]) == Apply(cfg, Run(cfg, b, acts), act)
    decreases |acts|
  {
    if |acts| == 0 {
      assert acts + [act] == [act] && [act][1..] == [];
    } else {
      assert (acts + [act])[1..] == acts[1..] + [act];
      RunSnoc(cfg, Apply(cfg, b, acts[0]), acts[1..], act);
    }
  }

  /** The market writes no payment rows. */
  lemma MarketAddsNoRows(cfg: BankConfig, b: Bank, act: MarketAction)
    requires AttemptMarket(cfg, b, act).Some?
    ensures AttemptMarket(cfg, b, act).value.payments == b.payments
  {
  }
}
