/**
 * Where every payment row comes from (src/payments/payments.service.ts,
 * src/withdrawals/withdrawals.service.ts, src/indexer/deposit-indexer.service.ts,
 * src/recharge/recharge.service.ts): whose operation made it, under which conditions, at which
 * fee, and what its journal says.
 */
module Origins {
  import opened Wrappers
  import opened Money
  import opened Fees
  import opened Ledger
  import opened Banking
  import opened Custody
  import opened CustodyPayments
  import opened CustodyRuns
  import opened Actors
  import Idempotency

  predicate KeyFree(b: Bank, user: string, key: string) {
    forall p :: 0 <= p < |b.payments| ==> b.payments[p].user != user || b.payments[p].key != key
  }

  /** When a payment operation goes through. */
  ghost predicate Commits(cfg: BankConfig, b: Bank, act: PaymentAction) {
    match act
    case DoFaucet(user, asset, amount, key) =>
      cfg.faucetEnabled && asset in cfg.assets && 0 < amount <= cfg.faucetMax && KeyFree(b, user, key)
    case DoTransfer(user, recipient, asset, amount, key) =>
      && asset in cfg.assets && 0 < amount <= Funds(b, user, asset) && recipient != user
      && KeyFree(b, user, key) && KeyFree(b, recipient, key + ":in")
    case DoRequestWithdrawal(user, asset, amount, key, rates) =>
      && Upper(asset) in {"USDT", "USDC"} && amount > 0 && KeyFree(b, user, key)
      && forall fee :: IsFee(amount, rates.withdrawPct, rates.minFee, fee) ==>
           Funds(b, user, asset) >= amount + fee + rates.withdrawNetworkFee
    case DoDeposit(t, rates) =>
      && (forall d :: 0 <= d < |b.deposits| ==> !SameTransfer(b.deposits[d], t))
      && KeyFree(b, t.user, DepositKey(t)) && LeavesSomething(t.amount, rates.depositPct, rates.minFee)
    case DoBroadcasting(p) => InStage(b, p, PendingBroadcast)
    case DoSent(p, _) => InStage(b, p, Broadcasting)
    case DoComplete(p) => IsSent(b, p)
    case DoFail(p) => InStage(b, p, Broadcasting) || IsSent(b, p)
  }

  /** How many payment rows an operation adds. */
  ghost function RowsAdded(cfg: BankConfig, b: Bank, act: Action): nat {
    match act
    case Market(_) => 0
    case Pay(p) => if !Commits(cfg, b, p) then 0 else if p.DoTransfer? then 2 else if Requested(p) then 1 else 0
    case Ask(r) => if r.DoConfirmRequest? && r.request < |b.requests| && Confirms(b, act, r.request) then 1 else 0
  }

  predicate Requested(p: PaymentAction) {
    p.DoFaucet? || p.DoTransfer? || p.DoRequestWithdrawal? || p.DoDeposit?
  }

  /** The operation that made row p, and what it wrote there for good. */
  ghost predicate Opens(b: Bank, act: Action, p: nat, row: Payment) {
    match row.kind
    case Faucet => act == Pay(DoFaucet(row.user, row.asset, row.amount, row.key))
    case Transfer(to) => act == Pay(DoTransfer(row.user, to, row.asset, row.amount, row.key))
    case Receive(sent) =>
      && act.Pay? && act.p.DoTransfer? && act.p.recipient == row.user && act.p.asset == row.asset && act.p.amount == row.amount
      && row.key == act.p.key + ":in" && sent == |b.payments| && p == sent + 1
    case Withdrawal(_, totalFee, totalDebit, _) =>
      && act.Pay? && act.p.DoRequestWithdrawal?
      && act.p.user == row.user && act.p.asset == row.asset && act.p.amount == row.amount && act.p.key == row.key
      && totalDebit == row.amount + totalFee
      && IsFee(row.amount, act.p.rates.withdrawPct, act.p.rates.minFee, totalFee - act.p.rates.withdrawNetworkFee)
    case Deposit(gross, fee) =>
      && act.Pay? && act.p.DoDeposit?
      && act.p.transfer.user == row.user && act.p.transfer.asset == row.asset && act.p.transfer.amount == gross
      && row.key == "deposit:" + act.p.transfer.network + ":" + act.p.transfer.txHash + ":" + Digits(act.p.transfer.logIndex)
      && row.amount == gross - fee && IsFee(gross, act.p.rates.depositPct, act.p.rates.minFee, fee)
    case Recharge(request, fee) =>
      && act.Ask? && act.r.DoConfirmRequest? && act.r.request == request && request < |b.requests|
      && b.requests[request].user == row.user && b.requests[request].asset == row.asset && b.requests[request].amount == row.amount
      && row.key == "recharge:" + Digits(request)
      && IsFee(row.amount, act.r.rates.depositPct, act.r.rates.minFee, fee)
  }

  /** What a row keeps for good: only the stage and status of a withdrawal move. */
  predicate SameOrigin(was: Payment, now: Payment) {
    if was.kind.Withdrawal? then
      now.kind.Withdrawal? && now == was.(status := now.status, kind := was.kind.(stage := now.kind.stage))
    else now == was
  }

  lemma FeeOfWithdrawal(amount: int, rates: Rates)
    requires amount > 0 && rates.minFee >= 0
    ensures var q := QuoteWithdraw(amount, rates);
            && IsFee(amount, rates.withdrawPct, rates.minFee, q.totalFee - rates.withdrawNetworkFee) && q.total == amount + q.totalFee
            && forall fee :: IsFee(amount, rates.withdrawPct, rates.minFee, fee) ==> fee == q.totalFee - rates.withdrawNetworkFee
  {
    WithdrawFee(amount, rates);
    var q := QuoteWithdraw(amount, rates);
    forall fee | IsFee(amount, rates.withdrawPct, rates.minFee, fee)
      ensures fee == q.platformFee
    {
      OneFee(amount, rates.withdrawPct, rates.minFee, fee, q.platformFee);
    }
  }

  /** The rows an operation leaves: the old ones with their origin, and the new ones with their makers. */
  ghost predicate Opened(b: Bank, act: Action, after: Bank, added: nat) {
    && |after.payments| == |b.payments| + added
    && (forall p: nat :: p < |b.payments| ==> SameOrigin(b.payments[p], after.payments[p]))
    && (forall p: nat :: |b.payments| <= p < |after.payments| ==> Opens(b, act, p, after.payments[p]))
  }

  lemma FaucetOpens(cfg: BankConfig, b: Bank, act: Action)
    requires act.Pay? && act.p.DoFaucet?
    ensures AttemptPayment(cfg, b, act.p).Some? <==> Commits(cfg, b, act.p)
    ensures Opened(b, act, AttemptPayment(cfg, b, act.p).GetOr(b), RowsAdded(cfg, b, act))
  {
    if act.p.amount > 0 {
      TransferPosts(act.p.user, act.p.user, act.p.asset, act.p.amount);
    }
  }

  /** When a transfer goes through, and its two rows. */
  lemma TransferRows(cfg: BankConfig, b: Bank, user: string, recipient: string, asset: string, amount: int, key: string)
    ensures SendTransfer(cfg, b, user, recipient, asset, amount, key).Some? <==>
              && asset in cfg.assets && 0 < amount <= Funds(b, user, asset) && recipient != user
              && KeyFree(b, user, key) && KeyFree(b, recipient, key + ":in")
    ensures var after := SendTransfer(cfg, b, user, recipient, asset, amount, key);
            after.Some? ==> after.value.payments == b.payments + [
                Payment(user, key, Transfer(recipient), asset, amount, PaymentCompleted),
                Payment(recipient, key + ":in", Receive(|b.payments|), asset, amount, PaymentCompleted)]
  {
    if amount > 0 {
      TransferPosts(user, recipient, asset, amount);
    }
  }

  lemma TransferOpens(cfg: BankConfig, b: Bank, act: Action)
    requires act.Pay? && act.p.DoTransfer?
    ensures AttemptPayment(cfg, b, act.p).Some? <==> Commits(cfg, b, act.p)
    ensures Opened(b, act, AttemptPayment(cfg, b, act.p).GetOr(b), RowsAdded(cfg, b, act))
  {
    TransferRows(cfg, b, act.p.user, act.p.recipient, act.p.asset, act.p.amount, act.p.key);
  }

  lemma WithdrawalOpens(cfg: BankConfig, b: Bank, act: Action)
    requires act.Pay? && act.p.DoRequestWithdrawal? && SaneAction(act)
    ensures AttemptPayment(cfg, b, act.p).Some? <==> Commits(cfg, b, act.p)
    ensures Opened(b, act, AttemptPayment(cfg, b, act.p).GetOr(b), RowsAdded(cfg, b, act))
  {
    if act.p.amount > 0 {
      FeeOfWithdrawal(act.p.amount, act.p.rates);
    }
  }

  lemma DepositOpens(cfg: BankConfig, b: Bank, act: Action)
    requires act.Pay? && act.p.DoDeposit? && SaneAction(act)
    ensures AttemptPayment(cfg, b, act.p).Some? <==> Commits(cfg, b, act.p)
    ensures Opened(b, act, AttemptPayment(cfg, b, act.p).GetOr(b), RowsAdded(cfg, b, act))
  {
    var t, rates := act.p.transfer, act.p.rates;
    var fee := QuoteDeposit(t.amount, rates).platformFee;
    if t.amount > 0 {
      DepositFee(t.amount, rates);
      EntryJournalAccepted(t.user, t.asset, t.amount, fee);
      FeeBelowAmount(t.amount, rates.depositPct, rates.minFee, fee);
    } else {
      assert EntryLegs(t.user, t.asset, t.amount, fee)[0].amount <= 0;
    }
  }

  lemma RechargeOpens(cfg: BankConfig, b: Bank, act: Action)
    requires act.Ask? && SaneAction(act)
    ensures Opened(b, act, Apply(cfg, b, act), RowsAdded(cfg, b, act))
  {
    if act.r.DoConfirmRequest? && act.r.request < |b.requests| {
      var req, rates := b.requests[act.r.request], act.r.rates;
      ConfirmationSucceedsExactlyWhen(cfg, b, act, act.r.request);
      if req.amount > 0 {
        DepositFee(req.amount, rates);
      }
    }
  }

  lemma WorkerOpensNothing(cfg: BankConfig, b: Bank, act: Action)
    requires Inv(b) && act.Pay? && !Requested(act.p)
    ensures AttemptPayment(cfg, b, act.p).Some? <==> Commits(cfg, b, act.p)
    ensures Opened(b, act, AttemptPayment(cfg, b, act.p).GetOr(b), 0)
  {
    if act.p.DoComplete? && IsSent(b, act.p.payment) {
      assert GoodPayment(b.payments[act.p.payment]);
      WithdrawalJournalAccepted(b.payments[act.p.payment]);
    }
  }

  /** Each payment operation goes through exactly when named. */
  lemma PaymentsCommitExactlyWhen(cfg: BankConfig, b: Bank, act: PaymentAction)
    requires Inv(b) && SaneAction(Pay(act))
    ensures AttemptPayment(cfg, b, act).Some? <==> Commits(cfg, b, act)
  {
    match act
    case DoFaucet(_, _, _, _) => FaucetOpens(cfg, b, Pay(act));
    case DoTransfer(_, _, _, _, _) => TransferOpens(cfg, b, Pay(act));
    case DoRequestWithdrawal(_, _, _, _, _) => WithdrawalOpens(cfg, b, Pay(act));
    case DoDeposit(_, _) => DepositOpens(cfg, b, Pay(act));
    case _ => WorkerOpensNothing(cfg, b, Pay(act));
  }

  // ---- The checks of a request, apart from its key ----

  /** Longer than every key that is in use. */
  function UnusedKey(payments: seq<Payment>): (key: string)
    ensures forall p :: 0 <= p < |payments| ==> |payments[p].key| < |key|
  {
    if |payments| == 0 then "" else UnusedKey(payments[..|payments| - 1]) + payments[|payments| - 1].key + "-"
  }

  /** The checks that come before the first insert pass exactly if the request would be carried out under some key. */
  lemma AdmissibleExactlyWhen(cfg: BankConfig, b: Bank, r: Idempotency.Request)
    requires SaneAction(Pay(r))
    ensures Idempotency.Admissible(cfg, b, r) <==> exists key :: Commits(cfg, b, r.(key := key))
  {
    if r.amount > 0 && r.DoRequestWithdrawal? {
      FeeOfWithdrawal(r.amount, r.rates);
    }
    var key := UnusedKey(b.payments);
    assert forall user :: KeyFree(b, user, key) && KeyFree(b, user, key + ":in");
    if Idempotency.Admissible(cfg, b, r) {
      assert Commits(cfg, b, r.(key := key));
    }
  }

  /** Another request of the same kind by the same user, for the same amount at the same rates. */
  predicate Alike(r: PaymentAction, other: PaymentAction) {
    match r
    case DoFaucet(user, asset, amount, _) => other == DoFaucet(user, asset, amount, KeyText(other))
    case DoTransfer(user, _, asset, amount, _) => other.DoTransfer? && other == DoTransfer(user, other.recipient, asset, amount, other.key)
    case DoRequestWithdrawal(user, asset, amount, _, rates) => other == DoRequestWithdrawal(user, asset, amount, KeyText(other), rates)
    case _ => false
  }

  function KeyText(r: PaymentAction): string {
    if Requested(r) && !r.DoDeposit? then r.key else ""
  }

  /** One user with this much of one asset, and nothing else. */
  function RichBank(user: string, asset: string, amount: int): Bank {
    EMPTY.(entries := [Entry(PaymentJournal(0), Leg(UserAccount(user, asset), Credit, amount))])
  }

  lemma RichUserCanSpend(user: string, asset: string, amount: int)
    ensures Funds(RichBank(user, asset, amount), user, asset) == amount
  {
    var entries := RichBank(user, asset, amount).entries;
    assert entries[..0] == [] && Balance([], UserAccount(user, asset)) == 0;
  }

  /** The checks made before the lookup pass exactly if some such request would be carried out in some bank. */
  lemma WellFormedExactlyWhen(cfg: BankConfig, r: Idempotency.Request)
    ensures Idempotency.WellFormed(cfg, r) <==> exists b, other :: Alike(r, other) && Commits(cfg, b, other)
  {
    if Idempotency.WellFormed(cfg, r) {
      match r
      case DoFaucet(user, asset, amount, key) => assert Alike(r, r) && Commits(cfg, EMPTY, r);
      case DoTransfer(user, recipient, asset, amount, key) =>
        var other := r.(recipient := user + "-");
        RichUserCanSpend(user, asset, amount);
        assert Alike(r, other) && Commits(cfg, RichBank(user, asset, amount), other);
      case DoRequestWithdrawal(user, asset, amount, key, rates) =>
        var cost := amount + amount + rates.withdrawNetworkFee;
        RichUserCanSpend(user, asset, cost);
        assert Alike(r, r) && Commits(cfg, RichBank(user, asset, cost), r);
    }
  }

  lemma PaymentOpens(cfg: BankConfig, b: Bank, act: Action)
    requires Inv(b) && SaneAction(act) && act.Pay?
    ensures Opened(b, act, AttemptPayment(cfg, b, act.p).GetOr(b), RowsAdded(cfg, b, act))
  {
    match act.p
    case DoFaucet(_, _, _, _) => FaucetOpens(cfg, b, act);
    case DoTransfer(_, _, _, _, _) => TransferOpens(cfg, b, act);
    case DoRequestWithdrawal(_, _, _, _, _) => WithdrawalOpens(cfg, b, act);
    case DoDeposit(_, _) => DepositOpens(cfg, b, act);
    case _ => WorkerOpensNothing(cfg, b, act);
  }

  /** Rows appear by the operation of their owner, as named, and keep what it wrote. */
  lemma RowsOpenExactlyAsNamed(cfg: BankConfig, b: Bank, act: Action)
    requires Inv(b) && SaneAction(act)
    ensures Opened(b, act, Apply(cfg, b, act), RowsAdded(cfg, b, act))
  {
    match act
    case Market(m) => if AttemptMarket(cfg, b, m).Some? { MarketAddsNoRows(cfg, b, m); }
    case Pay(_) => PaymentOpens(cfg, b, act);
    case Ask(_) => RechargeOpens(cfg, b, act);
  }

  // ---- Over whole runs ----

  ghost predicate OpenedAt(cfg: BankConfig, acts: seq<Action>, k: nat, p: nat, row: Payment) {
    k < |acts| && |Before(cfg, acts, k).payments| <= p && Opens(Before(cfg, acts, k), acts[k], p, row)
  }

  lemma StillOpened(cfg: BankConfig, acts: seq<Action>, k: nat, p: nat, was: Payment, now: Payment)
    requires |acts| > 0 && OpenedAt(cfg, acts[..|acts| - 1], k, p, was) && SameOrigin(was, now)
    ensures OpenedAt(cfg, acts, k, p, now)
  {
    assert acts[..|acts| - 1][..k] == acts[..k];
  }

  /** Over any run every payment row was made by one operation, as that operation says. */
  lemma {:induction false} EveryPaymentWasAskedFor(cfg: BankConfig, acts: seq<Action>, p: nat)
    requires SaneRun(acts) && p < |Run(cfg, EMPTY, acts).payments|
    ensures exists k :: OpenedAt(cfg, acts, k, p, Run(cfg, EMPTY, acts).payments[p])
    decreases |acts|
  {
    var earlier, act := acts[..|acts| - 1], acts[|acts| - 1];
    var b, now := Run(cfg, EMPTY, earlier), Run(cfg, EMPTY, acts).payments[p];
    assert acts == earlier + [act];
    RunSnoc(cfg, EMPTY, earlier, act);
    EmptyInv();
    RunKeepsInv(cfg, EMPTY, earlier);
    RowsOpenExactlyAsNamed(cfg, b, act);
    if p < |b.payments| {
      EveryPaymentWasAskedFor(cfg, earlier, p);
      var k :| OpenedAt(cfg, earlier, k, p, b.payments[p]);
      StillOpened(cfg, acts, k, p, b.payments[p], now);
    } else {
      assert OpenedAt(cfg, acts, |acts| - 1, p, now);
    }
  }

  /** Money out of an account, into two others: the net and, if there is one, the fee. */
  predicate Splits(legs: seq<Leg>, from: Account, gross: int, to: Account, net: int, fee: int) {
    && gross == net + fee
    && legs == [Leg(from, Debit, gross), Leg(to, Credit, net)]
               + if fee > 0 then [Leg(SystemAccount("fees", from.asset), Credit, fee)] else []
  }

  /** The journal of a payment row, leg by leg. */
  predicate JournalOf(row: Payment, legs: seq<Leg>) {
    match row.kind
    case Faucet => Splits(legs, SystemAccount("issuer", row.asset), row.amount, UserAccount(row.user, row.asset), row.amount, 0)
    case Transfer(to) => Splits(legs, UserAccount(row.user, row.asset), row.amount, UserAccount(to, row.asset), row.amount, 0)
    case Receive(_) => legs == []
    case Withdrawal(_, totalFee, totalDebit, _) =>
      if row.status == PaymentCompleted then
        Splits(legs, UserAccount(row.user, row.asset), totalDebit, SystemAccount("custody", row.asset), row.amount, totalFee)
      else legs == []
    case Deposit(gross, fee) => Splits(legs, SystemAccount("custody", row.asset), gross, UserAccount(row.user, row.asset), row.amount, fee)
    case Recharge(_, fee) => Splits(legs, SystemAccount("custody", row.asset), row.amount, UserAccount(row.user, row.asset), row.amount - fee, fee)
  }

  lemma PaymentJournalSplits(row: Payment)
    requires GoodPayment(row)
    ensures JournalOf(row, PaymentLegs(row))
  {
  }

  lemma TradeJournalSplits(t: Trade)
    requires t.status == Completed
    ensures Splits(TradeLegs(t), UserAccount(t.seller, t.asset), t.amount, UserAccount(t.buyer, t.asset), t.amount - t.fee, t.fee)
  {
  }

  lemma {:induction false} PostedAsExpected(cfg: BankConfig, acts: seq<Action>)
    requires SaneRun(acts)
    ensures var b := Run(cfg, EMPTY, acts);
            && (forall p: nat :: p < |b.payments| ==>
                  GoodPayment(b.payments[p]) && LegsOf(b.entries, PaymentJournal(p)) == PaymentLegs(b.payments[p]))
            && (forall t: nat :: t < |b.trades| ==> LegsOf(b.entries, TradeJournal(t)) == TradeLegs(b.trades[t]))
  {
    EmptyInv();
    RunKeepsInv(cfg, EMPTY, acts);
    var b := Run(cfg, EMPTY, acts);
    forall p: nat | p < |b.payments|
      ensures LegsOf(b.entries, PaymentJournal(p)) == PaymentLegs(b.payments[p])
    {
      assert LegsOf(b.entries, PaymentJournal(p)) == ExpectedLegs(b, PaymentJournal(p));
    }
    forall t: nat | t < |b.trades|
      ensures LegsOf(b.entries, TradeJournal(t)) == TradeLegs(b.trades[t])
    {
      assert LegsOf(b.entries, TradeJournal(t)) == ExpectedLegs(b, TradeJournal(t));
    }
  }

  /**
   * Over any run: the journal of every payment moves exactly what its row says, with the fee leg
   * that the rate for deposits or for withdrawals gave when the row was made.
   */
  lemma {:induction false} FeesOfPayments(cfg: BankConfig, acts: seq<Action>, p: nat)
    requires SaneRun(acts) && p < |Run(cfg, EMPTY, acts).payments|
    ensures JournalOf(Run(cfg, EMPTY, acts).payments[p], LegsOf(Run(cfg, EMPTY, acts).entries, PaymentJournal(p)))
    ensures exists k :: OpenedAt(cfg, acts, k, p, Run(cfg, EMPTY, acts).payments[p])
  {
    EveryPaymentWasAskedFor(cfg, acts, p);
    PostedAsExpected(cfg, acts);
    PaymentJournalSplits(Run(cfg, EMPTY, acts).payments[p]);
  }

  ghost predicate ReleasedAt(cfg: BankConfig, acts: seq<Action>, k: nat, t: nat, now: Trade) {
    && TurnedAt(cfg, acts, k, t, now) && now.status == Completed
    && IsFee(now.amount, acts[k].m.rates.p2pPct, acts[k].m.rates.minFee, now.fee)
  }

  lemma TurnedMeansReleased(cfg: BankConfig, acts: seq<Action>, k: nat, t: nat, now: Trade)
    requires TurnedAt(cfg, acts, k, t, now) && now.status == Completed
    ensures ReleasedAt(cfg, acts, k, t, now)
  {
  }

  lemma {:induction false} CompletedWasReleased(cfg: BankConfig, acts: seq<Action>, t: nat)
    requires SaneRun(acts) && t < |Run(cfg, EMPTY, acts).trades| && Run(cfg, EMPTY, acts).trades[t].status == Completed
    ensures exists k :: ReleasedAt(cfg, acts, k, t, Run(cfg, EMPTY, acts).trades[t])
  {
    TradesTurnByTheirActors(cfg, acts, t);
    var k :| TurnedAt(cfg, acts, k, t, Run(cfg, EMPTY, acts).trades[t]);
    TurnedMeansReleased(cfg, acts, k, t, Run(cfg, EMPTY, acts).trades[t]);
  }

  /** And of every trade: the seller's escrow goes to the buyer, less the fee that the rate for trades gave when it was released. */
  lemma {:induction false} FeesOfTrades(cfg: BankConfig, acts: seq<Action>, t: nat)
    requires SaneRun(acts) && t < |Run(cfg, EMPTY, acts).trades|
    ensures var now, legs := Run(cfg, EMPTY, acts).trades[t], LegsOf(Run(cfg, EMPTY, acts).entries, TradeJournal(t));
            if now.status == Completed then
              && Splits(legs, UserAccount(now.seller, now.asset), now.amount, UserAccount(now.buyer, now.asset), now.amount - now.fee, now.fee)
              && exists k :: ReleasedAt(cfg, acts, k, t, now)
            else legs == []
  {
    var now := Run(cfg, EMPTY, acts).trades[t];
    PostedAsExpected(cfg, acts);
    if now.status == Completed {
      CompletedWasReleased(cfg, acts, t);
      TradeJournalSplits(now);
    }
  }
}
