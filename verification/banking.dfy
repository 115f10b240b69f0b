/**
 * The custodial bank: every table that money depends on, and what each operation does to
 * them. A row's id is its number in its table. An operation is one database transaction:
 * None means it was refused or rolled back.
 */
module Banking {
  import opened Wrappers
  import opened Money
  import opened Fees
  import opened Ledger

  // ---- Tables ----

  datatype Side = Buy | Sell
  datatype OrderStatus = Open | Taken | OrderCancelled
  datatype Order = Order(maker: string, side: Side, asset: string, amount: int, status: OrderStatus, hold: Option<nat>)

  datatype TradeStatus = Pending | Paid | Completed | Cancelled | Disputed | Expired
  datatype Trade = Trade(
    order: nat, buyer: string, seller: string, asset: string, amount: int, status: TradeStatus, hold: Option<nat>,
    extensions: int, fee: int, paymentDeadline: Option<int>, releaseDeadline: Option<int>)

  datatype Stage = PendingBroadcast | Broadcasting | Broadcast(txHash: string) | StageCompleted | StageFailed
  datatype Kind =
    | Faucet
    | Transfer(to: string)
    | Receive(mirrorOf: nat)
    | Withdrawal(stage: Stage, totalFee: int, totalDebit: int, hold: nat)
    | Deposit(gross: int, fee: int)
    | Recharge(request: nat, fee: int)
  datatype PaymentStatus = Processing | PaymentCompleted | PaymentFailed
  datatype Payment = Payment(user: string, key: string, kind: Kind, asset: string, amount: int, status: PaymentStatus)

  datatype ChainDeposit = ChainDeposit(network: string, txHash: string, logIndex: nat, user: string, asset: string, amount: int, payment: nat)

  datatype RequestStatus = RequestPending | RequestClaimed | RequestPaid | RequestCompleted | RequestCancelled
  datatype Request = Request(user: string, operator: Option<string>, asset: string, amount: int, rate: int, fiat: string, status: RequestStatus, fee: int)

  datatype Bank = Bank(
    entries: seq<Entry>, holds: seq<Hold>, orders: seq<Order>, trades: seq<Trade>,
    payments: seq<Payment>, deposits: seq<ChainDeposit>, requests: seq<Request>)

  const EMPTY := Bank([], [], [], [], [], [], [])

  datatype BankConfig = BankConfig(assets: set<string>, faucetEnabled: bool, faucetMax: int)

  const PAYMENT_WINDOW := 15 * 60_000
  const RELEASE_WINDOW := 30 * 60_000
  const EXTENSION := 15 * 60_000
  const MAX_EXTENSIONS := 2
  const RECHARGE_ASSET := "USDC"

  function UserAccount(user: string, asset: string): Account { Account(User(user), asset) }
  function SystemAccount(name: string, asset: string): Account { Account(System(name), asset) }
  function CustodyAccount(asset: string): Account { SystemAccount("custody", asset) }
  function FeeAccount(asset: string): Account { SystemAccount("fees", asset) }
  function IssuerAccount(asset: string): Account { SystemAccount("issuer", asset) }

  /** What a user can spend: balance minus active holds. */
  function Funds(b: Bank, user: string, asset: string): int {
    Balance(b.entries, UserAccount(user, asset)) - Held(b.holds, UserAccount(user, asset))
  }

  function Post(b: Bank, j: Journal, legs: seq<Leg>): Option<Bank> {
    if Postable(legs) then Some(b.(entries := b.entries + AsEntries(j, legs))) else None
  }

  /** The update is unconditional; an unknown id matches no row. */
  function SetHold(b: Bank, h: nat, status: HoldStatus): Bank {
    if h < |b.holds| then b.(holds := b.holds[h := b.holds[h].(status := status)]) else b
  }

  function SetHoldIfAny(b: Bank, h: Option<nat>, status: HoldStatus): Bank {
    if h.Some? then SetHold(b, h.value, status) else b
  }

  function AddHold(b: Bank, account: Account, amount: int): Bank {
    b.(holds := b.holds + [Hold(account, amount, Active)])
  }

  function FeeLeg(asset: string, fee: int): seq<Leg> {
    if fee > 0 then [Leg(FeeAccount(asset), Credit, fee)] else []
  }

  // ---- Payments (src/payments/payments.service.ts) ----

  function FindPayment(payments: seq<Payment>, user: string, key: string): (r: Option<nat>)
    ensures r.Some? ==> r.value < |payments| && payments[r.value].user == user && payments[r.value].key == key
    ensures r.None? ==> forall i :: 0 <= i < |payments| ==> payments[i].user != user || payments[i].key != key
  {
    if |payments| == 0 then None
    else
      var last := payments[|payments| - 1];
      if last.user == user && last.key == key then Some(|payments| - 1) else FindPayment(payments[..|payments| - 1], user, key)
  }

  /** Insert a payment row; the unique (user, key) index may refuse it. */
  function InsertPayment(b: Bank, p: Payment): Option<Bank> {
    if FindPayment(b.payments, p.user, p.key).Some? then None else Some(b.(payments := b.payments + [p]))
  }

  function FaucetLegs(user: string, asset: string, amount: int): seq<Leg> {
    [Leg(IssuerAccount(asset), Debit, amount), Leg(UserAccount(user, asset), Credit, amount)]
  }

  function CreditFaucet(cfg: BankConfig, b: Bank, user: string, asset: string, amount: int, key: string): Option<Bank> {
    if !cfg.faucetEnabled || asset !in cfg.assets || amount <= 0 || amount > cfg.faucetMax then None
    else
      match InsertPayment(b, Payment(user, key, Faucet, asset, amount, PaymentCompleted))
      case None => None
      case Some(paid) => Post(paid, PaymentJournal(|b.payments|), FaucetLegs(user, asset, amount))
  }

  function TransferLegs(user: string, recipient: string, asset: string, amount: int): seq<Leg> {
    [Leg(UserAccount(user, asset), Debit, amount), Leg(UserAccount(recipient, asset), Credit, amount)]
  }

  /** The recipient gets a mirror row under the key with ":in" appended; it moves no money. */
  function SendTransfer(cfg: BankConfig, b: Bank, user: string, recipient: string, asset: string, amount: int, key: string): Option<Bank> {
    if asset !in cfg.assets || amount <= 0 || recipient == user || Funds(b, user, asset) < amount then None
    else
      match InsertPayment(b, Payment(user, key, Transfer(recipient), asset, amount, PaymentCompleted))
      case None => None
      case Some(sent) =>
        match InsertPayment(sent, Payment(recipient, key + ":in", Receive(|b.payments|), asset, amount, PaymentCompleted))
        case None => None
        case Some(mirrored) => Post(mirrored, PaymentJournal(|b.payments|), TransferLegs(user, recipient, asset, amount))
  }

  // ---- P2P market (src/marketplace/p2p-market.service.ts) ----

  function CreateOrder(cfg: BankConfig, b: Bank, user: string, side: Side, asset: string, amount: int, price: int, band: Option<(int, int)>): Option<Bank> {
    if asset !in cfg.assets || amount <= 0 || price <= 0 then None
    else if band.Some? && (price < band.value.0 || price > band.value.1) then None
    else if side == Sell && Funds(b, user, asset) < amount then None
    else
      var order := Order(user, side, asset, amount, Open, if side == Sell then Some(|b.holds|) else None);
      var held := if side == Sell then AddHold(b, UserAccount(user, asset), amount) else b;
      Some(held.(orders := held.orders + [order]))
  }

  function CancelOrder(b: Bank, user: string, o: nat): Option<Bank> {
    if o >= |b.orders| || b.orders[o].maker != user || b.orders[o].status != Open then None
    else
      var order := b.orders[o];
      Some(SetHoldIfAny(b, order.hold, Released).(orders := b.orders[o := order.(status := OrderCancelled)]))
  }

  function TakeOrder(b: Bank, taker: string, o: nat, now: int): Option<Bank> {
    if o >= |b.orders| || b.orders[o].status != Open || b.orders[o].maker == taker then None
    else
      var order := b.orders[o];
      var buyer := if order.side == Sell then taker else order.maker;
      var seller := if order.side == Sell then order.maker else taker;
      if order.side == Buy && Funds(b, seller, order.asset) < order.amount then None
      else
        var held := if order.side == Buy then AddHold(b, UserAccount(seller, order.asset), order.amount) else b;
        var hold := if order.side == Buy then Some(|b.holds|) else order.hold;
        var trade := Trade(o, buyer, seller, order.asset, order.amount, Pending, hold, 0, 0, Some(now + PAYMENT_WINDOW), None);
        Some(held.(orders := b.orders[o := order.(status := Taken)], trades := b.trades + [trade]))
  }

  function ReleaseLegs(t: Trade): seq<Leg> {
    [Leg(UserAccount(t.seller, t.asset), Debit, t.amount), Leg(UserAccount(t.buyer, t.asset), Credit, t.amount - t.fee)]
    + FeeLeg(t.asset, t.fee)
  }

  /** Commit the escrow and pay the buyer: the end of confirmTrade and of a dispute won by the buyer. */
  function Release(b: Bank, t: nat, rates: Rates): Option<Bank>
    requires t < |b.trades|
  {
    var done := b.trades[t].(status := Completed, fee := QuoteP2p(b.trades[t].amount, rates).platformFee);
    var committed := SetHoldIfAny(b, done.hold, Committed);
    match Post(committed, TradeJournal(t), ReleaseLegs(done))
    case None => None
    case Some(posted) => Some(posted.(trades := b.trades[t := done]))
  }

  /** Give the escrow back to the seller. */
  function Refund(b: Bank, t: nat, status: TradeStatus): Bank
    requires t < |b.trades|
  {
    SetHoldIfAny(b, b.trades[t].hold, Released).(trades := b.trades[t := b.trades[t].(status := status)])
  }

  predicate Party(t: Trade, user: string) { t.buyer == user || t.seller == user }

  predicate Waiting(t: Trade) { t.status == Pending || t.status == Paid }

  function ConfirmTrade(b: Bank, user: string, t: nat, rates: Rates): Option<Bank> {
    if t >= |b.trades| || b.trades[t].seller != user || !Waiting(b.trades[t]) then None else Release(b, t, rates)
  }

  function CancelTrade(b: Bank, user: string, t: nat): Option<Bank> {
    if t >= |b.trades| || !Party(b.trades[t], user) || b.trades[t].status != Pending then None
    else Some(Refund(b, t, Cancelled))
  }

  function UpdateTrade(b: Bank, t: nat, trade: Trade): Bank
    requires t < |b.trades|
  {
    b.(trades := b.trades[t := trade])
  }

  function MarkPaid(b: Bank, user: string, t: nat, now: int): Option<Bank> {
    if t >= |b.trades| || b.trades[t].buyer != user || b.trades[t].status != Pending then None
    else Some(UpdateTrade(b, t, b.trades[t].(status := Paid, releaseDeadline := Some(now + RELEASE_WINDOW))))
  }

  /** The later of the running deadline and now, plus one extension. */
  function Postponed(deadline: Option<int>, now: int): Option<int> {
    var base := deadline.GetOr(now);
    Some((if base > now then base else now) + EXTENSION)
  }

  function ExtendTrade(b: Bank, user: string, t: nat, now: int): Option<Bank> {
    if t >= |b.trades| || !Party(b.trades[t], user) || !Waiting(b.trades[t]) || b.trades[t].extensions >= MAX_EXTENSIONS then None
    else
      var trade := b.trades[t];
      var moved := if trade.status == Pending then trade.(paymentDeadline := Postponed(trade.paymentDeadline, now))
                   else trade.(releaseDeadline := Postponed(trade.releaseDeadline, now));
      Some(UpdateTrade(b, t, moved.(extensions := trade.extensions + 1)))
  }

  function OpenDispute(b: Bank, user: string, t: nat): Option<Bank> {
    if t >= |b.trades| || !Party(b.trades[t], user) || !Waiting(b.trades[t]) then None
    else Some(UpdateTrade(b, t, b.trades[t].(status := Disputed)))
  }

  function ResolveDispute(b: Bank, t: nat, toBuyer: bool, rates: Rates): Option<Bank> {
    if t >= |b.trades| || b.trades[t].status != Disputed then None
    else if toBuyer then Release(b, t, rates)
    else Some(Refund(b, t, Cancelled))
  }

  /** The timeout worker on one overdue payment: a dispute if the parties had interacted, else a refund. */
  function SweepPayment(b: Bank, t: nat, engaged: bool): Option<Bank> {
    if t >= |b.trades| || b.trades[t].status != Pending then None
    else if engaged then Some(UpdateTrade(b, t, b.trades[t].(status := Disputed)))
    else Some(Refund(b, t, Expired))
  }

  function SweepRelease(b: Bank, t: nat): Option<Bank> {
    if t >= |b.trades| || b.trades[t].status != Paid then None
    else Some(UpdateTrade(b, t, b.trades[t].(status := Disputed)))
  }

  // ---- Withdrawals (src/withdrawals/withdrawals.service.ts) ----

  function Upper(s: string): string {
    seq(|s|, i requires 0 <= i < |s| => if 'a' <= s[i] <= 'z' then (s[i] as int - 32) as char else s[i])
  }

  function RequestWithdrawal(b: Bank, user: string, asset: string, amount: int, key: string, rates: Rates): Option<Bank> {
    var quote := QuoteWithdraw(amount, rates);
    if Upper(asset) !in {"USDT", "USDC"} || amount <= 0 || Funds(b, user, asset) < quote.total then None
    else
      match InsertPayment(b, Payment(user, key, Withdrawal(PendingBroadcast, quote.totalFee, quote.total, |b.holds|), asset, amount, Processing))
      case None => None
      case Some(requested) => Some(AddHold(requested, UserAccount(user, asset), quote.total))
  }

  function WithdrawLegs(p: Payment): seq<Leg>
    requires p.kind.Withdrawal?
  {
    [Leg(UserAccount(p.user, p.asset), Debit, p.kind.totalDebit), Leg(CustodyAccount(p.asset), Credit, p.amount)]
    + FeeLeg(p.asset, p.kind.totalFee)
  }

  predicate IsWithdrawal(b: Bank, p: nat) {
    p < |b.payments| && b.payments[p].kind.Withdrawal?
  }

  function SetStage(b: Bank, p: nat, stage: Stage): Bank
    requires IsWithdrawal(b, p)
  {
    var row := b.payments[p];
    b.(payments := b.payments[p := row.(kind := row.kind.(stage := stage))])
  }

  /** The worker's writes check nothing: see the Withdrawals module for why they meet the right rows. */
  function CompleteWithdrawal(b: Bank, p: nat): Option<Bank>
    requires IsWithdrawal(b, p)
  {
    var row := b.payments[p];
    var committed := SetHold(b, row.kind.hold, Committed);
    match Post(committed, PaymentJournal(p), WithdrawLegs(row))
    case None => None
    case Some(posted) =>
      Some(posted.(payments := b.payments[p := row.(status := PaymentCompleted, kind := row.kind.(stage := StageCompleted))]))
  }

  function FailWithdrawal(b: Bank, p: nat): Bank
    requires IsWithdrawal(b, p)
  {
    var row := b.payments[p];
    SetHold(b, row.kind.hold, Released).
      (payments := b.payments[p := row.(status := PaymentFailed, kind := row.kind.(stage := StageFailed))])
  }

  // ---- Deposits (src/indexer/deposit-indexer.service.ts) ----

  datatype OnChainTransfer = OnChainTransfer(network: string, txHash: string, logIndex: nat, user: string, asset: string, amount: int)

  datatype CreditResult = Credited(bank: Bank) | Skipped | Failed

  function DepositKey(t: OnChainTransfer): string {
    "deposit:" + t.network + ":" + t.txHash + ":" + Digits(t.logIndex)
  }

  predicate SameTransfer(d: ChainDeposit, t: OnChainTransfer) {
    d.network == t.network && d.txHash == t.txHash && d.logIndex == t.logIndex
  }

  predicate IsCredited(b: Bank, t: OnChainTransfer) {
    exists i :: 0 <= i < |b.deposits| && SameTransfer(b.deposits[i], t)
  }

  /** Money that enters: custody is debited the gross, the user gets the net, the treasury the fee. */
  function EntryLegs(user: string, asset: string, gross: int, fee: int): seq<Leg> {
    [Leg(CustodyAccount(asset), Debit, gross), Leg(UserAccount(user, asset), Credit, gross - fee)] + FeeLeg(asset, fee)
  }

  function CreditDeposit(b: Bank, t: OnChainTransfer, rates: Rates): CreditResult {
    if IsCredited(b, t) then Skipped
    else
      var quote := QuoteDeposit(t.amount, rates);
      match InsertPayment(b, Payment(t.user, DepositKey(t), Deposit(t.amount, quote.platformFee), t.asset, quote.net, PaymentCompleted))
      case None => Skipped
      case Some(paid) =>
        match Post(paid, PaymentJournal(|b.payments|), EntryLegs(t.user, t.asset, t.amount, quote.platformFee))
        case None => Failed
        case Some(posted) =>
          Credited(posted.(deposits := b.deposits +
                   [ChainDeposit(t.network, t.txHash, t.logIndex, t.user, t.asset, t.amount, |b.payments|)]))
  }

  // ---- Recharges (src/recharge/recharge.service.ts) ----

  /** Cents, printed with two decimals. */
  function CentsText(cents: nat): string {
    Digits(cents / 100) + "." + [DigitChar(cents / 10 % 10), DigitChar(cents % 10)]
  }

  /** A cent in units of 10^-18. */
  const CENT := 10_000_000_000_000_000

  /** The whole cents of an amount at a rate, both in units of 10^-18. */
  function PriceCents(amount: nat, rate: nat): nat { amount * rate / (ONE * CENT) }

  function CreateRequest(b: Bank, user: string, amount: int, rate: int): Option<Bank> {
    if amount <= 0 || rate <= 0 then None
    else Some(b.(requests := b.requests +
                 [Request(user, None, RECHARGE_ASSET, amount, rate, CentsText(PriceCents(amount, rate)), RequestPending, 0)]))
  }

  function UpdateRequest(b: Bank, r: nat, req: Request): Bank
    requires r < |b.requests|
  {
    b.(requests := b.requests[r := req])
  }

  function CancelRequest(b: Bank, user: string, r: nat): Option<Bank> {
    if r >= |b.requests| || b.requests[r].user != user || b.requests[r].status !in {RequestPending, RequestClaimed} then None
    else Some(UpdateRequest(b, r, b.requests[r].(status := RequestCancelled)))
  }

  function SubmitEvidence(b: Bank, user: string, r: nat, validAttachment: bool): Option<Bank> {
    if r >= |b.requests| || b.requests[r].user != user || b.requests[r].status != RequestClaimed || !validAttachment then None
    else Some(UpdateRequest(b, r, b.requests[r].(status := RequestPaid)))
  }

  function ClaimRequest(b: Bank, operator: string, r: nat, paymentInfo: string): Option<Bank> {
    if Trim(paymentInfo) == "" || r >= |b.requests| || b.requests[r].status != RequestPending || b.requests[r].user == operator then None
    else Some(UpdateRequest(b, r, b.requests[r].(operator := Some(operator), status := RequestClaimed)))
  }

  function RechargeKey(r: nat): string { "recharge:" + Digits(r) }

  function ConfirmRequest(b: Bank, operator: string, r: nat, rates: Rates): Option<Bank> {
    if r >= |b.requests| || b.requests[r].operator != Some(operator) || b.requests[r].status !in {RequestPaid, RequestClaimed} then None
    else
      var req := b.requests[r];
      var fee := QuoteDeposit(req.amount, rates).platformFee;
      match InsertPayment(b, Payment(req.user, RechargeKey(r), Recharge(r, fee), req.asset, req.amount, PaymentCompleted))
      case None => None
      case Some(paid) =>
        match Post(paid, PaymentJournal(|b.payments|), EntryLegs(req.user, req.asset, req.amount, fee))
        case None => None
        case Some(posted) => Some(posted.(requests := b.requests[r := req.(status := RequestCompleted, fee := fee)]))
  }

  // ---- Runs ----

  datatype MarketAction =
    | DoCreateOrder(user: string, side: Side, asset: string, amount: int, price: int, band: Option<(int, int)>)
    | DoCancelOrder(user: string, order: nat)
    | DoTakeOrder(user: string, order: nat, now: int)
    | DoConfirmTrade(user: string, trade: nat, rates: Rates)
    | DoCancelTrade(user: string, trade: nat)
    | DoMarkPaid(user: string, trade: nat, now: int)
    | DoExtendTrade(user: string, trade: nat, now: int)
    | DoOpenDispute(user: string, trade: nat)
    | DoResolveDispute(trade: nat, toBuyer: bool, rates: Rates)
    | DoSweepPayment(trade: nat, engaged: bool)
    | DoSweepRelease(trade: nat)

  datatype PaymentAction =
    | DoFaucet(user: string, asset: string, amount: int, key: string)
    | DoTransfer(user: string, recipient: string, asset: string, amount: int, key: string)
    | DoRequestWithdrawal(user: string, asset: string, amount: int, key: string, rates: Rates)
    | DoBroadcasting(payment: nat)
    | DoSent(payment: nat, txHash: string)
    | DoComplete(payment: nat)
    | DoFail(payment: nat)
    | DoDeposit(transfer: OnChainTransfer, rates: Rates)

  datatype RequestAction =
    | DoCreateRequest(user: string, amount: int, rate: int)
    | DoCancelRequest(user: string, request: nat)
    | DoSubmitEvidence(user: string, request: nat, valid: bool)
    | DoClaimRequest(user: string, request: nat, info: string)
    | DoConfirmRequest(user: string, request: nat, rates: Rates)

  datatype Action = Market(m: MarketAction) | Pay(p: PaymentAction) | Ask(r: RequestAction)

  /** Fee settings are not negative; the settings registry enforces it. */
  predicate SaneRates(r: Rates) { r.minFee >= 0 && r.withdrawNetworkFee >= 0 }

  predicate SaneAction(act: Action) {
    match act
    case Market(DoConfirmTrade(_, _, r)) => SaneRates(r)
    case Market(DoResolveDispute(_, _, r)) => SaneRates(r)
    case Pay(DoRequestWithdrawal(_, _, _, _, r)) => SaneRates(r)
    case Pay(DoDeposit(_, r)) => SaneRates(r)
    case Ask(DoConfirmRequest(_, _, r)) => SaneRates(r)
    case _ => true
  }

  predicate InStage(b: Bank, p: nat, stage: Stage) {
    IsWithdrawal(b, p) && b.payments[p].status == Processing && b.payments[p].kind.stage == stage
  }

  predicate IsSent(b: Bank, p: nat) {
    IsWithdrawal(b, p) && b.payments[p].status == Processing && b.payments[p].kind.stage.Broadcast?
  }

  function AttemptMarket(cfg: BankConfig, b: Bank, act: MarketAction): Option<Bank> {
    match act
    case DoCreateOrder(u, s, a, n, p, band) => CreateOrder(cfg, b, u, s, a, n, p, band)
    case DoCancelOrder(u, o) => CancelOrder(b, u, o)
    case DoTakeOrder(u, o, now) => TakeOrder(b, u, o, now)
    case DoConfirmTrade(u, t, r) => ConfirmTrade(b, u, t, r)
    case DoCancelTrade(u, t) => CancelTrade(b, u, t)
    case DoMarkPaid(u, t, now) => MarkPaid(b, u, t, now)
    case DoExtendTrade(u, t, now) => ExtendTrade(b, u, t, now)
    case DoOpenDispute(u, t) => OpenDispute(b, u, t)
    case DoResolveDispute(t, toBuyer, r) => ResolveDispute(b, t, toBuyer, r)
    case DoSweepPayment(t, engaged) => SweepPayment(b, t, engaged)
    case DoSweepRelease(t) => SweepRelease(b, t)
  }

  function AttemptPayment(cfg: BankConfig, b: Bank, act: PaymentAction): Option<Bank> {
    match act
    case DoFaucet(u, a, n, k) => CreditFaucet(cfg, b, u, a, n, k)
    case DoTransfer(u, r, a, n, k) => SendTransfer(cfg, b, u, r, a, n, k)
    case DoRequestWithdrawal(u, a, n, k, r) => RequestWithdrawal(b, u, a, n, k, r)
    case DoBroadcasting(p) => if InStage(b, p, PendingBroadcast) then Some(SetStage(b, p, Broadcasting)) else None
    case DoSent(p, h) => if InStage(b, p, Broadcasting) then Some(SetStage(b, p, Broadcast(h))) else None
    case DoComplete(p) => if IsSent(b, p) then CompleteWithdrawal(b, p) else None
    case DoFail(p) => if InStage(b, p, Broadcasting) || IsSent(b, p) then Some(FailWithdrawal(b, p)) else None
    case DoDeposit(t, r) => (match CreditDeposit(b, t, r) case Credited(after) => Some(after) case _ => None)
  }

  function AttemptRequest(cfg: BankConfig, b: Bank, act: RequestAction): Option<Bank> {
    match act
    case DoCreateRequest(u, n, r) => CreateRequest(b, u, n, r)
    case DoCancelRequest(u, r) => CancelRequest(b, u, r)
    case DoSubmitEvidence(u, r, v) => SubmitEvidence(b, u, r, v)
    case DoClaimRequest(u, r, i) => ClaimRequest(b, u, r, i)
    case DoConfirmRequest(u, r, rates) => ConfirmRequest(b, u, r, rates)
  }

  function Attempt(cfg: BankConfig, b: Bank, act: Action): Option<Bank> {
    match act
    case Market(m) => AttemptMarket(cfg, b, m)
    case Pay(p) => AttemptPayment(cfg, b, p)
    case Ask(r) => AttemptRequest(cfg, b, r)
  }

  /** A refused operation changes nothing. */
  function Apply(cfg: BankConfig, b: Bank, act: Action): Bank {
    match Attempt(cfg, b, act)
    case Some(after) => after
    case None => b
  }

  function Run(cfg: BankConfig, b: Bank, acts: seq<Action>): Bank
    decreases |acts|
  {
    if |acts| == 0 then b else Run(cfg, Apply(cfg, b, acts[0]), acts[1..])
  }
}
