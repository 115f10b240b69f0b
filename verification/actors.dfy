/**
 * Who may do what (src/marketplace/p2p-market.service.ts, src/recharge/recharge.service.ts): every
 * change of a trade, an order or a recharge request is the work of the one operation and the one
 * actor named here, and each of them succeeds exactly then.
 */
module Actors {
  import opened Wrappers
  import opened Money
  import opened Fees
  import opened Ledger
  import opened Banking
  import opened Custody
  import opened CustodySteps
  import opened CustodyPayments
  import opened CustodyRuns

  const MINUTE := 60_000

  // ---- Trades ----

  /** The operations of the market on trade t. */
  predicate OnTrade(act: Action, t: nat) {
    act.Market? && !act.m.DoCreateOrder? && !act.m.DoCancelOrder? && !act.m.DoTakeOrder? && act.m.trade == t
  }

  /** The fee of a release leaves something for the buyer, without which its journal is refused. */
  predicate LeavesSomething(amount: int, pct: int, minFee: int) {
    minFee < amount && pct < ONE
  }

  /** The seller confirms before or after the payment was marked, or a dispute is decided for the buyer. */
  predicate Completes(was: Trade, act: Action, t: nat) {
    && OnTrade(act, t)
    && (|| (act.m.DoConfirmTrade? && act.m.user == was.seller && (was.status == Pending || was.status == Paid))
        || (act.m.DoResolveDispute? && act.m.toBuyer && was.status == Disputed))
    && LeavesSomething(was.amount, act.m.rates.p2pPct, act.m.rates.minFee)
  }

  /** The buyer marks the payment. */
  predicate Pays(was: Trade, act: Action, t: nat) {
    OnTrade(act, t) && act.m.DoMarkPaid? && act.m.user == was.buyer && was.status == Pending
  }

  /** One of the two cancels before the payment is marked, or a dispute is decided for the seller. */
  predicate Cancels(was: Trade, act: Action, t: nat) {
    && OnTrade(act, t)
    && (|| (act.m.DoCancelTrade? && act.m.user in {was.buyer, was.seller} && was.status == Pending)
        || (act.m.DoResolveDispute? && !act.m.toBuyer && was.status == Disputed))
  }

  /** One of the two opens a dispute, or the timeout worker does for a payment after contact, or for a late release. */
  predicate Disputes(was: Trade, act: Action, t: nat) {
    && OnTrade(act, t)
    && (|| (act.m.DoOpenDispute? && act.m.user in {was.buyer, was.seller} && (was.status == Pending || was.status == Paid))
        || (act.m.DoSweepPayment? && act.m.engaged && was.status == Pending)
        || (act.m.DoSweepRelease? && was.status == Paid))
  }

  /** The timeout worker ends a payment without contact. */
  predicate Expires(was: Trade, act: Action, t: nat) {
    OnTrade(act, t) && act.m.DoSweepPayment? && !act.m.engaged && was.status == Pending
  }

  /** One of the two postpones the running deadline, at most twice in all. */
  predicate Extends(was: Trade, act: Action, t: nat) {
    && OnTrade(act, t) && act.m.DoExtendTrade? && act.m.user in {was.buyer, was.seller}
    && (was.status == Pending || was.status == Paid) && was.extensions < 2
  }

  /** A quarter of an hour after the deadline, or after now if there is none or it has passed. */
  predicate PostponedTo(was: Option<int>, now: int, later: Option<int>) {
    && later.Some?
    && (was.Some? && was.value >= now ==> later.value == was.value + 15 * MINUTE)
    && (was.None? || was.value < now ==> later.value == now + 15 * MINUTE)
  }

  predicate Extended(was: Trade, at: int, after: Trade) {
    && after == was.(extensions := was.extensions + 1, paymentDeadline := after.paymentDeadline, releaseDeadline := after.releaseDeadline)
    && if was.status == Pending then PostponedTo(was.paymentDeadline, at, after.paymentDeadline) && after.releaseDeadline == was.releaseDeadline
       else PostponedTo(was.releaseDeadline, at, after.releaseDeadline) && after.paymentDeadline == was.paymentDeadline
  }

  /** The whole row after an operation, in every case. */
  ghost predicate TradeRow(was: Trade, act: Action, t: nat, after: Trade) {
    if Completes(was, act, t) then
      && after == was.(status := Completed, fee := after.fee)
      && IsFee(was.amount, act.m.rates.p2pPct, act.m.rates.minFee, after.fee)
    else if Pays(was, act, t) then after == was.(status := Paid, releaseDeadline := Some(act.m.now + 30 * MINUTE))
    else if Cancels(was, act, t) then after == was.(status := Cancelled)
    else if Disputes(was, act, t) then after == was.(status := Disputed)
    else if Expires(was, act, t) then after == was.(status := Expired)
    else if Extends(was, act, t) then Extended(was, act.m.now, after)
    else after == was
  }

  lemma ReleaseSucceedsExactlyWhen(b: Bank, t: nat, rates: Rates)
    requires Inv(b) && t < |b.trades| && SaneRates(rates)
    ensures Release(b, t, rates).Some? <==> LeavesSomething(b.trades[t].amount, rates.p2pPct, rates.minFee)
    ensures Release(b, t, rates).Some? ==>
              var was, after := b.trades[t], Release(b, t, rates).value.trades;
              && |after| == |b.trades| && after[t] == was.(status := Completed, fee := after[t].fee)
              && (forall s: nat :: s < |b.trades| && s != t ==> after[s] == b.trades[s])
              && IsFee(was.amount, rates.p2pPct, rates.minFee, after[t].fee)
  {
    var was := b.trades[t];
    assert GoodTrade(was);
    var fee := QuoteP2p(was.amount, rates).platformFee;
    P2pFee(was.amount, rates);
    FeeBelowAmount(was.amount, rates.p2pPct, rates.minFee, fee);
    FeeWithinAmount(was.amount, rates.p2pPct, rates);
    ReleaseJournalAccepted(was.(status := Completed, fee := fee));
  }

  lemma ConfirmChangesTrade(b: Bank, act: Action, t: nat)
    requires Inv(b) && SaneAction(act) && t < |b.trades| && act.Market? && act.m.DoConfirmTrade?
    ensures var after := ConfirmTrade(b, act.m.user, act.m.trade, act.m.rates).GetOr(b);
            t < |after.trades| && TradeRow(b.trades[t], act, t, after.trades[t])
  {
    if act.m.trade < |b.trades| {
      ReleaseSucceedsExactlyWhen(b, act.m.trade, act.m.rates);
    }
  }

  lemma ResolutionChangesTrade(b: Bank, act: Action, t: nat)
    requires Inv(b) && SaneAction(act) && t < |b.trades| && act.Market? && act.m.DoResolveDispute?
    ensures var after := ResolveDispute(b, act.m.trade, act.m.toBuyer, act.m.rates).GetOr(b);
            t < |after.trades| && TradeRow(b.trades[t], act, t, after.trades[t])
  {
    if act.m.trade < |b.trades| {
      ReleaseSucceedsExactlyWhen(b, act.m.trade, act.m.rates);
    }
  }

  lemma MarketChangesTrade(cfg: BankConfig, b: Bank, act: MarketAction, t: nat)
    requires t < |b.trades| && !act.DoConfirmTrade? && !act.DoResolveDispute?
    ensures var after := AttemptMarket(cfg, b, act).GetOr(b);
            t < |after.trades| && TradeRow(b.trades[t], Market(act), t, after.trades[t])
  {
  }

  lemma OthersKeepTrades(cfg: BankConfig, b: Bank, act: Action)
    requires !act.Market?
    ensures Apply(cfg, b, act).trades == b.trades && Apply(cfg, b, act).orders == b.orders
  {
  }

  /** Whatever operation is performed by whomever: what becomes of any trade. */
  lemma TradesChangeExactlyAsNamed(cfg: BankConfig, b: Bank, act: Action, t: nat)
    requires Inv(b) && SaneAction(act) && t < |b.trades|
    ensures t < |Apply(cfg, b, act).trades| && TradeRow(b.trades[t], act, t, Apply(cfg, b, act).trades[t])
  {
    match act
    case Market(m) =>
      if m.DoConfirmTrade? {
        ConfirmChangesTrade(b, act, t);
      } else if m.DoResolveDispute? {
        ResolutionChangesTrade(b, act, t);
      } else {
        MarketChangesTrade(cfg, b, m, t);
      }
    case _ => OthersKeepTrades(cfg, b, act);
  }

  // ---- Orders ----

  /** Somebody other than the maker takes an open order; a taker who sells must have the amount to spare. */
  predicate Takes(b: Bank, act: Action, o: nat) {
    && act.Market? && act.m.DoTakeOrder? && act.m.order == o
    && o < |b.orders| && b.orders[o].status == Open && act.m.user != b.orders[o].maker
    && (b.orders[o].side == Buy ==> Funds(b, act.m.user, b.orders[o].asset) >= b.orders[o].amount)
  }

  /** The maker withdraws an open order. */
  predicate Withdraws(was: Order, act: Action, o: nat) {
    act.Market? && act.m.DoCancelOrder? && act.m.order == o && act.m.user == was.maker && was.status == Open
  }

  /** A known asset, a positive amount and price, the price within the band if there is one, and funds for what is sold. */
  predicate Offers(cfg: BankConfig, b: Bank, act: Action) {
    && act.Market? && act.m.DoCreateOrder? && act.m.asset in cfg.assets && act.m.amount > 0 && act.m.price > 0
    && (act.m.band.Some? ==> act.m.band.value.0 <= act.m.price <= act.m.band.value.1)
    && (act.m.side == Sell ==> Funds(b, act.m.user, act.m.asset) >= act.m.amount)
  }

  ghost predicate OrderRow(b: Bank, act: Action, o: nat, after: Order)
    requires o < |b.orders|
  {
    after == if Takes(b, act, o) then b.orders[o].(status := Taken)
             else if Withdraws(b.orders[o], act, o) then b.orders[o].(status := OrderCancelled)
             else b.orders[o]
  }

  lemma OrdersChangeExactlyAsNamed(cfg: BankConfig, b: Bank, act: Action, o: nat)
    requires o < |b.orders|
    ensures o < |Apply(cfg, b, act).orders| && OrderRow(b, act, o, Apply(cfg, b, act).orders[o])
  {
    if !act.Market? {
      OthersKeepTrades(cfg, b, act);
    }
  }

  predicate NewOrderRow(act: Action, after: Order)
    requires act.Market? && act.m.DoCreateOrder?
  {
    && after.maker == act.m.user && after.side == act.m.side && after.asset == act.m.asset && after.amount == act.m.amount
    && after.status == Open && (after.hold.Some? <==> act.m.side == Sell)
  }

  /** The taker of an offer to sell buys, the taker of an offer to buy sells; the payment is due in a quarter of an hour. */
  predicate NewTradeRow(order: Order, act: Action, after: Trade)
    requires act.Market? && act.m.DoTakeOrder?
  {
    && (order.side == Sell ==> after.buyer == act.m.user && after.seller == order.maker)
    && (order.side == Buy ==> after.buyer == order.maker && after.seller == act.m.user)
    && after.order == act.m.order && after.asset == order.asset && after.amount == order.amount
    && after.status == Pending && after.extensions == 0 && after.fee == 0
    && after.paymentDeadline == Some(act.m.now + 15 * MINUTE) && after.releaseDeadline.None?
  }

  lemma RowsAppearExactlyAsNamed(cfg: BankConfig, b: Bank, act: Action)
    ensures var after := Apply(cfg, b, act);
            && |after.orders| == |b.orders| + (if Offers(cfg, b, act) then 1 else 0)
            && (Offers(cfg, b, act) ==> NewOrderRow(act, after.orders[|b.orders|]))
    ensures var after := Apply(cfg, b, act);
            var taken := act.Market? && act.m.DoTakeOrder? && Takes(b, act, act.m.order);
            && |after.trades| == |b.trades| + (if taken then 1 else 0)
            && (taken ==> NewTradeRow(b.orders[act.m.order], act, after.trades[|b.trades|]))
  {
    if !act.Market? {
      OthersKeepTrades(cfg, b, act);
    }
  }

  // ---- Recharge requests ----

  predicate OnRequest(act: Action, r: nat) {
    act.Ask? && !act.r.DoCreateRequest? && act.r.request == r
  }

  /** Somebody other than the requester claims a pending request and says where to pay. */
  predicate ClaimsRequest(was: Request, act: Action, r: nat) {
    && OnRequest(act, r) && act.r.DoClaimRequest? && act.r.user != was.user && was.status == RequestPending
    && exists i :: 0 <= i < |act.r.info| && !IsSpace(act.r.info[i])
  }

  /** The requester of a claimed request shows the payment. */
  predicate ShowsPayment(was: Request, act: Action, r: nat) {
    OnRequest(act, r) && act.r.DoSubmitEvidence? && act.r.valid && act.r.user == was.user && was.status == RequestClaimed
  }

  /** The requester gives up before the payment is shown. */
  predicate GivesUp(was: Request, act: Action, r: nat) {
    OnRequest(act, r) && act.r.DoCancelRequest? && act.r.user == was.user && (was.status == RequestPending || was.status == RequestClaimed)
  }

  /** The one who claimed it confirms, unless the key of its payment is taken or the fee leaves nothing. */
  predicate Confirms(b: Bank, act: Action, r: nat)
    requires r < |b.requests|
  {
    var was := b.requests[r];
    && OnRequest(act, r) && act.r.DoConfirmRequest? && was.operator == Some(act.r.user)
    && (was.status == RequestClaimed || was.status == RequestPaid)
    && (forall p :: 0 <= p < |b.payments| ==> b.payments[p].user != was.user || b.payments[p].key != "recharge:" + Digits(r))
    && LeavesSomething(was.amount, act.r.rates.depositPct, act.r.rates.minFee)
  }

  ghost predicate RequestRow(b: Bank, act: Action, r: nat, after: Request)
    requires r < |b.requests|
  {
    var was := b.requests[r];
    if ClaimsRequest(was, act, r) then after == was.(operator := Some(act.r.user), status := RequestClaimed)
    else if ShowsPayment(was, act, r) then after == was.(status := RequestPaid)
    else if GivesUp(was, act, r) then after == was.(status := RequestCancelled)
    else if Confirms(b, act, r) then
      after == was.(status := RequestCompleted, fee := after.fee) && IsFee(was.amount, act.r.rates.depositPct, act.r.rates.minFee, after.fee)
    else after == was
  }

  lemma {:induction false} BlankExactlyWhen(s: string)
    ensures Trim(s) == "" <==> forall i :: 0 <= i < |s| ==> IsSpace(s[i])
    decreases |s|
  {
    if |s| > 0 && IsSpace(s[0]) {
      BlankExactlyWhen(s[1..]);
      assert forall i :: 1 <= i < |s| ==> s[i] == s[1..][i - 1];
    } else if |s| > 0 && IsSpace(s[|s| - 1]) {
      BlankExactlyWhen(s[..|s| - 1]);
    }
  }

  lemma ConfirmationSucceedsExactlyWhen(cfg: BankConfig, b: Bank, act: Action, r: nat)
    requires SaneAction(act) && r < |b.requests| && OnRequest(act, r) && act.r.DoConfirmRequest?
    ensures var after := ConfirmRequest(b, act.r.user, r, act.r.rates);
            && (after.Some? <==> Confirms(b, act, r))
            && (after.Some? ==> after.value.requests == b.requests[r := after.value.requests[r]] && RequestRow(b, act, r, after.value.requests[r]))
  {
    var was, rates := b.requests[r], act.r.rates;
    var fee, legs := QuoteDeposit(was.amount, rates).platformFee, EntryLegs(was.user, was.asset, was.amount, QuoteDeposit(was.amount, rates).platformFee);
    if was.amount > 0 {
      DepositFee(was.amount, rates);
      FeeWithinAmount(was.amount, rates.depositPct, rates);
      FeeBelowAmount(was.amount, rates.depositPct, rates.minFee, fee);
      EntryJournalAccepted(was.user, was.asset, was.amount, fee);
    } else {
      assert legs[0].amount <= 0;
    }
  }

  lemma OthersKeepRequests(cfg: BankConfig, b: Bank, act: Action)
    requires !act.Ask?
    ensures Apply(cfg, b, act).requests == b.requests
  {
  }

  lemma RequestsChangeExactlyAsNamed(cfg: BankConfig, b: Bank, act: Action, r: nat)
    requires SaneAction(act) && r < |b.requests|
    ensures r < |Apply(cfg, b, act).requests| && RequestRow(b, act, r, Apply(cfg, b, act).requests[r])
  {
    if !act.Ask? {
      OthersKeepRequests(cfg, b, act);
    } else if act.r.DoConfirmRequest? {
      if act.r.request < |b.requests| {
        ConfirmationSucceedsExactlyWhen(cfg, b, act, act.r.request);
      }
    } else if act.r.DoClaimRequest? {
      BlankExactlyWhen(act.r.info);
    }
  }

  predicate Requests(act: Action) {
    act.Ask? && act.r.DoCreateRequest? && act.r.amount > 0 && act.r.rate > 0
  }

  lemma RequestsAppearExactlyAsNamed(cfg: BankConfig, b: Bank, act: Action)
    ensures var after := Apply(cfg, b, act);
            && |after.requests| == |b.requests| + (if Requests(act) then 1 else 0)
            && (Requests(act) ==>
                  var row := after.requests[|b.requests|];
                  row == Request(act.r.user, None, "USDC", act.r.amount, act.r.rate, row.fiat, RequestPending, 0))
  {
    if !act.Ask? {
      OthersKeepRequests(cfg, b, act);
    }
  }

  // ---- Over whole runs ----

  predicate Turns(was: Trade, act: Action, t: nat, status: TradeStatus) {
    match status
    case Pending => false
    case Paid => Pays(was, act, t)
    case Completed => Completes(was, act, t)
    case Cancelled => Cancels(was, act, t)
    case Disputed => Disputes(was, act, t)
    case Expired => Expires(was, act, t)
  }

  /** The bank before operation k of a run from the empty bank. */
  function Before(cfg: BankConfig, acts: seq<Action>, k: nat): Bank
    requires k <= |acts|
  {
    Run(cfg, EMPTY, acts[..k])
  }

  /** Operation k gave the trade its present status and, unless it was extended after being paid, its present row. */
  ghost predicate TurnedAt(cfg: BankConfig, acts: seq<Action>, k: nat, t: nat, now: Trade) {
    && k < |acts| && t < |Before(cfg, acts, k).trades|
    && var was := Before(cfg, acts, k).trades[t];
       Turns(was, acts[k], t, now.status) && (now.status != Paid ==> TradeRow(was, acts[k], t, now))
  }

  /** Operation k made the trade, between its present buyer and seller. */
  ghost predicate MadeAt(cfg: BankConfig, acts: seq<Action>, k: nat, t: nat, now: Trade) {
    && k < |acts| && |Before(cfg, acts, k).trades| == t
    && var b, act := Before(cfg, acts, k), acts[k];
       && act.Market? && act.m.DoTakeOrder? && Takes(b, act, act.m.order)
       && exists made :: NewTradeRow(b.orders[act.m.order], act, made) && SameTerms(made, now)
  }

  /** Over any run: who made a trade, and who brought it where it is. */
  lemma {:induction false} TradesTurnByTheirActors(cfg: BankConfig, acts: seq<Action>, t: nat)
    requires SaneRun(acts) && t < |Run(cfg, EMPTY, acts).trades|
    ensures var now := Run(cfg, EMPTY, acts).trades[t];
            && (exists k :: MadeAt(cfg, acts, k, t, now))
            && (now.status != Pending ==> exists k :: TurnedAt(cfg, acts, k, t, now))
    decreases |acts|
  {
    var now, earlier, act := Run(cfg, EMPTY, acts).trades[t], acts[..|acts| - 1], acts[|acts| - 1];
    assert acts == earlier + [act];
    RunSnoc(cfg, EMPTY, earlier, act);
    var b := Run(cfg, EMPTY, earlier);
    assert Before(cfg, acts, |acts| - 1) == b;
    EmptyInv();
    RunKeepsInv(cfg, EMPTY, earlier);
    RowsAppearExactlyAsNamed(cfg, b, act);
    if t < |b.trades| {
      TradesTurnByTheirActors(cfg, earlier, t);
      TradesChangeExactlyAsNamed(cfg, b, act, t);
      TradeTurns(cfg, earlier, acts, t);
    } else {
      assert MadeAt(cfg, acts, |acts| - 1, t, now);
    }
  }

  lemma StillMade(cfg: BankConfig, acts: seq<Action>, k: nat, t: nat, was: Trade, now: Trade)
    requires |acts| > 0 && MadeAt(cfg, acts[..|acts| - 1], k, t, was) && SameTerms(was, now)
    ensures MadeAt(cfg, acts, k, t, now)
  {
    assert acts[..|acts| - 1][..k] == acts[..k];
    var b, act := Before(cfg, acts, k), acts[k];
    var made :| NewTradeRow(b.orders[act.m.order], act, made) && SameTerms(made, was);
    assert SameTerms(made, now);
  }

  lemma StillTurned(cfg: BankConfig, acts: seq<Action>, k: nat, t: nat, was: Trade, now: Trade)
    requires |acts| > 0 && TurnedAt(cfg, acts[..|acts| - 1], k, t, was) && was.status == now.status
    requires now == was || now.status == Paid
    ensures TurnedAt(cfg, acts, k, t, now)
  {
    assert acts[..|acts| - 1][..k] == acts[..k];
  }

  /** What a row says of the operation behind it. */
  lemma RowTurns(was: Trade, act: Action, t: nat, after: Trade)
    requires TradeRow(was, act, t, after)
    ensures SameTerms(was, after) && (after.status == Pending ==> was.status == Pending)
    ensures after.status == was.status ==> after == was || was.status == Pending || was.status == Paid
    ensures after.status != was.status ==> Turns(was, act, t, after.status)
  {
  }

  /** One more operation on a trade that exists. */
  lemma {:induction false} TradeTurns(cfg: BankConfig, earlier: seq<Action>, acts: seq<Action>, t: nat)
    requires |acts| > 0 && earlier == acts[..|acts| - 1]
    requires t < |Before(cfg, acts, |acts| - 1).trades| && t < |Run(cfg, EMPTY, acts).trades|
    requires var was, now := Before(cfg, acts, |acts| - 1).trades[t], Run(cfg, EMPTY, acts).trades[t];
             && TradeRow(was, acts[|acts| - 1], t, now)
             && (exists k :: MadeAt(cfg, earlier, k, t, was))
             && (was.status != Pending ==> exists k :: TurnedAt(cfg, earlier, k, t, was))
    ensures var now := Run(cfg, EMPTY, acts).trades[t];
            && (exists k :: MadeAt(cfg, acts, k, t, now))
            && (now.status != Pending ==> exists k :: TurnedAt(cfg, acts, k, t, now))
  {
    var n := |acts| - 1;
    var was, now := Before(cfg, acts, n).trades[t], Run(cfg, EMPTY, acts).trades[t];
    RowTurns(was, acts[n], t, now);
    var k :| MadeAt(cfg, earlier, k, t, was);
    StillMade(cfg, acts, k, t, was, now);
    if now.status == was.status && now.status != Pending {
      var j :| TurnedAt(cfg, earlier, j, t, was);
      StillTurned(cfg, acts, j, t, was, now);
    } else if now.status != Pending {
      assert TurnedAt(cfg, acts, n, t, now);
    }
  }
}
