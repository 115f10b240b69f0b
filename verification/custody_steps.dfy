/** Each operation of the bank keeps the custody invariant. */
module CustodySteps {
  import opened Wrappers
  import opened Fees
  import opened Ledger
  import opened Banking
  import opened Custody

  predicate Live(s: TradeStatus) { s == Pending || s == Paid || s == Disputed }

  predicate SameTerms(x: Trade, y: Trade) {
    x.order == y.order && x.buyer == y.buyer && x.seller == y.seller && x.asset == y.asset && x.amount == y.amount && x.hold == y.hold
  }

  // ---- Trades ----

  /** Marking paid, extending, disputing: a live trade stays live and no money moves. */
  lemma TradeStaysLive(b: Bank, t: nat, trade: Trade)
    requires Inv(b) && t < |b.trades| && Live(b.trades[t].status) && Live(trade.status)
    requires SameTerms(b.trades[t], trade) && GoodTrade(trade)
    ensures Inv(UpdateTrade(b, t, trade))
  {
    var after := UpdateTrade(b, t, trade);
    LiveTradeHolds(b, after, t);
    TradeRowMoney(b, after, t);
    DepositsRequestsSame(b, after);
  }

  lemma LiveTradeHolds(b: Bank, after: Bank, t: nat)
    requires HoldsOwned(b) && t < |b.trades| == |after.trades| && after == b.(trades := b.trades[t := after.trades[t]])
    requires Live(b.trades[t].status) && Live(after.trades[t].status) && SameTerms(b.trades[t], after.trades[t])
    ensures HoldsOwned(after)
  {
    HoldsUntouched(b, after);
  }

  /** A change of trade rows that posts nothing leaves the books alone. */
  lemma TradeRowMoney(b: Bank, after: Bank, t: nat)
    requires MoneyMatches(b) && t < |b.trades| == |after.trades|
    requires after.trades == b.trades[t := after.trades[t]]
    requires TradeLegs(b.trades[t]) == TradeLegs(after.trades[t])
    requires after.entries == b.entries && after.payments == b.payments
    ensures MoneyMatches(after)
  {
    forall a
      ensures Booked(after, a) == Booked(b, a)
    {
      TradesBookedUpdate(b.trades, t, after.trades[t], a);
    }
    NothingPosted(b, after);
  }

  lemma DepositsRequestsSame(b: Bank, after: Bank)
    requires DepositsMatch(b) && RequestsMatch(b)
    requires after.payments == b.payments && after.deposits == b.deposits && after.requests == b.requests
    ensures DepositsMatch(after) && RequestsMatch(after)
  {
  }

  /** Ending a hold can only free money. */
  lemma HeldFallsOnSettling(holds: seq<Hold>, h: nat, status: HoldStatus, a: Account)
    requires h < |holds| && holds[h].amount >= 0 && status != Active
    ensures Held(holds[h := holds[h].(status := status)], a) == Held(holds, a) - ActiveAmount(holds[h], a)
    ensures ActiveAmount(holds[h], a) >= 0
  {
    HeldUpdate(holds, h, holds[h].(status := status), a);
  }

  lemma RefundedHolds(b: Bank, t: nat, status: TradeStatus)
    requires HoldsOwned(b) && t < |b.trades| && b.trades[t].hold.Some? && Live(b.trades[t].status) && status in {Cancelled, Expired}
    ensures HoldsOwned(Refund(b, t, status))
    ensures var h := b.trades[t].hold.value;
            && h < |b.holds| && b.holds[h].amount == b.trades[t].amount
            && Refund(b, t, status).holds == b.holds[h := b.holds[h].(status := Released)]
  {
    var after, h := Refund(b, t, status), b.trades[t].hold.value;
    assert Claims(b, ByTrade(t), h);
    HoldSettled(b, after, ByTrade(t), h);
  }

  lemma TradeRefunded(b: Bank, t: nat, status: TradeStatus)
    requires Inv(b) && t < |b.trades| && Live(b.trades[t].status) && status in {Cancelled, Expired}
    ensures Inv(Refund(b, t, status))
  {
    var after := Refund(b, t, status);
    assert GoodTrade(b.trades[t]);
    RefundedHolds(b, t, status);
    TradeRowMoney(b, after, t);
    DepositsRequestsSame(b, after);
    SettledHoldSolvent(b, after, b.trades[t].hold.value);
  }

  lemma ReleaseMoney(b: Bank, after: Bank, t: nat)
    requires MoneyMatches(b) && t < |b.trades| == |after.trades| && Live(b.trades[t].status)
    requires after.trades == b.trades[t := after.trades[t]] && after.trades[t].status == Completed
    requires var legs := ReleaseLegs(after.trades[t]);
             Postable(legs) && after.entries == b.entries + AsEntries(TradeJournal(t), legs)
    requires after.payments == b.payments
    ensures MoneyMatches(after)
    ensures forall a :: Balance(after.entries, a) == Balance(b.entries, a) + LegsEffect(ReleaseLegs(after.trades[t]), a)
  {
    forall a
      ensures Booked(after, a) == Booked(b, a) + LegsEffect(ReleaseLegs(after.trades[t]), a)
    {
      TradesBookedUpdate(b.trades, t, after.trades[t], a);
    }
    JournalPosted(b, after, TradeJournal(t), ReleaseLegs(after.trades[t]), after.trades[t].asset);
  }

  lemma ReleasedHolds(b: Bank, t: nat, rates: Rates)
    requires HoldsOwned(b) && t < |b.trades| && b.trades[t].hold.Some? && Release(b, t, rates).Some?
    ensures HoldsOwned(Release(b, t, rates).value)
    ensures var after, h := Release(b, t, rates).value, b.trades[t].hold.value;
            h < |b.holds| && b.holds[h] == HoldOf(b, ByTrade(t))
            && after.holds == b.holds[h := b.holds[h].(status := Committed)]
  {
    var after, h := Release(b, t, rates).value, b.trades[t].hold.value;
    assert Claims(b, ByTrade(t), h);
    HoldSettled(b, after, ByTrade(t), h);
  }

  /** The escrow ends and leaves the account in the same step, so the seller's free funds do not move. */
  lemma ReleaseSolvent(b: Bank, after: Bank, h: nat, trade: Trade)
    requires UsersSolvent(b) && 0 <= trade.fee <= trade.amount && h < |b.holds|
    requires b.holds[h] == Hold(UserAccount(trade.seller, trade.asset), trade.amount, Active)
    requires after.holds == b.holds[h := b.holds[h].(status := Committed)]
    requires forall a :: Balance(after.entries, a) == Balance(b.entries, a) + LegsEffect(ReleaseLegs(trade), a)
    ensures UsersSolvent(after)
  {
    forall a: Account | a.owner.User?
      ensures Balance(after.entries, a) >= Held(after.holds, a)
    {
      HeldFallsOnSettling(b.holds, h, Committed, a);
      FeeLegsEffect(Leg(UserAccount(trade.seller, trade.asset), Debit, trade.amount),
                    Leg(UserAccount(trade.buyer, trade.asset), Credit, trade.amount - trade.fee), trade.asset, trade.fee, a);
    }
  }

  lemma ReleasedHoldsAndMoney(b: Bank, t: nat, rates: Rates)
    requires HoldsOwned(b) && MoneyMatches(b) && UsersSolvent(b) && t < |b.trades| && GoodTrade(b.trades[t]) && Live(b.trades[t].status)
    requires SaneRates(rates) && Release(b, t, rates).Some?
    ensures var after := Release(b, t, rates).value; HoldsOwned(after) && MoneyMatches(after) && UsersSolvent(after)
  {
    var after, trade := Release(b, t, rates).value, b.trades[t];
    FeeWithinAmount(trade.amount, rates.p2pPct, rates);
    ReleasedHolds(b, t, rates);
    ReleaseMoney(b, after, t);
    ReleaseSolvent(b, after, trade.hold.value, after.trades[t]);
  }

  lemma TradeReleased(b: Bank, t: nat, rates: Rates)
    requires Inv(b) && t < |b.trades| && Live(b.trades[t].status) && SaneRates(rates)
    requires Release(b, t, rates).Some?
    ensures Inv(Release(b, t, rates).value)
  {
    var after, trade := Release(b, t, rates).value, b.trades[t];
    assert GoodTrade(trade);
    FeeWithinAmount(trade.amount, rates.p2pPct, rates);
    ReleasedHoldsAndMoney(b, t, rates);
    DepositsRequestsSame(b, after);
  }

  // ---- Orders ----

  /** A new hold within the account's free funds keeps its user solvent. */
  lemma {:induction false} NewHoldSolvent(b: Bank, after: Bank, account: Account, amount: int)
    requires UsersSolvent(b) && after.entries == b.entries
    requires Balance(b.entries, account) - Held(b.holds, account) >= amount
    requires after.holds == b.holds + [Hold(account, amount, Active)]
    ensures UsersSolvent(after)
  {
    forall a: Account | a.owner.User?
      ensures Balance(after.entries, a) >= Held(after.holds, a)
    {
      HeldAppend(b.holds, Hold(account, amount, Active), a);
    }
  }

  lemma SettledHoldSolvent(b: Bank, after: Bank, h: nat)
    requires UsersSolvent(b) && after.entries == b.entries && h < |b.holds| && b.holds[h].amount >= 0
    requires after.holds == b.holds[h := b.holds[h].(status := Released)]
    ensures UsersSolvent(after)
  {
    forall a: Account | a.owner.User?
      ensures Balance(after.entries, a) >= Held(after.holds, a)
    {
      HeldFallsOnSettling(b.holds, h, Released, a);
    }
  }

  function WithOrder(b: Bank, order: Order): Bank {
    (if order.side == Sell then AddHold(b, UserAccount(order.maker, order.asset), order.amount) else b)
      .(orders := b.orders + [order])
  }

  lemma OrderCreatedHolds(b: Bank, order: Order)
    requires HoldsOwned(b) && order.status == Open
    requires order.hold == if order.side == Sell then Some(|b.holds|) else None
    ensures HoldsOwned(WithOrder(b, order))
  {
    var after, w := WithOrder(b, order), ByOrder(|b.orders|);
    if order.side == Sell {
      assert forall v, k: nat {:trigger Claims(after, v, k)} :: Claims(after, v, k) <==> Claims(b, v, k) || (v == w && k == |b.holds|);
      HoldCreated(b, after, w);
    } else {
      HoldsUntouched(b, after);
    }
  }

  lemma OrderCreated(b: Bank, order: Order)
    requires Inv(b) && GoodOrder(order) && order.status == Open
    requires order.hold == if order.side == Sell then Some(|b.holds|) else None
    requires order.side == Sell ==> Funds(b, order.maker, order.asset) >= order.amount
    ensures Inv(WithOrder(b, order))
  {
    var after := WithOrder(b, order);
    OrderCreatedHolds(b, order);
    if order.side == Sell {
      NewHoldSolvent(b, after, UserAccount(order.maker, order.asset), order.amount);
    }
    NothingPosted(b, after);
    DepositsRequestsSame(b, after);
  }

  lemma OrderCancelledHolds(b: Bank, user: string, o: nat)
    requires HoldsOwned(b) && CancelOrder(b, user, o).Some?
    ensures var after, order := CancelOrder(b, user, o).value, b.orders[o];
            && HoldsOwned(after)
            && if order.hold.Some? then order.hold.value < |b.holds| && b.holds[order.hold.value].amount == order.amount
                                        && after.holds == b.holds[order.hold.value := b.holds[order.hold.value].(status := Released)]
               else after.holds == b.holds
  {
    var after, order := CancelOrder(b, user, o).value, b.orders[o];
    if order.hold.Some? {
      assert Claims(b, ByOrder(o), order.hold.value);
      HoldSettled(b, after, ByOrder(o), order.hold.value);
    } else {
      HoldsUntouched(b, after);
    }
  }

  lemma OrderCancelledKeeps(b: Bank, user: string, o: nat)
    requires Inv(b) && CancelOrder(b, user, o).Some?
    ensures Inv(CancelOrder(b, user, o).value)
  {
    var after, order := CancelOrder(b, user, o).value, b.orders[o];
    assert GoodOrder(order);
    OrderCancelledHolds(b, user, o);
    if order.hold.Some? {
      SettledHoldSolvent(b, after, order.hold.value);
    }
    NothingPosted(b, after);
    DepositsRequestsSame(b, after);
  }

  /** Taking a sell order hands its hold to the trade; taking a buy order creates one. */
  lemma OrderTakenHolds(b: Bank, taker: string, o: nat, now: int)
    requires HoldsOwned(b) && TakeOrder(b, taker, o, now).Some? && GoodOrder(b.orders[o])
    ensures HoldsOwned(TakeOrder(b, taker, o, now).value)
  {
    var after, order, t := TakeOrder(b, taker, o, now).value, b.orders[o], |b.trades|;
    if order.side == Sell {
      var h := order.hold.value;
      assert Claims(b, ByOrder(o), h);
      assert forall v, k: nat {:trigger Claims(after, v, k)} ::
          Claims(after, v, k) <==> (Claims(b, v, k) && v != ByOrder(o)) || (v == ByTrade(t) && k == h);
      HoldMoved(b, after, ByOrder(o), ByTrade(t), h);
    } else {
      assert forall v, k: nat {:trigger Claims(after, v, k)} ::
          Claims(after, v, k) <==> Claims(b, v, k) || (v == ByTrade(t) && k == |b.holds|);
      HoldCreated(b, after, ByTrade(t));
    }
  }

  /** A new trade that is not completed posts nothing. */
  lemma NewTradeMoney(b: Bank, after: Bank, trade: Trade)
    requires MoneyMatches(b) && TradeLegs(trade) == []
    requires after.trades == b.trades + [trade] && after.payments == b.payments && after.entries == b.entries
    ensures MoneyMatches(after)
  {
    forall a
      ensures Booked(after, a) == Booked(b, a)
    {
      TradesBookedAppend(b.trades, trade, a);
    }
    NothingPosted(b, after);
  }

  lemma OrderTakenMoney(b: Bank, taker: string, o: nat, now: int)
    requires MoneyMatches(b) && TakeOrder(b, taker, o, now).Some?
    ensures MoneyMatches(TakeOrder(b, taker, o, now).value)
  {
    var after := TakeOrder(b, taker, o, now).value;
    NewTradeMoney(b, after, after.trades[|b.trades|]);
  }

  lemma OrderTakenSolvent(b: Bank, taker: string, o: nat, now: int)
    requires UsersSolvent(b) && TakeOrder(b, taker, o, now).Some?
    ensures UsersSolvent(TakeOrder(b, taker, o, now).value)
  {
    var after, order := TakeOrder(b, taker, o, now).value, b.orders[o];
    if order.side == Buy {
      NewHoldSolvent(b, after, UserAccount(taker, order.asset), order.amount);
    }
  }

  lemma OrderTaken(b: Bank, taker: string, o: nat, now: int)
    requires Inv(b) && TakeOrder(b, taker, o, now).Some?
    ensures Inv(TakeOrder(b, taker, o, now).value)
  {
    assert GoodOrder(b.orders[o]);
    OrderTakenHolds(b, taker, o, now);
    OrderTakenMoney(b, taker, o, now);
    OrderTakenSolvent(b, taker, o, now);
    DepositsRequestsSame(b, TakeOrder(b, taker, o, now).value);
  }
}
