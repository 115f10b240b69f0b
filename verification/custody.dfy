/** What every run of the custodial bank keeps: who owns each hold, what the ledger adds up to, and that users stay solvent. */
module Custody {
  import opened Wrappers
  import opened Fees
  import opened Ledger
  import opened Banking

  // ---- Owners of holds ----

  datatype Claimer = ByOrder(o: nat) | ByTrade(t: nat) | ByWithdrawal(p: nat)

  /** Row w is the one that decides about hold h: an order until it is taken, then its trade; or a withdrawal. */
  predicate Claims(b: Bank, w: Claimer, h: nat) {
    match w
    case ByOrder(o) => o < |b.orders| && b.orders[o].status != Taken && b.orders[o].hold == Some(h)
    case ByTrade(t) => t < |b.trades| && b.trades[t].hold == Some(h)
    case ByWithdrawal(p) => IsWithdrawal(b, p) && b.payments[p].kind.hold == h
  }

  predicate HasRow(b: Bank, w: Claimer) {
    match w
    case ByOrder(o) => o < |b.orders|
    case ByTrade(t) => t < |b.trades|
    case ByWithdrawal(p) => IsWithdrawal(b, p)
  }

  ghost predicate Owned(b: Bank, h: nat) {
    exists w :: Claims(b, w, h)
  }

  /** The hold that row w stands for: whose money, how much, and in which status. */
  function HoldOf(b: Bank, w: Claimer): Hold
    requires HasRow(b, w)
  {
    match w
    case ByOrder(o) =>
      var row := b.orders[o];
      Hold(UserAccount(row.maker, row.asset), row.amount, if row.status == Open then Active else Released)
    case ByTrade(t) =>
      var row := b.trades[t];
      Hold(UserAccount(row.seller, row.asset), row.amount,
           match row.status case Completed => Committed case Cancelled => Released case Expired => Released case _ => Active)
    case ByWithdrawal(p) =>
      var row := b.payments[p];
      Hold(UserAccount(row.user, row.asset), row.kind.totalDebit,
           match row.status case PaymentCompleted => Committed case PaymentFailed => Released case Processing => Active)
  }

  /** Every hold has exactly one owner, and is what its owner says. */
  ghost predicate HoldsOwned(b: Bank) {
    && (forall w, h: nat {:trigger Claims(b, w, h)} :: Claims(b, w, h) ==> h < |b.holds| && b.holds[h] == HoldOf(b, w))
    && (forall h: nat :: h < |b.holds| ==> Owned(b, h))
    && (forall v, w, h: nat {:trigger Claims(b, v, h), Claims(b, w, h)} :: Claims(b, v, h) && Claims(b, w, h) ==> v == w)
  }

  ghost predicate SameClaims(b: Bank, after: Bank) {
    forall w, h: nat {:trigger Claims(b, w, h)} {:trigger Claims(after, w, h)} :: Claims(after, w, h) <==> Claims(b, w, h)
  }

  ghost predicate SameDuesExcept(b: Bank, after: Bank, moved: set<Claimer>) {
    forall w, h: nat {:trigger Claims(b, w, h)} {:trigger Claims(after, w, h)} ::
      Claims(b, w, h) && w !in moved ==> Claims(after, w, h) && HoldOf(after, w) == HoldOf(b, w)
  }

  lemma HoldsUntouched(b: Bank, after: Bank)
    requires HoldsOwned(b) && after.holds == b.holds && SameClaims(b, after) && SameDuesExcept(b, after, {})
    ensures HoldsOwned(after)
  {
    forall h: nat | h < |after.holds|
      ensures Owned(after, h)
    {
      assert Owned(b, h);
      var w :| Claims(b, w, h);
      assert Claims(after, w, h);
    }
  }

  lemma HoldSettled(b: Bank, after: Bank, w: Claimer, h: nat)
    requires HoldsOwned(b) && SameClaims(b, after) && SameDuesExcept(b, after, {w}) && Claims(b, w, h)
    requires after.holds == b.holds[h := HoldOf(after, w)]
    ensures HoldsOwned(after)
  {
    assert Claims(after, w, h);
    forall k: nat | k < |after.holds|
      ensures Owned(after, k)
    {
      assert Owned(b, k);
      var v :| Claims(b, v, k);
      assert Claims(after, v, k);
    }
  }

  lemma HoldCreated(b: Bank, after: Bank, w: Claimer)
    requires HoldsOwned(b) && SameDuesExcept(b, after, {})
    requires forall v, k: nat {:trigger Claims(after, v, k)} ::
        Claims(after, v, k) <==> Claims(b, v, k) || (v == w && k == |b.holds|)
    requires Claims(after, w, |b.holds|) && after.holds == b.holds + [HoldOf(after, w)]
    ensures HoldsOwned(after)
  {
    forall k: nat | k < |after.holds|
      ensures Owned(after, k)
    {
      if k < |b.holds| {
        assert Owned(b, k);
        var v :| Claims(b, v, k);
        assert Claims(after, v, k);
      }
    }
  }

  lemma HoldMoved(b: Bank, after: Bank, from: Claimer, to: Claimer, h: nat)
    requires HoldsOwned(b) && SameDuesExcept(b, after, {from}) && Claims(b, from, h)
    requires forall v, k: nat {:trigger Claims(after, v, k)} ::
        Claims(after, v, k) <==> (Claims(b, v, k) && v != from) || (v == to && k == h)
    requires after.holds == b.holds && Claims(after, to, h) && b.holds[h] == HoldOf(after, to)
    ensures HoldsOwned(after)
  {
    forall k: nat | k < |after.holds|
      ensures Owned(after, k)
    {
      assert Owned(b, k);
      var v :| Claims(b, v, k);
      if v == from {
        assert k == h && Claims(after, to, k);
      } else {
        assert Claims(after, v, k);
      }
    }
  }

  // ---- Rows ----

  predicate GoodOrder(o: Order) {
    o.amount > 0 && (o.side == Sell <==> o.hold.Some?)
  }

  predicate GoodTrade(t: Trade) {
    t.amount > 0 && t.hold.Some? && t.buyer != t.seller && 0 <= t.extensions <= MAX_EXTENSIONS && 0 <= t.fee <= t.amount
  }

  predicate GoodPayment(p: Payment) {
    if p.kind.Withdrawal? then
      && p.amount > 0 && p.kind.totalFee >= 0 && p.kind.totalDebit == p.amount + p.kind.totalFee
      && (p.status == PaymentCompleted <==> p.kind.stage == StageCompleted)
      && (p.status == PaymentFailed <==> p.kind.stage == StageFailed)
    else
      && p.status == PaymentCompleted
      && (p.kind.Deposit? ==> p.kind.fee >= 0 && p.amount == p.kind.gross - p.kind.fee)
      && (p.kind.Recharge? ==> p.kind.fee >= 0)
  }

  ghost predicate GoodRows(b: Bank) {
    && (forall i :: 0 <= i < |b.orders| ==> GoodOrder(b.orders[i]))
    && (forall i :: 0 <= i < |b.trades| ==> GoodTrade(b.trades[i]))
    && (forall i :: 0 <= i < |b.payments| ==> GoodPayment(b.payments[i]))
  }

  /** The unique (user, key) index of the payments table. */
  ghost predicate KeysUnique(payments: seq<Payment>) {
    forall i, j :: 0 <= i < j < |payments| ==> payments[i].user != payments[j].user || payments[i].key != payments[j].key
  }

  // ---- Money ----

  function TradeLegs(t: Trade): seq<Leg> {
    if t.status == Completed then ReleaseLegs(t) else []
  }

  /** The journal each payment has posted, if any. */
  function PaymentLegs(p: Payment): seq<Leg> {
    match p.kind
    case Faucet => FaucetLegs(p.user, p.asset, p.amount)
    case Transfer(to) => TransferLegs(p.user, to, p.asset, p.amount)
    case Receive(_) => []
    case Withdrawal(_, _, _, _) => if p.status == PaymentCompleted then WithdrawLegs(p) else []
    case Deposit(gross, fee) => EntryLegs(p.user, p.asset, gross, fee)
    case Recharge(_, fee) => EntryLegs(p.user, p.asset, p.amount, fee)
  }

  function ExpectedLegs(b: Bank, j: Journal): seq<Leg> {
    match j
    case TradeJournal(t) => if t < |b.trades| then TradeLegs(b.trades[t]) else []
    case PaymentJournal(p) => if p < |b.payments| then PaymentLegs(b.payments[p]) else []
  }

  function TradesBooked(trades: seq<Trade>, a: Account): int {
    if |trades| == 0 then 0
    else TradesBooked(trades[..|trades| - 1], a) + LegsEffect(TradeLegs(trades[|trades| - 1]), a)
  }

  function PaymentsBooked(payments: seq<Payment>, a: Account): int {
    if |payments| == 0 then 0
    else PaymentsBooked(payments[..|payments| - 1], a) + LegsEffect(PaymentLegs(payments[|payments| - 1]), a)
  }

  function Booked(b: Bank, a: Account): int {
    TradesBooked(b.trades, a) + PaymentsBooked(b.payments, a)
  }

  /** The ledger holds exactly the journals its business rows call for, and every balance is their sum. */
  ghost predicate MoneyMatches(b: Bank) {
    && (forall j :: LegsOf(b.entries, j) == ExpectedLegs(b, j))
    && (forall a :: Balance(b.entries, a) == Booked(b, a))
    && (forall asset :: Total(b.entries, asset) == 0)
  }

  ghost predicate UsersSolvent(b: Bank) {
    forall a: Account :: a.owner.User? ==> Balance(b.entries, a) >= Held(b.holds, a)
  }

  lemma NothingPosted(b: Bank, after: Bank)
    requires MoneyMatches(b) && after.entries == b.entries
    requires forall j :: ExpectedLegs(after, j) == ExpectedLegs(b, j)
    requires forall a :: Booked(after, a) == Booked(b, a)
    ensures MoneyMatches(after)
  {
  }

  lemma {:induction false} BookedAfterPost(b: Bank, after: Bank, j: Journal, legs: seq<Leg>)
    requires forall a :: Balance(b.entries, a) == Booked(b, a)
    requires after.entries == b.entries + AsEntries(j, legs)
    requires forall a :: Booked(after, a) == Booked(b, a) + LegsEffect(legs, a)
    ensures forall a :: Balance(after.entries, a) == Booked(after, a) == Balance(b.entries, a) + LegsEffect(legs, a)
  {
    forall a
      ensures Balance(after.entries, a) == Booked(after, a) == Balance(b.entries, a) + LegsEffect(legs, a)
    {
      BalanceAfterPost(b.entries, j, legs, a);
    }
  }

  lemma LegsAfterPost(b: Bank, after: Bank, j: Journal, legs: seq<Leg>)
    requires forall k :: LegsOf(b.entries, k) == ExpectedLegs(b, k)
    requires after.entries == b.entries + AsEntries(j, legs)
    requires ExpectedLegs(b, j) == []
    requires forall k :: ExpectedLegs(after, k) == if k == j then legs else ExpectedLegs(b, k)
    ensures forall k :: LegsOf(after.entries, k) == ExpectedLegs(after, k)
  {
    forall k
      ensures LegsOf(after.entries, k) == ExpectedLegs(after, k)
    {
      LegsOfAfterPost(b.entries, j, legs, k);
    }
  }

  lemma {:induction false} JournalPosted(b: Bank, after: Bank, j: Journal, legs: seq<Leg>, asset: string)
    requires MoneyMatches(b) && Postable(legs) && InAsset(legs, asset)
    requires after.entries == b.entries + AsEntries(j, legs)
    requires ExpectedLegs(b, j) == []
    requires forall k :: ExpectedLegs(after, k) == if k == j then legs else ExpectedLegs(b, k)
    requires forall a :: Booked(after, a) == Booked(b, a) + LegsEffect(legs, a)
    ensures MoneyMatches(after)
    ensures forall a :: Balance(after.entries, a) == Balance(b.entries, a) + LegsEffect(legs, a)
  {
    LegsAfterPost(b, after, j, legs);
    BookedAfterPost(b, after, j, legs);
    forall other
      ensures Total(after.entries, other) == 0
    {
      TotalAfterPost(b.entries, j, legs, asset, other);
    }
  }

  lemma UpdateBeforeLast<T>(s: seq<T>, i: nat, x: T)
    requires i + 1 < |s|
    ensures s == s[..|s| - 1] + [s[|s| - 1]] && s[i := x] == s[..|s| - 1][i := x] + [s[|s| - 1]]
  {
  }

  lemma {:induction false} TradesBookedUpdate(trades: seq<Trade>, i: nat, t: Trade, a: Account)
    requires i < |trades|
    ensures TradesBooked(trades[i := t], a)
            == TradesBooked(trades, a) - LegsEffect(TradeLegs(trades[i]), a) + LegsEffect(TradeLegs(t), a)
  {
    var after := trades[i := t];
    if i == |trades| - 1 {
      assert after[..i] == trades[..i];
    } else {
      TradesBookedUpdate(trades[..|trades| - 1], i, t, a);
      assert after[..|trades| - 1] == trades[..|trades| - 1][i := t];
    }
  }

  lemma {:induction false} PaymentsBookedUpdate(payments: seq<Payment>, i: nat, p: Payment, a: Account)
    requires i < |payments|
    ensures PaymentsBooked(payments[i := p], a)
            == PaymentsBooked(payments, a) - LegsEffect(PaymentLegs(payments[i]), a) + LegsEffect(PaymentLegs(p), a)
  {
    var after := payments[i := p];
    if i == |payments| - 1 {
      assert after == payments[..i] + [p] && payments == payments[..i] + [payments[i]];
      PaymentsBookedAppend(payments[..i], p, a);
      PaymentsBookedAppend(payments[..i], payments[i], a);
    } else {
      var shorter, last := payments[..|payments| - 1], payments[|payments| - 1];
      PaymentsBookedUpdate(shorter, i, p, a);
      UpdateBeforeLast(payments, i, p);
      PaymentsBookedAppend(shorter, last, a);
      PaymentsBookedAppend(shorter[i := p], last, a);
    }
  }

  lemma {:induction false} PaymentsBookedAppend(payments: seq<Payment>, p: Payment, a: Account)
    ensures PaymentsBooked(payments + [p], a) == PaymentsBooked(payments, a) + LegsEffect(PaymentLegs(p), a)
  {
    assert (payments + [p])[..|payments|] == payments;
  }

  lemma {:induction false} TradesBookedAppend(trades: seq<Trade>, t: Trade, a: Account)
    ensures TradesBooked(trades + [t], a) == TradesBooked(trades, a) + LegsEffect(TradeLegs(t), a)
  {
    assert (trades + [t])[..|trades|] == trades;
  }

  lemma {:induction false} PairEffect(x: Leg, y: Leg, a: Account)
    ensures LegsEffect([x, y], a) == LegEffect(x, a) + LegEffect(y, a)
  {
    assert [x, y][..1] == [x] && [x][..0] == [] && LegsEffect([], a) == 0;
    assert LegsEffect([x], a) == LegEffect(x, a);
  }

  /** Two legs and an optional fee leg, as almost every journal here is. */
  lemma {:induction false} FeeLegsEffect(x: Leg, y: Leg, asset: string, fee: int, a: Account)
    ensures LegsEffect([x, y] + FeeLeg(asset, fee), a)
            == LegEffect(x, a) + LegEffect(y, a) + if fee > 0 && a == FeeAccount(asset) then fee else 0
  {
    PairEffect(x, y, a);
    var legs := [x, y] + FeeLeg(asset, fee);
    if fee > 0 {
      assert legs[..2] == [x, y];
    } else {
      assert legs == [x, y];
    }
  }

  // ---- Deposits and recharges ----

  predicate Backs(p: Payment, d: ChainDeposit) {
    p.kind.Deposit? && p.kind.gross == d.amount && p.user == d.user && p.asset == d.asset
  }

  ghost predicate TransfersDistinct(deposits: seq<ChainDeposit>) {
    forall i, j :: 0 <= i < j < |deposits| ==>
      deposits[i].network != deposits[j].network || deposits[i].txHash != deposits[j].txHash || deposits[i].logIndex != deposits[j].logIndex
  }

  ghost predicate BackersDistinct(deposits: seq<ChainDeposit>) {
    forall i, j :: 0 <= i < j < |deposits| ==> deposits[i].payment != deposits[j].payment
  }

  ghost predicate DepositsBacked(deposits: seq<ChainDeposit>, payments: seq<Payment>) {
    forall i :: 0 <= i < |deposits| ==> deposits[i].payment < |payments| && Backs(payments[deposits[i].payment], deposits[i])
  }

  ghost predicate DepositPaymentsListed(deposits: seq<ChainDeposit>, payments: seq<Payment>) {
    forall p :: 0 <= p < |payments| && payments[p].kind.Deposit? ==> exists i :: 0 <= i < |deposits| && deposits[i].payment == p
  }

  /** Credited transfers are unique, and correspond one to one to deposit payments. */
  ghost predicate DepositsMatch(b: Bank) {
    && TransfersDistinct(b.deposits) && BackersDistinct(b.deposits)
    && DepositsBacked(b.deposits, b.payments) && DepositPaymentsListed(b.deposits, b.payments)
  }

  predicate Pays(p: Payment, r: nat, req: Request) {
    p.kind.Recharge? && p.kind.request == r && p.user == req.user && p.asset == req.asset && p.amount == req.amount && p.kind.fee == req.fee
  }

  /** A recharge is credited exactly when its request is completed, and only once. */
  ghost predicate RequestsMatch(b: Bank) {
    && (forall p :: 0 <= p < |b.payments| && b.payments[p].kind.Recharge? ==>
          var r := b.payments[p].kind.request;
          r < |b.requests| && b.requests[r].status == RequestCompleted && Pays(b.payments[p], r, b.requests[r]))
    && (forall r: nat :: r < |b.requests| && b.requests[r].status == RequestCompleted ==>
          exists p :: 0 <= p < |b.payments| && Pays(b.payments[p], r, b.requests[r]))
    && (forall p, q :: 0 <= p < q < |b.payments| && b.payments[p].kind.Recharge? && b.payments[q].kind.Recharge? ==>
          b.payments[p].kind.request != b.payments[q].kind.request)
  }

  ghost predicate Inv(b: Bank) {
    && GoodRows(b) && KeysUnique(b.payments) && HoldsOwned(b) && MoneyMatches(b) && UsersSolvent(b)
    && DepositsMatch(b) && RequestsMatch(b)
  }

  lemma EmptyInv()
    ensures Inv(EMPTY)
  {
  }
}
