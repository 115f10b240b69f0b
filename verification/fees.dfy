/** Platform fees in base units (src/fees/fee.service.ts). A rate is a fraction in units of 10^-18. */
module Fees {
  import opened Wrappers
  import opened Money

  datatype Rates = Rates(p2pPct: int, depositPct: int, withdrawPct: int, withdrawNetworkFee: int, minFee: int)

  datatype Quote = Quote(platformFee: int, networkFee: int, totalFee: int, net: int, total: int)

  /** Division of the source's big integers rounds towards zero. */
  function TruncDiv(a: int, b: int): int
    requires b > 0
  {
    if a >= 0 then a / b else -(-a / b)
  }

  /** The percentage, raised to the minimum fee, capped at the amount. */
  function Percent(amount: int, pct: int, minFee: int): int {
    var raw := TruncDiv(amount * pct, ONE);
    var fee := if raw < minFee then minFee else raw;
    if fee > amount then amount else fee
  }

  /** The same on decimal texts, as the source writes it. */
  function PercentText(amount: string, pct: string, minFee: string): Option<string> {
    match (ToBase(amount), ToBase(pct), ToBase(minFee))
    case (Some(a), Some(p), Some(m)) =>
      var computed := FromBase(TruncDiv(a * p, ONE));
      var floored := if CmpStr(computed, minFee) == Some(-1) then minFee else computed;
      Some(if CmpStr(floored, amount) == Some(1) then amount else floored)
    case _ => None
  }

  lemma PercentTextIsExact(amount: string, pct: string, minFee: string)
    requires ToBase(amount).Some? && ToBase(pct).Some? && ToBase(minFee).Some?
    ensures PercentText(amount, pct, minFee).Some?
    ensures ToBase(PercentText(amount, pct, minFee).value)
            == Some(Percent(ToBase(amount).value, ToBase(pct).value, ToBase(minFee).value))
  {
    var a, p, m := ToBase(amount).value, ToBase(pct).value, ToBase(minFee).value;
    var computed := FromBase(TruncDiv(a * p, ONE));
    ToBaseFromBase(TruncDiv(a * p, ONE));
    CmpStrIsExact(computed, minFee);
    var floored := if CmpStr(computed, minFee) == Some(-1) then minFee else computed;
    CmpStrIsExact(floored, amount);
  }

  /** P2P releases, deposits and recharges: the fee comes out of the amount. */
  function QuoteEntry(amount: int, pct: int, rates: Rates): Quote {
    var fee := Percent(amount, pct, rates.minFee);
    Quote(fee, 0, fee, amount - fee, amount)
  }

  function QuoteP2p(amount: int, rates: Rates): Quote { QuoteEntry(amount, rates.p2pPct, rates) }

  function QuoteDeposit(amount: int, rates: Rates): Quote { QuoteEntry(amount, rates.depositPct, rates) }

  /** Withdrawals: the user pays the fees on top. */
  function QuoteWithdraw(amount: int, rates: Rates): Quote {
    var platformFee := Percent(amount, rates.withdrawPct, rates.minFee);
    var totalFee := platformFee + rates.withdrawNetworkFee;
    Quote(platformFee, rates.withdrawNetworkFee, totalFee, amount, amount + totalFee)
  }

  /** For any rate at all: the fee is between zero and the amount, and nothing is lost between fee and net. */
  lemma FeeWithinAmount(amount: int, pct: int, rates: Rates)
    requires amount >= 0 && rates.minFee >= 0
    ensures var q := QuoteEntry(amount, pct, rates);
            && 0 <= q.platformFee <= amount && 0 <= q.net <= amount
            && q.net + q.totalFee == q.total == amount
  {
  }

  lemma WithdrawalCost(amount: int, rates: Rates)
    requires amount >= 0 && rates.minFee >= 0 && rates.withdrawNetworkFee >= 0
    ensures var q := QuoteWithdraw(amount, rates);
            && q.net == amount && q.total == amount + q.totalFee
            && 0 <= q.platformFee <= amount && q.totalFee == q.platformFee + q.networkFee >= q.platformFee
  {
  }

  lemma DivisionGap(x: int, y: int, d: int)
    requires x <= y <= x + d * ONE
    ensures 0 <= y / ONE - x / ONE <= d
  {
  }

  lemma Distributes(a: int, b: int, pct: int)
    ensures (a + b) * pct == a * pct + b * pct
  {
  }

  lemma ShareOf(x: int, pct: int, whole: int)
    requires 0 <= x && 0 <= pct <= whole
    ensures 0 <= x * pct <= x * whole
  {
  }

  lemma RawFeeGrows(a: int, b: int, pct: int)
    requires 0 <= a <= b && 0 <= pct <= ONE
    ensures 0 <= a * pct && 0 <= b * pct
    ensures 0 <= b * pct / ONE - a * pct / ONE <= b - a
  {
    var more := b - a;
    Distributes(a, more, pct);
    ShareOf(a, pct, ONE);
    ShareOf(more, pct, ONE);
    var x, y := a * pct, b * pct;
    DivisionGap(x, y, more);
  }

  /** Sending more never leaves the receiver with less. */
  lemma NetNeverFalls(a: int, b: int, pct: int, rates: Rates)
    requires 0 <= a <= b && 0 <= pct <= ONE && rates.minFee >= 0
    ensures QuoteEntry(a, pct, rates).net <= QuoteEntry(b, pct, rates).net
  {
    RawFeeGrows(a, b, pct);
    RawFeeGrows(0, a, pct);
  }

  /** Splitting an amount in two cannot save more than one base unit of fee. */
  lemma SplittingSavesNothing(a: int, b: int, pct: int, minFee: int)
    requires a >= 0 && b >= 0 && 0 <= pct <= ONE && minFee >= 0
    ensures Percent(a, pct, minFee) + Percent(b, pct, minFee) >= Percent(a + b, pct, minFee) - 1
  {
    Distributes(a, b, pct);
    RawFeeGrows(0, a, pct);
    RawFeeGrows(0, b, pct);
    RawFeeGrows(0, a + b, pct);
  }

  // ---- What a fee is, and which rate each operation pays ----

  /** f is a share of the amount within the rate, which counts units of 10^-18. */
  predicate WithinShare(f: int, amount: int, pct: int) {
    f * 1_000_000_000_000_000_000 <= amount * pct
  }

  /**
   * At most the amount, and at least the minimum where the amount allows it; above the minimum
   * it is within the rate; and no whole share within the rate is larger.
   */
  ghost predicate IsFee(amount: int, pct: int, minFee: int, fee: int) {
    && fee <= amount
    && (fee >= minFee || fee == amount)
    && (fee > minFee ==> WithinShare(fee, amount, pct))
    && forall f :: f <= amount && WithinShare(f, amount, pct) ==> f <= fee
  }

  lemma OneFee(amount: int, pct: int, minFee: int, x: int, y: int)
    requires IsFee(amount, pct, minFee, x) && IsFee(amount, pct, minFee, y)
    ensures x == y
  {
  }

  lemma ShareDivision(f: int, share: int)
    ensures f * ONE <= share <==> f <= share / ONE
  {
  }

  lemma PercentIsFee(amount: int, pct: int, minFee: int)
    requires amount >= 0 && minFee >= 0
    ensures IsFee(amount, pct, minFee, Percent(amount, pct, minFee))
  {
    forall f: int
      ensures WithinShare(f, amount, pct) <==> f <= amount * pct / ONE
    {
      ShareDivision(f, amount * pct);
    }
  }

  /** Above the minimum, at a rate of at most one, the fee is the largest share within the rate at all. */
  lemma FeeIsLargestShare(amount: int, pct: int, minFee: int, fee: int, f: int)
    requires IsFee(amount, pct, minFee, fee) && amount >= 0 && 0 <= pct <= ONE && fee > minFee
    ensures WithinShare(fee, amount, pct) && (WithinShare(f, amount, pct) ==> f <= fee)
  {
    ShareOf(amount, pct, ONE);
  }

  /** Exactly when a fee leaves something of the amount. */
  lemma FeeBelowAmount(amount: int, pct: int, minFee: int, fee: int)
    requires IsFee(amount, pct, minFee, fee) && amount > 0
    ensures fee < amount <==> minFee < amount && pct < ONE
  {
    if pct < ONE {
      assert amount * pct < amount * ONE;
      assert !WithinShare(amount, amount, pct);
    } else {
      assert amount * ONE <= amount * pct;
      assert WithinShare(amount, amount, pct);
    }
  }

  /** Trades pay the rate for trades. */
  lemma P2pFee(amount: int, rates: Rates)
    requires amount >= 0 && rates.minFee >= 0
    ensures var q := QuoteP2p(amount, rates);
            && IsFee(amount, rates.p2pPct, rates.minFee, q.platformFee)
            && q.networkFee == 0 && q.totalFee == q.platformFee && q.net == amount - q.platformFee && q.total == amount
  {
    PercentIsFee(amount, rates.p2pPct, rates.minFee);
  }

  /** Deposits and recharges pay the rate for deposits. */
  lemma DepositFee(amount: int, rates: Rates)
    requires amount >= 0 && rates.minFee >= 0
    ensures var q := QuoteDeposit(amount, rates);
            && IsFee(amount, rates.depositPct, rates.minFee, q.platformFee)
            && q.networkFee == 0 && q.totalFee == q.platformFee && q.net == amount - q.platformFee && q.total == amount
  {
    PercentIsFee(amount, rates.depositPct, rates.minFee);
  }

  /** Withdrawals pay the rate for withdrawals and the network fee, both on top. */
  lemma WithdrawFee(amount: int, rates: Rates)
    requires amount >= 0 && rates.minFee >= 0
    ensures var q := QuoteWithdraw(amount, rates);
            && IsFee(amount, rates.withdrawPct, rates.minFee, q.platformFee)
            && q.networkFee == rates.withdrawNetworkFee && q.totalFee == q.platformFee + rates.withdrawNetworkFee
            && q.net == amount && q.total == amount + q.totalFee
  {
    PercentIsFee(amount, rates.withdrawPct, rates.minFee);
  }
}
