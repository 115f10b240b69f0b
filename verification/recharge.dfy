/** Recharges paid in cash to an operator (src/recharge/recharge.service.ts): the price in bolivares, and the requests. */
module Recharge {
  import opened Wrappers
  import opened Money
  import opened Fees
  import opened Ledger
  import opened Banking
  import opened CustodyPayments
  import opened CustodyRuns
  import opened Custody
  import opened DatabaseRows

  /** The text of an amount cut after two decimals. */
  function TwoDecimals(text: string): string {
    var dot := IndexOfDot(text);
    var fracRaw := if dot < |text| then text[dot + 1..] else "";
    text[..dot] + "." + (fracRaw + "00")[..2]
  }

  /** Amount times rate, both in 10^-18 units, as a text with two decimals. */
  function FiatFor(amount: int, rate: int): string {
    TwoDecimals(FromBase(TruncDiv(amount * rate, ONE)))
  }

  // ---- The price is exact ----

  lemma {:induction false} TwoMoreDigits(whole: string, x: char, y: char)
    requires AllDigits(whole) && IsDigit(x) && IsDigit(y)
    ensures AllDigits(whole + [x, y]) && NatOf(whole + [x, y]) == NatOf(whole) * 100 + DigitValue(x) * 10 + DigitValue(y)
  {
    assert (whole + [x, y])[..|whole| + 1] == whole + [x];
    assert (whole + [x])[..|whole|] == whole;
  }

  lemma {:induction false} CentsOf(cents: nat, n: nat, x: nat, y: nat)
    requires x < 10 && y < 10 && cents == n * 100 + x * 10 + y
    ensures CentsText(cents) == Digits(n) + "." + [DigitChar(x), DigitChar(y)]
  {
    CentDigits(n, x, y);
  }

  lemma CentDigits(n: nat, x: nat, y: nat)
    requires x < 10 && y < 10
    ensures var cents := n * 100 + x * 10 + y; cents / 100 == n && cents / 10 % 10 == x && cents % 10 == y
  {
    LastDigit(n * 10 + x, y);
    LastDigit(n, x);
  }

  lemma LastDigit(n: nat, d: nat)
    requires d < 10
    ensures (n * 10 + d) / 10 == n && (n * 10 + d) % 10 == d
  {
  }

  lemma DigitBack(x: char)
    requires IsDigit(x)
    ensures DigitChar(DigitValue(x)) == x
  {
  }

  lemma {:induction false} CentsOfParts(whole: string, x: char, y: char, cents: nat)
    requires AllDigits(whole) && |whole| > 0 && (whole[0] == '0' ==> |whole| == 1) && IsDigit(x) && IsDigit(y)
    requires cents == NatOf(whole) * 100 + DigitValue(x) * 10 + DigitValue(y)
    ensures CentsText(cents) == whole + "." + [x, y]
  {
    DigitsOfNat(whole);
    CentsOf(cents, NatOf(whole), DigitValue(x), DigitValue(y));
    DigitBack(x);
    DigitBack(y);
  }

  lemma CentsFromDigits(cents: nat)
    ensures cents == cents / 100 * 100 + cents / 10 % 10 * 10 + cents % 10
  {
    assert cents / 100 == cents / 10 / 10;
  }

  lemma {:induction false} CutSixteen(head: string, rest: string)
    requires AllDigits(head) && AllDigits(rest) && |rest| == 16
    ensures AllDigits(head + rest) && NatOf(head + rest) / CENT == NatOf(head)
  {
    NatOfAppend(head, rest);
    NatOfBound(rest);
    Pow10OfSixteen();
  }

  lemma CutAfterTwo(a: string)
    requires |a| > SCALE
    ensures var whole, x, y, rest := a[..|a| - SCALE], a[|a| - SCALE], a[|a| - SCALE + 1], a[|a| - SCALE + 2..];
            && a == (whole + [x, y]) + rest && a[|a| - SCALE..][..2] == [x, y] && whole[0] == a[0] && |rest| == 16
  {
  }

  lemma {:induction false} CentsOfDigits(a: string, cents: nat)
    requires AllDigits(a) && |a| > SCALE && (a[0] == '0' ==> |a| == SCALE + 1) && cents == NatOf(a) / CENT
    ensures CentsText(cents) == a[..|a| - SCALE] + "." + a[|a| - SCALE..][..2]
  {
    var whole, x, y, rest := a[..|a| - SCALE], a[|a| - SCALE], a[|a| - SCALE + 1], a[|a| - SCALE + 2..];
    CutAfterTwo(a);
    TwoMoreDigits(whole, x, y);
    CutSixteen(whole + [x, y], rest);
    CentsOfParts(whole, x, y, cents);
  }

  lemma Pow10OfSixteen()
    ensures Pow10(16) == CENT
  {
    Pow10Sum(8, 8);
    Pow10Sum(4, 4);
    assert Pow10(4) == 10_000;
  }

  lemma CutOfRender(d: Decimal)
    requires WellFormed(d)
    ensures TwoDecimals(Render(d)) == (if d.negative then "-" else "") + d.whole + "." + (d.fraction + "00")[..2]
  {
    var s, n := Render(d), |d.whole|;
    BodyOfRender(d);
    if d.negative {
      var body := s[1..];
      assert s == "-" + body;
      assert IndexOfDot(s) == n + 1;
      assert s[..n + 1] == "-" + d.whole;
      assert |d.fraction| > 0 ==> s[n + 2..] == body[n + 1..];
    }
  }

  lemma PadToTwo(tail: string, trimmed: string)
    requires |tail| >= 2 && trimmed <= tail && forall i :: |trimmed| <= i < |tail| ==> tail[i] == '0'
    ensures (trimmed + "00")[..2] == tail[..2]
  {
    var t := trimmed + "00";
    assert t[0] == tail[0] && t[1] == tail[1];
  }

  lemma {:induction false} TrimKeepsTwo(tail: string, trimmed: string)
    requires |tail| >= 2 && trimmed == TrimZeros(tail)
    ensures (trimmed + "00")[..2] == tail[..2]
  {
    var n := |tail| - |trimmed|;
    assert tail == trimmed + Zeros(n);
    PadToTwo(tail, trimmed);
  }

  lemma CutFromBase(v: int, a: string)
    requires a == PadStart(Digits(Abs(v)), SCALE + 1)
    ensures |a| > SCALE
    ensures TwoDecimals(FromBase(v)) == (if v < 0 then "-" else "") + a[..|a| - SCALE] + "." + a[|a| - SCALE..][..2]
  {
    var whole, tail := a[..|a| - SCALE], a[|a| - SCALE..];
    SplitIsExact(v);
    CutOfRender(Split(v));
    TrimKeepsTwo(tail, TrimZeros(tail));
    assert Split(v).whole == whole && Split(v).fraction == TrimZeros(tail);
  }

  /** An amount cut to two decimals shows its whole cents, rounded towards zero. */
  lemma TwoDecimalsAreCents(v: int, cents: nat)
    requires cents == Abs(v) / CENT
    ensures TwoDecimals(FromBase(v)) == (if v < 0 then "-" else "") + CentsText(cents)
  {
    var a := PadStart(Digits(Abs(v)), SCALE + 1);
    NatOfPadStart(Digits(Abs(v)), SCALE + 1);
    NatOfDigits(Abs(v));
    CutFromBase(v, a);
    CentsOfDigits(a, cents);
    JoinText(if v < 0 then "-" else "", a[..|a| - SCALE], a[|a| - SCALE..][..2], TwoDecimals(FromBase(v)), CentsText(cents));
  }

  lemma JoinText(sign: string, whole: string, two: string, text: string, cents: string)
    requires text == sign + whole + "." + two && cents == whole + "." + two
    ensures text == sign + cents
  {
    assert sign + whole + "." + two == sign + (whole + "." + two);
  }

  lemma QuotientIs(n: nat, a: nat, q: nat, s: nat)
    requires s < a && n == q * a + s
    ensures n / a == q
  {
    var k := n / a;
    assert (k - q) * a == s - n % a;
    NoMultipleBetween(k - q, a);
  }

  lemma NoMultipleBetween(d: int, a: int)
    requires -a < d * a < a
    ensures d == 0
  {
  }

  lemma DivideSum(q: nat, r: nat, a: nat)
    requires a > 0
    ensures (q * a + r) / a == q + r / a
  {
    assert r == r / a * a + r % a;
    assert (q + r / a) * a == q * a + r / a * a;
    QuotientIs(q * a + r, a, q + r / a, r % a);
  }

  lemma SmallQuotient(r: nat, a: nat, b: nat)
    requires a > 0 && r < a * b
    ensures r / a < b
  {
    assert r / a * a <= r;
    ProductBelow(r / a, b, a);
  }

  lemma ProductBelow(x: nat, y: nat, a: nat)
    requires x * a < a * y
    ensures x < y
  {
  }

  lemma DivideTwice(n: nat, a: nat, b: nat)
    requires a > 0 && b > 0
    ensures a * b > 0 && n / a / b == n / (a * b)
  {
    ProductPositive(a, b);
    var m := a * b;
    var q, r := n / m, n % m;
    assert n == q * m + r;
    Regroup(q, a, b, r);
    assert n / a == q * b + r / a by {
      DivideSum(q * b, r, a);
    }
    SmallQuotient(r, a, b);
    QuotientIs(n / a, b, q, r / a);
  }

  lemma ProductPositive(a: nat, b: nat)
    requires a > 0 && b > 0
    ensures a * b > 0
  {
  }

  lemma Regroup(q: nat, a: nat, b: nat, r: nat)
    ensures q * (a * b) + r == q * b * a + r
  {
  }

  lemma FiatOfProduct(product: nat, cents: nat)
    requires cents == product / ONE / CENT
    ensures TwoDecimals(FromBase(TruncDiv(product, ONE))) == CentsText(cents)
  {
    TwoDecimalsAreCents(product / ONE, cents);
    assert "" + CentsText(cents) == CentsText(cents);
  }

  /** The price of a recharge is the product cut to whole cents: floor(amount * rate / 10^34) of them. */
  lemma FiatIsExact(amount: nat, rate: nat)
    ensures FiatFor(amount, rate) == CentsText(PriceCents(amount, rate))
  {
    var product := amount * rate;
    DivideTwice(product, ONE, CENT);
    FiatOfProduct(product, PriceCents(amount, rate));
  }

  /** Read back as an amount, the price is exactly that many cents. */
  lemma {:induction false} CentsReadBack(cents: nat)
    ensures ToBase(CentsText(cents)) == Some(cents * CENT)
  {
    CentsFromDigits(cents);
    PartsReadBack(cents, cents / 100, cents / 10 % 10, cents % 10);
  }

  lemma PartsReadBack(cents: nat, n: nat, x: nat, y: nat)
    requires x < 10 && y < 10 && cents == n * 100 + x * 10 + y
    ensures ToBase(CentsText(cents)) == Some(cents * CENT)
  {
    CentsOf(cents, n, x, y);
    NatOfParts(n, x, y);
    TextReadBack(CentsText(cents), Digits(n), [DigitChar(x), DigitChar(y)], cents);
  }

  lemma {:induction false} NatOfParts(n: nat, x: nat, y: nat)
    requires x < 10 && y < 10
    ensures AllDigits(Digits(n) + [DigitChar(x), DigitChar(y)])
    ensures NatOf(Digits(n) + [DigitChar(x), DigitChar(y)]) == n * 100 + x * 10 + y
  {
    NatOfDigits(n);
    TwoMoreDigits(Digits(n), DigitChar(x), DigitChar(y));
  }

  lemma {:induction false} TextReadBack(text: string, whole: string, two: string, cents: nat)
    requires |whole| > 0 && |two| == 2 && AllDigits(whole) && AllDigits(two) && AllDigits(whole + two)
    requires NatOf(whole + two) == cents && text == whole + "." + two
    ensures ToBase(text) == Some(cents * CENT)
  {
    var d := Decimal(false, whole, two);
    RenderJoins(whole, two);
    ParseRender(d);
    CentsMagnitude(d);
  }

  lemma RenderJoins(whole: string, two: string)
    requires |two| > 0
    ensures Render(Decimal(false, whole, two)) == whole + "." + two
  {
    assert "" + whole + ("." + two) == whole + "." + two;
  }

  lemma CentsMagnitude(d: Decimal)
    requires WellFormed(d) && |d.fraction| == 2
    ensures AllDigits(d.whole + d.fraction) && Magnitude(d) == NatOf(d.whole + d.fraction) * CENT
  {
    PadCut(d.fraction, SCALE);
    assert d.whole + (d.fraction + Zeros(16)) == (d.whole + d.fraction) + Zeros(16);
    NatOfAppend(d.whole + d.fraction, Zeros(16));
    NatOfZeros(16);
    Pow10OfSixteen();
  }

  // ---- The requests ----

  const MAX_ATTACHMENT := 2_800_000

  /** An image as a data URL: /^data:image\/(png|jpe?g|webp);base64,/ and a bounded length. */
  predicate ValidAttachment(raw: string) {
    && |raw| <= MAX_ATTACHMENT
    && exists kind :: kind in {"png", "jpg", "jpeg", "webp"} && "data:image/" + kind + ";base64," <= raw
  }

  /** The configuration plays no part in requests. */
  const ANY := BankConfig({}, false, 0)

  /** What an operation on requests promises about the bank it leaves. */
  lemma KeepsInv(b: Bank, act: RequestAction)
    ensures Inv(b) && SaneAction(Ask(act)) ==> Inv(AttemptRequest(ANY, b, act).GetOr(b))
  {
    if Inv(b) && SaneAction(Ask(act)) && AttemptRequest(ANY, b, act).Some? {
      RequestKeepsInv(ANY, b, act);
    }
  }

  lemma ConfirmKeepsInv(b: Bank, operator: string, r: nat, rates: Rates)
    ensures Inv(b) && SaneRates(rates) ==> Inv(ConfirmRequest(b, operator, r, rates).GetOr(b))
  {
    if Inv(b) && SaneRates(rates) && ConfirmRequest(b, operator, r, rates).Some? {
      ConfirmKeeps(b, operator, r, rates);
    }
  }

  class RechargeService {
    const ledger: LedgerService

    constructor (ledger: LedgerService)
      ensures this.ledger == ledger
    {
      this.ledger := ledger;
    }

    method CreateRequest(user: string, amount: int, rate: int) returns (ok: bool)
      modifies ledger.db
      ensures Transaction(old(ledger.db.Rows()), Banking.CreateRequest(old(ledger.db.Rows()), user, amount, rate), ok, ledger.db.Rows())
      ensures old(Inv(ledger.db.Rows())) ==> Inv(ledger.db.Rows())
    {
      KeepsInv(ledger.db.Rows(), DoCreateRequest(user, amount, rate));
      if amount <= 0 || rate <= 0 {
        return false;
      }
      FiatIsExact(amount, rate);
      ledger.db.requests := ledger.db.requests +
        [Request(user, None, RECHARGE_ASSET, amount, rate, FiatFor(amount, rate), RequestPending, 0)];
      return true;
    }

    method Cancel(user: string, r: nat) returns (ok: bool)
      modifies ledger.db
      ensures Transaction(old(ledger.db.Rows()), CancelRequest(old(ledger.db.Rows()), user, r), ok, ledger.db.Rows())
      ensures old(Inv(ledger.db.Rows())) ==> Inv(ledger.db.Rows())
    {
      KeepsInv(ledger.db.Rows(), DoCancelRequest(user, r));
      var db := ledger.db;
      if r >= |db.requests| || db.requests[r].user != user {
        return false;
      }
      var req := db.requests[r];
      if req.status != RequestPending && req.status != RequestClaimed {
        return false;
      }
      req := req.(status := RequestCancelled);
      db.requests := db.requests[r := req];
      return true;
    }

    method SubmitEvidence(user: string, r: nat, attachment: string) returns (ok: bool)
      modifies ledger.db
      ensures Transaction(old(ledger.db.Rows()), Banking.SubmitEvidence(old(ledger.db.Rows()), user, r, ValidAttachment(attachment)), ok, ledger.db.Rows())
      ensures old(Inv(ledger.db.Rows())) ==> Inv(ledger.db.Rows())
    {
      KeepsInv(ledger.db.Rows(), DoSubmitEvidence(user, r, ValidAttachment(attachment)));
      var db := ledger.db;
      if r >= |db.requests| || db.requests[r].user != user || db.requests[r].status != RequestClaimed {
        return false;
      }
      if !ValidAttachment(attachment) {
        return false;
      }
      var req := db.requests[r].(status := RequestPaid);
      db.requests := db.requests[r := req];
      return true;
    }

    method Claim(operator: string, r: nat, paymentInfo: string) returns (ok: bool)
      modifies ledger.db
      ensures Transaction(old(ledger.db.Rows()), ClaimRequest(old(ledger.db.Rows()), operator, r, paymentInfo), ok, ledger.db.Rows())
      ensures old(Inv(ledger.db.Rows())) ==> Inv(ledger.db.Rows())
    {
      KeepsInv(ledger.db.Rows(), DoClaimRequest(operator, r, paymentInfo));
      var db := ledger.db;
      if Trim(paymentInfo) == "" {
        return false;
      }
      if r >= |db.requests| || db.requests[r].status != RequestPending || db.requests[r].user == operator {
        return false;
      }
      var req := db.requests[r].(operator := Some(operator));
      req := req.(status := RequestClaimed);
      db.requests := db.requests[r := req];
      return true;
    }

    /** Payment row, journal and request row in one transaction. */
    method Confirm(operator: string, r: nat, rates: Rates) returns (ok: bool)
      modifies ledger.db
      ensures Transaction(old(ledger.db.Rows()), ConfirmRequest(old(ledger.db.Rows()), operator, r, rates), ok, ledger.db.Rows())
      ensures old(Inv(ledger.db.Rows())) && SaneRates(rates) ==> Inv(ledger.db.Rows())
    {
      ConfirmKeepsInv(ledger.db.Rows(), operator, r, rates);
      var db := ledger.db;
      if r >= |db.requests| || db.requests[r].operator != Some(operator) {
        return false;
      }
      var req := db.requests[r];
      if req.status != RequestPaid && req.status != RequestClaimed {
        return false;
      }
      if FindPayment(db.payments, req.user, RechargeKey(r)).Some? {
        return false;
      }
      var saved, id, quote := db.Rows(), |db.payments|, QuoteDeposit(req.amount, rates);
      db.payments := db.payments +
        [Payment(req.user, RechargeKey(r), Recharge(r, quote.platformFee), req.asset, req.amount, PaymentCompleted)];
      var entries := EntryJournal(req.user, req.asset, req.amount, quote.platformFee);
      var posted := ledger.PostJournal(PaymentJournal(id), entries);
      if !posted {
        db.RollBack(saved);
        return false;
      }
      req := req.(status := RequestCompleted);
      req := req.(fee := quote.platformFee);
      db.requests := db.requests[r := req];
      return true;
    }
  }
}
