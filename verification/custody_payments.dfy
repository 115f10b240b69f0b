/** Payments, withdrawals, deposits and recharges keep the custody invariant. */
module CustodyPayments {
  import opened Wrappers
  import opened Fees
  import opened Ledger
  import opened Banking
  import opened Custody
  import opened CustodySteps

  // ---- A payment row and its journal ----

  lemma InsertKeepsKeys(b: Bank, p: Payment)
    requires KeysUnique(b.payments) && InsertPayment(b, p).Some?
    ensures KeysUnique(InsertPayment(b, p).value.payments)
  {
  }

  /** Rows that are not withdrawals own no hold. */
  lemma AppendedRowsHolds(b: Bank, after: Bank, rows: seq<Payment>)
    requires HoldsOwned(b) && after.payments == b.payments + rows && forall p :: p in rows ==> !p.kind.Withdrawal?
    requires after.holds == b.holds && after.orders == b.orders && after.trades == b.trades
    ensures HoldsOwned(after)
  {
    assert forall i :: |b.payments| <= i < |after.payments| ==> after.payments[i] in rows;
    HoldsUntouched(b, after);
  }

  lemma PaidMoney(b: Bank, after: Bank, p: Payment)
    requires MoneyMatches(b) && Postable(PaymentLegs(p)) && InAsset(PaymentLegs(p), p.asset)
    requires after.payments == b.payments + [p] && after.trades == b.trades
    requires after.entries == b.entries + AsEntries(PaymentJournal(|b.payments|), PaymentLegs(p))
    ensures MoneyMatches(after)
    ensures forall a :: Balance(after.entries, a) == Balance(b.entries, a) + LegsEffect(PaymentLegs(p), a)
  {
    forall a
      ensures Booked(after, a) == Booked(b, a) + LegsEffect(PaymentLegs(p), a)
    {
      PaymentsBookedAppend(b.payments, p, a);
    }
    JournalPosted(b, after, PaymentJournal(|b.payments|), PaymentLegs(p), p.asset);
  }

  lemma SilentRowMoney(b: Bank, after: Bank, p: Payment)
    requires MoneyMatches(b) && PaymentLegs(p) == []
    requires after.payments == b.payments + [p] && after.trades == b.trades && after.entries == b.entries
    ensures MoneyMatches(after)
  {
    forall a
      ensures Booked(after, a) == Booked(b, a)
    {
      PaymentsBookedAppend(b.payments, p, a);
    }
    NothingPosted(b, after);
  }

  /** One completed row with its journal: everything but solvency and the deposit tables. */
  lemma RowPosted(b: Bank, after: Bank, p: Payment)
    requires GoodRows(b) && KeysUnique(b.payments) && HoldsOwned(b) && MoneyMatches(b)
    requires GoodPayment(p) && !p.kind.Withdrawal? && FindPayment(b.payments, p.user, p.key).None?
    requires Postable(PaymentLegs(p)) && InAsset(PaymentLegs(p), p.asset)
    requires after.payments == b.payments + [p] && after.trades == b.trades && after.orders == b.orders && after.holds == b.holds
    requires after.entries == b.entries + AsEntries(PaymentJournal(|b.payments|), PaymentLegs(p))
    ensures GoodRows(after) && KeysUnique(after.payments) && HoldsOwned(after) && MoneyMatches(after)
    ensures forall a :: Balance(after.entries, a) == Balance(b.entries, a) + LegsEffect(PaymentLegs(p), a)
  {
    AppendedRowsHolds(b, after, [p]);
    PaidMoney(b, after, p);
  }

  lemma FaucetSolvent(b: Bank, after: Bank, user: string, asset: string, amount: int)
    requires UsersSolvent(b) && after.holds == b.holds && amount >= 0
    requires forall a :: Balance(after.entries, a) == Balance(b.entries, a) + LegsEffect(FaucetLegs(user, asset, amount), a)
    ensures UsersSolvent(after)
  {
    forall a: Account | a.owner.User?
      ensures Balance(after.entries, a) >= Held(after.holds, a)
    {
      PairEffect(Leg(IssuerAccount(asset), Debit, amount), Leg(UserAccount(user, asset), Credit, amount), a);
    }
  }

  lemma FaucetKeeps(cfg: BankConfig, b: Bank, user: string, asset: string, amount: int, key: string)
    requires Inv(b) && CreditFaucet(cfg, b, user, asset, amount, key).Some?
    ensures Inv(CreditFaucet(cfg, b, user, asset, amount, key).value)
  {
    var after := CreditFaucet(cfg, b, user, asset, amount, key).value;
    var p := Payment(user, key, Faucet, asset, amount, PaymentCompleted);
    RowPosted(b, after, p);
    FaucetSolvent(b, after, user, asset, amount);
    PlainRowKeepsDeposits(b, after, [p]);
  }

  /** Rows that are neither deposits nor recharges. */
  lemma PlainRowKeepsDeposits(b: Bank, after: Bank, rows: seq<Payment>)
    requires DepositsMatch(b) && RequestsMatch(b)
    requires after.payments == b.payments + rows && after.deposits == b.deposits && after.requests == b.requests
    requires forall p :: p in rows ==> !p.kind.Deposit? && !p.kind.Recharge?
    ensures DepositsMatch(after) && RequestsMatch(after)
  {
    assert forall i :: |b.payments| <= i < |after.payments| ==> after.payments[i] in rows;
    assert forall i :: 0 <= i < |b.payments| ==> after.payments[i] == b.payments[i];
  }

  lemma TransferMoney(b: Bank, after: Bank, p: Payment, mirror: Payment)
    requires MoneyMatches(b) && Postable(PaymentLegs(p)) && InAsset(PaymentLegs(p), p.asset) && PaymentLegs(mirror) == []
    requires after.payments == b.payments + [p] + [mirror] && after.trades == b.trades
    requires after.entries == b.entries + AsEntries(PaymentJournal(|b.payments|), PaymentLegs(p))
    ensures MoneyMatches(after)
    ensures forall a :: Balance(after.entries, a) == Balance(b.entries, a) + LegsEffect(PaymentLegs(p), a)
  {
    var mid := after.(payments := b.payments + [p]);
    PaidMoney(b, mid, p);
    SilentRowMoney(mid, after, mirror);
  }

  lemma TransferSolvent(b: Bank, after: Bank, user: string, recipient: string, asset: string, amount: int)
    requires UsersSolvent(b) && after.holds == b.holds && amount >= 0 && Funds(b, user, asset) >= amount && recipient != user
    requires forall a :: Balance(after.entries, a) == Balance(b.entries, a) + LegsEffect(TransferLegs(user, recipient, asset, amount), a)
    ensures UsersSolvent(after)
  {
    forall a: Account | a.owner.User?
      ensures Balance(after.entries, a) >= Held(after.holds, a)
    {
      PairEffect(Leg(UserAccount(user, asset), Debit, amount), Leg(UserAccount(recipient, asset), Credit, amount), a);
    }
  }

  lemma TransferRows(b: Bank, after: Bank, p: Payment, mirror: Payment)
    requires GoodRows(b) && HoldsOwned(b) && DepositsMatch(b) && RequestsMatch(b)
    requires p.kind.Transfer? && p.status == PaymentCompleted && mirror.kind.Receive? && mirror.status == PaymentCompleted
    requires after == b.(payments := b.payments + [p, mirror], entries := after.entries)
    ensures GoodRows(after) && HoldsOwned(after) && DepositsMatch(after) && RequestsMatch(after)
  {
    AppendedRowsHolds(b, after, [p, mirror]);
    PlainRowKeepsDeposits(b, after, [p, mirror]);
  }

  /** A transfer's two rows and its journal: everything but keys and solvency. */
  lemma TransferBooked(b: Bank, after: Bank, p: Payment, mirror: Payment)
    requires Inv(b) && p.kind.Transfer? && p.status == PaymentCompleted && mirror.kind.Receive? && mirror.status == PaymentCompleted
    requires Postable(PaymentLegs(p)) && after.payments == b.payments + [p] + [mirror]
    requires after == b.(payments := after.payments, entries := b.entries + AsEntries(PaymentJournal(|b.payments|), PaymentLegs(p)))
    ensures GoodRows(after) && HoldsOwned(after) && MoneyMatches(after) && DepositsMatch(after) && RequestsMatch(after)
    ensures forall a :: Balance(after.entries, a) == Balance(b.entries, a) + LegsEffect(PaymentLegs(p), a)
  {
    assert after.payments == b.payments + [p, mirror];
    TransferRows(b, after, p, mirror);
    TransferMoney(b, after, p, mirror);
  }

  lemma TransferKeeps(cfg: BankConfig, b: Bank, user: string, recipient: string, asset: string, amount: int, key: string)
    requires Inv(b) && SendTransfer(cfg, b, user, recipient, asset, amount, key).Some?
    ensures Inv(SendTransfer(cfg, b, user, recipient, asset, amount, key).value)
  {
    var after := SendTransfer(cfg, b, user, recipient, asset, amount, key).value;
    var p := Payment(user, key, Kind.Transfer(recipient), asset, amount, PaymentCompleted);
    var mirror := Payment(recipient, key + ":in", Receive(|b.payments|), asset, amount, PaymentCompleted);
    InsertKeepsKeys(b, p);
    InsertKeepsKeys(InsertPayment(b, p).value, mirror);
    TransferBooked(b, after, p, mirror);
    TransferSolvent(b, after, user, recipient, asset, amount);
  }

  // ---- Withdrawals ----

  /** A request adds one row and the hold it names. */
  lemma {:induction false} RequestedRows(b: Bank, user: string, asset: string, amount: int, key: string, rates: Rates)
    requires RequestWithdrawal(b, user, asset, amount, key, rates).Some?
    ensures var quote := QuoteWithdraw(amount, rates);
            && amount > 0 && Funds(b, user, asset) >= quote.total && FindPayment(b.payments, user, key).None?
            && RequestWithdrawal(b, user, asset, amount, key, rates).value
               == b.(payments := b.payments +
                     [Payment(user, key, Withdrawal(PendingBroadcast, quote.totalFee, quote.total, |b.holds|), asset, amount, Processing)],
                     holds := b.holds + [Hold(UserAccount(user, asset), quote.total, Active)])
  {
  }

  lemma WithdrawalRequested(b: Bank, user: string, asset: string, amount: int, key: string, rates: Rates)
    requires Inv(b) && SaneRates(rates) && RequestWithdrawal(b, user, asset, amount, key, rates).Some?
    ensures Inv(RequestWithdrawal(b, user, asset, amount, key, rates).value)
  {
    RequestedRows(b, user, asset, amount, key, rates);
    WithdrawalCost(amount, rates);
    var quote := QuoteWithdraw(amount, rates);
    HeldRowKeeps(b, Payment(user, key, Withdrawal(PendingBroadcast, quote.totalFee, quote.total, |b.holds|), asset, amount, Processing));
  }

  lemma NewRowIsGood(b: Bank, p: Payment, holds: seq<Hold>)
    requires GoodRows(b) && KeysUnique(b.payments) && GoodPayment(p) && FindPayment(b.payments, p.user, p.key).None?
    ensures var after := b.(payments := b.payments + [p], holds := holds); GoodRows(after) && KeysUnique(after.payments)
  {
  }

  /** A new withdrawal row and its hold, within the funds of its user. */
  lemma HeldRowKeeps(b: Bank, p: Payment)
    requires Inv(b) && p.kind.Withdrawal? && p.kind.hold == |b.holds| && p.kind.stage == PendingBroadcast && p.status == Processing
    requires GoodPayment(p) && Funds(b, p.user, p.asset) >= p.kind.totalDebit && FindPayment(b.payments, p.user, p.key).None?
    ensures Inv(b.(payments := b.payments + [p], holds := b.holds + [Hold(UserAccount(p.user, p.asset), p.kind.totalDebit, Active)]))
  {
    var after := b.(payments := b.payments + [p], holds := b.holds + [Hold(UserAccount(p.user, p.asset), p.kind.totalDebit, Active)]);
    NewRowIsGood(b, p, after.holds);
    HeldRowMoney(b, after, p);
    PlainRowKeepsDeposits(b, after, [p]);
  }

  lemma HeldRowMoney(b: Bank, after: Bank, p: Payment)
    requires HoldsOwned(b) && MoneyMatches(b) && UsersSolvent(b)
    requires p.kind.Withdrawal? && p.kind.hold == |b.holds| && p.kind.stage == PendingBroadcast && p.status == Processing
    requires Funds(b, p.user, p.asset) >= p.kind.totalDebit
    requires after == b.(payments := b.payments + [p], holds := b.holds + [Hold(UserAccount(p.user, p.asset), p.kind.totalDebit, Active)])
    ensures HoldsOwned(after) && MoneyMatches(after) && UsersSolvent(after)
  {
    RequestedHolds(b, after, p);
    SilentRowMoney(b, after, p);
    NewHoldSolvent(b, after, UserAccount(p.user, p.asset), p.kind.totalDebit);
  }

  lemma RequestedHolds(b: Bank, after: Bank, p: Payment)
    requires HoldsOwned(b) && p.kind.Withdrawal? && p.kind.hold == |b.holds| && p.status == Processing
    requires after.payments == b.payments + [p] && after.orders == b.orders && after.trades == b.trades
    requires after.holds == b.holds + [Hold(UserAccount(p.user, p.asset), p.kind.totalDebit, Active)]
    ensures HoldsOwned(after)
  {
    var w := ByWithdrawal(|b.payments|);
    assert forall v, k: nat {:trigger Claims(after, v, k)} :: Claims(after, v, k) <==> Claims(b, v, k) || (v == w && k == |b.holds|);
    HoldCreated(b, after, w);
  }

  lemma PaymentRowMoney(b: Bank, after: Bank, p: nat)
    requires MoneyMatches(b) && p < |b.payments| == |after.payments|
    requires after.payments == b.payments[p := after.payments[p]]
    requires PaymentLegs(b.payments[p]) == PaymentLegs(after.payments[p])
    requires after.entries == b.entries && after.trades == b.trades
    ensures MoneyMatches(after)
  {
    forall a
      ensures Booked(after, a) == Booked(b, a)
    {
      PaymentsBookedUpdate(b.payments, p, after.payments[p], a);
    }
    NothingPosted(b, after);
  }

  lemma PaymentRowGood(b: Bank, after: Bank, p: nat)
    requires GoodRows(b) && p < |b.payments| == |after.payments| && after.payments == b.payments[p := after.payments[p]]
    requires GoodPayment(after.payments[p]) && after.orders == b.orders && after.trades == b.trades
    ensures GoodRows(after)
  {
  }

  /** Updating a withdrawal row concerns neither keys nor deposits nor recharges. */
  lemma WithdrawalRowOthers(b: Bank, after: Bank, p: nat)
    requires DepositsMatch(b) && RequestsMatch(b) && KeysUnique(b.payments) && IsWithdrawal(b, p)
    requires |after.payments| == |b.payments| && after.payments == b.payments[p := after.payments[p]]
    requires after.payments[p].kind.Withdrawal? && after.payments[p].user == b.payments[p].user && after.payments[p].key == b.payments[p].key
    requires after.deposits == b.deposits && after.requests == b.requests
    ensures DepositsMatch(after) && RequestsMatch(after) && KeysUnique(after.payments)
  {
    assert forall i :: 0 <= i < |b.payments| ==> (i != p ==> after.payments[i] == b.payments[i]);
  }

  lemma StageMoved(b: Bank, p: nat, stage: Stage)
    requires Inv(b) && IsWithdrawal(b, p) && b.payments[p].status == Processing && stage != StageCompleted && stage != StageFailed
    ensures Inv(SetStage(b, p, stage))
  {
    var after := SetStage(b, p, stage);
    assert GoodPayment(b.payments[p]);
    PaymentRowGood(b, after, p);
    StageMovedHolds(b, after, p);
    PaymentRowMoney(b, after, p);
    WithdrawalRowOthers(b, after, p);
  }

  lemma StageMovedHolds(b: Bank, after: Bank, p: nat)
    requires HoldsOwned(b) && IsWithdrawal(b, p) && |after.payments| == |b.payments|
    requires after.payments == b.payments[p := after.payments[p]] && after.orders == b.orders && after.trades == b.trades && after.holds == b.holds
    requires var row, now := b.payments[p], after.payments[p];
             && now.kind.Withdrawal? && now.kind.hold == row.kind.hold && now.kind.totalDebit == row.kind.totalDebit
             && now.user == row.user && now.asset == row.asset && now.status == row.status
    ensures HoldsOwned(after)
  {
    HoldsUntouched(b, after);
  }

  lemma SettledWithdrawalHolds(b: Bank, after: Bank, p: nat, status: HoldStatus)
    requires HoldsOwned(b) && IsWithdrawal(b, p) && |after.payments| == |b.payments|
    requires after.payments == b.payments[p := after.payments[p]] && after.orders == b.orders && after.trades == b.trades
    requires var row, now := b.payments[p], after.payments[p];
             && now.kind.Withdrawal? && now.kind.hold == row.kind.hold && now.kind.totalDebit == row.kind.totalDebit
             && now.user == row.user && now.asset == row.asset
             && now.status == (if status == Committed then PaymentCompleted else PaymentFailed)
    requires status != Active && after.holds == SetHold(b, b.payments[p].kind.hold, status).holds
    ensures HoldsOwned(after)
    ensures b.payments[p].kind.hold < |b.holds| && b.holds[b.payments[p].kind.hold] == HoldOf(b, ByWithdrawal(p))
  {
    var h := b.payments[p].kind.hold;
    assert Claims(b, ByWithdrawal(p), h);
    HoldSettled(b, after, ByWithdrawal(p), h);
  }

  lemma WithdrawalFailed(b: Bank, p: nat)
    requires Inv(b) && IsWithdrawal(b, p) && b.payments[p].status == Processing
    ensures Inv(FailWithdrawal(b, p))
  {
    var after := FailWithdrawal(b, p);
    assert GoodPayment(b.payments[p]);
    PaymentRowGood(b, after, p);
    SettledWithdrawalHolds(b, after, p, Released);
    PaymentRowMoney(b, after, p);
    SettledHoldSolvent(b, after, b.payments[p].kind.hold);
    WithdrawalRowOthers(b, after, p);
  }

  lemma CompletedLegs(b: Bank, after: Bank, p: nat, legs: seq<Leg>)
    requires IsWithdrawal(b, p) && b.payments[p].status == Processing
    requires |after.payments| == |b.payments| && after.payments == b.payments[p := after.payments[p]] && after.trades == b.trades
    requires PaymentLegs(after.payments[p]) == legs
    ensures ExpectedLegs(b, PaymentJournal(p)) == []
    ensures forall k :: ExpectedLegs(after, k) == if k == PaymentJournal(p) then legs else ExpectedLegs(b, k)
    ensures forall a :: Booked(after, a) == Booked(b, a) + LegsEffect(legs, a)
  {
    forall a
      ensures Booked(after, a) == Booked(b, a) + LegsEffect(legs, a)
    {
      PaymentsBookedUpdate(b.payments, p, after.payments[p], a);
    }
  }

  lemma CompletedMoney(b: Bank, after: Bank, p: nat)
    requires MoneyMatches(b) && IsWithdrawal(b, p) && b.payments[p].status == Processing
    requires |after.payments| == |b.payments| && after.payments == b.payments[p := after.payments[p]]
    requires var legs := WithdrawLegs(b.payments[p]);
             && PaymentLegs(after.payments[p]) == legs && Postable(legs)
             && after.entries == b.entries + AsEntries(PaymentJournal(p), legs)
    requires after.trades == b.trades
    ensures MoneyMatches(after)
    ensures forall a :: Balance(after.entries, a) == Balance(b.entries, a) + LegsEffect(WithdrawLegs(b.payments[p]), a)
  {
    var legs := WithdrawLegs(b.payments[p]);
    CompletedLegs(b, after, p, legs);
    JournalPosted(b, after, PaymentJournal(p), legs, b.payments[p].asset);
  }

  lemma CompletedSolvent(b: Bank, after: Bank, p: Payment, h: nat)
    requires UsersSolvent(b) && h < |b.holds| && p.kind.Withdrawal? && GoodPayment(p)
    requires b.holds[h] == Hold(UserAccount(p.user, p.asset), p.kind.totalDebit, Active)
    requires after.holds == b.holds[h := b.holds[h].(status := Committed)]
    requires forall a :: Balance(after.entries, a) == Balance(b.entries, a) + LegsEffect(WithdrawLegs(p), a)
    ensures UsersSolvent(after)
  {
    forall a: Account | a.owner.User?
      ensures Balance(after.entries, a) >= Held(after.holds, a)
    {
      HeldFallsOnSettling(b.holds, h, Committed, a);
      FeeLegsEffect(Leg(UserAccount(p.user, p.asset), Debit, p.kind.totalDebit), Leg(CustodyAccount(p.asset), Credit, p.amount),
                    p.asset, p.kind.totalFee, a);
    }
  }

  /** The hold is spent, the journal is posted, and the user stays solvent. */
  lemma CompletedHoldsAndMoney(b: Bank, p: nat)
    requires HoldsOwned(b) && MoneyMatches(b) && UsersSolvent(b) && IsWithdrawal(b, p) && GoodPayment(b.payments[p])
    requires b.payments[p].status == Processing && CompleteWithdrawal(b, p).Some?
    ensures var after := CompleteWithdrawal(b, p).value; HoldsOwned(after) && MoneyMatches(after) && UsersSolvent(after)
  {
    var after, row := CompleteWithdrawal(b, p).value, b.payments[p];
    SettledWithdrawalHolds(b, after, p, Committed);
    CompletedMoney(b, after, p);
    CompletedSolvent(b, after, row, row.kind.hold);
  }

  lemma WithdrawalCompleted(b: Bank, p: nat)
    requires Inv(b) && IsWithdrawal(b, p) && b.payments[p].status == Processing && CompleteWithdrawal(b, p).Some?
    ensures Inv(CompleteWithdrawal(b, p).value)
  {
    var after := CompleteWithdrawal(b, p).value;
    assert GoodPayment(b.payments[p]);
    CompletedHoldsAndMoney(b, p);
    PaymentRowGood(b, after, p);
    WithdrawalRowOthers(b, after, p);
  }

  /** In a good bank the journal of a completed withdrawal is never refused. */
  lemma WithdrawalJournalAccepted(p: Payment)
    requires p.kind.Withdrawal? && GoodPayment(p)
    ensures Postable(WithdrawLegs(p))
  {
    var pair := [Leg(UserAccount(p.user, p.asset), Debit, p.kind.totalDebit), Leg(CustodyAccount(p.asset), Credit, p.amount)];
    FeeLegsBalance(pair[0], pair[1], p.asset, p.kind.totalFee);
  }

  lemma FeeLegsBalance(x: Leg, y: Leg, asset: string, fee: int)
    requires x.direction == Debit && y.direction == Credit
    ensures var legs := [x, y] + FeeLeg(asset, fee);
            && SumDirection(legs, Debit) == x.amount
            && SumDirection(legs, Credit) == y.amount + if fee > 0 then fee else 0
  {
    var legs := [x, y] + FeeLeg(asset, fee);
    assert [x, y][..1] == [x] && [x][..0] == [];
    assert SumDirection([], Debit) == 0 && SumDirection([], Credit) == 0;
    assert SumDirection([x], Debit) == x.amount && SumDirection([x], Credit) == 0;
    if fee > 0 {
      assert legs[..2] == [x, y];
    } else {
      assert legs == [x, y];
    }
  }

  /** Moving a positive amount between two accounts is always accepted. */
  lemma TransferPosts(user: string, recipient: string, asset: string, amount: int)
    requires amount > 0
    ensures Postable(TransferLegs(user, recipient, asset, amount)) && Postable(FaucetLegs(user, asset, amount))
  {
    forall legs | legs in {TransferLegs(user, recipient, asset, amount), FaucetLegs(user, asset, amount)}
      ensures Postable(legs)
    {
      assert legs == [legs[0], legs[1]] && legs[..1] == [legs[0]] && legs[..1][..0] == [];
      assert SumDirection([], Debit) == 0 && SumDirection([], Credit) == 0;
      assert SumDirection(legs[..1], Debit) == amount && SumDirection(legs[..1], Credit) == 0;
    }
  }

  /** The journal of money entering, or of a trade being released, is accepted exactly when the fee leaves something. */
  lemma EntryJournalAccepted(user: string, asset: string, gross: int, fee: int)
    requires gross >= 0 && 0 <= fee <= gross
    ensures Postable(EntryLegs(user, asset, gross, fee)) <==> fee < gross
  {
    FeeLegsBalance(Leg(CustodyAccount(asset), Debit, gross), Leg(UserAccount(user, asset), Credit, gross - fee), asset, fee);
    var legs := EntryLegs(user, asset, gross, fee);
    assert legs[1].amount == gross - fee;
  }

  lemma ReleaseJournalAccepted(t: Trade)
    requires GoodTrade(t)
    ensures Postable(ReleaseLegs(t)) <==> t.fee < t.amount
  {
    FeeLegsBalance(Leg(UserAccount(t.seller, t.asset), Debit, t.amount), Leg(UserAccount(t.buyer, t.asset), Credit, t.amount - t.fee), t.asset, t.fee);
    var legs := ReleaseLegs(t);
    assert legs[1].amount == t.amount - t.fee;
  }

  // ---- Money entering ----

  lemma EntrySolvent(b: Bank, after: Bank, user: string, asset: string, gross: int, fee: int)
    requires UsersSolvent(b) && after.holds == b.holds && fee <= gross
    requires forall a :: Balance(after.entries, a) == Balance(b.entries, a) + LegsEffect(EntryLegs(user, asset, gross, fee), a)
    ensures UsersSolvent(after)
  {
    forall a: Account | a.owner.User?
      ensures Balance(after.entries, a) >= Held(after.holds, a)
    {
      FeeLegsEffect(Leg(CustodyAccount(asset), Debit, gross), Leg(UserAccount(user, asset), Credit, gross - fee), asset, fee, a);
    }
  }

  lemma DepositsListedWithNew(deposits: seq<ChainDeposit>, payments: seq<Payment>, d: ChainDeposit, p: Payment)
    requires DepositPaymentsListed(deposits, payments) && d.payment == |payments|
    ensures DepositPaymentsListed(deposits + [d], payments + [p])
  {
    var more, rows := deposits + [d], payments + [p];
    forall q | 0 <= q < |rows| && rows[q].kind.Deposit?
      ensures exists i :: 0 <= i < |more| && more[i].payment == q
    {
      if q < |payments| {
        var i :| 0 <= i < |deposits| && deposits[i].payment == q;
        assert more[i].payment == q;
      } else {
        assert more[|deposits|].payment == q;
      }
    }
  }

  lemma DepositRowAdded(b: Bank, after: Bank, p: Payment, t: OnChainTransfer)
    requires DepositsMatch(b) && !IsCredited(b, t)
    requires p.kind.Deposit? && p.kind.gross == t.amount && p.user == t.user && p.asset == t.asset
    requires after.payments == b.payments + [p]
    requires after.deposits == b.deposits + [ChainDeposit(t.network, t.txHash, t.logIndex, t.user, t.asset, t.amount, |b.payments|)]
    ensures DepositsMatch(after)
  {
    DepositsListedWithNew(b.deposits, b.payments, after.deposits[|b.deposits|], p);
    assert TransfersDistinct(after.deposits) by {
      assert forall i :: 0 <= i < |b.deposits| ==> !SameTransfer(b.deposits[i], t);
    }
    assert DepositsBacked(after.deposits, after.payments);
    assert BackersDistinct(after.deposits);
  }

  lemma RequestsUnaffected(b: Bank, after: Bank, p: Payment)
    requires RequestsMatch(b) && !p.kind.Recharge?
    requires after.payments == b.payments + [p] && after.requests == b.requests
    ensures RequestsMatch(after)
  {
    assert forall i :: 0 <= i < |b.payments| ==> after.payments[i] == b.payments[i];
    forall r: nat | r < |after.requests| && after.requests[r].status == RequestCompleted
      ensures exists q :: 0 <= q < |after.payments| && Pays(after.payments[q], r, after.requests[r])
    {
      var q :| 0 <= q < |b.payments| && Pays(b.payments[q], r, b.requests[r]);
      assert Pays(after.payments[q], r, after.requests[r]);
    }
  }

  /** One completed row of money entering, with its journal: everything but the deposit and request tables. */
  lemma EntryPosted(b: Bank, after: Bank, p: Payment, gross: int, fee: int)
    requires Inv(b) && GoodPayment(p) && !p.kind.Withdrawal? && FindPayment(b.payments, p.user, p.key).None?
    requires PaymentLegs(p) == EntryLegs(p.user, p.asset, gross, fee) && Postable(PaymentLegs(p)) && fee <= gross
    requires after.payments == b.payments + [p] && after.trades == b.trades && after.orders == b.orders && after.holds == b.holds
    requires after.entries == b.entries + AsEntries(PaymentJournal(|b.payments|), PaymentLegs(p))
    ensures GoodRows(after) && KeysUnique(after.payments) && HoldsOwned(after) && MoneyMatches(after) && UsersSolvent(after)
  {
    RowPosted(b, after, p);
    EntrySolvent(b, after, p.user, p.asset, gross, fee);
  }

  lemma DepositKeeps(b: Bank, t: OnChainTransfer, rates: Rates)
    requires Inv(b) && SaneRates(rates) && CreditDeposit(b, t, rates).Credited?
    ensures Inv(CreditDeposit(b, t, rates).bank)
  {
    var after, quote := CreditDeposit(b, t, rates).bank, QuoteDeposit(t.amount, rates);
    var p := Payment(t.user, DepositKey(t), Deposit(t.amount, quote.platformFee), t.asset, quote.net, PaymentCompleted);
    assert PaymentLegs(p)[0].amount == t.amount > 0;
    FeeWithinAmount(t.amount, rates.depositPct, rates);
    EntryPosted(b, after, p, t.amount, quote.platformFee);
    DepositRowAdded(b, after, p, t);
    RequestsUnaffected(b, after, p);
  }

  // ---- Recharges ----

  /** A request that is not completed may change, or appear, without any money moving. */
  lemma RequestRowKeeps(b: Bank, after: Bank)
    requires Inv(b) && after == b.(requests := after.requests) && |after.requests| >= |b.requests|
    requires forall r :: 0 <= r < |b.requests| ==>
        (b.requests[r].status == RequestCompleted ==> after.requests[r] == b.requests[r])
    requires forall r :: 0 <= r < |after.requests| ==>
        (after.requests[r].status == RequestCompleted ==> r < |b.requests| && after.requests[r] == b.requests[r])
    ensures Inv(after)
  {
    HoldsUntouched(b, after);
    NothingPosted(b, after);
    forall r: nat | r < |after.requests| && after.requests[r].status == RequestCompleted
      ensures exists p :: 0 <= p < |after.payments| && Pays(after.payments[p], r, after.requests[r])
    {
      var p :| 0 <= p < |b.payments| && Pays(b.payments[p], r, b.requests[r]);
      assert Pays(after.payments[p], r, after.requests[r]);
    }
  }

  lemma DepositsUnaffected(b: Bank, after: Bank, p: Payment)
    requires DepositsMatch(b) && !p.kind.Deposit?
    requires after.payments == b.payments + [p] && after.deposits == b.deposits
    ensures DepositsMatch(after)
  {
    assert forall i :: 0 <= i < |b.payments| ==> after.payments[i] == b.payments[i];
  }

  lemma RequestCompletedOnce(b: Bank, after: Bank, p: Payment, r: nat)
    requires RequestsMatch(b) && r < |b.requests| == |after.requests| && b.requests[r].status != RequestCompleted
    requires after.payments == b.payments + [p]
    requires after.requests == b.requests[r := after.requests[r]] && after.requests[r].status == RequestCompleted
    requires Pays(p, r, after.requests[r])
    ensures RequestsMatch(after)
  {
    var n := |b.payments|;
    assert forall i :: 0 <= i < n ==> after.payments[i] == b.payments[i];
    assert forall q :: 0 <= q < n && b.payments[q].kind.Recharge? ==> b.payments[q].kind.request != r;
    forall s: nat | s < |after.requests| && after.requests[s].status == RequestCompleted
      ensures exists q :: 0 <= q < |after.payments| && Pays(after.payments[q], s, after.requests[s])
    {
      if s == r {
        assert Pays(after.payments[n], s, after.requests[s]);
      } else {
        var q :| 0 <= q < n && Pays(b.payments[q], s, b.requests[s]);
        assert Pays(after.payments[q], s, after.requests[s]);
      }
    }
  }

  lemma ConfirmKeeps(b: Bank, operator: string, r: nat, rates: Rates)
    requires Inv(b) && SaneRates(rates) && ConfirmRequest(b, operator, r, rates).Some?
    ensures Inv(ConfirmRequest(b, operator, r, rates).value)
  {
    var after, req := ConfirmRequest(b, operator, r, rates).value, b.requests[r];
    var fee := QuoteDeposit(req.amount, rates).platformFee;
    var p := Payment(req.user, RechargeKey(r), Recharge(r, fee), req.asset, req.amount, PaymentCompleted);
    assert PaymentLegs(p)[0].amount == req.amount > 0;
    FeeWithinAmount(req.amount, rates.depositPct, rates);
    EntryPosted(b, after, p, req.amount, fee);
    DepositsUnaffected(b, after, p);
    RequestCompletedOnce(b, after, p, r);
  }
}
