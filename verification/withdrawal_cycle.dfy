/** One cycle of the withdrawal service (src/withdrawals/withdrawals.service.ts), and what it does to each row. */
module WithdrawalCycle {
  import opened Wrappers
  import opened Fees
  import opened Ledger
  import opened Banking
  import opened Custody
  import opened CustodyPayments
  import opened Withdrawals

  datatype ChainStatus = Success | Reverted | StillPending

  /** What the wallet answers for a payment: a transaction hash, or an exception. */
  type Wallet = nat -> Option<string>

  function EmitOne(b: Bank, item: Item, wallet: Wallet): Bank
    requires Remembers(b, item)
  {
    var marked := Item(item.id, item.row.(kind := item.row.kind.(stage := Broadcasting)));
    var broadcasting := WriteStage(b, item, Broadcasting);
    match wallet(item.id)
    case Some(txHash) => WriteStage(broadcasting, marked, Broadcast(txHash))
    case None => WriteFailed(broadcasting, marked)
  }

  function EmitAll(b: Bank, items: seq<Item>, wallet: Wallet): (r: Bank)
    requires forall i :: 0 <= i < |items| ==> Remembers(b, items[i])
    ensures |r.payments| == |b.payments|
  {
    if |items| == 0 then b
    else
      assert Remembers(b, items[|items| - 1]);
      EmitOne(EmitAll(b, items[..|items| - 1], wallet), items[|items| - 1], wallet)
  }

  /** What the chain says of a sent row; a row without a hash is left alone. */
  function Verdict(item: Item, chain: string -> ChainStatus): ChainStatus
    requires item.row.kind.Withdrawal? && item.row.kind.stage.Broadcast?
  {
    if item.row.kind.stage.txHash == "" then StillPending else chain(item.row.kind.stage.txHash)
  }

  predicate Settlable(b: Bank, items: seq<Item>) {
    forall i :: 0 <= i < |items| ==> Remembers(b, items[i]) && items[i].row.kind.stage.Broadcast?
  }

  /** None when a completion throws: the cycle ends there. */
  function SettleOne(b: Bank, item: Item, chain: string -> ChainStatus): (r: Option<Bank>)
    requires Remembers(b, item)
    ensures r.Some? ==> |r.value.payments| == |b.payments|
  {
    if !item.row.kind.stage.Broadcast? then Some(b)
    else match Verdict(item, chain)
      case Success => WriteCompleted(b, item)
      case Reverted => Some(WriteFailed(b, item))
      case StillPending => Some(b)
  }

  function SettleAll(b: Bank, items: seq<Item>, chain: string -> ChainStatus): (r: (Bank, bool))
    requires forall i :: 0 <= i < |items| ==> Remembers(b, items[i])
    ensures |r.0.payments| == |b.payments|
  {
    if |items| == 0 then (b, true)
    else
      assert Remembers(b, items[|items| - 1]);
      var (before, ok) := SettleAll(b, items[..|items| - 1], chain);
      if !ok then (before, false)
      else match SettleOne(before, items[|items| - 1], chain)
        case Some(after) => (after, true)
        case None => (before, false)
  }

  function SentCount(items: seq<Item>, wallet: Wallet): nat {
    if |items| == 0 then 0
    else SentCount(items[..|items| - 1], wallet) + if wallet(items[|items| - 1].id).Some? then 1 else 0
  }

  function SettledCount(items: seq<Item>, chain: string -> ChainStatus): nat
    requires forall i :: 0 <= i < |items| ==> items[i].row.kind.Withdrawal? && items[i].row.kind.stage.Broadcast?
  {
    if |items| == 0 then 0
    else
      var last := items[|items| - 1];
      SettledCount(items[..|items| - 1], chain) + if Verdict(last, chain) != StillPending then 1 else 0
  }

  function Cycle(b: Bank, wallet: Wallet, chain: string -> ChainStatus): Bank {
    var emitted := EmitAll(b, PendingRows(b, false, 0, BATCH), wallet);
    SettleAll(emitted, PendingRows(emitted, true, 0, BATCH), chain).0
  }

  // ---- The outcome of a row, on the tables alone ----

  predicate HoldIs(b: Bank, p: nat, status: HoldStatus)
    requires IsWithdrawal(b, p)
  {
    var row := b.payments[p];
    row.kind.hold < |b.holds| && b.holds[row.kind.hold] == Hold(UserAccount(row.user, row.asset), row.kind.totalDebit, status)
  }

  predicate Journals(b: Bank, p: nat, legs: seq<Leg>) {
    LegsOf(b.entries, PaymentJournal(p)) == legs
  }

  /** The row is at another stage; its hold is active and nothing is posted. */
  predicate Waits(b: Bank, after: Bank, p: nat, stage: Stage) {
    && IsWithdrawal(b, p) && p < |after.payments|
    && after.payments[p] == b.payments[p].(kind := b.payments[p].kind.(stage := stage))
    && HoldIs(after, p, Active) && Journals(after, p, [])
  }

  /** The row is completed, its hold committed, and one journal takes the total from the user. */
  predicate PaidOut(b: Bank, after: Bank, p: nat) {
    && IsWithdrawal(b, p) && p < |after.payments|
    && var row := b.payments[p];
       && after.payments[p] == row.(status := PaymentCompleted, kind := row.kind.(stage := StageCompleted))
       && HoldIs(after, p, Committed)
       && Journals(after, p,
                   [Leg(UserAccount(row.user, row.asset), Debit, row.kind.totalDebit), Leg(CustodyAccount(row.asset), Credit, row.amount)]
                   + if row.kind.totalFee > 0 then [Leg(FeeAccount(row.asset), Credit, row.kind.totalFee)] else [])
  }

  /** The row is failed, its hold released, and nothing is posted. */
  predicate GivenBack(b: Bank, after: Bank, p: nat) {
    && IsWithdrawal(b, p) && p < |after.payments|
    && after.payments[p] == b.payments[p].(status := PaymentFailed, kind := b.payments[p].kind.(stage := StageFailed))
    && HoldIs(after, p, Released) && Journals(after, p, [])
  }

  predicate SameElsewhere(b: Bank, after: Bank) {
    && |after.payments| == |b.payments| && after.orders == b.orders && after.trades == b.trades
    && after.deposits == b.deposits && after.requests == b.requests
  }

  /** Each listed pending row is sent with its hash, or given back if the wallet refused; no other row changes. */
  ghost predicate Emitted(b: Bank, after: Bank, wallet: Wallet) {
    var list := PendingRows(b, false, 0, 20);
    && SameElsewhere(b, after) && after.entries == b.entries
    && forall p: nat :: p < |b.payments| ==>
         if !Listed(list, p) then after.payments[p] == b.payments[p]
         else
           && InStage(b, p, PendingBroadcast)
           && if wallet(p).Some? then Waits(b, after, p, Broadcast(wallet(p).value)) else GivenBack(b, after, p)
  }

  /** Each listed sent row is paid out if the chain confirmed it, given back if the chain reverted it, and waits otherwise. */
  ghost predicate Reconciled(b: Bank, after: Bank, chain: string -> ChainStatus) {
    var list := PendingRows(b, true, 0, 20);
    && SameElsewhere(b, after)
    && forall p: nat :: p < |b.payments| ==>
         if !Listed(list, p) then after.payments[p] == b.payments[p]
         else
           && IsSent(b, p)
           && var txHash := b.payments[p].kind.stage.txHash;
              if txHash != "" && chain(txHash) == Success then PaidOut(b, after, p)
              else if txHash != "" && chain(txHash) == Reverted then GivenBack(b, after, p)
              else Waits(b, after, p, Broadcast(txHash))
  }

  // ---- Proofs ----

  /** In a good bank the row says what its hold and its journal are. */
  lemma RowTellsHold(b: Bank, p: nat)
    requires HoldsOwned(b) && IsWithdrawal(b, p)
    ensures HoldIs(b, p, match b.payments[p].status case PaymentCompleted => Committed case PaymentFailed => Released case Processing => Active)
  {
    assert Claims(b, ByWithdrawal(p), b.payments[p].kind.hold);
  }

  lemma RowTellsJournal(b: Bank, p: nat)
    requires MoneyMatches(b) && IsWithdrawal(b, p)
    ensures Journals(b, p, if b.payments[p].status == PaymentCompleted then WithdrawLegs(b.payments[p]) else [])
  {
    assert LegsOf(b.entries, PaymentJournal(p)) == ExpectedLegs(b, PaymentJournal(p));
  }

  lemma RowTellsOutcome(b: Bank, after: Bank, p: nat)
    requires Inv(after) && IsWithdrawal(b, p) && b.payments[p].status == Processing && p < |after.payments|
    ensures var row, now := b.payments[p], after.payments[p];
            && (now.kind.Withdrawal? && now == row.(kind := row.kind.(stage := now.kind.stage)) ==> Waits(b, after, p, now.kind.stage))
            && (now == row.(status := PaymentCompleted, kind := row.kind.(stage := StageCompleted)) ==> PaidOut(b, after, p))
            && (now == row.(status := PaymentFailed, kind := row.kind.(stage := StageFailed)) ==> GivenBack(b, after, p))
  {
    if IsWithdrawal(after, p) {
      RowTellsHold(after, p);
      RowTellsJournal(after, p);
    }
  }

  predicate OnlyRow(b: Bank, after: Bank, id: nat) {
    && SameElsewhere(b, after)
    && forall p: nat :: p < |b.payments| && p != id ==> after.payments[p] == b.payments[p]
  }

  /** The rows that were read become what `f` says; the others stay. */
  ghost predicate RowsBecome(b: Bank, after: Bank, items: seq<Item>, f: Item -> Payment) {
    && SameElsewhere(b, after)
    && (forall p: nat :: p < |b.payments| && !Listed(items, p) ==> after.payments[p] == b.payments[p])
    && (forall i :: 0 <= i < |items| ==> items[i].id < |after.payments| && after.payments[items[i].id] == f(items[i]))
  }

  lemma OneMoreRow(b: Bank, mid: Bank, after: Bank, items: seq<Item>, f: Item -> Payment)
    requires |items| > 0 && RowsBecome(b, mid, items[..|items| - 1], f)
    requires forall i, j :: 0 <= i < j < |items| ==> items[i].id != items[j].id
    requires var last := items[|items| - 1];
             OnlyRow(mid, after, last.id) && last.id < |after.payments| && after.payments[last.id] == f(last)
    ensures RowsBecome(b, after, items, f)
  {
    var shorter, last := items[..|items| - 1], items[|items| - 1];
    assert forall i :: 0 <= i < |shorter| ==> shorter[i] == items[i];
    forall p: nat | p < |b.payments| && !Listed(items, p)
      ensures after.payments[p] == b.payments[p]
    {
      assert items[|items| - 1].id != p && !Listed(shorter, p);
    }
  }

  function EmitTo(item: Item, wallet: Wallet): Payment {
    var row := item.row;
    if !row.kind.Withdrawal? then row
    else match wallet(item.id)
      case Some(txHash) => row.(kind := row.kind.(stage := Broadcast(txHash)))
      case None => row.(status := PaymentFailed, kind := row.kind.(stage := StageFailed))
  }

  function SettleTo(item: Item, chain: string -> ChainStatus): Payment {
    var row := item.row;
    if !row.kind.Withdrawal? || !row.kind.stage.Broadcast? || row.kind.stage.txHash == "" then row
    else match chain(row.kind.stage.txHash)
      case Success => row.(status := PaymentCompleted, kind := row.kind.(stage := StageCompleted))
      case Reverted => row.(status := PaymentFailed, kind := row.kind.(stage := StageFailed))
      case StillPending => row
  }

  /** The row is marked, which keeps everything else. */
  lemma MarkedOne(b: Bank, item: Item)
    requires Inv(b) && Fresh(b, item) && Ready(b, item.id, false)
    ensures var after := WriteStage(b, item, Broadcasting);
            && Inv(after) && InStage(after, item.id, Broadcasting) && OnlyRow(b, after, item.id)
            && after.entries == b.entries
  {
    FreshWrites(b, item);
    StageMoved(b, item.id, Broadcasting);
  }

  lemma EmittedOne(b: Bank, item: Item, wallet: Wallet)
    requires Inv(b) && Fresh(b, item) && Ready(b, item.id, false)
    ensures Inv(EmitOne(b, item, wallet))
    ensures OnlyRow(b, EmitOne(b, item, wallet), item.id) && EmitOne(b, item, wallet).entries == b.entries
    ensures EmitOne(b, item, wallet).payments[item.id] == EmitTo(item, wallet)
  {
    var marked := Item(item.id, item.row.(kind := item.row.kind.(stage := Broadcasting)));
    var broadcasting := WriteStage(b, item, Broadcasting);
    MarkedOne(b, item);
    FreshWrites(broadcasting, marked);
    match wallet(item.id)
    case Some(txHash) => StageMoved(broadcasting, item.id, Broadcast(txHash));
    case None => WithdrawalFailed(broadcasting, item.id);
  }

  lemma {:induction false} EmittedEach(b: Bank, items: seq<Item>, wallet: Wallet)
    requires Inv(b) && ReadyItems(b, items, false)
    ensures var after := EmitAll(b, items, wallet);
            Inv(after) && after.entries == b.entries && RowsBecome(b, after, items, item => EmitTo(item, wallet))
    decreases |items|
  {
    if |items| > 0 {
      var shorter, last := items[..|items| - 1], items[|items| - 1];
      EmittedEach(b, shorter, wallet);
      StillFresh(b, EmitAll(b, shorter, wallet), items, item => EmitTo(item, wallet), false);
      EmittedOne(EmitAll(b, shorter, wallet), last, wallet);
      OneMoreRow(b, EmitAll(b, shorter, wallet), EmitAll(b, items, wallet), items, item => EmitTo(item, wallet));
    }
  }

  /** The row that comes next has not changed since it was read. */
  lemma StillFresh(b: Bank, mid: Bank, items: seq<Item>, f: Item -> Payment, sent: bool)
    requires |items| > 0 && ReadyItems(b, items, sent) && RowsBecome(b, mid, items[..|items| - 1], f)
    ensures var last := items[|items| - 1]; Fresh(mid, last) && Ready(mid, last.id, sent)
  {
    var shorter, last := items[..|items| - 1], items[|items| - 1];
    assert forall i :: 0 <= i < |shorter| ==> shorter[i] == items[i];
    assert Fresh(b, last) && Ready(b, last.id, sent) && !Listed(shorter, last.id);
  }

  lemma {:induction false} PendingAreReady(b: Bank, sent: bool)
    ensures ReadyItems(b, PendingRows(b, sent, 0, BATCH), sent)
  {
  }

  lemma EmittedRow(b: Bank, after: Bank, item: Item, wallet: Wallet)
    requires Inv(after) && Fresh(b, item) && Ready(b, item.id, false)
    requires item.id < |after.payments| && after.payments[item.id] == EmitTo(item, wallet)
    ensures if wallet(item.id).Some? then Waits(b, after, item.id, Broadcast(wallet(item.id).value)) else GivenBack(b, after, item.id)
  {
    RowTellsOutcome(b, after, item.id);
  }

  /** What happens to the rows of a batch, under the invariant of the bank. */
  lemma {:induction false} EmissionOutcome(b: Bank, wallet: Wallet)
    requires Inv(b)
    ensures Inv(EmitAll(b, PendingRows(b, false, 0, BATCH), wallet))
    ensures Emitted(b, EmitAll(b, PendingRows(b, false, 0, BATCH), wallet), wallet)
  {
    var list := PendingRows(b, false, 0, BATCH);
    var after := EmitAll(b, list, wallet);
    PendingAreReady(b, false);
    EmittedEach(b, list, wallet);
    forall p: nat | p < |b.payments| && Listed(list, p)
      ensures InStage(b, p, PendingBroadcast)
      ensures if wallet(p).Some? then Waits(b, after, p, Broadcast(wallet(p).value)) else GivenBack(b, after, p)
    {
      var i :| 0 <= i < |list| && list[i].id == p;
      EmittedRow(b, after, list[i], wallet);
    }
  }

  /** Under the invariant no completion throws. */
  lemma SettledOne(b: Bank, item: Item, chain: string -> ChainStatus)
    requires Inv(b) && Fresh(b, item) && Ready(b, item.id, true)
    ensures SettleOne(b, item, chain).Some?
    ensures var after := SettleOne(b, item, chain).value;
            Inv(after) && OnlyRow(b, after, item.id) && after.payments[item.id] == SettleTo(item, chain)
  {
    FreshWrites(b, item);
    match Verdict(item, chain)
    case Success =>
      assert GoodPayment(item.row);
      WithdrawalJournalAccepted(item.row);
      WithdrawalCompleted(b, item.id);
    case Reverted => WithdrawalFailed(b, item.id);
    case StillPending =>
  }

  lemma {:induction false} SettledEach(b: Bank, items: seq<Item>, chain: string -> ChainStatus)
    requires Inv(b) && ReadyItems(b, items, true)
    ensures SettleAll(b, items, chain).1
    ensures var after := SettleAll(b, items, chain).0;
            Inv(after) && RowsBecome(b, after, items, item => SettleTo(item, chain))
    decreases |items|
  {
    if |items| > 0 {
      var shorter, last := items[..|items| - 1], items[|items| - 1];
      SettledEach(b, shorter, chain);
      StillFresh(b, SettleAll(b, shorter, chain).0, items, item => SettleTo(item, chain), true);
      SettledOne(SettleAll(b, shorter, chain).0, last, chain);
      OneMoreRow(b, SettleAll(b, shorter, chain).0, SettleAll(b, items, chain).0, items, item => SettleTo(item, chain));
    }
  }

  lemma {:induction false} ReconciliationOutcome(b: Bank, chain: string -> ChainStatus)
    requires Inv(b)
    ensures SettleAll(b, PendingRows(b, true, 0, BATCH), chain).1
    ensures Inv(SettleAll(b, PendingRows(b, true, 0, BATCH), chain).0)
    ensures Reconciled(b, SettleAll(b, PendingRows(b, true, 0, BATCH), chain).0, chain)
  {
    var list := PendingRows(b, true, 0, BATCH);
    var after := SettleAll(b, list, chain).0;
    PendingAreReady(b, true);
    SettledEach(b, list, chain);
    forall p: nat | p < |b.payments| && Listed(list, p)
      ensures IsSent(b, p)
      ensures var txHash := b.payments[p].kind.stage.txHash;
              if txHash != "" && chain(txHash) == Success then PaidOut(b, after, p)
              else if txHash != "" && chain(txHash) == Reverted then GivenBack(b, after, p)
              else Waits(b, after, p, Broadcast(txHash))
    {
      var i :| 0 <= i < |list| && list[i].id == p;
      assert list[i].row == b.payments[p];
      RowTellsOutcome(b, after, p);
    }
  }
}
