/** The withdrawal service as it runs when nothing crashes, and how one cycle is a run of the worker machine. */
module WithdrawalService {
  import opened Wrappers
  import opened Fees
  import opened Ledger
  import opened Banking
  import opened DatabaseRows
  import opened Custody
  import opened Idempotency
  import opened Withdrawals
  import opened WithdrawalCycle

  class WithdrawalsService {
    const ledger: LedgerService
    var working: bool

    constructor (ledger: LedgerService)
      ensures this.ledger == ledger && !working
    {
      this.ledger, working := ledger, false;
    }

    /** The request's transaction: the payment row, then the hold of the total. */
    method CommitRequest(cfg: BankConfig, user: string, asset: string, amount: int, key: string, rates: Rates) returns (out: Progress)
      requires WellFormed(cfg, DoRequestWithdrawal(user, asset, amount, key, rates))
      modifies ledger.db
      ensures (ledger.db.Rows(), out) == Finish(cfg, old(ledger.db.Rows()), DoRequestWithdrawal(user, asset, amount, key, rates))
    {
      var db := ledger.db;
      var available := ledger.AvailableOf(UserAccount(user, asset));
      var quote := QuoteWithdraw(amount, rates);
      if available < quote.total {
        return Refused;
      }
      var duplicate := FindPayment(db.payments, user, key);
      if duplicate.Some? {
        return Returned(duplicate.value);
      }
      var id, hold := |db.payments|, |db.holds|;
      db.payments := db.payments +
        [Payment(user, key, Withdrawal(PendingBroadcast, quote.totalFee, quote.total, hold), asset, amount, Processing)];
      var created := ledger.CreateHold(UserAccount(user, asset), quote.total);
      return Returned(id);
    }

    method Request(cfg: BankConfig, user: string, asset: string, amount: int, key: string, rates: Rates) returns (out: Progress)
      modifies ledger.db
      ensures (ledger.db.Rows(), out) == Once(cfg, old(ledger.db.Rows()), DoRequestWithdrawal(user, asset, amount, key, rates))
      ensures old(Inv(ledger.db.Rows())) && SaneRates(rates) ==> Inv(ledger.db.Rows())
    {
      OnceKeepsInv(cfg, ledger.db.Rows(), DoRequestWithdrawal(user, asset, amount, key, rates));
      if Upper(asset) !in {"USDT", "USDC"} || amount <= 0 {
        return Refused;
      }
      var existing := FindPayment(ledger.db.payments, user, key);
      if existing.Some? {
        return Returned(existing.value);
      }
      out := CommitRequest(cfg, user, asset, amount, key, rates);
    }

    method SaveStage(item: Item, stage: Stage)
      requires Remembers(ledger.db.Rows(), item)
      modifies ledger.db`payments
      ensures ledger.db.Rows() == WriteStage(old(ledger.db.Rows()), item, stage)
    {
      ledger.db.payments := ledger.db.payments[item.id := item.row.(kind := item.row.kind.(stage := stage))];
    }

    method FailAndRefund(item: Item)
      requires Remembers(ledger.db.Rows(), item)
      modifies ledger.db
      ensures ledger.db.Rows() == WriteFailed(old(ledger.db.Rows()), item)
    {
      ledger.SetHoldStatus(item.row.kind.hold, Released);
      var db := ledger.db;
      db.payments := db.payments[item.id := item.row.(status := PaymentFailed, kind := item.row.kind.(stage := StageFailed))];
    }

    method Complete(item: Item) returns (ok: bool)
      requires Remembers(ledger.db.Rows(), item)
      modifies ledger.db
      ensures Transaction(old(ledger.db.Rows()), WriteCompleted(old(ledger.db.Rows()), item), ok, ledger.db.Rows())
    {
      var db := ledger.db;
      var saved, p := db.Rows(), item.row;
      ledger.SetHoldStatus(p.kind.hold, Committed);
      var entries := [Leg(UserAccount(p.user, p.asset), Debit, p.kind.totalDebit), Leg(CustodyAccount(p.asset), Credit, p.amount)];
      if p.kind.totalFee > 0 {
        entries := entries + [Leg(FeeAccount(p.asset), Credit, p.kind.totalFee)];
      }
      assert entries == WithdrawLegs(p);
      ok := ledger.PostJournal(PaymentJournal(item.id), entries);
      if !ok {
        db.RollBack(saved);
        return;
      }
      db.payments := db.payments[item.id := p.(status := PaymentCompleted, kind := p.kind.(stage := StageCompleted))];
    }

    /** One pending row: marked, sent, and recorded or refunded. */
    method Emit(item: Item, wallet: Wallet) returns (sent: bool)
      requires Remembers(ledger.db.Rows(), item)
      modifies ledger.db
      ensures ledger.db.Rows() == EmitOne(old(ledger.db.Rows()), item, wallet)
      ensures sent == wallet(item.id).Some?
    {
      SaveStage(item, Broadcasting);
      var p := Item(item.id, item.row.(kind := item.row.kind.(stage := Broadcasting)));
      var txHash := wallet(p.id);
      if txHash.Some? {
        SaveStage(p, Broadcast(txHash.value));
      } else {
        FailAndRefund(p);
      }
      return txHash.Some?;
    }

    method ProcessPending(wallet: Wallet) returns (n: nat)
      modifies ledger.db
      ensures ledger.db.Rows() == EmitAll(old(ledger.db.Rows()), PendingRows(old(ledger.db.Rows()), false, 0, BATCH), wallet)
      ensures old(Inv(ledger.db.Rows())) ==> Inv(ledger.db.Rows()) && Emitted(old(ledger.db.Rows()), ledger.db.Rows(), wallet)
      ensures n == SentCount(PendingRows(old(ledger.db.Rows()), false, 0, BATCH), wallet)
    {
      ghost var b := ledger.db.Rows();
      var list := PendingRows(ledger.db.Rows(), false, 0, BATCH);
      n := 0;
      for i := 0 to |list|
        invariant ledger.db.Rows() == EmitAll(b, list[..i], wallet)
        invariant n == SentCount(list[..i], wallet)
      {
        assert list[..i + 1][..i] == list[..i];
        var sent := Emit(list[i], wallet);
        n := if sent then n + 1 else n;
      }
      assert list[..|list|] == list;
      if Inv(b) {
        EmissionOutcome(b, wallet);
      }
    }

    /** One sent row: completed, refunded or left alone, as the chain says. A completion that throws changes nothing. */
    method Settle(p: Item, chain: string -> ChainStatus) returns (ok: bool, n: nat)
      requires Remembers(ledger.db.Rows(), p) && p.row.kind.stage.Broadcast?
      modifies ledger.db
      ensures Transaction(old(ledger.db.Rows()), SettleOne(old(ledger.db.Rows()), p, chain), ok, ledger.db.Rows())
      ensures ok ==> n == if Verdict(p, chain) == StillPending then 0 else 1
    {
      var txHash := p.row.kind.stage.txHash;
      if txHash == "" {
        return true, 0;
      }
      var status := chain(txHash);
      if status == Success {
        ok := Complete(p);
        return ok, 1;
      } else if status == Reverted {
        FailAndRefund(p);
        return true, 1;
      }
      return true, 0;
    }

    /** The loop over the rows that were read; `all` tells whether none of them threw. */
    method SettleEach(list: seq<Item>, chain: string -> ChainStatus) returns (n: nat, ghost all: bool)
      requires Settlable(ledger.db.Rows(), list)
      modifies ledger.db
      ensures (ledger.db.Rows(), all) == SettleAll(old(ledger.db.Rows()), list, chain)
      ensures all ==> n == SettledCount(list, chain)
    {
      ghost var b := ledger.db.Rows();
      n, all := 0, true;
      for i := 0 to |list|
        invariant (ledger.db.Rows(), true) == SettleAll(b, list[..i], chain)
        invariant n == SettledCount(list[..i], chain)
      {
        assert list[..i + 1][..i] == list[..i];
        var ok, settled := Settle(list[i], chain);
        if !ok {
          SettleStops(b, list, chain, i + 1);
          all := false;
          return;
        }
        n := n + settled;
      }
      assert list[..|list|] == list;
    }

    method Reconcile(chain: string -> ChainStatus) returns (n: nat)
      modifies ledger.db
      ensures ledger.db.Rows() == SettleAll(old(ledger.db.Rows()), PendingRows(old(ledger.db.Rows()), true, 0, BATCH), chain).0
      ensures old(Inv(ledger.db.Rows())) ==> Inv(ledger.db.Rows()) && Reconciled(old(ledger.db.Rows()), ledger.db.Rows(), chain)
      ensures old(Inv(ledger.db.Rows())) ==> n == SettledCount(PendingRows(old(ledger.db.Rows()), true, 0, BATCH), chain)
    {
      if Inv(ledger.db.Rows()) {
        ReconciliationOutcome(ledger.db.Rows(), chain);
      }
      ghost var all;
      n, all := SettleEach(PendingRows(ledger.db.Rows(), true, 0, BATCH), chain);
    }

    method RunCycle(wallet: Wallet, chain: string -> ChainStatus) returns (broadcast: nat, reconciled: nat)
      modifies this`working, ledger.db
      ensures working == old(working)
      ensures ledger.db.Rows() == if old(working) then old(ledger.db.Rows()) else Cycle(old(ledger.db.Rows()), wallet, chain)
      ensures old(Inv(ledger.db.Rows())) ==> Inv(ledger.db.Rows())
      ensures old(Inv(ledger.db.Rows())) && !old(working) ==>
                exists mid :: Inv(mid) && Emitted(old(ledger.db.Rows()), mid, wallet) && Reconciled(mid, ledger.db.Rows(), chain)
    {
      CycleKeepsInv(ledger.db.Rows(), wallet, chain);
      broadcast, reconciled := 0, 0;
      if working {
        return;
      }
      working := true;
      broadcast := ProcessPending(wallet);
      reconciled := Reconcile(chain);
      working := false;
    }
  }

  lemma {:induction false} SettleStops(b: Bank, items: seq<Item>, chain: string -> ChainStatus, k: nat)
    requires forall i :: 0 <= i < |items| ==> Remembers(b, items[i])
    requires k <= |items| && !SettleAll(b, items[..k], chain).1
    ensures SettleAll(b, items, chain) == SettleAll(b, items[..k], chain)
  {
    if k == |items| {
      assert items[..k] == items;
    } else {
      assert items[..|items| - 1][..k] == items[..k];
      SettleStops(b, items[..|items| - 1], chain, k);
    }
  }

  // ---- A cycle is a run of the machine ----

  type Ticks = evs: seq<Withdrawals.Event> | forall i :: 0 <= i < |evs| ==> evs[i].Tick?

  lemma {:induction false} EmitFromFront(b: Bank, items: seq<Item>, wallet: Wallet)
    requires |items| > 0 && forall i :: 0 <= i < |items| ==> Remembers(b, items[i])
    ensures Remembers(b, items[0])
    ensures EmitAll(b, items, wallet) == EmitAll(EmitOne(b, items[0], wallet), items[1..], wallet)
    decreases |items|
  {
    var shorter := items[..|items| - 1];
    if |items| == 1 {
      assert shorter == [] && items[1..] == [];
    } else {
      EmitFromFront(b, shorter, wallet);
      assert items[1..][..|items| - 2] == shorter[1..];
    }
  }

  lemma {:induction false} SettleFromFront(b: Bank, items: seq<Item>, chain: string -> ChainStatus)
    requires |items| > 0 && Settlable(b, items)
    ensures Remembers(b, items[0])
    ensures SettleAll(b, items, chain)
            == var after := SettleOne(b, items[0], chain);
               if after.Some? then SettleAll(after.value, items[1..], chain) else (b, false)
    decreases |items|
  {
    var shorter := items[..|items| - 1];
    if |items| == 1 {
      assert shorter == [] && items[1..] == [];
    } else {
      SettleFromFront(b, shorter, chain);
      assert items[1..][..|items| - 2] == shorter[1..];
    }
  }

  lemma {:induction false} RunAfter(cfg: BankConfig, s: Process, first: Ticks, second: Ticks)
    ensures Withdrawals.Run(cfg, s, first + second) == Withdrawals.Run(cfg, Withdrawals.Run(cfg, s, first), second)
    decreases |first|
  {
    if |first| == 0 {
      assert first + second == second;
    } else {
      assert (first + second)[1..] == first[1..] + second;
      RunAfter(cfg, Withdrawals.Next(cfg, s, first[0]), first[1..], second);
    }
  }

  lemma {:induction false} OneTick(cfg: BankConfig, s: Process, answer: Answer)
    ensures Withdrawals.Run(cfg, s, [Tick(answer)]) == Step(s, answer)
  {
    assert [Tick(answer)][1..] == [];
  }

  /** What the outside world answers while one row is emitted. */
  function EmitAnswers(item: Item, wallet: Wallet): Ticks {
    match wallet(item.id)
    case Some(txHash) => [Tick(SaveWorked), Tick(WalletSent(txHash)), Tick(SaveWorked)]
    case None => [Tick(SaveWorked), Tick(WalletThrew(false)), Tick(SaveWorked)]
  }

  lemma {:induction false} EmitOneRuns(cfg: BankConfig, s: Process, wallet: Wallet)
    requires s.worker.Emitting? && |s.worker.todo| > 0 && Remembers(s.bank, s.worker.todo[0])
    ensures var after := Withdrawals.Run(cfg, s, EmitAnswers(s.worker.todo[0], wallet));
            after.worker == Emitting(s.worker.todo[1..]) && after.bank == EmitOne(s.bank, s.worker.todo[0], wallet)
  {
    var evs := EmitAnswers(s.worker.todo[0], wallet);
    assert evs == [evs[0]] + ([evs[1]] + [evs[2]]);
    RunAfter(cfg, s, [evs[0]], [evs[1]] + [evs[2]]);
    OneTick(cfg, s, evs[0].answer);
    var s1 := Step(s, evs[0].answer);
    RunAfter(cfg, s1, [evs[1]], [evs[2]]);
    OneTick(cfg, s1, evs[1].answer);
    OneTick(cfg, Step(s1, evs[1].answer), evs[2].answer);
  }

  /** Emitting the rows that were read, one after the other, is what the machine does when nothing crashes. */
  lemma {:induction false} EmittingIsTicking(cfg: BankConfig, s: Process, wallet: Wallet) returns (evs: Ticks)
    requires s.worker.Emitting? && forall i :: 0 <= i < |s.worker.todo| ==> Remembers(s.bank, s.worker.todo[i])
    ensures Withdrawals.Run(cfg, s, evs).worker == Emitting([])
    ensures Withdrawals.Run(cfg, s, evs).bank == EmitAll(s.bank, s.worker.todo, wallet)
    decreases |s.worker.todo|
  {
    var todo := s.worker.todo;
    evs := [];
    if |todo| == 0 {
      assert todo == [];
    } else {
      EmitFromFront(s.bank, todo, wallet);
      EmitOneRuns(cfg, s, wallet);
      var first := EmitAnswers(todo[0], wallet);
      var after := Withdrawals.Run(cfg, s, first);
      var rest := EmittingIsTicking(cfg, after, wallet);
      RunAfter(cfg, s, first, rest);
      evs := first + rest;
    }
  }

  function SettleAnswers(item: Item, chain: string -> ChainStatus): Ticks
    requires item.row.kind.Withdrawal? && item.row.kind.stage.Broadcast?
  {
    match Verdict(item, chain)
    case Success => [Tick(ChainConfirmed), Tick(SaveWorked)]
    case Reverted => [Tick(ChainReverted), Tick(SaveWorked)]
    case StillPending => [Tick(ChainPending)]
  }

  lemma {:induction false} SettleOneRuns(cfg: BankConfig, s: Process, chain: string -> ChainStatus)
    requires s.worker.Reconciling? && |s.worker.todo| > 0 && Settlable(s.bank, s.worker.todo)
    ensures Remembers(s.bank, s.worker.todo[0])
    ensures var after := Withdrawals.Run(cfg, s, SettleAnswers(s.worker.todo[0], chain));
            match SettleOne(s.bank, s.worker.todo[0], chain)
            case Some(bank) => after.bank == bank && after.worker == Reconciling(s.worker.todo[1..])
            case None => after.bank == s.bank && after.worker == Idle
  {
    var item := s.worker.todo[0];
    assert Remembers(s.bank, item);
    var evs := SettleAnswers(item, chain);
    OneTick(cfg, s, evs[0].answer);
    if |evs| == 1 {
      assert evs == [evs[0]];
    } else {
      assert evs == [evs[0]] + [evs[1]];
      RunAfter(cfg, s, [evs[0]], [evs[1]]);
      OneTick(cfg, Step(s, evs[0].answer), evs[1].answer);
    }
  }

  lemma {:induction false} SettlingIsTicking(cfg: BankConfig, s: Process, chain: string -> ChainStatus) returns (evs: Ticks)
    requires s.worker.Reconciling? && Settlable(s.bank, s.worker.todo)
    ensures Withdrawals.Run(cfg, s, evs).worker == Idle
    ensures Withdrawals.Run(cfg, s, evs).bank == SettleAll(s.bank, s.worker.todo, chain).0
    decreases |s.worker.todo|
  {
    var todo := s.worker.todo;
    if |todo| == 0 {
      evs := [Tick(SaveWorked)];
      OneTick(cfg, s, SaveWorked);
    } else {
      SettleFromFront(s.bank, todo, chain);
      SettleOneRuns(cfg, s, chain);
      var first := SettleAnswers(todo[0], chain);
      var after := Withdrawals.Run(cfg, s, first);
      if after.worker == Idle {
        evs := first;
      } else {
        var rest := SettlingIsTicking(cfg, after, chain);
        RunAfter(cfg, s, first, rest);
        evs := first + rest;
      }
    }
  }

  /** One cycle of the service is a run of the machine without a crash, so what holds over the machine's runs holds of it. */
  lemma CycleIsARun(cfg: BankConfig, s: Process, wallet: Wallet, chain: string -> ChainStatus) returns (evs: Ticks)
    requires s.worker == Idle
    ensures Withdrawals.Run(cfg, s, evs).worker == Idle
    ensures Withdrawals.Run(cfg, s, evs).bank == Cycle(s.bank, wallet, chain)
  {
    OneTick(cfg, s, SaveWorked);
    var s1 := Step(s, SaveWorked);
    var emits := EmittingIsTicking(cfg, s1, wallet);
    var s2 := Withdrawals.Run(cfg, s1, emits);
    OneTick(cfg, s2, SaveWorked);
    var s3 := Step(s2, SaveWorked);
    var settles := SettlingIsTicking(cfg, s3, chain);
    RunAfter(cfg, s2, [Tick(SaveWorked)], settles);
    RunAfter(cfg, s1, emits, [Tick(SaveWorked)] + settles);
    RunAfter(cfg, s, [Tick(SaveWorked)], emits + ([Tick(SaveWorked)] + settles));
    evs := [Tick(SaveWorked)] + (emits + ([Tick(SaveWorked)] + settles));
  }

  /** A worker at rest that has sent exactly what the rows say was sent. */
  function AtRest(b: Bank): Process {
    Process(b, Idle, map[],
            set p | 0 <= p < |b.payments| && IsWithdrawal(b, p) && (b.payments[p].kind.stage.Broadcast? || b.payments[p].kind.stage.StageCompleted?),
            {})
  }

  lemma RestIsAccounted(b: Bank)
    requires Inv(b)
    ensures WorkerInv(AtRest(b))
  {
    assert forall p: nat :: Accounted(AtRest(b), p);
  }

  /** Whatever was sent before, a cycle keeps what every run of the bank keeps. */
  lemma CycleKeepsInv(b: Bank, wallet: Wallet, chain: string -> ChainStatus)
    ensures Inv(b) ==> Inv(Cycle(b, wallet, chain))
  {
    if Inv(b) {
      var cfg := BankConfig({}, false, 0);
      var evs := CycleIsARun(cfg, AtRest(b), wallet, chain);
      RestIsAccounted(b);
      RunKeepsWorkerInv(cfg, AtRest(b), evs);
    }
  }
}
