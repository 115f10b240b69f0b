/**
 * Over any run of the withdrawal worker, with whatever crashes and other operations in between:
 * what the wallet and the chain answered decides how a withdrawal ends.
 */
module Outcomes {
  import opened Wrappers
  import opened Ledger
  import opened Banking
  import opened Custody
  import opened CustodyRuns
  import opened Withdrawals

  /** Where a run from the empty bank stands. */
  function After(cfg: BankConfig, evs: seq<Event>): Process {
    Withdrawals.Run(cfg, START, evs)
  }

  /** An answer of the outside world about one payment, given while the worker has it in hand. */
  datatype Cause = Sent(txHash: string) | NotRecorded | Confirmed | RevertedOnChain

  predicate IsHead(todo: seq<Item>, p: nat) {
    |todo| > 0 && todo[0].id == p
  }

  predicate Causes(s: Process, ev: Event, p: nat, cause: Cause) {
    match cause
    case Sent(txHash) => ev == Tick(WalletSent(txHash)) && s.worker.Sending? && s.worker.head.id == p
    case NotRecorded =>
      || (ev.Tick? && ev.answer.WalletThrew? && s.worker.Sending? && s.worker.head.id == p)
      || (ev == Tick(SaveThrew) && s.worker.Recording? && s.worker.head.id == p)
    case Confirmed => ev == Tick(ChainConfirmed) && s.worker.Reconciling? && IsHead(s.worker.todo, p)
    case RevertedOnChain => ev == Tick(ChainReverted) && s.worker.Reconciling? && IsHead(s.worker.todo, p)
  }

  ghost predicate Happened(cfg: BankConfig, evs: seq<Event>, p: nat, cause: Cause) {
    exists k :: 0 <= k < |evs| && Causes(After(cfg, evs[..k]), evs[k], p, cause)
  }

  predicate AtBroadcast(b: Bank, p: nat) {
    IsWithdrawal(b, p) && b.payments[p].kind.stage.Broadcast?
  }

  /** At some moment the row carried a transaction hash. */
  ghost predicate HashRecorded(cfg: BankConfig, evs: seq<Event>, p: nat) {
    exists k :: 0 <= k <= |evs| && AtBroadcast(After(cfg, evs[..k]).bank, p)
  }

  // ---- One more event ----

  lemma {:induction false} RunSnoc(cfg: BankConfig, s: Process, evs: seq<Event>, ev: Event)
    ensures Withdrawals.Run(cfg, s, evs + [ev]) == Next(cfg, Withdrawals.Run(cfg, s, evs), ev)
    decreases |evs|
  {
    if |evs| == 0 {
      assert (evs + [ev])[1..] == [];
    } else {
      assert (evs + [ev])[1..] == evs[1..] + [ev];
      RunSnoc(cfg, Next(cfg, s, evs[0]), evs[1..], ev);
    }
  }

  lemma HappenedSnoc(cfg: BankConfig, evs: seq<Event>, ev: Event, p: nat, cause: Cause)
    ensures Happened(cfg, evs + [ev], p, cause) <==> Happened(cfg, evs, p, cause) || Causes(After(cfg, evs), ev, p, cause)
  {
    var more := evs + [ev];
    assert more[..|evs|] == evs && more[|evs|] == ev;
    assert forall k :: 0 <= k < |evs| ==> more[..k] == evs[..k] && more[k] == evs[k];
    if Happened(cfg, evs, p, cause) {
      var k :| 0 <= k < |evs| && Causes(After(cfg, evs[..k]), evs[k], p, cause);
      assert Causes(After(cfg, more[..k]), more[k], p, cause);
    }
  }

  lemma RecordedSnoc(cfg: BankConfig, evs: seq<Event>, ev: Event, p: nat)
    ensures HashRecorded(cfg, evs + [ev], p) <==> HashRecorded(cfg, evs, p) || AtBroadcast(After(cfg, evs + [ev]).bank, p)
  {
    var more := evs + [ev];
    assert more[..|more|] == more;
    assert forall k :: 0 <= k <= |evs| ==> more[..k] == evs[..k];
    if HashRecorded(cfg, evs, p) {
      var k :| 0 <= k <= |evs| && AtBroadcast(After(cfg, evs[..k]).bank, p);
      assert AtBroadcast(After(cfg, more[..k]).bank, p);
    }
  }

  // ---- What has happened, read off the present state ----

  /** What the worker holds and what the rows say is explained by the answers so far. */
  ghost predicate WorkerExplained(cfg: BankConfig, evs: seq<Event>) {
    match After(cfg, evs).worker
    case Recording(head, txHash, _) => Happened(cfg, evs, head.id, Sent(txHash))
    case Refunding(head, _) => Happened(cfg, evs, head.id, NotRecorded)
    case Completing(head, _) => Happened(cfg, evs, head.id, Confirmed)
    case Reverting(head, _) => Happened(cfg, evs, head.id, RevertedOnChain)
    case _ => true
  }

  ghost predicate RowExplained(cfg: BankConfig, evs: seq<Event>, p: nat) {
    var b := After(cfg, evs).bank;
    if !IsWithdrawal(b, p) then !HashRecorded(cfg, evs, p)
    else
      match b.payments[p].kind.stage
      case PendingBroadcast => !HashRecorded(cfg, evs, p)
      case Broadcasting => !HashRecorded(cfg, evs, p)
      case Broadcast(txHash) => Happened(cfg, evs, p, Sent(txHash))
      case StageCompleted => Happened(cfg, evs, p, Confirmed)
      case StageFailed => if HashRecorded(cfg, evs, p) then Happened(cfg, evs, p, RevertedOnChain) else Happened(cfg, evs, p, NotRecorded)
  }

  // ---- What one tick does to the rows ----

  /** The row of payment p is at another stage, and the row is otherwise as it was or at its end. */
  predicate StageOf(b: Bank, p: nat, stage: Stage) {
    IsWithdrawal(b, p) && b.payments[p].kind.stage == stage
  }

  predicate SameRow(s: Process, after: Process, p: nat) {
    IsWithdrawal(s.bank, p) == IsWithdrawal(after.bank, p)
    && (IsWithdrawal(s.bank, p) ==> s.bank.payments[p].kind.stage == after.bank.payments[p].kind.stage)
  }

  /** How a tick moves the stage of payment p: only the row in hand moves, along these edges. */
  predicate Moves(s: Process, answer: Answer, after: Process, p: nat) {
    match s.worker
    case Emitting(todo) =>
      if IsHead(todo, p) then StageOf(s.bank, p, PendingBroadcast) && StageOf(after.bank, p, Broadcasting) else SameRow(s, after, p)
    case Recording(head, txHash, _) =>
      if head.id == p && answer == SaveWorked then StageOf(s.bank, p, Broadcasting) && StageOf(after.bank, p, Broadcast(txHash))
      else SameRow(s, after, p)
    case Refunding(head, _) =>
      if head.id == p then StageOf(s.bank, p, Broadcasting) && StageOf(after.bank, p, StageFailed) else SameRow(s, after, p)
    case Completing(head, _) =>
      if head.id == p then AtBroadcast(s.bank, p) && StageOf(after.bank, p, StageCompleted) else SameRow(s, after, p)
    case Reverting(head, _) =>
      if head.id == p then AtBroadcast(s.bank, p) && StageOf(after.bank, p, StageFailed) else SameRow(s, after, p)
    case _ => SameRow(s, after, p)
  }

  lemma CompletingMoves(s: Process, answer: Answer, p: nat)
    requires WorkerInv(s) && s.worker.Completing?
    ensures Moves(s, answer, Step(s, answer), p)
  {
    CompletionIsNotRefused(s, answer);
    FreshWrites(s.bank, s.worker.head);
  }

  lemma TickMoves(s: Process, answer: Answer, p: nat)
    requires WorkerInv(s)
    ensures Moves(s, answer, Step(s, answer), p)
  {
    if s.worker.Completing? {
      CompletingMoves(s, answer, p);
    }
  }

  // ---- Everything is explained ----

  lemma HistoryGrows(cfg: BankConfig, evs: seq<Event>, ev: Event, p: nat)
    ensures forall cause :: Happened(cfg, evs, p, cause) ==> Happened(cfg, evs + [ev], p, cause)
    ensures HashRecorded(cfg, evs + [ev], p) <==> HashRecorded(cfg, evs, p) || AtBroadcast(After(cfg, evs + [ev]).bank, p)
    ensures AtBroadcast(After(cfg, evs).bank, p) ==> HashRecorded(cfg, evs, p)
  {
    RecordedSnoc(cfg, evs, ev, p);
    assert evs[..|evs|] == evs;
    forall cause
      ensures Happened(cfg, evs, p, cause) ==> Happened(cfg, evs + [ev], p, cause)
    {
      HappenedSnoc(cfg, evs, ev, p, cause);
    }
  }

  lemma SameRowExplained(cfg: BankConfig, evs: seq<Event>, ev: Event, p: nat)
    requires RowExplained(cfg, evs, p) && SameRow(After(cfg, evs), After(cfg, evs + [ev]), p)
    ensures RowExplained(cfg, evs + [ev], p)
  {
    HistoryGrows(cfg, evs, ev, p);
  }

  lemma MovedRowExplained(cfg: BankConfig, evs: seq<Event>, answer: Answer, p: nat)
    requires var s, after := After(cfg, evs), After(cfg, evs + [Tick(answer)]);
             Moves(s, answer, after, p) && !SameRow(s, after, p)
    requires WorkerExplained(cfg, evs) && RowExplained(cfg, evs, p)
    ensures RowExplained(cfg, evs + [Tick(answer)], p)
  {
    HistoryGrows(cfg, evs, Tick(answer), p);
  }

  lemma TickExplainsRow(cfg: BankConfig, evs: seq<Event>, answer: Answer, p: nat)
    requires WorkerInv(After(cfg, evs)) && WorkerExplained(cfg, evs) && RowExplained(cfg, evs, p)
    ensures RowExplained(cfg, evs + [Tick(answer)], p)
  {
    RunSnoc(cfg, START, evs, Tick(answer));
    TickMoves(After(cfg, evs), answer, p);
    if SameRow(After(cfg, evs), After(cfg, evs + [Tick(answer)]), p) {
      SameRowExplained(cfg, evs, Tick(answer), p);
    } else {
      MovedRowExplained(cfg, evs, answer, p);
    }
  }

  lemma OtherExplainsRow(cfg: BankConfig, evs: seq<Event>, ev: Event, p: nat)
    requires SaneEvent(ev) && !ev.Tick? && RowExplained(cfg, evs, p)
    ensures RowExplained(cfg, evs + [ev], p)
  {
    RunSnoc(cfg, START, evs, ev);
    if ev.Others? {
      OthersKeepRows(cfg, After(cfg, evs).bank, ev.act);
    }
    HistoryGrows(cfg, evs, ev, p);
  }

  /** The worker takes a payment further only on the answer for it. */
  lemma NextExplainsWorker(cfg: BankConfig, evs: seq<Event>, ev: Event)
    requires WorkerExplained(cfg, evs)
    ensures WorkerExplained(cfg, evs + [ev])
  {
    RunSnoc(cfg, START, evs, ev);
    forall p: nat, cause
      ensures Happened(cfg, evs + [ev], p, cause) <==> Happened(cfg, evs, p, cause) || Causes(After(cfg, evs), ev, p, cause)
    {
      HappenedSnoc(cfg, evs, ev, p, cause);
    }
  }

  lemma {:induction false} EverythingIsExplained(cfg: BankConfig, evs: seq<Event>, p: nat)
    requires forall i :: 0 <= i < |evs| ==> SaneEvent(evs[i])
    ensures WorkerInv(After(cfg, evs)) && WorkerExplained(cfg, evs) && RowExplained(cfg, evs, p)
    decreases |evs|
  {
    if |evs| == 0 {
      EmptyInv();
    } else {
      var before, ev := evs[..|evs| - 1], evs[|evs| - 1];
      assert evs == before + [ev];
      EverythingIsExplained(cfg, before, p);
      RunSnoc(cfg, START, before, ev);
      NextKeepsWorkerInv(cfg, After(cfg, before), ev);
      NextExplainsWorker(cfg, before, ev);
      if ev.Tick? {
        TickExplainsRow(cfg, before, ev.answer, p);
      } else {
        OtherExplainsRow(cfg, before, ev, p);
      }
    }
  }

  /**
   * A withdrawal is completed only after the chain confirmed it; once its transaction hash was
   * recorded it fails only after the chain reverted it, and before that only after the wallet
   * threw or the record of the sending failed. A recorded hash is what the wallet returned.
   */
  lemma OutcomesFollowAnswers(cfg: BankConfig, evs: seq<Event>, p: nat)
    requires forall i :: 0 <= i < |evs| ==> SaneEvent(evs[i])
    requires IsWithdrawal(After(cfg, evs).bank, p)
    ensures var row := After(cfg, evs).bank.payments[p];
            && (row.status == PaymentCompleted ==> Happened(cfg, evs, p, Confirmed))
            && (row.status == PaymentFailed && HashRecorded(cfg, evs, p) ==> Happened(cfg, evs, p, RevertedOnChain))
            && (row.status == PaymentFailed && !HashRecorded(cfg, evs, p) ==> Happened(cfg, evs, p, NotRecorded))
            && (row.kind.stage.Broadcast? ==> Happened(cfg, evs, p, Sent(row.kind.stage.txHash)))
  {
    EverythingIsExplained(cfg, evs, p);
    assert GoodPayment(After(cfg, evs).bank.payments[p]);
  }

  /** And the other way round: the chain's answer about the row in hand settles it with the next tick. */
  lemma ConfirmationIsFollowed(s: Process, answer: Answer)
    requires WorkerInv(s) && s.worker.Reconciling? && |s.worker.todo| > 0
    ensures s.worker.todo[0].id < |s.bank.payments|
    ensures var p, after := s.worker.todo[0].id, Step(Step(s, ChainConfirmed), answer);
            && StageOf(after.bank, p, StageCompleted) && after.bank.payments[p].status == PaymentCompleted
            && after.worker == Reconciling(s.worker.todo[1..])
  {
    var mid := Step(s, ChainConfirmed);
    NextKeepsWorkerInv(BankConfig({}, false, 0), s, Tick(ChainConfirmed));
    CompletionIsNotRefused(mid, answer);
    CompletingMoves(mid, answer, s.worker.todo[0].id);
  }

  lemma RevertingFails(s: Process, answer: Answer)
    requires WorkerInv(s) && s.worker.Reverting?
    ensures var p, after := s.worker.head.id, Step(s, answer);
            && StageOf(after.bank, p, StageFailed) && after.bank.payments[p].status == PaymentFailed
            && after.worker == Reconciling(s.worker.rest)
  {
  }

  lemma ReversalIsFollowed(s: Process, answer: Answer)
    requires WorkerInv(s) && s.worker.Reconciling? && |s.worker.todo| > 0
    ensures s.worker.todo[0].id < |s.bank.payments|
    ensures var p, after := s.worker.todo[0].id, Step(Step(s, ChainReverted), answer);
            && StageOf(after.bank, p, StageFailed) && after.bank.payments[p].status == PaymentFailed
            && after.worker == Reconciling(s.worker.todo[1..])
  {
    NextKeepsWorkerInv(BankConfig({}, false, 0), s, Tick(ChainReverted));
    RevertingFails(Step(s, ChainReverted), answer);
  }
}
