/**
 * The withdrawal worker (src/withdrawals/withdrawals.service.ts) as a machine that can crash
 * between any two database writes. Its writes check nothing: they overwrite the row they were
 * given with what the worker remembers of it.
 */
module Withdrawals {
  import opened Wrappers
  import opened Fees
  import opened Ledger
  import opened Banking
  import opened Custody
  import opened CustodyPayments
  import opened CustodyRuns

  /** A payment row as it was read into memory. */
  datatype Item = Item(id: nat, row: Payment)

  /** Where the worker is. The names of the states say what it is about to do. */
  datatype Worker =
    | Idle
    | Emitting(todo: seq<Item>)
    | Sending(head: Item, rest: seq<Item>)
    | Recording(head: Item, txHash: string, rest: seq<Item>)
    | Refunding(head: Item, rest: seq<Item>)
    | Reconciling(todo: seq<Item>)
    | Completing(head: Item, rest: seq<Item>)
    | Reverting(head: Item, rest: seq<Item>)

  /**
   * `sends` counts the calls of sendToken per payment; `left` are the payments whose tokens
   * are out on the chain; `misfired` those whose tokens went out and whose record failed.
   */
  datatype Process = Process(bank: Bank, worker: Worker, sends: map<nat, nat>, left: set<nat>, misfired: set<nat>)

  /** What the outside world answers: the wallet, the database on the save after sending, and the chain. */
  datatype Answer =
    | WalletSent(txHash: string)
    | WalletThrew(sentAnyway: bool)
    | SaveWorked
    | SaveThrew
    | ChainConfirmed
    | ChainReverted
    | ChainPending

  datatype Event = Tick(answer: Answer) | Crash | Others(act: Action)

  const BATCH := 20

  predicate Ready(b: Bank, p: nat, sent: bool) {
    if sent then IsSent(b, p) else InStage(b, p, PendingBroadcast)
  }

  predicate Listed(items: seq<Item>, p: nat) {
    exists i :: 0 <= i < |items| && items[i].id == p
  }

  /** The rows of one stage in order of creation, from row `from` on, at most `limit` of them. */
  function PendingRows(b: Bank, sent: bool, from: nat, limit: nat): (r: seq<Item>)
    requires from <= |b.payments|
    ensures |r| <= limit
    ensures forall i :: 0 <= i < |r| ==> from <= r[i].id < |b.payments| && Ready(b, r[i].id, sent) && r[i].row == b.payments[r[i].id]
    ensures forall i, j :: 0 <= i < j < |r| ==> r[i].id < r[j].id
    decreases |b.payments| - from
  {
    if from == |b.payments| || limit == 0 then []
    else if Ready(b, from, sent) then [Item(from, b.payments[from])] + PendingRows(b, sent, from + 1, limit - 1)
    else PendingRows(b, sent, from + 1, limit)
  }

  /** Row p is in the list, or the list is full of older rows. */
  predicate ListedOrFull(items: seq<Item>, limit: nat, p: nat) {
    Listed(items, p) || (|items| == limit && forall i :: 0 <= i < |items| ==> items[i].id < p)
  }

  lemma StillListed(first: Item, rest: seq<Item>, limit: nat, p: nat)
    requires first.id <= p && (first.id < p ==> ListedOrFull(rest, limit, p))
    ensures ListedOrFull([first] + rest, limit + 1, p)
  {
    var items := [first] + rest;
    assert items[0] == first && forall i :: 0 <= i < |rest| ==> items[i + 1] == rest[i];
    if Listed(rest, p) {
      var i :| 0 <= i < |rest| && rest[i].id == p;
      assert items[i + 1].id == p;
    }
  }

  /** A ready row is listed, unless the limit is used up by older ones. */
  lemma {:induction false} OldestAreListed(b: Bank, sent: bool, from: nat, limit: nat, p: nat)
    requires from <= p < |b.payments| && Ready(b, p, sent)
    ensures ListedOrFull(PendingRows(b, sent, from, limit), limit, p)
    decreases p - from
  {
    if limit > 0 {
      if Ready(b, from, sent) {
        if from < p {
          OldestAreListed(b, sent, from + 1, limit - 1, p);
        }
        StillListed(Item(from, b.payments[from]), PendingRows(b, sent, from + 1, limit - 1), limit - 1, p);
      } else {
        OldestAreListed(b, sent, from + 1, limit, p);
      }
    }
  }

  function Calls(s: Process, p: nat): nat {
    if p in s.sends then s.sends[p] else 0
  }

  /** Overwrite row `id` with the remembered row at a new stage. */
  function WriteStage(b: Bank, item: Item, stage: Stage): Bank
    requires item.id < |b.payments| && item.row.kind.Withdrawal?
  {
    b.(payments := b.payments[item.id := item.row.(kind := item.row.kind.(stage := stage))])
  }

  /** Release the remembered hold and mark the row failed. */
  function WriteFailed(b: Bank, item: Item): Bank
    requires item.id < |b.payments| && item.row.kind.Withdrawal?
  {
    SetHold(b, item.row.kind.hold, Released).
      (payments := b.payments[item.id := item.row.(status := PaymentFailed, kind := item.row.kind.(stage := StageFailed))])
  }

  /** Commit the remembered hold, post the journal and mark the row completed; an exception rolls everything back. */
  function WriteCompleted(b: Bank, item: Item): Option<Bank>
    requires item.id < |b.payments| && item.row.kind.Withdrawal?
  {
    match Post(SetHold(b, item.row.kind.hold, Committed), PaymentJournal(item.id), WithdrawLegs(item.row))
    case None => None
    case Some(posted) =>
      Some(posted.(payments := b.payments[item.id := item.row.(status := PaymentCompleted, kind := item.row.kind.(stage := StageCompleted))]))
  }

  predicate Remembers(b: Bank, item: Item) {
    item.id < |b.payments| && item.row.kind.Withdrawal?
  }

  /** One step of the worker. A state whose row is not a withdrawal row cannot arise; it stops. */
  function Step(s: Process, answer: Answer): Process {
    match s.worker
    case Idle => s.(worker := Emitting(PendingRows(s.bank, false, 0, BATCH)))
    case Emitting(todo) =>
      if |todo| == 0 then s.(worker := Reconciling(PendingRows(s.bank, true, 0, BATCH)))
      else if !Remembers(s.bank, todo[0]) then s.(worker := Idle)
      else
        var row := todo[0].row;
        s.(bank := WriteStage(s.bank, todo[0], Broadcasting),
           worker := Sending(Item(todo[0].id, row.(kind := row.kind.(stage := Broadcasting))), todo[1..]))
    case Sending(head, rest) =>
      var called := s.(sends := s.sends[head.id := Calls(s, head.id) + 1]);
      (match answer
       case WalletSent(txHash) => called.(worker := Recording(head, txHash, rest), left := s.left + {head.id})
       case WalletThrew(sentAnyway) =>
         if sentAnyway then called.(worker := Refunding(head, rest), left := s.left + {head.id}, misfired := s.misfired + {head.id})
         else called.(worker := Refunding(head, rest))
       case _ => s)
    case Recording(head, txHash, rest) =>
      if !Remembers(s.bank, head) then s.(worker := Idle)
      else if answer == SaveThrew then s.(worker := Refunding(head, rest), misfired := s.misfired + {head.id})
      else if answer == SaveWorked then s.(bank := WriteStage(s.bank, head, Broadcast(txHash)), worker := Emitting(rest))
      else s
    case Refunding(head, rest) =>
      if !Remembers(s.bank, head) then s.(worker := Idle)
      else s.(bank := WriteFailed(s.bank, head), worker := Emitting(rest))
    case Reconciling(todo) =>
      if |todo| == 0 then s.(worker := Idle)
      else
        (match answer
         case ChainConfirmed => s.(worker := Completing(todo[0], todo[1..]))
         case ChainReverted => s.(worker := Reverting(todo[0], todo[1..]))
         case ChainPending => s.(worker := Reconciling(todo[1..]))
         case _ => s)
    case Completing(head, rest) =>
      if !Remembers(s.bank, head) then s.(worker := Idle)
      else
        (match WriteCompleted(s.bank, head)
         case None => s.(worker := Idle)
         case Some(after) => s.(bank := after, worker := Reconciling(rest)))
    case Reverting(head, rest) =>
      if !Remembers(s.bank, head) then s.(worker := Idle)
      else s.(bank := WriteFailed(s.bank, head), worker := Reconciling(rest), left := s.left - {head.id})
  }

  /** What everybody but the worker may do to the bank. */
  predicate IsOthers(act: Action) {
    act.Pay? ==> !act.p.DoBroadcasting? && !act.p.DoSent? && !act.p.DoComplete? && !act.p.DoFail?
  }

  predicate SaneEvent(ev: Event) {
    ev.Others? ==> IsOthers(ev.act) && SaneAction(ev.act)
  }

  function Next(cfg: BankConfig, s: Process, ev: Event): Process {
    match ev
    case Tick(answer) => Step(s, answer)
    case Crash => s.(worker := Idle)
    case Others(act) => s.(bank := Apply(cfg, s.bank, act))
  }

  function Run(cfg: BankConfig, s: Process, evs: seq<Event>): Process
    decreases |evs|
  {
    if |evs| == 0 then s else Run(cfg, Next(cfg, s, evs[0]), evs[1..])
  }

  const START := Process(EMPTY, Idle, map[], {}, {})

  // ---- What every run keeps ----

  ghost predicate Fresh(b: Bank, item: Item) {
    item.id < |b.payments| && b.payments[item.id] == item.row
  }

  ghost predicate ReadyItems(b: Bank, todo: seq<Item>, sent: bool) {
    && (forall i :: 0 <= i < |todo| ==> Fresh(b, todo[i]) && Ready(b, todo[i].id, sent))
    && (forall i, j :: 0 <= i < j < |todo| ==> todo[i].id != todo[j].id)
  }

  ghost predicate InHand(s: Process, head: Item, rest: seq<Item>, sent: bool) {
    && Fresh(s.bank, head) && ReadyItems(s.bank, rest, sent)
    && (forall i :: 0 <= i < |rest| ==> rest[i].id != head.id)
    && if sent then IsSent(s.bank, head.id) else InStage(s.bank, head.id, Broadcasting)
  }

  /** What the worker remembers is what the database says. */
  ghost predicate Synchronised(s: Process) {
    match s.worker
    case Idle => true
    case Emitting(todo) => ReadyItems(s.bank, todo, false)
    case Sending(head, rest) => InHand(s, head, rest, false) && Calls(s, head.id) == 0 && head.id !in s.left && head.id !in s.misfired
    case Recording(head, _, rest) => InHand(s, head, rest, false) && head.id in s.left && head.id !in s.misfired
    case Refunding(head, rest) => InHand(s, head, rest, false) && (head.id in s.left <==> head.id in s.misfired)
    case Reconciling(todo) => ReadyItems(s.bank, todo, true)
    case Completing(head, rest) => InHand(s, head, rest, true)
    case Reverting(head, rest) => InHand(s, head, rest, true)
  }

  /** What the stage of a withdrawal says about its tokens. */
  ghost predicate Accounted(s: Process, p: nat) {
    && Calls(s, p) <= 1
    && (p >= |s.bank.payments| ==> Calls(s, p) == 0 && p !in s.left && p !in s.misfired)
    && (IsWithdrawal(s.bank, p) ==>
          match s.bank.payments[p].kind.stage
          case PendingBroadcast => Calls(s, p) == 0 && p !in s.left && p !in s.misfired
          case Broadcasting => true
          case Broadcast(_) => p in s.left && p !in s.misfired
          case StageCompleted => p in s.left && p !in s.misfired
          case StageFailed => p in s.left <==> p in s.misfired)
  }

  ghost predicate WorkerInv(s: Process) {
    Inv(s.bank) && Synchronised(s) && forall p :: Accounted(s, p)
  }

  // ---- Every write of the worker is one of the bank's guarded actions ----

  lemma FreshWrites(b: Bank, item: Item)
    requires Fresh(b, item) && IsWithdrawal(b, item.id)
    ensures forall stage :: WriteStage(b, item, stage) == SetStage(b, item.id, stage)
    ensures WriteFailed(b, item) == FailWithdrawal(b, item.id)
    ensures WriteCompleted(b, item) == CompleteWithdrawal(b, item.id)
  {
  }

  /** The action of the bank that a step of the worker performs, if it writes. */
  function Writes(s: Process, answer: Answer): Option<PaymentAction> {
    match s.worker
    case Emitting(todo) => if |todo| > 0 then Some(DoBroadcasting(todo[0].id)) else None
    case Recording(head, txHash, _) => if answer == SaveWorked then Some(DoSent(head.id, txHash)) else None
    case Refunding(head, _) => Some(DoFail(head.id))
    case Completing(head, _) => Some(DoComplete(head.id))
    case Reverting(head, _) => Some(DoFail(head.id))
    case _ => None
  }

  lemma GuardedEmit(cfg: BankConfig, b: Bank, item: Item)
    requires Fresh(b, item) && Ready(b, item.id, false)
    ensures WriteStage(b, item, Broadcasting) == Apply(cfg, b, Pay(DoBroadcasting(item.id)))
  {
  }

  lemma GuardedRecord(cfg: BankConfig, b: Bank, item: Item, txHash: string)
    requires Fresh(b, item) && InStage(b, item.id, Broadcasting)
    ensures WriteStage(b, item, Broadcast(txHash)) == Apply(cfg, b, Pay(DoSent(item.id, txHash)))
  {
  }

  lemma GuardedFailure(cfg: BankConfig, b: Bank, item: Item)
    requires Fresh(b, item) && (InStage(b, item.id, Broadcasting) || IsSent(b, item.id))
    ensures WriteFailed(b, item) == Apply(cfg, b, Pay(DoFail(item.id)))
  {
    FreshWrites(b, item);
  }

  lemma GuardedCompletion(cfg: BankConfig, b: Bank, item: Item)
    requires Fresh(b, item) && IsSent(b, item.id)
    ensures WriteCompleted(b, item).GetOr(b) == Apply(cfg, b, Pay(DoComplete(item.id)))
  {
    FreshWrites(b, item);
  }

  lemma EmittingIsGuarded(cfg: BankConfig, s: Process, answer: Answer)
    requires Synchronised(s) && s.worker.Emitting? && |s.worker.todo| > 0
    ensures Step(s, answer).bank == Apply(cfg, s.bank, Pay(DoBroadcasting(s.worker.todo[0].id)))
  {
    GuardedEmit(cfg, s.bank, s.worker.todo[0]);
  }

  lemma RecordingIsGuarded(cfg: BankConfig, s: Process)
    requires Synchronised(s) && s.worker.Recording?
    ensures Step(s, SaveWorked).bank == Apply(cfg, s.bank, Pay(DoSent(s.worker.head.id, s.worker.txHash)))
  {
    GuardedRecord(cfg, s.bank, s.worker.head, s.worker.txHash);
  }

  lemma FailingIsGuarded(cfg: BankConfig, s: Process, answer: Answer)
    requires Synchronised(s) && (s.worker.Refunding? || s.worker.Reverting?)
    ensures Step(s, answer).bank == Apply(cfg, s.bank, Pay(DoFail(s.worker.head.id)))
  {
    GuardedFailure(cfg, s.bank, s.worker.head);
  }

  lemma CompletingIsGuarded(cfg: BankConfig, s: Process, answer: Answer)
    requires Synchronised(s) && s.worker.Completing?
    ensures Step(s, answer).bank == Apply(cfg, s.bank, Pay(DoComplete(s.worker.head.id)))
  {
    GuardedCompletion(cfg, s.bank, s.worker.head);
  }

  lemma StepIsGuarded(cfg: BankConfig, s: Process, answer: Answer)
    requires Synchronised(s)
    ensures Step(s, answer).bank
            == if Writes(s, answer).None? then s.bank else Apply(cfg, s.bank, Pay(Writes(s, answer).value))
  {
    match s.worker
    case Emitting(todo) => if |todo| > 0 { EmittingIsGuarded(cfg, s, answer); }
    case Recording(_, _, _) => if answer == SaveWorked { RecordingIsGuarded(cfg, s); }
    case Refunding(_, _) => FailingIsGuarded(cfg, s, answer);
    case Completing(_, _) => CompletingIsGuarded(cfg, s, answer);
    case Reverting(_, _) => FailingIsGuarded(cfg, s, answer);
    case _ =>
  }

  /** Rows stay, and a new withdrawal row starts pending. */
  ghost predicate OnlyPendingAdded(b: Bank, after: Bank) {
    && |after.payments| >= |b.payments|
    && (forall p :: 0 <= p < |b.payments| ==> after.payments[p] == b.payments[p])
    && (forall p :: |b.payments| <= p < |after.payments| && after.payments[p].kind.Withdrawal? ==>
          after.payments[p].kind.stage == PendingBroadcast)
  }

  lemma RequestsAddRows(cfg: BankConfig, b: Bank, act: RequestAction)
    requires AttemptRequest(cfg, b, act).Some?
    ensures OnlyPendingAdded(b, AttemptRequest(cfg, b, act).value)
  {
  }

  lemma PaymentsAddRows(cfg: BankConfig, b: Bank, act: PaymentAction)
    requires IsOthers(Pay(act)) && AttemptPayment(cfg, b, act).Some?
    ensures OnlyPendingAdded(b, AttemptPayment(cfg, b, act).value)
  {
  }

  /** Others only add payment rows. */
  lemma OthersKeepRows(cfg: BankConfig, b: Bank, act: Action)
    requires IsOthers(act)
    ensures OnlyPendingAdded(b, Apply(cfg, b, act))
  {
    if Attempt(cfg, b, act).Some? {
      match act
      case Market(m) => MarketAddsNoRows(cfg, b, m);
      case Pay(p) => PaymentsAddRows(cfg, b, p);
      case Ask(r) => RequestsAddRows(cfg, b, r);
    }
  }

  lemma StepKeepsBankInv(cfg: BankConfig, s: Process, answer: Answer)
    requires WorkerInv(s)
    ensures Inv(Step(s, answer).bank)
  {
    StepIsGuarded(cfg, s, answer);
    if Writes(s, answer).Some? {
      ActionKeepsInv(cfg, s.bank, Pay(Writes(s, answer).value));
    }
  }

  /** The states that only read, or talk to the outside world. */
  lemma QuietAccounts(s: Process, answer: Answer, p: nat)
    requires Synchronised(s) && Accounted(s, p)
    requires s.worker.Idle? || s.worker.Sending? || s.worker.Reconciling? || (s.worker.Emitting? && |s.worker.todo| == 0)
    ensures Accounted(Step(s, answer), p)
  {
  }

  lemma QuietStep(s: Process, answer: Answer)
    requires WorkerInv(s) && (s.worker.Idle? || s.worker.Sending? || s.worker.Reconciling? || (s.worker.Emitting? && |s.worker.todo| == 0))
    ensures Synchronised(Step(s, answer)) && forall p :: Accounted(Step(s, answer), p)
  {
    forall p
      ensures Accounted(Step(s, answer), p)
    {
      QuietAccounts(s, answer, p);
    }
  }

  /** Writing one row leaves the remembered rows of others fresh. */
  lemma OtherItemsStayReady(b: Bank, after: Bank, id: nat, todo: seq<Item>, sent: bool)
    requires ReadyItems(b, todo, sent) && forall i :: 0 <= i < |todo| ==> todo[i].id != id
    requires |after.payments| == |b.payments| && forall p :: 0 <= p < |b.payments| && p != id ==> after.payments[p] == b.payments[p]
    ensures ReadyItems(after, todo, sent)
  {
    forall i | 0 <= i < |todo|
      ensures Fresh(after, todo[i]) && Ready(after, todo[i].id, sent)
    {
      assert Fresh(b, todo[i]);
    }
  }

  lemma EmitStep(s: Process, answer: Answer)
    requires WorkerInv(s) && s.worker.Emitting? && |s.worker.todo| > 0
    ensures Synchronised(Step(s, answer)) && forall p :: Accounted(Step(s, answer), p)
  {
    var after, todo := Step(s, answer), s.worker.todo;
    assert Fresh(s.bank, todo[0]) && Ready(s.bank, todo[0].id, false) && Accounted(s, todo[0].id);
    FreshWrites(s.bank, todo[0]);
    assert ReadyItems(s.bank, todo[1..], false);
    OtherItemsStayReady(s.bank, after.bank, todo[0].id, todo[1..], false);
    forall p
      ensures Accounted(after, p)
    {
      assert Accounted(s, p);
    }
  }

  lemma RecordStep(s: Process, answer: Answer)
    requires WorkerInv(s) && s.worker.Recording?
    ensures Synchronised(Step(s, answer)) && forall p :: Accounted(Step(s, answer), p)
  {
    var after, head, rest := Step(s, answer), s.worker.head, s.worker.rest;
    FreshWrites(s.bank, head);
    if answer == SaveWorked {
      OtherItemsStayReady(s.bank, after.bank, head.id, rest, false);
    }
    forall p
      ensures Accounted(after, p)
    {
      assert Accounted(s, p);
    }
  }

  lemma SettleAccounts(s: Process, answer: Answer, p: nat)
    requires Synchronised(s) && (s.worker.Refunding? || s.worker.Completing? || s.worker.Reverting?)
    requires Accounted(s, p) && Accounted(s, s.worker.head.id)
    ensures Accounted(Step(s, answer), p)
  {
    FreshWrites(s.bank, s.worker.head);
  }

  lemma SettleStep(s: Process, answer: Answer)
    requires WorkerInv(s) && (s.worker.Refunding? || s.worker.Completing? || s.worker.Reverting?)
    ensures Synchronised(Step(s, answer)) && forall p :: Accounted(Step(s, answer), p)
  {
    var after, head, rest := Step(s, answer), s.worker.head, s.worker.rest;
    FreshWrites(s.bank, head);
    if after.worker != Idle {
      OtherItemsStayReady(s.bank, after.bank, head.id, rest, !s.worker.Refunding?);
    }
    forall p
      ensures Accounted(after, p)
    {
      SettleAccounts(s, answer, p);
    }
  }

  lemma MoreRowsKeepSynchrony(s: Process, b: Bank)
    requires Synchronised(s) && forall p :: Accounted(s, p)
    requires OnlyPendingAdded(s.bank, b)
    ensures Synchronised(s.(bank := b)) && forall p :: Accounted(s.(bank := b), p)
  {
    forall p
      ensures Accounted(s.(bank := b), p)
    {
      assert Accounted(s, p);
    }
  }

  lemma OthersKeepWorkerInv(cfg: BankConfig, s: Process, act: Action)
    requires WorkerInv(s) && IsOthers(act) && SaneAction(act)
    ensures WorkerInv(s.(bank := Apply(cfg, s.bank, act)))
  {
    var b := Apply(cfg, s.bank, act);
    ActionKeepsInv(cfg, s.bank, act);
    OthersKeepRows(cfg, s.bank, act);
    MoreRowsKeepSynchrony(s, b);
  }

  lemma NextKeepsWorkerInv(cfg: BankConfig, s: Process, ev: Event)
    requires WorkerInv(s) && SaneEvent(ev)
    ensures WorkerInv(Next(cfg, s, ev))
  {
    match ev
    case Crash =>
      forall p
        ensures Accounted(s.(worker := Idle), p)
      {
        assert Accounted(s, p);
      }
    case Others(act) => OthersKeepWorkerInv(cfg, s, act);
    case Tick(answer) =>
      StepKeepsBankInv(cfg, s, answer);
      match s.worker {
        case Emitting(todo) =>
          if |todo| == 0 {
            QuietStep(s, answer);
          } else {
            EmitStep(s, answer);
          }
        case Recording(_, _, _) => RecordStep(s, answer);
        case Refunding(_, _) => SettleStep(s, answer);
        case Completing(_, _) => SettleStep(s, answer);
        case Reverting(_, _) => SettleStep(s, answer);
        case _ => QuietStep(s, answer);
      }
  }

  lemma {:induction false} RunKeepsWorkerInv(cfg: BankConfig, s: Process, evs: seq<Event>)
    requires WorkerInv(s) && forall i :: 0 <= i < |evs| ==> SaneEvent(evs[i])
    ensures WorkerInv(Run(cfg, s, evs))
    decreases |evs|
  {
    if |evs| > 0 {
      NextKeepsWorkerInv(cfg, s, evs[0]);
      RunKeepsWorkerInv(cfg, Next(cfg, s, evs[0]), evs[1..]);
    }
  }

  /**
   * Whatever crashes, answers and other operations come between: sendToken is called at most
   * once for a payment; a withdrawal is processing with its hold active and nothing posted, or
   * completed with its hold committed and its one journal, or failed with its hold released and
   * nothing posted; and a failed one had its tokens leave exactly if recording the sending failed.
   */
  lemma {:induction false} WithdrawalsAreSafe(cfg: BankConfig, evs: seq<Event>, p: nat)
    requires forall i :: 0 <= i < |evs| ==> SaneEvent(evs[i])
    requires IsWithdrawal(Run(cfg, START, evs).bank, p)
    ensures var s := Run(cfg, START, evs);
            var row, legs := s.bank.payments[p], LegsOf(s.bank.entries, PaymentJournal(p));
            && Calls(s, p) <= 1
            && row.kind.hold < |s.bank.holds|
            && var hold := s.bank.holds[row.kind.hold];
               && hold.account == UserAccount(row.user, row.asset) && hold.amount == row.amount + row.kind.totalFee
               && (row.status == Processing <==> hold.status == Active)
               && (row.status == PaymentCompleted <==> hold.status == Committed)
               && (row.status == PaymentFailed <==> hold.status == Released)
               && legs == (if row.status == PaymentCompleted then WithdrawLegs(row) else [])
               && (row.status == PaymentCompleted ==> p in s.left)
               && (row.status == PaymentFailed ==> (p in s.left <==> p in s.misfired))
  {
    EmptyInv();
    RunKeepsWorkerInv(cfg, START, evs);
    var s := Run(cfg, START, evs);
    assert Claims(s.bank, ByWithdrawal(p), s.bank.payments[p].kind.hold);
    assert GoodPayment(s.bank.payments[p]) && Accounted(s, p);
    assert LegsOf(s.bank.entries, PaymentJournal(p)) == ExpectedLegs(s.bank, PaymentJournal(p));
  }

  /** The journal of a completion is never refused, so a confirmed withdrawal does complete. */
  lemma CompletionIsNotRefused(s: Process, answer: Answer)
    requires WorkerInv(s) && s.worker.Completing?
    ensures s.worker.head.id < |Step(s, answer).bank.payments|
    ensures Step(s, answer).bank.payments[s.worker.head.id].status == PaymentCompleted
    ensures Step(s, answer).worker == Reconciling(s.worker.rest)
  {
    assert GoodPayment(s.bank.payments[s.worker.head.id]);
    WithdrawalJournalAccepted(s.worker.head.row);
  }

  /** The one way to refund what was sent: the database fails on the save after the wallet succeeded. */
  lemma RefundAfterSending(s: Process, answer: Answer)
    requires WorkerInv(s) && s.worker.Recording?
    ensures var p, after := s.worker.head.id, Step(Step(s, SaveThrew), answer);
            p < |after.bank.payments| && after.bank.payments[p].status == PaymentFailed && p in after.left
  {
    var mid := Step(s, SaveThrew);
    FreshWrites(s.bank, s.worker.head);
    assert mid.worker == Refunding(s.worker.head, s.worker.rest);
  }
}
