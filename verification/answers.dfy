/**
 * Which payment a request is answered with (src/payments/payments.service.ts): its own kind,
 * unless another transaction took its key first. Every way to take a key is named.
 */
module Answers {
  import opened Wrappers
  import opened Money
  import opened Fees
  import opened Ledger
  import opened Banking
  import opened Custody
  import opened CustodyPayments
  import opened CustodyRuns
  import opened Idempotency

  type Request = Idempotency.Request

  // ---- Who can take a key ----

  /** Two requests for the same kind of payment; for a transfer, to the same recipient. */
  predicate SameKind(other: Request, r: Request) {
    match other
    case DoFaucet(_, _, _, _) => r.DoFaucet?
    case DoTransfer(_, recipient, _, _, _) => r.DoTransfer? && r.recipient == recipient
    case DoRequestWithdrawal(_, _, _, _, _) => r.DoRequestWithdrawal?
    case _ => false
  }

  /** A transfer to the user of the request, under a key that gives the mirror row the request's key. */
  predicate Mirrors(act: Action, r: Request) {
    act.Pay? && act.p.DoTransfer? && act.p.recipient == r.user && act.p.key + ":in" == r.key
  }

  /** A request of the same user under the same key, but for another kind of payment. */
  predicate Rivals(act: Action, r: Request) {
    Keyed(act) && KeyOf(act) == (r.user, r.key) && !SameKind(act.p, r)
  }

  /** A deposit or a confirmed recharge of the user whose reserved key is the request's. */
  predicate Reserves(b: Bank, act: Action, r: Request) {
    match act
    case Pay(DoDeposit(t, _)) => t.user == r.user && DepositKey(t) == r.key
    case Ask(DoConfirmRequest(_, q, _)) => q < |b.requests| && b.requests[q].user == r.user && RechargeKey(q) == r.key
    case _ => false
  }

  /** Made on bank b, the action commits and takes the key of the request for something else. */
  predicate Intrudes(cfg: BankConfig, b: Bank, act: Action, r: Request) {
    Attempt(cfg, b, act).Some? && (Mirrors(act, r) || Rivals(act, r) || Reserves(b, act, r))
  }

  ghost predicate Intruded(cfg: BankConfig, acts: seq<Action>, r: Request) {
    exists i :: 0 <= i < |acts| && Intrudes(cfg, Run(cfg, EMPTY, acts[..i]), acts[i], r)
  }

  ghost predicate Mirrored(cfg: BankConfig, acts: seq<Action>, r: Request) {
    exists i :: 0 <= i < |acts| && Attempt(cfg, Run(cfg, EMPTY, acts[..i]), acts[i]).Some? && Mirrors(acts[i], r)
  }

  // ---- What is fixed about a payment row ----

  datatype Sort = IsFaucet | IsTransfer(to: string) | IsMirror | IsWithdrawal | IsDeposit | IsRecharge
  datatype Tag = Tag(user: string, key: string, sort: Sort)

  function SortOf(kind: Kind): Sort {
    match kind
    case Faucet => IsFaucet
    case Transfer(to) => IsTransfer(to)
    case Receive(_) => IsMirror
    case Withdrawal(_, _, _, _) => Sort.IsWithdrawal
    case Deposit(_, _) => IsDeposit
    case Recharge(_, _) => IsRecharge
  }

  function TagOf(p: Payment): Tag { Tag(p.user, p.key, SortOf(p.kind)) }

  function Tags(payments: seq<Payment>): (tags: seq<Tag>)
    ensures |tags| == |payments|
    ensures forall i :: 0 <= i < |payments| ==> tags[i] == TagOf(payments[i])
  {
    seq(|payments|, i requires 0 <= i < |payments| => TagOf(payments[i]))
  }

  /** The rows an action inserts if it commits on bank b. */
  function NewTags(b: Bank, act: Action): seq<Tag> {
    match act
    case Pay(DoFaucet(user, _, _, key)) => [Tag(user, key, IsFaucet)]
    case Pay(DoTransfer(user, recipient, _, _, key)) => [Tag(user, key, IsTransfer(recipient)), Tag(recipient, key + ":in", IsMirror)]
    case Pay(DoRequestWithdrawal(user, _, _, key, _)) => [Tag(user, key, Sort.IsWithdrawal)]
    case Pay(DoDeposit(t, _)) => [Tag(t.user, DepositKey(t), IsDeposit)]
    case Ask(DoConfirmRequest(_, q, _)) => if q < |b.requests| then [Tag(b.requests[q].user, RechargeKey(q), IsRecharge)] else []
    case _ => []
  }

  lemma RequestTags(cfg: BankConfig, b: Bank, r: Request)
    requires AttemptPayment(cfg, b, r).Some?
    ensures Tags(AttemptPayment(cfg, b, r).value.payments) == Tags(b.payments) + NewTags(b, Pay(r))
  {
  }

  lemma WorkerTags(cfg: BankConfig, b: Bank, act: PaymentAction)
    requires act.DoBroadcasting? || act.DoSent? || act.DoComplete? || act.DoFail?
    requires AttemptPayment(cfg, b, act).Some?
    ensures Tags(AttemptPayment(cfg, b, act).value.payments) == Tags(b.payments)
  {
  }

  lemma DepositTags(cfg: BankConfig, b: Bank, t: OnChainTransfer, rates: Rates)
    requires CreditDeposit(b, t, rates).Credited?
    ensures Tags(CreditDeposit(b, t, rates).bank.payments) == Tags(b.payments) + [Tag(t.user, DepositKey(t), IsDeposit)]
  {
  }

  lemma AskTags(cfg: BankConfig, b: Bank, act: RequestAction)
    requires AttemptRequest(cfg, b, act).Some?
    ensures Tags(AttemptRequest(cfg, b, act).value.payments) == Tags(b.payments) + NewTags(b, Ask(act))
  {
  }

  lemma MarketTags(cfg: BankConfig, b: Bank, act: MarketAction)
    requires AttemptMarket(cfg, b, act).Some?
    ensures AttemptMarket(cfg, b, act).value.payments == b.payments
  {
  }

  /** A committed action inserts its rows and changes user, key and sort of no other. */
  lemma ActionTags(cfg: BankConfig, b: Bank, act: Action)
    ensures Tags(Apply(cfg, b, act).payments) == Tags(b.payments) + if Attempt(cfg, b, act).Some? then NewTags(b, act) else []
  {
    if Attempt(cfg, b, act).Some? {
      match act
      case Market(m) => MarketTags(cfg, b, m);
      case Ask(ask) => AskTags(cfg, b, ask);
      case Pay(DoDeposit(t, rates)) => DepositTags(cfg, b, t, rates);
      case Pay(pay) =>
        if Keyed(act) {
          RequestTags(cfg, b, pay);
        } else {
          WorkerTags(cfg, b, pay);
        }
    }
  }

  // ---- The rows are those that the committed actions inserted ----

  ghost predicate Inserts(cfg: BankConfig, acts: seq<Action>, i: nat, tag: Tag) {
    && i < |acts|
    && var b := Run(cfg, EMPTY, acts[..i]);
       Attempt(cfg, b, acts[i]).Some? && tag in NewTags(b, acts[i])
  }

  lemma {:induction false} EveryRowWasInserted(cfg: BankConfig, acts: seq<Action>, tag: Tag) returns (i: nat)
    requires tag in Tags(Run(cfg, EMPTY, acts).payments)
    ensures Inserts(cfg, acts, i, tag)
    decreases |acts|
  {
    if |acts| == 0 {
      assert false;
    } else {
      var shorter, last := acts[..|acts| - 1], acts[|acts| - 1];
      assert acts == shorter + [last];
      RunSnoc(cfg, EMPTY, shorter, last);
      ActionTags(cfg, Run(cfg, EMPTY, shorter), last);
      if tag in Tags(Run(cfg, EMPTY, shorter).payments) {
        i := EveryRowWasInserted(cfg, shorter, tag);
        assert shorter[..i] == acts[..i];
      } else {
        i := |acts| - 1;
      }
    }
  }

  lemma {:induction false} InsertedRowsStay(cfg: BankConfig, acts: seq<Action>, i: nat, tag: Tag)
    requires Inserts(cfg, acts, i, tag)
    ensures tag in Tags(Run(cfg, EMPTY, acts).payments)
    decreases |acts|
  {
    var shorter, last := acts[..|acts| - 1], acts[|acts| - 1];
    assert acts == shorter + [last];
    RunSnoc(cfg, EMPTY, shorter, last);
    ActionTags(cfg, Run(cfg, EMPTY, shorter), last);
    if i < |shorter| {
      assert shorter[..i] == acts[..i];
      InsertedRowsStay(cfg, shorter, i, tag);
    }
  }

  lemma {:induction false} TagsOnlyGrow(cfg: BankConfig, b: Bank, acts: seq<Action>)
    ensures Tags(b.payments) <= Tags(Run(cfg, b, acts).payments)
    decreases |acts|
  {
    if |acts| > 0 {
      ActionTags(cfg, b, acts[0]);
      TagsOnlyGrow(cfg, Apply(cfg, b, acts[0]), acts[1..]);
    }
  }

  // ---- Whose payment is under a key ----

  predicate OwnSort(r: Request, sort: Sort) {
    match r
    case DoFaucet(_, _, _, _) => sort.IsFaucet?
    case DoTransfer(_, recipient, _, _, _) => sort == IsTransfer(recipient)
    case DoRequestWithdrawal(_, _, _, _, _) => sort.IsWithdrawal?
    case _ => false
  }

  lemma OwnKindIsOwnSort(r: Request, kind: Kind)
    ensures OwnKind(r, kind) <==> OwnSort(r, SortOf(kind))
    ensures kind.Receive? <==> SortOf(kind).IsMirror?
  {
  }

  lemma TagIsListed(rows: seq<Payment>, p: nat)
    requires p < |rows|
    ensures Tag(rows[p].user, rows[p].key, SortOf(rows[p].kind)) in Tags(rows)
  {
    assert Tags(rows)[p] == TagOf(rows[p]);
  }

  /** An intruder inserts a row of another sort under the request's key. */
  lemma IntruderInserts(cfg: BankConfig, b: Bank, act: Action, r: Request) returns (tag: Tag)
    requires Intrudes(cfg, b, act, r)
    ensures tag in NewTags(b, act) && tag.user == r.user && tag.key == r.key && !OwnSort(r, tag.sort)
  {
    tag := if Mirrors(act, r) then NewTags(b, act)[1] else NewTags(b, act)[0];
  }

  /** And whoever does is an intruder. */
  lemma InserterIntrudes(cfg: BankConfig, b: Bank, act: Action, r: Request, tag: Tag)
    requires Attempt(cfg, b, act).Some?
    requires tag in NewTags(b, act) && tag.user == r.user && tag.key == r.key && !OwnSort(r, tag.sort)
    ensures Intrudes(cfg, b, act, r)
  {
  }

  lemma MirrorsInsertMirrors(b: Bank, act: Action, r: Request)
    ensures Mirrors(act, r) <==> Tag(r.user, r.key, IsMirror) in NewTags(b, act)
  {
    if Mirrors(act, r) {
      assert NewTags(b, act)[1] == Tag(r.user, r.key, IsMirror);
    }
  }

  lemma {:induction false} OtherSortMeansIntruded(cfg: BankConfig, acts: seq<Action>, r: Request, tag: Tag)
    requires tag in Tags(Run(cfg, EMPTY, acts).payments) && tag.user == r.user && tag.key == r.key
    ensures !OwnSort(r, tag.sort) ==> Intruded(cfg, acts, r)
    ensures tag.sort.IsMirror? ==> Mirrored(cfg, acts, r)
  {
    var i := EveryRowWasInserted(cfg, acts, tag);
    MirrorsInsertMirrors(Run(cfg, EMPTY, acts[..i]), acts[i], r);
    if !OwnSort(r, tag.sort) {
      InserterIntrudes(cfg, Run(cfg, EMPTY, acts[..i]), acts[i], r, tag);
    }
  }

  lemma IntrudedMeansOtherSort(cfg: BankConfig, acts: seq<Action>, r: Request) returns (tag: Tag)
    requires Intruded(cfg, acts, r)
    ensures tag in Tags(Run(cfg, EMPTY, acts).payments) && tag.user == r.user && tag.key == r.key && !OwnSort(r, tag.sort)
  {
    var i: nat :| i < |acts| && Intrudes(cfg, Run(cfg, EMPTY, acts[..i]), acts[i], r);
    tag := IntruderInserts(cfg, Run(cfg, EMPTY, acts[..i]), acts[i], r);
    InsertedRowsStay(cfg, acts, i, tag);
  }

  lemma {:induction false} MirroredMeansMirrorRow(cfg: BankConfig, acts: seq<Action>, r: Request)
    requires Mirrored(cfg, acts, r)
    ensures Tag(r.user, r.key, IsMirror) in Tags(Run(cfg, EMPTY, acts).payments)
  {
    var i: nat :| i < |acts| && Attempt(cfg, Run(cfg, EMPTY, acts[..i]), acts[i]).Some? && Mirrors(acts[i], r);
    MirrorsInsertMirrors(Run(cfg, EMPTY, acts[..i]), acts[i], r);
    InsertedRowsStay(cfg, acts, i, Tag(r.user, r.key, IsMirror));
  }

  lemma OnlyTag(rows: seq<Payment>, tag: Tag, p: nat)
    requires KeysUnique(rows) && tag in Tags(rows) && p < |rows| && rows[p].user == tag.user && rows[p].key == tag.key
    ensures tag == TagOf(rows[p])
  {
    var q: nat :| q < |rows| && Tags(rows)[q] == tag;
    assert rows[q].user == rows[p].user && rows[q].key == rows[p].key;
  }

  lemma {:induction false} TagUnderKey(cfg: BankConfig, acts: seq<Action>, r: Request, tag: Tag)
    requires SaneRun(acts) && tag in Tags(Run(cfg, EMPTY, acts).payments) && tag.user == r.user && tag.key == r.key
    ensures OwnSort(r, tag.sort) <==> !Intruded(cfg, acts, r)
    ensures tag.sort.IsMirror? <==> Mirrored(cfg, acts, r)
  {
    EmptyInv();
    RunKeepsInv(cfg, EMPTY, acts);
    var rows := Run(cfg, EMPTY, acts).payments;
    var p: nat :| p < |rows| && Tags(rows)[p] == tag;
    OtherSortMeansIntruded(cfg, acts, r, tag);
    if Intruded(cfg, acts, r) {
      var other := IntrudedMeansOtherSort(cfg, acts, r);
      OnlyTag(rows, other, p);
    }
    if Mirrored(cfg, acts, r) {
      MirroredMeansMirrorRow(cfg, acts, r);
      OnlyTag(rows, Tag(r.user, r.key, IsMirror), p);
    }
  }

  /** The one row under a key is of the request's kind exactly if nobody intruded, and a mirror row exactly if it was mirrored. */
  lemma {:induction false} RowUnderKey(cfg: BankConfig, acts: seq<Action>, r: Request, p: nat)
    requires SaneRun(acts) && FindPayment(Run(cfg, EMPTY, acts).payments, r.user, r.key) == Some(p)
    ensures var row := Run(cfg, EMPTY, acts).payments[p];
            && (OwnKind(r, row.kind) <==> !Intruded(cfg, acts, r))
            && (row.kind.Receive? <==> Mirrored(cfg, acts, r))
  {
    var row := Run(cfg, EMPTY, acts).payments[p];
    TagIsListed(Run(cfg, EMPTY, acts).payments, p);
    OwnKindIsOwnSort(r, row.kind);
    TagUnderKey(cfg, acts, r, Tag(row.user, row.key, SortOf(row.kind)));
  }

  lemma {:induction false} NoTagUnderFreeKey(rows: seq<Payment>, tag: Tag)
    requires FindPayment(rows, tag.user, tag.key).None?
    ensures tag !in Tags(rows)
  {
  }

  lemma {:induction false} FreeKeyMeansNoIntruder(cfg: BankConfig, acts: seq<Action>, r: Request)
    requires FindPayment(Run(cfg, EMPTY, acts).payments, r.user, r.key).None?
    ensures !Intruded(cfg, acts, r) && !Mirrored(cfg, acts, r)
  {
    var rows := Run(cfg, EMPTY, acts).payments;
    NoTagUnderFreeKey(rows, Tag(r.user, r.key, IsMirror));
    if Mirrored(cfg, acts, r) {
      MirroredMeansMirrorRow(cfg, acts, r);
    } else if Intruded(cfg, acts, r) {
      var tag := IntrudedMeansOtherSort(cfg, acts, r);
      NoTagUnderFreeKey(rows, tag);
    }
  }

  // ---- Over runs of requests ----

  lemma {:induction false} AttemptedAreSane(cfg: BankConfig, requests: seq<Request>, d: Desk, evs: seq<Event>)
    requires |d.progress| == |requests| && forall m :: 0 <= m < |evs| ==> SaneEvent(requests, evs[m])
    ensures SaneRun(Attempted(cfg, requests, d, evs))
    decreases |evs|
  {
    if |evs| > 0 {
      AttemptedAreSane(cfg, requests, Idempotency.Next(cfg, requests, d, evs[0]), evs[1..]);
    }
  }

  /** A request is answered with a payment by its lookup or by its commit. */
  lemma AnsweredByItsOwnStep(cfg: BankConfig, requests: seq<Request>, d: Desk, ev: Event, j: nat)
    requires |d.progress| == |requests| && j < |requests|
    requires !d.progress[j].Returned? && Idempotency.Next(cfg, requests, d, ev).progress[j].Returned?
    ensures ev == Lookup(j) || (ev == Commit(j) && Finish(cfg, d.bank, requests[j]).1.Returned?)
    ensures var after := Idempotency.Next(cfg, requests, d, ev);
            && (ev == Lookup(j) ==> after.bank == d.bank
                                    && FindPayment(d.bank.payments, requests[j].user, requests[j].key) == Some(after.progress[j].payment))
            && (ev == Commit(j) ==> (after.bank, after.progress[j]) == Finish(cfg, d.bank, requests[j]))
  {
  }

  /** The step that answers: the payment it names is of the request's kind exactly if nobody had intruded. */
  lemma {:induction false} AnswerAtItsStep(cfg: BankConfig, acts: seq<Action>, requests: seq<Request>, d: Desk, ev: Event, j: nat)
    requires |d.progress| == |requests| && j < |requests| && SaneRun(acts) && d.bank == Run(cfg, EMPTY, acts)
    requires !d.progress[j].Returned? && Idempotency.Next(cfg, requests, d, ev).progress[j].Returned?
    ensures var after := Idempotency.Next(cfg, requests, d, ev); var p := after.progress[j].payment;
            && p < |after.bank.payments|
            && (OwnKind(requests[j], after.bank.payments[p].kind) <==> !Intruded(cfg, acts, requests[j]))
            && (after.bank.payments[p].kind.Receive? <==> Mirrored(cfg, acts, requests[j]))
  {
    var r := requests[j];
    AnsweredByItsOwnStep(cfg, requests, d, ev, j);
    if ev.Commit? && AttemptPayment(cfg, d.bank, r).Some? {
      CommittedRow(cfg, d.bank, r);
      FreeKeyMeansNoIntruder(cfg, acts, r);
    } else {
      RowUnderKey(cfg, acts, r, FindPayment(d.bank.payments, r.user, r.key).value);
    }
  }

  /**
   * Over any run, for a request answered at step k, by its lookup or by its commit: the payment
   * is of the request's own kind, then and at the end, exactly if no transaction committed
   * before step k had taken the key for something else: as the mirror row of a transfer to this
   * user, for another kind of request of this user, or for a deposit or a recharge. It is a
   * mirror row exactly if a transfer to this user under the key without ":in" had committed.
   */
  lemma {:induction false} AnswerIsOwnKindExactlyWhen(cfg: BankConfig, requests: seq<Request>, evs: seq<Event>, k: nat, j: nat)
    requires k < |evs| && j < |requests| && forall m :: 0 <= m < |evs| ==> SaneEvent(requests, evs[m])
    requires var d := RunDesk(cfg, requests, Opening(requests), evs[..k]);
             !d.progress[j].Returned? && Idempotency.Next(cfg, requests, d, evs[k]).progress[j].Returned?
    ensures var before := Attempted(cfg, requests, Opening(requests), evs[..k]);
            var after := RunDesk(cfg, requests, Opening(requests), evs);
            && after.progress[j].Returned?
            && var p := after.progress[j].payment;
               && p < |after.bank.payments|
               && (OwnKind(requests[j], after.bank.payments[p].kind) <==> !Intruded(cfg, before, requests[j]))
               && (after.bank.payments[p].kind.Receive? <==> Mirrored(cfg, before, requests[j]))
  {
    var start, early := Opening(requests), evs[..k];
    var d := RunDesk(cfg, requests, start, early);
    var before := Attempted(cfg, requests, start, early);
    RunIsItsAttempts(cfg, requests, start, early);
    AttemptedAreSane(cfg, requests, start, early);
    AnswerAtItsStep(cfg, before, requests, d, evs[k], j);
    var next, rest := Idempotency.Next(cfg, requests, d, evs[k]), evs[k + 1..];
    DeskInTwo(cfg, requests, start, evs, k);
    assert evs[k..][0] == evs[k] && evs[k..][1..] == rest;
    AnswersAreFinal(cfg, requests, next, rest, j);
    SortsStay(cfg, requests, next, rest, requests[j], next.progress[j].payment);
  }

  lemma {:induction false} SortsStay(cfg: BankConfig, requests: seq<Request>, d: Desk, evs: seq<Event>, r: Request, p: nat)
    requires |d.progress| == |requests| && p < |d.bank.payments|
    ensures var after := RunDesk(cfg, requests, d, evs).bank;
            && p < |after.payments|
            && (OwnKind(r, after.payments[p].kind) <==> OwnKind(r, d.bank.payments[p].kind))
            && (after.payments[p].kind.Receive? <==> d.bank.payments[p].kind.Receive?)
  {
    var after := RunDesk(cfg, requests, d, evs).bank;
    RunIsItsAttempts(cfg, requests, d, evs);
    TagsOnlyGrow(cfg, d.bank, Attempted(cfg, requests, d, evs));
    assert Tags(after.payments)[p] == Tags(d.bank.payments)[p];
  }

  // ---- Keys that nobody else can take ----

  predicate EndsIn(text: string, suffix: string) {
    |suffix| <= |text| && text[|text| - |suffix|..] == suffix
  }

  /** The text is neither reserved nor that of a mirror row. */
  predicate PlainKey(key: string) {
    !EndsIn(key, ":in") && !("deposit:" <= key) && !("recharge:" <= key)
  }

  /** The user has committed a request under this key for another kind of payment. */
  ghost predicate Rivalled(cfg: BankConfig, acts: seq<Action>, r: Request) {
    exists i :: 0 <= i < |acts| && Attempt(cfg, Run(cfg, EMPTY, acts[..i]), acts[i]).Some? && Rivals(acts[i], r)
  }

  /** What a client can rely on: only the user's own requests can take a plain key. */
  lemma PlainKeysAreIntrudedExactlyWhen(cfg: BankConfig, acts: seq<Action>, r: Request)
    requires PlainKey(r.key)
    ensures Intruded(cfg, acts, r) <==> Rivalled(cfg, acts, r)
  {
    forall i | 0 <= i < |acts|
      ensures !Mirrors(acts[i], r) && !Reserves(Run(cfg, EMPTY, acts[..i]), acts[i], r)
    {
      PlainKeyIsNotMadeUp(Run(cfg, EMPTY, acts[..i]), acts[i], r);
    }
    if Rivalled(cfg, acts, r) {
      var i :| 0 <= i < |acts| && Attempt(cfg, Run(cfg, EMPTY, acts[..i]), acts[i]).Some? && Rivals(acts[i], r);
      assert Intrudes(cfg, Run(cfg, EMPTY, acts[..i]), acts[i], r);
    }
  }

  lemma PlainKeyIsNotMadeUp(b: Bank, act: Action, r: Request)
    requires PlainKey(r.key)
    ensures !Mirrors(act, r) && !Reserves(b, act, r)
  {
    match act
    case Pay(DoTransfer(_, _, _, _, key)) =>
      var mirror := key + ":in";
      assert mirror[|mirror| - 3..] == ":in";
    case Pay(DoDeposit(t, _)) =>
      assert DepositKey(t) == "deposit:" + (t.network + ":" + t.txHash + ":" + Digits(t.logIndex));
    case Ask(DoConfirmRequest(_, q, _)) =>
      assert "recharge:" <= RechargeKey(q);
    case _ =>
  }

  // ---- The other side of a mirror row's key ----

  lemma {:induction false} FindAfterAppend(payments: seq<Payment>, row: Payment, user: string, key: string)
    ensures FindPayment(payments + [row], user, key).Some? <==> FindPayment(payments, user, key).Some? || (row.user == user && row.key == key)
  {
    assert (payments + [row])[..|payments|] == payments;
  }

  /** A transfer takes two keys: it commits exactly if it is admissible and both are free. */
  lemma TransferCommitsExactlyWhen(cfg: BankConfig, b: Bank, r: Request)
    requires r.DoTransfer?
    ensures AttemptPayment(cfg, b, r).Some? <==>
              && Admissible(cfg, b, r)
              && FindPayment(b.payments, r.user, r.key).None? && FindPayment(b.payments, r.recipient, r.key + ":in").None?
  {
    var sent := Payment(r.user, r.key, Kind.Transfer(r.recipient), r.asset, r.amount, PaymentCompleted);
    FindAfterAppend(b.payments, sent, r.recipient, r.key + ":in");
    if r.amount > 0 {
      TransferPosts(r.user, r.recipient, r.asset, r.amount);
    }
  }

  /** Under a free key of its own, a transfer is carried out exactly if it is admissible and its recipient's key is free, and is refused otherwise. */
  lemma FreshTransferIsAnsweredExactlyWhen(cfg: BankConfig, requests: seq<Request>, d: Desk, j: nat)
    requires |d.progress| == |requests| && j < |requests| && d.progress[j] == NotFound && requests[j].DoTransfer?
    requires FindPayment(d.bank.payments, requests[j].user, requests[j].key).None?
    ensures var r := requests[j];
            Idempotency.Next(cfg, requests, d, Commit(j)).progress[j]
            == if Admissible(cfg, d.bank, r) && FindPayment(d.bank.payments, r.recipient, r.key + ":in").None?
               then Returned(|d.bank.payments|) else Refused
  {
    TransferCommitsExactlyWhen(cfg, d.bank, requests[j]);
  }
}
