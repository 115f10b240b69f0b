/**
 * Idempotent requests (src/payments/payments.service.ts, src/withdrawals/withdrawals.service.ts):
 * looking up the key and running the transaction are two steps, and requests interleave.
 */
module Idempotency {
  import opened Wrappers
  import opened Fees
  import opened Ledger
  import opened Banking
  import opened Custody
  import opened CustodyRuns
  import Indexer

  /** A client request: one of the three operations that carry a key. */
  type Request = r: PaymentAction | r.DoFaucet? || r.DoTransfer? || r.DoRequestWithdrawal?
    witness DoFaucet("", "", 0, "")

  /** How far a request has come. Returned names the payment in the response. */
  datatype Progress = New | NotFound | Returned(payment: nat) | Refused

  datatype Desk = Desk(bank: Bank, progress: seq<Progress>)

  datatype Event = Lookup(r: nat) | Commit(r: nat) | Others(act: Action)

  /** The checks on the request alone, made before anything is looked up. */
  predicate WellFormed(cfg: BankConfig, r: Request) {
    match r
    case DoFaucet(_, asset, amount, _) => cfg.faucetEnabled && asset in cfg.assets && 0 < amount <= cfg.faucetMax
    case DoTransfer(_, _, asset, amount, _) => asset in cfg.assets && amount > 0
    case DoRequestWithdrawal(_, asset, amount, _, _) => Upper(asset) in {"USDT", "USDC"} && amount > 0
    case _ => false
  }

  /** All checks of the operation that come before its first insert. */
  predicate Admissible(cfg: BankConfig, b: Bank, r: Request) {
    match r
    case DoFaucet(_, asset, amount, _) => cfg.faucetEnabled && asset in cfg.assets && 0 < amount <= cfg.faucetMax
    case DoTransfer(user, recipient, asset, amount, _) =>
      asset in cfg.assets && amount > 0 && recipient != user && Funds(b, user, asset) >= amount
    case DoRequestWithdrawal(user, asset, amount, _, rates) =>
      Upper(asset) in {"USDT", "USDC"} && amount > 0 && Funds(b, user, asset) >= QuoteWithdraw(amount, rates).total
    case _ => false
  }

  /** After the lookup found nothing: run the transaction, and on a duplicate key read again. */
  function Finish(cfg: BankConfig, b: Bank, r: Request): (Bank, Progress) {
    match AttemptPayment(cfg, b, r)
    case Some(after) => (after, Returned(|b.payments|))
    case None =>
      if !Admissible(cfg, b, r) then (b, Refused)
      else
        match FindPayment(b.payments, r.user, r.key)
        case Some(p) => (b, Returned(p))
        case None => (b, Refused)
  }

  /** Lookup and transaction in one go, as a single request with nobody in between. */
  function Once(cfg: BankConfig, b: Bank, r: Request): (Bank, Progress) {
    if !WellFormed(cfg, r) then (b, Refused)
    else
      match FindPayment(b.payments, r.user, r.key)
      case Some(p) => (b, Returned(p))
      case None => Finish(cfg, b, r)
  }

  function Next(cfg: BankConfig, requests: seq<Request>, d: Desk, ev: Event): Desk
    requires |d.progress| == |requests|
    ensures |Next(cfg, requests, d, ev).progress| == |requests|
  {
    match ev
    case Lookup(r) =>
      if r >= |requests| || d.progress[r] != New then d
      else if !WellFormed(cfg, requests[r]) then d.(progress := d.progress[r := Refused])
      else
        var found := FindPayment(d.bank.payments, requests[r].user, requests[r].key);
        d.(progress := d.progress[r := if found.Some? then Returned(found.value) else NotFound])
    case Commit(r) =>
      if r >= |requests| || d.progress[r] != NotFound then d
      else
        var (bank, progress) := Finish(cfg, d.bank, requests[r]);
        Desk(bank, d.progress[r := progress])
    case Others(act) => d.(bank := Apply(cfg, d.bank, act))
  }

  function RunDesk(cfg: BankConfig, requests: seq<Request>, d: Desk, evs: seq<Event>): (after: Desk)
    requires |d.progress| == |requests|
    ensures |after.progress| == |requests|
    decreases |evs|
  {
    if |evs| == 0 then d else RunDesk(cfg, requests, Next(cfg, requests, d, evs[0]), evs[1..])
  }

  /** Every transaction that was started in a run, in order: those of the requests past their lookup, and those of others. */
  function Attempted(cfg: BankConfig, requests: seq<Request>, d: Desk, evs: seq<Event>): seq<Action>
    requires |d.progress| == |requests|
    decreases |evs|
  {
    if |evs| == 0 then []
    else
      var rest := Attempted(cfg, requests, Next(cfg, requests, d, evs[0]), evs[1..]);
      match evs[0]
      case Lookup(_) => rest
      case Commit(r) => if r < |requests| && d.progress[r] == NotFound then [Pay(requests[r])] + rest else rest
      case Others(act) => [act] + rest
  }

  predicate Keyed(act: Action) {
    act.Pay? && (act.p.DoFaucet? || act.p.DoTransfer? || act.p.DoRequestWithdrawal?)
  }

  function KeyOf(act: Action): (string, string)
    requires Keyed(act)
  {
    (act.p.user, act.p.key)
  }

  /** What is left of a list of transactions when of those with one user and key only the first that commits is kept. */
  function KeepFirst(cfg: BankConfig, b: Bank, acts: seq<Action>, taken: set<(string, string)>): seq<Action>
    decreases |acts|
  {
    if |acts| == 0 then []
    else if Keyed(acts[0]) && KeyOf(acts[0]) in taken then KeepFirst(cfg, b, acts[1..], taken)
    else
      match Attempt(cfg, b, acts[0])
      case None => KeepFirst(cfg, b, acts[1..], taken)
      case Some(after) =>
        [acts[0]] + KeepFirst(cfg, after, acts[1..], if Keyed(acts[0]) then taken + {KeyOf(acts[0])} else taken)
  }

  predicate SaneEvent(requests: seq<Request>, ev: Event) {
    match ev
    case Commit(r) => r < |requests| ==> SaneAction(Pay(requests[r]))
    case Others(act) => SaneAction(act)
    case Lookup(_) => true
  }

  // ---- The interleaving does not matter ----

  /** Looking up changes nothing, and a commit is its transaction, taken or refused. */
  lemma {:induction false} RunIsItsAttempts(cfg: BankConfig, requests: seq<Request>, d: Desk, evs: seq<Event>)
    requires |d.progress| == |requests|
    ensures RunDesk(cfg, requests, d, evs).bank == Run(cfg, d.bank, Attempted(cfg, requests, d, evs))
    decreases |evs|
  {
    if |evs| > 0 {
      var after := Next(cfg, requests, d, evs[0]);
      var rest := Attempted(cfg, requests, after, evs[1..]);
      RunIsItsAttempts(cfg, requests, after, evs[1..]);
      if evs[0].Others? {
        assert ([evs[0].act] + rest)[1..] == rest;
      } else if evs[0].Commit? && evs[0].r < |requests| && d.progress[evs[0].r] == NotFound {
        CommitApplies(cfg, d.bank, requests[evs[0].r]);
        assert ([Pay(requests[evs[0].r])] + rest)[1..] == rest;
      }
    }
  }

  lemma CommitApplies(cfg: BankConfig, b: Bank, r: Request)
    ensures Finish(cfg, b, r).0 == Apply(cfg, b, Pay(r))
  {
  }

  ghost predicate AllTaken(b: Bank, taken: set<(string, string)>) {
    forall user, key :: (user, key) in taken ==> FindPayment(b.payments, user, key).Some?
  }

  lemma TakenStays(cfg: BankConfig, b: Bank, act: Action, taken: set<(string, string)>)
    requires AllTaken(b, taken)
    ensures AllTaken(Apply(cfg, b, act), taken)
    ensures Keyed(act) && Attempt(cfg, b, act).Some? ==> AllTaken(Apply(cfg, b, act), taken + {KeyOf(act)})
  {
    var after := Apply(cfg, b, act);
    Indexer.ActionGrows(cfg, b, act);
    forall user, key | (user, key) in taken
      ensures FindPayment(after.payments, user, key).Some?
    {
      var p := FindPayment(b.payments, user, key).value;
      assert after.payments[p].user == user && after.payments[p].key == key;
    }
    if Keyed(act) && Attempt(cfg, b, act).Some? {
      CommittedRow(cfg, b, act.p);
      var p := |b.payments|;
      assert after.payments[p].user == act.p.user && after.payments[p].key == act.p.key;
    }
  }

  /** A transaction under a key that was taken before is refused, so leaving it out changes nothing. */
  lemma {:induction false} LaterCommitsAreRefused(cfg: BankConfig, b: Bank, acts: seq<Action>, taken: set<(string, string)>)
    requires AllTaken(b, taken)
    ensures Run(cfg, b, KeepFirst(cfg, b, acts, taken)) == Run(cfg, b, acts)
    decreases |acts|
  {
    if |acts| > 0 {
      var act, rest, after := acts[0], acts[1..], Apply(cfg, b, acts[0]);
      TakenStays(cfg, b, act, taken);
      if Attempt(cfg, b, act).None? {
        LaterCommitsAreRefused(cfg, b, rest, taken);
      } else {
        if Keyed(act) {
          CommittedRow(cfg, b, act.p);
        }
        var more := if Keyed(act) then taken + {KeyOf(act)} else taken;
        LaterCommitsAreRefused(cfg, after, rest, more);
        var kept := KeepFirst(cfg, after, rest, more);
        assert ([act] + kept)[1..] == kept;
      }
    }
  }

  /**
   * However requests interleave, repeat and fail, the bank ends as if of all the requests with
   * one user and key only the first to commit had ever been made, after the others.
   */
  lemma {:induction false} OnlyFirstCommitsMatter(cfg: BankConfig, requests: seq<Request>, d: Desk, evs: seq<Event>)
    requires |d.progress| == |requests|
    ensures RunDesk(cfg, requests, d, evs).bank == Run(cfg, d.bank, KeepFirst(cfg, d.bank, Attempted(cfg, requests, d, evs), {}))
  {
    RunIsItsAttempts(cfg, requests, d, evs);
    LaterCommitsAreRefused(cfg, d.bank, Attempted(cfg, requests, d, evs), {});
  }

  ghost predicate OnePerKey(acts: seq<Action>) {
    forall i, j :: 0 <= i < j < |acts| && Keyed(acts[i]) && Keyed(acts[j]) ==> KeyOf(acts[i]) != KeyOf(acts[j])
  }

  /** In what is kept no two requests share user and key, and every one commits where it stands. */
  lemma {:induction false} KeptCommitOnce(cfg: BankConfig, b: Bank, acts: seq<Action>, taken: set<(string, string)>, i: nat)
    requires i < |KeepFirst(cfg, b, acts, taken)|
    ensures OnePerKey(KeepFirst(cfg, b, acts, taken))
    ensures var kept := KeepFirst(cfg, b, acts, taken);
            && (Keyed(kept[i]) ==> KeyOf(kept[i]) !in taken)
            && Attempt(cfg, Run(cfg, b, kept[..i]), kept[i]).Some?
    decreases |acts|
  {
    var act, rest, kept := acts[0], acts[1..], KeepFirst(cfg, b, acts, taken);
    if (Keyed(act) && KeyOf(act) in taken) || Attempt(cfg, b, act).None? {
      KeptCommitOnce(cfg, b, rest, taken, i);
    } else {
      var after := Apply(cfg, b, act);
      var more := if Keyed(act) then taken + {KeyOf(act)} else taken;
      var later := KeepFirst(cfg, after, rest, more);
      assert kept == [act] + later;
      if i == 0 {
        assert kept[..0] == [];
      } else {
        KeptCommitOnce(cfg, after, rest, more, i - 1);
        assert kept[..i] == [act] + later[..i - 1] && kept[..i][1..] == later[..i - 1];
      }
      forall j: nat | j < |later|
        ensures Keyed(later[j]) ==> KeyOf(later[j]) !in more
        ensures OnePerKey(later)
      {
        KeptCommitOnce(cfg, after, rest, more, j);
      }
    }
  }

  // ---- One payment for each key ----

  /** The key is the request's, and the payment is the only one under it. */
  ghost predicate Answers(b: Bank, r: Request, p: nat) {
    && p < |b.payments| && b.payments[p].user == r.user && b.payments[p].key == r.key
    && forall q :: 0 <= q < |b.payments| && b.payments[q].user == r.user && b.payments[q].key == r.key ==> q == p
  }

  ghost predicate DeskInv(requests: seq<Request>, d: Desk) {
    && |d.progress| == |requests| && Inv(d.bank)
    && forall r :: 0 <= r < |requests| && d.progress[r].Returned? ==> Answers(d.bank, requests[r], d.progress[r].payment)
  }

  lemma FoundIsOnly(b: Bank, r: Request, p: nat)
    requires KeysUnique(b.payments) && p < |b.payments| && b.payments[p].user == r.user && b.payments[p].key == r.key
    ensures Answers(b, r, p)
    ensures FindPayment(b.payments, r.user, r.key) == Some(p)
  {
  }

  /** A committed request's payment is its first new row. */
  lemma CommittedRow(cfg: BankConfig, b: Bank, r: Request)
    requires AttemptPayment(cfg, b, r).Some?
    ensures var after := AttemptPayment(cfg, b, r).value;
            && |after.payments| > |b.payments|
            && after.payments[|b.payments|].user == r.user && after.payments[|b.payments|].key == r.key
            && FindPayment(b.payments, r.user, r.key).None?
            && forall p :: 0 <= p < |b.payments| ==> after.payments[p] == b.payments[p]
  {
  }

  lemma AnswersStay(b: Bank, after: Bank, r: Request, p: nat)
    requires Answers(b, r, p) && KeysUnique(after.payments) && |after.payments| >= |b.payments|
    requires after.payments[p].user == b.payments[p].user && after.payments[p].key == b.payments[p].key
    ensures Answers(after, r, p)
  {
    FoundIsOnly(after, r, p);
  }

  /** A transaction that commits is the only payment under its key, and leaves the answers given before. */
  lemma CommittedKeepsAnswers(cfg: BankConfig, requests: seq<Request>, d: Desk, r: nat)
    requires DeskInv(requests, d) && r < |requests| && d.progress[r] == NotFound && SaneAction(Pay(requests[r]))
    requires AttemptPayment(cfg, d.bank, requests[r]).Some?
    ensures var after := AttemptPayment(cfg, d.bank, requests[r]).value;
            && Inv(after) && Answers(after, requests[r], |d.bank.payments|)
            && forall q :: 0 <= q < |requests| && d.progress[q].Returned? ==> Answers(after, requests[q], d.progress[q].payment)
  {
    var after := AttemptPayment(cfg, d.bank, requests[r]).value;
    PaymentKeepsInv(cfg, d.bank, requests[r]);
    CommittedRow(cfg, d.bank, requests[r]);
    FoundIsOnly(after, requests[r], |d.bank.payments|);
    forall q | 0 <= q < |requests| && d.progress[q].Returned?
      ensures Answers(after, requests[q], d.progress[q].payment)
    {
      AnswersStay(d.bank, after, requests[q], d.progress[q].payment);
    }
  }

  /** A commit that inserts nothing leaves the bank, and names the payment under its key if it names one. */
  lemma RefusedCommitAnswers(cfg: BankConfig, b: Bank, r: Request)
    requires KeysUnique(b.payments) && AttemptPayment(cfg, b, r).None?
    ensures Finish(cfg, b, r).0 == b
    ensures Finish(cfg, b, r).1.Returned? ==> Answers(b, r, Finish(cfg, b, r).1.payment)
  {
    if Finish(cfg, b, r).1.Returned? {
      FoundIsOnly(b, r, Finish(cfg, b, r).1.payment);
    }
  }

  lemma FinishKeepsAnswers(cfg: BankConfig, requests: seq<Request>, d: Desk, r: nat)
    requires DeskInv(requests, d) && r < |requests| && d.progress[r] == NotFound && SaneAction(Pay(requests[r]))
    ensures var bank, answer := Finish(cfg, d.bank, requests[r]).0, Finish(cfg, d.bank, requests[r]).1;
            && Inv(bank) && (answer.Returned? ==> Answers(bank, requests[r], answer.payment))
            && forall q :: 0 <= q < |requests| && d.progress[q].Returned? ==> Answers(bank, requests[q], d.progress[q].payment)
  {
    if AttemptPayment(cfg, d.bank, requests[r]).Some? {
      CommittedKeepsAnswers(cfg, requests, d, r);
    } else {
      RefusedCommitAnswers(cfg, d.bank, requests[r]);
    }
  }

  lemma AnswerGiven(requests: seq<Request>, progress: seq<Progress>, bank: Bank, r: nat, answer: Progress)
    requires |progress| == |requests| && r < |requests| && Inv(bank) && (answer.Returned? ==> Answers(bank, requests[r], answer.payment))
    requires forall q :: 0 <= q < |requests| && progress[q].Returned? ==> Answers(bank, requests[q], progress[q].payment)
    ensures DeskInv(requests, Desk(bank, progress[r := answer]))
  {
  }

  lemma CommitKeepsDeskInv(cfg: BankConfig, requests: seq<Request>, d: Desk, r: nat)
    requires DeskInv(requests, d) && r < |requests| && d.progress[r] == NotFound && SaneAction(Pay(requests[r]))
    ensures DeskInv(requests, Next(cfg, requests, d, Commit(r)))
  {
    FinishKeepsAnswers(cfg, requests, d, r);
    AnswerGiven(requests, d.progress, Finish(cfg, d.bank, requests[r]).0, r, Finish(cfg, d.bank, requests[r]).1);
  }

  lemma NextKeepsDeskInv(cfg: BankConfig, requests: seq<Request>, d: Desk, ev: Event)
    requires DeskInv(requests, d) && SaneEvent(requests, ev)
    ensures DeskInv(requests, Next(cfg, requests, d, ev))
  {
    match ev
    case Lookup(r) =>
      if r < |requests| && FindPayment(d.bank.payments, requests[r].user, requests[r].key).Some? {
        FoundIsOnly(d.bank, requests[r], FindPayment(d.bank.payments, requests[r].user, requests[r].key).value);
      }
    case Commit(r) =>
      if r < |requests| && d.progress[r] == NotFound {
        CommitKeepsDeskInv(cfg, requests, d, r);
      }
    case Others(act) =>
      var after := Apply(cfg, d.bank, act);
      ActionKeepsInv(cfg, d.bank, act);
      Indexer.ActionGrows(cfg, d.bank, act);
      forall q | 0 <= q < |requests| && d.progress[q].Returned?
        ensures Answers(after, requests[q], d.progress[q].payment)
      {
        AnswersStay(d.bank, after, requests[q], d.progress[q].payment);
      }
  }

  lemma {:induction false} RunKeepsDeskInv(cfg: BankConfig, requests: seq<Request>, d: Desk, evs: seq<Event>)
    requires DeskInv(requests, d) && forall i :: 0 <= i < |evs| ==> SaneEvent(requests, evs[i])
    ensures DeskInv(requests, RunDesk(cfg, requests, d, evs))
    decreases |evs|
  {
    if |evs| > 0 {
      NextKeepsDeskInv(cfg, requests, d, evs[0]);
      RunKeepsDeskInv(cfg, requests, Next(cfg, requests, d, evs[0]), evs[1..]);
    }
  }

  function Opening(requests: seq<Request>): Desk {
    Desk(EMPTY, seq(|requests|, _ => New))
  }

  /** Two requests with one user and one key that both return, return the same payment: the only one under that key. */
  lemma {:induction false} RetriesReturnTheSamePayment(cfg: BankConfig, requests: seq<Request>, evs: seq<Event>, i: nat, j: nat)
    requires forall k :: 0 <= k < |evs| ==> SaneEvent(requests, evs[k])
    requires i < |requests| && j < |requests| && requests[i].user == requests[j].user && requests[i].key == requests[j].key
    requires var d := RunDesk(cfg, requests, Opening(requests), evs);
             |d.progress| == |requests| && d.progress[i].Returned? && d.progress[j].Returned?
    ensures var d := RunDesk(cfg, requests, Opening(requests), evs);
            && d.progress[i] == d.progress[j]
            && Answers(d.bank, requests[i], d.progress[i].payment)
  {
    EmptyInv();
    RunKeepsDeskInv(cfg, requests, Opening(requests), evs);
  }

  /** After a request has committed, no later one with its user and key does. */
  lemma {:induction false} OneCommitPerKey(cfg: BankConfig, b: Bank, acts: seq<Action>, i: nat, j: nat)
    requires i < j < |acts| && forall k :: 0 <= k < |acts| ==> SaneAction(acts[k])
    requires Keyed(acts[i]) && Keyed(acts[j]) && acts[i].p.user == acts[j].p.user && acts[i].p.key == acts[j].p.key
    requires Attempt(cfg, Run(cfg, b, acts[..i]), acts[i]).Some?
    ensures Attempt(cfg, Run(cfg, b, acts[..j]), acts[j]).None?
  {
    var before, after := Run(cfg, b, acts[..i]), Run(cfg, b, acts[..i + 1]);
    assert acts[..i + 1] == acts[..i] + [acts[i]];
    RunSnoc(cfg, b, acts[..i], acts[i]);
    var n := |before.payments|;
    CommittedRow(cfg, before, acts[i].p);
    KeyStaysTaken(cfg, b, acts, i + 1, j, n);
    var late := Run(cfg, b, acts[..j]);
    assert FindPayment(late.payments, acts[j].p.user, acts[j].p.key).Some?;
    if Attempt(cfg, late, acts[j]).Some? {
      CommittedRow(cfg, late, acts[j].p);
    }
  }

  lemma RowKeepsItsKey(cfg: BankConfig, b: Bank, act: Action, p: nat)
    requires p < |b.payments|
    ensures var after := Apply(cfg, b, act);
            p < |after.payments| && after.payments[p].user == b.payments[p].user && after.payments[p].key == b.payments[p].key
  {
    Indexer.ActionGrows(cfg, b, act);
  }

  lemma {:induction false} KeyStaysTaken(cfg: BankConfig, b: Bank, acts: seq<Action>, i: nat, j: nat, p: nat)
    requires i <= j <= |acts| && p < |Run(cfg, b, acts[..i]).payments|
    ensures var early, late := Run(cfg, b, acts[..i]), Run(cfg, b, acts[..j]);
            && p < |late.payments| && late.payments[p].user == early.payments[p].user && late.payments[p].key == early.payments[p].key
    decreases j
  {
    if i < j {
      KeyStaysTaken(cfg, b, acts, i, j - 1, p);
      assert acts[..j] == acts[..j - 1] + [acts[j - 1]];
      RunSnoc(cfg, b, acts[..j - 1], acts[j - 1]);
      RowKeepsItsKey(cfg, Run(cfg, b, acts[..j - 1]), acts[j - 1], p);
    }
  }

  // ---- What a retry is told ----

  lemma {:induction false} DeskInTwo(cfg: BankConfig, requests: seq<Request>, d: Desk, evs: seq<Event>, k: nat)
    requires |d.progress| == |requests| && k <= |evs|
    ensures RunDesk(cfg, requests, d, evs) == RunDesk(cfg, requests, RunDesk(cfg, requests, d, evs[..k]), evs[k..])
    decreases k
  {
    if k == 0 {
      assert evs[..0] == [] && evs[0..] == evs;
    } else {
      DeskInTwo(cfg, requests, Next(cfg, requests, d, evs[0]), evs[1..], k - 1);
      assert evs[..k][0] == evs[0] && evs[..k][1..] == evs[1..][..k - 1] && evs[1..][k - 1..] == evs[k..];
    }
  }

  /** A request that has been answered is not answered again. */
  lemma {:induction false} AnswersAreFinal(cfg: BankConfig, requests: seq<Request>, d: Desk, evs: seq<Event>, r: nat)
    requires |d.progress| == |requests| && r < |requests| && (d.progress[r].Returned? || d.progress[r].Refused?)
    ensures RunDesk(cfg, requests, d, evs).progress[r] == d.progress[r]
    decreases |evs|
  {
    if |evs| > 0 {
      AnswersAreFinal(cfg, requests, Next(cfg, requests, d, evs[0]), evs[1..], r);
    }
  }

  /** A request made in one go keeps what every run of the bank keeps. */
  lemma OnceKeepsInv(cfg: BankConfig, b: Bank, r: Request)
    ensures Inv(b) && SaneAction(Pay(r)) ==> Inv(Once(cfg, b, r).0)
  {
    if Inv(b) && SaneAction(Pay(r)) {
      CommitApplies(cfg, b, r);
      ActionKeepsInv(cfg, b, Pay(r));
    }
  }

  /** The step at which a request is answered, given that its key already has payment p. */
  lemma AnswerUnderTakenKey(cfg: BankConfig, requests: seq<Request>, d: Desk, ev: Event, j: nat, p: nat)
    requires |d.progress| == |requests| && j < |requests|
    requires FindPayment(d.bank.payments, requests[j].user, requests[j].key) == Some(p)
    requires (ev == Lookup(j) && d.progress[j] == New) || (ev == Commit(j) && d.progress[j] == NotFound)
    ensures var answered := if ev.Lookup? then WellFormed(cfg, requests[j]) else Admissible(cfg, d.bank, requests[j]);
            Next(cfg, requests, d, ev).progress[j] == if answered then Returned(p) else Refused
  {
    if ev.Commit? && AttemptPayment(cfg, d.bank, requests[j]).Some? {
      CommittedRow(cfg, d.bank, requests[j]);
    }
  }

  /**
   * What a retry ends with, over any run. Request i has been answered with its payment; request
   * j has its user and key. If j is looked up after that, it is answered with the same payment
   * exactly if it is well formed; if it was looked up before and commits after, exactly if the
   * checks before the insert still pass, and is refused otherwise.
   */
  lemma {:induction false} RetryIsAnsweredExactlyWhen(cfg: BankConfig, requests: seq<Request>, evs: seq<Event>, k: nat, i: nat, j: nat)
    requires k < |evs| && forall m :: 0 <= m < |evs| ==> SaneEvent(requests, evs[m])
    requires i < |requests| && j < |requests| && requests[i].user == requests[j].user && requests[i].key == requests[j].key
    requires var d := RunDesk(cfg, requests, Opening(requests), evs[..k]);
             && d.progress[i].Returned?
             && ((evs[k] == Lookup(j) && d.progress[j] == New) || (evs[k] == Commit(j) && d.progress[j] == NotFound))
    ensures var d, after := RunDesk(cfg, requests, Opening(requests), evs[..k]), RunDesk(cfg, requests, Opening(requests), evs);
            var answered := if evs[k].Lookup? then WellFormed(cfg, requests[j]) else Admissible(cfg, d.bank, requests[j]);
            after.progress[j] == if answered then d.progress[i] else Refused
  {
    var start := Opening(requests);
    var d := RunDesk(cfg, requests, start, evs[..k]);
    EmptyInv();
    RunKeepsDeskInv(cfg, requests, start, evs[..k]);
    var p := d.progress[i].payment;
    FoundIsOnly(d.bank, requests[j], p);
    AnswerUnderTakenKey(cfg, requests, d, evs[k], j, p);
    DeskInTwo(cfg, requests, start, evs, k);
    assert evs[k..][0] == evs[k];
    AnswersAreFinal(cfg, requests, Next(cfg, requests, d, evs[k]), evs[k..][1..], j);
  }

  // ---- Whose payment it is ----

  predicate OwnKind(r: Request, kind: Kind) {
    match r
    case DoFaucet(_, _, _, _) => kind.Faucet?
    case DoTransfer(_, recipient, _, _, _) => kind == Kind.Transfer(recipient)
    case DoRequestWithdrawal(_, _, _, _, _) => kind.Withdrawal?
    case _ => false
  }
}
