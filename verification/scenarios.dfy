/** Runs in which the code does less than its comments promise. */
module Scenarios {
  import opened Wrappers
  import opened Fees
  import opened Ledger
  import opened Banking
  import opened Custody
  import opened CustodyPayments
  import Answers
  import Idempotency
  import Indexer
  import Withdrawals

  // ---- A bank with one test credit ----

  function Credited(user: string, asset: string, amount: int, key: string): Bank {
    EMPTY.(payments := [Payment(user, key, Faucet, asset, amount, PaymentCompleted)],
           entries := AsEntries(PaymentJournal(0), FaucetLegs(user, asset, amount)))
  }

  predicate Creditable(cfg: BankConfig, asset: string, amount: int) {
    cfg.faucetEnabled && asset in cfg.assets && 0 < amount <= cfg.faucetMax
  }

  lemma FirstCredit(cfg: BankConfig, user: string, asset: string, amount: int, key: string)
    requires Creditable(cfg, asset, amount)
    ensures Apply(cfg, EMPTY, Pay(DoFaucet(user, asset, amount, key))) == Credited(user, asset, amount, key)
    ensures Funds(Credited(user, asset, amount, key), user, asset) == amount
  {
    var legs, a := FaucetLegs(user, asset, amount), UserAccount(user, asset);
    TransferPosts(user, user, asset, amount);
    assert EMPTY.payments + [Payment(user, key, Faucet, asset, amount, PaymentCompleted)]
           == [Payment(user, key, Faucet, asset, amount, PaymentCompleted)];
    assert EMPTY.entries + AsEntries(PaymentJournal(0), legs) == AsEntries(PaymentJournal(0), legs);
    BalanceAfterPost([], PaymentJournal(0), legs, a);
    PairEffect(legs[0], legs[1], a);
    assert legs == [legs[0], legs[1]];
  }

  // ---- Steps of the desk ----

  lemma {:induction false} DeskStep(cfg: BankConfig, requests: seq<Idempotency.Request>, d: Idempotency.Desk, ev: Idempotency.Event, next: Idempotency.Desk,
                 rest: seq<Idempotency.Event>)
    requires |d.progress| == |requests| == |next.progress| && Idempotency.Next(cfg, requests, d, ev) == next
    ensures Idempotency.RunDesk(cfg, requests, d, [ev] + rest) == Idempotency.RunDesk(cfg, requests, next, rest)
  {
    assert ([ev] + rest)[1..] == rest;
  }

  lemma CreditStep(cfg: BankConfig, requests: seq<Idempotency.Request>, user: string, asset: string, amount: int, key: string)
    requires Creditable(cfg, asset, amount) && |requests| == 2
    ensures Idempotency.Next(cfg, requests, Idempotency.Opening(requests), Idempotency.Others(Pay(DoFaucet(user, asset, amount, key))))
            == Idempotency.Desk(Credited(user, asset, amount, key), [Idempotency.New, Idempotency.New])
  {
    FirstCredit(cfg, user, asset, amount, key);
    assert Idempotency.Opening(requests).progress == [Idempotency.New, Idempotency.New];
  }

  lemma LookStep(cfg: BankConfig, requests: seq<Idempotency.Request>, d: Idempotency.Desk, r: nat)
    requires r < |requests| == |d.progress| && d.progress[r] == Idempotency.New && Idempotency.WellFormed(cfg, requests[r])
    ensures var found := FindPayment(d.bank.payments, requests[r].user, requests[r].key);
            Idempotency.Next(cfg, requests, d, Idempotency.Lookup(r))
            == d.(progress := d.progress[r := if found.Some? then Idempotency.Returned(found.value) else Idempotency.NotFound])
  {
  }

  lemma CommitStep(cfg: BankConfig, requests: seq<Idempotency.Request>, d: Idempotency.Desk, r: nat, after: Bank)
    requires r < |requests| == |d.progress| && d.progress[r] == Idempotency.NotFound && AttemptPayment(cfg, d.bank, requests[r]) == Some(after)
    ensures Idempotency.Next(cfg, requests, d, Idempotency.Commit(r))
            == Idempotency.Desk(after, d.progress[r := Idempotency.Returned(|d.bank.payments|)])
  {
  }

  lemma RefusalStep(cfg: BankConfig, requests: seq<Idempotency.Request>, d: Idempotency.Desk, r: nat)
    requires r < |requests| == |d.progress| && d.progress[r] == Idempotency.NotFound
    requires requests[r].DoTransfer? && Funds(d.bank, requests[r].user, requests[r].asset) < requests[r].amount
    ensures Idempotency.Next(cfg, requests, d, Idempotency.Commit(r)) == d.(progress := d.progress[r := Idempotency.Refused])
  {
  }

  // ---- A retry that is refused although its payment exists ----

  /** The bank after the credited user has sent everything on. */
  function SentOn(user: string, recipient: string, asset: string, amount: int, first: string, key: string): Bank {
    var b := Credited(user, asset, amount, first);
    b.(payments := b.payments + [Payment(user, key, Kind.Transfer(recipient), asset, amount, PaymentCompleted)]
                   + [Payment(recipient, key + ":in", Receive(1), asset, amount, PaymentCompleted)],
       entries := b.entries + AsEntries(PaymentJournal(1), TransferLegs(user, recipient, asset, amount)))
  }

  lemma {:induction false} KeysAreFree(user: string, recipient: string, asset: string, amount: int, first: string, key: string)
    requires recipient != user && first != key
    ensures var b := Credited(user, asset, amount, first);
            && FindPayment(b.payments, user, key).None?
            && FindPayment(b.payments + [Payment(user, key, Kind.Transfer(recipient), asset, amount, PaymentCompleted)], recipient, key + ":in").None?
  {
  }

  lemma NothingLeftAfterSending(cfg: BankConfig, user: string, recipient: string, asset: string, amount: int, first: string, key: string)
    requires Creditable(cfg, asset, amount) && recipient != user
    ensures Funds(SentOn(user, recipient, asset, amount, first, key), user, asset) == 0
  {
    var b := Credited(user, asset, amount, first);
    FirstCredit(cfg, user, asset, amount, first);
    var legs, a := TransferLegs(user, recipient, asset, amount), UserAccount(user, asset);
    BalanceAfterPost(b.entries, PaymentJournal(1), legs, a);
    PairEffect(legs[0], legs[1], a);
    assert legs == [legs[0], legs[1]];
  }

  lemma SendingOn(cfg: BankConfig, user: string, recipient: string, asset: string, amount: int, first: string, key: string)
    requires Creditable(cfg, asset, amount) && recipient != user && first != key
    ensures AttemptPayment(cfg, Credited(user, asset, amount, first), DoTransfer(user, recipient, asset, amount, key))
            == Some(SentOn(user, recipient, asset, amount, first, key))
  {
    FirstCredit(cfg, user, asset, amount, first);
    TransferPosts(user, recipient, asset, amount);
    KeysAreFree(user, recipient, asset, amount, first, key);
  }

  /**
   * Two copies of one request to send everything are looked up before either commits. The
   * first commits; the second finds the balance gone and is refused, though its payment exists.
   */
  lemma RetryCanBeRefused(cfg: BankConfig, user: string, recipient: string, asset: string, amount: int, first: string, key: string)
    returns (requests: seq<Idempotency.Request>, evs: seq<Idempotency.Event>)
    requires Creditable(cfg, asset, amount) && recipient != user && first != key
    ensures |requests| == 2 && requests[0] == requests[1] == DoTransfer(user, recipient, asset, amount, key)
    ensures var d := Idempotency.RunDesk(cfg, requests, Idempotency.Opening(requests), evs);
            && d.progress == [Idempotency.Returned(1), Idempotency.Refused]
            && FindPayment(d.bank.payments, user, key) == Some(1)
  {
    var t: Idempotency.Request := DoTransfer(user, recipient, asset, amount, key);
    requests := [t, t];
    var b := Credited(user, asset, amount, first);
    var credit := Idempotency.Others(Pay(DoFaucet(user, asset, amount, first)));
    KeysAreFree(user, recipient, asset, amount, first, key);
    var d1 := Idempotency.Desk(b, [Idempotency.New, Idempotency.New]);
    var rest := SecondCopyIsRefused(cfg, user, recipient, asset, amount, first, key, requests);
    CreditStep(cfg, requests, user, asset, amount, first);
    var d2 := Idempotency.Desk(b, [Idempotency.NotFound, Idempotency.New]);
    LookStep(cfg, requests, d1, 0);
    DeskStep(cfg, requests, d1, Idempotency.Lookup(0), d2, rest);
    DeskStep(cfg, requests, Idempotency.Opening(requests), credit, d1, [Idempotency.Lookup(0)] + rest);
    evs := [credit] + ([Idempotency.Lookup(0)] + rest);
  }

  lemma SecondCopyIsRefused(cfg: BankConfig, user: string, recipient: string, asset: string, amount: int, first: string, key: string,
                            requests: seq<Idempotency.Request>) returns (evs: seq<Idempotency.Event>)
    requires Creditable(cfg, asset, amount) && recipient != user && first != key
    requires |requests| == 2 && requests[0] == requests[1] == DoTransfer(user, recipient, asset, amount, key)
    ensures var d := Idempotency.RunDesk(cfg, requests, Idempotency.Desk(Credited(user, asset, amount, first), [Idempotency.NotFound, Idempotency.New]), evs);
            && d.progress == [Idempotency.Returned(1), Idempotency.Refused]
            && FindPayment(d.bank.payments, user, key) == Some(1)
  {
    var b, after := Credited(user, asset, amount, first), SentOn(user, recipient, asset, amount, first, key);
    SendingOn(cfg, user, recipient, asset, amount, first, key);
    NothingLeftAfterSending(cfg, user, recipient, asset, amount, first, key);
    KeysAreFree(user, recipient, asset, amount, first, key);
    var d2 := Idempotency.Desk(b, [Idempotency.NotFound, Idempotency.New]);
    var d3 := Idempotency.Desk(b, [Idempotency.NotFound, Idempotency.NotFound]);
    var d4 := Idempotency.Desk(after, [Idempotency.Returned(1), Idempotency.NotFound]);
    var d5 := Idempotency.Desk(after, [Idempotency.Returned(1), Idempotency.Refused]);
    LookStep(cfg, requests, d2, 1);
    CommitStep(cfg, requests, d3, 0, after);
    RefusalStep(cfg, requests, d4, 1);
    var last: seq<Idempotency.Event> := [];
    DeskStep(cfg, requests, d4, Idempotency.Commit(1), d5, last);
    DeskStep(cfg, requests, d3, Idempotency.Commit(0), d4, [Idempotency.Commit(1)] + last);
    DeskStep(cfg, requests, d2, Idempotency.Lookup(1), d3, [Idempotency.Commit(0)] + ([Idempotency.Commit(1)] + last));
    evs := [Idempotency.Lookup(1)] + ([Idempotency.Commit(0)] + ([Idempotency.Commit(1)] + last));
    SentRowIsFound(user, recipient, asset, amount, first, key);
  }

  lemma {:induction false} SentRowIsFound(user: string, recipient: string, asset: string, amount: int, first: string, key: string)
    requires recipient != user && first != key
    ensures var rows := SentOn(user, recipient, asset, amount, first, key).payments;
            |rows| == 3 && FindPayment(rows, user, key) == Some(1) && FindPayment(rows, recipient, key + ":in") == Some(2)
  {
    var b := Credited(user, asset, amount, first);
    var rows := SentOn(user, recipient, asset, amount, first, key).payments;
    assert rows[..2] == b.payments + [rows[1]];
  }

  /** The recipient's own request under the key that the sender's mirror row occupies is answered with that row, and not carried out. */
  lemma MirrorAnswersRequest(cfg: BankConfig, user: string, recipient: string, asset: string, amount: int, first: string, key: string, own: Idempotency.Request)
    returns (requests: seq<Idempotency.Request>, evs: seq<Idempotency.Event>)
    requires Creditable(cfg, asset, amount) && recipient != user && first != key
    requires own.user == recipient && own.key == key + ":in" && Idempotency.WellFormed(cfg, own)
    ensures |requests| == 2 && requests[1] == own
    ensures var d := Idempotency.RunDesk(cfg, requests, Idempotency.Opening(requests), evs);
            && d.progress == [Idempotency.Returned(1), Idempotency.Returned(2)]
            && |d.bank.payments| == 3 && d.bank.payments[2].kind == Receive(1)
            && !Idempotency.OwnKind(own, d.bank.payments[2].kind)
  {
    requests := [DoTransfer(user, recipient, asset, amount, key), own];
    var credit := Idempotency.Others(Pay(DoFaucet(user, asset, amount, first)));
    var b := Credited(user, asset, amount, first);
    KeysAreFree(user, recipient, asset, amount, first, key);
    var d1 := Idempotency.Desk(b, [Idempotency.New, Idempotency.New]);
    var d2 := Idempotency.Desk(b, [Idempotency.NotFound, Idempotency.New]);
    CreditStep(cfg, requests, user, asset, amount, first);
    LookStep(cfg, requests, d1, 0);
    var last := MirrorIsFound(cfg, user, recipient, asset, amount, first, key, requests);
    DeskStep(cfg, requests, d1, Idempotency.Lookup(0), d2, last);
    evs := [credit] + ([Idempotency.Lookup(0)] + last);
    DeskStep(cfg, requests, Idempotency.Opening(requests), credit, d1, [Idempotency.Lookup(0)] + last);
  }

  lemma MirrorIsFound(cfg: BankConfig, user: string, recipient: string, asset: string, amount: int, first: string, key: string,
                      requests: seq<Idempotency.Request>) returns (evs: seq<Idempotency.Event>)
    requires Creditable(cfg, asset, amount) && recipient != user && first != key
    requires |requests| == 2 && requests[0] == DoTransfer(user, recipient, asset, amount, key)
    requires requests[1].user == recipient && requests[1].key == key + ":in" && Idempotency.WellFormed(cfg, requests[1])
    ensures Idempotency.RunDesk(cfg, requests, Idempotency.Desk(Credited(user, asset, amount, first), [Idempotency.NotFound, Idempotency.New]), evs)
            == Idempotency.Desk(SentOn(user, recipient, asset, amount, first, key), [Idempotency.Returned(1), Idempotency.Returned(2)])
  {
    var b, after := Credited(user, asset, amount, first), SentOn(user, recipient, asset, amount, first, key);
    SendingOn(cfg, user, recipient, asset, amount, first, key);
    SentRowIsFound(user, recipient, asset, amount, first, key);
    var d2 := Idempotency.Desk(b, [Idempotency.NotFound, Idempotency.New]);
    var d3 := Idempotency.Desk(after, [Idempotency.Returned(1), Idempotency.New]);
    var d4 := Idempotency.Desk(after, [Idempotency.Returned(1), Idempotency.Returned(2)]);
    CommitStep(cfg, requests, d2, 0, after);
    LookStep(cfg, requests, d3, 1);
    var last: seq<Idempotency.Event> := [];
    DeskStep(cfg, requests, d3, Idempotency.Lookup(1), d4, last);
    DeskStep(cfg, requests, d2, Idempotency.Commit(0), d3, [Idempotency.Lookup(1)] + last);
    evs := [Idempotency.Commit(0)] + ([Idempotency.Lookup(1)] + last);
  }

  // ---- A transfer refused because its recipient has used a key ----

  /** Both users have a test credit, the recipient's under the key that the mirror row needs. */
  function BothCredited(user: string, recipient: string, asset: string, amount: int, first: string, key: string): Bank {
    var b := Credited(user, asset, amount, first);
    b.(payments := b.payments + [Payment(recipient, key + ":in", Faucet, asset, amount, PaymentCompleted)],
       entries := b.entries + AsEntries(PaymentJournal(1), FaucetLegs(recipient, asset, amount)))
  }

  lemma {:induction false} SecondCredit(cfg: BankConfig, user: string, recipient: string, asset: string, amount: int, first: string, key: string)
    requires Creditable(cfg, asset, amount) && recipient != user && first != key
    ensures var b, after := Credited(user, asset, amount, first), BothCredited(user, recipient, asset, amount, first, key);
            && FindPayment(b.payments, recipient, key + ":in").None?
            && AttemptPayment(cfg, b, DoFaucet(recipient, asset, amount, key + ":in")) == Some(after)
            && Funds(after, user, asset) == amount
            && FindPayment(after.payments, user, key).None? && FindPayment(after.payments, recipient, key + ":in").Some?
  {
    var b, after := Credited(user, asset, amount, first), BothCredited(user, recipient, asset, amount, first, key);
    var legs, a := FaucetLegs(recipient, asset, amount), UserAccount(user, asset);
    FirstCredit(cfg, user, asset, amount, first);
    TransferPosts(recipient, recipient, asset, amount);
    BalanceAfterPost(b.entries, PaymentJournal(1), legs, a);
    PairEffect(legs[0], legs[1], a);
    assert legs == [legs[0], legs[1]];
    Answers.FindAfterAppend([], b.payments[0], recipient, key + ":in");
    Answers.FindAfterAppend([], b.payments[0], user, key);
    assert [] + [b.payments[0]] == b.payments;
    Answers.FindAfterAppend(b.payments, after.payments[1], user, key);
    Answers.FindAfterAppend(b.payments, after.payments[1], recipient, key + ":in");
  }

  /** The recipient has used the key of the mirror row: the transfer, with funds and a key never used before, is refused. */
  lemma UsedMirrorKeyRefusesTransfer(cfg: BankConfig, user: string, recipient: string, asset: string, amount: int, first: string, key: string)
    returns (requests: seq<Idempotency.Request>, evs: seq<Idempotency.Event>)
    requires Creditable(cfg, asset, amount) && recipient != user && first != key
    ensures requests == [DoTransfer(user, recipient, asset, amount, key), DoFaucet(recipient, asset, amount, key + ":in")]
    ensures var d := Idempotency.RunDesk(cfg, requests, Idempotency.Opening(requests), evs);
            && d.progress == [Idempotency.Refused, Idempotency.Returned(1)]
            && Idempotency.Admissible(cfg, d.bank, requests[0]) && FindPayment(d.bank.payments, user, key).None?
  {
    requests := [DoTransfer(user, recipient, asset, amount, key), DoFaucet(recipient, asset, amount, key + ":in")];
    var credit := Idempotency.Others(Pay(DoFaucet(user, asset, amount, first)));
    var d1 := Idempotency.Desk(Credited(user, asset, amount, first), [Idempotency.New, Idempotency.New]);
    CreditStep(cfg, requests, user, asset, amount, first);
    var last := TransferRefused(cfg, user, recipient, asset, amount, first, key, requests);
    var rest := RecipientGoesFirst(cfg, user, recipient, asset, amount, first, key, requests, last);
    DeskStep(cfg, requests, Idempotency.Opening(requests), credit, d1, rest);
    evs := [credit] + rest;
    SecondCredit(cfg, user, recipient, asset, amount, first, key);
  }

  lemma RecipientGoesFirst(cfg: BankConfig, user: string, recipient: string, asset: string, amount: int, first: string, key: string,
                           requests: seq<Idempotency.Request>, rest: seq<Idempotency.Event>) returns (evs: seq<Idempotency.Event>)
    requires Creditable(cfg, asset, amount) && recipient != user && first != key
    requires |requests| == 2 && requests[1] == DoFaucet(recipient, asset, amount, key + ":in")
    ensures var b, after := Credited(user, asset, amount, first), BothCredited(user, recipient, asset, amount, first, key);
            Idempotency.RunDesk(cfg, requests, Idempotency.Desk(b, [Idempotency.New, Idempotency.New]), evs)
            == Idempotency.RunDesk(cfg, requests, Idempotency.Desk(after, [Idempotency.New, Idempotency.Returned(1)]), rest)
  {
    var b, after := Credited(user, asset, amount, first), BothCredited(user, recipient, asset, amount, first, key);
    SecondCredit(cfg, user, recipient, asset, amount, first, key);
    var d1 := Idempotency.Desk(b, [Idempotency.New, Idempotency.New]);
    var d2 := Idempotency.Desk(b, [Idempotency.New, Idempotency.NotFound]);
    var d3 := Idempotency.Desk(after, [Idempotency.New, Idempotency.Returned(1)]);
    LookStep(cfg, requests, d1, 1);
    CommitStep(cfg, requests, d2, 1, after);
    DeskStep(cfg, requests, d2, Idempotency.Commit(1), d3, rest);
    DeskStep(cfg, requests, d1, Idempotency.Lookup(1), d2, [Idempotency.Commit(1)] + rest);
    evs := [Idempotency.Lookup(1)] + ([Idempotency.Commit(1)] + rest);
  }

  lemma TransferRefused(cfg: BankConfig, user: string, recipient: string, asset: string, amount: int, first: string, key: string,
                        requests: seq<Idempotency.Request>) returns (evs: seq<Idempotency.Event>)
    requires Creditable(cfg, asset, amount) && recipient != user && first != key
    requires |requests| == 2 && requests[0] == DoTransfer(user, recipient, asset, amount, key)
    ensures var after := BothCredited(user, recipient, asset, amount, first, key);
            Idempotency.RunDesk(cfg, requests, Idempotency.Desk(after, [Idempotency.New, Idempotency.Returned(1)]), evs)
            == Idempotency.Desk(after, [Idempotency.Refused, Idempotency.Returned(1)])
  {
    var after := BothCredited(user, recipient, asset, amount, first, key);
    SecondCredit(cfg, user, recipient, asset, amount, first, key);
    var d3 := Idempotency.Desk(after, [Idempotency.New, Idempotency.Returned(1)]);
    var d4 := Idempotency.Desk(after, [Idempotency.NotFound, Idempotency.Returned(1)]);
    var d5 := Idempotency.Desk(after, [Idempotency.Refused, Idempotency.Returned(1)]);
    LookStep(cfg, requests, d3, 0);
    Answers.FreshTransferIsAnsweredExactlyWhen(cfg, requests, d4, 0);
    var last: seq<Idempotency.Event> := [];
    DeskStep(cfg, requests, d4, Idempotency.Commit(0), d5, last);
    DeskStep(cfg, requests, d3, Idempotency.Lookup(0), d4, [Idempotency.Commit(0)] + last);
    evs := [Idempotency.Lookup(0)] + ([Idempotency.Commit(0)] + last);
  }

  // ---- A deposit whose key its own user has taken ----

  /** The user takes the key, and then the transfer is scanned. */
  function TakesItsKey(cfg: Indexer.NetworkConfig, l: Indexer.Log, token: Indexer.Token, user: string, asset: string, amount: int, rates: Rates): seq<Indexer.Event> {
    [Indexer.Others(Pay(DoFaucet(user, asset, amount, DepositKey(Indexer.AsTransfer(cfg, token, user, l))))),
     Indexer.Scan(l.block + cfg.confirmations, map[l.to := user], rates, None)]
  }

  /** The user's own request carries the key that the deposit will have; the scan passes over the deposit and commits its window. */
  lemma {:induction false} DepositKeyCanBeTaken(bankCfg: BankConfig, cfg: Indexer.NetworkConfig, l: Indexer.Log, token: Indexer.Token, user: string, asset: string, amount: int, rates: Rates)
    requires Creditable(bankCfg, asset, amount)
    requires cfg.tokens == [token] && l.token == token.address && l.block > 0
    ensures var t := Indexer.AsTransfer(cfg, token, user, l);
            var s := Indexer.RunScans(bankCfg, cfg, [l], Indexer.Scanner(EMPTY, None, []), TakesItsKey(cfg, l, token, user, asset, amount, rates));
            s.cursor == Some(l.block) && !IsCredited(s.bank, t) && Funds(s.bank, user, asset) == amount
  {
    var t := Indexer.AsTransfer(cfg, token, user, l);
    var evs := TakesItsKey(cfg, l, token, user, asset, amount, rates);
    FirstCredit(bankCfg, user, asset, amount, DepositKey(t));
    TwoEvents(bankCfg, cfg, [l], Indexer.Scanner(EMPTY, None, []), evs[0], evs[1]);
    TakenScanPasses(cfg, l, token, user, Credited(user, asset, amount, DepositKey(t)), rates);
  }

  lemma {:induction false} TwoEvents(bankCfg: BankConfig, cfg: Indexer.NetworkConfig, logs: seq<Indexer.Log>, s: Indexer.Scanner, first: Indexer.Event, second: Indexer.Event)
    ensures Indexer.RunScans(bankCfg, cfg, logs, s, [first, second])
            == Indexer.Next(bankCfg, cfg, logs, Indexer.Next(bankCfg, cfg, logs, s, first), second)
  {
    var evs, after := [first, second], Indexer.Next(bankCfg, cfg, logs, s, first);
    assert evs[1..] == [second] && [second][1..] == [];
    assert Indexer.RunScans(bankCfg, cfg, logs, after, [second]) == Indexer.Next(bankCfg, cfg, logs, after, second);
  }

  lemma TakenScanPasses(cfg: Indexer.NetworkConfig, l: Indexer.Log, token: Indexer.Token, user: string, b: Bank, rates: Rates)
    requires cfg.tokens == [token] && l.token == token.address && l.block > 0 && b.deposits == []
    requires var t := Indexer.AsTransfer(cfg, token, user, l); FindPayment(b.payments, t.user, DepositKey(t)).Some?
    ensures var after := Indexer.ScanOnce(cfg, [l], Indexer.Scanner(b, None, []), l.block + cfg.confirmations, map[l.to := user], rates, None);
            after.bank == b && after.cursor == Some(l.block)
  {
    var t := Indexer.AsTransfer(cfg, token, user, l);
    var w := FirstWindow(cfg, l.block);
    OneTransferListed(cfg, l, token, user, w, l.block);
    Indexer.TakenKeySkipsDeposit(b, t, rates);
  }

  lemma FirstWindow(cfg: Indexer.NetworkConfig, block: nat) returns (from: nat)
    requires block > 0
    ensures from <= block && Indexer.NextWindow(cfg, None, block + cfg.confirmations) == Some((from, block))
  {
    from := if block < cfg.scanRange then 0 else block - cfg.scanRange;
  }

  lemma {:induction false} OneTransferListed(cfg: Indexer.NetworkConfig, l: Indexer.Log, token: Indexer.Token, user: string, from: nat, to: nat)
    requires cfg.tokens == [token] && l.token == token.address && from <= l.block <= to
    ensures Indexer.WindowTransfers(cfg, cfg.tokens, [l], from, to, map[l.to := user]) == [Indexer.AsTransfer(cfg, token, user, l)]
  {
    var registry := map[l.to := user];
    assert [l][..0] == [] && cfg.tokens[..0] == [];
    assert Indexer.TransfersOf(cfg, token, [], from, to, registry) == [];
    assert Indexer.TransfersOf(cfg, token, [l], from, to, registry) == [] + [Indexer.AsTransfer(cfg, token, user, l)];
    assert Indexer.WindowTransfers(cfg, [], [l], from, to, registry) == [];
    assert Indexer.WindowTransfers(cfg, cfg.tokens, [l], from, to, registry) == [] + Indexer.TransfersOf(cfg, token, [l], from, to, registry);
  }

  // ---- A withdrawal that is refunded after its tokens have left ----

  const FREE := Rates(0, 0, 0, 0, 0)

  function Requested(user: string, asset: string, amount: int, first: string, key: string): Bank {
    var b := Credited(user, asset, amount, first);
    b.(payments := b.payments + [Payment(user, key, Withdrawal(PendingBroadcast, 0, amount, 0), asset, amount, Processing)],
       holds := [Hold(UserAccount(user, asset), amount, Active)])
  }

  lemma FreeQuote(amount: int)
    requires amount > 0
    ensures QuoteWithdraw(amount, FREE) == Quote(0, 0, 0, amount, amount)
  {
    assert amount * 0 == 0;
  }

  lemma RequestingAll(cfg: BankConfig, user: string, asset: string, amount: int, first: string, key: string)
    requires Creditable(cfg, asset, amount) && Upper(asset) in {"USDT", "USDC"} && first != key
    ensures Apply(cfg, Credited(user, asset, amount, first), Pay(DoRequestWithdrawal(user, asset, amount, key, FREE)))
            == Requested(user, asset, amount, first, key)
  {
    var b := Credited(user, asset, amount, first);
    FirstCredit(cfg, user, asset, amount, first);
    FreeQuote(amount);
    assert FindPayment(b.payments, user, key).None?;
    assert b.holds + [Hold(UserAccount(user, asset), amount, Active)] == [Hold(UserAccount(user, asset), amount, Active)];
  }

  lemma OneRowPending(user: string, asset: string, amount: int, first: string, key: string)
    ensures var b := Requested(user, asset, amount, first, key);
            |b.payments| == 2 && Withdrawals.PendingRows(b, false, 0, Withdrawals.BATCH) == [Withdrawals.Item(1, b.payments[1])]
  {
    var b := Requested(user, asset, amount, first, key);
    assert Withdrawals.PendingRows(b, false, 2, Withdrawals.BATCH - 1) == [];
    assert Withdrawals.PendingRows(b, false, 1, Withdrawals.BATCH) == [Withdrawals.Item(1, b.payments[1])];
  }

  lemma {:induction false} MachineStep(cfg: BankConfig, s: Withdrawals.Process, ev: Withdrawals.Event, next: Withdrawals.Process, rest: seq<Withdrawals.Event>)
    requires Withdrawals.Next(cfg, s, ev) == next
    ensures Withdrawals.Run(cfg, s, [ev] + rest) == Withdrawals.Run(cfg, next, rest)
  {
    assert ([ev] + rest)[1..] == rest;
  }

  /** The tokens are out, the hold is released, the row says failed. */
  predicate OutAndBack(s: Withdrawals.Process, user: string, asset: string, amount: int) {
    && |s.bank.payments| == 2 && s.bank.payments[1].kind.Withdrawal? && s.bank.payments[1].status == PaymentFailed
    && 1 in s.left && Withdrawals.Calls(s, 1) == 1
    && Funds(s.bank, user, asset) == amount
  }

  /** The wallet sends, the save of its transaction hash fails, and the withdrawal is refunded: the tokens are out and the balance is back. */
  lemma SentAndRefunded(cfg: BankConfig, user: string, asset: string, amount: int, first: string, key: string, txHash: string)
    returns (evs: seq<Withdrawals.Event>)
    requires Creditable(cfg, asset, amount) && Upper(asset) in {"USDT", "USDC"} && first != key
    ensures OutAndBack(Withdrawals.Run(cfg, Withdrawals.START, evs), user, asset, amount)
  {
    var credit, request := Withdrawals.Others(Pay(DoFaucet(user, asset, amount, first))),
      Withdrawals.Others(Pay(DoRequestWithdrawal(user, asset, amount, key, FREE)));
    FirstCredit(cfg, user, asset, amount, first);
    RequestingAll(cfg, user, asset, amount, first, key);
    var s0 := Withdrawals.START;
    var s1 := s0.(bank := Credited(user, asset, amount, first));
    var s2 := s0.(bank := Requested(user, asset, amount, first, key));
    var worker := WorkerRefunds(cfg, s2, txHash, user, asset, amount, first, key);
    MachineStep(cfg, s1, request, s2, worker);
    MachineStep(cfg, s0, credit, s1, [request] + worker);
    evs := [credit] + ([request] + worker);
  }

  lemma WorkerRefunds(cfg: BankConfig, s: Withdrawals.Process, txHash: string, user: string, asset: string, amount: int, first: string, key: string)
    returns (evs: seq<Withdrawals.Event>)
    requires Creditable(cfg, asset, amount)
    requires s == Withdrawals.START.(bank := Requested(user, asset, amount, first, key))
    ensures OutAndBack(Withdrawals.Run(cfg, s, evs), user, asset, amount)
  {
    OneRowPending(user, asset, amount, first, key);
    var ok := Withdrawals.Tick(Withdrawals.SaveWorked);
    var item := Withdrawals.Item(1, s.bank.payments[1]);
    var t1 := s.(worker := Withdrawals.Emitting([item]));
    var t2 := Withdrawals.Next(cfg, t1, ok);
    assert [item][1..] == [];
    var rest := SendingRefunds(cfg, t2, txHash, user, asset, amount, first);
    MachineStep(cfg, t1, ok, t2, rest);
    MachineStep(cfg, s, ok, t1, [ok] + rest);
    evs := [ok] + ([ok] + rest);
  }

  lemma SendingRefunds(cfg: BankConfig, s: Withdrawals.Process, txHash: string, user: string, asset: string, amount: int, first: string)
    returns (evs: seq<Withdrawals.Event>)
    requires Creditable(cfg, asset, amount)
    requires s.worker.Sending? && s.worker.rest == [] && s.worker.head.id == 1 && Withdrawals.Calls(s, 1) == 0
    requires |s.bank.payments| == 2 && s.worker.head.row.kind.Withdrawal? && s.worker.head.row.kind.hold == 0
    requires s.bank.entries == Credited(user, asset, amount, first).entries && s.bank.holds == [Hold(UserAccount(user, asset), amount, Active)]
    ensures OutAndBack(Withdrawals.Run(cfg, s, evs), user, asset, amount)
  {
    var ok, sent, threw := Withdrawals.Tick(Withdrawals.SaveWorked), Withdrawals.Tick(Withdrawals.WalletSent(txHash)),
      Withdrawals.Tick(Withdrawals.SaveThrew);
    var head := s.worker.head;
    var t3 := s.(sends := s.sends[1 := 1], worker := Withdrawals.Recording(head, txHash, []), left := s.left + {1});
    var t4 := t3.(worker := Withdrawals.Refunding(head, []), misfired := s.misfired + {1});
    var t5 := t4.(bank := Withdrawals.WriteFailed(t4.bank, head), worker := Withdrawals.Emitting([]));
    var last: seq<Withdrawals.Event> := [];
    MachineStep(cfg, t4, ok, t5, last);
    MachineStep(cfg, t3, threw, t4, [ok] + last);
    MachineStep(cfg, s, sent, t3, [threw] + ([ok] + last));
    evs := [sent] + ([threw] + ([ok] + last));
    ReleasedFunds(cfg, t5.bank, user, asset, amount, first);
  }

  lemma ReleasedFunds(cfg: BankConfig, b: Bank, user: string, asset: string, amount: int, first: string)
    requires Creditable(cfg, asset, amount) && b.entries == Credited(user, asset, amount, first).entries
    requires b.holds == [Hold(UserAccount(user, asset), amount, Released)]
    ensures Funds(b, user, asset) == amount
  {
    FirstCredit(cfg, user, asset, amount, first);
    assert b.holds[..0] == [];
  }
}
