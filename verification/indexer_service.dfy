/** The deposit indexer as it runs (src/indexer/deposit-indexer.service.ts): cursor fields, nested loops, rows inserted. */
module IndexerService {
  import opened Wrappers
  import opened Fees
  import opened Ledger
  import opened Banking
  import opened Custody
  import opened DatabaseRows
  import opened Indexer

  datatype Outcome = Done | AlreadyThere | Threw

  ghost predicate Matches(before: Bank, result: CreditResult, out: Outcome, after: Bank) {
    match result
    case Credited(bank) => out == Done && after == bank
    case Skipped => out == AlreadyThere && after == before
    case Failed => out == Threw && after == before
  }

  class DepositIndexerService {
    const cfg: NetworkConfig
    const ledger: LedgerService
    var cursor: Option<nat>
    ghost var windows: seq<Window>

    constructor (cfg: NetworkConfig, ledger: LedgerService)
      ensures this.cfg == cfg && this.ledger == ledger && cursor == None && windows == []
    {
      this.cfg, this.ledger, cursor, windows := cfg, ledger, None, [];
    }

    ghost function State(): Scanner
      reads this, ledger.db
    {
      Scanner(ledger.db.Rows(), cursor, windows)
    }

    /** One transfer: payment, journal and deposit row in one transaction. */
    method CreditDeposit(t: OnChainTransfer, rates: Rates) returns (out: Outcome)
      modifies ledger.db
      ensures Matches(old(ledger.db.Rows()), Banking.CreditDeposit(old(ledger.db.Rows()), t, rates), out, ledger.db.Rows())
    {
      var db := ledger.db;
      if exists i :: 0 <= i < |db.deposits| && SameTransfer(db.deposits[i], t) {
        return AlreadyThere;
      }
      if FindPayment(db.payments, t.user, DepositKey(t)).Some? {
        return AlreadyThere;
      }
      var saved, id, quote := db.Rows(), |db.payments|, QuoteDeposit(t.amount, rates);
      db.payments := db.payments +
        [Payment(t.user, DepositKey(t), Deposit(t.amount, quote.platformFee), t.asset, quote.net, PaymentCompleted)];
      var entries := EntryJournal(t.user, t.asset, t.amount, quote.platformFee);
      var posted := ledger.PostJournal(PaymentJournal(id), entries);
      if !posted {
        db.RollBack(saved);
        return Threw;
      }
      db.deposits := db.deposits + [ChainDeposit(t.network, t.txHash, t.logIndex, t.user, t.asset, t.amount, id)];
      return Done;
    }

    /** The transfers of one token, in order, until a credit throws. */
    method CreditToken(transfers: seq<OnChainTransfer>, rates: Rates) returns (credited: nat, ok: bool)
      modifies ledger.db
      ensures (ledger.db.Rows(), ok) == CreditAll(old(ledger.db.Rows()), transfers, rates)
      ensures credited == |ledger.db.deposits| - |old(ledger.db.deposits)|
    {
      var db := ledger.db;
      credited, ok := 0, true;
      for j := 0 to |transfers|
        invariant (db.Rows(), true) == CreditAll(old(db.Rows()), transfers[..j], rates)
        invariant credited == |db.deposits| - |old(db.deposits)|
      {
        assert transfers[..j + 1][..j] == transfers[..j];
        var out := CreditDeposit(transfers[j], rates);
        if out == Threw {
          CreditStops(old(db.Rows()), transfers, rates, j + 1);
          ok := false;
          return;
        }
        if out == Done {
          credited := credited + 1;
        }
      }
      assert transfers[..|transfers|] == transfers;
    }

    /** The same after some were credited. */
    method CreditMore(ghost b: Bank, ghost earlier: seq<OnChainTransfer>, transfers: seq<OnChainTransfer>, rates: Rates)
      returns (credited: nat, ok: bool)
      requires CreditAll(b, earlier, rates) == (ledger.db.Rows(), true)
      modifies ledger.db
      ensures CreditAll(b, earlier + transfers, rates) == (ledger.db.Rows(), ok)
      ensures credited == |ledger.db.deposits| - |old(ledger.db.deposits)|
    {
      CreditInTwo(b, earlier, transfers, rates);
      credited, ok := CreditToken(transfers, rates);
    }

    /** All watched tokens over one window. */
    method CreditWindow(logs: seq<Log>, from: nat, to: nat, registry: Registry, rates: Rates) returns (found: nat, credited: nat, ok: bool)
      modifies ledger.db
      ensures (ledger.db.Rows(), ok) == CreditAll(old(ledger.db.Rows()), WindowTransfers(cfg, cfg.tokens, logs, from, to, registry), rates)
      ensures credited == |ledger.db.deposits| - |old(ledger.db.deposits)|
      ensures ok ==> found == |WindowTransfers(cfg, cfg.tokens, logs, from, to, registry)|
    {
      var db := ledger.db;
      ghost var b, handled: seq<OnChainTransfer> := db.Rows(), [];
      found, credited, ok := 0, 0, true;
      for i := 0 to |cfg.tokens|
        invariant handled == WindowTransfers(cfg, cfg.tokens[..i], logs, from, to, registry) && found == |handled|
        invariant CreditAll(b, handled, rates) == (db.Rows(), true)
        invariant credited == |db.deposits| - |b.deposits|
      {
        var transfers := TransfersOf(cfg, cfg.tokens[i], logs, from, to, registry);
        NextToken(cfg, cfg.tokens, logs, from, to, registry, i);
        var more: nat;
        more, ok := CreditMore(b, handled, transfers, rates);
        found, credited, handled := found + |transfers|, credited + more, handled + transfers;
        if !ok {
          WindowStops(cfg, logs, from, to, registry, b, i + 1, rates);
          return;
        }
      }
      assert cfg.tokens[..|cfg.tokens|] == cfg.tokens;
    }

    method WindowToScan(head: nat) returns (window: Option<(nat, nat)>)
      ensures window == NextWindow(cfg, cursor, head)
    {
      var toBlockMax := head - cfg.confirmations;
      if toBlockMax <= 0 {
        return None;
      }
      var fromBlock := if cursor.Some? then cursor.value + 1 else toBlockMax - cfg.scanRange;
      if fromBlock < 0 {
        fromBlock := 0;
      }
      var toBlock := toBlockMax;
      if toBlock - fromBlock > cfg.scanRange {
        toBlock := fromBlock + cfg.scanRange;
      }
      if toBlock < fromBlock {
        return None;
      }
      return Some((fromBlock, toBlock));
    }

    lemma ScanKeepsInv(logs: seq<Log>, head: nat, registry: Registry, rates: Rates)
      ensures Inv(ledger.db.Rows()) && SaneRates(rates) ==> Inv(ScanOnce(cfg, logs, State(), head, registry, rates, None).bank)
    {
      if Inv(ledger.db.Rows()) && SaneRates(rates) {
        ScanKeepsBank(cfg, logs, State(), head, registry, rates, None);
      }
    }

    /** One scan that the node answers throughout; ok is false when a credit throws, and then the cursor stays. */
    method ScanNetwork(logs: seq<Log>, head: nat, registry: Registry, rates: Rates) returns (found: nat, credited: nat, ok: bool)
      modifies this`cursor, this`windows, ledger.db
      ensures State() == ScanOnce(cfg, logs, old(State()), head, registry, rates, None)
      ensures credited == |ledger.db.deposits| - |old(ledger.db.deposits)|
      ensures ok && NextWindow(cfg, old(cursor), head).Some? ==> cursor == Some(NextWindow(cfg, old(cursor), head).value.1)
      ensures !ok ==> cursor == old(cursor)
      ensures old(Inv(ledger.db.Rows())) && SaneRates(rates) ==> Inv(ledger.db.Rows())
    {
      ScanKeepsInv(logs, head, registry, rates);
      found, credited, ok := 0, 0, true;
      var window := WindowToScan(head);
      if window.Some? {
        var (fromBlock, toBlock) := window.value;
        found, credited, ok := CreditWindow(logs, fromBlock, toBlock, registry, rates);
        if ok {
          cursor, windows := Some(toBlock), windows + [Window(fromBlock, toBlock, head - cfg.confirmations, registry)];
        }
      }
    }
  }

  lemma {:induction false} NextToken(cfg: NetworkConfig, tokens: seq<Token>, logs: seq<Log>, from: nat, to: nat, registry: Registry, k: nat)
    requires k < |tokens|
    ensures WindowTransfers(cfg, tokens[..k + 1], logs, from, to, registry)
            == WindowTransfers(cfg, tokens[..k], logs, from, to, registry) + TransfersOf(cfg, tokens[k], logs, from, to, registry)
  {
    assert tokens[..k + 1][..k] == tokens[..k];
  }

  lemma {:induction false} CreditInTwo(b: Bank, first: seq<OnChainTransfer>, second: seq<OnChainTransfer>, rates: Rates)
    requires CreditAll(b, first, rates).1
    ensures CreditAll(b, first + second, rates) == CreditAll(CreditAll(b, first, rates).0, second, rates)
  {
    if |second| == 0 {
      assert first + second == first;
    } else {
      var all, shorter := first + second, second[..|second| - 1];
      CreditInTwo(b, first, shorter, rates);
      assert all[..|all| - 1] == first + shorter && all[|all| - 1] == second[|second| - 1];
    }
  }

  /** The transfers of the first tokens come first. */
  lemma {:induction false} WindowsArePrefixes(cfg: NetworkConfig, tokens: seq<Token>, logs: seq<Log>, from: nat, to: nat, registry: Registry, k: nat)
    requires k <= |tokens|
    ensures WindowTransfers(cfg, tokens[..k], logs, from, to, registry) <= WindowTransfers(cfg, tokens, logs, from, to, registry)
  {
    if k == |tokens| {
      assert tokens[..k] == tokens;
    } else {
      assert tokens[..|tokens| - 1][..k] == tokens[..k];
      WindowsArePrefixes(cfg, tokens[..|tokens| - 1], logs, from, to, registry, k);
    }
  }

  /** What follows a rejected credit is not handled. */
  lemma {:induction false} CreditStops(b: Bank, ts: seq<OnChainTransfer>, rates: Rates, k: nat)
    requires k <= |ts| && !CreditAll(b, ts[..k], rates).1
    ensures CreditAll(b, ts, rates) == CreditAll(b, ts[..k], rates)
  {
    if k == |ts| {
      assert ts[..k] == ts;
    } else {
      assert ts[..|ts| - 1][..k] == ts[..k];
      CreditStops(b, ts[..|ts| - 1], rates, k);
    }
  }

  /** A throw among the first tokens' transfers ends the window. */
  lemma {:induction false} WindowStops(cfg: NetworkConfig, logs: seq<Log>, from: nat, to: nat, registry: Registry, b: Bank, k: nat, rates: Rates)
    requires k <= |cfg.tokens| && !CreditAll(b, WindowTransfers(cfg, cfg.tokens[..k], logs, from, to, registry), rates).1
    ensures CreditAll(b, WindowTransfers(cfg, cfg.tokens, logs, from, to, registry), rates)
            == CreditAll(b, WindowTransfers(cfg, cfg.tokens[..k], logs, from, to, registry), rates)
  {
    var first, all := WindowTransfers(cfg, cfg.tokens[..k], logs, from, to, registry), WindowTransfers(cfg, cfg.tokens, logs, from, to, registry);
    WindowsArePrefixes(cfg, cfg.tokens, logs, from, to, registry, k);
    assert all[..|first|] == first;
    CreditStops(b, all, rates, |first|);
  }
}
