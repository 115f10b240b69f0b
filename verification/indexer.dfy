/**
 * The deposit indexer of one EVM network (src/indexer/deposit-indexer.service.ts): which block
 * windows it scans, when it moves its cursor, and what is credited by then. `logs` are the
 * token transfers of the chain; below the confirmation depth they do not change.
 */
module Indexer {
  import opened Wrappers
  import opened Money
  import opened Fees
  import opened Ledger
  import opened Banking
  import opened Custody
  import opened CustodyPayments
  import opened CustodyRuns

  datatype Log = Log(block: nat, token: string, to: string, txHash: string, logIndex: nat, value: nat)
  datatype Token = Token(address: string, asset: string, decimals: nat)
  datatype NetworkConfig = NetworkConfig(key: string, confirmations: nat, tokens: seq<Token>, scanRange: nat)

  /** The addresses registered when the scan starts, with their users. */
  type Registry = map<string, string>

  /** A committed window, with the deepest confirmed block and the registry of its scan. */
  datatype Window = Window(from: nat, to: nat, confirmed: int, registry: Registry)

  datatype Scanner = Scanner(bank: Bank, cursor: Option<nat>, windows: seq<Window>)

  /** The blocks the next scan covers: after the cursor, or a first stretch; at most one range; only confirmed ones. */
  function NextWindow(cfg: NetworkConfig, cursor: Option<nat>, head: nat): (w: Option<(nat, nat)>)
    ensures w.Some? ==> w.value.0 <= w.value.1 <= head - cfg.confirmations && w.value.1 - w.value.0 <= cfg.scanRange
    ensures w.Some? <==> head - cfg.confirmations > 0 && (cursor.Some? ==> cursor.value < head - cfg.confirmations)
    ensures w.Some? && cursor.Some? ==> w.value.0 == cursor.value + 1
    ensures w.Some? && cursor.None? && head - cfg.confirmations >= cfg.scanRange ==> w.value.0 == head - cfg.confirmations - cfg.scanRange
    ensures w.Some? && cursor.None? && head - cfg.confirmations <= cfg.scanRange ==> w.value.0 == 0
    ensures w.Some? ==> w.value.1 == head - cfg.confirmations || w.value.1 - w.value.0 == cfg.scanRange
  {
    var last := head - cfg.confirmations;
    if last <= 0 then None
    else
      var first := if cursor.Some? then cursor.value + 1 else last - cfg.scanRange;
      var from := if first < 0 then 0 else first;
      var to := if last - from > cfg.scanRange then from + cfg.scanRange else last;
      if to < from then None else Some((from, to))
  }

  /** A raw token amount in base units. */
  function ToUnits(value: nat, decimals: nat): nat {
    if decimals <= SCALE then Times(value, Pow10(SCALE - decimals)) else Over(value, Pow10(decimals - SCALE))
  }

  function Times(a: nat, b: nat): nat {
    a * b
  }

  function Over(a: nat, b: nat): nat
    requires b > 0
  {
    a / b
  }

  /** The raw value divided by 10^decimals, exactly, or cut to 18 decimals. */
  lemma UnitsAreExact(value: nat, decimals: nat)
    ensures decimals <= SCALE ==> ToUnits(value, decimals) * Pow10(decimals) == value * Pow10(SCALE)
    ensures decimals > SCALE ==>
              var unit := Pow10(decimals - SCALE);
              ToUnits(value, decimals) * unit <= value < (ToUnits(value, decimals) + 1) * unit
  {
    if decimals <= SCALE {
      Pow10Sum(SCALE - decimals, decimals);
      Regroup(value, Pow10(SCALE - decimals), Pow10(decimals));
    } else {
      Quotient(value, Pow10(decimals - SCALE));
    }
  }

  lemma Regroup(a: nat, b: nat, c: nat)
    ensures a * b * c == a * (b * c)
  {
  }

  lemma Quotient(a: nat, b: nat)
    requires b > 0
    ensures a / b * b <= a < (a / b + 1) * b
  {
    assert a == a / b * b + a % b;
    assert (a / b + 1) * b == a / b * b + b;
  }

  function AsTransfer(cfg: NetworkConfig, token: Token, user: string, l: Log): OnChainTransfer {
    OnChainTransfer(cfg.key, l.txHash, l.logIndex, user, token.asset, ToUnits(l.value, token.decimals))
  }

  /** What the node answers for one token: the transfers of the window to registered addresses. */
  function TransfersOf(cfg: NetworkConfig, token: Token, logs: seq<Log>, from: nat, to: nat, registry: Registry): seq<OnChainTransfer> {
    if |logs| == 0 then []
    else
      var l := logs[|logs| - 1];
      TransfersOf(cfg, token, logs[..|logs| - 1], from, to, registry) +
      if l.token == token.address && from <= l.block <= to && l.to in registry then [AsTransfer(cfg, token, registry[l.to], l)] else []
  }

  function WindowTransfers(cfg: NetworkConfig, tokens: seq<Token>, logs: seq<Log>, from: nat, to: nat, registry: Registry): seq<OnChainTransfer> {
    if |tokens| == 0 then []
    else WindowTransfers(cfg, tokens[..|tokens| - 1], logs, from, to, registry)
         + TransfersOf(cfg, tokens[|tokens| - 1], logs, from, to, registry)
  }

  /** Credit in order; the first rejected journal throws and ends the scan. */
  function CreditAll(b: Bank, ts: seq<OnChainTransfer>, rates: Rates): (Bank, bool) {
    if |ts| == 0 then (b, true)
    else
      var (before, ok) := CreditAll(b, ts[..|ts| - 1], rates);
      if !ok then (before, false)
      else
        match CreditDeposit(before, ts[|ts| - 1], rates)
        case Credited(after) => (after, true)
        case Skipped => (before, true)
        case Failed => (before, false)
  }

  /**
   * One scan. `reached` is how many transfers were handled before the node failed or the
   * process died; None when neither happened. Only a scan that handled all moves the cursor.
   */
  datatype Event =
    | Scan(head: nat, registry: Registry, rates: Rates, reached: Option<nat>)
    | Others(act: Action)

  function ScanOnce(cfg: NetworkConfig, logs: seq<Log>, s: Scanner, head: nat, registry: Registry, rates: Rates, reached: Option<nat>): Scanner {
    match NextWindow(cfg, s.cursor, head)
    case None => s
    case Some((from, to)) =>
      var ts := WindowTransfers(cfg, cfg.tokens, logs, from, to, registry);
      if reached.Some? && reached.value < |ts| then s.(bank := CreditAll(s.bank, ts[..reached.value], rates).0)
      else
        var (after, ok) := CreditAll(s.bank, ts, rates);
        if reached.Some? || !ok then s.(bank := after)
        else Scanner(after, Some(to), s.windows + [Window(from, to, head - cfg.confirmations, registry)])
  }

  function Next(bankCfg: BankConfig, cfg: NetworkConfig, logs: seq<Log>, s: Scanner, ev: Event): Scanner {
    match ev
    case Scan(head, registry, rates, reached) => ScanOnce(cfg, logs, s, head, registry, rates, reached)
    case Others(act) => s.(bank := Apply(bankCfg, s.bank, act))
  }

  function RunScans(bankCfg: BankConfig, cfg: NetworkConfig, logs: seq<Log>, s: Scanner, evs: seq<Event>): Scanner
    decreases |evs|
  {
    if |evs| == 0 then s else RunScans(bankCfg, cfg, logs, Next(bankCfg, cfg, logs, s, evs[0]), evs[1..])
  }

  predicate SaneEvent(ev: Event) {
    match ev
    case Scan(_, _, rates, _) => SaneRates(rates)
    case Others(act) => SaneAction(act)
  }

  // ---- Windows tile ----

  ghost predicate Tiled(cfg: NetworkConfig, s: Scanner) {
    && (forall i :: 0 <= i < |s.windows| ==>
          var w := s.windows[i]; w.from <= w.to <= w.confirmed && w.to - w.from <= cfg.scanRange)
    && (forall i :: 0 < i < |s.windows| ==> s.windows[i].from == s.windows[i - 1].to + 1)
    && s.cursor == if |s.windows| == 0 then None else Some(s.windows[|s.windows| - 1].to)
  }

  // ---- What a committed window guarantees ----

  /** The transfer has its deposit row, or another payment of its user sits on its key. */
  predicate Settled(b: Bank, t: OnChainTransfer) {
    IsCredited(b, t) || FindPayment(b.payments, t.user, DepositKey(t)).Some?
  }

  ghost predicate Grows(b: Bank, after: Bank) {
    && |after.payments| >= |b.payments| && |after.deposits| >= |b.deposits|
    && (forall i :: 0 <= i < |b.payments| ==> after.payments[i].user == b.payments[i].user && after.payments[i].key == b.payments[i].key)
    && (forall i :: 0 <= i < |b.deposits| ==> after.deposits[i] == b.deposits[i])
  }

  lemma SettledStays(b: Bank, after: Bank, t: OnChainTransfer)
    requires Grows(b, after) && Settled(b, t)
    ensures Settled(after, t)
    ensures IsCredited(b, t) ==> IsCredited(after, t)
  {
    if IsCredited(b, t) {
      var i :| 0 <= i < |b.deposits| && SameTransfer(b.deposits[i], t);
      assert SameTransfer(after.deposits[i], t);
    } else {
      var p := FindPayment(b.payments, t.user, DepositKey(t)).value;
      assert after.payments[p].user == t.user && after.payments[p].key == DepositKey(t);
    }
  }

  lemma MarketGrows(bankCfg: BankConfig, b: Bank, act: MarketAction)
    requires AttemptMarket(bankCfg, b, act).Some?
    ensures Grows(b, AttemptMarket(bankCfg, b, act).value)
  {
  }

  lemma PaymentGrows(bankCfg: BankConfig, b: Bank, act: PaymentAction)
    requires AttemptPayment(bankCfg, b, act).Some?
    ensures Grows(b, AttemptPayment(bankCfg, b, act).value)
  {
  }

  lemma RequestGrows(bankCfg: BankConfig, b: Bank, act: RequestAction)
    requires AttemptRequest(bankCfg, b, act).Some?
    ensures Grows(b, AttemptRequest(bankCfg, b, act).value)
  {
  }

  lemma ActionGrows(bankCfg: BankConfig, b: Bank, act: Action)
    ensures Grows(b, Apply(bankCfg, b, act))
  {
    if Attempt(bankCfg, b, act).Some? {
      match act
      case Market(m) => MarketGrows(bankCfg, b, m);
      case Pay(p) => PaymentGrows(bankCfg, b, p);
      case Ask(r) => RequestGrows(bankCfg, b, r);
    }
  }

  lemma CreditGrowsAndSettles(b: Bank, t: OnChainTransfer, rates: Rates)
    ensures CreditDeposit(b, t, rates).Credited? ==> Grows(b, CreditDeposit(b, t, rates).bank) && IsCredited(CreditDeposit(b, t, rates).bank, t)
    ensures CreditDeposit(b, t, rates).Skipped? <==> Settled(b, t)
  {
    if CreditDeposit(b, t, rates).Credited? {
      var after := CreditDeposit(b, t, rates).bank;
      assert SameTransfer(after.deposits[|b.deposits|], t);
    }
  }

  lemma {:induction false} CreditAllSettles(b: Bank, ts: seq<OnChainTransfer>, rates: Rates)
    ensures var after, ok := CreditAll(b, ts, rates).0, CreditAll(b, ts, rates).1;
            && Grows(b, after)
            && (ok ==> forall i :: 0 <= i < |ts| ==> Settled(after, ts[i]))
  {
    if |ts| > 0 {
      var (before, ok) := CreditAll(b, ts[..|ts| - 1], rates);
      CreditAllSettles(b, ts[..|ts| - 1], rates);
      if ok {
        CreditGrowsAndSettles(before, ts[|ts| - 1], rates);
        var after := CreditAll(b, ts, rates).0;
        forall i | 0 <= i < |ts| - 1
          ensures Settled(after, ts[i])
        {
          assert Settled(before, ts[..|ts| - 1][i]);
          SettledStays(before, after, ts[i]);
        }
      }
    }
  }

  lemma {:induction false} CreditAllKeepsInv(b: Bank, ts: seq<OnChainTransfer>, rates: Rates)
    requires Inv(b) && SaneRates(rates)
    ensures Inv(CreditAll(b, ts, rates).0)
  {
    if |ts| > 0 {
      CreditAllKeepsInv(b, ts[..|ts| - 1], rates);
      var before := CreditAll(b, ts[..|ts| - 1], rates).0;
      if CreditDeposit(before, ts[|ts| - 1], rates).Credited? {
        DepositKeeps(before, ts[|ts| - 1], rates);
      }
    }
  }

  ghost predicate WindowSettled(cfg: NetworkConfig, logs: seq<Log>, b: Bank, w: Window) {
    var ts := WindowTransfers(cfg, cfg.tokens, logs, w.from, w.to, w.registry);
    forall i :: 0 <= i < |ts| ==> Settled(b, ts[i])
  }

  ghost predicate ScannerInv(cfg: NetworkConfig, logs: seq<Log>, s: Scanner) {
    Inv(s.bank) && Tiled(cfg, s) && forall i :: 0 <= i < |s.windows| ==> WindowSettled(cfg, logs, s.bank, s.windows[i])
  }

  lemma WindowsStaySettled(cfg: NetworkConfig, logs: seq<Log>, s: Scanner, after: Bank)
    requires Grows(s.bank, after) && forall i :: 0 <= i < |s.windows| ==> WindowSettled(cfg, logs, s.bank, s.windows[i])
    ensures forall i :: 0 <= i < |s.windows| ==> WindowSettled(cfg, logs, after, s.windows[i])
  {
    forall i | 0 <= i < |s.windows|
      ensures WindowSettled(cfg, logs, after, s.windows[i])
    {
      var w := s.windows[i];
      var ts := WindowTransfers(cfg, cfg.tokens, logs, w.from, w.to, w.registry);
      assert WindowSettled(cfg, logs, s.bank, w);
      forall k | 0 <= k < |ts|
        ensures Settled(after, ts[k])
      {
        SettledStays(s.bank, after, ts[k]);
      }
    }
  }

  lemma ScanKeepsBank(cfg: NetworkConfig, logs: seq<Log>, s: Scanner, head: nat, registry: Registry, rates: Rates, reached: Option<nat>)
    requires Inv(s.bank) && SaneRates(rates)
    ensures Inv(ScanOnce(cfg, logs, s, head, registry, rates, reached).bank)
    ensures Grows(s.bank, ScanOnce(cfg, logs, s, head, registry, rates, reached).bank)
  {
    match NextWindow(cfg, s.cursor, head)
    case None =>
    case Some((from, to)) =>
      var ts := WindowTransfers(cfg, cfg.tokens, logs, from, to, registry);
      var handled := if reached.Some? && reached.value < |ts| then ts[..reached.value] else ts;
      CreditAllSettles(s.bank, handled, rates);
      CreditAllKeepsInv(s.bank, handled, rates);
  }

  /** A scan commits nothing, or the one window it has settled. */
  lemma ScanCommits(cfg: NetworkConfig, logs: seq<Log>, s: Scanner, head: nat, registry: Registry, rates: Rates, reached: Option<nat>)
    ensures var after := ScanOnce(cfg, logs, s, head, registry, rates, reached);
            || (after.windows == s.windows && after.cursor == s.cursor)
            || (|after.windows| > 0 && var w := after.windows[|after.windows| - 1];
                && after.windows == s.windows + [w] && after.cursor == Some(w.to)
                && NextWindow(cfg, s.cursor, head) == Some((w.from, w.to)) && w.confirmed == head - cfg.confirmations
                && WindowSettled(cfg, logs, after.bank, w))
  {
    var after := ScanOnce(cfg, logs, s, head, registry, rates, reached);
    match NextWindow(cfg, s.cursor, head)
    case None =>
    case Some((from, to)) =>
      var ts := WindowTransfers(cfg, cfg.tokens, logs, from, to, registry);
      if reached.None? {
        CreditAllSettles(s.bank, ts, rates);
        assert CreditAll(s.bank, ts, rates).1 ==> WindowSettled(cfg, logs, after.bank, Window(from, to, head - cfg.confirmations, registry));
      }
  }

  lemma ScanKeepsInv(cfg: NetworkConfig, logs: seq<Log>, s: Scanner, head: nat, registry: Registry, rates: Rates, reached: Option<nat>)
    requires ScannerInv(cfg, logs, s) && SaneRates(rates)
    ensures ScannerInv(cfg, logs, ScanOnce(cfg, logs, s, head, registry, rates, reached))
  {
    var after := ScanOnce(cfg, logs, s, head, registry, rates, reached);
    ScanKeepsBank(cfg, logs, s, head, registry, rates, reached);
    ScanCommits(cfg, logs, s, head, registry, rates, reached);
    WindowsStaySettled(cfg, logs, s, after.bank);
    CommitKeepsTiles(cfg, logs, s, after, head);
  }

  /** One more settled window after the cursor, or none, keeps the tiling. */
  lemma CommitKeepsTiles(cfg: NetworkConfig, logs: seq<Log>, s: Scanner, after: Scanner, head: nat)
    requires Tiled(cfg, s) && forall i :: 0 <= i < |s.windows| ==> WindowSettled(cfg, logs, after.bank, s.windows[i])
    requires || (after.windows == s.windows && after.cursor == s.cursor)
             || (|after.windows| > 0 && var w := after.windows[|after.windows| - 1];
                 && after.windows == s.windows + [w] && after.cursor == Some(w.to)
                 && NextWindow(cfg, s.cursor, head) == Some((w.from, w.to)) && w.confirmed == head - cfg.confirmations
                 && WindowSettled(cfg, logs, after.bank, w))
    ensures Tiled(cfg, after) && forall i :: 0 <= i < |after.windows| ==> WindowSettled(cfg, logs, after.bank, after.windows[i])
  {
  }

  lemma OthersKeepScannerInv(bankCfg: BankConfig, cfg: NetworkConfig, logs: seq<Log>, s: Scanner, act: Action)
    requires ScannerInv(cfg, logs, s) && SaneAction(act)
    ensures ScannerInv(cfg, logs, s.(bank := Apply(bankCfg, s.bank, act)))
  {
    ActionKeepsInv(bankCfg, s.bank, act);
    ActionGrows(bankCfg, s.bank, act);
    GrowthKeepsWindows(cfg, logs, s, Apply(bankCfg, s.bank, act));
  }

  lemma GrowthKeepsWindows(cfg: NetworkConfig, logs: seq<Log>, s: Scanner, after: Bank)
    requires ScannerInv(cfg, logs, s) && Grows(s.bank, after) && Inv(after)
    ensures ScannerInv(cfg, logs, s.(bank := after))
  {
    WindowsStaySettled(cfg, logs, s, after);
  }

  lemma NextKeepsScannerInv(bankCfg: BankConfig, cfg: NetworkConfig, logs: seq<Log>, s: Scanner, ev: Event)
    requires ScannerInv(cfg, logs, s) && SaneEvent(ev)
    ensures ScannerInv(cfg, logs, Next(bankCfg, cfg, logs, s, ev))
  {
    match ev
    case Scan(head, registry, rates, reached) => ScanKeepsInv(cfg, logs, s, head, registry, rates, reached);
    case Others(act) => OthersKeepScannerInv(bankCfg, cfg, logs, s, act);
  }

  lemma {:induction false} RunKeepsScannerInv(bankCfg: BankConfig, cfg: NetworkConfig, logs: seq<Log>, s: Scanner, evs: seq<Event>)
    requires ScannerInv(cfg, logs, s) && forall i :: 0 <= i < |evs| ==> SaneEvent(evs[i])
    ensures ScannerInv(cfg, logs, RunScans(bankCfg, cfg, logs, s, evs))
    decreases |evs|
  {
    if |evs| > 0 {
      NextKeepsScannerInv(bankCfg, cfg, logs, s, evs[0]);
      RunKeepsScannerInv(bankCfg, cfg, logs, Next(bankCfg, cfg, logs, s, evs[0]), evs[1..]);
    }
  }

  // ---- The promises ----

  lemma {:induction false} LogIsListed(cfg: NetworkConfig, token: Token, logs: seq<Log>, from: nat, to: nat, registry: Registry, l: Log)
    requires l in logs && l.token == token.address && from <= l.block <= to && l.to in registry
    ensures AsTransfer(cfg, token, registry[l.to], l) in TransfersOf(cfg, token, logs, from, to, registry)
  {
    if l != logs[|logs| - 1] {
      assert l in logs[..|logs| - 1];
      LogIsListed(cfg, token, logs[..|logs| - 1], from, to, registry, l);
    }
  }

  lemma {:induction false} LogIsInWindow(cfg: NetworkConfig, tokens: seq<Token>, token: Token, logs: seq<Log>, from: nat, to: nat, registry: Registry, l: Log)
    requires token in tokens && l in logs && l.token == token.address && from <= l.block <= to && l.to in registry
    ensures AsTransfer(cfg, token, registry[l.to], l) in WindowTransfers(cfg, tokens, logs, from, to, registry)
  {
    if token == tokens[|tokens| - 1] {
      LogIsListed(cfg, token, logs, from, to, registry, l);
    } else {
      assert token in tokens[..|tokens| - 1];
      LogIsInWindow(cfg, tokens[..|tokens| - 1], token, logs, from, to, registry, l);
    }
  }

  /** The committed windows leave no gap and do not overlap: each block up to the cursor is in exactly one. */
  lemma {:induction false} BlockInOneWindow(cfg: NetworkConfig, s: Scanner, block: nat) returns (i: nat)
    requires Tiled(cfg, s) && |s.windows| > 0 && s.windows[0].from <= block <= s.cursor.value
    ensures i < |s.windows| && s.windows[i].from <= block <= s.windows[i].to
    ensures forall k :: 0 <= k < |s.windows| && s.windows[k].from <= block <= s.windows[k].to ==> k == i
  {
    i := 0;
    while s.windows[i].to < block
      invariant i < |s.windows| && s.windows[i].from <= block
      decreases |s.windows| - i
    {
      i := i + 1;
    }
    forall k | 0 <= k < |s.windows|
      ensures k < i ==> s.windows[k].to < s.windows[i].from
      ensures i < k ==> s.windows[i].to < s.windows[k].from
    {
      if k < i {
        WindowsAscend(cfg, s, k, i);
      } else if i < k {
        WindowsAscend(cfg, s, i, k);
      }
    }
  }

  lemma {:induction false} WindowsAscend(cfg: NetworkConfig, s: Scanner, i: nat, j: nat)
    requires Tiled(cfg, s) && i < j < |s.windows|
    ensures s.windows[i].to < s.windows[j].from
    decreases j
  {
    if i < j - 1 {
      WindowsAscend(cfg, s, i, j - 1);
    }
  }

  /**
   * After any run of scans, failures, crashes and other operations: every transfer of a watched
   * token, in a block up to the cursor, to an address registered when its window was scanned, is
   * settled: either it has exactly one deposit row, whose payment posted exactly its journal, or
   * another payment of that user already occupied the transfer's idempotency key.
   */
  lemma TransfersHaveOneRow(bankCfg: BankConfig, cfg: NetworkConfig, logs: seq<Log>, evs: seq<Event>, l: Log, token: Token) returns (i: nat)
    requires forall k :: 0 <= k < |evs| ==> SaneEvent(evs[k])
    requires l in logs && token in cfg.tokens && l.token == token.address
    requires var s := RunScans(bankCfg, cfg, logs, Scanner(EMPTY, None, []), evs);
             |s.windows| > 0 && s.windows[0].from <= l.block <= s.cursor.GetOr(0)
    ensures var s := RunScans(bankCfg, cfg, logs, Scanner(EMPTY, None, []), evs);
            && i < |s.windows| && s.windows[i].from <= l.block <= s.windows[i].to <= s.windows[i].confirmed
            && (l.to in s.windows[i].registry ==>
                  var t := AsTransfer(cfg, token, s.windows[i].registry[l.to], l);
                  CreditedOnce(s.bank, t) || (!IsCredited(s.bank, t) && FindPayment(s.bank.payments, t.user, DepositKey(t)).Some?))
  {
    EmptyInv();
    RunKeepsScannerInv(bankCfg, cfg, logs, Scanner(EMPTY, None, []), evs);
    var s := RunScans(bankCfg, cfg, logs, Scanner(EMPTY, None, []), evs);
    i := BlockInOneWindow(cfg, s, l.block);
    var w := s.windows[i];
    if l.to in w.registry {
      var t := AsTransfer(cfg, token, w.registry[l.to], l);
      LogIsInWindow(cfg, cfg.tokens, token, logs, w.from, w.to, w.registry, l);
      assert WindowSettled(cfg, logs, s.bank, w);
      if IsCredited(s.bank, t) {
        CreditedMeansOnce(s.bank, t);
      }
    }
  }

  /** One deposit row for the transfer, backed by one payment that posted the entry journal and nothing else. */
  ghost predicate CreditedOnce(b: Bank, t: OnChainTransfer) {
    exists d :: 0 <= d < |b.deposits| && OnlyDeposit(b, t, d)
  }

  ghost predicate OnlyDeposit(b: Bank, t: OnChainTransfer, d: nat)
    requires d < |b.deposits|
  {
    && SameTransfer(b.deposits[d], t)
    && (forall k :: 0 <= k < |b.deposits| && SameTransfer(b.deposits[k], t) ==> k == d)
    && var row := b.deposits[d];
       && row.payment < |b.payments| && b.payments[row.payment].kind.Deposit?
       && LegsOf(b.entries, PaymentJournal(row.payment)) == EntryLegs(row.user, row.asset, row.amount, b.payments[row.payment].kind.fee)
  }

  lemma CreditedMeansOnce(b: Bank, t: OnChainTransfer)
    requires Inv(b) && IsCredited(b, t)
    ensures CreditedOnce(b, t)
  {
    var d: nat :| d < |b.deposits| && SameTransfer(b.deposits[d], t);
    DepositIsBooked(b, d);
    assert OnlyDeposit(b, t, d);
  }

  lemma DepositIsBooked(b: Bank, d: nat)
    requires DepositsMatch(b) && MoneyMatches(b) && d < |b.deposits|
    ensures var row := b.deposits[d];
            && row.payment < |b.payments| && b.payments[row.payment].kind.Deposit?
            && LegsOf(b.entries, PaymentJournal(row.payment)) == EntryLegs(row.user, row.asset, row.amount, b.payments[row.payment].kind.fee)
  {
    var p := b.deposits[d].payment;
    assert Backs(b.payments[p], b.deposits[d]);
    assert LegsOf(b.entries, PaymentJournal(p)) == ExpectedLegs(b, PaymentJournal(p));
  }

  // ---- When a scan can finish ----

  /** The rate for deposits and the minimum fee are both less than the whole amount. */
  predicate FeeLeavesSomething(t: OnChainTransfer, rates: Rates) {
    rates.minFee < t.amount && rates.depositPct < ONE
  }

  predicate DistinctTransfers(ts: seq<OnChainTransfer>) {
    forall i, j :: 0 <= i < j < |ts| ==>
      && (ts[i].network != ts[j].network || ts[i].txHash != ts[j].txHash || ts[i].logIndex != ts[j].logIndex)
      && DepositKey(ts[i]) != DepositKey(ts[j])
  }

  lemma DepositPosts(t: OnChainTransfer, rates: Rates)
    requires t.amount >= 0 && SaneRates(rates)
    ensures Postable(EntryLegs(t.user, t.asset, t.amount, QuoteDeposit(t.amount, rates).platformFee)) <==> FeeLeavesSomething(t, rates)
  {
    var fee := QuoteDeposit(t.amount, rates).platformFee;
    DepositFee(t.amount, rates);
    EntryJournalAccepted(t.user, t.asset, t.amount, fee);
    if t.amount > 0 {
      FeeBelowAmount(t.amount, rates.depositPct, rates.minFee, fee);
    }
  }

  /** One transfer is credited exactly if it is new, its key is free and the fee leaves something; it throws exactly if only the last fails. */
  lemma CreditedExactlyWhen(b: Bank, t: OnChainTransfer, rates: Rates)
    requires t.amount >= 0 && SaneRates(rates)
    ensures CreditDeposit(b, t, rates).Credited? <==> !Settled(b, t) && FeeLeavesSomething(t, rates)
    ensures CreditDeposit(b, t, rates).Failed? <==> !Settled(b, t) && !FeeLeavesSomething(t, rates)
  {
    DepositPosts(t, rates);
  }

  lemma OthersStayUnsettled(b: Bank, t: OnChainTransfer, other: OnChainTransfer, rates: Rates)
    requires CreditDeposit(b, t, rates).Credited? && DistinctTransfers([t, other])
    ensures Settled(CreditDeposit(b, t, rates).bank, other) ==> Settled(b, other)
  {
    var after := CreditDeposit(b, t, rates).bank;
    assert [t, other][0] == t && [t, other][1] == other;
    if IsCredited(after, other) {
      var i :| 0 <= i < |after.deposits| && SameTransfer(after.deposits[i], other);
      assert i < |b.deposits| && SameTransfer(b.deposits[i], other);
    }
    if FindPayment(after.payments, other.user, DepositKey(other)).Some? {
      var p := FindPayment(after.payments, other.user, DepositKey(other)).value;
      assert p < |b.payments| && b.payments[p].key == DepositKey(other);
    }
  }

  predicate ApartFrom(ts: seq<OnChainTransfer>, t: OnChainTransfer) {
    forall i :: 0 <= i < |ts| ==> DistinctTransfers([ts[i], t])
  }

  lemma {:induction false} UnsettledStays(b: Bank, ts: seq<OnChainTransfer>, rates: Rates, t: OnChainTransfer)
    requires ApartFrom(ts, t)
    ensures Settled(CreditAll(b, ts, rates).0, t) <==> Settled(b, t)
  {
    if |ts| > 0 {
      var shorter, last := ts[..|ts| - 1], ts[|ts| - 1];
      var (before, ok) := CreditAll(b, shorter, rates);
      assert forall i :: 0 <= i < |shorter| ==> shorter[i] == ts[i];
      UnsettledStays(b, shorter, rates, t);
      if ok && CreditDeposit(before, last, rates).Credited? {
        var after := CreditDeposit(before, last, rates).bank;
        OthersStayUnsettled(before, last, t, rates);
        CreditGrowsAndSettles(before, last, rates);
        if Settled(before, t) {
          SettledStays(before, after, t);
        }
      }
    }
  }

  /** A list is credited to its end exactly if every transfer in it was settled before or leaves something after the fee. */
  lemma {:induction false} CreditingEndsExactlyWhen(b: Bank, ts: seq<OnChainTransfer>, rates: Rates)
    requires SaneRates(rates) && DistinctTransfers(ts) && forall i :: 0 <= i < |ts| ==> ts[i].amount >= 0
    ensures CreditAll(b, ts, rates).1 <==> forall i :: 0 <= i < |ts| ==> Settled(b, ts[i]) || FeeLeavesSomething(ts[i], rates)
  {
    if |ts| > 0 {
      var shorter, last := ts[..|ts| - 1], ts[|ts| - 1];
      CreditingEndsExactlyWhen(b, shorter, rates);
      assert ApartFrom(shorter, last);
      UnsettledStays(b, shorter, rates, last);
      CreditedExactlyWhen(CreditAll(b, shorter, rates).0, last, rates);
      assert forall i :: 0 <= i < |shorter| ==> shorter[i] == ts[i];
    }
  }

  /** A payment already on the deposit's key makes the credit a silent no-op: the transfer is passed over for good. */
  lemma {:induction false} TakenKeySkipsDeposit(b: Bank, t: OnChainTransfer, rates: Rates)
    requires !IsCredited(b, t) && FindPayment(b.payments, t.user, DepositKey(t)).Some?
    ensures CreditDeposit(b, t, rates) == Skipped
    ensures CreditAll(b, [t], rates) == (b, true)
  {
    assert [t][..0] == [];
  }
}
