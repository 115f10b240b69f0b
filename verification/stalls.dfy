/** When a scan moves the cursor, and what stops it for good (src/indexer/deposit-indexer.service.ts). */
module Stalls {
  import opened Wrappers
  import opened Money
  import opened Fees
  import opened Ledger
  import opened Banking
  import opened Custody
  import opened CustodyRuns
  import opened Indexer
  import opened Deposits

  // ---- The keys of different transfers differ ----

  lemma PrefixDrops(prefix: string, x: string, y: string)
    requires prefix + x == prefix + y
    ensures x == y
  {
    assert (prefix + x)[|prefix|..] == x && (prefix + y)[|prefix|..] == y;
  }

  /** A text ending in a colon and digits has one such ending. */
  lemma LastColon(x: string, m: string, y: string, n: string)
    requires AllDigits(m) && AllDigits(n) && x + ":" + m == y + ":" + n
    ensures x == y && m == n
  {
    var s, t := x + ":" + m, y + ":" + n;
    assert s[|x|] == ':' && forall k :: |x| < k < |s| ==> s[k] == m[k - |x| - 1];
    assert t[|y|] == ':' && forall k :: |y| < k < |t| ==> t[k] == n[k - |y| - 1];
    assert s[..|x|] == x && t[..|y|] == y && s[|x| + 1..] == m && t[|y| + 1..] == n;
  }

  lemma KeysTellTransfersApart(t: OnChainTransfer, u: OnChainTransfer)
    requires t.network == u.network && DepositKey(t) == DepositKey(u)
    ensures t.txHash == u.txHash && t.logIndex == u.logIndex
  {
    var prefix := "deposit:" + t.network + ":";
    assert DepositKey(t) == prefix + (t.txHash + ":" + Digits(t.logIndex));
    assert DepositKey(u) == prefix + (u.txHash + ":" + Digits(u.logIndex));
    PrefixDrops(prefix, t.txHash + ":" + Digits(t.logIndex), u.txHash + ":" + Digits(u.logIndex));
    LastColon(t.txHash, Digits(t.logIndex), u.txHash, Digits(u.logIndex));
    NatOfDigits(t.logIndex);
    NatOfDigits(u.logIndex);
  }

  // ---- The transfers of a window are different ----

  predicate SamePlace(t: OnChainTransfer, u: OnChainTransfer) {
    t.network == u.network && t.txHash == u.txHash && t.logIndex == u.logIndex
  }

  ghost predicate PlacesDistinct(ts: seq<OnChainTransfer>) {
    forall i, j :: 0 <= i < j < |ts| ==> !SamePlace(ts[i], ts[j])
  }

  lemma {:induction false} TokenPlacesDistinct(cfg: NetworkConfig, token: Token, logs: seq<Log>, from: nat, to: nat, registry: Registry)
    requires LogsDistinct(logs)
    ensures PlacesDistinct(TransfersOf(cfg, token, logs, from, to, registry))
  {
    if |logs| > 0 {
      var shorter, last := logs[..|logs| - 1], logs[|logs| - 1];
      TokenPlacesDistinct(cfg, token, shorter, from, to, registry);
      var earlier := TransfersOf(cfg, token, shorter, from, to, registry);
      forall i | 0 <= i < |earlier|
        ensures earlier[i].txHash != last.txHash || earlier[i].logIndex != last.logIndex
      {
        var l := ListedOfToken(cfg, token, shorter, from, to, registry, earlier[i]);
        var k :| 0 <= k < |shorter| && shorter[k] == l;
        assert logs[k] == l;
      }
    }
  }

  lemma {:induction false} WindowPlacesDistinct(cfg: NetworkConfig, tokens: seq<Token>, logs: seq<Log>, from: nat, to: nat, registry: Registry)
    requires LogsDistinct(logs) && TokensDistinct(tokens)
    ensures PlacesDistinct(WindowTransfers(cfg, tokens, logs, from, to, registry))
  {
    if |tokens| > 0 {
      var shorter, last := tokens[..|tokens| - 1], tokens[|tokens| - 1];
      WindowPlacesDistinct(cfg, shorter, logs, from, to, registry);
      TokenPlacesDistinct(cfg, last, logs, from, to, registry);
      var earlier, more := WindowTransfers(cfg, shorter, logs, from, to, registry), TransfersOf(cfg, last, logs, from, to, registry);
      forall i, j | 0 <= i < |earlier| && 0 <= j < |more|
        ensures !SamePlace(earlier[i], more[j])
      {
        TokensDoNotShare(cfg, shorter, last, logs, from, to, registry, earlier[i], more[j]);
      }
    }
  }

  lemma {:induction false} TokensDoNotShare(cfg: NetworkConfig, tokens: seq<Token>, last: Token, logs: seq<Log>, from: nat, to: nat, registry: Registry, t: OnChainTransfer, u: OnChainTransfer)
    requires LogsDistinct(logs) && forall i :: 0 <= i < |tokens| ==> tokens[i].address != last.address
    requires t in WindowTransfers(cfg, tokens, logs, from, to, registry) && u in TransfersOf(cfg, last, logs, from, to, registry)
    ensures !SamePlace(t, u)
  {
    var l, token := ListedInWindow(cfg, tokens, logs, from, to, registry, t);
    var k := ListedOfToken(cfg, last, logs, from, to, registry, u);
    if SamePlace(t, u) {
      SamePlaceSameLog(logs, l, k);
    }
  }

  lemma {:induction false} WindowIsDistinct(cfg: NetworkConfig, logs: seq<Log>, from: nat, to: nat, registry: Registry)
    requires LogsDistinct(logs) && TokensDistinct(cfg.tokens)
    ensures DistinctTransfers(WindowTransfers(cfg, cfg.tokens, logs, from, to, registry))
  {
    var ts := WindowTransfers(cfg, cfg.tokens, logs, from, to, registry);
    WindowPlacesDistinct(cfg, cfg.tokens, logs, from, to, registry);
    forall i, j | 0 <= i < j < |ts|
      ensures DepositKey(ts[i]) != DepositKey(ts[j])
    {
      var l, token := ListedInWindow(cfg, cfg.tokens, logs, from, to, registry, ts[i]);
      var k, other := ListedInWindow(cfg, cfg.tokens, logs, from, to, registry, ts[j]);
      assert !SamePlace(ts[i], ts[j]);
      if DepositKey(ts[i]) == DepositKey(ts[j]) {
        KeysTellTransfersApart(ts[i], ts[j]);
      }
    }
  }

  lemma {:induction false} ListedAmount(cfg: NetworkConfig, logs: seq<Log>, from: nat, to: nat, registry: Registry, t: OnChainTransfer)
    requires t in WindowTransfers(cfg, cfg.tokens, logs, from, to, registry)
    ensures t.amount >= 0
  {
    var l, token := ListedInWindow(cfg, cfg.tokens, logs, from, to, registry, t);
  }

  // ---- When the cursor moves ----

  /** No transfer of the window stands in the way: each was settled before, or leaves something after the fee. */
  ghost predicate Passable(b: Bank, ts: seq<OnChainTransfer>, rates: Rates) {
    forall i :: 0 <= i < |ts| ==> Settled(b, ts[i]) || FeeLeavesSomething(ts[i], rates)
  }

  lemma {:induction false} WindowCommitsExactlyWhen(cfg: NetworkConfig, logs: seq<Log>, b: Bank, from: nat, to: nat, registry: Registry, rates: Rates)
    requires SaneRates(rates) && LogsDistinct(logs) && TokensDistinct(cfg.tokens)
    ensures var ts := WindowTransfers(cfg, cfg.tokens, logs, from, to, registry);
            CreditAll(b, ts, rates).1 <==> Passable(b, ts, rates)
  {
    var ts := WindowTransfers(cfg, cfg.tokens, logs, from, to, registry);
    WindowIsDistinct(cfg, logs, from, to, registry);
    forall i | 0 <= i < |ts|
      ensures ts[i].amount >= 0
    {
      ListedAmount(cfg, logs, from, to, registry, ts[i]);
    }
    CreditingEndsExactlyWhen(b, ts, rates);
  }

  /** With a window to scan, the cursor moves exactly if nothing interrupts the scan and every credit ends well. */
  lemma {:induction false} OpenWindowMoves(cfg: NetworkConfig, logs: seq<Log>, s: Scanner, head: nat, registry: Registry, rates: Rates, reached: Option<nat>, from: nat, to: nat)
    requires NextWindow(cfg, s.cursor, head) == Some((from, to))
    ensures var after := ScanOnce(cfg, logs, s, head, registry, rates, reached);
            if reached.None? && CreditAll(s.bank, WindowTransfers(cfg, cfg.tokens, logs, from, to, registry), rates).1
            then after.cursor == Some(to) && after.cursor != s.cursor
                 && after.windows == s.windows + [Window(from, to, head - cfg.confirmations, registry)]
            else after.cursor == s.cursor && after.windows == s.windows
  {
  }

  /**
   * A scan moves the cursor, to the end of its window, exactly if there is a window, the scan
   * is not interrupted, and no transfer of the window stands in the way. Otherwise cursor and
   * windows stay as they were.
   */
  lemma {:induction false} ScanMovesExactlyWhen(cfg: NetworkConfig, logs: seq<Log>, s: Scanner, head: nat, registry: Registry, rates: Rates, reached: Option<nat>)
    requires SaneRates(rates) && LogsDistinct(logs) && TokensDistinct(cfg.tokens)
    ensures var after, w := ScanOnce(cfg, logs, s, head, registry, rates, reached), NextWindow(cfg, s.cursor, head);
            if w.Some? && reached.None? && Passable(s.bank, WindowTransfers(cfg, cfg.tokens, logs, w.value.0, w.value.1, registry), rates)
            then after.cursor == Some(w.value.1) && after.cursor != s.cursor
                 && after.windows == s.windows + [Window(w.value.0, w.value.1, head - cfg.confirmations, registry)]
            else after.cursor == s.cursor && after.windows == s.windows
  {
    var w := NextWindow(cfg, s.cursor, head);
    if w.Some? {
      WindowCommitsExactlyWhen(cfg, logs, s.bank, w.value.0, w.value.1, registry, rates);
      OpenWindowMoves(cfg, logs, s, head, registry, rates, reached, w.value.0, w.value.1);
    }
  }

  // ---- A transfer eaten by the fee stops the scanner ----

  /** Crediting a window in which a transfer is eaten by the fee fails, and leaves that transfer unsettled. */
  lemma {:induction false} EatenStaysUnsettled(b: Bank, ts: seq<OnChainTransfer>, rates: Rates, t: OnChainTransfer)
    requires SaneRates(rates) && t.amount >= 0 && !FeeLeavesSomething(t, rates) && !Settled(b, t)
    requires forall i :: 0 <= i < |ts| ==> ts[i] == t || DistinctTransfers([ts[i], t])
    ensures !Settled(CreditAll(b, ts, rates).0, t)
    ensures t in ts ==> !CreditAll(b, ts, rates).1
  {
    if |ts| > 0 {
      var shorter, last := ts[..|ts| - 1], ts[|ts| - 1];
      assert forall i :: 0 <= i < |shorter| ==> shorter[i] == ts[i];
      EatenStaysUnsettled(b, shorter, rates, t);
      var (before, ok) := CreditAll(b, shorter, rates);
      if last == t {
        CreditedExactlyWhen(before, t, rates);
      } else if ok && CreditDeposit(before, last, rates).Credited? {
        OthersStayUnsettled(before, last, t, rates);
      }
    }
  }

  /** In a window, a listed transfer is this one or has another place and key. */
  lemma {:induction false} ListedApart(cfg: NetworkConfig, logs: seq<Log>, from: nat, to: nat, registry: Registry, l: Log, token: Token, u: OnChainTransfer)
    requires LogsDistinct(logs) && TokensDistinct(cfg.tokens)
    requires l in logs && token in cfg.tokens && l.token == token.address && l.to in registry
    requires u in WindowTransfers(cfg, cfg.tokens, logs, from, to, registry)
    ensures var t := AsTransfer(cfg, token, registry[l.to], l); u == t || DistinctTransfers([u, t])
  {
    var t := AsTransfer(cfg, token, registry[l.to], l);
    var k, other := ListedInWindow(cfg, cfg.tokens, logs, from, to, registry, u);
    if SamePlace(u, t) {
      SamePlaceSameLog(logs, k, l);
      SameAddressSameToken(cfg.tokens, other, token);
    } else {
      if DepositKey(u) == DepositKey(t) {
        KeysTellTransfersApart(u, t);
      }
      assert [u, t][0] == u && [u, t][1] == t;
    }
  }

  /** The operation neither credits this transfer nor takes its key. */
  predicate LeavesAlone(act: Action, t: OnChainTransfer) {
    act.Pay? ==>
      match act.p
      case DoFaucet(user, _, _, key) => user != t.user || key != DepositKey(t)
      case DoTransfer(user, _, _, _, key) => user != t.user || key != DepositKey(t)
      case DoRequestWithdrawal(user, _, _, key, _) => user != t.user || key != DepositKey(t)
      case DoDeposit(u, _) => !SamePlace(u, t) && (u.user != t.user || DepositKey(u) != DepositKey(t))
      case _ => true
  }

  /** The keys the services make up themselves are never those of a deposit. */
  lemma MadeUpKeysDiffer(t: OnChainTransfer, key: string, r: nat)
    ensures DepositKey(t) != key + ":in" && DepositKey(t) != RechargeKey(r)
  {
    var digits := Digits(t.logIndex);
    assert DepositKey(t)[|DepositKey(t)| - 1] == digits[|digits| - 1];
    assert (key + ":in")[|key + ":in"| - 1] == 'n';
    assert DepositKey(t)[0] == 'd' && RechargeKey(r)[0] == 'r';
  }

  /** The row does not sit on the key of this transfer. */
  predicate OffKey(row: Payment, t: OnChainTransfer) {
    row.user != t.user || row.key != DepositKey(t)
  }

  lemma PaymentRowsOffKey(bankCfg: BankConfig, b: Bank, act: PaymentAction, t: OnChainTransfer, p: nat)
    requires LeavesAlone(Pay(act), t) && AttemptPayment(bankCfg, b, act).Some?
    requires |b.payments| <= p < |AttemptPayment(bankCfg, b, act).value.payments|
    ensures OffKey(AttemptPayment(bankCfg, b, act).value.payments[p], t)
  {
    if act.DoTransfer? {
      MadeUpKeysDiffer(t, act.key, 0);
    }
  }

  lemma RequestRowsOffKey(bankCfg: BankConfig, b: Bank, act: RequestAction, t: OnChainTransfer, p: nat)
    requires AttemptRequest(bankCfg, b, act).Some?
    requires |b.payments| <= p < |AttemptRequest(bankCfg, b, act).value.payments|
    ensures OffKey(AttemptRequest(bankCfg, b, act).value.payments[p], t)
  {
    if act.DoConfirmRequest? {
      MadeUpKeysDiffer(t, "", act.request);
    }
  }

  /** The rows an operation adds carry no key of a deposit it leaves alone. */
  lemma NewRowsHaveOtherKeys(bankCfg: BankConfig, b: Bank, act: Action, t: OnChainTransfer, p: nat)
    requires LeavesAlone(act, t) && |b.payments| <= p < |Apply(bankCfg, b, act).payments|
    ensures OffKey(Apply(bankCfg, b, act).payments[p], t)
  {
    match act
    case Pay(pay) => PaymentRowsOffKey(bankCfg, b, pay, t, p);
    case Ask(ask) => RequestRowsOffKey(bankCfg, b, ask, t, p);
    case Market(m) =>
      if Attempt(bankCfg, b, act).Some? {
        MarketAddsNoRows(bankCfg, b, m);
      }
  }

  lemma NewDepositsElsewhere(bankCfg: BankConfig, b: Bank, act: Action, t: OnChainTransfer, d: nat)
    requires LeavesAlone(act, t) && |b.deposits| <= d < |Apply(bankCfg, b, act).deposits|
    ensures !SameTransfer(Apply(bankCfg, b, act).deposits[d], t)
  {
    if !(act.Pay? && act.p.DoDeposit?) {
      OthersAddNoDeposit(bankCfg, b, act);
    }
  }

  lemma OthersLeaveUnsettled(bankCfg: BankConfig, b: Bank, act: Action, t: OnChainTransfer)
    requires LeavesAlone(act, t) && !Settled(b, t)
    ensures !Settled(Apply(bankCfg, b, act), t)
  {
    var after := Apply(bankCfg, b, act);
    ActionGrows(bankCfg, b, act);
    forall d: nat | d < |after.deposits|
      ensures !SameTransfer(after.deposits[d], t)
    {
      if d >= |b.deposits| {
        NewDepositsElsewhere(bankCfg, b, act, t, d);
      }
    }
    if FindPayment(after.payments, t.user, DepositKey(t)).Some? {
      var p := FindPayment(after.payments, t.user, DepositKey(t)).value;
      if p >= |b.payments| {
        NewRowsHaveOtherKeys(bankCfg, b, act, t, p);
      }
    }
  }

  /** Scans that know the address, at rates under which the fee eats the transfer; and others that leave it alone. */
  ghost predicate Stalling(ev: Event, l: Log, t: OnChainTransfer) {
    match ev
    case Scan(_, registry, rates, _) =>
      SaneRates(rates) && l.to in registry && registry[l.to] == t.user && !FeeLeavesSomething(t, rates)
    case Others(act) => LeavesAlone(act, t)
  }

  lemma NextStalls(bankCfg: BankConfig, cfg: NetworkConfig, logs: seq<Log>, s: Scanner, ev: Event, l: Log, token: Token, user: string)
    requires LogsDistinct(logs) && TokensDistinct(cfg.tokens)
    requires l in logs && token in cfg.tokens && l.token == token.address
    requires s.cursor.Some? && s.cursor.value < l.block && !Settled(s.bank, AsTransfer(cfg, token, user, l))
    requires Stalling(ev, l, AsTransfer(cfg, token, user, l))
    ensures var after := Next(bankCfg, cfg, logs, s, ev);
            after.cursor.Some? && after.cursor.value < l.block && !Settled(after.bank, AsTransfer(cfg, token, user, l))
  {
    var t := AsTransfer(cfg, token, user, l);
    match ev
    case Others(act) => OthersLeaveUnsettled(bankCfg, s.bank, act, t);
    case Scan(head, registry, rates, reached) =>
      var w := NextWindow(cfg, s.cursor, head);
      if w.Some? {
        ScanStalls(cfg, logs, s, head, registry, rates, reached, l, token, w.value.0, w.value.1);
      }
  }

  lemma {:induction false} WindowStalls(cfg: NetworkConfig, logs: seq<Log>, b: Bank, from: nat, to: nat, registry: Registry, rates: Rates, l: Log, token: Token, n: nat)
    requires LogsDistinct(logs) && TokensDistinct(cfg.tokens) && SaneRates(rates)
    requires l in logs && token in cfg.tokens && l.token == token.address && l.to in registry && from <= l.block
    requires var t := AsTransfer(cfg, token, registry[l.to], l); !Settled(b, t) && !FeeLeavesSomething(t, rates)
    requires n <= |WindowTransfers(cfg, cfg.tokens, logs, from, to, registry)|
    ensures var t, ts := AsTransfer(cfg, token, registry[l.to], l), WindowTransfers(cfg, cfg.tokens, logs, from, to, registry);
            && !Settled(CreditAll(b, ts[..n], rates).0, t)
            && (n == |ts| && l.block <= to ==> !CreditAll(b, ts, rates).1)
  {
    var t := AsTransfer(cfg, token, registry[l.to], l);
    var ts := WindowTransfers(cfg, cfg.tokens, logs, from, to, registry);
    forall i | 0 <= i < n
      ensures ts[..n][i] == t || DistinctTransfers([ts[..n][i], t])
    {
      ListedApart(cfg, logs, from, to, registry, l, token, ts[i]);
    }
    if l.block <= to {
      LogIsInWindow(cfg, cfg.tokens, token, logs, from, to, registry, l);
    }
    EatenStaysUnsettled(b, ts[..n], rates, t);
    assert ts[..|ts|] == ts;
  }

  lemma ScanStalls(cfg: NetworkConfig, logs: seq<Log>, s: Scanner, head: nat, registry: Registry, rates: Rates, reached: Option<nat>,
                   l: Log, token: Token, from: nat, to: nat)
    requires LogsDistinct(logs) && TokensDistinct(cfg.tokens) && SaneRates(rates)
    requires l in logs && token in cfg.tokens && l.token == token.address && l.to in registry
    requires s.cursor.Some? && s.cursor.value < l.block && NextWindow(cfg, s.cursor, head) == Some((from, to))
    requires var t := AsTransfer(cfg, token, registry[l.to], l); !Settled(s.bank, t) && !FeeLeavesSomething(t, rates)
    ensures var after := ScanOnce(cfg, logs, s, head, registry, rates, reached);
            && after.cursor.Some? && after.cursor.value < l.block
            && !Settled(after.bank, AsTransfer(cfg, token, registry[l.to], l))
  {
    var ts := WindowTransfers(cfg, cfg.tokens, logs, from, to, registry);
    var n := if reached.Some? && reached.value < |ts| then reached.value else |ts|;
    WindowStalls(cfg, logs, s.bank, from, to, registry, rates, l, token, n);
    assert ts[..|ts|] == ts;
  }

  /**
   * For ever: as long as no scan finds the fee smaller than the transfer and nobody credits it
   * by other means or takes its key, no run moves the cursor past its block.
   */
  lemma {:induction false} EatenTransferStalls(bankCfg: BankConfig, cfg: NetworkConfig, logs: seq<Log>, s: Scanner, evs: seq<Event>, l: Log, token: Token, user: string)
    requires LogsDistinct(logs) && TokensDistinct(cfg.tokens)
    requires l in logs && token in cfg.tokens && l.token == token.address
    requires s.cursor.Some? && s.cursor.value < l.block && !Settled(s.bank, AsTransfer(cfg, token, user, l))
    requires forall k :: 0 <= k < |evs| ==> Stalling(evs[k], l, AsTransfer(cfg, token, user, l))
    ensures var after := RunScans(bankCfg, cfg, logs, s, evs);
            after.cursor.Some? && after.cursor.value < l.block && !Settled(after.bank, AsTransfer(cfg, token, user, l))
    decreases |evs|
  {
    if |evs| > 0 {
      NextStalls(bankCfg, cfg, logs, s, evs[0], l, token, user);
      EatenTransferStalls(bankCfg, cfg, logs, Next(bankCfg, cfg, logs, s, evs[0]), evs[1..], l, token, user);
    }
  }

  /** A transfer of nothing is eaten at any rates. */
  lemma NothingIsAlwaysEaten(t: OnChainTransfer, rates: Rates)
    requires t.amount == 0 && SaneRates(rates)
    ensures !FeeLeavesSomething(t, rates)
  {
    FeeWithinAmount(t.amount, rates.depositPct, rates);
  }
}
