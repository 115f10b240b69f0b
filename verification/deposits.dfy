/**
 * Who is credited with a deposit (src/indexer/deposit-indexer.service.ts): the owner of the
 * address, in the token's asset, with the amount that was transferred.
 */
module Deposits {
  import opened Wrappers
  import opened Money
  import opened Fees
  import opened Ledger
  import opened Banking
  import opened Custody
  import opened Indexer

  // ---- The chain and the addresses ----

  /** A transfer has its own place in the chain. */
  ghost predicate LogsDistinct(logs: seq<Log>) {
    forall i, j :: 0 <= i < j < |logs| ==> logs[i].txHash != logs[j].txHash || logs[i].logIndex != logs[j].logIndex
  }

  ghost predicate TokensDistinct(tokens: seq<Token>) {
    forall i, j :: 0 <= i < j < |tokens| ==> tokens[i].address != tokens[j].address
  }

  lemma SamePlaceSameLog(logs: seq<Log>, l: Log, k: Log)
    requires LogsDistinct(logs) && l in logs && k in logs && l.txHash == k.txHash && l.logIndex == k.logIndex
    ensures l == k
  {
    var i :| 0 <= i < |logs| && logs[i] == l;
    var j :| 0 <= j < |logs| && logs[j] == k;
  }

  lemma SameAddressSameToken(tokens: seq<Token>, x: Token, y: Token)
    requires TokensDistinct(tokens) && x in tokens && y in tokens && x.address == y.address
    ensures x == y
  {
    var i :| 0 <= i < |tokens| && tokens[i] == x;
    var j :| 0 <= j < |tokens| && tokens[j] == y;
  }

  /** The transfer is what log `l` says, in one of these tokens, to the user who owns the receiving address. */
  predicate IsTransferOf(cfg: NetworkConfig, tokens: seq<Token>, logs: seq<Log>, owners: Registry, t: OnChainTransfer, l: Log, token: Token) {
    l in logs && token in tokens && l.token == token.address && l.to in owners && t == AsTransfer(cfg, token, owners[l.to], l)
  }

  ghost predicate Genuine(cfg: NetworkConfig, logs: seq<Log>, owners: Registry, t: OnChainTransfer) {
    exists l, token :: IsTransferOf(cfg, cfg.tokens, logs, owners, t, l, token)
  }

  predicate Agrees(registry: Registry, owners: Registry) {
    forall a :: a in registry ==> a in owners && owners[a] == registry[a]
  }

  /** A scan reads addresses that never change hands; what others credit on this network, if anything, are transfers of its chain. */
  ghost predicate HonestEvent(cfg: NetworkConfig, logs: seq<Log>, owners: Registry, ev: Event) {
    && SaneEvent(ev)
    && (ev.Scan? ==> Agrees(ev.registry, owners))
    && (ev.Others? && ev.act.Pay? && ev.act.p.DoDeposit? && ev.act.p.transfer.network == cfg.key ==>
          Genuine(cfg, logs, owners, ev.act.p.transfer))
  }

  // ---- What is listed ----

  lemma {:induction false} ListedOfToken(cfg: NetworkConfig, token: Token, logs: seq<Log>, from: nat, to: nat, registry: Registry, t: OnChainTransfer)
    returns (l: Log)
    requires t in TransfersOf(cfg, token, logs, from, to, registry)
    ensures IsTransferOf(cfg, [token], logs, registry, t, l, token) && from <= l.block <= to
  {
    var shorter, last := logs[..|logs| - 1], logs[|logs| - 1];
    if t in TransfersOf(cfg, token, shorter, from, to, registry) {
      l := ListedOfToken(cfg, token, shorter, from, to, registry, t);
    } else {
      l := last;
    }
  }

  lemma {:induction false} ListedInWindow(cfg: NetworkConfig, tokens: seq<Token>, logs: seq<Log>, from: nat, to: nat, registry: Registry, t: OnChainTransfer)
    returns (l: Log, token: Token)
    requires t in WindowTransfers(cfg, tokens, logs, from, to, registry)
    ensures IsTransferOf(cfg, tokens, logs, registry, t, l, token) && from <= l.block <= to
  {
    var shorter, last := tokens[..|tokens| - 1], tokens[|tokens| - 1];
    if t in WindowTransfers(cfg, shorter, logs, from, to, registry) {
      l, token := ListedInWindow(cfg, shorter, logs, from, to, registry, t);
    } else {
      token := last;
      l := ListedOfToken(cfg, token, logs, from, to, registry, t);
    }
  }

  lemma {:induction false} ListedIsGenuine(cfg: NetworkConfig, logs: seq<Log>, from: nat, to: nat, registry: Registry, owners: Registry, t: OnChainTransfer)
    requires t in WindowTransfers(cfg, cfg.tokens, logs, from, to, registry) && Agrees(registry, owners)
    ensures Genuine(cfg, logs, owners, t)
  {
    var l, token := ListedInWindow(cfg, cfg.tokens, logs, from, to, registry, t);
    assert IsTransferOf(cfg, cfg.tokens, logs, owners, t, l, token);
  }

  // ---- Every deposit row of the network is a transfer of its chain ----

  function AsCredited(d: ChainDeposit): OnChainTransfer {
    OnChainTransfer(d.network, d.txHash, d.logIndex, d.user, d.asset, d.amount)
  }

  ghost predicate RowsGenuine(cfg: NetworkConfig, logs: seq<Log>, owners: Registry, b: Bank) {
    forall i :: 0 <= i < |b.deposits| && b.deposits[i].network == cfg.key ==> Genuine(cfg, logs, owners, AsCredited(b.deposits[i]))
  }

  lemma CreditAddsOwnRow(b: Bank, t: OnChainTransfer, rates: Rates)
    requires CreditDeposit(b, t, rates).Credited?
    ensures var after := CreditDeposit(b, t, rates).bank;
            |after.deposits| == |b.deposits| + 1 && after.deposits[..|b.deposits|] == b.deposits && AsCredited(after.deposits[|b.deposits|]) == t
  {
  }

  lemma CreditKeepsRowsGenuine(cfg: NetworkConfig, logs: seq<Log>, owners: Registry, b: Bank, t: OnChainTransfer, rates: Rates)
    requires RowsGenuine(cfg, logs, owners, b) && (t.network == cfg.key ==> Genuine(cfg, logs, owners, t))
    requires CreditDeposit(b, t, rates).Credited?
    ensures RowsGenuine(cfg, logs, owners, CreditDeposit(b, t, rates).bank)
  {
    CreditAddsOwnRow(b, t, rates);
    var after := CreditDeposit(b, t, rates).bank;
    assert forall i :: 0 <= i < |b.deposits| ==> after.deposits[i] == after.deposits[..|b.deposits|][i];
  }

  lemma {:induction false} CreditAllKeepsRowsGenuine(cfg: NetworkConfig, logs: seq<Log>, owners: Registry, b: Bank, ts: seq<OnChainTransfer>, rates: Rates)
    requires RowsGenuine(cfg, logs, owners, b) && forall t :: t in ts ==> Genuine(cfg, logs, owners, t)
    ensures RowsGenuine(cfg, logs, owners, CreditAll(b, ts, rates).0)
  {
    if |ts| > 0 {
      var shorter, last := ts[..|ts| - 1], ts[|ts| - 1];
      CreditAllKeepsRowsGenuine(cfg, logs, owners, b, shorter, rates);
      var (before, ok) := CreditAll(b, shorter, rates);
      if ok && CreditDeposit(before, last, rates).Credited? {
        CreditKeepsRowsGenuine(cfg, logs, owners, before, last, rates);
      }
    }
  }

  lemma ScanKeepsRowsGenuine(cfg: NetworkConfig, logs: seq<Log>, owners: Registry, s: Scanner, head: nat, registry: Registry, rates: Rates, reached: Option<nat>)
    requires RowsGenuine(cfg, logs, owners, s.bank) && Agrees(registry, owners)
    ensures RowsGenuine(cfg, logs, owners, ScanOnce(cfg, logs, s, head, registry, rates, reached).bank)
  {
    match NextWindow(cfg, s.cursor, head)
    case None =>
    case Some((from, to)) =>
      var ts := WindowTransfers(cfg, cfg.tokens, logs, from, to, registry);
      forall t | t in ts
        ensures Genuine(cfg, logs, owners, t)
      {
        ListedIsGenuine(cfg, logs, from, to, registry, owners, t);
      }
      var handled := if reached.Some? && reached.value < |ts| then ts[..reached.value] else ts;
      CreditAllKeepsRowsGenuine(cfg, logs, owners, s.bank, handled, rates);
  }

  /** Only crediting a deposit adds a deposit row. */
  lemma OthersAddNoDeposit(bankCfg: BankConfig, b: Bank, act: Action)
    requires !(act.Pay? && act.p.DoDeposit?)
    ensures Apply(bankCfg, b, act).deposits == b.deposits
  {
  }

  lemma NextKeepsRowsGenuine(bankCfg: BankConfig, cfg: NetworkConfig, logs: seq<Log>, owners: Registry, s: Scanner, ev: Event)
    requires RowsGenuine(cfg, logs, owners, s.bank) && HonestEvent(cfg, logs, owners, ev)
    ensures RowsGenuine(cfg, logs, owners, Next(bankCfg, cfg, logs, s, ev).bank)
  {
    match ev
    case Scan(head, registry, rates, reached) => ScanKeepsRowsGenuine(cfg, logs, owners, s, head, registry, rates, reached);
    case Others(act) =>
      if act.Pay? && act.p.DoDeposit? {
        if CreditDeposit(s.bank, act.p.transfer, act.p.rates).Credited? {
          CreditKeepsRowsGenuine(cfg, logs, owners, s.bank, act.p.transfer, act.p.rates);
        }
      } else {
        OthersAddNoDeposit(bankCfg, s.bank, act);
      }
  }

  lemma {:induction false} RunKeepsRowsGenuine(bankCfg: BankConfig, cfg: NetworkConfig, logs: seq<Log>, owners: Registry, s: Scanner, evs: seq<Event>)
    requires RowsGenuine(cfg, logs, owners, s.bank) && forall i :: 0 <= i < |evs| ==> HonestEvent(cfg, logs, owners, evs[i])
    ensures RowsGenuine(cfg, logs, owners, RunScans(bankCfg, cfg, logs, s, evs).bank)
    decreases |evs|
  {
    if |evs| > 0 {
      NextKeepsRowsGenuine(bankCfg, cfg, logs, owners, s, evs[0]);
      RunKeepsRowsGenuine(bankCfg, cfg, logs, owners, Next(bankCfg, cfg, logs, s, evs[0]), evs[1..]);
    }
  }

  // ---- The promise ----

  /**
   * One deposit row for the transfer, with its very user, asset and amount; its payment credits
   * that user with the amount less the fee, by the one journal it has posted.
   */
  ghost predicate CreditedTo(b: Bank, t: OnChainTransfer, d: nat) {
    && d < |b.deposits| && OnlyDeposit(b, t, d) && AsCredited(b.deposits[d]) == t
    && var p := b.deposits[d].payment;
       && p < |b.payments| && b.payments[p].kind.Deposit? && b.payments[p].user == t.user && b.payments[p].asset == t.asset
       && var fee := b.payments[p].kind.fee;
          && fee >= 0 && b.payments[p].amount == t.amount - fee
          && LegsOf(b.entries, PaymentJournal(p)) == EntryLegs(t.user, t.asset, t.amount, fee)
  }

  /** The place and asset of the transfer, and its exact amount in base units, cut where the token has more than 18 decimals. */
  predicate IsTheTransfer(cfg: NetworkConfig, token: Token, l: Log, t: OnChainTransfer) {
    && t.network == cfg.key && t.txHash == l.txHash && t.logIndex == l.logIndex && t.asset == token.asset
    && if token.decimals <= 18 then t.amount * Pow10(token.decimals) == l.value * Pow10(18)
       else
         var unit := Pow10(token.decimals - 18);
         t.amount * unit <= l.value < (t.amount + 1) * unit
  }

  lemma AsTransferIsTheTransfer(cfg: NetworkConfig, token: Token, user: string, l: Log)
    ensures AsTransfer(cfg, token, user, l).user == user && IsTheTransfer(cfg, token, l, AsTransfer(cfg, token, user, l))
  {
    UnitsAreExact(l.value, token.decimals);
  }

  lemma CreditedRowIsTheTransfer(cfg: NetworkConfig, logs: seq<Log>, owners: Registry, b: Bank, l: Log, token: Token, t: OnChainTransfer) returns (d: nat)
    requires Inv(b) && RowsGenuine(cfg, logs, owners, b) && IsCredited(b, t) && IsTransferOf(cfg, cfg.tokens, logs, owners, t, l, token)
    requires LogsDistinct(logs) && TokensDistinct(cfg.tokens)
    ensures CreditedTo(b, t, d)
  {
    CreditedMeansOnce(b, t);
    d :| d < |b.deposits| && OnlyDeposit(b, t, d);
    assert Genuine(cfg, logs, owners, AsCredited(b.deposits[d]));
    var k, other :| IsTransferOf(cfg, cfg.tokens, logs, owners, AsCredited(b.deposits[d]), k, other);
    SamePlaceSameLog(logs, l, k);
    SameAddressSameToken(cfg.tokens, token, other);
    assert Backs(b.payments[b.deposits[d].payment], b.deposits[d]) && GoodPayment(b.payments[b.deposits[d].payment]);
  }

  /**
   * After any run of scans, failures, crashes and other operations: a transfer of a watched
   * token, in a block up to the cursor, to an address registered when its window was scanned,
   * has been credited to the owner of that address, once, in the token's asset and with its
   * exact amount less the fee; or another payment of that user already occupied its key.
   */
  lemma TransfersAreCreditedOnce(bankCfg: BankConfig, cfg: NetworkConfig, logs: seq<Log>, owners: Registry, evs: seq<Event>, l: Log, token: Token)
    returns (i: nat, d: nat)
    requires LogsDistinct(logs) && TokensDistinct(cfg.tokens)
    requires forall k :: 0 <= k < |evs| ==> HonestEvent(cfg, logs, owners, evs[k])
    requires l in logs && token in cfg.tokens && l.token == token.address
    requires var s := RunScans(bankCfg, cfg, logs, Scanner(EMPTY, None, []), evs);
             |s.windows| > 0 && s.windows[0].from <= l.block <= s.cursor.GetOr(0)
    ensures var s := RunScans(bankCfg, cfg, logs, Scanner(EMPTY, None, []), evs);
            && i < |s.windows| && s.windows[i].from <= l.block <= s.windows[i].to <= s.windows[i].confirmed
            && (l.to in s.windows[i].registry ==>
                  var t := AsTransfer(cfg, token, s.windows[i].registry[l.to], l);
                  && t.user == s.windows[i].registry[l.to] && IsTheTransfer(cfg, token, l, t)
                  && (CreditedTo(s.bank, t, d) || (!IsCredited(s.bank, t) && FindPayment(s.bank.payments, t.user, DepositKey(t)).Some?)))
  {
    var start := Scanner(EMPTY, None, []);
    i := TransfersHaveOneRow(bankCfg, cfg, logs, evs, l, token);
    d := 0;
    var s := RunScans(bankCfg, cfg, logs, start, evs);
    EmptyInv();
    RunKeepsScannerInv(bankCfg, cfg, logs, start, evs);
    RunKeepsRowsGenuine(bankCfg, cfg, logs, owners, start, evs);
    WindowsReadOwners(bankCfg, cfg, logs, owners, start, evs, i);
    var w := s.windows[i];
    if l.to in w.registry {
      var t := AsTransfer(cfg, token, w.registry[l.to], l);
      AsTransferIsTheTransfer(cfg, token, w.registry[l.to], l);
      if IsCredited(s.bank, t) {
        d := CreditedRowIsTheTransfer(cfg, logs, owners, s.bank, l, token, t);
      }
    }
  }

  lemma {:induction false} WindowsReadOwners(bankCfg: BankConfig, cfg: NetworkConfig, logs: seq<Log>, owners: Registry, s: Scanner, evs: seq<Event>, i: nat)
    requires forall k :: 0 <= k < |s.windows| ==> Agrees(s.windows[k].registry, owners)
    requires forall k :: 0 <= k < |evs| ==> HonestEvent(cfg, logs, owners, evs[k])
    requires i < |RunScans(bankCfg, cfg, logs, s, evs).windows|
    ensures Agrees(RunScans(bankCfg, cfg, logs, s, evs).windows[i].registry, owners)
    decreases |evs|
  {
    if |evs| > 0 {
      WindowsReadOwners(bankCfg, cfg, logs, owners, Next(bankCfg, cfg, logs, s, evs[0]), evs[1..], i);
    }
  }
}
