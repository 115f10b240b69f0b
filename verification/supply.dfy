/** One standalone node: nobody overspends, and money is only created by the premine and the mining reward. */
module Supply {
  import opened Wrappers
  import opened CryptoUtil
  import opened Domain
  import opened Blockchain

  /** The two local actions: a request to submit, and a block mined on the pending transactions. */
  datatype Op = SubmitOp(tx: Transaction) | MineOp(block: Block)

  predicate OpEnabled(cfg: Config, s: Store, op: Op) {
    |s.chain| >= 1 &&
    match op
    case SubmitOp(t) => t.from.Some?
    case MineOp(b) => MinedOn(cfg, s, b)
  }

  function Apply(cfg: Config, s: Store, op: Op): Store
    requires OpEnabled(cfg, s, op)
  {
    match op
    case SubmitOp(t) => Submit(cfg.crypto, s, t).0
    case MineOp(b) => Store(s.chain + [b], [])
  }

  predicate LegalOps(cfg: Config, s: Store, ops: seq<Op>)
    decreases |ops|
  {
    |ops| == 0 || (OpEnabled(cfg, s, ops[0]) && LegalOps(cfg, Apply(cfg, s, ops[0]), ops[1..]))
  }

  function RunOps(cfg: Config, s: Store, ops: seq<Op>): Store
    requires LegalOps(cfg, s, ops)
    decreases |ops|
  {
    if |ops| == 0 then s else RunOps(cfg, Apply(cfg, s, ops[0]), ops[1..])
  }

  // ---- Sums over rows ----

  lemma {:induction false} SumRowsAppend(x: seq<Row>, y: seq<Row>, a: string)
    ensures SumRows(x + y, a) == SumRows(x, a) + SumRows(y, a)
  {
    if |y| == 0 {
      assert x + y == x;
    } else {
      assert (x + y)[..|x + y| - 1] == x + y[..|y| - 1];
      SumRowsAppend(x, y[..|y| - 1], a);
    }
  }

  function SumTxs(ts: seq<Transaction>, mined: bool, a: string): int {
    SumRows(AsRows(ts, mined), a)
  }

  lemma SumTxsAppend(x: seq<Transaction>, y: seq<Transaction>, mined: bool, a: string)
    ensures SumTxs(x + y, mined, a) == SumTxs(x, mined, a) + SumTxs(y, mined, a)
  {
    assert AsRows(x + y, mined) == AsRows(x, mined) + AsRows(y, mined);
    SumRowsAppend(AsRows(x, mined), AsRows(y, mined), a);
  }

  lemma SumTxsOne(t: Transaction, mined: bool, a: string)
    ensures SumTxs([t], mined, a) == RowEffect(Row(t, mined), a)
  {
    var rows := AsRows([t], mined);
    assert rows[..|rows| - 1] == [] && SumRows([], a) == 0;
  }

  lemma SumTxsWithout(y: seq<Transaction>, i: nat, mined: bool, a: string)
    requires i < |y|
    ensures SumTxs(y, mined, a) == SumTxs(y[..i] + y[i + 1..], mined, a) + SumTxs([y[i]], mined, a)
  {
    var before, after := y[..i], y[i + 1..];
    assert y == before + [y[i]] + after;
    SumTxsAppend(before + [y[i]], after, mined, a);
    SumTxsAppend(before, [y[i]], mined, a);
    SumTxsAppend(before, after, mined, a);
  }

  lemma MultisetWithout(y: seq<Transaction>, i: nat)
    requires i < |y|
    ensures multiset(y[..i] + y[i + 1..]) == multiset(y) - multiset{y[i]}
  {
    assert y == y[..i] + [y[i]] + y[i + 1..];
  }

  /** The order in which pending transactions enter a block does not matter to anybody's balance. */
  lemma {:induction false} SumTxsPermutation(x: seq<Transaction>, y: seq<Transaction>, mined: bool, a: string)
    requires multiset(x) == multiset(y)
    ensures SumTxs(x, mined, a) == SumTxs(y, mined, a)
    decreases |x|
  {
    if |x| == 0 {
      assert |y| == |multiset(y)| == 0;
    } else {
      var t, shorter := x[|x| - 1], x[..|x| - 1];
      assert x == shorter + [t];
      assert t in multiset(y);
      var i :| 0 <= i < |y| && y[i] == t;
      MultisetWithout(y, i);
      SumTxsPermutation(shorter, y[..i] + y[i + 1..], mined, a);
      SumTxsAppend(shorter, [t], mined, a);
      SumTxsWithout(y, i, mined, a);
    }
  }

  /** Being mined only adds the incoming side. */
  lemma {:induction false} MiningOnlyAdds(ts: seq<Transaction>, a: string)
    requires forall i :: 0 <= i < |ts| ==> ts[i].amount >= 0
    ensures SumTxs(ts, true, a) >= SumTxs(ts, false, a)
  {
    if |ts| > 0 {
      var t, shorter := ts[|ts| - 1], ts[..|ts| - 1];
      assert ts == shorter + [t];
      MiningOnlyAdds(shorter, a);
      SumTxsAppend(shorter, [t], true, a);
      SumTxsAppend(shorter, [t], false, a);
      SumTxsOne(t, true, a);
      SumTxsOne(t, false, a);
    }
  }

  lemma {:induction false} FeesNonNegative(ts: seq<Transaction>)
    requires forall i :: 0 <= i < |ts| ==> ts[i].fee >= 0
    ensures TotalFees(ts) >= 0
  {
    if |ts| > 0 {
      FeesNonNegative(ts[..|ts| - 1]);
    }
  }

  // ---- Nobody overspends ----

  ghost predicate Solvent(cfg: Config, s: Store) {
    && |s.chain| >= 1
    && (forall i :: 0 <= i < |s.mempool| ==> s.mempool[i].from.Some? && ValidTx(cfg.crypto, s.mempool[i]))
    && forall a :: Available(s, a) >= 0
  }

  lemma AvailableSplits(s: Store, a: string)
    ensures Available(s, a) == Confirmed(s, a) + SumTxs(s.mempool, false, a)
  {
    SumRowsAppend(MinedRows(s.chain), AsRows(s.mempool, false), a);
  }

  lemma SubmitKeepsSolvent(cfg: Config, s: Store, t: Transaction)
    requires Solvent(cfg, s) && t.from.Some?
    ensures Solvent(cfg, Submit(cfg.crypto, s, t).0)
  {
    var (after, status) := Submit(cfg.crypto, s, t);
    if status == Submitted {
      forall a
        ensures Available(after, a) >= 0
      {
        AvailableSplits(s, a);
        AvailableSplits(after, a);
        SumTxsAppend(s.mempool, [t], false, a);
        SumTxsOne(t, false, a);
        assert Available(s, a) >= 0;
      }
    }
  }

  lemma MinedEffect(cfg: Config, s: Store, b: Block, a: string)
    requires |s.chain| >= 1 && MinedOn(cfg, s, b)
    ensures Available(Store(s.chain + [b], []), a)
            == Confirmed(s, a) + RowEffect(Row(b.transactions[0], true), a) + SumTxs(s.mempool, true, a)
  {
    var after := Store(s.chain + [b], []);
    var coinbase, pending := b.transactions[0], b.transactions[1..];
    assert after.chain[..|after.chain| - 1] == s.chain;
    assert b.transactions == [coinbase] + pending;
    AvailableSplits(after, a);
    assert AsRows([], false) == [];
    SumRowsAppend(MinedRows(s.chain), AsRows(b.transactions, true), a);
    SumTxsAppend([coinbase], pending, true, a);
    SumTxsOne(coinbase, true, a);
    SumTxsPermutation(pending, s.mempool, true, a);
  }

  lemma MinedFundsStay(cfg: Config, s: Store, b: Block, a: string)
    requires |s.chain| >= 1 && MinedOn(cfg, s, b) && b.transactions[0].amount >= 0
    requires forall i :: 0 <= i < |s.mempool| ==> s.mempool[i].from.Some? && ValidTx(cfg.crypto, s.mempool[i])
    requires Available(s, a) >= 0
    ensures Available(Store(s.chain + [b], []), a) >= 0
  {
    MinedEffect(cfg, s, b, a);
    MiningOnlyAdds(s.mempool, a);
    AvailableSplits(s, a);
  }

  lemma MineKeepsSolvent(cfg: Config, s: Store, b: Block)
    requires Solvent(cfg, s) && MinedOn(cfg, s, b) && cfg.miningReward >= 0
    ensures Solvent(cfg, Store(s.chain + [b], []))
  {
    var pending := b.transactions[1..];
    forall i | 0 <= i < |pending|
      ensures pending[i].fee >= 0
    {
      assert pending[i] in multiset(pending);
      assert pending[i] in multiset(s.mempool);
    }
    FeesNonNegative(pending);
    forall a
      ensures Available(Store(s.chain + [b], []), a) >= 0
    {
      assert Available(s, a) >= 0;
      MinedFundsStay(cfg, s, b, a);
    }
  }

  lemma GenesisSolvent(cfg: Config, genesis: Block)
    requires IsGenesis(cfg, genesis)
    ensures Solvent(cfg, Store([genesis], []))
  {
    var s, ts := Store([genesis], []), genesis.transactions;
    assert ts == GenesisTransactions(cfg);
    forall a
      ensures Available(s, a) >= 0
    {
      AvailableSplits(s, a);
      assert [genesis][..0] == [] && AsRows([], false) == [];
      assert MinedRows([genesis]) == AsRows(ts, true);
      if cfg.premineTo.Some? {
        SumTxsOne(ts[0], true, a);
        assert ts == [ts[0]];
      }
    }
  }

  lemma GenesisIssues(cfg: Config, genesis: Block)
    requires IsGenesis(cfg, genesis)
    ensures NetIssued([genesis]) == (if cfg.premineTo.Some? then PREMINE else 0)
  {
    var ts := genesis.transactions;
    assert ts == GenesisTransactions(cfg);
    assert [genesis][..0] == [] && NetIssued([]) == 0;
    if cfg.premineTo.Some? {
      assert ts[..|ts| - 1] == [] && IssuedBy([]) == 0;
    }
  }

  // ---- Supply ----

  /** What one mined transaction adds to the money in existence: a coinbase its amount, any other minus its fee. */
  function Issued(t: Transaction): int {
    if t.from.None? then t.amount else -t.fee
  }

  function IssuedBy(ts: seq<Transaction>): int {
    if |ts| == 0 then 0 else IssuedBy(ts[..|ts| - 1]) + Issued(ts[|ts| - 1])
  }

  function NetIssued(chain: seq<Block>): int {
    if |chain| == 0 then 0 else NetIssued(chain[..|chain| - 1]) + IssuedBy(chain[|chain| - 1].transactions)
  }

  lemma {:induction false} IssuedByTransfers(coinbase: Transaction, ts: seq<Transaction>)
    requires coinbase.from.None? && forall i :: 0 <= i < |ts| ==> ts[i].from.Some?
    ensures IssuedBy([coinbase] + ts) == coinbase.amount - TotalFees(ts)
  {
    var all := [coinbase] + ts;
    if |ts| == 0 {
      assert all[..0] == [];
    } else {
      assert all[..|all| - 1] == [coinbase] + ts[..|ts| - 1];
      IssuedByTransfers(coinbase, ts[..|ts| - 1]);
    }
  }

  lemma PendingHaveSenders(cfg: Config, s: Store, b: Block, i: nat)
    requires Solvent(cfg, s) && MinedOn(cfg, s, b) && 1 <= i < |b.transactions|
    ensures b.transactions[i].from.Some?
  {
    var pending := b.transactions[1..];
    assert pending[i - 1] in multiset(pending);
    assert pending[i - 1] in multiset(s.mempool);
  }

  lemma MinedBlockIssuesReward(cfg: Config, s: Store, b: Block)
    requires Solvent(cfg, s) && MinedOn(cfg, s, b)
    ensures NetIssued(s.chain + [b]) == NetIssued(s.chain) + cfg.miningReward
  {
    var coinbase, pending := b.transactions[0], b.transactions[1..];
    assert b.transactions == [coinbase] + pending;
    forall i | 0 <= i < |pending|
      ensures pending[i].from.Some?
    {
      PendingHaveSenders(cfg, s, b, i + 1);
    }
    IssuedByTransfers(coinbase, pending);
    assert (s.chain + [b])[..|s.chain|] == s.chain;
  }

  /** What has been issued beyond one reward a block. */
  function Excess(cfg: Config, s: Store): int {
    NetIssued(s.chain) - cfg.miningReward * |s.chain|
  }

  lemma OneOpIssues(cfg: Config, s: Store, op: Op)
    requires Solvent(cfg, s) && OpEnabled(cfg, s, op) && cfg.miningReward >= 0
    ensures Solvent(cfg, Apply(cfg, s, op)) && Excess(cfg, Apply(cfg, s, op)) == Excess(cfg, s)
  {
    match op
    case SubmitOp(t) => SubmitKeepsSolvent(cfg, s, t);
    case MineOp(b) =>
      MineKeepsSolvent(cfg, s, b);
      MinedBlockIssuesReward(cfg, s, b);
      OneMoreReward(cfg.miningReward, |s.chain|, NetIssued(s.chain), NetIssued(s.chain + [b]));
  }

  lemma OneMoreReward(reward: int, blocks: int, before: int, after: int)
    requires after == before + reward
    ensures after - reward * (blocks + 1) == before - reward * blocks
  {
  }

  lemma ExcessOfGenesis(reward: int, blocks: int, issued: int, premine: int)
    requires issued - reward * blocks == premine - reward * 1
    ensures issued == premine + reward * (blocks - 1)
  {
  }

  /** A pending transaction is spent by its sender at once and received by nobody yet. */
  lemma PendingMovesOnlyTheSender(s: Store, t: Transaction, a: string)
    ensures Available(s.(mempool := s.mempool + [t]), a) == Available(s, a) - if t.from == Some(a) then t.amount + t.fee else 0
    ensures Confirmed(s.(mempool := s.mempool + [t]), a) == Confirmed(s, a)
  {
    AvailableSplits(s, a);
    AvailableSplits(s.(mempool := s.mempool + [t]), a);
    SumTxsAppend(s.mempool, [t], false, a);
    SumTxsOne(t, false, a);
  }

  function Paid(ts: seq<Transaction>, a: string): int {
    if |ts| == 0 then 0 else (if ts[0].to == a then ts[0].amount else 0) + Paid(ts[1..], a)
  }

  function Spent(ts: seq<Transaction>, a: string): int {
    if |ts| == 0 then 0 else (if ts[0].from == Some(a) then ts[0].amount + ts[0].fee else 0) + Spent(ts[1..], a)
  }

  lemma {:induction false} MinedTransactionsMoveBoth(ts: seq<Transaction>, a: string)
    ensures SumTxs(ts, true, a) == Paid(ts, a) - Spent(ts, a)
  {
    if |ts| > 0 {
      assert ts == [ts[0]] + ts[1..];
      MinedTransactionsMoveBoth(ts[1..], a);
      SumTxsAppend([ts[0]], ts[1..], true, a);
      SumTxsOne(ts[0], true, a);
    }
  }

  /** A mined block pays the receivers and charges the senders of all its transactions. */
  lemma {:induction false} MinedBlockMovesBoth(s: Store, b: Block, mempool: seq<Transaction>, a: string)
    ensures Confirmed(Store(s.chain + [b], mempool), a) == Confirmed(s, a) + Paid(b.transactions, a) - Spent(b.transactions, a)
  {
    assert (s.chain + [b])[..|s.chain|] == s.chain;
    SumRowsAppend(MinedRows(s.chain), AsRows(b.transactions, true), a);
    MinedTransactionsMoveBoth(b.transactions, a);
  }

  lemma {:induction false} IssuanceOverRun(cfg: Config, s: Store, ops: seq<Op>)
    requires Solvent(cfg, s) && LegalOps(cfg, s, ops) && cfg.miningReward >= 0
    ensures Solvent(cfg, RunOps(cfg, s, ops)) && Excess(cfg, RunOps(cfg, s, ops)) == Excess(cfg, s)
    decreases |ops|
  {
    if |ops| > 0 {
      OneOpIssues(cfg, s, ops[0]);
      IssuanceOverRun(cfg, Apply(cfg, s, ops[0]), ops[1..]);
    }
  }

  // ---- From issuance to balances ----

  predicate Distinct(addresses: seq<string>) {
    forall i, j :: 0 <= i < j < |addresses| ==> addresses[i] != addresses[j]
  }

  predicate Lists(addresses: seq<string>, chain: seq<Block>) {
    forall b, t :: b in chain && t in b.transactions ==> t.to in addresses && (t.from.Some? ==> t.from.value in addresses)
  }

  function SumOver(addresses: seq<string>, rows: seq<Row>): int {
    if |addresses| == 0 then 0 else SumRows(rows, addresses[0]) + SumOver(addresses[1..], rows)
  }

  lemma {:induction false} SumOverSnoc(addresses: seq<string>, rows: seq<Row>, t: Transaction)
    requires Distinct(addresses)
    ensures SumOver(addresses, rows + [Row(t, true)])
            == SumOver(addresses, rows) + (if t.to in addresses then t.amount else 0)
               - (if t.from.Some? && t.from.value in addresses then t.amount + t.fee else 0)
  {
    if |addresses| > 0 {
      var rest := addresses[1..];
      SumOverSnoc(rest, rows, t);
      assert addresses[0] !in rest;
      assert (rows + [Row(t, true)])[..|rows|] == rows;
      assert forall x :: x in addresses <==> x == addresses[0] || x in rest;
    }
  }

  lemma {:induction false} SumOverTxs(addresses: seq<string>, rows: seq<Row>, ts: seq<Transaction>)
    requires Distinct(addresses)
    requires forall t :: t in ts ==> t.to in addresses && (t.from.Some? ==> t.from.value in addresses)
    ensures SumOver(addresses, rows + AsRows(ts, true)) == SumOver(addresses, rows) + IssuedBy(ts)
  {
    if |ts| == 0 {
      assert rows + AsRows(ts, true) == rows;
    } else {
      var t, shorter := ts[|ts| - 1], ts[..|ts| - 1];
      assert rows + AsRows(ts, true) == rows + AsRows(shorter, true) + [Row(t, true)];
      SumOverTxs(addresses, rows, shorter);
      SumOverSnoc(addresses, rows + AsRows(shorter, true), t);
    }
  }

  lemma {:induction false} SumOverEmpty(addresses: seq<string>)
    ensures SumOver(addresses, []) == 0
  {
    if |addresses| > 0 {
      SumOverEmpty(addresses[1..]);
    }
  }

  lemma {:induction false} BalancesSumToIssued(addresses: seq<string>, chain: seq<Block>)
    requires Distinct(addresses) && Lists(addresses, chain)
    ensures SumOver(addresses, MinedRows(chain)) == NetIssued(chain)
    decreases |chain|
  {
    if |chain| == 0 {
      SumOverEmpty(addresses);
    } else {
      var b, shorter := chain[|chain| - 1], chain[..|chain| - 1];
      assert forall c :: c in shorter ==> c in chain;
      BalancesSumToIssued(addresses, shorter);
      SumOverTxs(addresses, MinedRows(shorter), b.transactions);
    }
  }

  /**
   * Conservation. After any run of a standalone node the confirmed balances of all its
   * addresses add up to the premine plus one reward for every mined block: fees change hands
   * and are neither created nor lost.
   */
  lemma {:induction false} SupplyIsPremineAndRewards(cfg: Config, genesis: Block, ops: seq<Op>, addresses: seq<string>)
    requires IsGenesis(cfg, genesis) && LegalOps(cfg, Store([genesis], []), ops) && cfg.miningReward >= 0
    requires Distinct(addresses) && Lists(addresses, RunOps(cfg, Store([genesis], []), ops).chain)
    ensures var s := RunOps(cfg, Store([genesis], []), ops);
            && SumOver(addresses, MinedRows(s.chain))
               == (if cfg.premineTo.Some? then 1_000_000 else 0) + cfg.miningReward * (|s.chain| - 1)
            && forall a :: Available(s, a) >= 0
  {
    GenesisSolvent(cfg, genesis);
    GenesisIssues(cfg, genesis);
    IssuanceOverRun(cfg, Store([genesis], []), ops);
    var chain := RunOps(cfg, Store([genesis], []), ops).chain;
    BalancesSumToIssued(addresses, chain);
    ExcessOfGenesis(cfg.miningReward, |chain|, NetIssued(chain), NetIssued([genesis]));
  }
}
