/** Double entry and holds (src/ledger/ledger.service.ts). Amounts are whole base units. */
module Ledger {
  datatype Owner = User(id: string) | System(name: string)

  /** The unique (owner, asset) pair is the account; creating its row on first use changes no balance. */
  datatype Account = Account(owner: Owner, asset: string)

  datatype Direction = Debit | Credit

  datatype Leg = Leg(account: Account, direction: Direction, amount: int)

  /** The row a journal belongs to: a payment or a P2P trade. */
  datatype Journal = PaymentJournal(id: nat) | TradeJournal(id: nat)

  datatype Entry = Entry(journal: Journal, leg: Leg)

  datatype HoldStatus = Active | Released | Committed

  datatype Hold = Hold(account: Account, amount: int, status: HoldStatus)

  function Signed(l: Leg): int {
    if l.direction == Credit then l.amount else -l.amount
  }

  function LegEffect(l: Leg, a: Account): int {
    if l.account == a then Signed(l) else 0
  }

  function LegsEffect(legs: seq<Leg>, a: Account): int {
    if |legs| == 0 then 0 else LegsEffect(legs[..|legs| - 1], a) + LegEffect(legs[|legs| - 1], a)
  }

  /** Credits minus debits. */
  function Balance(entries: seq<Entry>, a: Account): int {
    if |entries| == 0 then 0 else Balance(entries[..|entries| - 1], a) + LegEffect(entries[|entries| - 1].leg, a)
  }

  function ActiveAmount(h: Hold, a: Account): int {
    if h.account == a && h.status == Active then h.amount else 0
  }

  /** The sum of the active holds. */
  function Held(holds: seq<Hold>, a: Account): int {
    if |holds| == 0 then 0 else Held(holds[..|holds| - 1], a) + ActiveAmount(holds[|holds| - 1], a)
  }

  function SumDirection(legs: seq<Leg>, d: Direction): int {
    if |legs| == 0 then 0
    else SumDirection(legs[..|legs| - 1], d) + if legs[|legs| - 1].direction == d then legs[|legs| - 1].amount else 0
  }

  /** When a journal is accepted: two legs or more, every amount positive, debits equal to credits. */
  predicate Postable(legs: seq<Leg>) {
    && |legs| >= 2
    && (forall i :: 0 <= i < |legs| ==> legs[i].amount > 0)
    && SumDirection(legs, Debit) == SumDirection(legs, Credit)
  }

  function AsEntries(j: Journal, legs: seq<Leg>): (r: seq<Entry>)
    ensures |r| == |legs|
    ensures forall i :: 0 <= i < |r| ==> r[i] == Entry(j, legs[i])
  {
    seq(|legs|, i requires 0 <= i < |legs| => Entry(j, legs[i]))
  }

  /** The legs posted under one journal, in order. */
  function LegsOf(entries: seq<Entry>, j: Journal): seq<Leg> {
    if |entries| == 0 then []
    else
      var last := entries[|entries| - 1];
      LegsOf(entries[..|entries| - 1], j) + if last.journal == j then [last.leg] else []
  }

  /** Everything booked in one asset, over all accounts. */
  function Total(entries: seq<Entry>, asset: string): int {
    if |entries| == 0 then 0
    else
      var last := entries[|entries| - 1].leg;
      Total(entries[..|entries| - 1], asset) + if last.account.asset == asset then Signed(last) else 0
  }

  predicate InAsset(legs: seq<Leg>, asset: string) {
    forall i :: 0 <= i < |legs| ==> legs[i].account.asset == asset
  }

  // ---- Appending a journal ----

  lemma {:induction false} BalanceAfterPost(entries: seq<Entry>, j: Journal, legs: seq<Leg>, a: Account)
    ensures Balance(entries + AsEntries(j, legs), a) == Balance(entries, a) + LegsEffect(legs, a)
  {
    var after := entries + AsEntries(j, legs);
    if |legs| == 0 {
      assert after == entries;
    } else {
      assert after[..|after| - 1] == entries + AsEntries(j, legs[..|legs| - 1]);
      BalanceAfterPost(entries, j, legs[..|legs| - 1], a);
    }
  }

  lemma {:induction false} LegsOfAfterPost(entries: seq<Entry>, j: Journal, legs: seq<Leg>, k: Journal)
    ensures LegsOf(entries + AsEntries(j, legs), k) == LegsOf(entries, k) + if j == k then legs else []
  {
    var after := entries + AsEntries(j, legs);
    if |legs| == 0 {
      assert after == entries;
    } else {
      var shorter := legs[..|legs| - 1];
      assert after[..|after| - 1] == entries + AsEntries(j, shorter);
      LegsOfAfterPost(entries, j, shorter, k);
      assert legs == shorter + [legs[|legs| - 1]];
    }
  }

  lemma {:induction false} TotalAfterPost(entries: seq<Entry>, j: Journal, legs: seq<Leg>, asset: string, other: string)
    requires InAsset(legs, asset)
    ensures Total(entries + AsEntries(j, legs), other)
            == Total(entries, other) + if other == asset then SumDirection(legs, Credit) - SumDirection(legs, Debit) else 0
  {
    var after := entries + AsEntries(j, legs);
    if |legs| == 0 {
      assert after == entries;
    } else {
      var shorter := legs[..|legs| - 1];
      assert after[..|after| - 1] == entries + AsEntries(j, shorter);
      TotalAfterPost(entries, j, shorter, asset, other);
    }
  }

  // ---- Balances of all accounts ----

  predicate DistinctAccounts(accounts: seq<Account>) {
    forall i, j :: 0 <= i < j < |accounts| ==> accounts[i] != accounts[j]
  }

  function SumBalances(accounts: seq<Account>, entries: seq<Entry>): int {
    if |accounts| == 0 then 0 else Balance(entries, accounts[0]) + SumBalances(accounts[1..], entries)
  }

  lemma {:induction false} SumBalancesSnoc(accounts: seq<Account>, entries: seq<Entry>, e: Entry)
    requires DistinctAccounts(accounts)
    ensures SumBalances(accounts, entries + [e])
            == SumBalances(accounts, entries) + if e.leg.account in accounts then Signed(e.leg) else 0
  {
    if |accounts| > 0 {
      SumBalancesSnoc(accounts[1..], entries, e);
      assert (entries + [e])[..|entries|] == entries;
      assert accounts[0] !in accounts[1..];
    }
  }

  /** The balances of any complete list of one asset's accounts add up to the asset's total. */
  lemma {:induction false} BalancesAddUpToTotal(accounts: seq<Account>, entries: seq<Entry>, asset: string)
    requires DistinctAccounts(accounts) && forall a :: a in accounts ==> a.asset == asset
    requires forall e :: e in entries && e.leg.account.asset == asset ==> e.leg.account in accounts
    ensures SumBalances(accounts, entries) == Total(entries, asset)
    decreases |entries|
  {
    if |entries| == 0 {
      NoEntries(accounts);
    } else {
      var e, shorter := entries[|entries| - 1], entries[..|entries| - 1];
      assert entries == shorter + [e];
      BalancesAddUpToTotal(accounts, shorter, asset);
      SumBalancesSnoc(accounts, shorter, e);
    }
  }

  lemma {:induction false} NoEntries(accounts: seq<Account>)
    ensures SumBalances(accounts, []) == 0
  {
    if |accounts| > 0 {
      NoEntries(accounts[1..]);
    }
  }

  // ---- Changing a hold ----

  lemma {:induction false} HeldAppend(holds: seq<Hold>, h: Hold, a: Account)
    ensures Held(holds + [h], a) == Held(holds, a) + ActiveAmount(h, a)
  {
    assert (holds + [h])[..|holds|] == holds;
  }

  lemma {:induction false} HeldUpdate(holds: seq<Hold>, i: nat, h: Hold, a: Account)
    requires i < |holds|
    ensures Held(holds[i := h], a) == Held(holds, a) - ActiveAmount(holds[i], a) + ActiveAmount(h, a)
  {
    var after := holds[i := h];
    if i == |holds| - 1 {
      assert after[..i] == holds[..i];
    } else {
      HeldUpdate(holds[..|holds| - 1], i, h, a);
      assert after[..|holds| - 1] == holds[..|holds| - 1][i := h];
    }
  }
}
