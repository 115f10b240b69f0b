/** The velocity signal of the risk score (src/compliance/risk-scoring.service.ts): the busiest window of time. */
module RiskScoring {

  predicate Ascending(s: seq<int>) {
    forall i, j :: 0 <= i < j < |s| ==> s[i] <= s[j]
  }

  function Insert(s: seq<int>, x: int): seq<int> {
    if |s| == 0 || s[|s| - 1] <= x then s + [x] else Insert(s[..|s| - 1], x) + [s[|s| - 1]]
  }

  lemma {:induction false} InsertAdds(s: seq<int>, x: int)
    ensures multiset(Insert(s, x)) == multiset(s) + multiset{x}
  {
    if |s| > 0 && s[|s| - 1] > x {
      assert s == s[..|s| - 1] + [s[|s| - 1]];
      InsertAdds(s[..|s| - 1], x);
    }
  }

  lemma {:induction false} InsertKeepsOrder(s: seq<int>, x: int)
    requires Ascending(s)
    ensures Ascending(Insert(s, x))
  {
    if |s| > 0 && s[|s| - 1] > x {
      var shorter, last := s[..|s| - 1], s[|s| - 1];
      InsertKeepsOrder(shorter, x);
      InsertAdds(shorter, x);
      var r := Insert(shorter, x);
      forall i | 0 <= i < |r|
        ensures r[i] <= last
      {
        assert r[i] in multiset(r);
        assert r[i] in shorter || r[i] == x;
      }
    }
  }

  /** The sorted copy. */
  function Sorted(ts: seq<int>): seq<int> {
    if |ts| == 0 then [] else Insert(Sorted(ts[..|ts| - 1]), ts[|ts| - 1])
  }

  lemma {:induction false} SortedSorts(ts: seq<int>)
    ensures Ascending(Sorted(ts)) && multiset(Sorted(ts)) == multiset(ts)
  {
    if |ts| > 0 {
      assert ts == ts[..|ts| - 1] + [ts[|ts| - 1]];
      SortedSorts(ts[..|ts| - 1]);
      InsertAdds(Sorted(ts[..|ts| - 1]), ts[|ts| - 1]);
      InsertKeepsOrder(Sorted(ts[..|ts| - 1]), ts[|ts| - 1]);
    }
  }

  /** Some of the timestamps, each at most as often as it occurs, no two of them further apart than the window. */
  ghost predicate FitsWindow(ts: seq<int>, windowMs: int, chosen: multiset<int>) {
    chosen <= multiset(ts) && forall x, y :: x in chosen && y in chosen ==> x - y <= windowMs
  }

  lemma SmallerMultiset(m: multiset<int>, n: multiset<int>)
    requires m <= n
    ensures |m| <= |n|
  {
    assert n == m + (n - m);
  }

  /** A stretch of a sorted list whose ends are close is one choice that fits. */
  lemma StretchFits(s: seq<int>, ts: seq<int>, windowMs: int, lo: nat, hi: nat)
    requires Ascending(s) && multiset(s) == multiset(ts) && lo <= hi < |s| && s[hi] - s[lo] <= windowMs
    ensures FitsWindow(ts, windowMs, multiset(s[lo..hi + 1]))
  {
    var stretch := s[lo..hi + 1];
    assert s == s[..lo] + stretch + s[hi + 1..];
    assert multiset(s) == multiset(s[..lo]) + multiset(stretch) + multiset(s[hi + 1..]);
    forall x, y | x in multiset(stretch) && y in multiset(stretch)
      ensures x - y <= windowMs
    {
      assert x in stretch && y in stretch;
    }
  }

  lemma SomethingChosen(m: multiset<int>)
    ensures |m| > 0 ==> exists x :: x in m
  {
    if forall x :: x !in m {
      assert m == multiset{};
    }
  }

  /** Every choice that fits lies in such a stretch. */
  lemma ChoiceLiesInStretch(s: seq<int>, ts: seq<int>, windowMs: int, chosen: multiset<int>) returns (lo: nat, hi: nat)
    requires multiset(s) == multiset(ts) && FitsWindow(ts, windowMs, chosen) && |chosen| > 0
    ensures lo <= hi < |s| && s[hi] - s[lo] <= windowMs && |chosen| <= hi - lo + 1
  {
    SomethingChosen(chosen);
    var x :| x in chosen;
    assert x in multiset(s);
    var i :| 0 <= i < |s| && s[i] == x;
    lo, hi := 0, |s| - 1;
    while s[lo] !in chosen
      invariant lo <= i && forall k :: 0 <= k < lo ==> s[k] !in chosen
      decreases i - lo
    {
      lo := lo + 1;
    }
    while s[hi] !in chosen
      invariant i <= hi < |s| && forall k :: hi < k < |s| ==> s[k] !in chosen
      decreases hi
    {
      hi := hi - 1;
    }
    CoveredByStretch(s, lo, hi, chosen);
  }

  lemma CoveredByStretch(s: seq<int>, lo: nat, hi: nat, chosen: multiset<int>)
    requires lo <= hi < |s| && chosen <= multiset(s)
    requires forall k :: 0 <= k < lo || hi < k < |s| ==> s[k] !in chosen
    ensures |chosen| <= hi - lo + 1
  {
    var before, stretch, after := s[..lo], s[lo..hi + 1], s[hi + 1..];
    assert s == before + stretch + after;
    assert multiset(s) == multiset(before) + multiset(stretch) + multiset(after);
    assert chosen <= multiset(stretch) by {
      forall v | v in chosen
        ensures chosen[v] <= multiset(stretch)[v]
      {
        assert v !in before && v !in after;
      }
    }
    SmallerMultiset(chosen, multiset(stretch));
  }

  /** No stretch with this end starts before `start`. */
  predicate TooFar(sorted: seq<int>, windowMs: nat, end: nat, start: nat)
    requires start <= end < |sorted|
  {
    forall k :: 0 <= k < start ==> sorted[end] - sorted[k] > windowMs
  }

  predicate NoLonger(sorted: seq<int>, windowMs: nat, end: nat, max: nat)
    requires end <= |sorted|
  {
    forall b, e :: 0 <= b <= e < end && sorted[e] - sorted[b] <= windowMs ==> e - b + 1 <= max
  }

  lemma OneMoreEnd(sorted: seq<int>, windowMs: nat, end: nat, start: nat, max: nat)
    requires start <= end < |sorted| && TooFar(sorted, windowMs, end, start)
    requires NoLonger(sorted, windowMs, end, max) && end - start + 1 <= max
    ensures NoLonger(sorted, windowMs, end + 1, max)
  {
  }

  /** The start of the longest stretch with this end, from that of the end before. */
  method MoveStart(sorted: seq<int>, windowMs: nat, end: nat, from: nat) returns (start: nat)
    requires Ascending(sorted) && from <= end < |sorted|
    requires end > 0 ==> from < end && TooFar(sorted, windowMs, end - 1, from)
    ensures start <= end && TooFar(sorted, windowMs, end, start) && sorted[end] - sorted[start] <= windowMs
  {
    start := from;
    while sorted[end] - sorted[start] > windowMs
      invariant start <= end && TooFar(sorted, windowMs, end, start)
      decreases end - start
    {
      start := start + 1;
    }
  }

  /** Two indices moving over the sorted list: the longest stretch whose ends are close. */
  method LongestStretch(sorted: seq<int>, windowMs: nat) returns (max: nat, ghost lo: nat, ghost hi: nat)
    requires Ascending(sorted) && |sorted| > 0
    ensures lo <= hi < |sorted| && sorted[hi] - sorted[lo] <= windowMs && max == hi - lo + 1
    ensures NoLonger(sorted, windowMs, |sorted|, max)
  {
    max, lo, hi := 1, 0, 0;
    var start: nat := 0;
    for end := 0 to |sorted|
      invariant if end == 0 then start == 0 else start < end && TooFar(sorted, windowMs, end - 1, start)
      invariant NoLonger(sorted, windowMs, end, max)
      invariant lo <= hi < |sorted| && sorted[hi] - sorted[lo] <= windowMs && max == hi - lo + 1
    {
      start := MoveStart(sorted, windowMs, end, start);
      if end - start + 1 > max {
        max := end - start + 1;
        lo, hi := start, end;
      }
      OneMoreEnd(sorted, windowMs, end, start, max);
    }
  }

  /** The size of the largest choice of timestamps that fits in one window. */
  method MaxTxInWindow(timestamps: seq<int>, windowMs: nat) returns (max: nat)
    ensures exists chosen :: FitsWindow(timestamps, windowMs, chosen) && |chosen| == max
    ensures forall chosen :: FitsWindow(timestamps, windowMs, chosen) ==> |chosen| <= max
  {
    if |timestamps| == 0 {
      NothingFits(timestamps, windowMs);
      ghost var nothing: multiset<int> := multiset{};
      assert FitsWindow(timestamps, windowMs, nothing) && |nothing| == 0;
      return 0;
    }
    var sorted := Sorted(timestamps);
    SortedSorts(timestamps);
    assert |sorted| == |multiset(sorted)| == |multiset(timestamps)| == |timestamps|;
    ghost var lo: nat, hi: nat;
    max, lo, hi := LongestStretch(sorted, windowMs);
    StretchFits(sorted, timestamps, windowMs, lo, hi);
    assert |multiset(sorted[lo..hi + 1])| == max;
    forall chosen | FitsWindow(timestamps, windowMs, chosen)
      ensures |chosen| <= max
    {
      if |chosen| > 0 {
        var b, e := ChoiceLiesInStretch(sorted, timestamps, windowMs, chosen);
      }
    }
  }

  lemma NothingFits(ts: seq<int>, windowMs: int)
    requires |ts| == 0
    ensures FitsWindow(ts, windowMs, multiset{})
    ensures forall chosen :: FitsWindow(ts, windowMs, chosen) ==> |chosen| <= 0
  {
    forall chosen | FitsWindow(ts, windowMs, chosen)
      ensures |chosen| <= 0
    {
      SmallerMultiset(chosen, multiset(ts));
    }
  }
}
