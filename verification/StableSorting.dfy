/** What it means to sort an array of C ints stably, the two pure functions the
    merge programs compute (one merge, one whole merge sort), and how many
    element comparisons they make.

    Both C programs compare elements only with `<=`, so the 32-bit width of the
    elements plays no part here. */
module StableSorting {

  /** One array slot: the C int, and a mark saying where that int came from.
      The programs copy marks along with values and never look at them. */
  datatype Cell = Cell(value: int, origin: int)

  ghost predicate Sorted(s: seq<Cell>) {
    forall i, j :: 0 <= i < j < |s| ==> s[i].value <= s[j].value
  }

  /** The cells of `s` holding `v`, in the order in which they stand in `s`. */
  function WithValue(s: seq<Cell>, v: int): seq<Cell> {
    if s == [] then [] else Kept(s[0], v) + WithValue(s[1..], v)
  }

  function Kept(c: Cell, v: int): seq<Cell> {
    if c.value == v then [c] else []
  }

  ghost predicate SameOrder(s: seq<Cell>, r: seq<Cell>) {
    forall v :: WithValue(s, v) == WithValue(r, v)
  }

  /** `r` is `s` sorted, with equal values kept in their original order. */
  ghost predicate IsStableSort(s: seq<Cell>, r: seq<Cell>) {
    Sorted(r) && SameOrder(s, r)
  }

  // ---------- what a stable sort determines ----------

  lemma {:induction false} WithValueConcat(s: seq<Cell>, t: seq<Cell>, v: int)
    ensures WithValue(s + t, v) == WithValue(s, v) + WithValue(t, v)
  {
    if s == [] {
      assert s + t == t;
    } else {
      WithValueConcat(s[1..], t, v);
      assert s + t == [s[0]] + (s[1..] + t);
      Associative(Kept(s[0], v), WithValue(s[1..], v), WithValue(t, v));
    }
  }

  lemma Associative(a: seq<Cell>, b: seq<Cell>, c: seq<Cell>)
    ensures a + (b + c) == (a + b) + c
  {
  }

  lemma {:induction false} WithValueEmpty(s: seq<Cell>, v: int)
    ensures WithValue(s, v) == [] <==> forall i :: 0 <= i < |s| ==> s[i].value != v
  {
    if s != [] {
      WithValueEmpty(s[1..], v);
      assert forall i :: 1 <= i < |s| ==> s[i] == s[1..][i - 1];
    }
  }

  /** The cells of `s` equal to `c` are those of its value class equal to `c`. */
  lemma {:induction false} OccurrencesByValue(s: seq<Cell>, c: Cell)
    ensures multiset(s)[c] == multiset(WithValue(s, c.value))[c]
  {
    if s != [] {
      OccurrencesByValue(s[1..], c);
      assert s == [s[0]] + s[1..];
      assert multiset(s) == multiset([s[0]]) + multiset(s[1..]);
      assert multiset(WithValue(s, c.value)) == multiset(Kept(s[0], c.value)) + multiset(WithValue(s[1..], c.value));
    }
  }

  /** Keeping every value class in order is more than being a permutation. */
  lemma SameOrderIsPermutation(s: seq<Cell>, r: seq<Cell>)
    requires SameOrder(s, r)
    ensures multiset(s) == multiset(r) && |s| == |r|
  {
    forall c: Cell
      ensures multiset(s)[c] == multiset(r)[c]
    {
      OccurrencesByValue(s, c);
      OccurrencesByValue(r, c);
      assert WithValue(s, c.value) == WithValue(r, c.value);
    }
    assert |multiset(s)| == |s| && |multiset(r)| == |r|;
  }

  /** A sequence has exactly one stable sort. */
  lemma {:induction false} StableSortIsUnique(s: seq<Cell>, r: seq<Cell>, q: seq<Cell>)
    requires IsStableSort(s, r) && IsStableSort(s, q)
    ensures r == q
  {
    SortedIsDeterminedByClasses(r, q);
  }

  /** Sorted sequences with equal classes begin with the same cell. */
  lemma SameHead(r: seq<Cell>, q: seq<Cell>)
    requires Sorted(r) && Sorted(q) && SameOrder(r, q) && r != [] && q != []
    ensures r[0] == q[0]
  {
    var v, u := r[0].value, q[0].value;
    assert WithValue(r, v) == WithValue(q, v) && WithValue(r, u) == WithValue(q, u);
    WithValueEmpty(q, v);
    WithValueEmpty(r, u);
    assert WithValue(r, v)[0] == r[0] && WithValue(q, u)[0] == q[0];
  }

  lemma CancelLeft(a: seq<Cell>, b: seq<Cell>, c: seq<Cell>)
    requires a + b == a + c
    ensures b == c
  {
    assert b == (a + b)[|a|..] && c == (a + c)[|a|..];
  }

  lemma SameTail(r: seq<Cell>, q: seq<Cell>, v: int)
    requires r != [] && q != [] && r[0] == q[0] && WithValue(r, v) == WithValue(q, v)
    ensures WithValue(r[1..], v) == WithValue(q[1..], v)
  {
    CancelLeft(Kept(r[0], v), WithValue(r[1..], v), WithValue(q[1..], v));
  }

  lemma {:induction false} SortedIsDeterminedByClasses(r: seq<Cell>, q: seq<Cell>)
    requires Sorted(r) && Sorted(q) && SameOrder(r, q)
    ensures r == q
    decreases |r|
  {
    SameOrderIsPermutation(r, q);
    if r != [] {
      SameHead(r, q);
      forall v
        ensures WithValue(r[1..], v) == WithValue(q[1..], v)
      {
        assert WithValue(r, v) == WithValue(q, v);
        SameTail(r, q, v);
      }
      SortedIsDeterminedByClasses(r[1..], q[1..]);
    }
  }

  ghost predicate OriginsIncrease(s: seq<Cell>) {
    forall i, j :: 0 <= i < j < |s| ==> s[i].origin < s[j].origin
  }

  /** Where `s[i]` stands among the cells of its own value. */
  lemma {:induction false} WithValueKeepsPairs(s: seq<Cell>, i: nat, j: nat)
    returns (a: nat, b: nat)
    requires i < j < |s| && s[i].value == s[j].value
    ensures a < b < |WithValue(s, s[i].value)|
    ensures WithValue(s, s[i].value)[a] == s[i] && WithValue(s, s[i].value)[b] == s[j]
  {
    var v := s[i].value;
    assert s == s[..i] + ([s[i]] + (s[i + 1..j] + ([s[j]] + s[j + 1..])));
    WithValueConcat(s[..i], [s[i]] + (s[i + 1..j] + ([s[j]] + s[j + 1..])), v);
    WithValueConcat([s[i]], s[i + 1..j] + ([s[j]] + s[j + 1..]), v);
    WithValueConcat(s[i + 1..j], [s[j]] + s[j + 1..], v);
    WithValueConcat([s[j]], s[j + 1..], v);
    a := |WithValue(s[..i], v)|;
    b := a + 1 + |WithValue(s[i + 1..j], v)|;
  }

  lemma {:induction false} WithValueOriginsIncrease(s: seq<Cell>, v: int)
    requires OriginsIncrease(s)
    ensures OriginsIncrease(WithValue(s, v))
    ensures forall k :: 0 <= k < |WithValue(s, v)| ==> WithValue(s, v)[k] in s
  {
    if s != [] {
      WithValueOriginsIncrease(s[1..], v);
    }
  }

  /** The familiar reading of stability: equal values leave in the order they came. */
  lemma StableSortKeepsOrigins(s: seq<Cell>, r: seq<Cell>, i: nat, j: nat)
    requires IsStableSort(s, r) && OriginsIncrease(s)
    requires i < j < |r| && r[i].value == r[j].value
    ensures r[i].origin < r[j].origin
  {
    var a, b := WithValueKeepsPairs(r, i, j);
    WithValueOriginsIncrease(s, r[i].value);
  }

  // ---------- one merge ----------

  /** The result of merging two runs; on a tie the left run goes first. */
  function Merged(xs: seq<Cell>, ys: seq<Cell>): (r: seq<Cell>)
    ensures |r| == |xs| + |ys|
  {
    if xs == [] then ys
    else if ys == [] then xs
    else if xs[0].value <= ys[0].value then [xs[0]] + Merged(xs[1..], ys)
    else [ys[0]] + Merged(xs, ys[1..])
  }

  lemma {:induction false} MergedElements(xs: seq<Cell>, ys: seq<Cell>)
    ensures forall c :: c in Merged(xs, ys) ==> c in xs || c in ys
    decreases |xs| + |ys|
  {
    if xs != [] && ys != [] {
      if xs[0].value <= ys[0].value {
        MergedElements(xs[1..], ys);
      } else {
        MergedElements(xs, ys[1..]);
      }
    }
  }

  lemma {:induction false} MergedSorted(xs: seq<Cell>, ys: seq<Cell>)
    requires Sorted(xs) && Sorted(ys)
    ensures Sorted(Merged(xs, ys))
    decreases |xs| + |ys|
  {
    if xs != [] && ys != [] {
      if xs[0].value <= ys[0].value {
        MergedSorted(xs[1..], ys);
        MergedElements(xs[1..], ys);
        SortedCons(xs[0], Merged(xs[1..], ys));
      } else {
        MergedSorted(xs, ys[1..]);
        MergedElements(xs, ys[1..]);
        SortedCons(ys[0], Merged(xs, ys[1..]));
      }
    }
  }

  lemma SortedCons(c: Cell, s: seq<Cell>)
    requires Sorted(s) && forall d :: d in s ==> c.value <= d.value
    ensures Sorted([c] + s)
  {
  }

  /** A merge keeps each value class in order, left run before right run. Only
      the left run has to be sorted for that. */
  lemma {:induction false} MergedStable(xs: seq<Cell>, ys: seq<Cell>, v: int)
    requires Sorted(xs)
    ensures WithValue(Merged(xs, ys), v) == WithValue(xs, v) + WithValue(ys, v)
    decreases |xs| + |ys|
  {
    if xs != [] && ys != [] {
      if xs[0].value <= ys[0].value {
        MergedStable(xs[1..], ys, v);
      } else {
        MergedStable(xs, ys[1..], v);
        WithValueEmpty(xs, v);
      }
    }
  }

  /** Merging stable sorts of two neighbouring pieces sorts the whole stably. */
  lemma MergeOfStableSorts(s: seq<Cell>, t: seq<Cell>, rs: seq<Cell>, rt: seq<Cell>)
    requires IsStableSort(s, rs) && IsStableSort(t, rt)
    ensures IsStableSort(s + t, Merged(rs, rt))
  {
    MergedSorted(rs, rt);
    forall v
      ensures WithValue(s + t, v) == WithValue(Merged(rs, rt), v)
    {
      WithValueConcat(s, t, v);
      MergedStable(rs, rt, v);
      assert WithValue(s, v) == WithValue(rs, v);
      assert WithValue(t, v) == WithValue(rt, v);
    }
  }

  // ---------- merge sort ----------

  /** Merge sort as both programs split it: the left part takes the middle cell
      of an odd-sized range. */
  function MergeSorted(s: seq<Cell>): (r: seq<Cell>)
    ensures |r| == |s|
  {
    if |s| <= 1 then s
    else
      var m := (|s| + 1) / 2;
      Merged(MergeSorted(s[..m]), MergeSorted(s[m..]))
  }

  lemma MergeSortedSplits(s: seq<Cell>, a: seq<Cell>, b: seq<Cell>)
    requires s == a + b && |s| > 1 && |a| == (|s| + 1) / 2
    ensures MergeSorted(s) == Merged(MergeSorted(a), MergeSorted(b))
  {
    assert s[..|a|] == a && s[|a|..] == b;
  }

  lemma {:induction false} MergeSortedIsStableSort(s: seq<Cell>)
    ensures IsStableSort(s, MergeSorted(s))
    decreases |s|
  {
    if |s| > 1 {
      var m := (|s| + 1) / 2;
      MergeSortedIsStableSort(s[..m]);
      MergeSortedIsStableSort(s[m..]);
      MergeOfStableSorts(s[..m], s[m..], MergeSorted(s[..m]), MergeSorted(s[m..]));
      assert s == s[..m] + s[m..];
    }
  }

  // ---------- comparisons ----------

  /** How often a merge evaluates `left[i] <= right[j]`. */
  function MergeTests(xs: seq<Cell>, ys: seq<Cell>): nat {
    if xs == [] || ys == [] then 0
    else if xs[0].value <= ys[0].value then 1 + MergeTests(xs[1..], ys)
    else 1 + MergeTests(xs, ys[1..])
  }

  lemma {:induction false} MergeTestsBound(xs: seq<Cell>, ys: seq<Cell>)
    ensures xs != [] && ys != [] ==> MergeTests(xs, ys) <= |xs| + |ys| - 1
    decreases |xs| + |ys|
  {
    if xs != [] && ys != [] {
      if xs[0].value <= ys[0].value {
        MergeTestsBound(xs[1..], ys);
      } else {
        MergeTestsBound(xs, ys[1..]);
      }
    }
  }

  function SortTests(s: seq<Cell>): nat {
    if |s| <= 1 then 0
    else
      var m := (|s| + 1) / 2;
      SortTests(s[..m]) + SortTests(s[m..])
      + MergeTests(MergeSorted(s[..m]), MergeSorted(s[m..]))
  }

  lemma SortTestsSplits(s: seq<Cell>, a: seq<Cell>, b: seq<Cell>)
    requires s == a + b && |s| > 1 && |a| == (|s| + 1) / 2
    ensures SortTests(s) == SortTests(a) + SortTests(b) + MergeTests(MergeSorted(a), MergeSorted(b))
  {
    assert s[..|a|] == a && s[|a|..] == b;
  }

  /** The most comparisons a merge sort of `n` cells can make. */
  function WorstTests(n: nat): nat {
    if n <= 1 then 0
    else WorstTests((n + 1) / 2) + WorstTests(n / 2) + n - 1
  }

  lemma {:induction false} SortTestsWithinWorst(s: seq<Cell>)
    ensures SortTests(s) <= WorstTests(|s|)
    decreases |s|
  {
    if |s| > 1 {
      var m := (|s| + 1) / 2;
      SortTestsWithinWorst(s[..m]);
      SortTestsWithinWorst(s[m..]);
      MergeTestsBound(MergeSorted(s[..m]), MergeSorted(s[m..]));
      assert |s[m..]| == |s| / 2;
    }
  }

  function Pow2(k: nat): (p: nat)
    ensures p >= 1
  {
    if k == 0 then 1 else 2 * Pow2(k - 1)
  }

  /** The logarithm of `n` to base 2, rounded up. */
  function CeilLog2(n: nat): (k: nat)
    ensures n >= 1 ==> n <= Pow2(k) <= 2 * n
    ensures n >= 2 ==> Pow2(k) <= 2 * n - 2
  {
    if n <= 1 then 0 else CeilLog2((n + 1) / 2) + 1
  }

  /** With `k` the logarithm of `n` rounded up, the worst case is n*k - 2^k + 1. */
  lemma {:induction false} WorstTestsClosedForm(n: nat, k: nat)
    requires n <= Pow2(k) <= 2 * n
    ensures WorstTests(n) == n * k - Pow2(k) + 1
    decreases n
  {
    if n > 1 {
      HalvesFit(n, k);
      WorstTestsClosedForm((n + 1) / 2, k - 1);
      WorstTestsClosedForm(n / 2, k - 1);
      SplitCost((n + 1) / 2, n / 2, k);
    } else {
      Pow2Exceeds(k);
    }
  }

  lemma {:induction false} Pow2Exceeds(k: nat)
    ensures Pow2(k) > k
  {
    if k > 0 {
      Pow2Exceeds(k - 1);
    }
  }

  lemma HalvesFit(n: nat, k: nat)
    requires n > 1 && n <= Pow2(k) <= 2 * n
    ensures k >= 1 && n / 2 <= (n + 1) / 2 <= Pow2(k - 1) <= 2 * (n / 2)
  {
    if k >= 2 {
      var quarter := Pow2(k - 2);
      assert Pow2(k - 1) == 2 * quarter && Pow2(k) == 2 * Pow2(k - 1);
      HalvesFitQuarters(n, quarter);
    }
  }

  lemma HalvesFitQuarters(n: nat, quarter: nat)
    requires n <= 4 * quarter <= 2 * n
    ensures n / 2 <= (n + 1) / 2 <= 2 * quarter <= 2 * (n / 2)
  {
  }

  lemma SplitCost(m: nat, n: nat, k: nat)
    ensures m * (k - 1) + n * (k - 1) == (m + n) * k - m - n
  {
  }

  /** The usual form of the bound, for every input: n times the rounded-up logarithm. */
  lemma SortTestsWithinNLogN(s: seq<Cell>)
    ensures SortTests(s) <= |s| * CeilLog2(|s|)
  {
    SortTestsWithinWorst(s);
    if |s| > 0 {
      WorstTestsClosedForm(|s|, CeilLog2(|s|));
    }
  }

  // ---------- the worst case happens ----------

  /** The cells at even and at odd positions. */
  function Evens(t: seq<Cell>): (r: seq<Cell>)
    ensures |r| == (|t| + 1) / 2
  {
    if t == [] then [] else [t[0]] + Odds(t[1..])
  }

  function Odds(t: seq<Cell>): (r: seq<Cell>)
    ensures |r| == |t| / 2
  {
    if t == [] then [] else Evens(t[1..])
  }

  ghost predicate Increasing(t: seq<Cell>) {
    forall i, j :: 0 <= i < j < |t| ==> t[i].value < t[j].value
  }

  /** Merging the two alternately takes a cell from either, so that neither is used up
      before the last comparison. */
  lemma {:induction false} MergeAlternates(t: seq<Cell>)
    requires Increasing(t)
    ensures Merged(Evens(t), Odds(t)) == t && MergeTests(Evens(t), Odds(t)) == (if |t| > 0 then |t| - 1 else 0)
    ensures Merged(Odds(t), Evens(t)) == t && MergeTests(Odds(t), Evens(t)) == (if |t| > 0 then |t| - 1 else 0)
  {
    if |t| > 1 {
      MergeAlternates(t[1..]);
      assert Odds(t)[0] == t[1];
      assert Evens(t)[1..] == Odds(t[1..]) && Odds(t) == Evens(t[1..]);
      assert t == [t[0]] + t[1..];
    }
  }

  /** The order in which a merge sort has most to do, for the sorted result `t`. */
  function Shuffled(t: seq<Cell>): (s: seq<Cell>)
    ensures |s| == |t|
    decreases |t|
  {
    if |t| <= 1 then t else Shuffled(Evens(t)) + Shuffled(Odds(t))
  }

  lemma {:induction false} EveryOther(t: seq<Cell>)
    ensures forall i :: 0 <= i < |Evens(t)| ==> Evens(t)[i] == t[2 * i]
    ensures forall i :: 0 <= i < |Odds(t)| ==> Odds(t)[i] == t[2 * i + 1]
  {
    if t != [] {
      EveryOther(t[1..]);
    }
  }

  lemma HalvesIncrease(t: seq<Cell>)
    requires Increasing(t)
    ensures Increasing(Evens(t)) && Increasing(Odds(t))
  {
    EveryOther(t);
  }

  lemma {:induction false} ShuffledIsWorst(t: seq<Cell>)
    requires Increasing(t)
    ensures MergeSorted(Shuffled(t)) == t && SortTests(Shuffled(t)) == WorstTests(|t|)
    decreases |t|
  {
    if |t| > 1 {
      HalvesIncrease(t);
      ShuffledIsWorst(Evens(t));
      ShuffledIsWorst(Odds(t));
      MergeAlternates(t);
      MergeSortedSplits(Shuffled(t), Shuffled(Evens(t)), Shuffled(Odds(t)));
      SortTestsSplits(Shuffled(t), Shuffled(Evens(t)), Shuffled(Odds(t)));
    }
  }

  /** So the bound is exact: for every length some input needs that many comparisons. */
  lemma WorstTestsAttained(n: nat) returns (s: seq<Cell>)
    ensures |s| == n && SortTests(s) == WorstTests(n)
  {
    var t := seq(n, i => Cell(i, i));
    s := Shuffled(t);
    ShuffledIsWorst(t);
  }
}
