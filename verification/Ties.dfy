/** In what order msort leaves the nodes that compare equal. */
module Ties {
  import opened MergeSort

  /** The nodes of `s` that compare equal to `x`, in their order. */
  function Tied<T>(cmp: (T, T) -> int, s: seq<T>, x: T): seq<T> {
    if s == [] then []
    else (if cmp(s[0], x) <= 0 && cmp(x, s[0]) <= 0 then [s[0]] else []) + Tied(cmp, s[1..], x)
  }

  function Reversed<T>(s: seq<T>): seq<T> {
    if s == [] then [] else Reversed(s[1..]) + [s[0]]
  }

  /** The largest power of two that is at most `n`. */
  function Block(n: nat): (p: nat)
    requires n > 0
    ensures 1 <= p <= n < 2 * p
  {
    if n == 1 then 1 else 2 * Block(n / 2)
  }

  /** A list cut into blocks whose sizes are the powers of two that make up its length, the largest first, each
      turned round. */
  function InBlocks<T>(list: seq<T>): seq<T>
    decreases |list|
  {
    if list == [] then []
    else var p := Block(|list|); Reversed(list[..p]) + InBlocks(list[p..])
  }

  lemma {:induction false} TiedConcat<T>(cmp: (T, T) -> int, a: seq<T>, b: seq<T>, x: T)
    ensures Tied(cmp, a + b, x) == Tied(cmp, a, x) + Tied(cmp, b, x)
    decreases |a|
  {
    if a == [] {
      assert a + b == b;
    } else {
      assert (a + b)[1..] == a[1..] + b;
      TiedConcat(cmp, a[1..], b, x);
    }
  }

  /** Merging keeps the order of equal nodes, those of the first list first. */
  lemma {:induction false} TiedMerged<T(!new)>(cmp: (T, T) -> int, a: seq<T>, b: seq<T>, x: T)
    requires Ordering(cmp) && Sorted(cmp, a) && Sorted(cmp, b)
    ensures Tied(cmp, Merged(cmp, a, b), x) == Tied(cmp, a, x) + Tied(cmp, b, x)
    decreases |a| + |b|
  {
    hide Sorted;
    if a != [] && b != [] {
      SortedTail(cmp, a);
      SortedTail(cmp, b);
      if cmp(a[0], b[0]) <= 0 {
        TiedMerged(cmp, a[1..], b, x);
        assert Merged(cmp, a, b)[1..] == Merged(cmp, a[1..], b);
      } else {
        TiedMerged(cmp, a, b[1..], x);
        assert Merged(cmp, a, b)[1..] == Merged(cmp, a, b[1..]);
        if cmp(b[0], x) <= 0 && cmp(x, b[0]) <= 0 { NoneTied(cmp, a, b[0], x); }
      }
    }
  }

  /** Nothing in `a` equals what stands strictly before its first node. */
  lemma NoneTied<T(!new)>(cmp: (T, T) -> int, a: seq<T>, y: T, x: T)
    requires Ordering(cmp) && Sorted(cmp, a) && a != [] && cmp(a[0], y) > 0 && cmp(y, x) <= 0 && cmp(x, y) <= 0
    ensures Tied(cmp, a, x) == []
  {
    forall k | 0 <= k < |a| ensures !(cmp(a[k], x) <= 0) {
      assert k == 0 || cmp(a[0], a[k]) <= 0;
      assert cmp(a[0], a[0]) <= 0;
    }
    NothingTied(cmp, a, x);
  }

  lemma {:induction false} NothingTied<T>(cmp: (T, T) -> int, a: seq<T>, x: T)
    requires forall k | 0 <= k < |a| :: !(cmp(a[k], x) <= 0 && cmp(x, a[k]) <= 0)
    ensures Tied(cmp, a, x) == []
    decreases |a|
  {
    if a != [] { NothingTied(cmp, a[1..], x); }
  }

  // ----- the bins, if nothing were compared -----

  /** The comparison by which all nodes are equal. */
  function Same<T>(): (T, T) -> int {
    (a, b) => 0
  }

  lemma {:induction false} MergedSame<T>(a: seq<T>, b: seq<T>)
    ensures Merged(Same(), a, b) == a + b
    decreases |a| + |b|
  {
    if a != [] && b != [] { MergedSame(a[1..], b); }
  }

  /** Bin for bin the equal nodes are in the same order. */
  ghost predicate Alike<T(!new)>(cmp: (T, T) -> int, a: seq<seq<T>>, b: seq<seq<T>>, x: T) {
    |a| == |b| && (forall i | 0 <= i < |a| :: Tied(cmp, a[i], x) == Tied(cmp, b[i], x) && (a[i] == [] <==> b[i] == []))
  }

  lemma {:induction false} CarryAlike<T(!new)>(cmp: (T, T) -> int, a: seq<seq<T>>, b: seq<seq<T>>, c: seq<T>, d: seq<T>,
                                               i: nat, x: T)
    requires Ordering(cmp) && Alike(cmp, a, b, x) && i < |a| && Sorted(cmp, c)
             && forall k | 0 <= k < |a| :: Sorted(cmp, a[k])
    requires Tied(cmp, c, x) == Tied(cmp, d, x) && c != [] && d != []
    ensures Alike(cmp, Carry(cmp, a, c, i), Carry(Same(), b, d, i), x)
    decreases |a| - i
  {
    hide Ordering, Sorted, Tied, Merged;
    if i < |a| - 1 && a[i] != [] {
      TiedMerged(cmp, c, a[i], x);
      MergedSame(d, b[i]);
      TiedConcat(cmp, d, b[i], x);
      MergedSorted(cmp, c, a[i]);
      MergedNodes(cmp, c, a[i]);
      SortedNothing(cmp);
      CarryAlike(cmp, a[i := []], b[i := []], Merged(cmp, c, a[i]), d + b[i], i + 1, x);
    }
  }

  lemma {:induction false} FilledAlike<T(!new)>(cmp: (T, T) -> int, list: seq<T>, x: T)
    requires Ordering(cmp)
    ensures Alike(cmp, Filled(cmp, list), Filled(Same(), list), x)
    decreases |list|
  {
    hide Carry, Tied, Ordering;
    if list != [] {
      var n := |list| - 1;
      FilledAlike(cmp, list[..n], x);
      FilledOk(cmp, list[..n]);
      OneSorted(cmp, list[n]);
      CarryAlike(cmp, Filled(cmp, list[..n]), Filled(Same(), list[..n]), [list[n]], [list[n]], 0, x);
    }
  }

  lemma OneSorted<T>(cmp: (T, T) -> int, x: T)
    ensures Sorted(cmp, [x])
  {
  }

  lemma {:induction false} CollectAlike<T(!new)>(cmp: (T, T) -> int, a: seq<seq<T>>, b: seq<seq<T>>, x: T)
    requires Ordering(cmp) && Alike(cmp, a, b, x) && forall k | 0 <= k < |a| :: Sorted(cmp, a[k])
    ensures Tied(cmp, Collect(cmp, a), x) == Tied(cmp, Collect(Same(), b), x)
    decreases |a|
  {
    hide Ordering, Sorted, Tied, Merged;
    if a != [] {
      var n := |a| - 1;
      CollectAlike(cmp, a[..n], b[..n], x);
      CollectOk(cmp, a[..n]);
      TiedMerged(cmp, a[n], Collect(cmp, a[..n]), x);
      MergedSame(b[n], Collect(Same(), b[..n]));
      TiedConcat(cmp, b[n], Collect(Same(), b[..n]), x);
    }
  }

  // ----- and where they are then -----

  /** The bins for a list of fewer than 2^m nodes. */
  function BinsOf<T>(list: seq<T>, m: nat): (bins: seq<seq<T>>)
    requires |list| < Pow2(m)
    ensures |bins| == m
  {
    if m == 0 then []
    else if |list| < Pow2(m - 1) then BinsOf(list, m - 1) + [[]]
    else BinsOf(list[Pow2(m - 1)..], m - 1) + [Reversed(list[..Pow2(m - 1)])]
  }

  /** All bins are in use exactly for a list of 2^m - 1 nodes. */
  lemma {:induction false} BinsFull<T>(list: seq<T>, m: nat)
    requires |list| < Pow2(m)
    ensures |list| == Pow2(m) - 1 <==> forall i | 0 <= i < m :: BinsOf(list, m)[i] != []
    decreases m
  {
    if m > 0 {
      var p := Pow2(m - 1);
      if |list| < p {
        assert BinsOf(list, m)[m - 1] == [];
      } else {
        BinsFull(list[p..], m - 1);
        var lower := BinsOf(list[p..], m - 1);
        assert Reversed(list[..p]) != [] by { ReversedSize(list[..p]); }
        assert forall i | 0 <= i < m - 1 :: BinsOf(list, m)[i] == lower[i];
      }
    }
  }

  lemma {:induction false} ReversedSize<T>(s: seq<T>)
    ensures |Reversed(s)| == |s|
    decreases |s|
  {
    if s != [] { ReversedSize(s[1..]); }
  }

  lemma {:induction false} ReversedConcat<T>(a: seq<T>, b: seq<T>)
    ensures Reversed(a + b) == Reversed(b) + Reversed(a)
    decreases |a|
  {
    if a == [] {
      assert a + b == b;
    } else {
      assert (a + b)[1..] == a[1..] + b;
      ReversedConcat(a[1..], b);
    }
  }

  /** A bin behind one that is empty is not reached. */
  lemma {:induction false} CarryBelow<T>(bins: seq<seq<T>>, last: seq<T>, ep: seq<T>, i: nat)
    requires i < |bins| && exists k :: i <= k < |bins| && bins[k] == []
    ensures Carry(Same(), bins + [last], ep, i) == Carry(Same(), bins, ep, i) + [last]
    decreases |bins| - i
  {
    hide Merged;
    if bins[i] == [] {
      assert (bins + [last])[i := ep] == bins[i := ep] + [last];
    } else {
      var k :| i <= k < |bins| && bins[k] == [];
      assert bins[i := []][k] == [];
      CarryBelow(bins[i := []], last, Merged(Same(), ep, bins[i]), i + 1);
      assert (bins + [last])[i := []] == bins[i := []] + [last];
    }
  }

  function Empty<T>(m: nat): (bins: seq<seq<T>>)
    ensures |bins| == m && forall k | 0 <= k < m :: bins[k] == []
  {
    seq(m, _ => [])
  }

  /** All the bins together, the highest first. */
  function Down<T>(bins: seq<seq<T>>): seq<T> {
    if bins == [] then [] else bins[|bins| - 1] + Down(bins[..|bins| - 1])
  }

  /** From full bins everything goes into the empty one behind them. */
  lemma {:induction false} CarryThrough<T>(bins: seq<seq<T>>, ep: seq<T>, i: nat)
    requires i < |bins| && bins[|bins| - 1] == []
    requires (forall k | 0 <= k < i :: bins[k] == []) && forall k | i <= k < |bins| - 1 :: bins[k] != []
    ensures Carry(Same(), bins, ep, i) == Empty(|bins| - 1) + [ep + Up(bins[i..|bins| - 1])]
    decreases |bins| - i
  {
    var n := |bins| - 1;
    if i == n {
      assert bins[i..n] == [] && ep + Up(bins[i..n]) == ep;
      assert bins[i := ep] == Empty(n) + [ep];
    } else {
      MergedSame(ep, bins[i]);
      CarryThrough(bins[i := []], ep + bins[i], i + 1);
      assert bins[i := []][i + 1..n] == bins[i + 1..n] == bins[i..n][1..];
      assert ep + bins[i] + Up(bins[i + 1..n]) == ep + Up(bins[i..n]);
    }
  }

  /** All the bins together, the lowest first. */
  function Up<T>(bins: seq<seq<T>>): seq<T> {
    if bins == [] then [] else bins[0] + Up(bins[1..])
  }

  lemma {:induction false} UpLast<T>(bins: seq<seq<T>>, last: seq<T>)
    ensures Up(bins + [last]) == Up(bins) + last
    decreases |bins|
  {
    if bins == [] {
      assert bins + [last] == [last] && [last][1..] == [];
      assert Up([last]) == last;
    } else {
      assert (bins + [last])[1..] == bins[1..] + [last];
      UpLast(bins[1..], last);
    }
  }

  /** Full bins from the lowest on are the list turned round. */
  lemma {:induction false} UpOf<T>(list: seq<T>, m: nat)
    requires |list| < Pow2(m)
    ensures Up(BinsOf(list, m)) == Reversed(list)
    decreases m
  {
    if m == 0 {
      assert list == [];
    } else {
      var p := Pow2(m - 1);
      if |list| < p {
        UpOf(list, m - 1);
        UpLast(BinsOf(list, m - 1), []);
      } else {
        UpOf(list[p..], m - 1);
        UpLast(BinsOf(list[p..], m - 1), Reversed(list[..p]));
        ReversedConcat(list[..p], list[p..]);
        assert list == list[..p] + list[p..];
      }
    }
  }

  /** One node more. */
  lemma {:induction false} CarryBins<T>(list: seq<T>, x: T, m: nat)
    requires |list| + 1 < Pow2(m)
    ensures m > 0 && Carry(Same(), BinsOf(list, m), [x], 0) == BinsOf(list + [x], m)
    decreases m, 0
  {
    var p := Pow2(m - 1);
    var list' := list + [x];
    if |list| >= p {
      assert list'[p..] == list[p..] + [x] && list'[..p] == list[..p];
      CarryLower(list[p..], Reversed(list[..p]), x, m - 1);
    } else if |list| + 1 < p {
      CarryLower(list, [], x, m - 1);
    } else {
      var bins := BinsOf(list, m - 1) + [[]];
      BinsFull(list, m - 1);
      assert forall k | 0 <= k < m - 1 :: bins[k] == BinsOf(list, m - 1)[k];
      CarryThrough(bins, [x], 0);
      assert bins[0..m - 1] == BinsOf(list, m - 1);
      UpOf(list, m - 1);
      ReversedConcat(list, [x]);
      assert Reversed([x]) == [x] by { assert [x][1..] == []; }
      assert list'[..p] == list' && list'[p..] == [];
      NoBins<T>([], m - 1);
    }
  }

  lemma CarryLower<T>(list: seq<T>, last: seq<T>, x: T, m: nat)
    requires |list| + 1 < Pow2(m)
    ensures Carry(Same(), BinsOf(list, m) + [last], [x], 0) == BinsOf(list + [x], m) + [last]
    decreases m, 1
  {
    CarryBins(list, x, m);
    BinsFull(list, m);
    hide BinsOf, Carry, Pow2;
    var k :| 0 <= k < m && BinsOf(list, m)[k] == [];
    CarryBelow(BinsOf(list, m), last, [x], 0);
  }

  lemma {:induction false} NoBins<T>(list: seq<T>, m: nat)
    requires list == []
    ensures Pow2(m) > 0 && BinsOf(list, m) == Empty(m)
    decreases m
  {
    if m > 0 { NoBins(list, m - 1); }
  }

  lemma {:induction false} FilledBins<T>(list: seq<T>)
    requires |list| < Pow2(LISTSIZE)
    ensures Filled(Same(), list) == BinsOf(list, LISTSIZE)
    decreases |list|
  {
    hide Carry, BinsOf, Pow2;
    if list == [] {
      NoBins(list, LISTSIZE);
    } else {
      var n := |list| - 1;
      FilledBins(list[..n]);
      CarryBins(list[..n], list[n], LISTSIZE);
      assert list == list[..n] + [list[n]];
    }
  }

  lemma CollectLast<T>(bins: seq<seq<T>>, last: seq<T>)
    ensures Collect(Same(), bins + [last]) == last + Collect(Same(), bins)
  {
    assert (bins + [last])[..|bins|] == bins;
    hide Merged;
    MergedSame(last, Collect(Same(), bins));
  }

  lemma {:induction false} CollectBins<T>(list: seq<T>, m: nat)
    requires |list| < Pow2(m)
    ensures Collect(Same(), BinsOf(list, m)) == InBlocks(list)
    decreases m
  {
    hide Collect, Reversed, Merged;
    if m == 0 {
      assert list == [];
      NothingCollected<T>();
    } else {
      var p := Pow2(m - 1);
      if |list| < p {
        CollectBins(list, m - 1);
        CollectLast(BinsOf(list, m - 1), []);
      } else {
        CollectBins(list[p..], m - 1);
        BlockIs(|list|, m - 1);
        CollectLast(BinsOf(list[p..], m - 1), Reversed(list[..p]));
      }
    }
  }

  lemma NothingCollected<T>()
    ensures Collect<T>(Same(), []) == []
  {
  }

  lemma {:induction false} BlockIs(n: nat, m: nat)
    requires Pow2(m) <= n < 2 * Pow2(m)
    ensures Block(n) == Pow2(m)
    decreases m
  {
    if n > 1 { BlockIs(n / 2, m - 1); }
  }

  /** Nodes that compare equal come out as the blocks say: those of an earlier block first, and within a block the
      later one first. With the order this determines the sorted list. */
  lemma TiesInBlocks<T(!new)>(cmp: (T, T) -> int, list: seq<T>, x: T)
    requires Ordering(cmp) && |list| < 0x4000_0000
    ensures Tied(cmp, Collect(cmp, Filled(cmp, list)), x) == Tied(cmp, InBlocks(list), x)
  {
    ThirtyBins();
    FilledAlike(cmp, list, x);
    FilledOk(cmp, list);
    CollectAlike(cmp, Filled(cmp, list), Filled(Same(), list), x);
    FilledBins(list);
    CollectBins(list, LISTSIZE);
  }

  /** Sorted lists with the same equal nodes in the same order are the same, so TiesInBlocks and the order say all. */
  lemma {:induction false} SortedDetermined<T(!new)>(cmp: (T, T) -> int, a: seq<T>, b: seq<T>)
    requires Ordering(cmp) && Sorted(cmp, a) && Sorted(cmp, b) && forall x :: Tied(cmp, a, x) == Tied(cmp, b, x)
    ensures a == b
    decreases |a|
  {
    hide Sorted, Ordering;
    if a == [] || b == [] {
      if b != [] { SomeTied(cmp, a, b); }
      if a != [] { SomeTied(cmp, b, a); }
    } else {
      SomeTied(cmp, a, b);
      SomeTied(cmp, b, a);
      SortedTail(cmp, a);
      SortedTail(cmp, b);
      assert Tied(cmp, a, a[0]) == Tied(cmp, b, a[0]);
      Reflexive(cmp, a[0]);
      assert Tied(cmp, a, a[0])[0] == a[0] && Tied(cmp, b, a[0])[0] == b[0];
      forall x ensures Tied(cmp, a[1..], x) == Tied(cmp, b[1..], x) { SameTails(cmp, a, b, x); }
      SortedDetermined(cmp, a[1..], b[1..]);
    }
  }

  lemma Reflexive<T(!new)>(cmp: (T, T) -> int, x: T)
    requires Ordering(cmp)
    ensures cmp(x, x) <= 0
  {
  }

  lemma SameTails<T>(cmp: (T, T) -> int, a: seq<T>, b: seq<T>, x: T)
    requires a != [] && b != [] && a[0] == b[0] && Tied(cmp, a, x) == Tied(cmp, b, x)
    ensures Tied(cmp, a[1..], x) == Tied(cmp, b[1..], x)
  {
    var n := if cmp(a[0], x) <= 0 && cmp(x, a[0]) <= 0 then 1 else 0;
    assert Tied(cmp, a, x)[n..] == Tied(cmp, a[1..], x) && Tied(cmp, b, x)[n..] == Tied(cmp, b[1..], x);
  }

  /** The first node of `b` has an equal in `a`, so that the first of `a` may stand before it. */
  lemma SomeTied<T(!new)>(cmp: (T, T) -> int, a: seq<T>, b: seq<T>)
    requires Ordering(cmp) && Sorted(cmp, a) && b != [] && Tied(cmp, a, b[0]) == Tied(cmp, b, b[0])
    ensures a != [] && cmp(a[0], b[0]) <= 0
  {
    assert cmp(b[0], b[0]) <= 0;
    assert Tied(cmp, b, b[0]) != [];
    if forall k | 0 <= k < |a| :: !(cmp(a[k], b[0]) <= 0 && cmp(b[0], a[k]) <= 0) {
      NothingTied(cmp, a, b[0]);
    }
    var k :| 0 <= k < |a| && cmp(a[k], b[0]) <= 0 && cmp(b[0], a[k]) <= 0;
    assert k == 0 || cmp(a[0], a[k]) <= 0;
  }
}
