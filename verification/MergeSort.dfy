/** The bottom-up list sort behind every sorted list in Lemon.  A linked list is the sequence of its nodes. */
module MergeSort {
  const LISTSIZE: nat := 30

  function Pow2(n: nat): (p: nat)
    ensures p > 0
  {
    if n == 0 then 1 else 2 * Pow2(n - 1)
  }

  /** A comparison function that orders any two nodes consistently; a negative or zero result keeps the order. */
  ghost predicate Ordering<T(!new)>(cmp: (T, T) -> int) {
    && (forall a, b :: cmp(a, b) <= 0 || cmp(b, a) <= 0)
    && (forall a, b, c :: cmp(a, b) <= 0 && cmp(b, c) <= 0 ==> cmp(a, c) <= 0)
  }

  ghost predicate Sorted<T>(cmp: (T, T) -> int, s: seq<T>) {
    forall i, j | 0 <= i < j < |s| :: cmp(s[i], s[j]) <= 0
  }

  /** The two lists interleaved; a node of `a` wins a tie. */
  function Merged<T>(cmp: (T, T) -> int, a: seq<T>, b: seq<T>): seq<T> {
    if a == [] then b
    else if b == [] then a
    else if cmp(a[0], b[0]) <= 0 then [a[0]] + Merged(cmp, a[1..], b)
    else [b[0]] + Merged(cmp, a, b[1..])
  }

  lemma {:induction false} MergedNodes<T>(cmp: (T, T) -> int, a: seq<T>, b: seq<T>)
    ensures multiset(Merged(cmp, a, b)) == multiset(a) + multiset(b) && |Merged(cmp, a, b)| == |a| + |b|
    decreases |a| + |b|
  {
    if a != [] && b != [] {
      assert a == [a[0]] + a[1..] && b == [b[0]] + b[1..];
      if cmp(a[0], b[0]) <= 0 {
        MergedNodes(cmp, a[1..], b);
      } else {
        MergedNodes(cmp, a, b[1..]);
      }
    }
  }

  lemma SortedTail<T(!new)>(cmp: (T, T) -> int, a: seq<T>)
    requires Sorted(cmp, a)
    ensures a != [] ==> Sorted(cmp, a[1..])
  {
  }

  lemma {:induction false} MergedSorted<T(!new)>(cmp: (T, T) -> int, a: seq<T>, b: seq<T>)
    requires Ordering(cmp) && Sorted(cmp, a) && Sorted(cmp, b)
    ensures Sorted(cmp, Merged(cmp, a, b))
    decreases |a| + |b|
  {
    hide Sorted;
    SortedTail(cmp, a);
    SortedTail(cmp, b);
    if a != [] && b != [] {
      if cmp(a[0], b[0]) <= 0 {
        MergedSorted(cmp, a[1..], b);
        MergedNodes(cmp, a[1..], b);
        forall y | y in Merged(cmp, a[1..], b) ensures cmp(a[0], y) <= 0 {
          assert y in multiset(Merged(cmp, a[1..], b));
          HeadBelow(cmp, a, b, y);
        }
        SortedCons(cmp, a[0], Merged(cmp, a[1..], b));
      } else {
        MergedSorted(cmp, a, b[1..]);
        MergedNodes(cmp, a, b[1..]);
        forall y | y in Merged(cmp, a, b[1..]) ensures cmp(b[0], y) <= 0 {
          assert y in multiset(Merged(cmp, a, b[1..]));
          HeadBelow(cmp, a, b, y);
        }
        SortedCons(cmp, b[0], Merged(cmp, a, b[1..]));
      }
    }
  }

  lemma SortedCons<T>(cmp: (T, T) -> int, x: T, rest: seq<T>)
    requires Sorted(cmp, rest) && forall y | y in rest :: cmp(x, y) <= 0
    ensures Sorted(cmp, [x] + rest)
  {
  }

  /** The smaller head may stand before any node of either sorted list. */
  lemma HeadBelow<T(!new)>(cmp: (T, T) -> int, a: seq<T>, b: seq<T>, y: T)
    requires Ordering(cmp) && Sorted(cmp, a) && Sorted(cmp, b) && a != [] && b != []
    requires y in a || y in b
    ensures cmp(if cmp(a[0], b[0]) <= 0 then a[0] else b[0], y) <= 0
  {
    assert cmp(a[0], a[0]) <= 0 && cmp(b[0], b[0]) <= 0;
    if y in a {
      var k :| 0 <= k < |a| && a[k] == y;
      assert cmp(a[0], y) <= 0;
    } else {
      var k :| 0 <= k < |b| && b[k] == y;
      assert cmp(b[0], y) <= 0;
    }
  }

  method Merge<T>(a: seq<T>, b: seq<T>, cmp: (T, T) -> int) returns (head: seq<T>)
    ensures head == Merged(cmp, a, b)
  {
    hide Merged;
    var i, j := 0, 0;
    head := [];
    while i < |a| && j < |b|
      invariant i <= |a| && j <= |b| && head + Merged(cmp, a[i..], b[j..]) == Merged(cmp, a, b)
    {
      MergeStep(cmp, a, b, i, j);
      if cmp(a[i], b[j]) <= 0 {
        head := head + [a[i]];
        i := i + 1;
      } else {
        head := head + [b[j]];
        j := j + 1;
      }
    }
    MergeRest(cmp, a[i..], b[j..]);
    head := head + if i < |a| then a[i..] else b[j..];
  }

  lemma MergeStep<T>(cmp: (T, T) -> int, a: seq<T>, b: seq<T>, i: nat, j: nat)
    requires i < |a| && j < |b|
    ensures Merged(cmp, a[i..], b[j..]) ==
              if cmp(a[i], b[j]) <= 0 then [a[i]] + Merged(cmp, a[i + 1..], b[j..])
                 else [b[j]] + Merged(cmp, a[i..], b[j + 1..])
  {
    assert a[i..][1..] == a[i + 1..] && b[j..][1..] == b[j + 1..];
  }

  lemma MergeRest<T>(cmp: (T, T) -> int, a: seq<T>, b: seq<T>)
    requires a == [] || b == []
    ensures Merged(cmp, a, b) == if a != [] then a else b
  {
  }

  // ----- the bins -----

  /** All nodes held in the bins, and how many they are. */
  ghost function Held<T>(bins: seq<seq<T>>): multiset<T> {
    if bins == [] then multiset{} else Held(bins[..|bins| - 1]) + multiset(bins[|bins| - 1])
  }

  ghost function Size<T>(bins: seq<seq<T>>): nat {
    if bins == [] then 0 else Size(bins[..|bins| - 1]) + |bins[|bins| - 1]|
  }

  /** Bin i is empty or holds a sorted list of exactly 2^i nodes. */
  ghost predicate BinsOk<T>(cmp: (T, T) -> int, bins: seq<seq<T>>) {
    forall i | 0 <= i < |bins| :: Sorted(cmp, bins[i]) && (bins[i] != [] ==> |bins[i]| == Pow2(i))
  }

  lemma {:induction false} HeldSize<T>(bins: seq<seq<T>>)
    ensures |Held(bins)| == Size(bins)
  {
    if bins != [] {
      HeldSize(bins[..|bins| - 1]);
    }
  }

  /** Replacing one bin changes what is held by exactly that bin. */
  lemma {:induction false} HeldUpdate<T>(bins: seq<seq<T>>, i: nat, bin: seq<T>)
    requires i < |bins|
    ensures Held(bins[i := bin]) + multiset(bins[i]) == Held(bins) + multiset(bin)
    ensures Size(bins[i := bin]) + |bins[i]| == Size(bins) + |bin|
  {
    var n := |bins| - 1;
    var bins' := bins[i := bin];
    if i == n {
      assert bins'[..n] == bins[..n];
    } else {
      HeldUpdate(bins[..n], i, bin);
      assert bins'[..n] == bins[..n][i := bin];
      assert bins[..n][i] == bins[i] && bins'[n] == bins[n];
      var h, h', last := Held(bins[..n]), Held(bins[..n][i := bin]), multiset(bins[n]);
      assert Held(bins') == h' + last && Held(bins) == h + last;
      assert h' + last + multiset(bins[i]) == h' + multiset(bins[i]) + last;
    }
  }

  /** The bins never hold 2^|bins| nodes, and one fewer only when every bin is in use. */
  lemma {:induction false} SizeBound<T>(cmp: (T, T) -> int, bins: seq<seq<T>>)
    requires BinsOk(cmp, bins)
    ensures Size(bins) < Pow2(|bins|)
    ensures (forall i | 0 <= i < |bins| :: bins[i] != []) <==> Size(bins) == Pow2(|bins|) - 1
  {
    if bins != [] {
      var n := |bins| - 1;
      SizeBound(cmp, bins[..n]);
      assert Pow2(|bins|) == 2 * Pow2(n);
      assert forall i | 0 <= i < n :: bins[..n][i] == bins[i];
    }
  }

  lemma {:induction false} HeldEmpty<T>(bins: seq<seq<T>>)
    requires forall i | 0 <= i < |bins| :: bins[i] == []
    ensures Held(bins) == multiset{} && Size(bins) == 0
  {
    if bins != [] {
      HeldEmpty(bins[..|bins| - 1]);
    }
  }

  /** One more list is added to bin `i` on: full bins are merged into it up to the first empty bin, or the last. */
  function Carry<T>(cmp: (T, T) -> int, bins: seq<seq<T>>, ep: seq<T>, i: nat): (bins': seq<seq<T>>)
    requires i < |bins|
    ensures |bins'| == |bins|
    decreases |bins| - i
  {
    if i == |bins| - 1 || bins[i] == [] then bins[i := ep]
    else Carry(cmp, bins[i := []], Merged(cmp, ep, bins[i]), i + 1)
  }

  lemma SortedNothing<T>(cmp: (T, T) -> int)
    ensures Sorted(cmp, [])
  {
  }

  lemma {:induction false} CarryOk<T(!new)>(cmp: (T, T) -> int, bins: seq<seq<T>>, ep: seq<T>, i: nat)
    requires Ordering(cmp) && BinsOk(cmp, bins) && i < |bins| && Sorted(cmp, ep) && |ep| == Pow2(i)
    ensures BinsOk(cmp, Carry(cmp, bins, ep, i))
    decreases |bins| - i
  {
    hide Merged, Ordering, Sorted;
    if i < |bins| - 1 && bins[i] != [] {
      MergedSorted(cmp, ep, bins[i]);
      assert |Merged(cmp, ep, bins[i])| == Pow2(i + 1) by { MergedNodes(cmp, ep, bins[i]); }
      assert Sorted(cmp, []) by { SortedNothing(cmp); }
      CarryOk(cmp, bins[i := []], Merged(cmp, ep, bins[i]), i + 1);
    }
  }

  /** A carry loses nodes only if it runs into a last bin that is in use. */
  lemma {:induction false} CarryKeeps<T>(cmp: (T, T) -> int, bins: seq<seq<T>>, ep: seq<T>, i: nat)
    requires i < |bins|
    requires exists k :: i <= k < |bins| && bins[k] == []
    ensures Held(Carry(cmp, bins, ep, i)) == Held(bins) + multiset(ep)
    decreases |bins| - i
  {
    if i < |bins| - 1 && bins[i] != [] {
      var bins', ep' := bins[i := []], Merged(cmp, ep, bins[i]);
      var k :| i <= k < |bins| && bins[k] == [];
      assert bins'[k] == [];
      CarryKeeps(cmp, bins', ep', i + 1);
      MergedNodes(cmp, ep, bins[i]);
      HeldUpdate(bins, i, []);
      assert Held(bins) == Held(bins') + multiset(bins[i]);
    } else {
      HeldUpdate(bins, i, ep);
    }
  }

  method Place<T>(node: T, bins: array<seq<T>>, cmp: (T, T) -> int)
    requires bins.Length == LISTSIZE
    modifies bins
    ensures bins[..] == Carry(cmp, old(bins[..]), [node], 0)
  {
    var ep := [node];
    var i := 0;
    while i < LISTSIZE - 1 && bins[i] != []
      invariant i < LISTSIZE
      invariant Carry(cmp, bins[..], ep, i) == Carry(cmp, old(bins[..]), [node], 0)
    {
      ghost var was := bins[..];
      ep := Merge(ep, bins[i], cmp);
      bins[i] := [];
      assert bins[..] == was[i := []];
      i := i + 1;
    }
    ghost var was := bins[..];
    bins[i] := ep;
    assert bins[..] == was[i := ep];
  }

  /** The bins merged together, lowest first. */
  function Collect<T>(cmp: (T, T) -> int, bins: seq<seq<T>>): seq<T> {
    if bins == [] then []
    else Merged(cmp, bins[|bins| - 1], Collect(cmp, bins[..|bins| - 1]))
  }

  lemma {:induction false} CollectOk<T(!new)>(cmp: (T, T) -> int, bins: seq<seq<T>>)
    requires Ordering(cmp) && forall i | 0 <= i < |bins| :: Sorted(cmp, bins[i])
    ensures Sorted(cmp, Collect(cmp, bins)) && multiset(Collect(cmp, bins)) == Held(bins)
  {
    if bins != [] {
      var n := |bins| - 1;
      CollectOk(cmp, bins[..n]);
      MergedSorted(cmp, bins[n], Collect(cmp, bins[..n]));
      MergedNodes(cmp, bins[n], Collect(cmp, bins[..n]));
    }
  }

  /** What one more node does to well-formed bins: nothing is lost while fewer than 2^30 - 1 nodes are held. */
  lemma PlaceOk<T(!new)>(cmp: (T, T) -> int, bins: seq<seq<T>>, node: T)
    requires Ordering(cmp) && BinsOk(cmp, bins) && |bins| == LISTSIZE
    ensures BinsOk(cmp, Carry(cmp, bins, [node], 0))
    ensures |Held(bins)| < Pow2(LISTSIZE) - 1 ==> Held(Carry(cmp, bins, [node], 0)) == Held(bins) + multiset{node}
  {
    CarryOk(cmp, bins, [node], 0);
    HeldSize(bins);
    SizeBound(cmp, bins);
    if Size(bins) < Pow2(LISTSIZE) - 1 {
      CarryKeeps(cmp, bins, [node], 0);
    }
  }

  /** The bins after all nodes of a list have been placed. */
  function Filled<T>(cmp: (T, T) -> int, list: seq<T>): (bins: seq<seq<T>>)
    ensures |bins| == LISTSIZE
  {
    if list == [] then seq(LISTSIZE, _ => [])
    else Carry(cmp, Filled(cmp, list[..|list| - 1]), [list[|list| - 1]], 0)
  }

  lemma {:induction false} FilledOk<T(!new)>(cmp: (T, T) -> int, list: seq<T>)
    requires Ordering(cmp)
    ensures BinsOk(cmp, Filled(cmp, list))
    ensures |list| < Pow2(LISTSIZE) ==> Held(Filled(cmp, list)) == multiset(list)
  {
    hide Pow2, Ordering, BinsOk, Held, Carry;
    if list == [] {
      HeldEmpty(Filled(cmp, list));
      EmptyOk(cmp, Filled(cmp, list));
    } else {
      var n := |list| - 1;
      FilledOk(cmp, list[..n]);
      PlaceOk(cmp, Filled(cmp, list[..n]), list[n]);
      LastNode(list);
    }
  }

  lemma EmptyOk<T(!new)>(cmp: (T, T) -> int, bins: seq<seq<T>>)
    requires |bins| == LISTSIZE && forall i | 0 <= i < |bins| :: bins[i] == []
    ensures BinsOk(cmp, bins)
  {
  }

  lemma LastNode<T>(list: seq<T>)
    requires list != []
    ensures var n := |list| - 1; |multiset(list[..n])| == n && multiset(list) == multiset(list[..n]) + multiset{list[n]}
  {
    var n := |list| - 1;
    assert list == list[..n] + [list[n]];
    assert |multiset(list[..n])| == n;
  }

  lemma SortResult<T(!new)>(cmp: (T, T) -> int, list: seq<T>)
    requires Ordering(cmp)
    ensures var r := Collect(cmp, Filled(cmp, list));
            Sorted(cmp, r) && (|list| < Pow2(LISTSIZE) <==> multiset(r) == multiset(list))
  {
    var bins := Filled(cmp, list);
    FilledOk(cmp, list);
    CollectOk(cmp, bins);
    HeldSize(bins);
    SizeBound(cmp, bins);
    assert |multiset(list)| == |list|;
  }

  /** msort keeps every node exactly for lists of fewer than 2^30 nodes: the last bin is overwritten beyond that. */
  method MSort<T(!new, ==)>(list: seq<T>, cmp: (T, T) -> int) returns (r: seq<T>)
    requires Ordering(cmp)
    ensures Sorted(cmp, r)
    ensures |list| < 0x4000_0000 <==> multiset(r) == multiset(list)
    ensures r == Collect(cmp, Filled(cmp, list))
  {
    var bins := new seq<T>[LISTSIZE](_ => []);
    assert bins[..] == Filled(cmp, list[..0]);
    var next := 0;
    while next < |list|
      invariant next <= |list| && bins[..] == Filled(cmp, list[..next])
    {
      Place(list[next], bins, cmp);
      assert list[..next + 1][..next] == list[..next];
      next := next + 1;
    }
    assert list[..next] == list;
    r := [];
    for i := 0 to LISTSIZE
      invariant bins[..] == Filled(cmp, list) && r == Collect(cmp, bins[..i])
    {
      assert bins[..i + 1][..i] == bins[..i];
      r := Merge(bins[i], r, cmp);
    }
    assert bins[..LISTSIZE] == bins[..];
    SortResult(cmp, list);
    ThirtyBins();
  }

  lemma ThirtyBins()
    ensures Pow2(LISTSIZE) == 0x4000_0000
  {
    assert Pow2(10) == 1024;
    PowSum(10, 10);
    PowSum(20, 10);
  }

  lemma {:induction false} PowSum(a: nat, b: nat)
    ensures Pow2(a + b) == Pow2(a) * Pow2(b)
    decreases a
  {
    if a > 0 { PowSum(a - 1, b); }
  }
}
