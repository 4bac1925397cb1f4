/** The acttab module: all per-state action lists packed into one overlapping array. */
module ActtabModule {

  /** One slot of the yy_action table under construction; an empty slot has lookahead -1. */
  datatype LookaheadAction = LA(lookahead: int, action: int)

  /** A transaction: the actions of one state, each on a different lookahead. */
  ghost predicate Transaction(t: seq<LookaheadAction>) {
    && (forall j | 0 <= j < |t| :: t[j].lookahead >= 0)
    && (forall j, k | 0 <= j < k < |t| :: t[j].lookahead != t[k].lookahead)
  }

  /** The first `n` slots are in use, up to and including the last of them; all others are empty. */
  ghost predicate SlotsOk(slots: seq<LookaheadAction>, n: nat) {
    && n <= |slots| && (n > 0 ==> slots[n - 1].lookahead >= 0)
    && (forall k | 0 <= k < |slots| :: slots[k].lookahead >= -1)
    && (forall k | n <= k < |slots| :: slots[k] == LA(-1, -1))
  }

  /** Looking up any lookahead at offset `o` finds exactly the transaction. */
  ghost predicate Exact(slots: seq<LookaheadAction>, n: nat, o: int, t: seq<LookaheadAction>)
    requires n <= |slots|
  {
    && (forall j | 0 <= j < |t| :: 0 <= o + t[j].lookahead < n && slots[o + t[j].lookahead] == t[j])
    && (forall k | 0 <= k < n && Points(slots, k, o) :: slots[k] in t)
  }

  /** Looking up a lookahead of the transaction at offset `o` finds its action. */
  ghost predicate Found(slots: seq<LookaheadAction>, n: nat, o: int, t: seq<LookaheadAction>)
    requires n <= |slots|
  {
    forall j | 0 <= j < |t| :: 0 <= o + t[j].lookahead < n && slots[o + t[j].lookahead] == t[j]
  }

  /** Slot `k` is found when its own lookahead is looked up at offset `o`. */
  ghost predicate Points(slots: seq<LookaheadAction>, k: int, o: int) {
    0 <= k < |slots| && slots[k].lookahead >= 0 && k - slots[k].lookahead == o
  }

  /** No slot in use is found at offset `o`. */
  ghost predicate NoAlias(slots: seq<LookaheadAction>, n: nat, o: int)
    requires n <= |slots|
  {
    forall k | 0 <= k < n :: !Points(slots, k, o)
  }

  /** All slots that the transaction takes at offset `o` are free. */
  ghost predicate Free(slots: seq<LookaheadAction>, n: nat, o: int, t: seq<LookaheadAction>)
    requires n <= |slots|
  {
    forall j | 0 <= j < |t| :: 0 <= o + t[j].lookahead
        && (o + t[j].lookahead < n ==> slots[o + t[j].lookahead].lookahead < 0)
  }

  /** The condition on which the hole scan stops: slots free, and no slot, not even an empty one, has the lookahead that
      would be looked up there. */
  ghost predicate Hole(slots: seq<LookaheadAction>, n: nat, o: int, t: seq<LookaheadAction>)
    requires n <= |slots|
  {
    Free(slots, n, o, t) && NotLookedUp(slots, n, o)
  }

  ghost predicate NotLookedUp(slots: seq<LookaheadAction>, n: nat, o: int)
    requires n <= |slots|
  {
    forall k | 0 <= k < n :: slots[k].lookahead != k - o
  }

  /** The table after the transaction has been written at offset `o`. */
  ghost predicate Written(slots: seq<LookaheadAction>, n: nat, o: int, t: seq<LookaheadAction>,
                          slots': seq<LookaheadAction>, n': nat)
    requires n <= |slots|
  {
    && n <= n' <= |slots'|
    && (forall j | 0 <= j < |t| :: 0 <= o + t[j].lookahead < n' && slots'[o + t[j].lookahead] == t[j])
    && (forall k | 0 <= k < n' && (forall j | 0 <= j < |t| :: k != o + t[j].lookahead) ::
          slots'[k] == if k < n then slots[k] else LA(-1, -1))
  }

  /** A slot after writing is one of the transaction's, or as it was. */
  lemma WrittenSlot(slots: seq<LookaheadAction>, n: nat, o: int, t: seq<LookaheadAction>,
                    slots': seq<LookaheadAction>, n': nat, k: nat)
    requires n <= |slots| && Transaction(t) && Written(slots, n, o, t, slots', n') && k < n'
    ensures (slots'[k] in t && Points(slots', k, o)) || slots'[k] == if k < n then slots[k] else LA(-1, -1)
  {
    if j :| 0 <= j < |t| && k == o + t[j].lookahead {
      assert slots'[k] == t[j];
    }
  }

  /** Later insertions never disturb earlier ones at other offsets. */
  lemma OthersUndisturbed(slots: seq<LookaheadAction>, n: nat, o: int, t: seq<LookaheadAction>,
                          slots': seq<LookaheadAction>, n': nat, p: int, u: seq<LookaheadAction>)
    requires n <= |slots| && Transaction(t) && Free(slots, n, o, t) && Written(slots, n, o, t, slots', n')
    requires Transaction(u) && Exact(slots, n, p, u) && p != o
    ensures Exact(slots', n', p, u)
  {
    StillThere(slots, n, o, t, slots', n', p, u);
    hide Free, Written;
    forall k | 0 <= k < n' && Points(slots', k, p) ensures slots'[k] in u {
      WrittenSlot(slots, n, o, t, slots', n', k);
      assert Points(slots, k, p);
    }
  }

  lemma StillThere(slots: seq<LookaheadAction>, n: nat, o: int, t: seq<LookaheadAction>,
                   slots': seq<LookaheadAction>, n': nat, p: int, u: seq<LookaheadAction>)
    requires n <= |slots| && Free(slots, n, o, t) && Written(slots, n, o, t, slots', n') && Transaction(u)
             && Exact(slots, n, p, u)
    ensures n <= n' <= |slots'|
    ensures forall j | 0 <= j < |u| :: 0 <= p + u[j].lookahead < n' && slots'[p + u[j].lookahead] == u[j]
  {
    assert n <= n' <= |slots'|;
    hide Free, Written;
    forall j | 0 <= j < |u| ensures 0 <= p + u[j].lookahead < n' && slots'[p + u[j].lookahead] == u[j] {
      assert slots[p + u[j].lookahead] == u[j];
      SlotKept(slots, n, o, t, slots', n', p + u[j].lookahead);
    }
  }

  lemma SlotKept(slots: seq<LookaheadAction>, n: nat, o: int, t: seq<LookaheadAction>,
                 slots': seq<LookaheadAction>, n': nat, k: nat)
    requires n <= |slots| && Free(slots, n, o, t) && Written(slots, n, o, t, slots', n') && k < n
             && slots[k].lookahead >= 0
    ensures k < n' && slots'[k] == slots[k]
  {
    assert forall m | 0 <= m < |t| :: k != o + t[m].lookahead;
  }

  /** A transaction written into free slots is found exactly if its offset was not in use before. */
  lemma NewExact(slots: seq<LookaheadAction>, n: nat, o: int, t: seq<LookaheadAction>, slots': seq<LookaheadAction>,
                 n': nat)
    requires n <= |slots| && Transaction(t) && Free(slots, n, o, t) && Written(slots, n, o, t, slots', n')
    ensures Exact(slots', n', o, t) <==> NoAlias(slots, n, o)
  {
    if NoAlias(slots, n, o) {
      forall k | 0 <= k < n' && Points(slots', k, o) ensures slots'[k] in t {
        WrittenSlot(slots, n, o, t, slots', n', k);
        assert k < n ==> !Points(slots, k, o);
      }
    }
    if Exact(slots', n', o, t) {
      forall k | 0 <= k < n ensures !Points(slots, k, o) {
        if Points(slots, k, o) {
          StillPoints(slots, n, o, t, slots', n', k);
        }
      }
    }
  }

  lemma StillPoints(slots: seq<LookaheadAction>, n: nat, o: int, t: seq<LookaheadAction>, slots': seq<LookaheadAction>,
                    n': nat, k: nat)
    requires n <= |slots| && Transaction(t) && Free(slots, n, o, t) && Written(slots, n, o, t, slots', n')
    requires k < n && Points(slots, k, o)
    ensures slots'[k] == slots[k] && slots'[k] !in t && !Exact(slots', n', o, t)
  {
    assert forall j | 0 <= j < |t| :: k != o + t[j].lookahead;
    assert Points(slots', k, o);
  }

  /** An earlier transaction at the same offset rules out a hole there. */
  lemma HoleIsUnused(slots: seq<LookaheadAction>, n: nat, o: int, u: seq<LookaheadAction>)
    requires n <= |slots| && Transaction(u) && u != [] && Exact(slots, n, o, u)
    ensures !NoAlias(slots, n, o)
  {
    assert Points(slots, o + u[0].lookahead, o);
  }

  // ----- where a transaction goes -----

  ghost predicate IsMin(t: seq<LookaheadAction>, mn: int) {
    (exists j :: 0 <= j < |t| && t[j].lookahead == mn) && forall j | 0 <= j < |t| :: mn <= t[j].lookahead
  }

  ghost predicate IsMax(t: seq<LookaheadAction>, mx: int) {
    (exists j :: 0 <= j < |t| && t[j].lookahead == mx) && forall j | 0 <= j < |t| :: t[j].lookahead <= mx
  }

  /** The size of the array after the growth test for a transaction whose largest lookahead is `mx`. */
  function GrownAlloc(alloc: nat, n: nat, mx: nat): nat {
    if n + (mx + 1) >= alloc then n + (mx + 1) + alloc + 20 else alloc
  }

  /** The exact condition, on the table before the call, for an insertion to be sound: the transaction is there already,
      or the scan over the indices below `alloc - mx` stops at a hole, or the index it ends at is unused. */
  ghost predicate Placeable(slots: seq<LookaheadAction>, n: nat, alloc: nat, t: seq<LookaheadAction>, mn: int, mx: int)
    requires n <= |slots|
  {
    || (exists o :: Exact(slots, n, o, t))
    || (exists o :: 0 <= o + mn < alloc - mx && Hole(slots, n, o, t))
    || NoAlias(slots, n, alloc - mx - mn)
  }

  /** The scan reaches a hole whenever the array is larger than the slots in use and both extreme lookaheads
      together. */
  lemma HeadroomSuffices(slots: seq<LookaheadAction>, n: nat, alloc: nat, t: seq<LookaheadAction>, mn: nat, mx: nat)
    requires SlotsOk(slots, n) && Transaction(t) && IsMin(t, mn) && IsMax(t, mx) && alloc > n + mn + mx
    ensures 0 <= n + mn < alloc - mx && Hole(slots, n, n, t) && Placeable(slots, n, alloc, t, mn, mx)
  {
    assert Hole(slots, n, n, t);
  }

  // ----- the duplicate test -----

  /** The slots that the duplicate test counts for offset `o`. */
  ghost function Pointing(slots: seq<LookaheadAction>, n: nat, o: int): set<int>
    requires n <= |slots|
  {
    set k | 0 <= k < n && Points(slots, k, o)
  }

  ghost function Places(t: seq<LookaheadAction>, o: int): set<int> {
    set j | 0 <= j < |t| :: o + t[j].lookahead
  }

  lemma {:induction false} PlacesSize(t: seq<LookaheadAction>, o: int)
    requires Transaction(t)
    ensures |Places(t, o)| == |t|
    decreases |t|
  {
    if t != [] {
      var n := |t| - 1;
      PlacesSize(t[..n], o);
      LastPlace(t, o);
    }
  }

  lemma LastPlace(t: seq<LookaheadAction>, o: int)
    requires Transaction(t) && t != []
    ensures var n := |t| - 1;
            Places(t, o) == Places(t[..n], o) + {o + t[n].lookahead} && o + t[n].lookahead !in Places(t[..n], o)
  {
    var n, p, r := |t| - 1, Places(t, o), Places(t[..|t| - 1], o);
    forall x | x in p ensures x in r + {o + t[n].lookahead} {
      var j :| 0 <= j < |t| && x == o + t[j].lookahead;
      assert j < n ==> t[..n][j] == t[j];
    }
    forall x | x in r ensures x in p {
      var j :| 0 <= j < n && x == o + t[..n][j].lookahead;
      assert x == o + t[j].lookahead;
    }
  }

  /** Once the whole transaction has been found, counting the slots that point to the offset decides exactness. */
  lemma CountDecides(slots: seq<LookaheadAction>, n: nat, o: int, t: seq<LookaheadAction>)
    requires n <= |slots| && Transaction(t)
    requires FoundUpTo(slots, n, o, t, |t|)
    ensures |Pointing(slots, n, o)| == |t| <==> Exact(slots, n, o, t)
  {
    PlacesSize(t, o);
    var p, q := Places(t, o), Pointing(slots, n, o);
    assert p <= q;
    if |q| == |t| {
      SameSize(p, q);
      forall k | 0 <= k < n && Points(slots, k, o) ensures slots[k] in t {
        assert k in p;
      }
    }
    if Exact(slots, n, o, t) {
      forall k | k in q ensures k in p {
        var j :| 0 <= j < |t| && slots[k] == t[j];
      }
      assert p == q;
    }
  }

  lemma SameSize(p: set<int>, q: set<int>)
    requires p <= q && |p| == |q|
    ensures p == q
  {
    assert q == p + (q - p);
    assert |q| == |p| + |q - p|;
  }

  /** What an insertion does to the table: a transaction that is there already is reused, any other is written into free
      slots. */
  ghost predicate Inserted(slots: seq<LookaheadAction>, n: nat, t: seq<LookaheadAction>, slots': seq<LookaheadAction>,
                           n': nat, o: int)
    requires n <= |slots| && n' <= |slots'|
  {
    if exists p :: Exact(slots, n, p, t) then
      Exact(slots, n, o, t) && n' == n && slots'[..n'] == slots[..n]
    else
      Free(slots, n, o, t) && Written(slots, n, o, t, slots', n')
  }

  /** The predicates look at the slots in use only. */
  lemma SamePrefix(slots: seq<LookaheadAction>, slots': seq<LookaheadAction>, n: nat, o: int, t: seq<LookaheadAction>)
    requires n <= |slots| && n <= |slots'| && slots[..n] == slots'[..n]
    ensures Exact(slots, n, o, t) <==> Exact(slots', n, o, t)
    ensures Hole(slots, n, o, t) <==> Hole(slots', n, o, t)
    ensures Free(slots, n, o, t) <==> Free(slots', n, o, t)
    ensures NoAlias(slots, n, o) <==> NoAlias(slots', n, o)
    ensures forall slots'', n'': nat | Written(slots', n, o, t, slots'', n'') :: Written(slots, n, o, t, slots'', n'')
  {
    assert forall k | 0 <= k < n :: slots[k] == slots[..n][k] == slots'[..n][k] == slots'[k];
    assert forall k | 0 <= k < n :: Points(slots, k, o) <==> Points(slots', k, o);
  }

  /** Empty slots may be added behind the ones in use. */
  lemma Padded(slots: seq<LookaheadAction>, slots': seq<LookaheadAction>, n: nat)
    requires SlotsOk(slots, n) && |slots| <= |slots'|
    requires forall k | 0 <= k < |slots'| :: slots'[k] == if k < |slots| then slots[k] else LA(-1, -1)
    ensures SlotsOk(slots', n) && slots'[..n] == slots[..n]
  {
  }

  /** One action that is not found in its place rules out that the transaction is. */
  lemma NotThere(slots: seq<LookaheadAction>, n: nat, o: int, t: seq<LookaheadAction>, j: nat)
    requires n <= |slots| && j < |t|
    requires var k := o + t[j].lookahead; !(0 <= k < n) || slots[k] != t[j]
    ensures !Exact(slots, n, o, t)
  {
  }

  /** One action whose slot is taken rules out a hole. */
  lemma Taken(slots: seq<LookaheadAction>, n: nat, o: int, t: seq<LookaheadAction>, j: nat)
    requires SlotsOk(slots, n) && j < |t|
    requires var k := o + t[j].lookahead; k < 0 || (k < |slots| && slots[k].lookahead >= 0)
    ensures !Hole(slots, n, o, t)
  {
  }

  /** The part of the transaction handled so far. */
  ghost predicate FoundUpTo(slots: seq<LookaheadAction>, n: nat, o: int, t: seq<LookaheadAction>, j: int)
    requires n <= |slots|
  {
    forall m | 0 <= m < j && m < |t| :: 0 <= o + t[m].lookahead < n && slots[o + t[m].lookahead] == t[m]
  }

  ghost predicate FreeUpTo(slots: seq<LookaheadAction>, n: nat, o: int, t: seq<LookaheadAction>, j: int)
    requires n <= |slots|
  {
    forall m | 0 <= m < j && m < |t| ::
        0 <= o + t[m].lookahead && (o + t[m].lookahead < n ==> slots[o + t[m].lookahead].lookahead < 0)
  }

  lemma CountStep(slots: seq<LookaheadAction>, j: nat, o: int)
    requires j < |slots|
    ensures |Pointing(slots, j + 1, o)| == |Pointing(slots, j, o)| + if Points(slots, j, o) then 1 else 0
  {
    assert Pointing(slots, j + 1, o) == Pointing(slots, j, o) + if Points(slots, j, o) then {j} else {};
  }

  lemma StillOk(slots: seq<LookaheadAction>, n: nat, e: LookaheadAction, k: nat)
    requires SlotsOk(slots, n) && k < |slots| && e.lookahead >= 0
    ensures SlotsOk(slots[k := e], if k >= n then k + 1 else n)
  {
    var w, n' := slots[k := e], if k >= n then k + 1 else n;
    assert w[k] == e && forall i | 0 <= i < |slots| && i != k :: w[i] == slots[i];
  }

  lemma NothingWritten(slots: seq<LookaheadAction>, n: nat, o: int, t: seq<LookaheadAction>)
    requires n <= |slots|
    ensures Written(slots, n, o, t[..0], slots, n)
  {
  }

  /** Writing one more action of the transaction. */
  lemma WriteOne(slots: seq<LookaheadAction>, n: nat, o: int, t: seq<LookaheadAction>, j: nat,
                 slots': seq<LookaheadAction>, n': nat, k: nat)
    requires n <= |slots| && Transaction(t) && j < |t| && Written(slots, n, o, t[..j], slots', n')
             && SlotsOk(slots', n')
    requires k == o + t[j].lookahead < |slots'|
    ensures Written(slots, n, o, t[..j + 1], slots'[k := t[j]], if k >= n' then k + 1 else n')
  {
    var w, n'' := slots'[k := t[j]], if k >= n' then k + 1 else n';
    var u := t[..j + 1];
    forall m | 0 <= m < |u| ensures 0 <= o + u[m].lookahead < n'' && w[o + u[m].lookahead] == u[m] {
      if m < j {
        assert u[m] == t[..j][m] && t[m].lookahead != t[j].lookahead;
      }
    }
    forall i | 0 <= i < n'' && (forall m | 0 <= m < |u| :: i != o + u[m].lookahead)
      ensures w[i] == if i < n then slots[i] else LA(-1, -1)
    {
      assert u[j] == t[j] && i != k;
      NotYet(o, t, j, i);
      if i < n' {
        assert slots'[i] == if i < n then slots[i] else LA(-1, -1);
      }
    }
    WrittenWhole(slots, n, o, u, w, n'');
  }

  lemma WrittenWhole(slots: seq<LookaheadAction>, n: nat, o: int, t: seq<LookaheadAction>, slots': seq<LookaheadAction>,
                     n': nat)
    requires n <= |slots| && n <= n' <= |slots'|
    requires forall j | 0 <= j < |t| :: 0 <= o + t[j].lookahead < n' && slots'[o + t[j].lookahead] == t[j]
    requires forall k | 0 <= k < n' && (forall j | 0 <= j < |t| :: k != o + t[j].lookahead) ::
               slots'[k] == if k < n then slots[k] else LA(-1, -1)
    ensures Written(slots, n, o, t, slots', n')
  {
  }

  lemma NotYet(o: int, t: seq<LookaheadAction>, j: nat, i: int)
    requires j < |t| && var u := t[..j + 1]; forall m | 0 <= m < |u| :: i != o + u[m].lookahead
    ensures var u := t[..j]; forall m | 0 <= m < |u| :: i != o + u[m].lookahead
  {
    var u, v := t[..j], t[..j + 1];
    assert forall m | 0 <= m < j :: u[m] == v[m];
  }

  /** How the hole scan ends: in a hole, or else behind all slots in use and with a positive smallest lookahead. */
  lemma ScanEnds(slots: seq<LookaheadAction>, n: nat, t: seq<LookaheadAction>, mn: nat, mx: nat, i: nat)
    requires SlotsOk(slots, n) && Transaction(t) && IsMin(t, mn) && IsMax(t, mx) && |slots| > n + mx + 1
    requires i <= |slots| - mx && forall o | 0 <= o + mn < i :: !Hole(slots, n, o, t)
    requires i < |slots| - mx ==> Hole(slots, n, i - mn, t)
    ensures i - mn + mx < |slots| && Free(slots, n, i - mn, t)
    ensures (forall o :: !Exact(slots, n, o, t)) ==>
              (NoAlias(slots, n, i - mn) <==> Placeable(slots, n, |slots|, t, mn, mx))
  {
    if i == |slots| - mx {
      if mn == 0 {
        HeadroomSuffices(slots, n, |slots|, t, mn, mx);
      }
      assert forall j | 0 <= j < |t| :: i - mn + t[j].lookahead >= n;
    } else {
      assert 0 <= (i - mn) + mn < |slots| - mx;
    }
  }

  /** What the two scans of a table do: the last exact duplicate is kept, else the transaction is written at the
      first hole below the cut-off, else at the cut-off. */
  ghost predicate Scanned(slots: seq<LookaheadAction>, n: nat, t: seq<LookaheadAction>, mn: int, mx: int,
                          slots': seq<LookaheadAction>, n': nat, o: int)
    requires n <= |slots|
  {
    || (Exact(slots, n, o, t) && (forall p | p > o :: !Exact(slots, n, p, t)) && slots' == slots && n' == n)
    || (&& (forall p :: !Exact(slots, n, p, t)) && Free(slots, n, o, t) && Written(slots, n, o, t, slots', n')
        && (NoAlias(slots, n, o) <==> Placeable(slots, n, |slots|, t, mn, mx))
        && 0 <= o + mn <= |slots| - mx && (forall p | 0 <= p + mn < o + mn :: !Hole(slots, n, p, t))
        && (o + mn < |slots| - mx ==> Hole(slots, n, o, t)))
  }

  /** The result of an insertion, from what the two scans have done. */
  lemma InsertOutcome(slots: seq<LookaheadAction>, grown: seq<LookaheadAction>, n: nat, t: seq<LookaheadAction>,
                      mn: nat, mx: nat,
                      slots': seq<LookaheadAction>, n': nat, o: int)
    requires n <= |slots| && n <= |grown| && slots[..n] == grown[..n] && n' <= |slots'| && Transaction(t)
    requires Scanned(grown, n, t, mn, mx, slots', n', o)
    ensures Inserted(slots, n, t, slots', n', o)
    ensures Exact(slots', n', o, t) <==> Placeable(slots, n, |grown|, t, mn, mx)
  {
    hide Points, Exact, Free, Written, NoAlias, Transaction, Hole;
    forall p ensures Exact(slots, n, p, t) <==> Exact(grown, n, p, t) {
      SamePrefix(slots, grown, n, p, t);
    }
    forall p ensures Hole(slots, n, p, t) <==> Hole(grown, n, p, t) {
      SamePrefix(slots, grown, n, p, t);
    }
    SamePrefix(slots, grown, n, |grown| - mx - mn, t);
    SamePrefix(slots, grown, n, o, t);
    assert Placeable(grown, n, |grown|, t, mn, mx) <==> Placeable(slots, n, |grown|, t, mn, mx);
    if Exact(grown, n, o, t) && slots' == grown && n' == n {
      assert Exact(slots, n, o, t);
    } else {
      NewExact(grown, n, o, t, slots', n');
    }
  }

  // ----- the offset, from the table before the call -----

  function LeastOf(t: seq<LookaheadAction>): int
    requires t != []
  {
    var n := |t| - 1;
    if n == 0 || t[n].lookahead < LeastOf(t[..n]) then t[n].lookahead else LeastOf(t[..n])
  }

  function LargestOf(t: seq<LookaheadAction>): int
    requires t != []
  {
    var n := |t| - 1;
    if n == 0 || t[n].lookahead > LargestOf(t[..n]) then t[n].lookahead else LargestOf(t[..n])
  }

  lemma {:induction false} ExtremesAre(t: seq<LookaheadAction>)
    requires t != []
    ensures IsMin(t, LeastOf(t)) && IsMax(t, LargestOf(t))
    decreases |t|
  {
    var n := |t| - 1;
    if n > 0 {
      ExtremesAre(t[..n]);
      assert forall j | 0 <= j < n :: t[..n][j] == t[j];
    }
  }

  lemma ExtremesUnique(t: seq<LookaheadAction>, mn: int, mx: int)
    requires t != [] && IsMin(t, mn) && IsMax(t, mx)
    ensures mn == LeastOf(t) && mx == LargestOf(t)
  {
    ExtremesAre(t);
  }

  /** Where the two scans of acttab_insert end: at the last exact duplicate, else at the first hole below the
      cut-off, else at the cut-off. */
  ghost predicate LandsAt(slots: seq<LookaheadAction>, n: nat, alloc: nat, t: seq<LookaheadAction>, mn: int, mx: int,
                          o: int)
    requires n <= |slots|
  {
    if exists p :: Exact(slots, n, p, t) then Exact(slots, n, o, t) && forall p | p > o :: !Exact(slots, n, p, t)
    else if exists p :: 0 <= p + mn < alloc - mx && Hole(slots, n, p, t) then
      0 <= o + mn < alloc - mx && Hole(slots, n, o, t) && forall p | 0 <= p + mn < o + mn :: !Hole(slots, n, p, t)
    else o == alloc - mx - mn
  }

  /** The offset that acttab_insert returns for transaction `t`, told from the table before the call. */
  ghost predicate Lands(slots: seq<LookaheadAction>, n: nat, t: seq<LookaheadAction>, o: int)
    requires n <= |slots|
  {
    && t != [] && LargestOf(t) >= 0
    && LandsAt(slots, n, GrownAlloc(|slots|, n, LargestOf(t)), t, LeastOf(t), LargestOf(t), o)
  }

  /** The last of the exact duplicates; if there is none, the first hole that the scan meets, or the place where it
      ends. */
  lemma LandsWhere(slots: seq<LookaheadAction>, n: nat, t: seq<LookaheadAction>, o: int)
    requires n <= |slots| && Transaction(t) && Lands(slots, n, t, o)
    ensures t != [] && LargestOf(t) >= 0
    ensures (exists p :: Exact(slots, n, p, t)) ==> Exact(slots, n, o, t) && forall p | p > o :: !Exact(slots, n, p, t)
    ensures (forall p :: !Exact(slots, n, p, t)) ==>
              var mn, mx := LeastOf(t), LargestOf(t);
              var alloc := if n + mx + 1 >= |slots| then n + mx + 1 + |slots| + 20 else |slots|;
              && 0 <= o + mn <= alloc - mx && (o + mn < alloc - mx ==> Hole(slots, n, o, t))
              && forall p | 0 <= p + mn < o + mn :: !Hole(slots, n, p, t)
  {
    hide Exact, Hole;
  }

  lemma LandsOnce(slots: seq<LookaheadAction>, n: nat, t: seq<LookaheadAction>, o: int, p: int)
    requires n <= |slots| && Lands(slots, n, t, o) && Lands(slots, n, t, p)
    ensures o == p
  {
    hide Exact, Hole;
  }

  lemma LandsFromScans(slots: seq<LookaheadAction>, grown: seq<LookaheadAction>, n: nat, t: seq<LookaheadAction>,
                       mn: int, mx: nat,
                       slots': seq<LookaheadAction>, n': nat, o: int)
    requires n <= |slots| && n <= |grown| && slots[..n] == grown[..n] && |grown| == GrownAlloc(|slots|, n, mx)
    requires t != [] && mn == LeastOf(t) && mx == LargestOf(t) && Scanned(grown, n, t, mn, mx, slots', n', o)
    ensures Lands(slots, n, t, o)
  {
    hide Exact, Hole, Written, Free, NoAlias, Placeable;
    forall p
      ensures (Exact(slots, n, p, t) <==> Exact(grown, n, p, t)) && (Hole(slots, n, p, t) <==> Hole(grown, n, p, t))
    {
      SamePrefix(slots, grown, n, p, t);
    }
  }

  /** Whatever else the table holds, the transactions inserted before stay exact when a placeable one is inserted. */
  lemma InsertedKeeps(slots: seq<LookaheadAction>, n: nat, t: seq<LookaheadAction>, slots': seq<LookaheadAction>,
                      n': nat, o: int,
                      p: int, u: seq<LookaheadAction>)
    requires n <= |slots| && n' <= |slots'| && Transaction(t) && Transaction(u) && u != []
    requires Inserted(slots, n, t, slots', n', o) && Exact(slots', n', o, t) && Exact(slots, n, p, u)
    ensures Exact(slots', n', p, u)
  {
    hide Points, Exact, Free, Written, NoAlias, Transaction;
    if exists q :: Exact(slots, n, q, t) {
      SamePrefix(slots, slots', n, p, u);
    } else {
      NewExact(slots, n, o, t, slots', n');
      if p == o {
        HoleIsUnused(slots, n, o, u);
      }
      OthersUndisturbed(slots, n, o, t, slots', n', p, u);
    }
  }

  /** A slot in use is never written again. */
  lemma InsertedSlot(slots: seq<LookaheadAction>, n: nat, t: seq<LookaheadAction>, slots': seq<LookaheadAction>,
                     n': nat, o: int, k: nat)
    requires n <= |slots| && n' <= |slots'| && Inserted(slots, n, t, slots', n', o) && k < n && slots[k].lookahead >= 0
    ensures k < n' && slots'[k] == slots[k]
  {
    if exists q :: Exact(slots, n, q, t) {
      assert slots'[..n][k] == slots[..n][k];
    } else {
      SlotKept(slots, n, o, t, slots', n', k);
    }
  }

  /** Every slot that comes into use holds an action of the transaction and is found at its offset. */
  lemma InsertedNew(slots: seq<LookaheadAction>, n: nat, t: seq<LookaheadAction>, slots': seq<LookaheadAction>, n': nat,
                    o: int, k: nat)
    requires n <= |slots| && n' <= |slots'| && Transaction(t) && Inserted(slots, n, t, slots', n', o)
    requires k < n' && slots'[k].lookahead >= 0 && !(k < n && slots[k].lookahead >= 0)
    ensures slots'[k] in t && Points(slots', k, o)
  {
    if k < n {
      SlicesAgree(slots, slots', n, k);
    }
    if !exists q :: Exact(slots, n, q, t) {
      WrittenSlot(slots, n, o, t, slots', n', k);
    }
  }

  lemma SlicesAgree(slots: seq<LookaheadAction>, slots': seq<LookaheadAction>, n: nat, k: nat)
    requires k < n <= |slots| && n <= |slots'|
    ensures slots'[..n] == slots[..n] ==> slots'[k] == slots[k]
  {
    assert slots'[..n] == slots[..n] ==> slots'[..n][k] == slots[..n][k];
  }

  /** Whatever the offset, the transaction itself can be looked up from then on: its actions are always found. */
  lemma InsertedFound(slots: seq<LookaheadAction>, n: nat, t: seq<LookaheadAction>, slots': seq<LookaheadAction>,
                      n': nat, o: int)
    requires n <= |slots| && n' <= |slots'| && Inserted(slots, n, t, slots', n', o)
    ensures Found(slots', n', o, t)
  {
    if exists q :: Exact(slots, n, q, t) {
      SamePrefix(slots, slots', n, o, t);
    }
  }

  lemma FoundKept(slots: seq<LookaheadAction>, n: nat, t: seq<LookaheadAction>, slots': seq<LookaheadAction>, n': nat,
                  o: int,
                  p: int, u: seq<LookaheadAction>)
    requires n <= |slots| && n' <= |slots'| && Transaction(u) && Inserted(slots, n, t, slots', n', o)
             && Found(slots, n, p, u)
    ensures Found(slots', n', p, u)
  {
    hide Inserted;
    forall j | 0 <= j < |u| ensures 0 <= p + u[j].lookahead < n' && slots'[p + u[j].lookahead] == u[j] {
      InsertedSlot(slots, n, t, slots', n', o, p + u[j].lookahead);
    }
  }

  /** Looking up some lookahead at offset `o` finds what is not of the transaction. */
  ghost predicate Mixed(slots: seq<LookaheadAction>, n: nat, o: int, t: seq<LookaheadAction>)
    requires n <= |slots|
  {
    exists k :: 0 <= k < n && Points(slots, k, o) && slots[k] !in t
  }

  lemma ExactOrMixed(slots: seq<LookaheadAction>, n: nat, t: seq<LookaheadAction>, slots': seq<LookaheadAction>,
                     n': nat, o: int)
    requires n <= |slots| && n' <= |slots'| && Inserted(slots, n, t, slots', n', o)
    ensures Exact(slots', n', o, t) || Mixed(slots', n', o, t)
  {
    if exists p :: Exact(slots, n, p, t) {
      SamePrefix(slots, slots', n, o, t);
    }
  }

  /** What is mixed up once stays so. */
  lemma MixedForever(slots: seq<LookaheadAction>, n: nat, t: seq<LookaheadAction>, slots': seq<LookaheadAction>,
                     n': nat, o: int,
                     p: int, u: seq<LookaheadAction>)
    requires n <= |slots| && n' <= |slots'| && Transaction(t) && Inserted(slots, n, t, slots', n', o)
             && Mixed(slots, n, p, u)
    ensures Mixed(slots', n', p, u) && !Exact(slots', n', p, u)
  {
    hide Inserted, Transaction;
    var k :| 0 <= k < n && Points(slots, k, p) && slots[k] !in u;
    InsertedSlot(slots, n, t, slots', n', o, k);
    assert slots'[k] == slots[k] && Points(slots', k, p);
  }

  /** One insertion of a run: the transaction, the offset returned for it, and the table afterwards. */
  datatype Insertion = Insertion(t: seq<LookaheadAction>, o: int, slots: seq<LookaheadAction>, n: nat)

  /** A sequence of insertions into a table that is empty at first. */
  ghost predicate Run(h: seq<Insertion>) {
    && (forall k | 0 <= k < |h| :: h[k].n <= |h[k].slots| && h[k].t != [] && Transaction(h[k].t))
    && (forall k | 0 <= k < |h| :: InsertedInto(if k == 0 then Nothing() else h[k - 1], h[k]))
  }

  /** The empty table, as if some insertion had left it. */
  function Nothing(): Insertion {
    Insertion([], 0, [], 0)
  }

  /** The insertion `i` is made into the table that `before` left. */
  ghost predicate InsertedInto(before: Insertion, i: Insertion) {
    before.n <= |before.slots| && i.n <= |i.slots| && Inserted(before.slots, before.n, i.t, i.slots, i.n, i.o)
  }

  /** Insertion `j` can be looked up in the table after insertion `k`. */
  ghost predicate ExactAfter(h: seq<Insertion>, j: nat, k: nat)
    requires Run(h) && j <= k < |h|
  {
    Exact(h[k].slots, h[k].n, h[j].o, h[j].t)
  }

  lemma {:induction false} RunKeeps(h: seq<Insertion>, j: nat, k: nat)
    requires Run(h) && j <= k < |h| && forall i | 0 <= i <= k :: ExactAfter(h, i, i)
    ensures ExactAfter(h, j, k)
    decreases k
  {
    hide Exact, Inserted, Transaction;
    if j < k {
      RunKeeps(h, j, k - 1);
      assert ExactAfter(h, k, k) && InsertedInto(h[k - 1], h[k]);
      InsertedKeeps(h[k - 1].slots, h[k - 1].n, h[k].t, h[k].slots, h[k].n, h[k].o, h[j].o, h[j].t);
    }
  }

  lemma {:induction false} RunMixes(h: seq<Insertion>, j: nat, k: nat)
    requires Run(h) && j <= k < |h| && !ExactAfter(h, j, j)
    ensures !ExactAfter(h, j, k) && Mixed(h[k].slots, h[k].n, h[j].o, h[j].t)
    decreases k
  {
    hide Exact, Inserted, Transaction, Mixed;
    var before := if k == 0 then Nothing() else h[k - 1];
    assert InsertedInto(before, h[k]);
    if j < k {
      RunMixes(h, j, k - 1);
      MixedForever(before.slots, before.n, h[k].t, h[k].slots, h[k].n, h[k].o, h[j].o, h[j].t);
    } else {
      ExactOrMixed(before.slots, before.n, h[k].t, h[k].slots, h[k].n, h[k].o);
    }
  }

  /** After any run of insertions all of them can be looked up if and only if each of them could when it was made. */
  lemma RunExact(h: seq<Insertion>)
    requires Run(h) && h != []
    ensures var last := |h| - 1; (forall j | 0 <= j < |h| :: ExactAfter(h, j, last)) <==>
              (forall j | 0 <= j < |h| :: ExactAfter(h, j, j))
  {
    if forall j | 0 <= j < |h| :: ExactAfter(h, j, j) {
      var last := |h| - 1;
      forall j | 0 <= j < |h| ensures ExactAfter(h, j, last) {
        RunKeeps(h, j, last);
      }
    } else {
      var j :| 0 <= j < |h| && !ExactAfter(h, j, j);
      RunMixes(h, j, |h| - 1);
    }
  }

  lemma StartsWithFirst(slots: seq<LookaheadAction>, n: nat, p: int, t: seq<LookaheadAction>)
    requires n <= |slots| && t != []
    ensures Exact(slots, n, p, t) ==> 0 <= p + t[0].lookahead < n && slots[p + t[0].lookahead] == t[0]
  {
  }

  // ----- the module's state -----

  class Acttab {
    var nAction: nat
    var nActionAlloc: nat
    var aAction: array<LookaheadAction>
    var aLookahead: array<LookaheadAction>
    var mnLookahead: int
    var mnAction: int
    var mxLookahead: int
    var nLookahead: nat
    var nLookaheadAlloc: nat

    ghost predicate Valid()
      reads this, aAction, aLookahead
    {
      && aAction != aLookahead && aAction.Length == nActionAlloc && aLookahead.Length == nLookaheadAlloc
      && nAction <= nActionAlloc && nLookahead <= nLookaheadAlloc
      && SlotsOk(aAction[..], nAction) && Transaction(aLookahead[..nLookahead])
      && (nLookahead > 0 ==>
            && IsMin(aLookahead[..nLookahead], mnLookahead)
            && IsMax(aLookahead[..nLookahead], mxLookahead)
            && LA(mnLookahead, mnAction) in aLookahead[..nLookahead])
    }

    /** acttab_alloc: everything zero. */
    constructor ()
      ensures Valid() && nAction == 0 && nLookahead == 0 && fresh(aAction) && fresh(aLookahead)
      ensures nActionAlloc == 0
    {
      nAction, nActionAlloc, nLookahead, nLookaheadAlloc := 0, 0, 0, 0;
      mnLookahead, mnAction, mxLookahead := 0, 0, 0;
      aAction, aLookahead := new LookaheadAction[0], new LookaheadAction[0];
    }

    /** acttab_action: add one action to the current transaction. */
    method AddAction(lookahead: int, action: int)
      requires Valid() && lookahead >= 0 && forall j | 0 <= j < nLookahead :: aLookahead[j].lookahead != lookahead
      modifies this, aLookahead
      ensures Valid() && aAction == old(aAction) && (aLookahead == old(aLookahead) || fresh(aLookahead))
      ensures nAction == old(nAction) && nActionAlloc == old(nActionAlloc) && aAction[..] == old(aAction[..])
      ensures nLookahead > 0 && aLookahead[..nLookahead] == old(aLookahead[..nLookahead]) + [LA(lookahead, action)]
    {
      ghost var t, slots := aLookahead[..nLookahead], aAction[..];
      OneMore(t, LA(lookahead, action));
      Extremes(t, LA(lookahead, action), mnLookahead, mxLookahead);
      hide SlotsOk, Transaction, IsMin, IsMax;
      GrowLookahead();
      assert aAction[..] == slots;
      NoteExtremes(lookahead, action);
      Store(LA(lookahead, action));
    }

    method NoteExtremes(lookahead: int, action: int)
      modifies this`mxLookahead, this`mnLookahead, this`mnAction
      ensures mxLookahead == if nLookahead == 0 || old(mxLookahead) < lookahead then lookahead else old(mxLookahead)
      ensures mnLookahead == if nLookahead == 0 || old(mnLookahead) > lookahead then lookahead else old(mnLookahead)
      ensures mnAction == if nLookahead == 0 || old(mnLookahead) > lookahead then action else old(mnAction)
    {
      if nLookahead == 0 {
        mxLookahead := lookahead;
        mnLookahead := lookahead;
        mnAction := action;
      } else {
        if mxLookahead < lookahead { mxLookahead := lookahead; }
        if mnLookahead > lookahead {
          mnLookahead := lookahead;
          mnAction := action;
        }
      }
    }

    method Store(e: LookaheadAction)
      requires nLookahead < aLookahead.Length && aAction != aLookahead
      modifies this`nLookahead, aLookahead
      ensures nLookahead == old(nLookahead) + 1 && aLookahead[..nLookahead] == old(aLookahead[..nLookahead]) + [e]
    {
      aLookahead[nLookahead] := e;
      nLookahead := nLookahead + 1;
    }

    /** Room for one more action in the transaction. */
    method GrowLookahead()
      requires Valid()
      modifies this`aLookahead, this`nLookaheadAlloc
      ensures Valid() && nLookahead < nLookaheadAlloc && (aLookahead == old(aLookahead) || fresh(aLookahead))
      ensures aLookahead[..nLookahead] == old(aLookahead[..nLookahead])
    {
      if nLookahead >= nLookaheadAlloc {
        var bigger := Enlarged(aLookahead, nLookahead);
        nLookaheadAlloc := nLookaheadAlloc + 25;
        aLookahead := bigger;
      }
    }

    static method Enlarged(a: array<LookaheadAction>, n: nat) returns (bigger: array<LookaheadAction>)
      requires n <= a.Length
      ensures fresh(bigger) && bigger.Length == a.Length + 25 && bigger[..n] == a[..n]
    {
      bigger := new LookaheadAction[a.Length + 25](_ => LA(0, 0));
      forall j | 0 <= j < n {
        bigger[j] := a[j];
      }
    }

    /** mxLookahead, which is not negative once the transaction has an action. */
    ghost function Largest(): nat
      reads this, aAction, aLookahead
      requires Valid() && nLookahead > 0
    {
      mxLookahead
    }

    /** The transaction under construction. */
    ghost function Pending(): seq<LookaheadAction>
      reads this, aLookahead
      requires nLookahead <= aLookahead.Length
    {
      aLookahead[..nLookahead]
    }

    /** The growth step: room for the largest lookahead behind the slots in use, and one more. */
    method EnsureRoom()
      requires Valid() && nLookahead > 0
      modifies this`aAction, this`nActionAlloc
      ensures Valid() && (aAction == old(aAction) || fresh(aAction))
      ensures nActionAlloc == GrownAlloc(old(nActionAlloc), nAction, old(Largest())) > nAction + Largest() + 1
      ensures aAction[..nAction] == old(aAction[..nAction]) && Pending() == old(Pending())
    {
      ghost var mx, slots, t := Largest(), aAction[..], aLookahead[..nLookahead];
      hide SlotsOk, Transaction, IsMin, IsMax;
      var n := mxLookahead + 1;
      if nAction + n >= nActionAlloc {
        var bigger := new LookaheadAction[nAction + n + nActionAlloc + 20](_ => LA(-1, -1));
        forall j | 0 <= j < nActionAlloc {
          bigger[j] := aAction[j];
        }
        ghost var wide := bigger[..];
        assert forall k | 0 <= k < |wide| :: wide[k] == if k < |slots| then slots[k] else LA(-1, -1);
        Padded(slots, wide, nAction);
        assert wide[..nAction] == bigger[..nAction] && slots[..nAction] == aAction[..nAction];
        nActionAlloc := nAction + n + nActionAlloc + 20;
        aAction := bigger;
        assert aAction[..] == wide && aLookahead[..nLookahead] == t;
      }
    }

    /** The scan for an offset at which exactly the current transaction is found already. */
    method FindDuplicate() returns (i: int)
      requires Valid() && nLookahead > 0
      ensures -1 <= i < nAction
      ensures i >= 0 ==> Exact(aAction[..], nAction, i - mnLookahead, Pending())
      ensures forall o | o > i - mnLookahead :: !Exact(aAction[..], nAction, o, Pending())
      ensures i < 0 ==> forall o :: !Exact(aAction[..], nAction, o, Pending())
    {
      hide Exact, SlotsOk, Transaction, IsMin, IsMax;
      ghost var slots, t := aAction[..], Pending();
      ghost var m :| 0 <= m < |t| && t[m] == LA(mnLookahead, mnAction);
      forall o | !(0 <= o + mnLookahead < nAction) ensures !Exact(slots, nAction, o, t) {
        NotThere(slots, nAction, o, t, m);
      }
      i := nAction - 1;
      while i >= 0
        invariant -1 <= i < nAction
        invariant forall o | i < o + mnLookahead < nAction :: !Exact(slots, nAction, o, t)
      {
        var found := IsDuplicate(i);
        if found { break; }
        i := i - 1;
      }
    }

    method IsDuplicate(i: nat) returns (found: bool)
      requires Valid() && nLookahead > 0 && i < nAction
      ensures found <==> Exact(aAction[..], nAction, i - mnLookahead, Pending())
    {
      hide Exact, SlotsOk, Transaction, IsMin, IsMax, Pointing;
      ghost var slots, t, o := aAction[..], Pending(), i - mnLookahead;
      if aAction[i].lookahead != mnLookahead || aAction[i].action != mnAction {
        ghost var m :| 0 <= m < |t| && t[m] == LA(mnLookahead, mnAction);
        NotThere(slots, nAction, o, t, m);
        return false;
      }
      found := AllFound(i);
      if found {
        var n := CountAt(i);
        CountDecides(slots, nAction, o, t);
        found := n == nLookahead;
      }
    }

    /** Whether all actions of the transaction are in their places. */
    method AllFound(i: nat) returns (found: bool)
      requires Valid()
      ensures found ==> FoundUpTo(aAction[..], nAction, i - mnLookahead, Pending(), nLookahead)
      ensures !found ==> !Exact(aAction[..], nAction, i - mnLookahead, Pending())
    {
      hide Exact, SlotsOk, Transaction, IsMin, IsMax;
      ghost var slots, t, o := aAction[..], Pending(), i - mnLookahead;
      var j := 0;
      while j < nLookahead
        invariant 0 <= j <= nLookahead && FoundUpTo(slots, nAction, o, t, j)
      {
        var k := aLookahead[j].lookahead - mnLookahead + i;
        assert t[j] == aLookahead[j];
        if k < 0 || k >= nAction || aLookahead[j].lookahead != aAction[k].lookahead
           || aLookahead[j].action != aAction[k].action {
          NotThere(slots, nAction, o, t, j);
          return false;
        }
        j := j + 1;
      }
      found := true;
    }

    /** The number of slots in use that are found at the offset which puts the smallest lookahead at `i`. */
    method CountAt(i: nat) returns (n: nat)
      requires Valid()
      ensures n == |Pointing(aAction[..], nAction, i - mnLookahead)|
    {
      ghost var o := i - mnLookahead;
      n := 0;
      var j := 0;
      while j < nAction
        invariant 0 <= j <= nAction && n == |Pointing(aAction[..], j, o)|
      {
        CountStep(aAction[..], j, o);
        if aAction[j].lookahead >= 0 && aAction[j].lookahead == j + mnLookahead - i { n := n + 1; }
        j := j + 1;
      }
    }

    /** The scan for a hole; the index it ends at without one leaves all slots of the transaction free as well. */
    method FindHole() returns (i: nat)
      requires Valid() && nLookahead > 0 && nActionAlloc > nAction + Largest() + 1
      ensures i <= nActionAlloc - mxLookahead
      ensures forall o | 0 <= o + mnLookahead < i :: !Hole(aAction[..], nAction, o, Pending())
      ensures i < nActionAlloc - mxLookahead ==> Hole(aAction[..], nAction, i - mnLookahead, Pending())
    {
      ghost var slots, t, mx := aAction[..], Pending(), Largest();
      hide Hole, SlotsOk, Transaction, IsMin, IsMax;
      i := 0;
      while i < nActionAlloc - mxLookahead
        invariant i <= nActionAlloc - mxLookahead
        invariant forall o | 0 <= o + mnLookahead < i :: !Hole(slots, nAction, o, t)
      {
        var fits := FitsAt(i);
        if fits { break; }
        i := i + 1;
      }
    }

    method FitsAt(i: nat) returns (fits: bool)
      requires Valid() && nLookahead > 0 && i < nActionAlloc - mxLookahead
      ensures fits <==> Hole(aAction[..], nAction, i - mnLookahead, Pending())
    {
      ghost var t := Pending();
      ghost var m :| 0 <= m < |t| && t[m] == LA(mnLookahead, mnAction);
      assert mnLookahead <= mxLookahead && i < aAction.Length;
      hide SlotsOk, Transaction, IsMin, IsMax, Free, NotLookedUp;
      if aAction[i].lookahead >= 0 {
        Taken(aAction[..], nAction, i - mnLookahead, t, m);
        return false;
      }
      fits := SlotsFree(i);
      if fits { fits := Unused(i); }
    }

    /** Whether the slots that the transaction takes are free. */
    method SlotsFree(i: nat) returns (free: bool)
      requires Valid() && nLookahead > 0 && i < nActionAlloc - mxLookahead
      ensures free ==> Free(aAction[..], nAction, i - mnLookahead, Pending())
      ensures !free ==> !Hole(aAction[..], nAction, i - mnLookahead, Pending())
    {
      ghost var slots, t, o := aAction[..], Pending(), i - mnLookahead;
      assert forall j | 0 <= j < |t| :: mnLookahead <= t[j].lookahead <= mxLookahead;
      hide SlotsOk, Transaction, IsMin, IsMax, Hole;
      var j := 0;
      while j < nLookahead
        invariant 0 <= j <= nLookahead && FreeUpTo(slots, nAction, o, t, j)
      {
        var k := aLookahead[j].lookahead - mnLookahead + i;
        assert t[j] == aLookahead[j];
        if k < 0 || aAction[k].lookahead >= 0 {
          Taken(slots, nAction, o, t, j);
          return false;
        }
        j := j + 1;
      }
      free := true;
    }

    /** Whether no slot has the lookahead that is looked up there at the offset which puts the smallest lookahead at
        `i`. */
    method Unused(i: nat) returns (unused: bool)
      requires Valid()
      ensures unused <==> NotLookedUp(aAction[..], nAction, i - mnLookahead)
    {
      var j := 0;
      while j < nAction
        invariant 0 <= j <= nAction && forall k | 0 <= k < j :: aAction[k].lookahead != k - (i - mnLookahead)
      {
        if aAction[j].lookahead == j + mnLookahead - i { return false; }
        j := j + 1;
      }
      unused := true;
    }

    /** Write the transaction into free slots, its smallest lookahead at index `i`. */
    method Place(i: nat)
      requires Valid() && nLookahead > 0 && i - mnLookahead + mxLookahead < aAction.Length
      modifies this`nAction, aAction
      ensures Valid() && Written(old(aAction[..]), old(nAction), i - mnLookahead, Pending(), aAction[..], nAction)
    {
      hide Written, SlotsOk, Transaction, IsMin, IsMax;
      ghost var slots, n, t := aAction[..], nAction, Pending();
      NothingWritten(slots, n, i - mnLookahead, t);
      Smallest(t, mnLookahead, mxLookahead);
      var j := 0;
      while j < nLookahead
        invariant 0 <= j <= nLookahead && Pending() == t
        invariant nAction <= aAction.Length && SlotsOk(aAction[..], nAction)
        invariant Written(slots, n, i - mnLookahead, t[..j], aAction[..], nAction)
      {
        assert t[j] == aLookahead[j];
        PlaceOne(i, aLookahead[j], slots, n, t, j);
        j := j + 1;
      }
      assert t[..nLookahead] == t;
    }

    method PlaceOne(i: nat, e: LookaheadAction, ghost slots: seq<LookaheadAction>, ghost n: nat,
                    ghost t: seq<LookaheadAction>, ghost j: nat)
      requires Transaction(t) && j < |t| && t[j] == e && e.lookahead >= 0
               && 0 <= e.lookahead - mnLookahead + i < aAction.Length
      requires nAction <= aAction.Length && SlotsOk(aAction[..], nAction)
      requires n <= |slots| && Written(slots, n, i - mnLookahead, t[..j], aAction[..], nAction)
      modifies this`nAction, aAction
      ensures nAction <= aAction.Length && SlotsOk(aAction[..], nAction)
      ensures Written(slots, n, i - mnLookahead, t[..j + 1], aAction[..], nAction)
    {
      hide Written, SlotsOk, Transaction;
      ghost var before := aAction[..];
      var k := e.lookahead - mnLookahead + i;
      StillOk(before, nAction, t[j], k);
      WriteOne(slots, n, i - mnLookahead, t, j, before, nAction, k);
      aAction[k] := e;
      if k >= nAction { nAction := k + 1; }
      assert aAction[..] == before[k := t[j]];
    }

    /** The two scans. */
    method Scan() returns (ofst: int)
      requires Valid() && nLookahead > 0 && nActionAlloc > nAction + Largest() + 1
      modifies this`nAction, aAction
      ensures Valid()
      ensures Scanned(old(aAction[..]), old(nAction), Pending(), mnLookahead, mxLookahead, aAction[..], nAction, ofst)
    {
      hide SlotsOk, Transaction, IsMin, IsMax, Exact, Hole, Free, Written, NoAlias, Placeable;
      ghost var slots, n, t, mn, mx := aAction[..], nAction, Pending(), mnLookahead, mxLookahead;
      var i := FindDuplicate();
      assert aAction[..] == slots && Pending() == t;
      ofst := i - mnLookahead;
      if i < 0 {
        Smallest(t, mn, mx);
        i := FindHole();
        assert aAction[..] == slots && Pending() == t;
        ScanEnds(slots, n, t, mn, mx, i);
        Place(i);
        ofst := i - mnLookahead;
      }
    }

    /** acttab_insert: add the current transaction to the table and start a new one. The result is the offset at
        which the transaction is found, and it is found exactly there if and only if it was placeable. */
    method Insert() returns (ofst: int)
      requires Valid() && nLookahead > 0
      modifies this, aAction
      ensures Valid() && nLookahead == 0 && aLookahead == old(aLookahead) && (aAction == old(aAction) || fresh(aAction))
      ensures Inserted(old(aAction[..]), old(nAction), old(Pending()), aAction[..], nAction, ofst)
      ensures Exact(aAction[..], nAction, ofst, old(Pending()))
              <==> old(Placeable(aAction[..], nAction, GrownAlloc(nActionAlloc, nAction, Largest()), Pending(),
                                 mnLookahead, mxLookahead))
      ensures old(Lands(aAction[..], nAction, Pending(), ofst))
      ensures old((exists p :: Exact(aAction[..], nAction, p, Pending())) ==>
                    && Exact(aAction[..], nAction, ofst, Pending())
                    && forall p | p > ofst :: !Exact(aAction[..], nAction, p, Pending()))
      ensures old((forall p :: !Exact(aAction[..], nAction, p, Pending())) ==>
                    var alloc := if nAction + mxLookahead + 1 >= nActionAlloc
                                 then nAction + mxLookahead + 1 + nActionAlloc + 20 else nActionAlloc;
                    && 0 <= ofst + mnLookahead <= alloc - mxLookahead
                    && (ofst + mnLookahead < alloc - mxLookahead ==> Hole(aAction[..], nAction, ofst, Pending()))
                    && forall p | 0 <= p + mnLookahead < ofst + mnLookahead ::
                         !Hole(aAction[..], nAction, p, Pending()))
      ensures nActionAlloc == old(GrownAlloc(nActionAlloc, nAction, Largest()))
              && old(Largest() == LargestOf(Pending()))
    {
      hide SlotsOk, Transaction, IsMin, IsMax, Exact, Placeable, Inserted, Lands, Scanned;
      ghost var slots, n, t, mn, mx := aAction[..], nAction, Pending(), mnLookahead, mxLookahead;
      Smallest(t, mn, mx);
      ExtremesUnique(t, mn, mx);
      EnsureRoom();
      ghost var grown := aAction[..];
      assert grown[..n] == aAction[..n] && slots[..n] == grown[..n];
      ofst := Scan();
      InsertOutcome(slots, grown, n, t, mn, mx, aAction[..], nAction, ofst);
      LandsFromScans(slots, grown, n, t, mn, mx, aAction[..], nAction, ofst);
      LandsWhere(slots, n, t, ofst);
      nLookahead := 0;
      EmptyTransaction(aLookahead[..nLookahead]);
    }
  }

  lemma EmptyTransaction(t: seq<LookaheadAction>)
    requires t == []
    ensures Transaction(t)
  {
  }

  lemma Smallest(t: seq<LookaheadAction>, mn: int, mx: int)
    requires Transaction(t) && IsMin(t, mn) && IsMax(t, mx)
    ensures 0 <= mn <= mx && forall j | 0 <= j < |t| :: mn <= t[j].lookahead <= mx
  {
  }

  lemma OneMore(t: seq<LookaheadAction>, e: LookaheadAction)
    requires Transaction(t) && e.lookahead >= 0 && forall j | 0 <= j < |t| :: t[j].lookahead != e.lookahead
    ensures Transaction(t + [e])
  {
  }

  /** The extremes of a transaction with one action more. */
  lemma Extremes(t: seq<LookaheadAction>, e: LookaheadAction, mn: int, mx: int)
    requires t != [] ==> IsMin(t, mn) && IsMax(t, mx)
    ensures IsMin(t + [e], if t == [] || mn > e.lookahead then e.lookahead else mn)
    ensures IsMax(t + [e], if t == [] || mx < e.lookahead then e.lookahead else mx)
  {
    var t' := t + [e];
    assert t'[|t|] == e;
    if t != [] {
      var j :| 0 <= j < |t| && t[j].lookahead == mn;
      var k :| 0 <= k < |t| && t[k].lookahead == mx;
      assert t'[j].lookahead == mn && t'[k].lookahead == mx;
    }
  }
}
