/** The packing of all rows into one table: the order of the insertions, what every insertion keeps, and when it
    makes some lookup go wrong. */
module Packing {
  import opened Grammars
  import opened Items
  import opened Structs
  import opened ActtabModule
  import opened R = Resort
  import A = Actions
  import Z = Compress
  import E = Encoding
  import States

  // ----- the order in which the rows are packed -----

  /** A row to be packed: the actions of state `stp` on terminals, or on nonterminals. */
  datatype Axset = Axset(stp: nat, isTkn: bool, nAction: nat, iOrder: nat)

  function AxsetCompare(a: Axset, b: Axset): int {
    if b.nAction != a.nAction then b.nAction - a.nAction else b.iOrder - a.iOrder
  }

  function AxsetOf(info: seq<Info>, sorted: seq<nat>, k: nat): Axset
    requires k < 2 * |sorted| && sorted[k / 2] < |info|
  {
    var i := info[sorted[k / 2]];
    if k % 2 == 0 then Axset(sorted[k / 2], true, i.nTknAct, k) else Axset(sorted[k / 2], false, i.nNtAct, k)
  }

  ghost predicate InRange(info: seq<Info>, sorted: seq<nat>) {
    forall p | 0 <= p < |sorted| :: sorted[p] < |info|
  }

  /** One row of terminals and one of nonterminals for every state, in the order of the state vector. */
  ghost function AllAxsets(info: seq<Info>, sorted: seq<nat>): (ax: seq<Axset>)
    requires InRange(info, sorted)
  {
    seq(2 * |sorted|, k requires 0 <= k < 2 * |sorted| => AxsetOf(info, sorted, k))
  }

  method Axsets(info: seq<Info>, sorted: seq<nat>) returns (ax: seq<Axset>)
    requires InRange(info, sorted)
    ensures ax == AllAxsets(info, sorted)
  {
    ax := [];
    for i := 0 to |sorted|
      invariant |ax| == 2 * i && forall k | 0 <= k < 2 * i :: ax[k] == AxsetOf(info, sorted, k)
    {
      var stp := sorted[i];
      ax := ax + [Axset(stp, true, info[stp].nTknAct, 2 * i), Axset(stp, false, info[stp].nNtAct, 2 * i + 1)];
    }
  }

  /** The rows as qsort leaves them. */
  ghost predicate RowsInOrder(info: seq<Info>, sorted: seq<nat>, ax: seq<Axset>)
    requires InRange(info, sorted)
  {
    multiset(ax) == multiset(AllAxsets(info, sorted)) && forall i, j | 0 <= i < j < |ax| ::
        AxsetCompare(ax[i], ax[j]) <= 0
  }

  /** The packing order: each row of each state once, the rows with most actions first. */
  ghost predicate PackingOrder(info: seq<Info>, ax: seq<Axset>) {
    && (forall k | 0 <= k < |ax| :: ax[k].stp < |info| && ax[k].nAction == CountOf(info[ax[k].stp], ax[k].isTkn))
    && (forall i, j | 0 <= i < j < |ax| ::
        ax[i].nAction >= ax[j].nAction && (ax[i].stp != ax[j].stp || ax[i].isTkn != ax[j].isTkn))
    && (forall q, b | 0 <= q < |info| :: OnList(ax, q, b))
  }

  ghost predicate OnList(ax: seq<Axset>, q: nat, b: bool) {
    exists k :: 0 <= k < |ax| && ax[k].stp == q && ax[k].isTkn == b
  }

  function CountOf(i: Info, isTkn: bool): nat {
    if isTkn then i.nTknAct else i.nNtAct
  }

  lemma AxsetsDistinct(info: seq<Info>, sorted: seq<nat>, statenum: seq<nat>, ax: seq<Axset>, k: nat, m: nat)
    requires IsRenumbering(|info|, sorted, statenum) && k < |ax| && m < |ax|
    requires |ax| == 2 * |sorted| && forall k | 0 <= k < |ax| :: ax[k] == AxsetOf(info, sorted, k)
    requires ax[k].stp == ax[m].stp && ax[k].isTkn == ax[m].isTkn
    ensures k == m
  {
    assert statenum[sorted[k / 2]] == k / 2 && statenum[sorted[m / 2]] == m / 2;
  }

  lemma UnsortedOrder(info: seq<Info>, sorted: seq<nat>, statenum: seq<nat>)
    requires IsRenumbering(|info|, sorted, statenum) && InRange(info, sorted)
    ensures var ax := AllAxsets(info, sorted); EachOnce(info, ax) && Distinct(ax)
  {
    var ax := AllAxsets(info, sorted);
    forall k, m | 0 <= k < m < |ax| ensures ax[k].stp != ax[m].stp || ax[k].isTkn != ax[m].isTkn {
      if ax[k].stp == ax[m].stp && ax[k].isTkn == ax[m].isTkn { AxsetsDistinct(info, sorted, statenum, ax, k, m); }
    }
    forall q, b | 0 <= q < |info| ensures OnList(ax, q, b) {
      var k := 2 * statenum[q] + if b then 0 else 1;
      assert k / 2 == statenum[q] && ax[k].stp == q && ax[k].isTkn == b;
    }
  }

  /** Each row of each state once, with its count. */
  ghost predicate EachOnce(info: seq<Info>, ax: seq<Axset>) {
    && (forall a | a in ax :: a.stp < |info| && a.nAction == CountOf(info[a.stp], a.isTkn))
    && (forall a, b | a in ax && b in ax && a != b :: a.stp != b.stp || a.isTkn != b.isTkn)
    && (forall q, b | 0 <= q < |info| :: OnList(ax, q, b))
  }

  /** The rows with most actions first; of those with as many, the later state first, and of one state the row of
      nonterminals. */
  lemma RowsOrdered(info: seq<Info>, sorted: seq<nat>, statenum: seq<nat>, r: seq<Axset>)
    requires IsRenumbering(|info|, sorted, statenum) && InRange(info, sorted) && RowsInOrder(info, sorted, r)
    ensures forall k | 0 <= k < |r| :: r[k].stp < |statenum|
                                       && r[k].iOrder == 2 * statenum[r[k].stp] + if r[k].isTkn then 0 else 1
    ensures forall i, j | 0 <= i < j < |r| :: r[i].nAction > r[j].nAction || (r[i].nAction == r[j].nAction
                                                                              && r[i].iOrder > r[j].iOrder)
  {
    var ax := AllAxsets(info, sorted);
    UnsortedOrder(info, sorted, statenum);
    States.SameElements(ax, r);
    forall k | 0 <= k < |r|
      ensures r[k].stp < |statenum| && r[k].iOrder == 2 * statenum[r[k].stp] + if r[k].isTkn then 0 else 1
    {
      assert r[k] in r;
      var m :| 0 <= m < |ax| && ax[m] == r[k];
      assert ax[m] == AxsetOf(info, sorted, m) && statenum[sorted[m / 2]] == m / 2;
    }
    forall i, j | 0 <= i < j < |r|
      ensures r[i].nAction > r[j].nAction || (r[i].nAction == r[j].nAction && r[i].iOrder > r[j].iOrder)
    {
      assert AxsetCompare(r[i], r[j]) <= 0 && r[i] != r[j];
      assert r[i] in r && r[j] in r;
    }
  }

  lemma SortedAxsets(info: seq<Info>, sorted: seq<nat>, statenum: seq<nat>, r: seq<Axset>)
    requires IsRenumbering(|info|, sorted, statenum) && InRange(info, sorted) && RowsInOrder(info, sorted, r)
    ensures PackingOrder(info, r)
    ensures forall k | 0 <= k < |r| :: r[k].stp < |statenum|
                                       && r[k].iOrder == 2 * statenum[r[k].stp] + if r[k].isTkn then 0 else 1
    ensures forall i, j | 0 <= i < j < |r| :: r[i].nAction > r[j].nAction || (r[i].nAction == r[j].nAction
                                                                              && r[i].iOrder > r[j].iOrder)
  {
    var ax := AllAxsets(info, sorted);
    UnsortedOrder(info, sorted, statenum);
    RowsOrdered(info, sorted, statenum, r);
    hide AllAxsets, IsRenumbering;
    States.SameElements(ax, r);
    forall k | 0 <= k < |r| ensures r[k] in ax {
      assert r[k] in r;
    }
    forall q, b | 0 <= q < |info| ensures OnList(r, q, b) {
      assert OnList(ax, q, b);
      var k :| 0 <= k < |ax| && ax[k].stp == q && ax[k].isTkn == b;
      assert ax[k] in r;
    }
    hide OnList, CountOf;
  }

  // ----- rows -----

  /** Where the rows come from: a grammar, the state vector, and the final number of every state. */
  datatype Source = Source(g: Grammar, ss: seq<State>, statenum: seq<nat>)

  ghost predicate AllShiftsInto(n: nat, ss: seq<State>) {
    forall q | 0 <= q < |ss| :: E.ShiftsInto(n, ss[q].ap)
  }

  function Row(c: Source, q: nat, isTkn: bool): seq<LookaheadAction>
    requires AllShiftsInto(|c.statenum|, c.ss) && q < |c.ss|
  {
    E.Entries(c.g, c.statenum, c.ss[q].ap, isTkn)
  }

  /** The code of the default of state `q`. */
  function Dflt(c: Source, q: nat): nat
    requires q < |c.ss|
  {
    DefaultCode(c.g, |c.ss|, c.ss[q].ap)
  }

  function OfstOf(i: Info, isTkn: bool): int {
    if isTkn then i.iTknOfst else i.iNtOfst
  }

  function SetOfst(i: Info, isTkn: bool, ofst: int): Info {
    if isTkn then i.(iTknOfst := ofst) else i.(iNtOfst := ofst)
  }

  /** What the rows are like: transactions on symbols, terminals in the one and nonterminals in the other. */
  ghost predicate RowsOk(c: Source) {
    && AllShiftsInto(|c.statenum|, c.ss)
    && (forall q: nat, b | q < |c.ss| :: Transaction(Row(c, q, b)))
    && (forall q: nat, b, e | q < |c.ss| && e in Row(c, q, b) :: SymbolOk(c.g, b, e))
  }

  ghost predicate SymbolOk(g: Grammar, isTkn: bool, e: LookaheadAction) {
    e.lookahead < g.nsymbol && e.action >= 0 && (isTkn <==> e.lookahead < g.nterminal)
  }

  lemma CodableRows(c: Source)
    requires Valid(c.g) && AllCodable(c.g, c.ss) && |c.statenum| == |c.ss|
    ensures RowsOk(c)
  {
    assert c.g.nterminal <= c.g.nsymbol;
    hide Valid;
    forall q: nat, b | q < |c.ss|
      ensures Transaction(Row(c, q, b)) && forall e | e in Row(c, q, b) :: SymbolOk(c.g, b, e)
    {
      E.EntriesTransaction(c.g, c.statenum, c.ss[q].ap, b);
      forall e | e in Row(c, q, b) ensures SymbolOk(c.g, b, e) {
        E.EntriesMember(c.g, c.statenum, c.ss[q].ap, b, e);
      }
    }
  }

  /** The counts by which the rows are ordered are those of the rows. */
  lemma CountsAreRows(c: Source, info: seq<Info>, q: nat, b: bool)
    requires AllCounted(c.g, c.ss, info) && |c.statenum| == |c.ss| && AllShiftsInto(|c.ss|, c.ss) && q < |c.ss|
    ensures CountOf(info[q], b) == |Row(c, q, b)|
  {
    E.EntriesCount(c.g, OwnNumbers(|c.ss|), c.statenum, c.ss[q].ap, b);
  }

  // ----- the state of the packing -----

  /** The table and the offsets at some moment. */
  datatype Stage = Stage(slots: seq<LookaheadAction>, n: nat, info: seq<Info>)

  /** mnTknOfst, mxTknOfst, mnNtOfst and mxNtOfst, which start at zero. */
  datatype Bounds = Bounds(mnTkn: int, mxTkn: int, mnNt: int, mxNt: int)

  function Least(b: Bounds, isTkn: bool): int {
    if isTkn then b.mnTkn else b.mnNt
  }

  function Most(b: Bounds, isTkn: bool): int {
    if isTkn then b.mxTkn else b.mxNt
  }

  function Widen(b: Bounds, isTkn: bool, ofst: int): Bounds {
    if isTkn then
      b.(mnTkn := if ofst < b.mnTkn then ofst else b.mnTkn, mxTkn := if ofst > b.mxTkn then ofst else b.mxTkn)
    else
      b.(mnNt := if ofst < b.mnNt then ofst else b.mnNt, mxNt := if ofst > b.mxNt then ofst else b.mxNt)
  }

  /** A row that has been packed has a real offset within the bounds, and all its actions are found there; a row that
      has not been packed has none. */
  ghost predicate RowState(row: seq<LookaheadAction>, ofst: int, packed: bool, s: Stage, mn: int, mx: int)
    requires s.n <= |s.slots|
  {
    if packed then row != [] && ofst > NO_OFFSET && mn <= ofst <= mx
       && Found(s.slots, s.n, ofst, row) else ofst == NO_OFFSET
  }

  /** A bound is zero or the offset of a packed row. */
  ghost predicate Reached(info: seq<Info>, done: set<(nat, bool)>, isTkn: bool, v: int) {
    v == 0 || exists q: nat :: q < |info| && (q, isTkn) in done && OfstOf(info[q], isTkn) == v
  }

  ghost predicate BoundsOk(info: seq<Info>, done: set<(nat, bool)>, b: Bounds) {
    forall isTkn ::
      Least(b, isTkn) <= 0 <= Most(b, isTkn) && Reached(info, done, isTkn, Least(b, isTkn))
          && Reached(info, done, isTkn, Most(b, isTkn))
  }

  /** The rows in `done` have been inserted. */
  ghost predicate PackedSoFar(c: Source, done: set<(nat, bool)>, s: Stage, b: Bounds) {
    && AllShiftsInto(|c.statenum|, c.ss) && |s.info| == |c.ss| && s.n <= |s.slots| && BoundsOk(s.info, done, b)
    && forall q: nat, tkn | q < |c.ss| ::
         RowState(Row(c, q, tkn), OfstOf(s.info[q], tkn), (q, tkn) in done, s, Least(b, tkn), Most(b, tkn))
  }

  /** One row is inserted where acttab_insert puts it. */
  ghost predicate PackStep(c: Source, q: nat, tkn: bool, s: Stage, s': Stage, o: int)
    requires AllShiftsInto(|c.statenum|, c.ss) && q < |c.ss|
  {
    && |s.info| == |c.ss| && s.n <= |s.slots| && SlotsOk(s'.slots, s'.n)
    && Lands(s.slots, s.n, Row(c, q, tkn), o) && Inserted(s.slots, s.n, Row(c, q, tkn), s'.slots, s'.n, o)
    && |s'.slots| == GrownAlloc(|s.slots|, s.n, LargestOf(Row(c, q, tkn)))
    && s'.info == s.info[q := SetOfst(s.info[q], tkn, o)]
  }

  lemma RowStep(u: seq<LookaheadAction>, o: int, packed: bool, s: Stage, mn: int, mx: int,
                t: seq<LookaheadAction>, ofst: int, s': Stage, mn': int, mx': int)
    requires s.n <= |s.slots| && s'.n <= |s'.slots| && Transaction(u) && mn' <= mn && mx <= mx'
    requires RowState(u, o, packed, s, mn, mx) && Inserted(s.slots, s.n, t, s'.slots, s'.n, ofst)
    ensures RowState(u, o, packed, s', mn', mx')
  {
    hide Inserted, Transaction, Found;
    if packed {
      FoundKept(s.slots, s.n, t, s'.slots, s'.n, ofst, o, u);
    }
  }

  lemma NewRow(t: seq<LookaheadAction>, s: Stage, ofst: int, s': Stage, mn: int, mx: int)
    requires s.n <= |s.slots| && s'.n <= |s'.slots| && t != [] && ofst > NO_OFFSET && mn <= ofst <= mx
    requires Inserted(s.slots, s.n, t, s'.slots, s'.n, ofst)
    ensures RowState(t, ofst, true, s', mn, mx)
  {
    InsertedFound(s.slots, s.n, t, s'.slots, s'.n, ofst);
  }

  lemma BoundsStep(info: seq<Info>, done: set<(nat, bool)>, b: Bounds, q: nat, tkn: bool, o: int)
    requires BoundsOk(info, done, b) && q < |info| && (q, tkn) !in done
    ensures BoundsOk(info[q := SetOfst(info[q], tkn, o)], done + {(q, tkn)}, Widen(b, tkn, o))
  {
    var info', done', b' := info[q := SetOfst(info[q], tkn, o)], done + {(q, tkn)}, Widen(b, tkn, o);
    forall isTkn
      ensures Least(b', isTkn) <= 0 <= Most(b', isTkn)
      ensures Reached(info', done', isTkn, Least(b', isTkn)) && Reached(info', done', isTkn, Most(b', isTkn))
    {
      assert Reached(info, done, isTkn, Least(b, isTkn)) && Reached(info, done, isTkn, Most(b, isTkn));
      assert OfstOf(info'[q], tkn) == o && (q, tkn) in done';
      StillReached(info, done, isTkn, Least(b, isTkn), q, tkn, o);
      StillReached(info, done, isTkn, Most(b, isTkn), q, tkn, o);
    }
  }

  lemma StillReached(info: seq<Info>, done: set<(nat, bool)>, isTkn: bool, v: int, q: nat, tkn: bool, o: int)
    requires Reached(info, done, isTkn, v) && q < |info| && (q, tkn) !in done
    ensures Reached(info[q := SetOfst(info[q], tkn, o)], done + {(q, tkn)}, isTkn, v)
  {
    if v != 0 {
      var p: nat :| p < |info| && (p, isTkn) in done && OfstOf(info[p], isTkn) == v;
      assert OfstOf(info[q := SetOfst(info[q], tkn, o)][p], isTkn) == v;
    }
  }

  /** One more row: all the others keep their offsets, and all actions of all rows stay found. */
  lemma PackOne(c: Source, done: set<(nat, bool)>, s: Stage, b: Bounds, q: nat, tkn: bool, s': Stage, o: int)
    requires RowsOk(c) && PackedSoFar(c, done, s, b) && q < |c.ss| && (q, tkn) !in done && o > NO_OFFSET
    requires PackStep(c, q, tkn, s, s', o)
    ensures PackedSoFar(c, done + {(q, tkn)}, s', Widen(b, tkn, o))
  {
    var t, b' := Row(c, q, tkn), Widen(b, tkn, o);
    assert t != [];
    BoundsStep(s.info, done, b, q, tkn, o);
    hide Inserted, Transaction, E.Entries, AllShiftsInto, RowState, BoundsOk, Lands, SymbolOk;
    forall p: nat, k | p < |c.ss|
      ensures RowState(Row(c, p, k), OfstOf(s'.info[p], k), (p, k) in done + {(q, tkn)}, s', Least(b', k), Most(b', k))
    {
      if (p, k) != (q, tkn) {
        RowStep(Row(c, p, k), OfstOf(s.info[p], k), (p, k) in done, s, Least(b, k), Most(b, k), t, o, s', Least(b', k),
                Most(b', k));
        assert OfstOf(s'.info[p], k) == OfstOf(s.info[p], k) && ((p, k) in done + {(q, tkn)} <==> (p, k) in done);
      } else {
        NewRow(t, s, o, s', Least(b', k), Most(b', k));
      }
    }
  }

  // ----- strays -----

  /** Slot `k` gives a terminal, looked up at the offset of a row that does not have it, an action other than the
      default. */
  ghost predicate Stray(g: Grammar, s: Stage, o: int, row: seq<LookaheadAction>, dflt: int, k: int)
    requires s.n <= |s.slots|
  {
    0 <= k < s.n && Points(s.slots, k, o) && s.slots[k].lookahead < g.nterminal && s.slots[k] !in row
        && s.slots[k].action != dflt
  }

  ghost predicate NoStray(g: Grammar, s: Stage, o: int, row: seq<LookaheadAction>, dflt: int)
    requires s.n <= |s.slots|
  {
    forall k :: !Stray(g, s, o, row, dflt, k)
  }

  /** No terminal row that has been packed has a stray. */
  ghost predicate NoStrays(c: Source, done: set<(nat, bool)>, s: Stage)
    requires AllShiftsInto(|c.statenum|, c.ss) && |s.info| == |c.ss| && s.n <= |s.slots|
  {
    forall q: nat | q < |c.ss| && (q, true) in done ::
        NoStray(c.g, s, OfstOf(s.info[q], true), Row(c, q, true), Dflt(c, q))
  }

  /** None of the row's actions would be a stray for state `p`. */
  ghost predicate SafeFor(c: Source, row: seq<LookaheadAction>, p: nat)
    requires AllShiftsInto(|c.statenum|, c.ss) && p < |c.ss|
  {
    forall e | e in row && e !in Row(c, p, true) :: e.action == Dflt(c, p)
  }

  /** The condition, on the table before the call, that inserting a row at offset `o` makes no lookup go wrong: a
      terminal row has no stray there, and is not one for a row that has this offset already. */
  ghost predicate Harmless(c: Source, done: set<(nat, bool)>, s: Stage, q: nat, tkn: bool, o: int)
    requires AllShiftsInto(|c.statenum|, c.ss) && |s.info| == |c.ss| && s.n <= |s.slots| && q < |c.ss|
  {
    tkn ==>
      && NoStray(c.g, s, o, Row(c, q, true), Dflt(c, q))
      && forall p: nat | p < |c.ss| && (p, true) in done && OfstOf(s.info[p], true) == o ::
          SafeFor(c, Row(c, q, true), p)
  }

  lemma StrayStays(g: Grammar, s: Stage, t: seq<LookaheadAction>, s': Stage, ofst: int, o: int,
                   row: seq<LookaheadAction>, dflt: int, k: int)
    requires s.n <= |s.slots| && s'.n <= |s'.slots| && Inserted(s.slots, s.n, t, s'.slots, s'.n, ofst)
    requires Stray(g, s, o, row, dflt, k)
    ensures Stray(g, s', o, row, dflt, k)
  {
    InsertedSlot(s.slots, s.n, t, s'.slots, s'.n, ofst, k);
  }

  /** A new stray is one of the inserted actions, and the row has the offset of the insertion. */
  lemma StrayIsNew(g: Grammar, s: Stage, t: seq<LookaheadAction>, s': Stage, ofst: int, o: int,
                   row: seq<LookaheadAction>, dflt: int, k: int)
    requires s.n <= |s.slots| && s'.n <= |s'.slots| && Transaction(t) && Inserted(s.slots, s.n, t, s'.slots, s'.n, ofst)
    requires Stray(g, s', o, row, dflt, k) && !Stray(g, s, o, row, dflt, k)
    ensures o == ofst && s'.slots[k] in t
  {
    if k < s.n && s.slots[k].lookahead >= 0 {
      InsertedSlot(s.slots, s.n, t, s'.slots, s'.n, ofst, k);
    } else {
      InsertedNew(s.slots, s.n, t, s'.slots, s'.n, ofst, k);
    }
  }

  /** For a row packed before: it stays without strays exactly if it was and the insertion is safe for it. */
  lemma OtherRow(c: Source, s: Stage, q: nat, tkn: bool, s': Stage, ofst: int, p: nat, o: int)
    requires RowsOk(c) && s.n <= |s.slots| && s'.n <= |s'.slots| && q < |c.ss| && p < |c.ss|
    requires Inserted(s.slots, s.n, Row(c, q, tkn), s'.slots, s'.n, ofst)
    ensures NoStray(c.g, s', o, Row(c, p, true), Dflt(c, p))
            <==> NoStray(c.g, s, o, Row(c, p, true), Dflt(c, p)) && (tkn && o == ofst ==> SafeFor(c, Row(c, q, tkn), p))
  {
    hide Inserted, E.Entries, AllShiftsInto, DefaultCode;
    var t, u, d := Row(c, q, tkn), Row(c, p, true), Dflt(c, p);
    forall k | Stray(c.g, s, o, u, d, k) ensures Stray(c.g, s', o, u, d, k) {
      StrayStays(c.g, s, t, s', ofst, o, u, d, k);
    }
    forall k | Stray(c.g, s', o, u, d, k) && !Stray(c.g, s, o, u, d, k) ensures o == ofst && tkn && !SafeFor(c, t, p) {
      StrayIsNew(c.g, s, t, s', ofst, o, u, d, k);
      assert SymbolOk(c.g, tkn, s'.slots[k]);
    }
    if tkn && o == ofst && !SafeFor(c, t, p) {
      var e :| e in t && e !in u && e.action != d;
      StrayOfRow(c, s, q, s', ofst, e);
      assert Stray(c.g, s', o, u, d, ofst + e.lookahead);
    }
  }

  lemma StrayOfRow(c: Source, s: Stage, q: nat, s': Stage, ofst: int, e: LookaheadAction)
    requires RowsOk(c) && s.n <= |s.slots| && s'.n <= |s'.slots| && q < |c.ss| && e in Row(c, q, true)
    requires Inserted(s.slots, s.n, Row(c, q, true), s'.slots, s'.n, ofst)
    ensures var k := ofst + e.lookahead;
            0 <= k < s'.n && s'.slots[k] == e && Points(s'.slots, k, ofst) && e.lookahead < c.g.nterminal
  {
    hide Inserted;
    InsertedFound(s.slots, s.n, Row(c, q, true), s'.slots, s'.n, ofst);
    assert SymbolOk(c.g, true, e);
    var j :| 0 <= j < |Row(c, q, true)| && Row(c, q, true)[j] == e;
    assert Transaction(Row(c, q, true));
  }

  /** The new row has strays exactly if the table had some for it at that offset. */
  lemma OwnRow(c: Source, s: Stage, q: nat, s': Stage, ofst: int)
    requires RowsOk(c) && s.n <= |s.slots| && s'.n <= |s'.slots| && q < |c.ss|
    requires Inserted(s.slots, s.n, Row(c, q, true), s'.slots, s'.n, ofst)
    ensures NoStray(c.g, s', ofst, Row(c, q, true), Dflt(c, q)) <==> NoStray(c.g, s, ofst, Row(c, q, true), Dflt(c, q))
  {
    hide Inserted, E.Entries, AllShiftsInto, DefaultCode;
    var t, d := Row(c, q, true), Dflt(c, q);
    forall k | Stray(c.g, s, ofst, t, d, k) ensures Stray(c.g, s', ofst, t, d, k) {
      StrayStays(c.g, s, t, s', ofst, ofst, t, d, k);
    }
    forall k | Stray(c.g, s', ofst, t, d, k) ensures Stray(c.g, s, ofst, t, d, k) {
      if !Stray(c.g, s, ofst, t, d, k) {
        StrayIsNew(c.g, s, t, s', ofst, ofst, t, d, k);
      }
    }
  }

  /** One insertion leaves all rows without strays exactly if they had none and it was harmless. */
  lemma HarmlessDecides(c: Source, done: set<(nat, bool)>, s: Stage, q: nat, tkn: bool, s': Stage, o: int)
    requires RowsOk(c) && q < |c.ss| && (q, tkn) !in done && PackStep(c, q, tkn, s, s', o)
    ensures NoStrays(c, done + {(q, tkn)}, s') <==> NoStrays(c, done, s) && Harmless(c, done, s, q, tkn, o)
  {
    var done' := done + {(q, tkn)};
    if tkn { OwnRow(c, s, q, s', o); }
    hide Inserted, E.Entries, AllShiftsInto, NoStray, SafeFor, Lands, DefaultCode;
    forall p: nat | p < |c.ss| && (p, true) in done
      ensures OfstOf(s'.info[p], true) == OfstOf(s.info[p], true)
      ensures NoStray(c.g, s', OfstOf(s'.info[p], true), Row(c, p, true), Dflt(c, p)) <==>
                NoStray(c.g, s, OfstOf(s.info[p], true), Row(c, p, true), Dflt(c, p))
                && (tkn && OfstOf(s.info[p], true) == o ==> SafeFor(c, Row(c, q, tkn), p))
    {
      OtherRow(c, s, q, tkn, s', o, p, OfstOf(s.info[p], true));
    }
    assert tkn ==> OfstOf(s'.info[q], true) == o;
    HarmlessParts(c, done, s, q, tkn, s', o);
  }

  lemma HarmlessParts(c: Source, done: set<(nat, bool)>, s: Stage, q: nat, tkn: bool, s': Stage, o: int)
    requires AllShiftsInto(|c.statenum|, c.ss) && q < |c.ss| && (q, tkn) !in done
    requires |s.info| == |c.ss| == |s'.info| && s.n <= |s.slots| && s'.n <= |s'.slots|
    requires tkn ==> OfstOf(s'.info[q], true) == o
                     && (NoStray(c.g, s', o, Row(c, q, true), Dflt(c, q)) <==>
                         NoStray(c.g, s, o, Row(c, q, true), Dflt(c, q)))
    requires forall p: nat | p < |c.ss| && (p, true) in done ::
               NoStray(c.g, s', OfstOf(s'.info[p], true), Row(c, p, true), Dflt(c, p)) <==>
                 NoStray(c.g, s, OfstOf(s.info[p], true), Row(c, p, true), Dflt(c, p))
                 && (tkn && OfstOf(s.info[p], true) == o ==> SafeFor(c, Row(c, q, tkn), p))
    ensures NoStrays(c, done + {(q, tkn)}, s') <==> NoStrays(c, done, s) && Harmless(c, done, s, q, tkn, o)
  {
    hide E.Entries, AllShiftsInto, NoStray, SafeFor, DefaultCode;
    var done' := done + {(q, tkn)};
    assert forall p: nat :: (p, true) in done' <==> (p, true) in done || (tkn && p == q);
    if NoStrays(c, done', s') {
      assert tkn ==> (q, true) in done';
      assert forall p: nat | p < |c.ss| && (p, true) in done :: (p, true) in done';
    }
  }

  /** An insertion that reuses a duplicate, or ends in a hole, or at an offset that is not in use, does no harm. */
  lemma PlaceableIsHarmless(c: Source, done: set<(nat, bool)>, s: Stage, b: Bounds, q: nat, tkn: bool, o: int)
    requires RowsOk(c) && PackedSoFar(c, done, s, b) && NoStrays(c, done, s) && q < |c.ss|
    requires var t := Row(c, q, tkn);
             && Lands(s.slots, s.n, t, o)
             && Placeable(s.slots, s.n, GrownAlloc(|s.slots|, s.n, LargestOf(t)), t, LeastOf(t), LargestOf(t))
    ensures Harmless(c, done, s, q, tkn, o)
  {
    var t := Row(c, q, tkn);
    LandsWell(s, t, o);
    hide Lands, Placeable, E.Entries, AllShiftsInto, GrownAlloc, LargestOf, LeastOf, BoundsOk, DefaultCode;
    if tkn {
      forall p: nat | p < |c.ss| && (p, true) in done && OfstOf(s.info[p], true) == o ensures SafeFor(c, t, p) {
        assert RowState(Row(c, p, true), OfstOf(s.info[p], true), (p, true) in done, s, Least(b, true), Most(b, true));
        assert NoStray(c.g, s, o, Row(c, p, true), Dflt(c, p));
        NoNewStray(c, s, q, p, o);
      }
    }
  }

  /** Where a placeable transaction lands nothing is found, or exactly the transaction. */
  lemma LandsWell(s: Stage, t: seq<LookaheadAction>, o: int)
    requires s.n <= |s.slots| && Lands(s.slots, s.n, t, o)
    requires Placeable(s.slots, s.n, GrownAlloc(|s.slots|, s.n, LargestOf(t)), t, LeastOf(t), LargestOf(t))
    ensures NoAlias(s.slots, s.n, o) || Exact(s.slots, s.n, o, t)
  {
    hide Exact;
    assert forall p | Hole(s.slots, s.n, p, t) :: NoAlias(s.slots, s.n, p);
    hide Hole, NoAlias;
  }

  lemma NoNewStray(c: Source, s: Stage, q: nat, p: nat, o: int)
    requires RowsOk(c) && q < |c.ss| && p < |c.ss| && s.n <= |s.slots|
    requires NoAlias(s.slots, s.n, o) || Exact(s.slots, s.n, o, Row(c, q, true))
    requires Row(c, p, true) != [] && Found(s.slots, s.n, o, Row(c, p, true))
             && NoStray(c.g, s, o, Row(c, p, true), Dflt(c, p))
    ensures SafeFor(c, Row(c, q, true), p)
  {
    var u := Row(c, p, true);
    assert u[0].lookahead >= 0 && Points(s.slots, o + u[0].lookahead, o);
    forall e | e in Row(c, q, true) && e !in u ensures e.action == Dflt(c, p) {
      assert SymbolOk(c.g, true, e);
      var j :| 0 <= j < |Row(c, q, true)| && Row(c, q, true)[j] == e;
      assert !Stray(c.g, s, o, u, Dflt(c, p), o + e.lookahead);
    }
  }

  // ----- the run -----

  ghost function DoneBy(ax: seq<Axset>, k: nat): set<(nat, bool)>
    requires k <= |ax|
  {
    set j | 0 <= j < k :: (ax[j].stp, ax[j].isTkn)
  }

  /** The stages of packing the first rows of `ax`: stage `k` is what row `k` finds. */
  ghost predicate PackRun(c: Source, ax: seq<Axset>, h: seq<Stage>) {
    && AllShiftsInto(|c.statenum|, c.ss) && 0 < |h| <= |ax| + 1 && (forall k | 0 <= k < |h| - 1 :: ax[k].stp < |c.ss|)
    && h[0].slots == [] && h[0].n == 0 && |h[0].info| == |c.ss|
    && (forall q: nat, tkn | q < |c.ss| :: OfstOf(h[0].info[q], tkn) == NO_OFFSET)
    && (forall k | 0 <= k < |h| :: |h[k].info| == |c.ss| && h[k].n <= |h[k].slots|)
    && forall k | 0 <= k < |h| - 1 :: Packs(c, ax[k], h[k], h[k + 1])
  }

  ghost predicate Packs(c: Source, a: Axset, s: Stage, s': Stage)
    requires AllShiftsInto(|c.statenum|, c.ss) && a.stp < |c.ss|
  {
    exists o :: PackStep(c, a.stp, a.isTkn, s, s', o)
  }

  /** Where a row has been put does not change any more. */
  lemma {:induction false} OffsetStays(c: Source, ax: seq<Axset>, h: seq<Stage>, k: nat, m: nat)
    requires PackRun(c, ax, h) && OnceEach(ax) && k < m < |h|
    ensures ax[k].stp < |c.ss|
    ensures OfstOf(h[m].info[ax[k].stp], ax[k].isTkn) == OfstOf(h[k + 1].info[ax[k].stp], ax[k].isTkn)
    decreases m
  {
    hide Lands, Inserted, SlotsOk, AllShiftsInto, Row, GrownAlloc, LargestOf;
    if m > k + 1 {
      OffsetStays(c, ax, h, k, m - 1);
      var o := StepOf(c, ax, h, m - 1);
      assert ax[k].stp != ax[m - 1].stp || ax[k].isTkn != ax[m - 1].isTkn;
    }
  }

  lemma StepOf(c: Source, ax: seq<Axset>, h: seq<Stage>, k: nat) returns (o: int)
    requires PackRun(c, ax, h) && k < |h| - 1
    ensures PackStep(c, ax[k].stp, ax[k].isTkn, h[k], h[k + 1], o)
  {
    hide PackStep;
    assert Packs(c, ax[k], h[k], h[k + 1]);
    o :| PackStep(c, ax[k].stp, ax[k].isTkn, h[k], h[k + 1], o);
  }

  ghost predicate CodesOk(s: Stage)
    requires s.n <= |s.slots|
  {
    forall i | 0 <= i < s.n && s.slots[i].lookahead >= 0 :: s.slots[i].action >= 0
  }

  lemma CodesStep(c: Source, q: nat, tkn: bool, s: Stage, s': Stage, o: int)
    requires RowsOk(c) && q < |c.ss| && PackStep(c, q, tkn, s, s', o) && CodesOk(s)
    ensures CodesOk(s')
  {
    var t := Row(c, q, tkn);
    hide Inserted, Lands, E.Entries, GrownAlloc, LargestOf;
    forall i | 0 <= i < s'.n && s'.slots[i].lookahead >= 0 ensures s'.slots[i].action >= 0 {
      if i < s.n && s.slots[i].lookahead >= 0 {
        InsertedSlot(s.slots, s.n, t, s'.slots, s'.n, o, i);
      } else {
        InsertedNew(s.slots, s.n, t, s'.slots, s'.n, o, i);
        assert SymbolOk(c.g, tkn, s'.slots[i]);
      }
    }
  }

  /** A slot in use holds an action of some row, so its code is not negative. */
  lemma {:induction false} SlotsHoldCodes(c: Source, ax: seq<Axset>, h: seq<Stage>, k: nat)
    requires RowsOk(c) && PackRun(c, ax, h) && k < |h|
    ensures CodesOk(h[k])
    decreases k
  {
    hide PackStep, Packs, RowsOk, Row;
    if k > 0 {
      SlotsHoldCodes(c, ax, h, k - 1);
      var o := StepOf(c, ax, h, k - 1);
      CodesStep(c, ax[k - 1].stp, ax[k - 1].isTkn, h[k - 1], h[k], o);
    }
  }

  /** What can be told before row `k` is inserted: wherever it lands, that is harmless. */
  ghost predicate SafeToPack(c: Source, ax: seq<Axset>, h: seq<Stage>, k: nat)
    requires PackRun(c, ax, h) && k < |h| - 1
  {
    forall o | Lands(h[k].slots, h[k].n, Row(c, ax[k].stp, ax[k].isTkn), o) ::
      Harmless(c, DoneBy(ax, k), h[k], ax[k].stp, ax[k].isTkn, o)
  }

  ghost predicate AllSafe(c: Source, ax: seq<Axset>, h: seq<Stage>)
    requires PackRun(c, ax, h)
  {
    forall k | 0 <= k < |h| - 1 :: SafeToPack(c, ax, h, k)
  }

  /** No row is packed twice. */
  ghost predicate OnceEach(ax: seq<Axset>) {
    forall i, j | 0 <= i < j < |ax| :: ax[i].stp != ax[j].stp || ax[i].isTkn != ax[j].isTkn
  }

  lemma NextDone(ax: seq<Axset>, k: nat)
    requires OnceEach(ax) && k < |ax|
    ensures (ax[k].stp, ax[k].isTkn) !in DoneBy(ax, k)
            && DoneBy(ax, k + 1) == DoneBy(ax, k) + {(ax[k].stp, ax[k].isTkn)}
  {
  }

  lemma SafeIsHarmless(c: Source, ax: seq<Axset>, h: seq<Stage>, k: nat, o: int)
    requires PackRun(c, ax, h) && k < |h| - 1 && PackStep(c, ax[k].stp, ax[k].isTkn, h[k], h[k + 1], o)
    ensures SafeToPack(c, ax, h, k) <==> Harmless(c, DoneBy(ax, k), h[k], ax[k].stp, ax[k].isTkn, o)
  {
    hide Inserted, Lands, Harmless;
    var row := Row(c, ax[k].stp, ax[k].isTkn);
    forall p | Lands(h[k].slots, h[k].n, row, p) ensures p == o {
      LandsOnce(h[k].slots, h[k].n, row, o, p);
    }
  }

  /** After any run no terminal row has a stray if and only if every insertion was safe, each told from the table
      before it. */
  lemma {:induction false} SafeDecides(c: Source, ax: seq<Axset>, h: seq<Stage>, k: nat)
    requires RowsOk(c) && PackRun(c, ax, h) && OnceEach(ax) && k < |h|
    ensures NoStrays(c, DoneBy(ax, k), h[k]) <==> forall i | 0 <= i < k :: SafeToPack(c, ax, h, i)
    decreases k
  {
    hide PackStep, Packs, RowsOk, Row, Harmless, SafeToPack, OnceEach, AllShiftsInto;
    if k > 0 {
      var i := k - 1;
      SafeDecides(c, ax, h, i);
      var o := StepOf(c, ax, h, i);
      NextDone(ax, i);
      HarmlessDecides(c, DoneBy(ax, i), h[i], ax[i].stp, ax[i].isTkn, h[k], o);
      SafeIsHarmless(c, ax, h, i, o);
    }
  }

  // ----- the acttab calls -----

  /** The acttab_action calls of one row. */
  method AddRow(tab: Acttab, g: Grammar, statenum: seq<nat>, ap: seq<Action>, isTkn: bool)
    requires tab.Valid() && tab.nLookahead == 0 && E.Codable(g, |statenum|, ap)
    modifies tab, tab.aLookahead
    ensures tab.Valid() && tab.aAction == old(tab.aAction)
            && (tab.aLookahead == old(tab.aLookahead) || fresh(tab.aLookahead))
    ensures tab.nAction == old(tab.nAction) && tab.aAction[..] == old(tab.aAction[..])
    ensures E.ShiftsInto(|statenum|, ap) && tab.Pending() == E.Entries(g, statenum, ap, isTkn)
  {
    ghost var slots := tab.aAction[..];
    for k := 0 to |ap|
      invariant tab.Valid() && tab.aAction == old(tab.aAction)
                && (tab.aLookahead == old(tab.aLookahead) || fresh(tab.aLookahead))
      invariant tab.nAction == old(tab.nAction) && tab.aAction[..] == slots
      invariant E.ShiftsInto(|statenum|, ap[..k]) && tab.Pending() == E.Entries(g, statenum, ap[..k], isTkn)
    {
      NextEntry(g, statenum, ap, isTkn, k);
      if isTkn {
        if ap[k].sp >= g.nterminal { continue; }
      } else {
        if ap[k].sp < g.nterminal { continue; }
        if ap[k].sp == g.nsymbol { continue; }
      }
      var action := E.ComputeAction(|statenum|, |g.rules|, statenum, ap[k]);
      if action < 0 { continue; }
      ghost var pending := tab.Pending();
      assert forall j | 0 <= j < tab.nLookahead :: tab.aLookahead[j] == pending[j];
      tab.AddAction(ap[k].sp, action);
    }
    assert ap[..|ap|] == ap;
  }

  lemma NextEntry(g: Grammar, statenum: seq<nat>, ap: seq<Action>, isTkn: bool, k: nat)
    requires k < |ap| && E.Codable(g, |statenum|, ap)
    ensures E.ShiftsInto(|statenum|, ap[..k]) && E.ShiftsInto(|statenum|, ap[..k + 1]) && ap[k] in ap
    ensures var t := E.Entries(g, statenum, ap[..k], isTkn);
            E.Entries(g, statenum, ap[..k + 1], isTkn) ==
              t + (if E.Selected(g, ap[k], isTkn)
                   then [LA(ap[k].sp, E.ComputeAction(|statenum|, |g.rules|, statenum, ap[k]))] else [])
            && (E.Selected(g, ap[k], isTkn) ==> forall j | 0 <= j < |t| :: t[j].lookahead != ap[k].sp)
  {
    assert ap[..k + 1][..k] == ap[..k];
    var ap' := ap[..k + 1];
    forall i, j ensures !A.BothLive(ap', i, j) {
      assert !A.BothLive(ap, i, j);
    }
    E.EntriesTransaction(g, statenum, ap', isTkn);
    var t, t' := E.Entries(g, statenum, ap[..k], isTkn), E.Entries(g, statenum, ap', isTkn);
    if E.Selected(g, ap[k], isTkn) {
      forall j | 0 <= j < |t| ensures t[j].lookahead != ap[k].sp {
        assert t'[j] == t[j] && t'[|t|].lookahead == ap[k].sp;
      }
    }
  }

  /** No grammar has so many symbols that an offset could be taken for the mark of a row without one. */
  ghost predicate SymbolsFit(g: Grammar) {
    g.nsymbol <= -NO_OFFSET
  }

  lemma OfstIsReal(slots: seq<LookaheadAction>, n: nat, t: seq<LookaheadAction>, slots': seq<LookaheadAction>, n': nat,
                   o: int, bound: nat)
    requires n <= |slots| && n' <= |slots'| && Inserted(slots, n, t, slots', n', o) && t != []
             && t[0].lookahead < bound <= -NO_OFFSET
    ensures o > NO_OFFSET
  {
  }

  lemma RowBelow(g: Grammar, statenum: seq<nat>, ap: seq<Action>, isTkn: bool)
    requires E.Codable(g, |statenum|, ap) && g.nterminal <= g.nsymbol
    ensures E.ShiftsInto(|statenum|, ap)
    ensures forall e | e in E.Entries(g, statenum, ap, isTkn) :: e.lookahead < g.nsymbol
    ensures Transaction(E.Entries(g, statenum, ap, isTkn))
  {
    E.EntriesTransaction(g, statenum, ap, isTkn);
    forall e | e in E.Entries(g, statenum, ap, isTkn) ensures e.lookahead < g.nsymbol {
      E.EntriesMember(g, statenum, ap, isTkn, e);
    }
  }

  /** All acttab calls of one row. */
  method PackRow(tab: Acttab, g: Grammar, statenum: seq<nat>, ap: seq<Action>, isTkn: bool) returns (ofst: int)
    requires Valid(g) && SymbolsFit(g) && tab.Valid() && tab.nLookahead == 0 && E.Codable(g, |statenum|, ap)
    requires E.ShiftsInto(|statenum|, ap) && E.Entries(g, statenum, ap, isTkn) != []
    modifies tab, tab.aAction, tab.aLookahead
    ensures tab.Valid() && tab.nLookahead == 0
    ensures (tab.aAction == old(tab.aAction) || fresh(tab.aAction))
    ensures (tab.aLookahead == old(tab.aLookahead) || fresh(tab.aLookahead))
    ensures old(Lands(tab.aAction[..], tab.nAction, E.Entries(g, statenum, ap, isTkn), ofst)) && ofst > NO_OFFSET
    ensures Inserted(old(tab.aAction[..]), old(tab.nAction), E.Entries(g, statenum, ap, isTkn), tab.aAction[..],
                     tab.nAction, ofst)
    ensures var t := E.Entries(g, statenum, ap, isTkn);
            LargestOf(t) >= 0 && tab.aAction.Length ==
                GrownAlloc(old(tab.aAction.Length), old(tab.nAction), LargestOf(t))
  {
    ghost var slots, n := tab.aAction[..], tab.nAction;
    RowBelow(g, statenum, ap, isTkn);
    ghost var t := E.Entries(g, statenum, ap, isTkn);
    assert t[0] in t && g.nterminal <= g.nsymbol;
    hide Inserted, Exact, Lands, E.Codable, SlotsOk, Transaction, Placeable, E.Entries, Valid, IsMin, IsMax, LargestOf,
         GrownAlloc;
    AddRow(tab, g, statenum, ap, isTkn);
    assert tab.Pending() == t;
    ofst := tab.Insert();
    OfstIsReal(slots, n, t, tab.aAction[..], tab.nAction, ofst, g.nsymbol);
  }

  /** The table and the offsets now. */
  ghost function StageOf(tab: Acttab, info: seq<Info>): Stage
    reads tab, tab.aAction
  {
    Stage(tab.aAction[..], tab.nAction, info)
  }

  ghost function SourceOf(lemp: Lemon): Source
    reads lemp
  {
    Source(lemp.g, lemp.states, lemp.statenum)
  }

  lemma NextRow(c: Source, counts: seq<Info>, ax: seq<Axset>, k: nat)
    requires Valid(c.g) && AllCodable(c.g, c.ss) && AllCounted(c.g, c.ss, counts) && |c.statenum| == |c.ss|
    requires PackingOrder(counts, ax) && k < |ax|
    ensures ax[k].stp < |c.ss| && AllShiftsInto(|c.statenum|, c.ss) && E.Codable(c.g, |c.statenum|, c.ss[ax[k].stp].ap)
    ensures ax[k].nAction == |Row(c, ax[k].stp, ax[k].isTkn)| && OnceEach(ax)
  {
    CountsAreRows(c, counts, ax[k].stp, ax[k].isTkn);
  }

  /** One round of the packing loop. */
  method PackNext(lemp: Lemon, ax: seq<Axset>, i: nat, tab: Acttab, b: Bounds, ghost counts: seq<Info>)
    returns (b': Bounds)
    requires Valid(lemp.g) && SymbolsFit(lemp.g) && AllCodable(lemp.g, lemp.states)
             && AllCounted(lemp.g, lemp.states, counts)
    requires |lemp.statenum| == |lemp.states| && PackingOrder(counts, ax) && i < |ax| && ax[i].nAction > 0
    requires tab.Valid() && tab.nLookahead == 0
    requires PackedSoFar(SourceOf(lemp), DoneBy(ax, i), StageOf(tab, lemp.info), b)
    modifies lemp`info, tab, tab.aAction, tab.aLookahead
    ensures tab.Valid() && tab.nLookahead == 0
    ensures (tab.aAction == old(tab.aAction) || fresh(tab.aAction))
    ensures (tab.aLookahead == old(tab.aLookahead) || fresh(tab.aLookahead))
    ensures PackedSoFar(SourceOf(lemp), DoneBy(ax, i + 1), StageOf(tab, lemp.info), b')
    ensures AllShiftsInto(|lemp.statenum|, lemp.states) && ax[i].stp < |lemp.states|
    ensures Packs(SourceOf(lemp), ax[i], old(StageOf(tab, lemp.info)), StageOf(tab, lemp.info))
  {
    ghost var c, s := SourceOf(lemp), StageOf(tab, lemp.info);
    var q, tkn := ax[i].stp, ax[i].isTkn;
    NextRow(c, counts, ax, i);
    NextDone(ax, i);
    CodableRows(c);
    PackedSizes(c, DoneBy(ax, i), s, b);
    hide PackedSoFar, PackingOrder, AllCodable, AllCounted, Inserted, Lands, Transaction, E.Codable, E.Entries, SlotsOk,
         Valid, IsMin,
         IsMax, LargestOf, GrownAlloc, AllShiftsInto, RowsOk, OnceEach, DoneBy;
    var ofst := PackRow(tab, lemp.g, lemp.statenum, lemp.states[q].ap, tkn);
    lemp.info := lemp.info[q := SetOfst(lemp.info[q], tkn, ofst)];
    b' := Widen(b, tkn, ofst);
    assert PackStep(c, q, tkn, s, StageOf(tab, lemp.info), ofst);
    PackOne(c, DoneBy(ax, i), s, b, q, tkn, StageOf(tab, lemp.info), ofst);
  }

  lemma PackedSizes(c: Source, done: set<(nat, bool)>, s: Stage, b: Bounds)
    requires PackedSoFar(c, done, s, b)
    ensures AllShiftsInto(|c.statenum|, c.ss) && |s.info| == |c.ss| && s.n <= |s.slots|
  {
  }

  /** The whole packing: the rows in their order, one after the other until none is left that has an action. */
  ghost predicate Packed(c: Source, sorted: seq<nat>, ax: seq<Axset>, h: seq<Stage>, b: Bounds) {
    && PackRun(c, ax, h) && InRange(h[0].info, sorted) && RowsInOrder(h[0].info, sorted, ax)
    && AllCounted(c.g, c.ss, h[0].info) && OnceEach(ax)
    && PackedSoFar(c, DoneBy(ax, |h| - 1), h[|h| - 1], b)
    && (forall q: nat, tkn | q < |c.ss| :: (q, tkn) in DoneBy(ax, |h| - 1) <==> Row(c, q, tkn) != [])
  }

  lemma PackingStarts(c: Source, info: seq<Info>, ax: seq<Axset>, s: Stage)
    requires AllCodable(c.g, c.ss) && AllCounted(c.g, c.ss, info) && |c.statenum| == |c.ss| && s.n == 0 && s.slots == []
             && s.info == info
    ensures PackedSoFar(c, DoneBy(ax, 0), s, Bounds(0, 0, 0, 0)) && PackRun(c, ax, [s])
  {
    assert DoneBy(ax, 0) == {};
    forall q: nat, tkn | q < |c.ss| ensures OfstOf(info[q], tkn) == NO_OFFSET {
      assert Counted(c.g, |c.ss|, c.ss[q].ap, info[q]);
    }
  }

  lemma PackRunGrows(c: Source, ax: seq<Axset>, h: seq<Stage>, s: Stage)
    requires PackRun(c, ax, h) && |h| <= |ax| && ax[|h| - 1].stp < |c.ss| && Packs(c, ax[|h| - 1], h[|h| - 1], s)
    ensures PackRun(c, ax, h + [s])
  {
    hide Lands, Inserted, E.Entries, AllShiftsInto, GrownAlloc, LargestOf;
    var h' := h + [s];
    forall k | 0 <= k < |h'| - 1 ensures Packs(c, ax[k], h'[k], h'[k + 1]) {
      assert k < |h| - 1 ==> Packs(c, ax[k], h[k], h[k + 1]);
    }
  }

  /** The row is on the list before the end of the loop exactly if it has actions. */
  lemma RowDone(c: Source, counts: seq<Info>, ax: seq<Axset>, k: nat, q: nat, tkn: bool)
    requires k <= |ax| && PackingOrder(counts, ax) && AllCounted(c.g, c.ss, counts) && |c.statenum| == |c.ss|
    requires AllShiftsInto(|c.ss|, c.ss) && q < |c.ss| && (k == |ax| || ax[k].nAction == 0)
    ensures (q, tkn) !in DoneBy(ax, k) ==> Row(c, q, tkn) == []
  {
    hide E.Entries, Counted;
    CountsAreRows(c, counts, q, tkn);
    assert OnList(ax, q, tkn);
    var m :| 0 <= m < |ax| && ax[m].stp == q && ax[m].isTkn == tkn;
    if m < k { assert (q, tkn) in DoneBy(ax, k); }
  }

  lemma PackingDone(c: Source, counts: seq<Info>, ax: seq<Axset>, h: seq<Stage>, b: Bounds)
    requires 0 < |h| <= |ax| + 1 && PackingOrder(counts, ax) && AllCounted(c.g, c.ss, counts) && |c.statenum| == |c.ss|
    requires PackedSoFar(c, DoneBy(ax, |h| - 1), h[|h| - 1], b) && (|h| - 1 == |ax| || ax[|h| - 1].nAction == 0)
    ensures AllShiftsInto(|c.statenum|, c.ss)
    ensures forall q: nat, tkn | q < |c.ss| :: (q, tkn) in DoneBy(ax, |h| - 1) <==> Row(c, q, tkn) != []
  {
    var k, s := |h| - 1, h[|h| - 1];
    hide Row, Found, BoundsOk, DoneBy, PackingOrder, AllCounted, E.ShiftsInto, RowState;
    forall q: nat, tkn | q < |c.ss| ensures (q, tkn) in DoneBy(ax, k) <==> Row(c, q, tkn) != [] {
      assert RowState(Row(c, q, tkn), OfstOf(s.info[q], tkn), (q, tkn) in DoneBy(ax, k), s, Least(b, tkn),
                      Most(b, tkn));
      RowThere(Row(c, q, tkn), OfstOf(s.info[q], tkn), (q, tkn) in DoneBy(ax, k), s, Least(b, tkn), Most(b, tkn));
      RowDone(c, counts, ax, k, q, tkn);
    }
  }

  lemma RowThere(row: seq<LookaheadAction>, ofst: int, packed: bool, s: Stage, mn: int, mx: int)
    requires s.n <= |s.slots| && RowState(row, ofst, packed, s, mn, mx)
    ensures packed ==> row != []
  {
  }

  /** The loop over the rows, largest first, which ends at the first without actions. */
  method PackLoop(lemp: Lemon, ax: seq<Axset>, tab: Acttab) returns (b: Bounds, ghost h: seq<Stage>)
    requires Valid(lemp.g) && SymbolsFit(lemp.g) && AllCodable(lemp.g, lemp.states)
             && AllCounted(lemp.g, lemp.states, lemp.info)
    requires |lemp.statenum| == |lemp.states| && PackingOrder(lemp.info, ax)
    requires tab.Valid() && tab.nAction == tab.nLookahead == tab.nActionAlloc == 0
    modifies lemp`info, tab, tab.aAction, tab.aLookahead
    ensures tab.Valid() && 0 < |h| <= |ax| + 1 && h[0].info == old(lemp.info) && h[|h| - 1] == StageOf(tab, lemp.info)
    ensures PackRun(SourceOf(lemp), ax, h) && PackedSoFar(SourceOf(lemp), DoneBy(ax, |h| - 1), h[|h| - 1], b)
    ensures |h| - 1 == |ax| || ax[|h| - 1].nAction == 0
  {
    hide PackedSoFar, PackRun, PackingOrder, AllCodable, AllCounted, Lands, E.Codable, Valid, DoneBy, Packs,
         Acttab.Valid, AllShiftsInto;
    ghost var c, counts := SourceOf(lemp), lemp.info;
    b := Bounds(0, 0, 0, 0);
    h := [StageOf(tab, lemp.info)];
    NoSlots(tab);
    PackingStarts(c, counts, ax, h[0]);
    var i := 0;
    while i < |ax| && ax[i].nAction > 0
      invariant i <= |ax| && tab.Valid() && tab.nLookahead == 0
      invariant tab.aAction == old(tab.aAction) || fresh(tab.aAction)
      invariant tab.aLookahead == old(tab.aLookahead) || fresh(tab.aLookahead)
      invariant |h| == i + 1 && h[i] == StageOf(tab, lemp.info) && h[0].info == counts
      invariant PackRun(c, ax, h) && PackedSoFar(c, DoneBy(ax, i), h[i], b)
    {
      b := PackNext(lemp, ax, i, tab, b, counts);
      PackRunGrows(c, ax, h, StageOf(tab, lemp.info));
      h := h + [StageOf(tab, lemp.info)];
      i := i + 1;
    }
  }

  lemma NoSlots(tab: Acttab)
    requires tab.Valid() && tab.nActionAlloc == 0
    ensures tab.aAction[..] == []
  {
  }

  /** All rows. */
  method PackRows(lemp: Lemon, ax: seq<Axset>) returns (tab: Acttab, b: Bounds, ghost h: seq<Stage>)
    requires Valid(lemp.g) && SymbolsFit(lemp.g) && AllCodable(lemp.g, lemp.states)
             && AllCounted(lemp.g, lemp.states, lemp.info)
    requires IsRenumbering(|lemp.states|, lemp.sorted, lemp.statenum)
    requires InRange(lemp.info, lemp.sorted) && RowsInOrder(lemp.info, lemp.sorted, ax)
    modifies lemp`info
    ensures fresh(tab) && tab.Valid()
    ensures |h| > 0 && h[0].info == old(lemp.info) && h[|h| - 1] == StageOf(tab, lemp.info)
    ensures Packed(SourceOf(lemp), lemp.sorted, ax, h, b)
  {
    hide PackedSoFar, PackRun, PackingOrder, AllCodable, AllCounted, Valid, DoneBy, IsRenumbering, RowsInOrder,
         OnceEach, Packed, InRange,
         Acttab.Valid;
    ghost var c, counts := SourceOf(lemp), lemp.info;
    SizesOf(c, counts, lemp.sorted);
    SortedAxsets(counts, lemp.sorted, lemp.statenum, ax);
    OrderIsOnce(counts, ax);
    tab := new Acttab();
    b, h := PackLoop(lemp, ax, tab);
    PackingDone(c, counts, ax, h, b);
    PackedHolds(c, lemp.sorted, ax, h, b);
  }

  lemma PackedHolds(c: Source, sorted: seq<nat>, ax: seq<Axset>, h: seq<Stage>, b: Bounds)
    requires PackRun(c, ax, h) && InRange(h[0].info, sorted) && RowsInOrder(h[0].info, sorted, ax)
    requires AllCounted(c.g, c.ss, h[0].info) && OnceEach(ax) && PackedSoFar(c, DoneBy(ax, |h| - 1), h[|h| - 1], b)
    requires forall q: nat, tkn | q < |c.ss| :: (q, tkn) in DoneBy(ax, |h| - 1) <==> Row(c, q, tkn) != []
    ensures Packed(c, sorted, ax, h, b)
  {
  }

  lemma SizesOf(c: Source, counts: seq<Info>, sorted: seq<nat>)
    requires AllCounted(c.g, c.ss, counts) && IsRenumbering(|c.ss|, sorted, c.statenum)
    ensures |c.statenum| == |c.ss| == |counts| && InRange(counts, sorted)
  {
  }

  lemma OrderIsOnce(counts: seq<Info>, ax: seq<Axset>)
    requires PackingOrder(counts, ax)
    ensures OnceEach(ax)
  {
  }
}
