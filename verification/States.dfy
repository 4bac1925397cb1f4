/** The generator's records: configurations, actions, states and the state vector. */
module Structs {
  import opened Grammars
  import opened Items

  /** Names the configuration for `item` in a state: what a configuration pointer in a propagation link denotes. */
  datatype Ref = Ref(state: nat, item: Item)

  /** The mutable part of a configuration: its follow set, and the forward and backward propagation links. */
  datatype Config = Config(fws: set<nat>, fplp: seq<Ref>, bplp: seq<Ref>)

  datatype ActionType = Shift | Accept | Reduce | Error | SSConflict | SRConflict | RRConflict
                      | ShResolved | RdResolved | NotUsed

  /** `target` is the state of a SHIFT and the rule of a REDUCE. */
  datatype Action = Action(sp: nat, kind: ActionType, target: nat)

  /** `basis` and `cfp` are sorted; `cfg` holds the configuration of every item of `cfp`. */
  datatype State = State(basis: seq<Item>, cfp: seq<Item>, cfg: map<Item, Config>, ap: seq<Action>)

  /** What ResortStates and the table output note about a state. */
  datatype Info = Info(nTknAct: nat, nNtAct: nat, iDflt: nat, iTknOfst: int, iNtOfst: int)

  /** The state vector of the whole generator.  States are named by the order of their creation; `sorted` lists them in
      their final order, and `statenum` has the place of each in it. */
  class Lemon {
    const g: Grammar
    var lambda: seq<bool>
    var first: seq<set<nat>>
    var states: seq<State>
    var info: seq<Info>
    var sorted: seq<nat>
    var statenum: seq<nat>

    constructor (g: Grammar)
      ensures this.g == g && states == []
    {
      this.g := g;
      lambda, first, states := [], [], [];
      info, sorted, statenum := [], [], [];
    }
  }
}

/** FindStates: the recursive construction of all LR(0) states, with follow-set seeds and propagation links. */
module States {
  import opened Grammars
  import opened FirstSets
  import opened Items
  import opened MergeSort
  import opened Structs
  import opened N = Numbering

  // ----- item lists -----

  /** Few enough items that no list sort overruns its bins. */
  ghost predicate Fits(g: Grammar) {
    |AllItems(g)| < 0x4000_0000
  }

  lemma {:induction false} DistinctCount<T>(s: seq<T>)
    ensures Distinct(s) <==> forall x :: multiset(s)[x] <= 1
    ensures Distinct(s) ==> |Elems(s)| == |s|
  {
    if s != [] {
      var n := |s| - 1;
      DistinctCount(s[..n]);
      assert s == s[..n] + [s[n]];
      assert Elems(s) == Elems(s[..n]) + {s[n]};
      if s[n] in s[..n] {
        assert multiset(s[..n])[s[n]] > 0;
        assert multiset(s)[s[n]] > 1;
      } else {
        assert multiset(s[..n])[s[n]] == 0;
        assert Distinct(s[..n]) <==> Distinct(s);
        assert forall x :: multiset(s)[x] == multiset(s[..n])[x] + if x == s[n] then 1 else 0;
      }
    }
  }

  /** A list in another order has the same elements, each as often. */
  lemma SameElements<T>(s: seq<T>, r: seq<T>)
    requires multiset(r) == multiset(s)
    ensures |r| == |s| && (forall x :: x in r <==> x in s) && (Distinct(s) <==> Distinct(r))
  {
    assert |multiset(r)| == |r| && |multiset(s)| == |s|;
    assert forall x :: x in r <==> x in multiset(r);
    assert forall x :: x in s <==> x in multiset(s);
    DistinctCount(s);
    DistinctCount(r);
  }

  lemma SubsetSize<T>(a: set<T>, b: set<T>)
    requires a <= b
    ensures |a| <= |b|
  {
    assert b == a + (b - a);
  }

  /** Sorting a list of different items, which is always short enough. */
  method SortItems(g: Grammar, list: seq<Item>) returns (r: seq<Item>)
    requires Fits(g) && Distinct(list) && Elems(list) <= AllItems(g)
    ensures Strict(r) && Elems(r) == Elems(list)
    ensures forall i, j | 0 <= i < j < |r| :: r[i].rule < r[j].rule || (r[i].rule == r[j].rule && r[i].dot < r[j].dot)
  {
    DistinctCount(list);
    SubsetSize(Elems(list), AllItems(g));
    ConfigcmpOrders();
    r := MSort(list, Configcmp);
    SortedIsStrict(list, r);
    assert forall i, j | 0 <= i < j < |r| :: Configcmp(r[i], r[j]) < 0;
  }

  lemma ConfigcmpOrders()
    ensures Ordering(Configcmp)
  {
  }

  lemma SortedIsStrict(list: seq<Item>, r: seq<Item>)
    requires Distinct(list) && Sorted(Configcmp, r) && multiset(r) == multiset(list)
    ensures Strict(r) && Elems(r) == Elems(list)
  {
    SameElements(list, r);
    forall i, j | 0 <= i < j < |r| ensures Configcmp(r[i], r[j]) < 0 {
      assert r[i] != r[j] && Configcmp(r[i], r[j]) <= 0;
    }
  }

  /** Lists sorted without repetition are determined by their items, so comparing bases item by item is enough. */
  lemma {:induction false} StrictUnique(a: seq<Item>, b: seq<Item>)
    requires Strict(a) && Strict(b) && Elems(a) == Elems(b)
    ensures a == b
    decreases |a|
  {
    assert a != [] ==> a[0] in Elems(b);
    assert b != [] ==> b[0] in Elems(a);
    if a != [] && b != [] {
      StrictTail(a);
      StrictTail(b);
      SameHead(a, b);
      StrictUnique(a[1..], b[1..]);
      assert a == [a[0]] + a[1..] && b == [b[0]] + b[1..];
    }
  }

  lemma SameHead(a: seq<Item>, b: seq<Item>)
    requires Strict(a) && Strict(b) && Elems(a) == Elems(b) && a != [] && b != []
    ensures a[0] == b[0]
  {
    assert a[0] in Elems(b) && b[0] in Elems(a);
    var k :| 0 <= k < |b| && b[k] == a[0];
    var m :| 0 <= m < |a| && a[m] == b[0];
    assert k == 0 || Configcmp(b[0], b[k]) < 0;
    assert m == 0 || Configcmp(a[0], a[m]) < 0;
  }

  lemma StrictTail(a: seq<Item>)
    requires Strict(a) && a != []
    ensures Strict(a[1..]) && Elems(a[1..]) == Elems(a) - {a[0]}
  {
    assert a == [a[0]] + a[1..];
    forall x | x in a[1..] ensures x != a[0] {
      var k :| 0 <= k < |a| - 1 && a[1..][k] == x;
      assert Configcmp(a[0], a[k + 1]) < 0;
    }
  }

  // ----- what the state table must be -----

  ghost function Core(s: State): set<Item> {
    Elems(s.basis)
  }

  ghost function Cores(ss: seq<State>): seq<set<Item>> {
    seq(|ss|, q requires 0 <= q < |ss| => Core(ss[q]))
  }

  ghost function Full(g: Grammar, s: State): set<Item> {
    Closure(g, Core(s))
  }

  /** Symbols after a mark somewhere in an item set. */
  ghost function NextSymbols(g: Grammar, c: set<Item>): set<nat> {
    set i | i in c && IsItem(g, i) && !AtEnd(g, i) :: g.rules[i.rule].rhs[i.dot]
  }

  /** Item `i` of a state makes terminal `t` a lookahead of the item `j` that it spawns. */
  ghost predicate Contributes(g: Grammar, i: Item, j: Item, t: nat) {
    Spawns(g, i, j) && Begins(g, Suffix(g, i), t)
  }

  /** Every lookahead of `i` is a lookahead of the item `j` that it spawns. */
  ghost predicate Passes(g: Grammar, i: Item, j: Item) {
    Spawns(g, i, j) && Nullable(g, Suffix(g, i))
  }

  ghost predicate Shape(g: Grammar, s: State) {
    && Strict(s.basis) && Core(s) <= AllItems(g) && Reachable(g, Core(s))
    && Strict(s.cfp) && Elems(s.cfp) == s.cfg.Keys == Full(g, s)
  }

  /** The forward links made by the closure are exactly those between items that pass lookaheads on. */
  ghost predicate ForwardLinks(g: Grammar, ss: seq<State>, q: nat)
    requires q < |ss|
  {
    forall i, n | i in ss[q].cfg :: n in ss[q].cfg[i].fplp <==> n.state == q && Passes(g, i, n.item)
  }

  /** The lookaheads a configuration starts with: `$` for the start rules, and what the closure contributes. */
  ghost predicate Seeded(g: Grammar, q: nat, c: set<Item>, j: Item, t: nat) {
    (q == 0 && j in StartKernel(g) && t == 0) || exists i :: i in c && Contributes(g, i, j, t)
  }

  ghost predicate Seeds(g: Grammar, ss: seq<State>, q: nat)
    requires q < |ss|
  {
    forall j, t | j in ss[q].cfg :: t in ss[q].cfg[j].fws <==> Seeded(g, q, Full(g, ss[q]), j, t)
  }

  /** `n` is an item whose advance over the symbol after its mark gives item `j` of the state with core `k`. */
  ghost predicate Precedes(g: Grammar, ss: seq<State>, n: Ref, k: set<Item>, j: Item) {
    && n.state < |ss| && n.item in Full(g, ss[n.state]) && Advance(n.item) == j
    && exists x :: Before(g, n.item, x) && Goto(g, Full(g, ss[n.state]), x) == k
  }

  ghost predicate BackLinks(g: Grammar, ss: seq<State>, q: nat)
    requires q < |ss|
  {
    forall j, n | j in ss[q].cfg && n in ss[q].cfg[j].bplp :: Precedes(g, ss, n, Core(ss[q]), j)
  }

  ghost predicate StateOk(g: Grammar, ss: seq<State>, q: nat)
    requires q < |ss|
  {
    Shape(g, ss[q]) && ForwardLinks(g, ss, q) && Seeds(g, ss, q) && BackLinks(g, ss, q)
  }

  /** Every state is right as far as it goes, and no two share a basis. */
  ghost predicate Inv(g: Grammar, ss: seq<State>) {
    && (forall q | 0 <= q < |ss| :: StateOk(g, ss, q))
    && (forall p, q | 0 <= p < q < |ss| :: ss[p].basis != ss[q].basis)
    && (|ss| > 0 ==> Core(ss[0]) == StartKernel(g))
  }

  /** The shift of state `q` on `x` leads to state `j`, and every advanced item there links back. */
  ghost predicate Leads(g: Grammar, ss: seq<State>, q: nat, x: nat, j: nat)
    requires q < |ss|
  {
    && j < |ss| && Core(ss[j]) == Goto(g, Full(g, ss[q]), x)
    && forall i | i in Full(g, ss[q]) && Before(g, i, x) ::
         Advance(i) in ss[j].cfg && Ref(q, i) in ss[j].cfg[Advance(i)].bplp
  }

  /** The actions of state `q` are one SHIFT for each symbol in `handled`. */
  ghost predicate Shifts(g: Grammar, ss: seq<State>, q: nat, handled: set<nat>)
    requires q < |ss|
  {
    var ap := ss[q].ap;
    && (forall k | 0 <= k < |ap| ::
          ap[k].kind == Shift && ap[k].sp in handled && Leads(g, ss, q, ap[k].sp, ap[k].target))
    && (forall k, m | 0 <= k < m < |ap| :: ap[k].sp != ap[m].sp)
    && (forall x | x in handled :: exists k :: 0 <= k < |ap| && ap[k].sp == x)
  }

  ghost predicate Done(g: Grammar, ss: seq<State>, q: nat)
    requires q < |ss|
  {
    Shifts(g, ss, q, NextSymbols(g, Full(g, ss[q])))
  }

  /** The finished table: all item sets reachable from the start, each with all its shifts and links. */
  ghost predicate Built(g: Grammar, ss: seq<State>) {
    Inv(g, ss) && |ss| > 0 && forall q | 0 <= q < |ss| :: Done(g, ss, q)
  }

  // ----- growth of the table -----

  ghost predicate SameBut(s: State, s': State) {
    && s.basis == s'.basis && s.cfp == s'.cfp && s.cfg.Keys == s'.cfg.Keys
    && forall i | i in s.cfg ::
         s.cfg[i].fws == s'.cfg[i].fws && s.cfg[i].fplp == s'.cfg[i].fplp
         && forall n | n in s.cfg[i].bplp :: n in s'.cfg[i].bplp
  }

  /** New states are appended; an old one may gain back links, and only state `busy` may gain actions. */
  ghost predicate Extends(ss: seq<State>, ss': seq<State>, busy: int) {
    && |ss| <= |ss'|
    && forall q | 0 <= q < |ss| :: SameBut(ss[q], ss'[q]) && (q != busy ==> ss[q].ap == ss'[q].ap)
  }

  lemma ExtendsTrans(ss: seq<State>, ss': seq<State>, ss'': seq<State>, busy: int)
    requires Extends(ss, ss', busy) && Extends(ss', ss'', busy)
    ensures Extends(ss, ss'', busy)
  {
    forall q | 0 <= q < |ss| ensures SameBut(ss[q], ss''[q]) && (q != busy ==> ss[q].ap == ss''[q].ap) {
      assert SameBut(ss[q], ss'[q]) && SameBut(ss'[q], ss''[q]);
    }
  }

  lemma LeadsExtends(g: Grammar, ss: seq<State>, ss': seq<State>, busy: int, q: nat, x: nat, j: nat)
    requires Extends(ss, ss', busy) && q < |ss| && Leads(g, ss, q, x, j)
    ensures Leads(g, ss', q, x, j)
  {
    assert SameBut(ss[q], ss'[q]) && SameBut(ss[j], ss'[j]);
  }

  lemma ShiftsExtend(g: Grammar, ss: seq<State>, ss': seq<State>, busy: int, q: nat, handled: set<nat>)
    requires Extends(ss, ss', busy) && q < |ss| && q != busy && Shifts(g, ss, q, handled)
    ensures Shifts(g, ss', q, handled)
  {
    var ap := ss[q].ap;
    forall k | 0 <= k < |ap| ensures Leads(g, ss', q, ap[k].sp, ap[k].target) {
      LeadsExtends(g, ss, ss', busy, q, ap[k].sp, ap[k].target);
    }
    assert ss'[q].ap == ap;
  }

  lemma DoneExtends(g: Grammar, ss: seq<State>, ss': seq<State>, busy: int, q: nat)
    requires Extends(ss, ss', busy) && q < |ss| && q != busy && Done(g, ss, q)
    ensures Done(g, ss', q)
  {
    assert SameBut(ss[q], ss'[q]);
    ShiftsExtend(g, ss, ss', busy, q, NextSymbols(g, Full(g, ss[q])));
  }

  lemma PrecedesExtends(g: Grammar, ss: seq<State>, ss': seq<State>, busy: int, n: Ref, k: set<Item>, j: Item)
    requires Extends(ss, ss', busy) && Precedes(g, ss, n, k, j)
    ensures Precedes(g, ss', n, k, j)
  {
    assert SameBut(ss[n.state], ss'[n.state]);
  }

  /** Growth keeps a state right if its new back links come from items that precede theirs. */
  lemma StateOkExtends(g: Grammar, ss: seq<State>, ss': seq<State>, busy: int, q: nat)
    requires Extends(ss, ss', busy) && q < |ss| && StateOk(g, ss, q)
    requires forall j, n | j in ss[q].cfg && n in ss'[q].cfg[j].bplp ::
               n in ss[q].cfg[j].bplp || Precedes(g, ss, n, Core(ss[q]), j)
    ensures StateOk(g, ss', q)
  {
    assert SameBut(ss[q], ss'[q]);
    assert Core(ss'[q]) == Core(ss[q]);
    ForwardStays(g, ss, ss', q);
    hide ForwardLinks;
    forall j, n | j in ss'[q].cfg && n in ss'[q].cfg[j].bplp ensures Precedes(g, ss', n, Core(ss'[q]), j) {
      PrecedesExtends(g, ss, ss', busy, n, Core(ss[q]), j);
    }
  }

  lemma ForwardStays(g: Grammar, ss: seq<State>, ss': seq<State>, q: nat)
    requires q < |ss| && q < |ss'| && SameBut(ss[q], ss'[q]) && ForwardLinks(g, ss, q)
    ensures ForwardLinks(g, ss', q)
  {
  }

  // ----- the three ways the table changes -----

  function WithBack(ss: seq<State>, q: nat, i: Item, links: seq<Ref>): seq<State>
    requires q < |ss| && i in ss[q].cfg
  {
    var s := ss[q];
    ss[q := s.(cfg := s.cfg[i := s.cfg[i].(bplp := PlinkCopy(s.cfg[i].bplp, links))])]
  }

  /** Plink_copy: every link of `from` moves, in turn, to the head of `to`. */
  function PlinkCopy(to: seq<Ref>, from: seq<Ref>): (r: seq<Ref>)
    ensures forall n :: n in r <==> n in to || n in from
    decreases |from|
  {
    if from == [] then to else PlinkCopy([from[0]] + to, from[1..])
  }

  lemma WithBackOk(g: Grammar, ss: seq<State>, q: nat, i: Item, links: seq<Ref>)
    requires Inv(g, ss) && q < |ss| && i in ss[q].cfg
    requires forall n | n in links :: Precedes(g, ss, n, Core(ss[q]), i)
    ensures Inv(g, WithBack(ss, q, i, links)) && Extends(ss, WithBack(ss, q, i, links), -1)
    ensures forall n | n in links :: n in WithBack(ss, q, i, links)[q].cfg[i].bplp
  {
    var ss' := WithBack(ss, q, i, links);
    WithBackExtends(ss, q, i, links);
    assert forall p | 0 <= p < |ss| :: Core(ss'[p]) == Core(ss[p]) && ss'[p].basis == ss[p].basis;
    forall p | 0 <= p < |ss| ensures StateOk(g, ss', p) {
      hide Extends, StateOk, Precedes, Core;
      StateOkExtends(g, ss, ss', -1, p);
    }
  }

  lemma WithBackExtends(ss: seq<State>, q: nat, i: Item, links: seq<Ref>)
    requires q < |ss| && i in ss[q].cfg
    ensures Extends(ss, WithBack(ss, q, i, links), -1)
  {
  }

  function WithAction(ss: seq<State>, q: nat, a: Action): seq<State>
    requires q < |ss|
  {
    ss[q := ss[q].(ap := [a] + ss[q].ap)]
  }

  lemma WithActionOk(g: Grammar, ss: seq<State>, q: nat, x: nat, j: nat, handled: set<nat>)
    requires Inv(g, ss) && q < |ss| && Shifts(g, ss, q, handled) && x !in handled && Leads(g, ss, q, x, j)
    ensures var ss' := WithAction(ss, q, Action(x, Shift, j));
            Inv(g, ss') && Extends(ss, ss', q) && Shifts(g, ss', q, handled + {x})
  {
    var ss' := WithAction(ss, q, Action(x, Shift, j));
    forall p | 0 <= p < |ss| ensures StateOk(g, ss', p) {
      StateOkExtends(g, ss, ss', q, p);
    }
    ShiftAdded(g, ss, q, x, j, handled);
  }

  lemma ShiftAdded(g: Grammar, ss: seq<State>, q: nat, x: nat, j: nat, handled: set<nat>)
    requires q < |ss| && Shifts(g, ss, q, handled) && x !in handled && Leads(g, ss, q, x, j)
    ensures Shifts(g, WithAction(ss, q, Action(x, Shift, j)), q, handled + {x})
  {
    hide Leads;
    var ss' := WithAction(ss, q, Action(x, Shift, j));
    var ap, ap' := ss[q].ap, ss'[q].ap;
    forall k | 0 <= k < |ap'| ensures Leads(g, ss', q, ap'[k].sp, ap'[k].target) {
      if k > 0 { assert ap'[k] == ap[k - 1]; }
      LeadsExtends(g, ss, ss', q, q, ap'[k].sp, ap'[k].target);
    }
    forall y | y in handled + {x} ensures exists k :: 0 <= k < |ap'| && ap'[k].sp == y {
      if y == x {
        assert ap'[0].sp == y;
      } else {
        var k :| 0 <= k < |ap| && ap[k].sp == y;
        assert ap'[k + 1].sp == y;
      }
    }
  }

  lemma AppendOk(g: Grammar, ss: seq<State>, s: State)
    requires Inv(g, ss) && Shape(g, s) && s.ap == []
    requires forall q | 0 <= q < |ss| :: ss[q].basis != s.basis
    requires |ss| == 0 ==> Core(s) == StartKernel(g)
    requires ForwardLinks(g, ss + [s], |ss|) && Seeds(g, ss + [s], |ss|)
    requires forall j, n | j in s.cfg && n in s.cfg[j].bplp :: Precedes(g, ss, n, Core(s), j)
    ensures Inv(g, ss + [s]) && Extends(ss, ss + [s], -1) && Shifts(g, ss + [s], |ss|, {})
  {
    var ss' := ss + [s];
    assert Extends(ss, ss', -1);
    forall p | 0 <= p < |ss| ensures StateOk(g, ss', p) {
      StateOkExtends(g, ss, ss', -1, p);
    }
    NewBack(g, ss, ss', s);
    hide Shape, ForwardLinks, Seeds, Closure, Core, Precedes, Extends;
  }

  lemma NewBack(g: Grammar, ss: seq<State>, ss': seq<State>, s: State)
    requires Inv(g, ss) && Extends(ss, ss', -1) && |ss'| == |ss| + 1 && ss'[|ss|] == s
    requires forall j, n | j in s.cfg && n in s.cfg[j].bplp :: Precedes(g, ss, n, Core(s), j)
    ensures BackLinks(g, ss', |ss|)
  {
    hide Inv, Core, Extends;
    forall j, n | j in s.cfg && n in s.cfg[j].bplp ensures Precedes(g, ss', n, Core(s), j) {
      PrecedesExtends(g, ss, ss', -1, n, Core(s), j);
    }
    hide Precedes;
  }

  // ----- Configlist_closure -----

  /** The loop over the symbols behind the mark, as a function of the tables. */
  method ScanRest(nterminal: nat, lambda: seq<bool>, first: seq<set<nat>>, rhs: seq<nat>, from: nat, fws: set<nat>)
    returns (fws': set<nat>, vanishes: bool)
    requires |lambda| == |first| && AllBelow(rhs, |lambda|) && from <= |rhs| && forall x | 0 <= x < nterminal
             && x < |lambda| :: !lambda[x]
    ensures fws' == fws + FirstScan(nterminal, lambda, first, rhs[from..])
    ensures vanishes <==> AllNull(lambda, rhs[from..])
  {
    var k := from;
    fws' := fws;
    ghost var left := FirstScan(nterminal, lambda, first, rhs[from..]);
    while k < |rhs|
      invariant from <= k <= |rhs| && (forall m | from <= m < k :: lambda[rhs[m]])
      invariant left == FirstScan(nterminal, lambda, first, rhs[k..])
      invariant fws + FirstScan(nterminal, lambda, first, rhs[from..]) == fws' + left
    {
      var xsp := rhs[k];
      assert rhs[k..][1..] == rhs[k + 1..];
      left := FirstScan(nterminal, lambda, first, rhs[k + 1..]);
      if xsp < nterminal {
        fws', left := fws' + {xsp}, {};
        break;
      } else {
        fws' := fws' + first[xsp];
        if !lambda[xsp] { left := {}; break; }
      }
      k := k + 1;
    }
    assert fws + FirstScan(nterminal, lambda, first, rhs[from..]) == fws' + left && left == {};
    vanishes := k == |rhs|;
    assert !vanishes ==> rhs[from..][k - from] == rhs[k];
    assert fws' + {} == fws';
  }

  /** Add the terminals that can follow the symbol after the mark; say whether all of the suffix can vanish. */
  method ScanSuffix(lemp: Lemon, i: Item, fws: set<nat>) returns (fws': set<nat>, vanishes: bool)
    requires Valid(lemp.g) && Exact(lemp.g, lemp.lambda, lemp.first)
    requires IsItem(lemp.g, i) && !AtEnd(lemp.g, i)
    ensures forall t :: t in fws' <==> t in fws || Begins(lemp.g, Suffix(lemp.g, i), t)
    ensures vanishes <==> Nullable(lemp.g, Suffix(lemp.g, i))
  {
    assert ValidRule(lemp.g, lemp.g.rules[i.rule]);
    assert |lemp.lambda| == |lemp.first| == lemp.g.nsymbol;
    forall x | 0 <= x < lemp.g.nterminal && x < lemp.g.nsymbol ensures !lemp.lambda[x] {
      TerminalNotNullable(lemp.g, x);
    }
    hide Valid, Exact, FirstScan, AllNull;
    fws', vanishes := ScanRest(lemp.g.nterminal, lemp.lambda, lemp.first, lemp.g.rules[i.rule].rhs, i.dot + 1, fws);
    forall t: nat ensures t in fws' <==> t in fws || Begins(lemp.g, Suffix(lemp.g, i), t) {
      ScanExact(lemp.g, lemp.lambda, lemp.first, Suffix(lemp.g, i), t);
    }
    ScanExact(lemp.g, lemp.lambda, lemp.first, Suffix(lemp.g, i), 0);
  }

  /** The list under construction: its items in order of arrival, each with its configuration. */
  ghost predicate ListOk(g: Grammar, current: seq<Item>, cfg: map<Item, Config>) {
    Distinct(current) && Elems(current) == cfg.Keys && cfg.Keys <= AllItems(g)
  }

  /** Before the closure only the basis has follow sets and back links. */
  ghost function BaseFws(base: map<Item, Config>, j: Item): set<nat> {
    if j in base then base[j].fws else {}
  }

  ghost function BaseBack(base: map<Item, Config>, j: Item): seq<Ref> {
    if j in base then base[j].bplp else []
  }

  ghost predicate BackAt(base: map<Item, Config>, cfg: map<Item, Config>) {
    forall j | j in cfg :: cfg[j].bplp == BaseBack(base, j)
  }

  /** Who has spawned `j` when all of `done`, and of `item` the rules from `r` on, have been added. */
  ghost predicate Spawned(g: Grammar, done: set<Item>, item: Item, r: nat, j: Item) {
    (exists i :: i in done && Spawns(g, i, j)) || (r <= j.rule && Spawns(g, item, j))
  }

  ghost predicate KeysAt(g: Grammar, base: map<Item, Config>, done: set<Item>, item: Item, r: nat, cfg: map<Item,
                         Config>) {
    forall j :: j in cfg <==> j in base || Spawned(g, done, item, r, j)
  }

  ghost predicate Given(g: Grammar, done: set<Item>, item: Item, r: nat, j: Item, t: nat) {
    (exists i :: i in done && Contributes(g, i, j, t)) || (r <= j.rule && Contributes(g, item, j, t))
  }

  ghost predicate FwsAt(g: Grammar, base: map<Item, Config>, done: set<Item>, item: Item, r: nat, cfg: map<Item,
                        Config>) {
    forall j, t | j in cfg :: t in cfg[j].fws <==> t in BaseFws(base, j) || Given(g, done, item, r, j, t)
  }

  ghost predicate LinksAt(g: Grammar, q: nat, done: set<Item>, item: Item, r: nat, cfg: map<Item, Config>) {
    forall i, n | i in cfg :: n in cfg[i].fplp <==>
      n.state == q && Passes(g, i, n.item) && (i in done || (i == item && r <= n.item.rule))
  }

  /** The list in the middle of closing over `item`, when the items in `done` are dealt with and the rules of the
      symbol after the mark of `item` from number `r` on have been added. */
  ghost predicate Closing(g: Grammar, q: nat, base: map<Item, Config>, done: set<Item>, item: Item, r: nat,
                          current: seq<Item>, cfg: map<Item, Config>) {
    && ListOk(g, current, cfg) && BackAt(base, cfg) && KeysAt(g, base, done, item, r, cfg)
    && FwsAt(g, base, done, item, r, cfg) && LinksAt(g, q, done, item, r, cfg)
  }

  /** The list after one more rule: `j` has follow set `fws`, and a link from `item` if the suffix vanishes. */
  function AddSpawn(cfg: map<Item, Config>, q: nat, item: Item, j: Item, fws: set<nat>, vanishes: bool): map<Item,
      Config>
    requires item in cfg
  {
    var cfg1 := cfg[j := if j in cfg then cfg[j].(fws := fws) else Config(fws, [], [])];
    if vanishes then cfg1[item := cfg1[item].(fplp := [Ref(q, j)] + cfg1[item].fplp)] else cfg1
  }

  lemma AddSpawnFws(g: Grammar, q: nat, base: map<Item, Config>, done: set<Item>, item: Item, r: nat,
                    cfg: map<Item, Config>, fws: set<nat>, vanishes: bool)
    requires item in cfg && Spawns(g, item, Item(r, 0))
    requires KeysAt(g, base, done, item, r + 1, cfg) && FwsAt(g, base, done, item, r + 1, cfg)
    requires forall t :: t in fws <==>
               (Item(r, 0) in cfg && t in cfg[Item(r, 0)].fws) || Begins(g, Suffix(g, item), t)
    ensures KeysAt(g, base, done, item, r, AddSpawn(cfg, q, item, Item(r, 0), fws, vanishes))
    ensures FwsAt(g, base, done, item, r, AddSpawn(cfg, q, item, Item(r, 0), fws, vanishes))
  {
    var j := Item(r, 0);
    var cfg' := AddSpawn(cfg, q, item, j, fws, vanishes);
    assert cfg'.Keys == cfg.Keys + {j};
    forall k, t | k in cfg' ensures t in cfg'[k].fws <==> t in BaseFws(base, k) || Given(g, done, item, r, k, t) {
      if k == j {
        assert cfg'[k].fws == fws;
        assert Given(g, done, item, r, k, t) <==> Given(g, done, item, r + 1, k, t) || Begins(g, Suffix(g, item), t);
        if j !in cfg {
          assert !Spawned(g, done, item, r + 1, j);
        }
      } else {
        assert cfg'[k].fws == cfg[k].fws;
        assert r <= k.rule && Spawns(g, item, k) ==> r + 1 <= k.rule;
        assert Given(g, done, item, r, k, t) <==> Given(g, done, item, r + 1, k, t);
      }
    }
  }

  lemma AddSpawnLinks(g: Grammar, q: nat, done: set<Item>, item: Item, r: nat,
                      cfg: map<Item, Config>, fws: set<nat>, vanishes: bool)
    requires item in cfg && item !in done && Spawns(g, item, Item(r, 0)) && (vanishes <==> Nullable(g, Suffix(g, item)))
    requires LinksAt(g, q, done, item, r + 1, cfg)
    requires Item(r, 0) !in cfg ==> Item(r, 0) !in done
    ensures LinksAt(g, q, done, item, r, AddSpawn(cfg, q, item, Item(r, 0), fws, vanishes))
  {
    var j := Item(r, 0);
    var cfg' := AddSpawn(cfg, q, item, j, fws, vanishes);
    forall i, n | i in cfg' ensures n in cfg'[i].fplp <==>
        n.state == q && Passes(g, i, n.item) && (i in done || (i == item && r <= n.item.rule))
    {
      if i == item {
        assert cfg'[i].fplp == if vanishes then [Ref(q, j)] + cfg[i].fplp else cfg[i].fplp;
        assert n in cfg'[i].fplp <==> n in cfg[i].fplp || (vanishes && n == Ref(q, j));
        ItemOfRule(g, item, n.item, r);
      } else {
        assert cfg'[i].fplp == if i in cfg then cfg[i].fplp else [];
      }
    }
  }

  lemma ItemOfRule(g: Grammar, i: Item, j: Item, r: nat)
    ensures Passes(g, i, j) && r <= j.rule <==> Passes(g, i, j) && (r + 1 <= j.rule || j == Item(r, 0))
  {
  }

  lemma SpawnIsItem(g: Grammar, i: Item, j: Item)
    requires Spawns(g, i, j)
    ensures j in AllItems(g)
  {
  }

  lemma AddSpawnList(g: Grammar, q: nat, base: map<Item, Config>, item: Item, j: Item,
                     current: seq<Item>, cfg: map<Item, Config>, fws: set<nat>, vanishes: bool)
    requires item in cfg && Spawns(g, item, j) && ListOk(g, current, cfg) && BackAt(base, cfg)
    requires j in base ==> j in cfg
    ensures ListOk(g, if j in cfg then current else current + [j], AddSpawn(cfg, q, item, j, fws, vanishes))
    ensures BackAt(base, AddSpawn(cfg, q, item, j, fws, vanishes))
  {
    SpawnIsItem(g, item, j);
    AddSpawnKeys(base, cfg, q, item, j, fws, vanishes);
    OneMoreItem(current, j);
    hide Spawns, AllItems, BackAt, AddSpawn, Distinct;
    assert j !in cfg ==> j !in Elems(current);
  }

  lemma AddSpawnKeys(base: map<Item, Config>, cfg: map<Item, Config>, q: nat, item: Item, j: Item, fws: set<nat>,
                     vanishes: bool)
    requires item in cfg && BackAt(base, cfg) && (j in base ==> j in cfg)
    ensures AddSpawn(cfg, q, item, j, fws, vanishes).Keys == cfg.Keys + {j}
    ensures BackAt(base, AddSpawn(cfg, q, item, j, fws, vanishes))
  {
  }

  lemma OneMoreItem(current: seq<Item>, j: Item)
    ensures Elems(current + [j]) == Elems(current) + {j}
    ensures Distinct(current) && j !in Elems(current) ==> Distinct(current + [j])
  {
  }

  /** Add one rule of the symbol after the mark of `item` to the list. */
  method SpawnRule(lemp: Lemon, q: nat, ghost base: map<Item, Config>, ghost done: set<Item>, item: Item, r: nat,
                   current: seq<Item>, cfg: map<Item, Config>)
    returns (current': seq<Item>, cfg': map<Item, Config>)
    requires Valid(lemp.g) && Exact(lemp.g, lemp.lambda, lemp.first)
    requires item in cfg && item !in done && done <= cfg.Keys && Spawns(lemp.g, item, Item(r, 0))
    requires Closing(lemp.g, q, base, done, item, r + 1, current, cfg)
    ensures current <= current' && cfg.Keys <= cfg'.Keys && Closing(lemp.g, q, base, done, item, r, current', cfg')
  {
    hide Closing, Valid, Exact;
    var j := Item(r, 0);
    current' := if j in cfg then current else current + [j];
    var fws, vanishes := ScanSuffix(lemp, item, if j in cfg then cfg[j].fws else {});
    cfg' := AddSpawn(cfg, q, item, j, fws, vanishes);
    AddSpawnOk(lemp.g, q, base, done, item, r, current, cfg, fws, vanishes);
  }

  lemma AddSpawnOk(g: Grammar, q: nat, base: map<Item, Config>, done: set<Item>, item: Item, r: nat,
                   current: seq<Item>, cfg: map<Item, Config>, fws: set<nat>, vanishes: bool)
    requires item in cfg && item !in done && done <= cfg.Keys && Spawns(g, item, Item(r, 0))
    requires Closing(g, q, base, done, item, r + 1, current, cfg)
    requires forall t :: t in fws <==>
               (Item(r, 0) in cfg && t in cfg[Item(r, 0)].fws) || Begins(g, Suffix(g, item), t)
    requires vanishes <==> Nullable(g, Suffix(g, item))
    ensures Closing(g, q, base, done, item, r, if Item(r, 0) in cfg then current else current + [Item(r, 0)],
                    AddSpawn(cfg, q, item, Item(r, 0), fws, vanishes))
  {
    AddSpawnFws(g, q, base, done, item, r, cfg, fws, vanishes);
    AddSpawnLinks(g, q, done, item, r, cfg, fws, vanishes);
    AddSpawnList(g, q, base, item, Item(r, 0), current, cfg, fws, vanishes);
  }

  lemma SkipRule(g: Grammar, q: nat, base: map<Item, Config>, done: set<Item>, item: Item, r: nat,
                 current: seq<Item>, cfg: map<Item, Config>)
    requires Closing(g, q, base, done, item, r + 1, current, cfg) && !Spawns(g, item, Item(r, 0))
    ensures Closing(g, q, base, done, item, r, current, cfg)
  {
    assert forall j: Item :: j.dot == 0 && j.rule == r ==> j == Item(r, 0);
    forall j, t ensures Given(g, done, item, r, j, t) <==> Given(g, done, item, r + 1, j, t) {}
    forall j ensures Spawned(g, done, item, r, j) <==> Spawned(g, done, item, r + 1, j) {}
  }

  /** All rules of `item` have been added: it is done, and any other item may be next. */
  lemma NextItem(g: Grammar, q: nat, base: map<Item, Config>, done: set<Item>, item: Item, next: Item,
                 current: seq<Item>, cfg: map<Item, Config>)
    requires Closing(g, q, base, done, item, 0, current, cfg)
    ensures Closing(g, q, base, done + {item}, next, |g.rules|, current, cfg)
  {
    var done' := done + {item};
    forall j, t ensures Given(g, done', next, |g.rules|, j, t) <==> Given(g, done, item, 0, j, t) {
      if Contributes(g, item, j, t) { assert item in done'; }
    }
    forall j ensures Spawned(g, done', next, |g.rules|, j) <==> Spawned(g, done, item, 0, j) {
      if Spawns(g, item, j) { assert item in done'; }
    }
  }

  /** An item with a terminal, or nothing, after its mark spawns nothing. */
  lemma SpawnsNothing(g: Grammar, q: nat, base: map<Item, Config>, done: set<Item>, item: Item,
                      current: seq<Item>, cfg: map<Item, Config>)
    requires Closing(g, q, base, done, item, |g.rules|, current, cfg)
    requires forall j :: !Spawns(g, item, j)
    ensures Closing(g, q, base, done, item, 0, current, cfg)
  {
    forall j, t ensures Given(g, done, item, |g.rules|, j, t) <==> Given(g, done, item, 0, j, t) {}
    forall j ensures Spawned(g, done, item, |g.rules|, j) <==> Spawned(g, done, item, 0, j) {}
  }

  lemma KeysInClosure(g: Grammar, q: nat, base: map<Item, Config>, done: set<Item>, item: Item, r: nat,
                      current: seq<Item>, cfg: map<Item, Config>)
    requires base.Keys <= AllItems(g) && Closing(g, q, base, done, item, r, current, cfg)
    requires done <= Closure(g, base.Keys) && item in Closure(g, base.Keys)
    ensures cfg.Keys <= Closure(g, base.Keys)
  {
    ClosureIsLeast(g, base.Keys);
  }

  lemma NoTerminalSpawns(g: Grammar, item: Item)
    requires Valid(g) && IsItem(g, item) && (AtEnd(g, item) || g.rules[item.rule].rhs[item.dot] < g.nterminal)
    ensures forall j :: !Spawns(g, item, j)
  {
    forall j ensures !Spawns(g, item, j) {
      if j.rule < |g.rules| { assert ValidRule(g, g.rules[j.rule]); }
    }
  }

  /** The finished closure of a basis. */
  ghost predicate Finished(g: Grammar, q: nat, base: map<Item, Config>, current: seq<Item>, cfg: map<Item, Config>) {
    && ListOk(g, current, cfg) && cfg.Keys == Closure(g, base.Keys) && BackAt(base, cfg)
    && (forall j, t | j in cfg :: t in cfg[j].fws <==>
          t in BaseFws(base, j) || exists i :: i in cfg.Keys && Contributes(g, i, j, t))
    && (forall i, n | i in cfg :: n in cfg[i].fplp <==> n.state == q && Passes(g, i, n.item))
  }

  lemma ClosingFinished(g: Grammar, q: nat, base: map<Item, Config>, item: Item, current: seq<Item>, cfg: map<Item,
                        Config>)
    requires base.Keys <= AllItems(g) && Closing(g, q, base, Elems(current), item, |g.rules|, current, cfg)
    requires cfg.Keys <= Closure(g, base.Keys)
    ensures Finished(g, q, base, current, cfg)
  {
    assert Closed(g, cfg.Keys) by {
      forall i, j | i in cfg.Keys && Spawns(g, i, j) ensures j in cfg.Keys {
        assert Spawned(g, cfg.Keys, item, |g.rules|, j);
      }
    }
    ClosureUnique(g, base.Keys, cfg.Keys);
    forall j, t | j in cfg ensures t in cfg[j].fws <==>
        t in BaseFws(base, j) || exists i :: i in cfg.Keys && Contributes(g, i, j, t)
    {
      assert Given(g, cfg.Keys, item, |g.rules|, j, t) <==> exists i :: i in cfg.Keys && Contributes(g, i, j, t);
    }
  }

  /** Add everything that `item` spawns. */
  method CloseItem(lemp: Lemon, q: nat, ghost base: map<Item, Config>, ghost done: set<Item>, item: Item,
                   current: seq<Item>, cfg: map<Item, Config>)
    returns (current': seq<Item>, cfg': map<Item, Config>)
    requires Valid(lemp.g) && Exact(lemp.g, lemp.lambda, lemp.first)
    requires item in cfg && item !in done && done <= cfg.Keys
    requires Closing(lemp.g, q, base, done, item, |lemp.g.rules|, current, cfg)
    ensures current <= current' && Closing(lemp.g, q, base, done, item, 0, current', cfg')
  {
    var g := lemp.g;
    current', cfg' := current, cfg;
    assert item in AllItems(g);
    hide Closing, KeysAt, Valid, Exact;
    if AtEnd(g, item) || g.rules[item.rule].rhs[item.dot] < g.nterminal {
      NoTerminalSpawns(g, item);
      SpawnsNothing(g, q, base, done, item, current, cfg);
      return;
    }
    current', cfg' := SpawnRules(lemp, q, base, done, item, current, cfg);
  }

  method SpawnRules(lemp: Lemon, q: nat, ghost base: map<Item, Config>, ghost done: set<Item>, item: Item,
                    current: seq<Item>, cfg: map<Item, Config>)
    returns (current': seq<Item>, cfg': map<Item, Config>)
    requires Valid(lemp.g) && Exact(lemp.g, lemp.lambda, lemp.first)
    requires item in cfg && item !in done && done <= cfg.Keys && IsItem(lemp.g, item) && !AtEnd(lemp.g, item)
    requires Closing(lemp.g, q, base, done, item, |lemp.g.rules|, current, cfg)
    ensures current <= current' && Closing(lemp.g, q, base, done, item, 0, current', cfg')
  {
    hide Closing, Valid, Exact;
    current', cfg' := current, cfg;
    var r: nat := |lemp.g.rules|;
    while r > 0
      invariant r <= |lemp.g.rules| && current <= current' && cfg.Keys <= cfg'.Keys
      invariant Closing(lemp.g, q, base, done, item, r, current', cfg')
    {
      r := r - 1;
      if lemp.g.rules[r].lhs == lemp.g.rules[item.rule].rhs[item.dot] {
        current', cfg' := SpawnRule(lemp, q, base, done, item, r, current', cfg');
      } else {
        SkipRule(lemp.g, q, base, done, item, r, current', cfg');
      }
    }
  }

  /** The list before configuration number `c` is looked at, all earlier ones having been dealt with. */
  ghost predicate ClosedUpTo(g: Grammar, q: nat, base: map<Item, Config>, c: nat, current: seq<Item>, cfg: map<Item,
                             Config>) {
    && c <= |current| && cfg.Keys <= Closure(g, base.Keys)
    && Closing(g, q, base, Elems(current[..c]), if c < |current| then current[c] else Item(0, 0), |g.rules|, current,
               cfg)
  }

  method CloseNext(lemp: Lemon, q: nat, ghost base: map<Item, Config>, c: nat, current: seq<Item>, cfg: map<Item,
                   Config>)
    returns (current': seq<Item>, cfg': map<Item, Config>)
    requires Valid(lemp.g) && Exact(lemp.g, lemp.lambda, lemp.first) && base.Keys <= AllItems(lemp.g)
    requires c < |current| && ClosedUpTo(lemp.g, q, base, c, current, cfg)
    ensures c < |AllItems(lemp.g)| && ClosedUpTo(lemp.g, q, base, c + 1, current', cfg')
  {
    hide Closing, Closure, AllItems, Valid, Exact;
    ghost var done := Elems(current[..c]);
    ListPrefix(lemp.g, q, base, done, current[c], |lemp.g.rules|, current, cfg, c);
    current', cfg' := CloseItem(lemp, q, base, done, current[c], current, cfg);
    KeysInClosure(lemp.g, q, base, done, current[c], 0, current', cfg');
    NextItem(lemp.g, q, base, done, current[c], if c + 1 < |current'| then current'[c + 1] else Item(0, 0), current',
             cfg');
    assert current'[..c + 1] == current[..c] + [current[c]];
    assert Elems(current'[..c + 1]) == done + {current[c]};
  }

  /** Configlist_closure: the list grows behind the configuration being looked at until there are none left. */
  method ConfiglistClosure(lemp: Lemon, q: nat, basis: seq<Item>, base: map<Item, Config>)
    returns (current: seq<Item>, cfg: map<Item, Config>)
    requires Valid(lemp.g) && Exact(lemp.g, lemp.lambda, lemp.first)
    requires ListOk(lemp.g, basis, base) && forall i | i in base :: base[i].fplp == []
    ensures Finished(lemp.g, q, base, current, cfg)
  {
    current, cfg := basis, base;
    ClosureIsLeast(lemp.g, base.Keys);
    ClosingStart(lemp.g, q, base, if basis == [] then Item(0, 0) else basis[0], basis);
    assert Elems(current[..0]) == {};
    hide Closing, Closure, AllItems, Valid, Exact, Finished;
    var c := 0;
    while c < |current|
      invariant ClosedUpTo(lemp.g, q, base, c, current, cfg)
      decreases |AllItems(lemp.g)| - c
    {
      current, cfg := CloseNext(lemp, q, base, c, current, cfg);
      c := c + 1;
    }
    assert current[..c] == current;
    ClosingFinished(lemp.g, q, base, Item(0, 0), current, cfg);
  }

  lemma ClosingStart(g: Grammar, q: nat, base: map<Item, Config>, item: Item, basis: seq<Item>)
    requires ListOk(g, basis, base) && forall i | i in base :: base[i].fplp == []
    ensures Closing(g, q, base, {}, item, |g.rules|, basis, base)
  {
  }

  lemma ListPrefix(g: Grammar, q: nat, base: map<Item, Config>, done: set<Item>, item: Item, r: nat,
                   current: seq<Item>, cfg: map<Item, Config>, c: nat)
    requires Closing(g, q, base, done, item, r, current, cfg) && c < |current|
    ensures current[c] in cfg && current[c] !in Elems(current[..c]) && Elems(current[..c]) <= cfg.Keys
    ensures c < |AllItems(g)|
  {
    assert forall x | x in current[..c] :: x in current;
    assert current[c] in Elems(current);
    DistinctCount(current);
    SubsetSize(Elems(current), AllItems(g));
  }

  // ----- getstate, buildshifts, FindStates -----

  /** State_find: the state with an equal basis list, if any. */
  method StateFind(ss: seq<State>, basis: seq<Item>) returns (q: nat)
    ensures q <= |ss| && (q < |ss| ==> ss[q].basis == basis)
    ensures q == |ss| ==> forall p | 0 <= p < |ss| :: ss[p].basis != basis
  {
    q := 0;
    while q < |ss| && ss[q].basis != basis
      invariant q <= |ss| && forall p | 0 <= p < q :: ss[p].basis != basis
    {
      q := q + 1;
    }
  }

  /** A basis under construction: its items and their configurations, which so far hold only back links, and `$` as
      lookahead when this is the first state. */
  ghost predicate BasisOk(g: Grammar, ss: seq<State>, basis: seq<Item>, cfg: map<Item, Config>) {
    && ListOk(g, basis, cfg) && Reachable(g, cfg.Keys)
    && (|ss| == 0 ==> cfg.Keys == StartKernel(g))
    && (forall j | j in cfg :: cfg[j].fws == (if |ss| == 0 then {0} else {}) && cfg[j].fplp == [])
    && (forall j, n | j in cfg && n in cfg[j].bplp :: Precedes(g, ss, n, cfg.Keys, j))
  }

  /** The back links of a basis have all reached state `q`. */
  ghost predicate LinksArrived(ss: seq<State>, q: nat, cfg: map<Item, Config>) {
    q < |ss| && Core(ss[q]) == cfg.Keys
    && forall j, n | j in cfg && n in cfg[j].bplp :: j in ss[q].cfg && n in ss[q].cfg[j].bplp
  }

  /** The basis sets not yet in the table: what the recursion uses up. */
  ghost function Unseen(g: Grammar, ss: seq<State>): set<set<Item>> {
    set k: set<Item> | k <= AllItems(g) && forall q | 0 <= q < |ss| :: Core(ss[q]) != k
  }

  lemma UnseenShrinks(g: Grammar, ss: seq<State>, ss': seq<State>, busy: int)
    requires Extends(ss, ss', busy)
    ensures Unseen(g, ss') <= Unseen(g, ss)
  {
    forall k | k in Unseen(g, ss') ensures k in Unseen(g, ss) {
      forall q | 0 <= q < |ss| ensures Core(ss[q]) != k {
        assert SameBut(ss[q], ss'[q]);
        assert Core(ss'[q]) != k;
      }
    }
  }

  ghost function Matching(g: Grammar, c: set<Item>, x: nat): set<Item> {
    set i | i in c && Before(g, i, x)
  }

  /** What has been gathered from the items `c`. */
  ghost predicate Gathered(g: Grammar, q: nat, c: set<Item>, x: nat, basis: seq<Item>, cfg: map<Item, Config>) {
    && Distinct(basis) && Elems(basis) == cfg.Keys == Goto(g, c, x)
    && forall i | i in c && Before(g, i, x) :: cfg[Advance(i)] == Config({}, [], [Ref(q, i)])
  }

  lemma GatherMore(g: Grammar, q: nat, c: set<Item>, x: nat, basis: seq<Item>, cfg: map<Item, Config>, i: Item)
    requires Gathered(g, q, c, x, basis, cfg) && i !in c
    ensures Before(g, i, x) ==>
              Gathered(g, q, c + {i}, x, basis + [Advance(i)], cfg[Advance(i) := Config({}, [], [Ref(q, i)])])
    ensures !Before(g, i, x) ==> Gathered(g, q, c + {i}, x, basis, cfg)
  {
    GotoMore(g, c, i, x);
    hide Goto, Before;
    if Before(g, i, x) { ListMore(basis, cfg.Keys, Advance(i)); }
  }

  lemma ListMore(list: seq<Item>, c: set<Item>, i: Item)
    requires Distinct(list) && Elems(list) == c && i !in c
    ensures Distinct(list + [i]) && Elems(list + [i]) == c + {i}
  {
  }

  lemma GotoMore(g: Grammar, c: set<Item>, i: Item, x: nat)
    requires i !in c
    ensures Goto(g, c + {i}, x) == if Before(g, i, x) then Goto(g, c, x) + {Advance(i)} else Goto(g, c, x)
    ensures Advance(i) !in Goto(g, c, x) && forall k | k in c && Before(g, k, x) :: Advance(k) in Goto(g, c, x)
  {
  }

  /** Collect the advanced items of all configurations with `x` after the mark, from number `c` on. */
  method GatherBasis(g: Grammar, s: State, q: nat, c: nat, x: nat, complete: set<Item>)
    returns (basis: seq<Item>, cfg: map<Item, Config>, complete': set<Item>)
    requires Strict(s.cfp) && c <= |s.cfp|
    requires forall m | 0 <= m < c :: !Before(g, s.cfp[m], x)
    requires forall i | i in complete :: !Before(g, i, x)
    ensures Gathered(g, q, Elems(s.cfp), x, basis, cfg)
    ensures complete' == complete + Matching(g, Elems(s.cfp), x)
  {
    hide Gathered;
    basis, cfg, complete' := [], map[], complete;
    GatherNone(g, q, Elems(s.cfp[..c]), x);
    for b := c to |s.cfp|
      invariant Gathered(g, q, Elems(s.cfp[..b]), x, basis, cfg)
      invariant complete' == complete + Matching(g, Elems(s.cfp[..b]), x)
    {
      var i := s.cfp[b];
      StrictPrefix(s.cfp, b);
      GatherMore(g, q, Elems(s.cfp[..b]), x, basis, cfg, i);
      if i in complete' { continue; }
      if Before(g, i, x) {
        basis, cfg := basis + [Advance(i)], cfg[Advance(i) := Config({}, [], [Ref(q, i)])];
        complete' := complete' + {i};
      }
    }
    assert s.cfp[..|s.cfp|] == s.cfp;
  }

  lemma GatherNone(g: Grammar, q: nat, c: set<Item>, x: nat)
    requires forall i | i in c :: !Before(g, i, x)
    ensures Gathered(g, q, c, x, [], map[]) && Matching(g, c, x) == {}
  {
  }

  lemma StrictPrefix(cfp: seq<Item>, b: nat)
    requires Strict(cfp) && b < |cfp|
    ensures cfp[b] !in Elems(cfp[..b]) && Elems(cfp[..b + 1]) == Elems(cfp[..b]) + {cfp[b]}
  {
    assert cfp[..b + 1] == cfp[..b] + [cfp[b]];
    forall i | i in cfp[..b] ensures i != cfp[b] {
      var k :| 0 <= k < b && cfp[k] == i;
      assert Configcmp(cfp[k], cfp[b]) < 0;
    }
  }

  /** Copy the back links of a basis that is already in the table to the existing state. */
  method MergeLinks(ghost g: Grammar, ss: seq<State>, q: nat, basis: seq<Item>, cfg: map<Item, Config>)
    returns (ss': seq<State>)
    requires Inv(g, ss) && q < |ss| && Core(ss[q]) == cfg.Keys == Elems(basis)
    requires forall j, n | j in cfg && n in cfg[j].bplp :: Precedes(g, ss, n, cfg.Keys, j)
    ensures Inv(g, ss') && |ss'| == |ss| && Extends(ss, ss', -1) && LinksArrived(ss', q, cfg)
  {
    hide Inv, Precedes;
    ss' := ss;
    assert Extends(ss, ss', -1);
    hide Extends;
    for k := 0 to |basis|
      invariant Inv(g, ss') && |ss'| == |ss| && Extends(ss, ss', -1) && MergedUpTo(ss', q, basis, cfg, k)
    {
      ghost var before := ss';
      ss' := MergeOne(g, ss, ss', q, basis[k], cfg);
      StillMerged(before, ss', q, basis, cfg, k);
    }
    AllMerged(ss, ss', q, basis, cfg);
  }

  /** The links of the first `k` items of a basis have reached state `q`. */
  ghost predicate MergedUpTo(ss: seq<State>, q: nat, basis: seq<Item>, cfg: map<Item, Config>, k: nat)
    requires q < |ss| && k <= |basis| && Elems(basis) == cfg.Keys
  {
    forall m | 0 <= m < k :: assert basis[m] in cfg; LinksIn(ss[q], basis[m], cfg[basis[m]].bplp)
  }

  ghost predicate LinksIn(s: State, j: Item, links: seq<Ref>) {
    forall n | n in links :: j in s.cfg && n in s.cfg[j].bplp
  }

  lemma StillMerged(ss: seq<State>, ss': seq<State>, q: nat, basis: seq<Item>, cfg: map<Item, Config>, k: nat)
    requires q < |ss| == |ss'| && k < |basis| && Elems(basis) == cfg.Keys && Extends(ss, ss', -1)
             && MergedUpTo(ss, q, basis, cfg, k)
    requires basis[k] in cfg && LinksIn(ss'[q], basis[k], cfg[basis[k]].bplp)
    ensures MergedUpTo(ss', q, basis, cfg, k + 1)
  {
    assert SameBut(ss[q], ss'[q]);
    forall m | 0 <= m < k ensures basis[m] in cfg && LinksIn(ss'[q], basis[m], cfg[basis[m]].bplp) {
      assert basis[m] in Elems(basis) && LinksIn(ss[q], basis[m], cfg[basis[m]].bplp);
    }
  }

  lemma AllMerged(ss: seq<State>, ss': seq<State>, q: nat, basis: seq<Item>, cfg: map<Item, Config>)
    requires q < |ss| == |ss'| && Core(ss[q]) == cfg.Keys == Elems(basis) && Extends(ss, ss', -1)
             && MergedUpTo(ss', q, basis, cfg, |basis|)
    ensures LinksArrived(ss', q, cfg)
  {
    assert SameBut(ss[q], ss'[q]);
    forall j, n | j in cfg && n in cfg[j].bplp ensures j in ss'[q].cfg && n in ss'[q].cfg[j].bplp {
      assert j in Elems(basis);
      var m :| 0 <= m < |basis| && basis[m] == j;
      assert LinksIn(ss'[q], basis[m], cfg[basis[m]].bplp);
    }
  }

  method MergeOne(ghost g: Grammar, ghost ss: seq<State>, ss': seq<State>, q: nat, j: Item, cfg: map<Item, Config>)
    returns (ss'': seq<State>)
    requires Inv(g, ss') && q < |ss| && Core(ss[q]) == cfg.Keys && j in cfg
    requires |ss'| == |ss| && Extends(ss, ss', -1)
    requires forall n | n in cfg[j].bplp :: Precedes(g, ss, n, cfg.Keys, j)
    ensures Inv(g, ss'') && |ss''| == |ss| && Extends(ss, ss'', -1) && Extends(ss', ss'', -1)
    ensures LinksIn(ss''[q], j, cfg[j].bplp)
  {
    assert SameBut(ss[q], ss'[q]) && StateOk(g, ss', q);
    ClosureIsLeast(g, Core(ss'[q]));
    forall n | n in cfg[j].bplp ensures Precedes(g, ss', n, Core(ss'[q]), j) {
      PrecedesExtends(g, ss, ss', -1, n, cfg.Keys, j);
    }
    ss'' := WithBack(ss', q, j, cfg[j].bplp);
    WithBackOk(g, ss', q, j, cfg[j].bplp);
    ExtendsTrans(ss, ss', ss'', -1);
  }

  /** The record for a new state: its basis closed and sorted. */
  method CreateState(lemp: Lemon, newbasis: seq<Item>, basis: seq<Item>, base: map<Item, Config>) returns (s: State)
    requires Valid(lemp.g) && Fits(lemp.g) && Exact(lemp.g, lemp.lambda, lemp.first)
    requires BasisOk(lemp.g, lemp.states, newbasis, base) && Strict(basis) && Elems(basis) == Elems(newbasis)
    ensures s.basis == basis && s.ap == [] && Shape(lemp.g, s)
    ensures ForwardLinks(lemp.g, lemp.states + [s], |lemp.states|) && Seeds(lemp.g, lemp.states + [s], |lemp.states|)
    ensures forall j, n | j in s.cfg && n in s.cfg[j].bplp :: Precedes(lemp.g, lemp.states, n, Core(s), j)
    ensures forall j | j in base :: j in s.cfg && s.cfg[j].bplp == base[j].bplp
  {
    var current, cfg := ConfiglistClosure(lemp, |lemp.states|, newbasis, base);
    var cfp := SortItems(lemp.g, current);
    s := State(basis, cfp, cfg, []);
    hide Reachable, StartKernel, Closure, Precedes, Strict, Valid, Exact, Seeds, ForwardLinks, Finished;
    FinishedState(lemp.g, lemp.states, newbasis, base, current, s);
    FinishedSeeds(lemp.g, lemp.states, newbasis, base, current, s);
  }

  lemma FinishedState(g: Grammar, ss: seq<State>, newbasis: seq<Item>, base: map<Item, Config>, current: seq<Item>,
                      s: State)
    requires BasisOk(g, ss, newbasis, base) && Strict(s.basis) && Core(s) == base.Keys && s.ap == []
    requires Finished(g, |ss|, base, current, s.cfg) && Strict(s.cfp) && Elems(s.cfp) == Elems(current)
    ensures Shape(g, s) && ForwardLinks(g, ss + [s], |ss|)
    ensures forall j, n | j in s.cfg && n in s.cfg[j].bplp :: Precedes(g, ss, n, Core(s), j)
    ensures forall j | j in base :: j in s.cfg && s.cfg[j].bplp == base[j].bplp
  {
    hide Contributes, Passes, StartKernel, Closure, Reachable, Precedes, Strict;
    FinishedShape(g, ss, newbasis, base, current, s);
    FinishedForward(g, ss, base, current, s);
    FinishedBack(g, |ss|, base, current, s.cfg);
  }

  lemma FinishedShape(g: Grammar, ss: seq<State>, newbasis: seq<Item>, base: map<Item, Config>, current: seq<Item>,
                      s: State)
    requires BasisOk(g, ss, newbasis, base) && Strict(s.basis) && Core(s) == base.Keys
    requires Finished(g, |ss|, base, current, s.cfg) && Strict(s.cfp) && Elems(s.cfp) == Elems(current)
    ensures Shape(g, s)
  {
    ClosureIsLeast(g, base.Keys);
    hide Contributes, Passes, StartKernel, Closure, Reachable, Precedes, Strict;
  }

  lemma FinishedForward(g: Grammar, ss: seq<State>, base: map<Item, Config>, current: seq<Item>, s: State)
    requires Finished(g, |ss|, base, current, s.cfg)
    ensures ForwardLinks(g, ss + [s], |ss|)
  {
    hide Contributes, Passes, Closure, BackAt, ListOk;
  }

  lemma FinishedBack(g: Grammar, q: nat, base: map<Item, Config>, current: seq<Item>, cfg: map<Item, Config>)
    requires Finished(g, q, base, current, cfg) && base.Keys <= AllItems(g)
    ensures forall j | j in cfg :: cfg[j].bplp == if j in base then base[j].bplp else []
    ensures forall j | j in base :: j in cfg
  {
    ClosureIsLeast(g, base.Keys);
    hide Contributes, Passes, Closure, ListOk;
  }

  lemma FinishedSeeds(g: Grammar, ss: seq<State>, newbasis: seq<Item>, base: map<Item, Config>, current: seq<Item>,
                      s: State)
    requires BasisOk(g, ss, newbasis, base) && Core(s) == base.Keys
    requires Finished(g, |ss|, base, current, s.cfg)
    ensures Seeds(g, ss + [s], |ss|)
  {
    hide Reachable, Precedes, Contributes, Passes, StartKernel, Closure, ListOk, BackAt;
    forall j, t | j in s.cfg ensures t in s.cfg[j].fws <==> Seeded(g, |ss|, Full(g, s), j, t) {
      assert t in BaseFws(base, j) <==> |ss| == 0 && j in StartKernel(g) && t == 0;
    }
  }

  ghost predicate Ready(lemp: Lemon)
    reads lemp
  {
    Valid(lemp.g) && Fits(lemp.g) && Exact(lemp.g, lemp.lambda, lemp.first) && Inv(lemp.g, lemp.states)
  }

  /** States from number `n` on are complete. */
  ghost predicate DoneFrom(g: Grammar, ss: seq<State>, n: nat) {
    forall p | n <= p < |ss| :: Done(g, ss, p)
  }

  lemma DoneFromExtends(g: Grammar, ss: seq<State>, ss': seq<State>, busy: int, n: nat)
    requires Extends(ss, ss', busy) && busy < n <= |ss| && DoneFrom(g, ss, n) && DoneFrom(g, ss', |ss|)
    ensures DoneFrom(g, ss', n)
  {
    forall p | n <= p < |ss'| ensures Done(g, ss', p) {
      if p < |ss| { DoneExtends(g, ss, ss', busy, p); }
    }
  }

  // ----- the order in which states are found -----

  /** A basis that was there is found; any other is the next state, and what is found from there comes after it. */
  ghost predicate Numbered(g: Grammar, n: nat, ss: seq<State>, q: nat) {
    q <= n <= |ss| && if q < n then |ss| == n else q < |ss| && Visited(g, Cores(ss), q, n + 1, |ss|)
  }

  /** State `q` has been followed on the symbols after the marks of its first `c` items. */
  ghost predicate Following(g: Grammar, was: seq<State>, ss: seq<State>, q: nat, handled: set<nat>, c: nat) {
    && q < |was| <= |ss| && c <= |was[q].cfp| && handled == SymbolsOf(NextInOrder(g, was[q].cfp[..c]))
    && Explored(g, Cores(ss), q, NextInOrder(g, was[q].cfp[..c]), |was|, |ss|)
  }

  ghost function SymbolsOf(xs: seq<nat>): set<nat> {
    set x | x in xs
  }

  lemma FollowingStart(g: Grammar, ss: seq<State>, q: nat)
    requires q < |ss|
    ensures Following(g, ss, ss, q, {}, 0)
  {
  }

  lemma FollowingSkip(g: Grammar, was: seq<State>, ss: seq<State>, q: nat, handled: set<nat>, c: nat)
    requires Following(g, was, ss, q, handled, c) && c < |was[q].cfp|
    requires forall x | Before(g, was[q].cfp[c], x) :: x in handled
    ensures Following(g, was, ss, q, handled, c + 1)
  {
    NextMore(g, was[q].cfp, c);
    hide Explored, NextInOrder, Cores;
    var i := was[q].cfp[c];
    if IsItem(g, i) && !AtEnd(g, i) { assert Before(g, i, g.rules[i.rule].rhs[i.dot]); }
  }

  lemma FollowingStep(g: Grammar, was: seq<State>, ss: seq<State>, ss': seq<State>, q: nat, handled: set<nat>, c: nat,
                      x: nat)
    requires Following(g, was, ss, q, handled, c) && c < |was[q].cfp| && Before(g, was[q].cfp[c], x) && x !in handled
    requires Prefixed(Cores(ss), Cores(ss')) && StepTo(g, Cores(ss'), q, x, |ss|, |ss'|)
    ensures Following(g, was, ss', q, handled + {x}, c + 1)
  {
    NextMore(g, was[q].cfp, c);
    var xs := NextInOrder(g, was[q].cfp[..c]);
    hide Explored, NextInOrder, StepTo;
    ExploredMore(g, Cores(ss), Cores(ss'), q, xs, x, |was|, |ss|, |ss'|);
    assert SymbolsOf(xs + [x]) == SymbolsOf(xs) + {x};
  }

  lemma FollowingEnd(g: Grammar, was: seq<State>, ss: seq<State>, q: nat, handled: set<nat>)
    requires q < |was| && Following(g, was, ss, q, handled, |was[q].cfp|) && SameBut(was[q], ss[q])
    requires Shape(g, was[q])
    ensures Visited(g, Cores(ss), q, |was|, |ss|)
  {
    var list := was[q].cfp;
    hide Explored, NextInOrder;
    assert list[..|list|] == list && Core(was[q]) == Core(ss[q]) == Cores(ss)[q];
    assert Listing(Closure(g, Cores(ss)[q]), list);
  }

  lemma ExtendsPrefix(ss: seq<State>, ss': seq<State>, busy: int)
    requires Extends(ss, ss', busy)
    ensures Prefixed(Cores(ss), Cores(ss'))
  {
    forall q | 0 <= q < |ss| ensures Core(ss[q]) == Core(ss'[q]) {
      assert SameBut(ss[q], ss'[q]);
    }
  }

  /** The shift that has been added changes no basis. */
  lemma SameCores(ss: seq<State>, q: nat, a: Action)
    requires q < |ss|
    ensures Cores(WithAction(ss, q, a)) == Cores(ss)
  {
  }

  lemma NumberedStep(g: Grammar, n: nat, ss: seq<State>, q: nat, x: nat, j: nat)
    requires q < |ss| && Numbered(g, n, ss, j) && Leads(g, ss, q, x, j) && n <= |ss|
    ensures StepTo(g, Cores(ss), q, x, n, |ss|)
  {
    hide Visited, Closure, Goto;
    assert Edge(g, Cores(ss), q, x, j);
  }

  /** getstate: find or build the state with the given basis, and with it every state it leads to. */
  method GetState(lemp: Lemon, newbasis: seq<Item>, cfg: map<Item, Config>) returns (q: nat)
    requires Ready(lemp) && BasisOk(lemp.g, lemp.states, newbasis, cfg)
    modifies lemp`states
    ensures Ready(lemp) && Extends(old(lemp.states), lemp.states, -1)
    ensures LinksArrived(lemp.states, q, cfg) && DoneFrom(lemp.g, lemp.states, |old(lemp.states)|)
    ensures Numbered(lemp.g, |old(lemp.states)|, lemp.states, q)
    decreases Unseen(lemp.g, lemp.states), 0
  {
    var basis := SortItems(lemp.g, newbasis);
    q := StateFind(lemp.states, basis);
    if q < |lemp.states| {
      lemp.states := MergeLinks(lemp.g, lemp.states, q, basis, cfg);
    } else {
      var s := CreateState(lemp, newbasis, basis, cfg);
      AppendOk(lemp.g, lemp.states, s);
      NewlySeen(lemp.g, lemp.states, s);
      ghost var before := lemp.states;
      lemp.states := lemp.states + [s];
      ghost var middle := lemp.states;
      assert LinksArrived(middle, q, cfg);
      BuildShifts(lemp, q);
      AfterShifts(lemp.g, before, middle, lemp.states, q, cfg);
    }
  }

  lemma NewlySeen(g: Grammar, ss: seq<State>, s: State)
    requires Inv(g, ss) && Shape(g, s) && forall q | 0 <= q < |ss| :: ss[q].basis != s.basis
    ensures Unseen(g, ss + [s]) < Unseen(g, ss)
  {
    forall q | 0 <= q < |ss| ensures Core(ss[q]) != Core(s) {
      assert StateOk(g, ss, q);
      if Core(ss[q]) == Core(s) { StrictUnique(ss[q].basis, s.basis); }
    }
    assert Core(s) in Unseen(g, ss);
    assert Core((ss + [s])[|ss|]) == Core(s);
    assert Core(s) !in Unseen(g, ss + [s]);
    assert Extends(ss, ss + [s], -1);
    UnseenShrinks(g, ss, ss + [s], -1);
  }

  /** What building the shifts of a new last state `q` leaves true. */
  lemma AfterShifts(g: Grammar, before: seq<State>, middle: seq<State>, after: seq<State>, q: nat, cfg: map<Item,
                    Config>)
    requires q == |before| && |middle| == q + 1 && middle[..q] == before && LinksArrived(middle, q, cfg)
    requires Extends(middle, after, q) && Done(g, after, q) && DoneFrom(g, after, |middle|)
    ensures Extends(before, after, -1) && LinksArrived(after, q, cfg) && DoneFrom(g, after, |before|)
  {
    assert SameBut(middle[q], after[q]);
    forall p | 0 <= p < |before| ensures SameBut(before[p], after[p]) && before[p].ap == after[p].ap {
      assert middle[p] == before[p];
    }
  }

  /** How far the outer loop over the configurations of state `q` has come: the symbols `handled` have their shifts. */
  ghost predicate Progress(g: Grammar, was: seq<State>, ss: seq<State>, q: nat, handled: set<nat>, complete: set<Item>,
                           c: nat)
    requires q < |was|
  {
    && Extends(was, ss, q) && DoneFrom(g, ss, |was|) && Shifts(g, ss, q, handled)
    && ItemProgress(g, was[q], handled, complete, c)
  }

  /** `complete` are the items before a handled symbol; the first `c` items need nothing more. */
  ghost predicate ItemProgress(g: Grammar, s: State, handled: set<nat>, complete: set<Item>, c: nat) {
    && handled <= NextSymbols(g, Full(g, s))
    && (forall i :: i in complete <==> i in Full(g, s) && exists x :: x in handled && Before(g, i, x))
    && c <= |s.cfp| && (forall m | 0 <= m < c :: forall x | Before(g, s.cfp[m], x) :: x in handled)
  }

  /** The gathered configurations have nothing but one link back. */
  lemma GatheredLinks(g: Grammar, ss: seq<State>, q: nat, c: set<Item>, x: nat, basis: seq<Item>, cfg: map<Item,
                      Config>)
    requires q < |ss| && c == Full(g, ss[q]) && Gathered(g, q, c, x, basis, cfg)
    ensures forall j | j in cfg :: cfg[j].fws == {} && cfg[j].fplp == []
    ensures forall j, n | j in cfg && n in cfg[j].bplp :: Precedes(g, ss, n, cfg.Keys, j)
  {
    hide Full, Closure;
    forall j | j in cfg ensures exists i :: i in c && Before(g, i, x) && Advance(i) == j {
      assert j in Goto(g, c, x);
    }
    hide Goto;
    forall j, n | j in cfg && n in cfg[j].bplp ensures Precedes(g, ss, n, cfg.Keys, j) {
      var i :| i in c && Before(g, i, x) && Advance(i) == j;
      assert n == Ref(q, i);
    }
  }

  lemma GatheredBasis(g: Grammar, ss: seq<State>, q: nat, x: nat, basis: seq<Item>, cfg: map<Item, Config>)
    requires Inv(g, ss) && q < |ss| && Gathered(g, q, Elems(ss[q].cfp), x, basis, cfg)
    ensures BasisOk(g, ss, basis, cfg)
  {
    var c := Full(g, ss[q]);
    OkShape(g, ss, q);
    assert Elems(ss[q].cfp) == c;
    GatheredLinks(g, ss, q, c, x, basis, cfg);
    hide Inv, Shape, Precedes;
    ClosureIsLeast(g, Core(ss[q]));
    GotoItems(g, c, x);
    ReachableStep(g, Core(ss[q]), x);
    hide Goto, Closure, Reachable;
  }

  /** Once its back links have arrived, the successor is where the shift leads. */
  lemma ArrivedLeads(g: Grammar, ss: seq<State>, ss': seq<State>, q: nat, x: nat, basis: seq<Item>, cfg: map<Item,
                     Config>, j: nat)
    requires Inv(g, ss) && Inv(g, ss') && Extends(ss, ss', -1) && q < |ss|
    requires Gathered(g, q, Elems(ss[q].cfp), x, basis, cfg) && LinksArrived(ss', j, cfg)
    ensures Leads(g, ss', q, x, j)
  {
    assert StateOk(g, ss, q) && SameBut(ss[q], ss'[q]) && StateOk(g, ss', j);
    forall i | i in Full(g, ss'[q]) && Before(g, i, x)
      ensures Advance(i) in ss'[j].cfg && Ref(q, i) in ss'[j].cfg[Advance(i)].bplp
    {
      assert i in Elems(ss[q].cfp);
      assert Ref(q, i) in cfg[Advance(i)].bplp;
    }
  }

  /** At a configuration that is not complete, nothing with the same symbol has been used. */
  lemma NotYetUsed(g: Grammar, was: seq<State>, ss: seq<State>, q: nat, handled: set<nat>, complete: set<Item>, c: nat,
                   x: nat)
    requires q < |was| && Progress(g, was, ss, q, handled, complete, c) && x !in handled
    ensures forall m | 0 <= m < c :: !Before(g, was[q].cfp[m], x)
    ensures forall i | i in complete :: !Before(g, i, x)
  {
  }

  lemma MoreProgress(g: Grammar, was: seq<State>, ss: seq<State>, ss': seq<State>, q: nat, handled: set<nat>,
                     complete: set<Item>, c: nat, x: nat, j: nat)
    requires Inv(g, was) && q < |was| && Progress(g, was, ss, q, handled, complete, c)
    requires Inv(g, ss') && Extends(ss, ss', -1) && DoneFrom(g, ss', |ss|) && Leads(g, ss', q, x, j) && x !in handled
    requires c < |was[q].cfp| && Before(g, was[q].cfp[c], x)
    ensures var ss'' := WithAction(ss', q, Action(x, Shift, j));
            Inv(g, ss'') && Progress(g, was, ss'', q, handled + {x}, complete + Matching(g, Full(g, was[q]), x), c + 1)
  {
    assert StateOk(g, was, q);
    hide Inv, Extends, DoneFrom, Shifts, Leads, ItemProgress, ForwardLinks, Seeds, BackLinks, WithAction;
    ShiftGrowth(g, was, ss, ss', q, handled, x, j);
    ProgressItems(g, was[q], handled, complete, c, x);
  }

  lemma ShiftGrowth(g: Grammar, was: seq<State>, ss: seq<State>, ss': seq<State>, q: nat, handled: set<nat>, x: nat,
                    j: nat)
    requires q < |was| && Extends(was, ss, q) && DoneFrom(g, ss, |was|) && Shifts(g, ss, q, handled)
    requires Inv(g, ss') && Extends(ss, ss', -1) && DoneFrom(g, ss', |ss|) && Leads(g, ss', q, x, j) && x !in handled
    ensures var ss'' := WithAction(ss', q, Action(x, Shift, j));
            Inv(g, ss'') && Extends(was, ss'', q) && DoneFrom(g, ss'', |was|) && Shifts(g, ss'', q, handled + {x})
  {
    var ss'' := WithAction(ss', q, Action(x, Shift, j));
    ShiftsExtend(g, ss, ss', -1, q, handled);
    hide Inv, DoneFrom, Shifts, Leads;
    WithActionOk(g, ss', q, x, j, handled);
    ExtendsWeaken(ss, ss', q);
    ExtendsTrans(was, ss, ss', q);
    ExtendsTrans(was, ss', ss'', q);
    DoneFromExtends(g, ss, ss', -1, |was|);
    NoneDone(g, ss'');
    DoneFromExtends(g, ss', ss'', q, |was|);
  }

  lemma NoneDone(g: Grammar, ss: seq<State>)
    ensures DoneFrom(g, ss, |ss|)
  {
  }

  lemma ExtendsWeaken(ss: seq<State>, ss': seq<State>, busy: int)
    requires Extends(ss, ss', -1)
    ensures Extends(ss, ss', busy)
  {
  }

  lemma ProgressItems(g: Grammar, s: State, handled: set<nat>, complete: set<Item>, c: nat, x: nat)
    requires Shape(g, s) && c < |s.cfp| && Before(g, s.cfp[c], x) && ItemProgress(g, s, handled, complete, c)
    ensures ItemProgress(g, s, handled + {x}, complete + Matching(g, Full(g, s), x), c + 1)
  {
    hide Full, Shape, Before, NextSymbols, ItemProgress, Matching;
    ListedInFull(g, s, c);
    ProgressParts(g, s, handled, complete, c);
    MatchingMore(g, Full(g, s), handled, complete, x);
    NextOfItem(g, Full(g, s), s.cfp[c], x);
    BeforeOnce(g, s.cfp[c], x);
    ProgressWhole(g, s, handled + {x}, complete + Matching(g, Full(g, s), x), c + 1);
  }

  lemma ListedInFull(g: Grammar, s: State, c: nat)
    requires Shape(g, s) && c < |s.cfp|
    ensures s.cfp[c] in Full(g, s)
  {
    assert s.cfp[c] in Elems(s.cfp);
  }

  lemma ProgressParts(g: Grammar, s: State, handled: set<nat>, complete: set<Item>, c: nat)
    requires ItemProgress(g, s, handled, complete, c)
    ensures handled <= NextSymbols(g, Full(g, s)) && c <= |s.cfp|
    ensures forall i :: i in complete <==> i in Full(g, s) && exists x :: x in handled && Before(g, i, x)
    ensures forall m | 0 <= m < c :: forall x | Before(g, s.cfp[m], x) :: x in handled
  {
  }

  lemma ProgressWhole(g: Grammar, s: State, handled: set<nat>, complete: set<Item>, c: nat)
    requires handled <= NextSymbols(g, Full(g, s)) && c <= |s.cfp|
    requires forall i :: i in complete <==> i in Full(g, s) && exists x :: x in handled && Before(g, i, x)
    requires forall m | 0 <= m < c :: forall x | Before(g, s.cfp[m], x) :: x in handled
    ensures ItemProgress(g, s, handled, complete, c)
  {
  }

  lemma BeforeOnce(g: Grammar, i: Item, x: nat)
    requires Before(g, i, x)
    ensures forall y | Before(g, i, y) :: y == x
  {
  }

  lemma NextOfItem(g: Grammar, c: set<Item>, i: Item, x: nat)
    requires i in c && Before(g, i, x)
    ensures x in NextSymbols(g, c)
  {
  }

  lemma MatchingMore(g: Grammar, c: set<Item>, handled: set<nat>, complete: set<Item>, x: nat)
    requires forall i :: i in complete <==> i in c && exists y :: y in handled && Before(g, i, y)
    ensures forall i :: i in complete + Matching(g, c, x) <==> i in c && exists y ::
              y in handled + {x} && Before(g, i, y)
  {
    forall i
      ensures i in complete + Matching(g, c, x) <==> i in c && exists y :: y in handled + {x} && Before(g, i, y)
    {
      if i in c && Before(g, i, x) { assert x in handled + {x}; }
    }
  }

  lemma StateNow(g: Grammar, was: seq<State>, ss: seq<State>, q: nat, handled: set<nat>, complete: set<Item>, c: nat)
    requires Inv(g, ss) && q < |was| && Progress(g, was, ss, q, handled, complete, c)
    ensures |was| <= |ss| && SameBut(was[q], ss[q]) && StateOk(g, ss, q) && Strict(ss[q].cfp)
            && Elems(ss[q].cfp) == Full(g, was[q])
  {
  }

  method BuildShift(lemp: Lemon, q: nat, ghost was: seq<State>, c: nat, x: nat, complete: set<Item>,
                    ghost handled: set<nat>)
    returns (complete': set<Item>, ghost handled': set<nat>)
    requires Ready(lemp) && Inv(lemp.g, was) && q < |was| && Progress(lemp.g, was, lemp.states, q, handled, complete, c)
    requires c < |was[q].cfp| && Before(lemp.g, was[q].cfp[c], x) && x !in handled
    modifies lemp`states
    ensures Ready(lemp) && Progress(lemp.g, was, lemp.states, q, handled', complete', c + 1)
    ensures handled' == handled + {x} && Prefixed(Cores(old(lemp.states)), Cores(lemp.states))
    ensures StepTo(lemp.g, Cores(lemp.states), q, x, |old(lemp.states)|, |lemp.states|)
    decreases Unseen(lemp.g, lemp.states), 1
  {
    hide Inv, Valid, Exact, Fits, Gathered, Leads, Progress, DoneFrom, LinksArrived, BasisOk, StateOk, Extends,
         Precedes, Full, Numbered, StepTo, Prefixed, Cores;
    ghost var before := lemp.states;
    StateNow(lemp.g, was, before, q, handled, complete, c);
    var s := lemp.states[q];
    NotYetUsed(lemp.g, was, before, q, handled, complete, c, x);
    var basis, cfg;
    basis, cfg, complete' := GatherBasis(lemp.g, s, q, c, x, complete);
    GatheredBasis(lemp.g, before, q, x, basis, cfg);
    var j := GetState(lemp, basis, cfg);
    ArrivedLeads(lemp.g, before, lemp.states, q, x, basis, cfg, j);
    MoreProgress(lemp.g, was, before, lemp.states, q, handled, complete, c, x, j);
    ExtendsPrefix(before, lemp.states, -1);
    NumberedStep(lemp.g, |before|, lemp.states, q, x, j);
    SameCores(lemp.states, q, Action(x, Shift, j));
    lemp.states := WithAction(lemp.states, q, Action(x, Shift, j));
    handled' := handled + {x};
  }

  /** buildshifts: one successor state for every symbol after a mark. */
  method BuildShifts(lemp: Lemon, q: nat)
    requires Ready(lemp) && q < |lemp.states| && Shifts(lemp.g, lemp.states, q, {})
    modifies lemp`states
    ensures Ready(lemp) && Extends(old(lemp.states), lemp.states, q)
    ensures Done(lemp.g, lemp.states, q) && DoneFrom(lemp.g, lemp.states, |old(lemp.states)|)
    ensures Visited(lemp.g, Cores(lemp.states), q, |old(lemp.states)|, |lemp.states|)
    decreases Unseen(lemp.g, lemp.states), 2
  {
    ghost var was := lemp.states;
    var cfp := lemp.states[q].cfp;
    var complete: set<Item> := {};
    ghost var handled: set<nat> := {};
    hide Underway, Progress, Inv, Valid, Exact, Fits, Visited, StepTo, Prefixed, Cores, Unseen;
    UnderwayStart(lemp.g, was, q);
    for c := 0 to |cfp|
      invariant Ready(lemp) && cfp == was[q].cfp && Unseen(lemp.g, lemp.states) <= Unseen(lemp.g, was)
      invariant Underway(lemp.g, was, lemp.states, q, handled, complete, c)
    {
      ghost var before, done := lemp.states, handled;
      var i := cfp[c];
      UnderwayNext(lemp.g, was, lemp.states, q, handled, complete, c);
      if i !in complete && !AtEnd(lemp.g, i) {
        complete, handled := BuildShift(lemp, q, was, c, lemp.g.rules[i.rule].rhs[i.dot], complete, handled);
        UnderwayStep(lemp.g, was, before, lemp.states, q, done, handled, complete, c, lemp.g.rules[i.rule].rhs[i.dot]);
      }
    }
    UnderwayEnd(lemp.g, was, lemp.states, q, handled, complete);
  }

  /** How far the loop has come, with the order in which the states were found. */
  ghost predicate Underway(g: Grammar, was: seq<State>, ss: seq<State>, q: nat, handled: set<nat>, complete: set<Item>,
                           c: nat) {
    q < |was| && Inv(g, was) && Progress(g, was, ss, q, handled, complete, c) && Following(g, was, ss, q, handled, c)
  }

  lemma UnderwayStart(g: Grammar, was: seq<State>, q: nat)
    requires Inv(g, was) && q < |was| && Shifts(g, was, q, {})
    ensures Underway(g, was, was, q, {}, {}, 0)
  {
    hide Progress, Following, Inv;
    ProgressStart(g, was, q);
    FollowingStart(g, was, q);
  }

  lemma UnderwayNext(g: Grammar, was: seq<State>, ss: seq<State>, q: nat, handled: set<nat>, complete: set<Item>,
                     c: nat)
    requires Underway(g, was, ss, q, handled, complete, c) && q < |was| && c < |was[q].cfp|
    ensures IsItem(g, was[q].cfp[c]) && Inv(g, was) && Progress(g, was, ss, q, handled, complete, c)
            && Following(g, was, ss, q, handled, c)
    ensures was[q].cfp[c] in complete || AtEnd(g, was[q].cfp[c]) ==>
              Underway(g, was, ss, q, handled, complete, c + 1)
    ensures was[q].cfp[c] !in complete ==> forall x | Before(g, was[q].cfp[c], x) :: x !in handled
  {
    hide Progress, Following, Inv;
    ProgressNext(g, was, ss, q, handled, complete, c);
    if was[q].cfp[c] in complete || AtEnd(g, was[q].cfp[c]) { FollowingSkip(g, was, ss, q, handled, c); }
  }

  lemma UnderwayStep(g: Grammar, was: seq<State>, ss: seq<State>, ss': seq<State>, q: nat, handled: set<nat>,
                     handled': set<nat>, complete': set<Item>, c: nat, x: nat)
    requires q < |was| && Inv(g, was) && Following(g, was, ss, q, handled, c) && c < |was[q].cfp|
    requires Before(g, was[q].cfp[c], x) && x !in handled && handled' == handled + {x}
    requires Progress(g, was, ss', q, handled', complete', c + 1)
    requires Prefixed(Cores(ss), Cores(ss')) && StepTo(g, Cores(ss'), q, x, |ss|, |ss'|)
    ensures Underway(g, was, ss', q, handled', complete', c + 1) && Unseen(g, ss') <= Unseen(g, was)
  {
    hide Progress, Following, Inv, Prefixed, StepTo, Unseen, Cores;
    ProgressExtends(g, was, ss', q, handled', complete', c + 1);
    FollowingStep(g, was, ss, ss', q, handled, c, x);
  }

  lemma UnderwayEnd(g: Grammar, was: seq<State>, ss: seq<State>, q: nat, handled: set<nat>, complete: set<Item>)
    requires q < |was| && Underway(g, was, ss, q, handled, complete, |was[q].cfp|)
    ensures Extends(was, ss, q) && Done(g, ss, q) && DoneFrom(g, ss, |was|)
    ensures Visited(g, Cores(ss), q, |was|, |ss|)
  {
    hide Following, Inv, Visited, Shape;
    OkShape(g, was, q);
    ProgressEnd(g, was, ss, q, handled, complete);
    assert SameBut(was[q], ss[q]);
    FollowingEnd(g, was, ss, q, handled);
  }

  lemma ProgressStart(g: Grammar, was: seq<State>, q: nat)
    requires q < |was| && Shifts(g, was, q, {})
    ensures Progress(g, was, was, q, {}, {}, 0)
  {
  }

  lemma ProgressExtends(g: Grammar, was: seq<State>, ss: seq<State>, q: nat, handled: set<nat>, complete: set<Item>,
                        c: nat)
    requires q < |was| && Progress(g, was, ss, q, handled, complete, c)
    ensures Extends(was, ss, q) && Unseen(g, ss) <= Unseen(g, was)
  {
    UnseenShrinks(g, was, ss, q);
  }

  /** Skipping a configuration that is complete or cannot shift loses nothing; any other has an unhandled symbol. */
  lemma ProgressNext(g: Grammar, was: seq<State>, ss: seq<State>, q: nat, handled: set<nat>, complete: set<Item>,
                     c: nat)
    requires Inv(g, was) && q < |was| && Progress(g, was, ss, q, handled, complete, c) && c < |was[q].cfp|
    ensures IsItem(g, was[q].cfp[c])
    ensures was[q].cfp[c] in complete || AtEnd(g, was[q].cfp[c]) ==> Progress(g, was, ss, q, handled, complete, c + 1)
    ensures was[q].cfp[c] !in complete ==> forall x | Before(g, was[q].cfp[c], x) :: x !in handled
    ensures was[q].cfp[c] in complete || AtEnd(g, was[q].cfp[c]) ==>
              forall x | Before(g, was[q].cfp[c], x) :: x in handled
  {
    hide Extends, DoneFrom, Shifts, Leads, Closure, ForwardLinks, Seeds, BackLinks, Inv, StateOk, Shape, Full,
         ItemProgress, NextSymbols;
    OkShape(g, was, q);
    CfpItem(g, was[q], c);
    ProgressParts(g, was[q], handled, complete, c);
    if was[q].cfp[c] in complete || AtEnd(g, was[q].cfp[c]) {
      forall x | Before(g, was[q].cfp[c], x) ensures x in handled {
        if was[q].cfp[c] in complete {
          var y :| y in handled && Before(g, was[q].cfp[c], y);
          BeforeOnce(g, was[q].cfp[c], y);
        }
      }
      ProgressWhole(g, was[q], handled, complete, c + 1);
    }
  }

  lemma OkShape(g: Grammar, ss: seq<State>, q: nat)
    requires Inv(g, ss) && q < |ss|
    ensures Shape(g, ss[q])
  {
    assert StateOk(g, ss, q);
  }

  lemma CfpItem(g: Grammar, s: State, c: nat)
    requires Shape(g, s) && c < |s.cfp|
    ensures s.cfp[c] in Full(g, s) && IsItem(g, s.cfp[c])
  {
    assert s.cfp[c] in Elems(s.cfp);
    ClosureIsLeast(g, Core(s));
    assert s.cfp[c] in AllItems(g);
  }

  lemma ProgressEnd(g: Grammar, was: seq<State>, ss: seq<State>, q: nat, handled: set<nat>, complete: set<Item>)
    requires Inv(g, was) && q < |was| && Progress(g, was, ss, q, handled, complete, |was[q].cfp|)
    ensures Extends(was, ss, q) && Done(g, ss, q) && DoneFrom(g, ss, |was|)
  {
    assert StateOk(g, was, q) && SameBut(was[q], ss[q]);
    forall x | x in NextSymbols(g, Full(g, was[q])) ensures x in handled {
      var i :| i in Full(g, was[q]) && Before(g, i, x);
      assert i in Elems(was[q].cfp);
      var m :| 0 <= m < |was[q].cfp| && was[q].cfp[m] == i;
    }
    assert handled == NextSymbols(g, Full(g, was[q]));
  }

  lemma ListGains(g: Grammar, basis: seq<Item>, cfg: map<Item, Config>, i: Item, c: Config)
    requires ListOk(g, basis, cfg) && i in AllItems(g) && i !in cfg
    ensures ListOk(g, basis + [i], cfg[i := c])
  {
    assert Elems(basis + [i]) == Elems(basis) + {i};
  }

  /** FindStates: build the first state, whose basis is every rule of the start symbol, and so all states. */
  method FindStates(lemp: Lemon)
    requires Valid(lemp.g) && Fits(lemp.g) && Exact(lemp.g, lemp.lambda, lemp.first) && lemp.states == []
    modifies lemp`states
    ensures Built(lemp.g, lemp.states) && DepthFirst(lemp.g, Cores(lemp.states))
  {
    var basis: seq<Item>, cfg: map<Item, Config> := [], map[];
    var r: nat := |lemp.g.rules|;
    while r > 0
      invariant r <= |lemp.g.rules| && ListOk(lemp.g, basis, cfg) && lemp.states == []
      invariant cfg.Keys == set k: nat | r <= k < |lemp.g.rules| && lemp.g.rules[k].lhs == lemp.g.start :: Item(k, 0)
      invariant forall j | j in cfg :: cfg[j] == Config({0}, [], [])
    {
      r := r - 1;
      if lemp.g.rules[r].lhs == lemp.g.start {
        ListGains(lemp.g, basis, cfg, Item(r, 0), Config({0}, [], []));
        basis, cfg := basis + [Item(r, 0)], cfg[Item(r, 0) := Config({0}, [], [])];
      }
    }
    assert Kernel(lemp.g, []) == StartKernel(lemp.g);
    assert cfg.Keys == StartKernel(lemp.g);
    var q := GetState(lemp, basis, cfg);
  }
}
