/** ResortStates: action counts, default actions, and the renumbering of the states. */
module Resort {
  import opened Grammars
  import opened Items
  import opened Structs
  import opened M = Machine
  import opened L = Lookaheads
  import States
  import A = Actions
  import C = Completeness
  import Z = Compress
  import E = Encoding

  /** `sorted[p]` is the old number of the state whose new number is `p`; `statenum` is the inverse; the first state
      stays first. */
  ghost predicate IsRenumbering(n: nat, sorted: seq<nat>, statenum: seq<nat>) {
    && |sorted| == |statenum| == n
    && (forall p | 0 <= p < n :: sorted[p] < n && statenum[sorted[p]] == p)
    && (forall q | 0 <= q < n :: statenum[q] < n && sorted[statenum[q]] == q)
    && (n > 0 ==> sorted[0] == 0)
  }

  function RenumberCell(statenum: seq<nat>, c: Cell): Cell {
    if c.ShiftTo? && c.state < |statenum| then ShiftTo(statenum[c.state]) else c
  }

  function RenumberRow(statenum: seq<nat>, row: seq<Cell>): seq<Cell> {
    seq(|row|, x requires 0 <= x < |row| => RenumberCell(statenum, row[x]))
  }

  /** The table in the new numbering. */
  function Renumbered(sorted: seq<nat>, statenum: seq<nat>, cells: seq<seq<Cell>>): seq<seq<Cell>> {
    seq(|sorted|, p requires 0 <= p < |sorted| => RenumberRow(statenum,
                                                              if sorted[p] < |cells| then cells[sorted[p]] else []))
  }

  function RenumberedCores(sorted: seq<nat>, cores: seq<set<Item>>): seq<set<Item>> {
    seq(|sorted|, p requires 0 <= p < |sorted| => if sorted[p] < |cores| then cores[sorted[p]] else {})
  }

  lemma RenumberedLookup(sorted: seq<nat>, statenum: seq<nat>, cells: seq<seq<Cell>>, p: nat, x: nat)
    requires IsRenumbering(|cells|, sorted, statenum) && p < |sorted|
    ensures sorted[p] < |cells| && Lookup(Renumbered(sorted, statenum, cells), p, x) ==
            RenumberCell(statenum, Lookup(cells, sorted[p], x))
  {
  }

  lemma RenumberedEdge(g: Grammar, sorted: seq<nat>, statenum: seq<nat>, cores: seq<set<Item>>, p: nat, x: nat, j: nat)
    requires IsRenumbering(|cores|, sorted, statenum) && p < |sorted| && j < |sorted|
    ensures sorted[p] < |cores| && sorted[j] < |cores|
    ensures Edge(g, RenumberedCores(sorted, cores), p, x, j) <==> Edge(g, cores, sorted[p], x, sorted[j])
    ensures Trans(g, RenumberedCores(sorted, cores), p, x, j) <==> Trans(g, cores, sorted[p], x, sorted[j])
  {
  }

  lemma RenumberedLr0(g: Grammar, sorted: seq<nat>, statenum: seq<nat>, cores: seq<set<Item>>)
    requires Lr0(g, cores) && IsRenumbering(|cores|, sorted, statenum)
    ensures Lr0(g, RenumberedCores(sorted, cores))
  {
    var cores' := RenumberedCores(sorted, cores);
    forall p, q | 0 <= p < q < |cores'| ensures cores'[p] != cores'[q] {
      assert statenum[sorted[p]] != statenum[sorted[q]];
      assert sorted[p] < sorted[q] || sorted[q] < sorted[p];
    }
    forall p, x | 0 <= p < |cores'| && x in States.NextSymbols(g, Closure(g, cores'[p]))
      ensures exists j :: Edge(g, cores', p, x, j)
    {
      var j :| Edge(g, cores, sorted[p], x, j);
      assert sorted[statenum[j]] == j;
      RenumberedEdge(g, sorted, statenum, cores, p, x, statenum[j]);
    }
  }

  lemma RenumberedFaithful(g: Grammar, sorted: seq<nat>, statenum: seq<nat>, cores: seq<set<Item>>,
                           cells: seq<seq<Cell>>)
    requires Faithful(g, cores, cells) && IsRenumbering(|cores|, sorted, statenum) && |cores| > 0
    ensures Faithful(g, RenumberedCores(sorted, cores), Renumbered(sorted, statenum, cells))
  {
    var cores', cells' := RenumberedCores(sorted, cores), Renumbered(sorted, statenum, cells);
    forall p, t: nat | 0 <= p < |cells'| && t < g.nterminal ensures CellAllowed(g, cores', p, t, Lookup(cells', p, t)) {
      RenumberedLookup(sorted, statenum, cells, p, t);
      assert CellAllowed(g, cores, sorted[p], t, Lookup(cells, sorted[p], t));
      RenumberedAllowed(g, sorted, statenum, cores, p, t, Lookup(cells, sorted[p], t));
    }
    forall p, x: nat, j | 0 <= p < |cells'| && g.nterminal <= x && Trans(g, cores', p, x, j)
      ensures Lookup(cells', p, x) == ShiftTo(j)
    {
      RenumberedLookup(sorted, statenum, cells, p, x);
      RenumberedEdge(g, sorted, statenum, cores, p, x, j);
    }
    RenumberedLookup(sorted, statenum, cells, 0, g.start);
  }

  lemma RenumberedAllowed(g: Grammar, sorted: seq<nat>, statenum: seq<nat>, cores: seq<set<Item>>, p: nat, t: nat,
                          c: Cell)
    requires IsRenumbering(|cores|, sorted, statenum) && p < |sorted| && CellAllowed(g, cores, sorted[p], t, c)
    ensures CellAllowed(g, RenumberedCores(sorted, cores), p, t, RenumberCell(statenum, c))
  {
    if c.ShiftTo? {
      RenumberedEdge(g, sorted, statenum, cores, p, t, statenum[c.state]);
    }
  }

  // ----- lookaheads do not depend on the numbering -----

  lemma RenumberedFlow(g: Grammar, sorted: seq<nat>, statenum: seq<nat>, cores: seq<set<Item>>, n: Ref, m: Ref)
    requires IsRenumbering(|cores|, sorted, statenum) && Flow(g, RenumberedCores(sorted, cores), n, m)
    ensures n.state < |sorted| && m.state < |sorted|
            && Flow(g, cores, Ref(sorted[n.state], n.item), Ref(sorted[m.state], m.item))
  {
    var cores' := RenumberedCores(sorted, cores);
    if x :| Before(g, n.item, x) && Edge(g, cores', n.state, x, m.state) {
      RenumberedEdge(g, sorted, statenum, cores, n.state, x, m.state);
    }
  }

  lemma RenumberedMember(g: Grammar, sorted: seq<nat>, statenum: seq<nat>, cores: seq<set<Item>>, n: Ref)
    requires IsRenumbering(|cores|, sorted, statenum) && Member(g, RenumberedCores(sorted, cores), n)
    ensures n.state < |sorted| && Member(g, cores, Ref(sorted[n.state], n.item))
  {
  }

  lemma {:induction false} RenumberedFlows(g: Grammar, sorted: seq<nat>, statenum: seq<nat>, cores: seq<set<Item>>,
                                           n: Ref, m: Ref, k: nat)
    requires IsRenumbering(|cores|, sorted, statenum) && FlowIn(g, RenumberedCores(sorted, cores), n, m, k)
    ensures n.state < |sorted| && m.state < |sorted|
            && FlowIn(g, cores, Ref(sorted[n.state], n.item), Ref(sorted[m.state], m.item), k)
    decreases k
  {
    hide Flow, IsRenumbering;
    if k == 0 {
      RenumberedMember(g, sorted, statenum, cores, n);
    } else {
      var l :| FlowIn(g, RenumberedCores(sorted, cores), n, l, k - 1) && Flow(g, RenumberedCores(sorted, cores), l, m);
      RenumberedFlows(g, sorted, statenum, cores, n, l, k - 1);
      RenumberedFlow(g, sorted, statenum, cores, l, m);
    }
  }

  lemma RenumberedReduction(g: Grammar, sorted: seq<nat>, statenum: seq<nat>, cores: seq<set<Item>>, p: nat, r: nat,
                            t: nat)
    requires IsRenumbering(|cores|, sorted, statenum) && A.IsReduction(g, RenumberedCores(sorted, cores), p, r, t)
    ensures p < |sorted| && A.IsReduction(g, cores, sorted[p], r, t)
  {
    var m := Ref(p, A.EndItem(g, r));
    var n, k: nat :| FlowIn(g, RenumberedCores(sorted, cores), n, m, k)
        && SeedOf(g, RenumberedCores(sorted, cores), n, t);
    RenumberedFlows(g, sorted, statenum, cores, n, m, k);
    var n' := Ref(sorted[n.state], n.item);
    assert n.state == 0 ==> n'.state == 0;
    assert SeedOf(g, cores, n', t);
  }

  lemma RenumberedComplete(g: Grammar, sorted: seq<nat>, statenum: seq<nat>, cores: seq<set<Item>>,
                           cells: seq<seq<Cell>>)
    requires C.Complete(g, cores, cells) && IsRenumbering(|cores|, sorted, statenum) && |cells| == |cores| > 0
    ensures C.Complete(g, RenumberedCores(sorted, cores), Renumbered(sorted, statenum, cells))
  {
    var cores', cells' := RenumberedCores(sorted, cores), Renumbered(sorted, statenum, cells);
    forall p, x, j | Trans(g, cores', p, x, j) ensures Lookup(cells', p, x) == ShiftTo(j) {
      RenumberedLookup(sorted, statenum, cells, p, x);
      RenumberedEdge(g, sorted, statenum, cores, p, x, j);
    }
    forall p, r, t | A.IsReduction(g, cores', p, r, t) ensures Lookup(cells', p, t) == ReduceBy(r) {
      RenumberedReduction(g, sorted, statenum, cores, p, r, t);
      RenumberedLookup(sorted, statenum, cells, p, t);
    }
    RenumberedLookup(sorted, statenum, cells, 0, g.start);
  }

  // ----- ResortStates -----

  /** What qsort sees of a state. */
  datatype StateKey = StateKey(nNtAct: nat, nTknAct: nat, statenum: nat)

  function StateResortCompare(a: StateKey, b: StateKey): int {
    if b.nNtAct != a.nNtAct then b.nNtAct - a.nNtAct
    else if b.nTknAct != a.nTknAct then b.nTknAct - a.nTknAct
    else b.statenum - a.statenum
  }

  function KeyOf(info: seq<Info>, q: nat): StateKey
    requires q < |info|
  {
    StateKey(info[q].nNtAct, info[q].nTknAct, q)
  }

  ghost predicate AllCodable(g: Grammar, ss: seq<State>) {
    forall q | 0 <= q < |ss| :: E.Codable(g, |ss|, ss[q].ap)
  }

  function OwnNumbers(n: nat): (s: seq<nat>)
    ensures |s| == n
  {
    seq(n, q requires 0 <= q < n => q)
  }

  /** The number that stands for the default of a list of actions. */
  function DefaultCode(g: Grammar, n: nat, ap: seq<Action>): nat {
    match Z.FindLive(ap, g.nsymbol)
    case Some(a) => a.target + n
    case None => n + |g.rules|
  }

  /** The counts of a state agree with the rows it will contribute, its default is the code of its default action. */
  ghost predicate Counted(g: Grammar, n: nat, ap: seq<Action>, i: Info) {
    && E.ShiftsInto(n, ap)
    && i.nTknAct == |E.Entries(g, OwnNumbers(n), ap, true)| && i.nNtAct == |E.Entries(g, OwnNumbers(n), ap, false)|
    && i.iDflt == DefaultCode(g, n, ap) && i.iTknOfst == NO_OFFSET && i.iNtOfst == NO_OFFSET
  }

  const NO_OFFSET := -2147483647

  /** One state's counts. */
  method CountActions(g: Grammar, n: nat, ap: seq<Action>) returns (i: Info)
    requires g.nterminal <= g.nsymbol && E.Codable(g, n, ap)
    ensures Counted(g, n, ap, i)
  {
    var iDflt: nat, nTknAct, nNtAct := n + |g.rules|, 0, 0;
    ghost var own := OwnNumbers(n);
    for k := 0 to |ap|
      invariant E.ShiftsInto(n, ap[..k])
      invariant nTknAct == |E.Entries(g, own, ap[..k], true)| && nNtAct == |E.Entries(g, own, ap[..k], false)|
      invariant (iDflt == n + |g.rules| && forall j | 0 <= j < k :: !IsDefault(g, ap[j]))
                || DefaultSeen(g, n, ap, k, iDflt)
    {
      assert ap[..k + 1][..k] == ap[..k];
      if E.Coded(ap[k]) {
        if ap[k].sp < g.nterminal { nTknAct := nTknAct + 1; }
        else if ap[k].sp < g.nsymbol { nNtAct := nNtAct + 1; }
        else {
          iDflt := E.ComputeAction(n, |g.rules|, OwnNumbers(n), ap[k]);
          assert IsDefault(g, ap[k]);
        }
      }
    }
    assert ap[..|ap|] == ap;
    DefaultIs(g, n, ap, iDflt);
    i := Info(nTknAct, nNtAct, iDflt, NO_OFFSET, NO_OFFSET);
  }

  predicate IsDefault(g: Grammar, a: Action) {
    E.Coded(a) && a.sp >= g.nsymbol && a.sp >= g.nterminal
  }

  ghost predicate DefaultSeen(g: Grammar, n: nat, ap: seq<Action>, k: nat, iDflt: nat) {
    exists j :: 0 <= j < k && j < |ap| && IsDefault(g, ap[j]) && iDflt == ap[j].target + n
  }

  lemma DefaultFound(g: Grammar, n: nat, ap: seq<Action>)
    requires g.nterminal <= g.nsymbol && E.Codable(g, n, ap)
    ensures Z.FindLive(ap, g.nsymbol).Some? ==> exists j :: 0 <= j < |ap| && IsDefault(g, ap[j])
  {
    Z.FindLiveIs(ap, g.nsymbol);
    if Z.FindLive(ap, g.nsymbol).Some? {
      var j :| 0 <= j < |ap| && ap[j] == Z.FindLive(ap, g.nsymbol).value;
      assert IsDefault(g, ap[j]);
    }
  }

  lemma DefaultIs(g: Grammar, n: nat, ap: seq<Action>, iDflt: nat)
    requires g.nterminal <= g.nsymbol && E.Codable(g, n, ap)
    requires (iDflt == n + |g.rules| && forall j | 0 <= j < |ap| :: !IsDefault(g, ap[j]))
             || DefaultSeen(g, n, ap, |ap|, iDflt)
    ensures iDflt == DefaultCode(g, n, ap)
  {
    DefaultFound(g, n, ap);
    if DefaultSeen(g, n, ap, |ap|, iDflt) {
      var j :| 0 <= j < |ap| && IsDefault(g, ap[j]) && iDflt == ap[j].target + n;
      Z.FindLiveIs(ap, g.nsymbol);
      assert Z.IsLive(ap, ap[j]);
    }
  }

  ghost predicate AllCounted(g: Grammar, ss: seq<State>, info: seq<Info>) {
    |info| == |ss| && forall q | 0 <= q < |ss| :: Counted(g, |ss|, ss[q].ap, info[q])
  }

  method CountStates(g: Grammar, ss: seq<State>) returns (info: seq<Info>)
    requires Valid(g) && AllCodable(g, ss)
    ensures AllCounted(g, ss, info)
  {
    assert g.nterminal <= g.nsymbol;
    info := [];
    hide E.Codable, Counted, Valid;
    for i := 0 to |ss|
      invariant |info| == i && forall q | 0 <= q < i :: Counted(g, |ss|, ss[q].ap, info[q])
    {
      var one := CountActions(g, |ss|, ss[i].ap);
      info := info + [one];
    }
  }

  /** All states in the order that the comparison gives, except that the first state stays first. */
  ghost predicate Ordered(info: seq<Info>, sorted: seq<nat>) {
    && |sorted| == |info| && (|info| > 0 ==> sorted[0] == 0)
    && (forall p | 0 <= p < |sorted| :: sorted[p] < |info|)
    && (forall i, j | 0 <= i < j < |sorted| :: sorted[i] != sorted[j])
    && (forall i, j | 1 <= i < j < |sorted| :: StateResortCompare(KeyOf(info, sorted[i]), KeyOf(info, sorted[j])) < 0)
    && (forall q | 0 <= q < |info| :: q in sorted)
  }

  method SortStates(info: seq<Info>, qsort: seq<StateKey> -> seq<StateKey>) returns (sorted: seq<nat>)
    requires |info| > 0 && E.IsQsort(qsort, StateResortCompare)
    ensures Ordered(info, sorted)
  {
    hide Ordered, StateResortCompare, KeyOf, SortedKeysOf;
    var keys: seq<StateKey> := [];
    for i := 1 to |info|
      invariant |keys| == i - 1 && forall q | 0 <= q < i - 1 :: keys[q] == KeyOf(info, q + 1)
    {
      keys := keys + [KeyOf(info, i)];
    }
    var r := qsort(keys);
    assert multiset(r) == multiset(keys) && forall i, j | 0 <= i < j < |r| :: StateResortCompare(r[i], r[j]) <= 0;
    hide E.IsQsort;
    SortedKeys(info, keys, r);
    sorted := [0] + seq(|r|, p requires 0 <= p < |r| => r[p].statenum);
    SortedOrder(info, r, sorted);
  }

  lemma SortedOrder(info: seq<Info>, r: seq<StateKey>, sorted: seq<nat>)
    requires |info| > 0 && SortedKeysOf(info, r) && |sorted| == |info| && sorted[0] == 0
    requires forall p | 1 <= p < |sorted| :: sorted[p] == r[p - 1].statenum
    ensures Ordered(info, sorted)
  {
    forall q | 0 <= q < |info| ensures q in sorted {
      if q > 0 {
        assert KeyOf(info, q) in r;
        var k :| 0 <= k < |r| && r[k] == KeyOf(info, q);
        assert sorted[k + 1] == q;
      }
    }
    forall i, j | 1 <= i < j < |sorted| ensures StateResortCompare(KeyOf(info, sorted[i]), KeyOf(info, sorted[j])) < 0 {
      assert r[i - 1] == KeyOf(info, sorted[i]) && r[j - 1] == KeyOf(info, sorted[j]);
    }
  }

  /** Renumber the states so that those with fewer choices come last, except that state 0 stays first. */
  method ResortStates(lemp: Lemon, qsort: seq<StateKey> -> seq<StateKey>)
    requires E.IsQsort(qsort, StateResortCompare) && |lemp.states| > 0 && Valid(lemp.g)
             && AllCodable(lemp.g, lemp.states)
    modifies lemp`info, lemp`sorted, lemp`statenum
    ensures AllCounted(lemp.g, lemp.states, lemp.info) && Ordered(lemp.info, lemp.sorted)
    ensures IsRenumbering(|lemp.states|, lemp.sorted, lemp.statenum)
    ensures |lemp.sorted| == |lemp.info| && lemp.sorted[0] == 0 && forall p | 0 <= p < |lemp.sorted| ::
              lemp.sorted[p] < |lemp.info|
    ensures forall i, j | 1 <= i < j < |lemp.sorted| ::
              var a, b := lemp.info[lemp.sorted[i]], lemp.info[lemp.sorted[j]];
              || a.nNtAct > b.nNtAct
              || (a.nNtAct == b.nNtAct && (a.nTknAct > b.nTknAct
                                           || (a.nTknAct == b.nTknAct && lemp.sorted[i] > lemp.sorted[j])))
  {
    var n := |lemp.states|;
    lemp.info := CountStates(lemp.g, lemp.states);
    lemp.sorted := SortStates(lemp.info, qsort);
    FewerChoicesLast(lemp.info, lemp.sorted);
    hide AllCodable, Counted, Valid, E.IsQsort, StateResortCompare;
    lemp.statenum := seq(n, _ => 0);
    ghost var info, sorted := lemp.info, lemp.sorted;
    for i := 0 to n
      invariant lemp.info == info && lemp.sorted == sorted && |lemp.statenum| == n
                && (forall q | 0 <= q < n :: lemp.statenum[q] < n)
      invariant forall p | 0 <= p < i :: lemp.statenum[lemp.sorted[p]] == p
    {
      lemp.statenum := lemp.statenum[lemp.sorted[i] := i];
    }
    NumbersInvert(lemp.info, lemp.sorted, lemp.statenum);
  }

  /** More nonterminal actions first, then more terminal actions, then the higher old number. */
  lemma FewerChoicesLast(info: seq<Info>, sorted: seq<nat>)
    requires Ordered(info, sorted)
    ensures |sorted| == |info| && forall p | 0 <= p < |sorted| :: sorted[p] < |info|
    ensures forall i, j | 1 <= i < j < |sorted| ::
              var a, b := info[sorted[i]], info[sorted[j]];
              || a.nNtAct > b.nNtAct
              || (a.nNtAct == b.nNtAct
                  && (a.nTknAct > b.nTknAct || (a.nTknAct == b.nTknAct && sorted[i] > sorted[j])))
  {
    forall i, j | 1 <= i < j < |sorted|
      ensures var a, b := info[sorted[i]], info[sorted[j]];
              || a.nNtAct > b.nNtAct
              || (a.nNtAct == b.nNtAct
                  && (a.nTknAct > b.nTknAct || (a.nTknAct == b.nTknAct && sorted[i] > sorted[j])))
    {
      assert StateResortCompare(KeyOf(info, sorted[i]), KeyOf(info, sorted[j])) < 0;
    }
  }

  lemma NumbersInvert(info: seq<Info>, sorted: seq<nat>, statenum: seq<nat>)
    requires Ordered(info, sorted) && |statenum| == |info| && forall q | 0 <= q < |info| :: statenum[q] < |info|
    requires forall p | 0 <= p < |info| :: statenum[sorted[p]] == p
    ensures IsRenumbering(|info|, sorted, statenum)
  {
    hide StateResortCompare;
    forall q | 0 <= q < |info| ensures sorted[statenum[q]] == q {
      assert q in sorted;
      var p :| 0 <= p < |info| && sorted[p] == q;
    }
  }

  /** The sorted keys are those of all states but the first, each once. */
  lemma SortedKeys(info: seq<Info>, keys: seq<StateKey>, r: seq<StateKey>)
    requires |info| > 0 && |keys| == |info| - 1 && forall q | 0 <= q < |keys| :: keys[q] == KeyOf(info, q + 1)
    requires multiset(r) == multiset(keys) && forall i, j | 0 <= i < j < |r| :: StateResortCompare(r[i], r[j]) <= 0
    ensures SortedKeysOf(info, r) && |r| == |keys|
  {
    KeysSorted(info, keys, r);
  }

  /** The keys of all states but the first, each once and in order. */
  ghost predicate SortedKeysOf(info: seq<Info>, r: seq<StateKey>)
    requires |info| > 0
  {
    && |r| == |info| - 1
    && (forall p | 0 <= p < |r| :: 1 <= r[p].statenum < |info| && r[p] == KeyOf(info, r[p].statenum))
    && (forall i, j | 0 <= i < j < |r| ::
          r[i].statenum != r[j].statenum && StateResortCompare(r[i], r[j]) < 0)
    && forall q | 1 <= q < |info| :: KeyOf(info, q) in r
  }

  lemma KeysSorted(info: seq<Info>, keys: seq<StateKey>, r: seq<StateKey>)
    requires |info| > 0 && |keys| == |info| - 1 && forall q | 0 <= q < |keys| :: keys[q] == KeyOf(info, q + 1)
    requires multiset(r) == multiset(keys) && forall i, j | 0 <= i < j < |r| :: StateResortCompare(r[i], r[j]) <= 0
    ensures |r| == |keys|
    ensures forall p | 0 <= p < |r| :: 1 <= r[p].statenum < |info| && r[p] == KeyOf(info, r[p].statenum)
    ensures forall i, j | 0 <= i < j < |r| :: r[i].statenum != r[j].statenum && StateResortCompare(r[i], r[j]) < 0
    ensures forall q | 1 <= q < |info| :: KeyOf(info, q) in r
  {
    assert Distinct(keys);
    States.SameElements(keys, r);
    forall p | 0 <= p < |r| ensures 1 <= r[p].statenum < |info| && r[p] == KeyOf(info, r[p].statenum) {
      assert r[p] in keys;
    }
    forall q | 1 <= q < |info| ensures KeyOf(info, q) in r {
      assert keys[q - 1] in r;
    }
  }
}
