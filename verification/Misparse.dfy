/** A grammar without conflicts for which the packed tables are wrong: an insertion ends at the cut-off of its scan,
    at an offset that another state has, and that state then finds the foreign action instead of its default. */
module Misparse {
  import opened Grammars
  import opened Items
  import opened MergeSort
  import opened Structs
  import opened ActtabModule
  import opened M = Machine
  import opened L = Lookaheads
  import opened R = Resort
  import opened K = Packing
  import opened T = Tables
  import A = Actions
  import E = Encoding
  import P = Generator
  import States
  import Z = Compress
  import opened N = Numbering
  import opened I = Instances

  /** The grammar `S ::= | A B C D | C E | B F G H`, with the tokens A to H numbered from 1 to 8; number 9 is the symbol
      `error`, which every grammar has, and S has number 10. */
  const G: Grammar :=
    Grammar(9, 11,
            [Rule(10, [], None), Rule(10, [1, 2, 3, 4], None), Rule(10, [3, 5], None), Rule(10, [2, 6, 7, 8], None)],
            10,
            [-1, -1, -1, -1, -1, -1, -1, -1, -1, -1, -1],
            [Unknown, Unknown, Unknown, Unknown, Unknown, Unknown, Unknown, Unknown, Unknown, Unknown, Unknown])

  /** The one item of each state but the first. */
  function ItemOf(q: nat): (i: Item)
    requires 1 <= q < 11
    ensures IsItem(G, i) && i.dot > 0
  {
    if q <= 4 then Item(1, q) else if q <= 6 then Item(2, q - 4) else Item(3, q - 6)
  }

  /** Its states, numbered in the order in which FindStates comes upon them: those along A B C D, along C E, along B
      F G H. */
  ghost function Cores(): (cores: seq<set<Item>>)
    ensures |cores| == 11
  {
    seq(11, q requires 0 <= q < 11 => if q == 0 then StartKernel(G) else {ItemOf(q)})
  }

  /** The one action of each state but the first: the next symbol leads to the next state, or else the rule is
      reduced. */
  function ActionOf(q: nat): Action
    requires 1 <= q < 11
  {
    var i := ItemOf(q);
    if AtEnd(G, i) then Action(0, Reduce, i.rule) else Action(G.rules[i.rule].rhs[i.dot], Shift, q + 1)
  }

  function Actions(q: nat): seq<Action>
    requires q < 11
  {
    if q == 0 then
      [Action(0, Reduce, 0), Action(1, Shift, 1), Action(2, Shift, 7), Action(3, Shift, 5), Action(10, Accept, 0)]
    else [ActionOf(q)]
  }

  // ----- the automaton -----

  lemma ValidG()
    ensures Valid(G)
  {
  }

  /** The start symbol is on no right-hand side, so nothing is added to a set of items. */
  lemma Flat(k: set<Item>)
    requires k <= AllItems(G)
    ensures Closure(G, k) == k
  {
    assert Closed(G, k);
    ClosureIsLeast(G, k);
    forall i | i in Closure(G, k) ensures i in k {
    }
  }

  lemma StartItems()
    ensures StartKernel(G) == {Item(0, 0), Item(1, 0), Item(2, 0), Item(3, 0)}
  {
  }

  lemma CoreIs(q: nat)
    requires q < 11
    ensures Cores()[q] <= AllItems(G) && Closure(G, Cores()[q]) == Cores()[q]
  {
    StartItems();
    Flat(Cores()[q]);
  }

  /** Where a state of one item leads to. */
  lemma OneItem(i: Item, x: nat)
    requires IsItem(G, i)
    ensures x in States.NextSymbols(G, {i}) <==> Before(G, i, x)
    ensures Goto(G, {i}, x) == if Before(G, i, x) then {Advance(i)} else {}
  {
  }

  lemma FromStart(x: nat)
    ensures x in States.NextSymbols(G, StartKernel(G)) <==> 1 <= x <= 3
    ensures Goto(G, StartKernel(G), x) == if x == 1 then {Item(1, 1)} else if x == 2 then {Item(3, 1)} else if x == 3
            then {Item(2, 1)} else {}
  {
    StartItems();
    assert Item(1, 0) in StartKernel(G) && Item(2, 0) in StartKernel(G) && Item(3, 0) in StartKernel(G);
  }

  lemma CoreOf(j: nat, i: Item)
    requires j < 11 && i.dot > 0
    ensures Cores()[j] == {i} <==> j > 0 && ItemOf(j) == i
  {
    if j == 0 {
      StartItems();
      assert Item(0, 0) in Cores()[j];
    } else {
      assert ItemOf(j) in Cores()[j];
    }
  }

  lemma EdgeFromStart(x: nat, j: nat)
    requires 1 <= x <= 3
    ensures Edge(G, Cores(), 0, x, j) <==> j == if x == 1 then 1 else if x == 2 then 7 else 5
  {
    CoreIs(0);
    FromStart(x);
    hide Goto, Closure, StartKernel;
    if j < 11 { CoreOf(j, if x == 1 then Item(1, 1) else if x == 2 then Item(3, 1) else Item(2, 1)); }
  }

  lemma EdgeFrom(q: nat, x: nat, j: nat)
    requires 1 <= q < 11 && Before(G, ItemOf(q), x)
    ensures Edge(G, Cores(), q, x, j) <==> j == q + 1
  {
    CoreIs(q);
    OneItem(ItemOf(q), x);
    hide Goto, Closure, StartKernel;
    if j < 11 { CoreOf(j, Advance(ItemOf(q))); }
  }

  lemma ShiftsAre(q: nat, a: Action)
    requires q < 11 && a.kind == Shift
    ensures A.IsRaw(G, Cores(), q, a) <==> a in Actions(q)
  {
    CoreIs(q);
    hide Closure, Goto, States.NextSymbols, StartKernel, Edge, Cores, A.IsReduction;
    if q == 0 {
      FromStart(a.sp);
      if 1 <= a.sp <= 3 { EdgeFromStart(a.sp, a.target); }
    } else {
      OneItem(ItemOf(q), a.sp);
      if Before(G, ItemOf(q), a.sp) { EdgeFrom(q, a.sp, a.target); }
    }
  }

  /** The state and the item from which a state of one item is reached. */
  function Predecessor(q: nat): Ref
    requires 1 <= q < 11
  {
    var i := ItemOf(q);
    if i.dot == 1 then Ref(0, Item(i.rule, 0)) else Ref(q - 1, ItemOf(q - 1))
  }

  lemma MemberOf(n: Ref)
    requires n.state < 11
    ensures Member(G, Cores(), n) <==> if n.state == 0 then n.item.rule < 4
            && n.item.dot == 0 else n.item == ItemOf(n.state)
  {
    CoreIs(n.state);
    StartItems();
    hide Closure;
  }

  lemma FlowInto(q: nat)
    requires 1 <= q < 11
    ensures Flow(G, Cores(), Predecessor(q), Ref(q, ItemOf(q)))
  {
    hide Member, Edge, Cores;
    var i, n := ItemOf(q), Predecessor(q);
    var x := G.rules[i.rule].rhs[i.dot - 1];
    MemberOf(n);
    MemberOf(Ref(q, i));
    assert Before(G, n.item, x) && i == Advance(n.item);
    if i.dot == 1 { EdgeFromStart(x, q); } else { EdgeFrom(q - 1, x, q); }
  }

  /** Every lookahead starts at a rule's beginning in the first state and flows along the shifts. */
  lemma {:induction false} FlowsTo(q: nat)
    requires 1 <= q < 11
    ensures FlowIn(G, Cores(), Ref(0, Item(ItemOf(q).rule, 0)), Ref(q, ItemOf(q)), ItemOf(q).dot)
  {
    hide Flow, Member, Cores, SeedOf;
    FlowInto(q);
    SeedAtStart(ItemOf(q).rule);
    if ItemOf(q).dot > 1 { FlowsTo(q - 1); }
  }

  lemma SeedAtStart(r: nat)
    requires r < 4
    ensures SeedOf(G, Cores(), Ref(0, Item(r, 0)), 0) && FlowIn(G, Cores(), Ref(0, Item(r, 0)), Ref(0, Item(r, 0)), 0)
  {
    CoreIs(0);
    StartItems();
    hide Closure;
  }

  lemma EndIn(q: nat, r: nat)
    requires q < 11
    ensures r < 4 && Member(G, Cores(), Ref(q, A.EndItem(G, r))) <==> Action(0, Reduce, r) in Actions(q)
  {
    hide Member, Cores;
    if r < 4 { MemberOf(Ref(q, A.EndItem(G, r))); }
  }

  lemma ReducesAre(q: nat, a: Action)
    requires q < 11 && a.kind == Reduce
    ensures A.IsRaw(G, Cores(), q, a) <==> a in Actions(q)
  {
    hide Valid, FlowIn, SeedOf, Member, Cores, Actions;
    EndIn(q, a.target);
    if A.IsRaw(G, Cores(), q, a) {
      ValidG();
      var m := Ref(q, A.EndItem(G, a.target));
      var n, k: nat :| FlowIn(G, Cores(), n, m, k) && SeedOf(G, Cores(), n, a.sp);
      StartLookahead(G, Cores(), n, m, k, a.sp);
    }
    if a in Actions(q) {
      ReduceShape(q, a);
      SeedAtStart(a.target);
      if q > 0 { FlowsTo(q); }
      assert Lookahead(G, Cores(), Ref(q, A.EndItem(G, a.target)), 0);
    }
  }

  lemma ReduceShape(q: nat, a: Action)
    requires q < 11 && a in Actions(q) && a.kind == Reduce
    ensures a.sp == 0 && a.target < 4
    ensures if q == 0 then a.target == 0 else a.target == ItemOf(q).rule && A.EndItem(G, a.target) == ItemOf(q)
  {
  }

  lemma RawIs(q: nat, a: Action)
    requires q < 11
    ensures A.IsRaw(G, Cores(), q, a) <==> a in Actions(q)
  {
    hide Cores, A.IsReduction, Edge, States.NextSymbols, Closure;
    if a.kind == Shift { ShiftsAre(q, a); } else if a.kind == Reduce { ReducesAre(q, a); }
  }

  /** The grammar has no conflicts. */
  lemma NoConflict()
    ensures A.ConflictFree(G, Cores())
  {
    hide A.IsRaw, Cores;
    forall q: nat, a, b | q < 11 && A.IsRaw(G, Cores(), q, a) && A.IsRaw(G, Cores(), q, b) && a.sp == b.sp
      ensures a == b
    {
      RawIs(q, a);
      RawIs(q, b);
    }
  }

  /** The states are the automaton of the grammar. */
  lemma IsLr0()
    ensures Lr0(G, Cores())
  {
    StartItems();
    assert Kernel(G, []) == Cores()[0];
    forall q: nat | q < 11 ensures Cores()[q] <= AllItems(G) && Reachable(G, Cores()[q]) {
      CoreIs(q);
      if q > 0 { PrefixOf(q); }
    }
    forall p: nat, q: nat | p < q < 11 ensures Cores()[p] != Cores()[q] {
      CoreOf(p, ItemOf(q));
    }
    forall q: nat, x | q < 11 && x in States.NextSymbols(G, Closure(G, Cores()[q]))
      ensures exists j :: Edge(G, Cores(), q, x, j)
    {
      CoreIs(q);
      if q == 0 {
        FromStart(x);
        EdgeFromStart(x, if x == 1 then 1 else if x == 2 then 7 else 5);
      } else {
        OneItem(ItemOf(q), x);
        EdgeFrom(q, x, q + 1);
      }
    }
  }

  /** Reading the part of the rule before the mark leads to the state. */
  lemma {:induction false} PrefixOf(q: nat)
    requires 1 <= q < 11
    ensures Kernel(G, G.rules[ItemOf(q).rule].rhs[..ItemOf(q).dot]) == Cores()[q]
  {
    var i := ItemOf(q);
    var rhs := G.rules[i.rule].rhs;
    var x := rhs[i.dot - 1];
    assert rhs[..i.dot] == rhs[..i.dot - 1] + [x];
    assert Kernel(G, []) == Cores()[0];
    hide Kernel, Closure, Goto, Cores;
    KernelMore(G, rhs[..i.dot - 1], x);
    if i.dot == 1 {
      assert rhs[..0] == [];
      EdgeFromStart(x, q);
    } else {
      PrefixOf(q - 1);
      EdgeFrom(q - 1, x, q);
    }
  }

  // ----- the numbers of the states -----

  lemma OneListed(i: Item)
    ensures Listing({i}, [i])
  {
  }

  const FIRST := [Item(0, 0), Item(1, 0), Item(2, 0), Item(3, 0)]

  lemma FirstListed()
    ensures Listing(StartKernel(G), FIRST)
  {
    hide StartKernel;
    StartItems();
    assert Elems(FIRST) == StartKernel(G);
  }

  lemma FirstOrder()
    ensures NextInOrder(G, FIRST) == [1, 3, 2]
  {
    hide NextInOrder;
    NextNone(G);
    assert FIRST[..0] == [] && FIRST[..4] == FIRST;
    NextMore(G, FIRST, 0);
    NextMore(G, FIRST, 1);
    NextMore(G, FIRST, 2);
    NextMore(G, FIRST, 3);
  }

  /** The last state along the rule of state `q`, and one. */
  function EndOf(q: nat): nat
    requires 1 <= q < 11
  {
    if q <= 4 then 5 else if q <= 6 then 7 else 11
  }

  lemma FromItem(cores: seq<set<Item>>, q: nat, n': nat)
    requires 1 <= q < 11 && Known(cores, Cores(), q + 1) && Visited(G, cores, q, q + 1, n')
    ensures q + 1 <= |cores|
    ensures var i := ItemOf(q); Explored(G, cores, q, if AtEnd(G, i) then [] else [G.rules[i.rule].rhs[i.dot]], q + 1,
                                         n')
  {
    var i := ItemOf(q);
    CoreOf(q, i);
    hide Cores, Closure, Explored, Visited, NextInOrder;
    CoreIs(q);
    OneListed(i);
    FromList(G, cores, Cores(), q, [i], q + 1, n');
    OneNext(G, i);
  }

  lemma OneNext(g: Grammar, i: Item)
    requires IsItem(g, i)
    ensures NextInOrder(g, [i]) == if AtEnd(g, i) then [] else [g.rules[i.rule].rhs[i.dot]]
  {
    hide NextInOrder;
    NextNone(g);
    NextMore(g, [i], 0);
    assert [i][..0] == [] && [i][..1] == [i];
  }

  lemma {:induction false} AlongRule(cores: seq<set<Item>>, q: nat, n': nat)
    requires 1 <= q < 11 && Known(cores, Cores(), q + 1) && Visited(G, cores, q, q + 1, n')
    ensures n' == EndOf(q) && Known(cores, Cores(), n')
    decreases 11 - q
  {
    hide StepTo, Cores, Known, Explored, Visited, Lr0;
    var i := ItemOf(q);
    FromItem(cores, q, n');
    if AtEnd(G, i) {
      NoSymbol(G, cores, q, q + 1, n');
    } else {
      var x := G.rules[i.rule].rhs[i.dot];
      OneSymbol(G, cores, q, x, q + 1, n');
      EdgeFrom(q, x, q + 1);
      IsLr0();
      NewState(G, cores, Cores(), q, x, q + 1, n');
      AlongRule(cores, q + 1, n');
    }
  }

  /** The depth-first walk gives the states these numbers. */
  lemma NumbersFound(cores: seq<set<Item>>)
    requires DepthFirst(G, cores) && cores[0] == StartKernel(G)
    ensures cores == Cores()
  {
    assert Known(cores, Cores(), 1) by { assert cores[..1] == [cores[0]] && Cores()[..1] == [Cores()[0]]; }
    hide StepTo, Explored, Closure, NextInOrder, Visited, Known, Cores;
    CoreIs(0);
    FirstListed();
    FirstOrder();
    StartFirstOf();
    FromList(G, cores, Cores(), 0, FIRST, 1, |cores|);
    assert [1, 3, 2] == [1, 3] + [2] && [1, 3] == [1] + [3];
    var m2 := LastSymbol(G, cores, 0, [1, 3], 2, 1, |cores|);
    var m1 := LastSymbol(G, cores, 0, [1], 3, 1, m2);
    OneSymbol(G, cores, 0, 1, 1, m1);
    Branch(cores, 1, 1, m1);
    Branch(cores, 3, 5, m2);
    Branch(cores, 2, 7, |cores|);
    AllKnown(cores);
  }

  lemma StartFirstOf()
    ensures Cores()[0] == StartKernel(G)
  {
  }

  /** From the first state along one of the rules. */
  lemma Branch(cores: seq<set<Item>>, x: nat, n: nat, n': nat)
    requires 1 <= x <= 3 && n == (if x == 1 then 1 else if x == 2 then 7 else 5)
    requires Known(cores, Cores(), n) && n <= |cores| && StepTo(G, cores, 0, x, n, n')
    ensures n' == EndOf(n) && Known(cores, Cores(), n')
  {
    hide StepTo, Visited, Known, Cores, Lr0;
    EdgeFromStart(x, n);
    IsLr0();
    NewState(G, cores, Cores(), 0, x, n, n');
    AlongRule(cores, n, n');
  }

  lemma AllKnown(cores: seq<set<Item>>)
    requires Known(cores, Cores(), 11) && |cores| == 11
    ensures cores == Cores()
  {
    assert cores == cores[..11] && Cores() == Cores()[..11];
  }

  /** All that occurs generates something: `error`, which has no rules, does not occur. */
  lemma Generates()
    ensures Generating(G)
  {
    UnusedNeverOccurs(G, 9);
    DerivesByRule(G, 0);
    forall x: nat | 9 <= x < 11 && Occurs(G, x) ensures exists w :: AllBelow(w, 9) && Derives(G, [x], w) {
      assert AllBelow([], 9) && Derives(G, [10], []);
    }
  }

  // ----- the rows -----

  /** What the generator has made of the grammar, from the resolved actions `ss` of its states to the tables. */
  ghost predicate Made(ss: seq<State>, c: Source, sorted: seq<nat>, ax: seq<Axset>, h: seq<Stage>, t: Tables) {
    && c.g == G && Z.AllActed(G, Cores(), ss) && Z.AllCompressed(G, ss, c.ss) && AllCodable(G, c.ss)
    && IsRenumbering(11, sorted, c.statenum) && h != [] && Ordered(h[0].info, sorted) && Reported(c, sorted, ax, h, t)
  }

  lemma ListBefore(ss: seq<State>, q: nat, a: Action)
    requires Z.AllActed(G, Cores(), ss) && q < 11
    ensures |ss| == 11 && (a in ss[q].ap <==> a in Actions(q)) && (a in ss[q].ap ==> A.Live(a))
  {
    var ap := ss[q].ap;
    hide Cores, A.Acted, A.IsRaw, A.UniqueLive, A.ConflictFree, A.Live, Actions;
    NoConflict();
    assert A.Acted(G, Cores(), q, ap);
    A.ActedLive(G, Cores(), q, ap);
    RawIs(q, a);
    if a in ap { A.DeadMeansConflict(G, Cores(), q, ap, a); }
    if A.IsRaw(G, Cores(), q, a) { A.ConflictFreeLive(G, Cores(), q, ap, a); }
  }

  /** All rules are the start symbol's, so no reduction becomes a default. */
  lemma NoDefault(ss: seq<State>, ss': seq<State>, q: nat)
    requires Z.AllActed(G, Cores(), ss) && Z.AllCompressed(G, ss, ss') && q < 11
    ensures |ss'| == |ss| == 11 && ss'[q].ap == ss[q].ap && A.UniqueLive(ss'[q].ap)
  {
    hide Cores, A.Acted, A.UniqueLive, Z.Compressed, A.Live, Z.MostFrequent;
    assert Z.Outcome(G, ss[q].ap, ss'[q].ap);
    forall r: nat ensures !Z.MostFrequent(G, ss[q].ap, Some(r)) {
      NotFrequent(ss, q, r);
    }
  }

  lemma NotFrequent(ss: seq<State>, q: nat, r: nat)
    requires Z.AllActed(G, Cores(), ss) && q < 11
    ensures |ss| == 11 && !Z.MostFrequent(G, ss[q].ap, Some(r))
  {
    hide Cores, Z.AllActed, Actions;
    ListBefore(ss, q, Action(0, Reduce, r));
    if !Z.IsStartRule(G, r) && Z.Count(ss[q].ap, r) > 0 {
      Z.CountMember(ss[q].ap, r);
      var b :| b in ss[q].ap && Z.IsReduce(b, r);
      ListBefore(ss, q, b);
      ReduceShape(q, b);
      assert false;
    }
  }

  lemma ListIs(ss: seq<State>, ss': seq<State>, q: nat, a: Action)
    requires Z.AllActed(G, Cores(), ss) && Z.AllCompressed(G, ss, ss') && q < 11
    ensures |ss'| == 11 && A.UniqueLive(ss'[q].ap) && (a in ss'[q].ap <==> a in Actions(q))
  {
    hide *;
    NoDefault(ss, ss', q);
    ListBefore(ss, q, a);
  }

  function NewNumber(q: nat): nat
    requires q < 11
  {
    if q == 0 then 0 else 11 - q
  }

  /** The entry that an action makes. */
  function EntryFor(a: Action): LookaheadAction {
    LA(a.sp, match a.kind
             case Shift => if a.target < 11 then NewNumber(a.target) else 0
             case Reduce => 11 + a.target
             case _ => 16)
  }

  ghost predicate Numbered(c: Source) {
    |c.statenum| == 11 && forall q: nat | q < 11 :: c.statenum[q] == NewNumber(q)
  }

  /** The members of the rows of a state. */
  lemma RowMember(ss: seq<State>, c: Source, q: nat, tkn: bool, e: LookaheadAction)
    requires c.g == G && Z.AllActed(G, Cores(), ss) && Z.AllCompressed(G, ss, c.ss) && AllCodable(G, c.ss)
             && Numbered(c) && q < 11
    ensures |c.ss| == 11 && AllShiftsInto(11, c.ss)
    ensures e in Row(c, q, tkn) <==> exists a :: a in Actions(q) && (tkn <==> a.sp < 9) && e == EntryFor(a)
  {
    hide Cores, Actions, A.Acted, Z.Outcome;
    ListIs(ss, c.ss, 0, Action(0, Reduce, 0));
    assert E.Codable(G, 11, c.ss[q].ap);
    E.EntriesMember(G, c.statenum, c.ss[q].ap, tkn, e);
    forall a ensures a in c.ss[q].ap <==> a in Actions(q) {
      ListIs(ss, c.ss, q, a);
    }
    forall a | a in Actions(q) ensures E.Selected(G, a, tkn) <==> (tkn <==> a.sp < 9) {
      ActionShape(q, a);
    }
    forall a | a in Actions(q) ensures EntryFor(a) == LA(a.sp, E.ComputeAction(11, 4, c.statenum, a)) {
      ActionShape(q, a);
    }
  }

  lemma ActionShape(q: nat, a: Action)
    requires q < 11 && a in Actions(q)
    ensures a.sp < 11 && E.Coded(a) && (a.kind == Shift ==> a.target < 11) && (a.kind == Reduce ==> a.target < 4)
            && a.kind != Error
    ensures a.kind == Accept ==> a.sp == 10
  {
  }

  lemma SingleRow(row: seq<LookaheadAction>, e: LookaheadAction)
    requires Transaction(row) && forall d :: d in row <==> d == e
    ensures row == [e]
  {
    States.DistinctCount(row);
    assert Elems(row) == {e};
    assert row[0] in row;
  }

  lemma NoRow(row: seq<LookaheadAction>)
    requires Transaction(row) && forall d :: d !in row
    ensures row == []
  {
    States.DistinctCount(row);
    assert Elems(row) == {};
  }

  lemma OneRow(ss: seq<State>, c: Source, q: nat)
    requires c.g == G && Z.AllActed(G, Cores(), ss) && Z.AllCompressed(G, ss, c.ss) && AllCodable(G, c.ss)
             && Numbered(c) && 1 <= q < 11
    ensures |c.ss| == 11 && AllShiftsInto(11, c.ss) && RowsOk(c)
    ensures Row(c, q, true) == [EntryFor(ActionOf(q))] && Row(c, q, false) == []
  {
    RowsHold(ss, c);
    OnlyOne(q);
    hide Cores, Z.AllActed, Z.AllCompressed, AllCodable, Row, RowsOk, Actions, ActionOf, EntryFor, Numbered,
         Transaction;
    var e := EntryFor(ActionOf(q));
    forall d ensures d in Row(c, q, true) <==> d == e {
      RowMember(ss, c, q, true, d);
    }
    TransactionOf(c, q, true);
    SingleRow(Row(c, q, true), e);
    forall d ensures d !in Row(c, q, false) {
      RowMember(ss, c, q, false, d);
    }
    TransactionOf(c, q, false);
    NoRow(Row(c, q, false));
  }

  lemma RowsHold(ss: seq<State>, c: Source)
    requires c.g == G && Z.AllActed(G, Cores(), ss) && Z.AllCompressed(G, ss, c.ss) && AllCodable(G, c.ss)
             && Numbered(c)
    ensures |c.ss| == 11 && AllShiftsInto(11, c.ss) && RowsOk(c)
  {
    hide Cores, Z.AllActed, Z.AllCompressed, Valid, RowsOk;
    ListIs(ss, c.ss, 0, Action(0, Reduce, 0));
    ValidG();
    CodableRows(c);
  }

  lemma OnlyOne(q: nat)
    requires 1 <= q < 11
    ensures ActionOf(q).sp < 9 && forall a :: a in Actions(q) <==> a == ActionOf(q)
  {
  }

  lemma TransactionOf(c: Source, q: nat, tkn: bool)
    requires RowsOk(c) && q < |c.ss|
    ensures Transaction(Row(c, q, tkn))
  {
  }

  /** The row of the first state. */
  function FirstRow(): seq<LookaheadAction> {
    [LA(0, 11), LA(1, 10), LA(2, 4), LA(3, 6)]
  }

  /** In any order. */
  ghost predicate IsFirst(row: seq<LookaheadAction>) {
    forall d :: d in row <==> d in FirstRow()
  }

  lemma FirstEntries(d: LookaheadAction)
    ensures d in FirstRow() <==> exists a :: a in Actions(0) && a.sp < 9 && d == EntryFor(a)
    ensures d == LA(10, 16) <==> exists a :: a in Actions(0) && a.sp >= 9 && d == EntryFor(a)
  {
    var t := Actions(0);
    assert FirstRow() == [EntryFor(t[0]), EntryFor(t[1]), EntryFor(t[2]), EntryFor(t[3])]
           && EntryFor(t[4]) == LA(10, 16);
    assert t[0] in t && t[1] in t && t[2] in t && t[3] in t && t[4] in t;
  }

  lemma StartRow(ss: seq<State>, c: Source)
    requires c.g == G && Z.AllActed(G, Cores(), ss) && Z.AllCompressed(G, ss, c.ss) && AllCodable(G, c.ss)
             && Numbered(c)
    ensures |c.ss| == 11 && AllShiftsInto(11, c.ss) && RowsOk(c)
    ensures IsFirst(Row(c, 0, true)) && |Row(c, 0, true)| == 4 && Row(c, 0, false) == [LA(10, 16)]
  {
    RowsHold(ss, c);
    hide Cores, Z.AllActed, Z.AllCompressed, AllCodable, Valid, E.Entries, RowsOk, Actions, FirstRow, EntryFor,
         Transaction;
    TransactionOf(c, 0, true);
    TransactionOf(c, 0, false);
    forall d ensures d in Row(c, 0, true) <==> d in FirstRow() {
      RowMember(ss, c, 0, true, d);
      FirstEntries(d);
    }
    forall d ensures d in Row(c, 0, false) <==> d == LA(10, 16) {
      RowMember(ss, c, 0, false, d);
      FirstEntries(d);
    }
    SingleRow(Row(c, 0, false), LA(10, 16));
    FourEntries(Row(c, 0, true));
  }

  lemma FourEntries(row: seq<LookaheadAction>)
    requires Transaction(row) && IsFirst(row)
    ensures |row| == 4
  {
    States.DistinctCount(row);
    States.DistinctCount(FirstRow());
    assert Elems(row) == Elems(FirstRow());
  }

  // ----- the order of the states and of the rows -----

  /** The counts of the rows, in whatever numbering. */
  lemma CountIs(ss: seq<State>, c: Source, info: seq<Info>, q: nat)
    requires c.g == G && Z.AllActed(G, Cores(), ss) && Z.AllCompressed(G, ss, c.ss) && AllCodable(G, c.ss)
    requires AllCounted(G, c.ss, info) && q < 11
    ensures |info| == 11 && info[q].nTknAct == (if q == 0 then 4 else 1) && info[q].nNtAct == if q == 0 then 1 else 0
  {
    var c' := c.(statenum := seq(11, k requires 0 <= k < 11 => NewNumber(k)));
    hide Cores, Z.AllActed, Z.AllCompressed, AllCodable, Counted, E.Entries;
    if q == 0 { StartRow(ss, c'); } else { OneRow(ss, c', q); }
    CountsAreRows(c', info, q, true);
    CountsAreRows(c', info, q, false);
  }

  /** Ten different numbers from 1 to 10 in falling order. */
  lemma {:induction false} Falling(sorted: seq<nat>, p: nat)
    requires |sorted| == 11 && 1 <= p <= 10
    requires forall i | 1 <= i < 11 :: 1 <= sorted[i] < 11
    requires forall i, j | 1 <= i < j < 11 :: sorted[i] > sorted[j]
    ensures sorted[p] <= 11 - p
    decreases p
  {
    if p > 1 { Falling(sorted, p - 1); }
  }

  lemma {:induction false} FallingAtLeast(sorted: seq<nat>, p: nat)
    requires |sorted| == 11 && 1 <= p <= 10
    requires forall i | 1 <= i < 11 :: 1 <= sorted[i] < 11
    requires forall i, j | 1 <= i < j < 11 :: sorted[i] > sorted[j]
    ensures sorted[p] >= 11 - p
    decreases 11 - p
  {
    if p < 10 { FallingAtLeast(sorted, p + 1); }
  }

  /** ResortStates reverses the order of all states but the first: they have the same counts. */
  lemma NumbersAre(ss: seq<State>, c: Source, info: seq<Info>, sorted: seq<nat>)
    requires c.g == G && Z.AllActed(G, Cores(), ss) && Z.AllCompressed(G, ss, c.ss) && AllCodable(G, c.ss)
    requires AllCounted(G, c.ss, info) && Ordered(info, sorted) && IsRenumbering(11, sorted, c.statenum)
    ensures Numbered(c) && forall p: nat | p < 11 :: sorted[p] == NewNumber(p)
  {
    hide Cores, Z.AllActed, Z.AllCompressed, AllCodable, AllCounted;
    forall q: nat | q < 11
      ensures |info| == 11 && info[q].nTknAct == (if q == 0 then 4 else 1) && info[q].nNtAct == if q == 0 then 1 else 0
    {
      CountIs(ss, c, info, q);
    }
    assert sorted[0] == 0;
    forall i, j | 1 <= i < j < 11 ensures sorted[i] > sorted[j] {
      assert StateResortCompare(KeyOf(info, sorted[i]), KeyOf(info, sorted[j])) < 0;
      assert sorted[0] != sorted[i] && sorted[0] != sorted[j];
    }
    forall p: nat | 1 <= p < 11 ensures sorted[p] == 11 - p {
      assert forall i | 1 <= i < 11 :: sorted[0] != sorted[i];
      Falling(sorted, p);
      FallingAtLeast(sorted, p);
    }
    forall q: nat | q < 11 ensures c.statenum[q] == NewNumber(q) {
      assert sorted[NewNumber(q)] == q;
    }
  }

  /** The first rows in packing order. */
  function AxsetAt(k: nat): Axset
    requires k < 11
  {
    if k == 0 then Axset(0, true, 4, 0) else Axset(k, true, 1, 22 - 2 * k)
  }

  /** The rows with one action are packed from the last state in the new order to the second. */
  lemma {:induction false} RowsAre(info: seq<Info>, sorted: seq<nat>, ax: seq<Axset>, k: nat)
    requires |info| == |sorted| == 11 && InRange(info, sorted) && (forall p: nat | p < 11 :: sorted[p] == NewNumber(p))
    requires forall q: nat | q < 11 ::
               info[q].nTknAct == (if q == 0 then 4 else 1) && info[q].nNtAct == if q == 0 then 1 else 0
    requires RowsInOrder(info, sorted, ax) && k < 11
    ensures |ax| == 22 && forall i: nat | i <= k :: ax[i] == AxsetAt(i)
    decreases k
  {
    var all := AllAxsets(info, sorted);
    AllDifferent(info, sorted);
    States.SameElements(all, ax);
    assert all[if k == 0 then 0 else 22 - 2 * k] == AxsetAt(k);
    assert AxsetAt(k) in ax;
    var m :| 0 <= m < 22 && ax[m] == AxsetAt(k);
    if k > 0 { RowsAre(info, sorted, ax, k - 1); }
    assert m >= k;
    var first := ax[k];
    assert first in ax;
    var j :| 0 <= j < 22 && all[j] == first;
    assert k < m ==> AxsetCompare(first, AxsetAt(k)) <= 0;
    assert forall i: nat | i < k :: ax[i] != first;
    EarlierRow(info, sorted, j, k);
  }

  lemma EarlierRow(info: seq<Info>, sorted: seq<nat>, j: nat, k: nat)
    requires |info| == |sorted| == 11 && InRange(info, sorted) && j < 22 && k < 11
    requires forall p: nat | p < 11 :: sorted[p] == NewNumber(p)
    requires forall q: nat | q < 11 ::
               info[q].nTknAct == (if q == 0 then 4 else 1) && info[q].nNtAct == if q == 0 then 1 else 0
    requires AxsetCompare(AxsetOf(info, sorted, j), AxsetAt(k)) <= 0
    ensures exists i: nat :: i <= k && AxsetOf(info, sorted, j) == AxsetAt(i)
  {
    var i := if j == 0 then 0 else 11 - j / 2;
    assert AxsetOf(info, sorted, j) == AxsetAt(i);
  }

  lemma AllDifferent(info: seq<Info>, sorted: seq<nat>)
    requires InRange(info, sorted)
    ensures Distinct(AllAxsets(info, sorted))
  {
    var all := AllAxsets(info, sorted);
    assert forall k | 0 <= k < |all| :: all[k].iOrder == k;
  }

  // ----- the packing -----

  function EntryAt(k: nat): LookaheadAction
    requires 1 <= k < 11
  {
    EntryFor(ActionOf(k))
  }

  const EMPTY := LA(-1, -1)

  /** The slots in use before row `k` is inserted, for the rows up to the one that goes wrong. */
  function Table(k: nat): seq<LookaheadAction>
    requires 1 <= k < 10
  {
    var t := FirstRow();
    if k == 1 then t
    else if k == 2 then t + [LA(2, 9)]
    else if k == 3 then t + [LA(2, 9), EMPTY, LA(3, 8)]
    else if k == 4 then t + [LA(2, 9), LA(4, 7), LA(3, 8)]
    else if k == 5 then t + [LA(2, 9), LA(4, 7), LA(3, 8), LA(0, 12)]
    else if k == 6 then t + [LA(2, 9), LA(4, 7), LA(3, 8), LA(0, 12), EMPTY, LA(5, 5)]
    else if k == 7 then t + [LA(2, 9), LA(4, 7), LA(3, 8), LA(0, 12), LA(0, 13), LA(5, 5)]
    else if k == 8 then t + [LA(2, 9), LA(4, 7), LA(3, 8), LA(0, 12), LA(0, 13), LA(5, 5), EMPTY, LA(6, 3)]
    else t + [LA(2, 9), LA(4, 7), LA(3, 8), LA(0, 12), LA(0, 13), LA(5, 5), EMPTY, LA(6, 3), EMPTY, LA(7, 2)]
  }

  /** The index at which the one action of row `k` goes. */
  function Index(k: nat): nat
    requires 1 <= k < 10
  {
    [4, 6, 5, 7, 9, 8, 11, 13, 16][k - 1]
  }

  /** Index `j` is passed over by the scan: it is taken, or some slot has the lookahead that is looked up there. */
  ghost predicate Blocked(tab: seq<LookaheadAction>, v: int, j: int) {
    (0 <= j < |tab| && tab[j].lookahead >= 0) || exists m :: 0 <= m < |tab| && tab[m].lookahead == m - (j - v)
  }

  /** A row with the one action `e` goes to index `i` of an array of 24 slots: the first that is not passed over, or the
      cut-off. */
  ghost predicate GoesTo(tab: seq<LookaheadAction>, e: LookaheadAction, i: nat) {
    && e.lookahead >= 0 && |tab| + e.lookahead + 1 < 24 && i <= 24 - e.lookahead && e !in tab
    && (forall j | 0 <= j < i :: Blocked(tab, e.lookahead, j))
    && (i < |tab| ==> tab[i].lookahead < 0)
    && (i < 24 - e.lookahead ==> forall m | 0 <= m < |tab| :: tab[m].lookahead != m - (i - e.lookahead))
  }

  function Put(tab: seq<LookaheadAction>, i: nat, e: LookaheadAction): seq<LookaheadAction> {
    if i < |tab| then tab[i := e] else tab + seq(i - |tab|, _ => EMPTY) + [e]
  }

  lemma FirstRows(k: nat)
    requires 1 <= k <= 4
    ensures GoesTo(Table(k), EntryAt(k), Index(k))
  {
    var t := Table(k);
    assert k == 2 ==> t[4].lookahead == 2;
  }

  lemma NextRows(k: nat)
    requires 5 <= k <= 7
    ensures GoesTo(Table(k), EntryAt(k), Index(k))
  {
    var t := Table(k);
    assert k == 5 ==> t[6].lookahead == 3;
    assert k == 7 ==> t[9].lookahead == 5;
  }

  lemma LastRows(k: nat)
    requires 8 <= k <= 9
    ensures GoesTo(Table(k), EntryAt(k), Index(k))
  {
    var t := Table(k);
    assert k == 8 ==> t[6].lookahead == 3 && t[11].lookahead == 6;
    assert k == 9 ==> t[4].lookahead == 2 && t[7].lookahead == 0 && t[9].lookahead == 5 && t[13].lookahead == 7;
  }

  lemma RowsGoTo(k: nat)
    requires 1 <= k < 10
    ensures GoesTo(Table(k), EntryAt(k), Index(k))
  {
    hide GoesTo, Blocked;
    if k <= 4 { FirstRows(k); } else if k <= 7 { NextRows(k); } else { LastRows(k); }
  }

  lemma Puts(k: nat)
    requires 1 <= k < 9
    ensures Put(Table(k), Index(k), EntryAt(k)) == Table(k + 1)
  {
  }

  ghost predicate Holds(s: Stage, tab: seq<LookaheadAction>) {
    |s.slots| == 24 && s.n == |tab| <= 24 && forall k | 0 <= k < |tab| :: s.slots[k] == tab[k]
  }

  lemma LandsAtIndex(s: Stage, tab: seq<LookaheadAction>, e: LookaheadAction, i: nat, o: int)
    requires Holds(s, tab) && GoesTo(tab, e, i) && Lands(s.slots, s.n, [e], o)
    ensures o == i - e.lookahead
    ensures Free(s.slots, s.n, o, [e]) && !exists p :: Exact(s.slots, s.n, p, [e])
  {
    var t, v := [e], e.lookahead;
    assert LeastOf(t) == v == LargestOf(t) && t[0] == e;
    forall p ensures !Exact(s.slots, s.n, p, t) {
      StartsWithFirst(s.slots, s.n, p, t);
    }
    forall p | 0 <= p + v < i ensures !Hole(s.slots, s.n, p, t) {
      assert Blocked(tab, v, p + v);
      BlockedIsNoHole(s, tab, e, p);
    }
    if i < 24 - v {
      assert Hole(s.slots, s.n, i - v, t);
    }
    hide Exact, Hole;
  }

  lemma BlockedIsNoHole(s: Stage, tab: seq<LookaheadAction>, e: LookaheadAction, p: int)
    requires Holds(s, tab) && 0 <= p + e.lookahead && Blocked(tab, e.lookahead, p + e.lookahead)
    ensures !Hole(s.slots, s.n, p, [e])
  {
    var t := [e];
    assert t[0] == e;
  }

  lemma InsertOne(s: Stage, tab: seq<LookaheadAction>, e: LookaheadAction, i: nat, o: int, s': Stage)
    requires Holds(s, tab) && GoesTo(tab, e, i) && Lands(s.slots, s.n, [e], o)
    requires SlotsOk(s'.slots, s'.n) && Inserted(s.slots, s.n, [e], s'.slots, s'.n, o)
    requires |s'.slots| == GrownAlloc(24, s.n, LargestOf([e]))
    ensures o == i - e.lookahead && Holds(s', Put(tab, i, e))
  {
    LandsAtIndex(s, tab, e, i, o);
    WrittenOne(s, tab, e, i, o, s');
  }

  lemma WrittenOne(s: Stage, tab: seq<LookaheadAction>, e: LookaheadAction, i: nat, o: int, s': Stage)
    requires Holds(s, tab) && e.lookahead >= 0 && |tab| + e.lookahead + 1 < 24 && o == i - e.lookahead
    requires SlotsOk(s'.slots, s'.n) && Written(s.slots, s.n, o, [e], s'.slots, s'.n)
    requires |s'.slots| == GrownAlloc(24, s.n, LargestOf([e]))
    ensures Holds(s', Put(tab, i, e))
  {
    assert [e][0] == e && LargestOf([e]) == e.lookahead;
    forall k | 0 <= k < s'.n && k != i ensures s'.slots[k] == if k < |tab| then tab[k] else EMPTY {
      assert forall j | 0 <= j < |[e]| :: k != o + [e][j].lookahead;
    }
    hide Written;
    PutHolds(tab, i, e, s');
  }

  lemma PutHolds(tab: seq<LookaheadAction>, i: nat, e: LookaheadAction, s': Stage)
    requires |s'.slots| == 24 && SlotsOk(s'.slots, s'.n) && i < s'.n && |tab| <= s'.n && s'.slots[i] == e
             && e.lookahead >= 0
    requires forall k | 0 <= k < s'.n && k != i :: s'.slots[k] == if k < |tab| then tab[k] else EMPTY
    ensures Holds(s', Put(tab, i, e))
  {
    assert s'.n == if i < |tab| then |tab| else i + 1;
  }

  /** The first row goes to the beginning, in whatever order its actions are. */
  lemma FirstLands(row: seq<LookaheadAction>, o: int)
    requires Transaction(row) && IsFirst(row) && Lands([], 0, row, o)
    ensures o == 0 && LargestOf(row) == 3 && !exists p :: Exact([], 0, p, row)
  {
    var t := FirstRow();
    assert t[0] in row && t[3] in row;
    assert forall j | 0 <= j < |row| :: row[j] in row;
    assert IsMin(row, 0) && IsMax(row, 3);
    ExtremesUnique(row, 0, 3);
    forall p ensures !Exact([], 0, p, row) {
      StartsWithFirst([], 0, p, row);
    }
    hide Exact, LeastOf, LargestOf;
    assert Hole([], 0, 0, row);
  }

  lemma WrittenEntry(row: seq<LookaheadAction>, s': Stage, d: LookaheadAction)
    requires Written([], 0, 0, row, s'.slots, s'.n) && d in row
    ensures 0 <= d.lookahead < s'.n <= |s'.slots| && s'.slots[d.lookahead] == d
  {
    var j :| 0 <= j < |row| && row[j] == d;
    assert 0 <= 0 + row[j].lookahead < s'.n;
  }

  lemma NothingElse(row: seq<LookaheadAction>, s': Stage)
    requires Written([], 0, 0, row, s'.slots, s'.n) && forall j | 0 <= j < |row| :: 0 <= row[j].lookahead < 4
    ensures s'.n <= |s'.slots| && forall k | 4 <= k < s'.n :: s'.slots[k] == EMPTY
  {
    forall k | 4 <= k < s'.n ensures s'.slots[k] == EMPTY {
      assert forall j | 0 <= j < |row| :: k != 0 + row[j].lookahead;
    }
  }

  lemma FirstBelow(row: seq<LookaheadAction>)
    requires IsFirst(row)
    ensures forall j | 0 <= j < |row| :: 0 <= row[j].lookahead < 4
    ensures LA(0, 11) in row && LA(1, 10) in row && LA(2, 4) in row && LA(3, 6) in row
  {
    assert forall j | 0 <= j < |row| :: row[j] in row;
    assert forall d | d in FirstRow() :: 0 <= d.lookahead < 4;
    var t := FirstRow();
    assert t[0] in row && t[1] in row && t[2] in row && t[3] in row;
  }

  lemma FirstInserted(row: seq<LookaheadAction>, s': Stage)
    requires Transaction(row) && IsFirst(row) && |s'.slots| == 24 && SlotsOk(s'.slots, s'.n)
    requires Written([], 0, 0, row, s'.slots, s'.n)
    ensures Holds(s', Table(1))
  {
    hide Written, Transaction, IsFirst, Holds, Table, SlotsOk;
    FirstBelow(row);
    NothingElse(row, s');
    WrittenEntry(row, s', LA(0, 11));
    WrittenEntry(row, s', LA(1, 10));
    WrittenEntry(row, s', LA(2, 4));
    WrittenEntry(row, s', LA(3, 6));
    TableOne(s');
  }

  lemma TableOne(s': Stage)
    requires |s'.slots| == 24 && SlotsOk(s'.slots, s'.n) && s'.n >= 4 && s'.slots[0] == LA(0, 11)
             && s'.slots[1] == LA(1, 10)
    requires s'.slots[2] == LA(2, 4) && s'.slots[3] == LA(3, 6) && forall k | 4 <= k < s'.n :: s'.slots[k] == EMPTY
    ensures Holds(s', Table(1))
  {
  }

  /** The run of the packing, up to the row that goes wrong. */
  ghost predicate Setting(c: Source, ax: seq<Axset>, h: seq<Stage>) {
    && c.g == G && |c.ss| == 11 && Numbered(c) && RowsOk(c) && PackRun(c, ax, h) && OnceEach(ax) && |ax| == 22
        && |h| > 10
    && (forall k: nat | k < 11 :: ax[k] == AxsetAt(k))
    && IsFirst(Row(c, 0, true))
    && (forall q: nat | 1 <= q < 11 :: Row(c, q, true) == [EntryAt(q)])
  }

  lemma MadeParts(ss: seq<State>, c: Source, sorted: seq<nat>, ax: seq<Axset>, h: seq<Stage>, t: Tables)
    requires Made(ss, c, sorted, ax, h, t)
    ensures c.g == G && Z.AllActed(G, Cores(), ss) && Z.AllCompressed(G, ss, c.ss) && AllCodable(G, c.ss)
    ensures h != [] && AllCounted(G, c.ss, h[0].info) && Ordered(h[0].info, sorted)
            && IsRenumbering(11, sorted, c.statenum)
    ensures PackRun(c, ax, h) && OnceEach(ax) && |h| - 1 <= |ax| && InRange(h[0].info, sorted)
            && RowsInOrder(h[0].info, sorted, ax)
    ensures forall q: nat, tkn | q < |c.ss| :: (q, tkn) in DoneBy(ax, |h| - 1) <==> Row(c, q, tkn) != []
  {
    hide Cores, Z.AllActed, Z.AllCompressed, AllCodable, AllCounted, Ordered, SlotsWritten, OfstsWritten, PackedSoFar,
         RowsInOrder,
         IsRenumbering, E.Entries, DoneBy;
  }

  lemma SettingOf(ss: seq<State>, c: Source, sorted: seq<nat>, ax: seq<Axset>, h: seq<Stage>, t: Tables)
    requires Made(ss, c, sorted, ax, h, t)
    ensures Setting(c, ax, h) && |sorted| == 11 && forall p: nat | p < 11 :: sorted[p] == NewNumber(p)
  {
    hide Made, Cores, Z.AllActed, Z.AllCompressed, AllCodable, AllCounted, Ordered, PackRun, OnceEach, RowsInOrder,
         RowsOk, E.Entries;
    MadeParts(ss, c, sorted, ax, h, t);
    var info := h[0].info;
    assert |sorted| == 11 by { ListIs(ss, c.ss, 0, Action(0, Reduce, 0)); }
    hide IsRenumbering;
    NumbersAre(ss, c, info, sorted);
    forall q: nat | q < 11
      ensures |info| == 11 && info[q].nTknAct == (if q == 0 then 4 else 1) && info[q].nNtAct == if q == 0 then 1 else 0
    {
      CountIs(ss, c, info, q);
    }
    assert |info| == 11 by { CountIs(ss, c, info, 0); }
    RowsAre(info, sorted, ax, 10);
    StartRow(ss, c);
    forall q: nat | 1 <= q < 11 ensures Row(c, q, true) == [EntryAt(q)] {
      OneRow(ss, c, q);
    }
    assert (9, true) in DoneBy(ax, |h| - 1);
    LongEnough(ax, |h| - 1);
  }

  lemma LongEnough(ax: seq<Axset>, k: nat)
    requires OnceEach(ax) && k <= |ax| == 22 && ax[9] == AxsetAt(9) && (9, true) in DoneBy(ax, k)
    ensures k > 9
  {
    var j :| 0 <= j < k && ax[j].stp == 9 && ax[j].isTkn;
    assert j >= 9;
  }

  /** The first row is inserted into the empty table. */
  ghost predicate InsertsFirst(row: seq<LookaheadAction>, s': Stage, o: int) {
    && Transaction(row) && IsFirst(row)
    && Lands([], 0, row, o) && SlotsOk(s'.slots, s'.n) && Inserted([], 0, row, s'.slots, s'.n, o)
    && row != [] && LargestOf(row) >= 0 && |s'.slots| == GrownAlloc(0, 0, LargestOf(row))
  }

  lemma StepAtStart(c: Source, ax: seq<Axset>, h: seq<Stage>) returns (o: int)
    requires Setting(c, ax, h)
    ensures |h| > 10 && InsertsFirst(Row(c, 0, true), h[1], o)
  {
    hide RowsOk, E.Entries, SlotsOk, Inserted, LandsAt, IsFirst, OnceEach, Numbered, Transaction;
    assert ax[0] == AxsetAt(0) && h[0].slots == [] && h[0].n == 0 && |h| > 10 && IsFirst(Row(c, 0, true));
    o := StepOf(c, ax, h, 0);
    TransactionOf(c, 0, true);
    hide PackRun, Setting;
  }

  lemma StartPlaced(row: seq<LookaheadAction>, s': Stage, o: int)
    requires InsertsFirst(row, s', o)
    ensures Holds(s', Table(1))
  {
    hide Transaction, Lands, SlotsOk, Exact, Written, LargestOf, Holds, Table, IsFirst;
    FirstLands(row, o);
    FirstInserted(row, s');
  }

  lemma StageOne(c: Source, ax: seq<Axset>, h: seq<Stage>)
    requires Setting(c, ax, h)
    ensures |h| > 10 && Holds(h[1], Table(1))
  {
    hide Setting, InsertsFirst, Holds, Row, AllShiftsInto;
    assert |c.ss| == 11 && AllShiftsInto(|c.statenum|, c.ss) by { SettingParts(c, ax, h); }
    var o := StepAtStart(c, ax, h);
    StartPlaced(Row(c, 0, true), h[1], o);
  }

  lemma SettingParts(c: Source, ax: seq<Axset>, h: seq<Stage>)
    requires Setting(c, ax, h)
    ensures |c.ss| == 11 && AllShiftsInto(|c.statenum|, c.ss) && |h| > 10
  {
  }

  /** Row `k` is inserted into one stage, which gives the other. */
  ghost predicate InsertsRow(s: Stage, s': Stage, k: nat, o: int)
    requires 1 <= k < 10
  {
    var e := EntryAt(k);
    && s.n <= |s.slots| && |s'.info| == 11 && OfstOf(s'.info[k], true) == o
    && Lands(s.slots, s.n, [e], o) && SlotsOk(s'.slots, s'.n) && Inserted(s.slots, s.n, [e], s'.slots, s'.n, o)
    && LargestOf([e]) >= 0 && |s'.slots| == GrownAlloc(|s.slots|, s.n, LargestOf([e]))
  }

  lemma StepAt(c: Source, ax: seq<Axset>, h: seq<Stage>, k: nat) returns (o: int)
    requires Setting(c, ax, h) && 1 <= k < 10
    ensures |h| > 10 && InsertsRow(h[k], h[k + 1], k, o)
  {
    o := StepOf(c, ax, h, k);
    assert ax[k] == AxsetAt(k) && Row(c, k, true) == [EntryAt(k)];
    hide Setting, RowsOk, PackRun, Row, Transaction, SlotsOk, Inserted, EntryAt, LandsAt;
  }

  /** Row `k` goes where it should. */
  ghost predicate Placed(s: Stage, s': Stage, k: nat)
    requires 1 <= k < 10
  {
    var o := Index(k) - EntryAt(k).lookahead;
    |s'.info| == 11 && OfstOf(s'.info[k], true) == o && s.n <= |s.slots| && Lands(s.slots, s.n, [EntryAt(k)], o)
  }

  lemma PlaceOne(s: Stage, s': Stage, k: nat, o: int)
    requires 1 <= k < 10 && Holds(s, Table(k)) && InsertsRow(s, s', k, o)
    ensures Placed(s, s', k) && (k < 9 ==> Holds(s', Table(k + 1)))
  {
    hide Lands, SlotsOk, Inserted, LargestOf, GoesTo, Table, EntryAt, Index, Put, Blocked;
    RowsGoTo(k);
    InsertOne(s, Table(k), EntryAt(k), Index(k), o, s');
    if k < 9 { Puts(k); }
  }

  lemma NextStage(c: Source, ax: seq<Axset>, h: seq<Stage>, k: nat)
    requires Setting(c, ax, h) && 1 <= k < 10 && Holds(h[k], Table(k))
    ensures |h| > 10 && Placed(h[k], h[k + 1], k) && (k < 9 ==> Holds(h[k + 1], Table(k + 1)))
  {
    hide Holds, Table, Placed, InsertsRow;
    var o := StepAt(c, ax, h, k);
    PlaceOne(h[k], h[k + 1], k, o);
  }

  lemma {:induction false} Stages(c: Source, ax: seq<Axset>, h: seq<Stage>, k: nat)
    requires Setting(c, ax, h) && 1 <= k < 10
    ensures Holds(h[k], Table(k))
    decreases k
  {
    hide Holds, Table;
    if k == 1 { StageOne(c, ax, h); } else {
      Stages(c, ax, h, k - 1);
      NextStage(c, ax, h, k - 1);
    }
  }

  /** The action on H of the state after `B F G` is put at the offset that the state after `C E` has. */
  lemma SameOffset(c: Source, ax: seq<Axset>, h: seq<Stage>, m: nat)
    requires Setting(c, ax, h) && 10 <= m < |h|
    ensures OfstOf(h[9].info[6], true) == 8 && Lands(h[9].slots, h[9].n, [LA(8, 1)], 8)
    ensures OfstOf(h[m].info[6], true) == 8 == OfstOf(h[m].info[9], true)
  {
    hide Holds, RowsOk, Table, Lands;
    Stages(c, ax, h, 6);
    NextStage(c, ax, h, 6);
    Stages(c, ax, h, 9);
    NextStage(c, ax, h, 9);
    assert ax[6] == AxsetAt(6) && ax[9] == AxsetAt(9);
    OffsetStays(c, ax, h, 6, 9);
    OffsetStays(c, ax, h, 6, m);
    if m > 10 { OffsetStays(c, ax, h, 9, m); }
  }

  // ----- what goes wrong -----

  lemma Harmful(c: Source, ax: seq<Axset>, h: seq<Stage>, k: nat, o: int, p: nat)
    requires PackRun(c, ax, h) && k < |h| - 1 && ax[k].isTkn && Lands(h[k].slots, h[k].n, Row(c, ax[k].stp, true), o)
    requires p < |c.ss| && (p, true) in DoneBy(ax, k) && OfstOf(h[k].info[p], true) == o
             && !SafeFor(c, Row(c, ax[k].stp, true), p)
    ensures !AllSafe(c, ax, h)
  {
    hide Lands, NoStray, SafeFor, DoneBy, Row, AllShiftsInto;
    assert !Harmless(c, DoneBy(ax, k), h[k], ax[k].stp, true, o);
    hide Harmless;
    assert !SafeToPack(c, ax, h, k);
  }

  /** Packing the row of the state after `B F G` was not safe. */
  lemma NotSafe(c: Source, ax: seq<Axset>, h: seq<Stage>)
    requires Setting(c, ax, h)
    ensures PackRun(c, ax, h) && !AllSafe(c, ax, h)
  {
    hide Lands, PackRun, Row, DefaultCode, SafeFor, IsFirst, RowsOk, OnceEach, Numbered;
    SameOffset(c, ax, h, 10);
    SettingParts(c, ax, h);
    assert ax[9] == AxsetAt(9) && ax[6] == AxsetAt(6);
    assert Row(c, 9, true) == [LA(8, 1)] && Row(c, 6, true) == [LA(0, 13)];
    hide Setting;
    DefaultAbove(c, 6);
    Unsafe(c);
    assert (6, true) in DoneBy(ax, 9);
    Harmful(c, ax, h, 9, 8, 6);
  }

  lemma DefaultAbove(c: Source, q: nat)
    requires q < |c.ss| == 11
    ensures Dflt(c, q) >= 11
  {
  }

  lemma Unsafe(c: Source)
    requires AllShiftsInto(|c.statenum|, c.ss) && |c.ss| == 11 && Row(c, 9, true) == [LA(8, 1)]
             && Row(c, 6, true) == [LA(0, 13)]
    requires Dflt(c, 6) >= 11
    ensures !SafeFor(c, Row(c, 9, true), 6)
  {
    assert LA(8, 1) in Row(c, 9, true) && LA(8, 1) !in Row(c, 6, true);
  }

  /** The live actions of the lists. */
  lemma LiveAt(ss: seq<State>, c: Source, q: nat, a: Action)
    requires Z.AllActed(G, Cores(), ss) && Z.AllCompressed(G, ss, c.ss) && q < 11 && a in Actions(q)
    ensures |c.ss| == 11 && Z.FindLive(c.ss[q].ap, a.sp) == Some(a)
  {
    hide Cores, A.Acted, A.UniqueLive, Z.Outcome, Z.FindLive;
    ListIs(ss, c.ss, q, a);
    Z.FindLiveIs(c.ss[q].ap, a.sp);
  }

  lemma NoneAt(ss: seq<State>, c: Source, q: nat, x: nat)
    requires Z.AllActed(G, Cores(), ss) && Z.AllCompressed(G, ss, c.ss) && q < 11 && forall a | a in Actions(q) ::
               a.sp != x
    ensures |c.ss| == 11 && Z.FindLive(c.ss[q].ap, x) == None
  {
    hide Cores, A.Acted, A.UniqueLive, Z.Outcome, Z.FindLive;
    ListIs(ss, c.ss, q, Action(x, Shift, 0));
    Z.FindLiveIs(c.ss[q].ap, x);
    if Z.FindLive(c.ss[q].ap, x).Some? {
      ListIs(ss, c.ss, q, Z.FindLive(c.ss[q].ap, x).value);
      assert false;
    }
  }

  /** What the driver reads for an action of a state. */
  lemma ShiftReads(ss: seq<State>, c: Source, sorted: seq<nat>, ax: seq<Axset>, h: seq<Stage>, t: Tables, q: nat,
                   a: Action)
    requires Made(ss, c, sorted, ax, h, t) && q < 11 && a in Actions(q) && a.sp < 9
    ensures |t.defaults| == 11 && |t.lookaheads| == |t.actions|
    ensures FindShiftAction(t, NewNumber(q), a.sp) == EntryFor(a).action
  {
    hide Setting, Cores, Z.AllActed, Z.AllCompressed, AllCodable, AllCounted, Ordered, Reported, Actions,
         FindShiftAction, FinalTable,
         Z.FindLive, Lookup, IsRenumbering, PackRun, Row, AllShiftsInto;
    SettingOf(ss, c, sorted, ax, h, t);
    MadeNumbers(ss, c, sorted, ax, h, t);
    LiveAt(ss, c, q, a);
    ActionShape(q, a);
    ValidG();
    assert sorted[NewNumber(q)] == q;
    ShiftLive(c, sorted, ax, h, t, NewNumber(q), a.sp);
    LiveCell(c, sorted, q, a);
  }

  lemma MadeNumbers(ss: seq<State>, c: Source, sorted: seq<nat>, ax: seq<Axset>, h: seq<Stage>, t: Tables)
    requires Made(ss, c, sorted, ax, h, t)
    ensures c.g == G && |c.ss| == 11 && Numbered(c) && AllCodable(G, c.ss) && IsRenumbering(|c.ss|, sorted, c.statenum)
  {
    SettingOf(ss, c, sorted, ax, h, t);
    hide Cores, Z.AllActed, Z.AllCompressed, AllCodable, AllCounted, Ordered, Reported, PackRun, OnceEach, RowsOk,
         IsFirst;
  }

  lemma LiveCell(c: Source, sorted: seq<nat>, q: nat, a: Action)
    requires c.g == G && |c.ss| == 11 && Numbered(c) && IsRenumbering(11, sorted, c.statenum) && q < 11
             && sorted[NewNumber(q)] == q
    requires a.sp < 9 && Z.FindLive(c.ss[q].ap, a.sp) == Some(a) && E.Coded(a) && a.kind != Error
    requires (a.kind == Shift ==> a.target < 11) && (a.kind == Accept ==> a.sp >= 9)
    ensures |FinalTable(c, sorted)| == 11
    ensures CellCode(11, 4, Lookup(FinalTable(c, sorted), NewNumber(q), a.sp)) == EntryFor(a).action
  {
    CellInTable(G, c.ss, sorted, c.statenum, NewNumber(q), a.sp);
    RenumberedSize(sorted, c.statenum, Z.Table(G, c.ss));
    hide Renumbered, Lookup, IsRenumbering, Z.Table, Z.FindLive;
  }

  /** The state after `C E` has no action on H and no default. */
  lemma ErrorExpected(ss: seq<State>, c: Source, sorted: seq<nat>, ax: seq<Axset>, h: seq<Stage>, t: Tables)
    requires Made(ss, c, sorted, ax, h, t)
    ensures Lookup(FinalTable(c, sorted), 5, 8) == ErrorCell
  {
    hide Made, Setting, Actions, FinalTable, Cores, Z.AllActed, Z.AllCompressed, AllCodable, AllCounted, Ordered,
         RowsInOrder, PackRun,
         OnceEach, IsRenumbering, Row, DoneBy, AllShiftsInto;
    SettingOf(ss, c, sorted, ax, h, t);
    MadeParts(ss, c, sorted, ax, h, t);
    NothingOnH(8);
    NothingOnH(11);
    NoneAt(ss, c, 6, 8);
    NoneAt(ss, c, 6, 11);
    ErrorCellThere(c, sorted);
  }

  lemma NothingOnH(x: nat)
    requires x > 0
    ensures forall a | a in Actions(6) :: a.sp != x
  {
  }

  lemma ErrorCellThere(c: Source, sorted: seq<nat>)
    requires c.g == G && |c.ss| == 11 && IsRenumbering(11, sorted, c.statenum) && sorted[5] == NewNumber(5)
    requires Z.FindLive(c.ss[6].ap, 8) == None && Z.FindLive(c.ss[6].ap, 11) == None
    ensures Lookup(FinalTable(c, sorted), 5, 8) == ErrorCell
  {
    CellInTable(G, c.ss, sorted, c.statenum, 5, 8);
    hide Renumbered, Lookup, IsRenumbering, Z.Table, Z.FindLive;
  }

  /** Where the driver looks depends on the offset of the state only, unless it finds the default. */
  lemma SameLookup(t: Tables, p: nat, q: nat, x: nat)
    requires p < |t.defaults| && q < |t.defaults| && |t.lookaheads| == |t.actions|
    requires p < |t.shiftOfsts| && q < |t.shiftOfsts| && t.shiftOfsts[p] == t.shiftOfsts[q]
    ensures FindShiftAction(t, q, x) != t.defaults[q] ==> FindShiftAction(t, p, x) == FindShiftAction(t, q, x)
  {
  }

  /** The offsets that the driver reads. */
  lemma OffsetsRead(ss: seq<State>, c: Source, sorted: seq<nat>, ax: seq<Axset>, h: seq<Stage>, t: Tables)
    requires Made(ss, c, sorted, ax, h, t)
    ensures |t.defaults| == 11 && |t.lookaheads| == |t.actions| && t.defaults[2] >= 11
    ensures |t.shiftOfsts| > 5 && t.shiftOfsts[2] == 8 == t.shiftOfsts[5]
  {
    hide Setting, Cores, Z.AllActed, Z.AllCompressed, AllCodable, AllCounted, Ordered, IsRenumbering, Packed,
         SlotsWritten, OfstsWritten;
    SettingOf(ss, c, sorted, ax, h, t);
    SettingParts(c, ax, h);
    SameOffset(c, ax, h, |h| - 1);
    TableSizes(c, sorted, ax, h, t);
    OfstReads(c, sorted, ax, h, t, 2, true);
    OfstReads(c, sorted, ax, h, t, 5, true);
    DefaultAbove(c, 9);
  }

  /** The tables do not refine the cells: in the state after `C E`, which has number 5, the driver finds a shift on H
      instead of the error. */
  lemma WrongLookup(ss: seq<State>, c: Source, sorted: seq<nat>, ax: seq<Axset>, h: seq<Stage>, t: Tables)
    requires Made(ss, c, sorted, ax, h, t)
    ensures PackRun(c, ax, h) && !AllSafe(c, ax, h) && !Refines(t, G, FinalTable(c, sorted))
    ensures |t.defaults| == 11 && |t.lookaheads| == |t.actions|
    ensures FindShiftAction(t, 5, 8) == 1 && Lookup(FinalTable(c, sorted), 5, 8) == ErrorCell
  {
    hide Made, Setting, Refines, AllSafe, FinalTable, FindShiftAction, Lookup, PackRun, Valid, AllCodable,
         IsRenumbering, Cores, Z.AllActed,
         Z.AllCompressed, AllCounted, Ordered, RowsInOrder, OnceEach, DoneBy, Row, Reported;
    SettingOf(ss, c, sorted, ax, h, t);
    NotSafe(c, ax, h);
    MadeRefines(ss, c, sorted, ax, h, t);
    ErrorExpected(ss, c, sorted, ax, h, t);
    OffsetsRead(ss, c, sorted, ax, h, t);
    assert ActionOf(9) == Action(8, Shift, 10) && ActionOf(9) in Actions(9);
    ShiftReads(ss, c, sorted, ax, h, t, 9, ActionOf(9));
    SameLookup(t, 5, 2, 8);
  }

  lemma MadeRefines(ss: seq<State>, c: Source, sorted: seq<nat>, ax: seq<Axset>, h: seq<Stage>, t: Tables)
    requires Made(ss, c, sorted, ax, h, t)
    ensures PackRun(c, ax, h) && (Refines(t, G, FinalTable(c, sorted)) <==> AllSafe(c, ax, h))
  {
    hide Reported, Refines, AllSafe, FinalTable, PackRun, Cores, Z.AllActed, Z.AllCompressed, AllCodable, Ordered;
    ValidG();
    ListIs(ss, c.ss, 0, Action(0, Reduce, 0));
    RefinesIfSafe(c, sorted, ax, h, t);
  }

  /** The table as the driver sees it through the packed arrays. */
  ghost predicate SeenAs(t: Tables, cells: seq<seq<Cell>>) {
    && |t.defaults| == 11 && |t.lookaheads| == |t.actions|
    && forall p: nat, x: nat | p < 11 && x < 9 :: SeenAt(t, cells, p, x)
  }

  ghost predicate SeenAt(t: Tables, cells: seq<seq<Cell>>, p: nat, x: nat)
    requires p < |t.defaults| && |t.lookaheads| == |t.actions|
  {
    var cell := Lookup(cells, p, x);
    FindShiftAction(t, p, x) == CellCode(11, 4, cell) && (cell.ShiftTo? ==> cell.state < 11)
        && (cell.ReduceBy? ==> cell.rule < 4)
  }

  /** On `C E H $` the driver shifts H after `C E` and is then to reduce by `B F G H`, with three symbols on its
      stack. */
  lemma Underflow(ss: seq<State>, c: Source, sorted: seq<nat>, ax: seq<Axset>, h: seq<Stage>, t: Tables,
                  cells: seq<seq<Cell>>, depth: nat)
    requires Made(ss, c, sorted, ax, h, t) && SeenAs(t, cells) && depth >= 4
    ensures var m := Steps(G, cells, depth, Conf(M.Start(), [3, 5, 8, 0]), 3);
            && m.input == [0] && |m.m.stack| == 4 && Lookup(cells, Top(m.m.stack).stateno, 0) == ReduceBy(3)
            && |G.rules[3].rhs| == 4 && !CanAct(G, cells, m.m, 0)
  {
    hide Made, FindShiftAction, FinalTable, PackRun, Lookup, CellCode, SeenAt, Steps;
    WrongLookup(ss, c, sorted, ax, h, t);
    var a := Actions(0);
    ShiftReads(ss, c, sorted, ax, h, t, 0, a[3]);
    ShiftReads(ss, c, sorted, ax, h, t, 5, ActionOf(5));
    ShiftReads(ss, c, sorted, ax, h, t, 10, ActionOf(10));
    ShiftSeen(t, cells, 0, 3, 6);
    ShiftSeen(t, cells, 6, 5, 5);
    ShiftSeen(t, cells, 5, 8, 1);
    ReduceSeen(t, cells, 1, 0, 3);
    ThreeShifts(cells, depth);
  }

  lemma ShiftSeen(t: Tables, cells: seq<seq<Cell>>, p: nat, x: nat, j: nat)
    requires SeenAs(t, cells) && p < 11 && x < 9 && j < 11 && FindShiftAction(t, p, x) == j
    ensures Lookup(cells, p, x) == ShiftTo(j)
  {
    hide Lookup, FindShiftAction;
    assert SeenAt(t, cells, p, x);
  }

  lemma ReduceSeen(t: Tables, cells: seq<seq<Cell>>, p: nat, x: nat, r: nat)
    requires SeenAs(t, cells) && p < 11 && x < 9 && r < 4 && FindShiftAction(t, p, x) == 11 + r
    ensures Lookup(cells, p, x) == ReduceBy(r)
  {
    hide Lookup, FindShiftAction;
    assert SeenAt(t, cells, p, x);
  }

  lemma ThreeShifts(cells: seq<seq<Cell>>, depth: nat)
    requires depth >= 4 && Lookup(cells, 0, 3) == ShiftTo(6) && Lookup(cells, 6, 5) == ShiftTo(5)
             && Lookup(cells, 5, 8) == ShiftTo(1)
    ensures var m := Steps(G, cells, depth, Conf(M.Start(), [3, 5, 8, 0]), 3);
            m.input == [0] && m.m.stack == [Entry(0, 0), Entry(6, 3), Entry(5, 5), Entry(1, 8)]
  {
    hide Lookup;
    var m0 := Conf(M.Start(), [3, 5, 8, 0]);
    var m1 := StepConf(G, cells, depth, m0);
    assert m1.input == [5, 8, 0] && m1.m.stack == [Entry(0, 0), Entry(6, 3)];
    var m2 := StepConf(G, cells, depth, m1);
    assert m2.input == [8, 0] && m2.m.stack == [Entry(0, 0), Entry(6, 3), Entry(5, 5)];
    var m3 := StepConf(G, cells, depth, m2);
    assert m3.input == [0] && m3.m.stack == [Entry(0, 0), Entry(6, 3), Entry(5, 5), Entry(1, 8)];
    assert Steps(G, cells, depth, m3, 0) == m3 && Steps(G, cells, depth, m2, 1) == m3
           && Steps(G, cells, depth, m1, 2) == m3;
  }

  /** The whole generator on this grammar. */
  method GenerateWrongly(lemp: Lemon, qsortStates: seq<StateKey> -> seq<StateKey>, qsortRows: seq<Axset> -> seq<Axset>)
    returns (t: Tables, ghost c: Source)
    requires lemp.g == G && lemp.states == []
    requires E.IsQsort(qsortStates, StateResortCompare) && E.IsQsort(qsortRows, AxsetCompare)
    modifies lemp
    ensures c == SourceOf(lemp) && !Refines(t, G, FinalTable(c, lemp.sorted))
    ensures |t.defaults| == 11 && |t.lookaheads| == |t.actions|
    ensures FindShiftAction(t, 5, 8) == 1 && Lookup(FinalTable(c, lemp.sorted), 5, 8) == ErrorCell
    ensures forall cells, depth: nat | SeenAs(t, cells) && depth >= 4 ::
              var m := Steps(G, cells, depth, Conf(M.Start(), [3, 5, 8, 0]), 3);
              m.m.stack != [] && m.input == [0] && !CanAct(G, cells, m.m, 0)
  {
    hide Valid, States.Fits, A.ActionsFit, SymbolsFit, DepthFirst, Z.AllActed, Z.AllCompressed, P.Result, Ordered,
         E.IsQsort, Made, Refines, FinalTable, Lookup, FindShiftAction, AllSafe, PackRun, Steps, CanAct, SeenAs, Cores;
    ValidG();
    FewItems();
    FewActions();
    ghost var cores, ss, ax, h;
    t, cores, ss, ax, h := P.Generate(lemp, qsortStates, qsortRows);
    c := SourceOf(lemp);
    MadeOf(cores, ss, c, lemp.sorted, ax, h, t);
    WrongLookup(ss, c, lemp.sorted, ax, h, t);
    forall cells, depth: nat | SeenAs(t, cells) && depth >= 4
      ensures var m := Steps(G, cells, depth, Conf(M.Start(), [3, 5, 8, 0]), 3);
              m.m.stack != [] && m.input == [0] && !CanAct(G, cells, m.m, 0)
    {
      Underflow(ss, c, lemp.sorted, ax, h, t, cells, depth);
    }
  }

  lemma MadeOf(cores: seq<set<Item>>, ss: seq<State>, c: Source, sorted: seq<nat>, ax: seq<Axset>, h: seq<Stage>,
               t: Tables)
    requires c.g == G && DepthFirst(G, cores) && Z.AllActed(G, cores, ss) && Z.AllCompressed(G, ss, c.ss)
    requires P.Result(c, cores, sorted, ax, h, t) && h != [] && Ordered(h[0].info, sorted)
    ensures Made(ss, c, sorted, ax, h, t)
  {
    hide DepthFirst, Z.AllActed, Z.AllCompressed, Ordered, Made, Cores, Reported, AllCodable, AllSafe, PackRun;
    assert cores[0] == StartKernel(G) by { hide P.Result; StartFirst(c, cores, sorted, ax, h, t); }
    NumbersFound(cores);
    MadeBy(ss, c, sorted, ax, h, t);
  }

  lemma StartFirst(c: Source, cores: seq<set<Item>>, sorted: seq<nat>, ax: seq<Axset>, h: seq<Stage>, t: Tables)
    requires P.Result(c, cores, sorted, ax, h, t)
    ensures |cores| > 0 && cores[0] == StartKernel(c.g)
  {
  }

  lemma FewItems()
    ensures States.Fits(G)
  {
    var s := AllItems(G);
    assert forall i | i in s :: i.rule < 4 && i.dot < 5;
    ItemsBelow(s, 20);
  }

  lemma {:induction false} ItemsBelow(s: set<Item>, n: nat)
    requires forall i | i in s :: i.dot < 5 && 5 * i.rule + i.dot < n
    ensures |s| <= n
    decreases n
  {
    if i :| i in s && 5 * i.rule + i.dot == n - 1 {
      ItemsBelow(s - {i}, n - 1);
    } else if n > 0 {
      ItemsBelow(s, n - 1);
    } else {
      assert s == {};
    }
  }

  function NumberOf(a: Action): nat {
    match a.kind
    case Shift => a.sp
    case Reduce => 11 + 4 * a.sp + a.target
    case _ => 47
  }

  lemma {:induction false} NumbersBelow(s: set<Action>, n: nat)
    requires forall a, b | a in s && b in s && NumberOf(a) == NumberOf(b) :: a == b
    requires forall a | a in s :: NumberOf(a) < n
    ensures |s| <= n
    decreases n
  {
    if a :| a in s && NumberOf(a) == n - 1 {
      NumbersBelow(s - {a}, n - 1);
    } else if n > 0 {
      NumbersBelow(s, n - 1);
    } else {
      assert s == {};
    }
  }

  lemma FewActions()
    ensures A.ActionsFit(G) && SymbolsFit(G)
  {
    var s := A.PossibleActions(G);
    forall a, b | a in s && b in s && NumberOf(a) == NumberOf(b) ensures a == b {
    }
    NumbersBelow(s, 48);
  }

  lemma MadeBy(ss: seq<State>, c: Source, sorted: seq<nat>, ax: seq<Axset>, h: seq<Stage>, t: Tables)
    requires c.g == G && Z.AllActed(G, Cores(), ss) && Z.AllCompressed(G, ss, c.ss) && AllCodable(G, c.ss)
    requires P.Result(c, Cores(), sorted, ax, h, t) && h != [] && Ordered(h[0].info, sorted)
    ensures Made(ss, c, sorted, ax, h, t)
  {
  }
}
