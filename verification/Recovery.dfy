/** What compression does to error recovery: a grammar whose parser recovers from a wrong token in another way when it
    reduces by default. */
module Recovery {
  import opened Grammars
  import opened Items
  import opened Structs
  import opened L = Lookaheads
  import opened M = Machine
  import opened I = Instances
  import A = Actions
  import States
  import Z = Compress
  import opened N = Numbering

  /** The grammar `S ::= A s | x b s | c` with `A ::= x`; the tokens s, x, b and c have the numbers 1 to 4, `error` has
      number 5, S is 6 and A is 7. */
  const G: Grammar :=
    Grammar(5, 8, [Rule(6, [7, 1], None), Rule(6, [2, 3, 1], None), Rule(6, [4], None), Rule(7, [2], None)], 6,
            [-1, -1, -1, -1, -1, -1, -1, -1], [Unknown, Unknown, Unknown, Unknown, Unknown, Unknown, Unknown, Unknown])

  // ----- the automaton -----

  /** The states: the first, and those after A, `A s`, x, `x b`, `x b s` and c. */
  function Core(q: nat): set<Item> {
    if q == 0 then {Item(0, 0), Item(1, 0), Item(2, 0)}
    else if q == 1 then {Item(0, 1)}
    else if q == 2 then {Item(0, 2)}
    else if q == 3 then {Item(1, 1), Item(3, 1)}
    else if q == 4 then {Item(1, 2)}
    else if q == 5 then {Item(1, 3)}
    else {Item(2, 1)}
  }

  function Cores(): (cores: seq<set<Item>>)
    ensures |cores| == 7
  {
    seq(7, q requires 0 <= q < 7 => Core(q))
  }

  function Next(q: nat, x: nat): int {
    if q == 0 then if x == 7 then 1 else if x == 2 then 3 else if x == 4 then 6 else -1
    else if q == 1 then if x == 1 then 2 else -1
    else if q == 3 then if x == 3 then 4 else -1
    else if q == 4 then if x == 1 then 5 else -1
    else -1
  }

  function Full(q: nat): set<Item> {
    if q == 0 then Core(0) + {Item(3, 0)} else Core(q)
  }

  lemma ValidG()
    ensures Valid(G)
  {
  }

  lemma FullIs(q: nat)
    requires q < 7
    ensures Core(q) <= AllItems(G) && Closure(G, Core(q)) == Full(q)
  {
    assert q == 0 ==> Spawns(G, Item(0, 0), Item(3, 0));
    ClosureIs(G, Core(q), Full(q));
  }

  lemma StartIs()
    ensures StartKernel(G) == Core(0)
  {
  }

  lemma GotoIs(q: nat, x: nat)
    requires q < 7
    ensures x in States.NextSymbols(G, Full(q)) <==> Next(q, x) >= 0
    ensures Next(q, x) >= 0 ==> Goto(G, Full(q), x) == Core(Next(q, x))
  {
    if q == 0 { GotoFirst(x); } else { GotoLater(q, x); }
  }

  lemma GotoFirst(x: nat)
    ensures x in States.NextSymbols(G, Full(0)) <==> Next(0, x) >= 0
    ensures Next(0, x) >= 0 ==> Goto(G, Full(0), x) == Core(Next(0, x))
  {
    assert Item(0, 0) in Full(0) && Item(1, 0) in Full(0) && Item(2, 0) in Full(0) && Item(3, 0) in Full(0);
  }

  lemma GotoLater(q: nat, x: nat)
    requires 1 <= q < 7
    ensures x in States.NextSymbols(G, Full(q)) <==> Next(q, x) >= 0
    ensures Next(q, x) >= 0 ==> Goto(G, Full(q), x) == Core(Next(q, x))
  {
  }

  lemma Charted()
    ensures Chart(G, Cores(), Next)
  {
    hide Closure, Goto, States.NextSymbols, StartKernel, AllItems;
    StartIs();
    forall q: nat | q < 7 ensures Cores()[q] <= AllItems(G) {
      FullIs(q);
    }
    forall q: nat, x: nat | q < 7 ensures ChartAt(G, Cores(), Next, q, x) {
      FullIs(q);
      GotoIs(q, x);
    }
    assert Next(0, 7) == 1 && Next(1, 1) == 2 && Next(0, 2) == 3 && Next(3, 3) == 4 && Next(4, 1) == 5
           && Next(0, 4) == 6;
    Different();
  }

  lemma Different()
    ensures forall p, q | 0 <= p < q < 7 :: Cores()[p] != Cores()[q]
  {
    assert Item(0, 0) in Core(0) && Item(0, 1) in Core(1) && Item(0, 2) in Core(2) && Item(3, 1) in Core(3);
    assert Item(1, 2) in Core(4) && Item(1, 3) in Core(5) && Item(2, 1) in Core(6);
  }

  lemma IsLr0()
    ensures Lr0(G, Cores())
  {
    Charted();
    ChartIsLr0(G, Cores(), Next);
  }

  // ----- the numbers that FindStates gives -----

  /** The sorted items of a state. */
  function ListOf(q: nat): seq<Item> {
    if q == 0 then [Item(0, 0), Item(1, 0), Item(2, 0), Item(3, 0)]
    else if q == 1 then [Item(0, 1)]
    else if q == 2 then [Item(0, 2)]
    else if q == 3 then [Item(1, 1), Item(3, 1)]
    else if q == 4 then [Item(1, 2)]
    else if q == 5 then [Item(1, 3)]
    else [Item(2, 1)]
  }

  function SymbolsOf(q: nat): seq<nat> {
    if q == 0 then [7, 2, 4] else if q == 1 || q == 4 then [1] else if q == 3 then [3] else []
  }

  lemma Listed(q: nat)
    requires q < 7
    ensures Listing(Closure(G, Cores()[q]), ListOf(q))
  {
    FullIs(q);
    hide Closure;
    assert Elems(ListOf(q)) == Full(q);
  }

  lemma SymbolsAre(q: nat)
    requires q < 7
    ensures NextInOrder(G, ListOf(q)) == SymbolsOf(q)
  {
    hide NextInOrder;
    var list := ListOf(q);
    assert list[..0] == [];
    NextNone(G);
    NextMore(G, list, 0);
    if q == 0 {
      NextMore(G, list, 1);
      NextMore(G, list, 2);
      NextMore(G, list, 3);
      assert list[..4] == list;
    } else if q == 3 {
      NextMore(G, list, 1);
      assert list[..2] == list;
    } else {
      assert list[..1] == list;
    }
  }

  lemma Follow(cores: seq<set<Item>>, q: nat, n: nat, n': nat)
    requires Known(cores, Cores(), n) && q < n && Visited(G, cores, q, n, n')
    ensures Explored(G, cores, q, SymbolsOf(q), n, n')
  {
    hide Explored, Visited, NextInOrder, ListOf, Listing, SymbolsOf;
    Listed(q);
    SymbolsAre(q);
    FromList(G, cores, Cores(), q, ListOf(q), n, n');
  }

  lemma Meet(cores: seq<set<Item>>, q: nat, x: nat, n: nat, n': nat)
    requires Known(cores, Cores(), n) && q < n < 7 && StepTo(G, cores, q, x, n, n') && Next(q, x) == n
    ensures Known(cores, Cores(), n + 1) && Explored(G, cores, n, SymbolsOf(n), n + 1, n')
  {
    hide StepTo, Visited, Explored, SymbolsOf, Lr0, Closure, Goto, States.NextSymbols;
    IsLr0();
    Charted();
    assert ChartAt(G, Cores(), Next, q, x);
    NewState(G, cores, Cores(), q, x, n, n');
    Follow(cores, n, n + 1, n');
  }

  lemma NumbersFound(cores: seq<set<Item>>)
    requires DepthFirst(G, cores) && Lr0(G, cores)
    ensures cores == Cores()
  {
    assert Known(cores, Cores(), 1) by { StartIs(); }
    hide StepTo, Explored, Visited, Lr0, Cores, Known;
    Follow(cores, 0, 1, |cores|);
    assert [7, 2, 4] == [7, 2] + [4] && [7, 2] == [7] + [2];
    var m2 := LastSymbol(G, cores, 0, [7, 2], 4, 1, |cores|);
    var m1 := LastSymbol(G, cores, 0, [7], 2, 1, m2);
    ByA(cores, m1);
    ByX(cores, m2);
    ByC(cores);
    AllKnown(cores);
  }

  lemma AllKnown(cores: seq<set<Item>>)
    requires Known(cores, Cores(), 7) && |cores| == 7
    ensures cores == Cores()
  {
    assert cores == cores[..7] && Cores() == Cores()[..7];
  }

  lemma ByA(cores: seq<set<Item>>, m: nat)
    requires |cores| > 0 && Known(cores, Cores(), 1) && Explored(G, cores, 0, [7], 1, m)
    ensures m == 3 && Known(cores, Cores(), 3)
  {
    hide StepTo, Explored, Cores;
    OneSymbol(G, cores, 0, 7, 1, m);
    Meet(cores, 0, 7, 1, m);
    OneSymbol(G, cores, 1, 1, 2, m);
    Meet(cores, 1, 1, 2, m);
    NoSymbol(G, cores, 2, 3, m);
  }

  lemma ByX(cores: seq<set<Item>>, m: nat)
    requires |cores| > 0 && Known(cores, Cores(), 3) && StepTo(G, cores, 0, 2, 3, m)
    ensures m == 6 && Known(cores, Cores(), 6)
  {
    hide StepTo, Explored, Cores;
    Meet(cores, 0, 2, 3, m);
    OneSymbol(G, cores, 3, 3, 4, m);
    Meet(cores, 3, 3, 4, m);
    OneSymbol(G, cores, 4, 1, 5, m);
    Meet(cores, 4, 1, 5, m);
    NoSymbol(G, cores, 5, 6, m);
  }

  lemma ByC(cores: seq<set<Item>>)
    requires |cores| > 0 && Known(cores, Cores(), 6) && StepTo(G, cores, 0, 4, 6, |cores|)
    ensures |cores| == 7 && Known(cores, Cores(), 7)
  {
    hide StepTo, Explored, Cores;
    Meet(cores, 0, 4, 6, |cores|);
    NoSymbol(G, cores, 6, 7, |cores|);
  }

  // ----- lookaheads -----

  lemma MemberIs(n: Ref)
    ensures Member(G, Cores(), n) <==> n.state < 7 && n.item in Full(n.state)
  {
    hide Closure;
    if n.state < 7 { FullIs(n.state); }
  }

  /** The rule of A has the lookahead s, those of S have `$`. */
  function Sets(m: Ref): set<nat> {
    if m.item.rule == 3 then {1} else {0}
  }

  lemma Begun(i: Item, j: Item, t: nat)
    requires (exists q: nat :: q < 7 && i in Full(q)) && Spawns(G, i, j)
    ensures i == Item(0, 0) && j == Item(3, 0) && (Begins(G, Suffix(G, i), t) <==> t == 1) && !Nullable(G, Suffix(G, i))
  {
    ValidG();
    OneTerminal(G, 1);
    assert Suffix(G, Item(0, 0)) == [1];
    hide Begins, Nullable;
  }

  lemma AllHeld()
    ensures Holds(G, Cores(), Sets)
  {
    hide Closure, Begins, Nullable, StartKernel, Edge;
    StartIs();
    forall n, t | SeedOf(G, Cores(), n, t) ensures t in Sets(n) {
      MemberIs(n);
      FullIs(n.state);
      if i :| i in Full(n.state) && States.Contributes(G, i, n.item, t) { Begun(i, n.item, t); }
    }
    forall n, m | Flow(G, Cores(), n, m) ensures Sets(n) <= Sets(m) {
      MemberIs(n);
      MemberIs(m);
      if States.Passes(G, n.item, m.item) { Begun(n.item, m.item, 0); }
    }
  }

  // ----- the actions -----

  lemma ReductionIs(q: nat, r: nat, t: nat)
    requires q < 7 && r < 4
    ensures A.IsReduction(G, Cores(), q, r, t) <==> A.EndItem(G, r) in Full(q) && t == if r == 3 then 1 else 0
  {
    hide Full, Lookahead, Member;
    var m := Ref(q, A.EndItem(G, r));
    MemberIs(m);
    if A.IsReduction(G, Cores(), q, r, t) {
      AllHeld();
      HoldAll(G, Cores(), Sets, m, t);
    }
    if A.EndItem(G, r) in Full(q) {
      EndsIn(q, r);
      Arrives(q, r);
    }
  }

  lemma EndsIn(q: nat, r: nat)
    requires q < 7 && r < 4 && A.EndItem(G, r) in Full(q)
    ensures q == if r == 0 then 2 else if r == 1 then 5 else if r == 2 then 6 else 3
  {
  }

  /** The lookahead of the rule arrives at its end. */
  lemma Arrives(q: nat, r: nat)
    requires r < 4 && q == if r == 0 then 2 else if r == 1 then 5 else if r == 2 then 6 else 3
    ensures Lookahead(G, Cores(), Ref(q, A.EndItem(G, r)), if r == 3 then 1 else 0)
  {
    hide Lookahead, Member, Cores;
    AtStart(r);
    if r == 0 {
      Onward(0, Item(0, 0), 7, 0);
      Onward(1, Item(0, 1), 1, 0);
    } else if r == 1 {
      Onward(0, Item(1, 0), 2, 0);
      Onward(3, Item(1, 1), 3, 0);
      Onward(4, Item(1, 2), 1, 0);
    } else if r == 2 {
      Onward(0, Item(2, 0), 4, 0);
    } else {
      Onward(0, Item(3, 0), 2, 1);
    }
  }

  lemma AtStart(r: nat)
    requires r < 4
    ensures Lookahead(G, Cores(), Ref(0, Item(r, 0)), if r == 3 then 1 else 0)
  {
    hide Lookahead, Closure, Begins, Nullable;
    MemberIs(Ref(0, Item(r, 0)));
    MemberIs(Ref(0, Item(0, 0)));
    StartIs();
    if r == 3 {
      Begun(Item(0, 0), Item(3, 0), 1);
      assert States.Contributes(G, Item(0, 0), Item(3, 0), 1);
    }
    LookaheadSeed(G, Cores(), Ref(0, Item(r, 0)), if r == 3 then 1 else 0);
  }

  lemma Onward(p: nat, i: Item, x: nat, t: nat)
    requires p < 7 && i in Full(p) && Before(G, i, x) && Next(p, x) >= 0 && Advance(i) in Full(Next(p, x))
    requires Lookahead(G, Cores(), Ref(p, i), t)
    ensures Lookahead(G, Cores(), Ref(Next(p, x), Advance(i)), t)
  {
    hide Lookahead, Member, Full, Closure;
    MemberIs(Ref(p, i));
    MemberIs(Ref(Next(p, x), Advance(i)));
    Charted();
    assert ChartAt(G, Cores(), Next, p, x);
    OverShift(G, Cores(), p, i, x, Next(p, x), t);
  }

  /** The one action of a state on a symbol. */
  function RawAt(q: nat, x: nat): Option<Action> {
    if Next(q, x) >= 0 then Some(Action(x, Shift, Next(q, x)))
    else if q == 0 && x == 6 then Some(Action(6, Accept, 0))
    else if q == 2 && x == 0 then Some(Action(0, Reduce, 0))
    else if q == 3 && x == 1 then Some(Action(1, Reduce, 3))
    else if q == 5 && x == 0 then Some(Action(0, Reduce, 1))
    else if q == 6 && x == 0 then Some(Action(0, Reduce, 2))
    else None
  }

  lemma RawIs(q: nat, a: Action)
    requires q < 7
    ensures A.IsRaw(G, Cores(), q, a) <==> RawAt(q, a.sp) == Some(a)
  {
    hide A.IsReduction, Closure, States.NextSymbols, Edge, Cores;
    if a.kind == Shift {
      Charted();
      ChartShifts(G, Cores(), Next, q, a);
    } else if a.kind == Reduce && a.target < 4 {
      ReductionIs(q, a.target, a.sp);
      EndHere(q, a.target);
    } else if a.kind == Reduce {
      assert !A.IsReduction(G, Cores(), q, a.target, a.sp) by { OutOfRange(q, a.target, a.sp); }
    }
  }

  lemma OutOfRange(q: nat, r: nat, t: nat)
    requires r >= 4
    ensures !A.IsReduction(G, Cores(), q, r, t)
  {
  }

  lemma EndHere(q: nat, r: nat)
    requires q < 7 && r < 4
    ensures A.EndItem(G, r) in Full(q) <==> q == if r == 0 then 2 else if r == 1 then 5 else if r == 2 then 6 else 3
  {
  }

  // ----- the two tables -----

  lemma CellIs(ss: seq<State>, q: nat, x: nat)
    requires Z.AllActed(G, Cores(), ss) && q < 7 && x < 8
    ensures Lookup(Z.Table(G, ss), q, x) == Z.CellOf(RawAt(q, x))
  {
    hide Z.AllActed, A.IsRaw, Lr0, Lookup, RawAt, Cores, Z.Table;
    SizeIs(ss);
    ValidG();
    IsLr0();
    forall b | A.IsRaw(G, Cores(), q, b) ensures RawAt(q, b.sp) == Some(b) {
      RawIs(q, b);
    }
    if RawAt(q, x).Some? {
      AtSymbol(q, x);
      RawIs(q, RawAt(q, x).value);
      OnlyAction(G, Cores(), ss, q, RawAt(q, x).value);
    } else {
      NoAction(G, Cores(), ss, q, x);
    }
  }

  lemma SizeIs(ss: seq<State>)
    requires Z.AllActed(G, Cores(), ss)
    ensures |ss| == 7
  {
  }

  lemma AtSymbol(q: nat, x: nat)
    requires RawAt(q, x).Some?
    ensures RawAt(q, x).value.sp == x
  {
  }

  /** After compression the state after x reduces `A ::= x` by default, and nothing else has changed. */
  lemma CompressedCell(ss: seq<State>, ss': seq<State>, q: nat, x: nat)
    requires Z.AllActed(G, Cores(), ss) && Z.AllCompressed(G, ss, ss') && q < 7 && x < 5
    ensures Lookup(Z.Table(G, ss'), q, x) == if q == 3 && x != 3 then ReduceBy(3) else Z.CellOf(RawAt(q, x))
  {
    hide Z.AllActed, Z.AllCompressed, A.IsRaw, Lr0, Lookup, Cores, Z.Table;
    SizeIs(ss);
    ValidG();
    IsLr0();
    forall b | A.IsRaw(G, Cores(), q, b)
      ensures RawAt(q, b.sp) == Some(b) && (b.kind == Reduce && q != 3 ==> Z.IsStartRule(G, b.target))
      ensures b.kind == Reduce && q == 3 ==> b.target == 3
    {
      RawIs(q, b);
    }
    if RawAt(q, x).Some? {
      RawIs(q, RawAt(q, x).value);
      ActionStays(G, Cores(), ss, ss', q, RawAt(q, x).value);
    } else if q == 3 {
      AtX(ss);
      DefaultIs(G, Cores(), ss, ss', 3, Action(1, Reduce, 3), x);
    } else {
      ErrorStays(G, Cores(), ss, ss', q, x);
    }
  }

  lemma AtX(ss: seq<State>)
    requires Z.AllActed(G, Cores(), ss)
    ensures |ss| == 7 && Action(1, Reduce, 3) in ss[3].ap
  {
    hide A.Acted, A.IsRaw, Cores;
    RawIs(3, Action(1, Reduce, 3));
    assert A.Acted(G, Cores(), 3, ss[3].ap);
    A.ActedLive(G, Cores(), 3, ss[3].ap);
    var b :| b in ss[3].ap && A.Live(b) && b.sp == 1;
    RawIs(3, b);
  }

  // ----- the two runs -----

  lemma Gotos(ss: seq<State>, ss': seq<State>)
    requires Z.AllActed(G, Cores(), ss) && Z.AllCompressed(G, ss, ss')
    ensures Lookup(Z.Table(G, ss), 0, 6) == AcceptCell == Lookup(Z.Table(G, ss'), 0, 6)
    ensures Lookup(Z.Table(G, ss'), 0, 7) == ShiftTo(1)
  {
    hide Z.AllActed, Z.AllCompressed, Lookup, Cores, Z.Table;
    ValidG();
    IsLr0();
    CellIs(ss, 0, 6);
    CellIs(ss, 0, 7);
    Z.CompressedAgrees(G, Cores(), ss, ss');
  }

  lemma Discarded(t: seq<seq<Cell>>)
    requires Lookup(t, 0, 2) == ShiftTo(3) && Lookup(t, 3, 4) == ErrorCell && Lookup(t, 3, 3) == ShiftTo(4)
    requires Lookup(t, 4, 1) == ShiftTo(5) && Lookup(t, 5, 0) == ReduceBy(1) && Lookup(t, 0, 6) == AcceptCell
    ensures Steps(G, t, 10, Conf(Start(), [2, 4, 3, 1, 0]), 5).m.log
         == [Shifted(2), Rejected(4), Shifted(3), Shifted(1), Reduced(1), Accepted]
  {
    hide Lookup;
    var c0 := Conf(Start(), [2, 4, 3, 1, 0]);
    var c1 := Conf(Parse([Entry(0, 0), Entry(3, 2)], -2, [Shifted(2)]), [4, 3, 1, 0]);
    var c2 := Conf(Parse([Entry(0, 0), Entry(3, 2)], 3, [Shifted(2), Rejected(4)]), [3, 1, 0]);
    assert StepConf(G, t, 10, c0) == c1 && StepConf(G, t, 10, c1) == c2 && StepConf(G, t, 10, c2) == AfterShift();
    hide StepConf;
    DiscardedOn(t);
    assert Steps(G, t, 10, c2, 3) == Steps(G, t, 10, AfterShift(), 2);
    assert Steps(G, t, 10, c1, 4) == Steps(G, t, 10, c2, 3);
  }

  function AfterShift(): Conf {
    Conf(Parse([Entry(0, 0), Entry(3, 2), Entry(4, 3)], 2, [Shifted(2), Rejected(4), Shifted(3)]), [1, 0])
  }

  lemma DiscardedOn(t: seq<seq<Cell>>)
    requires Lookup(t, 4, 1) == ShiftTo(5) && Lookup(t, 5, 0) == ReduceBy(1) && Lookup(t, 0, 6) == AcceptCell
    ensures Steps(G, t, 10, AfterShift(), 2).m.log
         == [Shifted(2), Rejected(4), Shifted(3), Shifted(1), Reduced(1), Accepted]
  {
    hide Lookup;
    var c3 := AfterShift();
    var c4 := Conf(Parse([Entry(0, 0), Entry(3, 2), Entry(4, 3), Entry(5, 1)], 1,
                         [Shifted(2), Rejected(4), Shifted(3), Shifted(1)]), [0]);
    var c5 := Conf(Parse([], 1, [Shifted(2), Rejected(4), Shifted(3), Shifted(1), Reduced(1), Accepted]), [0]);
    assert StepConf(G, t, 10, c3) == c4 && StepConf(G, t, 10, c4) == c5;
    hide StepConf;
    assert Steps(G, t, 10, c5, 0) == c5 && Steps(G, t, 10, c4, 1) == c5;
  }

  lemma Defaulted(t: seq<seq<Cell>>)
    requires Lookup(t, 0, 2) == ShiftTo(3) && Lookup(t, 3, 4) == ReduceBy(3) && Lookup(t, 0, 7) == ShiftTo(1)
    requires Lookup(t, 1, 4) == ErrorCell && Lookup(t, 1, 3) == ErrorCell && Lookup(t, 1, 1) == ShiftTo(2)
    requires Lookup(t, 2, 0) == ReduceBy(0) && Lookup(t, 0, 6) == AcceptCell
    ensures Steps(G, t, 10, Conf(Start(), [2, 4, 3, 1, 0]), 6).m.log
         == [Shifted(2), Reduced(3), Rejected(4), Rejected(3), Shifted(1), Reduced(0), Accepted]
  {
    hide Lookup;
    var c0 := Conf(Start(), [2, 4, 3, 1, 0]);
    var c1 := Conf(Parse([Entry(0, 0), Entry(3, 2)], -2, [Shifted(2)]), [4, 3, 1, 0]);
    var c2 := Conf(Parse([Entry(0, 0), Entry(1, 7)], -2, [Shifted(2), Reduced(3)]), [4, 3, 1, 0]);
    assert StepConf(G, t, 10, c0) == c1 && StepConf(G, t, 10, c1) == c2 && StepConf(G, t, 10, c2) == AfterRejection();
    hide StepConf;
    DefaultedOn(t);
    assert Steps(G, t, 10, c2, 4) == Steps(G, t, 10, AfterRejection(), 3);
    assert Steps(G, t, 10, c1, 5) == Steps(G, t, 10, c2, 4);
  }

  function AfterRejection(): Conf {
    Conf(Parse([Entry(0, 0), Entry(1, 7)], 3, [Shifted(2), Reduced(3), Rejected(4)]), [3, 1, 0])
  }

  lemma DefaultedOn(t: seq<seq<Cell>>)
    requires Lookup(t, 1, 3) == ErrorCell && Lookup(t, 1, 1) == ShiftTo(2) && Lookup(t, 2, 0) == ReduceBy(0)
             && Lookup(t, 0, 6) == AcceptCell
    ensures Steps(G, t, 10, AfterRejection(), 3).m.log
         == [Shifted(2), Reduced(3), Rejected(4), Rejected(3), Shifted(1), Reduced(0), Accepted]
  {
    hide Lookup;
    var c3 := AfterRejection();
    var c4 := Conf(Parse([Entry(0, 0), Entry(1, 7)], 3, [Shifted(2), Reduced(3), Rejected(4), Rejected(3)]), [1, 0]);
    var c5 := Conf(Parse([Entry(0, 0), Entry(1, 7), Entry(2, 1)], 2,
                         [Shifted(2), Reduced(3), Rejected(4), Rejected(3), Shifted(1)]), [0]);
    var c6 := Conf(Parse([], 2, [Shifted(2), Reduced(3), Rejected(4), Rejected(3), Shifted(1), Reduced(0), Accepted]),
                   [0]);
    assert StepConf(G, t, 10, c3) == c4 && StepConf(G, t, 10, c4) == c5 && StepConf(G, t, 10, c5) == c6;
    hide StepConf;
    assert Steps(G, t, 10, c6, 0) == c6 && Steps(G, t, 10, c5, 1) == c6 && Steps(G, t, 10, c4, 2) == c6;
  }

  /** On the input `x c b s` the parser recovers from the wrong c in different ways: on the table of FindActions it goes
      on to accept `x b s`, on the compressed one `A s`, for which it throws away b as well. */
  lemma RejectedDiffers(cores: seq<set<Item>>, ss: seq<State>, ss': seq<State>)
    requires Lr0(G, cores) && DepthFirst(G, cores) && Z.AllActed(G, cores, ss) && Z.AllCompressed(G, ss, ss')
    ensures Steps(G, Z.Table(G, ss), 10, Conf(Start(), [2, 4, 3, 1, 0]), 5).m.log
         == [Shifted(2), Rejected(4), Shifted(3), Shifted(1), Reduced(1), Accepted]
    ensures Steps(G, Z.Table(G, ss'), 10, Conf(Start(), [2, 4, 3, 1, 0]), 6).m.log
         == [Shifted(2), Reduced(3), Rejected(4), Rejected(3), Shifted(1), Reduced(0), Accepted]
  {
    hide Z.AllActed, Z.AllCompressed, Lookup, Cores, Z.Table, Steps, DepthFirst, Lr0;
    NumbersFound(cores);
    Gotos(ss, ss');
    CellIs(ss, 0, 2);
    CellIs(ss, 3, 4);
    CellIs(ss, 3, 3);
    CellIs(ss, 4, 1);
    CellIs(ss, 5, 0);
    Discarded(Z.Table(G, ss));
    CompressedCell(ss, ss', 0, 2);
    CompressedCell(ss, ss', 3, 4);
    CompressedCell(ss, ss', 1, 4);
    CompressedCell(ss, ss', 1, 3);
    CompressedCell(ss, ss', 1, 1);
    CompressedCell(ss, ss', 2, 0);
    Defaulted(Z.Table(G, ss'));
  }
}
