/** A binary operator that associates to the left, or to the right: which operands the generated parser takes
    together. */
module Associativity {
  import opened Grammars
  import opened Items
  import opened Structs
  import opened L = Lookaheads
  import opened M = Machine
  import opened I = Instances
  import opened N = Numbering
  import A = Actions
  import O = Operators
  import States
  import Z = Compress

  /** The grammar `S ::= E`, `E ::= E OP E`, `E ::= NUM`, where OP has a precedence and associates as said: OP and NUM
      have the numbers 1 and 2, `error` has number 3, S is 4 and E is 5. */
  function G(a: Assoc): Grammar {
    Grammar(3, 6, [Rule(4, [5], None), Rule(5, [5, 1, 5], Some(1)), Rule(5, [2], None)], 4,
            [-1, 1, -1, -1, -1, -1], [Unknown, a, Unknown, Unknown, Unknown, Unknown])
  }

  // ----- the automaton -----

  /** The states: the first, and those after E, `E OP`, `E OP E` and NUM. */
  function Core(q: nat): set<Item> {
    if q == 0 then {Item(0, 0)} else if q == 1 then {Item(0, 1), Item(1, 1)} else if q == 2 then {Item(1, 2)}
    else if q == 3 then {Item(1, 1), Item(1, 3)}
    else {Item(2, 1)}
  }

  function Cores(): (cores: seq<set<Item>>)
    ensures |cores| == 5
  {
    seq(5, q requires 0 <= q < 5 => Core(q))
  }

  function Next(q: nat, x: nat): int {
    if q == 0 then if x == 5 then 1 else if x == 2 then 4 else -1
    else if q == 2 then if x == 5 then 3 else if x == 2 then 4 else -1
    else if (q == 1 || q == 3) && x == 1 then 2
    else -1
  }

  function Full(q: nat): set<Item> {
    if q == 0 || q == 2 then Core(q) + {Item(1, 0), Item(2, 0)} else Core(q)
  }

  lemma ValidG(a: Assoc)
    requires a != Unknown
    ensures Valid(G(a))
  {
  }

  lemma FullIs(a: Assoc, q: nat)
    requires q < 5
    ensures Core(q) <= AllItems(G(a)) && Closure(G(a), Core(q)) == Full(q)
  {
    if q == 0 || q == 2 { FullOpen(a, q); } else { FullRead(a, q); }
  }

  lemma FullOpen(a: Assoc, q: nat)
    requires q == 0 || q == 2
    ensures Core(q) <= AllItems(G(a)) && Closure(G(a), Core(q)) == Full(q)
  {
    var i := if q == 0 then Item(0, 0) else Item(1, 2);
    assert i in Core(q) && Spawns(G(a), i, Item(1, 0)) && Spawns(G(a), i, Item(2, 0));
    ClosureIs(G(a), Core(q), Full(q));
  }

  lemma FullRead(a: Assoc, q: nat)
    requires q == 1 || q == 3 || q == 4
    ensures Core(q) <= AllItems(G(a)) && Closure(G(a), Core(q)) == Full(q)
  {
    ClosureIs(G(a), Core(q), Full(q));
  }

  lemma StartIs(a: Assoc)
    ensures StartKernel(G(a)) == Core(0)
  {
  }

  lemma GotoIs(a: Assoc, q: nat, x: nat)
    requires q < 5
    ensures x in States.NextSymbols(G(a), Full(q)) <==> Next(q, x) >= 0
    ensures Next(q, x) >= 0 ==> Goto(G(a), Full(q), x) == Core(Next(q, x))
  {
    if q == 0 || q == 2 { GotoOpen(a, q, x); } else { GotoRead(a, q, x); }
  }

  lemma GotoOpen(a: Assoc, q: nat, x: nat)
    requires q == 0 || q == 2
    ensures x in States.NextSymbols(G(a), Full(q)) <==> Next(q, x) >= 0
    ensures Next(q, x) >= 0 ==> Goto(G(a), Full(q), x) == Core(Next(q, x))
  {
    assert Item(1, 0) in Full(q) && Item(2, 0) in Full(q) && (q == 0 ==> Item(0, 0) in Full(q));
    assert q == 2 ==> Item(1, 2) in Full(q);
  }

  lemma GotoRead(a: Assoc, q: nat, x: nat)
    requires q == 1 || q == 3 || q == 4
    ensures x in States.NextSymbols(G(a), Full(q)) <==> Next(q, x) >= 0
    ensures Next(q, x) >= 0 ==> Goto(G(a), Full(q), x) == Core(Next(q, x))
  {
    assert q != 4 ==> Item(1, 1) in Full(q);
  }

  lemma Charted(a: Assoc)
    ensures Chart(G(a), Cores(), Next)
  {
    hide Closure, Goto, States.NextSymbols, StartKernel, AllItems;
    StartIs(a);
    forall q: nat | q < 5 ensures Cores()[q] <= AllItems(G(a)) {
      FullIs(a, q);
    }
    forall q: nat, x: nat | q < 5 ensures ChartAt(G(a), Cores(), Next, q, x) {
      FullIs(a, q);
      GotoIs(a, q, x);
    }
    assert Next(0, 5) == 1 && Next(1, 1) == 2 && Next(2, 5) == 3 && Next(0, 2) == 4;
    assert Item(0, 0) in Core(0) && Item(0, 1) in Core(1) && Item(1, 2) in Core(2) && Item(1, 3) in Core(3);
    assert Item(2, 1) in Core(4);
  }

  lemma IsLr0(a: Assoc)
    ensures Lr0(G(a), Cores())
  {
    Charted(a);
    ChartIsLr0(G(a), Cores(), Next);
  }

  // ----- the numbers that FindStates gives -----

  /** The sorted items of a state. */
  function ListOf(q: nat): seq<Item> {
    if q == 0 then [Item(0, 0), Item(1, 0), Item(2, 0)] else if q == 1 then [Item(0, 1), Item(1, 1)]
    else if q == 2 then [Item(1, 0), Item(1, 2), Item(2, 0)]
    else if q == 3 then [Item(1, 1), Item(1, 3)]
    else [Item(2, 1)]
  }

  function SymbolsOf(q: nat): seq<nat> {
    if q == 0 || q == 2 then [5, 2] else if q == 1 || q == 3 then [1] else []
  }

  lemma Listed(a: Assoc, q: nat)
    requires q < 5
    ensures Listing(Closure(G(a), Cores()[q]), ListOf(q))
  {
    FullIs(a, q);
    hide Closure;
    assert Elems(ListOf(q)) == Full(q);
  }

  lemma SymbolsAre(a: Assoc, q: nat)
    requires q < 5
    ensures NextInOrder(G(a), ListOf(q)) == SymbolsOf(q)
  {
    hide NextInOrder;
    var list := ListOf(q);
    assert list[..0] == [];
    NextNone(G(a));
    NextMore(G(a), list, 0);
    if |list| > 1 { NextMore(G(a), list, 1); }
    if |list| > 2 { NextMore(G(a), list, 2); }
    assert list[..|list|] == list;
  }

  lemma Follow(a: Assoc, cores: seq<set<Item>>, q: nat, n: nat, n': nat)
    requires Known(cores, Cores(), n) && q < n && Visited(G(a), cores, q, n, n')
    ensures Explored(G(a), cores, q, SymbolsOf(q), n, n')
  {
    hide Explored, Visited, NextInOrder, ListOf, Listing, SymbolsOf;
    Listed(a, q);
    SymbolsAre(a, q);
    FromList(G(a), cores, Cores(), q, ListOf(q), n, n');
  }

  lemma Meet(a: Assoc, cores: seq<set<Item>>, q: nat, x: nat, n: nat, n': nat)
    requires Known(cores, Cores(), n) && q < n < 5 && StepTo(G(a), cores, q, x, n, n') && Next(q, x) == n
    ensures Known(cores, Cores(), n + 1) && Explored(G(a), cores, n, SymbolsOf(n), n + 1, n')
  {
    hide StepTo, Visited, Explored, SymbolsOf, Lr0, Closure, Goto, States.NextSymbols;
    IsLr0(a);
    Charted(a);
    assert ChartAt(G(a), Cores(), Next, q, x);
    NewState(G(a), cores, Cores(), q, x, n, n');
    Follow(a, cores, n, n + 1, n');
  }

  lemma MeetAgain(a: Assoc, cores: seq<set<Item>>, q: nat, x: nat, n: nat, n': nat)
    requires Lr0(G(a), cores) && Known(cores, Cores(), n) && q < n <= 5 && StepTo(G(a), cores, q, x, n, n')
    requires 0 <= Next(q, x) < n
    ensures n' == n
  {
    hide StepTo, Lr0, Closure, Goto, States.NextSymbols;
    Charted(a);
    assert ChartAt(G(a), Cores(), Next, q, x);
    OldState(G(a), cores, Cores(), q, x, Next(q, x), n, n');
  }

  lemma NumbersFound(a: Assoc, cores: seq<set<Item>>)
    requires DepthFirst(G(a), cores) && Lr0(G(a), cores)
    ensures cores == Cores()
  {
    var g := G(a);
    assert Known(cores, Cores(), 1) by { StartIs(a); }
    hide StepTo, Explored, Visited, Lr0, Cores, Known;
    Follow(a, cores, 0, 1, |cores|);
    assert [5, 2] == [5] + [2];
    var m := LastSymbol(g, cores, 0, [5], 2, 1, |cores|);
    OneSymbol(g, cores, 0, 5, 1, m);
    Meet(a, cores, 0, 5, 1, m);
    AfterE(a, cores, m);
    MeetAgain(a, cores, 0, 2, 5, |cores|);
    AllKnown(cores);
  }

  lemma AfterE(a: Assoc, cores: seq<set<Item>>, m: nat)
    requires |cores| > 1 && Lr0(G(a), cores) && Known(cores, Cores(), 2) && Explored(G(a), cores, 1, [1], 2, m)
    ensures m == 5 && Known(cores, Cores(), 5)
  {
    var g := G(a);
    hide StepTo, Explored, Cores, Lr0;
    OneSymbol(g, cores, 1, 1, 2, m);
    Meet(a, cores, 1, 1, 2, m);
    assert [5, 2] == [5] + [2];
    var k := LastSymbol(g, cores, 2, [5], 2, 3, m);
    OneSymbol(g, cores, 2, 5, 3, k);
    Meet(a, cores, 2, 5, 3, k);
    OneSymbol(g, cores, 3, 1, 4, k);
    MeetAgain(a, cores, 3, 1, 4, k);
    Meet(a, cores, 2, 2, 4, m);
    NoSymbol(g, cores, 4, 5, m);
  }

  lemma AllKnown(cores: seq<set<Item>>)
    requires Known(cores, Cores(), 5) && |cores| == 5
    ensures cores == Cores()
  {
    assert cores == cores[..5] && Cores() == Cores()[..5];
  }

  // ----- lookaheads -----

  lemma MemberIs(a: Assoc, n: Ref)
    ensures Member(G(a), Cores(), n) <==> n.state < 5 && n.item in Full(n.state)
  {
    hide Closure;
    if n.state < 5 { FullIs(a, n.state); }
  }

  /** The rules of E have the lookaheads OP and `$`, that of S has `$`. */
  function Sets(m: Ref): set<nat> {
    if m.item.rule == 0 then {0} else {0, 1}
  }

  lemma Begun(a: Assoc, i: Item, j: Item, t: nat)
    requires (exists q: nat :: q < 5 && i in Full(q)) && Spawns(G(a), i, j) && a != Unknown
    ensures j.rule != 0 && (i == Item(0, 0) || i == Item(1, 0) || i == Item(1, 2))
    ensures Begins(G(a), Suffix(G(a), i), t) <==> i == Item(1, 0) && t == 1
    ensures Nullable(G(a), Suffix(G(a), i)) <==> i != Item(1, 0)
  {
    ValidG(a);
    TerminalFirst(G(a), 1, [5]);
    NothingLeft(G(a));
    assert Suffix(G(a), Item(0, 0)) == [] && Suffix(G(a), Item(1, 2)) == [] && Suffix(G(a), Item(1, 0)) == [1] + [5];
    hide Begins, Nullable;
  }

  lemma AllHeld(a: Assoc)
    requires a != Unknown
    ensures Holds(G(a), Cores(), Sets)
  {
    hide Closure, Begins, Nullable, StartKernel, Edge;
    StartIs(a);
    forall n, t | SeedOf(G(a), Cores(), n, t) ensures t in Sets(n) {
      MemberIs(a, n);
      FullIs(a, n.state);
      if i :| i in Full(n.state) && States.Contributes(G(a), i, n.item, t) { Begun(a, i, n.item, t); }
    }
    forall n, m | Flow(G(a), Cores(), n, m) ensures Sets(n) <= Sets(m) {
      MemberIs(a, n);
      MemberIs(a, m);
      if States.Passes(G(a), n.item, m.item) { Begun(a, n.item, m.item, 0); }
    }
  }

  // ----- the actions -----

  /** Where rule `r` ends. */
  function EndOf(r: nat): nat {
    if r == 0 then 1 else if r == 1 then 3 else 4
  }

  lemma ReductionIs(a: Assoc, q: nat, r: nat, t: nat)
    requires q < 5 && r < 3 && a != Unknown
    ensures A.IsReduction(G(a), Cores(), q, r, t) <==> q == EndOf(r) && (t == 0 || (t == 1 && r > 0))
  {
    hide Lookahead, Member;
    var m := Ref(q, A.EndItem(G(a), r));
    MemberIs(a, m);
    if A.IsReduction(G(a), Cores(), q, r, t) {
      AllHeld(a);
      HoldAll(G(a), Cores(), Sets, m, t);
    }
    if q == EndOf(r) && (t == 0 || (t == 1 && r > 0)) { Arrives(a, r, t); }
  }

  /** The lookaheads of the rule arrive at its end. */
  lemma Arrives(a: Assoc, r: nat, t: nat)
    requires r < 3 && (t == 0 || (t == 1 && r > 0)) && a != Unknown
    ensures Lookahead(G(a), Cores(), Ref(EndOf(r), A.EndItem(G(a), r)), t)
  {
    hide Lookahead, Member, Cores;
    AtStart(a, r, t);
    if r == 0 {
      Onward(a, 0, Item(0, 0), 5, t);
    } else if r == 1 {
      Onward(a, 0, Item(1, 0), 5, t);
      Onward(a, 1, Item(1, 1), 1, t);
      Onward(a, 2, Item(1, 2), 5, t);
    } else {
      Onward(a, 0, Item(2, 0), 2, t);
    }
  }

  lemma AtStart(a: Assoc, r: nat, t: nat)
    requires r < 3 && (t == 0 || (t == 1 && r > 0)) && a != Unknown
    ensures Lookahead(G(a), Cores(), Ref(0, Item(r, 0)), t)
  {
    hide Lookahead, Closure, Begins, Nullable;
    MemberIs(a, Ref(0, Item(r, 0)));
    MemberIs(a, Ref(0, Item(0, 0)));
    MemberIs(a, Ref(0, Item(1, 0)));
    StartIs(a);
    if r == 0 {
      LookaheadSeed(G(a), Cores(), Ref(0, Item(0, 0)), 0);
    } else if t == 1 {
      Begun(a, Item(1, 0), Item(r, 0), 1);
      assert States.Contributes(G(a), Item(1, 0), Item(r, 0), 1);
      LookaheadSeed(G(a), Cores(), Ref(0, Item(r, 0)), 1);
    } else {
      LookaheadSeed(G(a), Cores(), Ref(0, Item(0, 0)), 0);
      Begun(a, Item(0, 0), Item(r, 0), 0);
      LookaheadFlows(G(a), Cores(), Ref(0, Item(0, 0)), Ref(0, Item(r, 0)), 0);
    }
  }

  lemma Onward(a: Assoc, p: nat, i: Item, x: nat, t: nat)
    requires p < 5 && i in Full(p) && Before(G(a), i, x) && Next(p, x) >= 0 && Advance(i) in Full(Next(p, x))
    requires Lookahead(G(a), Cores(), Ref(p, i), t)
    ensures Lookahead(G(a), Cores(), Ref(Next(p, x), Advance(i)), t)
  {
    hide Lookahead, Member, Full, Closure;
    MemberIs(a, Ref(p, i));
    MemberIs(a, Ref(Next(p, x), Advance(i)));
    Charted(a);
    assert ChartAt(G(a), Cores(), Next, p, x);
    OverShift(G(a), Cores(), p, i, x, Next(p, x), t);
  }

  /** The actions that the states could take. */
  lemma RawIs(a: Assoc, q: nat, c: Action)
    requires q < 5 && a != Unknown
    ensures A.IsRaw(G(a), Cores(), q, c) <==>
              match c.kind
              case Shift => Next(q, c.sp) == c.target
              case Reduce => c.target < 3 && q == EndOf(c.target) && (c.sp == 0 || (c.sp == 1 && c.target > 0))
              case _ => q == 0 && c == Action(4, Accept, 0)
  {
    hide A.IsReduction, Closure, States.NextSymbols, Edge, Cores, Next, EndOf;
    if c.kind == Shift {
      Charted(a);
      ChartShifts(G(a), Cores(), Next, q, c);
    } else if c.kind == Reduce {
      if c.target < 3 { ReductionIs(a, q, c.target, c.sp); } else { OutOfRange(a, q, c.target, c.sp); }
    }
  }

  lemma OutOfRange(a: Assoc, q: nat, r: nat, t: nat)
    requires r >= 3
    ensures !A.IsReduction(G(a), Cores(), q, r, t)
  {
  }

  // ----- the cells -----

  /** The cells that the runs meet; behind `E OP E` the operator is reduced or shifted as it associates. */
  ghost predicate CellsFor(a: Assoc, t: seq<seq<Cell>>) {
    && Lookup(t, 0, 2) == ShiftTo(4) && Lookup(t, 0, 5) == ShiftTo(1) && Lookup(t, 0, 4) == AcceptCell
    && Lookup(t, 1, 1) == ShiftTo(2) && Lookup(t, 1, 0) == ReduceBy(0)
    && Lookup(t, 2, 2) == ShiftTo(4) && Lookup(t, 2, 5) == ShiftTo(3)
    && Lookup(t, 3, 0) == ReduceBy(1) && Lookup(t, 4, 0) == ReduceBy(2) && Lookup(t, 4, 1) == ReduceBy(2)
    && Lookup(t, 3, 1) == if a == Left then ReduceBy(1) else ShiftTo(2)
  }

  lemma Alone(a: Assoc, ss: seq<State>, q: nat, c: Action)
    requires a != Unknown && Z.AllActed(G(a), Cores(), ss) && q < 5 && c.sp < 6 && !(q == 3 && c.sp == 1)
    requires A.IsRaw(G(a), Cores(), q, c)
    ensures |ss| == 5 && Lookup(Z.Table(G(a), ss), q, c.sp) == Z.CellOf(Some(c))
  {
    hide Z.AllActed, A.IsRaw, Lookup, Z.Table, Cores;
    SizeIs(a, ss);
    forall b | A.IsRaw(G(a), Cores(), q, b) && b.sp == c.sp ensures b == c {
      RawIs(a, q, b);
      RawIs(a, q, c);
    }
    OnlyAction(G(a), Cores(), ss, q, c);
  }

  lemma SizeIs(a: Assoc, ss: seq<State>)
    requires Z.AllActed(G(a), Cores(), ss)
    ensures |ss| == 5
  {
  }

  /** The conflict behind `E OP E`. */
  lemma ConflictCell(a: Assoc, ss: seq<State>)
    requires (a == Left || a == Right) && Z.AllActed(G(a), Cores(), ss)
    ensures Lookup(Z.Table(G(a), ss), 3, 1) == if a == Left then ReduceBy(1) else ShiftTo(2)
  {
    hide Z.AllActed, A.IsRaw, Lookup, Z.Table, Cores, Lr0;
    SizeIs(a, ss);
    ValidG(a);
    IsLr0(a);
    forall c
      ensures A.IsRaw(G(a), Cores(), 3, c) && c.sp == 1 <==> c == Action(1, Shift, 2) || c == Action(1, Reduce, 1)
    {
      RawIs(a, 3, c);
    }
    O.ShiftOrReduce(G(a), Cores(), ss, 3, 1, 2, 1);
  }

  lemma CellsAre(a: Assoc, ss: seq<State>)
    requires (a == Left || a == Right) && Z.AllActed(G(a), Cores(), ss)
    ensures CellsFor(a, Z.Table(G(a), ss))
  {
    hide Z.AllActed, A.IsRaw, Lookup, Z.Table, Cores;
    ConflictCell(a, ss);
    var shifts := [(0, 2, 4), (0, 5, 1), (1, 1, 2), (2, 2, 4), (2, 5, 3)];
    var reductions := [(1, 0, 0), (3, 0, 1), (4, 0, 2), (4, 1, 2)];
    forall k | 0 <= k < |shifts|
      ensures Lookup(Z.Table(G(a), ss), shifts[k].0, shifts[k].1) == ShiftTo(shifts[k].2)
    {
      var c := Action(shifts[k].1, Shift, shifts[k].2);
      RawIs(a, shifts[k].0, c);
      Alone(a, ss, shifts[k].0, c);
    }
    forall k | 0 <= k < |reductions|
      ensures Lookup(Z.Table(G(a), ss), reductions[k].0, reductions[k].1) == ReduceBy(reductions[k].2)
    {
      var c := Action(reductions[k].1, Reduce, reductions[k].2);
      RawIs(a, reductions[k].0, c);
      Alone(a, ss, reductions[k].0, c);
    }
    RawIs(a, 0, Action(4, Accept, 0));
    Alone(a, ss, 0, Action(4, Accept, 0));
    assert shifts[0] == (0, 2, 4) && shifts[1] == (0, 5, 1) && shifts[2] == (1, 1, 2) && shifts[3] == (2, 2, 4);
    assert shifts[4] == (2, 5, 3) && reductions[0] == (1, 0, 0) && reductions[1] == (3, 0, 1);
    assert reductions[2] == (4, 0, 2) && reductions[3] == (4, 1, 2);
  }

  /** Compression keeps them. */
  lemma CellsStay(a: Assoc, t: seq<seq<Cell>>, t': seq<seq<Cell>>)
    requires CellsFor(a, t) && Agrees(G(a), t, t')
    ensures CellsFor(a, t')
  {
    hide Lookup;
  }

  // ----- the runs -----

  /** What the driver does on `NUM OP NUM OP NUM` when OP associates to the left. */
  const LEFT_LOG: seq<Event> :=
    [Shifted(2), Reduced(2), Shifted(1), Shifted(2), Reduced(2), Reduced(1),
     Shifted(1), Shifted(2), Reduced(2), Reduced(1), Reduced(0), Accepted]

  /** The configurations of that run. */
  function LeftRun(k: nat): Conf {
    var log := LEFT_LOG;
    if k == 0 then Conf(Parse([Entry(0, 0)], -1, log[..0]), [2, 1, 2, 1, 2, 0])
    else if k == 1 then Conf(Parse([Entry(0, 0), Entry(4, 2)], -2, log[..1]), [1, 2, 1, 2, 0])
    else if k == 2 then Conf(Parse([Entry(0, 0), Entry(1, 5)], -2, log[..2]), [1, 2, 1, 2, 0])
    else if k == 3 then Conf(Parse([Entry(0, 0), Entry(1, 5), Entry(2, 1)], -3, log[..3]), [2, 1, 2, 0])
    else if k == 4 then Conf(Parse([Entry(0, 0), Entry(1, 5), Entry(2, 1), Entry(4, 2)], -4, log[..4]), [1, 2, 0])
    else if k == 5 then Conf(Parse([Entry(0, 0), Entry(1, 5), Entry(2, 1), Entry(3, 5)], -4, log[..5]), [1, 2, 0])
    else if k == 6 then Conf(Parse([Entry(0, 0), Entry(1, 5)], -4, log[..6]), [1, 2, 0])
    else if k == 7 then Conf(Parse([Entry(0, 0), Entry(1, 5), Entry(2, 1)], -5, log[..7]), [2, 0])
    else if k == 8 then Conf(Parse([Entry(0, 0), Entry(1, 5), Entry(2, 1), Entry(4, 2)], -6, log[..8]), [0])
    else if k == 9 then Conf(Parse([Entry(0, 0), Entry(1, 5), Entry(2, 1), Entry(3, 5)], -6, log[..9]), [0])
    else if k == 10 then Conf(Parse([Entry(0, 0), Entry(1, 5)], -6, log[..10]), [0])
    else Conf(Parse([], -6, log[..12]), [0])
  }

  lemma LeftBegins(t: seq<seq<Cell>>, k: nat)
    requires CellsFor(Left, t) && 0 <= k < 4
    ensures StepConf(G(Left), t, 10, LeftRun(k)) == LeftRun(k + 1)
  {
    hide Lookup;
  }

  lemma LeftGoesOn(t: seq<seq<Cell>>, k: nat)
    requires CellsFor(Left, t) && 4 <= k < 8
    ensures StepConf(G(Left), t, 10, LeftRun(k)) == LeftRun(k + 1)
  {
    hide Lookup;
  }

  lemma LeftEnds(t: seq<seq<Cell>>, k: nat)
    requires CellsFor(Left, t) && 8 <= k < 11
    ensures StepConf(G(Left), t, 10, LeftRun(k)) == LeftRun(k + 1)
  {
    hide Lookup;
  }

  lemma {:induction false} LeftRuns(t: seq<seq<Cell>>, n: nat)
    requires CellsFor(Left, t) && n <= 11
    ensures Steps(G(Left), t, 10, LeftRun(11 - n), n) == LeftRun(11)
    decreases n
  {
    hide CellsFor, LeftRun, StepConf;
    if n > 0 {
      var k := 11 - n;
      if k < 4 { LeftBegins(t, k); } else if k < 8 { LeftGoesOn(t, k); } else { LeftEnds(t, k); }
      LeftRuns(t, n - 1);
    }
  }

  /** What the driver does on `NUM OP NUM OP NUM` when OP associates to the right. */
  const RIGHT_LOG: seq<Event> :=
    [Shifted(2), Reduced(2), Shifted(1), Shifted(2), Reduced(2), Shifted(1),
     Shifted(2), Reduced(2), Reduced(1), Reduced(1), Reduced(0), Accepted]

  /** The configurations of that run. */
  function RightRun(k: nat): Conf {
    var log := RIGHT_LOG;
    if k == 0 then Conf(Parse([Entry(0, 0)], -1, log[..0]), [2, 1, 2, 1, 2, 0])
    else if k == 1 then Conf(Parse([Entry(0, 0), Entry(4, 2)], -2, log[..1]), [1, 2, 1, 2, 0])
    else if k == 2 then Conf(Parse([Entry(0, 0), Entry(1, 5)], -2, log[..2]), [1, 2, 1, 2, 0])
    else if k == 3 then Conf(Parse([Entry(0, 0), Entry(1, 5), Entry(2, 1)], -3, log[..3]), [2, 1, 2, 0])
    else if k == 4 then Conf(Parse([Entry(0, 0), Entry(1, 5), Entry(2, 1), Entry(4, 2)], -4, log[..4]), [1, 2, 0])
    else if k == 5 then Conf(Parse([Entry(0, 0), Entry(1, 5), Entry(2, 1), Entry(3, 5)], -4, log[..5]), [1, 2, 0])
    else if k == 6 then Conf(Parse([Entry(0, 0), Entry(1, 5), Entry(2, 1), Entry(3, 5), Entry(2, 1)], -5, log[..6]),
                             [2, 0])
    else if k == 7 then Conf(Parse([Entry(0, 0), Entry(1, 5), Entry(2, 1), Entry(3, 5), Entry(2, 1), Entry(4, 2)], -6,
                                   log[..7]), [0])
    else if k == 8 then Conf(Parse([Entry(0, 0), Entry(1, 5), Entry(2, 1), Entry(3, 5), Entry(2, 1), Entry(3, 5)], -6,
                                   log[..8]), [0])
    else if k == 9 then Conf(Parse([Entry(0, 0), Entry(1, 5), Entry(2, 1), Entry(3, 5)], -6, log[..9]), [0])
    else if k == 10 then Conf(Parse([Entry(0, 0), Entry(1, 5)], -6, log[..10]), [0])
    else Conf(Parse([], -6, log[..12]), [0])
  }

  lemma RightBegins(t: seq<seq<Cell>>, k: nat)
    requires CellsFor(Right, t) && 0 <= k < 4
    ensures StepConf(G(Right), t, 10, RightRun(k)) == RightRun(k + 1)
  {
    hide Lookup;
  }

  lemma RightGoesOn(t: seq<seq<Cell>>, k: nat)
    requires CellsFor(Right, t) && 4 <= k < 8
    ensures StepConf(G(Right), t, 10, RightRun(k)) == RightRun(k + 1)
  {
    hide Lookup;
  }

  lemma RightEnds(t: seq<seq<Cell>>, k: nat)
    requires CellsFor(Right, t) && 8 <= k < 11
    ensures StepConf(G(Right), t, 10, RightRun(k)) == RightRun(k + 1)
  {
    hide Lookup;
  }

  lemma {:induction false} RightRuns(t: seq<seq<Cell>>, n: nat)
    requires CellsFor(Right, t) && n <= 11
    ensures Steps(G(Right), t, 10, RightRun(11 - n), n) == RightRun(11)
    decreases n
  {
    hide CellsFor, RightRun, StepConf;
    if n > 0 {
      var k := 11 - n;
      if k < 4 { RightBegins(t, k); } else if k < 8 { RightGoesOn(t, k); } else { RightEnds(t, k); }
      RightRuns(t, n - 1);
    }
  }

  /** With an operator that associates to the left the first two operands are taken together before the second operator
      is shifted, as in `(NUM OP NUM) OP NUM`; with one that associates to the right both operators are shifted before
      anything is taken together, as in `NUM OP (NUM OP NUM)`. The compressed table is that of the passes. */
  lemma Associates(a: Assoc, cores: seq<set<Item>>, ss: seq<State>, ss': seq<State>)
    requires (a == Left || a == Right) && Lr0(G(a), cores) && DepthFirst(G(a), cores)
    requires Z.AllActed(G(a), cores, ss) && Z.AllCompressed(G(a), ss, ss')
    ensures Steps(G(a), Z.Table(G(a), ss'), 10, Conf(Start(), [2, 1, 2, 1, 2, 0]), 11).m.log
         == [Shifted(2), Reduced(2), Shifted(1), Shifted(2), Reduced(2)]
            + (if a == Left then [Reduced(1), Shifted(1), Shifted(2), Reduced(2), Reduced(1)]
               else [Shifted(1), Shifted(2), Reduced(2), Reduced(1), Reduced(1)])
            + [Reduced(0), Accepted]
  {
    hide Z.AllActed, Z.AllCompressed, Lookup, Cores, Z.Table, Steps, DepthFirst, Lr0, CellsFor;
    NumbersFound(a, cores);
    CellsAre(a, ss);
    ValidG(a);
    Z.CompressedAgrees(G(a), Cores(), ss, ss');
    CellsStay(a, Z.Table(G(a), ss), Z.Table(G(a), ss'));
    if a == Left { LeftRuns(Z.Table(G(a), ss'), 11); } else { RightRuns(Z.Table(G(a), ss'), 11); }
    BothBegin();
  }

  lemma BothBegin()
    ensures LeftRun(0) == Conf(Start(), [2, 1, 2, 1, 2, 0]) == RightRun(0)
    ensures LeftRun(11).m.log == [Shifted(2), Reduced(2), Shifted(1), Shifted(2), Reduced(2)]
                                 + [Reduced(1), Shifted(1), Shifted(2), Reduced(2), Reduced(1)] + [Reduced(0), Accepted]
    ensures RightRun(11).m.log == [Shifted(2), Reduced(2), Shifted(1), Shifted(2), Reduced(2)]
                                  + [Shifted(1), Shifted(2), Reduced(2), Reduced(1), Reduced(1)]
                                      + [Reduced(0), Accepted]
  {
  }
}
