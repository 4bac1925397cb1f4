/** Where precedence has settled a conflict a parser may reduce for ever: a grammar with a rule that derives its own
    left-hand side. */
module Cycling {
  import opened Grammars
  import opened Items
  import opened Structs
  import opened L = Lookaheads
  import opened M = Machine
  import opened I = Instances
  import opened N = Numbering
  import A = Actions
  import States
  import Z = Compress
  import End = Termination

  /** The grammar `S ::= A b`, `A ::= A`, `A ::= a`, with a binding tighter than b, and the rules of A as a: a and b
      have the numbers 1 and 2, `error` has number 3, S is 4 and A is 5. */
  const G: Grammar :=
    Grammar(3, 6, [Rule(4, [5, 2], Some(2)), Rule(5, [5], Some(1)), Rule(5, [1], Some(1))], 4,
            [-1, 2, 1, -1, -1, -1], [Unknown, Left, Left, Unknown, Unknown, Unknown])

  // ----- the automaton -----

  /** The states: the first, and those after A, `A b` and a. */
  function Core(q: nat): set<Item> {
    if q == 0 then {Item(0, 0)} else if q == 1 then {Item(0, 1), Item(1, 1)} else if q == 2 then {Item(0, 2)}
    else {Item(2, 1)}
  }

  function Cores(): (cores: seq<set<Item>>)
    ensures |cores| == 4
  {
    seq(4, q requires 0 <= q < 4 => Core(q))
  }

  function Next(q: nat, x: nat): int {
    if q == 0 then if x == 5 then 1 else if x == 1 then 3 else -1
    else if q == 1 && x == 2 then 2
    else -1
  }

  function Full(q: nat): set<Item> {
    if q == 0 then {Item(0, 0), Item(1, 0), Item(2, 0)} else Core(q)
  }

  lemma ValidG()
    ensures Valid(G)
  {
  }

  lemma FullIs(q: nat)
    requires q < 4
    ensures Core(q) <= AllItems(G) && Closure(G, Core(q)) == Full(q)
  {
    assert q == 0 ==> Spawns(G, Item(0, 0), Item(1, 0)) && Spawns(G, Item(0, 0), Item(2, 0));
    ClosureIs(G, Core(q), Full(q));
  }

  lemma StartIs()
    ensures StartKernel(G) == Core(0)
  {
  }

  lemma GotoIs(q: nat, x: nat)
    requires q < 4
    ensures x in States.NextSymbols(G, Full(q)) <==> Next(q, x) >= 0
    ensures Next(q, x) >= 0 ==> Goto(G, Full(q), x) == Core(Next(q, x))
  {
    if q == 0 && x == 5 { assert Item(0, 0) in Full(0) && Item(1, 0) in Full(0); }
    if q == 0 && x == 1 { assert Item(2, 0) in Full(0); }
  }

  lemma Charted()
    ensures Chart(G, Cores(), Next)
  {
    hide Closure, Goto, States.NextSymbols, StartKernel, AllItems;
    StartIs();
    forall q: nat | q < 4 ensures Cores()[q] <= AllItems(G) {
      FullIs(q);
    }
    forall q: nat, x: nat | q < 4 ensures ChartAt(G, Cores(), Next, q, x) {
      FullIs(q);
      GotoIs(q, x);
    }
    assert Next(0, 5) == 1 && Next(1, 2) == 2 && Next(0, 1) == 3;
    assert Item(0, 0) in Core(0) && Item(0, 1) in Core(1) && Item(0, 2) in Core(2) && Item(2, 1) in Core(3);
  }

  lemma IsLr0()
    ensures Lr0(G, Cores())
  {
    Charted();
    ChartIsLr0(G, Cores(), Next);
  }

  // ----- the numbers that FindStates gives -----

  /** The sorted items of a state. */
  function ListOf(q: nat): seq<Item> {
    if q == 0 then [Item(0, 0), Item(1, 0), Item(2, 0)] else if q == 1 then [Item(0, 1), Item(1, 1)]
    else if q == 2 then [Item(0, 2)]
    else [Item(2, 1)]
  }

  function SymbolsOf(q: nat): seq<nat> {
    if q == 0 then [5, 1] else if q == 1 then [2] else []
  }

  lemma Listed(q: nat)
    requires q < 4
    ensures Listing(Closure(G, Cores()[q]), ListOf(q))
  {
    FullIs(q);
    hide Closure;
    assert Elems(ListOf(q)) == Full(q);
  }

  lemma SymbolsAre(q: nat)
    requires q < 4
    ensures NextInOrder(G, ListOf(q)) == SymbolsOf(q)
  {
    hide NextInOrder;
    var list := ListOf(q);
    assert list[..0] == [];
    NextNone(G);
    NextMore(G, list, 0);
    if q == 0 {
      NextMore(G, list, 1);
      NextMore(G, list, 2);
      assert list[..3] == list;
    } else if q == 1 {
      NextMore(G, list, 1);
      assert list[..2] == list;
    } else {
      assert list[..1] == list;
    }
  }

  lemma Follow(cores: seq<set<Item>>, q: nat, n: nat, n': nat)
    requires Known(cores, Cores(), n) && q < n && Visited(G, cores, q, n, n')
    ensures Explored(G, cores, q, SymbolsOf(q), n, n')
  {
    hide Explored, Visited, NextInOrder, ListOf, Listing, SymbolsOf;
    Listed(q);
    SymbolsAre(q);
    FromList(G, cores, Cores(), q, ListOf(q), n, n');
  }

  lemma Meet(cores: seq<set<Item>>, q: nat, x: nat, n: nat, n': nat)
    requires Known(cores, Cores(), n) && q < n < 4 && StepTo(G, cores, q, x, n, n') && Next(q, x) == n
    ensures Known(cores, Cores(), n + 1) && Explored(G, cores, n, SymbolsOf(n), n + 1, n')
  {
    hide StepTo, Visited, Explored, SymbolsOf, Lr0, Closure, Goto, States.NextSymbols;
    IsLr0();
    Charted();
    assert ChartAt(G, Cores(), Next, q, x);
    NewState(G, cores, Cores(), q, x, n, n');
    Follow(cores, n, n + 1, n');
  }

  lemma NumbersFound(cores: seq<set<Item>>)
    requires DepthFirst(G, cores) && Lr0(G, cores)
    ensures cores == Cores()
  {
    assert Known(cores, Cores(), 1) by { StartIs(); }
    hide StepTo, Explored, Visited, Lr0, Cores;
    Follow(cores, 0, 1, |cores|);
    assert [5, 1] == [5] + [1];
    var m := LastSymbol(G, cores, 0, [5], 1, 1, |cores|);
    OneSymbol(G, cores, 0, 5, 1, m);
    Meet(cores, 0, 5, 1, m);
    OneSymbol(G, cores, 1, 2, 2, m);
    Meet(cores, 1, 2, 2, m);
    NoSymbol(G, cores, 2, 3, m);
    Meet(cores, 0, 1, 3, |cores|);
    NoSymbol(G, cores, 3, 4, |cores|);
    assert cores == cores[..4] && Cores() == Cores()[..4];
  }

  // ----- lookaheads -----

  lemma MemberIs(n: Ref)
    ensures Member(G, Cores(), n) <==> n.state < 4 && n.item in Full(n.state)
  {
    hide Closure;
    if n.state < 4 { FullIs(n.state); }
  }

  /** The rules of A have the lookahead b, that of S has `$`. */
  function Sets(m: Ref): set<nat> {
    if m.item.rule == 0 then {0} else {2}
  }

  lemma Begun(i: Item, j: Item, t: nat)
    requires (exists q: nat :: q < 4 && i in Full(q)) && Spawns(G, i, j)
    ensures j.rule != 0 && (i == Item(0, 0) || i == Item(1, 0))
    ensures Begins(G, Suffix(G, i), t) <==> i == Item(0, 0) && t == 2
    ensures Nullable(G, Suffix(G, i)) <==> i == Item(1, 0)
  {
    ValidG();
    OneTerminal(G, 2);
    NothingLeft(G);
    assert Suffix(G, Item(0, 0)) == [2] && Suffix(G, Item(1, 0)) == [];
    hide Begins, Nullable;
  }

  lemma AllHeld()
    ensures Holds(G, Cores(), Sets)
  {
    hide Closure, Begins, Nullable, StartKernel, Edge;
    StartIs();
    forall n, t | SeedOf(G, Cores(), n, t) ensures t in Sets(n) {
      MemberIs(n);
      FullIs(n.state);
      if i :| i in Full(n.state) && States.Contributes(G, i, n.item, t) { Begun(i, n.item, t); }
    }
    forall n, m | Flow(G, Cores(), n, m) ensures Sets(n) <= Sets(m) {
      MemberIs(n);
      MemberIs(m);
      if States.Passes(G, n.item, m.item) { Begun(n.item, m.item, 0); }
    }
  }

  // ----- the actions -----

  lemma ReductionIs(q: nat, r: nat, t: nat)
    requires q < 4 && r < 3
    ensures A.IsReduction(G, Cores(), q, r, t) <==>
              q == (if r == 0 then 2 else if r == 1 then 1 else 3) && t == if r == 0 then 0 else 2
  {
    hide Lookahead, Member;
    var m := Ref(q, A.EndItem(G, r));
    MemberIs(m);
    if A.IsReduction(G, Cores(), q, r, t) {
      AllHeld();
      HoldAll(G, Cores(), Sets, m, t);
    }
    if q == if r == 0 then 2 else if r == 1 then 1 else 3 { Arrives(q, r); }
  }

  /** The lookahead of the rule arrives at its end. */
  lemma Arrives(q: nat, r: nat)
    requires r < 3 && q == if r == 0 then 2 else if r == 1 then 1 else 3
    ensures Lookahead(G, Cores(), Ref(q, A.EndItem(G, r)), if r == 0 then 0 else 2)
  {
    hide Lookahead, Member, Cores;
    AtStart(r);
    if r == 0 {
      Onward(0, Item(0, 0), 5, 0);
      Onward(1, Item(0, 1), 2, 0);
    } else {
      Onward(0, Item(r, 0), if r == 1 then 5 else 1, 2);
    }
  }

  lemma AtStart(r: nat)
    requires r < 3
    ensures Lookahead(G, Cores(), Ref(0, Item(r, 0)), if r == 0 then 0 else 2)
  {
    hide Lookahead, Closure, Begins, Nullable;
    MemberIs(Ref(0, Item(r, 0)));
    MemberIs(Ref(0, Item(0, 0)));
    StartIs();
    if r > 0 {
      Begun(Item(0, 0), Item(r, 0), 2);
      assert States.Contributes(G, Item(0, 0), Item(r, 0), 2);
    }
    LookaheadSeed(G, Cores(), Ref(0, Item(r, 0)), if r == 0 then 0 else 2);
  }

  lemma Onward(p: nat, i: Item, x: nat, t: nat)
    requires p < 4 && i in Full(p) && Before(G, i, x) && Next(p, x) >= 0 && Advance(i) in Full(Next(p, x))
    requires Lookahead(G, Cores(), Ref(p, i), t)
    ensures Lookahead(G, Cores(), Ref(Next(p, x), Advance(i)), t)
  {
    hide Lookahead, Member, Full, Closure;
    MemberIs(Ref(p, i));
    MemberIs(Ref(Next(p, x), Advance(i)));
    Charted();
    assert ChartAt(G, Cores(), Next, p, x);
    OverShift(G, Cores(), p, i, x, Next(p, x), t);
  }

  const SHIFT_B := Action(2, Shift, 2)
  const REDUCE_A := Action(2, Reduce, 1)

  /** Behind A, b can be shifted, and `A ::= A` reduced on it. */
  lemma ConflictIs(a: Action)
    ensures A.IsRaw(G, Cores(), 1, a) <==> a == SHIFT_B || a == REDUCE_A
  {
    hide A.IsReduction, Closure, States.NextSymbols, Edge, Cores;
    if a.kind == Shift {
      Charted();
      ChartShifts(G, Cores(), Next, 1, a);
    } else if a.kind == Reduce {
      if a.target < 3 { ReductionIs(1, a.target, a.sp); } else { OutOfRange(1, a.target, a.sp); }
    }
  }

  lemma OutOfRange(q: nat, r: nat, t: nat)
    requires r >= 3
    ensures !A.IsReduction(G, Cores(), q, r, t)
  {
  }

  /** Elsewhere there are no conflicts. */
  lemma RawIs(q: nat, a: Action)
    requires q == 0 || q == 3
    ensures A.IsRaw(G, Cores(), q, a) <==>
              if q == 3 then a == Action(2, Reduce, 2)
              else a == Action(5, Shift, 1) || a == Action(1, Shift, 3) || a == Action(4, Accept, 0)
  {
    hide A.IsReduction, Closure, States.NextSymbols, Edge, Cores;
    if a.kind == Shift {
      Charted();
      ChartShifts(G, Cores(), Next, q, a);
    } else if a.kind == Reduce {
      if a.target < 3 { ReductionIs(q, a.target, a.sp); } else { OutOfRange(q, a.target, a.sp); }
    }
  }

  /** Precedence settles the conflict behind A for the reduction. */
  lemma Settled(ss: seq<State>)
    requires Z.AllActed(G, Cores(), ss)
    ensures |ss| == 4 && Lookup(Z.Table(G, ss), 1, 2) == ReduceBy(1)
  {
    hide A.Acted, A.UniqueLive, Cores, Z.FindLive, Lookup, REDUCE_A;
    var ap := ss[1].ap;
    assert A.Acted(G, Cores(), 1, ap);
    PairResolved(ap);
    A.ActedLive(G, Cores(), 1, ap);
    Outcome(ap);
    Z.FindLiveIs(ap, 2);
    Z.TableCell(G, ss, 1, 2);
    ReductionCell();
  }

  lemma ReductionCell()
    ensures REDUCE_A.sp == 2 && Z.CellOf(Some(REDUCE_A)) == ReduceBy(1)
  {
  }

  lemma PairResolved(ap: seq<Action>)
    requires A.Acted(G, Cores(), 1, ap)
    ensures ap == A.Resolved(G, [SHIFT_B, REDUCE_A], 2)
  {
    hide A.IsRaw, Cores, A.Resolved, A.Contest;
    var raw: seq<Action> :| A.Raw(G, Cores(), 1, raw) && A.ResolvedFrom(G, raw, ap);
    forall a ensures a in raw <==> a == SHIFT_B || a == REDUCE_A {
      ConflictIs(a);
    }
    Pair(raw);
  }

  lemma Pair(raw: seq<Action>)
    requires A.Contest(G, raw) && Distinct(raw) && forall a :: a in raw <==> a == SHIFT_B || a == REDUCE_A
    ensures raw == [SHIFT_B, REDUCE_A]
  {
    States.DistinctCount(raw);
    assert Elems(raw) == {SHIFT_B, REDUCE_A};
    assert raw[0] in raw && raw[1] in raw;
  }

  lemma Outcome(ap: seq<Action>)
    requires ap == A.Resolved(G, [SHIFT_B, REDUCE_A], 2)
    ensures REDUCE_A in ap && A.Live(REDUCE_A)
  {
    var l := [SHIFT_B, REDUCE_A];
    assert A.Judge(G, SHIFT_B, REDUCE_A) == A.SecondWins(ShResolved);
    assert A.Champion(G, l, 1) == 0 && A.Resolved(G, l, 1) == [SHIFT_B];
    assert ap[1] == REDUCE_A;
  }

  // ----- the run -----

  /** The cells that the run meets, in the final table as well. */
  lemma CellsAre(ss: seq<State>, ss': seq<State>)
    requires Z.AllActed(G, Cores(), ss) && Z.AllCompressed(G, ss, ss')
    ensures Lookup(Z.Table(G, ss'), 0, 1) == ShiftTo(3) && Lookup(Z.Table(G, ss'), 3, 2) == ReduceBy(2)
    ensures Lookup(Z.Table(G, ss'), 0, 5) == ShiftTo(1) && Lookup(Z.Table(G, ss'), 1, 2) == ReduceBy(1)
  {
    hide Z.AllActed, Z.AllCompressed, A.IsRaw, Lr0, Lookup, Cores, Z.Table;
    ValidG();
    IsLr0();
    Settled(ss);
    forall q: nat, b | (q == 0 || q == 3) && A.IsRaw(G, Cores(), q, b)
      ensures if q == 3 then b == Action(2, Reduce, 2)
              else b == Action(5, Shift, 1) || b == Action(1, Shift, 3) || b == Action(4, Accept, 0)
    {
      RawIs(q, b);
    }
    RawIs(0, Action(1, Shift, 3));
    RawIs(0, Action(5, Shift, 1));
    RawIs(3, Action(2, Reduce, 2));
    OnlyAction(G, Cores(), ss, 0, Action(1, Shift, 3));
    OnlyAction(G, Cores(), ss, 0, Action(5, Shift, 1));
    OnlyAction(G, Cores(), ss, 3, Action(2, Reduce, 2));
    Z.CompressedAgrees(G, Cores(), ss, ss');
  }

  /** The parser when it has shifted a, and when it has reduced that. */
  function BehindToken(): (m: Parse)
    ensures m.stack != []
  {
    Parse([Entry(0, 0), Entry(3, 1)], -2, [Shifted(1)])
  }

  function BehindSymbol(): Parse {
    Parse([Entry(0, 0), Entry(1, 5)], -2, [Shifted(1), Reduced(2)])
  }

  ghost predicate Turning(t: seq<seq<Cell>>) {
    && Lookup(t, 0, 1) == ShiftTo(3) && Lookup(t, 3, 2) == ReduceBy(2) && Lookup(t, 0, 5) == ShiftTo(1)
    && Lookup(t, 1, 2) == ReduceBy(1)
  }

  lemma TwoRounds(t: seq<seq<Cell>>, depth: nat)
    requires Turning(t) && depth >= 2
    ensures StepConf(G, t, depth, Conf(Start(), [1, 2, 0])) == Conf(BehindToken(), [2, 0])
    ensures StepConf(G, t, depth, Conf(BehindToken(), [2, 0])) == Conf(BehindSymbol(), [2, 0])
  {
    hide Lookup;
  }

  lemma {:induction false} Turns(t: seq<seq<Cell>>, depth: nat, m: Parse, n: nat)
    requires Turning(t) && depth >= 2 && m.stack == [Entry(0, 0), Entry(1, 5)]
    ensures !End.Over(Steps(G, t, depth, Conf(m, [2, 0]), n))
    decreases n
  {
    if n > 0 {
      hide Lookup;
      var m' := m.(log := m.log + [Reduced(1)]);
      assert StepConf(G, t, depth, Conf(m, [2, 0])) == Conf(m', [2, 0]);
      Turns(t, depth, m', n - 1);
    }
  }

  lemma TurnsFromStart(t: seq<seq<Cell>>, depth: nat, n: nat)
    requires Turning(t) && depth >= 2
    ensures !End.Over(Steps(G, t, depth, Conf(Start(), [1, 2, 0]), n))
  {
    hide StepConf, BehindToken, Turning;
    TwoRounds(t, depth);
    var c0, c1, c2 := Conf(Start(), [1, 2, 0]), Conf(BehindToken(), [2, 0]), Conf(BehindSymbol(), [2, 0]);
    if n >= 2 {
      Turns(t, depth, c2.m, n - 2);
      assert Steps(G, t, depth, c0, n) == Steps(G, t, depth, c1, n - 1) == Steps(G, t, depth, c2, n - 2);
    } else if n == 1 {
      assert Steps(G, t, depth, c0, n) == Steps(G, t, depth, c1, 0);
    }
  }

  /** On the sentence `a b` the parser reduces `A ::= A` for ever, although no conflict is left. */
  lemma NeedNotEnd(cores: seq<set<Item>>, ss: seq<State>, ss': seq<State>, depth: nat, n: nat)
    requires Lr0(G, cores) && DepthFirst(G, cores) && Z.AllActed(G, cores, ss) && Z.AllCompressed(G, ss, ss')
    requires depth >= 2
    ensures !End.Over(Steps(G, Z.Table(G, ss'), depth, Conf(Start(), [1, 2, 0]), n))
  {
    hide Z.AllActed, Z.AllCompressed, Lookup, Cores, Z.Table, Steps, DepthFirst, Lr0, End.Over;
    NumbersFound(cores);
    CellsAre(ss, ss');
    TurnsFromStart(Z.Table(G, ss'), depth, n);
  }
}
