/** Working out the automaton and the actions of a given small grammar. */
module Instances {
  import opened Grammars
  import opened Items
  import opened Structs
  import opened L = Lookaheads
  import opened M = Machine
  import A = Actions
  import States
  import Z = Compress
  import opened N = Numbering

  /** A closed set whose items beyond the kernel are each brought in by one of the kernel is the closure. */
  lemma ClosureIs(g: Grammar, k: set<Item>, c: set<Item>)
    requires k <= c <= AllItems(g) && Closed(g, c)
    requires forall j | j in c && j !in k :: exists i :: i in k && Spawns(g, i, j)
    ensures Closure(g, k) == c
  {
    ClosureIsLeast(g, k);
    forall j | j in c ensures j in Closure(g, k) {
      if j !in k {
        var i :| i in k && Spawns(g, i, j);
        assert i in Closure(g, k);
      }
    }
    ClosureUnique(g, k, c);
  }

  // ----- the automaton -----

  /** State `q` is what `next` says: the state behind each symbol after a mark, and -1 for every other symbol. */
  ghost predicate ChartAt(g: Grammar, cores: seq<set<Item>>, next: (nat, nat) -> int, q: nat, x: nat)
    requires q < |cores|
  {
    && (x in States.NextSymbols(g, Closure(g, cores[q])) <==> next(q, x) >= 0)
    && (next(q, x) >= 0 ==> Edge(g, cores, q, x, next(q, x)))
  }

  ghost predicate Behind(next: (nat, nat) -> int, q: nat) {
    exists p: nat, x: nat :: p < q && next(p, x) == q
  }

  /** A chart of an automaton: every state but the first is behind an earlier one. */
  ghost predicate Chart(g: Grammar, cores: seq<set<Item>>, next: (nat, nat) -> int) {
    && |cores| > 0 && cores[0] == StartKernel(g)
    && (forall q | 0 <= q < |cores| :: cores[q] <= AllItems(g))
    && (forall p, q | 0 <= p < q < |cores| :: cores[p] != cores[q])
    && (forall q: nat, x: nat | q < |cores| :: ChartAt(g, cores, next, q, x))
    && forall q: nat | 0 < q < |cores| :: Behind(next, q)
  }

  lemma {:induction false} ChartReachable(g: Grammar, cores: seq<set<Item>>, next: (nat, nat) -> int, q: nat)
    requires Chart(g, cores, next) && q < |cores|
    ensures Reachable(g, cores[q])
  {
    if q == 0 {
      assert Kernel(g, []) == cores[0];
    } else {
      assert Behind(next, q);
      var p: nat, x: nat :| p < q && next(p, x) == q;
      hide Closure, Goto, Kernel;
      ChartReachable(g, cores, next, p);
      assert ChartAt(g, cores, next, p, x);
      var prefix: seq<nat> :| Kernel(g, prefix) == cores[p];
      KernelMore(g, prefix, x);
      assert Kernel(g, prefix + [x]) == cores[q];
    }
  }

  lemma ChartIsLr0(g: Grammar, cores: seq<set<Item>>, next: (nat, nat) -> int)
    requires Chart(g, cores, next)
    ensures Lr0(g, cores)
  {
    hide Closure, Reachable, Goto, States.NextSymbols;
    forall q: nat | q < |cores| ensures Reachable(g, cores[q]) {
      ChartReachable(g, cores, next, q);
    }
    forall q: nat, x | q < |cores| && x in States.NextSymbols(g, Closure(g, cores[q]))
      ensures exists j :: Edge(g, cores, q, x, j)
    {
      assert ChartAt(g, cores, next, q, x);
    }
  }

  /** The shifts of the chart are the raw SHIFTs. */
  lemma ChartShifts(g: Grammar, cores: seq<set<Item>>, next: (nat, nat) -> int, q: nat, a: Action)
    requires Chart(g, cores, next) && q < |cores| && a.kind == Shift
    ensures A.IsRaw(g, cores, q, a) <==> next(q, a.sp) == a.target
  {
    hide Closure, Goto, States.NextSymbols;
    assert ChartAt(g, cores, next, q, a.sp);
    if next(q, a.sp) >= 0 && Edge(g, cores, q, a.sp, a.target) {
      assert cores[a.target] == cores[next(q, a.sp)];
    }
  }

  // ----- the numbers that FindStates gives -----

  /** The first `n` states are those of `all`. */
  ghost predicate Known(cores: seq<set<Item>>, all: seq<set<Item>>, n: nat) {
    n <= |cores| && n <= |all| && cores[..n] == all[..n]
  }

  lemma KnownAt(cores: seq<set<Item>>, all: seq<set<Item>>, n: nat)
    requires Known(cores, all, n)
    ensures forall i | 0 <= i < n :: cores[i] == all[i]
  {
    forall i | 0 <= i < n ensures cores[i] == all[i] {
      assert cores[..n][i] == all[..n][i];
    }
  }

  /** The walk comes upon a new state, which gets the next number. */
  lemma NewState(g: Grammar, cores: seq<set<Item>>, all: seq<set<Item>>, q: nat, x: nat, n: nat, n': nat)
    requires Lr0(g, all) && Known(cores, all, n) && q < n < |all| && StepTo(g, cores, q, x, n, n')
    requires Edge(g, all, q, x, n)
    ensures Known(cores, all, n + 1) && Visited(g, cores, n, n + 1, n')
  {
    hide Visited, Goto, Closure;
    KnownAt(cores, all, n);
    var j: nat :| Edge(g, cores, q, x, j) && if j < n then n' == n else j == n && Visited(g, cores, j, n + 1, n');
    assert cores[j] == all[n];
    assert cores[..n + 1] == cores[..n] + [cores[n]] && all[..n + 1] == all[..n] + [all[n]];
  }

  /** The walk comes to a state that has its number. */
  lemma OldState(g: Grammar, cores: seq<set<Item>>, all: seq<set<Item>>, q: nat, x: nat, p: nat, n: nat, n': nat)
    requires Lr0(g, cores) && Known(cores, all, n) && q < n && p < n && StepTo(g, cores, q, x, n, n')
    requires Edge(g, all, q, x, p)
    ensures n' == n
  {
    hide Visited, Goto, Closure;
    KnownAt(cores, all, n);
    forall j: nat | Edge(g, cores, q, x, j) ensures j == p {
      assert cores[j] == cores[p];
    }
  }

  /** What the walk follows from a state whose sorted items are known. */
  lemma FromList(g: Grammar, cores: seq<set<Item>>, all: seq<set<Item>>, q: nat, list: seq<Item>, n: nat, n': nat)
    requires Known(cores, all, n) && q < n && Visited(g, cores, q, n, n') && Listing(Closure(g, all[q]), list)
    ensures Explored(g, cores, q, NextInOrder(g, list), n, n')
  {
    hide Explored, Closure, NextInOrder;
    KnownAt(cores, all, n);
    var l :| Listing(Closure(g, cores[q]), l) && Explored(g, cores, q, NextInOrder(g, l), n, n');
    States.StrictUnique(l, list);
  }

  /** From a state without symbols it goes nowhere. */
  lemma NoSymbol(g: Grammar, cores: seq<set<Item>>, q: nat, n: nat, n': nat)
    requires n <= |cores| && Explored(g, cores, q, [], n, n')
    ensures n' == n
  {
  }

  // ----- suffixes of terminals -----

  lemma NoExpansion(g: Grammar, x: nat, i: int, r: int)
    requires Valid(g) && x < g.nterminal
    ensures !CanExpand(g, [x], i, r) && !CanExpand(g, [], i, r)
  {
    if 0 <= r < |g.rules| { assert ValidRule(g, g.rules[r]); }
  }

  lemma TerminalStays(g: Grammar, x: nat, b: seq<nat>, n: nat)
    requires Valid(g) && x < g.nterminal && DerivesIn(g, [x], b, n)
    ensures b == [x]
  {
    forall i, r ensures !CanExpand(g, [x], i, r) {
      NoExpansion(g, x, i, r);
    }
  }

  lemma OneTerminal(g: Grammar, x: nat)
    requires Valid(g) && x < g.nterminal
    ensures !Nullable(g, [x]) && forall t :: Begins(g, [x], t) <==> t == x
  {
    if Nullable(g, [x]) {
      var n: nat :| DerivesIn(g, [x], [], n);
      TerminalStays(g, x, [], n);
    }
    forall t | Begins(g, [x], t) ensures t == x {
      var s :| Derives(g, [x], [t] + s);
      var n: nat :| DerivesIn(g, [x], [t] + s, n);
      TerminalStays(g, x, [t] + s, n);
      assert ([t] + s)[0] == t;
    }
    DerivesRefl(g, [x]);
    assert [x] + [] == [x];
  }

  /** What begins with a terminal begins with nothing else. */
  lemma {:induction false} HeadStays(g: Grammar, x: nat, w: seq<nat>, b: seq<nat>, n: nat)
    requires Valid(g) && x < g.nterminal && DerivesIn(g, [x] + w, b, n)
    ensures b != [] && b[0] == x
    decreases n
  {
    if n > 0 {
      var i, r :| CanExpand(g, [x] + w, i, r) && DerivesIn(g, Expand(g, [x] + w, i, r), b, n - 1);
      if i == 0 { NoExpansion(g, x, 0, r); }
      var e := Expand(g, [x] + w, i, r);
      assert e == [x] + e[1..];
      HeadStays(g, x, e[1..], b, n - 1);
    }
  }

  lemma TerminalFirst(g: Grammar, x: nat, w: seq<nat>)
    requires Valid(g) && x < g.nterminal
    ensures !Nullable(g, [x] + w) && forall t :: Begins(g, [x] + w, t) <==> t == x
  {
    if Nullable(g, [x] + w) {
      var n: nat :| DerivesIn(g, [x] + w, [], n);
      HeadStays(g, x, w, [], n);
    }
    forall t | Begins(g, [x] + w, t) ensures t == x {
      var s :| Derives(g, [x] + w, [t] + s);
      var n: nat :| DerivesIn(g, [x] + w, [t] + s, n);
      HeadStays(g, x, w, [t] + s, n);
      assert ([t] + s)[0] == t;
    }
    DerivesRefl(g, [x] + w);
  }

  lemma EmptyStays(g: Grammar, b: seq<nat>)
    requires Valid(g) && b != []
    ensures !Derives(g, [], b)
  {
    forall i, r ensures !CanExpand(g, [], i, r) {
      NoExpansion(g, 0, i, r);
    }
    forall n: nat ensures !DerivesIn(g, [], b, n) {
    }
  }

  lemma NothingLeft(g: Grammar)
    requires Valid(g)
    ensures Nullable(g, []) && forall t :: !Begins(g, [], t)
  {
    DerivesRefl(g, []);
    forall t, s ensures !Derives(g, [], [t] + s) {
      EmptyStays(g, [t] + s);
    }
  }

  // ----- lookaheads -----

  /** Sets that hold what every item starts with and whatever flows between them hold all lookaheads. */
  ghost predicate Holds(g: Grammar, cores: seq<set<Item>>, sets: Ref -> set<nat>) {
    && (forall n, t | SeedOf(g, cores, n, t) :: t in sets(n))
    && (forall n, m | Flow(g, cores, n, m) :: sets(n) <= sets(m))
  }

  lemma HoldAll(g: Grammar, cores: seq<set<Item>>, sets: Ref -> set<nat>, m: Ref, t: nat)
    requires Holds(g, cores, sets) && Lookahead(g, cores, m, t)
    ensures t in sets(m)
  {
    hide Flow, SeedOf;
    var n, k: nat :| FlowIn(g, cores, n, m, k) && SeedOf(g, cores, n, t);
    HeldAlong(g, cores, sets, n, m, t, k);
  }

  lemma {:induction false} HeldAlong(g: Grammar, cores: seq<set<Item>>, sets: Ref -> set<nat>, n: Ref, m: Ref, t: nat,
                                     k: nat)
    requires Holds(g, cores, sets) && FlowIn(g, cores, n, m, k) && t in sets(n)
    ensures t in sets(m)
    decreases k
  {
    hide Flow, SeedOf;
    if k > 0 {
      var l :| FlowIn(g, cores, n, l, k - 1) && Flow(g, cores, l, m);
      HeldAlong(g, cores, sets, n, l, t, k - 1);
    }
  }

  /** Lookaheads pass over the shift to the only successor. */
  lemma OverShift(g: Grammar, cores: seq<set<Item>>, p: nat, i: Item, x: nat, q: nat, t: nat)
    requires Member(g, cores, Ref(p, i)) && Member(g, cores, Ref(q, Advance(i))) && Before(g, i, x)
    requires Edge(g, cores, p, x, q) && Lookahead(g, cores, Ref(p, i), t)
    ensures Lookahead(g, cores, Ref(q, Advance(i)), t)
  {
    hide Member, Edge;
    assert ShiftFlow(g, cores, Ref(p, i), Ref(q, Advance(i)));
    LookaheadFlows(g, cores, Ref(p, i), Ref(q, Advance(i)), t);
  }

  // ----- cells -----

  /** A state whose only raw action on a symbol is the given one has it in its cell. */
  lemma OnlyAction(g: Grammar, cores: seq<set<Item>>, ss: seq<State>, q: nat, a: Action)
    requires Z.AllActed(g, cores, ss) && q < |ss| && A.IsRaw(g, cores, q, a) && a.sp < g.nsymbol
    requires forall b | A.IsRaw(g, cores, q, b) && b.sp == a.sp :: b == a
    ensures Lookup(Z.Table(g, ss), q, a.sp) == Z.CellOf(Some(a))
  {
    hide A.Acted, A.IsRaw, Z.CellOf;
    assert A.Acted(g, cores, q, ss[q].ap);
    A.ActedLive(g, cores, q, ss[q].ap);
    var b :| b in ss[q].ap && A.Live(b) && b.sp == a.sp;
    assert A.IsRaw(g, cores, q, b);
    Z.FindLiveIs(ss[q].ap, a.sp);
    assert Z.IsLive(ss[q].ap, a);
    Z.TableCell(g, ss, q, a.sp);
  }

  /** And one without any on the symbol, and before compression, has an error. */
  lemma NoAction(g: Grammar, cores: seq<set<Item>>, ss: seq<State>, q: nat, x: nat)
    requires Valid(g) && Lr0(g, cores) && Z.AllActed(g, cores, ss) && q < |ss| && x < g.nsymbol
    requires forall b | A.IsRaw(g, cores, q, b) :: b.sp != x
    ensures Lookup(Z.Table(g, ss), q, x) == ErrorCell
  {
    hide Valid, Lr0, A.Acted, A.IsRaw;
    assert A.Acted(g, cores, q, ss[q].ap);
    A.ActedLive(g, cores, q, ss[q].ap);
    Z.FindLiveIs(ss[q].ap, x);
    Z.FindLiveIs(ss[q].ap, g.nsymbol);
    Z.TableCell(g, ss, q, x);
    if Z.FindLive(ss[q].ap, g.nsymbol).Some? {
      Z.ActedSymbols(g, cores, q, ss[q].ap, Z.FindLive(ss[q].ap, g.nsymbol).value);
    }
  }

  // ----- cells after compression -----

  ghost predicate RawOnly(g: Grammar, cores: seq<set<Item>>, q: nat, r: nat) {
    forall b | A.IsRaw(g, cores, q, b) && b.kind == Reduce && !Z.IsStartRule(g, b.target) :: b.target == r
  }

  /** A live reduction is a raw one. */
  lemma CountedIsRaw(g: Grammar, cores: seq<set<Item>>, q: nat, ap: seq<Action>, r: nat)
    requires A.Acted(g, cores, q, ap) && Z.Count(ap, r) > 0
    ensures exists b :: A.IsRaw(g, cores, q, b) && b.kind == Reduce && b.target == r
  {
    hide A.Acted, A.IsRaw;
    A.ActedLive(g, cores, q, ap);
    Z.CountMember(ap, r);
    var b :| b in ap && Z.IsReduce(b, r);
    assert A.Live(b) && A.IsRaw(g, cores, q, b);
  }

  /** A state whose only reductions are by one rule gets them as default. */
  lemma DefaultIs(g: Grammar, cores: seq<set<Item>>, ss: seq<State>, ss': seq<State>, q: nat, a: Action, x: nat)
    requires Valid(g) && Lr0(g, cores) && Z.AllActed(g, cores, ss) && Z.AllCompressed(g, ss, ss') && q < |ss|
    requires a in ss[q].ap && a.kind == Reduce && !Z.IsStartRule(g, a.target) && RawOnly(g, cores, q, a.target)
    requires x < g.nterminal < g.nsymbol && forall b | A.IsRaw(g, cores, q, b) :: b.sp != x
    ensures Lookup(Z.Table(g, ss'), q, x) == ReduceBy(a.target)
  {
    var ap, ap' := ss[q].ap, ss'[q].ap;
    assert A.Acted(g, cores, q, ap) && Z.Outcome(g, ap, ap');
    hide Valid, Lr0, A.Acted, A.IsRaw, A.UniqueLive, Z.Compressed, Z.FindLive, Z.CellAt, Lookup;
    CombinedBy(g, cores, q, ap, ap', a);
    CombinedCell(g, cores, q, ap, ap', a.target, x);
    TerminalIsSymbol(g, x);
    Z.TableCell(g, ss', q, x);
  }

  lemma CombinedBy(g: Grammar, cores: seq<set<Item>>, q: nat, ap: seq<Action>, ap': seq<Action>, a: Action)
    requires A.Acted(g, cores, q, ap) && Z.Outcome(g, ap, ap') && RawOnly(g, cores, q, a.target)
    requires a in ap && a.kind == Reduce && !Z.IsStartRule(g, a.target)
    ensures Z.Compressed(g, ap, ap', a.target)
  {
    hide A.Acted, A.IsRaw, Z.Compressed, A.UniqueLive;
    Z.CountMember(ap, a.target);
    assert Z.Count(ap, a.target) > 0;
    var r: nat :| Z.MostFrequent(g, ap, Some(r)) && Z.Compressed(g, ap, ap', r);
    CountedIsRaw(g, cores, q, ap, r);
  }

  lemma CombinedCell(g: Grammar, cores: seq<set<Item>>, q: nat, ap: seq<Action>, ap': seq<Action>, r: nat, x: nat)
    requires A.Acted(g, cores, q, ap) && Z.Outcome(g, ap, ap') && Z.Compressed(g, ap, ap', r)
    requires x < g.nterminal < g.nsymbol && forall b | A.IsRaw(g, cores, q, b) :: b.sp != x
    ensures Z.CellAt(g, ap', x) == ReduceBy(r)
  {
    hide A.Acted, A.IsRaw, A.UniqueLive;
    A.ActedLive(g, cores, q, ap);
    assert Z.IsLive(ap', Action(g.nsymbol, Reduce, r));
    Z.FindLiveIs(ap', x);
    Z.FindLiveIs(ap', g.nsymbol);
  }

  /** One without reductions that could be defaults keeps its errors. */
  lemma ErrorStays(g: Grammar, cores: seq<set<Item>>, ss: seq<State>, ss': seq<State>, q: nat, x: nat)
    requires Valid(g) && Lr0(g, cores) && Z.AllActed(g, cores, ss) && Z.AllCompressed(g, ss, ss') && q < |ss|
    requires forall b | A.IsRaw(g, cores, q, b) :: b.kind != Reduce || Z.IsStartRule(g, b.target)
    requires x < g.nterminal && forall b | A.IsRaw(g, cores, q, b) :: b.sp != x
    ensures Lookup(Z.Table(g, ss'), q, x) == ErrorCell
  {
    hide Valid, Lr0, Z.AllActed, Z.AllCompressed, A.IsRaw, Z.CellAt, Lookup;
    TerminalIsSymbol(g, x);
    NoAction(g, cores, ss, q, x);
    Z.TableCell(g, ss, q, x);
    Z.CellCompressed(g, cores, ss, ss', q, x);
    SameSize(g, ss, ss');
    Z.TableCell(g, ss', q, x);
  }

  lemma TerminalIsSymbol(g: Grammar, x: nat)
    requires Valid(g) && x < g.nterminal
    ensures x < g.nsymbol
  {
  }

  lemma SameSize(g: Grammar, ss: seq<State>, ss': seq<State>)
    requires Z.AllCompressed(g, ss, ss')
    ensures |ss'| == |ss|
  {
  }

  /** And a cell with an action keeps that. */
  lemma ActionStays(g: Grammar, cores: seq<set<Item>>, ss: seq<State>, ss': seq<State>, q: nat, a: Action)
    requires Valid(g) && Lr0(g, cores) && Z.AllActed(g, cores, ss) && Z.AllCompressed(g, ss, ss') && q < |ss|
    requires A.IsRaw(g, cores, q, a) && a.sp < g.nsymbol && Z.CellOf(Some(a)) != ErrorCell
    requires forall b | A.IsRaw(g, cores, q, b) && b.sp == a.sp :: b == a
    ensures Lookup(Z.Table(g, ss'), q, a.sp) == Z.CellOf(Some(a))
  {
    hide Valid, Lr0, Z.AllActed, Z.AllCompressed, A.IsRaw, Z.CellAt, Lookup, Z.CellOf;
    OnlyAction(g, cores, ss, q, a);
    Z.TableCell(g, ss, q, a.sp);
    Z.CellCompressed(g, cores, ss, ss', q, a.sp);
    SameSize(g, ss, ss');
    Z.TableCell(g, ss', q, a.sp);
  }
}
