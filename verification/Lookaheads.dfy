/** The lookaheads computed over the LR(0) states are those of the canonical LR(1) items. */
module Lookaheads {
  import opened Grammars
  import opened FirstSets
  import opened Items
  import opened Structs
  import States
  import F = FollowSets

  // ----- the LR(0) automaton -----

  /** Basis sets numbered as states: the first is the start, all are reachable and different, and every set that a
      symbol leads to is among them. */
  ghost predicate Lr0(g: Grammar, cores: seq<set<Item>>) {
    && |cores| > 0 && cores[0] == StartKernel(g)
    && (forall q | 0 <= q < |cores| :: cores[q] <= AllItems(g) && Reachable(g, cores[q]))
    && (forall p, q | 0 <= p < q < |cores| :: cores[p] != cores[q])
    && (forall q, x | 0 <= q < |cores| && x in States.NextSymbols(g, Closure(g, cores[q])) ::
          exists j :: Edge(g, cores, q, x, j))
  }

  lemma BuiltIsLr0(g: Grammar, ss: seq<State>)
    requires States.Built(g, ss)
    ensures Lr0(g, States.Cores(ss))
  {
    var cores := States.Cores(ss);
    forall p, q | 0 <= p < q < |cores| ensures cores[p] != cores[q] {
      assert States.StateOk(g, ss, p) && States.StateOk(g, ss, q);
      if cores[p] == cores[q] { States.StrictUnique(ss[p].basis, ss[q].basis); }
    }
    forall q, x | 0 <= q < |cores| && x in States.NextSymbols(g, Closure(g, cores[q]))
      ensures exists j :: Edge(g, cores, q, x, j)
    {
      assert States.Done(g, ss, q);
      var k :| 0 <= k < |ss[q].ap| && ss[q].ap[k].sp == x;
      assert Edge(g, cores, q, x, ss[q].ap[k].target);
    }
    forall q | 0 <= q < |cores| ensures cores[q] <= AllItems(g) && Reachable(g, cores[q]) {
      assert States.StateOk(g, ss, q);
    }
  }

  lemma EmptyClosure(g: Grammar)
    ensures Closure(g, {}) == {}
  {
    ClosureIsLeast(g, {});
    assert Closed(g, {});
  }

  /** An item set that has items and is reached by some string of symbols is one of the states. */
  lemma {:induction false} KernelIsState(g: Grammar, cores: seq<set<Item>>, prefix: seq<nat>) returns (q: nat)
    requires Lr0(g, cores) && (Kernel(g, prefix) != {} || prefix == [])
    ensures q < |cores| && cores[q] == Kernel(g, prefix)
    decreases |prefix|
  {
    if prefix == [] {
      q := 0;
    } else {
      var n := |prefix| - 1;
      EmptyClosure(g);
      hide Lr0, Closure;
      var p := KernelIsState(g, cores, prefix[..n]);
      q := EdgeFrom(g, cores, p, prefix[n]);
    }
  }

  lemma EdgeFrom(g: Grammar, cores: seq<set<Item>>, p: nat, x: nat) returns (j: nat)
    requires Lr0(g, cores) && p < |cores| && Goto(g, Closure(g, cores[p]), x) != {}
    ensures Edge(g, cores, p, x, j)
  {
    var i :| i in Closure(g, cores[p]) && Before(g, i, x);
    assert x in States.NextSymbols(g, Closure(g, cores[p]));
    j :| Edge(g, cores, p, x, j);
  }

  /** FindStates yields exactly the item sets reachable from the start basis. */
  lemma StatesAreReachableSets(g: Grammar, ss: seq<State>, k: set<Item>)
    requires States.Built(g, ss) && (k != {} || k == StartKernel(g))
    ensures Reachable(g, k) <==> exists q :: 0 <= q < |ss| && States.Core(ss[q]) == k
  {
    BuiltIsLr0(g, ss);
    if Reachable(g, k) {
      var prefix: seq<nat> :| Kernel(g, prefix) == k;
      var q := KernelIsState(g, States.Cores(ss), if k == StartKernel(g) then [] else prefix);
      assert States.Core(ss[q]) == States.Cores(ss)[q];
    }
    if exists q :: 0 <= q < |ss| && States.Core(ss[q]) == k {
      var q :| 0 <= q < |ss| && States.Core(ss[q]) == k;
      assert States.Cores(ss)[q] == k;
    }
  }

  // ----- the flow of lookaheads between states, as mathematics -----

  ghost predicate Member(g: Grammar, cores: seq<set<Item>>, n: Ref) {
    n.state < |cores| && n.item in Closure(g, cores[n.state])
  }

  /** Lookaheads pass from `n` to `m`: within a state by closure, or over a shift. */
  ghost predicate Flow(g: Grammar, cores: seq<set<Item>>, n: Ref, m: Ref) {
    && Member(g, cores, n) && Member(g, cores, m)
    && ((n.state == m.state && States.Passes(g, n.item, m.item)) || ShiftFlow(g, cores, n, m))
  }

  ghost predicate ShiftFlow(g: Grammar, cores: seq<set<Item>>, n: Ref, m: Ref) {
    m.item == Advance(n.item) && exists x :: Before(g, n.item, x) && Edge(g, cores, n.state, x, m.state)
  }

  ghost predicate FlowIn(g: Grammar, cores: seq<set<Item>>, n: Ref, m: Ref, k: nat)
    decreases k
  {
    if k == 0 then n == m && Member(g, cores, n) else exists l :: FlowIn(g, cores, n, l, k - 1) && Flow(g, cores, l, m)
  }

  ghost predicate SeedOf(g: Grammar, cores: seq<set<Item>>, n: Ref, t: nat) {
    Member(g, cores, n) && States.Seeded(g, n.state, Closure(g, cores[n.state]), n.item, t)
  }

  /** Lookahead `t` starts at some configuration and flows to `m`. */
  ghost predicate Lookahead(g: Grammar, cores: seq<set<Item>>, m: Ref, t: nat) {
    exists n, k: nat :: FlowIn(g, cores, n, m, k) && SeedOf(g, cores, n, t)
  }

  // ----- canonical LR(1) items -----

  /** `[i, t]` is a canonical LR(1) item for the string `prefix`, by `n` steps of closure and goto. */
  ghost predicate Lr1In(g: Grammar, prefix: seq<nat>, i: Item, t: nat, n: nat)
    decreases n, 1
  {
    if n == 0 then
      prefix == [] && i in StartKernel(g) && t == 0
    else
      (exists k, b :: Lr1In(g, prefix, k, b, n - 1) && Lr1Closure(g, k, b, i, t)) || Lr1Goto(g, prefix, i, t, n - 1)
  }

  /** The item is the advance, over the last symbol of `prefix`, of an LR(1) item of the rest. */
  ghost predicate Lr1Goto(g: Grammar, prefix: seq<nat>, i: Item, t: nat, n: nat)
    decreases n, 2
  {
    prefix != [] && i.dot > 0 && Before(g, Item(i.rule, i.dot - 1), prefix[|prefix| - 1])
    && Lr1In(g, prefix[..|prefix| - 1], Item(i.rule, i.dot - 1), t, n)
  }

  /** From `[k, b]` closure adds `[i, t]`: the terminal begins what follows in `k`, with `b` behind it. */
  ghost predicate Lr1Closure(g: Grammar, k: Item, b: nat, i: Item, t: nat) {
    Spawns(g, k, i) && b < g.nterminal && Begins(g, Suffix(g, k) + [b], t)
  }

  ghost predicate Lr1(g: Grammar, prefix: seq<nat>, i: Item, t: nat) {
    exists n: nat :: Lr1In(g, prefix, i, t, n)
  }

  /** The union, over all strings that reach state `m.state`, of the LR(1) lookaheads of the item. */
  ghost predicate Merged(g: Grammar, cores: seq<set<Item>>, m: Ref, t: nat) {
    m.state < |cores| && exists prefix :: Kernel(g, prefix) == cores[m.state] && Lr1(g, prefix, m.item, t)
  }

  /** The string neither vanishes nor has anything to begin with, so no terminal can come after what stands before
      it. */
  ghost predicate Blocked(g: Grammar, a: seq<nat>) {
    !Nullable(g, a) && forall t :: !Begins(g, a, t)
  }

  /** The item is reached from a rule of the start symbol, over shifts and by closure steps that are not blocked. */
  ghost predicate OpenIn(g: Grammar, cores: seq<set<Item>>, m: Ref, n: nat)
    decreases n
  {
    if n == 0 then m.state == 0 && m.item in StartKernel(g) && Member(g, cores, m)
    else exists l :: OpenIn(g, cores, l, n - 1) && OpenStep(g, cores, l, m)
  }

  ghost predicate OpenStep(g: Grammar, cores: seq<set<Item>>, l: Ref, m: Ref) {
    && Member(g, cores, l) && Member(g, cores, m)
    && ((l.state == m.state && Spawns(g, l.item, m.item) && !Blocked(g, Suffix(g, l.item)))
        || ShiftFlow(g, cores, l, m))
  }

  ghost predicate Open(g: Grammar, cores: seq<set<Item>>, m: Ref) {
    exists n: nat :: OpenIn(g, cores, m, n)
  }

  /** A terminal that the item starts with: `$` for the start rules, and what open items contribute. */
  ghost predicate OpenSeed(g: Grammar, cores: seq<set<Item>>, n: Ref, t: nat) {
    && Member(g, cores, n)
    && ((n.state == 0 && n.item in StartKernel(g) && t == 0)
        || exists i :: Open(g, cores, Ref(n.state, i)) && States.Contributes(g, i, n.item, t))
  }

  /** Lookahead `t` starts at some configuration by an open item and flows to `m`. */
  ghost predicate OpenLookahead(g: Grammar, cores: seq<set<Item>>, m: Ref, t: nat) {
    exists n, k: nat :: FlowIn(g, cores, n, m, k) && OpenSeed(g, cores, n, t)
  }

  /** Every nonterminal that occurs in what the start symbol derives vanishes or has something to begin with. */
  ghost predicate Lively(g: Grammar) {
    forall x: nat | g.nterminal <= x < g.nsymbol && Occurs(g, x) :: Nullable(g, [x]) || exists t :: Begins(g, [x], t)
  }

  /** Every nonterminal that occurs in what the start symbol derives generates some terminal string. */
  ghost predicate Generating(g: Grammar) {
    forall x: nat | g.nterminal <= x < g.nsymbol && Occurs(g, x) ::
      exists w :: AllBelow(w, g.nterminal) && Derives(g, [x], w)
  }

  /** Such a grammar is lively. */
  lemma GeneratingIsLively(g: Grammar)
    requires Generating(g)
    ensures Lively(g)
  {
    forall x: nat | g.nterminal <= x < g.nsymbol && Occurs(g, x)
      ensures Nullable(g, [x]) || exists t :: Begins(g, [x], t)
    {
      var w: seq<nat> :| AllBelow(w, g.nterminal) && Derives(g, [x], w);
      if w != [] {
        assert [w[0]] + w[1..] == w;
        assert Begins(g, [x], w[0]);
      }
    }
  }

  lemma BeginsWithin(g: Grammar, lambda: seq<bool>, first: seq<set<nat>>, a: seq<nat>, b: nat, t: nat)
    requires Valid(g) && Exact(g, lambda, first) && AllBelow(a, g.nsymbol) && b < g.nterminal
    ensures Begins(g, a + [b], t) <==> Begins(g, a, t) || (Nullable(g, a) && t == b)
  {
    ExactIsClosed(g, lambda, first);
    ScanConcat(g.nterminal, lambda, first, a, [b]);
    ScanExact(g, lambda, first, a + [b], t);
    ScanExact(g, lambda, first, a, t);
  }

  lemma {:induction false} SomethingBegins(g: Grammar, lambda: seq<bool>, first: seq<set<nat>>, a: seq<nat>, b: nat)
    returns (t: nat)
    requires Valid(g) && Exact(g, lambda, first) && Lively(g) && AllOccur(g, a) && b < g.nterminal
    ensures Begins(g, a + [b], t)
    decreases |a|
  {
    ExactIsClosed(g, lambda, first);
    ScanExact(g, lambda, first, a + [b], 0);
    if a == [] {
      t := b;
      assert a + [b] == [b];
      ScanExact(g, lambda, first, [b], b);
    } else if a[0] < g.nterminal {
      t := a[0];
      ScanExact(g, lambda, first, a + [b], t);
    } else if exists t :: Begins(g, [a[0]], t) {
      t :| Begins(g, [a[0]], t);
      ScanExact(g, lambda, first, a + [b], t);
    } else {
      t := SomethingBegins(g, lambda, first, a[1..], b);
      assert (a + [b])[1..] == a[1..] + [b];
      ScanExact(g, lambda, first, a[1..] + [b], t);
      ScanExact(g, lambda, first, a + [b], t);
    }
  }

  lemma SuffixSymbols(g: Grammar, i: Item)
    requires Valid(g) && IsItem(g, i) && !AtEnd(g, i)
    ensures AllBelow(Suffix(g, i), g.nsymbol)
  {
    assert ValidRule(g, g.rules[i.rule]);
  }

  lemma LookaheadFlows(g: Grammar, cores: seq<set<Item>>, n: Ref, m: Ref, t: nat)
    requires Lookahead(g, cores, n, t) && Flow(g, cores, n, m)
    ensures Lookahead(g, cores, m, t)
  {
    var o, k: nat :| FlowIn(g, cores, o, n, k) && SeedOf(g, cores, o, t);
    assert FlowIn(g, cores, o, m, k + 1);
  }

  lemma LookaheadSeed(g: Grammar, cores: seq<set<Item>>, n: Ref, t: nat)
    requires SeedOf(g, cores, n, t)
    ensures Lookahead(g, cores, n, t)
  {
    assert FlowIn(g, cores, n, n, 0);
  }

  /** No LR(1) lookahead is lost: each one flows to the state that its prefix reaches. */
  lemma {:induction false} Lr1Arrives(g: Grammar, lambda: seq<bool>, first: seq<set<nat>>, cores: seq<set<Item>>,
                                      prefix: seq<nat>, i: Item, t: nat, n: nat) returns (q: nat)
    requires Valid(g) && Exact(g, lambda, first) && Lr0(g, cores) && Lr1In(g, prefix, i, t, n)
    ensures q < |cores| && cores[q] == Kernel(g, prefix) && Lookahead(g, cores, Ref(q, i), t)
            && Member(g, cores, Ref(q, i))
    decreases n
  {
    hide Lr0, Exact, Valid, Closure, Lookahead, Goto, FlowIn;
    if n == 0 {
      q := StartArrives(g, cores, i);
    } else if k, b :| Lr1In(g, prefix, k, b, n - 1) && Lr1Closure(g, k, b, i, t) {
      q := Lr1Arrives(g, lambda, first, cores, prefix, k, b, n - 1);
      ClosureArrives(g, lambda, first, cores, q, k, b, i, t);
    } else {
      var l, k := |prefix| - 1, Item(i.rule, i.dot - 1);
      assert Lr1Goto(g, prefix, i, t, n - 1);
      var p := Lr1Arrives(g, lambda, first, cores, prefix[..l], k, t, n - 1);
      q := GotoArrives(g, cores, p, k, prefix[l], t);
      assert Kernel(g, prefix) == Goto(g, ItemSet(g, prefix[..l]), prefix[l]);
    }
  }

  lemma StartArrives(g: Grammar, cores: seq<set<Item>>, i: Item) returns (q: nat)
    requires Lr0(g, cores) && i in StartKernel(g)
    ensures q < |cores| && cores[q] == Kernel(g, []) && Lookahead(g, cores, Ref(q, i), 0) && Member(g, cores, Ref(q, i))
  {
    q := 0;
    ClosureIsLeast(g, cores[0]);
    assert SeedOf(g, cores, Ref(0, i), 0);
    LookaheadSeed(g, cores, Ref(0, i), 0);
  }

  lemma ClosureArrives(g: Grammar, lambda: seq<bool>, first: seq<set<nat>>, cores: seq<set<Item>>,
                       q: nat, k: Item, b: nat, i: Item, t: nat)
    requires Valid(g) && Exact(g, lambda, first) && Lr0(g, cores) && Member(g, cores, Ref(q, k))
    requires Lookahead(g, cores, Ref(q, k), b) && Lr1Closure(g, k, b, i, t)
    ensures Lookahead(g, cores, Ref(q, i), t) && Member(g, cores, Ref(q, i))
  {
    ClosureIsLeast(g, cores[q]);
    SuffixSymbols(g, k);
    BeginsWithin(g, lambda, first, Suffix(g, k), b, t);
    hide Lr0, Exact, Valid, Closure, Lookahead;
    if Begins(g, Suffix(g, k), t) {
      assert States.Contributes(g, k, i, t);
      LookaheadSeed(g, cores, Ref(q, i), t);
    } else {
      LookaheadFlows(g, cores, Ref(q, k), Ref(q, i), t);
    }
  }

  lemma GotoArrives(g: Grammar, cores: seq<set<Item>>, p: nat, k: Item, x: nat, t: nat) returns (q: nat)
    requires Lr0(g, cores) && Member(g, cores, Ref(p, k)) && Before(g, k, x) && Lookahead(g, cores, Ref(p, k), t)
    ensures Edge(g, cores, p, x, q) && Lookahead(g, cores, Ref(q, Advance(k)), t)
            && Member(g, cores, Ref(q, Advance(k)))
  {
    hide Lr0, Lookahead, Closure, AllItems;
    assert Advance(k) in Goto(g, Closure(g, cores[p]), x);
    hide Goto;
    q := EdgeFrom(g, cores, p, x);
    AdvancedIn(g, cores, p, k, x, q);
    LookaheadFlows(g, cores, Ref(p, k), Ref(q, Advance(k)), t);
  }

  lemma AdvancedIn(g: Grammar, cores: seq<set<Item>>, p: nat, k: Item, x: nat, q: nat)
    requires Lr0(g, cores) && Member(g, cores, Ref(p, k)) && Before(g, k, x) && Edge(g, cores, p, x, q)
    ensures Member(g, cores, Ref(q, Advance(k)))
  {
    assert Advance(k) in Goto(g, Closure(g, cores[p]), x);
    assert cores[q] <= AllItems(g);
    hide Lr0, Closure, AllItems, Goto;
    ClosureIsLeast(g, cores[q]);
  }

  // ----- and none is invented -----

  lemma {:induction false} Lr1Terminal(g: Grammar, prefix: seq<nat>, i: Item, t: nat, n: nat)
    requires Valid(g) && Lr1In(g, prefix, i, t, n)
    ensures t < g.nterminal
    decreases n
  {
    if n > 0 && Lr1Goto(g, prefix, i, t, n - 1) {
      Lr1Terminal(g, prefix[..|prefix| - 1], Item(i.rule, i.dot - 1), t, n - 1);
    }
  }

  lemma Lr1ByGoto(g: Grammar, prefix: seq<nat>, k: Item, x: nat, t: nat)
    requires Lr1(g, prefix, k, t) && Before(g, k, x)
    ensures Lr1(g, prefix + [x], Advance(k), t)
  {
    var n: nat :| Lr1In(g, prefix, k, t, n);
    assert (prefix + [x])[..|prefix|] == prefix;
    assert Item(Advance(k).rule, Advance(k).dot - 1) == k;
    assert Lr1Goto(g, prefix + [x], Advance(k), t, n);
    assert Lr1In(g, prefix + [x], Advance(k), t, n + 1);
  }

  lemma Lr1ByClosure(g: Grammar, prefix: seq<nat>, k: Item, b: nat, i: Item, t: nat)
    requires Lr1(g, prefix, k, b) && Lr1Closure(g, k, b, i, t)
    ensures Lr1(g, prefix, i, t)
  {
    var n: nat :| Lr1In(g, prefix, k, b, n);
    assert Lr1In(g, prefix, i, t, n + 1);
  }

  /** An open item has some LR(1) lookahead, for a string that reaches its state. */
  ghost predicate SomeLr1(g: Grammar, cores: seq<set<Item>>, m: Ref) {
    exists t: nat :: t < g.nterminal && Merged(g, cores, m, t)
  }

  lemma {:induction false} OpenHasLr1(g: Grammar, lambda: seq<bool>, first: seq<set<nat>>, cores: seq<set<Item>>,
                                      m: Ref, n: nat)
    requires Valid(g) && Exact(g, lambda, first) && Lr0(g, cores) && OpenIn(g, cores, m, n)
    ensures SomeLr1(g, cores, m)
    decreases n
  {
    hide Exact, Lr0, Merged, OpenStep, Valid, SomeLr1, Member;
    if n == 0 {
      StartHasLr1(g, cores, m);
    } else {
      var l :| OpenIn(g, cores, l, n - 1) && OpenStep(g, cores, l, m);
      OpenHasLr1(g, lambda, first, cores, l, n - 1);
      StepHasLr1(g, lambda, first, cores, l, m);
    }
  }

  lemma StartHasLr1(g: Grammar, cores: seq<set<Item>>, m: Ref)
    requires Valid(g) && Lr0(g, cores) && m.state == 0 && m.item in StartKernel(g)
    ensures SomeLr1(g, cores, m)
  {
    assert Lr1In(g, [], m.item, 0, 0);
    assert Kernel(g, []) == cores[0];
    assert Merged(g, cores, m, 0);
  }

  lemma StepHasLr1(g: Grammar, lambda: seq<bool>, first: seq<set<nat>>, cores: seq<set<Item>>, l: Ref, m: Ref)
    requires Valid(g) && Exact(g, lambda, first) && Lr0(g, cores) && OpenStep(g, cores, l, m) && SomeLr1(g, cores, l)
    ensures SomeLr1(g, cores, m)
  {
    hide Exact, Lr0, Lr1, Kernel;
    var b: nat :| b < g.nterminal && Merged(g, cores, l, b);
    if ShiftFlow(g, cores, l, m) {
      FlowIsLr1(g, lambda, first, cores, l, m, b);
    } else {
      var t := if Nullable(g, Suffix(g, l.item)) then b else var t :| Begins(g, Suffix(g, l.item), t); t;
      ClosureIsLr1(g, lambda, first, cores, l, b, m, t);
    }
  }

  lemma ClosureIsLr1(g: Grammar, lambda: seq<bool>, first: seq<set<nat>>, cores: seq<set<Item>>, l: Ref, b: nat, m: Ref,
                     t: nat)
    requires Valid(g) && Exact(g, lambda, first) && Merged(g, cores, l, b) && b < g.nterminal
    requires l.state == m.state && Spawns(g, l.item, m.item)
    requires Begins(g, Suffix(g, l.item), t) || (Nullable(g, Suffix(g, l.item)) && t == b)
    ensures Merged(g, cores, m, t) && t < g.nterminal
  {
    hide Exact, Kernel;
    var prefix :| Kernel(g, prefix) == cores[l.state] && Lr1(g, prefix, l.item, b);
    SuffixSymbols(g, l.item);
    BeginsWithin(g, lambda, first, Suffix(g, l.item), b, t);
    Lr1ByClosure(g, prefix, l.item, b, m.item, t);
  }

  lemma SeedIsLr1(g: Grammar, lambda: seq<bool>, first: seq<set<nat>>, cores: seq<set<Item>>, n: Ref, t: nat)
    requires Valid(g) && Exact(g, lambda, first) && Lr0(g, cores) && OpenSeed(g, cores, n, t)
    ensures Merged(g, cores, n, t)
  {
    if n.state == 0 && n.item in StartKernel(g) && t == 0 {
      assert Lr1In(g, [], n.item, t, 0);
      assert Kernel(g, []) == cores[0];
    } else {
      hide Exact, Lr0, Merged;
      var i :| Open(g, cores, Ref(n.state, i)) && States.Contributes(g, i, n.item, t);
      var k: nat :| OpenIn(g, cores, Ref(n.state, i), k);
      OpenHasLr1(g, lambda, first, cores, Ref(n.state, i), k);
      var b: nat :| b < g.nterminal && Merged(g, cores, Ref(n.state, i), b);
      ClosureIsLr1(g, lambda, first, cores, Ref(n.state, i), b, n, t);
    }
  }

  lemma FlowIsLr1(g: Grammar, lambda: seq<bool>, first: seq<set<nat>>, cores: seq<set<Item>>, n: Ref, m: Ref, t: nat)
    requires Valid(g) && Exact(g, lambda, first) && Lr0(g, cores) && Flow(g, cores, n, m) && Merged(g, cores, n, t)
    ensures Merged(g, cores, m, t)
  {
    hide Valid, Exact, Lr0, Kernel, Lr1;
    var prefix :| Kernel(g, prefix) == cores[n.state] && Lr1(g, prefix, n.item, t);
    if n.state == m.state && States.Passes(g, n.item, m.item) {
      Lr1HasDepth(g, prefix, n.item, t);
      var k: nat :| Lr1In(g, prefix, n.item, t, k);
      Lr1Terminal(g, prefix, n.item, t, k);
      SuffixSymbols(g, n.item);
      BeginsWithin(g, lambda, first, Suffix(g, n.item), t, t);
      Lr1ByClosure(g, prefix, n.item, t, m.item, t);
    } else {
      var x :| Before(g, n.item, x) && Edge(g, cores, n.state, x, m.state);
      Lr1ByGoto(g, prefix, n.item, x, t);
      KernelMore(g, prefix, x);
    }
  }

  lemma Lr1HasDepth(g: Grammar, prefix: seq<nat>, i: Item, t: nat)
    requires Lr1(g, prefix, i, t)
    ensures exists k: nat :: Lr1In(g, prefix, i, t, k)
  {
  }

  lemma KernelMore(g: Grammar, prefix: seq<nat>, x: nat)
    ensures Kernel(g, prefix + [x]) == Goto(g, Closure(g, Kernel(g, prefix)), x)
  {
    assert (prefix + [x])[..|prefix|] == prefix;
  }

  lemma {:induction false} LookaheadIsLr1(g: Grammar, lambda: seq<bool>, first: seq<set<nat>>, cores: seq<set<Item>>,
                                          n: Ref, m: Ref, t: nat, k: nat)
    requires Valid(g) && Exact(g, lambda, first) && Lr0(g, cores)
    requires FlowIn(g, cores, n, m, k) && OpenSeed(g, cores, n, t)
    ensures Merged(g, cores, m, t)
    decreases k
  {
    hide Lr0, Valid, Exact, Flow, OpenSeed, Merged, Member;
    if k == 0 {
      SeedIsLr1(g, lambda, first, cores, n, t);
    } else {
      var l :| FlowIn(g, cores, n, l, k - 1) && Flow(g, cores, l, m);
      LookaheadIsLr1(g, lambda, first, cores, n, l, t, k - 1);
      FlowIsLr1(g, lambda, first, cores, l, m, t);
    }
  }

  // ----- exactly those of the open items -----

  /** An LR(1) item is open, and its lookahead comes from open items. */
  ghost predicate OpenWith(g: Grammar, cores: seq<set<Item>>, m: Ref, t: nat) {
    Open(g, cores, m) && OpenLookahead(g, cores, m, t)
  }

  lemma {:induction false} Lr1IsOpen(g: Grammar, lambda: seq<bool>, first: seq<set<nat>>, cores: seq<set<Item>>,
                                     prefix: seq<nat>, i: Item, t: nat, n: nat) returns (q: nat)
    requires Valid(g) && Exact(g, lambda, first) && Lr0(g, cores) && Lr1In(g, prefix, i, t, n)
    ensures q < |cores| && cores[q] == Kernel(g, prefix) && Member(g, cores, Ref(q, i))
    ensures OpenWith(g, cores, Ref(q, i), t)
    decreases n
  {
    hide Lr0, Exact, Valid, Member, OpenWith, Goto, FlowIn, Lookahead;
    q := Lr1Arrives(g, lambda, first, cores, prefix, i, t, n);
    if n == 0 {
      OpenStart(g, cores);
      SameCore(g, cores, q, 0);
      OpenStartWith(g, cores, i);
    } else if k, b :| Lr1In(g, prefix, k, b, n - 1) && Lr1Closure(g, k, b, i, t) {
      var p := Lr1IsOpen(g, lambda, first, cores, prefix, k, b, n - 1);
      SameCore(g, cores, p, q);
      OpenByClosure(g, lambda, first, cores, q, k, b, i, t);
    } else {
      var l, k := |prefix| - 1, Item(i.rule, i.dot - 1);
      assert Lr1Goto(g, prefix, i, t, n - 1);
      var p := Lr1IsOpen(g, lambda, first, cores, prefix[..l], k, t, n - 1);
      KernelMore(g, prefix[..l], prefix[l]);
      assert prefix[..l] + [prefix[l]] == prefix;
      OpenByShift(g, cores, Ref(p, k), Ref(q, i), prefix[l], t);
    }
  }

  lemma OpenStart(g: Grammar, cores: seq<set<Item>>)
    requires Lr0(g, cores)
    ensures |cores| > 0 && cores[0] == Kernel(g, [])
  {
  }

  lemma OpenStartWith(g: Grammar, cores: seq<set<Item>>, i: Item)
    requires i in StartKernel(g) && Member(g, cores, Ref(0, i))
    ensures OpenWith(g, cores, Ref(0, i), 0)
  {
    assert OpenIn(g, cores, Ref(0, i), 0);
    OpenSeeded(g, cores, Ref(0, i), 0);
  }

  lemma OpenSeeded(g: Grammar, cores: seq<set<Item>>, n: Ref, t: nat)
    requires OpenSeed(g, cores, n, t)
    ensures OpenLookahead(g, cores, n, t)
  {
    assert FlowIn(g, cores, n, n, 0);
  }

  lemma OpenFlows(g: Grammar, cores: seq<set<Item>>, n: Ref, m: Ref, t: nat)
    requires OpenLookahead(g, cores, n, t) && Flow(g, cores, n, m)
    ensures OpenLookahead(g, cores, m, t)
  {
    var o, k: nat :| FlowIn(g, cores, o, n, k) && OpenSeed(g, cores, o, t);
    assert FlowIn(g, cores, o, m, k + 1);
  }

  lemma OpenSteps(g: Grammar, cores: seq<set<Item>>, l: Ref, m: Ref)
    requires Open(g, cores, l) && OpenStep(g, cores, l, m)
    ensures Open(g, cores, m)
  {
    var n: nat :| OpenIn(g, cores, l, n);
    assert OpenIn(g, cores, m, n + 1);
  }

  lemma OpenByClosure(g: Grammar, lambda: seq<bool>, first: seq<set<nat>>, cores: seq<set<Item>>, q: nat, k: Item,
                      b: nat, i: Item, t: nat)
    requires Valid(g) && Exact(g, lambda, first) && Member(g, cores, Ref(q, k)) && Member(g, cores, Ref(q, i))
    requires OpenWith(g, cores, Ref(q, k), b) && Lr1Closure(g, k, b, i, t)
    ensures OpenWith(g, cores, Ref(q, i), t)
  {
    SuffixSymbols(g, k);
    BeginsWithin(g, lambda, first, Suffix(g, k), b, t);
    hide Exact, Valid, Member, OpenLookahead, Open, OpenSeed;
    OpenSteps(g, cores, Ref(q, k), Ref(q, i));
    if Begins(g, Suffix(g, k), t) {
      OpenContributes(g, cores, q, k, i, t);
    } else {
      OpenFlows(g, cores, Ref(q, k), Ref(q, i), t);
    }
  }

  lemma OpenContributes(g: Grammar, cores: seq<set<Item>>, q: nat, k: Item, i: Item, t: nat)
    requires Open(g, cores, Ref(q, k)) && Member(g, cores, Ref(q, i)) && States.Contributes(g, k, i, t)
    ensures OpenLookahead(g, cores, Ref(q, i), t)
  {
    OpenSeeded(g, cores, Ref(q, i), t);
  }

  lemma OpenByShift(g: Grammar, cores: seq<set<Item>>, n: Ref, m: Ref, x: nat, t: nat)
    requires Member(g, cores, n) && Member(g, cores, m) && OpenWith(g, cores, n, t)
    requires m.item == Advance(n.item) && Before(g, n.item, x) && Edge(g, cores, n.state, x, m.state)
    ensures OpenWith(g, cores, m, t)
  {
    hide Member, OpenLookahead, Open;
    assert ShiftFlow(g, cores, n, m);
    OpenSteps(g, cores, n, m);
    OpenFlows(g, cores, n, m, t);
  }

  /** Canonical LR(1) lookaheads, without any hypothesis on the grammar: what open items start with and what flows on
      from there. */
  lemma Lr1Exact(g: Grammar, lambda: seq<bool>, first: seq<set<nat>>, cores: seq<set<Item>>, m: Ref, t: nat)
    requires Valid(g) && Exact(g, lambda, first) && Lr0(g, cores) && Member(g, cores, m)
    ensures Merged(g, cores, m, t) <==> OpenLookahead(g, cores, m, t)
  {
    hide Valid, Exact, Lr0, FlowIn, OpenSeed, Member, Kernel;
    if Merged(g, cores, m, t) {
      var prefix :| Kernel(g, prefix) == cores[m.state] && Lr1(g, prefix, m.item, t);
      var n: nat :| Lr1In(g, prefix, m.item, t, n);
      var q := Lr1IsOpen(g, lambda, first, cores, prefix, m.item, t, n);
      SameCore(g, cores, q, m.state);
    }
    if OpenLookahead(g, cores, m, t) {
      var n, k: nat :| FlowIn(g, cores, n, m, k) && OpenSeed(g, cores, n, t);
      LookaheadIsLr1(g, lambda, first, cores, n, m, t, k);
    }
  }

  // ----- in a lively grammar all items are open -----

  lemma NotBlocked(g: Grammar, lambda: seq<bool>, first: seq<set<nat>>, k: Item)
    requires Valid(g) && Exact(g, lambda, first) && Lively(g) && IsItem(g, k) && !AtEnd(g, k)
    requires Occurs(g, g.rules[k.rule].lhs)
    ensures !Blocked(g, Suffix(g, k))
  {
    RuleOccurs(g, k.rule);
    SuffixSymbols(g, k);
    var t := SomethingBegins(g, lambda, first, Suffix(g, k), 0);
    BeginsWithin(g, lambda, first, Suffix(g, k), 0, t);
  }

  /** The items of a state whose left-hand sides occur, and which are open. */
  ghost function OpenItems(g: Grammar, cores: seq<set<Item>>, q: nat): set<Item>
    requires q < |cores|
  {
    set i | i in Closure(g, cores[q]) && Fine(g, cores, q, i)
  }

  ghost predicate Fine(g: Grammar, cores: seq<set<Item>>, q: nat, i: Item) {
    IsItem(g, i) && Occurs(g, g.rules[i.rule].lhs) && Open(g, cores, Ref(q, i))
  }

  lemma {:induction false} AllOpen(g: Grammar, lambda: seq<bool>, first: seq<set<nat>>, cores: seq<set<Item>>,
                                   prefix: seq<nat>, q: nat)
    requires Valid(g) && Exact(g, lambda, first) && Lively(g) && Lr0(g, cores)
    requires q < |cores| && cores[q] == Kernel(g, prefix)
    ensures OpenItems(g, cores, q) == Closure(g, cores[q])
    decreases |prefix|
  {
    KernelItems(g, prefix);
    ClosureIsLeast(g, cores[q]);
    var d := OpenItems(g, cores, q);
    hide Valid, Exact, Lively, Closure, AllItems, Fine;
    forall i | i in cores[q] ensures i in d {
      KernelOpen(g, lambda, first, cores, prefix, q, i);
    }
    forall k, j | k in d && Spawns(g, k, j) ensures j in d {
      SpawnedOpen(g, lambda, first, cores, q, k, j);
    }
    assert Closed(g, d);
  }

  lemma KernelOpen(g: Grammar, lambda: seq<bool>, first: seq<set<nat>>, cores: seq<set<Item>>, prefix: seq<nat>, q: nat,
                   i: Item)
    requires Valid(g) && Exact(g, lambda, first) && Lively(g) && Lr0(g, cores)
    requires q < |cores| && cores[q] == Kernel(g, prefix) && i in cores[q] && i in Closure(g, cores[q])
    ensures Fine(g, cores, q, i)
    decreases |prefix|, 0
  {
    hide Exact, Lively, Closure, Valid;
    if prefix == [] {
      OpenStart(g, cores);
      SameCore(g, cores, q, 0);
      StartOccurs(g);
      assert OpenIn(g, cores, Ref(q, i), 0);
    } else {
      var l := |prefix| - 1;
      var k :| k in ItemSet(g, prefix[..l]) && Before(g, k, prefix[l]) && Advance(k) == i;
      EmptyClosure(g);
      var p := KernelIsState(g, cores, prefix[..l]);
      AllOpen(g, lambda, first, cores, prefix[..l], p);
      assert k in OpenItems(g, cores, p) && Edge(g, cores, p, prefix[l], q);
      assert ShiftFlow(g, cores, Ref(p, k), Ref(q, i));
      OpenSteps(g, cores, Ref(p, k), Ref(q, i));
    }
  }

  lemma SpawnedOpen(g: Grammar, lambda: seq<bool>, first: seq<set<nat>>, cores: seq<set<Item>>, q: nat, k: Item,
                    j: Item)
    requires Valid(g) && Exact(g, lambda, first) && Lively(g) && q < |cores| && Spawns(g, k, j)
    requires k in Closure(g, cores[q]) && j in Closure(g, cores[q]) && Fine(g, cores, q, k)
    ensures Fine(g, cores, q, j)
  {
    hide Exact, Lively, Closure, Occurs, Open;
    RuleOccurs(g, k.rule);
    NotBlocked(g, lambda, first, k);
    OpenSteps(g, cores, Ref(q, k), Ref(q, j));
  }

  lemma LivelySeeds(g: Grammar, lambda: seq<bool>, first: seq<set<nat>>, cores: seq<set<Item>>, n: Ref, t: nat)
    requires Valid(g) && Exact(g, lambda, first) && Lively(g) && Lr0(g, cores) && SeedOf(g, cores, n, t)
    ensures OpenSeed(g, cores, n, t)
  {
    if !(n.state == 0 && n.item in StartKernel(g) && t == 0) {
      assert Reachable(g, cores[n.state]);
      hide Valid, Exact, Lively, Lr0, Closure, Open;
      var i :| i in Closure(g, cores[n.state]) && States.Contributes(g, i, n.item, t);
      var prefix: seq<nat> :| Kernel(g, prefix) == cores[n.state];
      AllOpen(g, lambda, first, cores, prefix, n.state);
      assert i in OpenItems(g, cores, n.state);
    }
  }

  // ----- the generator's tables realise the mathematics -----

  lemma BackLinkIsShift(g: Grammar, ss: seq<State>, n: Ref, m: Ref)
    requires States.Built(g, ss) && F.IsNode(ss, n) && F.IsNode(ss, m)
    ensures F.BackLinked(ss, n, m) <==> ShiftFlow(g, States.Cores(ss), n, m)
  {
    var cores := States.Cores(ss);
    assert States.StateOk(g, ss, n.state) && States.StateOk(g, ss, m.state);
    if F.BackLinked(ss, n, m) {
      assert States.Precedes(g, ss, n, States.Core(ss[m.state]), m.item);
      var x :| Before(g, n.item, x) && Goto(g, States.Full(g, ss[n.state]), x) == States.Core(ss[m.state]);
      assert Edge(g, cores, n.state, x, m.state);
    }
    if ShiftFlow(g, cores, n, m) {
      var x :| Before(g, n.item, x) && Edge(g, cores, n.state, x, m.state);
      ShiftHasBackLink(g, ss, n, x, m.state);
    }
  }

  lemma ShiftHasBackLink(g: Grammar, ss: seq<State>, n: Ref, x: nat, j: nat)
    requires States.Built(g, ss) && F.IsNode(ss, n) && Before(g, n.item, x) && Edge(g, States.Cores(ss), n.state, x, j)
    ensures j < |ss| && Advance(n.item) in ss[j].cfg && n in ss[j].cfg[Advance(n.item)].bplp
  {
    var q := n.state;
    assert States.StateOk(g, ss, q) && States.Done(g, ss, q);
    assert x in States.NextSymbols(g, States.Full(g, ss[q]));
    var k :| 0 <= k < |ss[q].ap| && ss[q].ap[k].sp == x;
    assert States.Leads(g, ss, q, x, ss[q].ap[k].target);
    CoresDiffer(g, ss, j, ss[q].ap[k].target);
    assert n == Ref(q, n.item);
  }

  lemma CoresDiffer(g: Grammar, ss: seq<State>, p: nat, q: nat)
    requires States.Inv(g, ss) && p < |ss| && q < |ss| && States.Core(ss[p]) == States.Core(ss[q])
    ensures p == q
  {
    assert States.StateOk(g, ss, p) && States.StateOk(g, ss, q);
    States.StrictUnique(ss[p].basis, ss[q].basis);
  }

  lemma ForwardLinkIsClosure(g: Grammar, ss: seq<State>, n: Ref, m: Ref)
    requires States.Built(g, ss) && F.IsNode(ss, n) && F.IsNode(ss, m)
    ensures F.Links(ss, n, m) <==> n.state == m.state && States.Passes(g, n.item, m.item)
  {
    assert States.StateOk(g, ss, n.state);
  }

  lemma NodeIsMember(g: Grammar, ss: seq<State>, n: Ref)
    requires States.Inv(g, ss)
    ensures F.IsNode(ss, n) <==> Member(g, States.Cores(ss), n)
  {
    if n.state < |ss| { assert States.StateOk(g, ss, n.state); }
  }

  /** The table as FindStates leaves it can be handed to FindLinks and FindFollowSets. */
  lemma BuiltIsLinked(g: Grammar, ss: seq<State>)
    requires Valid(g) && States.Built(g, ss)
    ensures F.Listed(ss) && F.LinksClosed(ss) && F.Bounded(ss, g.nterminal)
  {
    forall q | 0 <= q < |ss| ensures Elems(ss[q].cfp) == ss[q].cfg.Keys {
      assert States.StateOk(g, ss, q);
    }
    forall q, i, m | 0 <= q < |ss| && i in ss[q].cfg && m in ss[q].cfg[i].fplp ensures F.IsNode(ss, m) {
      assert States.StateOk(g, ss, q) && States.Passes(g, i, m.item);
      ClosureIsLeast(g, States.Core(ss[q]));
    }
    forall q, i, m | 0 <= q < |ss| && i in ss[q].cfg && m in ss[q].cfg[i].bplp ensures F.IsNode(ss, m) {
      assert States.StateOk(g, ss, q) && States.Precedes(g, ss, m, States.Core(ss[q]), i);
      assert States.StateOk(g, ss, m.state);
    }
    forall n, t | F.IsNode(ss, n) && t in F.Follow(ss, n) ensures t < g.nterminal {
      assert States.StateOk(g, ss, n.state);
      assert States.Seeded(g, n.state, States.Full(g, ss[n.state]), n.item, t);
    }
  }

  /** The follow sets are the lookaheads that flow between the states with the given cores. */
  ghost predicate Solved(g: Grammar, cores: seq<set<Item>>, ss: seq<State>) {
    && |ss| == |cores|
    && (forall q | 0 <= q < |ss| ::
          && States.Core(ss[q]) == cores[q]
          && Elems(ss[q].cfp) == ss[q].cfg.Keys == Closure(g, cores[q])
          && Strict(ss[q].cfp))
    && (forall m, t | F.IsNode(ss, m) :: t in F.Follow(ss, m) <==> Lookahead(g, cores, m, t))
  }

  lemma LinksAreFlows(g: Grammar, ss: seq<State>, ss1: seq<State>, n: Ref, m: Ref)
    requires States.Built(g, ss) && F.SameButForward(ss, ss1)
    requires forall a, b | F.IsNode(ss, a) && F.IsNode(ss, b) ::
               F.Links(ss1, a, b) <==> F.Links(ss, a, b) || F.BackLinked(ss, a, b)
    ensures F.Links(ss1, n, m) <==> Flow(g, States.Cores(ss), n, m)
  {
    NodeIsMember(g, ss, n);
    NodeIsMember(g, ss, m);
    assert forall a :: F.IsNode(ss1, a) <==> F.IsNode(ss, a);
    if F.IsNode(ss, n) && F.IsNode(ss, m) {
      ForwardLinkIsClosure(g, ss, n, m);
      BackLinkIsShift(g, ss, n, m);
    }
  }

  lemma NodesAgree(g: Grammar, ss: seq<State>, ss1: seq<State>, n: Ref)
    requires States.Built(g, ss) && F.SameButForward(ss, ss1)
    ensures F.IsNode(ss1, n) <==> Member(g, States.Cores(ss), n)
  {
    NodeIsMember(g, ss, n);
    assert F.IsNode(ss1, n) <==> F.IsNode(ss, n);
  }

  lemma {:induction false} FlowsAgree(g: Grammar, ss: seq<State>, ss1: seq<State>, n: Ref, m: Ref, k: nat)
    requires States.Built(g, ss) && F.SameButForward(ss, ss1)
    requires forall a, b | F.IsNode(ss, a) && F.IsNode(ss, b) ::
               F.Links(ss1, a, b) <==> F.Links(ss, a, b) || F.BackLinked(ss, a, b)
    ensures F.FlowsIn(ss1, n, m, k) <==> FlowIn(g, States.Cores(ss), n, m, k)
    decreases k
  {
    hide States.Built, States.Cores, F.Links, F.BackLinked, Flow;
    if k == 0 {
      NodesAgree(g, ss, ss1, n);
    } else {
      forall l
        ensures F.FlowsIn(ss1, n, l, k - 1) && F.Links(ss1, l, m) <==>
                  FlowIn(g, States.Cores(ss), n, l, k - 1) && Flow(g, States.Cores(ss), l, m)
      {
        FlowsAgree(g, ss, ss1, n, l, k - 1);
        LinksAreFlows(g, ss, ss1, l, m);
      }
    }
  }

  lemma SeedsAgree(g: Grammar, ss: seq<State>, ss1: seq<State>, n: Ref, t: nat)
    requires States.Built(g, ss) && F.SameButForward(ss, ss1)
    ensures F.IsNode(ss1, n) && t in F.Follow(ss1, n) <==> SeedOf(g, States.Cores(ss), n, t)
  {
    NodeIsMember(g, ss, n);
    assert F.IsNode(ss1, n) <==> F.IsNode(ss, n);
    if F.IsNode(ss, n) {
      assert States.StateOk(g, ss, n.state);
      assert F.Follow(ss1, n) == F.Follow(ss, n);
    }
  }

  lemma ArrivesIsLookahead(g: Grammar, ss: seq<State>, ss1: seq<State>, m: Ref, t: nat)
    requires States.Built(g, ss) && F.SameButForward(ss, ss1)
    requires forall a, b | F.IsNode(ss, a) && F.IsNode(ss, b) ::
               F.Links(ss1, a, b) <==> F.Links(ss, a, b) || F.BackLinked(ss, a, b)
    ensures F.Arrives(ss1, m, t) <==> Lookahead(g, States.Cores(ss), m, t)
  {
    hide F.SameButForward, States.Built, F.Links, F.BackLinked, Flow, Lr0;
    if F.Arrives(ss1, m, t) {
      var n :| F.Flows(ss1, n, m) && F.IsNode(ss1, n) && t in F.Follow(ss1, n);
      var k: nat :| F.FlowsIn(ss1, n, m, k);
      FlowsAgree(g, ss, ss1, n, m, k);
      SeedsAgree(g, ss, ss1, n, t);
    }
    if Lookahead(g, States.Cores(ss), m, t) {
      var n, k: nat :| FlowIn(g, States.Cores(ss), n, m, k) && SeedOf(g, States.Cores(ss), n, t);
      FlowsAgree(g, ss, ss1, n, m, k);
      SeedsAgree(g, ss, ss1, n, t);
      assert F.Flows(ss1, n, m);
    }
  }

  /** FindLinks and FindFollowSets together leave every follow set equal to the lookaheads of its item. */
  lemma FollowSetsSolve(g: Grammar, ss: seq<State>, ss1: seq<State>, ss2: seq<State>)
    requires States.Built(g, ss) && F.SameButForward(ss, ss1) && F.Grown(ss1, ss2)
    requires forall a, b | F.IsNode(ss, a) && F.IsNode(ss, b) ::
               F.Links(ss1, a, b) <==> F.Links(ss, a, b) || F.BackLinked(ss, a, b)
    requires forall m, t | F.IsNode(ss1, m) :: t in F.Follow(ss2, m) <==> F.Arrives(ss1, m, t)
    ensures Solved(g, States.Cores(ss), ss2)
  {
    forall m, t | F.IsNode(ss2, m) ensures t in F.Follow(ss2, m) <==> Lookahead(g, States.Cores(ss), m, t) {
      assert F.IsNode(ss1, m);
      if t >= 0 { ArrivesIsLookahead(g, ss, ss1, m, t); }
    }
    forall q | 0 <= q < |ss2| ensures States.Core(ss2[q]) == States.Cores(ss)[q] &&
      Elems(ss2[q].cfp) == ss2[q].cfg.Keys == Closure(g, States.Cores(ss)[q]) && Strict(ss2[q].cfp)
    {
      assert States.StateOk(g, ss, q);
    }
  }

  /** The follow set of an item holds every canonical LR(1) lookahead of the item, over all strings reaching the state.
      Those are what open items start with; so nothing else is in it if the grammar is lively. */
  lemma FollowSetsExact(g: Grammar, lambda: seq<bool>, first: seq<set<nat>>, cores: seq<set<Item>>, ss: seq<State>,
                        m: Ref, t: nat)
    requires Valid(g) && Exact(g, lambda, first) && Lr0(g, cores) && Solved(g, cores, ss) && F.IsNode(ss, m)
    ensures Merged(g, cores, m, t) ==> t in F.Follow(ss, m)
    ensures Merged(g, cores, m, t) <==> OpenLookahead(g, cores, m, t)
    ensures Lively(g) ==> (t in F.Follow(ss, m) <==> Merged(g, cores, m, t))
  {
    SolvedAt(g, cores, ss, m, t);
    hide Exact, Valid, Lr0, Solved, FlowIn, OpenSeed, SeedOf, Merged, Lively, Member;
    Lr1Exact(g, lambda, first, cores, m, t);
    if OpenLookahead(g, cores, m, t) { OpenIsLookahead(g, cores, m, t); }
    if Lively(g) && Lookahead(g, cores, m, t) {
      var n, k: nat :| FlowIn(g, cores, n, m, k) && SeedOf(g, cores, n, t);
      LivelySeeds(g, lambda, first, cores, n, t);
    }
  }

  lemma OpenIsLookahead(g: Grammar, cores: seq<set<Item>>, m: Ref, t: nat)
    requires OpenLookahead(g, cores, m, t)
    ensures Lookahead(g, cores, m, t)
  {
    hide Closure, FlowIn;
    var n, k: nat :| FlowIn(g, cores, n, m, k) && OpenSeed(g, cores, n, t);
    if !(n.state == 0 && n.item in StartKernel(g) && t == 0) {
      var i :| Open(g, cores, Ref(n.state, i)) && States.Contributes(g, i, n.item, t);
      var d: nat :| OpenIn(g, cores, Ref(n.state, i), d);
      assert Member(g, cores, Ref(n.state, i));
    }
    assert SeedOf(g, cores, n, t);
  }

  /** All follow sets are exact if and only if what an item starts with always arrives from open items too. */
  lemma ExactEverywhere(g: Grammar, lambda: seq<bool>, first: seq<set<nat>>, cores: seq<set<Item>>, ss: seq<State>)
    requires Valid(g) && Exact(g, lambda, first) && Lr0(g, cores) && Solved(g, cores, ss)
    ensures (forall m, t | F.IsNode(ss, m) :: t in F.Follow(ss, m) <==> Merged(g, cores, m, t)) <==>
              (forall n, t | SeedOf(g, cores, n, t) :: OpenLookahead(g, cores, n, t))
  {
    hide Exact, Valid, Lr0, Lively, Merged, OpenLookahead, Lookahead, SeedOf;
    forall m, t | F.IsNode(ss, m)
      ensures t in F.Follow(ss, m) <==> Lookahead(g, cores, m, t)
      ensures Merged(g, cores, m, t) <==> OpenLookahead(g, cores, m, t)
      ensures OpenLookahead(g, cores, m, t) ==> Lookahead(g, cores, m, t)
    {
      SolvedAt(g, cores, ss, m, t);
      FollowSetsExact(g, lambda, first, cores, ss, m, t);
    }
    hide Solved;
    if forall m, t | F.IsNode(ss, m) :: t in F.Follow(ss, m) <==> Merged(g, cores, m, t) {
      forall n, t | SeedOf(g, cores, n, t) ensures OpenLookahead(g, cores, n, t) {
        LookaheadSeed(g, cores, n, t);
        SeedIsNode(g, cores, ss, n, t);
      }
    }
    if forall n, t | SeedOf(g, cores, n, t) :: OpenLookahead(g, cores, n, t) {
      forall m, t | F.IsNode(ss, m) && t in F.Follow(ss, m) ensures Merged(g, cores, m, t) {
        SeedsDecide(g, cores, m, t);
      }
    }
  }

  lemma SeedIsNode(g: Grammar, cores: seq<set<Item>>, ss: seq<State>, n: Ref, t: nat)
    requires Solved(g, cores, ss) && SeedOf(g, cores, n, t)
    ensures F.IsNode(ss, n)
  {
  }

  lemma SeedsDecide(g: Grammar, cores: seq<set<Item>>, m: Ref, t: nat)
    requires (forall n, t | SeedOf(g, cores, n, t) :: OpenLookahead(g, cores, n, t)) && Lookahead(g, cores, m, t)
    ensures OpenLookahead(g, cores, m, t)
  {
    hide OpenLookahead, FlowIn, SeedOf;
    var n, k: nat :| FlowIn(g, cores, n, m, k) && SeedOf(g, cores, n, t);
    FlowsOn(g, cores, n, m, t, k);
  }

  lemma {:induction false} FlowsOn(g: Grammar, cores: seq<set<Item>>, n: Ref, m: Ref, t: nat, k: nat)
    requires OpenLookahead(g, cores, n, t) && FlowIn(g, cores, n, m, k)
    ensures OpenLookahead(g, cores, m, t)
    decreases k
  {
    hide OpenLookahead, Flow;
    if k > 0 {
      var l :| FlowIn(g, cores, n, l, k - 1) && Flow(g, cores, l, m);
      FlowsOn(g, cores, n, l, t, k - 1);
      OpenFlows(g, cores, l, m, t);
    }
  }

  lemma SameCore(g: Grammar, cores: seq<set<Item>>, p: nat, q: nat)
    requires Lr0(g, cores) && p < |cores| && q < |cores| && cores[p] == cores[q]
    ensures p == q
  {
  }

  lemma SolvedAt(g: Grammar, cores: seq<set<Item>>, ss: seq<State>, m: Ref, t: nat)
    requires Solved(g, cores, ss) && F.IsNode(ss, m)
    ensures m.state < |cores| && (t in F.Follow(ss, m) <==> Lookahead(g, cores, m, t))
  {
  }

  /** The rules of the start symbol are only ever reduced on `$`. */
  lemma {:induction false} StartLookahead(g: Grammar, cores: seq<set<Item>>, n: Ref, m: Ref, k: nat, t: nat)
    requires Valid(g) && FlowIn(g, cores, n, m, k) && SeedOf(g, cores, n, t)
    requires m.item.rule < |g.rules| && g.rules[m.item.rule].lhs == g.start
    ensures t == 0
    decreases k
  {
    hide Valid, Flow, SeedOf, Member;
    if k == 0 {
      StartSeed(g, cores, m, t);
    } else {
      var l :| FlowIn(g, cores, n, l, k - 1) && Flow(g, cores, l, m);
      StartFlow(g, cores, l, m);
      StartLookahead(g, cores, n, l, k - 1, t);
    }
  }

  lemma StartSeed(g: Grammar, cores: seq<set<Item>>, m: Ref, t: nat)
    requires Valid(g) && SeedOf(g, cores, m, t) && m.item.rule < |g.rules| && g.rules[m.item.rule].lhs == g.start
    ensures t == 0
  {
    NothingSpawnsStart(g, m.item);
  }

  lemma StartFlow(g: Grammar, cores: seq<set<Item>>, l: Ref, m: Ref)
    requires Valid(g) && Flow(g, cores, l, m) && m.item.rule < |g.rules| && g.rules[m.item.rule].lhs == g.start
    ensures l.item.rule == m.item.rule
  {
    NothingSpawnsStart(g, m.item);
  }

  lemma NothingSpawnsStart(g: Grammar, j: Item)
    requires Valid(g) && j.rule < |g.rules| && g.rules[j.rule].lhs == g.start
    ensures forall i :: !Spawns(g, i, j)
  {
    forall i ensures !Spawns(g, i, j) {
      if i.rule < |g.rules| { assert ValidRule(g, g.rules[i.rule]); }
    }
  }
}
