/** What can still come: every stack of the driver can be completed to a sentence, so that on a table without conflicts
    the reductions on one token come to an end, whatever the token. */
module Termination {
  import opened Grammars
  import opened Items
  import opened Machine
  import opened L = Lookaheads
  import opened S = Structs
  import opened C = Completeness
  import States
  import A = Actions

  // ----- what can complete a stack -----

  /** When the rule of item `k` of the top state has been reduced, `v` can come, up to and with `$`: as found by `n`
      steps from the bottom of the stack, a closure step counting twice. */
  ghost predicate Pending(g: Grammar, stack: seq<Entry>, k: Item, v: seq<nat>, n: nat)
    decreases n, 1
  {
    if n == 0 then |stack| == 1 && k in StartKernel(g) && v == [0]
    else
      || PendingBelow(g, stack, k, v, n - 1)
      || (n >= 2 && stack != [] && exists j, v', ts :: Pending(g, stack, j, v', n - 2) && Opens(g, j, k, ts, v, v'))
  }

  /** The same from the item with its mark before the top symbol, on the stack below. */
  ghost predicate PendingBelow(g: Grammar, stack: seq<Entry>, k: Item, v: seq<nat>, n: nat)
    decreases n, 2
  {
    |stack| > 1 && k.dot > 0 && Before(g, Item(k.rule, k.dot - 1), Top(stack).major)
    && Pending(g, stack[..|stack| - 1], Item(k.rule, k.dot - 1), v, n)
  }

  /** Item `j` brings in item `k`, and trees for what follows in `j` come before `v'`. */
  ghost predicate Opens(g: Grammar, j: Item, k: Item, ts: seq<Tree>, v: seq<nat>, v': seq<nat>) {
    Spawns(g, j, k) && ForestOk(g, ts) && Roots(g, ts) == Suffix(g, j) && v == Yields(ts) + v'
  }

  /** What can come begins with a lookahead of the item. */
  lemma {:induction false} PendingWithin(g: Grammar, cores: seq<set<Item>>, stack: seq<Entry>, k: Item, v: seq<nat>,
                                         n: nat)
    requires Lr0(g, cores) && Viable(g, cores, stack) && Pending(g, stack, k, v, n)
    ensures Within(g, cores, Parse(stack, 0, []), k, v)
    decreases n
  {
    hide Lr0, Viable, Within, Spawns, Closure, Follows, Lookahead;
    if n == 0 {
      WithinStart(g, cores, stack, k);
    } else if PendingBelow(g, stack, k, v, n - 1) {
      ViableBelow(g, cores, stack);
      PendingWithin(g, cores, stack[..|stack| - 1], Item(k.rule, k.dot - 1), v, n - 1);
      WithinAdvances(g, cores, stack, k, v);
    } else {
      var j, v', ts :| Pending(g, stack, j, v', n - 2) && Opens(g, j, k, ts, v, v');
      PendingWithin(g, cores, stack, j, v', n - 2);
      WithinOpens(g, cores, stack, j, k, ts, v, v');
    }
  }

  lemma WithinStart(g: Grammar, cores: seq<set<Item>>, stack: seq<Entry>, k: Item)
    requires Lr0(g, cores) && Viable(g, cores, stack) && |stack| == 1 && k in StartKernel(g)
    ensures Within(g, cores, Parse(stack, 0, []), k, [0])
  {
    StartWithin(g, cores, k.rule);
  }

  lemma ViableBelow(g: Grammar, cores: seq<set<Item>>, stack: seq<Entry>)
    requires Viable(g, cores, stack) && |stack| > 1
    ensures Viable(g, cores, stack[..|stack| - 1])
    ensures Trans(g, cores, Top(stack[..|stack| - 1]).stateno, Top(stack).major, Top(stack).stateno)
  {
    hide Trans;
    BelowTop(g, cores, stack);
  }

  lemma WithinAdvances(g: Grammar, cores: seq<set<Item>>, stack: seq<Entry>, k: Item, v: seq<nat>)
    requires Lr0(g, cores) && |stack| > 1 && k.dot > 0 && Before(g, Item(k.rule, k.dot - 1), Top(stack).major)
    requires Trans(g, cores, Top(stack[..|stack| - 1]).stateno, Top(stack).major, Top(stack).stateno)
    requires Within(g, cores, Parse(stack[..|stack| - 1], 0, []), Item(k.rule, k.dot - 1), v)
    ensures Within(g, cores, Parse(stack, 0, []), k, v)
  {
    hide Lr0, Member, Lookahead, Trans;
    AdvanceLookahead(g, cores, Top(stack[..|stack| - 1]).stateno, Item(k.rule, k.dot - 1), Top(stack).major,
                     Top(stack).stateno, v[0]);
  }

  lemma WithinOpens(g: Grammar, cores: seq<set<Item>>, stack: seq<Entry>, j: Item, k: Item, ts: seq<Tree>, v: seq<nat>,
                    v': seq<nat>)
    requires Lr0(g, cores) && Within(g, cores, Parse(stack, 0, []), j, v') && Opens(g, j, k, ts, v, v')
    ensures Within(g, cores, Parse(stack, 0, []), k, v)
  {
    hide Lr0, Member, Lookahead, Follows;
    ForestFollows(g, cores, Top(stack).stateno, j, ts, v');
    SpawnedLookahead(g, cores, Top(stack).stateno, j, k.rule, v[0]);
    assert k == Item(k.rule, 0);
  }

  // ----- everything on the stack can be completed -----

  /** When the nonterminals that occur generate terminal strings, so do all strings of symbols that occur. */
  lemma {:induction false} SomeForest(g: Grammar, a: seq<nat>) returns (ts: seq<Tree>)
    requires Generating(g) && AllOccur(g, a)
    ensures ForestOk(g, ts) && Roots(g, ts) == a
    decreases |a|
  {
    if a == [] {
      ts := [];
    } else {
      var us := SomeForest(g, a[1..]);
      var t := SomeTree(g, a[0]);
      ts := [t] + us;
      assert Roots(g, ts) == [a[0]] + Roots(g, us);
    }
  }

  lemma SomeTree(g: Grammar, x: nat) returns (t: Tree)
    requires Generating(g) && x < g.nsymbol && Occurs(g, x)
    ensures TreeOk(g, t) && Root(g, t) == x
  {
    if x < g.nterminal {
      t := Leaf(x);
    } else {
      var w :| AllBelow(w, g.nterminal) && Derives(g, [x], w);
      var n: nat :| DerivesIn(g, [x], w, n);
      var ts := ForestOfDerivation(g, [x], w, n);
      assert |ts| == |Roots(g, ts)| == 1;
      t := ts[0];
      assert Roots(g, ts)[0] == Root(g, t);
    }
  }

  ghost predicate Completable(g: Grammar, stack: seq<Entry>, k: Item) {
    exists v, n: nat :: Pending(g, stack, k, v, n)
  }

  ghost predicate AllCompletable(g: Grammar, stack: seq<Entry>, c: set<Item>) {
    forall k | k in c :: Completable(g, stack, k)
  }

  /** For every item of the top state there is something that can come after its rule. */
  lemma {:induction false} EverythingCompletable(g: Grammar, cores: seq<set<Item>>, stack: seq<Entry>)
    requires Valid(g) && Generating(g) && Lr0(g, cores) && Viable(g, cores, stack)
    ensures Top(stack).stateno < |cores| && AllCompletable(g, stack, Closure(g, cores[Top(stack).stateno]))
    decreases |stack|
  {
    TopInRange(g, cores, stack);
    if |stack| > 1 {
      ViableBelow(g, cores, stack);
      EverythingCompletable(g, cores, stack[..|stack| - 1]);
    }
    assert cores[Top(stack).stateno] <= AllItems(g);
    KernelCompletable(g, cores, stack);
    hide Lr0;
    ClosureCompletable(g, stack, cores[Top(stack).stateno]);
  }

  lemma ClosureCompletable(g: Grammar, stack: seq<Entry>, core: set<Item>)
    requires Valid(g) && Generating(g) && core <= AllItems(g) && AllCompletable(g, stack, core)
    ensures AllCompletable(g, stack, Closure(g, core))
  {
    ClosureIsLeast(g, core);
    var d := set k | k in Closure(g, core) && Completable(g, stack, k);
    hide Closure, Completable, Valid, Generating, AllItems;
    forall j, k | j in d && Spawns(g, j, k) ensures k in d {
      SpawnedCompletable(g, stack, j, k);
    }
    assert d <= AllItems(g) && core <= d && Closed(g, d);
  }

  lemma KernelCompletable(g: Grammar, cores: seq<set<Item>>, stack: seq<Entry>)
    requires Lr0(g, cores) && Viable(g, cores, stack) && Top(stack).stateno < |cores|
    requires |stack| > 1 ==>
               && Top(stack[..|stack| - 1]).stateno < |cores|
               && AllCompletable(g, stack[..|stack| - 1], Closure(g, cores[Top(stack[..|stack| - 1]).stateno]))
    ensures AllCompletable(g, stack, cores[Top(stack).stateno])
  {
    forall k | k in cores[Top(stack).stateno] ensures Completable(g, stack, k) {
      if |stack| == 1 {
        assert cores[0] == StartKernel(g);
        hide Lr0, Viable;
        assert Pending(g, stack, k, [0], 0);
      } else {
        BelowTop(g, cores, stack);
        FromGoto(g, cores, stack[|stack| - 2].stateno, Top(stack).major, Top(stack).stateno, k);
        hide Lr0, Viable, Closure;
        assert Completable(g, stack[..|stack| - 1], Item(k.rule, k.dot - 1));
        AdvancedCompletable(g, stack, k);
      }
    }
  }

  lemma AdvancedCompletable(g: Grammar, stack: seq<Entry>, k: Item)
    requires |stack| > 1 && k.dot > 0 && Before(g, Item(k.rule, k.dot - 1), Top(stack).major)
    requires Completable(g, stack[..|stack| - 1], Item(k.rule, k.dot - 1))
    ensures Completable(g, stack, k)
  {
    var v, n: nat :| Pending(g, stack[..|stack| - 1], Item(k.rule, k.dot - 1), v, n);
    assert PendingBelow(g, stack, k, v, n);
    assert Pending(g, stack, k, v, n + 1);
  }

  lemma SpawnedCompletable(g: Grammar, stack: seq<Entry>, j: Item, k: Item)
    requires Valid(g) && Generating(g) && Spawns(g, j, k) && Completable(g, stack, j)
    ensures Completable(g, stack, k)
  {
    var v', n: nat :| Pending(g, stack, j, v', n);
    PendingPlaced(g, stack, j, v', n);
    RestOccurs(g, stack, j, v'[..|v'| - 1]);
    assert Suffix(g, j) == g.rules[j.rule].rhs[j.dot..][1..];
    hide Valid, Generating;
    var ts := SomeForest(g, Suffix(g, j));
    assert Opens(g, j, k, ts, Yields(ts) + v', v');
    assert stack != [] && Pending(g, stack, j, v', n + 2 - 2) by { Unwound(g, stack, j, v', n); }
    assert Pending(g, stack, k, Yields(ts) + v', n + 2);
  }

  // ----- what has been shifted begins a sentence -----

  /** The stack below what an item has read. */
  function Base(stack: seq<Entry>, k: Item): seq<Entry>
    requires |stack| > k.dot
  {
    stack[..|stack| - k.dot]
  }

  /** Where the rule of item `k` has been begun, its left-hand side with `w` behind it is part of what the start symbol
      derives. */
  ghost predicate Placed(g: Grammar, stack: seq<Entry>, k: Item, w: seq<nat>) {
    && |stack| > k.dot && IsItem(g, k) && AllBelow(w, g.nterminal)
    && Word(stack) == Word(Base(stack, k)) + g.rules[k.rule].rhs[..k.dot]
    && Derives(g, [g.start], Word(Base(stack, k)) + [g.rules[k.rule].lhs] + w)
  }

  lemma {:induction false} PendingPlaced(g: Grammar, stack: seq<Entry>, k: Item, v: seq<nat>, n: nat)
    requires 0 < g.nterminal && Pending(g, stack, k, v, n)
    ensures v != [] && v[|v| - 1] == 0 && Placed(g, stack, k, v[..|v| - 1])
    decreases n
  {
    hide Placed;
    if n == 0 {
      PlacedStart(g, stack, k);
    } else if PendingBelow(g, stack, k, v, n - 1) {
      PendingPlaced(g, stack[..|stack| - 1], Item(k.rule, k.dot - 1), v, n - 1);
      PlacedAdvances(g, stack, k, v[..|v| - 1]);
    } else {
      var j, v', ts :| Pending(g, stack, j, v', n - 2) && Opens(g, j, k, ts, v, v');
      PendingPlaced(g, stack, j, v', n - 2);
      PlacedOpens(g, stack, j, k, ts, v'[..|v'| - 1]);
      assert v[..|v| - 1] == Yields(ts) + v'[..|v'| - 1];
    }
  }

  lemma PlacedStart(g: Grammar, stack: seq<Entry>, k: Item)
    requires |stack| == 1 && k in StartKernel(g)
    ensures Placed(g, stack, k, [])
  {
    DerivesRefl(g, [g.start]);
    assert Base(stack, k) == stack;
    assert Word(stack) + [g.start] + [] == [g.start];
  }

  lemma PlacedAdvances(g: Grammar, stack: seq<Entry>, k: Item, w: seq<nat>)
    requires |stack| > 1 && k.dot > 0 && Before(g, Item(k.rule, k.dot - 1), Top(stack).major)
    requires Placed(g, stack[..|stack| - 1], Item(k.rule, k.dot - 1), w)
    ensures Placed(g, stack, k, w)
  {
    assert Base(stack[..|stack| - 1], Item(k.rule, k.dot - 1)) == Base(stack, k);
    hide Derives;
    WordGrows(g, stack, k);
  }

  lemma PlacedOpens(g: Grammar, stack: seq<Entry>, j: Item, k: Item, ts: seq<Tree>, w: seq<nat>)
    requires Placed(g, stack, j, w) && Spawns(g, j, k) && ForestOk(g, ts) && Roots(g, ts) == Suffix(g, j)
    ensures Placed(g, stack, k, Yields(ts) + w)
  {
    hide Derives, CanExpand, Expand, ForestOk, Roots;
    var p, rhs, x := Word(Base(stack, j)), g.rules[j.rule].rhs, g.rules[k.rule].lhs;
    assert Base(stack, k) == stack;
    ForestDerives(g, ts);
    Expanded(g, p, j.rule, w);
    DerivesAround(g, p + rhs[..j.dot] + [x], Suffix(g, j), Yields(ts), w);
    assert rhs == rhs[..j.dot] + [x] + Suffix(g, j);
    assert p + rhs + w == p + rhs[..j.dot] + [x] + Suffix(g, j) + w;
    assert p + rhs[..j.dot] + [x] + Yields(ts) + w == Word(stack) + [x] + (Yields(ts) + w);
    DerivesTrans(g, p + [g.rules[j.rule].lhs] + w, p + rhs + w, Word(stack) + [x] + (Yields(ts) + w));
    DerivesTrans(g, [g.start], p + [g.rules[j.rule].lhs] + w, Word(stack) + [x] + (Yields(ts) + w));
  }

  lemma Expanded(g: Grammar, p: seq<nat>, r: nat, w: seq<nat>)
    requires r < |g.rules|
    ensures Derives(g, p + [g.rules[r].lhs] + w, p + g.rules[r].rhs + w)
  {
    DerivesByRule(g, r);
    DerivesAround(g, p, [g.rules[r].lhs], g.rules[r].rhs, w);
  }

  /** Every path of the automaton spells the beginning of a sentential form with only terminals behind. */
  lemma ViableBegins(g: Grammar, cores: seq<set<Item>>, stack: seq<Entry>) returns (u: seq<nat>)
    requires Valid(g) && Generating(g) && Lr0(g, cores) && Viable(g, cores, stack)
    ensures AllBelow(u, g.nterminal) && Derives(g, [g.start], Word(stack) + u)
  {
    if |stack| == 1 {
      StartOccurs(g);
      u :| AllBelow(u, g.nterminal) && Derives(g, [g.start], u);
      assert Word(stack) + u == u;
    } else {
      var k := TopItem(g, cores, stack);
      EverythingCompletable(g, cores, stack);
      hide Valid, Generating, Lr0, Viable, Closure;
      assert Completable(g, stack, k);
      var v, n: nat :| Pending(g, stack, k, v, n);
      PendingPlaced(g, stack, k, v, n);
      u := PlacedBegins(g, stack, k, v[..|v| - 1]);
    }
  }

  /** On a symbol the automaton goes only to states with an item behind that symbol. */
  lemma TopItem(g: Grammar, cores: seq<set<Item>>, stack: seq<Entry>) returns (k: Item)
    requires Lr0(g, cores) && Viable(g, cores, stack) && |stack| > 1
    ensures Top(stack).stateno < |cores| && k in Closure(g, cores[Top(stack).stateno]) && k in cores[Top(stack).stateno]
    ensures k.dot > 0
  {
    BelowTop(g, cores, stack);
    var q, x, c := Top(stack).stateno, Top(stack).major, Closure(g, cores[stack[|stack| - 2].stateno]);
    var i :| i in c && IsItem(g, i) && !AtEnd(g, i) && g.rules[i.rule].rhs[i.dot] == x;
    k := Advance(i);
    assert Before(g, i, x) && k in Goto(g, c, x);
    assert cores[q] <= AllItems(g);
    ClosureIsLeast(g, cores[q]);
  }

  lemma PlacedBegins(g: Grammar, stack: seq<Entry>, k: Item, w: seq<nat>) returns (u: seq<nat>)
    requires Valid(g) && Generating(g) && Placed(g, stack, k, w)
    ensures AllBelow(u, g.nterminal) && Derives(g, [g.start], Word(stack) + u)
  {
    RestOccurs(g, stack, k, w);
    var ts := SomeForest(g, g.rules[k.rule].rhs[k.dot..]);
    ForestDerives(g, ts);
    hide Derives, Valid, Generating, ForestOk, Roots, Word;
    u := Yields(ts) + w;
    RestRead(g, Word(Base(stack, k)), k, Yields(ts), w);
  }

  /** A rule with the part beyond the mark read to the end. */
  lemma RestRead(g: Grammar, p: seq<nat>, k: Item, y: seq<nat>, w: seq<nat>)
    requires IsItem(g, k) && Derives(g, [g.start], p + [g.rules[k.rule].lhs] + w)
    requires Derives(g, g.rules[k.rule].rhs[k.dot..], y)
    ensures Derives(g, [g.start], p + g.rules[k.rule].rhs[..k.dot] + (y + w))
  {
    hide Derives;
    var rhs := g.rules[k.rule].rhs;
    Expanded(g, p, k.rule, w);
    DerivesTrans(g, [g.start], p + [g.rules[k.rule].lhs] + w, p + rhs + w);
    DerivesAround(g, p + rhs[..k.dot], rhs[k.dot..], y, w);
    Regroup(p, rhs, k.dot, w);
    assert p + rhs[..k.dot] + y + w == p + rhs[..k.dot] + (y + w);
    DerivesTrans(g, [g.start], p + rhs + w, p + rhs[..k.dot] + (y + w));
  }

  lemma Regroup(p: seq<nat>, a: seq<nat>, d: nat, w: seq<nat>)
    requires d <= |a|
    ensures p + a + w == p + a[..d] + a[d..] + w
  {
    assert a == a[..d] + a[d..];
  }

  /** What a rule that has been begun on the stack still waits for occurs in what the start symbol derives. */
  lemma RestOccurs(g: Grammar, stack: seq<Entry>, k: Item, w: seq<nat>)
    requires Valid(g) && Placed(g, stack, k, w)
    ensures AllOccur(g, g.rules[k.rule].rhs[k.dot..])
  {
    hide Derives;
    var base := Word(Base(stack, k));
    assert Occurs(g, g.rules[k.rule].lhs);
    RuleOccurs(g, k.rule);
  }

  /** The driver shifts nothing that cannot go on to a sentence, whatever it has been fed and however conflicts were
      resolved: the tokens shifted begin a sentence of the grammar. */
  lemma ShiftedBeginsSentence(g: Grammar, cores: seq<set<Item>>, cells: seq<seq<Cell>>, depth: nat, input: seq<nat>,
                              n: nat)
    returns (u: seq<nat>)
    requires Valid(g) && Generating(g) && Lr0(g, cores) && Faithful(g, cores, cells) && AllBelow(input, g.nterminal)
    requires Steps(g, cells, depth, Conf(Start(), input), n).m.stack != []
    ensures AllBelow(u, g.nterminal)
    ensures Derives(g, [g.start], Shifts(Steps(g, cells, depth, Conf(Start(), input), n).m.log) + u)
  {
    StartSound(g, cores);
    hide Faithful, Steps, Sound, Valid, Generating, Lr0;
    assert RunOk(g, cores, Conf(Start(), input), input) by { assert Tokens([]) + input == input; }
    StepsRun(g, cores, cells, depth, Conf(Start(), input), input, n);
    u := SoundBegins(g, cores, Steps(g, cells, depth, Conf(Start(), input), n).m);
  }

  lemma SoundBegins(g: Grammar, cores: seq<set<Item>>, m: Parse) returns (u: seq<nat>)
    requires Valid(g) && Generating(g) && Lr0(g, cores) && Sound(g, cores, m) && m.stack != []
    ensures AllBelow(u, g.nterminal) && Derives(g, [g.start], Shifts(m.log) + u)
  {
    hide Viable, Valid, Generating, Lr0, Rightmost, Derives;
    u := ViableBegins(g, cores, m.stack);
    var a, w := Word(m.stack), Shifts(m.log);
    hide Word, Shifts;
    RightmostDerives(g, a, Reductions(m.log), w);
    DerivesAround(g, [], a, w, u);
    assert [] + a + u == a + u && [] + w + u == w + u;
    DerivesTrans(g, [g.start], a + u, w + u);
  }

  // ----- the driver completes every stack -----

  /** On input `u` the driver accepts, having done nothing but shift and reduce before. */
  ghost predicate Finishes(g: Grammar, cells: seq<seq<Cell>>, depth: nat, m: Parse, u: seq<nat>) {
    exists n: nat :: FinishesIn(g, cells, depth, m, u, n)
  }

  ghost predicate FinishesIn(g: Grammar, cells: seq<seq<Cell>>, depth: nat, m: Parse, u: seq<nat>, n: nat) {
    var log := Steps(g, cells, depth, Conf(m, u), n).m.log;
    Accepted in log && forall e | e in log :: e in m.log || e.Shifted? || e.Reduced? || e == Accepted
  }

  /** What is pending for an item, seen from where its rule began. */
  lemma {:induction false} Unwound(g: Grammar, stack: seq<Entry>, k: Item, v: seq<nat>, n: nat)
    requires Pending(g, stack, k, v, n)
    ensures |stack| > k.dot && k.dot <= n && Pending(g, Base(stack, k), Item(k.rule, 0), v, n - k.dot)
    decreases k.dot
  {
    if k.dot == 0 {
      assert Base(stack, k) == stack;
    } else {
      assert PendingBelow(g, stack, k, v, n - 1);
      var below := stack[..|stack| - 1];
      Unwound(g, below, Item(k.rule, k.dot - 1), v, n - 1);
      assert Base(below, Item(k.rule, k.dot - 1)) == Base(stack, k);
    }
  }

  /** On a table without conflicts the driver reads the rest of the rule of an item and then whatever is pending, and
      accepts, given stack enough. */
  lemma {:induction false} Finish(g: Grammar, cores: seq<set<Item>>, cells: seq<seq<Cell>>, stack: seq<Entry>, k: Item,
                                  ts: seq<Tree>, v: seq<nat>, n: nat) returns (need: nat)
    requires Valid(g) && Lr0(g, cores) && Complete(g, cores, cells) && Viable(g, cores, stack)
    requires Pending(g, stack, k, v, n) && ForestOk(g, ts) && IsItem(g, k)
             && Roots(g, ts) == g.rules[k.rule].rhs[k.dot..]
    ensures forall depth: nat, m: Parse | depth >= need && m.stack == stack ::
              Finishes(g, cells, depth, m, Yields(ts) + v)
    decreases n
  {
    hide Valid, Lr0, Complete, Viable, ForestOk, Roots, Finishes, Closure;
    PendingWithin(g, cores, stack, k, v, n);
    Unwound(g, stack, k, v, n);
    ViableBase(g, cores, stack, k);
    var base := Base(stack, k);
    if n == k.dot {
      need := |stack| + Sizes(ts);
      forall depth: nat, m: Parse | depth >= need && m.stack == stack
        ensures Finishes(g, cells, depth, m, Yields(ts) + v)
      {
        FinishStart(g, cores, cells, depth, m, k, ts);
      }
    } else {
      var j, v', us :| Pending(g, base, j, v', n - k.dot - 2) && Opens(g, j, Item(k.rule, 0), us, v, v');
      RootsBehind(g, j, k, us, v, v');
      var q := GotoBehind(g, cores, base, j, g.rules[k.rule].lhs, v', n - k.dot - 2);
      var e := Entry(q, g.rules[k.rule].lhs);
      PendingAdvance(g, base, j, e, v', n - k.dot - 2);
      ViableGrows(g, cores, base, e);
      var need' := Finish(g, cores, cells, base + [e], Advance(j), us, v', n - k.dot - 1);
      need := |stack| + Sizes(ts) + 1 + need';
      forall depth: nat, m: Parse | depth >= need && m.stack == stack
        ensures Finishes(g, cells, depth, m, Yields(ts) + v)
      {
        FinishRule(g, cores, cells, depth, m, k, ts, v, e);
      }
    }
  }

  lemma ViableBase(g: Grammar, cores: seq<set<Item>>, stack: seq<Entry>, k: Item)
    requires Viable(g, cores, stack) && |stack| > k.dot
    ensures Viable(g, cores, Base(stack, k)) && stack[0] == Base(stack, k)[0] && stack[0].stateno == 0
  {
    hide Trans;
  }

  lemma GotoBehind(g: Grammar, cores: seq<set<Item>>, base: seq<Entry>, j: Item, x: nat, v: seq<nat>, n: nat)
    returns (q: nat)
    requires Lr0(g, cores) && Viable(g, cores, base) && Pending(g, base, j, v, n) && Before(g, j, x)
    ensures Trans(g, cores, Top(base).stateno, x, q)
  {
    PendingWithin(g, cores, base, j, v, n);
    hide Lr0, Viable, Pending, Lookahead;
    q := TransFrom(g, cores, Top(base).stateno, j, x);
  }

  lemma PendingAdvance(g: Grammar, base: seq<Entry>, j: Item, e: Entry, v: seq<nat>, n: nat)
    requires Pending(g, base, j, v, n) && Before(g, j, e.major)
    ensures Pending(g, base + [e], Advance(j), v, n + 1)
  {
    var stack := base + [e];
    assert base != [] by { Unwound(g, base, j, v, n); }
    assert stack[..|stack| - 1] == base && Item(Advance(j).rule, Advance(j).dot - 1) == j;
    assert PendingBelow(g, stack, Advance(j), v, n);
  }

  lemma RootsBehind(g: Grammar, j: Item, k: Item, ts: seq<Tree>, v: seq<nat>, v': seq<nat>)
    requires Opens(g, j, Item(k.rule, 0), ts, v, v')
    ensures Before(g, j, g.rules[k.rule].lhs) && IsItem(g, Advance(j)) && ForestOk(g, ts)
    ensures Roots(g, ts) == g.rules[j.rule].rhs[Advance(j).dot..] && v == Yields(ts) + v'
  {
  }

  /** The rest of a start rule, with nothing but what the item has read on the stack. */
  lemma FinishStart(g: Grammar, cores: seq<set<Item>>, cells: seq<seq<Cell>>, depth: nat, m: Parse, k: Item,
                    ts: seq<Tree>)
    requires Valid(g) && Lr0(g, cores) && Complete(g, cores, cells) && ForestOk(g, ts)
    requires Within(g, cores, Parse(m.stack, 0, []), k, [0]) && Roots(g, ts) == g.rules[k.rule].rhs[k.dot..]
    requires |m.stack| == 1 + k.dot && m.stack[0].stateno == 0 && g.rules[k.rule].lhs == g.start
    requires depth >= |m.stack| + Sizes(ts)
    ensures Finishes(g, cells, depth, m, Yields(ts) + [0])
  {
    AllKids(g, k, ts);
    hide Valid, Lr0, Complete, ForestOk, Roots, Member, Lookahead, A.IsReduction, Steps;
    var n, m1 := RunKids(g, cores, cells, depth, m, k.rule, k.dot, ts, [0]);
    assert m1.stack[0] == m1.stack[..|m.stack|][0];
    hide Within;
    RunAccept(g, cores, cells, depth, m1, k.rule);
    assert FinishesIn(g, cells, depth, m1, [0], 1);
    FinishesFrom(g, cells, depth, m, Yields(ts) + [0], n, m1, [0]);
  }

  lemma AllKids(g: Grammar, k: Item, ts: seq<Tree>)
    requires IsItem(g, k) && Roots(g, ts) == g.rules[k.rule].rhs[k.dot..]
    ensures |ts| + k.dot == |g.rules[k.rule].rhs|
  {
    assert |Roots(g, ts)| == |ts|;
  }

  /** The rest of a rule and its reduction, when all finishes from there. */
  lemma FinishRule(g: Grammar, cores: seq<set<Item>>, cells: seq<seq<Cell>>, depth: nat, m: Parse, k: Item,
                   ts: seq<Tree>, v: seq<nat>, e: Entry)
    requires Valid(g) && Lr0(g, cores) && Complete(g, cores, cells) && ForestOk(g, ts)
    requires Within(g, cores, Parse(m.stack, 0, []), k, v) && Roots(g, ts) == g.rules[k.rule].rhs[k.dot..]
    requires |m.stack| > k.dot && e.major == g.rules[k.rule].lhs && depth > |m.stack| + Sizes(ts)
    requires Trans(g, cores, Top(Base(m.stack, k)).stateno, e.major, e.stateno)
    requires forall m': Parse | m'.stack == Base(m.stack, k) + [e] :: Finishes(g, cells, depth, m', v)
    ensures Finishes(g, cells, depth, m, Yields(ts) + v)
  {
    hide Valid, Lr0, Complete, ForestOk, Roots, Member, Lookahead, Steps, Trans, A.IsReduction, Finishes;
    AllKids(g, k, ts);
    var n1, m1 := RunKids(g, cores, cells, depth, m, k.rule, k.dot, ts, v);
    FinishReduced(g, cores, cells, depth, m, k, ts, v, e, n1, m1);
  }

  lemma FinishReduced(g: Grammar, cores: seq<set<Item>>, cells: seq<seq<Cell>>, depth: nat, m: Parse, k: Item,
                      ts: seq<Tree>, v: seq<nat>, e: Entry, n1: nat, m1: Parse)
    requires Complete(g, cores, cells) && KidsRead(g, cores, cells, depth, m, k.rule, ts, v, n1, m1)
    requires |m.stack| > k.dot && k.rule < |g.rules| && |ts| + k.dot == |g.rules[k.rule].rhs|
    requires e.major == g.rules[k.rule].lhs && depth > |m.stack|
    requires Trans(g, cores, Top(Base(m.stack, k)).stateno, e.major, e.stateno)
    requires forall m': Parse | m'.stack == Base(m.stack, k) + [e] :: Finishes(g, cells, depth, m', v)
    ensures Finishes(g, cells, depth, m, Yields(ts) + v)
  {
    hide Complete, A.IsReduction, Steps, Trans;
    var base := Base(m.stack, k);
    Prefixes(m.stack, m1.stack, |base|);
    var m2 := RunReduce(g, cores, cells, depth, m.(stack := base), m1, k.rule, e.stateno, v);
    assert Finishes(g, cells, depth, m2, v);
    hide Popped, Viable;
    StepsAdd(g, cells, depth, Conf(m, Yields(ts) + v), n1, 1);
    FinishesFrom(g, cells, depth, m, Yields(ts) + v, n1 + 1, m2, v);
  }

  lemma Prefixes(a: seq<Entry>, b: seq<Entry>, n: nat)
    requires n <= |a| <= |b| && b[..|a|] == a
    ensures b[..n] == a[..n]
  {
    assert b[..n] == b[..|a|][..n];
  }

  lemma FinishesFrom(g: Grammar, cells: seq<seq<Cell>>, depth: nat, m: Parse, u: seq<nat>, n: nat, m': Parse,
                     v: seq<nat>)
    requires Steps(g, cells, depth, Conf(m, u), n) == Conf(m', v) && Smooth(m.log, m'.log)
    requires Finishes(g, cells, depth, m', v)
    ensures Finishes(g, cells, depth, m, u)
  {
    hide Steps;
    var n': nat :| FinishesIn(g, cells, depth, m', v, n');
    StepsAdd(g, cells, depth, Conf(m, u), n, n');
    assert FinishesIn(g, cells, depth, m, u, n + n');
  }

  // ----- reductions on one token -----

  /** The stack after the reduction that the table has on token `x`; none if it has none, or accepts. */
  function AfterReduction(g: Grammar, cells: seq<seq<Cell>>, stack: seq<Entry>, x: nat): seq<Entry> {
    if stack == [] then []
    else
      match Lookup(cells, Top(stack).stateno, x)
      case ReduceBy(r) =>
        if r >= |g.rules| || |stack| <= |g.rules[r].rhs| then []
        else
          var base := Popped(g, stack, r);
          (match Lookup(cells, Top(base).stateno, g.rules[r].lhs)
           case ShiftTo(j) => base + [Entry(j, g.rules[r].lhs)]
           case _ => [])
      case _ => []
  }

  function AfterReductions(g: Grammar, cells: seq<seq<Cell>>, stack: seq<Entry>, x: nat, n: nat): seq<Entry>
    decreases n
  {
    if n == 0 then stack else AfterReductions(g, cells, AfterReduction(g, cells, stack, x), x, n - 1)
  }

  lemma {:induction false} NoneStays(g: Grammar, cells: seq<seq<Cell>>, x: nat, n: nat)
    ensures AfterReductions(g, cells, [], x, n) == []
    decreases n
  {
    if n > 0 { NoneStays(g, cells, x, n - 1); }
  }

  lemma {:induction false} EndedStays(g: Grammar, cells: seq<seq<Cell>>, stack: seq<Entry>, x: nat, m: nat, n: nat)
    requires m <= n && AfterReductions(g, cells, stack, x, m) == []
    ensures AfterReductions(g, cells, stack, x, n) == []
    decreases m
  {
    hide AfterReduction;
    if m == 0 {
      NoneStays(g, cells, x, n);
    } else {
      EndedStays(g, cells, AfterReduction(g, cells, stack, x), x, m - 1, n - 1);
    }
  }

  /** What a reduction on a faithful table does to the stack. */
  ghost predicate ReducesTo(g: Grammar, cores: seq<set<Item>>, stack: seq<Entry>, r: nat, e: Entry) {
    && r < |g.rules| && |stack| > |g.rules[r].rhs| && e.major == g.rules[r].lhs
    && Word(stack) == Word(Popped(g, stack, r)) + g.rules[r].rhs && Viable(g, cores, Popped(g, stack, r))
    && Trans(g, cores, Top(Popped(g, stack, r)).stateno, e.major, e.stateno)
  }

  lemma ReductionTaken(g: Grammar, cores: seq<set<Item>>, cells: seq<seq<Cell>>, stack: seq<Entry>, t: nat)
    returns (r: nat, e: Entry)
    requires Valid(g) && Lr0(g, cores) && Faithful(g, cores, cells) && Viable(g, cores, stack) && t < g.nterminal
    requires AfterReduction(g, cells, stack, t) != []
    ensures ReducesTo(g, cores, stack, r, e) && Lookup(cells, Top(stack).stateno, t) == ReduceBy(r)
    ensures AfterReduction(g, cells, stack, t) == Popped(g, stack, r) + [e]
    ensures Viable(g, cores, Popped(g, stack, r) + [e])
  {
    hide Valid, Lr0, Faithful, Viable, Lookup, Trans, Word;
    r := Lookup(cells, Top(stack).stateno, t).rule;
    ReductionWorks(g, cores, cells, Parse(stack, 0, []), t, r);
    var base, x := Popped(g, stack, r), g.rules[r].lhs;
    var j :| Lookup(cells, Top(base).stateno, x) == ShiftTo(j) && Trans(g, cores, Top(base).stateno, x, j);
    e := Entry(j, x);
    ViableGrows(g, cores, base, e);
  }

  /** What is pending above a goto is pending for the rule that was reduced. */
  lemma {:induction false} PendingReduced(g: Grammar, base: seq<Entry>, e: Entry, r: nat, k: Item, ts: seq<Tree>,
                                          v: seq<nat>, n: nat) returns (n': nat)
    requires base != [] && r < |g.rules| && e.major == g.rules[r].lhs && Pending(g, base + [e], k, v, n)
    requires IsItem(g, k) && ForestOk(g, ts) && Roots(g, ts) == g.rules[k.rule].rhs[k.dot..]
    ensures Pending(g, base, Item(r, 0), Yields(ts) + v, n')
    decreases n
  {
    hide ForestOk, Roots;
    var stack := base + [e];
    assert |stack| > 1 && n > 0;
    if PendingBelow(g, stack, k, v, n - 1) {
      n' := n + 1;
      ReducedBelow(g, base, e, r, k, ts, v, n);
    } else {
      var j, v', us :| Pending(g, stack, j, v', n - 2) && Opens(g, j, k, us, v, v');
      OuterForest(g, j, k, ts, us, v, v');
      n' := PendingReduced(g, base, e, r, j, [Node(k.rule, ts)] + us, v', n - 2);
    }
  }

  lemma ReducedBelow(g: Grammar, base: seq<Entry>, e: Entry, r: nat, k: Item, ts: seq<Tree>, v: seq<nat>, n: nat)
    requires base != [] && r < |g.rules| && e.major == g.rules[r].lhs && n > 0
             && PendingBelow(g, base + [e], k, v, n - 1)
    requires IsItem(g, k) && ForestOk(g, ts) && Roots(g, ts) == g.rules[k.rule].rhs[k.dot..]
    ensures Pending(g, base, Item(r, 0), Yields(ts) + v, n + 1)
  {
    hide ForestOk, Roots;
    var stack := base + [e];
    assert stack[..|stack| - 1] == base;
    assert Opens(g, Item(k.rule, k.dot - 1), Item(r, 0), ts, Yields(ts) + v, v);
    assert Pending(g, base, Item(k.rule, k.dot - 1), v, n + 1 - 2);
  }

  lemma OuterForest(g: Grammar, j: Item, k: Item, ts: seq<Tree>, us: seq<Tree>, v: seq<nat>, v': seq<nat>)
    requires Opens(g, j, k, us, v, v') && IsItem(g, k) && ForestOk(g, ts)
             && Roots(g, ts) == g.rules[k.rule].rhs[k.dot..]
    ensures var all := [Node(k.rule, ts)] + us;
            && IsItem(g, j) && ForestOk(g, all) && Roots(g, all) == g.rules[j.rule].rhs[j.dot..]
            && Yields(all) + v' == Yields(ts) + v
  {
    var all, rhs := [Node(k.rule, ts)] + us, g.rules[j.rule].rhs;
    assert |Roots(g, ts)| == |ts| && g.rules[k.rule].rhs[0..] == g.rules[k.rule].rhs;
    assert forall i | 0 <= i < |ts| :: Roots(g, ts)[i] == Root(g, ts[i]);
    FoldNode(g, k.rule, ts);
    assert Roots(g, all) == [g.rules[k.rule].lhs] + Roots(g, us);
    assert rhs[j.dot..] == [rhs[j.dot]] + rhs[j.dot + 1..];
    assert all[1..] == us && Yields(all) == Yield(all[0]) + Yields(us);
    assert Yields(ts) + Yields(us) + v' == Yields(ts) + (Yields(us) + v');
  }

  /** Up along the right-hand side. */
  lemma {:induction false} PendingAlong(g: Grammar, stack: seq<Entry>, r: nat, d: nat, u: seq<nat>, n: nat)
    requires r < |g.rules| && d <= |g.rules[r].rhs| && |stack| > d
    requires Word(stack) == Word(stack[..|stack| - d]) + g.rules[r].rhs[..d]
    requires Pending(g, stack[..|stack| - d], Item(r, 0), u, n)
    ensures Pending(g, stack, Item(r, d), u, n + d)
    decreases d
  {
    if d == 0 {
      assert stack[..|stack|] == stack;
    } else {
      var below := stack[..|stack| - 1];
      TopIsLast(stack, g.rules[r].rhs, d);
      hide Word;
      assert below[..|below| - (d - 1)] == stack[..|stack| - d];
      PendingAlong(g, below, r, d - 1, u, n);
      assert PendingBelow(g, stack, Item(r, d), u, n + d - 1);
    }
  }

  lemma TopIsLast(stack: seq<Entry>, rhs: seq<nat>, d: nat)
    requires 0 < d <= |rhs| && |stack| > d && Word(stack) == Word(stack[..|stack| - d]) + rhs[..d]
    ensures Top(stack).major == rhs[d - 1]
    ensures Word(stack[..|stack| - 1]) == Word(stack[..|stack| - d]) + rhs[..d - 1]
  {
    var below, p := stack[..|stack| - 1], Word(stack[..|stack| - d]);
    assert Word(stack) == Word(below) + [Top(stack).major];
    assert rhs[..d] == rhs[..d - 1] + [rhs[d - 1]];
    assert p + rhs[..d] == p + rhs[..d - 1] + [rhs[d - 1]];
    LastOf(Word(below), Top(stack).major, p + rhs[..d - 1], rhs[d - 1]);
  }

  lemma LastOf(a: seq<nat>, x: nat, b: seq<nat>, y: nat)
    requires a + [x] == b + [y]
    ensures a == b && x == y
  {
    assert (a + [x])[|a|] == x && (b + [y])[|b|] == y;
    assert a == (a + [x])[..|a|] && b == (b + [y])[..|b|];
  }

  /** The item of a reduction has the lookahead that what is pending above its goto begins with. */
  lemma ReductionPending(g: Grammar, stack: seq<Entry>, r: nat, e: Entry, k: Item, ts: seq<Tree>, v: seq<nat>, n: nat)
    returns (n': nat)
    requires r < |g.rules| && |stack| > |g.rules[r].rhs| && e.major == g.rules[r].lhs
    requires Word(stack) == Word(Popped(g, stack, r)) + g.rules[r].rhs
    requires Pending(g, Popped(g, stack, r) + [e], k, v, n)
    requires IsItem(g, k) && ForestOk(g, ts) && Roots(g, ts) == g.rules[k.rule].rhs[k.dot..]
    ensures Pending(g, stack, Item(r, |g.rules[r].rhs|), Yields(ts) + v, n')
  {
    hide Pending, ForestOk, Roots;
    var rhs := g.rules[r].rhs;
    var n1 := PendingReduced(g, Popped(g, stack, r), e, r, k, ts, v, n);
    assert rhs[..|rhs|] == rhs;
    PendingAlong(g, stack, r, |rhs|, Yields(ts) + v, n1);
    n' := n1 + |rhs|;
  }

  /** A completion of the stack that reductions on `t` lead to would have made the driver do the same reductions. */
  ghost predicate Retraced(g: Grammar, cells: seq<seq<Cell>>, stack: seq<Entry>, t: nat, m: nat, k: Item, ts: seq<Tree>,
                           v: seq<nat>, n: nat) {
    && IsItem(g, k) && ForestOk(g, ts) && Roots(g, ts) == g.rules[k.rule].rhs[k.dot..] && Pending(g, stack, k, v, n)
    && v != [] && (Yields(ts) + v)[0] < g.nterminal
    && AfterReductions(g, cells, stack, (Yields(ts) + v)[0], m) == AfterReductions(g, cells, stack, t, m)
  }

  lemma {:induction false} Retrace(g: Grammar, cores: seq<set<Item>>, cells: seq<seq<Cell>>, stack: seq<Entry>, t: nat,
                                   m: nat)
    returns (k: Item, ts: seq<Tree>, v: seq<nat>, n: nat)
    requires Valid(g) && Generating(g) && Lr0(g, cores) && Faithful(g, cores, cells) && Complete(g, cores, cells)
    requires Viable(g, cores, stack) && t < g.nterminal && AfterReductions(g, cells, stack, t, m) != []
    requires m > 0 || |stack| > 1
    ensures Retraced(g, cells, stack, t, m, k, ts, v, n)
    decreases m
  {
    hide Valid, Generating, Lr0, Faithful, Complete, Viable, Retraced, AfterReduction, Trans, Word;
    if m == 0 {
      k, ts, v, n := RetraceNone(g, cores, cells, stack, t);
    } else {
      if AfterReduction(g, cells, stack, t) == [] { NoneStays(g, cells, t, m - 1); }
      var r, e := ReductionTaken(g, cores, cells, stack, t);
      k, ts, v, n := Retrace(g, cores, cells, Popped(g, stack, r) + [e], t, m - 1);
      k, ts, v, n := RetraceOne(g, cores, cells, stack, t, m, r, e, k, ts, v, n);
    }
  }

  lemma RetraceNone(g: Grammar, cores: seq<set<Item>>, cells: seq<seq<Cell>>, stack: seq<Entry>, t: nat)
    returns (k: Item, ts: seq<Tree>, v: seq<nat>, n: nat)
    requires Valid(g) && Generating(g) && Lr0(g, cores) && Viable(g, cores, stack) && |stack| > 1
    ensures Retraced(g, cells, stack, t, 0, k, ts, v, n)
  {
    k := TopItem(g, cores, stack);
    EverythingCompletable(g, cores, stack);
    assert Completable(g, stack, k);
    v, n :| Pending(g, stack, k, v, n);
    hide Viable, Lr0, Closure, Pending, Generating;
    PendingPlaced(g, stack, k, v, n);
    RestOccurs(g, stack, k, v[..|v| - 1]);
    ts := SomeForest(g, g.rules[k.rule].rhs[k.dot..]);
    FirstBelow(g, ts, v);
  }

  lemma FirstBelow(g: Grammar, ts: seq<Tree>, v: seq<nat>)
    requires 0 < g.nterminal && ForestOk(g, ts) && v != [] && v[|v| - 1] == 0 && AllBelow(v[..|v| - 1], g.nterminal)
    ensures (Yields(ts) + v)[0] < g.nterminal
  {
    ForestDerives(g, ts);
    assert |v| > 1 ==> v[..|v| - 1][0] == v[0];
  }

  lemma RetraceOne(g: Grammar, cores: seq<set<Item>>, cells: seq<seq<Cell>>, stack: seq<Entry>, t: nat, m: nat, r: nat,
                   e: Entry, k: Item, ts: seq<Tree>, v: seq<nat>, n: nat)
    returns (k': Item, ts': seq<Tree>, v': seq<nat>, n': nat)
    requires Lr0(g, cores) && Complete(g, cores, cells) && Viable(g, cores, stack) && m > 0
    requires ReducesTo(g, cores, stack, r, e) && Lookup(cells, Top(stack).stateno, t) == ReduceBy(r)
    requires AfterReduction(g, cells, stack, t) == Popped(g, stack, r) + [e]
    requires Retraced(g, cells, Popped(g, stack, r) + [e], t, m - 1, k, ts, v, n)
    ensures Retraced(g, cells, stack, t, m, k', ts', v', n')
  {
    hide Lr0, Complete, Viable, Pending, Trans, Lookup, Word;
    var u := Yields(ts) + v;
    k', ts', v' := Item(r, |g.rules[r].rhs|), [], u;
    n' := ReductionPending(g, stack, r, e, k, ts, v, n);
    SameReduction(g, cores, cells, stack, r, u, n');
    assert AfterReduction(g, cells, stack, u[0]) == AfterReduction(g, cells, stack, t);
    assert Yields([]) + u == u && Roots(g, []) == g.rules[r].rhs[k'.dot..];
  }

  lemma SameReduction(g: Grammar, cores: seq<set<Item>>, cells: seq<seq<Cell>>, stack: seq<Entry>, r: nat, u: seq<nat>,
                      n: nat)
    requires Lr0(g, cores) && Complete(g, cores, cells) && Viable(g, cores, stack) && r < |g.rules|
    requires Pending(g, stack, Item(r, |g.rules[r].rhs|), u, n)
    ensures u != [] && Lookup(cells, Top(stack).stateno, u[0]) == ReduceBy(r)
  {
    hide Lr0, Viable, Pending, Lookup, Member, Lookahead, Trans;
    PendingWithin(g, cores, stack, Item(r, |g.rules[r].rhs|), u, n);
    assert A.IsReduction(g, cores, Top(stack).stateno, r, u[0]);
  }

  // ----- they come to an end -----

  /** As long as the driver only reduces, its log grows by reductions only, or it overflows. */
  lemma {:induction false} OnlyReduces(g: Grammar, cells: seq<seq<Cell>>, depth: nat, m: Parse, u: seq<nat>, n: nat)
    requires u != [] && AfterReductions(g, cells, m.stack, u[0], n) != []
    ensures forall x | x in Steps(g, cells, depth, Conf(m, u), n).m.log :: x in m.log || x.Reduced? || x == Overflowed
    decreases n
  {
    if n > 0 {
      var x := u[0];
      if AfterReduction(g, cells, m.stack, x) == [] { NoneStays(g, cells, x, n - 1); }
      OneReduces(g, cells, depth, m, x);
      var m' := Step(g, cells, depth, m, x).0;
      hide Step, AfterReduction;
      assert StepConf(g, cells, depth, Conf(m, u)) == Conf(m', u);
      if m'.stack == [] {
        Halted(g, cells, depth, Conf(m', u), n - 1);
      } else {
        OnlyReduces(g, cells, depth, m', u, n - 1);
      }
    }
  }

  lemma OneReduces(g: Grammar, cells: seq<seq<Cell>>, depth: nat, m: Parse, x: nat)
    requires AfterReduction(g, cells, m.stack, x) != []
    ensures m.stack != [] && !Step(g, cells, depth, m, x).1
    ensures var m' := Step(g, cells, depth, m, x).0;
            && (m'.stack == [] || m'.stack == AfterReduction(g, cells, m.stack, x))
            && forall e | e in m'.log :: e in m.log || e.Reduced? || e == Overflowed
  {
  }

  lemma {:induction false} Halted(g: Grammar, cells: seq<seq<Cell>>, depth: nat, c: Conf, n: nat)
    requires c.m.stack == [] || c.input == []
    ensures Steps(g, cells, depth, c, n) == c
    decreases n
  {
    if n > 0 { Halted(g, cells, depth, c, n - 1); }
  }

  /** On the first token of a completion the reductions end. */
  lemma CompletionEnds(g: Grammar, cores: seq<set<Item>>, cells: seq<seq<Cell>>, stack: seq<Entry>, k: Item,
                       ts: seq<Tree>, v: seq<nat>, n: nat)
    requires Valid(g) && Lr0(g, cores) && Complete(g, cores, cells) && Viable(g, cores, stack) && v != []
    requires Pending(g, stack, k, v, n) && ForestOk(g, ts) && IsItem(g, k)
             && Roots(g, ts) == g.rules[k.rule].rhs[k.dot..]
    ensures Ends(g, cells, stack, (Yields(ts) + v)[0])
  {
    var need := Finish(g, cores, cells, stack, k, ts, v, n);
    var m, u := Parse(stack, 0, []), Yields(ts) + v;
    assert Finishes(g, cells, need, m, u);
    var n': nat :| FinishesIn(g, cells, need, m, u, n');
    if AfterReductions(g, cells, stack, u[0], n') != [] {
      OnlyReduces(g, cells, need, m, u, n');
    }
    assert EndsBy(g, cells, stack, u[0], n');
  }

  ghost predicate EndsBy(g: Grammar, cells: seq<seq<Cell>>, stack: seq<Entry>, x: nat, n: nat) {
    AfterReductions(g, cells, stack, x, n) == []
  }

  ghost predicate Ends(g: Grammar, cells: seq<seq<Cell>>, stack: seq<Entry>, x: nat) {
    exists n: nat :: EndsBy(g, cells, stack, x, n)
  }

  /** One bound for all the tokens on which the reductions end. */
  lemma {:induction false} CommonBound(g: Grammar, cells: seq<seq<Cell>>, stack: seq<Entry>, terminals: nat)
    returns (bound: nat)
    ensures forall x: nat | x < terminals && Ends(g, cells, stack, x) :: EndsBy(g, cells, stack, x, bound)
    decreases terminals
  {
    bound := 0;
    if terminals > 0 {
      var b := CommonBound(g, cells, stack, terminals - 1);
      var n: nat := 0;
      if Ends(g, cells, stack, terminals - 1) {
        n :| EndsBy(g, cells, stack, terminals - 1, n);
      }
      bound := b + n;
      forall x: nat | x < terminals && Ends(g, cells, stack, x) ensures EndsBy(g, cells, stack, x, bound) {
        EndedStays(g, cells, stack, x, if x == terminals - 1 then n else b, bound);
      }
    }
  }

  /** On any token, wrong ones included, the reductions end, when the table has no conflicts. */
  lemma ReductionsEnd(g: Grammar, cores: seq<set<Item>>, cells: seq<seq<Cell>>, stack: seq<Entry>, t: nat)
    returns (bound: nat)
    requires Valid(g) && Generating(g) && Lr0(g, cores) && Faithful(g, cores, cells) && Complete(g, cores, cells)
    requires Viable(g, cores, stack) && t < g.nterminal
    ensures EndsBy(g, cells, stack, t, bound)
  {
    hide Valid, Generating, Lr0, Faithful, Complete, Viable, ForestOk, Roots, Pending, AfterReductions;
    var b := CommonBound(g, cells, stack, g.nterminal);
    bound := b + 1;
    if AfterReductions(g, cells, stack, t, bound) != [] {
      var k, ts, v, n := Retrace(g, cores, cells, stack, t, bound);
      CompletionEnds(g, cores, cells, stack, k, ts, v, n);
      EndedStays(g, cells, stack, (Yields(ts) + v)[0], b, bound);
      assert false;
    }
  }

  // ----- one call -----

  /** The token has been used up, or the parser is no longer parsing. */
  predicate Over(c: Conf) {
    c.m.stack == [] || c.input == []
  }

  lemma {:induction false} RoundsEnd(g: Grammar, cores: seq<set<Item>>, cells: seq<seq<Cell>>, depth: nat, m: Parse,
                                     t: nat, n: nat)
    requires Valid(g) && Lr0(g, cores) && Faithful(g, cores, cells) && Sound(g, cores, m) && t < g.nterminal
    requires EndsBy(g, cells, m.stack, t, n)
    ensures Over(Steps(g, cells, depth, Conf(m, [t]), n))
    decreases n
  {
    hide Valid, Lr0, Faithful, Sound, Step, AfterReduction;
    if m.stack == [] {
      Halted(g, cells, depth, Conf(m, [t]), n);
    } else {
      var (m', used) := Step(g, cells, depth, m, t);
      assert StepConf(g, cells, depth, Conf(m, [t])) == Conf(m', if used then [] else [t]);
      if used || m'.stack == [] {
        Halted(g, cells, depth, Conf(m', if used then [] else [t]), n - 1);
      } else {
        StepSound(g, cores, cells, depth, m, t);
        StepReduces(g, cores, cells, depth, m, t);
        RoundsEnd(g, cores, cells, depth, m', t, n - 1);
      }
    }
  }

  lemma StepReduces(g: Grammar, cores: seq<set<Item>>, cells: seq<seq<Cell>>, depth: nat, m: Parse, t: nat)
    requires Valid(g) && Lr0(g, cores) && Faithful(g, cores, cells) && Sound(g, cores, m) && t < g.nterminal
    requires m.stack != [] && !Step(g, cells, depth, m, t).1 && Step(g, cells, depth, m, t).0.stack != []
    ensures Step(g, cells, depth, m, t).0.stack == AfterReduction(g, cells, m.stack, t)
  {
    hide Valid, Lr0, Faithful, Viable, Lookup, Trans, Word, Rightmost;
    var r := Lookup(cells, Top(m.stack).stateno, t).rule;
    ReductionWorks(g, cores, cells, m, t, r);
  }

  /** On a table without conflicts, of a grammar whose nonterminals all generate something, every call of the driver
      ends, on every token: after a number of rounds that does not depend on the size of the stack. */
  lemma CallEnds(g: Grammar, cores: seq<set<Item>>, cells: seq<seq<Cell>>, m: Parse, t: nat) returns (rounds: nat)
    requires Valid(g) && Generating(g) && Lr0(g, cores) && Faithful(g, cores, cells) && Complete(g, cores, cells)
    requires Sound(g, cores, m) && t < g.nterminal
    ensures forall depth: nat :: Over(Steps(g, cells, depth, Conf(m, [t]), rounds))
  {
    hide Valid, Generating, Lr0, Faithful, Complete, Viable, Over, Steps, AfterReductions;
    rounds := 0;
    if m.stack == [] {
      assert EndsBy(g, cells, m.stack, t, 0) by { NoneStays(g, cells, t, 0); }
    } else {
      rounds := ReductionsEnd(g, cores, cells, m.stack, t);
    }
    forall depth: nat ensures Over(Steps(g, cells, depth, Conf(m, [t]), rounds)) {
      RoundsEnd(g, cores, cells, depth, m, t, rounds);
    }
  }
}
