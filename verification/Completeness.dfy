/** For a grammar without conflicts the driver accepts every sentence. */
module Completeness {
  import opened Grammars
  import opened FirstSets
  import opened Items
  import opened Machine
  import opened L = Lookaheads
  import opened S = Structs
  import States
  import A = Actions

  // ----- parse trees -----

  datatype Tree = Leaf(token: nat) | Node(rule: nat, kids: seq<Tree>)

  function Root(g: Grammar, t: Tree): nat {
    match t
    case Leaf(x) => x
    case Node(r, _) => if r < |g.rules| then g.rules[r].lhs else 0
  }

  predicate TreeOk(g: Grammar, t: Tree) {
    match t
    case Leaf(x) => x < g.nterminal
    case Node(r, kids) =>
      && r < |g.rules| && |kids| == |g.rules[r].rhs|
      && forall k | 0 <= k < |kids| :: TreeOk(g, kids[k]) && Root(g, kids[k]) == g.rules[r].rhs[k]
  }

  function Yield(t: Tree): seq<nat> {
    match t
    case Leaf(x) => [x]
    case Node(_, kids) => Yields(kids)
  }

  function Yields(ts: seq<Tree>): seq<nat> {
    if ts == [] then [] else Yield(ts[0]) + Yields(ts[1..])
  }

  function Roots(g: Grammar, ts: seq<Tree>): seq<nat> {
    seq(|ts|, k requires 0 <= k < |ts| => Root(g, ts[k]))
  }

  ghost predicate ForestOk(g: Grammar, ts: seq<Tree>) {
    forall k | 0 <= k < |ts| :: TreeOk(g, ts[k])
  }

  /** An upper bound on the stack entries that parsing a tree takes. */
  function Size(t: Tree): nat {
    match t
    case Leaf(_) => 1
    case Node(_, kids) => 1 + Sizes(kids)
  }

  function Sizes(ts: seq<Tree>): nat {
    if ts == [] then 0 else Size(ts[0]) + Sizes(ts[1..])
  }

  lemma {:induction false} YieldsConcat(a: seq<Tree>, b: seq<Tree>)
    ensures Yields(a + b) == Yields(a) + Yields(b)
    decreases |a|
  {
    if a == [] {
      assert a + b == b;
    } else {
      assert (a + b)[1..] == a[1..] + b;
      YieldsConcat(a[1..], b);
      assert Yield(a[0]) + (Yields(a[1..]) + Yields(b)) == Yield(a[0]) + Yields(a[1..]) + Yields(b);
    }
  }

  lemma {:induction false} YieldsLeaves(w: seq<nat>)
    ensures Yields(seq(|w|, k requires 0 <= k < |w| => Leaf(w[k]))) == w
    decreases |w|
  {
    var ts := seq(|w|, k requires 0 <= k < |w| => Leaf(w[k]));
    if w != [] {
      YieldsLeaves(w[1..]);
      assert ts[1..] == seq(|w[1..]|, k requires 0 <= k < |w[1..]| => Leaf(w[1..][k]));
      assert w == [w[0]] + w[1..];
    }
  }

  /** Every derivation of a terminal string has a forest of parse trees. */
  lemma {:induction false} ForestOfDerivation(g: Grammar, a: seq<nat>, w: seq<nat>, n: nat) returns (ts: seq<Tree>)
    requires DerivesIn(g, a, w, n) && AllBelow(w, g.nterminal)
    ensures ForestOk(g, ts) && Roots(g, ts) == a && Yields(ts) == w
    decreases n
  {
    if n == 0 {
      ts := seq(|w|, k requires 0 <= k < |w| => Leaf(w[k]));
      YieldsLeaves(w);
    } else {
      var i, r :| CanExpand(g, a, i, r) && DerivesIn(g, Expand(g, a, i, r), w, n - 1);
      var us := ForestOfDerivation(g, Expand(g, a, i, r), w, n - 1);
      ts := FoldTree(g, a, i, r, us);
    }
  }

  lemma FoldTree(g: Grammar, a: seq<nat>, i: nat, r: nat, us: seq<Tree>) returns (ts: seq<Tree>)
    requires CanExpand(g, a, i, r) && ForestOk(g, us) && Roots(g, us) == Expand(g, a, i, r)
    ensures ForestOk(g, ts) && Roots(g, ts) == a && Yields(ts) == Yields(us)
  {
    var n := |g.rules[r].rhs|;
    assert |us| == |Roots(g, us)|;
    var kids := us[i..i + n];
    ts := us[..i] + [Node(r, kids)] + us[i + n..];
    FoldOk(g, a, i, r, us);
    assert us == us[..i] + kids + us[i + n..];
    YieldsConcat(us[..i] + kids, us[i + n..]);
    YieldsConcat(us[..i], kids);
    YieldsConcat(us[..i] + [Node(r, kids)], us[i + n..]);
    YieldsConcat(us[..i], [Node(r, kids)]);
    assert [Node(r, kids)][1..] == [];
    assert Yields([Node(r, kids)]) == Yields(kids) + [];
  }

  lemma FoldOk(g: Grammar, a: seq<nat>, i: nat, r: nat, us: seq<Tree>)
    requires CanExpand(g, a, i, r) && ForestOk(g, us) && Roots(g, us) == Expand(g, a, i, r)
    ensures |us| >= i + |g.rules[r].rhs|
    ensures var n := |g.rules[r].rhs|; var ts := us[..i] + [Node(r, us[i..i + n])] + us[i + n..];
            ForestOk(g, ts) && Roots(g, ts) == a
  {
    var n := |g.rules[r].rhs|;
    ExpandedAt(g, a, i, r);
    RootsAre(g, us, Expand(g, a, i, r));
    FoldNode(g, r, us[i..i + n]);
    hide CanExpand, Expand, Roots;
    var ts := us[..i] + [Node(r, us[i..i + n])] + us[i + n..];
    forall k | 0 <= k < |ts| ensures TreeOk(g, ts[k]) && Root(g, ts[k]) == a[k] {
      hide TreeOk, Root;
      if k < i {
        assert ts[k] == us[k];
      } else if k > i {
        assert ts[k] == us[k + n - 1];
      }
    }
    AreRoots(g, ts, a);
  }

  lemma RootsAre(g: Grammar, ts: seq<Tree>, a: seq<nat>)
    requires Roots(g, ts) == a
    ensures |ts| == |a| && forall k | 0 <= k < |ts| :: Root(g, ts[k]) == a[k]
  {
  }

  lemma AreRoots(g: Grammar, ts: seq<Tree>, a: seq<nat>)
    requires |ts| == |a| && forall k | 0 <= k < |ts| :: Root(g, ts[k]) == a[k]
    ensures Roots(g, ts) == a
  {
  }

  lemma ExpandedAt(g: Grammar, a: seq<nat>, i: nat, r: nat)
    requires CanExpand(g, a, i, r)
    ensures i < |a| && r < |g.rules| && a[i] == g.rules[r].lhs
    ensures var b, n := Expand(g, a, i, r), |g.rules[r].rhs|;
            && |b| == |a| - 1 + n && (forall k | 0 <= k < i :: b[k] == a[k])
            && (forall k | 0 <= k < n :: b[i + k] == g.rules[r].rhs[k])
            && forall k | i < k < |a| :: b[k + n - 1] == a[k]
  {
  }

  lemma FoldNode(g: Grammar, r: nat, kids: seq<Tree>)
    requires r < |g.rules| && |kids| == |g.rules[r].rhs|
    requires forall k | 0 <= k < |kids| :: TreeOk(g, kids[k]) && Root(g, kids[k]) == g.rules[r].rhs[k]
    ensures TreeOk(g, Node(r, kids)) && Root(g, Node(r, kids)) == g.rules[r].lhs
  {
  }

  /** A tree is a derivation of its yield. */
  lemma {:induction false} TreeDerives(g: Grammar, t: Tree)
    requires TreeOk(g, t)
    ensures Derives(g, [Root(g, t)], Yield(t)) && AllBelow(Yield(t), g.nterminal)
  {
    match t
    case Leaf(x) => DerivesRefl(g, [x]);
    case Node(r, kids) =>
      ForestDerives(g, kids);
      assert Roots(g, kids) == g.rules[r].rhs;
      DerivesByRule(g, r);
      DerivesTrans(g, [Root(g, t)], Roots(g, kids), Yields(kids));
  }

  lemma {:induction false} ForestDerives(g: Grammar, ts: seq<Tree>)
    requires ForestOk(g, ts)
    ensures Derives(g, Roots(g, ts), Yields(ts)) && AllBelow(Yields(ts), g.nterminal)
  {
    if ts == [] {
      DerivesRefl(g, []);
      assert Roots(g, ts) == [];
    } else {
      TreeDerives(g, ts[0]);
      ForestDerives(g, ts[1..]);
      DerivesConcat(g, [Root(g, ts[0])], Yield(ts[0]), Roots(g, ts[1..]), Yields(ts[1..]));
      assert Roots(g, ts) == [Root(g, ts[0])] + Roots(g, ts[1..]);
    }
  }

  // ----- the run over a tree -----

  /** The table has every shift, goto and reduction of the automaton: what a grammar without conflicts gets. */
  ghost predicate Complete(g: Grammar, cores: seq<set<Item>>, cells: seq<seq<Cell>>) {
    && (forall q, x, j | Trans(g, cores, q, x, j) :: Lookup(cells, q, x) == ShiftTo(j))
    && (forall q, r, t | A.IsReduction(g, cores, q, r, t) :: Lookup(cells, q, t) == ReduceBy(r))
    && Lookup(cells, 0, g.start) == AcceptCell
  }

  /** Token `t` can come once the symbol after the mark of item `k` of state `q` has been read. */
  ghost predicate Follows(g: Grammar, cores: seq<set<Item>>, q: nat, k: Item, t: nat) {
    && IsItem(g, k) && !AtEnd(g, k)
    && (Begins(g, Suffix(g, k), t) || (Nullable(g, Suffix(g, k)) && Lookahead(g, cores, Ref(q, k), t)))
  }

  /** The rules of the symbol after the mark stand in the same state, with what can follow as lookahead. */
  lemma SpawnedLookahead(g: Grammar, cores: seq<set<Item>>, q: nat, k: Item, r: nat, t: nat)
    requires Lr0(g, cores) && Member(g, cores, Ref(q, k)) && r < |g.rules| && Before(g, k, g.rules[r].lhs)
             && Follows(g, cores, q, k, t)
    ensures Member(g, cores, Ref(q, Item(r, 0))) && Lookahead(g, cores, Ref(q, Item(r, 0)), t)
  {
    ClosureIsLeast(g, cores[q]);
    assert Spawns(g, k, Item(r, 0));
    hide Lr0, Lookahead, Closure;
    if Begins(g, Suffix(g, k), t) {
      assert States.Contributes(g, k, Item(r, 0), t);
      LookaheadSeed(g, cores, Ref(q, Item(r, 0)), t);
    } else {
      LookaheadFlows(g, cores, Ref(q, k), Ref(q, Item(r, 0)), t);
    }
  }

  lemma TransFrom(g: Grammar, cores: seq<set<Item>>, q: nat, k: Item, x: nat) returns (j: nat)
    requires Lr0(g, cores) && Member(g, cores, Ref(q, k)) && Before(g, k, x)
    ensures Trans(g, cores, q, x, j)
  {
    assert Advance(k) in Goto(g, Closure(g, cores[q]), x);
    j := EdgeFrom(g, cores, q, x);
  }

  lemma AdvanceLookahead(g: Grammar, cores: seq<set<Item>>, q: nat, k: Item, x: nat, j: nat, t: nat)
    requires Lr0(g, cores) && Member(g, cores, Ref(q, k)) && Before(g, k, x) && Trans(g, cores, q, x, j)
             && Lookahead(g, cores, Ref(q, k), t)
    ensures Member(g, cores, Ref(j, Advance(k))) && Lookahead(g, cores, Ref(j, Advance(k)), t)
  {
    var p := GotoArrives(g, cores, q, k, x, t);
    SameCore(g, cores, p, j);
  }

  /** What the forest of the symbols beyond the next one yields, with the rest behind it, follows that symbol. */
  lemma ForestFollows(g: Grammar, cores: seq<set<Item>>, q: nat, k: Item, ts: seq<Tree>, rest: seq<nat>)
    requires IsItem(g, k) && !AtEnd(g, k) && ForestOk(g, ts) && Roots(g, ts) == Suffix(g, k)
    requires rest != [] && Lookahead(g, cores, Ref(q, k), rest[0])
    ensures Follows(g, cores, q, k, (Yields(ts) + rest)[0])
  {
    ForestDerives(g, ts);
    var w := Yields(ts);
    if w != [] {
      assert [w[0]] + w[1..] == w;
      assert Begins(g, Suffix(g, k), w[0]);
    }
  }

  /** Only shifts and reductions are added to the log. */
  ghost predicate Smooth(log: seq<Event>, log': seq<Event>) {
    forall e | e in log' :: e in log || e.Shifted? || e.Reduced?
  }

  lemma RunLeaf(g: Grammar, cores: seq<set<Item>>, cells: seq<seq<Cell>>, depth: nat, m: Parse, x: nat, j: nat,
                rest: seq<nat>)
    returns (m': Parse)
    requires Complete(g, cores, cells) && m.stack != [] && Trans(g, cores, Top(m.stack).stateno, x, j)
             && depth > |m.stack|
    ensures Steps(g, cells, depth, Conf(m, [x] + rest), 1) == Conf(m', rest)
    ensures m'.stack == m.stack + [Entry(j, x)] && Smooth(m.log, m'.log)
  {
    hide Trans;
    assert Lookup(cells, Top(m.stack).stateno, x) == ShiftTo(j);
    m' := Step(g, cells, depth, m, x).0;
    assert ([x] + rest)[1..] == rest;
    var c := Conf(m, [x] + rest);
    assert StepConf(g, cells, depth, c) == Conf(m', rest);
    assert Steps(g, cells, depth, c, 1) == Steps(g, cells, depth, StepConf(g, cells, depth, c), 0);
  }

  /** The reduction at the end of a rule whose right-hand side is on the stack. */
  lemma RunReduce(g: Grammar, cores: seq<set<Item>>, cells: seq<seq<Cell>>, depth: nat, m: Parse, m1: Parse, r: nat,
                  j: nat, rest: seq<nat>)
    returns (m': Parse)
    requires Complete(g, cores, cells) && m.stack != [] && r < |g.rules| && rest != []
    requires |m1.stack| == |m.stack| + |g.rules[r].rhs| && m1.stack[..|m.stack|] == m.stack
    requires A.IsReduction(g, cores, Top(m1.stack).stateno, r, rest[0])
    requires Trans(g, cores, Top(m.stack).stateno, g.rules[r].lhs, j) && depth > |m.stack|
    ensures Steps(g, cells, depth, Conf(m1, rest), 1) == Conf(m', rest)
    ensures m'.stack == m.stack + [Entry(j, g.rules[r].lhs)] && Smooth(m1.log, m'.log)
  {
    hide Trans, A.IsReduction;
    assert Lookup(cells, Top(m1.stack).stateno, rest[0]) == ReduceBy(r);
    assert Lookup(cells, Top(m.stack).stateno, g.rules[r].lhs) == ShiftTo(j);
    assert Popped(g, m1.stack, r) == m.stack;
    m' := Step(g, cells, depth, m1, rest[0]).0;
    var c := Conf(m1, rest);
    assert StepConf(g, cells, depth, c) == Conf(m', rest);
    assert Steps(g, cells, depth, c, 1) == Steps(g, cells, depth, StepConf(g, cells, depth, c), 0);
  }

  /** In `n` rounds the driver reads the yield of a tree and leaves its root on the stack. */
  ghost predicate TreeRead(g: Grammar, cores: seq<set<Item>>, cells: seq<seq<Cell>>, depth: nat, m: Parse, tree: Tree,
                           rest: seq<nat>, n: nat, m': Parse, j: nat) {
    && Steps(g, cells, depth, Conf(m, Yield(tree) + rest), n) == Conf(m', rest)
    && m.stack != [] && Trans(g, cores, Top(m.stack).stateno, Root(g, tree), j)
    && m'.stack == m.stack + [Entry(j, Root(g, tree))] && Smooth(m.log, m'.log)
  }

  /** In `n` rounds the driver reads the yields of trees up to the state where rule `r` ends. */
  ghost predicate KidsRead(g: Grammar, cores: seq<set<Item>>, cells: seq<seq<Cell>>, depth: nat, m: Parse, r: nat,
                           ts: seq<Tree>,
                           rest: seq<nat>, n: nat, m': Parse) {
    && Steps(g, cells, depth, Conf(m, Yields(ts) + rest), n) == Conf(m', rest)
    && |m'.stack| == |m.stack| + |ts| && m'.stack[..|m.stack|] == m.stack && Smooth(m.log, m'.log)
    && rest != [] && m'.stack != [] && A.IsReduction(g, cores, Top(m'.stack).stateno, r, rest[0])
  }

  /** Item `k` of the top state waits for a symbol that `rest` can follow. */
  ghost predicate Expects(g: Grammar, cores: seq<set<Item>>, m: Parse, k: Item, x: nat, rest: seq<nat>) {
    && m.stack != [] && Member(g, cores, Ref(Top(m.stack).stateno, k)) && Before(g, k, x)
    && rest != [] && Follows(g, cores, Top(m.stack).stateno, k, rest[0])
  }

  /** Item `k` of the top state has the first token of `rest` as lookahead. */
  ghost predicate Within(g: Grammar, cores: seq<set<Item>>, m: Parse, k: Item, rest: seq<nat>) {
    && m.stack != [] && IsItem(g, k) && Member(g, cores, Ref(Top(m.stack).stateno, k))
    && rest != [] && Lookahead(g, cores, Ref(Top(m.stack).stateno, k), rest[0])
  }

  lemma {:induction false} RunTree(g: Grammar, cores: seq<set<Item>>, cells: seq<seq<Cell>>, depth: nat, m: Parse,
                                   tree: Tree,
                                   k: Item, rest: seq<nat>) returns (n: nat, m': Parse, j: nat)
    requires Valid(g) && Lr0(g, cores) && Complete(g, cores, cells) && TreeOk(g, tree)
    requires Expects(g, cores, m, k, Root(g, tree), rest) && depth >= |m.stack| + Size(tree)
    ensures TreeRead(g, cores, cells, depth, m, tree, rest, n, m', j)
    decreases tree
  {
    hide *;
    match tree
    case Leaf(x) =>
      n := 1;
      m', j := LeafRead(g, cores, cells, depth, m, x, k, rest);
    case Node(r, kids) =>
      SpawnedWithin(g, cores, depth, m, r, kids, k, rest);
      var n1, m1 := RunKids(g, cores, cells, depth, m, r, 0, kids, rest);
      m', j := NodeRead(g, cores, cells, depth, m, r, kids, k, rest, n1, m1);
      n := n1 + 1;
  }

  lemma LeafRead(g: Grammar, cores: seq<set<Item>>, cells: seq<seq<Cell>>, depth: nat, m: Parse, x: nat, k: Item,
                 rest: seq<nat>)
    returns (m': Parse, j: nat)
    requires Lr0(g, cores) && Complete(g, cores, cells) && Expects(g, cores, m, k, Root(g, Leaf(x)), rest)
    requires depth >= |m.stack| + Size(Leaf(x))
    ensures TreeRead(g, cores, cells, depth, m, Leaf(x), rest, 1, m', j)
  {
    j := TransFrom(g, cores, Top(m.stack).stateno, k, x);
    hide Lr0, Complete, Member, Follows, Trans, Steps;
    m' := RunLeaf(g, cores, cells, depth, m, x, j, rest);
  }

  lemma SpawnedWithin(g: Grammar, cores: seq<set<Item>>, depth: nat, m: Parse, r: nat, kids: seq<Tree>, k: Item,
                      rest: seq<nat>)
    requires Lr0(g, cores) && TreeOk(g, Node(r, kids)) && Expects(g, cores, m, k, Root(g, Node(r, kids)), rest)
    requires depth >= |m.stack| + Size(Node(r, kids))
    ensures Within(g, cores, m, Item(r, 0), rest) && r < |g.rules| && ForestOk(g, kids)
    ensures Roots(g, kids) == g.rules[r].rhs[0..] && depth >= |m.stack| + Sizes(kids)
  {
    SpawnedLookahead(g, cores, Top(m.stack).stateno, k, r, rest[0]);
    hide Lr0, Member, Follows, Lookahead;
    assert Roots(g, kids) == g.rules[r].rhs[0..];
  }

  lemma NodeRead(g: Grammar, cores: seq<set<Item>>, cells: seq<seq<Cell>>, depth: nat, m: Parse, r: nat,
                 kids: seq<Tree>,
                 k: Item, rest: seq<nat>, n1: nat, m1: Parse) returns (m': Parse, j: nat)
    requires Lr0(g, cores) && Complete(g, cores, cells) && TreeOk(g, Node(r, kids))
    requires Expects(g, cores, m, k, Root(g, Node(r, kids)), rest) && depth >= |m.stack| + Size(Node(r, kids))
    requires KidsRead(g, cores, cells, depth, m, r, kids, rest, n1, m1)
    ensures TreeRead(g, cores, cells, depth, m, Node(r, kids), rest, n1 + 1, m', j)
  {
    hide Lr0, Complete, KidsRead, TreeRead, Trans, Member, Follows;
    j := TransFrom(g, cores, Top(m.stack).stateno, k, g.rules[r].lhs);
    m' := NodeReduced(g, cores, cells, depth, m, r, kids, rest, n1, m1, j);
  }

  lemma NodeReduced(g: Grammar, cores: seq<set<Item>>, cells: seq<seq<Cell>>, depth: nat, m: Parse, r: nat,
                    kids: seq<Tree>,
                    rest: seq<nat>, n1: nat, m1: Parse, j: nat) returns (m': Parse)
    requires Complete(g, cores, cells) && TreeOk(g, Node(r, kids))
             && KidsRead(g, cores, cells, depth, m, r, kids, rest, n1, m1)
    requires m.stack != [] && Trans(g, cores, Top(m.stack).stateno, g.rules[r].lhs, j) && depth > |m.stack|
    ensures TreeRead(g, cores, cells, depth, m, Node(r, kids), rest, n1 + 1, m', j)
  {
    hide Complete, Trans, Steps, A.IsReduction;
    m' := RunReduce(g, cores, cells, depth, m, m1, r, j, rest);
    StepsAdd(g, cells, depth, Conf(m, Yields(kids) + rest), n1, 1);
  }

  lemma {:induction false} RunKids(g: Grammar, cores: seq<set<Item>>, cells: seq<seq<Cell>>, depth: nat, m: Parse,
                                   r: nat, d: nat,
                                   ts: seq<Tree>, rest: seq<nat>) returns (n: nat, m': Parse)
    requires Valid(g) && Lr0(g, cores) && Complete(g, cores, cells) && ForestOk(g, ts)
    requires Within(g, cores, m, Item(r, d), rest) && Roots(g, ts) == g.rules[r].rhs[d..]
             && depth >= |m.stack| + Sizes(ts)
    ensures KidsRead(g, cores, cells, depth, m, r, ts, rest, n, m')
    decreases ts
  {
    hide *;
    if ts == [] {
      n, m' := 0, m;
      KidsNone(g, cores, cells, depth, m, r, d, rest);
    } else {
      var rest1 := Yields(ts[1..]) + rest;
      KidExpects(g, cores, depth, m, r, d, ts, rest);
      var n1, m1, j := RunTree(g, cores, cells, depth, m, ts[0], Item(r, d), rest1);
      KidWithin(g, cores, cells, depth, m, ts, r, d, rest1, rest, n1, m1, j);
      var n2;
      n2, m' := RunKids(g, cores, cells, depth, m1, r, d + 1, ts[1..], rest);
      KidsMore(g, cores, cells, depth, m, r, ts, rest, n1, m1, j, n2, m');
      n := n1 + n2;
    }
  }

  lemma KidsNone(g: Grammar, cores: seq<set<Item>>, cells: seq<seq<Cell>>, depth: nat, m: Parse, r: nat, d: nat,
                 rest: seq<nat>)
    requires Within(g, cores, m, Item(r, d), rest) && Roots(g, []) == g.rules[r].rhs[d..]
    ensures KidsRead(g, cores, cells, depth, m, r, [], rest, 0, m)
  {
    assert |Roots(g, [])| == |g.rules[r].rhs| - d;
    hide Member, Lookahead;
    assert Yields([]) + rest == rest;
  }

  lemma KidExpects(g: Grammar, cores: seq<set<Item>>, depth: nat, m: Parse, r: nat, d: nat, ts: seq<Tree>,
                   rest: seq<nat>)
    requires Within(g, cores, m, Item(r, d), rest) && Roots(g, ts) == g.rules[r].rhs[d..] && ts != [] && ForestOk(g, ts)
    requires depth >= |m.stack| + Sizes(ts)
    ensures Expects(g, cores, m, Item(r, d), Root(g, ts[0]), Yields(ts[1..]) + rest) && TreeOk(g, ts[0])
    ensures ForestOk(g, ts[1..]) && Roots(g, ts[1..]) == g.rules[r].rhs[d + 1..]
    ensures depth >= |m.stack| + Size(ts[0]) && depth >= |m.stack| + 1 + Sizes(ts[1..])
  {
    hide Member, Lookahead, Follows, TreeOk;
    KidRoots(g, r, d, ts);
    SizePositive(ts[0]);
    ForestFollows(g, cores, Top(m.stack).stateno, Item(r, d), ts[1..], rest);
  }

  lemma SizePositive(t: Tree)
    ensures Size(t) >= 1
  {
  }

  lemma KidWithin(g: Grammar, cores: seq<set<Item>>, cells: seq<seq<Cell>>, depth: nat, m: Parse, ts: seq<Tree>, r: nat,
                  d: nat,
                  rest1: seq<nat>, rest: seq<nat>, n1: nat, m1: Parse, j: nat)
    requires Lr0(g, cores) && Within(g, cores, m, Item(r, d), rest) && ts != []
             && Expects(g, cores, m, Item(r, d), Root(g, ts[0]), rest1)
    requires TreeRead(g, cores, cells, depth, m, ts[0], rest1, n1, m1, j)
    ensures Within(g, cores, m1, Item(r, d + 1), rest) && |m1.stack| == |m.stack| + 1
  {
    hide Lr0, Trans, Steps, Member, Lookahead;
    AdvanceLookahead(g, cores, Top(m.stack).stateno, Item(r, d), Root(g, ts[0]), j, rest[0]);
  }

  lemma KidsMore(g: Grammar, cores: seq<set<Item>>, cells: seq<seq<Cell>>, depth: nat, m: Parse, r: nat, ts: seq<Tree>,
                 rest: seq<nat>, n1: nat, m1: Parse, j: nat, n2: nat, m2: Parse)
    requires ts != [] && TreeRead(g, cores, cells, depth, m, ts[0], Yields(ts[1..]) + rest, n1, m1, j)
    requires KidsRead(g, cores, cells, depth, m1, r, ts[1..], rest, n2, m2)
    ensures KidsRead(g, cores, cells, depth, m, r, ts, rest, n1 + n2, m2)
  {
    hide Trans, Steps, A.IsReduction;
    assert Yields(ts) + rest == Yield(ts[0]) + (Yields(ts[1..]) + rest);
    StepsAdd(g, cells, depth, Conf(m, Yields(ts) + rest), n1, n2);
    assert m2.stack[..|m.stack|] == m2.stack[..|m1.stack|][..|m.stack|];
  }

  lemma KidRoots(g: Grammar, r: nat, d: nat, ts: seq<Tree>)
    requires IsItem(g, Item(r, d)) && Roots(g, ts) == g.rules[r].rhs[d..] && ts != [] && ForestOk(g, ts)
    ensures Before(g, Item(r, d), Root(g, ts[0]))
            && Roots(g, ts[1..]) == Suffix(g, Item(r, d)) == g.rules[r].rhs[d + 1..]
    ensures ForestOk(g, ts[1..]) && TreeOk(g, ts[0]) && Root(g, ts[0]) == g.rules[r].rhs[d]
  {
    var roots := Roots(g, ts);
    assert roots[0] == Root(g, ts[0]) && roots[0] == g.rules[r].rhs[d];
    assert Roots(g, ts[1..]) == roots[1..];
  }

  // ----- every sentence is accepted -----

  /** The last reduction, by a rule of the start symbol with nothing else on the stack, accepts. */
  lemma RunAccept(g: Grammar, cores: seq<set<Item>>, cells: seq<seq<Cell>>, depth: nat, m1: Parse, r: nat)
    requires Complete(g, cores, cells) && r < |g.rules| && g.rules[r].lhs == g.start
    requires |m1.stack| == 1 + |g.rules[r].rhs| && m1.stack[0].stateno == 0
    requires A.IsReduction(g, cores, Top(m1.stack).stateno, r, 0)
    ensures Steps(g, cells, depth, Conf(m1, [0]), 1) == Conf(Parse([], m1.errcnt, m1.log + [Reduced(r), Accepted]), [0])
  {
    hide Trans, A.IsReduction;
    assert Lookup(cells, Top(m1.stack).stateno, 0) == ReduceBy(r);
    assert Popped(g, m1.stack, r) == m1.stack[..1];
    var c := Conf(m1, [0]);
    assert Steps(g, cells, depth, c, 1) == Steps(g, cells, depth, StepConf(g, cells, depth, c), 0);
  }

  lemma StartWithin(g: Grammar, cores: seq<set<Item>>, r: nat)
    requires Lr0(g, cores) && r < |g.rules| && g.rules[r].lhs == g.start
    ensures Within(g, cores, Start(), Item(r, 0), [0])
  {
    ClosureIsLeast(g, cores[0]);
    assert Item(r, 0) in StartKernel(g);
    LookaheadSeed(g, cores, Ref(0, Item(r, 0)), 0);
  }

  /** The driver accepts `w`, followed by `$`, having done nothing but shift and reduce before. */
  ghost predicate CleanlyAccepts(g: Grammar, cells: seq<seq<Cell>>, depth: nat, w: seq<nat>) {
    exists n: nat :: CleanAfter(g, cells, depth, w, n)
  }

  ghost predicate CleanAfter(g: Grammar, cells: seq<seq<Cell>>, depth: nat, w: seq<nat>, n: nat) {
    var log := Steps(g, cells, depth, Conf(Start(), w + [0]), n).m.log;
    Accepted in log && forall e | e in log :: e.Shifted? || e.Reduced? || e == Accepted
  }

  lemma TopOfTree(g: Grammar, r: nat, kids: seq<Tree>)
    requires TreeOk(g, Node(r, kids))
    ensures r < |g.rules| && |kids| == |g.rules[r].rhs| && ForestOk(g, kids) && Roots(g, kids) == g.rules[r].rhs[0..]
  {
  }

  lemma AcceptTree(g: Grammar, cores: seq<set<Item>>, cells: seq<seq<Cell>>, depth: nat, r: nat, kids: seq<Tree>)
    requires Valid(g) && Lr0(g, cores) && Complete(g, cores, cells)
    requires TreeOk(g, Node(r, kids)) && g.rules[r].lhs == g.start && depth >= Size(Node(r, kids))
    ensures CleanlyAccepts(g, cells, depth, Yields(kids))
  {
    TopOfTree(g, r, kids);
    hide Valid, Lr0, Complete, Within, Steps, A.IsReduction, TreeOk, ForestOk, Roots, KidsRead, CleanlyAccepts;
    StartWithin(g, cores, r);
    var n, m1 := RunKids(g, cores, cells, depth, Start(), r, 0, kids, [0]);
    AcceptKids(g, cores, cells, depth, r, kids, n, m1);
  }

  lemma AcceptKids(g: Grammar, cores: seq<set<Item>>, cells: seq<seq<Cell>>, depth: nat, r: nat, kids: seq<Tree>,
                   n: nat, m1: Parse)
    requires Complete(g, cores, cells) && KidsRead(g, cores, cells, depth, Start(), r, kids, [0], n, m1)
    requires r < |g.rules| && g.rules[r].lhs == g.start && |kids| == |g.rules[r].rhs|
    ensures CleanlyAccepts(g, cells, depth, Yields(kids))
  {
    hide Complete, Steps, A.IsReduction;
    assert m1.stack[0] == m1.stack[..1][0];
    RunAccept(g, cores, cells, depth, m1, r);
    StepsAdd(g, cells, depth, Conf(Start(), Yields(kids) + [0]), n, 1);
    assert CleanAfter(g, cells, depth, Yields(kids), n + 1);
  }

  /** On a complete table the driver accepts every sentence of the grammar, without syntax error, given stack enough. */
  lemma SentenceAccepted(g: Grammar, cores: seq<set<Item>>, cells: seq<seq<Cell>>, w: seq<nat>) returns (need: nat)
    requires Valid(g) && Lr0(g, cores) && Complete(g, cores, cells)
    requires AllBelow(w, g.nterminal) && Derives(g, [g.start], w)
    ensures forall depth: nat | depth >= need :: CleanlyAccepts(g, cells, depth, w)
  {
    var k: nat :| DerivesIn(g, [g.start], w, k);
    var ts := ForestOfDerivation(g, [g.start], w, k);
    var tree := SingleTree(g, ts);
    need := Size(tree);
    hide Valid, Lr0, Complete, CleanlyAccepts, Derives;
    forall depth: nat | depth >= need ensures CleanlyAccepts(g, cells, depth, w) {
      AcceptTree(g, cores, cells, depth, tree.rule, tree.kids);
    }
  }

  lemma SingleTree(g: Grammar, ts: seq<Tree>) returns (tree: Tree)
    requires Valid(g) && ForestOk(g, ts) && Roots(g, ts) == [g.start]
    ensures TreeOk(g, tree) && tree.Node? && g.rules[tree.rule].lhs == g.start && Yields(tree.kids) == Yields(ts)
  {
    assert |ts| == |Roots(g, ts)| == 1;
    tree := ts[0];
    assert Roots(g, ts)[0] == Root(g, tree) == g.start;
    assert Yields(ts) == Yield(tree) + Yields(ts[1..]) && Yields(ts[1..]) == [];
  }

  /** Soundness and completeness together: on a table that is faithful and complete, the driver accepts a token string
      without syntax error or overflow, whatever its length, exactly if the grammar derives it from the start symbol. */
  lemma AcceptsExactlyTheLanguage(g: Grammar, cores: seq<set<Item>>, cells: seq<seq<Cell>>, w: seq<nat>)
    requires Valid(g) && Lr0(g, cores) && Faithful(g, cores, cells) && Complete(g, cores, cells)
    requires forall k | 0 <= k < |w| :: 0 < w[k] < g.nterminal
    ensures Derives(g, [g.start], w) <==> exists depth: nat :: CleanlyAccepts(g, cells, depth, w)
  {
    hide Valid, Lr0, Faithful, Complete;
    if Derives(g, [g.start], w) {
      var need := SentenceAccepted(g, cores, cells, w);
      assert CleanlyAccepts(g, cells, need, w);
    }
    if depth: nat :| CleanlyAccepts(g, cells, depth, w) {
      var n: nat :| CleanAfter(g, cells, depth, w, n);
      AcceptedIsDerived(g, cores, cells, depth, w, n);
      assert Overflowed !in Steps(g, cells, depth, Conf(Start(), w + [0]), n).m.log;
    }
  }
}
