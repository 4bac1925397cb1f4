/** The LR driver as a step function over a table with one cell per state and symbol, and its soundness: whatever it
    accepts has a rightmost derivation, made of the reductions it performed. */
module Machine {
  import opened Grammars
  import opened Items
  import States
  import opened L = Lookaheads

  datatype Cell = ShiftTo(state: nat) | ReduceBy(rule: nat) | AcceptCell | ErrorCell

  /** A parser stack entry: the state and the symbol that led to it. */
  datatype Entry = Entry(stateno: nat, major: nat)

  datatype Event = Shifted(token: nat) | Reduced(rule: nat) | Accepted | Rejected(token: nat) | Overflowed

  /** The parser between two rounds of its loop: an empty stack means that it is not parsing.  The log records what
      it did since it was last initialised. */
  datatype Parse = Parse(stack: seq<Entry>, errcnt: int, log: seq<Event>)

  function Start(): Parse {
    Parse([Entry(0, 0)], -1, [])
  }

  function Lookup(cells: seq<seq<Cell>>, q: nat, x: nat): Cell {
    if q < |cells| && x < |cells[q]| then cells[q][x] else ErrorCell
  }

  function Top(stack: seq<Entry>): Entry
    requires stack != []
  {
    stack[|stack| - 1]
  }

  /** yy_shift: an entry beyond the depth of the stack empties it instead. */
  function Push(m: Parse, depth: nat, e: Entry, event: Event): Parse {
    if |m.stack| >= depth then m.(stack := [], log := m.log + [Overflowed])
    else m.(stack := m.stack + [e], log := m.log + [event])
  }

  /** The stack below the right-hand side of rule `r`. */
  function Popped(g: Grammar, stack: seq<Entry>, r: nat): seq<Entry>
    requires r < |g.rules| && |stack| > |g.rules[r].rhs|
  {
    stack[..|stack| - |g.rules[r].rhs|]
  }

  /** yy_reduce: pop the right-hand side, then go where the uncovered state leads on the left-hand side.  A reduction
      that has nothing to pop or nowhere to go leaves the parser stuck. */
  function Reduction(g: Grammar, cells: seq<seq<Cell>>, depth: nat, m: Parse, r: nat): Parse {
    if r >= |g.rules| || |m.stack| <= |g.rules[r].rhs| then m
    else
      var base := Popped(g, m.stack, r);
      match Lookup(cells, Top(base).stateno, g.rules[r].lhs)
      case ShiftTo(j) => Push(m.(stack := base), depth, Entry(j, g.rules[r].lhs), Reduced(r))
      case AcceptCell => m.(stack := [], log := m.log + [Reduced(r), Accepted])
      case _ => m
  }

  /** One round of the loop in Parse, without error symbol; the second result says whether the token is used up. */
  function Step(g: Grammar, cells: seq<seq<Cell>>, depth: nat, m: Parse, token: nat): (Parse, bool)
    requires m.stack != []
  {
    match Lookup(cells, Top(m.stack).stateno, token)
    case ShiftTo(j) => (Push(m, depth, Entry(j, token), Shifted(token)).(errcnt := m.errcnt - 1), true)
    case ReduceBy(r) => (Reduction(g, cells, depth, m, r), false)
    case _ => (Parse(if token == 0 then [] else m.stack, 3, m.log + [Rejected(token)]), true)
  }

  /** The parser and the tokens still to come. */
  datatype Conf = Conf(m: Parse, input: seq<nat>)

  function StepConf(g: Grammar, cells: seq<seq<Cell>>, depth: nat, c: Conf): Conf {
    if c.m.stack == [] || c.input == [] then c
    else
      var (m', used) := Step(g, cells, depth, c.m, c.input[0]);
      Conf(m', if used then c.input[1..] else c.input)
  }

  function Steps(g: Grammar, cells: seq<seq<Cell>>, depth: nat, c: Conf, n: nat): Conf
    decreases n
  {
    if n == 0 then c else Steps(g, cells, depth, StepConf(g, cells, depth, c), n - 1)
  }

  lemma {:induction false} StepsAdd(g: Grammar, cells: seq<seq<Cell>>, depth: nat, c: Conf, m: nat, n: nat)
    ensures Steps(g, cells, depth, c, m + n) == Steps(g, cells, depth, Steps(g, cells, depth, c, m), n)
    decreases m
  {
    if m > 0 { StepsAdd(g, cells, depth, StepConf(g, cells, depth, c), m - 1, n); }
  }

  // ----- the log -----

  function Reductions(log: seq<Event>): seq<nat> {
    if log == [] then []
    else
      var rest, e := Reductions(log[..|log| - 1]), log[|log| - 1];
      if e.Reduced? then rest + [e.rule] else rest
  }

  function Shifts(log: seq<Event>): seq<nat> {
    if log == [] then []
    else
      var rest, e := Shifts(log[..|log| - 1]), log[|log| - 1];
      if e.Shifted? then rest + [e.token] else rest
  }

  /** All tokens used up: shifted, or thrown away after a syntax error. */
  function Tokens(log: seq<Event>): seq<nat> {
    if log == [] then []
    else
      var rest, e := Tokens(log[..|log| - 1]), log[|log| - 1];
      if e.Shifted? || e.Rejected? then rest + [e.token] else rest
  }

  lemma LogAppend(log: seq<Event>, e: Event)
    ensures Reductions(log + [e]) == if e.Reduced? then Reductions(log) + [e.rule] else Reductions(log)
    ensures Shifts(log + [e]) == if e.Shifted? then Shifts(log) + [e.token] else Shifts(log)
    ensures Tokens(log + [e]) == if e.Shifted? || e.Rejected? then Tokens(log) + [e.token] else Tokens(log)
  {
    assert (log + [e])[..|log|] == log;
  }

  // ----- rightmost derivations -----

  /** `a` rewrites to `w` by the rules, the last first, each at the rightmost nonterminal. */
  ghost predicate Rightmost(g: Grammar, a: seq<nat>, rules: seq<nat>, w: seq<nat>)
    decreases |rules|
  {
    if rules == [] then a == w
    else
      var r := rules[|rules| - 1];
      exists p, s :: RightmostAt(g, a, p, r, s) && Rightmost(g, p + g.rules[r].rhs + s, rules[..|rules| - 1], w)
  }

  /** The rightmost nonterminal of `a` stands between `p` and `s` and is the left-hand side of rule `r`. */
  ghost predicate RightmostAt(g: Grammar, a: seq<nat>, p: seq<nat>, r: nat, s: seq<nat>) {
    r < |g.rules| && a == p + [g.rules[r].lhs] + s && AllBelow(s, g.nterminal)
  }

  /** A terminal behind everything stays there. */
  lemma {:induction false} RightmostShift(g: Grammar, a: seq<nat>, rules: seq<nat>, w: seq<nat>, t: nat)
    requires Rightmost(g, a, rules, w) && t < g.nterminal
    ensures Rightmost(g, a + [t], rules, w + [t])
    decreases |rules|
  {
    if rules != [] {
      var n := |rules| - 1;
      var r := rules[n];
      var p, s :| RightmostAt(g, a, p, r, s) && Rightmost(g, p + g.rules[r].rhs + s, rules[..n], w);
      RightmostShift(g, p + g.rules[r].rhs + s, rules[..n], w, t);
      assert p + g.rules[r].rhs + s + [t] == p + g.rules[r].rhs + (s + [t]);
      assert RightmostAt(g, a + [t], p, r, s + [t]);
    }
  }

  lemma RightmostReduce(g: Grammar, p: seq<nat>, r: nat, rules: seq<nat>, w: seq<nat>)
    requires r < |g.rules| && Rightmost(g, p + g.rules[r].rhs, rules, w)
    ensures Rightmost(g, p + [g.rules[r].lhs], rules + [r], w)
  {
    var s: seq<nat> := [];
    var rules' := rules + [r];
    assert rules'[..|rules'| - 1] == rules && rules'[|rules'| - 1] == r;
    assert p + g.rules[r].rhs + s == p + g.rules[r].rhs;
    assert RightmostAt(g, p + [g.rules[r].lhs], p, r, s);
  }

  lemma {:induction false} RightmostDerives(g: Grammar, a: seq<nat>, rules: seq<nat>, w: seq<nat>)
    requires Rightmost(g, a, rules, w)
    ensures Derives(g, a, w)
    decreases |rules|
  {
    if rules == [] {
      DerivesRefl(g, a);
    } else {
      var n := |rules| - 1;
      var r := rules[n];
      var p, s :| RightmostAt(g, a, p, r, s) && Rightmost(g, p + g.rules[r].rhs + s, rules[..n], w);
      RightmostDerives(g, p + g.rules[r].rhs + s, rules[..n], w);
      DerivesByRule(g, r);
      var k: nat :| DerivesIn(g, [g.rules[r].lhs], g.rules[r].rhs, k);
      DerivesInContext(g, p, [g.rules[r].lhs], g.rules[r].rhs, s, k);
      DerivesTrans(g, a, p + g.rules[r].rhs + s, w);
    }
  }

  // ----- what the table must be like -----

  /** State `j` is the successor of `q` on `x`. */
  ghost predicate Trans(g: Grammar, cores: seq<set<Item>>, q: nat, x: nat, j: nat) {
    Edge(g, cores, q, x, j) && x in States.NextSymbols(g, Closure(g, cores[q]))
  }

  /** The table never does anything that its state does not allow: shifts and gotos follow the automaton, a reduction
      is by a rule that ends in the state, and by a start rule only on `$`; the gotos are all there, and state 0 accepts
      the start symbol. */
  ghost predicate Faithful(g: Grammar, cores: seq<set<Item>>, cells: seq<seq<Cell>>) {
    && |cells| == |cores|
    && (forall q, t: nat | 0 <= q < |cells| && t < g.nterminal :: CellAllowed(g, cores, q, t, Lookup(cells, q, t)))
    && (forall q, x: nat, j | 0 <= q < |cells| && g.nterminal <= x && Trans(g, cores, q, x, j) ::
        Lookup(cells, q, x) == ShiftTo(j))
    && Lookup(cells, 0, g.start) == AcceptCell
  }

  ghost predicate CellAllowed(g: Grammar, cores: seq<set<Item>>, q: nat, t: nat, cell: Cell) {
    match cell
    case ShiftTo(j) => Trans(g, cores, q, t, j)
    case ReduceBy(r) =>
      r < |g.rules| && Member(g, cores, States.Structs.Ref(q, Item(r, |g.rules[r].rhs|)))
          && (g.rules[r].lhs == g.start ==> t == 0)
    case AcceptCell => false
    case ErrorCell => true
  }

  // ----- the stack -----

  /** The stack is a path through the automaton from state 0. */
  ghost predicate Viable(g: Grammar, cores: seq<set<Item>>, stack: seq<Entry>) {
    && |stack| > 0 && stack[0].stateno == 0
    && forall k | 0 < k < |stack| :: Trans(g, cores, stack[k - 1].stateno, stack[k].major, stack[k].stateno)
  }

  /** The symbols on the stack. */
  function Word(stack: seq<Entry>): seq<nat>
    requires stack != []
  {
    seq(|stack| - 1, k requires 0 <= k < |stack| - 1 => stack[k + 1].major)
  }

  lemma TopInRange(g: Grammar, cores: seq<set<Item>>, stack: seq<Entry>)
    requires Lr0(g, cores) && Viable(g, cores, stack)
    ensures Top(stack).stateno < |cores|
  {
    if |stack| > 1 {
      assert Trans(g, cores, stack[|stack| - 2].stateno, stack[|stack| - 1].major, stack[|stack| - 1].stateno);
    }
  }

  /** An item with its mark advanced comes from the state below, over the symbol on top; in state 0 nothing is
      advanced. */
  lemma AdvancedFromBelow(g: Grammar, cores: seq<set<Item>>, stack: seq<Entry>, i: Item)
    requires Lr0(g, cores) && Viable(g, cores, stack) && Top(stack).stateno < |cores|
    requires i.dot > 0 && i in Closure(g, cores[Top(stack).stateno])
    ensures |stack| > 1 && Top(stack[..|stack| - 1]).stateno < |cores|
    ensures Item(i.rule, i.dot - 1) in Closure(g, cores[Top(stack[..|stack| - 1]).stateno])
    ensures Before(g, Item(i.rule, i.dot - 1), Top(stack).major)
  {
    AdvancedInCore(g, cores, Top(stack).stateno, i);
    if |stack| > 1 {
      BelowTop(g, cores, stack);
      FromGoto(g, cores, stack[|stack| - 2].stateno, Top(stack).major, Top(stack).stateno, i);
    }
  }

  /** An item whose mark has advanced is in the basis, and the first state has none. */
  lemma AdvancedInCore(g: Grammar, cores: seq<set<Item>>, q: nat, i: Item)
    requires Lr0(g, cores) && q < |cores| && i.dot > 0 && i in Closure(g, cores[q])
    ensures i in cores[q] && q != 0
  {
    assert cores[q] <= AllItems(g) && cores[0] == StartKernel(g);
    hide Closure, AllItems, Reachable, Lr0;
    if i !in cores[q] { ClosureAdds(g, cores[q], i); }
  }

  lemma BelowTop(g: Grammar, cores: seq<set<Item>>, stack: seq<Entry>)
    requires Viable(g, cores, stack) && |stack| > 1
    ensures Trans(g, cores, stack[|stack| - 2].stateno, Top(stack).major, Top(stack).stateno)
  {
    hide Trans;
    assert Trans(g, cores, stack[|stack| - 1 - 1].stateno, stack[|stack| - 1].major, stack[|stack| - 1].stateno);
  }

  lemma FromGoto(g: Grammar, cores: seq<set<Item>>, p: nat, x: nat, q: nat, i: Item)
    requires Trans(g, cores, p, x, q) && i in cores[q]
    ensures p < |cores| && i.dot > 0 && Item(i.rule, i.dot - 1) in Closure(g, cores[p])
            && Before(g, Item(i.rule, i.dot - 1), x)
  {
    hide Closure;
    var j :| j in Closure(g, cores[p]) && Before(g, j, x) && Advance(j) == i;
    assert j == Item(i.rule, i.dot - 1);
  }

  /** Everything before the mark of `i` is on top of the stack, and the item began in the state below that. */
  ghost predicate OnStack(g: Grammar, cores: seq<set<Item>>, stack: seq<Entry>, i: Item) {
    && IsItem(g, i) && |stack| > i.dot && Viable(g, cores, stack[..|stack| - i.dot])
    && Word(stack) == Word(stack[..|stack| - i.dot]) + g.rules[i.rule].rhs[..i.dot]
    && Member(g, cores, States.Structs.Ref(Top(stack[..|stack| - i.dot]).stateno, Item(i.rule, 0)))
  }

  lemma {:induction false} ItemOnStack(g: Grammar, cores: seq<set<Item>>, stack: seq<Entry>, i: Item)
    requires Lr0(g, cores) && Viable(g, cores, stack) && Member(g, cores, States.Structs.Ref(Top(stack).stateno, i))
    ensures OnStack(g, cores, stack, i)
    decreases i.dot
  {
    hide Lr0, Closure, AllItems, Trans, OnStack;
    if i.dot == 0 {
      OnStackStart(g, cores, stack, i);
    } else {
      AdvancedFromBelow(g, cores, stack, i);
      assert Viable(g, cores, stack[..|stack| - 1]);
      ItemOnStack(g, cores, stack[..|stack| - 1], Item(i.rule, i.dot - 1));
      OnStackStep(g, cores, stack, i);
    }
  }

  lemma OnStackStart(g: Grammar, cores: seq<set<Item>>, stack: seq<Entry>, i: Item)
    requires Lr0(g, cores) && Viable(g, cores, stack) && Member(g, cores, States.Structs.Ref(Top(stack).stateno, i))
             && i.dot == 0
    ensures OnStack(g, cores, stack, i)
  {
    ClosureIsLeast(g, cores[Top(stack).stateno]);
    assert i in AllItems(g);
    assert stack[..|stack|] == stack;
  }

  lemma OnStackStep(g: Grammar, cores: seq<set<Item>>, stack: seq<Entry>, i: Item)
    requires |stack| > 1 && i.dot > 0 && OnStack(g, cores, stack[..|stack| - 1], Item(i.rule, i.dot - 1))
    requires Before(g, Item(i.rule, i.dot - 1), Top(stack).major)
    ensures OnStack(g, cores, stack, i)
  {
    assert stack[..|stack| - 1][..|stack| - i.dot] == stack[..|stack| - i.dot];
    WordGrows(g, stack, i);
  }

  lemma WordGrows(g: Grammar, stack: seq<Entry>, i: Item)
    requires IsItem(g, i) && 0 < i.dot < |stack| && g.rules[i.rule].rhs[i.dot - 1] == Top(stack).major
    requires Word(stack[..|stack| - 1]) == Word(stack[..|stack| - i.dot]) + g.rules[i.rule].rhs[..i.dot - 1]
    ensures Word(stack) == Word(stack[..|stack| - i.dot]) + g.rules[i.rule].rhs[..i.dot]
  {
    var rhs := g.rules[i.rule].rhs;
    assert Word(stack) == Word(stack[..|stack| - 1]) + [Top(stack).major];
    assert rhs[..i.dot] == rhs[..i.dot - 1] + [rhs[i.dot - 1]];
  }

  /** Under a completed right-hand side there is always somewhere to go: a goto on the left-hand side, or, for a start
      rule only, the bottom of the stack. */
  lemma GoesSomewhere(g: Grammar, cores: seq<set<Item>>, base: seq<Entry>, r: nat)
    requires Valid(g) && Lr0(g, cores) && Viable(g, cores, base) && r < |g.rules|
    requires Member(g, cores, States.Structs.Ref(Top(base).stateno, Item(r, 0)))
    ensures if g.rules[r].lhs == g.start then |base| == 1 else exists j ::
              Trans(g, cores, Top(base).stateno, g.rules[r].lhs, j)
  {
    var q, i := Top(base).stateno, Item(r, 0);
    if i in cores[q] {
      UnreadKernel(g, cores, base, i);
    } else {
      ClosureAdds(g, cores[q], i);
      var k :| k in Closure(g, cores[q]) && Spawns(g, k, i);
      assert ValidRule(g, g.rules[k.rule]);
      var x := g.rules[r].lhs;
      assert x in States.NextSymbols(g, Closure(g, cores[q]));
      var j :| Edge(g, cores, q, x, j);
      assert Trans(g, cores, q, x, j);
    }
  }

  /** Only at the bottom of the stack does a kernel hold an unread rule, and it is a rule of the start symbol. */
  lemma UnreadKernel(g: Grammar, cores: seq<set<Item>>, base: seq<Entry>, i: Item)
    requires Lr0(g, cores) && Viable(g, cores, base) && i.dot == 0
    requires Top(base).stateno < |cores| && i in cores[Top(base).stateno]
    ensures |base| == 1 && g.rules[i.rule].lhs == g.start && i.rule < |g.rules|
  {
    TopFromBelow(g, cores, base);
  }

  lemma TopFromBelow(g: Grammar, cores: seq<set<Item>>, stack: seq<Entry>)
    requires Viable(g, cores, stack)
    ensures |stack| > 1 ==> Trans(g, cores, stack[|stack| - 2].stateno, Top(stack).major, Top(stack).stateno)
  {
    if |stack| > 1 {
      assert Trans(g, cores, stack[|stack| - 2].stateno, stack[|stack| - 1].major, stack[|stack| - 1].stateno);
    }
  }

  // ----- soundness -----

  /** What holds of the parser whatever it has been fed: its stack is a path of the automaton and derives, by the logged
      reductions reversed, the tokens shifted; when it has accepted, the start symbol does. */
  ghost predicate Sound(g: Grammar, cores: seq<set<Item>>, m: Parse) {
    && (m.stack != [] ==> Viable(g, cores, m.stack) && Rightmost(g, Word(m.stack), Reductions(m.log), Shifts(m.log)))
    && (m.stack != [] ==> Accepted !in m.log)
    && (Accepted in m.log ==> Rightmost(g, [g.start], Reductions(m.log), Shifts(m.log)))
  }

  lemma StartSound(g: Grammar, cores: seq<set<Item>>)
    ensures Sound(g, cores, Start())
  {
  }

  lemma PushShiftSound(g: Grammar, cores: seq<set<Item>>, depth: nat, m: Parse, j: nat, t: nat)
    requires Lr0(g, cores) && Sound(g, cores, m) && m.stack != [] && t < g.nterminal
             && Trans(g, cores, Top(m.stack).stateno, t, j)
    ensures Sound(g, cores, Push(m, depth, Entry(j, t), Shifted(t)))
  {
    hide Lr0, Rightmost, Trans, Reductions, Shifts, Tokens;
    LogAppend(m.log, Shifted(t));
    LogAppend(m.log, Overflowed);
    RightmostShift(g, Word(m.stack), Reductions(m.log), Shifts(m.log), t);
    var stack' := m.stack + [Entry(j, t)];
    assert Word(stack') == Word(m.stack) + [t];
    ViableGrows(g, cores, m.stack, Entry(j, t));
  }

  lemma ViableGrows(g: Grammar, cores: seq<set<Item>>, stack: seq<Entry>, e: Entry)
    requires Viable(g, cores, stack) && Trans(g, cores, Top(stack).stateno, e.major, e.stateno)
    ensures Viable(g, cores, stack + [e])
  {
  }

  /** A reduction that the table allows always goes through, and accepts only on `$` at the bottom of the stack. */
  lemma ReductionWorks(g: Grammar, cores: seq<set<Item>>, cells: seq<seq<Cell>>, m: Parse, t: nat, r: nat)
    requires Valid(g) && Lr0(g, cores) && Faithful(g, cores, cells) && m.stack != [] && Viable(g, cores, m.stack)
             && t < g.nterminal
    requires Lookup(cells, Top(m.stack).stateno, t) == ReduceBy(r)
    ensures r < |g.rules| && |m.stack| > |g.rules[r].rhs|
    ensures Word(m.stack) == Word(Popped(g, m.stack, r)) + g.rules[r].rhs && Viable(g, cores, Popped(g, m.stack, r))
    ensures var base, x := Popped(g, m.stack, r), g.rules[r].lhs;
            if x == g.start then |base| == 1 && t == 0 && Lookup(cells, Top(base).stateno, x) == AcceptCell
            else exists j ::
                   Lookup(cells, Top(base).stateno, x) == ShiftTo(j) && Trans(g, cores, Top(base).stateno, x, j)
  {
    var q := Top(m.stack).stateno;
    TopInRange(g, cores, m.stack);
    assert CellAllowed(g, cores, q, t, Lookup(cells, q, t));
    hide Lr0, Valid, Viable, Trans, Word, Member, CellAllowed;
    RuleOnStack(g, cores, m.stack, r, t, Lookup(cells, q, t));
    var base := Popped(g, m.stack, r);
    GoesSomewhere(g, cores, base, r);
    RuleSymbols(g, r);
    TopInRange(g, cores, base);
    BottomState(g, cores, base);
  }

  /** The right-hand side of a rule that is to be reduced is on top of the stack, and was begun in the state below. */
  lemma RuleOnStack(g: Grammar, cores: seq<set<Item>>, stack: seq<Entry>, r: nat, t: nat, cell: Cell)
    requires Lr0(g, cores) && Viable(g, cores, stack) && cell == ReduceBy(r)
    requires CellAllowed(g, cores, Top(stack).stateno, t, cell)
    ensures r < |g.rules| && |stack| > |g.rules[r].rhs| && (g.rules[r].lhs == g.start ==> t == 0)
    ensures Word(stack) == Word(Popped(g, stack, r)) + g.rules[r].rhs && Viable(g, cores, Popped(g, stack, r))
    ensures Member(g, cores, States.Structs.Ref(Top(Popped(g, stack, r)).stateno, Item(r, 0)))
  {
    hide Lr0, Viable, Member, Word;
    var i := Item(r, |g.rules[r].rhs|);
    ItemOnStack(g, cores, stack, i);
    assert g.rules[r].rhs[..i.dot] == g.rules[r].rhs;
  }

  lemma BottomState(g: Grammar, cores: seq<set<Item>>, stack: seq<Entry>)
    requires Viable(g, cores, stack)
    ensures |stack| == 1 ==> Top(stack).stateno == 0
  {
  }

  lemma RuleSymbols(g: Grammar, r: nat)
    requires Valid(g) && r < |g.rules|
    ensures g.nterminal <= g.rules[r].lhs < g.nsymbol
  {
    assert ValidRule(g, g.rules[r]);
  }

  lemma ReductionSound(g: Grammar, cores: seq<set<Item>>, cells: seq<seq<Cell>>, depth: nat, m: Parse, t: nat, r: nat)
    requires Valid(g) && Lr0(g, cores) && Faithful(g, cores, cells) && Sound(g, cores, m) && m.stack != []
             && t < g.nterminal
    requires Lookup(cells, Top(m.stack).stateno, t) == ReduceBy(r)
    ensures Sound(g, cores, Reduction(g, cells, depth, m, r))
    ensures Accepted in Reduction(g, cells, depth, m, r).log ==> t == 0
  {
    hide Lr0, Valid, Faithful, Rightmost, Viable, Trans, Reductions, Shifts, Tokens;
    ReductionWorks(g, cores, cells, m, t, r);
    var base, x := Popped(g, m.stack, r), g.rules[r].lhs;
    RightmostReduce(g, Word(base), r, Reductions(m.log), Shifts(m.log));
    LogAppend(m.log, Reduced(r));
    LogAppend(m.log, Overflowed);
    LogAppend(m.log + [Reduced(r)], Accepted);
    if x == g.start {
      assert Word(base) + [x] == [g.start];
      assert m.log + [Reduced(r), Accepted] == m.log + [Reduced(r)] + [Accepted];
    } else {
      var j :| Lookup(cells, Top(base).stateno, x) == ShiftTo(j) && Trans(g, cores, Top(base).stateno, x, j);
      ViableGrows(g, cores, base, Entry(j, x));
      assert Word(base + [Entry(j, x)]) == Word(base) + [x];
    }
  }

  lemma CellIsAllowed(g: Grammar, cores: seq<set<Item>>, cells: seq<seq<Cell>>, m: Parse, t: nat)
    requires Lr0(g, cores) && Faithful(g, cores, cells) && Sound(g, cores, m) && m.stack != [] && t < g.nterminal
    ensures CellAllowed(g, cores, Top(m.stack).stateno, t, Lookup(cells, Top(m.stack).stateno, t))
  {
    TopInRange(g, cores, m.stack);
  }

  /** One round of the loop, on any terminal, keeps the parser sound; it accepts only on `$`. */
  lemma StepSound(g: Grammar, cores: seq<set<Item>>, cells: seq<seq<Cell>>, depth: nat, m: Parse, t: nat)
    requires Valid(g) && Lr0(g, cores) && Faithful(g, cores, cells) && Sound(g, cores, m) && m.stack != []
             && t < g.nterminal
    ensures Sound(g, cores, Step(g, cells, depth, m, t).0)
    ensures Accepted in Step(g, cells, depth, m, t).0.log ==> t == 0
  {
    hide Lr0, Valid, Faithful, Rightmost, Viable, Reductions, Shifts, Tokens, Trans, Lookup;
    CellIsAllowed(g, cores, cells, m, t);
    match Lookup(cells, Top(m.stack).stateno, t)
    case ShiftTo(j) => PushShiftSound(g, cores, depth, m, j, t);
    case ReduceBy(r) => ReductionSound(g, cores, cells, depth, m, t, r);
    case _ => LogAppend(m.log, Rejected(t));
  }

  /** Nothing is lost between the input and the log, unless the stack overflows. */
  lemma StepTokens(g: Grammar, cores: seq<set<Item>>, cells: seq<seq<Cell>>, depth: nat, m: Parse, t: nat)
    requires m.stack != [] && Overflowed !in Step(g, cells, depth, m, t).0.log
    ensures Overflowed !in m.log
    ensures Tokens(Step(g, cells, depth, m, t).0.log) == Tokens(m.log) + if Step(g, cells, depth, m, t).1 then [t]
            else []
  {
    hide Tokens, Reductions, Shifts, Lookup, Popped;
    LogAppend(m.log, Shifted(t));
    LogAppend(m.log, Rejected(t));
    match Lookup(cells, Top(m.stack).stateno, t)
    case ShiftTo(j) =>
    case ReduceBy(r) =>
      LogAppend(m.log, Reduced(r));
      LogAppend(m.log + [Reduced(r)], Accepted);
      assert m.log + [Reduced(r), Accepted] == m.log + [Reduced(r)] + [Accepted];
      assert Tokens(m.log) + [] == Tokens(m.log);
    case _ =>
  }

  ghost predicate RunOk(g: Grammar, cores: seq<set<Item>>, c: Conf, input: seq<nat>) {
    && Sound(g, cores, c.m) && AllBelow(c.input, g.nterminal)
    && (Accepted in c.m.log ==> c.input != [] && c.input[0] == 0)
    && (Overflowed !in c.m.log ==> Tokens(c.m.log) + c.input == input)
  }

  lemma StepRun(g: Grammar, cores: seq<set<Item>>, cells: seq<seq<Cell>>, depth: nat, c: Conf, input: seq<nat>)
    requires Valid(g) && Lr0(g, cores) && Faithful(g, cores, cells) && RunOk(g, cores, c, input)
    ensures RunOk(g, cores, StepConf(g, cells, depth, c), input)
  {
    hide Lr0, Valid, Faithful, Sound, Tokens, Step;
    if c.m.stack != [] && c.input != [] {
      StepSound(g, cores, cells, depth, c.m, c.input[0]);
      StepAccept(g, cores, cells, depth, c.m, c.input[0]);
      if Overflowed !in Step(g, cells, depth, c.m, c.input[0]).0.log {
        StepTokens(g, cores, cells, depth, c.m, c.input[0]);
        TokensMove(Tokens(c.m.log), c.input, Step(g, cells, depth, c.m, c.input[0]).1);
      }
    }
  }

  lemma TokensMove(tokens: seq<nat>, input: seq<nat>, used: bool)
    requires input != []
    ensures tokens + (if used then [input[0]] else []) + (if used then input[1..] else input) == tokens + input
  {
  }

  lemma StepAccept(g: Grammar, cores: seq<set<Item>>, cells: seq<seq<Cell>>, depth: nat, m: Parse, t: nat)
    requires Sound(g, cores, m) && m.stack != []
    ensures Accepted in Step(g, cells, depth, m, t).0.log ==> !Step(g, cells, depth, m, t).1
  {
    match Lookup(cells, Top(m.stack).stateno, t)
    case ShiftTo(j) =>
    case ReduceBy(r) =>
    case _ =>
  }

  lemma {:induction false} StepsRun(g: Grammar, cores: seq<set<Item>>, cells: seq<seq<Cell>>, depth: nat, c: Conf,
                                    input: seq<nat>, n: nat)
    requires Valid(g) && Lr0(g, cores) && Faithful(g, cores, cells) && RunOk(g, cores, c, input)
    ensures RunOk(g, cores, Steps(g, cells, depth, c, n), input)
    decreases n
  {
    hide Lr0, Valid, Faithful, RunOk;
    if n > 0 {
      StepRun(g, cores, cells, depth, c, input);
      StepsRun(g, cores, cells, depth, StepConf(g, cells, depth, c), input, n - 1);
    }
  }

  lemma {:induction false} NoRejections(log: seq<Event>)
    requires forall t :: Rejected(t) !in log
    ensures Tokens(log) == Shifts(log)
  {
    if log != [] {
      var n := |log| - 1;
      assert log[n] in log;
      NoRejections(log[..n]);
    }
  }

  /** Parser soundness: if the driver accepts a token string followed by `$`, without syntax error or overflow, then the
      reductions it performed, reversed, are a rightmost derivation of exactly that string from the start symbol.
      In any case the tokens it did shift are a sentence when it accepts. */
  lemma AcceptedIsDerived(g: Grammar, cores: seq<set<Item>>, cells: seq<seq<Cell>>, depth: nat, w: seq<nat>, n: nat)
    requires Valid(g) && Lr0(g, cores) && Faithful(g, cores, cells)
    requires forall k | 0 <= k < |w| :: 0 < w[k] < g.nterminal
    requires Accepted in Steps(g, cells, depth, Conf(Start(), w + [0]), n).m.log
    ensures var m := Steps(g, cells, depth, Conf(Start(), w + [0]), n).m;
            && Rightmost(g, [g.start], Reductions(m.log), Shifts(m.log)) && Derives(g, [g.start], Shifts(m.log))
            && (Overflowed !in m.log && (forall t :: Rejected(t) !in m.log) ==> Shifts(m.log) == w)
  {
    var c := Steps(g, cells, depth, Conf(Start(), w + [0]), n);
    StartSound(g, cores);
    StepsRun(g, cores, cells, depth, Conf(Start(), w + [0]), w + [0], n);
    RightmostDerives(g, [g.start], Reductions(c.m.log), Shifts(c.m.log));
    if Overflowed !in c.m.log && forall t :: Rejected(t) !in c.m.log {
      NoRejections(c.m.log);
      FirstEnd(w, Shifts(c.m.log), c.input);
    }
  }

  /** Only the last token of the input is `$`. */
  lemma FirstEnd(w: seq<nat>, u: seq<nat>, rest: seq<nat>)
    requires (forall k | 0 <= k < |w| :: w[k] > 0) && u + rest == w + [0] && rest != [] && rest[0] == 0
    ensures u == w
  {
    var all := u + rest;
    assert all[|u|] == 0;
    assert forall k | 0 <= k < |w| :: all[k] == w[k] > 0;
    assert |u| == |w|;
    assert u == all[..|u|] && w == all[..|w|];
  }

  /** The driver in a configuration can act as its asserts demand: `$` is not shifted, a reduction fits the stack and
      has its goto, or accepts on `$` with only state 0 left, and anything else is the error action. */
  ghost predicate CanAct(g: Grammar, cells: seq<seq<Cell>>, m: Parse, t: nat)
    requires m.stack != []
  {
    match Lookup(cells, Top(m.stack).stateno, t)
    case ShiftTo(j) => t != 0
    case ReduceBy(r) =>
      && r < |g.rules| && |m.stack| > |g.rules[r].rhs|
      && Word(m.stack) == Word(Popped(g, m.stack, r)) + g.rules[r].rhs
      && (Lookup(cells, Top(Popped(g, m.stack, r)).stateno, g.rules[r].lhs).ShiftTo?
          || (t == 0 && |Popped(g, m.stack, r)| == 1 && g.rules[r].lhs == g.start
              && Lookup(cells, Top(Popped(g, m.stack, r)).stateno, g.rules[r].lhs) == AcceptCell))
    case AcceptCell => false
    case ErrorCell => true
  }

  lemma SoundCanAct(g: Grammar, cores: seq<set<Item>>, cells: seq<seq<Cell>>, m: Parse, t: nat)
    requires Valid(g) && Lr0(g, cores) && Faithful(g, cores, cells) && Sound(g, cores, m) && m.stack != []
             && t < g.nterminal
    ensures CanAct(g, cells, m, t)
  {
    TopInRange(g, cores, m.stack);
    var q := Top(m.stack).stateno;
    assert CellAllowed(g, cores, q, t, Lookup(cells, q, t));
    match Lookup(cells, q, t)
    case ShiftTo(j) => NextPositive(g, cores[q], t);
    case ReduceBy(r) => ReductionWorks(g, cores, cells, m, t, r);
    case _ =>
  }

  lemma NextPositive(g: Grammar, k: set<Item>, x: nat)
    requires Valid(g) && x in States.NextSymbols(g, Closure(g, k))
    ensures x != 0
  {
    var i :| i in Closure(g, k) && IsItem(g, i) && !AtEnd(g, i) && g.rules[i.rule].rhs[i.dot] == x;
    assert ValidRule(g, g.rules[i.rule]);
  }

  /** A reduce never gets stuck: in every configuration the driver can reach, on any input, its asserts hold. */
  lemma NeverStuck(g: Grammar, cores: seq<set<Item>>, cells: seq<seq<Cell>>, depth: nat, input: seq<nat>, n: nat)
    requires Valid(g) && Lr0(g, cores) && Faithful(g, cores, cells) && AllBelow(input, g.nterminal)
    ensures var c := Steps(g, cells, depth, Conf(Start(), input), n);
            c.m.stack != [] && c.input != [] ==> CanAct(g, cells, c.m, c.input[0])
  {
    var c := Steps(g, cells, depth, Conf(Start(), input), n);
    StartSound(g, cores);
    StepsRun(g, cores, cells, depth, Conf(Start(), input), input, n);
    if c.m.stack != [] && c.input != [] {
      SoundCanAct(g, cores, cells, c.m, c.input[0]);
    }
  }

  // ----- tables that agree wherever neither has an error -----

  /** `cells'` acts like `cells` wherever `cells` acts at all on a terminal, and has the same gotos. */
  ghost predicate Agrees(g: Grammar, cells: seq<seq<Cell>>, cells': seq<seq<Cell>>) {
    && (forall q, t | 0 <= t < g.nterminal && Lookup(cells, q, t) != ErrorCell ::
        Lookup(cells', q, t) == Lookup(cells, q, t))
    && (forall q, x | g.nterminal <= x :: Lookup(cells', q, x) == Lookup(cells, q, x))
  }

  /** The next token is rejected by `cells`, but not by `cells'`. */
  ghost predicate Diverts(cells: seq<seq<Cell>>, cells': seq<seq<Cell>>, c: Conf) {
    && c.m.stack != [] && c.input != [] && Lookup(cells, Top(c.m.stack).stateno, c.input[0]) == ErrorCell
    && var cell := Lookup(cells', Top(c.m.stack).stateno, c.input[0]); cell.ShiftTo? || cell.ReduceBy?
  }

  /** One round is the same on both tables exactly if it does not divert. */
  lemma SameStep(g: Grammar, cells: seq<seq<Cell>>, cells': seq<seq<Cell>>, depth: nat, c: Conf)
    requires Valid(g) && Agrees(g, cells, cells') && AllBelow(c.input, g.nterminal)
    ensures StepConf(g, cells', depth, c) == StepConf(g, cells, depth, c) <==> !Diverts(cells, cells', c)
  {
    if c.m.stack != [] && c.input != [] {
      var q, t := Top(c.m.stack).stateno, c.input[0];
      if Lookup(cells, q, t).ReduceBy? && Lookup(cells, q, t).rule < |g.rules| {
        RuleSymbols(g, Lookup(cells, q, t).rule);
      }
      if Diverts(cells, cells', c) { DivertedStep(g, cells, cells', depth, c); }
    }
  }

  lemma DivertedStep(g: Grammar, cells: seq<seq<Cell>>, cells': seq<seq<Cell>>, depth: nat, c: Conf)
    requires Diverts(cells, cells', c)
    ensures StepConf(g, cells', depth, c) != StepConf(g, cells, depth, c)
  {
    var t := c.input[0];
    var r := StepConf(g, cells, depth, c);
    assert r.m.log == c.m.log + [Rejected(t)] && |r.input| < |c.input|;
    assert r.m.log[|c.m.log|] == Rejected(t);
    match Lookup(cells', Top(c.m.stack).stateno, t)
    case ShiftTo(j) =>
      var l := StepConf(g, cells', depth, c).m.log;
      assert l == c.m.log + [Overflowed] || l == c.m.log + [Shifted(t)];
      assert l[|c.m.log|] != Rejected(t);
    case ReduceBy(k) =>
      assert StepConf(g, cells', depth, c).input == c.input;
    case _ =>
  }

  /** What compression does to a run: it takes the same course, event by event, exactly as long as no token is
      rejected in a state that has an action for it on the other table, that is, a default. */
  lemma {:induction false} SameRun(g: Grammar, cells: seq<seq<Cell>>, cells': seq<seq<Cell>>, depth: nat, c: Conf,
                                   n: nat)
    requires Valid(g) && Agrees(g, cells, cells') && AllBelow(c.input, g.nterminal)
    ensures (forall k: nat | k <= n :: Steps(g, cells', depth, c, k) == Steps(g, cells, depth, c, k)) <==>
              (forall k: nat | k < n :: !Diverts(cells, cells', Steps(g, cells, depth, c, k)))
    decreases n
  {
    if n > 0 {
      hide Valid, Agrees, StepConf, Diverts, Steps, AllBelow;
      var d := Steps(g, cells, depth, c, n - 1);
      SameRun(g, cells, cells', depth, c, n - 1);
      LastStep(g, cells, depth, c, n);
      LastStep(g, cells', depth, c, n);
      InputLeft(g, cells, depth, c, n - 1);
      SameStep(g, cells, cells', depth, d);
    }
  }

  lemma LastStep(g: Grammar, cells: seq<seq<Cell>>, depth: nat, c: Conf, n: nat)
    requires n > 0
    ensures Steps(g, cells, depth, c, n) == StepConf(g, cells, depth, Steps(g, cells, depth, c, n - 1))
  {
    StepsAdd(g, cells, depth, c, n - 1, 1);
    OneStep(g, cells, depth, Steps(g, cells, depth, c, n - 1));
  }

  lemma OneStep(g: Grammar, cells: seq<seq<Cell>>, depth: nat, c: Conf)
    ensures Steps(g, cells, depth, c, 1) == StepConf(g, cells, depth, c)
  {
    assert Steps(g, cells, depth, StepConf(g, cells, depth, c), 0) == StepConf(g, cells, depth, c);
  }

  lemma {:induction false} InputLeft(g: Grammar, cells: seq<seq<Cell>>, depth: nat, c: Conf, n: nat)
    requires AllBelow(c.input, g.nterminal)
    ensures AllBelow(Steps(g, cells, depth, c, n).input, g.nterminal)
    decreases n
  {
    if n > 0 { InputLeft(g, cells, depth, StepConf(g, cells, depth, c), n - 1); }
  }

  /** In particular a run on which nothing is rejected. */
  lemma CleanRun(g: Grammar, cells: seq<seq<Cell>>, cells': seq<seq<Cell>>, depth: nat, c: Conf, n: nat)
    requires Valid(g) && Agrees(g, cells, cells') && AllBelow(c.input, g.nterminal)
    requires forall t :: Rejected(t) !in Steps(g, cells, depth, c, n).m.log
    ensures Steps(g, cells', depth, c, n) == Steps(g, cells, depth, c, n)
  {
    forall k: nat | k < n ensures !Diverts(cells, cells', Steps(g, cells, depth, c, k)) {
      RejectionStays(g, cells, cells', depth, c, k, n);
    }
    SameRun(g, cells, cells', depth, c, n);
  }

  lemma RejectionStays(g: Grammar, cells: seq<seq<Cell>>, cells': seq<seq<Cell>>, depth: nat, c: Conf, k: nat, n: nat)
    requires k < n && forall t :: Rejected(t) !in Steps(g, cells, depth, c, n).m.log
    ensures !Diverts(cells, cells', Steps(g, cells, depth, c, k))
  {
    var d := Steps(g, cells, depth, c, k);
    StepsAdd(g, cells, depth, c, k, n - k);
    LogKeeps(g, cells, depth, StepConf(g, cells, depth, d), n - k - 1);
    if Diverts(cells, cells', d) {
      DivertRejects(g, cells, cells', depth, d);
      assert false;
    }
  }

  lemma DivertRejects(g: Grammar, cells: seq<seq<Cell>>, cells': seq<seq<Cell>>, depth: nat, c: Conf)
    requires Diverts(cells, cells', c)
    ensures Rejected(c.input[0]) in StepConf(g, cells, depth, c).m.log
  {
    assert StepConf(g, cells, depth, c).m.log == c.m.log + [Rejected(c.input[0])];
  }

  /** Nothing is ever removed from the log. */
  lemma {:induction false} LogKeeps(g: Grammar, cells: seq<seq<Cell>>, depth: nat, c: Conf, n: nat)
    ensures forall e | e in c.m.log :: e in Steps(g, cells, depth, c, n).m.log
    decreases n
  {
    if n > 0 {
      LogKeeps(g, cells, depth, StepConf(g, cells, depth, c), n - 1);
      if c.m.stack != [] && c.input != [] {
        assert forall e | e in c.m.log :: e in StepConf(g, cells, depth, c).m.log;
      }
    }
  }
}
