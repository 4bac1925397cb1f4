/** What a generated parser is worth whose tables do not refine the cells: it is as good as the cells that its lookups
    show it. */
module Strays {
  import opened Grammars
  import opened Items
  import opened M = Machine
  import opened L = Lookaheads
  import opened R = Resort
  import opened K = Packing
  import opened T = Tables
  import opened P = Parsers
  import A = Actions
  import C = Completeness
  import G = Generator
  import States
  import Z = Compress

  /** The cell that an action code means to the driver. Anything else than a shift, a reduction or an error it does not
      expect on a token. */
  function CellOfCode(nstate: nat, nrule: nat, code: int): Cell {
    if 0 <= code < nstate then ShiftTo(code)
    else if nstate <= code < nstate + nrule then ReduceBy(code - nstate)
    else if code == nstate + nrule then ErrorCell
    else AcceptCell
  }

  lemma CodeOfAllowed(g: Grammar, cores: seq<set<Item>>, p: nat, x: nat, cell: Cell)
    requires CellAllowed(g, cores, p, x, cell)
    ensures CellOfCode(|cores|, |g.rules|, CellCode(|cores|, |g.rules|, cell)) == cell
  {
  }

  /** What the driver sees in state `p` on terminal `x`. */
  function SeenCell(t: Tables, p: nat, x: nat): Cell
    requires p < |t.defaults| && |t.lookaheads| == |t.actions|
  {
    CellOfCode(t.nstate, t.nrule, FindShiftAction(t, p, x))
  }

  /** Whatever it sees, the state could do. */
  ghost predicate SeenAllowed(t: Tables, g: Grammar, cores: seq<set<Item>>)
    requires |t.lookaheads| == |t.actions|
  {
    forall p: nat, x: nat | p < |t.defaults| && x < g.nterminal :: CellAllowed(g, cores, p, x, SeenCell(t, p, x))
  }

  /** And where the state has a reduction with that lookahead, it sees it. */
  ghost predicate SeenReductions(t: Tables, g: Grammar, cores: seq<set<Item>>)
    requires |t.lookaheads| == |t.actions|
  {
    forall p: nat, r: nat, x: nat | p < |t.defaults| && A.IsReduction(g, cores, p, r, x) ::
      SeenCell(t, p, x) == ReduceBy(r)
  }

  /** The table that the driver sees: on nonterminals it is the final table. */
  function SeenRow(t: Tables, g: Grammar, cells: seq<seq<Cell>>, p: nat): seq<Cell>
    requires p < |t.defaults| && |t.lookaheads| == |t.actions|
  {
    seq(g.nsymbol, x requires 0 <= x < g.nsymbol => if x < g.nterminal then SeenCell(t, p, x) else Lookup(cells, p, x))
  }

  function SeenTable(t: Tables, g: Grammar, cells: seq<seq<Cell>>): seq<seq<Cell>>
    requires |t.lookaheads| == |t.actions|
  {
    seq(|t.defaults|, p requires 0 <= p < |t.defaults| => SeenRow(t, g, cells, p))
  }

  lemma SeenLookup(t: Tables, g: Grammar, cells: seq<seq<Cell>>, p: nat, x: nat)
    requires p < |t.defaults| && |t.lookaheads| == |t.actions| && x < g.nsymbol
    ensures Lookup(SeenTable(t, g, cells), p, x) == if x < g.nterminal then SeenCell(t, p, x) else Lookup(cells, p, x)
  {
    assert SeenTable(t, g, cells)[p] == SeenRow(t, g, cells, p);
  }

  /** Tables whose gotos are those of a faithful table `cells`. */
  ghost predicate GotosRight(t: Tables, g: Grammar, cores: seq<set<Item>>, cells: seq<seq<Cell>>) {
    && Valid(g) && Lr0(g, cores) && Faithful(g, cores, cells)
    && t.nstate == |t.defaults| == |cells| && t.nrule == |g.rules| && |t.lookaheads| == |t.actions|
    && forall p: nat, x: nat | p < |cells| && g.nterminal <= x < g.nsymbol && Lookup(cells, p, x) != ErrorCell ::
         GotoAgrees(t, g, cells, p, x)
  }

  /** If the states could do all that the driver sees, the table it sees is faithful, and refined. */
  lemma SeenGenerated(t: Tables, info: seq<RuleInfo>, g: Grammar, cores: seq<set<Item>>, cells: seq<seq<Cell>>)
    requires GotosRight(t, g, cores, cells) && RuleInfoOk(g, info) && SeenAllowed(t, g, cores)
    ensures Generated(t, info, g, cores, SeenTable(t, g, cells))
  {
    SeenFaithful(t, g, cores, cells);
    SeenRefined(t, g, cores, cells);
  }

  lemma SeenFaithful(t: Tables, g: Grammar, cores: seq<set<Item>>, cells: seq<seq<Cell>>)
    requires GotosRight(t, g, cores, cells) && SeenAllowed(t, g, cores)
    ensures Faithful(g, cores, SeenTable(t, g, cells))
  {
    var seen := SeenTable(t, g, cells);
    hide SeenTable, Lr0, SeenCell, GotoAgrees, Closure, Lookup, Valid;
    ValidSizes(g);
    SeenSize(t, g, cells);
    forall p, x: nat | 0 <= p < |seen| && x < g.nterminal ensures CellAllowed(g, cores, p, x, Lookup(seen, p, x)) {
      SeenLookup(t, g, cells, p, x);
    }
    forall p, x: nat, j | 0 <= p < |seen| && g.nterminal <= x && Trans(g, cores, p, x, j)
      ensures Lookup(seen, p, x) == ShiftTo(j)
    {
      TransSymbol(g, cores, p, x, j);
      SeenLookup(t, g, cells, p, x);
    }
    StartBelow(g);
    SeenLookup(t, g, cells, 0, g.start);
  }

  lemma SeenSize(t: Tables, g: Grammar, cells: seq<seq<Cell>>)
    requires |t.lookaheads| == |t.actions|
    ensures |SeenTable(t, g, cells)| == |t.defaults|
  {
  }

  lemma StartBelow(g: Grammar)
    requires Valid(g)
    ensures g.nterminal <= g.start < g.nsymbol
  {
  }

  lemma TransSymbol(g: Grammar, cores: seq<set<Item>>, p: nat, x: nat, j: nat)
    requires Valid(g) && Trans(g, cores, p, x, j)
    ensures x < g.nsymbol
  {
    var i :| i in Closure(g, cores[p]) && IsItem(g, i) && !AtEnd(g, i) && g.rules[i.rule].rhs[i.dot] == x;
    assert ValidRule(g, g.rules[i.rule]);
  }

  lemma SeenRefined(t: Tables, g: Grammar, cores: seq<set<Item>>, cells: seq<seq<Cell>>)
    requires GotosRight(t, g, cores, cells) && SeenAllowed(t, g, cores)
    ensures Refines(t, g, SeenTable(t, g, cells))
  {
    var seen := SeenTable(t, g, cells);
    ValidSizes(g);
    SeenSize(t, g, cells);
    hide SeenTable, Lr0, Valid, Faithful, FindShiftAction, FindReduceAction, ReduceActionFound, Lookup;
    forall p: nat, x: nat | p < |seen| && x < g.nterminal ensures ShiftAgrees(t, g, seen, p, x) {
      SeenLookup(t, g, cells, p, x);
      assert CellAllowed(g, cores, p, x, SeenCell(t, p, x));
    }
    forall p: nat, x: nat | p < |seen| && g.nterminal <= x < g.nsymbol && Lookup(seen, p, x) != ErrorCell
      ensures GotoAgrees(t, g, seen, p, x)
    {
      SeenLookup(t, g, cells, p, x);
      assert GotoAgrees(t, g, cells, p, x);
    }
  }

  /** And only then do the tables stand for any faithful table. */
  lemma OnlySeen(t: Tables, info: seq<RuleInfo>, g: Grammar, cores: seq<set<Item>>, cells: seq<seq<Cell>>)
    requires Generated(t, info, g, cores, cells)
    ensures |t.lookaheads| == |t.actions| && SeenAllowed(t, g, cores)
    ensures forall p: nat, x: nat | p < |t.defaults| && x < g.nterminal :: SeenCell(t, p, x) == Lookup(cells, p, x)
  {
    hide Valid, Lr0, RuleInfoOk, FindShiftAction, Lookup, CellAllowed, CellCode, CellOfCode;
    forall p: nat, x: nat | p < |t.defaults| && x < g.nterminal
      ensures SeenCell(t, p, x) == Lookup(cells, p, x) && CellAllowed(g, cores, p, x, SeenCell(t, p, x))
    {
      assert ShiftAgrees(t, g, cells, p, x) && CellAllowed(g, cores, p, x, Lookup(cells, p, x));
      CodeOfAllowed(g, cores, p, x, Lookup(cells, p, x));
    }
  }

  // ----- the generator's tables -----

  lemma ResultParts(c: Source, cores: seq<set<Item>>, sorted: seq<nat>, ax: seq<Axset>, h: seq<Stage>, t: Tables)
    requires Valid(c.g) && G.Result(c, cores, sorted, ax, h, t)
    ensures GotosRight(t, c.g, RenumberedCores(sorted, cores), FinalTable(c, sorted)) && LiveRefines(t, c, sorted)
    ensures AllCodable(c.g, c.ss) && IsRenumbering(|c.ss|, sorted, c.statenum) && PackRun(c, ax, h)
    ensures Refines(t, c.g, FinalTable(c, sorted)) <==> AllSafe(c, ax, h)
    ensures A.ConflictFree(c.g, cores) ==> C.Complete(c.g, RenumberedCores(sorted, cores), FinalTable(c, sorted))
  {
    hide Valid, Lr0, IsRenumbering, RenumberedCores, Faithful, A.ConflictFree, C.Complete, AllCodable, PackRun, AllSafe,
         Packed, SlotsWritten, OfstsWritten, FinalTable, ShiftAgrees, GotoAgrees, Z.FindLive, Lookup;
    FinalSize(c, sorted);
  }

  lemma FinalSize(c: Source, sorted: seq<nat>)
    ensures |FinalTable(c, sorted)| == |sorted|
  {
  }

  /** On a shift, which is never a default, the lookup is right. */
  lemma ShiftSeen(c: Source, sorted: seq<nat>, t: Tables, cores: seq<set<Item>>, p: nat, x: nat, j: nat)
    requires Valid(c.g) && AllCodable(c.g, c.ss) && IsRenumbering(|c.ss|, sorted, c.statenum)
             && LiveRefines(t, c, sorted)
    requires GotosRight(t, c.g, cores, FinalTable(c, sorted)) && SeenAllowed(t, c.g, cores)
    requires p < |c.ss| && x < c.g.nterminal && Lookup(FinalTable(c, sorted), p, x) == ShiftTo(j)
    requires Trans(c.g, cores, p, x, j)
    ensures SeenCell(t, p, x) == ShiftTo(j)
  {
    ValidSizes(c.g);
    CellInTable(c.g, c.ss, sorted, c.statenum, p, x);
    DefaultNoShift(c, sorted[p]);
    hide AllCodable, IsRenumbering, Valid, Lr0, Faithful, FindShiftAction, SeenAllowed;
    assert ShiftAgrees(t, c.g, FinalTable(c, sorted), p, x);
  }

  lemma DefaultNoShift(c: Source, q: nat)
    requires AllCodable(c.g, c.ss) && q < |c.ss|
    ensures !Z.CellOf(Z.FindLive(c.ss[q].ap, c.g.nsymbol)).ShiftTo?
  {
    Z.FindLiveIs(c.ss[q].ap, c.g.nsymbol);
  }

  /** With the reductions the driver sees all that a table without conflicts has. */
  lemma SeenComplete(c: Source, sorted: seq<nat>, t: Tables, cores: seq<set<Item>>)
    requires Valid(c.g) && AllCodable(c.g, c.ss) && IsRenumbering(|c.ss|, sorted, c.statenum)
             && LiveRefines(t, c, sorted)
    requires GotosRight(t, c.g, cores, FinalTable(c, sorted)) && SeenAllowed(t, c.g, cores)
    requires C.Complete(c.g, cores, FinalTable(c, sorted)) && SeenReductions(t, c.g, cores)
    ensures C.Complete(c.g, cores, SeenTable(t, c.g, FinalTable(c, sorted)))
  {
    var g, cells := c.g, FinalTable(c, sorted);
    var seen := SeenTable(t, g, cells);
    ValidSizes(g);
    StartBelow(g);
    SeenSizes(c, sorted, t, cores);
    hide Valid, AllCodable, IsRenumbering, LiveRefines, GotosRight, SeenTable, FinalTable, Lookup, SeenAllowed,
         SeenCell;
    forall q: nat, x: nat, j: nat | Trans(g, cores, q, x, j) ensures Lookup(seen, q, x) == ShiftTo(j) {
      TransSymbol(g, cores, q, x, j);
      SeenLookup(t, g, cells, q, x);
      if x < g.nterminal { ShiftSeen(c, sorted, t, cores, q, x, j); }
    }
    forall q, r, x | A.IsReduction(g, cores, q, r, x) ensures Lookup(seen, q, x) == ReduceBy(r) {
      A.SeedTerminal(g, cores, States.Structs.Ref(q, A.EndItem(g, r)), x);
      SeenLookup(t, g, cells, q, x);
    }
    SeenLookup(t, g, cells, 0, g.start);
  }

  lemma SeenSizes(c: Source, sorted: seq<nat>, t: Tables, cores: seq<set<Item>>)
    requires GotosRight(t, c.g, cores, FinalTable(c, sorted)) && LiveRefines(t, c, sorted)
    ensures |t.defaults| == |cores| == |c.ss| > 0 && |t.lookaheads| == |t.actions|
  {
  }

  /** Of what the generator emits: it makes a sound parser, whatever strays there are, if and only if each state
      could do all that the driver sees there; and one that accepts every sentence of a grammar without conflicts if
      and only if, besides, the driver sees each reduction on its lookaheads. */
  lemma SeenParser(c: Source, cores: seq<set<Item>>, sorted: seq<nat>, ax: seq<Axset>, h: seq<Stage>, t: Tables,
                   info: seq<RuleInfo>)
    requires Valid(c.g) && G.Result(c, cores, sorted, ax, h, t) && RuleInfoOk(c.g, info)
    ensures |t.lookaheads| == |t.actions| && PackRun(c, ax, h)
    ensures var cores' := RenumberedCores(sorted, cores);
            && ((exists cells :: Generated(t, info, c.g, cores', cells)) <==> SeenAllowed(t, c.g, cores'))
            && (AllSafe(c, ax, h) ==> SeenAllowed(t, c.g, cores'))
            && (A.ConflictFree(c.g, cores) ==>
                  ((exists cells :: Generated(t, info, c.g, cores', cells) && C.Complete(c.g, cores', cells)) <==>
                   SeenAllowed(t, c.g, cores') && SeenReductions(t, c.g, cores')))
  {
    var cores', cells := RenumberedCores(sorted, cores), FinalTable(c, sorted);
    ResultParts(c, cores, sorted, ax, h, t);
    SeenSizes(c, sorted, t, cores');
    hide G.Result, LiveRefines, AllCodable, IsRenumbering, PackRun, AllSafe, RenumberedCores, FinalTable, C.Complete,
         A.ConflictFree, RuleInfoOk, SeenAllowed, SeenReductions, Generated, Valid, SeenTable, Refines, Lr0, Faithful;
    if AllSafe(c, ax, h) { IsGenerated(t, info, c.g, cores', cells); }
    forall seen | Generated(t, info, c.g, cores', seen)
      ensures SeenAllowed(t, c.g, cores') && (C.Complete(c.g, cores', seen) ==> SeenReductions(t, c.g, cores'))
    {
      OnlySeen(t, info, c.g, cores', seen);
      if C.Complete(c.g, cores', seen) { CompleteSeen(t, info, c.g, cores', seen); }
    }
    if SeenAllowed(t, c.g, cores') {
      SeenGenerated(t, info, c.g, cores', cells);
      if A.ConflictFree(c.g, cores) && SeenReductions(t, c.g, cores') { SeenComplete(c, sorted, t, cores'); }
    }
  }

  lemma IsGenerated(t: Tables, info: seq<RuleInfo>, g: Grammar, cores: seq<set<Item>>, cells: seq<seq<Cell>>)
    requires GotosRight(t, g, cores, cells) && RuleInfoOk(g, info) && Refines(t, g, cells)
    ensures Generated(t, info, g, cores, cells)
  {
  }

  lemma CompleteSeen(t: Tables, info: seq<RuleInfo>, g: Grammar, cores: seq<set<Item>>, cells: seq<seq<Cell>>)
    requires Generated(t, info, g, cores, cells) && C.Complete(g, cores, cells)
    ensures |t.lookaheads| == |t.actions| && SeenReductions(t, g, cores)
  {
    OnlySeen(t, info, g, cores, cells);
    hide Faithful, Refines, SeenCell, Lookup, Trans, A.IsReduction, Lr0;
    forall p: nat, r: nat, x: nat | p < |t.defaults| && A.IsReduction(g, cores, p, r, x)
      ensures SeenCell(t, p, x) == ReduceBy(r)
    {
      ReductionTerminal(g, cores, p, r, x);
      assert Lookup(cells, p, x) == ReduceBy(r);
    }
  }

  lemma ReductionTerminal(g: Grammar, cores: seq<set<Item>>, p: nat, r: nat, x: nat)
    requires Valid(g) && A.IsReduction(g, cores, p, r, x)
    ensures x < g.nterminal
  {
    A.SeedTerminal(g, cores, States.Structs.Ref(p, A.EndItem(g, r)), x);
  }

  /** So, where each state could do all that is seen there, the emitted tables never get stuck, on any input, and accept
      only sentences. */
  lemma SeenSound(t: Tables, info: seq<RuleInfo>, g: Grammar, cores: seq<set<Item>>, cells: seq<seq<Cell>>, depth: nat,
                  w: seq<nat>, n: nat)
    requires GotosRight(t, g, cores, cells) && RuleInfoOk(g, info) && SeenAllowed(t, g, cores)
    requires forall k | 0 <= k < |w| :: 0 < w[k] < g.nterminal
    ensures var c := Steps(g, SeenTable(t, g, cells), depth, Conf(Start(), w + [0]), n);
            && (c.m.stack != [] && c.input != [] ==> CanAct(g, SeenTable(t, g, cells), c.m, c.input[0]))
            && (Accepted in c.m.log ==> Derives(g, [g.start], Shifts(c.m.log)))
            && (Accepted in c.m.log && Overflowed !in c.m.log && (forall x :: Rejected(x) !in c.m.log) ==>
                  Shifts(c.m.log) == w)
  {
    var seen := SeenTable(t, g, cells);
    SeenFaithful(t, g, cores, cells);
    hide SeenTable, SeenAllowed, Steps, CanAct, Lr0, Faithful, Derives;
    NeverStuck(g, cores, seen, depth, w + [0], n);
    if Accepted in Steps(g, seen, depth, Conf(Start(), w + [0]), n).m.log {
      AcceptedIsDerived(g, cores, seen, depth, w, n);
    }
  }
}
