/** The table output: the packed rows written to yy_action and yy_lookahead, the offset arrays with their sentinels,
    and the lookups of the generated parser. */
module Tables {
  import opened Grammars
  import opened Items
  import opened Structs
  import opened ActtabModule
  import opened M = Machine
  import opened R = Resort
  import opened K = Packing
  import A = Actions
  import Z = Compress
  import E = Encoding

  /** The arrays and constants of the generated parser: yy_action, yy_lookahead, yy_shift_ofst, yy_reduce_ofst and
      yy_default. YY_ACTTAB_COUNT is the length of the first two, YY_SHIFT_COUNT and YY_REDUCE_COUNT are the last
      indices of the offset arrays, the marks for a state without a row are YY_SHIFT_USE_DFLT and YY_REDUCE_USE_DFLT,
      and the bounds of the offsets are YY_SHIFT_MIN, YY_SHIFT_MAX, YY_REDUCE_MIN and YY_REDUCE_MAX. */
  datatype Tables = Tables(nstate: nat, nrule: nat, actions: seq<int>, lookaheads: seq<int>,
                           shiftOfsts: seq<int>, shiftUseDflt: int, shiftMin: int, shiftMax: int,
                           reduceOfsts: seq<int>, reduceUseDflt: int, reduceMin: int, reduceMax: int,
                               defaults: seq<nat>)

  /** The slots as they are written out: empty ones get a lookahead that no token has, and the no-action code. */
  ghost predicate SlotsWritten(g: Grammar, nstate: nat, slots: seq<LookaheadAction>, n: nat, actions: seq<int>,
                               lookaheads: seq<int>)
    requires n <= |slots|
  {
    && |actions| == |lookaheads| == n
    && forall i | 0 <= i < n ::
         && lookaheads[i] == (if slots[i].lookahead < 0 then g.nsymbol else slots[i].lookahead)
         && actions[i] == (if slots[i].action < 0 then nstate + |g.rules| + 2 else slots[i].action)
  }

  method WriteSlots(g: Grammar, nstate: nat, tab: Acttab) returns (actions: seq<int>, lookaheads: seq<int>)
    requires tab.Valid()
    ensures SlotsWritten(g, nstate, tab.aAction[..], tab.nAction, actions, lookaheads)
    ensures |actions| == |lookaheads| == tab.nAction <= tab.aAction.Length
    ensures forall i | 0 <= i < tab.nAction ::
              && (tab.aAction[i].action >= 0 ==> actions[i] == tab.aAction[i].action)
              && (tab.aAction[i].action < 0 ==> actions[i] == nstate + |g.rules| + 2)
              && (tab.aAction[i].lookahead >= 0 ==> lookaheads[i] == tab.aAction[i].lookahead)
              && (tab.aAction[i].lookahead < 0 ==> lookaheads[i] == g.nsymbol)
  {
    actions, lookaheads := [], [];
    for i := 0 to tab.nAction
      invariant |actions| == i
      invariant forall k | 0 <= k < i ::
                  actions[k] == (if tab.aAction[k].action < 0 then nstate + |g.rules| + 2 else tab.aAction[k].action)
    {
      var action := tab.aAction[i].action;
      if action < 0 { action := nstate + |g.rules| + 2; }
      actions := actions + [action];
    }
    for i := 0 to tab.nAction
      invariant |lookaheads| == i
      invariant forall k | 0 <= k < i ::
                  lookaheads[k] == (if tab.aAction[k].lookahead < 0 then g.nsymbol else tab.aAction[k].lookahead)
    {
      var la := tab.aAction[i].lookahead;
      if la < 0 { la := g.nsymbol; }
      lookaheads := lookaheads + [la];
    }
  }

  /** An offset array: cut off behind the last state with a row, and with the mark for the other states without one. */
  ghost predicate OfstsWritten(info: seq<Info>, sorted: seq<nat>, isTkn: bool, useDflt: int, ofsts: seq<int>)
    requires InRange(info, sorted)
  {
    && |ofsts| <= |sorted|
    && (forall p | 0 <= p < |ofsts| ::
          ofsts[p] == if OfstOf(info[sorted[p]], isTkn) == NO_OFFSET then useDflt else OfstOf(info[sorted[p]], isTkn))
    && (forall p | |ofsts| <= p < |sorted| :: OfstOf(info[sorted[p]], isTkn) == NO_OFFSET)
    && (ofsts != [] ==> OfstOf(info[sorted[|ofsts| - 1]], isTkn) != NO_OFFSET)
  }

  method WriteOfsts(info: seq<Info>, sorted: seq<nat>, isTkn: bool, useDflt: int) returns (ofsts: seq<int>)
    requires InRange(info, sorted)
    ensures OfstsWritten(info, sorted, isTkn, useDflt, ofsts)
  {
    var n := |sorted|;
    while n > 0 && OfstOf(info[sorted[n - 1]], isTkn) == NO_OFFSET
      invariant 0 <= n <= |sorted| && forall p | n <= p < |sorted| :: OfstOf(info[sorted[p]], isTkn) == NO_OFFSET
    {
      n := n - 1;
    }
    ofsts := [];
    for i := 0 to n
      invariant |ofsts| == i
      invariant forall p | 0 <= p < i ::
                  ofsts[p] == if OfstOf(info[sorted[p]], isTkn) == NO_OFFSET then useDflt
                      else OfstOf(info[sorted[p]], isTkn)
    {
      var ofst := OfstOf(info[sorted[i]], isTkn);
      if ofst == NO_OFFSET { ofst := useDflt; }
      ofsts := ofsts + [ofst];
    }
  }

  function BoundsOf(t: Tables): Bounds {
    Bounds(t.shiftMin, t.shiftMax, t.reduceMin, t.reduceMax)
  }

  /** What the table output makes of the state vector: the rows packed one after the other, and the last stage of that
      written out. */
  ghost predicate Reported(c: Source, sorted: seq<nat>, ax: seq<Axset>, h: seq<Stage>, t: Tables) {
    && Packed(c, sorted, ax, h, BoundsOf(t))
    && |sorted| == |c.ss| && t.nstate == |c.ss| && t.nrule == |c.g.rules|
    && t.shiftUseDflt == t.shiftMin - 1 && t.reduceUseDflt == t.reduceMin - 1
    && InRange(h[|h| - 1].info, sorted)
    && SlotsWritten(c.g, |c.ss|, h[|h| - 1].slots, h[|h| - 1].n, t.actions, t.lookaheads)
    && OfstsWritten(h[|h| - 1].info, sorted, true, t.shiftUseDflt, t.shiftOfsts)
    && OfstsWritten(h[|h| - 1].info, sorted, false, t.reduceUseDflt, t.reduceOfsts)
    && |t.defaults| == |c.ss| && forall p | 0 <= p < |c.ss| :: t.defaults[p] == Dflt(c, sorted[p])
  }

  lemma DefaultsCounted(g: Grammar, ss: seq<State>, info: seq<Info>)
    requires AllCounted(g, ss, info)
    ensures |info| == |ss|
    ensures forall q | 0 <= q < |ss| :: info[q].iDflt == DefaultCode(g, |ss|, ss[q].ap)
  {
    forall q | 0 <= q < |ss| ensures info[q].iDflt == DefaultCode(g, |ss|, ss[q].ap) {
      assert Counted(g, |ss|, ss[q].ap, info[q]);
    }
  }

  method WriteDefaults(info: seq<Info>, sorted: seq<nat>) returns (dflts: seq<nat>)
    requires InRange(info, sorted)
    ensures |dflts| == |sorted| && forall p | 0 <= p < |sorted| :: dflts[p] == info[sorted[p]].iDflt
  {
    dflts := [];
    for i := 0 to |sorted|
      invariant |dflts| == i && forall p | 0 <= p < i :: dflts[p] == info[sorted[p]].iDflt
    {
      dflts := dflts + [info[sorted[i]].iDflt];
    }
  }

  /** The table part of ReportTable. */
  method ReportTable(lemp: Lemon, qsort: seq<Axset> -> seq<Axset>)
    returns (t: Tables, ghost ax: seq<Axset>, ghost h: seq<Stage>)
    requires E.IsQsort(qsort, AxsetCompare) && Valid(lemp.g) && SymbolsFit(lemp.g)
    requires AllCodable(lemp.g, lemp.states) && AllCounted(lemp.g, lemp.states, lemp.info)
    requires IsRenumbering(|lemp.states|, lemp.sorted, lemp.statenum)
    modifies lemp`info
    ensures Reported(SourceOf(lemp), lemp.sorted, ax, h, t)
    ensures h[0].info == old(lemp.info) && h[|h| - 1].info == lemp.info
  {
    hide AllCodable, AllCounted, PackingOrder, Valid, Packed, SlotsWritten, OfstsWritten, SlotsOk, Transaction, IsMin,
         IsMax, AllAxsets;
    DefaultsCounted(lemp.g, lemp.states, lemp.info);
    SizesOf(SourceOf(lemp), lemp.info, lemp.sorted);
    var dflts := WriteDefaults(lemp.info, lemp.sorted);
    var axsets := Axsets(lemp.info, lemp.sorted);
    var rows := qsort(axsets);
    ax := rows;
    hide E.IsQsort, AxsetCompare, AxsetOf, IsRenumbering, RowsInOrder;
    assert RowsInOrder(lemp.info, lemp.sorted, rows) by { InOrder(lemp.info, lemp.sorted, axsets, qsort); }
    var tab, b, stages := PackRows(lemp, rows);
    h := stages;
    PackedLast(SourceOf(lemp), lemp.sorted, ax, h, b);
    t := WriteTables(lemp, tab, b, dflts, ax, h);
  }

  lemma InOrder(info: seq<Info>, sorted: seq<nat>, axsets: seq<Axset>, qsort: seq<Axset> -> seq<Axset>)
    requires E.IsQsort(qsort, AxsetCompare) && InRange(info, sorted) && axsets == AllAxsets(info, sorted)
    ensures RowsInOrder(info, sorted, qsort(axsets))
  {
  }

  lemma PackedLast(c: Source, sorted: seq<nat>, ax: seq<Axset>, h: seq<Stage>, b: Bounds)
    requires Packed(c, sorted, ax, h, b)
    ensures |h| > 0 && |h[|h| - 1].info| == |c.ss| && h[|h| - 1].n <= |h[|h| - 1].slots|
            && AllShiftsInto(|c.statenum|, c.ss)
  {
  }

  method WriteTables(lemp: Lemon, tab: Acttab, b: Bounds, dflts: seq<nat>, ghost ax: seq<Axset>, ghost h: seq<Stage>)
    returns (t: Tables)
    requires tab.Valid() && InRange(lemp.info, lemp.sorted) && |lemp.sorted| == |lemp.states|
    requires Packed(SourceOf(lemp), lemp.sorted, ax, h, b) && |h| > 0 && h[|h| - 1] == StageOf(tab, lemp.info)
    requires |dflts| == |lemp.states|
    requires forall p | 0 <= p < |dflts| ::
               lemp.sorted[p] < |lemp.states| && dflts[p] == Dflt(SourceOf(lemp), lemp.sorted[p])
    ensures Reported(SourceOf(lemp), lemp.sorted, ax, h, t)
  {
    hide Packed, SlotsWritten, OfstsWritten, SlotsOk, Transaction, IsMin, IsMax, DefaultCode;
    PackedLast(SourceOf(lemp), lemp.sorted, ax, h, b);
    var n := |lemp.states|;
    var actions, lookaheads := WriteSlots(lemp.g, n, tab);
    var shifts := WriteOfsts(lemp.info, lemp.sorted, true, b.mnTkn - 1);
    var gotos := WriteOfsts(lemp.info, lemp.sorted, false, b.mnNt - 1);
    t := Tables(n, |lemp.g.rules|, actions, lookaheads, shifts, b.mnTkn - 1, b.mnTkn, b.mxTkn,
                gotos, b.mnNt - 1, b.mnNt, b.mxNt, dflts);
    assert BoundsOf(t) == b;
  }

  // ----- the lookups of the generated parser -----

  /** yy_find_shift_action: the action on a token, or else the default of the state. */
  function FindShiftAction(t: Tables, stateno: nat, lookahead: nat): int
    requires stateno < |t.defaults| && |t.lookaheads| == |t.actions|
  {
    if stateno > |t.shiftOfsts| - 1 || t.shiftOfsts[stateno] == t.shiftUseDflt then t.defaults[stateno]
    else
      var i := t.shiftOfsts[stateno] + lookahead;
      if i < 0 || i >= |t.actions| || t.lookaheads[i] != lookahead then t.defaults[stateno] else t.actions[i]
  }

  /** The asserts of yy_find_reduce_action. */
  predicate ReduceActionFound(t: Tables, stateno: nat, lookahead: nat) {
    && stateno <= |t.reduceOfsts| - 1 && t.reduceOfsts[stateno] != t.reduceUseDflt
    && var i := t.reduceOfsts[stateno] + lookahead;
       0 <= i < |t.actions| == |t.lookaheads| && t.lookaheads[i] == lookahead
  }

  function FindReduceAction(t: Tables, stateno: nat, lookahead: nat): int
    requires ReduceActionFound(t, stateno, lookahead)
  {
    t.actions[t.reduceOfsts[stateno] + lookahead]
  }

  /** How the driver reads an action code. */
  function CellCode(nstate: nat, nrule: nat, c: Cell): int {
    match c
    case ShiftTo(j) => j
    case ReduceBy(r) => nstate + r
    case ErrorCell => nstate + nrule
    case AcceptCell => nstate + nrule + 1
  }

  lemma CodeOfCell(nstate: nat, g: Grammar, statenum: seq<nat>, a: Action)
    requires A.Live(a) && (a.kind == Shift ==> a.target < |statenum|) && nstate == |statenum|
    ensures E.ComputeAction(nstate, |g.rules|, statenum, a) ==
            CellCode(nstate, |g.rules|, RenumberCell(statenum, Z.CellOf(Some(a))))
  {
  }

  /** A look at one place of the written arrays: it has the symbol exactly if the slot there is found at the offset. */
  lemma SlotRead(g: Grammar, nstate: nat, slots: seq<LookaheadAction>, n: nat, actions: seq<int>, lookaheads: seq<int>,
                 o: int, x: nat)
    requires n <= |slots| && SlotsWritten(g, nstate, slots, n, actions, lookaheads) && x < g.nsymbol
    ensures |actions| == |lookaheads| == n
    ensures var i := o + x;
            0 <= i < n ==>
              && (lookaheads[i] == x <==> Points(slots, i, o)) && (Points(slots, i, o) ==> slots[i].lookahead == x)
              && actions[i] == if slots[i].action < 0 then nstate + |g.rules| + 2 else slots[i].action
  {
  }

  /** The offset of a state: none exactly if it has no such row, and otherwise one at which the whole row is found. */
  lemma RowPacked(c: Source, sorted: seq<nat>, ax: seq<Axset>, h: seq<Stage>, b: Bounds, q: nat, tkn: bool)
    requires Packed(c, sorted, ax, h, b) && q < |c.ss|
    ensures |h| > 0 && AllShiftsInto(|c.statenum|, c.ss)
    ensures var s := h[|h| - 1];
            |s.info| == |c.ss| && s.n <= |s.slots|
            && RowState(Row(c, q, tkn), OfstOf(s.info[q], tkn), Row(c, q, tkn) != [], s, Least(b, tkn), Most(b, tkn))
  {
    var done := DoneBy(ax, |h| - 1);
    assert (q, tkn) in done <==> Row(c, q, tkn) != [];
    hide DoneBy, PackRun, RowState, RowsInOrder, AllCounted, OnceEach;
    assert RowState(Row(c, q, tkn), OfstOf(h[|h| - 1].info[q], tkn), (q, tkn) in done, h[|h| - 1], Least(b, tkn),
                    Most(b, tkn));
  }

  lemma FoundEntry(s: Stage, o: int, row: seq<LookaheadAction>, mn: int, mx: int, e: LookaheadAction)
    requires s.n <= |s.slots| && RowState(row, o, row != [], s, mn, mx) && e in row
    ensures o != NO_OFFSET && 0 <= o + e.lookahead < s.n && s.slots[o + e.lookahead] == e
  {
    var j :| 0 <= j < |row| && row[j] == e;
  }

  /** The entry of a live action. */
  lemma LiveEntry(c: Source, q: nat, tkn: bool, x: nat)
    requires AllCodable(c.g, c.ss) && |c.statenum| == |c.ss| && q < |c.ss| && Z.FindLive(c.ss[q].ap, x).Some?
    requires if tkn then x < c.g.nterminal <= c.g.nsymbol else c.g.nterminal <= x < c.g.nsymbol
    ensures AllShiftsInto(|c.statenum|, c.ss)
    ensures var code := CellCode(|c.ss|, |c.g.rules|, RenumberCell(c.statenum, Z.CellOf(Z.FindLive(c.ss[q].ap, x))));
            code >= 0 && LA(x, code) in Row(c, q, tkn)
  {
    assert forall p | 0 <= p < |c.ss| :: E.Codable(c.g, |c.statenum|, c.ss[p].ap);
    E.EntryOf(c.g, c.statenum, c.ss[q].ap, tkn, x);
    var a := Z.FindLive(c.ss[q].ap, x).value;
    hide E.Entries, Z.FindLive, E.Codable;
    CodeOfCell(|c.ss|, c.g, c.statenum, a);
    RowActions(c.g, c.statenum, c.ss[q].ap, tkn);
  }

  /** The live action of a state on a symbol is always found in the written arrays. */
  lemma LiveRead(c: Source, sorted: seq<nat>, ax: seq<Axset>, h: seq<Stage>, t: Tables, q: nat, tkn: bool, x: nat)
    requires AllCodable(c.g, c.ss) && |c.statenum| == |c.ss| && Reported(c, sorted, ax, h, t) && q < |c.ss|
    requires if tkn then x < c.g.nterminal <= c.g.nsymbol else c.g.nterminal <= x < c.g.nsymbol
    requires Z.FindLive(c.ss[q].ap, x).Some?
    ensures var o := OfstOf(h[|h| - 1].info[q], tkn);
            && o != NO_OFFSET && 0 <= o + x < |t.actions| == |t.lookaheads| && t.lookaheads[o + x] == x
            && t.actions[o + x] == CellCode(|c.ss|, |c.g.rules|,
                                            RenumberCell(c.statenum, Z.CellOf(Z.FindLive(c.ss[q].ap, x))))
  {
    hide Packed, AllCodable, Reported, RowState, Row, Z.FindLive, CellCode, RenumberCell, Z.CellOf, AllShiftsInto,
         SlotsWritten;
    LiveEntry(c, q, tkn, x);
    WrittenSlots(c, sorted, ax, h, t);
    RowPacked(c, sorted, ax, h, BoundsOf(t), q, tkn);
    var s, o, b := h[|h| - 1], OfstOf(h[|h| - 1].info[q], tkn), BoundsOf(t);
    var e := LA(x, CellCode(|c.ss|, |c.g.rules|, RenumberCell(c.statenum, Z.CellOf(Z.FindLive(c.ss[q].ap, x)))));
    FoundEntry(s, o, Row(c, q, tkn), Least(b, tkn), Most(b, tkn), e);
    SlotRead(c.g, |c.ss|, s.slots, s.n, t.actions, t.lookaheads, o, x);
  }

  lemma WrittenSlots(c: Source, sorted: seq<nat>, ax: seq<Axset>, h: seq<Stage>, t: Tables)
    requires Reported(c, sorted, ax, h, t)
    ensures |h| > 0 && AllShiftsInto(|c.statenum|, c.ss) && Packed(c, sorted, ax, h, BoundsOf(t))
    ensures var s := h[|h| - 1];
            s.n <= |s.slots| && |s.info| == |c.ss| && SlotsWritten(c.g, |c.ss|, s.slots, s.n, t.actions, t.lookaheads)
  {
    PackedLast(c, sorted, ax, h, BoundsOf(t));
  }

  lemma RowActions(g: Grammar, statenum: seq<nat>, ap: seq<Action>, b: bool)
    requires E.Codable(g, |statenum|, ap)
    ensures E.ShiftsInto(|statenum|, ap) && forall e | e in E.Entries(g, statenum, ap, b) :: e.action >= 0
  {
    forall e | e in E.Entries(g, statenum, ap, b) ensures e.action >= 0 {
      E.EntriesMember(g, statenum, ap, b, e);
    }
  }

  lemma DefaultIsCell(g: Grammar, ss: seq<State>, statenum: seq<nat>, q: nat, x: nat)
    requires AllCodable(g, ss) && q < |ss| && |statenum| == |ss| && x < g.nterminal
    ensures Z.FindLive(ss[q].ap, x).Some? ==> Z.CellAt(g, ss[q].ap, x) == Z.CellOf(Z.FindLive(ss[q].ap, x))
    ensures Z.FindLive(ss[q].ap, x).None? ==>
              DefaultCode(g, |ss|, ss[q].ap) == CellCode(|ss|, |g.rules|,
                                                         RenumberCell(statenum, Z.CellAt(g, ss[q].ap, x)))
  {
    assert E.Codable(g, |ss|, ss[q].ap);
    Z.FindLiveIs(ss[q].ap, g.nsymbol);
  }

  /** The cell of the renumbered table. */
  lemma CellInTable(g: Grammar, ss: seq<State>, sorted: seq<nat>, statenum: seq<nat>, p: nat, x: nat)
    requires IsRenumbering(|ss|, sorted, statenum) && p < |ss| && x < g.nsymbol
    ensures |statenum| == |sorted| == |ss| && sorted[p] < |ss|
    ensures Lookup(Renumbered(sorted, statenum, Z.Table(g, ss)), p, x) ==
            RenumberCell(statenum, Z.CellAt(g, ss[sorted[p]].ap, x))
  {
    RenumberedLookup(sorted, statenum, Z.Table(g, ss), p, x);
    Z.TableCell(g, ss, sorted[p], x);
  }

  /** The trimmed offset array: reading it with the bounds test and the test for the mark is reading the state's
      offset. */
  lemma OfstRead(info: seq<Info>, sorted: seq<nat>, isTkn: bool, useDflt: int, ofsts: seq<int>, p: nat)
    requires InRange(info, sorted) && p < |sorted| && OfstsWritten(info, sorted, isTkn, useDflt, ofsts)
    requires var o := OfstOf(info[sorted[p]], isTkn); o == NO_OFFSET || o > useDflt
    ensures OfstOf(info[sorted[p]], isTkn) == NO_OFFSET <==> p > |ofsts| - 1 || ofsts[p] == useDflt
    ensures p <= |ofsts| - 1 && ofsts[p] != useDflt ==> ofsts[p] == OfstOf(info[sorted[p]], isTkn)
  {
  }

  lemma ValidSizes(g: Grammar)
    requires Valid(g)
    ensures g.nterminal <= g.nsymbol
  {
  }

  /** The table of all states in their final numbers, which the packed tables stand for. */
  ghost function FinalTable(c: Source, sorted: seq<nat>): seq<seq<Cell>> {
    Renumbered(sorted, c.statenum, Z.Table(c.g, c.ss))
  }

  /** The packed tables answer every question of the driver as the table `cells` does. */
  ghost predicate Refines(t: Tables, g: Grammar, cells: seq<seq<Cell>>) {
    && t.nstate == |t.defaults| == |cells| && t.nrule == |g.rules| && |t.lookaheads| == |t.actions|
    && (forall p: nat, x: nat | p < |cells| && x < g.nterminal :: ShiftAgrees(t, g, cells, p, x))
    && (forall p: nat, x: nat | p < |cells| && g.nterminal <= x < g.nsymbol && Lookup(cells, p, x) != ErrorCell ::
          GotoAgrees(t, g, cells, p, x))
  }

  ghost predicate ShiftAgrees(t: Tables, g: Grammar, cells: seq<seq<Cell>>, p: nat, x: nat)
    requires p < |t.defaults| && |t.lookaheads| == |t.actions|
  {
    FindShiftAction(t, p, x) == CellCode(|cells|, |g.rules|, Lookup(cells, p, x))
  }

  ghost predicate GotoAgrees(t: Tables, g: Grammar, cells: seq<seq<Cell>>, p: nat, x: nat) {
    ReduceActionFound(t, p, x) && FindReduceAction(t, p, x) == CellCode(|cells|, |g.rules|, Lookup(cells, p, x))
  }

  /** The slot at which terminal `x` is looked up in state `q` gives it what neither the state's list nor its default
      has. */
  ghost predicate StrayAt(c: Source, s: Stage, q: nat, x: nat)
    requires AllShiftsInto(|c.statenum|, c.ss) && |s.info| == |c.ss| && s.n <= |s.slots| && q < |c.ss|
  {
    Stray(c.g, s, OfstOf(s.info[q], true), Row(c, q, true), Dflt(c, q), OfstOf(s.info[q], true) + x)
  }

  /** The offset arrays give the offset of a state. */
  lemma OfstReads(c: Source, sorted: seq<nat>, ax: seq<Axset>, h: seq<Stage>, t: Tables, p: nat, tkn: bool)
    requires Reported(c, sorted, ax, h, t) && p < |c.ss|
    ensures |h| > 0 && sorted[p] < |c.ss| == |h[|h| - 1].info|
    ensures var o := OfstOf(h[|h| - 1].info[sorted[p]], tkn);
            var (ofsts, mark) := if tkn then (t.shiftOfsts, t.shiftUseDflt) else (t.reduceOfsts, t.reduceUseDflt);
            if p > |ofsts| - 1 || ofsts[p] == mark then o == NO_OFFSET else ofsts[p] == o && o != NO_OFFSET
  {
    PackedLast(c, sorted, ax, h, BoundsOf(t));
    RowPacked(c, sorted, ax, h, BoundsOf(t), sorted[p], tkn);
    hide Packed, SlotsWritten, OfstsWritten, Found;
    if tkn {
      OfstRead(h[|h| - 1].info, sorted, true, t.shiftUseDflt, t.shiftOfsts, p);
    } else {
      OfstRead(h[|h| - 1].info, sorted, false, t.reduceUseDflt, t.reduceOfsts, p);
    }
  }

  /** The lookup of a terminal on which the state's list has a live action gives that action, in all tables. */
  lemma ShiftLive(c: Source, sorted: seq<nat>, ax: seq<Axset>, h: seq<Stage>, t: Tables, p: nat, x: nat)
    requires Valid(c.g) && AllCodable(c.g, c.ss) && IsRenumbering(|c.ss|, sorted, c.statenum)
    requires Reported(c, sorted, ax, h, t) && p < |c.ss| && x < c.g.nterminal && Z.FindLive(c.ss[sorted[p]].ap, x).Some?
    ensures |t.defaults| == |c.ss| && |t.lookaheads| == |t.actions| && ShiftAgrees(t, c.g, FinalTable(c, sorted), p, x)
  {
    hide Valid, AllCodable, Packed, SlotsWritten, OfstsWritten, Z.FindLive, Z.CellAt, Z.CellOf, CellCode, Lookup;
    ValidSizes(c.g);
    var q := sorted[p];
    CellInTable(c.g, c.ss, sorted, c.statenum, p, x);
    hide IsRenumbering, Renumbered, Z.Table;
    DefaultIsCell(c.g, c.ss, c.statenum, q, x);
    LiveRead(c, sorted, ax, h, t, q, true, x);
    OfstReads(c, sorted, ax, h, t, p, true);
  }

  /** The lookup of any other terminal gives the default exactly if the slot where it looks is not a stray. */
  lemma ShiftDefault(c: Source, sorted: seq<nat>, ax: seq<Axset>, h: seq<Stage>, t: Tables, p: nat, x: nat)
    requires Valid(c.g) && AllCodable(c.g, c.ss) && IsRenumbering(|c.ss|, sorted, c.statenum)
    requires Reported(c, sorted, ax, h, t) && p < |c.ss| && x < c.g.nterminal && Z.FindLive(c.ss[sorted[p]].ap, x).None?
    ensures |t.defaults| == |c.ss| && |t.lookaheads| == |t.actions|
    ensures |h| > 0 && AllShiftsInto(|c.statenum|, c.ss) && sorted[p] < |c.ss| == |h[|h| - 1].info|
            && h[|h| - 1].n <= |h[|h| - 1].slots|
    ensures ShiftAgrees(t, c.g, FinalTable(c, sorted), p, x) <==>
              Row(c, sorted[p], true) == [] || !StrayAt(c, h[|h| - 1], sorted[p], x)
  {
    hide Valid, AllCodable, Packed, SlotsWritten, OfstsWritten, Z.FindLive, Z.CellAt, Z.CellOf, CellCode, Lookup,
         DefaultCode;
    TableSizes(c, sorted, ax, h, t);
    ValidSizes(c.g);
    var q, s, o := sorted[p], h[|h| - 1], OfstOf(h[|h| - 1].info[sorted[p]], true);
    CellInTable(c.g, c.ss, sorted, c.statenum, p, x);
    hide IsRenumbering, Renumbered, Z.Table;
    DefaultIsCell(c.g, c.ss, c.statenum, q, x);
    RowPacked(c, sorted, ax, h, BoundsOf(t), q, true);
    OfstReads(c, sorted, ax, h, t, p, true);
    NoEntry(c, q, x);
    WrittenSlots(c, sorted, ax, h, t);
    SlotRead(c.g, |c.ss|, s.slots, s.n, t.actions, t.lookaheads, o, x);
    CodableRows(c);
    RunOf(c, sorted, ax, h, BoundsOf(t));
    hide Found, PackRun, RowsOk;
    SlotsHoldCodes(c, ax, h, |h| - 1);
  }

  lemma NoEntry(c: Source, q: nat, x: nat)
    requires AllCodable(c.g, c.ss) && |c.statenum| == |c.ss| && q < |c.ss| && x < c.g.nterminal
             && Z.FindLive(c.ss[q].ap, x).None?
    ensures AllShiftsInto(|c.statenum|, c.ss) && forall e | e in Row(c, q, true) :: e.lookahead != x
  {
    assert forall p | 0 <= p < |c.ss| :: E.Codable(c.g, |c.statenum|, c.ss[p].ap);
    E.EntryOf(c.g, c.statenum, c.ss[q].ap, true, x);
  }

  lemma GotoIsLive(g: Grammar, ap: seq<Action>, statenum: seq<nat>, x: nat)
    requires g.nterminal <= x && RenumberCell(statenum, Z.CellAt(g, ap, x)) != ErrorCell
    ensures Z.CellAt(g, ap, x) == Z.CellOf(Z.FindLive(ap, x)) && Z.FindLive(ap, x).Some?
  {
  }

  lemma RenumberedSize(sorted: seq<nat>, statenum: seq<nat>, cells: seq<seq<Cell>>)
    ensures |Renumbered(sorted, statenum, cells)| == |sorted|
  {
  }

  /** On every nonterminal with a goto, or with the accept action, the asserts of the goto lookup hold and it gives
      that, in all tables. */
  lemma ReduceActionRefines(c: Source, sorted: seq<nat>, ax: seq<Axset>, h: seq<Stage>, t: Tables, p: nat, x: nat)
    requires Valid(c.g) && AllCodable(c.g, c.ss) && IsRenumbering(|c.ss|, sorted, c.statenum)
    requires Reported(c, sorted, ax, h, t) && p < |c.ss| && c.g.nterminal <= x < c.g.nsymbol
    requires Lookup(FinalTable(c, sorted), p, x) != ErrorCell
    ensures GotoAgrees(t, c.g, FinalTable(c, sorted), p, x)
  {
    hide Valid, AllCodable, Packed, SlotsWritten, OfstsWritten, Z.FindLive, DefaultCode, CellCode, Lookup, Renumbered,
         Z.Table, Z.CellAt,
         Z.CellOf;
    var q := sorted[p];
    CellInTable(c.g, c.ss, sorted, c.statenum, p, x);
    GotoIsLive(c.g, c.ss[q].ap, c.statenum, x);
    assert |FinalTable(c, sorted)| == |c.ss| by { RenumberedSize(sorted, c.statenum, Z.Table(c.g, c.ss)); }
    hide IsRenumbering;
    LiveRead(c, sorted, ax, h, t, q, false, x);
    OfstReads(c, sorted, ax, h, t, p, false);
  }

  /** On all terminals the packed tables give what the final table has, the live action of the state's list or else its
      default, if and only if the state has no terminal row or that has no stray. */
  lemma ShiftActionRefines(c: Source, sorted: seq<nat>, ax: seq<Axset>, h: seq<Stage>, t: Tables, p: nat)
    requires Valid(c.g) && AllCodable(c.g, c.ss) && IsRenumbering(|c.ss|, sorted, c.statenum)
    requires Reported(c, sorted, ax, h, t) && p < |c.ss|
    ensures |t.defaults| == |c.ss| && |t.lookaheads| == |t.actions|
    ensures |h| > 0 && AllShiftsInto(|c.statenum|, c.ss) && sorted[p] < |c.ss| == |h[|h| - 1].info|
            && h[|h| - 1].n <= |h[|h| - 1].slots|
    ensures (forall x: nat | x < c.g.nterminal :: ShiftAgrees(t, c.g, FinalTable(c, sorted), p, x)) <==>
              var q, s := sorted[p], h[|h| - 1];
              Row(c, q, true) == [] || NoStray(c.g, s, OfstOf(s.info[q], true), Row(c, q, true), Dflt(c, q))
  {
    TableSizes(c, sorted, ax, h, t);
    var q, s := sorted[p], h[|h| - 1];
    hide Valid, AllCodable, IsRenumbering, Reported, Z.FindLive, ShiftAgrees, FinalTable, E.Entries, StrayAt, NoStray,
         AllShiftsInto;
    forall x: nat | x < c.g.nterminal
      ensures ShiftAgrees(t, c.g, FinalTable(c, sorted), p, x) <==> Row(c, q, true) == [] || !StrayAt(c, s, q, x)
    {
      if Z.FindLive(c.ss[q].ap, x).Some? {
        ShiftLive(c, sorted, ax, h, t, p, x);
        LiveIsNoStray(c, sorted, ax, h, t, q, x);
      } else {
        ShiftDefault(c, sorted, ax, h, t, p, x);
      }
    }
    StraysByTerminal(c, s, q);
  }

  /** Strays are where terminals are looked up. */
  lemma StraysByTerminal(c: Source, s: Stage, q: nat)
    requires AllShiftsInto(|c.statenum|, c.ss) && |s.info| == |c.ss| && s.n <= |s.slots| && q < |c.ss|
    ensures NoStray(c.g, s, OfstOf(s.info[q], true), Row(c, q, true), Dflt(c, q)) <==>
              forall x: nat | x < c.g.nterminal :: !StrayAt(c, s, q, x)
  {
    var o := OfstOf(s.info[q], true);
    forall k | Stray(c.g, s, o, Row(c, q, true), Dflt(c, q), k)
      ensures exists x: nat :: x < c.g.nterminal && StrayAt(c, s, q, x)
    {
      var x: nat := k - o;
      assert o + x == k && StrayAt(c, s, q, x);
    }
  }

  lemma TableSizes(c: Source, sorted: seq<nat>, ax: seq<Axset>, h: seq<Stage>, t: Tables)
    requires Reported(c, sorted, ax, h, t)
    ensures |t.defaults| == |c.ss| && |t.lookaheads| == |t.actions| && |h| > 0 && AllShiftsInto(|c.statenum|, c.ss)
    ensures |sorted| == |c.ss| == |h[|h| - 1].info| && h[|h| - 1].n <= |h[|h| - 1].slots|
            && InRange(h[|h| - 1].info, sorted)
  {
    PackedLast(c, sorted, ax, h, BoundsOf(t));
  }

  lemma LiveIsNoStray(c: Source, sorted: seq<nat>, ax: seq<Axset>, h: seq<Stage>, t: Tables, q: nat, x: nat)
    requires Valid(c.g) && AllCodable(c.g, c.ss) && |c.statenum| == |c.ss|
    requires Reported(c, sorted, ax, h, t) && q < |c.ss| && x < c.g.nterminal && Z.FindLive(c.ss[q].ap, x).Some?
    ensures AllShiftsInto(|c.statenum|, c.ss) && |h| > 0 && |h[|h| - 1].info| == |c.ss|
            && h[|h| - 1].n <= |h[|h| - 1].slots|
    ensures !StrayAt(c, h[|h| - 1], q, x)
  {
    ValidSizes(c.g);
    LiveEntry(c, q, true, x);
    RowPacked(c, sorted, ax, h, BoundsOf(t), q, true);
    hide Valid, AllCodable, Reported, RowState, Row, Z.FindLive, CellCode, RenumberCell, Z.CellOf, AllShiftsInto;
    var s, o, b := h[|h| - 1], OfstOf(h[|h| - 1].info[q], true), BoundsOf(t);
    var e := LA(x, CellCode(|c.ss|, |c.g.rules|, RenumberCell(c.statenum, Z.CellOf(Z.FindLive(c.ss[q].ap, x)))));
    FoundEntry(s, o, Row(c, q, true), Least(b, true), Most(b, true), e);
  }

  ghost predicate StateIsRight(c: Source, q: nat, s: Stage, done: set<(nat, bool)>)
    requires AllShiftsInto(|c.statenum|, c.ss) && |s.info| == |c.ss| && s.n <= |s.slots| && q < |c.ss|
  {
    (q, true) in done ==> NoStray(c.g, s, OfstOf(s.info[q], true), Row(c, q, true), Dflt(c, q))
  }

  /** The numbering of the states does not matter for whether all are right. */
  lemma InEitherNumbering(c: Source, sorted: seq<nat>, s: Stage, done: set<(nat, bool)>)
    requires AllShiftsInto(|c.statenum|, c.ss) && |s.info| == |c.ss| && s.n <= |s.slots|
             && IsRenumbering(|c.ss|, sorted, c.statenum)
    ensures NoStrays(c, done, s) <==> forall p: nat | p < |c.ss| :: StateIsRight(c, sorted[p], s, done)
  {
    hide NoStray, E.Entries, DefaultCode, AllShiftsInto;
    if forall p: nat | p < |c.ss| :: StateIsRight(c, sorted[p], s, done) {
      forall q: nat | q < |c.ss| && (q, true) in done
        ensures NoStray(c.g, s, OfstOf(s.info[q], true), Row(c, q, true), Dflt(c, q))
      {
        assert sorted[c.statenum[q]] == q && StateIsRight(c, sorted[c.statenum[q]], s, done);
      }
    }
  }

  /** All states together: the packed tables are right on all terminals if and only if no terminal row has a stray. */
  lemma AllLookRight(c: Source, sorted: seq<nat>, ax: seq<Axset>, h: seq<Stage>, t: Tables)
    requires Valid(c.g) && AllCodable(c.g, c.ss) && IsRenumbering(|c.ss|, sorted, c.statenum)
             && Reported(c, sorted, ax, h, t)
    ensures |t.defaults| == |c.ss| && |t.lookaheads| == |t.actions| && PackRun(c, ax, h)
    ensures (forall p: nat | p < |c.ss| :: StateAgrees(t, c, sorted, p)) <==>
              NoStrays(c, DoneBy(ax, |h| - 1), h[|h| - 1])
  {
    TableSizes(c, sorted, ax, h, t);
    RunOf(c, sorted, ax, h, BoundsOf(t));
    var s, done := h[|h| - 1], DoneBy(ax, |h| - 1);
    hide Valid, AllCodable, IsRenumbering, Reported, ShiftAgrees, FinalTable, DoneBy, NoStray, PackRun, E.Entries,
         AllShiftsInto, OnceEach, NoStrays, Packed, DefaultCode;
    InEitherNumbering(c, sorted, s, done);
    forall p: nat | p < |c.ss| ensures StateAgrees(t, c, sorted, p) <==> StateIsRight(c, sorted[p], s, done) {
      ShiftActionRefines(c, sorted, ax, h, t, p);
    }
  }

  ghost predicate StateAgrees(t: Tables, c: Source, sorted: seq<nat>, p: nat)
    requires p < |t.defaults| && |t.lookaheads| == |t.actions|
  {
    forall x: nat | x < c.g.nterminal :: ShiftAgrees(t, c.g, FinalTable(c, sorted), p, x)
  }

  /** The gotos and the live actions of the lists are looked up right in every emitted table. */
  ghost predicate LiveRefines(t: Tables, c: Source, sorted: seq<nat>) {
    && |t.defaults| == |sorted| == |c.ss| && |t.lookaheads| == |t.actions|
        && (forall p | 0 <= p < |sorted| :: sorted[p] < |c.ss|)
    && (forall p: nat, x: nat | p < |sorted| && x < c.g.nterminal && Z.FindLive(c.ss[sorted[p]].ap, x).Some? ::
          ShiftAgrees(t, c.g, FinalTable(c, sorted), p, x))
    && (forall p: nat, x: nat | p < |sorted| && c.g.nterminal <= x < c.g.nsymbol
        && Lookup(FinalTable(c, sorted), p, x) != ErrorCell ::
          GotoAgrees(t, c.g, FinalTable(c, sorted), p, x))
  }

  lemma LiveIsRefined(c: Source, sorted: seq<nat>, ax: seq<Axset>, h: seq<Stage>, t: Tables)
    requires Valid(c.g) && AllCodable(c.g, c.ss) && IsRenumbering(|c.ss|, sorted, c.statenum)
             && Reported(c, sorted, ax, h, t)
    ensures LiveRefines(t, c, sorted)
  {
    TableSizes(c, sorted, ax, h, t);
    hide Valid, AllCodable, Reported, ShiftAgrees, GotoAgrees, FinalTable, Z.FindLive, Lookup;
    forall p: nat, x: nat | p < |sorted| && x < c.g.nterminal && Z.FindLive(c.ss[sorted[p]].ap, x).Some?
      ensures ShiftAgrees(t, c.g, FinalTable(c, sorted), p, x)
    {
      ShiftLive(c, sorted, ax, h, t, p, x);
    }
    forall p: nat, x: nat | p < |sorted| && c.g.nterminal <= x < c.g.nsymbol
        && Lookup(FinalTable(c, sorted), p, x) != ErrorCell
      ensures GotoAgrees(t, c.g, FinalTable(c, sorted), p, x)
    {
      ReduceActionRefines(c, sorted, ax, h, t, p, x);
    }
  }

  /** The packed tables refine the final table if and only if every row was safe to pack, each told from the table
      into which it was to be inserted. */
  lemma RefinesIfSafe(c: Source, sorted: seq<nat>, ax: seq<Axset>, h: seq<Stage>, t: Tables)
    requires Valid(c.g) && AllCodable(c.g, c.ss) && IsRenumbering(|c.ss|, sorted, c.statenum)
             && Reported(c, sorted, ax, h, t)
    ensures PackRun(c, ax, h) && (Refines(t, c.g, FinalTable(c, sorted)) <==> AllSafe(c, ax, h))
  {
    TableSizes(c, sorted, ax, h, t);
    RunOf(c, sorted, ax, h, BoundsOf(t));
    RenumberedSize(sorted, c.statenum, Z.Table(c.g, c.ss));
    assert t.nstate == |c.ss| && t.nrule == |c.g.rules| && |c.statenum| == |c.ss|;
    hide Valid, AllCodable, IsRenumbering, Reported, StateAgrees, DoneBy, NoStrays, PackRun, SafeToPack, Packed,
         OnceEach, FinalTable, Refines, LiveRefines, AllShiftsInto, AllSafe;
    AllLookRight(c, sorted, ax, h, t);
    LiveIsRefined(c, sorted, ax, h, t);
    LiveAndAll(t, c, sorted);
    CodableRows(c);
    SafeDecides(c, ax, h, |h| - 1);
    AllSafeMeans(c, ax, h);
  }

  lemma AllSafeMeans(c: Source, ax: seq<Axset>, h: seq<Stage>)
    requires PackRun(c, ax, h)
    ensures AllSafe(c, ax, h) <==> forall i | 0 <= i < |h| - 1 :: SafeToPack(c, ax, h, i)
  {
  }

  lemma LiveAndAll(t: Tables, c: Source, sorted: seq<nat>)
    requires LiveRefines(t, c, sorted) && |FinalTable(c, sorted)| == |sorted|
             && t.nstate == |c.ss| && t.nrule == |c.g.rules|
    ensures Refines(t, c.g, FinalTable(c, sorted)) <==> forall p: nat | p < |c.ss| :: StateAgrees(t, c, sorted, p)
  {
    hide ShiftAgrees, GotoAgrees, FinalTable, Z.FindLive, Lookup;
    if forall p: nat | p < |c.ss| :: StateAgrees(t, c, sorted, p) {
      forall p: nat, x: nat | p < |c.ss| && x < c.g.nterminal ensures ShiftAgrees(t, c.g, FinalTable(c, sorted), p, x) {
        assert StateAgrees(t, c, sorted, p);
      }
    }
  }

  lemma RunOf(c: Source, sorted: seq<nat>, ax: seq<Axset>, h: seq<Stage>, b: Bounds)
    requires Packed(c, sorted, ax, h, b)
    ensures PackRun(c, ax, h) && OnceEach(ax)
    ensures forall q: nat | q < |c.ss| :: (q, true) in DoneBy(ax, |h| - 1) <==> Row(c, q, true) != []
  {
  }

  // ----- what sorting the states is for -----

  ghost predicate HasGoto(g: Grammar, ap: seq<Action>) {
    exists a :: a in ap && A.Live(a) && g.nterminal <= a.sp < g.nsymbol
  }

  /** Because states with fewer gotos come later, yy_reduce_ofst ends with the last state that has any and has no gap
      but perhaps at state 0. */
  lemma NoGaps(c: Source, sorted: seq<nat>, ax: seq<Axset>, h: seq<Stage>, t: Tables, p: nat)
    requires AllCodable(c.g, c.ss) && IsRenumbering(|c.ss|, sorted, c.statenum) && Reported(c, sorted, ax, h, t)
    requires h != [] && Ordered(h[0].info, sorted) && 1 <= p < |c.ss|
    ensures p < |t.reduceOfsts| ==> t.reduceOfsts[p] != t.reduceUseDflt
    ensures sorted[p] < |c.ss| && (p < |t.reduceOfsts| <==> HasGoto(c.g, c.ss[sorted[p]].ap))
  {
    hide Packed, SlotsWritten, OfstsWritten, RowState, Ordered, Row, AllCodable, HasGoto;
    GotoOffset(c, sorted, ax, h, t, p);
    GotoCount(c, sorted, ax, h, t, p);
    var m := |t.reduceOfsts| - 1;
    if p <= m {
      WrittenUpTo(c, sorted, ax, h, t);
      GotoOffset(c, sorted, ax, h, t, m);
      GotoCount(c, sorted, ax, h, t, m);
      FewerChoicesLast(h[0].info, sorted);
    }
  }

  /** The offset of a state, as read from the array, is none exactly if it has no goto. */
  lemma GotoOffset(c: Source, sorted: seq<nat>, ax: seq<Axset>, h: seq<Stage>, t: Tables, p: nat)
    requires Reported(c, sorted, ax, h, t) && p < |c.ss|
    ensures sorted[p] < |c.ss| && AllShiftsInto(|c.statenum|, c.ss)
    ensures p < |t.reduceOfsts| && t.reduceOfsts[p] != t.reduceUseDflt <==> Row(c, sorted[p], false) != []
  {
    OfstReads(c, sorted, ax, h, t, p, false);
    RowPacked(c, sorted, ax, h, BoundsOf(t), sorted[p], false);
    hide Packed, SlotsWritten, OfstsWritten, Row, Found;
  }

  /** The array ends with an offset that is none of the marks. */
  lemma WrittenUpTo(c: Source, sorted: seq<nat>, ax: seq<Axset>, h: seq<Stage>, t: Tables)
    requires Reported(c, sorted, ax, h, t) && t.reduceOfsts != []
    ensures |t.reduceOfsts| <= |c.ss| && t.reduceOfsts[|t.reduceOfsts| - 1] != t.reduceUseDflt
  {
    var m := |t.reduceOfsts| - 1;
    PackedLast(c, sorted, ax, h, BoundsOf(t));
    RowPacked(c, sorted, ax, h, BoundsOf(t), sorted[m], false);
    hide Packed, SlotsWritten, Row, Found;
  }

  lemma GotoCount(c: Source, sorted: seq<nat>, ax: seq<Axset>, h: seq<Stage>, t: Tables, p: nat)
    requires AllCodable(c.g, c.ss) && IsRenumbering(|c.ss|, sorted, c.statenum) && Reported(c, sorted, ax, h, t)
    requires h != [] && p < |c.ss|
    ensures sorted[p] < |c.ss| == |h[0].info| && AllShiftsInto(|c.statenum|, c.ss)
    ensures h[0].info[sorted[p]].nNtAct == |Row(c, sorted[p], false)|
    ensures Row(c, sorted[p], false) != [] <==> HasGoto(c.g, c.ss[sorted[p]].ap)
  {
    RunOf(c, sorted, ax, h, BoundsOf(t));
    assert AllCounted(c.g, c.ss, h[0].info) && E.Codable(c.g, |c.ss|, c.ss[sorted[p]].ap);
    hide E.Codable, Packed, SlotsWritten, OfstsWritten, PackRun, AllCodable;
    CountsAreRows(c, h[0].info, sorted[p], false);
    GotoRow(c.g, c.statenum, c.ss[sorted[p]].ap);
  }

  lemma GotoRow(g: Grammar, statenum: seq<nat>, ap: seq<Action>)
    requires E.ShiftsInto(|statenum|, ap) && E.Codable(g, |statenum|, ap)
    ensures E.Entries(g, statenum, ap, false) != [] <==> HasGoto(g, ap)
  {
    var row := E.Entries(g, statenum, ap, false);
    if row != [] {
      E.EntriesMember(g, statenum, ap, false, row[0]);
    }
    if a :| a in ap && A.Live(a) && g.nterminal <= a.sp < g.nsymbol {
      E.EntriesMember(g, statenum, ap, false, LA(a.sp, E.ComputeAction(|statenum|, |g.rules|, statenum, a)));
    }
  }
}
