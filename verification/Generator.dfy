/** Lemon from the grammar to the tables: the passes in the order in which the main program makes them, and what the
    generated parser is good for. */
module Generator {
  import opened Grammars
  import FS = FirstSets
  import opened Items
  import opened MergeSort
  import opened Structs
  import opened Numbering
  import opened ActtabModule
  import opened R = Resort
  import opened K = Packing
  import opened T = Tables
  import opened P = Parsers
  import M = Machine
  import L = Lookaheads
  import F = FollowSets
  import A = Actions
  import C = Completeness
  import End = Termination
  import Z = Compress
  import E = Encoding
  import States

  lemma LinkedStates(g: Grammar, ss: seq<State>, ss1: seq<State>)
    requires F.Bounded(ss, g.nterminal) && F.SameButForward(ss, ss1) && F.Listed(ss)
    ensures F.Bounded(ss1, g.nterminal) && F.Listed(ss1)
  {
    forall n, t | F.IsNode(ss1, n) && t in F.Follow(ss1, n) ensures t < g.nterminal {
      assert F.IsNode(ss, n) && t in F.Follow(ss, n);
    }
  }

  lemma ShiftsKept(g: Grammar, ss: seq<State>, ss1: seq<State>, ss2: seq<State>)
    requires States.Built(g, ss) && F.SameButForward(ss, ss1) && F.Grown(ss1, ss2)
    ensures |ss2| == |ss| && forall q | 0 <= q < |ss2| :: A.RawShifts(g, States.Cores(ss), q, ss2[q].ap)
  {
    forall q | 0 <= q < |ss2| ensures A.RawShifts(g, States.Cores(ss), q, ss2[q].ap) {
      A.BuiltShifts(g, ss, q);
    }
  }

  /** The passes that analyse the grammar. */
  method Analyse(lemp: Lemon) returns (ghost cores: seq<set<Item>>)
    requires Valid(lemp.g) && States.Fits(lemp.g) && A.ActionsFit(lemp.g) && lemp.states == []
    modifies lemp`lambda, lemp`first, lemp`states
    ensures L.Lr0(lemp.g, cores) && |cores| > 0 && Z.AllActed(lemp.g, cores, lemp.states)
    ensures DepthFirst(lemp.g, cores)
  {
    hide DepthFirst, Valid, States.Fits, A.ActionsFit, FS.Exact, States.Built, F.Listed, F.LinksClosed, F.Bounded,
         F.SameButForward,
         F.Grown, F.Links,
         F.BackLinked, F.Arrives, L.Solved, L.Lr0, A.RawShifts, A.Acted;
    var lambda, first := FS.FindFirstSets(lemp.g);
    lemp.lambda, lemp.first := lambda, first;
    States.FindStates(lemp);
    ghost var ss := lemp.states;
    BuiltNonempty(lemp.g, ss);
    cores := States.Cores(ss);
    L.BuiltIsLr0(lemp.g, ss);
    L.BuiltIsLinked(lemp.g, ss);
    F.FindLinks(lemp);
    ghost var ss1 := lemp.states;
    LinkedStates(lemp.g, ss, ss1);
    F.FindFollowSets(lemp, lemp.g.nterminal);
    ghost var ss2 := lemp.states;
    L.FollowSetsSolve(lemp.g, ss, ss1, ss2);
    ShiftsKept(lemp.g, ss, ss1, ss2);
    var nconflict := A.FindActions(lemp, cores);
    ActedSizes(ss2, lemp.states);
  }

  lemma BuiltNonempty(g: Grammar, ss: seq<State>)
    requires States.Built(g, ss)
    ensures |ss| > 0
  {
  }

  lemma ActedSizes(ss: seq<State>, ss': seq<State>)
    requires A.SameButActions(ss, ss')
    ensures |ss'| == |ss|
  {
  }

  /** What CompressTables demands of the lists, FindActions gives. */
  lemma ReadyToCompress(g: Grammar, cores: seq<set<Item>>, ss: seq<State>)
    requires Valid(g) && A.ActionsFit(g) && L.Lr0(g, cores) && Z.AllActed(g, cores, ss)
    ensures forall q | 0 <= q < |ss| ::
              A.UniqueLive(ss[q].ap) && (forall a | a in ss[q].ap :: a.sp < g.nsymbol) && |ss[q].ap| < 0x4000_0000
    ensures forall q | 0 <= q < |ss| :: Z.NoErrors(ss[q].ap)
  {
    hide Valid, A.ActionsFit, L.Lr0, A.Acted, A.UniqueLive, Z.NoErrors, Pow2;
    forall q | 0 <= q < |ss|
      ensures A.UniqueLive(ss[q].ap) && (forall a | a in ss[q].ap :: a.sp < g.nsymbol) && |ss[q].ap| < 0x4000_0000
              && Z.NoErrors(ss[q].ap)
    {
      A.ActedLive(g, cores, q, ss[q].ap);
      Z.ActedLength(g, cores, q, ss[q].ap);
      Z.ActedErrors(g, cores, q, ss[q].ap);
      forall a | a in ss[q].ap ensures a.sp < g.nsymbol {
        Z.ActedSymbols(g, cores, q, ss[q].ap, a);
      }
    }
  }

  /** And what the table output demands, CompressTables gives. */
  lemma CompressedCodable(g: Grammar, cores: seq<set<Item>>, ss: seq<State>, ss': seq<State>)
    requires Valid(g) && L.Lr0(g, cores) && Z.AllActed(g, cores, ss) && Z.AllCompressed(g, ss, ss')
    requires forall q | 0 <= q < |ss'| :: Z.NoErrors(ss'[q].ap)
    ensures AllCodable(g, ss')
  {
    forall q | 0 <= q < |ss'| ensures E.Codable(g, |ss'|, ss'[q].ap) {
      assert A.Acted(g, cores, q, ss[q].ap) && Z.Outcome(g, ss[q].ap, ss'[q].ap);
      ListCodable(g, cores, q, ss[q].ap, ss'[q].ap);
    }
  }

  lemma ListCodable(g: Grammar, cores: seq<set<Item>>, q: nat, ap: seq<Action>, ap': seq<Action>)
    requires Valid(g) && L.Lr0(g, cores) && q < |cores| && A.Acted(g, cores, q, ap) && Z.Outcome(g, ap, ap')
             && Z.NoErrors(ap')
    ensures E.Codable(g, |cores|, ap')
  {
    forall a | a in ap' && E.Coded(a)
      ensures a.sp <= g.nsymbol && (a.sp == g.nsymbol ==> a.kind == Reduce) && (a.kind == Shift ==> a.target < |cores|)
    {
      ActionCodable(g, cores, q, ap, ap', a);
    }
  }

  lemma LiveBefore(g: Grammar, ap: seq<Action>, ap': seq<Action>, a: Action)
    requires Z.Outcome(g, ap, ap') && a in ap' && a.kind != Error && E.Coded(a)
    ensures Z.IsLive(ap, a) || (a.sp == g.nsymbol && a.kind == Reduce)
  {
    hide A.UniqueLive, Z.MostFrequent;
    assert Z.IsLive(ap', a);
  }

  lemma ActionCodable(g: Grammar, cores: seq<set<Item>>, q: nat, ap: seq<Action>, ap': seq<Action>, a: Action)
    requires Valid(g) && L.Lr0(g, cores) && q < |cores| && A.Acted(g, cores, q, ap) && Z.Outcome(g, ap, ap')
    requires a in ap' && a.kind != Error && E.Coded(a)
    ensures a.sp <= g.nsymbol && (a.sp == g.nsymbol ==> a.kind == Reduce) && (a.kind == Shift ==> a.target < |cores|)
  {
    hide Valid, L.Lr0, A.Acted, Z.Outcome, A.UniqueLive;
    LiveBefore(g, ap, ap', a);
    A.ActedLive(g, cores, q, ap);
    if Z.IsLive(ap, a) {
      Z.ActedSymbols(g, cores, q, ap, a);
      assert A.IsRaw(g, cores, q, a);
    }
  }

  /** The generator's result, for the states `c.ss` with their final action lists. The final table is faithful to the
      automaton of all reachable item sets, and complete if the grammar has no conflicts. The packed tables have all
      gotos and live actions right, and they refine the final table if and only if every row was safe to pack. */
  ghost predicate Result(c: Source, cores: seq<set<Item>>, sorted: seq<nat>, ax: seq<Axset>, h: seq<Stage>, t: Tables) {
    && L.Lr0(c.g, cores) && IsRenumbering(|cores|, sorted, c.statenum) && |c.ss| == |cores| > 0
    && AllCodable(c.g, c.ss) && L.Lr0(c.g, RenumberedCores(sorted, cores))
        && M.Faithful(c.g, RenumberedCores(sorted, cores), FinalTable(c, sorted))
    && (A.ConflictFree(c.g, cores) ==> C.Complete(c.g, RenumberedCores(sorted, cores), FinalTable(c, sorted)))
    && Reported(c, sorted, ax, h, t) && LiveRefines(t, c, sorted)
    && PackRun(c, ax, h) && (Refines(t, c.g, FinalTable(c, sorted)) <==> AllSafe(c, ax, h))
  }

  /** The passes that make the tables. */
  method Emit(lemp: Lemon, qsortStates: seq<StateKey> -> seq<StateKey>, qsortRows: seq<Axset> -> seq<Axset>,
              ghost cores: seq<set<Item>>)
    returns (t: Tables, ghost ax: seq<Axset>, ghost h: seq<Stage>)
    requires Valid(lemp.g) && A.ActionsFit(lemp.g) && SymbolsFit(lemp.g)
    requires L.Lr0(lemp.g, cores) && |cores| > 0 && Z.AllActed(lemp.g, cores, lemp.states)
    requires E.IsQsort(qsortStates, StateResortCompare) && E.IsQsort(qsortRows, AxsetCompare)
    modifies lemp`states, lemp`info, lemp`sorted, lemp`statenum
    ensures Z.AllCompressed(lemp.g, old(lemp.states), lemp.states) && AllCodable(lemp.g, lemp.states)
    ensures h != [] && Ordered(h[0].info, lemp.sorted)
    ensures Result(SourceOf(lemp), cores, lemp.sorted, ax, h, t)
  {
    hide Valid, A.ActionsFit, A.UniqueLive, L.Lr0, A.Acted, Z.Outcome, Z.NoErrors, AllCodable, AllCounted, Ordered,
         Reported, Result,
         SymbolsFit, E.IsQsort, StateResortCompare, AxsetCompare, Pow2, IsRenumbering, Z.Table, Renumbered;
    ghost var g, ss := lemp.g, lemp.states;
    ReadyToCompress(g, cores, ss);
    Z.CompressTables(lemp);
    ghost var ss' := lemp.states;
    ActedSizes(ss, ss');
    CompressedCodable(g, cores, ss, ss');
    ResortStates(lemp, qsortStates);
    t, ax, h := ReportTable(lemp, qsortRows);
    TableSizes(SourceOf(lemp), lemp.sorted, ax, h, t);
    ResultHolds(SourceOf(lemp), cores, ss, lemp.sorted, ax, h, t);
  }

  lemma ResultHolds(c: Source, cores: seq<set<Item>>, ss: seq<State>, sorted: seq<nat>, ax: seq<Axset>, h: seq<Stage>,
                    t: Tables)
    requires Valid(c.g) && L.Lr0(c.g, cores) && |cores| > 0 && Z.AllActed(c.g, cores, ss)
             && Z.AllCompressed(c.g, ss, c.ss)
    requires AllCodable(c.g, c.ss) && IsRenumbering(|c.ss|, sorted, c.statenum) && Reported(c, sorted, ax, h, t)
    ensures Result(c, cores, sorted, ax, h, t)
  {
    var g, statenum, cells := c.g, c.statenum, Z.Table(c.g, c.ss);
    TableSize(g, c.ss);
    hide Valid, L.Lr0, A.Acted, Z.Outcome, AllCodable, Reported, IsRenumbering, Renumbered, Z.Table, M.Faithful,
         C.Complete, A.ConflictFree,
         Refines, PackRun, AllSafe, LiveRefines;
    Z.CompressedFaithful(g, cores, ss, c.ss);
    RenumberedFaithful(g, sorted, statenum, cores, cells);
    RenumberedLr0(g, sorted, statenum, cores);
    if A.ConflictFree(g, cores) {
      Z.ActedComplete(g, cores, ss);
      Z.CompressedAgrees(g, cores, ss, c.ss);
      Z.CompressedComplete(g, cores, Z.Table(g, ss), cells);
      RenumberedComplete(g, sorted, statenum, cores, cells);
    }
    RefinesIfSafe(c, sorted, ax, h, t);
    LiveIsRefined(c, sorted, ax, h, t);
  }

  lemma TableSize(g: Grammar, ss: seq<State>)
    ensures |Z.Table(g, ss)| == |ss|
  {
  }

  /** The main program's passes, in its order. */
  method Generate(lemp: Lemon, qsortStates: seq<StateKey> -> seq<StateKey>, qsortRows: seq<Axset> -> seq<Axset>)
    returns (t: Tables, ghost cores: seq<set<Item>>, ghost ss: seq<State>, ghost ax: seq<Axset>, ghost h: seq<Stage>)
    requires Valid(lemp.g) && States.Fits(lemp.g) && A.ActionsFit(lemp.g) && SymbolsFit(lemp.g) && lemp.states == []
    requires E.IsQsort(qsortStates, StateResortCompare) && E.IsQsort(qsortRows, AxsetCompare)
    modifies lemp
    ensures DepthFirst(lemp.g, cores) && Z.AllActed(lemp.g, cores, ss) && Z.AllCompressed(lemp.g, ss, lemp.states)
    ensures h != [] && Ordered(h[0].info, lemp.sorted) && Result(SourceOf(lemp), cores, lemp.sorted, ax, h, t)
  {
    hide *;
    cores := Analyse(lemp);
    ss := lemp.states;
    t, ax, h := Emit(lemp, qsortStates, qsortRows, cores);
  }

  /** Generator and driver together: tables all of whose rows were safe to pack make a parser whose every run is
      sound, and which accepts, with a stack deep enough, exactly the sentences of a grammar without conflicts. */
  lemma GeneratedParser(c: Source, cores: seq<set<Item>>, sorted: seq<nat>, ax: seq<Axset>, h: seq<Stage>, t: Tables,
                        info: seq<RuleInfo>, w: seq<nat>)
    requires Valid(c.g) && Result(c, cores, sorted, ax, h, t) && RuleInfoOk(c.g, info)
    requires forall k | 0 <= k < |w| :: 0 < w[k] < c.g.nterminal
    ensures PackRun(c, ax, h)
    ensures Generated(t, info, c.g, RenumberedCores(sorted, cores), FinalTable(c, sorted)) <==> AllSafe(c, ax, h)
    ensures forall depth: nat | C.CleanlyAccepts(c.g, FinalTable(c, sorted), depth, w) :: Derives(c.g, [c.g.start], w)
    ensures A.ConflictFree(c.g, cores) ==>
              (Derives(c.g, [c.g.start], w) <==> exists depth: nat ::
               C.CleanlyAccepts(c.g, FinalTable(c, sorted), depth, w))
  {
    var cores', cells := RenumberedCores(sorted, cores), FinalTable(c, sorted);
    hide Valid, L.Lr0, IsRenumbering, RenumberedCores, M.Faithful, C.Complete, Refines, A.ConflictFree, RuleInfoOk,
         PackRun, AllSafe, Reported,
         LiveRefines, FinalTable;
    if A.ConflictFree(c.g, cores) {
      C.AcceptsExactlyTheLanguage(c.g, cores', cells, w);
    }
    forall depth: nat | C.CleanlyAccepts(c.g, cells, depth, w) ensures Derives(c.g, [c.g.start], w) {
      var n: nat :| C.CleanAfter(c.g, cells, depth, w, n);
      M.AcceptedIsDerived(c.g, cores', cells, depth, w, n);
    }
  }

  /** When every nonterminal generates something, what the parser has shifted always begins a sentence; and when the
      grammar has no conflicts, every call of the parser ends. */
  lemma GeneratedParserEnds(c: Source, cores: seq<set<Item>>, sorted: seq<nat>, ax: seq<Axset>, h: seq<Stage>,
                            t: Tables, m: M.Parse, x: nat) returns (u: seq<nat>, rounds: nat)
    requires Valid(c.g) && L.Generating(c.g) && Result(c, cores, sorted, ax, h, t) && x < c.g.nterminal
    requires M.Sound(c.g, RenumberedCores(sorted, cores), m)
    ensures m.stack != [] ==> AllBelow(u, c.g.nterminal) && Derives(c.g, [c.g.start], M.Shifts(m.log) + u)
    ensures A.ConflictFree(c.g, cores) ==>
              forall depth: nat ::
                End.Over(M.Steps(c.g, FinalTable(c, sorted), depth, M.Conf(m, [x]), rounds))
  {
    var cores', cells := RenumberedCores(sorted, cores), FinalTable(c, sorted);
    hide Valid, L.Lr0, L.Generating, IsRenumbering, RenumberedCores, M.Faithful, C.Complete, A.ConflictFree, PackRun,
         AllSafe, Refines, Reported, LiveRefines, FinalTable, M.Sound, M.Steps, End.Over;
    u, rounds := [], 0;
    if m.stack != [] { u := End.SoundBegins(c.g, cores', m); }
    if A.ConflictFree(c.g, cores) { rounds := End.CallEnds(c.g, cores', cells, m, x); }
  }
}
