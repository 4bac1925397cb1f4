/** The generated parser itself: a stack in a fixed array, driven by the packed tables. */
module Parsers {
  import opened Grammars
  import opened Items
  import opened M = Machine
  import opened L = Lookaheads
  import opened T = Tables
  import C = Completeness
  import End = Termination
  import Calls

  /** An entry of yyRuleInfo. */
  datatype RuleInfo = RuleInfo(lhs: nat, nrhs: nat)

  ghost predicate RuleInfoOk(g: Grammar, info: seq<RuleInfo>) {
    |info| == |g.rules| && forall r | 0 <= r < |info| :: info[r] == RuleInfo(g.rules[r].lhs, |g.rules[r].rhs|)
  }

  /** Everything that makes a parser out of tables: they refine a table that is faithful to the automaton. */
  ghost predicate Generated(t: Tables, info: seq<RuleInfo>, g: Grammar, cores: seq<set<Item>>, cells: seq<seq<Cell>>) {
    Valid(g) && Lr0(g, cores) && Faithful(g, cores, cells) && Refines(t, g, cells) && RuleInfoOk(g, info)
  }

  /** How the driver tells an action code apart. */
  lemma CodeReads(nstate: nat, nrule: nat, c: Cell, code: int)
    requires code == CellCode(nstate, nrule, c)
    requires (c.ShiftTo? ==> c.state < nstate) && (c.ReduceBy? ==> c.rule < nrule)
    ensures 0 <= code
    ensures code < nstate <==> c == ShiftTo(code)
    ensures nstate <= code < nstate + nrule <==> c.ReduceBy? && code == nstate + c.rule
    ensures code == nstate + nrule <==> c == ErrorCell
    ensures code == nstate + nrule + 1 <==> c == AcceptCell
  {
  }

  /** The action code on a token, in a sound state of the parser. */
  lemma ActionReads(t: Tables, info: seq<RuleInfo>, g: Grammar, cores: seq<set<Item>>, cells: seq<seq<Cell>>, m: Parse,
                    x: nat)
    requires Generated(t, info, g, cores, cells) && Sound(g, cores, m) && m.stack != [] && x < g.nterminal
    ensures Top(m.stack).stateno < |t.defaults| && |t.lookaheads| == |t.actions|
    ensures var code, cell := FindShiftAction(t, Top(m.stack).stateno, x), Lookup(cells, Top(m.stack).stateno, x);
            && 0 <= code && (code < t.nstate <==> cell == ShiftTo(code))
            && (t.nstate <= code < t.nstate + t.nrule <==> cell.ReduceBy? && code == t.nstate + cell.rule)
            && (code == t.nstate + t.nrule <==> cell == ErrorCell) && code <= t.nstate + t.nrule
            && (x == 0 ==> !cell.ShiftTo?)
  {
    var q := Top(m.stack).stateno;
    var cell := Lookup(cells, q, x);
    TopInRange(g, cores, m.stack);
    assert ShiftAgrees(t, g, cells, q, x) && CellAllowed(g, cores, q, x, cell);
    SoundCanAct(g, cores, cells, m, x);
    hide Valid, Lr0, Faithful, Refines, RuleInfoOk, FindShiftAction, Sound;
    CodeReads(t.nstate, t.nrule, cell, FindShiftAction(t, q, x));
  }

  /** After the right-hand side has been popped the goto lookup is in order. */
  lemma GotoReads(t: Tables, info: seq<RuleInfo>, g: Grammar, cores: seq<set<Item>>, cells: seq<seq<Cell>>, m: Parse,
                  x: nat, r: nat)
    requires Generated(t, info, g, cores, cells) && Sound(g, cores, m) && m.stack != [] && x < g.nterminal
    requires Lookup(cells, Top(m.stack).stateno, x) == ReduceBy(r)
    ensures r < |g.rules| == |info| && info[r] == RuleInfo(g.rules[r].lhs, |g.rules[r].rhs|)
            && |m.stack| > |g.rules[r].rhs|
    ensures var q, lhs := Top(Popped(g, m.stack, r)).stateno, g.rules[r].lhs;
            var cell := Lookup(cells, q, lhs);
            ReduceActionFound(t, q, lhs)
            && var code := FindReduceAction(t, q, lhs);
               0 <= code
               && if code < t.nstate then cell == ShiftTo(code)
                  else cell == AcceptCell && code == t.nstate + t.nrule + 1
  {
    hide Valid, Lr0, Viable, FindReduceAction, ReduceActionFound;
    ReductionWorks(g, cores, cells, m, x, r);
    RuleSymbols(g, r);
    var base, lhs := Popped(g, m.stack, r), g.rules[r].lhs;
    TopInRange(g, cores, base);
    var q := Top(base).stateno;
    assert GotoAgrees(t, g, cells, q, lhs);
    CodeReads(t.nstate, t.nrule, Lookup(cells, q, lhs), FindReduceAction(t, q, lhs));
  }

  class Parser {
    const t: Tables
    const ruleInfo: seq<RuleInfo>
    var idx: int
    var errcnt: int
    const entries: array<Entry>
    /** What the parser has done since it was last initialised. */
    ghost var log: seq<Event>

    ghost predicate Valid()
      reads this
    {
      -1 <= idx < entries.Length
    }

    /** The parser as the step function sees it. */
    ghost function Now(): Parse
      reads this, entries
      requires Valid()
    {
      M.Parse.Parse(entries[..idx + 1], errcnt, log)
    }

    /** ParseAlloc. */
    constructor (t: Tables, ruleInfo: seq<RuleInfo>, depth: nat)
      requires depth > 0
      ensures this.t == t && this.ruleInfo == ruleInfo && fresh(entries) && entries.Length == depth && Valid()
              && Now() == M.Parse.Parse([], -1, [])
    {
      this.t, this.ruleInfo := t, ruleInfo;
      idx, errcnt, log := -1, -1, [];
      entries := new Entry[depth](_ => Entry(0, 0));
    }

    method PopStack() returns (major: nat)
      requires idx < entries.Length
      modifies this`idx
      ensures idx == if old(idx) < 0 then old(idx) else old(idx) - 1
      ensures major == if old(idx) < 0 then 0 else entries[old(idx)].major
    {
      if idx < 0 { return 0; }
      major := entries[idx].major;
      idx := idx - 1;
    }

    method PopAll()
      requires -1 <= idx < entries.Length
      modifies this`idx
      ensures idx == -1
    {
      while idx >= 0
        invariant -1 <= idx < entries.Length
        decreases idx
      {
        var _ := PopStack();
      }
    }

    method StackOverflow()
      requires 0 <= idx == entries.Length
      modifies this`idx, this`log
      ensures idx == -1 && log == old(log) + [Overflowed]
    {
      idx := idx - 1;
      PopAll();
      log := log + [Overflowed];
    }

    method Accept()
      requires Valid()
      modifies this`idx, this`log
      ensures idx == -1 && log == old(log) + [Accepted]
    {
      PopAll();
      log := log + [Accepted];
    }

    method Shift(newState: nat, major: nat, ghost event: Event)
      requires Valid() && entries.Length > 0
      modifies this`idx, this`log, entries
      ensures Valid() && Now() == Push(old(Now()), entries.Length, Entry(newState, major), event)
    {
      ghost var below := entries[..idx + 1];
      idx := idx + 1;
      if idx >= entries.Length {
        StackOverflow();
        return;
      }
      entries[idx] := Entry(newState, major);
      log := log + [event];
      assert entries[..idx] == below;
    }

    method FindShift(lookahead: nat) returns (action: int)
      requires Valid() && idx >= 0 && entries[idx].stateno < |t.defaults| && |t.lookaheads| == |t.actions|
      ensures action == FindShiftAction(t, entries[idx].stateno, lookahead)
    {
      var stateno := entries[idx].stateno;
      if stateno > |t.shiftOfsts| - 1 { return t.defaults[stateno]; }
      var i := t.shiftOfsts[stateno];
      if i == t.shiftUseDflt { return t.defaults[stateno]; }
      i := i + lookahead;
      if i < 0 || i >= |t.actions| || t.lookaheads[i] != lookahead { return t.defaults[stateno]; }
      action := t.actions[i];
    }

    method FindReduce(stateno: nat, lookahead: nat) returns (action: int)
      requires ReduceActionFound(t, stateno, lookahead)
      ensures action == FindReduceAction(t, stateno, lookahead)
    {
      assert stateno <= |t.reduceOfsts| - 1;
      var i := t.reduceOfsts[stateno];
      assert i != t.reduceUseDflt;
      i := i + lookahead;
      assert 0 <= i < |t.actions|;
      assert t.lookaheads[i] == lookahead;
      action := t.actions[i];
    }

    method Reduce(ruleno: nat, ghost g: Grammar, ghost cores: seq<set<Item>>, ghost cells: seq<seq<Cell>>, ghost x: nat)
      requires Valid() && idx >= 0 && Generated(t, ruleInfo, g, cores, cells) && Sound(g, cores, Now())
               && x < g.nterminal
      requires Lookup(cells, Top(Now().stack).stateno, x) == ReduceBy(ruleno)
      modifies this`idx, this`log, entries
      ensures Valid() && Now() == Reduction(g, cells, entries.Length, old(Now()), ruleno)
    {
      ghost var m := Now();
      hide Generated, Sound, ReduceActionFound, FindReduceAction;
      GotoReads(t, ruleInfo, g, cores, cells, m, x, ruleno);
      var lhs := ruleInfo[ruleno].lhs;
      var size := ruleInfo[ruleno].nrhs;
      idx := idx - size;
      assert entries[..idx + 1] == Popped(g, m.stack, ruleno);
      var act := FindReduce(entries[idx].stateno, lhs);
      if act < t.nstate {
        Shift(act, lhs, Reduced(ruleno));
      } else {
        assert act == t.nstate + t.nrule + 1;
        log := log + [Reduced(ruleno)];
        Accept();
        assert m.log + [Reduced(ruleno), Accepted] == m.log + [Reduced(ruleno)] + [Accepted];
      }
    }

    /** One round of the loop in Parse. */
    method Round(token: nat, ghost g: Grammar, ghost cores: seq<set<Item>>, ghost cells: seq<seq<Cell>>)
      returns (used: bool)
      requires Valid() && idx >= 0 && Generated(t, ruleInfo, g, cores, cells) && Sound(g, cores, Now())
               && token < g.nterminal
      modifies this`idx, this`errcnt, this`log, entries
      ensures Valid() && Sound(g, cores, Now()) && (Now(), used) == Step(g, cells, entries.Length, old(Now()), token)
    {
      hide Generated, Sound, FindShiftAction, Reduction, Lookup, Popped, Word, Grammars.Valid, Lr0, Faithful, Refines,
           RuleInfoOk;
      ghost var m := Now();
      StepStaysSound(t, ruleInfo, g, cores, cells, entries.Length, m, token);
      ActionReads(t, ruleInfo, g, cores, cells, m, token);
      var act := FindShift(token);
      if act < t.nstate {
        assert token != 0;
        Shift(act, token, Shifted(token));
        errcnt := errcnt - 1;
        used := true;
      } else if act < t.nstate + t.nrule {
        Reduce(act - t.nstate, g, cores, cells, token);
        used := false;
      } else {
        assert act == t.nstate + t.nrule;
        errcnt := 3;
        if token == 0 {
          PopAll();
        }
        log := log + [Rejected(token)];
        used := true;
      }
    }

    /** (Re)initialise the parser if it is not parsing. */
    method Initialise(ghost g: Grammar, ghost cores: seq<set<Item>>)
      requires Valid() && entries.Length > 0 && (idx >= 0 ==> Sound(g, cores, Now()))
      modifies this`idx, this`errcnt, this`log, entries
      ensures Valid() && idx >= 0 && Sound(g, cores, Now()) && Now() == if old(idx) < 0 then Start() else old(Now())
    {
      if idx < 0 {
        idx := 0;
        errcnt := -1;
        entries[0] := Entry(0, 0);
        log := [];
        assert Now().stack == [Entry(0, 0)];
        StartSound(g, cores);
      }
    }

    /** Parse: feed one token to the parser. When conflicts have been resolved the loop need not end, as on a grammar
        with cycles, so here it is cut off after `fuel` rounds; `done` says whether it had ended. */
    method Parse(token: nat, fuel: nat, ghost g: Grammar, ghost cores: seq<set<Item>>, ghost cells: seq<seq<Cell>>)
      returns (done: bool, ghost rounds: nat, ghost used: bool)
      requires Valid() && entries.Length > 0 && Generated(t, ruleInfo, g, cores, cells) && token < g.nterminal
      requires idx >= 0 ==> Sound(g, cores, Now())
      modifies this`idx, this`errcnt, this`log, entries
      ensures Valid() && Sound(g, cores, Now()) && rounds <= fuel && (!done ==> rounds == fuel)
              && (done <==> used || idx < 0) && (done && token == 0 ==> idx < 0)
      ensures var m := if old(idx) < 0 then Start() else old(Now());
              Steps(g, cells, entries.Length, Conf(m, [token]), rounds) == Conf(Now(), if used then [] else [token])
    {
      hide Generated, Sound, Step;
      Initialise(g, cores);
      ghost var start := Conf(Now(), [token]);
      done, rounds, used := false, 0, false;
      var left := fuel;
      while !done && left > 0
        invariant Valid() && Sound(g, cores, Now()) && rounds == fuel - left && (done <==> used || idx < 0)
        invariant Steps(g, cells, entries.Length, start, rounds) == Conf(Now(), if used then [] else [token])
        decreases left
      {
        ghost var m := Now();
        var u := Round(token, g, cores, cells);
        StepsAdd(g, cells, entries.Length, start, rounds, 1);
        rounds, left := rounds + 1, left - 1;
        used := u;
        done := u || idx < 0;
      }
      if done && token == 0 { EndsParsing(t, ruleInfo, g, cores, cells, entries.Length, start.m, Now(), rounds, used); }
    }

    /** Parse, when the loop ends: nothing cuts it off. That it does end is what CallHalts says of tables without
        conflicts. */
    method ParseToken(token: nat, ghost g: Grammar, ghost cores: seq<set<Item>>, ghost cells: seq<seq<Cell>>)
      returns (ghost rounds: nat, ghost used: bool)
      requires Valid() && entries.Length > 0 && Generated(t, ruleInfo, g, cores, cells) && token < g.nterminal
      requires idx >= 0 ==> Sound(g, cores, Now())
      requires Halts(g, cells, entries.Length, if idx < 0 then Start() else Now(), token)
      modifies this`idx, this`errcnt, this`log, entries
      ensures Valid() && Sound(g, cores, Now()) && (used || idx < 0) && (token == 0 ==> idx < 0)
      ensures var m := if old(idx) < 0 then Start() else old(Now());
              Steps(g, cells, entries.Length, Conf(m, [token]), rounds) == Conf(Now(), if used then [] else [token])
      ensures Calls.CallTo(g, cells, entries.Length, old(Now()), token, Now())
    {
      hide Generated, Sound, Step, Steps, Reduction, StepConf;
      ghost var was := Now();
      Initialise(g, cores);
      assert Now() == Calls.Ready(was);
      ghost var start := Conf(Now(), [token]);
      ghost var bound: nat :| End.Over(Steps(g, cells, entries.Length, start, bound));
      rounds, used := 0, false;
      Stopped(g, cells, entries.Length, start, 0);
      var over := false;
      while !over
        invariant Valid() && Sound(g, cores, Now()) && rounds <= bound && (over <==> used || idx < 0)
        invariant Steps(g, cells, entries.Length, start, rounds) == Conf(Now(), if used then [] else [token])
        decreases bound - rounds
      {
        assert rounds != bound;
        ghost var m := Now();
        var u := Round(token, g, cores, cells);
        OneMoreRound(g, cells, entries.Length, start, rounds, m);
        rounds := rounds + 1;
        used := u;
        over := u || idx < 0;
      }
      assert Calls.CallIn(g, cells, entries.Length, start.m, token, Now(), rounds, used);
      if token == 0 { EndsParsing(t, ruleInfo, g, cores, cells, entries.Length, start.m, Now(), rounds, used); }
    }

    /** A call for every token, on tables without conflicts. */
    method Feed(tokens: seq<nat>, ghost g: Grammar, ghost cores: seq<set<Item>>, ghost cells: seq<seq<Cell>>)
      requires Valid() && entries.Length > 0 && Generated(t, ruleInfo, g, cores, cells) && AllBelow(tokens, g.nterminal)
      requires Generating(g) && C.Complete(g, cores, cells) && Sound(g, cores, Now())
      modifies this`idx, this`errcnt, this`log, entries
      ensures Valid() && Sound(g, cores, Now()) && Calls.CallAll(g, cells, entries.Length, old(Now()), tokens, Now())
      ensures tokens != [] && old(idx) < 0 ==> Calls.CallAll(g, cells, entries.Length, Start(), tokens, Now())
      ensures tokens != [] && tokens[|tokens| - 1] == 0 ==> idx < 0
    {
      hide Generated, Sound, Generating, C.Complete, Halts, Calls.CallTo, Calls.CallAll;
      ghost var m0 := Now();
      CallsNone(g, cells, entries.Length, m0);
      for i := 0 to |tokens|
        invariant Valid() && Sound(g, cores, Now())
        invariant Calls.CallAll(g, cells, entries.Length, m0, tokens[..i], Now())
        invariant i > 0 && tokens[i - 1] == 0 ==> idx < 0
      {
        ghost var m := Now();
        CallsHalt(t, ruleInfo, g, cores, cells, entries.Length, m, tokens[i]);
        var _, _ := ParseToken(tokens[i], g, cores, cells);
        OneMoreCall(g, cells, entries.Length, m0, tokens[..i], m, tokens[i], Now());
        assert tokens[..i + 1] == tokens[..i] + [tokens[i]];
      }
      assert tokens[..|tokens|] == tokens;
      if tokens != [] && old(idx) < 0 { CallsFromNothing(g, cells, entries.Length, m0, tokens, Now()); }
    }
  }

  lemma OneMoreRound(g: Grammar, cells: seq<seq<Cell>>, depth: nat, c: Conf, n: nat, m: Parse)
    requires c.input != [] && m.stack != [] && Steps(g, cells, depth, c, n) == Conf(m, [c.input[0]])
    ensures var (m', used) := Step(g, cells, depth, m, c.input[0]);
            Steps(g, cells, depth, c, n + 1) == Conf(m', if used then [] else [c.input[0]])
  {
    hide Step;
    StepsAdd(g, cells, depth, c, n, 1);
    assert Steps(g, cells, depth, Conf(m, [c.input[0]]), 1) == StepConf(g, cells, depth, Conf(m, [c.input[0]]));
  }

  lemma EndsParsing(t: Tables, info: seq<RuleInfo>, g: Grammar, cores: seq<set<Item>>, cells: seq<seq<Cell>>,
                    depth: nat, m: Parse, m': Parse, n: nat, used: bool)
    requires Generated(t, info, g, cores, cells) && Sound(g, cores, m)
    requires Steps(g, cells, depth, Conf(m, [0]), n) == Conf(m', if used then [] else [0]) && (used || m'.stack == [])
    ensures m'.stack == []
  {
    hide Valid, Lr0, Faithful, Refines, RuleInfoOk, Sound, Steps;
    Calls.EndOfInput(g, cores, cells, depth, m, m', n, used);
  }

  lemma CallsNone(g: Grammar, cells: seq<seq<Cell>>, depth: nat, m: Parse)
    ensures Calls.CallAll(g, cells, depth, m, [], m)
  {
  }

  lemma CallsHalt(t: Tables, info: seq<RuleInfo>, g: Grammar, cores: seq<set<Item>>, cells: seq<seq<Cell>>,
                  depth: nat, m: Parse, x: nat)
    requires Generated(t, info, g, cores, cells) && Generating(g) && C.Complete(g, cores, cells)
    requires Sound(g, cores, m) && x < g.nterminal
    ensures Halts(g, cells, depth, if m.stack == [] then Start() else m, x)
  {
    hide Generated, Generating, C.Complete, Sound, Halts;
    StartSound(g, cores);
    CallHalts(t, info, g, cores, cells, depth, if m.stack == [] then Start() else m, x);
  }

  lemma {:induction false} OneMoreCall(g: Grammar, cells: seq<seq<Cell>>, depth: nat, m: Parse, w: seq<nat>, m1: Parse,
                                       x: nat, m2: Parse)
    requires Calls.CallAll(g, cells, depth, m, w, m1) && Calls.CallTo(g, cells, depth, m1, x, m2)
    ensures Calls.CallAll(g, cells, depth, m, w + [x], m2)
    decreases |w|
  {
    hide Calls.CallTo;
    if w == [] {
      assert [x][1..] == [];
      assert Calls.CallAll(g, cells, depth, m2, [], m2);
    } else {
      assert (w + [x])[0] == w[0] && (w + [x])[1..] == w[1..] + [x];
      var m0 :| Calls.CallTo(g, cells, depth, m, w[0], m0) && Calls.CallAll(g, cells, depth, m0, w[1..], m1);
      OneMoreCall(g, cells, depth, m0, w[1..], m1, x, m2);
    }
  }

  lemma CallsFromNothing(g: Grammar, cells: seq<seq<Cell>>, depth: nat, m: Parse, w: seq<nat>, m': Parse)
    requires m.stack == [] && w != [] && Calls.CallAll(g, cells, depth, m, w, m')
    ensures Calls.CallAll(g, cells, depth, Start(), w, m')
  {
    hide Calls.CallTo;
    var m1 :| Calls.CallTo(g, cells, depth, m, w[0], m1) && Calls.CallAll(g, cells, depth, m1, w[1..], m');
    Calls.FromNothing(g, cells, depth, m, w[0], m1);
  }

  /** The token is used up, or parsing over, after some number of rounds. */
  ghost predicate Halts(g: Grammar, cells: seq<seq<Cell>>, depth: nat, m: Parse, x: nat) {
    exists n: nat :: End.Over(Steps(g, cells, depth, Conf(m, [x]), n))
  }

  /** On tables without conflicts every call halts, if the nonterminals that occur generate something. */
  lemma CallHalts(t: Tables, info: seq<RuleInfo>, g: Grammar, cores: seq<set<Item>>, cells: seq<seq<Cell>>,
                  depth: nat, m: Parse, x: nat)
    requires Generated(t, info, g, cores, cells) && Generating(g) && C.Complete(g, cores, cells)
    requires Sound(g, cores, m) && x < g.nterminal
    ensures Halts(g, cells, depth, m, x)
  {
    hide Refines, RuleInfoOk, Sound, Steps, End.Over;
    var n := End.CallEnds(g, cores, cells, m, x);
    assert End.Over(Steps(g, cells, depth, Conf(m, [x]), n));
  }

  lemma StepStaysSound(t: Tables, info: seq<RuleInfo>, g: Grammar, cores: seq<set<Item>>, cells: seq<seq<Cell>>,
                       depth: nat, m: Parse, x: nat)
    requires Generated(t, info, g, cores, cells) && Sound(g, cores, m) && m.stack != [] && x < g.nterminal
    ensures Sound(g, cores, Step(g, cells, depth, m, x).0)
  {
    StepSound(g, cores, cells, depth, m, x);
  }

  /** Feeding the tokens one call at a time is the run on the whole input, so what is proved of runs holds of the
      calls. */
  lemma {:induction false} CallsCompose(g: Grammar, cells: seq<seq<Cell>>, depth: nat, m: Parse, x: nat, rest: seq<nat>,
                                        n: nat, m': Parse)
    requires Steps(g, cells, depth, Conf(m, [x]), n) == Conf(m', [])
    ensures exists k :: 0 <= k <= n && Steps(g, cells, depth, Conf(m, [x] + rest), k) == Conf(m', rest)
    decreases n
  {
    hide Step;
    if m.stack == [] {
      Stopped(g, cells, depth, Conf(m, [x]), n);
    } else {
      var (m1, used) := Step(g, cells, depth, m, x);
      assert ([x] + rest)[1..] == rest && [x][1..] == [];
      assert StepConf(g, cells, depth, Conf(m, [x])) == Conf(m1, if used then [] else [x]);
      if used {
        Stopped(g, cells, depth, Conf(m1, []), n - 1);
        assert m' == m1 && StepConf(g, cells, depth, Conf(m, [x] + rest)) == Conf(m', rest);
        Stopped(g, cells, depth, Conf(m', rest), 0);
        assert Steps(g, cells, depth, Conf(m, [x] + rest), 1) == Steps(g, cells, depth, Conf(m', rest), 0);
      } else {
        CallsCompose(g, cells, depth, m1, x, rest, n - 1, m');
        var k :| 0 <= k <= n - 1 && Steps(g, cells, depth, Conf(m1, [x] + rest), k) == Conf(m', rest);
        assert Steps(g, cells, depth, Conf(m, [x] + rest), k + 1) == Conf(m', rest);
      }
    }
  }

  lemma {:induction false} Stopped(g: Grammar, cells: seq<seq<Cell>>, depth: nat, c: Conf, n: nat)
    requires c.m.stack == [] || c.input == [] || n == 0
    ensures Steps(g, cells, depth, c, n) == c
    decreases n
  {
    if n > 0 { Stopped(g, cells, depth, c, n - 1); }
  }
}
