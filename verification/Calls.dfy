/** One call of the driver after the other: when it goes on with a parse and when it starts a new one. */
module Calls {
  import opened Grammars
  import opened Items
  import opened M = Machine
  import opened L = Lookaheads
  import End = Termination

  /** With the parser at `m`, a call with token `x` leaves it at `m'`: from the initial state, if it was not parsing,
      rounds on that token until it has been used up or the parser is no longer parsing. */
  ghost predicate CallTo(g: Grammar, cells: seq<seq<Cell>>, depth: nat, m: Parse, x: nat, m': Parse) {
    exists n: nat, used :: CallIn(g, cells, depth, Ready(m), x, m', n, used)
  }

  /** The start of a call: the parser is initialised if it is not parsing. */
  function Ready(m: Parse): Parse {
    if m.stack == [] then Start() else m
  }

  ghost predicate CallIn(g: Grammar, cells: seq<seq<Cell>>, depth: nat, m: Parse, x: nat, m': Parse, n: nat,
                         used: bool) {
    Steps(g, cells, depth, Conf(m, [x]), n) == Conf(m', if used then [] else [x]) && (used || m'.stack == [])
  }

  /** Calls with the tokens of `w`, one after the other. */
  ghost predicate CallAll(g: Grammar, cells: seq<seq<Cell>>, depth: nat, m: Parse, w: seq<nat>, m': Parse)
    decreases |w|
  {
    if w == [] then m' == m
    else exists m1 :: CallTo(g, cells, depth, m, w[0], m1) && CallAll(g, cells, depth, m1, w[1..], m')
  }

  // ----- when the parser is parsing -----

  /** What the parser did last when it stopped parsing: accept, overflow, or reject the end of the input. */
  predicate Final(e: Event) {
    e == Accepted || e == Overflowed || e == Rejected(0)
  }

  ghost predicate StopsWell(m: Parse) {
    m.stack == [] <==> m.log != [] && Final(m.log[|m.log| - 1])
  }

  lemma StepStopsWell(g: Grammar, cells: seq<seq<Cell>>, depth: nat, c: Conf)
    requires StopsWell(c.m)
    ensures StopsWell(StepConf(g, cells, depth, c).m)
  {
  }

  lemma {:induction false} AllStopWell(g: Grammar, cells: seq<seq<Cell>>, depth: nat, c: Conf, n: nat)
    requires StopsWell(c.m)
    ensures StopsWell(Steps(g, cells, depth, c, n).m)
    decreases n
  {
    if n > 0 {
      StepStopsWell(g, cells, depth, c);
      AllStopWell(g, cells, depth, StepConf(g, cells, depth, c), n - 1);
    }
  }

  /** Whatever a parser is fed, and however deep its stack is: it is no longer parsing exactly if the last that it
      did was to accept, to overflow, or to reject the end of the input. */
  lemma ParsingUnlessEnded(g: Grammar, cells: seq<seq<Cell>>, depth: nat, input: seq<nat>, n: nat)
    ensures var m := Steps(g, cells, depth, Conf(Start(), input), n).m;
            m.stack == [] <==>
              m.log != [] && (m.log[|m.log| - 1] == Accepted || m.log[|m.log| - 1] == Overflowed
                              || m.log[|m.log| - 1] == Rejected(0))
  {
    AllStopWell(g, cells, depth, Conf(Start(), input), n);
  }

  /** A token other than the end of the input is thrown away: the round that rejects it leaves the stack as it was. */
  lemma RejectionKeepsStack(g: Grammar, cells: seq<seq<Cell>>, depth: nat, c: Conf, x: nat)
    requires c.input != [] && StepConf(g, cells, depth, c).m.log == c.m.log + [Rejected(x)] && x != 0
    ensures StepConf(g, cells, depth, c).m.stack == c.m.stack && StepConf(g, cells, depth, c).input == c.input[1..]
    ensures c.input[0] == x
  {
    var log, log' := c.m.log, StepConf(g, cells, depth, c).m.log;
    assert log'[|log|] == Rejected(x);
    if c.m.stack != [] {
      match Lookup(cells, Top(c.m.stack).stateno, c.input[0])
      case ShiftTo(_) =>
      case ReduceBy(_) =>
      case _ =>
    }
  }

  // ----- the depth of the stack -----

  lemma {:induction false} NeverDeeper(g: Grammar, cells: seq<seq<Cell>>, depth: nat, c: Conf, n: nat)
    requires |c.m.stack| <= depth
    ensures |Steps(g, cells, depth, c, n).m.stack| <= depth
    decreases n
  {
    if n > 0 { NeverDeeper(g, cells, depth, StepConf(g, cells, depth, c), n - 1); }
  }

  /** The stack holds `depth` entries, the one for state 0 included, and overflows exactly if it is full and another is
      to be pushed: by a shift, or by the goto after a reduction that pops nothing. */
  lemma OverflowsWhenFull(g: Grammar, cells: seq<seq<Cell>>, depth: nat, input: seq<nat>, n: nat)
    requires depth > 0
    ensures |Steps(g, cells, depth, Conf(Start(), input), n).m.stack| <= depth
    ensures var c := Steps(g, cells, depth, Conf(Start(), input), n);
            c.m.stack != [] && c.input != [] ==>
              var q := c.m.stack[|c.m.stack| - 1].stateno;
              var cell := Lookup(cells, q, c.input[0]);
              (StepConf(g, cells, depth, c).m.log == c.m.log + [Overflowed] <==>
                |c.m.stack| == depth
                && (cell.ShiftTo? || (cell.ReduceBy? && cell.rule < |g.rules| && g.rules[cell.rule].rhs == []
                                      && Lookup(cells, q, g.rules[cell.rule].lhs).ShiftTo?)))
  {
    NeverDeeper(g, cells, depth, Conf(Start(), input), n);
    var c := Steps(g, cells, depth, Conf(Start(), input), n);
    if c.m.stack != [] && c.input != [] { FullOverflows(g, cells, depth, c); }
  }

  lemma FullOverflows(g: Grammar, cells: seq<seq<Cell>>, depth: nat, c: Conf)
    requires |c.m.stack| <= depth && c.m.stack != [] && c.input != []
    ensures var q := c.m.stack[|c.m.stack| - 1].stateno;
            var cell := Lookup(cells, q, c.input[0]);
            (StepConf(g, cells, depth, c).m.log == c.m.log + [Overflowed] <==>
              |c.m.stack| == depth
              && (cell.ShiftTo? || (cell.ReduceBy? && cell.rule < |g.rules| && g.rules[cell.rule].rhs == []
                                    && Lookup(cells, q, g.rules[cell.rule].lhs).ShiftTo?)))
  {
    var log := c.m.log;
    forall e: Event ensures (log + [e])[|log|] == e {}
    assert |log| != |log + [Overflowed]|;
    match Lookup(cells, Top(c.m.stack).stateno, c.input[0])
    case ShiftTo(_) =>
    case ReduceBy(r) =>
      if r < |g.rules| && |c.m.stack| > |g.rules[r].rhs| {
        assert |log + [Reduced(r), Accepted]| != |log + [Overflowed]|;
        if g.rules[r].rhs == [] { assert Popped(g, c.m.stack, r) == c.m.stack; }
      }
    case _ =>
  }

  // ----- errors -----

  /** The tokens shifted since the last one that was rejected. */
  function ShiftsSince(log: seq<Event>): nat {
    if log == [] || log[|log| - 1].Rejected? then 0
    else ShiftsSince(log[..|log| - 1]) + if log[|log| - 1].Shifted? then 1 else 0
  }

  ghost predicate CountsShifts(m: Parse) {
    m.stack != [] ==> m.errcnt == (if exists x :: Rejected(x) in m.log then 3 else -1) - ShiftsSince(m.log)
  }

  lemma OneMoreEvent(log: seq<Event>, e: Event)
    ensures ShiftsSince(log + [e]) == if e.Rejected? then 0 else ShiftsSince(log) + if e.Shifted? then 1 else 0
    ensures (exists x :: Rejected(x) in log + [e]) <==> e.Rejected? || exists x :: Rejected(x) in log
  {
    assert (log + [e])[..|log|] == log;
    if e.Rejected? { assert Rejected(e.token) in log + [e]; }
    if x :| Rejected(x) in log { assert Rejected(x) in log + [e]; }
  }

  lemma StepCounts(g: Grammar, cells: seq<seq<Cell>>, depth: nat, c: Conf)
    requires CountsShifts(c.m)
    ensures CountsShifts(StepConf(g, cells, depth, c).m)
  {
    if c.m.stack != [] && c.input != [] {
      var x := c.input[0];
      OneMoreEvent(c.m.log, Shifted(x));
      OneMoreEvent(c.m.log, Rejected(x));
      match Lookup(cells, Top(c.m.stack).stateno, x)
      case ShiftTo(_) =>
      case ReduceBy(r) => OneMoreEvent(c.m.log, Reduced(r));
      case _ =>
    }
  }

  lemma {:induction false} AllCount(g: Grammar, cells: seq<seq<Cell>>, depth: nat, c: Conf, n: nat)
    requires CountsShifts(c.m)
    ensures CountsShifts(Steps(g, cells, depth, c, n).m)
    decreases n
  {
    hide CountsShifts, StepConf;
    if n > 0 {
      StepCounts(g, cells, depth, c);
      AllCount(g, cells, depth, StepConf(g, cells, depth, c), n - 1);
    }
  }

  /** While parsing, yyerrcnt is positive exactly if a token has been rejected and fewer than three have been shifted
      since: during that time no other error is reported. */
  lemma QuietAfterError(g: Grammar, cells: seq<seq<Cell>>, depth: nat, input: seq<nat>, n: nat)
    requires Steps(g, cells, depth, Conf(Start(), input), n).m.stack != []
    ensures var m := Steps(g, cells, depth, Conf(Start(), input), n).m;
            m.errcnt > 0 <==> exists k :: 0 <= k < |m.log| && m.log[k].Rejected?
                                           && |set i: nat | k < i < |m.log| && m.log[i].Shifted?| < 3
  {
    AllCount(g, cells, depth, Conf(Start(), input), n);
    var log := Steps(g, cells, depth, Conf(Start(), input), n).m.log;
    if x :| Rejected(x) in log {
      LastRejected(log, x);
      var k :| RejectedAt(log, k) && |ShiftedAfter(log, k)| == ShiftsSince(log);
    }
    forall k | RejectedAt(log, k) ensures |ShiftedAfter(log, k)| >= ShiftsSince(log) && Rejected(log[k].token) in log {
      SinceAny(log, k);
    }
  }

  predicate RejectedAt(log: seq<Event>, k: int) {
    0 <= k < |log| && log[k].Rejected?
  }

  function ShiftedAfter(log: seq<Event>, k: int): set<nat> {
    set i: nat | k < i < |log| && log[i].Shifted?
  }

  lemma {:induction false} LastRejected(log: seq<Event>, x: nat)
    requires Rejected(x) in log
    ensures exists k :: RejectedAt(log, k) && |ShiftedAfter(log, k)| == ShiftsSince(log)
    decreases |log|
  {
    var n := |log| - 1;
    if log[n].Rejected? {
      assert RejectedAt(log, n) && ShiftedAfter(log, n) == {};
    } else {
      assert log == log[..n] + [log[n]];
      LastRejected(log[..n], x);
      var k :| RejectedAt(log[..n], k) && |ShiftedAfter(log[..n], k)| == ShiftsSince(log[..n]);
      AfterOne(log, k);
      assert RejectedAt(log, k);
    }
  }

  lemma {:induction false} SinceAny(log: seq<Event>, k: int)
    requires RejectedAt(log, k)
    ensures |ShiftedAfter(log, k)| >= ShiftsSince(log)
    decreases |log|
  {
    var n := |log| - 1;
    if !log[n].Rejected? {
      SinceAny(log[..n], k);
      AfterOne(log, k);
    }
  }

  lemma AfterOne(log: seq<Event>, k: int)
    requires 0 <= k < |log| - 1
    ensures var n := |log| - 1;
            && ShiftedAfter(log, k) == ShiftedAfter(log[..n], k) + (if log[n].Shifted? then {n} else {})
            && |ShiftedAfter(log, k)| == |ShiftedAfter(log[..n], k)| + if log[n].Shifted? then 1 else 0
  {
    var n := |log| - 1;
    assert forall i | 0 <= i < n :: log[..n][i] == log[i];
    assert ShiftedAfter(log, k) == ShiftedAfter(log[..n], k) + if log[n].Shifted? then {n} else {};
    assert n !in ShiftedAfter(log[..n], k);
  }

  // ----- the end of the input -----

  /** A call with the end of the input leaves the parser not parsing, on a table that shifts no `$`. */
  lemma EndOfInput(g: Grammar, cores: seq<set<Item>>, cells: seq<seq<Cell>>, depth: nat, m: Parse, m': Parse, n: nat,
                   used: bool)
    requires Valid(g) && Lr0(g, cores) && Faithful(g, cores, cells) && Sound(g, cores, m)
    requires CallIn(g, cells, depth, m, 0, m', n, used)
    ensures m'.stack == []
    decreases n
  {
    assert 0 < g.nterminal;
    hide Valid, Lr0, Faithful, Sound, Lookup;
    if m.stack == [] {
      End.Halted(g, cells, depth, Conf(m, [0]), n);
    } else if n > 0 {
      var (m1, u) := Step(g, cells, depth, m, 0);
      SoundCanAct(g, cores, cells, m, 0);
      StepSound(g, cores, cells, depth, m, 0);
      assert StepConf(g, cells, depth, Conf(m, [0])) == Conf(m1, if u then [] else [0]);
      if u {
        assert m1.stack == [];
        End.Halted(g, cells, depth, Conf(m1, []), n - 1);
      } else {
        EndOfInput(g, cores, cells, depth, m1, m', n - 1, used);
      }
    }
  }

  // ----- one input after the other -----

  lemma CallSound(g: Grammar, cores: seq<set<Item>>, cells: seq<seq<Cell>>, depth: nat, m: Parse, x: nat, m': Parse)
    requires Valid(g) && Lr0(g, cores) && Faithful(g, cores, cells) && Sound(g, cores, m) && x < g.nterminal
    requires CallTo(g, cells, depth, m, x, m')
    ensures Sound(g, cores, m') && (x == 0 ==> m'.stack == [])
  {
    var m0 := Ready(m);
    StartSound(g, cores);
    hide Valid, Lr0, Faithful, Sound;
    var n: nat, used :| CallIn(g, cells, depth, m0, x, m', n, used);
    assert AllBelow([x], g.nterminal);
    SoundAlong(g, cores, cells, depth, Conf(m0, [x]), n);
    if x == 0 { EndOfInput(g, cores, cells, depth, m0, m', n, used); }
  }

  lemma {:induction false} SoundAlong(g: Grammar, cores: seq<set<Item>>, cells: seq<seq<Cell>>, depth: nat, c: Conf,
                                      n: nat)
    requires Valid(g) && Lr0(g, cores) && Faithful(g, cores, cells) && Sound(g, cores, c.m)
             && AllBelow(c.input, g.nterminal)
    ensures Sound(g, cores, Steps(g, cells, depth, c, n).m)
    decreases n
  {
    hide Valid, Lr0, Faithful, Sound, Step;
    if n > 0 {
      if c.m.stack != [] && c.input != [] { StepSound(g, cores, cells, depth, c.m, c.input[0]); }
      SoundAlong(g, cores, cells, depth, StepConf(g, cells, depth, c), n - 1);
    }
  }

  lemma {:induction false} AllSound(g: Grammar, cores: seq<set<Item>>, cells: seq<seq<Cell>>, depth: nat, m: Parse,
                                    w: seq<nat>, m': Parse)
    requires Valid(g) && Lr0(g, cores) && Faithful(g, cores, cells) && Sound(g, cores, m) && AllBelow(w, g.nterminal)
    requires CallAll(g, cells, depth, m, w, m')
    ensures Sound(g, cores, m') && (w != [] && w[|w| - 1] == 0 ==> m'.stack == [])
    decreases |w|
  {
    hide Valid, Lr0, Faithful, Sound, CallTo;
    if w != [] {
      var m1 :| CallTo(g, cells, depth, m, w[0], m1) && CallAll(g, cells, depth, m1, w[1..], m');
      CallSound(g, cores, cells, depth, m, w[0], m1);
      AllSound(g, cores, cells, depth, m1, w[1..], m');
    }
  }

  lemma {:induction false} CallsSplit(g: Grammar, cells: seq<seq<Cell>>, depth: nat, m: Parse, v: seq<nat>, w: seq<nat>,
                                      m': Parse)
    requires CallAll(g, cells, depth, m, v + w, m')
    ensures exists m1 :: CallAll(g, cells, depth, m, v, m1) && CallAll(g, cells, depth, m1, w, m')
    decreases |v|
  {
    hide CallTo;
    if v == [] {
      assert v + w == w;
      assert CallAll(g, cells, depth, m, [], m);
    } else {
      assert (v + w)[0] == v[0] && (v + w)[1..] == v[1..] + w;
      var m1 :| CallTo(g, cells, depth, m, v[0], m1) && CallAll(g, cells, depth, m1, v[1..] + w, m');
      CallsSplit(g, cells, depth, m1, v[1..], w, m');
      var m2 :| CallAll(g, cells, depth, m1, v[1..], m2) && CallAll(g, cells, depth, m2, w, m');
      assert CallAll(g, cells, depth, m, v, m2);
    }
  }

  /** After the end of an input, whatever that was, the driver does on the next what a new parser does. */
  lemma NextInput(g: Grammar, cores: seq<set<Item>>, cells: seq<seq<Cell>>, depth: nat, m: Parse, v: seq<nat>,
                  w: seq<nat>, m': Parse)
    requires Valid(g) && Lr0(g, cores) && Faithful(g, cores, cells) && Sound(g, cores, m)
    requires AllBelow(v, g.nterminal) && w != [] && CallAll(g, cells, depth, m, v + [0] + w, m')
    ensures CallAll(g, cells, depth, Start(), w, m')
  {
    hide Sound, CallTo;
    assert 0 < g.nterminal;
    CallsSplit(g, cells, depth, m, v + [0], w, m');
    var m1 :| CallAll(g, cells, depth, m, v + [0], m1) && CallAll(g, cells, depth, m1, w, m');
    hide Valid, Lr0, Faithful;
    AllSound(g, cores, cells, depth, m, v + [0], m1);
    var m2 :| CallTo(g, cells, depth, m1, w[0], m2) && CallAll(g, cells, depth, m2, w[1..], m');
    FromNothing(g, cells, depth, m1, w[0], m2);
  }

  lemma FromNothing(g: Grammar, cells: seq<seq<Cell>>, depth: nat, m: Parse, x: nat, m': Parse)
    requires m.stack == [] && CallTo(g, cells, depth, m, x, m')
    ensures CallTo(g, cells, depth, Start(), x, m')
  {
    hide CallIn;
    assert Ready(m) == Ready(Start());
  }

  /** A call has one outcome. */
  lemma CallOnce(g: Grammar, cells: seq<seq<Cell>>, depth: nat, m: Parse, x: nat, m1: Parse, m2: Parse)
    requires CallTo(g, cells, depth, m, x, m1) && CallTo(g, cells, depth, m, x, m2)
    ensures m1 == m2
  {
    var m0 := Ready(m);
    hide Steps;
    var n1: nat, u1 :| CallIn(g, cells, depth, m0, x, m1, n1, u1);
    var n2: nat, u2 :| CallIn(g, cells, depth, m0, x, m2, n2, u2);
    var c := Conf(m0, [x]);
    assert Steps(g, cells, depth, c, n1).m == m1 && Steps(g, cells, depth, c, n2).m == m2;
    if n1 <= n2 {
      StepsAdd(g, cells, depth, c, n1, n2 - n1);
      End.Halted(g, cells, depth, Steps(g, cells, depth, c, n1), n2 - n1);
    } else {
      StepsAdd(g, cells, depth, c, n2, n1 - n2);
      End.Halted(g, cells, depth, Steps(g, cells, depth, c, n2), n1 - n2);
    }
  }
}
