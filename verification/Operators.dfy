/** What precedence and associativity do: which of the actions that a state could take on a token its cell holds. */
module Operators {
  import opened Grammars
  import opened Items
  import opened MergeSort
  import opened Structs
  import opened L = Lookaheads
  import opened M = Machine
  import A = Actions
  import States
  import Z = Compress

  // ----- the actions on one symbol -----

  /** The actions on symbol `x` stand together. */
  ghost predicate Group(raw: seq<Action>, x: nat, i: nat, e: nat) {
    i < e <= |raw| && forall k | 0 <= k < |raw| :: raw[k].sp == x <==> i <= k < e
  }

  lemma FindGroup(g: Grammar, raw: seq<Action>, a: Action) returns (i: nat, e: nat)
    requires A.Contest(g, raw) && a in raw
    ensures Group(raw, a.sp, i, e)
  {
    var x := a.sp;
    i := 0;
    while i < |raw| && raw[i].sp != x
      invariant i <= |raw| && forall k | 0 <= k < i :: raw[k].sp != x
    {
      i := i + 1;
    }
    e := i;
    while e < |raw| && raw[e].sp == x
      invariant i <= e <= |raw| && forall k | i <= k < e :: raw[k].sp == x
    {
      e := e + 1;
    }
    assert a in raw;
  }

  /** Just the two actions `a` and `b` are on their symbol. */
  lemma PairGroup(raw: seq<Action>, a: Action, b: Action, i: nat, e: nat)
    requires Distinct(raw) && Group(raw, a.sp, i, e) && a != b && a.sp == b.sp && a in raw && b in raw
    requires forall c | c in raw && c.sp == a.sp :: c == a || c == b
    ensures e == i + 2 && ((raw[i] == a && raw[i + 1] == b) || (raw[i] == b && raw[i + 1] == a))
  {
    var k :| 0 <= k < |raw| && raw[k] == a;
    var m :| 0 <= m < |raw| && raw[m] == b;
    forall n | i <= n < e ensures raw[n] == raw[k] || raw[n] == raw[m] {
      assert raw[n] in raw;
    }
    assert raw[i] == raw[k] || raw[i] == raw[m];
    assert i + 1 < e && (raw[i + 1] == raw[k] || raw[i + 1] == raw[m]);
    assert raw[e - 1] == raw[k] || raw[e - 1] == raw[m];
  }

  /** How many actions on the symbol have lost without a rule that decides. */
  ghost function Unsettled(ap: seq<Action>, x: nat): set<int> {
    set k | 0 <= k < |ap| && ap[k].sp == x
            && (ap[k].kind == SSConflict || ap[k].kind == SRConflict || ap[k].kind == RRConflict)
  }

  /** What becomes of two actions that are alone on their symbol. */
  lemma TwoResolved(g: Grammar, raw: seq<Action>, ap: seq<Action>, i: nat)
    requires A.ResolvedFrom(g, raw, ap) && i + 1 < |raw| && Group(raw, raw[i].sp, i, i + 2)
    ensures A.Judged(g, raw) && |ap| == |raw|
    ensures match A.Judge(g, raw[i], raw[i + 1])
            case FirstWins(k) => ap[i] == raw[i] && ap[i + 1] == raw[i + 1].(kind := k)
            case SecondWins(k) => ap[i] == raw[i].(kind := k) && ap[i + 1] == raw[i + 1]
    ensures forall k | 0 <= k < |ap| :: ap[k].sp == raw[i].sp <==> k == i || k == i + 1
  {
    hide A.Judge, A.Resolved;
    A.TwoMeet(g, raw, i, |raw|);
    forall k | 0 <= k < |ap| ensures ap[k].sp == raw[k].sp {
      A.SymbolsStay(g, raw, |raw|, k);
    }
  }

  /** The state has just these two actions on their symbol; then its list has them next to each other. */
  lemma Rivals(g: Grammar, cores: seq<set<Item>>, ss: seq<State>, q: nat, a: Action, b: Action)
    returns (raw: seq<Action>, i: nat)
    requires Z.AllActed(g, cores, ss) && q < |ss| && a != b && a.sp == b.sp
    requires forall c :: A.IsRaw(g, cores, q, c) && c.sp == a.sp <==> c == a || c == b
    ensures A.ResolvedFrom(g, raw, ss[q].ap) && i + 1 < |raw| && Group(raw, a.sp, i, i + 2)
    ensures (raw[i] == a && raw[i + 1] == b) || (raw[i] == b && raw[i + 1] == a)
  {
    hide A.IsRaw, A.Resolved, A.Judge;
    assert A.Acted(g, cores, q, ss[q].ap);
    raw :| A.Raw(g, cores, q, raw) && A.ResolvedFrom(g, raw, ss[q].ap);
    assert A.IsRaw(g, cores, q, a) && A.IsRaw(g, cores, q, b);
    var e;
    i, e := FindGroup(g, raw, a);
    forall c | c in raw && c.sp == a.sp ensures c == a || c == b {
      assert A.IsRaw(g, cores, q, c);
    }
    PairGroup(raw, a, b, i, e);
  }

  /** The cell holds the live one of the two. */
  lemma LiveOfTwo(g: Grammar, cores: seq<set<Item>>, ss: seq<State>, q: nat, a: Action)
    requires Z.AllActed(g, cores, ss) && q < |ss| && a in ss[q].ap && A.Live(a) && a.sp < g.nsymbol
    ensures Lookup(Z.Table(g, ss), q, a.sp) == Z.CellOf(Some(a))
  {
    hide A.Acted, A.UniqueLive, Z.CellOf;
    assert A.Acted(g, cores, q, ss[q].ap);
    A.ActedLive(g, cores, q, ss[q].ap);
    Z.FindLiveIs(ss[q].ap, a.sp);
    assert Z.IsLive(ss[q].ap, a);
    Z.TableCell(g, ss, q, a.sp);
  }

  /** A shift and a reduction. When the token and the rule both have a precedence, the tighter one wins, and of two that
      bind equally the reduction if the token associates to the left, the shift if to the right; if it does not
      associate, or one has no precedence, the shift stays and the state is left with a conflict. */
  lemma ShiftOrReduce(g: Grammar, cores: seq<set<Item>>, ss: seq<State>, q: nat, x: nat, j: nat, r: nat)
    requires Valid(g) && Lr0(g, cores) && Z.AllActed(g, cores, ss) && q < |ss| && x < g.nterminal && r < |g.rules|
    requires forall c :: A.IsRaw(g, cores, q, c) && c.sp == x <==> c == Action(x, Shift, j) || c == Action(x, Reduce, r)
    ensures x < |g.prec| == |g.assoc| && forall s | g.rules[r].precsym == Some(s) :: s < |g.prec|
    ensures var cell := Lookup(Z.Table(g, ss), q, x);
            var conflicts := |set k | 0 <= k < |ss[q].ap| && ss[q].ap[k].sp == x
                                     && (ss[q].ap[k].kind == SSConflict || ss[q].ap[k].kind == SRConflict
                                         || ss[q].ap[k].kind == RRConflict)|;
            match g.rules[r].precsym
            case None => cell == ShiftTo(j) && conflicts == 1
            case Some(s) =>
              if g.prec[x] < 0 || g.prec[s] < 0 then cell == ShiftTo(j) && conflicts == 1
              else if g.prec[s] > g.prec[x] then cell == ReduceBy(r) && conflicts == 0
              else if g.prec[s] < g.prec[x] then cell == ShiftTo(j) && conflicts == 0
              else match g.assoc[x]
                   case Left => cell == ReduceBy(r) && conflicts == 0
                   case Right => cell == ShiftTo(j) && conflicts == 0
                   case NonAssoc => cell == ShiftTo(j) && conflicts == 1
                   case Unknown => false
  {
    var a, b := Action(x, Shift, j), Action(x, Reduce, r);
    Precedences(g, x, r);
    hide Valid, Lr0, A.IsRaw, Lookup, Z.Table;
    var raw, i := Rivals(g, cores, ss, q, a, b);
    assert raw[i] == a && raw[i + 1] == b by { ShiftFirst(g, raw, i); }
    TwoResolved(g, raw, ss[q].ap, i);
    A.JudgeShift(g, a, b);
    hide A.Judge, A.ResolvedFrom;
    var ap := ss[q].ap;
    var live := if A.Judge(g, a, b).FirstWins? then ap[i] else ap[i + 1];
    LiveOfTwo(g, cores, ss, q, live);
    CountTwo(ap, x, i);
  }

  lemma Precedences(g: Grammar, x: nat, r: nat)
    requires Valid(g) && x < g.nterminal && r < |g.rules|
    ensures x < g.nsymbol == |g.prec| == |g.assoc| && (g.prec[x] >= 0 ==> g.assoc[x] != Unknown)
    ensures forall s | g.rules[r].precsym == Some(s) :: s < |g.prec|
  {
    assert ValidRule(g, g.rules[r]);
  }

  lemma ShiftFirst(g: Grammar, raw: seq<Action>, i: nat)
    requires A.Contest(g, raw) && i + 1 < |raw| && raw[i].sp == raw[i + 1].sp
    ensures raw[i + 1].kind == Reduce
  {
  }

  lemma CountTwo(ap: seq<Action>, x: nat, i: nat)
    requires i + 1 < |ap| && forall k | 0 <= k < |ap| :: ap[k].sp == x <==> k == i || k == i + 1
    ensures |Unsettled(ap, x)| == (if A.InConflict(ap[i]) then 1 else 0) + if A.InConflict(ap[i + 1]) then 1 else 0
  {
    assert Unsettled(ap, x) == (if A.InConflict(ap[i]) then {i} else {})
                               + if A.InConflict(ap[i + 1]) then {i + 1 as int} else {};
  }

  /** Two reductions. When both rules have a precedence, the tighter one wins; otherwise, or if they bind equally, the
      earlier rule stays and the state is left with a conflict. */
  lemma ReduceOrReduce(g: Grammar, cores: seq<set<Item>>, ss: seq<State>, q: nat, x: nat, r: nat, s: nat)
    requires Valid(g) && Lr0(g, cores) && Z.AllActed(g, cores, ss) && q < |ss| && x < g.nterminal && r < s < |g.rules|
    requires forall c :: A.IsRaw(g, cores, q, c) && c.sp == x <==>
               c == Action(x, Reduce, r) || c == Action(x, Reduce, s)
    ensures forall t, y | (t == r || t == s) && g.rules[t].precsym == Some(y) :: y < |g.prec|
    ensures var cell := Lookup(Z.Table(g, ss), q, x);
            var conflicts := |set k | 0 <= k < |ss[q].ap| && ss[q].ap[k].sp == x
                                     && (ss[q].ap[k].kind == SSConflict || ss[q].ap[k].kind == SRConflict
                                         || ss[q].ap[k].kind == RRConflict)|;
            if g.rules[r].precsym.Some? && g.rules[s].precsym.Some?
               && g.prec[g.rules[r].precsym.value] >= 0 && g.prec[g.rules[s].precsym.value] >= 0
               && g.prec[g.rules[r].precsym.value] != g.prec[g.rules[s].precsym.value]
            then
              && conflicts == 0
              && cell == ReduceBy(if g.prec[g.rules[r].precsym.value] > g.prec[g.rules[s].precsym.value] then r else s)
            else cell == ReduceBy(r) && conflicts == 1
  {
    var a, b := Action(x, Reduce, r), Action(x, Reduce, s);
    Precedences(g, x, r);
    Precedences(g, x, s);
    hide Valid, Lr0, A.IsRaw, Lookup, Z.Table;
    var raw, i := Rivals(g, cores, ss, q, a, b);
    assert A.Actioncmp(raw[i], raw[i + 1]) <= 0;
    TwoResolved(g, raw, ss[q].ap, i);
    A.JudgeReduce(g, a, b);
    hide A.Judge, A.ResolvedFrom;
    var ap := ss[q].ap;
    var live := if A.Judge(g, a, b).FirstWins? then ap[i] else ap[i + 1];
    LiveOfTwo(g, cores, ss, q, live);
    CountTwo(ap, x, i);
  }

  // ----- any number of actions, and no precedence -----

  /** Neither precedence nor associativity says which of the two it is to be. */
  ghost predicate Open(g: Grammar, a: Action, b: Action) {
    && (a.kind == Shift && b.kind == Reduce && b.target < |g.rules| ==>
          match g.rules[b.target].precsym
          case None => true
          case Some(s) => s < |g.prec| && a.sp < |g.prec| && (g.prec[s] < 0 || g.prec[a.sp] < 0))
    && (a.kind == Reduce && b.kind == Reduce && a.target < |g.rules| && b.target < |g.rules| ==>
          match (g.rules[a.target].precsym, g.rules[b.target].precsym)
          case (Some(s), Some(t)) => s < |g.prec| && t < |g.prec| && (g.prec[s] < 0 || g.prec[t] < 0)
          case _ => true)
  }

  lemma OpenUndecided(g: Grammar, a: Action, b: Action)
    requires Valid(g) && Open(g, a, b) && a.sp < g.nsymbol && b.kind == Reduce && (a.kind == Shift || a.kind == Reduce)
    ensures A.Undecided(g, a, b)
  {
  }

  /** Where nothing decides, the shift stays, or the earliest rule if there is none, and every other action on the
      symbol is a conflict. */
  lemma NothingDecides(g: Grammar, cores: seq<set<Item>>, ss: seq<State>, q: nat, a: Action)
    requires Valid(g) && Lr0(g, cores) && Z.AllActed(g, cores, ss) && q < |ss| && a.sp < g.nterminal
    requires A.IsRaw(g, cores, q, a) && a.kind != Accept
    requires forall b | A.IsRaw(g, cores, q, b) && b.sp == a.sp && b != a ::
               b.kind == Reduce && Open(g, a, b) && (a.kind == Reduce ==> a.target < b.target)
    ensures Lookup(Z.Table(g, ss), q, a.sp) == if a.kind == Shift then ShiftTo(a.target) else ReduceBy(a.target)
    ensures |set k | 0 <= k < |ss[q].ap| && ss[q].ap[k].sp == a.sp
                     && (ss[q].ap[k].kind == SSConflict || ss[q].ap[k].kind == SRConflict
                         || ss[q].ap[k].kind == RRConflict)| + 1
         == |set k | 0 <= k < |ss[q].ap| && ss[q].ap[k].sp == a.sp|
  {
    FirstOfAll(g, cores, ss, q, a);
    hide Valid, Lr0, Z.AllActed, A.IsRaw, Open, Lookup, Z.Table;
  }

  ghost function On(ap: seq<Action>, x: nat): set<int> {
    set k | 0 <= k < |ap| && ap[k].sp == x
  }

  lemma FirstOfAll(g: Grammar, cores: seq<set<Item>>, ss: seq<State>, q: nat, a: Action)
    requires Valid(g) && Lr0(g, cores) && Z.AllActed(g, cores, ss) && q < |ss| && a.sp < g.nterminal
    requires A.IsRaw(g, cores, q, a) && a.kind != Accept
    requires forall b | A.IsRaw(g, cores, q, b) && b.sp == a.sp && b != a ::
               b.kind == Reduce && Open(g, a, b) && (a.kind == Reduce ==> a.target < b.target)
    ensures Lookup(Z.Table(g, ss), q, a.sp) == if a.kind == Shift then ShiftTo(a.target) else ReduceBy(a.target)
    ensures |Unsettled(ss[q].ap, a.sp)| + 1 == |On(ss[q].ap, a.sp)|
  {
    hide Lr0, A.Resolved, A.Judge, Lookup, Z.Table, Open, A.IsRaw, A.ResolvedFrom, A.Raw, Unsettled, On, A.Acted;
    TerminalBelow(g, a.sp);
    var raw, i, e := UndecidedGroup(g, cores, ss, q, a);
    hide Valid, Z.AllActed, Group, A.Judged;
    FirstLeft(g, raw, ss[q].ap, i, e);
    LiveOfTwo(g, cores, ss, q, a);
  }

  lemma UndecidedGroup(g: Grammar, cores: seq<set<Item>>, ss: seq<State>, q: nat, a: Action)
    returns (raw: seq<Action>, i: nat, e: nat)
    requires Valid(g) && Lr0(g, cores) && Z.AllActed(g, cores, ss) && q < |ss| && a.sp < g.nterminal
    requires A.IsRaw(g, cores, q, a) && a.kind != Accept
    requires forall b | A.IsRaw(g, cores, q, b) && b.sp == a.sp && b != a ::
               b.kind == Reduce && Open(g, a, b) && (a.kind == Reduce ==> a.target < b.target)
    ensures A.ResolvedFrom(g, raw, ss[q].ap) && Group(raw, a.sp, i, e) && raw[i] == a
            && (a.kind == Shift || a.kind == Reduce)
    ensures forall k | i < k < e :: A.Undecided(g, raw[i], raw[k])
  {
    hide Valid, Lr0, A.Raw, A.ResolvedFrom, Open, A.IsRaw, A.Undecided;
    raw := RawOf(g, cores, ss, q);
    A.RawSymbol(g, cores, q, a);
    i, e := FirstInGroup(g, cores, q, raw, a);
    forall k | i < k < e ensures A.Undecided(g, raw[i], raw[k]) {
      RawMemberOf(g, cores, q, raw, a.sp, i, e, k);
      TerminalBelow(g, a.sp);
      OpenUndecided(g, a, raw[k]);
    }
  }

  lemma RawOf(g: Grammar, cores: seq<set<Item>>, ss: seq<State>, q: nat) returns (raw: seq<Action>)
    requires Z.AllActed(g, cores, ss) && q < |ss|
    ensures A.Raw(g, cores, q, raw) && A.ResolvedFrom(g, raw, ss[q].ap) && A.Contest(g, raw)
            && Sorted(A.Actioncmp, raw)
  {
    hide A.Raw, A.Resolved;
    assert A.Acted(g, cores, q, ss[q].ap);
    raw :| A.Raw(g, cores, q, raw) && A.ResolvedFrom(g, raw, ss[q].ap);
  }

  lemma RawMemberOf(g: Grammar, cores: seq<set<Item>>, q: nat, raw: seq<Action>, x: nat, i: nat, e: nat, k: nat)
    requires A.Raw(g, cores, q, raw) && Group(raw, x, i, e) && i <= k < e
    ensures A.IsRaw(g, cores, q, raw[k]) && raw[k].sp == x
  {
    hide A.IsRaw;
    assert raw[k] in raw;
  }

  lemma FirstLeft(g: Grammar, raw: seq<Action>, ap: seq<Action>, i: nat, e: nat)
    requires A.ResolvedFrom(g, raw, ap) && i < e <= |raw| && Group(raw, raw[i].sp, i, e)
             && (raw[i].kind == Shift || raw[i].kind == Reduce)
    requires forall k | i < k < e :: A.Undecided(g, raw[i], raw[k])
    ensures raw[i] in ap && |Unsettled(ap, raw[i].sp)| + 1 == |On(ap, raw[i].sp)|
  {
    hide A.Resolved, A.Judge, Unsettled, On;
    A.FirstStays(g, raw, i, e);
    GroupResolved(g, raw, ap, i, e);
    AllButFirst(ap, raw[i].sp, i, e);
  }

  /** No other action on the symbol stands before it. */
  lemma ComesFirst(g: Grammar, cores: seq<set<Item>>, q: nat, a: Action, b: Action)
    requires A.IsRaw(g, cores, q, a) && (a.kind == Shift || a.kind == Reduce) && A.IsRaw(g, cores, q, b) && b.sp == a.sp
    requires b == a || (b.kind == Reduce && (a.kind == Reduce ==> a.target < b.target))
    ensures b == a || A.Actioncmp(b, a) > 0
  {
    hide A.IsRaw;
  }

  lemma TerminalBelow(g: Grammar, x: nat)
    requires Valid(g) && x < g.nterminal
    ensures x < g.nsymbol
  {
  }

  lemma FirstInGroup(g: Grammar, cores: seq<set<Item>>, q: nat, raw: seq<Action>, a: Action) returns (i: nat, e: nat)
    requires A.Raw(g, cores, q, raw) && A.Contest(g, raw) && Sorted(A.Actioncmp, raw) && A.IsRaw(g, cores, q, a)
    requires a.kind == Shift || a.kind == Reduce
    requires forall b | A.IsRaw(g, cores, q, b) && b.sp == a.sp && b != a ::
               b.kind == Reduce && (a.kind == Reduce ==> a.target < b.target)
    ensures Group(raw, a.sp, i, e) && raw[i] == a
    ensures forall k | i < k < e :: raw[k] != a
  {
    hide A.IsRaw;
    i, e := FindGroup(g, raw, a);
    var k :| 0 <= k < |raw| && raw[k] == a;
    assert A.IsRaw(g, cores, q, raw[i]);
    assert i < k ==> A.Actioncmp(raw[i], a) <= 0;
    ComesFirst(g, cores, q, a, raw[i]);
  }

  lemma GroupResolved(g: Grammar, raw: seq<Action>, ap: seq<Action>, i: nat, e: nat)
    requires A.ResolvedFrom(g, raw, ap) && i < e <= |raw| && Group(raw, raw[i].sp, i, e)
    ensures A.Judged(g, raw) && |ap| == |raw|
    ensures forall k | i <= k < e :: ap[k] == A.Resolved(g, raw, e)[k]
    ensures forall k | 0 <= k < |ap| :: ap[k].sp == raw[i].sp <==> i <= k < e
  {
    hide A.Judge, A.Resolved;
    forall k | i <= k < e ensures ap[k] == A.Resolved(g, raw, e)[k] {
      A.GroupStays(g, raw, e, |raw|, k);
    }
    forall k | 0 <= k < |ap| ensures ap[k].sp == raw[k].sp {
      A.SymbolsStay(g, raw, |raw|, k);
    }
  }

  lemma AllButFirst(ap: seq<Action>, x: nat, i: nat, e: nat)
    requires i < e <= |ap| && (forall k | 0 <= k < |ap| :: ap[k].sp == x <==> i <= k < e) && A.Live(ap[i])
    requires forall k | i < k < e :: A.IsConflict(ap[k].kind)
    ensures |Unsettled(ap, x)| + 1 == |On(ap, x)|
  {
    assert On(ap, x) == Unsettled(ap, x) + {i as int};
    assert i !in Unsettled(ap, x);
  }
}
