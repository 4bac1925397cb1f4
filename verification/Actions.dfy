/** FindActions: reduce actions from follow sets, and the resolution of all conflicts. */
module Actions {
  import opened Grammars
  import opened Items
  import opened MergeSort
  import opened Structs
  import States
  import F = FollowSets
  import L = Lookaheads

  predicate Live(a: Action) {
    a.kind == Shift || a.kind == Reduce || a.kind == Accept
  }

  /** The action types in the order in which they sort. */
  function Ordinal(k: ActionType): nat {
    match k
    case Shift => 0
    case Accept => 1
    case Reduce => 2
    case Error => 3
    case SSConflict => 4
    case SRConflict => 5
    case RRConflict => 6
    case ShResolved => 7
    case RdResolved => 8
    case NotUsed => 9
  }

  /** Two actions that agree in all that is compared here are ordered by address: see ActioncmpAt. */
  function Actioncmp(a: Action, b: Action): int {
    if a.sp != b.sp then a.sp - b.sp
    else if a.kind != b.kind then Ordinal(a.kind) - Ordinal(b.kind)
    else if a.kind == Reduce then a.target - b.target
    else 0
  }

  /** The whole comparison, for actions that lie at the given addresses. */
  function ActioncmpAt(address: Action -> int, a: Action, b: Action): int {
    var rc := Actioncmp(a, b);
    if rc == 0 then address(b) - address(a) else rc
  }

  lemma OrdinalInjective(a: ActionType, b: ActionType)
    ensures Ordinal(a) == Ordinal(b) ==> a == b
  {
  }

  lemma ActioncmpOrders()
    ensures Ordering(Actioncmp)
  {
    forall a, b, c | Actioncmp(a, b) <= 0 && Actioncmp(b, c) <= 0 ensures Actioncmp(a, c) <= 0 {
      OrdinalInjective(a.kind, b.kind);
      OrdinalInjective(b.kind, c.kind);
      OrdinalInjective(a.kind, c.kind);
    }
    forall a, b ensures Actioncmp(a, b) <= 0 || Actioncmp(b, a) <= 0 {
      OrdinalInjective(a.kind, b.kind);
    }
  }

  /** Wherever the actions lie. */
  lemma ActioncmpAtOrders(address: Action -> int)
    ensures Ordering((a, b) => ActioncmpAt(address, a, b))
  {
    ActioncmpOrders();
    forall a, b | Actioncmp(a, b) == 0 ensures Actioncmp(b, a) == 0 {
      ZeroBothWays(a, b);
    }
    var cmp := (a, b) => ActioncmpAt(address, a, b);
    forall a, b, c | cmp(a, b) <= 0 && cmp(b, c) <= 0 ensures cmp(a, c) <= 0 {
      hide Actioncmp;
      assert Actioncmp(a, b) <= 0 && Actioncmp(b, c) <= 0;
      if Actioncmp(a, c) == 0 {
        assert Actioncmp(c, a) == 0;
        assert Actioncmp(b, a) <= 0 && Actioncmp(c, b) <= 0;
        ZeroOrder(a, b);
        ZeroOrder(b, c);
      }
    }
  }

  lemma ZeroBothWays(a: Action, b: Action)
    requires Actioncmp(a, b) == 0
    ensures Actioncmp(b, a) == 0
  {
    OrdinalInjective(a.kind, b.kind);
  }

  lemma ZeroOrder(a: Action, b: Action)
    requires Actioncmp(a, b) <= 0 && Actioncmp(b, a) <= 0
    ensures Actioncmp(a, b) == 0
  {
    OrdinalInjective(a.kind, b.kind);
  }

  // ----- resolve_conflict -----

  function Prec(g: Grammar, x: nat): int {
    if x < |g.prec| then g.prec[x] else -1
  }

  function RulePrec(g: Grammar, r: nat): int {
    if r < |g.rules| && g.rules[r].precsym.Some? then Prec(g, g.rules[r].precsym.value) else -1
  }

  /** The documented outcome of a conflict between two live actions, the first not after the second in sorted order. */
  datatype Verdict = FirstWins(loser: ActionType) | SecondWins(loser: ActionType)

  function Judge(g: Grammar, x: Action, y: Action): Verdict
    requires x.sp < |g.assoc|
  {
    if x.kind == Shift && y.kind == Shift then FirstWins(SSConflict)
    else if x.kind == Shift && y.kind == Reduce then
      var px, py := Prec(g, x.sp), RulePrec(g, y.target);
      if px < 0 || py < 0 then FirstWins(SRConflict)
      else if px > py then FirstWins(RdResolved)
      else if px < py then SecondWins(ShResolved)
      else if g.assoc[x.sp] == Right then FirstWins(RdResolved)
      else if g.assoc[x.sp] == Left then SecondWins(ShResolved)
      else FirstWins(SRConflict)
    else
      var px, py := RulePrec(g, x.target), RulePrec(g, y.target);
      if px < 0 || py < 0 || px == py then FirstWins(RRConflict)
      else if px > py then FirstWins(RdResolved)
      else SecondWins(RdResolved)
  }

  predicate SettledKind(k: ActionType) {
    k == SSConflict || k == SRConflict || k == RRConflict || k == ShResolved || k == RdResolved
  }

  /** The types that leave a conflict unresolved, to be reported and counted. */
  predicate IsConflict(k: ActionType) {
    k == SSConflict || k == SRConflict || k == RRConflict
  }

  function Conflicts(ap: seq<Action>): nat {
    if ap == [] then 0 else Conflicts(ap[..|ap| - 1]) + if IsConflict(ap[|ap| - 1].kind) then 1 else 0
  }

  lemma {:induction false} ConflictsUpdate(ap: seq<Action>, l: nat, a: Action)
    requires l < |ap| && !IsConflict(ap[l].kind)
    ensures Conflicts(ap[l := a]) == Conflicts(ap) + if IsConflict(a.kind) then 1 else 0
    decreases |ap|
  {
    var n, ap' := |ap| - 1, ap[l := a];
    if l == n {
      assert ap'[..n] == ap[..n];
    } else {
      ConflictsUpdate(ap[..n], l, a);
      assert ap'[..n] == ap[..n][l := a];
    }
  }

  predicate InConflict(a: Action) {
    a.kind == SSConflict || a.kind == SRConflict || a.kind == RRConflict
  }

  /** Counting conflicts is counting the actions that lost without a rule that decides. */
  lemma {:induction false} ConflictsAre(ap: seq<Action>)
    ensures Conflicts(ap) == |set k | 0 <= k < |ap| && InConflict(ap[k])|
    decreases |ap|
  {
    if ap != [] {
      var n := |ap| - 1;
      ConflictsAre(ap[..n]);
      assert (set k | 0 <= k < |ap| && InConflict(ap[k])) ==
             (set k | 0 <= k < n && InConflict(ap[..n][k])) + if InConflict(ap[n]) then {n} else {};
    }
  }

  lemma {:induction false} NoConflicts(ap: seq<Action>)
    requires forall k | 0 <= k < |ap| :: Live(ap[k])
    ensures Conflicts(ap) == 0
    decreases |ap|
  {
    if ap != [] { NoConflicts(ap[..|ap| - 1]); }
  }

  /** What the caller guarantees about two actions on one symbol: a SHIFT stands first, and any other pair contains an
      action that has lost already. */
  predicate Comparable(g: Grammar, x: Action, y: Action) {
    && x.sp == y.sp && x.sp < |g.assoc|
    && ((x.kind == Shift && y.kind == Shift) || (x.kind == Shift && y.kind == Reduce)
        || (x.kind == Reduce && y.kind == Reduce)
        || SettledKind(x.kind) || SettledKind(y.kind))
  }

  /** Token `x` and rule `r` both have a precedence. */
  predicate BothPrec(g: Grammar, x: nat, r: nat) {
    && x < |g.prec| && g.prec[x] >= 0 && r < |g.rules| && g.rules[r].precsym.Some?
    && g.rules[r].precsym.value < |g.prec| && g.prec[g.rules[r].precsym.value] >= 0
  }

  /** Both rules have a precedence, and not the same. */
  predicate RulesDiffer(g: Grammar, r: nat, s: nat) {
    && r < |g.rules| && g.rules[r].precsym.Some? && g.rules[r].precsym.value < |g.prec|
    && s < |g.rules| && g.rules[s].precsym.Some? && g.rules[s].precsym.value < |g.prec|
    && g.prec[g.rules[r].precsym.value] >= 0 && g.prec[g.rules[s].precsym.value] >= 0
    && g.prec[g.rules[r].precsym.value] != g.prec[g.rules[s].precsym.value]
  }

  lemma JudgeReduce(g: Grammar, x: Action, y: Action)
    requires Valid(g) && x.sp < |g.assoc| && x.kind == Reduce && y.kind == Reduce
    ensures RulesDiffer(g, x.target, y.target) ==>
              Judge(g, x, y) == if g.prec[g.rules[x.target].precsym.value] > g.prec[g.rules[y.target].precsym.value]
                                then FirstWins(RdResolved) else SecondWins(RdResolved)
    ensures !RulesDiffer(g, x.target, y.target) ==> Judge(g, x, y) == FirstWins(RRConflict)
  {
  }

  lemma JudgeShift(g: Grammar, x: Action, y: Action)
    requires Valid(g) && x.sp < |g.assoc| && x.kind == Shift && y.kind == Reduce
    ensures BothPrec(g, x.sp, y.target) ==>
              var p, r := g.prec[x.sp], g.prec[g.rules[y.target].precsym.value];
              && (r > p || (r == p && g.assoc[x.sp] == Left) ==> Judge(g, x, y) == SecondWins(ShResolved))
              && (r < p || (r == p && g.assoc[x.sp] == Right) ==> Judge(g, x, y) == FirstWins(RdResolved))
              && (r == p && g.assoc[x.sp] == NonAssoc ==> Judge(g, x, y) == FirstWins(SRConflict))
    ensures !BothPrec(g, x.sp, y.target) ==> Judge(g, x, y) == FirstWins(SRConflict)
  {
  }

  /** One of two live actions loses, by the documented rule; if either has lost before, nothing changes. */
  method ResolveConflict(g: Grammar, apx: Action, apy: Action) returns (apx': Action, apy': Action, errcnt: nat)
    requires Valid(g) && Comparable(g, apx, apy)
    ensures Live(apx) && Live(apy) ==>
              match Judge(g, apx, apy)
              case FirstWins(k) => apx' == apx && apy' == apy.(kind := k) && SettledKind(k)
                  && errcnt == (if IsConflict(k) then 1 else 0)
              case SecondWins(k) =>
                apy' == apy && apx' == apx.(kind := k) && SettledKind(k) && !IsConflict(k) && errcnt == 0
    ensures !(Live(apx) && Live(apy)) ==> apx' == apx && apy' == apy && errcnt == 0
    ensures apx.kind == Shift && apy.kind == Reduce && BothPrec(g, apx.sp, apy.target) ==>
              var p, r := g.prec[apx.sp], g.prec[g.rules[apy.target].precsym.value];
              && (r > p || (r == p && g.assoc[apx.sp] == Left) ==>
                    apx' == apx.(kind := ShResolved) && apy' == apy && errcnt == 0)
              && (r < p || (r == p && g.assoc[apx.sp] == Right) ==>
                    apx' == apx && apy' == apy.(kind := RdResolved) && errcnt == 0)
              && (r == p && g.assoc[apx.sp] == NonAssoc ==>
                    apx' == apx && apy' == apy.(kind := SRConflict) && errcnt == 1)
    ensures apx.kind == Shift && apy.kind == Reduce && !BothPrec(g, apx.sp, apy.target) ==>
              apx' == apx && apy' == apy.(kind := SRConflict) && errcnt == 1
    ensures apx.kind == Reduce && apy.kind == Reduce && RulesDiffer(g, apx.target, apy.target) ==>
              if g.prec[g.rules[apx.target].precsym.value] > g.prec[g.rules[apy.target].precsym.value] then
                apx' == apx && apy' == apy.(kind := RdResolved) && errcnt == 0
              else
                apx' == apx.(kind := RdResolved) && apy' == apy && errcnt == 0
    ensures apx.kind == Reduce && apy.kind == Reduce && !RulesDiffer(g, apx.target, apy.target) ==>
              apx' == apx && apy' == apy.(kind := RRConflict) && errcnt == 1
  {
    apx', apy', errcnt := apx, apy, 0;
    if apx.kind == Shift && apy.kind == Shift {
      apy' := apy.(kind := SSConflict);
      errcnt := errcnt + 1;
    }
    if apx'.kind == Shift && apy'.kind == Reduce {
      var spx := apx.sp;
      var spy := if apy.target < |g.rules| then g.rules[apy.target].precsym else None;
      if spy.None? || g.prec[spx] < 0 || Prec(g, spy.value) < 0 {
        apy' := apy.(kind := SRConflict);
        errcnt := errcnt + 1;
      } else if g.prec[spx] > Prec(g, spy.value) {
        apy' := apy.(kind := RdResolved);
      } else if g.prec[spx] < Prec(g, spy.value) {
        apx' := apx.(kind := ShResolved);
      } else if g.prec[spx] == Prec(g, spy.value) && g.assoc[spx] == Right {
        apy' := apy.(kind := RdResolved);
      } else if g.prec[spx] == Prec(g, spy.value) && g.assoc[spx] == Left {
        apx' := apx.(kind := ShResolved);
      } else {
        assert g.prec[spx] == Prec(g, spy.value) && g.assoc[spx] == NonAssoc;
        apy' := apy.(kind := SRConflict);
        errcnt := errcnt + 1;
      }
    } else if apx'.kind == Reduce && apy'.kind == Reduce {
      var px, py := RulePrec(g, apx.target), RulePrec(g, apy.target);
      if px < 0 || py < 0 || px == py {
        apy' := apy.(kind := RRConflict);
        errcnt := errcnt + 1;
      } else if px > py {
        apy' := apy.(kind := RdResolved);
      } else if px < py {
        apx' := apx.(kind := RdResolved);
      }
    } else {
      assert SettledKind(apx'.kind) || SettledKind(apy'.kind);
    }
  }

  // ----- all pairs -----

  /** A sorted list in which only SHIFT, REDUCE and ACCEPT occur, no symbol has two SHIFTs, and ACCEPT is alone. */
  predicate Contest(g: Grammar, ap: seq<Action>) {
    && (forall i | 0 <= i < |ap| :: Live(ap[i]) && ap[i].sp < |g.assoc|)
    && (forall i, j | 0 <= i < j < |ap| :: ap[i].sp <= ap[j].sp)
    && (forall i, j | 0 <= i < j < |ap| && ap[i].sp == ap[j].sp ::
          ap[i].kind != Accept && ap[j].kind != Accept && (ap[i].kind == Shift || ap[i].kind == Reduce)
              && ap[j].kind == Reduce)
  }

  ghost predicate BothLive(ap: seq<Action>, k: int, m: int) {
    0 <= k < m < |ap| && ap[k].sp == ap[m].sp && Live(ap[k]) && Live(ap[m])
  }

  predicate Judged(g: Grammar, ap: seq<Action>) {
    forall k | 0 <= k < |ap| :: ap[k].sp < |g.assoc|
  }

  /** Action `d` has a rival on its symbol before it. */
  predicate Rivals(ap: seq<Action>, d: int) {
    0 < d < |ap| && ap[d].sp == ap[d - 1].sp
  }

  /** Of the first `n` actions those on the last symbol contend one after the other: the one that stands meets the
      next, by the documented rule, and the winner stands. */
  function Champion(g: Grammar, ap: seq<Action>, n: nat): (c: nat)
    requires Judged(g, ap) && 0 < n <= |ap|
    ensures c < n && ap[c].sp == ap[n - 1].sp
  {
    if !Rivals(ap, n - 1) then n - 1
    else
      var c := Champion(g, ap, n - 1);
      if Judge(g, ap[c], ap[n - 1]).FirstWins? then c else n - 1
  }

  /** The first `n` actions after these contests: every loser has the type that says how it lost. */
  function Resolved(g: Grammar, ap: seq<Action>, n: nat): (r: seq<Action>)
    requires Judged(g, ap) && n <= |ap|
    ensures |r| == n
  {
    if n == 0 then []
    else
      var r, y := Resolved(g, ap, n - 1), ap[n - 1];
      if !Rivals(ap, n - 1) then r + [y]
      else
        var c := Champion(g, ap, n - 1);
        match Judge(g, ap[c], y)
        case FirstWins(k) => r + [y.(kind := k)]
        case SecondWins(k) => r[c := ap[c].(kind := k)] + [y]
  }

  /** Action `k` lost to one that was standing, or to the next one, and got type `kind` for it. */
  ghost predicate LostAt(g: Grammar, ap: seq<Action>, d: int, k: int, kind: ActionType) {
    && Judged(g, ap) && Rivals(ap, d)
    && match Judge(g, ap[Champion(g, ap, d)], ap[d])
       case FirstWins(l) => k == d && kind == l
       case SecondWins(l) => k == Champion(g, ap, d) && kind == l
  }

  /** An action is as it was, or out with the type of a contest that it lost. */
  ghost predicate Fate(g: Grammar, ap: seq<Action>, k: nat, a: Action)
    requires k < |ap|
  {
    (a == ap[k] && Live(a)) || (SettledKind(a.kind) && a == ap[k].(kind := a.kind) && exists d ::
                                LostAt(g, ap, d, k, a.kind))
  }

  /** What one more action changes. */
  lemma OneMore(g: Grammar, ap: seq<Action>, n: nat, k: nat)
    requires Judged(g, ap) && k < n < |ap|
    ensures Resolved(g, ap, n + 1)[k] == if Rivals(ap, n) && k == Champion(g, ap, n) && k != Champion(g, ap, n + 1)
                                         then ap[k].(kind := Judge(g, ap[k], ap[n]).loser) else Resolved(g, ap, n)[k]
  {
  }

  lemma TheNewOne(g: Grammar, ap: seq<Action>, n: nat)
    requires Judged(g, ap) && n < |ap|
    ensures Resolved(g, ap, n + 1)[n] == if Rivals(ap, n) && n != Champion(g, ap, n + 1)
                                         then ap[n].(kind := Judge(g, ap[Champion(g, ap, n)], ap[n]).loser) else ap[n]
  {
  }

  /** Among the resolved actions on the last symbol exactly the champion is live; on every other symbol as before. */
  lemma {:induction false} ChampionStands(g: Grammar, ap: seq<Action>, n: nat, k: nat)
    requires Contest(g, ap) && 0 < n <= |ap| && k < n && ap[k].sp == ap[n - 1].sp
    ensures if k == Champion(g, ap, n) then Resolved(g, ap, n)[k] == ap[k] else !Live(Resolved(g, ap, n)[k])
    decreases n
  {
    hide Resolved, Judge;
    if k == n - 1 {
      TheNewOne(g, ap, n - 1);
      if Rivals(ap, n - 1) { JudgeSettles(g, ap[Champion(g, ap, n - 1)], ap[n - 1]); }
    } else {
      SameSymbolRivals(g, ap, n, k);
      OneMore(g, ap, n - 1, k);
      ChampionStands(g, ap, n - 1, k);
      JudgeSettles(g, ap[k], ap[n - 1]);
    }
  }

  lemma SameSymbolRivals(g: Grammar, ap: seq<Action>, n: nat, k: nat)
    requires Contest(g, ap) && k < n - 1 < |ap| && ap[k].sp == ap[n - 1].sp
    ensures Rivals(ap, n - 1)
  {
  }

  lemma {:induction false} FateOf(g: Grammar, ap: seq<Action>, n: nat, k: nat)
    requires Contest(g, ap) && k < n <= |ap|
    ensures Fate(g, ap, k, Resolved(g, ap, n)[k])
    decreases n
  {
    assert Judged(g, ap);
    hide Contest;
    if k < n - 1 { FateOf(g, ap, n - 1, k); }
    if Rivals(ap, n - 1) {
      var c := Champion(g, ap, n - 1);
      JudgeSettles(g, ap[c], ap[n - 1]);
      assert LostAt(g, ap, n - 1, if Judge(g, ap[c], ap[n - 1]).FirstWins? then n - 1 else c,
                    Judge(g, ap[c], ap[n - 1]).loser);
    }
  }

  lemma JudgeSettles(g: Grammar, x: Action, y: Action)
    requires x.sp < |g.assoc|
    ensures SettledKind(Judge(g, x, y).loser)
  {
  }

  ghost predicate LiveFor(ap: seq<Action>, m: int, x: nat) {
    0 <= m < |ap| && ap[m].sp == x && Live(ap[m])
  }

  ghost predicate HasLive(ap: seq<Action>, x: nat) {
    exists m :: LiveFor(ap, m, x)
  }

  /** What a contest leaves of the actions on other symbols. */
  lemma OthersStay(g: Grammar, ap: seq<Action>, n: nat, k: nat)
    requires Contest(g, ap) && k < n < |ap| && ap[k].sp != ap[n].sp
    ensures Resolved(g, ap, n + 1)[k] == Resolved(g, ap, n)[k]
  {
  }

  lemma {:induction false} SymbolsStay(g: Grammar, ap: seq<Action>, n: nat, k: nat)
    requires Judged(g, ap) && k < n <= |ap|
    ensures Resolved(g, ap, n)[k].sp == ap[k].sp
    decreases n
  {
    if k < n - 1 { SymbolsStay(g, ap, n - 1, k); }
  }

  /** No symbol has two live actions. */
  lemma {:induction false} OneStands(g: Grammar, ap: seq<Action>, n: nat, k: nat, m: nat)
    requires Contest(g, ap) && k < m < n <= |ap|
    ensures !BothLive(Resolved(g, ap, n), k, m)
    decreases n
  {
    assert Judged(g, ap);
    hide Resolved, Champion, Contest, Judged, Live;
    if ap[k].sp != ap[m].sp {
      SymbolsStay(g, ap, n, k);
      SymbolsStay(g, ap, n, m);
    } else if ap[m].sp == ap[n - 1].sp {
      ChampionStands(g, ap, n, k);
      ChampionStands(g, ap, n, m);
    } else {
      SymbolsStay(g, ap, n - 1, k);
      SymbolsStay(g, ap, n - 1, m);
      OthersStay(g, ap, n - 1, k);
      OthersStay(g, ap, n - 1, m);
      OneStands(g, ap, n - 1, k, m);
    }
  }

  /** On every symbol one stands. */
  lemma {:induction false} SomeStands(g: Grammar, ap: seq<Action>, n: nat, k: nat)
    requires Contest(g, ap) && k < n <= |ap|
    ensures HasLive(Resolved(g, ap, n), ap[k].sp)
    decreases n
  {
    hide Resolved;
    if ap[k].sp == ap[n - 1].sp {
      var c := Champion(g, ap, n);
      ChampionStands(g, ap, n, c);
      assert LiveFor(Resolved(g, ap, n), c, ap[k].sp);
    } else {
      SomeStands(g, ap, n - 1, k);
      var m :| LiveFor(Resolved(g, ap, n - 1), m, ap[k].sp);
      SymbolsStay(g, ap, n - 1, m);
      OthersStay(g, ap, n - 1, m);
      assert LiveFor(Resolved(g, ap, n), m, ap[k].sp);
    }
  }

  /** Two actions alone on their symbol meet once. */
  lemma {:induction false} TwoMeet(g: Grammar, ap: seq<Action>, i: nat, n: nat)
    requires Contest(g, ap) && i + 1 < n <= |ap| && ap[i].sp == ap[i + 1].sp
    requires (i > 0 ==> ap[i - 1].sp != ap[i].sp) && (i + 2 < |ap| ==> ap[i + 2].sp != ap[i].sp)
    ensures Judged(g, ap)
    ensures Resolved(g, ap, n)[i] == match Judge(g, ap[i], ap[i + 1])
                                     case FirstWins(_) => ap[i] case SecondWins(k) => ap[i].(kind := k)
    ensures Resolved(g, ap, n)[i + 1] == match Judge(g, ap[i], ap[i + 1])
                                         case FirstWins(k) => ap[i + 1].(kind := k) case SecondWins(_) => ap[i + 1]
    decreases n
  {
    hide Judge, Resolved;
    assert Judged(g, ap);
    if n > i + 2 {
      assert ap[n - 1].sp != ap[i].sp;
      TwoMeet(g, ap, i, n - 1);
      OthersStay(g, ap, n - 1, i);
      OthersStay(g, ap, n - 1, i + 1);
    } else {
      assert !Rivals(ap, i) && Champion(g, ap, i + 1) == i;
      TheNewOne(g, ap, i + 1);
      OneMore(g, ap, i + 1, i);
      TheNewOne(g, ap, i);
    }
  }

  /** The first action on a symbol stands as long as no later one is decided against it or for it. */
  ghost predicate Undecided(g: Grammar, x: Action, y: Action) {
    x.sp < |g.assoc| && Judge(g, x, y).FirstWins? && IsConflict(Judge(g, x, y).loser)
  }

  lemma {:induction false} FirstChampion(g: Grammar, ap: seq<Action>, i: nat, n: nat)
    requires Contest(g, ap) && i < n <= |ap| && ap[n - 1].sp == ap[i].sp && (i > 0 ==> ap[i - 1].sp != ap[i].sp)
    requires forall k | i < k < n :: Undecided(g, ap[i], ap[k])
    ensures Judged(g, ap) && Champion(g, ap, n) == i
    decreases n
  {
    hide Judge;
    assert Judged(g, ap);
    if n > i + 1 {
      assert ap[n - 2].sp == ap[i].sp;
      FirstChampion(g, ap, i, n - 1);
      assert Undecided(g, ap[i], ap[n - 1]);
    }
  }

  lemma {:induction false} FirstStays(g: Grammar, ap: seq<Action>, i: nat, n: nat)
    requires Contest(g, ap) && i < n <= |ap| && ap[n - 1].sp == ap[i].sp && (i > 0 ==> ap[i - 1].sp != ap[i].sp)
    requires forall k | i < k < n :: Undecided(g, ap[i], ap[k])
    ensures Judged(g, ap) && Champion(g, ap, n) == i && Resolved(g, ap, n)[i] == ap[i]
    ensures forall k | i < k < n :: IsConflict(Resolved(g, ap, n)[k].kind) && Resolved(g, ap, n)[k].sp == ap[i].sp
    decreases n
  {
    hide Judge, Resolved, Champion;
    FirstChampion(g, ap, i, n);
    if n == i + 1 {
      assert !Rivals(ap, i);
      TheNewOne(g, ap, i);
    } else {
      assert ap[n - 2].sp == ap[i].sp && Rivals(ap, n - 1);
      FirstStays(g, ap, i, n - 1);
      assert Undecided(g, ap[i], ap[n - 1]);
      TheNewOne(g, ap, n - 1);
      forall k | i <= k < n - 1 ensures Resolved(g, ap, n)[k] == Resolved(g, ap, n - 1)[k] {
        OneMore(g, ap, n - 1, k);
      }
    }
  }

  /** Later symbols change nothing. */
  lemma {:induction false} GroupStays(g: Grammar, ap: seq<Action>, e: nat, n: nat, k: nat)
    requires Contest(g, ap) && k < e <= n <= |ap| && (e < |ap| ==> ap[e].sp != ap[k].sp)
    ensures Judged(g, ap) && Resolved(g, ap, n)[k] == Resolved(g, ap, e)[k]
    decreases n
  {
    hide Judge, Resolved, Champion;
    assert Judged(g, ap);
    if n > e {
      GroupStays(g, ap, e, n - 1, k);
      OthersStay(g, ap, n - 1, k);
    }
  }

  // ----- all pairs -----

  /** The list when the contests among the first `m` actions have been held. */
  function Standing(g: Grammar, ap: seq<Action>, m: nat): (r: seq<Action>)
    requires Judged(g, ap) && m <= |ap|
    ensures |r| == |ap|
  {
    Resolved(g, ap, m) + ap[m..]
  }

  /** One pair: nothing happens unless the first is the one standing, and then it meets the next. */
  method ResolvePair(g: Grammar, ghost ap: seq<Action>, ap': seq<Action>, i: nat, j: nat, ghost m: nat)
    returns (ap'': seq<Action>, errcnt: nat)
    requires Valid(g) && Contest(g, ap) && i < m <= |ap| && ap' == Standing(g, ap, m) && i < j < |ap|
             && ap[i].sp == ap[j].sp
    requires Live(ap'[i]) ==> j == m && i == Champion(g, ap, m)
    ensures ap'' == Standing(g, ap, if Live(ap'[i]) then m + 1 else m) && Conflicts(ap'') == Conflicts(ap') + errcnt
  {
    PairComparable(g, ap, i, j, m);
    hide Contest, Valid, Judge, Champion, Resolved;
    var x, y;
    x, y, errcnt := ResolveConflict(g, ap'[i], ap'[j]);
    hide Comparable;
    ap'' := ap'[i := x][j := y];
    if Live(ap'[i]) {
      Meets(g, ap, i, m);
      if Judge(g, ap'[i], ap'[j]).FirstWins? {
        assert ap'' == ap'[j := y];
        ConflictsUpdate(ap', j, y);
      } else {
        assert ap'' == ap'[i := x];
        ConflictsUpdate(ap', i, x);
      }
    } else {
      assert ap'' == ap';
    }
  }

  lemma PairComparable(g: Grammar, ap: seq<Action>, i: nat, j: nat, m: nat)
    requires Contest(g, ap) && i < m <= |ap| && i < j < |ap| && ap[i].sp == ap[j].sp
    ensures var r := Standing(g, ap, m); Comparable(g, r[i], r[j])
  {
    FateOf(g, ap, m, i);
    if j < m { FateOf(g, ap, m, j); }
    hide Resolved;
  }

  /** The one standing meets the next. */
  lemma Meets(g: Grammar, ap: seq<Action>, i: nat, m: nat)
    requires Contest(g, ap) && 0 < m < |ap| && i == Champion(g, ap, m) && ap[i].sp == ap[m].sp
    ensures var r := Standing(g, ap, m); r[i] == ap[i] && r[m] == ap[m] && Live(r[i]) && Live(r[m])
    ensures var r := Standing(g, ap, m);
            Standing(g, ap, m + 1) ==
              match Judge(g, r[i], r[m])
              case FirstWins(k) => r[m := r[m].(kind := k)]
              case SecondWins(k) => r[i := r[i].(kind := k)]
  {
    ChampionStands(g, ap, m, i);
    hide Contest, Judge;
  }

  /** No more contests among the actions on the last symbol of the first `m`. */
  predicate BlockEnds(ap: seq<Action>, m: nat) {
    0 < m <= |ap| ==> !Rivals(ap, m)
  }

  /** Where the loops are when `ap` has come to action `i` of the list: the contests have been held up to some `m`,
      and the one standing is the last that was in one, or all contests on its symbol are over. */
  ghost predicate Reached(g: Grammar, ap: seq<Action>, i: nat, m: nat) {
    && Judged(g, ap) && i <= m <= |ap| && (i < m ==> ap[i].sp == ap[m - 1].sp)
    && (m > 0 ==> if Champion(g, ap, m) >= i then Champion(g, ap, m) == m - 1 else BlockEnds(ap, m))
  }

  /** The same within the row of action `i`, when `nap` has come to `j`. */
  ghost predicate InRow(g: Grammar, ap: seq<Action>, i: nat, j: nat, m: nat) {
    && Judged(g, ap) && i < m <= |ap| && i < j <= |ap| && ap[i].sp == ap[m - 1].sp
    && (if Champion(g, ap, m) == i then j == m
        else if Champion(g, ap, m) > i then Champion(g, ap, m) == m - 1
        else BlockEnds(ap, m))
  }

  lemma RowStarts(g: Grammar, ap: seq<Action>, i: nat, m: nat)
    requires Reached(g, ap, i, m) && i < |ap|
    ensures var m' := if i == m then m + 1 else m;
            m' <= |ap| && InRow(g, ap, i, i + 1, m') && Standing(g, ap, m') == Standing(g, ap, m)
  {
    if i == m {
      assert !Rivals(ap, i);
      assert [ap[i]] + ap[i + 1..] == ap[i..];
    }
  }

  lemma RowSteps(g: Grammar, ap: seq<Action>, i: nat, j: nat, m: nat)
    requires InRow(g, ap, i, j, m) && j < |ap| && ap[j].sp == ap[i].sp
    ensures InRow(g, ap, i, j + 1, if Champion(g, ap, m) == i then m + 1 else m) && (Champion(g, ap, m) == i ==> j == m)
  {
  }

  lemma RowEnds(g: Grammar, ap: seq<Action>, i: nat, j: nat, m: nat)
    requires Contest(g, ap) && InRow(g, ap, i, j, m) && (j < |ap| ==> ap[j].sp != ap[i].sp)
    ensures m <= |ap| && Reached(g, ap, i + 1, m)
  {
    hide Champion;
    assert i + 1 < m ==> ap[i].sp <= ap[i + 1].sp <= ap[m - 1].sp;
  }

  /** The action of the row is live exactly if it is the one standing. */
  lemma RowLive(g: Grammar, ap: seq<Action>, i: nat, j: nat, m: nat)
    requires Contest(g, ap) && InRow(g, ap, i, j, m)
    ensures Judged(g, ap) && i < m <= |ap| && j <= |ap| && (Live(Standing(g, ap, m)[i]) <==> Champion(g, ap, m) == i)
    ensures forall k | 0 <= k < |ap| :: Standing(g, ap, m)[k].sp == ap[k].sp
  {
    ChampionStands(g, ap, m, i);
    forall k: nat | k < m ensures Resolved(g, ap, m)[k].sp == ap[k].sp {
      SymbolsStay(g, ap, m, k);
    }
    hide Champion, Resolved;
  }

  /** All pairs of actions on one symbol: `ap` runs over the list and `nap` over the actions after it on its symbol. */
  method ResolveAll(g: Grammar, ap: seq<Action>) returns (ap': seq<Action>, nconflict: nat)
    requires Valid(g) && Contest(g, ap)
    ensures Judged(g, ap) && ap' == Resolved(g, ap, |ap|) && nconflict == Conflicts(ap')
  {
    hide Contest, Valid, Conflicts, Resolved, Champion, Standing, Judged, Live, Reached, InRow;
    NothingHeld(g, ap);
    ap', nconflict := ap, 0;
    ghost var m: nat := 0;
    for i := 0 to |ap|
      invariant m <= |ap| && Reached(g, ap, i, m) && ap' == Standing(g, ap, m) && nconflict == Conflicts(ap')
    {
      RowStarts(g, ap, i, m);
      if i == m { m := m + 1; }
      ap', nconflict, m := ResolveRow(g, ap, ap', i, nconflict, m);
    }
    AllHeld(g, ap, m);
  }

  /** One row of the pairs. */
  method ResolveRow(g: Grammar, ghost ap: seq<Action>, list: seq<Action>, i: nat, n: nat, ghost held: nat)
    returns (ap': seq<Action>, nconflict: nat, ghost m: nat)
    requires Valid(g) && Contest(g, ap) && held <= |ap| && i < |ap| && InRow(g, ap, i, i + 1, held)
             && list == Standing(g, ap, held) && n == Conflicts(list)
    ensures m <= |ap| && Reached(g, ap, i + 1, m) && ap' == Standing(g, ap, m) && nconflict == Conflicts(ap')
  {
    hide Contest, Valid, Conflicts, Resolved, Champion, Standing, Live, InRow, Reached;
    ap', nconflict, m := list, n, held;
    var j := i + 1;
    RowLive(g, ap, i, j, m);
    while j < |ap'| && ap'[j].sp == ap'[i].sp
      invariant i < j <= |ap| == |ap'| && i < m <= |ap| && Judged(g, ap) && InRow(g, ap, i, j, m)
      invariant ap' == Standing(g, ap, m) && nconflict == Conflicts(ap')
      invariant (Live(ap'[i]) <==> Champion(g, ap, m) == i) && forall k | 0 <= k < |ap| :: ap'[k].sp == ap[k].sp
    {
      RowSteps(g, ap, i, j, m);
      var errcnt;
      ghost var live := Live(ap'[i]);
      ap', errcnt := ResolvePair(g, ap, ap', i, j, m);
      nconflict := nconflict + errcnt;
      if live { m := m + 1; }
      j := j + 1;
      RowLive(g, ap, i, j, m);
    }
    RowEnds(g, ap, i, j, m);
  }

  lemma NothingHeld(g: Grammar, ap: seq<Action>)
    requires Contest(g, ap)
    ensures Judged(g, ap) && Standing(g, ap, 0) == ap && Conflicts(ap) == 0 && Reached(g, ap, 0, 0)
  {
    NoConflicts(ap);
  }

  lemma AllHeld(g: Grammar, ap: seq<Action>, m: nat)
    requires Reached(g, ap, |ap|, m)
    ensures Standing(g, ap, m) == Resolved(g, ap, |ap|)
  {
  }

  // ----- the actions of a state before resolution -----

  /** The parser in state `q` could take action `a`: shift to the successor, reduce by a rule that ends in the state on
      one of its lookaheads, or accept the start symbol in state 0. */
  ghost predicate IsRaw(g: Grammar, cores: seq<set<Item>>, q: nat, a: Action) {
    || (a.kind == Shift && Edge(g, cores, q, a.sp, a.target) && a.sp in States.NextSymbols(g, Closure(g, cores[q])))
    || (a.kind == Reduce && IsReduction(g, cores, q, a.target, a.sp))
    || (a == Action(g.start, Accept, 0) && q == 0)
  }

  function EndItem(g: Grammar, r: nat): Item
    requires r < |g.rules|
  {
    Item(r, |g.rules[r].rhs|)
  }

  ghost predicate IsReduction(g: Grammar, cores: seq<set<Item>>, q: nat, r: nat, t: nat) {
    r < |g.rules| && L.Member(g, cores, Ref(q, EndItem(g, r))) && L.Lookahead(g, cores, Ref(q, EndItem(g, r)), t)
  }

  ghost predicate Raw(g: Grammar, cores: seq<set<Item>>, q: nat, ap: seq<Action>) {
    Distinct(ap) && forall a :: a in ap <==> IsRaw(g, cores, q, a)
  }

  /** What FindStates leaves in a state are its raw shifts. */
  ghost predicate RawShifts(g: Grammar, cores: seq<set<Item>>, q: nat, ap: seq<Action>) {
    Distinct(ap) && forall a :: a in ap <==> a.kind == Shift && IsRaw(g, cores, q, a)
  }

  lemma BuiltShifts(g: Grammar, ss: seq<State>, q: nat)
    requires States.Built(g, ss) && q < |ss|
    ensures RawShifts(g, States.Cores(ss), q, ss[q].ap)
  {
    var cores, ap := States.Cores(ss), ss[q].ap;
    assert States.Done(g, ss, q);
    forall a ensures a in ap <==> a.kind == Shift && IsRaw(g, cores, q, a) {
      BuiltShift(g, ss, q, a);
    }
  }

  lemma EdgeOfStates(g: Grammar, ss: seq<State>, q: nat, x: nat, p: nat)
    requires States.Built(g, ss) && q < |ss| && p < |ss|
    ensures Edge(g, States.Cores(ss), q, x, p) <==> States.Core(ss[p]) == Goto(g, States.Full(g, ss[q]), x)
  {
  }

  /** The actions of a finished state are one shift to each successor. */
  lemma ShiftParts(g: Grammar, ss: seq<State>, q: nat)
    requires States.Built(g, ss) && q < |ss| && States.Done(g, ss, q)
    ensures forall k | 0 <= k < |ss[q].ap| ::
              ss[q].ap[k].kind == Shift && ss[q].ap[k].sp in States.NextSymbols(g, States.Full(g, ss[q]))
    ensures forall k | 0 <= k < |ss[q].ap| :: States.Leads(g, ss, q, ss[q].ap[k].sp, ss[q].ap[k].target)
    ensures forall x | x in States.NextSymbols(g, States.Full(g, ss[q])) :: exists k ::
              0 <= k < |ss[q].ap| && ss[q].ap[k].sp == x
    ensures States.Full(g, ss[q]) == Closure(g, States.Cores(ss)[q])
  {
  }

  lemma BuiltShift(g: Grammar, ss: seq<State>, q: nat, a: Action)
    requires States.Built(g, ss) && q < |ss| && States.Done(g, ss, q)
    ensures a in ss[q].ap <==> a.kind == Shift && IsRaw(g, States.Cores(ss), q, a)
  {
    var ap := ss[q].ap;
    ShiftParts(g, ss, q);
    hide States.Inv, States.StateOk, States.Full, Closure, Goto, States.Done, States.NextSymbols, States.Built,
         States.Core, States.Cores, IsReduction;
    forall p: nat | p < |ss|
      ensures Edge(g, States.Cores(ss), q, a.sp, p) <==> States.Core(ss[p]) == Goto(g, States.Full(g, ss[q]), a.sp)
    {
      EdgeOfStates(g, ss, q, a.sp, p);
    }
    if a.kind == Shift && IsRaw(g, States.Cores(ss), q, a) {
      var k :| 0 <= k < |ap| && ap[k].sp == a.sp;
      assert States.Leads(g, ss, q, a.sp, ap[k].target);
      L.CoresDiffer(g, ss, ap[k].target, a.target);
    }
  }

  /** The reductions by the items `done` of a state. */
  ghost predicate ReduceOf(g: Grammar, s: State, done: set<Item>, a: Action) {
    && a.kind == Reduce && a.target < |g.rules| && EndItem(g, a.target) in done && EndItem(g, a.target) in s.cfg
    && a.sp < g.nterminal && a.sp in s.cfg[EndItem(g, a.target)].fws
  }

  /** Add a REDUCE for every terminal in the follow set of one finished configuration. */
  method AddReduces(g: Grammar, s: State, i: Item, ghost done: set<Item>, ap: seq<Action>) returns (ap': seq<Action>)
    requires IsItem(g, i) && AtEnd(g, i) && i in s.cfg && i !in done
    requires Distinct(ap) && forall a :: a in ap <==> a in s.ap || ReduceOf(g, s, done, a)
    requires forall a | a in s.ap :: a.kind == Shift
    ensures Distinct(ap') && forall a :: a in ap' <==> a in s.ap || ReduceOf(g, s, done + {i}, a)
  {
    ap' := ap;
    for j := 0 to g.nterminal
      invariant Distinct(ap')
      invariant forall a :: a in ap' <==> a in s.ap || ReduceOf(g, s, done, a) || (ReduceOf(g, s, {i}, a) && a.sp < j)
    {
      if j in s.cfg[i].fws {
        var a := Action(j, Reduce, i.rule);
        assert i == EndItem(g, i.rule) && ReduceOf(g, s, {i}, a) && a !in ap';
        ap' := [a] + ap';
      }
      assert forall a | ReduceOf(g, s, {i}, a) && a.sp == j :: a == Action(j, Reduce, i.rule);
    }
    assert forall a :: ReduceOf(g, s, done + {i}, a) <==> ReduceOf(g, s, done, a) || ReduceOf(g, s, {i}, a);
  }

  method AllReduces(g: Grammar, s: State) returns (ap: seq<Action>)
    requires Strict(s.cfp) && Elems(s.cfp) == s.cfg.Keys <= AllItems(g)
    requires Distinct(s.ap) && forall a | a in s.ap :: a.kind == Shift
    ensures Distinct(ap) && forall a :: a in ap <==> a in s.ap || ReduceOf(g, s, s.cfg.Keys, a)
  {
    ap := s.ap;
    for c := 0 to |s.cfp|
      invariant Distinct(ap) && forall a :: a in ap <==> a in s.ap || ReduceOf(g, s, Elems(s.cfp[..c]), a)
    {
      var i := s.cfp[c];
      States.StrictPrefix(s.cfp, c);
      assert i in Elems(s.cfp);
      assert i in AllItems(g);
      if AtEnd(g, i) {
        ap := AddReduces(g, s, i, Elems(s.cfp[..c]), ap);
      } else {
        assert forall r: nat | r < |g.rules| :: EndItem(g, r) != i;
      }
    }
    assert s.cfp[..|s.cfp|] == s.cfp;
  }

  lemma {:induction false} SeedTerminal(g: Grammar, cores: seq<set<Item>>, m: Ref, t: nat)
    requires Valid(g) && L.Lookahead(g, cores, m, t)
    ensures t < g.nterminal
  {
    var n, k: nat :| L.FlowIn(g, cores, n, m, k) && L.SeedOf(g, cores, n, t);
  }

  /** Follow sets solved, the reductions added are exactly the raw ones. */
  lemma ReducesAreRaw(g: Grammar, cores: seq<set<Item>>, ss: seq<State>, q: nat, a: Action)
    requires Valid(g) && L.Solved(g, cores, ss) && q < |ss|
    ensures ReduceOf(g, ss[q], ss[q].cfg.Keys, a) <==> a.kind == Reduce && IsRaw(g, cores, q, a)
  {
    if a.kind == Reduce && a.target < |g.rules| && L.Lookahead(g, cores, Ref(q, EndItem(g, a.target)), a.sp) {
      SeedTerminal(g, cores, Ref(q, EndItem(g, a.target)), a.sp);
    }
    if a.target < |g.rules| && EndItem(g, a.target) in ss[q].cfg {
      assert F.IsNode(ss, Ref(q, EndItem(g, a.target)));
      L.SolvedAt(g, cores, ss, Ref(q, EndItem(g, a.target)), a.sp);
    }
  }

  // ----- sorting -----

  /** All actions a state could have, a SHIFT counted once for its symbol. */
  ghost function PossibleActions(g: Grammar): set<Action> {
    (set x: nat | x < g.nsymbol :: Action(x, Shift, 0))
    + (set t: nat, r: nat | t < g.nterminal && r < |g.rules| :: Action(t, Reduce, r))
    + {Action(g.start, Accept, 0)}
  }

  /** Few enough that no action list overruns the bins of the sort. */
  ghost predicate ActionsFit(g: Grammar) {
    |PossibleActions(g)| < 0x4000_0000
  }

  ghost function Normal(a: Action): Action {
    if a.kind == Shift then Action(a.sp, Shift, 0) else a
  }

  lemma {:induction false} NormalSize(s: set<Action>)
    requires forall a, b | a in s && b in s && Normal(a) == Normal(b) :: a == b
    ensures |set a | a in s :: Normal(a)| == |s|
    decreases |s|
  {
    if s != {} {
      var x :| x in s;
      NormalSize(s - {x});
      assert (set a | a in s :: Normal(a)) == (set a | a in s - {x} :: Normal(a)) + {Normal(x)};
    }
  }

  lemma RawSymbol(g: Grammar, cores: seq<set<Item>>, q: nat, a: Action)
    requires Valid(g) && L.Lr0(g, cores) && IsRaw(g, cores, q, a)
    ensures a.sp < g.nsymbol && (a.kind == Reduce ==> a.sp < g.nterminal) && (a.kind == Shift ==> a.sp != g.start)
    ensures Live(a)
  {
    if a.kind == Reduce {
      SeedTerminal(g, cores, Ref(q, EndItem(g, a.target)), a.sp);
    } else if a.kind == Shift {
      NextIsSymbol(g, cores[q], a.sp);
    }
  }

  lemma NextIsSymbol(g: Grammar, k: set<Item>, x: nat)
    requires Valid(g) && x in States.NextSymbols(g, Closure(g, k))
    ensures 0 < x < g.nsymbol && x != g.start
  {
    var i :| i in Closure(g, k) && IsItem(g, i) && !AtEnd(g, i) && g.rules[i.rule].rhs[i.dot] == x;
    assert ValidRule(g, g.rules[i.rule]);
  }

  /** Two raw shifts of a state on one symbol are the same. */
  lemma RawShiftUnique(g: Grammar, cores: seq<set<Item>>, q: nat, a: Action, b: Action)
    requires L.Lr0(g, cores) && IsRaw(g, cores, q, a) && IsRaw(g, cores, q, b) && a.kind == Shift && b.kind == Shift
             && a.sp == b.sp
    ensures a == b
  {
    L.SameCore(g, cores, a.target, b.target);
  }

  lemma RawSize(g: Grammar, cores: seq<set<Item>>, q: nat, ap: seq<Action>)
    requires Valid(g) && L.Lr0(g, cores) && Raw(g, cores, q, ap)
    ensures |ap| <= |PossibleActions(g)|
  {
    hide IsRaw, L.Lr0, Valid, PossibleActions;
    var s := Elems(ap);
    forall a, b | a in s && b in s && Normal(a) == Normal(b) ensures a == b {
      if a.kind == Shift { RawShiftUnique(g, cores, q, a, b); }
    }
    NormalSize(s);
    forall a | a in s ensures Normal(a) in PossibleActions(g) {
      RawPossible(g, cores, q, a);
    }
    var image := set a | a in s :: Normal(a);
    assert image <= PossibleActions(g);
    States.SubsetSize(image, PossibleActions(g));
    States.DistinctCount(ap);
  }

  lemma RawPossible(g: Grammar, cores: seq<set<Item>>, q: nat, a: Action)
    requires Valid(g) && L.Lr0(g, cores) && IsRaw(g, cores, q, a)
    ensures Normal(a) in PossibleActions(g)
  {
    RawSymbol(g, cores, q, a);
    hide L.Lr0, L.Lookahead, Edge, L.Member;
  }

  /** Sorted, the raw actions of a state are a contest that resolve_conflict can settle. */
  lemma RawIsContest(g: Grammar, cores: seq<set<Item>>, q: nat, ap: seq<Action>)
    requires Valid(g) && L.Lr0(g, cores) && Raw(g, cores, q, ap) && Sorted(Actioncmp, ap)
    ensures Contest(g, ap)
  {
    forall i | 0 <= i < |ap| ensures Live(ap[i]) && ap[i].sp < |g.assoc| {
      assert ap[i] in ap;
      RawSymbol(g, cores, q, ap[i]);
    }
    forall i, j | 0 <= i < j < |ap| ensures ap[i].sp <= ap[j].sp {
      assert Actioncmp(ap[i], ap[j]) <= 0;
    }
    forall i, j | 0 <= i < j < |ap| && ap[i].sp == ap[j].sp
      ensures ap[i].kind != Accept && ap[j].kind != Accept && (ap[i].kind == Shift || ap[i].kind == Reduce)
              && ap[j].kind == Reduce
    {
      assert Actioncmp(ap[i], ap[j]) <= 0 && ap[i] != ap[j] && ap[i] in ap && ap[j] in ap;
      RawPair(g, cores, q, ap[i], ap[j]);
    }
  }

  lemma RawPair(g: Grammar, cores: seq<set<Item>>, q: nat, a: Action, b: Action)
    requires Valid(g) && L.Lr0(g, cores) && IsRaw(g, cores, q, a) && IsRaw(g, cores, q, b)
    requires a.sp == b.sp && a != b && Actioncmp(a, b) <= 0
    ensures a.kind != Accept && b.kind != Accept && b.kind == Reduce
  {
    RawSymbol(g, cores, q, a);
    RawSymbol(g, cores, q, b);
    if a.kind == Shift && b.kind == Shift { RawShiftUnique(g, cores, q, a, b); }
  }

  /** Two different actions that a state could take never compare equal, so the address comparison that would break
      the tie is never reached. */
  lemma RawNeverTies(g: Grammar, cores: seq<set<Item>>, q: nat, a: Action, b: Action)
    requires L.Lr0(g, cores) && IsRaw(g, cores, q, a) && IsRaw(g, cores, q, b) && a != b
    ensures Actioncmp(a, b) != 0
  {
    OrdinalInjective(a.kind, b.kind);
    if a.kind == Shift && b.kind == Shift && a.sp == b.sp { RawShiftUnique(g, cores, q, a, b); }
  }

  lemma {:induction false} OneOrder(r: seq<Action>, s: seq<Action>)
    requires Distinct(r) && Distinct(s) && (forall a :: a in r <==> a in s) && Sorted(Actioncmp, r)
             && Sorted(Actioncmp, s)
    requires forall a, b | a in r && b in r && a != b :: Actioncmp(a, b) != 0
    ensures r == s
    decreases |r|
  {
    assert s != [] ==> s[0] in r;
    if r != [] {
      FirstIsSame(r, s);
      RestIsSame(r, s);
      RestOrdered(r);
      RestOrdered(s);
      hide Actioncmp, Sorted, Distinct;
      OneOrder(r[1..], s[1..]);
      assert r == [r[0]] + r[1..] && s == [s[0]] + s[1..];
    }
  }

  lemma RestOrdered(r: seq<Action>)
    requires r != [] && Distinct(r) && Sorted(Actioncmp, r)
    ensures Distinct(r[1..]) && Sorted(Actioncmp, r[1..])
  {
  }

  lemma FirstIsSame(r: seq<Action>, s: seq<Action>)
    requires r != [] && (forall a :: a in r <==> a in s) && Sorted(Actioncmp, r) && Sorted(Actioncmp, s)
    requires forall a, b | a in r && b in r && a != b :: Actioncmp(a, b) != 0
    ensures s != [] && r[0] == s[0]
  {
    assert r[0] in s && s[0] in r;
    var i :| 0 <= i < |s| && s[i] == r[0];
    var j :| 0 <= j < |r| && r[j] == s[0];
    assert i > 0 ==> Actioncmp(s[0], r[0]) <= 0;
    assert j > 0 ==> Actioncmp(r[0], s[0]) <= 0;
    OrdinalInjective(r[0].kind, s[0].kind);
  }

  lemma RestIsSame(r: seq<Action>, s: seq<Action>)
    requires r != [] && s != [] && r[0] == s[0] && Distinct(r) && Distinct(s) && (forall a :: a in r <==> a in s)
    ensures forall a :: a in r[1..] <==> a in s[1..]
  {
    RestMember(r);
    RestMember(s);
  }

  lemma RestMember(r: seq<Action>)
    requires r != [] && Distinct(r)
    ensures forall a :: a in r[1..] <==> a in r && a != r[0]
  {
    assert r == [r[0]] + r[1..];
    forall a | a in r[1..] ensures a != r[0] {
      var k :| 0 <= k < |r| - 1 && r[1..][k] == a;
      assert r[k + 1] == a;
    }
  }

  /** So the sorted list of the actions of a state is the same whatever their addresses. */
  lemma RawOrderUnique(g: Grammar, cores: seq<set<Item>>, q: nat, r: seq<Action>, s: seq<Action>)
    requires L.Lr0(g, cores) && Raw(g, cores, q, r) && Raw(g, cores, q, s) && Sorted(Actioncmp, r)
             && Sorted(Actioncmp, s)
    ensures r == s
  {
    hide L.Lr0, IsRaw, Actioncmp, Sorted;
    forall a, b | a in r && b in r && a != b ensures Actioncmp(a, b) != 0 {
      RawNeverTies(g, cores, q, a, b);
    }
    OneOrder(r, s);
  }

  lemma RawOrderAt(g: Grammar, cores: seq<set<Item>>, q: nat, r: seq<Action>, s: seq<Action>, address: Action -> int)
    requires L.Lr0(g, cores) && Raw(g, cores, q, r) && Raw(g, cores, q, s) && Sorted(Actioncmp, r)
             && Sorted((a, b) => ActioncmpAt(address, a, b), s)
    ensures r == s
  {
    hide L.Lr0, IsRaw, Raw;
    forall i, j | 0 <= i < j < |s| ensures Actioncmp(s[i], s[j]) <= 0 {
      assert ActioncmpAt(address, s[i], s[j]) <= 0;
    }
    RawOrderUnique(g, cores, q, r, s);
  }

  // ----- FindActions -----

  ghost predicate ResolvedFrom(g: Grammar, raw: seq<Action>, ap: seq<Action>) {
    Sorted(Actioncmp, raw) && Contest(g, raw) && Judged(g, raw) && ap == Resolved(g, raw, |raw|)
  }

  /** The resolved actions of a state: its raw actions in sorted order, with the beaten ones put out. */
  ghost predicate Acted(g: Grammar, cores: seq<set<Item>>, q: nat, ap: seq<Action>) {
    exists raw: seq<Action> :: Raw(g, cores, q, raw) && ResolvedFrom(g, raw, ap)
  }

  lemma AllRaw(g: Grammar, cores: seq<set<Item>>, ss: seq<State>, q: nat, ap: seq<Action>)
    requires Valid(g) && L.Solved(g, cores, ss) && q < |ss| && RawShifts(g, cores, q, ss[q].ap)
    requires Distinct(ap) && forall a :: a in ap <==> a in ss[q].ap || ReduceOf(g, ss[q], ss[q].cfg.Keys, a)
    ensures Raw(g, cores, q, WithAccept(g, q, ap))
  {
    hide L.Solved, Valid, ReduceOf;
    forall a ensures a in WithAccept(g, q, ap) <==> IsRaw(g, cores, q, a) {
      ReducesAreRaw(g, cores, ss, q, a);
    }
    assert Action(g.start, Accept, 0) !in ap by {
      ReducesAreRaw(g, cores, ss, q, Action(g.start, Accept, 0));
    }
  }

  /** The accepting action goes to the first state, on the start symbol. */
  function WithAccept(g: Grammar, q: nat, ap: seq<Action>): seq<Action> {
    if q == 0 then [Action(g.start, Accept, 0)] + ap else ap
  }

  lemma ReadyToReduce(g: Grammar, cores: seq<set<Item>>, ss: seq<State>, q: nat)
    requires Valid(g) && L.Lr0(g, cores) && L.Solved(g, cores, ss) && q < |ss| && RawShifts(g, cores, q, ss[q].ap)
    ensures Strict(ss[q].cfp) && Elems(ss[q].cfp) == ss[q].cfg.Keys <= AllItems(g)
    ensures Distinct(ss[q].ap) && forall a | a in ss[q].ap :: a.kind == Shift
  {
    ClosureIsLeast(g, cores[q]);
    hide IsRaw, Closure, Valid;
  }

  lemma SortedRaw(g: Grammar, cores: seq<set<Item>>, q: nat, raw: seq<Action>, r: seq<Action>)
    requires Raw(g, cores, q, raw) && multiset(r) == multiset(raw)
    ensures Raw(g, cores, q, r)
  {
    States.SameElements(raw, r);
  }

  method ActState(g: Grammar, ghost cores: seq<set<Item>>, ghost ss: seq<State>, s: State, q: nat)
    returns (ap: seq<Action>, nconflict: nat)
    requires Valid(g) && ActionsFit(g) && L.Lr0(g, cores) && L.Solved(g, cores, ss) && q < |ss| && s == ss[q]
             && RawShifts(g, cores, q, s.ap)
    ensures Acted(g, cores, q, ap) && nconflict == Conflicts(ap)
  {
    hide L.Lr0, L.Solved, Valid, Contest, Resolved, ReduceOf, Raw, RawShifts, PossibleActions, Actioncmp, Ordering,
         Sorted, Conflicts, Judged,
         Pow2, Collect, Strict;
    ReadyToReduce(g, cores, ss, q);
    var raw := AllReduces(g, s);
    AllRaw(g, cores, ss, q, raw);
    raw := WithAccept(g, q, raw);
    RawSize(g, cores, q, raw);
    ActioncmpOrders();
    var sorted := MSort(raw, Actioncmp);
    SortedRaw(g, cores, q, raw, sorted);
    RawIsContest(g, cores, q, sorted);
    ap, nconflict := ResolveAll(g, sorted);
    assert ResolvedFrom(g, sorted, ap);
  }

  /** Everything but the action lists is as it was. */
  ghost predicate SameButActions(ss: seq<State>, ss': seq<State>) {
    |ss| == |ss'| && forall q | 0 <= q < |ss| :: ss'[q] == ss[q].(ap := ss'[q].ap)
  }

  function AllConflicts(ss: seq<State>): nat {
    if ss == [] then 0 else AllConflicts(ss[..|ss| - 1]) + Conflicts(ss[|ss| - 1].ap)
  }

  /** Where the actions stand that lost without a rule that decides. */
  ghost function Lost(ss: seq<State>): set<(nat, nat)> {
    set q: nat, k: nat | q < |ss| && k < |ss[q].ap| && InConflict(ss[q].ap[k]) :: (q, k)
  }

  ghost function LostIn(ap: seq<Action>, q: nat): set<(nat, nat)> {
    set k: nat | k < |ap| && InConflict(ap[k]) :: (q, k)
  }

  lemma {:induction false} LostInAre(ap: seq<Action>, q: nat)
    ensures Conflicts(ap) == |LostIn(ap, q)|
    decreases |ap|
  {
    if ap != [] {
      var n := |ap| - 1;
      LostInAre(ap[..n], q);
      assert LostIn(ap, q) == LostIn(ap[..n], q) + if InConflict(ap[n]) then {(q, n as nat)} else {};
    }
  }

  lemma {:induction false} AllConflictsAre(ss: seq<State>)
    ensures AllConflicts(ss) == |Lost(ss)|
    decreases |ss|
  {
    if ss != [] {
      var n := |ss| - 1;
      AllConflictsAre(ss[..n]);
      LostInAre(ss[n].ap, n);
      assert Lost(ss) == Lost(ss[..n]) + LostIn(ss[n].ap, n);
      assert Lost(ss[..n]) !! LostIn(ss[n].ap, n);
    }
  }

  lemma CountedAre(ss: seq<State>)
    ensures AllConflicts(ss) == |set q: nat, k: nat | q < |ss| && k < |ss[q].ap|
                                                      && (ss[q].ap[k].kind == SSConflict
                                                          || ss[q].ap[k].kind == SRConflict
                                                          || ss[q].ap[k].kind == RRConflict) :: (q, k)|
  {
    AllConflictsAre(ss);
    hide AllConflicts;
    assert Lost(ss) == set q: nat, k: nat | q < |ss| && k < |ss[q].ap|
                                            && (ss[q].ap[k].kind == SSConflict || ss[q].ap[k].kind == SRConflict
                                                || ss[q].ap[k].kind == RRConflict) :: (q, k);
  }

  lemma {:induction false} StateConflicts(ss: seq<State>, ap: seq<Action>, q: nat)
    requires q < |ss|
    ensures var ss' := ss[q := ss[q].(ap := ap)]; AllConflicts(ss'[..q + 1]) == AllConflicts(ss[..q]) + Conflicts(ap)
  {
    var ss' := ss[q := ss[q].(ap := ap)];
    assert ss'[..q + 1][..q] == ss[..q] && ss'[..q + 1][q].ap == ap;
  }

  /** The first `q` states have their resolved actions, the others are as they were. */
  ghost predicate ActedUpTo(g: Grammar, cores: seq<set<Item>>, ss: seq<State>, ss': seq<State>, q: nat) {
    && SameButActions(ss, ss') && q <= |ss| && (forall p | 0 <= p < q :: Acted(g, cores, p, ss'[p].ap))
    && forall p | q <= p < |ss| :: ss'[p] == ss[p]
  }

  lemma NoneActed(g: Grammar, cores: seq<set<Item>>, ss: seq<State>)
    ensures AllConflicts(ss[..0]) == 0 && ActedUpTo(g, cores, ss, ss, 0)
  {
  }

  lemma ActedNext(g: Grammar, cores: seq<set<Item>>, ss: seq<State>, ss': seq<State>, q: nat, ap: seq<Action>)
    requires ActedUpTo(g, cores, ss, ss', q) && q < |ss| && Acted(g, cores, q, ap)
    ensures |ss'| == |ss| && ActedUpTo(g, cores, ss, ss'[q := ss'[q].(ap := ap)], q + 1)
  {
    hide Acted;
  }

  lemma ActedSoFar(g: Grammar, cores: seq<set<Item>>, ss: seq<State>, ss': seq<State>, q: nat)
    requires ActedUpTo(g, cores, ss, ss', q)
    ensures |ss'| == |ss| && (q < |ss| ==> ss'[q] == ss[q]) && SameButActions(ss, ss')
    ensures q == |ss| ==> forall p | 0 <= p < |ss'| :: Acted(g, cores, p, ss'[p].ap)
  {
    hide Acted;
  }

  /** FindActions, state by state: reductions, the accepting action, sorting, and all conflicts. */
  method FindActions(lemp: Lemon, ghost cores: seq<set<Item>>) returns (nconflict: nat)
    requires Valid(lemp.g) && ActionsFit(lemp.g) && L.Lr0(lemp.g, cores) && L.Solved(lemp.g, cores, lemp.states)
    requires forall q | 0 <= q < |lemp.states| :: RawShifts(lemp.g, cores, q, lemp.states[q].ap)
    modifies lemp`states
    ensures SameButActions(old(lemp.states), lemp.states)
    ensures forall q | 0 <= q < |lemp.states| :: Acted(lemp.g, cores, q, lemp.states[q].ap)
    ensures nconflict == |set q: nat, k: nat | q < |lemp.states| && k < |lemp.states[q].ap|
                                             && (lemp.states[q].ap[k].kind == SSConflict
                                                 || lemp.states[q].ap[k].kind == SRConflict
                                                 || lemp.states[q].ap[k].kind == RRConflict) :: (q, k)|
  {
    ghost var ss := lemp.states;
    nconflict := 0;
    NoneActed(lemp.g, cores, ss);
    hide Valid, ActionsFit, L.Lr0, L.Solved, RawShifts, Acted, Conflicts, AllConflicts, ActedUpTo, SameButActions;
    for q := 0 to |lemp.states|
      invariant |lemp.states| == |ss| && ActedUpTo(lemp.g, cores, ss, lemp.states, q)
                && nconflict == AllConflicts(lemp.states[..q])
    {
      ActedSoFar(lemp.g, cores, ss, lemp.states, q);
      var ap, n := ActState(lemp.g, cores, ss, lemp.states[q], q);
      StateConflicts(lemp.states, ap, q);
      ActedNext(lemp.g, cores, ss, lemp.states, q, ap);
      lemp.states := lemp.states[q := lemp.states[q].(ap := ap)];
      nconflict := nconflict + n;
    }
    ActedSoFar(lemp.g, cores, ss, lemp.states, |ss|);
    assert lemp.states[..|lemp.states|] == lemp.states;
    CountedAre(lemp.states);
  }

  // ----- what the resolved actions of a state are good for -----

  ghost predicate UniqueLive(ap: seq<Action>) {
    forall i, j :: !BothLive(ap, i, j)
  }

  /** After FindActions every symbol that had an action has exactly one live one, and that is one of its raw actions;
      an action without rivals is live. */
  lemma ActedLive(g: Grammar, cores: seq<set<Item>>, q: nat, ap: seq<Action>)
    requires Acted(g, cores, q, ap)
    ensures UniqueLive(ap)
    ensures forall a | a in ap && Live(a) :: IsRaw(g, cores, q, a)
    ensures forall a | IsRaw(g, cores, q, a) :: exists b :: b in ap && Live(b) && b.sp == a.sp
  {
    hide IsRaw, Raw, ResolvedFrom, BothLive;
    var raw: seq<Action> :| Raw(g, cores, q, raw) && ResolvedFrom(g, raw, ap);
    forall a | a in ap && Live(a) ensures IsRaw(g, cores, q, a) {
      var k := FateIn(g, raw, ap, a);
      RawMember(g, cores, q, raw, a);
    }
    forall a | IsRaw(g, cores, q, a) ensures exists b :: b in ap && Live(b) && b.sp == a.sp {
      RawMember(g, cores, q, raw, a);
      SymbolLive(g, raw, ap, a);
    }
    ResolvedUnique(g, raw, ap);
  }

  lemma RawMember(g: Grammar, cores: seq<set<Item>>, q: nat, raw: seq<Action>, a: Action)
    requires Raw(g, cores, q, raw)
    ensures a in raw <==> IsRaw(g, cores, q, a)
  {
  }

  lemma FateIn(g: Grammar, raw: seq<Action>, ap: seq<Action>, a: Action) returns (k: nat)
    requires ResolvedFrom(g, raw, ap) && a in ap
    ensures k < |raw| && raw[k] in raw && Fate(g, raw, k, a)
  {
    k :| k < |ap| && ap[k] == a;
    FateOf(g, raw, |raw|, k);
  }

  lemma SymbolLive(g: Grammar, raw: seq<Action>, ap: seq<Action>, a: Action)
    requires ResolvedFrom(g, raw, ap) && a in raw
    ensures exists b :: b in ap && Live(b) && b.sp == a.sp
  {
    var k :| 0 <= k < |raw| && raw[k] == a;
    SomeStands(g, raw, |raw|, k);
    hide Contest, Resolved;
    var m :| LiveFor(ap, m, a.sp);
    assert ap[m] in ap;
  }

  lemma ResolvedUnique(g: Grammar, raw: seq<Action>, ap: seq<Action>)
    requires ResolvedFrom(g, raw, ap)
    ensures UniqueLive(ap)
  {
    forall i, j ensures !BothLive(ap, i, j) {
      if 0 <= i < j < |ap| { OneStands(g, raw, |raw|, i, j); }
    }
  }

  /** Conflicts are settled by precedence: an action that is out has lost, by the documented rule, to another that
      the state could take on the same symbol, and its type says how. */
  lemma OutWasBeaten(g: Grammar, cores: seq<set<Item>>, q: nat, ap: seq<Action>, a: Action)
    requires Acted(g, cores, q, ap) && a in ap && !Live(a)
    ensures exists r, w ::
              && IsRaw(g, cores, q, r) && a == r.(kind := a.kind)
              && IsRaw(g, cores, q, w) && w != r && w.sp == r.sp < |g.assoc|
              && (Judge(g, w, r) == FirstWins(a.kind) || Judge(g, r, w) == SecondWins(a.kind))
  {
    hide IsRaw, Judge, Raw, ResolvedFrom;
    var raw: seq<Action> :| Raw(g, cores, q, raw) && ResolvedFrom(g, raw, ap);
    var k := FateIn(g, raw, ap, a);
    var w := Winner(g, raw, ap, k, a);
    RawMember(g, cores, q, raw, raw[k]);
    RawMember(g, cores, q, raw, raw[w]);
    RawTwice(g, cores, q, raw, k, w);
  }

  lemma Winner(g: Grammar, raw: seq<Action>, ap: seq<Action>, k: nat, a: Action) returns (w: nat)
    requires ResolvedFrom(g, raw, ap) && k < |raw| && Fate(g, raw, k, a) && !Live(a)
    ensures w < |raw| && w != k && raw[w] in raw && raw[w].sp == raw[k].sp < |g.assoc| && a == raw[k].(kind := a.kind)
    ensures Judge(g, raw[w], raw[k]) == FirstWins(a.kind) || Judge(g, raw[k], raw[w]) == SecondWins(a.kind)
  {
    hide Judge, Resolved;
    assert Live(raw[k]);
    hide Contest;
    var d :| LostAt(g, raw, d, k, a.kind);
    w := if k == d then Champion(g, raw, d) else d;
  }

  lemma RawTwice(g: Grammar, cores: seq<set<Item>>, q: nat, raw: seq<Action>, k: nat, m: nat)
    requires Raw(g, cores, q, raw) && k < |raw| && m < |raw| && k != m
    ensures raw[k] != raw[m]
  {
  }

  /** No two different actions on one symbol anywhere: there is nothing to resolve. */
  ghost predicate ConflictFree(g: Grammar, cores: seq<set<Item>>) {
    forall q: nat, a, b | q < |cores| && IsRaw(g, cores, q, a) && IsRaw(g, cores, q, b) && a.sp == b.sp :: a == b
  }

  /** Without conflicts every raw action is live. */
  lemma ConflictFreeLive(g: Grammar, cores: seq<set<Item>>, q: nat, ap: seq<Action>, a: Action)
    requires ConflictFree(g, cores) && q < |cores| && Acted(g, cores, q, ap) && IsRaw(g, cores, q, a)
    ensures a in ap && Live(a)
  {
    ActedLive(g, cores, q, ap);
    var b :| b in ap && Live(b) && b.sp == a.sp;
    assert IsRaw(g, cores, q, b);
  }

  /** A grammar is free of conflicts exactly if resolution has put no action out, in any state. */
  lemma ConflictFreeIfAllLive(g: Grammar, cores: seq<set<Item>>, aps: seq<seq<Action>>)
    requires |aps| == |cores| && forall q | 0 <= q < |cores| :: Acted(g, cores, q, aps[q])
    ensures ConflictFree(g, cores) <==> forall q, a | 0 <= q < |aps| && a in aps[q] :: Live(a)
  {
    hide Acted, IsRaw;
    if ConflictFree(g, cores) {
      forall q, a | 0 <= q < |aps| && a in aps[q] ensures Live(a) {
        DeadMeansConflict(g, cores, q, aps[q], a);
      }
    }
    if forall q, a | 0 <= q < |aps| && a in aps[q] :: Live(a) {
      forall q: nat, a, b | q < |cores| && IsRaw(g, cores, q, a) && IsRaw(g, cores, q, b) && a.sp == b.sp
        ensures a == b
      {
        LiveMeansOne(g, cores, q, aps[q], a, b);
      }
    }
  }

  lemma DeadMeansConflict(g: Grammar, cores: seq<set<Item>>, q: nat, ap: seq<Action>, a: Action)
    requires ConflictFree(g, cores) && q < |cores| && Acted(g, cores, q, ap) && a in ap
    ensures Live(a)
  {
    hide Acted, IsRaw, Judge;
    if !Live(a) {
      OutWasBeaten(g, cores, q, ap, a);
      assert false;
    }
  }

  lemma LiveMeansOne(g: Grammar, cores: seq<set<Item>>, q: nat, ap: seq<Action>, a: Action, b: Action)
    requires Acted(g, cores, q, ap) && (forall c | c in ap :: Live(c)) && IsRaw(g, cores, q, a) && IsRaw(g, cores, q, b)
             && a.sp == b.sp
    ensures a == b
  {
    hide Acted, IsRaw, Live, BothLive, UniqueLive;
    ActedLive(g, cores, q, ap);
    RawStays(g, cores, q, ap, a);
    RawStays(g, cores, q, ap, b);
    UniqueIs(ap, a, b);
  }

  lemma UniqueIs(ap: seq<Action>, a: Action, b: Action)
    requires UniqueLive(ap) && a in ap && b in ap && Live(a) && Live(b) && a.sp == b.sp
    ensures a == b
  {
    var i :| 0 <= i < |ap| && ap[i] == a;
    var j :| 0 <= j < |ap| && ap[j] == b;
    assert !BothLive(ap, i, j) && !BothLive(ap, j, i);
  }

  lemma RawStays(g: Grammar, cores: seq<set<Item>>, q: nat, ap: seq<Action>, a: Action)
    requires Acted(g, cores, q, ap) && (forall c | c in ap :: Live(c)) && IsRaw(g, cores, q, a)
    ensures a in ap
  {
    hide IsRaw, Raw, ResolvedFrom;
    var raw: seq<Action> :| Raw(g, cores, q, raw) && ResolvedFrom(g, raw, ap);
    RawMember(g, cores, q, raw, a);
    var k: nat :| k < |raw| && raw[k] == a;
    FateAt(g, raw, ap, k);
  }

  lemma FateAt(g: Grammar, raw: seq<Action>, ap: seq<Action>, k: nat)
    requires ResolvedFrom(g, raw, ap) && k < |raw|
    ensures |ap| == |raw| && ap[k] in ap && (Live(ap[k]) ==> ap[k] == raw[k])
  {
    FateOf(g, raw, |raw|, k);
    hide Resolved, Contest;
  }
}
