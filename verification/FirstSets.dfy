/** Which nonterminals vanish and which terminals begin them. */
module FirstSets {
  import opened Grammars

  predicate AllNull(lambda: seq<bool>, a: seq<nat>)
    requires AllBelow(a, |lambda|)
  {
    forall k | 0 <= k < |a| :: lambda[a[k]]
  }

  /** The left-to-right scan that both FindFirstSets and Configlist_closure make over a string of symbols. */
  function FirstScan(nterminal: nat, lambda: seq<bool>, first: seq<set<nat>>, a: seq<nat>): set<nat>
    requires |lambda| == |first| && AllBelow(a, |lambda|)
  {
    if a == [] then {}
    else if a[0] < nterminal then {a[0]}
    else first[a[0]] + if lambda[a[0]] then FirstScan(nterminal, lambda, first, a[1..]) else {}
  }

  /** What FindFirstSets computes: nullability and FIRST sets, exactly. */
  ghost predicate Exact(g: Grammar, lambda: seq<bool>, first: seq<set<nat>>) {
    && |lambda| == |first| == g.nsymbol
    && (forall x | 0 <= x < g.nsymbol :: lambda[x] <==> Nullable(g, [x]))
    && (forall x, t: nat | 0 <= x < g.nsymbol :: t in first[x] <==> g.nterminal <= x && Begins(g, [x], t))
  }

  // ----- nullability -----

  ghost predicate LambdaSound(g: Grammar, lambda: seq<bool>) {
    |lambda| == g.nsymbol && forall x | 0 <= x < g.nsymbol && lambda[x] :: Nullable(g, [x])
  }

  ghost predicate RuleNullClosed(g: Grammar, lambda: seq<bool>, r: int)
    requires Valid(g) && |lambda| == g.nsymbol && 0 <= r < |g.rules|
  {
    ValidRule(g, g.rules[r]) && (AllNull(lambda, g.rules[r].rhs) ==> lambda[g.rules[r].lhs])
  }

  lemma {:induction false} NullableOfAll(g: Grammar, lambda: seq<bool>, a: seq<nat>)
    requires LambdaSound(g, lambda) && AllBelow(a, g.nsymbol) && AllNull(lambda, a)
    ensures Nullable(g, a)
    decreases |a|
  {
    if a == [] {
      DerivesRefl(g, a);
    } else {
      NullableOfAll(g, lambda, a[1..]);
      var empty: seq<nat> := [];
      DerivesConcat(g, [a[0]], empty, a[1..], empty);
      assert [a[0]] + a[1..] == a && empty + empty == empty;
    }
  }

  /** Closed tables lose nothing when an expansion is undone. */
  lemma NullBeforeExpand(g: Grammar, lambda: seq<bool>, a: seq<nat>, i: int, r: int)
    requires Valid(g) && |lambda| == g.nsymbol && AllBelow(a, g.nsymbol) && CanExpand(g, a, i, r)
             && RuleNullClosed(g, lambda, r)
    ensures AllBelow(Expand(g, a, i, r), g.nsymbol)
    ensures AllNull(lambda, Expand(g, a, i, r)) ==> AllNull(lambda, a)
  {
    var p, q, rhs := a[..i], a[i + 1..], g.rules[r].rhs;
    assert ValidRule(g, g.rules[r]);
    AllNullConcat(lambda, p + rhs, q);
    AllNullConcat(lambda, p, rhs);
    AllNullConcat(lambda, p + [a[i]], q);
    AllNullConcat(lambda, p, [a[i]]);
    assert a == p + [a[i]] + q;
  }

  lemma {:induction false} AllOfNullable(g: Grammar, lambda: seq<bool>, a: seq<nat>, n: nat)
    requires Valid(g) && |lambda| == g.nsymbol && AllBelow(a, g.nsymbol)
    requires forall r | 0 <= r < |g.rules| :: RuleNullClosed(g, lambda, r)
    requires DerivesIn(g, a, [], n)
    ensures AllNull(lambda, a)
    decreases n
  {
    if n > 0 {
      hide Valid, AllNull, AllBelow, RuleNullClosed, Expand, CanExpand;
      var i, r :| CanExpand(g, a, i, r) && DerivesIn(g, Expand(g, a, i, r), [], n - 1);
      assert 0 <= r < |g.rules| by { ExpandsRule(g, a, i, r); }
      NullBeforeExpand(g, lambda, a, i, r);
      AllOfNullable(g, lambda, Expand(g, a, i, r), n - 1);
    }
  }

  lemma ExpandsRule(g: Grammar, a: seq<nat>, i: int, r: int)
    requires CanExpand(g, a, i, r)
    ensures 0 <= r < |g.rules|
  {
  }

  /** A closed, sound table is exactly nullability, for strings as well as for single symbols. */
  lemma NullExact(g: Grammar, lambda: seq<bool>, a: seq<nat>)
    requires Valid(g) && LambdaSound(g, lambda) && AllBelow(a, g.nsymbol)
    requires forall r | 0 <= r < |g.rules| :: RuleNullClosed(g, lambda, r)
    ensures AllNull(lambda, a) <==> Nullable(g, a)
  {
    if AllNull(lambda, a) {
      NullableOfAll(g, lambda, a);
    }
    if Nullable(g, a) {
      var n: nat :| DerivesIn(g, a, [], n);
      AllOfNullable(g, lambda, a, n);
    }
  }

  // ----- FIRST -----

  ghost predicate FirstSound(g: Grammar, first: seq<set<nat>>) {
    |first| == g.nsymbol && forall x, t | 0 <= x < g.nsymbol && t in first[x] :: g.nterminal <= x && Begins(g, [x], t)
  }

  ghost predicate RuleFirstClosed(g: Grammar, lambda: seq<bool>, first: seq<set<nat>>, r: int)
    requires Valid(g) && |lambda| == |first| == g.nsymbol && 0 <= r < |g.rules|
  {
    ValidRule(g, g.rules[r]) && FirstScan(g.nterminal, lambda, first, g.rules[r].rhs) <= first[g.rules[r].lhs]
  }

  /** A symbol of a string whose predecessors all vanish passes its beginnings on to the string. */
  lemma BeginsAfterNullable(g: Grammar, lambda: seq<bool>, a: seq<nat>, k: nat, t: nat)
    requires LambdaSound(g, lambda) && AllBelow(a, g.nsymbol) && k < |a| && AllNull(lambda, a[..k])
    requires Begins(g, [a[k]], t)
    ensures Begins(g, a, t)
  {
    NullableOfAll(g, lambda, a[..k]);
    var rest := a[k + 1..];
    var s :| Derives(g, [a[k]], [t] + s);
    DerivesRefl(g, rest);
    DerivesConcat(g, [a[k]], [t] + s, rest, rest);
    assert [t] + s + rest == [t] + (s + rest);
    DerivesConcat(g, a[..k], [], [a[k]] + rest, [t] + (s + rest));
    assert a[..k] + ([a[k]] + rest) == a;
    assert [] + ([t] + (s + rest)) == [t] + (s + rest);
  }

  lemma BeginsTerminal(g: Grammar, t: nat)
    requires t < g.nterminal
    ensures Begins(g, [t], t)
  {
    DerivesRefl(g, [t]);
    assert [t] + [] == [t];
  }

  lemma BeginsByRule(g: Grammar, r: int, t: nat)
    requires 0 <= r < |g.rules| && Begins(g, g.rules[r].rhs, t)
    ensures Begins(g, [g.rules[r].lhs], t)
  {
    DerivesByRule(g, r);
    var s :| Derives(g, g.rules[r].rhs, [t] + s);
    DerivesTrans(g, [g.rules[r].lhs], g.rules[r].rhs, [t] + s);
  }

  lemma {:induction false} ScanSound(g: Grammar, lambda: seq<bool>, first: seq<set<nat>>, a: seq<nat>, t: nat)
    requires LambdaSound(g, lambda) && FirstSound(g, first) && AllBelow(a, g.nsymbol)
    requires t in FirstScan(g.nterminal, lambda, first, a)
    ensures Begins(g, a, t)
    decreases |a|
  {
    if a[0] < g.nterminal {
      BeginsTerminal(g, t);
      BeginsAfterNullable(g, lambda, a, 0, t);
    } else if t in first[a[0]] {
      BeginsAfterNullable(g, lambda, a, 0, t);
    } else {
      ScanSound(g, lambda, first, a[1..], t);
      var s :| Derives(g, a[1..], [t] + s);
      DerivesConcat(g, [a[0]], [], a[1..], [t] + s);
      assert [a[0]] + a[1..] == a && [] + ([t] + s) == [t] + s;
    }
  }

  lemma {:induction false} ScanConcat(nterminal: nat, lambda: seq<bool>, first: seq<set<nat>>, a: seq<nat>, b: seq<nat>)
    requires |lambda| == |first| && AllBelow(a, |lambda|) && AllBelow(b, |lambda|)
    requires forall x | 0 <= x < nterminal && x < |lambda| :: !lambda[x]
    ensures AllBelow(a + b, |lambda|)
    ensures FirstScan(nterminal, lambda, first, a + b)
         == FirstScan(nterminal, lambda, first, a)
          + if AllNull(lambda, a) then FirstScan(nterminal, lambda, first, b) else {}
    decreases |a|
  {
    if a == [] {
      assert a + b == b;
    } else {
      ScanConcat(nterminal, lambda, first, a[1..], b);
      assert (a + b)[1..] == a[1..] + b;
      assert AllNull(lambda, a) <==> lambda[a[0]] && AllNull(lambda, a[1..]);
    }
  }

  lemma {:induction false} ScanComplete(g: Grammar, lambda: seq<bool>, first: seq<set<nat>>,
                                        a: seq<nat>, t: nat, s: seq<nat>, n: nat)
    requires Valid(g) && LambdaSound(g, lambda) && |first| == g.nsymbol
    requires forall x | 0 <= x < g.nterminal :: !lambda[x]
    requires forall r | 0 <= r < |g.rules| :: RuleNullClosed(g, lambda, r) && RuleFirstClosed(g, lambda, first, r)
    requires AllBelow(a, g.nsymbol) && t < g.nterminal && DerivesIn(g, a, [t] + s, n)
    ensures t in FirstScan(g.nterminal, lambda, first, a)
    decreases n
  {
    if n > 0 {
      var i, r :| CanExpand(g, a, i, r) && DerivesIn(g, Expand(g, a, i, r), [t] + s, n - 1);
      assert RuleNullClosed(g, lambda, r) && RuleFirstClosed(g, lambda, first, r);
      assert a == a[..i] + [g.rules[r].lhs] + a[i + 1..];
      hide RuleNullClosed, RuleFirstClosed, LambdaSound, DerivesIn, FirstScan;
      ScanBeforeExpand(g, lambda, first, a[..i], r, a[i + 1..]);
      ScanComplete(g, lambda, first, Expand(g, a, i, r), t, s, n - 1);
    }
  }

  /** Closed tables lose nothing when an expansion is undone. */
  lemma ScanBeforeExpand(g: Grammar, lambda: seq<bool>, first: seq<set<nat>>, p: seq<nat>, r: int, q: seq<nat>)
    requires Valid(g) && |lambda| == |first| == g.nsymbol
    requires forall x | 0 <= x < g.nterminal :: !lambda[x]
    requires 0 <= r < |g.rules| && RuleNullClosed(g, lambda, r) && RuleFirstClosed(g, lambda, first, r)
    requires AllBelow(p, g.nsymbol) && AllBelow(q, g.nsymbol)
    ensures FirstScan(g.nterminal, lambda, first, p + g.rules[r].rhs + q)
         <= FirstScan(g.nterminal, lambda, first, p + [g.rules[r].lhs] + q)
  {
    var a, b := g.rules[r].rhs, [g.rules[r].lhs];
    ScanConcat(g.nterminal, lambda, first, p + a, q);
    ScanConcat(g.nterminal, lambda, first, p, a);
    ScanConcat(g.nterminal, lambda, first, p + b, q);
    ScanConcat(g.nterminal, lambda, first, p, b);
    AllNullConcat(lambda, p, a);
    AllNullConcat(lambda, p, b);
    assert first[b[0]] <= FirstScan(g.nterminal, lambda, first, b);
  }

  lemma AllNullConcat(lambda: seq<bool>, a: seq<nat>, b: seq<nat>)
    requires AllBelow(a, |lambda|) && AllBelow(b, |lambda|)
    ensures AllNull(lambda, a + b) <==> AllNull(lambda, a) && AllNull(lambda, b)
  {
    var c := a + b;
    if AllNull(lambda, c) {
      assert forall k | 0 <= k < |a| :: a[k] == c[k];
      assert forall k | 0 <= k < |b| :: b[k] == c[|a| + k];
    }
  }

  /** On exact tables the scan of any string yields exactly the terminals that can begin it. */
  lemma ScanExact(g: Grammar, lambda: seq<bool>, first: seq<set<nat>>, a: seq<nat>, t: nat)
    requires Valid(g) && Exact(g, lambda, first) && AllBelow(a, g.nsymbol)
    ensures t in FirstScan(g.nterminal, lambda, first, a) <==> Begins(g, a, t)
    ensures AllNull(lambda, a) <==> Nullable(g, a)
  {
    ExactIsClosed(g, lambda, first);
    NullExact(g, lambda, a);
    if t in FirstScan(g.nterminal, lambda, first, a) {
      ScanSound(g, lambda, first, a, t);
    }
    if Begins(g, a, t) {
      var s :| Derives(g, a, [t] + s);
      var n: nat :| DerivesIn(g, a, [t] + s, n);
      ScanComplete(g, lambda, first, a, t, s, n);
    }
  }

  lemma TerminalNotNullable(g: Grammar, x: nat)
    requires Valid(g) && x < g.nterminal
    ensures !Nullable(g, [x])
  {
    forall i, r ensures !CanExpand(g, [x], i, r) {
      if 0 <= r < |g.rules| {
        assert ValidRule(g, g.rules[r]);
      }
    }
  }

  lemma ExactIsClosed(g: Grammar, lambda: seq<bool>, first: seq<set<nat>>)
    requires Valid(g) && Exact(g, lambda, first)
    ensures LambdaSound(g, lambda)
    ensures forall x | 0 <= x < g.nterminal :: !lambda[x]
    ensures forall r | 0 <= r < |g.rules| :: RuleNullClosed(g, lambda, r) && RuleFirstClosed(g, lambda, first, r)
  {
    forall x: nat | x < g.nterminal ensures !lambda[x] {
      TerminalNotNullable(g, x);
    }
    forall r | 0 <= r < |g.rules| ensures RuleNullClosed(g, lambda, r) && RuleFirstClosed(g, lambda, first, r) {
      var rhs := g.rules[r].rhs;
      assert ValidRule(g, g.rules[r]);
      if AllNull(lambda, rhs) {
        NullableOfAll(g, lambda, rhs);
        DerivesByRule(g, r);
        DerivesTrans(g, [g.rules[r].lhs], rhs, []);
      }
      forall t: nat | t in FirstScan(g.nterminal, lambda, first, rhs) ensures t in first[g.rules[r].lhs] {
        ScanSound(g, lambda, first, rhs, t);
        BeginsByRule(g, r, t);
      }
    }
  }

  // ----- the computation -----

  /** Pairs still missing from a table; each pass that makes progress removes some. */
  ghost function MissingNull(lambda: seq<bool>): set<nat> {
    set x: nat | x < |lambda| && !lambda[x]
  }

  ghost function MissingFirst(nterminal: nat, first: seq<set<nat>>): set<(nat, nat)> {
    set x: nat, t: nat | x < |first| && t < nterminal && t !in first[x] :: (x, t)
  }

  /** The table only grew, and `changed` says whether it grew at all. */
  ghost predicate Grows(before: seq<set<nat>>, after: seq<set<nat>>, changed: bool) {
    && |before| == |after|
    && (forall x | 0 <= x < |before| :: before[x] <= after[x])
    && (changed ==> exists x, t :: 0 <= x < |before| && t in after[x] && t !in before[x])
    && (!changed ==> before == after)
  }

  method FindFirstSets(g: Grammar) returns (lambda: seq<bool>, first: seq<set<nat>>)
    requires Valid(g)
    ensures Exact(g, lambda, first)
  {
    lambda := FindLambdas(g);
    first := seq(g.nsymbol, _ => {});
    var progress := true;
    while progress
      invariant FirstSound(g, first)
      invariant !progress ==> forall r | 0 <= r < |g.rules| :: RuleFirstClosed(g, lambda, first, r)
      decreases MissingFirst(g.nterminal, first), progress
    {
      ghost var before := first;
      progress := false;
      for r := 0 to |g.rules|
        invariant FirstSound(g, first) && Grows(before, first, progress)
        invariant !progress ==> forall r' | 0 <= r' < r :: RuleFirstClosed(g, lambda, first, r')
      {
        var changed;
        first, changed := AddFirstOfRule(g, lambda, first, r);
        progress := progress || changed;
      }
      assert MissingFirst(g.nterminal, first) <= MissingFirst(g.nterminal, before);
      if progress {
        ghost var x, t :| 0 <= x < |first| && t in first[x] && t !in before[x];
        assert (x, t) in MissingFirst(g.nterminal, before);
      }
    }
    forall x, t: nat | g.nterminal <= x < g.nsymbol && Begins(g, [x], t) ensures t in first[x] {
      var s :| Derives(g, [x], [t] + s);
      var n: nat :| DerivesIn(g, [x], [t] + s, n);
      ScanComplete(g, lambda, first, [x], t, s, n);
    }
  }

  method FindLambdas(g: Grammar) returns (lambda: seq<bool>)
    requires Valid(g)
    ensures LambdaSound(g, lambda)
    ensures forall x | 0 <= x < g.nsymbol :: lambda[x] <==> Nullable(g, [x])
    ensures forall x | 0 <= x < g.nterminal :: !lambda[x]
    ensures forall r | 0 <= r < |g.rules| :: RuleNullClosed(g, lambda, r)
  {
    lambda := seq(g.nsymbol, _ => false);
    var progress := true;
    while progress
      invariant LambdaSound(g, lambda) && forall x | 0 <= x < g.nterminal :: !lambda[x]
      invariant !progress ==> forall r | 0 <= r < |g.rules| :: RuleNullClosed(g, lambda, r)
      decreases MissingNull(lambda), progress
    {
      ghost var before := lambda;
      progress := false;
      for r := 0 to |g.rules|
        invariant LambdaSound(g, lambda) && forall x | 0 <= x < g.nterminal :: !lambda[x]
        invariant forall x | 0 <= x < g.nsymbol && before[x] :: lambda[x]
        invariant progress <==> lambda != before
        invariant !progress ==> forall r' | 0 <= r' < r :: RuleNullClosed(g, lambda, r')
      {
        var rule := g.rules[r];
        assert ValidRule(g, rule);
        if lambda[rule.lhs] { continue; }
        var i := 0;
        while i < |rule.rhs| && lambda[rule.rhs[i]]
          invariant i <= |rule.rhs| && AllNull(lambda, rule.rhs[..i])
        {
          i := i + 1;
        }
        if i == |rule.rhs| {
          assert rule.rhs[..i] == rule.rhs;
          NullableOfAll(g, lambda, rule.rhs);
          DerivesByRule(g, r);
          DerivesTrans(g, [rule.lhs], rule.rhs, []);
          lambda := lambda[rule.lhs := true];
          progress := true;
        }
      }
      assert MissingNull(lambda) <= MissingNull(before);
      if progress {
        ghost var x: nat :| x < |lambda| && lambda[x] != before[x];
        assert x in MissingNull(before);
      }
    }
    forall x | 0 <= x < g.nsymbol ensures lambda[x] <==> Nullable(g, [x]) {
      NullExact(g, lambda, [x]);
    }
  }

  /** SetAdd and SetUnion: enlarge one set and note whether it changed. */
  method Union(first: seq<set<nat>>, x: nat, s: set<nat>, progress: bool)
    returns (first': seq<set<nat>>, progress': bool)
    requires x < |first|
    ensures first' == first[x := first[x] + s]
    ensures progress' <==> progress || !(s <= first[x])
    ensures s <= first[x] ==> first' == first
  {
    progress' := progress || !(s <= first[x]);
    first' := first[x := first[x] + s];
    assert s <= first[x] ==> first[x] + s == first[x];
  }

  /** The table with the terminals that a scan of the rule's right-hand side finds added to its left-hand side's set. */
  function WithRule(g: Grammar, lambda: seq<bool>, first: seq<set<nat>>, r: nat): (first': seq<set<nat>>)
    requires |lambda| == |first| == g.nsymbol && r < |g.rules|
    requires g.rules[r].lhs < g.nsymbol && AllBelow(g.rules[r].rhs, g.nsymbol)
  {
    var x := g.rules[r].lhs;
    first[x := first[x] + FirstScan(g.nterminal, lambda, first, g.rules[r].rhs)]
  }

  lemma WithRuleSound(g: Grammar, lambda: seq<bool>, first: seq<set<nat>>, r: nat)
    requires Valid(g) && LambdaSound(g, lambda) && FirstSound(g, first) && r < |g.rules| && ValidRule(g, g.rules[r])
    ensures FirstSound(g, WithRule(g, lambda, first, r))
  {
    var rule := g.rules[r];
    forall t | t in FirstScan(g.nterminal, lambda, first, rule.rhs) ensures Begins(g, [rule.lhs], t) {
      ScanSound(g, lambda, first, rule.rhs, t);
      BeginsByRule(g, r, t);
    }
  }

  lemma RuleAdded(g: Grammar, lambda: seq<bool>, first: seq<set<nat>>, r: nat, first': seq<set<nat>>, changed: bool)
    requires Valid(g) && |lambda| == |first| == g.nsymbol && r < |g.rules| && ValidRule(g, g.rules[r])
    requires first' == WithRule(g, lambda, first, r) && (changed <==> first'[g.rules[r].lhs] != first[g.rules[r].lhs])
    ensures Grows(first, first', changed) && (!changed ==> RuleFirstClosed(g, lambda, first, r))
  {
    var x := g.rules[r].lhs;
    if changed {
      var t :| t in first'[x] && t !in first[x];
      assert 0 <= x < |first|;
    }
  }

  /** One rule's pass over the table adds exactly what the scan of the right-hand side finds, although the loop skips
      the left-hand side's own set as a source. */
  method AddFirstOfRule(g: Grammar, lambda: seq<bool>, first: seq<set<nat>>, r: nat)
    returns (first': seq<set<nat>>, changed: bool)
    requires Valid(g) && LambdaSound(g, lambda) && FirstSound(g, first) && r < |g.rules|
    ensures ValidRule(g, g.rules[r]) && first' == WithRule(g, lambda, first, r) && FirstSound(g, first')
    ensures Grows(first, first', changed) && (!changed ==> RuleFirstClosed(g, lambda, first, r))
  {
    var rule := g.rules[r];
    assert ValidRule(g, rule);
    WithRuleSound(g, lambda, first, r);
    hide Valid, LambdaSound, FirstSound;
    var s1 := rule.lhs;
    first', changed := first, false;
    var i := 0;
    ghost var scan := FirstScan(g.nterminal, lambda, first, rule.rhs);
    ghost var left := scan;
    while i < |rule.rhs|
      invariant i <= |rule.rhs| && left == FirstScan(g.nterminal, lambda, first, rule.rhs[i..])
      invariant |first'| == |first| && first' == first[s1 := first'[s1]] && first[s1] <= first'[s1]
      invariant first[s1] + scan == first'[s1] + left && (changed <==> first'[s1] != first[s1])
    {
      var s2 := rule.rhs[i];
      assert rule.rhs[i..][1..] == rule.rhs[i + 1..];
      left := FirstScan(g.nterminal, lambda, first, rule.rhs[i + 1..]);
      if s2 < g.nterminal {
        first', changed := Union(first', s1, {s2}, changed);
        left := {};
        break;
      } else if s1 == s2 {
        if !lambda[s1] { left := {}; break; }
      } else {
        first', changed := Union(first', s1, first'[s2], changed);
        if !lambda[s2] { left := {}; break; }
      }
      i := i + 1;
    }
    assert first[s1] + scan == first'[s1] + left && left == {};
    assert first[s1] + scan == first'[s1];
    hide FirstScan, Grows, RuleFirstClosed;
    RuleAdded(g, lambda, first, r, first', changed);
  }
}
