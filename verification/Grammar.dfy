/** Context-free grammars in the form Lemon holds them once symbols are sorted and indexed, and what they derive. */
module Grammars {
  datatype Option<+T> = None | Some(value: T)

  datatype Assoc = Left | Right | NonAssoc | Unknown

  /** `precsym` is the rule's precedence symbol, already filled in. */
  datatype Rule = Rule(lhs: nat, rhs: seq<nat>, precsym: Option<nat>)

  /** Symbols are their indices: 0 is `$`, terminals come first, and `nsymbol` is the index of `{default}`. */
  datatype Grammar = Grammar(nterminal: nat, nsymbol: nat, rules: seq<Rule>, start: nat,
                             prec: seq<int>, assoc: seq<Assoc>)

  /** The grammar reader never puts `$` on a right-hand side, and sets a symbol's precedence and associativity
      together.  That the start symbol is on no right-hand side is what FindStates reports an error for. */
  ghost predicate Valid(g: Grammar) {
    && 0 < g.nterminal <= g.start < g.nsymbol
    && |g.prec| == |g.assoc| == g.nsymbol
    && (forall x | 0 <= x < g.nsymbol && g.prec[x] >= 0 :: g.assoc[x] != Unknown)
    && (forall r | 0 <= r < |g.rules| :: ValidRule(g, g.rules[r]))
  }

  predicate ValidRule(g: Grammar, rule: Rule) {
    && g.nterminal <= rule.lhs < g.nsymbol
    && (forall k | 0 <= k < |rule.rhs| :: 0 < rule.rhs[k] < g.nsymbol && rule.rhs[k] != g.start)
    && (rule.precsym.Some? ==> rule.precsym.value < g.nsymbol)
  }

  predicate AllBelow(a: seq<nat>, bound: nat) {
    forall k | 0 <= k < |a| :: a[k] < bound
  }

  // ----- derivations -----

  predicate CanExpand(g: Grammar, a: seq<nat>, i: int, r: int) {
    0 <= i < |a| && 0 <= r < |g.rules| && a[i] == g.rules[r].lhs
  }

  /** One derivation step: the symbol at `i` replaced by the right-hand side of rule `r`. */
  function Expand(g: Grammar, a: seq<nat>, i: int, r: int): seq<nat>
    requires CanExpand(g, a, i, r)
  {
    a[..i] + g.rules[r].rhs + a[i + 1..]
  }

  ghost predicate DerivesIn(g: Grammar, a: seq<nat>, b: seq<nat>, n: nat)
    decreases n
  {
    if n == 0 then a == b
    else exists i, r :: CanExpand(g, a, i, r) && DerivesIn(g, Expand(g, a, i, r), b, n - 1)
  }

  ghost predicate Derives(g: Grammar, a: seq<nat>, b: seq<nat>) {
    exists n: nat :: DerivesIn(g, a, b, n)
  }

  ghost predicate Nullable(g: Grammar, a: seq<nat>) {
    Derives(g, a, [])
  }

  /** Terminal `t` begins a sentential form derived from `a`. */
  ghost predicate Begins(g: Grammar, a: seq<nat>, t: nat) {
    t < g.nterminal && exists s :: Derives(g, a, [t] + s)
  }

  lemma DerivesRefl(g: Grammar, a: seq<nat>)
    ensures Derives(g, a, a)
  {
    assert DerivesIn(g, a, a, 0);
  }

  lemma DerivesByRule(g: Grammar, r: int)
    requires 0 <= r < |g.rules|
    ensures Derives(g, [g.rules[r].lhs], g.rules[r].rhs)
  {
    var a := [g.rules[r].lhs];
    assert CanExpand(g, a, 0, r) && Expand(g, a, 0, r) == g.rules[r].rhs;
    assert DerivesIn(g, Expand(g, a, 0, r), g.rules[r].rhs, 0);
    assert DerivesIn(g, a, g.rules[r].rhs, 1);
  }

  lemma {:induction false} DerivesInTrans(g: Grammar, a: seq<nat>, b: seq<nat>, c: seq<nat>, m: nat, n: nat)
    requires DerivesIn(g, a, b, m) && DerivesIn(g, b, c, n)
    ensures DerivesIn(g, a, c, m + n)
    decreases m
  {
    if m > 0 {
      var i, r :| CanExpand(g, a, i, r) && DerivesIn(g, Expand(g, a, i, r), b, m - 1);
      DerivesInTrans(g, Expand(g, a, i, r), b, c, m - 1, n);
    }
  }

  lemma DerivesTrans(g: Grammar, a: seq<nat>, b: seq<nat>, c: seq<nat>)
    requires Derives(g, a, b) && Derives(g, b, c)
    ensures Derives(g, a, c)
  {
    var m: nat :| DerivesIn(g, a, b, m);
    var n: nat :| DerivesIn(g, b, c, n);
    DerivesInTrans(g, a, b, c, m, n);
  }

  lemma {:induction false} DerivesInContext(g: Grammar, p: seq<nat>, a: seq<nat>, b: seq<nat>, s: seq<nat>, n: nat)
    requires DerivesIn(g, a, b, n)
    ensures DerivesIn(g, p + a + s, p + b + s, n)
    decreases n
  {
    if n > 0 {
      hide CanExpand, Expand;
      var i, r :| CanExpand(g, a, i, r) && DerivesIn(g, Expand(g, a, i, r), b, n - 1);
      DerivesInContext(g, p, Expand(g, a, i, r), b, s, n - 1);
      ExpandInContext(g, p, a, s, i, r);
    }
  }

  lemma ExpandInContext(g: Grammar, p: seq<nat>, a: seq<nat>, s: seq<nat>, i: int, r: int)
    requires CanExpand(g, a, i, r)
    ensures CanExpand(g, p + a + s, |p| + i, r) && Expand(g, p + a + s, |p| + i, r) == p + Expand(g, a, i, r) + s
  {
  }

  /** Derivations of two adjacent parts combine. */
  lemma DerivesConcat(g: Grammar, a: seq<nat>, a': seq<nat>, b: seq<nat>, b': seq<nat>)
    requires Derives(g, a, a') && Derives(g, b, b')
    ensures Derives(g, a + b, a' + b')
  {
    var m: nat :| DerivesIn(g, a, a', m);
    var n: nat :| DerivesIn(g, b, b', n);
    hide DerivesIn;
    DerivesInContext(g, [], a, a', b, m);
    DerivesInContext(g, a', b, b', [], n);
    assert [] + a + b == a + b && [] + a' + b == a' + b;
    assert a' + b + [] == a' + b && a' + b' + [] == a' + b';
    DerivesInTrans(g, a + b, a' + b, a' + b', m, n);
  }

  lemma DerivesAround(g: Grammar, p: seq<nat>, a: seq<nat>, b: seq<nat>, w: seq<nat>)
    requires Derives(g, a, b)
    ensures Derives(g, p + a + w, p + b + w)
  {
    var n: nat :| DerivesIn(g, a, b, n);
    DerivesInContext(g, p, a, b, w, n);
  }

  // ----- the symbols that matter -----

  /** The symbol occurs in something that the start symbol derives. */
  ghost predicate Occurs(g: Grammar, x: nat) {
    exists a, b :: Derives(g, [g.start], a + [x] + b)
  }

  ghost predicate AllOccur(g: Grammar, a: seq<nat>) {
    forall k | 0 <= k < |a| :: a[k] < g.nsymbol && Occurs(g, a[k])
  }

  lemma StartOccurs(g: Grammar)
    ensures Occurs(g, g.start)
  {
    DerivesRefl(g, [g.start]);
    assert [] + [g.start] + [] == [g.start];
  }

  /** Only the start symbol and what stands on some right-hand side can occur. */
  ghost predicate OnRight(g: Grammar, x: nat) {
    exists r, k :: 0 <= r < |g.rules| && 0 <= k < |g.rules[r].rhs| && g.rules[r].rhs[k] == x
  }

  lemma {:induction false} OccursOnRight(g: Grammar, a: seq<nat>, b: seq<nat>, n: nat, k: nat)
    requires DerivesIn(g, a, b, n) && k < |b|
    ensures b[k] in a || OnRight(g, b[k])
    decreases n
  {
    if n > 0 {
      var i, r :| CanExpand(g, a, i, r) && DerivesIn(g, Expand(g, a, i, r), b, n - 1);
      OccursOnRight(g, Expand(g, a, i, r), b, n - 1, k);
      if b[k] in Expand(g, a, i, r) { ExpandedSymbols(g, a, i, r, b[k]); }
    }
  }

  lemma ExpandedSymbols(g: Grammar, a: seq<nat>, i: int, r: int, x: nat)
    requires CanExpand(g, a, i, r) && x in Expand(g, a, i, r)
    ensures x in a || OnRight(g, x)
  {
    if x in g.rules[r].rhs {
      var k :| 0 <= k < |g.rules[r].rhs| && g.rules[r].rhs[k] == x;
    }
  }

  /** So a symbol that no rule uses, such as `error` where there is no rule for errors, does not occur. */
  lemma UnusedNeverOccurs(g: Grammar, x: nat)
    requires x != g.start && !OnRight(g, x)
    ensures !Occurs(g, x)
  {
    if Occurs(g, x) {
      var a, b :| Derives(g, [g.start], a + [x] + b);
      var n: nat :| DerivesIn(g, [g.start], a + [x] + b, n);
      assert (a + [x] + b)[|a|] == x;
      OccursOnRight(g, [g.start], a + [x] + b, n, |a|);
      assert false;
    }
  }

  /** Where the left-hand side of a rule occurs, all of its right-hand side does. */
  lemma RuleOccurs(g: Grammar, r: nat)
    requires Valid(g) && r < |g.rules| && Occurs(g, g.rules[r].lhs)
    ensures AllOccur(g, g.rules[r].rhs)
  {
    var x, rhs := g.rules[r].lhs, g.rules[r].rhs;
    assert ValidRule(g, g.rules[r]);
    hide Derives;
    var a, b :| Derives(g, [g.start], a + [x] + b);
    DerivesByRule(g, r);
    DerivesAround(g, a, [x], rhs, b);
    DerivesTrans(g, [g.start], a + [x] + b, a + rhs + b);
    forall k | 0 <= k < |rhs| ensures Occurs(g, rhs[k]) {
      assert a + rhs + b == (a + rhs[..k]) + [rhs[k]] + (rhs[k + 1..] + b);
    }
  }
}
