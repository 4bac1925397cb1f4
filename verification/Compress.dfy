/** CompressTables: the most frequent reduction of each state becomes its default. */
module Compress {
  import opened Grammars
  import opened Items
  import opened MergeSort
  import opened Structs
  import opened M = Machine
  import opened L = Lookaheads
  import States
  import A = Actions
  import C = Completeness

  ghost predicate IsLive(ap: seq<Action>, a: Action) {
    a in ap && A.Live(a)
  }

  predicate IsReduce(a: Action, r: nat) {
    a.kind == Reduce && a.target == r
  }

  /** How many live reductions by rule `r` the list holds. */
  function Count(ap: seq<Action>, r: nat): nat {
    if ap == [] then 0 else Count(ap[1..], r) + if IsReduce(ap[0], r) then 1 else 0
  }

  predicate IsStartRule(g: Grammar, r: nat) {
    r < |g.rules| && g.rules[r].lhs == g.start
  }

  /** Counting is counting the places. */
  ghost function Places(ap: seq<Action>, r: nat): set<int> {
    set k | 0 <= k < |ap| && ap[k].kind == Reduce && ap[k].target == r
  }

  lemma {:induction false} CountIsPlaces(ap: seq<Action>, r: nat)
    ensures Count(ap, r) == |set k | 0 <= k < |ap| && ap[k].kind == Reduce && ap[k].target == r|
    decreases |ap|
  {
    if ap != [] {
      var n := |ap| - 1;
      CountIsPlaces(ap[..n], r);
      CountStep(ap, n);
      assert ap[..n + 1] == ap;
      hide Count;
      LastPlace(ap, r);
    }
  }

  lemma LastPlace(ap: seq<Action>, r: nat)
    requires ap != []
    ensures var n := |ap| - 1;
            n !in Places(ap[..n], r) && Places(ap, r) == Places(ap[..n], r) + if IsReduce(ap[n], r) then {n} else {}
  {
    var n := |ap| - 1;
    assert forall k | 0 <= k < n :: ap[..n][k] == ap[k];
  }

  /** The first place of rule `b` comes before all places of rules that are reduced as often. */
  ghost predicate FirstOfBest(g: Grammar, ap: seq<Action>, b: nat) {
    exists i :: 0 <= i < |ap| && IsReduce(ap[i], b) && NoneAsOften(g, ap, b, i)
  }

  ghost predicate NoneAsOften(g: Grammar, ap: seq<Action>, b: nat, i: int)
    requires i <= |ap|
  {
    forall k | 0 <= k < i && ap[k].kind == Reduce && !IsStartRule(g, ap[k].target) ::
      Count(ap, ap[k].target) < Count(ap, b)
  }

  /** Rule `best`, not of the start symbol, is reduced in the list, none is reduced more often, and of those that are
      reduced as often it is the first. */
  ghost predicate MostFrequent(g: Grammar, ap: seq<Action>, best: Option<nat>) {
    match best
    case Some(b) =>
      && !IsStartRule(g, b) && Count(ap, b) > 0 && FirstOfBest(g, ap, b)
      && forall r: nat | !IsStartRule(g, r) :: Count(ap, r) <= Count(ap, b)
    case None => forall r: nat | !IsStartRule(g, r) :: Count(ap, r) == 0
  }

  lemma {:induction false} CountFrom(ap: seq<Action>, i: nat, r: nat)
    requires i <= |ap|
    ensures Count(ap, r) == Count(ap[..i], r) + Count(ap[i..], r)
    decreases i
  {
    if i == 0 {
      assert ap[..0] == [] && ap[0..] == ap;
    } else {
      CountFrom(ap[1..], i - 1, r);
      assert ap[..i][1..] == ap[1..][..i - 1] && ap[1..][i - 1..] == ap[i..];
      assert ap[..i][0] == ap[0];
    }
  }

  /** Whether rule `r` occurs among the first `i` actions decides whether its first count has been taken. */
  ghost predicate Scanned(g: Grammar, ap: seq<Action>, i: nat, best: Option<nat>, nbest: nat)
    requires i <= |ap|
  {
    && (best.Some? ==> !IsStartRule(g, best.value) && Count(ap[..i], best.value) > 0 && nbest == Count(ap, best.value))
    && (best.None? ==> nbest == 0)
    && (forall r: nat | !IsStartRule(g, r) && Count(ap[..i], r) > 0 :: Count(ap, r) <= nbest)
    && (best.Some? ==> FirstOfBest(g, ap, best.value))
  }

  method FindBest(g: Grammar, ap: seq<Action>) returns (best: Option<nat>)
    ensures MostFrequent(g, ap, best)
  {
    best := None;
    var nbest: nat := 0;
    for i := 0 to |ap|
      invariant Scanned(g, ap, i, best, nbest)
    {
      CountStep(ap, i);
      if ap[i].kind != Reduce || IsStartRule(g, ap[i].target) || best == Some(ap[i].target) { continue; }
      var rp := ap[i].target;
      var n := CountRest(ap, i, best);
      CountFrom(ap, i, rp);
      if n > nbest {
        NewBest(g, ap, i, best, nbest);
        nbest, best := n, Some(rp);
      }
    }
    assert ap[..|ap|] == ap;
  }

  /** A rule that is reduced more often than all before it is the first of those reduced as often. */
  lemma NewBest(g: Grammar, ap: seq<Action>, i: nat, best: Option<nat>, nbest: nat)
    requires i < |ap| && Scanned(g, ap, i, best, nbest) && ap[i].kind == Reduce && Count(ap, ap[i].target) > nbest
    ensures FirstOfBest(g, ap, ap[i].target)
  {
    forall k | 0 <= k < i && ap[k].kind == Reduce && !IsStartRule(g, ap[k].target)
      ensures Count(ap, ap[k].target) < Count(ap, ap[i].target)
    {
      assert ap[..i][k] == ap[k] && IsReduce(ap[k], ap[k].target);
      CountMember(ap[..i], ap[k].target);
    }
    assert NoneAsOften(g, ap, ap[i].target, i);
  }

  lemma CountStep(ap: seq<Action>, i: nat)
    requires i < |ap|
    ensures forall r :: Count(ap[..i + 1], r) == Count(ap[..i], r) + if IsReduce(ap[i], r) then 1 else 0
  {
    forall r ensures Count(ap[..i + 1], r) == Count(ap[..i], r) + if IsReduce(ap[i], r) then 1 else 0 {
      CountFrom(ap[..i + 1], i, r);
      assert ap[..i + 1][..i] == ap[..i] && ap[..i + 1][i..] == [ap[i]];
      assert [ap[i]][1..] == [];
    }
  }

  /** The inner loop: how often the rule of action `i` is reduced from there on. */
  method CountRest(ap: seq<Action>, i: nat, best: Option<nat>) returns (n: nat)
    requires i < |ap| && ap[i].kind == Reduce && best != Some(ap[i].target)
    ensures n == Count(ap[i..], ap[i].target)
  {
    n := 1;
    ghost var r := ap[i].target;
    assert ap[i..i + 1] == [ap[i]] && [ap[i]][1..] == [];
    for k := i + 1 to |ap|
      invariant n == Count(ap[i..k], r)
    {
      assert ap[i..k + 1][..k - i] == ap[i..k] && ap[i..k + 1][k - i] == ap[k];
      CountStep(ap[i..k + 1], k - i);
      assert ap[i..k + 1][..k - i + 1] == ap[i..k + 1];
      if ap[k].kind != Reduce || best == Some(ap[k].target) { continue; }
      if ap[k].target == ap[i].target {
        n := n + 1;
      }
    }
    assert ap[i..|ap|] == ap[i..];
  }

  lemma {:induction false} CountMember(ap: seq<Action>, r: nat)
    ensures Count(ap, r) > 0 <==> exists a :: a in ap && IsReduce(a, r)
  {
    if ap != [] {
      CountMember(ap[1..], r);
      assert ap == [ap[0]] + ap[1..];
      if IsReduce(ap[0], r) { assert ap[0] in ap; }
    }
  }

  // ----- combining -----

  /** The list with its first reduction by `best` moved to `{default}` and all others marked NOT_USED. */
  function Combined(g: Grammar, ap: seq<Action>, best: nat, first: bool): seq<Action> {
    if ap == [] then []
    else if IsReduce(ap[0], best) then
      [if first then ap[0].(sp := g.nsymbol) else ap[0].(kind := NotUsed)] + Combined(g, ap[1..], best, false)
    else [ap[0]] + Combined(g, ap[1..], best, first)
  }

  lemma {:induction false} CombinedSplit(g: Grammar, ap: seq<Action>, best: nat, i: nat)
    requires i < |ap| && IsReduce(ap[i], best) && forall k | 0 <= k < i :: !IsReduce(ap[k], best)
    ensures Combined(g, ap, best, true) == ap[..i] + [ap[i].(sp := g.nsymbol)] + Combined(g, ap[i + 1..], best, false)
    decreases i
  {
    if i > 0 {
      CombinedSplit(g, ap[1..], best, i - 1);
      assert ap[1..][i..] == ap[i + 1..];
      assert ap[..i] == [ap[0]] + ap[1..][..i - 1];
    }
  }

  /** The two loops that edit the list in place: find the first such reduction, then mark the others. */
  method Combine(g: Grammar, ap: seq<Action>, best: nat) returns (ap': seq<Action>)
    requires Count(ap, best) > 0
    ensures ap' == Combined(g, ap, best, true)
  {
    CountMember(ap, best);
    ghost var w :| 0 <= w < |ap| && IsReduce(ap[w], best);
    var i := 0;
    while !IsReduce(ap[i], best)
      invariant i <= w && forall k | 0 <= k < i :: !IsReduce(ap[k], best)
      decreases |ap| - i
    {
      i := i + 1;
    }
    CombinedSplit(g, ap, best, i);
    ap' := MarkOthers(g, ap[i := ap[i].(sp := g.nsymbol)], best, i + 1);
    assert ap[i := ap[i].(sp := g.nsymbol)][i + 1..] == ap[i + 1..];
    assert ap[i := ap[i].(sp := g.nsymbol)][..i + 1] == ap[..i] + [ap[i].(sp := g.nsymbol)];
  }

  method MarkOthers(g: Grammar, ap: seq<Action>, best: nat, i: nat) returns (ap': seq<Action>)
    requires i <= |ap|
    ensures ap' == ap[..i] + Combined(g, ap[i..], best, false)
  {
    ap' := ap;
    var k := i;
    while k < |ap|
      invariant i <= k <= |ap| == |ap'| && ap'[k..] == ap[k..]
      invariant ap'[..k] + Combined(g, ap[k..], best, false) == ap[..i] + Combined(g, ap[i..], best, false)
    {
      assert ap[k..][1..] == ap[k + 1..] && ap'[k] == ap'[k..][0] == ap[k];
      ghost var before := ap'[..k];
      if IsReduce(ap'[k], best) {
        ap' := ap'[k := ap'[k].(kind := NotUsed)];
      }
      assert ap'[..k + 1] == before + [ap'[k]];
      assert ap'[k + 1..] == ap[k + 1..];
      k := k + 1;
    }
    assert ap'[..k] + [] == ap';
  }

  /** The live actions of the compressed list: all but the reductions by `r`, and one default reduction by `r`. */
  ghost predicate Compressed(g: Grammar, ap: seq<Action>, ap': seq<Action>, r: nat) {
    forall a :: IsLive(ap', a) <==> (IsLive(ap, a) && !IsReduce(a, r)) || a == Action(g.nsymbol, Reduce, r)
  }

  lemma {:induction false} CombinedLive(g: Grammar, ap: seq<Action>, r: nat, first: bool, a: Action)
    ensures IsLive(Combined(g, ap, r, first), a) <==>
              (IsLive(ap, a) && !IsReduce(a, r)) || (first && Count(ap, r) > 0 && a == Action(g.nsymbol, Reduce, r))
    decreases |ap|
  {
    if ap != [] {
      var rest := Combined(g, ap[1..], r, first && !IsReduce(ap[0], r));
      CombinedLive(g, ap[1..], r, first && !IsReduce(ap[0], r), a);
      assert ap == [ap[0]] + ap[1..];
      var c := Combined(g, ap, r, first);
      assert c == [c[0]] + rest;
      assert a in c <==> a == c[0] || a in rest;
      assert a in ap <==> a == ap[0] || a in ap[1..];
    }
  }

  /** Combining reductions gives no symbol a second live action. */
  lemma {:induction false} CombinedUnique(g: Grammar, ap: seq<Action>, r: nat, first: bool)
    requires A.UniqueLive(ap) && forall a | a in ap :: a.sp < g.nsymbol
    ensures A.UniqueLive(Combined(g, ap, r, first))
    decreases |ap|
  {
    if ap != [] {
      var f := first && !IsReduce(ap[0], r);
      var rest, c := Combined(g, ap[1..], r, f), Combined(g, ap, r, first);
      assert ap == [ap[0]] + ap[1..] && c == [c[0]] + rest;
      forall i, j ensures !A.BothLive(ap[1..], i, j) {
        assert !A.BothLive(ap, i + 1, j + 1);
      }
      CombinedUnique(g, ap[1..], r, f);
      forall i, j ensures !A.BothLive(c, i, j) {
        if i > 0 && A.BothLive(c, i, j) {
          assert A.BothLive(rest, i - 1, j - 1);
        } else if i == 0 && A.BothLive(c, i, j) {
          HeadUnique(g, ap, r, first, j);
        }
      }
    }
  }

  lemma HeadUnique(g: Grammar, ap: seq<Action>, r: nat, first: bool, j: nat)
    requires A.UniqueLive(ap) && ap != [] && forall a | a in ap :: a.sp < g.nsymbol
    ensures !A.BothLive(Combined(g, ap, r, first), 0, j)
  {
    var f := first && !IsReduce(ap[0], r);
    var rest, c := Combined(g, ap[1..], r, f), Combined(g, ap, r, first);
    assert c == [c[0]] + rest;
    if 0 < j < |c| {
      CombinedLive(g, ap[1..], r, f, c[j]);
      assert c[j] in rest;
      forall a | IsLive(ap[1..], a) ensures A.Live(ap[0]) ==> a.sp != ap[0].sp {
        var k :| 0 <= k < |ap| - 1 && ap[1..][k] == a;
        assert !A.BothLive(ap, 0, k + 1);
      }
    }
  }

  // ----- sorting keeps what is live -----

  lemma {:induction false} TwiceIn<T>(s: seq<T>, x: T)
    ensures multiset(s)[x] >= 2 <==> exists i, j :: 0 <= i < j < |s| && s[i] == x && s[j] == x
  {
    if s != [] {
      var n := |s| - 1;
      TwiceIn(s[..n], x);
      assert s == s[..n] + [s[n]];
      if s[n] == x {
        if x in s[..n] {
          assert multiset(s[..n])[x] > 0;
        } else {
          assert multiset(s[..n])[x] == 0;
        }
      }
    }
  }

  lemma SortedUnique(ap: seq<Action>, r: seq<Action>)
    requires A.UniqueLive(ap) && multiset(r) == multiset(ap)
    ensures A.UniqueLive(r) && forall a :: IsLive(r, a) <==> IsLive(ap, a)
  {
    States.SameElements(ap, r);
    forall i, j ensures !A.BothLive(r, i, j) {
      TwoLive(ap, r, i, j);
    }
  }

  /** Two live actions on one symbol are still two in another order. */
  lemma TwoLive(ap: seq<Action>, r: seq<Action>, i: int, j: int)
    requires multiset(r) == multiset(ap)
    ensures A.BothLive(r, i, j) ==> exists k, m :: A.BothLive(ap, k, m)
  {
    States.SameElements(ap, r);
    if A.BothLive(r, i, j) {
      if r[i] == r[j] {
        TwiceIn(r, r[i]);
        TwiceIn(ap, r[i]);
        var k, m :| 0 <= k < m < |ap| && ap[k] == r[i] && ap[m] == r[i];
        assert A.BothLive(ap, k, m);
      } else {
        assert r[i] in ap && r[j] in ap;
        var k :| 0 <= k < |ap| && ap[k] == r[i];
        var m :| 0 <= m < |ap| && ap[m] == r[j];
        assert A.BothLive(ap, if k < m then k else m, if k < m then m else k);
      }
    }
  }

  // ----- CompressTables -----

  /** What compression makes of a state's actions: the most frequent rule that may be a default becomes the default. */
  ghost predicate Outcome(g: Grammar, ap: seq<Action>, ap': seq<Action>) {
    && A.UniqueLive(ap')
    && ((ap' == ap && MostFrequent(g, ap, None))
        || exists r: nat :: MostFrequent(g, ap, Some(r)) && Compressed(g, ap, ap', r))
  }

  /** Two rules are not both the first of the most frequent. */
  lemma BestIsOne(g: Grammar, ap: seq<Action>, b: nat, c: nat)
    requires MostFrequent(g, ap, Some(b)) && MostFrequent(g, ap, Some(c))
    ensures b == c
  {
    var i :| 0 <= i < |ap| && IsReduce(ap[i], b) && NoneAsOften(g, ap, b, i);
    var j :| 0 <= j < |ap| && IsReduce(ap[j], c) && NoneAsOften(g, ap, c, j);
    assert Count(ap, b) == Count(ap, c);
  }

  /** So what is live after compression is determined by the list before. */
  lemma CompressedDetermined(g: Grammar, ap: seq<Action>, p: seq<Action>, p': seq<Action>, a: Action)
    requires Outcome(g, ap, p) && Outcome(g, ap, p')
    ensures a in p && A.Live(a) <==> a in p' && A.Live(a)
  {
    hide MostFrequent, A.UniqueLive;
    if MostFrequent(g, ap, None) {
      NoneOrSome(g, ap, p);
      NoneOrSome(g, ap, p');
    } else {
      var r: nat :| MostFrequent(g, ap, Some(r)) && Compressed(g, ap, p, r);
      var r': nat :| MostFrequent(g, ap, Some(r')) && Compressed(g, ap, p', r');
      BestIsOne(g, ap, r, r');
      assert IsLive(p, a) <==> IsLive(p', a);
    }
  }

  lemma NoneOrSome(g: Grammar, ap: seq<Action>, p: seq<Action>)
    requires Outcome(g, ap, p)
    ensures MostFrequent(g, ap, None) ==> p == ap && forall r: nat :: !MostFrequent(g, ap, Some(r))
  {
    hide A.UniqueLive, Compressed;
  }

  /** The default reduction: by the rule, not of the start symbol, that most reductions of the list are by, and of
      several such rules by the one that comes first. Nothing else changes. */
  lemma DefaultDecided(g: Grammar, ap: seq<Action>, ap': seq<Action>, i: nat)
    requires Outcome(g, ap, ap') && i < |ap| && ap[i].kind == Reduce
    requires !(ap[i].target < |g.rules| && g.rules[ap[i].target].lhs == g.start)
    requires forall k | 0 <= k < |ap| && ap[k].kind == Reduce
                        && !(ap[k].target < |g.rules| && g.rules[ap[k].target].lhs == g.start) ::
               var n := |set m | 0 <= m < |ap| && ap[m].kind == Reduce && ap[m].target == ap[k].target|;
               var best := |set m | 0 <= m < |ap| && ap[m].kind == Reduce && ap[m].target == ap[i].target|;
               n <= best && (k < i ==> n < best)
    ensures Action(g.nsymbol, Reduce, ap[i].target) in ap'
    ensures forall a: Action | (a.kind == Shift || a.kind == Reduce || a.kind == Accept)
                               && a != Action(g.nsymbol, Reduce, ap[i].target) ::
              a in ap' <==> a in ap && !(a.kind == Reduce && a.target == ap[i].target)
  {
    var b := ap[i].target;
    forall r: nat ensures Count(ap, r) == |set m | 0 <= m < |ap| && ap[m].kind == Reduce && ap[m].target == r| {
      CountIsPlaces(ap, r);
    }
    DecidedBest(g, ap, i);
    hide MostFrequent, A.UniqueLive, Count, Compressed;
    NotNone(g, ap, i);
    var r: nat :| MostFrequent(g, ap, Some(r)) && Compressed(g, ap, ap', r);
    BestIsOne(g, ap, r, b);
    CompressedMembers(g, ap, ap', b);
  }

  lemma CompressedMembers(g: Grammar, ap: seq<Action>, ap': seq<Action>, b: nat)
    requires Compressed(g, ap, ap', b)
    ensures Action(g.nsymbol, Reduce, b) in ap'
    ensures forall a: Action | (a.kind == Shift || a.kind == Reduce || a.kind == Accept)
                               && a != Action(g.nsymbol, Reduce, b) ::
              a in ap' <==> a in ap && !(a.kind == Reduce && a.target == b)
  {
    assert IsLive(ap', Action(g.nsymbol, Reduce, b));
    forall a: Action | A.Live(a) && a != Action(g.nsymbol, Reduce, b)
      ensures a in ap' <==> a in ap && !(a.kind == Reduce && a.target == b)
    {
      assert IsLive(ap', a) <==> IsLive(ap, a) && !IsReduce(a, b);
    }
  }

  lemma DecidedBest(g: Grammar, ap: seq<Action>, i: nat)
    requires i < |ap| && ap[i].kind == Reduce && !IsStartRule(g, ap[i].target)
    requires forall k | 0 <= k < |ap| && ap[k].kind == Reduce && !IsStartRule(g, ap[k].target) ::
               Count(ap, ap[k].target) <= Count(ap, ap[i].target)
               && (k < i ==> Count(ap, ap[k].target) < Count(ap, ap[i].target))
    ensures MostFrequent(g, ap, Some(ap[i].target))
  {
    var b := ap[i].target;
    CountMember(ap, b);
    assert IsReduce(ap[i], b) && NoneAsOften(g, ap, b, i);
    forall r: nat | !IsStartRule(g, r) ensures Count(ap, r) <= Count(ap, b) {
      CountMember(ap, r);
      if Count(ap, r) > 0 {
        var a :| a in ap && IsReduce(a, r);
        var k :| 0 <= k < |ap| && ap[k] == a;
      }
    }
  }

  lemma NotNone(g: Grammar, ap: seq<Action>, i: nat)
    requires i < |ap| && ap[i].kind == Reduce && !IsStartRule(g, ap[i].target)
    ensures !MostFrequent(g, ap, None)
  {
    CountMember(ap, ap[i].target);
    assert IsReduce(ap[i], ap[i].target);
  }

  /** No action of type ERROR in the list. */
  ghost predicate NoErrors(ap: seq<Action>) {
    forall a | a in ap :: a.kind != Error
  }

  lemma {:induction false} CombinedErrors(g: Grammar, ap: seq<Action>, r: nat, first: bool)
    ensures NoErrors(ap) ==> NoErrors(Combined(g, ap, r, first))
    decreases |ap|
  {
    if ap != [] {
      CombinedErrors(g, ap[1..], r, first && !IsReduce(ap[0], r));
      assert ap[0] in ap && forall a | a in ap[1..] :: a in ap;
    }
  }

  lemma ActedErrors(g: Grammar, cores: seq<set<Item>>, q: nat, ap: seq<Action>)
    requires A.Acted(g, cores, q, ap)
    ensures NoErrors(ap)
  {
    hide A.ResolvedFrom, A.Raw;
    var raw: seq<Action> :| A.Raw(g, cores, q, raw) && A.ResolvedFrom(g, raw, ap);
    forall a | a in ap ensures a.kind != Error {
      var k := A.FateIn(g, raw, ap, a);
    }
  }

  /** The combined list, in any order. */
  lemma CombinedOutcome(g: Grammar, ap: seq<Action>, r: nat, ap': seq<Action>)
    requires A.UniqueLive(ap) && (forall a | a in ap :: a.sp < g.nsymbol) && MostFrequent(g, ap, Some(r))
    requires multiset(ap') == multiset(Combined(g, ap, r, true))
    ensures Outcome(g, ap, ap') && (NoErrors(ap) ==> NoErrors(ap'))
  {
    var c := Combined(g, ap, r, true);
    CombinedUnique(g, ap, r, true);
    forall a ensures IsLive(c, a) <==> (IsLive(ap, a) && !IsReduce(a, r)) || a == Action(g.nsymbol, Reduce, r) {
      CombinedLive(g, ap, r, true, a);
    }
    CombinedErrors(g, ap, r, true);
    hide Combined, A.UniqueLive;
    SortedUnique(c, ap');
    States.SameElements(c, ap');
    assert Compressed(g, ap, ap', r);
  }

  method CompressState(g: Grammar, ap: seq<Action>) returns (ap': seq<Action>)
    requires A.UniqueLive(ap) && (forall a | a in ap :: a.sp < g.nsymbol) && |ap| < 0x4000_0000
    ensures Outcome(g, ap, ap') && (NoErrors(ap) ==> NoErrors(ap'))
  {
    hide Combined, A.UniqueLive, MostFrequent, Pow2, Ordering, Sorted, Collect;
    ap' := ap;
    var best := FindBest(g, ap);
    if best.Some? {
      var c := Combine(g, ap, best.value);
      CombinedLength(g, ap, best.value, true);
      A.ActioncmpOrders();
      ap' := MSort(c, A.Actioncmp);
      CombinedOutcome(g, ap, best.value, ap');
    }
  }

  lemma {:induction false} CombinedLength(g: Grammar, ap: seq<Action>, r: nat, first: bool)
    ensures |Combined(g, ap, r, first)| == |ap|
    decreases |ap|
  {
    if ap != [] { CombinedLength(g, ap[1..], r, first && !IsReduce(ap[0], r)); }
  }

  /** CompressTables, state by state. */
  method CompressTables(lemp: Lemon)
    requires forall q | 0 <= q < |lemp.states| ::
               A.UniqueLive(lemp.states[q].ap) && (forall a | a in lemp.states[q].ap :: a.sp < lemp.g.nsymbol)
               && |lemp.states[q].ap| < 0x4000_0000
    modifies lemp`states
    ensures A.SameButActions(old(lemp.states), lemp.states)
    ensures forall q | 0 <= q < |lemp.states| :: Outcome(lemp.g, old(lemp.states)[q].ap, lemp.states[q].ap)
    ensures forall q | 0 <= q < |lemp.states| && NoErrors(old(lemp.states)[q].ap) :: NoErrors(lemp.states[q].ap)
  {
    ghost var ss := lemp.states;
    assert CompressedUpTo(lemp.g, ss, ss, 0);
    hide A.UniqueLive, Outcome, NoErrors, Pow2, CompressedUpTo, A.SameButActions;
    for q := 0 to |lemp.states|
      invariant |lemp.states| == |ss| && CompressedUpTo(lemp.g, ss, lemp.states, q)
    {
      CompressedSoFar(lemp.g, ss, lemp.states, q);
      var ap := CompressState(lemp.g, lemp.states[q].ap);
      CompressedNext(lemp.g, ss, lemp.states, q, ap);
      lemp.states := lemp.states[q := lemp.states[q].(ap := ap)];
    }
    CompressedSoFar(lemp.g, ss, lemp.states, |ss|);
  }

  /** The first `q` states are compressed, the others are as they were. */
  ghost predicate CompressedUpTo(g: Grammar, ss: seq<State>, ss': seq<State>, q: nat) {
    && A.SameButActions(ss, ss') && q <= |ss| && (forall p | q <= p < |ss| :: ss'[p] == ss[p])
    && forall p | 0 <= p < q :: Outcome(g, ss[p].ap, ss'[p].ap) && (NoErrors(ss[p].ap) ==> NoErrors(ss'[p].ap))
  }

  lemma CompressedNext(g: Grammar, ss: seq<State>, ss': seq<State>, q: nat, ap: seq<Action>)
    requires CompressedUpTo(g, ss, ss', q) && q < |ss| && Outcome(g, ss[q].ap, ap)
             && (NoErrors(ss[q].ap) ==> NoErrors(ap))
    ensures |ss'| == |ss| && CompressedUpTo(g, ss, ss'[q := ss'[q].(ap := ap)], q + 1)
  {
    hide Outcome, NoErrors;
  }

  lemma CompressedSoFar(g: Grammar, ss: seq<State>, ss': seq<State>, q: nat)
    requires CompressedUpTo(g, ss, ss', q)
    ensures A.SameButActions(ss, ss') && |ss'| == |ss| && (q < |ss| ==> ss'[q] == ss[q])
    ensures forall p | 0 <= p < q :: Outcome(g, ss[p].ap, ss'[p].ap) && (NoErrors(ss[p].ap) ==> NoErrors(ss'[p].ap))
  {
    hide Outcome, NoErrors;
  }

  // ----- the table a list of action lists stands for -----

  function FindLive(ap: seq<Action>, x: nat): Option<Action> {
    if ap == [] then None
    else if A.Live(ap[0]) && ap[0].sp == x then Some(ap[0])
    else FindLive(ap[1..], x)
  }

  lemma FirstIsOnly(ap: seq<Action>, a: Action)
    requires A.UniqueLive(ap) && IsLive(ap, a) && A.Live(ap[0]) && a.sp == ap[0].sp
    ensures a == ap[0]
  {
    var k :| 0 <= k < |ap| && ap[k] == a;
    assert !A.BothLive(ap, 0, k);
  }

  lemma {:induction false} FindLiveIs(ap: seq<Action>, x: nat)
    requires A.UniqueLive(ap)
    ensures FindLive(ap, x).Some? ==> IsLive(ap, FindLive(ap, x).value) && FindLive(ap, x).value.sp == x
    ensures forall a | IsLive(ap, a) && a.sp == x :: FindLive(ap, x) == Some(a)
    decreases |ap|
  {
    if ap != [] {
      assert ap == [ap[0]] + ap[1..];
      forall i, j ensures !A.BothLive(ap[1..], i, j) {
        assert !A.BothLive(ap, i + 1, j + 1);
      }
      FindLiveIs(ap[1..], x);
      forall a | IsLive(ap, a) && a.sp == x ensures FindLive(ap, x) == Some(a) {
        if A.Live(ap[0]) && ap[0].sp == x { FirstIsOnly(ap, a); }
      }
    }
  }

  function CellOf(a: Option<Action>): Cell {
    match a
    case None => ErrorCell
    case Some(a) =>
      match a.kind
      case Shift => ShiftTo(a.target)
      case Reduce => ReduceBy(a.target)
      case Accept => AcceptCell
      case _ => ErrorCell
  }

  /** The action on a symbol; terminals without one get the default of the state. */
  function CellAt(g: Grammar, ap: seq<Action>, x: nat): Cell {
    if x >= g.nterminal || FindLive(ap, x).Some? then CellOf(FindLive(ap, x)) else CellOf(FindLive(ap, g.nsymbol))
  }

  function Row(g: Grammar, ap: seq<Action>): seq<Cell> {
    seq(g.nsymbol, x requires 0 <= x < g.nsymbol => CellAt(g, ap, x))
  }

  function Table(g: Grammar, ss: seq<State>): seq<seq<Cell>> {
    seq(|ss|, q requires 0 <= q < |ss| => Row(g, ss[q].ap))
  }

  lemma TableCell(g: Grammar, ss: seq<State>, q: nat, x: nat)
    ensures Lookup(Table(g, ss), q, x) == if q < |ss| && x < g.nsymbol then CellAt(g, ss[q].ap, x) else ErrorCell
  {
  }

  // ----- the table of FindActions -----

  /** Resolved action lists: what FindActions leaves. */
  ghost predicate AllActed(g: Grammar, cores: seq<set<Item>>, ss: seq<State>) {
    |ss| == |cores| && forall q | 0 <= q < |ss| :: A.Acted(g, cores, q, ss[q].ap)
  }

  /** No list holds a default yet, and reductions are on terminals. */
  lemma ActedSymbols(g: Grammar, cores: seq<set<Item>>, q: nat, ap: seq<Action>, a: Action)
    requires Valid(g) && Lr0(g, cores) && A.Acted(g, cores, q, ap) && a in ap
    ensures a.sp < g.nsymbol && (a.kind == Reduce ==> a.sp < g.nterminal)
  {
    hide A.ResolvedFrom, A.Raw, A.IsRaw, Lr0, Valid;
    var raw: seq<Action> :| A.Raw(g, cores, q, raw) && A.ResolvedFrom(g, raw, ap);
    var k := A.FateIn(g, raw, ap, a);
    A.RawMember(g, cores, q, raw, raw[k]);
    A.RawSymbol(g, cores, q, raw[k]);
  }

  lemma ActedLength(g: Grammar, cores: seq<set<Item>>, q: nat, ap: seq<Action>)
    requires Valid(g) && A.ActionsFit(g) && Lr0(g, cores) && A.Acted(g, cores, q, ap)
    ensures |ap| < 0x4000_0000
  {
    var raw: seq<Action> :| A.Raw(g, cores, q, raw) && A.ResolvedFrom(g, raw, ap);
    A.RawSize(g, cores, q, raw);
  }

  /** On a symbol the table has the one live action of the list, and nothing when there is none. */
  lemma ActedCell(g: Grammar, cores: seq<set<Item>>, q: nat, ap: seq<Action>, x: nat)
    requires Valid(g) && Lr0(g, cores) && A.Acted(g, cores, q, ap) && x < g.nsymbol
    ensures CellAt(g, ap, x) == CellOf(FindLive(ap, x)) && FindLive(ap, g.nsymbol) == None
    ensures FindLive(ap, x).Some? ==> A.IsRaw(g, cores, q, FindLive(ap, x).value) && FindLive(ap, x).value.sp == x
    ensures FindLive(ap, x).None? ==> forall a | A.IsRaw(g, cores, q, a) :: a.sp != x
  {
    hide A.Acted, Lr0, Valid, A.IsRaw, A.UniqueLive, FindLive, CellOf, A.Live;
    A.ActedLive(g, cores, q, ap);
    LiveFound(ap, x);
    NoDefaultYet(g, cores, q, ap);
  }

  lemma LiveFound(ap: seq<Action>, x: nat)
    requires A.UniqueLive(ap)
    ensures FindLive(ap, x).Some? ==>
              FindLive(ap, x).value in ap && A.Live(FindLive(ap, x).value) && FindLive(ap, x).value.sp == x
    ensures forall a | a in ap && A.Live(a) && a.sp == x :: FindLive(ap, x).Some?
  {
    FindLiveIs(ap, x);
    hide FindLive, A.UniqueLive, A.Live;
    forall a | a in ap && A.Live(a) && a.sp == x ensures FindLive(ap, x).Some? {
      assert IsLive(ap, a);
    }
  }

  lemma NoDefaultYet(g: Grammar, cores: seq<set<Item>>, q: nat, ap: seq<Action>)
    requires Valid(g) && Lr0(g, cores) && A.Acted(g, cores, q, ap) && A.UniqueLive(ap)
    ensures FindLive(ap, g.nsymbol) == None
  {
    hide A.Acted, Lr0, Valid, A.UniqueLive, FindLive;
    FindLiveIs(ap, g.nsymbol);
    if FindLive(ap, g.nsymbol).Some? {
      ActedSymbols(g, cores, q, ap, FindLive(ap, g.nsymbol).value);
    }
  }

  lemma ActedFaithful(g: Grammar, cores: seq<set<Item>>, ss: seq<State>)
    requires Valid(g) && Lr0(g, cores) && AllActed(g, cores, ss)
    ensures Faithful(g, cores, Table(g, ss))
  {
    var cells := Table(g, ss);
    forall q, t: nat | 0 <= q < |cells| && t < g.nterminal ensures CellAllowed(g, cores, q, t, Lookup(cells, q, t)) {
      TableCell(g, ss, q, t);
      ActedAllowed(g, cores, q, ss[q].ap, t);
    }
    forall q, x: nat, j | 0 <= q < |cells| && g.nterminal <= x && Trans(g, cores, q, x, j)
      ensures Lookup(cells, q, x) == ShiftTo(j)
    {
      TableCell(g, ss, q, x);
      ActedGoto(g, cores, q, ss[q].ap, x, j);
    }
    TableCell(g, ss, 0, g.start);
    ActedStart(g, cores, ss[0].ap);
  }

  lemma ActedAllowed(g: Grammar, cores: seq<set<Item>>, q: nat, ap: seq<Action>, t: nat)
    requires Valid(g) && Lr0(g, cores) && q < |cores| && A.Acted(g, cores, q, ap) && t < g.nterminal
    ensures CellAllowed(g, cores, q, t, CellAt(g, ap, t))
  {
    ActedCell(g, cores, q, ap, t);
    if FindLive(ap, t).Some? {
      RawAllowed(g, cores, q, FindLive(ap, t).value);
    }
  }

  lemma RawAllowed(g: Grammar, cores: seq<set<Item>>, q: nat, a: Action)
    requires Valid(g) && A.IsRaw(g, cores, q, a) && a.sp < g.nterminal
    ensures CellAllowed(g, cores, q, a.sp, CellOf(Some(a)))
  {
    if a.kind == Reduce && g.rules[a.target].lhs == g.start {
      var m := Ref(q, A.EndItem(g, a.target));
      var n, k: nat :| FlowIn(g, cores, n, m, k) && SeedOf(g, cores, n, a.sp);
      StartLookahead(g, cores, n, m, k, a.sp);
    }
  }

  /** Nonterminals have no rivals to their goto. */
  lemma ActedGoto(g: Grammar, cores: seq<set<Item>>, q: nat, ap: seq<Action>, x: nat, j: nat)
    requires Valid(g) && Lr0(g, cores) && A.Acted(g, cores, q, ap) && g.nterminal <= x && Trans(g, cores, q, x, j)
    ensures x < g.nsymbol && CellAt(g, ap, x) == ShiftTo(j)
  {
    var s := Action(x, Shift, j);
    assert A.IsRaw(g, cores, q, s);
    A.RawSymbol(g, cores, q, s);
    ActedCell(g, cores, q, ap, x);
    var a := FindLive(ap, x).value;
    A.RawSymbol(g, cores, q, a);
    A.RawShiftUnique(g, cores, q, s, a);
  }

  lemma ActedStart(g: Grammar, cores: seq<set<Item>>, ap: seq<Action>)
    requires Valid(g) && Lr0(g, cores) && A.Acted(g, cores, 0, ap)
    ensures CellAt(g, ap, g.start) == AcceptCell
  {
    assert A.IsRaw(g, cores, 0, Action(g.start, Accept, 0));
    ActedCell(g, cores, 0, ap, g.start);
    A.RawSymbol(g, cores, 0, FindLive(ap, g.start).value);
  }

  /** Without conflicts the table has every shift, goto and reduction. */
  lemma ActedComplete(g: Grammar, cores: seq<set<Item>>, ss: seq<State>)
    requires Valid(g) && Lr0(g, cores) && AllActed(g, cores, ss) && A.ConflictFree(g, cores)
    ensures C.Complete(g, cores, Table(g, ss))
  {
    var cells := Table(g, ss);
    hide Valid, Lr0, AllActed, A.ConflictFree, Lookup, Table;
    forall q, x, j | Trans(g, cores, q, x, j) ensures Lookup(cells, q, x) == ShiftTo(j) {
      RawInTable(g, cores, ss, q, Action(x, Shift, j));
    }
    forall q, r, t | A.IsReduction(g, cores, q, r, t) ensures Lookup(cells, q, t) == ReduceBy(r) {
      RawInTable(g, cores, ss, q, Action(t, Reduce, r));
    }
    NonemptyCores(g, cores);
    RawInTable(g, cores, ss, 0, Action(g.start, Accept, 0));
  }

  lemma NonemptyCores(g: Grammar, cores: seq<set<Item>>)
    requires Lr0(g, cores)
    ensures |cores| > 0
  {
  }

  lemma RawInTable(g: Grammar, cores: seq<set<Item>>, ss: seq<State>, q: nat, a: Action)
    requires Valid(g) && Lr0(g, cores) && AllActed(g, cores, ss) && A.ConflictFree(g, cores) && q < |cores|
             && A.IsRaw(g, cores, q, a)
    ensures Lookup(Table(g, ss), q, a.sp) == CellOf(Some(a))
  {
    var ap := ss[q].ap;
    assert A.Acted(g, cores, q, ap);
    hide Valid, Lr0, AllActed, A.Acted, A.ConflictFree, A.IsRaw, A.UniqueLive, FindLive, CellAt;
    A.RawSymbol(g, cores, q, a);
    TableCell(g, ss, q, a.sp);
    A.ConflictFreeLive(g, cores, q, ap, a);
    A.ActedLive(g, cores, q, ap);
    FindLiveIs(ap, a.sp);
    ActedCell(g, cores, q, ap, a.sp);
  }

  // ----- and of CompressTables -----

  lemma RowAgrees(g: Grammar, ap: seq<Action>, ap': seq<Action>, x: nat)
    requires A.UniqueLive(ap) && Outcome(g, ap, ap') && g.nterminal <= g.nsymbol && x < g.nsymbol
    requires forall a | a in ap :: a.sp < g.nsymbol && (a.kind == Reduce ==> a.sp < g.nterminal)
    ensures x < g.nterminal && CellAt(g, ap, x) != ErrorCell ==> CellAt(g, ap', x) == CellAt(g, ap, x)
    ensures x >= g.nterminal ==> CellAt(g, ap', x) == CellAt(g, ap, x)
    ensures x < g.nterminal && CellAt(g, ap, x) == ErrorCell ==>
              CellAt(g, ap', x) == ErrorCell
              || exists a :: IsLive(ap, a) && a.kind == Reduce && !IsStartRule(g, a.target)
                  && CellAt(g, ap', x) == ReduceBy(a.target)
  {
    FindLiveIs(ap, x);
    FindLiveIs(ap, g.nsymbol);
    if ap' != ap {
      var r: nat :| MostFrequent(g, ap, Some(r)) && Compressed(g, ap, ap', r);
      CountMember(ap, r);
      FindLiveIs(ap', x);
      FindLiveIs(ap', g.nsymbol);
      var b :| b in ap && IsReduce(b, r);
      assert IsLive(ap, b);
      assert IsLive(ap', Action(g.nsymbol, Reduce, r));
      if FindLive(ap, x).Some? {
        var a := FindLive(ap, x).value;
        assert !IsReduce(a, r) ==> IsLive(ap', a);
      }
      assert FindLive(ap', x).Some? ==> IsLive(ap, FindLive(ap', x).value) && !IsReduce(FindLive(ap', x).value, r);
    }
  }

  /** The lists after CompressTables. */
  ghost predicate AllCompressed(g: Grammar, ss: seq<State>, ss': seq<State>) {
    |ss'| == |ss| && forall q | 0 <= q < |ss| :: Outcome(g, ss[q].ap, ss'[q].ap)
  }

  /** The cells after CompressTables are determined by the lists before. */
  lemma CellsDetermined(g: Grammar, ss: seq<State>, p: seq<State>, p': seq<State>, q: nat, x: nat)
    requires AllCompressed(g, ss, p) && AllCompressed(g, ss, p')
    ensures Lookup(Table(g, p), q, x) == Lookup(Table(g, p'), q, x)
  {
    TableCell(g, p, q, x);
    TableCell(g, p', q, x);
    hide Table, Lookup;
    if q < |ss| {
      SameFound(g, ss[q].ap, p[q].ap, p'[q].ap, x);
      SameFound(g, ss[q].ap, p[q].ap, p'[q].ap, g.nsymbol);
    }
  }

  lemma SameFound(g: Grammar, ap: seq<Action>, p: seq<Action>, p': seq<Action>, x: nat)
    requires Outcome(g, ap, p) && Outcome(g, ap, p')
    ensures FindLive(p, x) == FindLive(p', x)
  {
    FindLiveIs(p, x);
    FindLiveIs(p', x);
    assert A.UniqueLive(p) && A.UniqueLive(p');
    hide FindLive, A.UniqueLive;
    forall a ensures IsLive(p, a) <==> IsLive(p', a) { CompressedDetermined(g, ap, p, p', a); }
    hide Outcome;
  }

  /** One cell before and after: a live action stays, an error may become the reduction by a rule that the state could
      reduce by, never one of the start symbol. */
  lemma CellCompressed(g: Grammar, cores: seq<set<Item>>, ss: seq<State>, ss': seq<State>, q: nat, x: nat)
    requires Valid(g) && Lr0(g, cores) && AllActed(g, cores, ss) && AllCompressed(g, ss, ss') && q < |ss|
             && x < g.nsymbol
    ensures CellAt(g, ss[q].ap, x) != ErrorCell || x >= g.nterminal ==>
              CellAt(g, ss'[q].ap, x) == CellAt(g, ss[q].ap, x)
    ensures CellAt(g, ss[q].ap, x) == ErrorCell && x < g.nterminal ==>
              CellAt(g, ss'[q].ap, x) == ErrorCell
              || exists a :: A.IsRaw(g, cores, q, a) && a.kind == Reduce && !IsStartRule(g, a.target)
                             && CellAt(g, ss'[q].ap, x) == ReduceBy(a.target)
  {
    var ap, ap' := ss[q].ap, ss'[q].ap;
    assert A.Acted(g, cores, q, ap) && Outcome(g, ap, ap');
    forall a | a in ap ensures a.sp < g.nsymbol && (a.kind == Reduce ==> a.sp < g.nterminal) {
      ActedSymbols(g, cores, q, ap, a);
    }
    assert g.nterminal <= g.nsymbol;
    hide Valid, Lr0, AllActed, AllCompressed, A.Acted, Outcome, A.IsRaw;
    A.ActedLive(g, cores, q, ap);
    RowAgrees(g, ap, ap', x);
  }

  /** Compression changes only error cells of terminals. */
  lemma CompressedAgrees(g: Grammar, cores: seq<set<Item>>, ss: seq<State>, ss': seq<State>)
    requires Valid(g) && Lr0(g, cores) && AllActed(g, cores, ss) && AllCompressed(g, ss, ss')
    ensures Agrees(g, Table(g, ss), Table(g, ss'))
  {
    forall q, t | 0 <= t < g.nterminal && Lookup(Table(g, ss), q, t) != ErrorCell
      ensures Lookup(Table(g, ss'), q, t) == Lookup(Table(g, ss), q, t)
    {
      CellCompressed(g, cores, ss, ss', q, t);
    }
    forall q: nat, x: nat | g.nterminal <= x ensures Lookup(Table(g, ss'), q, x) == Lookup(Table(g, ss), q, x) {
      TableCell(g, ss, q, x);
      TableCell(g, ss', q, x);
      if q < |ss| && x < g.nsymbol { CellCompressed(g, cores, ss, ss', q, x); }
    }
  }

  lemma CompressedFaithful(g: Grammar, cores: seq<set<Item>>, ss: seq<State>, ss': seq<State>)
    requires Valid(g) && Lr0(g, cores) && AllActed(g, cores, ss) && AllCompressed(g, ss, ss')
    ensures Faithful(g, cores, Table(g, ss'))
  {
    ActedFaithful(g, cores, ss);
    CompressedAgrees(g, cores, ss, ss');
    var cells' := Table(g, ss');
    forall q, t: nat | 0 <= q < |cells'| && t < g.nterminal ensures CellAllowed(g, cores, q, t, Lookup(cells', q, t)) {
      assert CellAllowed(g, cores, q, t, Lookup(Table(g, ss), q, t));
      TableCell(g, ss, q, t);
      TableCell(g, ss', q, t);
      hide Faithful, Agrees, Lr0, Valid, AllActed, AllCompressed;
      CellCompressed(g, cores, ss, ss', q, t);
    }
  }

  lemma CompressedComplete(g: Grammar, cores: seq<set<Item>>, cells: seq<seq<Cell>>, cells': seq<seq<Cell>>)
    requires Valid(g) && C.Complete(g, cores, cells) && Agrees(g, cells, cells')
    ensures C.Complete(g, cores, cells')
  {
    forall q, r, t | A.IsReduction(g, cores, q, r, t) ensures Lookup(cells', q, t) == ReduceBy(r) {
      A.SeedTerminal(g, cores, Ref(q, A.EndItem(g, r)), t);
    }
  }
}
