/** FindLinks and FindFollowSets: lookaheads spread along propagation links until nothing changes. */
module FollowSets {
  import opened Grammars
  import opened Items
  import opened Structs

  ghost predicate IsNode(ss: seq<State>, n: Ref) {
    n.state < |ss| && n.item in ss[n.state].cfg
  }

  ghost predicate Listed(ss: seq<State>) {
    forall q | 0 <= q < |ss| :: Elems(ss[q].cfp) == ss[q].cfg.Keys
  }

  /** The link targets of every configuration are configurations. */
  ghost predicate LinksClosed(ss: seq<State>) {
    && (forall q, i, m | 0 <= q < |ss| && i in ss[q].cfg && m in ss[q].cfg[i].fplp :: IsNode(ss, m))
    && (forall q, i, m | 0 <= q < |ss| && i in ss[q].cfg && m in ss[q].cfg[i].bplp :: IsNode(ss, m))
  }

  ghost predicate Links(ss: seq<State>, n: Ref, m: Ref) {
    IsNode(ss, n) && IsNode(ss, m) && m in ss[n.state].cfg[n.item].fplp
  }

  ghost predicate BackLinked(ss: seq<State>, n: Ref, m: Ref) {
    IsNode(ss, n) && IsNode(ss, m) && n in ss[m.state].cfg[m.item].bplp
  }

  // ----- FindLinks -----

  /** Nothing but forward links differs. */
  ghost predicate SameButForward(ss: seq<State>, ss': seq<State>) {
    |ss| == |ss'| && forall q | 0 <= q < |ss| ::
      && ss[q].basis == ss'[q].basis && ss[q].cfp == ss'[q].cfp && ss[q].ap == ss'[q].ap
          && ss[q].cfg.Keys == ss'[q].cfg.Keys
      && forall i | i in ss[q].cfg :: ss[q].cfg[i].fws == ss'[q].cfg[i].fws && ss[q].cfg[i].bplp == ss'[q].cfg[i].bplp
  }

  /** The back links of the configurations in `done` have been turned round. */
  ghost predicate Turned(ss: seq<State>, ss': seq<State>, done: set<Ref>) {
    && SameButForward(ss, ss') && LinksClosed(ss')
    && forall n, m | IsNode(ss, n) && IsNode(ss, m) ::
        Links(ss', n, m) <==> Links(ss, n, m) || (m in done && BackLinked(ss, n, m))
  }

  function WithForward(ss: seq<State>, n: Ref, m: Ref): seq<State>
    requires n.state < |ss| && n.item in ss[n.state].cfg
  {
    var s := ss[n.state];
    var c := s.cfg[n.item];
    ss[n.state := s.(cfg := s.cfg[n.item := c.(fplp := [m] + c.fplp)])]
  }

  lemma ForwardAdded(ss: seq<State>, ss': seq<State>, n: Ref, m: Ref)
    requires SameButForward(ss, ss') && IsNode(ss, n) && IsNode(ss, m) && LinksClosed(ss')
    ensures n.state < |ss'| && n.item in ss'[n.state].cfg
    ensures SameButForward(ss, WithForward(ss', n, m)) && LinksClosed(WithForward(ss', n, m))
    ensures forall a, b | IsNode(ss, a) && IsNode(ss, b) ::
              Links(WithForward(ss', n, m), a, b) <==> Links(ss', a, b) || (a == n && b == m)
  {
    SameNodes(ss, ss', n, m);
    ForwardClosed(ss', n, m);
    OnlyForward(ss, ss', n, m);
    forall a, b | IsNode(ss, a) && IsNode(ss, b)
      ensures Links(WithForward(ss', n, m), a, b) <==> Links(ss', a, b) || (a == n && b == m)
    {
      LinksForward(ss', n, m, a, b);
    }
  }

  lemma OnlyForward(ss: seq<State>, ss': seq<State>, n: Ref, m: Ref)
    requires SameButForward(ss, ss') && IsNode(ss', n)
    ensures SameButForward(ss, WithForward(ss', n, m))
  {
  }

  lemma LinksForward(ss: seq<State>, n: Ref, m: Ref, a: Ref, b: Ref)
    requires IsNode(ss, n) && IsNode(ss, m) && IsNode(ss, a) && IsNode(ss, b)
    ensures Links(WithForward(ss, n, m), a, b) <==> Links(ss, a, b) || (a == n && b == m)
  {
  }

  lemma SameNodes(ss: seq<State>, ss': seq<State>, n: Ref, m: Ref)
    requires SameButForward(ss, ss') && IsNode(ss, n)
    ensures n.state < |ss'| && n.item in ss'[n.state].cfg && forall a :: IsNode(ss, a) <==> IsNode(ss', a)
  {
  }

  lemma ForwardClosed(ss: seq<State>, n: Ref, m: Ref)
    requires LinksClosed(ss) && IsNode(ss, n) && IsNode(ss, m)
    ensures LinksClosed(WithForward(ss, n, m))
  {
    var ss' := WithForward(ss, n, m);
    assert forall a :: IsNode(ss', a) <==> IsNode(ss, a);
    forall q, i, r | 0 <= q < |ss'| && i in ss'[q].cfg && r in ss'[q].cfg[i].fplp ensures IsNode(ss', r) {
      assert r == m || r in ss[q].cfg[i].fplp;
    }
  }

  /** Turn round the links of one configuration. */
  method TurnConfig(ghost ss: seq<State>, ss': seq<State>, m: Ref, ghost done: set<Ref>) returns (ss'': seq<State>)
    requires LinksClosed(ss) && IsNode(ss, m) && Turned(ss, ss', done)
    ensures Turned(ss, ss'', done + {m})
  {
    ss'' := ss';
    var links := ss'[m.state].cfg[m.item].bplp;
    assert links == ss[m.state].cfg[m.item].bplp && TurnedTo(ss, ss', m, done, links[..0]);
    assert forall n | n in links :: IsNode(ss, n);
    hide LinksClosed, SameButForward;
    for k := 0 to |links|
      invariant TurnedTo(ss, ss'', m, done, links[..k])
    {
      assert links[..k + 1] == links[..k] + [links[k]];
      SameNodes(ss, ss'', links[k], m);
      TurnedMore(ss, ss'', m, done, links[..k], links[k]);
      ss'' := WithForward(ss'', links[k], m);
    }
    assert links[..|links|] == links;
  }

  /** Also the back links `turned` of configuration `m`. */
  ghost predicate TurnedTo(ss: seq<State>, ss': seq<State>, m: Ref, done: set<Ref>, turned: seq<Ref>) {
    && SameButForward(ss, ss') && LinksClosed(ss')
    && forall n, r | IsNode(ss, n) && IsNode(ss, r) :: Links(ss', n, r) <==>
         Links(ss, n, r) || (r in done && BackLinked(ss, n, r)) || (r == m && n in turned)
  }

  lemma TurnedMore(ss: seq<State>, ss': seq<State>, m: Ref, done: set<Ref>, turned: seq<Ref>, n: Ref)
    requires TurnedTo(ss, ss', m, done, turned) && IsNode(ss, n) && IsNode(ss, m)
    ensures n.state < |ss'| && n.item in ss'[n.state].cfg && TurnedTo(ss, WithForward(ss', n, m), m, done, turned + [n])
  {
    ForwardAdded(ss, ss', n, m);
    hide LinksClosed, SameButForward, WithForward, Links, BackLinked, IsNode;
  }

  /** Turn round the links of all configurations of one state. */
  method TurnState(ghost ss: seq<State>, ss': seq<State>, q: nat, ghost done: set<Ref>)
    returns (ss'': seq<State>, ghost done': set<Ref>)
    requires Listed(ss) && LinksClosed(ss) && q < |ss| && Turned(ss, ss', done)
    ensures Turned(ss, ss'', done')
    ensures forall m | IsNode(ss, m) :: m in done' <==> m in done || m.state == q
  {
    ss'', done' := ss', done;
    var cfp := ss'[q].cfp;
    assert Elems(cfp) == ss[q].cfg.Keys;
    hide LinksClosed, Turned;
    for c := 0 to |cfp|
      invariant Turned(ss, ss'', done')
      invariant forall m | IsNode(ss, m) :: m in done' <==> m in done || (m.state == q && m.item in cfp[..c])
    {
      assert cfp[c] in Elems(cfp);
      assert cfp[..c + 1] == cfp[..c] + [cfp[c]];
      ss'' := TurnConfig(ss, ss'', Ref(q, cfp[c]), done');
      done' := done' + {Ref(q, cfp[c])};
    }
    assert cfp[..|cfp|] == cfp;
    assert forall m | IsNode(ss, m) && m.state == q :: m.item in Elems(cfp);
  }

  /** FindLinks turns every back link into a forward link. */
  method FindLinks(lemp: Lemon)
    requires Listed(lemp.states) && LinksClosed(lemp.states)
    modifies lemp`states
    ensures SameButForward(old(lemp.states), lemp.states) && LinksClosed(lemp.states)
    ensures forall n, m | IsNode(old(lemp.states), n) && IsNode(old(lemp.states), m) ::
              Links(lemp.states, n, m) <==> Links(old(lemp.states), n, m) || BackLinked(old(lemp.states), n, m)
  {
    ghost var ss := lemp.states;
    ghost var done: set<Ref> := {};
    for q := 0 to |lemp.states|
      invariant |lemp.states| == |ss| && Turned(ss, lemp.states, done)
      invariant forall m | IsNode(ss, m) :: m in done <==> m.state < q
    {
      hide LinksClosed, Turned, Listed;
      lemp.states, done := TurnState(ss, lemp.states, q, done);
      assert |lemp.states| == |ss| by { TurnedSize(ss, lemp.states, done); }
    }
  }

  lemma TurnedSize(ss: seq<State>, ss': seq<State>, done: set<Ref>)
    requires Turned(ss, ss', done)
    ensures |ss| == |ss'|
  {
  }

  // ----- FindFollowSets -----

  ghost function Follow(ss: seq<State>, n: Ref): set<nat>
    requires IsNode(ss, n)
  {
    ss[n.state].cfg[n.item].fws
  }

  /** Lookaheads flow from `n` to `m` over `k` links. */
  ghost predicate FlowsIn(ss: seq<State>, n: Ref, m: Ref, k: nat)
    decreases k
  {
    if k == 0 then n == m && IsNode(ss, n) else exists l :: FlowsIn(ss, n, l, k - 1) && Links(ss, l, m)
  }

  ghost predicate Flows(ss: seq<State>, n: Ref, m: Ref) {
    exists k: nat :: FlowsIn(ss, n, m, k)
  }

  /** Only follow sets differ, and they only grew. */
  ghost predicate Grown(ss: seq<State>, ss': seq<State>) {
    |ss| == |ss'| && forall q | 0 <= q < |ss| ::
      && ss[q].basis == ss'[q].basis && ss[q].cfp == ss'[q].cfp && ss[q].ap == ss'[q].ap
          && ss[q].cfg.Keys == ss'[q].cfg.Keys
      && forall i | i in ss[q].cfg ::
           ss[q].cfg[i].fws <= ss'[q].cfg[i].fws && ss[q].cfg[i].fplp == ss'[q].cfg[i].fplp
               && ss[q].cfg[i].bplp == ss'[q].cfg[i].bplp
  }

  /** Terminal `t` is an initial lookahead of some configuration from which lookaheads flow to `m`. */
  ghost predicate Arrives(ss: seq<State>, m: Ref, t: nat) {
    exists n :: Flows(ss, n, m) && IsNode(ss, n) && t in Follow(ss, n)
  }

  ghost predicate Sound(ss: seq<State>, ss': seq<State>) {
    Grown(ss, ss') && forall m, t | IsNode(ss', m) && t in Follow(ss', m) :: Arrives(ss, m, t)
  }

  /** A configuration marked COMPLETE has passed its follow set over all its links. */
  ghost predicate Passed(ss: seq<State>, complete: set<Ref>) {
    forall n, m | n in complete && Links(ss, n, m) :: Follow(ss, n) <= Follow(ss, m)
  }

  function WithFws(ss: seq<State>, n: Ref, fws: set<nat>): seq<State>
    requires n.state < |ss| && n.item in ss[n.state].cfg
  {
    var s := ss[n.state];
    ss[n.state := s.(cfg := s.cfg[n.item := s.cfg[n.item].(fws := fws)])]
  }

  /** The lookaheads a configuration may still gain: what each round of progress uses up. */
  ghost function Missing(ss: seq<State>, bound: nat): set<(nat, Item, nat)> {
    set q: nat, i, t: nat | q < |ss| && i in ss[q].cfg && t < bound && t !in ss[q].cfg[i].fws :: (q, i, t)
  }

  ghost predicate Bounded(ss: seq<State>, bound: nat) {
    forall n, t | IsNode(ss, n) && t in Follow(ss, n) :: t < bound
  }

  lemma ArrivesFurther(ss: seq<State>, n: Ref, m: Ref, t: nat)
    requires Arrives(ss, n, t) && Links(ss, n, m)
    ensures Arrives(ss, m, t)
  {
    var o :| Flows(ss, o, n) && IsNode(ss, o) && t in Follow(ss, o);
    var k: nat :| FlowsIn(ss, o, n, k);
    assert FlowsIn(ss, o, m, k + 1);
  }

  /** One link: the target's set becomes the union. */
  lemma PushLink(ss: seq<State>, ss': seq<State>, n: Ref, m: Ref)
    requires Sound(ss, ss') && Links(ss', n, m)
    ensures var ss'' := WithFws(ss', m, Follow(ss', m) + Follow(ss', n));
            Sound(ss, ss'') && Grown(ss', ss'') && Follow(ss'', n) == Follow(ss', n) <= Follow(ss'', m)
  {
    var ss'' := WithFws(ss', m, Follow(ss', m) + Follow(ss', n));
    assert Links(ss, n, m);
    forall r, t | IsNode(ss'', r) && t in Follow(ss'', r) ensures Arrives(ss, r, t) {
      if r == m && t in Follow(ss', n) {
        ArrivesFurther(ss, n, m, t);
      } else {
        assert t in Follow(ss', r);
      }
    }
  }

  /** Lookaheads that arrive anywhere are there already once every configuration has passed its set on. */
  lemma {:induction false} AllArrived(ss: seq<State>, ss': seq<State>, n: Ref, m: Ref, k: nat, t: nat)
    requires Grown(ss, ss') && FlowsIn(ss, n, m, k) && IsNode(ss, n) && t in Follow(ss, n)
    requires forall a, b | Links(ss', a, b) :: Follow(ss', a) <= Follow(ss', b)
    ensures IsNode(ss', m) && t in Follow(ss', m)
    decreases k
  {
    if k > 0 {
      var l :| FlowsIn(ss, n, l, k - 1) && Links(ss, l, m);
      AllArrived(ss, ss', n, l, k - 1, t);
      assert Links(ss', l, m);
    }
  }

  /** The sets only grew, and `progress` says whether any did. */
  ghost predicate Moved(ss: seq<State>, ss': seq<State>, progress: bool) {
    && Grown(ss, ss')
    && (progress ==> exists n, t :: IsNode(ss, n) && IsNode(ss', n) && t in Follow(ss', n) && t !in Follow(ss, n))
    && (!progress ==> ss' == ss)
  }

  lemma MovedTrans(ss: seq<State>, ss': seq<State>, ss'': seq<State>, p: bool, p': bool)
    requires Moved(ss, ss', p) && Moved(ss', ss'', p')
    ensures Moved(ss, ss'', p || p')
  {
    if p {
      var n, t :| IsNode(ss, n) && IsNode(ss', n) && t in Follow(ss', n) && t !in Follow(ss, n);
      assert t in Follow(ss'', n);
    } else if p' {
      var n, t :| IsNode(ss', n) && IsNode(ss'', n) && t in Follow(ss'', n) && t !in Follow(ss', n);
      assert IsNode(ss, n);
    }
  }

  /** A set that grew no longer counts as passed on; all others still do. */
  lemma PassedAfterPush(ss: seq<State>, n: Ref, m: Ref, complete: set<Ref>)
    requires Passed(ss, complete) && Links(ss, n, m)
    ensures Passed(WithFws(ss, m, Follow(ss, m) + Follow(ss, n)), complete - {m})
  {
    var ss' := WithFws(ss, m, Follow(ss, m) + Follow(ss, n));
    forall a, b | a in complete - {m} && Links(ss', a, b) ensures Follow(ss', a) <= Follow(ss', b) {
      assert Links(ss, a, b);
    }
  }

  method PushOne(ghost ss: seq<State>, ss': seq<State>, n: Ref, m: Ref, complete: set<Ref>)
    returns (ss'': seq<State>, complete': set<Ref>, change: bool)
    requires Sound(ss, ss') && Passed(ss', complete) && Links(ss', n, m)
    ensures Sound(ss, ss'') && Passed(ss'', complete') && Moved(ss', ss'', change)
    ensures Follow(ss'', n) == Follow(ss', n) <= Follow(ss'', m)
    ensures !change ==> complete' == complete
  {
    ss'', complete' := ss', complete;
    var from, to := ss'[n.state].cfg[n.item].fws, ss'[m.state].cfg[m.item].fws;
    change := !(from <= to);
    if change {
      PushLink(ss, ss', n, m);
      PassedAfterPush(ss', n, m, complete);
      ss'', complete' := WithFws(ss', m, to + from), complete - {m};
      var t :| t in from && t !in to;
      assert t in Follow(ss'', m) && t !in Follow(ss', m);
    }
  }

  /** One visit to a configuration: pass its set over every link, and mark it COMPLETE; a target that changes is no
      longer COMPLETE. */
  method PushConfig(ghost ss: seq<State>, ss': seq<State>, n: Ref, complete: set<Ref>)
    returns (ss'': seq<State>, complete': set<Ref>, progress: bool)
    requires LinksClosed(ss') && Sound(ss, ss') && Passed(ss', complete) && IsNode(ss', n)
    ensures Sound(ss, ss'') && Passed(ss'', complete') && LinksClosed(ss'') && Moved(ss', ss'', progress)
    ensures !progress ==> complete' == complete + {n}
  {
    ss'', complete', progress := ss', complete, false;
    var links := ss'[n.state].cfg[n.item].fplp;
    var k := 0;
    assert Visited(ss', ss'', progress, n, links, k);
    hide Sound, Passed, LinksClosed, Moved, PassedTo, Links, Visited, Follow, IsNode;
    while k < |links|
      invariant k <= |links| && Sound(ss, ss'') && Passed(ss'', complete') && Visited(ss', ss'', progress, n, links, k)
      invariant !progress ==> complete' == complete
    {
      LinkThere(ss', ss'', progress, n, links, k);
      ghost var before, was := ss'', progress;
      var change;
      ss'', complete', change := PushOne(ss, ss'', n, links[k], complete');
      progress := progress || change;
      VisitOne(ss', before, ss'', was, change, n, links, k);
      k := k + 1;
    }
    VisitDone(ss', ss'', progress, n, complete', links);
    complete' := complete' + {n};
  }

  ghost predicate PassedTo(ss: seq<State>, fws: set<nat>, links: seq<Ref>) {
    forall j | 0 <= j < |links| :: IsNode(ss, links[j]) && fws <= Follow(ss, links[j])
  }

  /** During a visit: the set has been passed over the first `k` links, and is itself as before. */
  ghost predicate Visited(ss: seq<State>, ss': seq<State>, progress: bool, n: Ref, links: seq<Ref>, k: nat) {
    && Moved(ss, ss', progress) && IsNode(ss, n) && links == ss[n.state].cfg[n.item].fplp && k <= |links|
    && Follow(ss', n) == Follow(ss, n) && PassedTo(ss', Follow(ss, n), links[..k])
  }

  lemma LinkThere(ss': seq<State>, ss'': seq<State>, progress: bool, n: Ref, links: seq<Ref>, k: nat)
    requires Visited(ss', ss'', progress, n, links, k) && LinksClosed(ss') && k < |links|
    ensures Links(ss'', n, links[k])
  {
    assert links[k] in ss'[n.state].cfg[n.item].fplp;
    assert IsNode(ss', links[k]);
  }

  lemma VisitOne(ss: seq<State>, ss': seq<State>, ss'': seq<State>, p: bool, p': bool, n: Ref, links: seq<Ref>, k: nat)
    requires Visited(ss, ss', p, n, links, k) && Moved(ss', ss'', p') && k < |links| && Links(ss', n, links[k])
    requires Follow(ss'', n) == Follow(ss', n) <= Follow(ss'', links[k])
    ensures Visited(ss, ss'', p || p', n, links, k + 1)
  {
    MovedTrans(ss, ss', ss'', p, p');
    PassedToOne(ss', ss'', Follow(ss, n), links, k, p');
    hide Moved, PassedTo;
  }

  lemma PassedToOne(ss': seq<State>, ss'': seq<State>, fws: set<nat>, links: seq<Ref>, k: nat, change: bool)
    requires Moved(ss', ss'', change) && k < |links| && PassedTo(ss', fws, links[..k])
    requires IsNode(ss'', links[k]) && fws <= Follow(ss'', links[k])
    ensures PassedTo(ss'', fws, links[..k + 1])
  {
    forall j | 0 <= j < k + 1 ensures IsNode(ss'', links[j]) && fws <= Follow(ss'', links[j]) {
      if j < k { assert links[..k][j] == links[j]; }
    }
  }

  lemma VisitDone(ss': seq<State>, ss'': seq<State>, progress: bool, n: Ref, complete: set<Ref>, links: seq<Ref>)
    requires Visited(ss', ss'', progress, n, links, |links|) && LinksClosed(ss') && Passed(ss'', complete)
    ensures Passed(ss'', complete + {n}) && LinksClosed(ss'') && Moved(ss', ss'', progress)
  {
    assert links[..|links|] == links;
    assert forall a :: IsNode(ss'', a) <==> IsNode(ss', a);
    assert forall q, i | 0 <= q < |ss''| && i in ss''[q].cfg :: ss''[q].cfg[i].fplp == ss'[q].cfg[i].fplp;
  }

  /** One pass over the configurations of a state that are not COMPLETE. */
  method PushState(ghost ss: seq<State>, ss': seq<State>, q: nat, complete: set<Ref>)
    returns (ss'': seq<State>, complete': set<Ref>, progress: bool)
    requires Listed(ss') && LinksClosed(ss') && Sound(ss, ss') && Passed(ss', complete) && q < |ss'|
    ensures Sound(ss, ss'') && Passed(ss'', complete') && LinksClosed(ss'') && Moved(ss', ss'', progress)
    ensures !progress ==> complete <= complete' && forall i | i in ss'[q].cfg :: Ref(q, i) in complete'
  {
    ss'', complete', progress := ss', complete, false;
    var cfp := ss'[q].cfp;
    assert Elems(cfp) == ss'[q].cfg.Keys;
    hide Sound, Passed, LinksClosed;
    for c := 0 to |cfp|
      invariant Sound(ss, ss'') && Passed(ss'', complete') && LinksClosed(ss'') && Moved(ss', ss'', progress)
      invariant !progress ==> complete <= complete' && forall m | 0 <= m < c :: Ref(q, cfp[m]) in complete'
    {
      var n := Ref(q, cfp[c]);
      assert cfp[c] in Elems(cfp);
      if n in complete' { continue; }
      ghost var before, was := ss'', progress;
      var changed;
      ss'', complete', changed := PushConfig(ss, ss'', n, complete');
      progress := progress || changed;
      MovedTrans(ss', before, ss'', was, changed);
    }
    forall i | i in ss'[q].cfg ensures !progress ==> Ref(q, i) in complete' {
      assert i in Elems(cfp);
    }
  }

  lemma MovedMissing(ss: seq<State>, ss': seq<State>, progress: bool, bound: nat)
    requires Moved(ss, ss', progress) && Bounded(ss', bound)
    ensures Missing(ss', bound) <= Missing(ss, bound)
    ensures progress ==> Missing(ss', bound) < Missing(ss, bound)
  {
    if progress {
      var n, t :| IsNode(ss, n) && IsNode(ss', n) && t in Follow(ss', n) && t !in Follow(ss, n);
      assert (n.state, n.item, t) in Missing(ss, bound);
      assert (n.state, n.item, t) !in Missing(ss', bound);
    }
  }

  lemma SoundBounded(ss: seq<State>, ss': seq<State>, bound: nat)
    requires Sound(ss, ss') && Bounded(ss, bound)
    ensures Bounded(ss', bound)
  {
    forall m, t | IsNode(ss', m) && t in Follow(ss', m) ensures t < bound {
      var n :| Flows(ss, n, m) && IsNode(ss, n) && t in Follow(ss, n);
    }
  }

  lemma SoundStart(ss: seq<State>)
    ensures Sound(ss, ss)
  {
    forall m, t | IsNode(ss, m) && t in Follow(ss, m) ensures Arrives(ss, m, t) {
      assert FlowsIn(ss, m, m, 0);
    }
  }

  /** One pass over all states. */
  method PushAll(ghost ss: seq<State>, ss': seq<State>, complete: set<Ref>)
    returns (ss'': seq<State>, complete': set<Ref>, progress: bool)
    requires Listed(ss') && LinksClosed(ss') && Sound(ss, ss') && Passed(ss', complete)
    ensures Sound(ss, ss'') && Passed(ss'', complete') && Listed(ss'') && LinksClosed(ss'')
            && Moved(ss', ss'', progress)
    ensures !progress ==> forall n | IsNode(ss', n) :: n in complete'
  {
    ss'', complete', progress := ss', complete, false;
    hide Sound, Passed, LinksClosed;
    for q := 0 to |ss'|
      invariant Sound(ss, ss'') && Passed(ss'', complete') && LinksClosed(ss'') && Listed(ss'')
                && Moved(ss', ss'', progress)
      invariant !progress ==> forall n | IsNode(ss', n) && n.state < q :: n in complete'
    {
      ghost var before, was := ss'', progress;
      var changed;
      ss'', complete', changed := PushState(ss, ss'', q, complete');
      progress := progress || changed;
      MovedTrans(ss', before, ss'', was, changed);
      forall n | IsNode(ss', n) && n.state == q ensures !progress ==> n in complete' {
        assert n == Ref(q, n.item);
      }
    }
  }

  /** FindFollowSets stops, and each follow set is then the union of the initial sets of all configurations from which
      lookaheads flow to it: the least solution of the propagation links. */
  method FindFollowSets(lemp: Lemon, ghost bound: nat)
    requires Listed(lemp.states) && LinksClosed(lemp.states) && Bounded(lemp.states, bound)
    modifies lemp`states
    ensures Grown(old(lemp.states), lemp.states)
    ensures forall m, t | IsNode(old(lemp.states), m) ::
              t in Follow(lemp.states, m) <==> Arrives(old(lemp.states), m, t)
  {
    ghost var ss := lemp.states;
    SoundStart(ss);
    var complete: set<Ref> := {};
    var progress := true;
    while progress
      invariant Sound(ss, lemp.states) && Passed(lemp.states, complete)
      invariant Listed(lemp.states) && LinksClosed(lemp.states)
      invariant !progress ==> forall n | IsNode(lemp.states, n) :: n in complete
      decreases Missing(lemp.states, bound), progress
    {
      ghost var before := lemp.states;
      lemp.states, complete, progress := PushAll(ss, lemp.states, complete);
      hide Passed, LinksClosed, Listed;
      SoundBounded(ss, lemp.states, bound);
      MovedMissing(before, lemp.states, progress, bound);
    }
    FollowExact(ss, lemp.states, complete);
  }

  lemma FollowExact(ss: seq<State>, ss': seq<State>, complete: set<Ref>)
    requires Sound(ss, ss') && Passed(ss', complete) && forall n | IsNode(ss', n) :: n in complete
    ensures Grown(ss, ss') && forall m, t | IsNode(ss, m) :: t in Follow(ss', m) <==> Arrives(ss, m, t)
  {
    forall m, t | IsNode(ss, m) && Arrives(ss, m, t) ensures t in Follow(ss', m) {
      var n :| Flows(ss, n, m) && IsNode(ss, n) && t in Follow(ss, n);
      var k: nat :| FlowsIn(ss, n, m, k);
      AllArrived(ss, ss', n, m, k, t);
    }
  }
}
