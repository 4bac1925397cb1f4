/** The numbers of the states: the order in which a depth-first walk over the shifts comes upon them. */
module Numbering {
  import opened Grammars
  import opened Items

  /** The symbols after the marks of a list of items, each once, as they come in the list. */
  function NextInOrder(g: Grammar, list: seq<Item>): seq<nat> {
    if list == [] then []
    else
      var r, i := NextInOrder(g, list[..|list| - 1]), list[|list| - 1];
      if IsItem(g, i) && !AtEnd(g, i) && g.rules[i.rule].rhs[i.dot] !in r then r + [g.rules[i.rule].rhs[i.dot]] else r
  }

  ghost predicate Listing(c: set<Item>, list: seq<Item>) {
    Strict(list) && Elems(list) == c
  }

  /** With `n` states numbered, going from state `q` to its successor on `x` leaves `n'`: a successor that has a number
      keeps it, any other has the next, and then come those that are found from there. */
  ghost predicate StepTo(g: Grammar, cores: seq<set<Item>>, q: nat, x: nat, n: nat, n': nat)
    requires n <= |cores|
    decreases |cores| - n, 0, 0
  {
    exists j: nat :: Edge(g, cores, q, x, j) && if j < n then n' == n else j == n && Visited(g, cores, j, n + 1, n')
  }

  /** The successors of state `q` on the symbols `xs`, one after the other. */
  ghost predicate Explored(g: Grammar, cores: seq<set<Item>>, q: nat, xs: seq<nat>, n: nat, n': nat)
    requires n <= |cores|
    decreases |cores| - n, 0, |xs|, 1
  {
    if xs == [] then n' == n else exists m: nat :: ByLast(g, cores, q, xs, n, m, n')
  }

  ghost predicate ByLast(g: Grammar, cores: seq<set<Item>>, q: nat, xs: seq<nat>, n: nat, m: nat, n': nat)
    requires xs != [] && n <= |cores|
    decreases |cores| - n, 0, |xs|, 0
  {
    n <= m <= |cores| && Explored(g, cores, q, xs[..|xs| - 1], n, m) && StepTo(g, cores, q, xs[|xs| - 1], m, n')
  }

  /** All successors of state `q`, in the order of its sorted items. */
  ghost predicate Visited(g: Grammar, cores: seq<set<Item>>, q: nat, n: nat, n': nat)
    requires n <= |cores|
    decreases |cores| - n, 1, 0
  {
    q < |cores| && exists list ::
      Listing(Closure(g, cores[q]), list) && Explored(g, cores, q, NextInOrder(g, list), n, n')
  }

  /** The states are numbered as a depth-first walk from state 0 finds them. */
  ghost predicate DepthFirst(g: Grammar, cores: seq<set<Item>>) {
    |cores| > 0 && Visited(g, cores, 0, 1, |cores|)
  }

  // ----- more states behind change nothing -----

  ghost predicate Prefixed(cores: seq<set<Item>>, cores': seq<set<Item>>) {
    |cores| <= |cores'| && cores == cores'[..|cores|]
  }

  lemma {:induction false} StepToLater(g: Grammar, cores: seq<set<Item>>, cores': seq<set<Item>>, q: nat, x: nat,
                                       n: nat,
                                       n': nat)
    requires Prefixed(cores, cores') && n <= |cores| && StepTo(g, cores, q, x, n, n')
    ensures StepTo(g, cores', q, x, n, n')
    decreases |cores| - n, 0, 0
  {
    var j: nat :| Edge(g, cores, q, x, j) && if j < n then n' == n else j == n && Visited(g, cores, j, n + 1, n');
    assert Edge(g, cores', q, x, j);
    if j >= n { VisitedLater(g, cores, cores', j, n + 1, n'); }
  }

  lemma {:induction false} ExploredLater(g: Grammar, cores: seq<set<Item>>, cores': seq<set<Item>>, q: nat,
                                         xs: seq<nat>,
                                         n: nat, n': nat)
    requires Prefixed(cores, cores') && n <= |cores| && Explored(g, cores, q, xs, n, n')
    ensures Explored(g, cores', q, xs, n, n')
    decreases |cores| - n, 0, |xs|
  {
    hide StepTo;
    if xs != [] {
      var m: nat :| ByLast(g, cores, q, xs, n, m, n');
      ExploredLater(g, cores, cores', q, xs[..|xs| - 1], n, m);
      StepToLater(g, cores, cores', q, xs[|xs| - 1], m, n');
      assert ByLast(g, cores', q, xs, n, m, n');
    }
  }

  lemma {:induction false} VisitedLater(g: Grammar, cores: seq<set<Item>>, cores': seq<set<Item>>, q: nat, n: nat,
                                        n': nat)
    requires Prefixed(cores, cores') && n <= |cores| && Visited(g, cores, q, n, n')
    ensures Visited(g, cores', q, n, n')
    decreases |cores| - n, 1, 0
  {
    hide Explored, Listing, Closure;
    var list :| Listing(Closure(g, cores[q]), list) && Explored(g, cores, q, NextInOrder(g, list), n, n');
    assert cores'[q] == cores[q];
    ExploredLater(g, cores, cores', q, NextInOrder(g, list), n, n');
  }

  lemma ExploredMore(g: Grammar, cores: seq<set<Item>>, cores': seq<set<Item>>, q: nat, xs: seq<nat>, x: nat, n: nat,
                     m: nat, n': nat)
    requires Prefixed(cores, cores') && n <= m <= |cores| && Explored(g, cores, q, xs, n, m)
    requires StepTo(g, cores', q, x, m, n')
    ensures Explored(g, cores', q, xs + [x], n, n')
  {
    hide StepTo, Visited;
    ExploredLater(g, cores, cores', q, xs, n, m);
    assert (xs + [x])[..|xs|] == xs && (xs + [x])[|xs|] == x;
    assert ByLast(g, cores', q, xs + [x], n, m, n');
  }

  // ----- one item more -----

  lemma NextNone(g: Grammar)
    ensures NextInOrder(g, []) == []
  {
  }

  lemma NextMore(g: Grammar, list: seq<Item>, c: nat)
    requires c < |list|
    ensures NextInOrder(g, list[..c + 1]) ==
              if IsItem(g, list[c]) && !AtEnd(g, list[c])
                 && g.rules[list[c].rule].rhs[list[c].dot] !in NextInOrder(g, list[..c])
              then NextInOrder(g, list[..c]) + [g.rules[list[c].rule].rhs[list[c].dot]] else NextInOrder(g, list[..c])
  {
    assert list[..c + 1][..c] == list[..c] && list[..c + 1][c] == list[c];
  }

  // ----- following single symbols -----

  lemma OneSymbol(g: Grammar, cores: seq<set<Item>>, q: nat, x: nat, n: nat, n': nat)
    requires n <= |cores| && Explored(g, cores, q, [x], n, n')
    ensures StepTo(g, cores, q, x, n, n')
  {
    hide StepTo;
    var m: nat :| ByLast(g, cores, q, [x], n, m, n');
    assert [x][..0] == [] && Explored(g, cores, q, [], n, m);
  }

  lemma LastSymbol(g: Grammar, cores: seq<set<Item>>, q: nat, xs: seq<nat>, x: nat, n: nat, n': nat) returns (m: nat)
    requires n <= |cores| && Explored(g, cores, q, xs + [x], n, n')
    ensures n <= m <= |cores| && Explored(g, cores, q, xs, n, m) && StepTo(g, cores, q, x, m, n')
  {
    hide StepTo;
    m :| ByLast(g, cores, q, xs + [x], n, m, n');
    assert (xs + [x])[..|xs|] == xs;
  }
}
