/** LR(0) items, item-set closure and the item sets of viable prefixes, as mathematics. */
module Items {
  import opened Grammars

  /** A rule with a mark showing how much of its right-hand side has been passed. */
  datatype Item = Item(rule: nat, dot: nat)

  ghost function Elems<T>(s: seq<T>): set<T> {
    set x | x in s
  }

  ghost predicate Distinct<T>(s: seq<T>) {
    forall i, j | 0 <= i < j < |s| :: s[i] != s[j]
  }

  predicate IsItem(g: Grammar, i: Item) {
    i.rule < |g.rules| && i.dot <= |g.rules[i.rule].rhs|
  }

  ghost function AllItems(g: Grammar): set<Item> {
    set r: nat, d: nat | r < |g.rules| && d <= |g.rules[r].rhs| :: Item(r, d)
  }

  predicate AtEnd(g: Grammar, i: Item)
    requires IsItem(g, i)
  {
    i.dot == |g.rules[i.rule].rhs|
  }

  /** The item has symbol `x` after its mark. */
  predicate Before(g: Grammar, i: Item, x: nat) {
    IsItem(g, i) && !AtEnd(g, i) && g.rules[i.rule].rhs[i.dot] == x
  }

  function Advance(i: Item): Item {
    Item(i.rule, i.dot + 1)
  }

  /** The order of items: by rule, then by mark. */
  function Configcmp(a: Item, b: Item): int {
    if a.rule != b.rule then a.rule - b.rule else a.dot - b.dot
  }

  ghost predicate Strict(s: seq<Item>) {
    forall i, j | 0 <= i < j < |s| :: Configcmp(s[i], s[j]) < 0
  }

  /** The part of the right-hand side beyond the symbol after the mark. */
  function Suffix(g: Grammar, i: Item): seq<nat>
    requires IsItem(g, i) && !AtEnd(g, i)
  {
    g.rules[i.rule].rhs[i.dot + 1..]
  }

  /** Closing a set that contains `i` brings in `j`. */
  predicate Spawns(g: Grammar, i: Item, j: Item) {
    j.dot == 0 && j.rule < |g.rules| && Before(g, i, g.rules[j.rule].lhs)
  }

  ghost predicate Closed(g: Grammar, c: set<Item>) {
    forall i, j | i in c && Spawns(g, i, j) :: j in c
  }

  /** The least closed set containing `k`. */
  ghost function Closure(g: Grammar, k: set<Item>): set<Item> {
    set i | i in AllItems(g) && forall d: set<Item> | d <= AllItems(g) && k <= d && Closed(g, d) :: i in d
  }

  ghost function Goto(g: Grammar, c: set<Item>, x: nat): set<Item> {
    set i | i in c && Before(g, i, x) :: Advance(i)
  }

  /** State `j` is where state `q` leads on `x`. */
  ghost predicate Edge(g: Grammar, cores: seq<set<Item>>, q: int, x: nat, j: int) {
    0 <= q < |cores| && 0 <= j < |cores| && cores[j] == Goto(g, Closure(g, cores[q]), x)
  }

  ghost function StartKernel(g: Grammar): set<Item> {
    set r: nat | r < |g.rules| && g.rules[r].lhs == g.start :: Item(r, 0)
  }

  /** The kernel items reached from the start by reading the symbols of `prefix`. */
  ghost function Kernel(g: Grammar, prefix: seq<nat>): set<Item>
    decreases |prefix|, 0
  {
    if prefix == [] then StartKernel(g)
    else Goto(g, ItemSet(g, prefix[..|prefix| - 1]), prefix[|prefix| - 1])
  }

  ghost function ItemSet(g: Grammar, prefix: seq<nat>): set<Item>
    decreases |prefix|, 1
  {
    Closure(g, Kernel(g, prefix))
  }

  /** The item set of some string of symbols. */
  ghost predicate Reachable(g: Grammar, k: set<Item>) {
    exists prefix: seq<nat> :: Kernel(g, prefix) == k
  }

  lemma ClosureIsLeast(g: Grammar, k: set<Item>)
    requires k <= AllItems(g)
    ensures k <= Closure(g, k) <= AllItems(g) && Closed(g, Closure(g, k))
    ensures forall d: set<Item> | k <= d && d <= AllItems(g) && Closed(g, d) :: Closure(g, k) <= d
  {
    var c := Closure(g, k);
    forall i, j | i in c && Spawns(g, i, j) ensures j in c {
      assert j in AllItems(g);
    }
  }

  /** A closed set that nothing smaller can replace is the closure. */
  lemma ClosureUnique(g: Grammar, k: set<Item>, c: set<Item>)
    requires k <= c <= AllItems(g) && Closed(g, c) && c <= Closure(g, k)
    ensures c == Closure(g, k)
  {
    ClosureIsLeast(g, k);
  }

  lemma GotoItems(g: Grammar, c: set<Item>, x: nat)
    requires c <= AllItems(g)
    ensures Goto(g, c, x) <= AllItems(g)
  {
    forall i | i in Goto(g, c, x) ensures i in AllItems(g) {
      assert IsItem(g, i);
    }
  }

  lemma KernelItems(g: Grammar, prefix: seq<nat>)
    ensures Kernel(g, prefix) <= AllItems(g)
  {
    if prefix != [] {
      GotoItems(g, ItemSet(g, prefix[..|prefix| - 1]), prefix[|prefix| - 1]);
    }
  }

  /** Closing adds only unread rules, of symbols that stand after a mark. */
  lemma ClosureAdds(g: Grammar, k: set<Item>, j: Item)
    requires k <= AllItems(g) && j in Closure(g, k) && j !in k
    ensures j.dot == 0 && exists i :: i in Closure(g, k) && Spawns(g, i, j)
  {
    ClosureIsLeast(g, k);
    var c := Closure(g, k);
    var d := set i | i in c && (i in k || exists i' :: i' in c && Spawns(g, i', i));
    assert Closed(g, d);
    assert j in d;
  }

  lemma ReachableStep(g: Grammar, k: set<Item>, x: nat)
    requires Reachable(g, k)
    ensures Reachable(g, Goto(g, Closure(g, k), x))
  {
    var prefix: seq<nat> :| Kernel(g, prefix) == k;
    var longer := prefix + [x];
    assert longer[..|longer| - 1] == prefix;
    assert Kernel(g, longer) == Goto(g, Closure(g, k), x);
  }
}
