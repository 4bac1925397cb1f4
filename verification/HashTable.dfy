/** The associative arrays of strings, symbols, states and configurations: chained hash tables that double when full. */
module HashTables {
  import opened Grammars

  /** A node; `next` is the index of the next node with the same hash, or -1. */
  datatype Node<K, D> = Node(key: K, data: D, next: int)

  predicate PowerOfTwo(n: nat): (b: bool)
    ensures b ==> n > 0
  {
    n == 1 || (n > 1 && n % 2 == 0 && PowerOfTwo(n / 2))
  }

  /** The bitwise `a & b` of a number that may be negative, in two's complement, with one that is not. */
  function And(a: int, b: nat): (c: nat)
    ensures c <= b
    decreases b
  {
    if b == 0 then 0 else 2 * And(a / 2, b / 2) + (if a % 2 == 1 && b % 2 == 1 then 1 else 0)
  }

  /** With one less than a power of two it is the remainder, also of a negative number. */
  lemma {:induction false} MaskIsRemainder(a: int, n: nat)
    requires PowerOfTwo(n)
    ensures And(a, n - 1) == a % n
    decreases n
  {
    if n > 1 {
      var m := n / 2;
      MaskIsRemainder(a / 2, m);
      assert (n - 1) / 2 == m - 1 && (n - 1) % 2 == 1;
      HalfRemainder(a, m);
    }
  }

  lemma HalfRemainder(a: int, m: nat)
    requires m > 0
    ensures a % (2 * m) == 2 * ((a / 2) % m) + a % 2
  {
    var q, r := (a / 2) / m, (a / 2) % m;
    assert a == 2 * (a / 2) + a % 2 && a / 2 == m * q + r;
    assert a == (2 * m) * q + (2 * r + a % 2);
    RemainderIs(a, 2 * m, q, 2 * r + a % 2);
  }

  lemma RemainderIs(a: int, n: nat, q: int, r: nat)
    requires r < n && a == n * q + r
    ensures a % n == r
  {
    var k := a / n - q;
    assert a == n * (a / n) + a % n;
    assert n * k == n * (a / n) - n * q == r - a % n;
    SmallMultiple(n, k);
  }

  lemma SmallMultiple(n: nat, k: int)
    requires n > 0 && 0 - n < n * k < n
    ensures k == 0
  {
  }

  /** `hash & (size - 1)`. */
  function Bucket<K>(hash: K -> int, size: nat, key: K): (h: nat)
    requires size > 0
    ensures h < size
  {
    And(hash(key), size - 1)
  }

  /** The last of the first `n` nodes in bucket `h`, or -1. */
  ghost function LastIn<K, D>(hash: K -> int, size: nat, nodes: seq<Node<K, D>>, n: nat, h: nat): (i: int)
    requires size > 0 && n <= |nodes|
    ensures -1 <= i < n && (i >= 0 ==> Bucket(hash, size, nodes[i].key) == h)
    ensures forall j | i < j < n :: Bucket(hash, size, nodes[j].key) != h
    decreases n
  {
    if n == 0 then -1
    else if Bucket(hash, size, nodes[n - 1].key) == h then n - 1
    else LastIn(hash, size, nodes, n - 1, h)
  }

  /** Every node points to the node before it in its bucket, every bucket to its last node. */
  ghost predicate Chained<K, D>(hash: K -> int, size: nat, nodes: seq<Node<K, D>>, n: nat, ht: seq<int>)
    requires size > 0 && n <= |nodes|
  {
    && |ht| == size
    && (forall h | 0 <= h < size :: ht[h] == LastIn(hash, size, nodes, n, h))
    && (forall i | 0 <= i < n :: nodes[i].next == LastIn(hash, size, nodes, i, Bucket(hash, size, nodes[i].key)))
  }

  /** Only the keys of the first `n` nodes count. */
  lemma {:induction false} SameKeys<K, D>(hash: K -> int, size: nat, nodes: seq<Node<K, D>>, nodes': seq<Node<K, D>>,
                                          n: nat, h: nat)
    requires size > 0 && n <= |nodes| && n <= |nodes'| && forall i | 0 <= i < n :: nodes'[i].key == nodes[i].key
    ensures LastIn(hash, size, nodes', n, h) == LastIn(hash, size, nodes, n, h)
    decreases n
  {
    if n > 0 { SameKeys(hash, size, nodes, nodes', n - 1, h); }
  }

  /** A node linked in at the head of its chain. */
  lemma LinkedIn<K, D>(hash: K -> int, size: nat, nodes: seq<Node<K, D>>, n: nat, ht: seq<int>, key: K, data: D)
    requires size > 0 && n < |nodes| && Chained(hash, size, nodes, n, ht)
    ensures var h := Bucket(hash, size, key);
            Chained(hash, size, nodes[n := Node(key, data, ht[h])], n + 1, ht[h := n])
  {
    var h := Bucket(hash, size, key);
    var nodes' := nodes[n := Node(key, data, ht[h])];
    forall i, b | 0 <= i <= n ensures LastIn(hash, size, nodes', i, b) == LastIn(hash, size, nodes, i, b) {
      SameKeys(hash, size, nodes, nodes', i, b);
    }
  }

  lemma NothingChained<K, D>(hash: K -> int, size: nat, nodes: seq<Node<K, D>>, ht: seq<int>)
    requires size > 0 && |ht| == size && forall h | 0 <= h < size :: ht[h] == -1
    ensures Chained(hash, size, nodes, 0, ht)
  {
  }

  lemma Rechain<K, D>(hash: K -> int, size: nat, nodes: seq<Node<K, D>>, n: nat, ht: seq<int>, key: K, data: D)
    requires size > 0 && n < |nodes| && Chained(hash, size, nodes, n, ht)
    ensures var h := Bucket(hash, size, key);
            var nodes' := nodes[n := Node(key, data, ht[h])];
            Chained(hash, size, nodes', n + 1, ht[h := n])
                && EntriesOf(nodes', n + 1) == EntriesOf(nodes, n) + [Entry(key, data)]
  {
    LinkedIn(hash, size, nodes, n, ht, key, data);
  }

  /** On the way down the chain of the key: the nodes behind `np` do not have it. */
  ghost predicate Passed<K, D>(hash: K -> int, size: nat, nodes: seq<Node<K, D>>, n: nat, key: K, np: int)
    requires size > 0 && n <= |nodes|
  {
    && -1 <= np < n && (np >= 0 ==> Bucket(hash, size, nodes[np].key) == Bucket(hash, size, key))
    && forall i | np < i < n :: nodes[i].key != key
  }

  lemma ChainHead<K, D>(hash: K -> int, size: nat, nodes: seq<Node<K, D>>, n: nat, ht: seq<int>, key: K)
    requires size > 0 && n <= |nodes| && Chained(hash, size, nodes, n, ht)
    ensures Passed(hash, size, nodes, n, key, ht[Bucket(hash, size, key)])
  {
    var h := Bucket(hash, size, key);
    forall i | ht[h] < i < n ensures nodes[i].key != key {
      assert Bucket(hash, size, nodes[i].key) != h;
    }
  }

  lemma ChainNext<K, D>(hash: K -> int, size: nat, nodes: seq<Node<K, D>>, n: nat, ht: seq<int>, key: K, np: nat)
    requires size > 0 && n <= |nodes| && Chained(hash, size, nodes, n, ht)
    requires Passed(hash, size, nodes, n, key, np) && nodes[np].key != key
    ensures -1 <= nodes[np].next < np && Passed(hash, size, nodes, n, key, nodes[np].next)
  {
    hide Bucket, LastIn;
    var h := Bucket(hash, size, key);
    assert nodes[np].next == LastIn(hash, size, nodes, np, h);
    BehindLast(hash, size, nodes, np, h, key);
  }

  lemma BehindLast<K, D>(hash: K -> int, size: nat, nodes: seq<Node<K, D>>, n: nat, h: nat, key: K)
    requires size > 0 && n <= |nodes| && h == Bucket(hash, size, key)
    ensures forall i | LastIn(hash, size, nodes, n, h) < i < n :: nodes[i].key != key
  {
    forall i | LastIn(hash, size, nodes, n, h) < i < n ensures nodes[i].key != key {
      assert Bucket(hash, size, nodes[i].key) != h;
    }
  }

  lemma NotThere<K, D>(hash: K -> int, size: nat, nodes: seq<Node<K, D>>, n: nat, key: K)
    requires size > 0 && n <= |nodes| && Passed(hash, size, nodes, n, key, -1)
    ensures forall i | 0 <= i < n :: nodes[i].key != key
  {
  }

  // ----- what the table is: the finite map of the first insertions -----

  datatype Entry<K, D> = Entry(key: K, data: D)

  /** The datum first inserted under the key. */
  function Lookup<K(==), D>(entries: seq<Entry<K, D>>, key: K): (r: Option<D>)
  {
    if entries == [] then None else if entries[0].key == key then Some(entries[0].data) else Lookup(entries[1..], key)
  }

  lemma {:induction false} LookupIs<K, D>(entries: seq<Entry<K, D>>, key: K)
    ensures Lookup(entries, key).None? <==> forall i | 0 <= i < |entries| :: entries[i].key != key
    ensures forall i | 0 <= i < |entries| && entries[i].key == key
            && (forall j | 0 <= j < i :: entries[j].key != key) ::
              Lookup(entries, key) == Some(entries[i].data)
    decreases |entries|
  {
    if entries != [] {
      LookupIs(entries[1..], key);
      assert forall i | 0 < i < |entries| :: entries[i] == entries[1..][i - 1];
      forall i | 0 <= i < |entries| && entries[i].key == key && (forall j | 0 <= j < i :: entries[j].key != key)
        ensures Lookup(entries, key) == Some(entries[i].data)
      {
        if i > 0 {
          assert forall j | 0 <= j < i - 1 :: entries[1..][j] == entries[j + 1];
          assert entries[1..][i - 1].key == key;
        }
      }
    }
  }

  /** No key twice. */
  ghost predicate OneEach<K, D>(entries: seq<Entry<K, D>>) {
    forall i, j | 0 <= i < j < |entries| :: entries[i].key != entries[j].key
  }

  ghost predicate NewKey<K, D>(entries: seq<Entry<K, D>>, key: K) {
    forall i | 0 <= i < |entries| :: entries[i].key != key
  }

  lemma OneMore<K, D>(entries: seq<Entry<K, D>>, e: Entry<K, D>)
    requires OneEach(entries) && NewKey(entries, e.key)
    ensures OneEach(entries + [e])
  {
  }

  ghost function EntriesOf<K, D>(nodes: seq<Node<K, D>>, n: nat): seq<Entry<K, D>>
    requires n <= |nodes|
  {
    seq(n, i requires 0 <= i < n => Entry(nodes[i].key, nodes[i].data))
  }

  class HashTable<K(==, 0, !new), D(0, !new)> {
    const hash: K -> int
    var size: nat
    var count: nat
    var tbl: array<Node<K, D>>
    var ht: array<int>

    ghost predicate Valid()
      reads this, tbl, ht
    {
      && PowerOfTwo(size) && count <= size == tbl.Length && ht.Length == size
      && Chained(hash, size, tbl[..], count, ht[..]) && OneEach(Entries())
    }

    /** The entries in the order of their insertion. */
    ghost function Entries(): seq<Entry<K, D>>
      reads this, tbl
      requires count <= tbl.Length
    {
      EntriesOf(tbl[..], count)
    }

    constructor (hash: K -> int, size: nat)
      requires PowerOfTwo(size)
      ensures this.hash == hash && Valid() && Entries() == [] && fresh(tbl) && fresh(ht)
    {
      this.hash, this.size, count := hash, size, 0;
      tbl := new Node<K, D>[size];
      ht := new int[size](_ => -1);
    }

    /** The node with the key, or -1. */
    method Walk(key: K) returns (np: int)
      requires Valid()
      ensures -1 <= np < count && (np >= 0 ==> tbl[np].key == key)
      ensures np < 0 ==> forall i | 0 <= i < count :: tbl[i].key != key
    {
      hide Chained, Passed, OneEach, PowerOfTwo;
      ghost var nodes, heads := tbl[..], ht[..];
      ChainHead(hash, size, nodes, count, heads, key);
      var h := Bucket(hash, size, key);
      np := ht[h];
      while np >= 0
        invariant Passed(hash, size, nodes, count, key, np)
        invariant -1 <= np < count
        decreases np
      {
        if tbl[np].key == key { return; }
        ChainNext(hash, size, nodes, count, heads, key, np);
        np := tbl[np].next;
      }
      NotThere(hash, size, nodes, count, key);
    }

    /** The datum first inserted under the key since the last clear, or nothing. */
    method Find(key: K) returns (r: Option<D>)
      requires Valid()
      ensures r == Lookup(Entries(), key)
    {
      var np := Walk(key);
      LookupIs(Entries(), key);
      if np >= 0 {
        assert Entries()[np].key == key;
        r := Some(tbl[np].data);
      } else {
        r := None;
      }
    }

    /** Double the table and chain all nodes anew. */
    method Grow()
      requires Valid() && count == size
      modifies this`size, this`tbl, this`ht
      ensures Valid() && size == 2 * old(size) && Entries() == old(Entries()) && fresh(tbl) && fresh(ht)
    {
      hide Chained, OneEach;
      ghost var entries := Entries();
      var size' := size * 2;
      var tbl' := new Node<K, D>[size'];
      var ht' := new int[size'](_ => -1);
      NothingChained(hash, size', tbl'[..], ht'[..]);
      for i := 0 to count
        invariant tbl == old(tbl) && ht == old(ht) && size == old(size) && Entries() == entries
        invariant Chained(hash, size', tbl'[..], i, ht'[..]) && EntriesOf(tbl'[..], i) == entries[..i]
      {
        var h := Bucket(hash, size', tbl[i].key);
        Rechain(hash, size', tbl'[..], i, ht'[..], tbl[i].key, tbl[i].data);
        ghost var nodes, heads := tbl'[..], ht'[..];
        tbl'[i] := Node(tbl[i].key, tbl[i].data, ht'[h]);
        ht'[h] := i;
        assert tbl'[..] == nodes[i := Node(tbl[i].key, tbl[i].data, heads[h])] && ht'[..] == heads[h := i];
        assert entries[..i + 1] == entries[..i] + [entries[i]];
      }
      assert size' / 2 == size;
      size, tbl, ht := size', tbl', ht';
      assert Entries() == entries[..count] == entries;
    }

    /** Insert unless there is data under the key already, which is not overwritten; new data comes last. */
    method Insert(data: D, key: K) returns (inserted: bool)
      requires Valid()
      modifies this`size, this`count, this`tbl, this`ht, tbl, ht
      ensures Valid() && inserted == Lookup(old(Entries()), key).None?
      ensures Entries() == old(Entries()) + if inserted then [Entry(key, data)] else []
      ensures (tbl == old(tbl) || fresh(tbl)) && (ht == old(ht) || fresh(ht))
      ensures size == if inserted && old(|Entries()| >= size) then 2 * old(size) else old(size)
    {
      ghost var entries := Entries();
      LookupIs(entries, key);
      var np := Walk(key);
      if np >= 0 {
        assert entries[np].key == key;
        return false;
      }
      assert NewKey(entries, key);
      if count >= size {
        Grow();
      }
      Append(data, key);
      inserted := true;
    }

    method Append(data: D, key: K)
      requires Valid() && count < size && NewKey(Entries(), key)
      modifies this`count, tbl, ht
      ensures Valid() && Entries() == old(Entries()) + [Entry(key, data)]
    {
      hide Chained, LastIn, Bucket, OneEach, PowerOfTwo, NewKey, EntriesOf;
      ghost var nodes, heads := tbl[..], ht[..];
      var h := Bucket(hash, size, key);
      var node := Node(key, data, ht[h]);
      ghost var nodes', heads' := nodes[count := node], heads[h := count];
      Rechain(hash, size, nodes, count, heads, key, data);
      OneMore(Entries(), Entry(key, data));
      tbl[count] := node;
      ht[h] := count;
      count := count + 1;
      assert tbl[..] == nodes' && ht[..] == heads';
    }

    /** Configtable_clear. */
    method Clear()
      requires Valid()
      modifies this`count, ht
      ensures Valid() && Entries() == []
    {
      if count == 0 { return; }
      var i := 0;
      while i < size
        invariant 0 <= i <= size && forall h | 0 <= h < i :: ht[h] == -1
      {
        ht[i] := -1;
        i := i + 1;
      }
      count := 0;
    }
  }

  // ----- runs -----

  datatype Op<K, D> = Insertion(data: D, key: K) | Cleared

  /** The entries after a run of operations, as the contracts of the operations give them. */
  function After<K(==), D>(ops: seq<Op<K, D>>): seq<Entry<K, D>> {
    if ops == [] then []
    else
      var before := After(ops[..|ops| - 1]);
      match ops[|ops| - 1]
      case Cleared => []
      case Insertion(d, k) => if Lookup(before, k).None? then before + [Entry(k, d)] else before
  }

  /** Operation `i` is the first insertion under the key since the last clear. */
  ghost predicate FirstInsertion<K, D>(ops: seq<Op<K, D>>, key: K, i: nat) {
    && i < |ops| && ops[i].Insertion? && ops[i].key == key
    && (forall j | i < j < |ops| :: ops[j].Insertion?)
    && (forall j | 0 <= j < i && ops[j].Insertion? && ops[j].key == key :: ClearedBetween(ops, j, i))
  }

  ghost predicate ClearedBetween<K, D>(ops: seq<Op<K, D>>, j: nat, i: nat) {
    exists c :: j < c < i && c < |ops| && ops[c].Cleared?
  }

  lemma {:induction false} LookupAppend<K, D>(entries: seq<Entry<K, D>>, e: Entry<K, D>, key: K)
    ensures Lookup(entries + [e], key) == if Lookup(entries, key).Some? then Lookup(entries, key) else if e.key == key
            then Some(e.data) else None
    decreases |entries|
  {
    if entries != [] {
      LookupAppend(entries[1..], e, key);
      assert (entries + [e])[1..] == entries[1..] + [e];
    }
  }

  /** Where there is an insertion since the last clear, there is a first. */
  lemma {:induction false} SomeFirst<K(!new), D>(ops: seq<Op<K, D>>, key: K, j: nat)
    requires j < |ops| && ops[j].Insertion? && ops[j].key == key && forall c | j < c < |ops| :: ops[c].Insertion?
    ensures exists i: nat :: FirstInsertion(ops, key, i)
    decreases j
  {
    if !FirstInsertion(ops, key, j) {
      var k :| 0 <= k < j && ops[k].Insertion? && ops[k].key == key && !ClearedBetween(ops, k, j);
      assert forall c | k < c < j :: !ops[c].Cleared?;
      SomeFirst(ops, key, k);
    }
  }

  /** Over any run, whatever the hash function, a key is found exactly if it was inserted since the last clear, and then
      with the datum of the first such insertion. */
  lemma {:induction false} FoundIsFirstInserted<K(!new), D>(ops: seq<Op<K, D>>, key: K)
    ensures Lookup(After(ops), key).Some? <==> exists i: nat :: FirstInsertion(ops, key, i)
    ensures forall i: nat | FirstInsertion(ops, key, i) :: Lookup(After(ops), key) == Some(ops[i].data)
    decreases |ops|
  {
    if ops != [] {
      var n := |ops| - 1;
      FoundIsFirstInserted(ops[..n], key);
      match ops[n]
      case Cleared =>
        assert forall i: nat :: !FirstInsertion(ops, key, i);
      case Insertion(d, k) =>
        forall i: nat | i < n ensures FirstInsertion(ops, key, i) <==> FirstInsertion(ops[..n], key, i) {
          StillFirst(ops, key, i);
        }
        LookupAppend(After(ops[..n]), Entry(k, d), key);
        LastIsFirst(ops, key);
        assert ops[n] == Insertion(d, k);
    }
  }

  /** A table after a run of operations. */
  method RunAll<K(==, 0, !new), D(0, !new)>(hash: K -> int, size: nat, ops: seq<Op<K, D>>) returns (t: HashTable<K, D>)
    requires PowerOfTwo(size)
    ensures fresh(t) && t.Valid() && t.hash == hash && t.Entries() == After(ops)
  {
    hide PowerOfTwo, Lookup;
    t := new HashTable<K, D>(hash, size);
    for i := 0 to |ops|
      invariant fresh(t) && fresh(t.tbl) && fresh(t.ht) && t.Valid() && t.hash == hash && t.Entries() == After(ops[..i])
    {
      assert ops[..i + 1][..i] == ops[..i];
      match ops[i]
      case Cleared => t.Clear();
      case Insertion(d, k) => var _ := t.Insert(d, k);
    }
    assert ops[..|ops|] == ops;
  }

  /** What a table finds after any run, for any hash function and any initial size. */
  method FindAfter<K(==, 0, !new), D(0, !new)>(hash: K -> int, size: nat, ops: seq<Op<K, D>>, key: K)
    returns (r: Option<D>)
    requires PowerOfTwo(size)
    ensures r.Some? <==> exists i: nat :: FirstInsertion(ops, key, i)
    ensures forall i: nat | FirstInsertion(ops, key, i) :: r == Some(ops[i].data)
  {
    var t := RunAll(hash, size, ops);
    r := t.Find(key);
    FoundIsFirstInserted(ops, key);
  }

  lemma StillFirst<K, D>(ops: seq<Op<K, D>>, key: K, i: nat)
    requires ops != [] && ops[|ops| - 1].Insertion? && i < |ops| - 1
    ensures FirstInsertion(ops, key, i) <==> FirstInsertion(ops[..|ops| - 1], key, i)
  {
    var ops' := ops[..|ops| - 1];
    assert forall j | 0 <= j < |ops'| :: ops'[j] == ops[j];
    forall j: nat | j < i ensures ClearedBetween(ops, j, i) <==> ClearedBetween(ops', j, i) {
      if c :| j < c < i && c < |ops| && ops[c].Cleared? { assert ops'[c].Cleared?; }
      if c :| j < c < i && c < |ops'| && ops'[c].Cleared? { assert ops[c].Cleared?; }
    }
  }

  /** The last operation is the first insertion under its key exactly if there was none before. */
  lemma LastIsFirst<K(!new), D>(ops: seq<Op<K, D>>, key: K)
    requires ops != [] && ops[|ops| - 1].Insertion?
    ensures var n := |ops| - 1; var ops' := ops[..n];
            FirstInsertion(ops, key, n) <==> ops[n].key == key && !exists i: nat :: FirstInsertion(ops', key, i)
  {
    var n := |ops| - 1;
    var ops' := ops[..n];
    assert forall j | 0 <= j < n :: ops'[j] == ops[j];
    if ops[n].key == key && !FirstInsertion(ops, key, n) {
      var j :| 0 <= j < n && ops[j].Insertion? && ops[j].key == key && !ClearedBetween(ops, j, n);
      assert forall c | j < c < n :: !ops[c].Cleared? && ops'[c] == ops[c];
      SomeFirst(ops', key, j);
    }
    if i: nat :| FirstInsertion(ops', key, i) {
      assert ops'[i] == ops[i] && ops'[i].key == key;
      assert forall c | i < c < |ops'| :: ops'[c] == ops[c] && ops'[c].Insertion?;
      assert !ClearedBetween(ops, i, n);
    }
  }
}
