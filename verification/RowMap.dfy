/**
 * The chained hash map that stores rows by integer key. A bucket's chain is a
 * sequence, head first. Everything holds for every hash function.
 */
module RowMap {
  import opened Values

  datatype Row = Row(values: seq<Data>, created: int, updated: int)

  datatype Node = Node(key: int, row: Row)

  type Chain = seq<Node>

  // ---- Sequences of nodes as a plain map ----

  /** The map a sequence of nodes stands for. */
  ghost function ToMap(nodes: Chain): map<int, Row> {
    if nodes == [] then map[] else ToMap(nodes[1..])[nodes[0].key := nodes[0].row]
  }

  /** No key occurs twice. */
  ghost predicate Distinct(nodes: Chain) {
    nodes == [] || (nodes[0].key !in ToMap(nodes[1..]) && Distinct(nodes[1..]))
  }

  lemma {:induction false} ToMapConcat(a: Chain, b: Chain)
    ensures ToMap(a + b) == ToMap(b) + ToMap(a)
    ensures Distinct(a + b) <==> Distinct(a) && Distinct(b) && ToMap(a).Keys !! ToMap(b).Keys
  {
    if a == [] {
      assert a + b == b;
    } else {
      assert (a + b)[1..] == a[1..] + b;
      ToMapConcat(a[1..], b);
    }
  }

  /** A stretch in the middle: the three parts have disjoint keys and merge. */
  lemma {:induction false} ToMapMiddle(a: Chain, c: Chain, d: Chain)
    ensures Distinct(a + c + d) <==>
            && Distinct(a) && Distinct(c) && Distinct(d)
            && ToMap(a).Keys !! ToMap(c).Keys && ToMap(a).Keys !! ToMap(d).Keys && ToMap(c).Keys !! ToMap(d).Keys
    ensures Distinct(a + c + d) ==> ToMap(a + c + d) == ToMap(a) + ToMap(d) + ToMap(c)
  {
    ToMapConcat(a + c, d);
    ToMapConcat(a, c);
    assert ToMap(a + c).Keys == ToMap(a).Keys + ToMap(c).Keys;
    assert Distinct(a + c + d) ==> ToMap(d) + (ToMap(c) + ToMap(a)) == ToMap(a) + ToMap(d) + ToMap(c);
  }

  lemma {:induction false} ToMapSingleton(n: Node)
    ensures ToMap([n]) == map[n.key := n.row] && Distinct([n])
  {
    assert ToMap([n]) == ToMap([])[n.key := n.row];
  }

  /** Membership, and the number of nodes, read off the map. */
  lemma {:induction false} ToMapMeaning(nodes: Chain)
    requires Distinct(nodes)
    ensures |ToMap(nodes)| == |nodes|
    ensures forall n :: n in nodes <==> n.key in ToMap(nodes) && ToMap(nodes)[n.key] == n.row
    ensures forall i, j :: 0 <= i < j < |nodes| ==> nodes[i].key != nodes[j].key
  {
    if nodes != [] {
      ToMapMeaning(nodes[1..]);
      var tail := nodes[1..];
      assert ToMap(nodes).Keys == ToMap(tail).Keys + {nodes[0].key};
      assert forall n :: n in nodes <==> n == nodes[0] || n in tail;
      assert forall i :: 0 < i < |nodes| ==> nodes[i] == tail[i - 1] && nodes[i] in tail;
    }
  }

  // ---- Buckets ----

  /** All nodes in iteration order: bucket by bucket, each chain from its head. */
  function Flatten(buckets: seq<Chain>): Chain {
    if buckets == [] then [] else buckets[0] + Flatten(buckets[1..])
  }

  lemma {:induction false} FlattenConcat(a: seq<Chain>, b: seq<Chain>)
    ensures Flatten(a + b) == Flatten(a) + Flatten(b)
  {
    if a == [] {
      assert a + b == b;
    } else {
      assert (a + b)[1..] == a[1..] + b;
      FlattenConcat(a[1..], b);
    }
  }

  /** One chain seen inside the whole iteration order. */
  lemma {:induction false} FlattenAt(buckets: seq<Chain>, i: nat)
    requires i < |buckets|
    ensures Flatten(buckets) == Flatten(buckets[..i]) + buckets[i] + Flatten(buckets[i + 1..])
  {
    assert buckets == buckets[..i] + buckets[i..];
    FlattenConcat(buckets[..i], buckets[i..]);
    assert buckets[i..][1..] == buckets[i + 1..];
    assert Flatten(buckets[i..]) == buckets[i] + Flatten(buckets[i + 1..]);
  }

  /** Changing one chain changes exactly that stretch of the iteration order. */
  lemma {:induction false} FlattenUpdate(buckets: seq<Chain>, i: nat, chain: Chain)
    requires i < |buckets|
    ensures Flatten(buckets[i := chain]) == Flatten(buckets[..i]) + chain + Flatten(buckets[i + 1..])
  {
    FlattenAt(buckets[i := chain], i);
    assert buckets[i := chain][..i] == buckets[..i];
    assert buckets[i := chain][i + 1..] == buckets[i + 1..];
  }

  /** The first node of a chain with the given key. */
  function FindInChain(chain: Chain, key: int): Option<Row> {
    if chain == [] then None
    else if chain[0].key == key then Some(chain[0].row)
    else FindInChain(chain[1..], key)
  }

  /** The chain with its first node for the key unlinked. */
  function Unlink(chain: Chain, key: int): Chain {
    if chain == [] then []
    else if chain[0].key == key then chain[1..]
    else [chain[0]] + Unlink(chain[1..], key)
  }

  /** The chain with the row of its first node for the key overwritten. */
  function Overwrite(chain: Chain, key: int, row: Row): Chain {
    if chain == [] then []
    else if chain[0].key == key then [Node(key, row)] + chain[1..]
    else [chain[0]] + Overwrite(chain[1..], key, row)
  }

  /** The load test: at least three quarters full. */
  predicate ShouldRehash(size: int, bucketCount: int) {
    bucketCount > 0 && size * 4 >= bucketCount * 3
  }

  datatype RowMap = RowMap(hash: int -> nat, buckets: seq<Chain>) {

    function BucketOf(key: int): (i: nat)
      requires |buckets| > 0
      ensures i < |buckets|
    {
      hash(key) % |buckets|
    }

    /** Every node sits in the bucket of its key. */
    ghost predicate Placed() {
      |buckets| > 0 && forall i, n :: 0 <= i < |buckets| && n in buckets[i] ==> BucketOf(n.key) == i
    }

    /** Every node sits in the bucket of its key, and keys are unique. */
    ghost predicate Valid() {
      Placed() && Distinct(Flatten(buckets))
    }

    /** The plain map the hash map stands for. */
    ghost function Contents(): map<int, Row>
      requires Valid()
    {
      ToMap(Flatten(buckets))
    }

    function Find(key: int): Option<Row>
      requires |buckets| > 0
    {
      FindInChain(buckets[BucketOf(key)], key)
    }

    /** Head insertion, without the load test. */
    function Link(n: Node): (m: RowMap)
      requires |buckets| > 0
      ensures m.hash == hash && |m.buckets| == |buckets|
    {
      var i := BucketOf(n.key);
      this.(buckets := buckets[i := [n] + buckets[i]])
    }

    function LinkAll(nodes: Chain): (m: RowMap)
      requires |buckets| > 0
      ensures m.hash == hash && |m.buckets| == |buckets|
      decreases |nodes|
    {
      if nodes == [] then this else Link(nodes[0]).LinkAll(nodes[1..])
    }

    /** All nodes relinked, in iteration order, into empty buckets. */
    function Rehash(newCount: nat): (m: RowMap)
      requires newCount > 0
      ensures m.hash == hash && |m.buckets| == newCount
    {
      Empty(hash, newCount).LinkAll(Flatten(buckets))
    }

    /** Insertion; the bucket array doubles when the load test asks for it and allocation succeeds. */
    function Insert(key: int, row: Row, sizeAfter: int, allocOk: bool): (m: RowMap)
      requires |buckets| > 0
      ensures m.hash == hash
      ensures |m.buckets| == if ShouldRehash(sizeAfter, |buckets|) && allocOk then 2 * |buckets| else |buckets|
    {
      var m := Link(Node(key, row));
      if ShouldRehash(sizeAfter, |buckets|) && allocOk then m.Rehash(2 * |buckets|) else m
    }

    function Remove(key: int): (m: RowMap)
      requires |buckets| > 0
      ensures m.hash == hash && |m.buckets| == |buckets|
    {
      var i := BucketOf(key);
      this.(buckets := buckets[i := Unlink(buckets[i], key)])
    }

    /** In-place change of the stored row. */
    function Put(key: int, row: Row): (m: RowMap)
      requires |buckets| > 0
      ensures m.hash == hash && |m.buckets| == |buckets|
    {
      var i := BucketOf(key);
      this.(buckets := buckets[i := Overwrite(buckets[i], key, row)])
    }
  }

  function Empty(hash: int -> nat, count: nat): (m: RowMap)
    ensures m.hash == hash && |m.buckets| == count
  {
    RowMap(hash, seq(count, _ => []))
  }

  lemma {:induction false} FlattenEmpties(count: nat)
    ensures Flatten(seq(count, _ => [])) == []
  {
    if count > 0 {
      assert seq<Chain>(count, _ => [])[1..] == seq<Chain>(count - 1, _ => []);
      FlattenEmpties(count - 1);
    }
  }

  lemma {:induction false} EmptyIsEmpty(hash: int -> nat, count: nat)
    requires count > 0
    ensures Empty(hash, count).Valid() && Empty(hash, count).Contents() == map[]
    ensures Flatten(Empty(hash, count).buckets) == []
  {
    FlattenEmpties(count);
    assert Flatten(Empty(hash, count).buckets) == [];
  }

  // ---- Refinement of map<int, Row> ----

  lemma {:induction false} FindInChainMeaning(chain: Chain, key: int)
    ensures FindInChain(chain, key) == if key in ToMap(chain) then Some(ToMap(chain)[key]) else None
  {
    if chain != [] && chain[0].key != key {
      FindInChainMeaning(chain[1..], key);
    }
  }

  /** The chain of a key, alone, decides whether and where the key is stored. */
  lemma {:induction false} ChainDecides(m: RowMap, key: int)
    requires m.Valid()
    ensures var chain := m.buckets[m.BucketOf(key)];
            && (key in m.Contents() <==> key in ToMap(chain))
            && (key in m.Contents() ==> m.Contents()[key] == ToMap(chain)[key])
  {
    var i := m.BucketOf(key);
    var a, c, d := Flatten(m.buckets[..i]), m.buckets[i], Flatten(m.buckets[i + 1..]);
    FlattenAt(m.buckets, i);
    ToMapMiddle(a, c, d);
    ElsewhereAbsent(m, m.buckets[..i], key);
    ElsewhereAbsent(m, m.buckets[i + 1..], key);
  }

  /** Chains other than the key's own do not hold the key. */
  lemma {:induction false} ElsewhereAbsent(m: RowMap, others: seq<Chain>, key: int)
    requires |m.buckets| > 0
    requires forall j, n :: 0 <= j < |others| && n in others[j] ==> m.BucketOf(n.key) != m.BucketOf(key)
    ensures key !in ToMap(Flatten(others))
  {
    if others != [] {
      ElsewhereAbsent(m, others[1..], key);
      ToMapConcat(others[0], Flatten(others[1..]));
      FindInChainMeaning(others[0], key);
      InChain(others[0], key);
    }
  }

  lemma {:induction false} InChain(chain: Chain, key: int)
    ensures key in ToMap(chain) ==> exists n :: n in chain && n.key == key
  {
    if chain != [] && chain[0].key != key {
      InChain(chain[1..], key);
    }
  }

  /** Find agrees with the plain map. */
  lemma {:induction false} FindRefines(m: RowMap, key: int)
    requires m.Valid()
    ensures m.Find(key) == if key in m.Contents() then Some(m.Contents()[key]) else None
  {
    ChainDecides(m, key);
    FindInChainMeaning(m.buckets[m.BucketOf(key)], key);
  }

  /** Linking one node in front of its chain, seen as sequences and maps. */
  lemma {:induction false} LinkMiddle(a: Chain, n: Node, chain: Chain, d: Chain)
    requires Distinct(a + chain + d) && n.key !in ToMap(a + chain + d)
    ensures Distinct(a + ([n] + chain) + d)
    ensures ToMap(a + ([n] + chain) + d) == ToMap(a + chain + d)[n.key := n.row]
  {
    ToMapMiddle(a, chain, d);
    ToMapMiddle(a, [n] + chain, d);
    assert ([n] + chain)[1..] == chain;
    assert ToMap([n] + chain) == ToMap(chain)[n.key := n.row];
  }

  lemma {:induction false} LinkRefines(m: RowMap, n: Node)
    requires m.Valid() && n.key !in m.Contents()
    ensures m.Link(n).Valid()
    ensures m.Link(n).Contents() == m.Contents()[n.key := n.row]
  {
    var i := m.BucketOf(n.key);
    FlattenAt(m.buckets, i);
    FlattenUpdate(m.buckets, i, [n] + m.buckets[i]);
    LinkMiddle(Flatten(m.buckets[..i]), n, m.buckets[i], Flatten(m.buckets[i + 1..]));
    assert m.Link(n).Placed();
  }

  /** Without a rehash, the iteration order gains the new row in front of the rows of its bucket, and nothing else moves. */
  lemma {:induction false} NewestFirst(m: RowMap, key: int, row: Row, sizeAfter: int, allocOk: bool)
    returns (before: Chain, bucket: Chain, after: Chain)
    requires m.Valid() && key !in m.Contents() && |m.Insert(key, row, sizeAfter, allocOk).buckets| == |m.buckets|
    ensures Flatten(m.buckets) == before + bucket + after
    ensures Flatten(m.Insert(key, row, sizeAfter, allocOk).buckets) == before + ([Node(key, row)] + bucket) + after
    ensures forall n :: n in bucket ==> m.hash(n.key) % |m.buckets| == m.hash(key) % |m.buckets|
  {
    var i := m.BucketOf(key);
    before, bucket, after := Flatten(m.buckets[..i]), m.buckets[i], Flatten(m.buckets[i + 1..]);
    FlattenAt(m.buckets, i);
    FlattenUpdate(m.buckets, i, [Node(key, row)] + m.buckets[i]);
  }

  lemma {:induction false} LinkAllRefines(m: RowMap, nodes: Chain)
    requires m.Valid() && Distinct(nodes) && m.Contents().Keys !! ToMap(nodes).Keys
    ensures m.LinkAll(nodes).Valid()
    ensures m.LinkAll(nodes).Contents() == m.Contents() + ToMap(nodes)
    decreases |nodes|
  {
    if nodes != [] {
      LinkRefines(m, nodes[0]);
      LinkAllRefines(m.Link(nodes[0]), nodes[1..]);
    }
  }

  /** Rehashing keeps every row and places it by the new bucket count. */
  lemma {:induction false} RehashRefines(m: RowMap, newCount: nat)
    requires m.Valid() && newCount > 0
    ensures m.Rehash(newCount).Valid()
    ensures m.Rehash(newCount).Contents() == m.Contents()
  {
    EmptyIsEmpty(m.hash, newCount);
    LinkAllRefines(Empty(m.hash, newCount), Flatten(m.buckets));
  }

  /** Inserting a fresh key extends the plain map, whether or not the rehash allocation succeeds. */
  lemma {:induction false} InsertRefines(m: RowMap, key: int, row: Row, sizeAfter: int, allocOk: bool)
    requires m.Valid() && key !in m.Contents()
    ensures m.Insert(key, row, sizeAfter, allocOk).Valid()
    ensures m.Insert(key, row, sizeAfter, allocOk).Contents() == m.Contents()[key := row]
  {
    LinkRefines(m, Node(key, row));
    RehashRefines(m.Link(Node(key, row)), 2 * |m.buckets|);
  }

  /** A chain split around its first node for the key. */
  lemma {:induction false} SplitChain(chain: Chain, key: int) returns (before: Chain, after: Chain)
    requires FindInChain(chain, key).Some?
    ensures chain == before + [Node(key, FindInChain(chain, key).value)] + after
    ensures Unlink(chain, key) == before + after
    ensures forall row :: Overwrite(chain, key, row) == before + [Node(key, row)] + after
  {
    if chain[0].key == key {
      before, after := [], chain[1..];
    } else {
      before, after := SplitChain(chain[1..], key);
      before := [chain[0]] + before;
    }
  }

  /** The whole iteration order split around the node of a stored key. */
  lemma {:induction false} SplitAtKey(m: RowMap, key: int, row: Row) returns (a: Chain, d: Chain)
    requires m.Valid() && key in m.Contents()
    ensures Flatten(m.buckets) == a + [Node(key, m.Contents()[key])] + d
    ensures Flatten(m.Remove(key).buckets) == a + d
    ensures Flatten(m.Put(key, row).buckets) == a + [Node(key, row)] + d
    ensures m.Remove(key).Placed() && m.Put(key, row).Placed()
  {
    FindRefines(m, key);
    var i := m.BucketOf(key);
    var before, after := SplitChain(m.buckets[i], key);
    var x, y := Flatten(m.buckets[..i]), Flatten(m.buckets[i + 1..]);
    a, d := x + before, after + y;
    FlattenAt(m.buckets, i);
    Regroup(x, before, [Node(key, m.Contents()[key])], after, y);
    FlattenUpdate(m.buckets, i, before + after);
    Regroup(x, before, [], after, y);
    FlattenUpdate(m.buckets, i, before + [Node(key, row)] + after);
    Regroup(x, before, [Node(key, row)], after, y);
  }

  lemma {:induction false} Regroup(x: Chain, before: Chain, c: Chain, after: Chain, y: Chain)
    ensures x + (before + c + after) + y == (x + before) + c + (after + y)
    ensures c == [] ==> x + (before + after) + y == (x + before) + (after + y)
  {
  }

  /** Removal of a stored key agrees with the plain map. */
  lemma {:induction false} RemoveRefines(m: RowMap, key: int)
    requires m.Valid() && key in m.Contents()
    ensures m.Remove(key).Valid()
    ensures m.Remove(key).Contents() == m.Contents() - {key}
  {
    var n := Node(key, m.Contents()[key]);
    var a, d := SplitAtKey(m, key, n.row);
    ToMapMiddle(a, [n], d);
    ToMapSingleton(n);
    ToMapConcat(a, d);
  }

  /** Removal of an absent key changes nothing. */
  lemma {:induction false} RemoveAbsent(m: RowMap, key: int)
    requires m.Valid() && key !in m.Contents()
    ensures m.Remove(key) == m
  {
    FindRefines(m, key);
    UnlinkAbsent(m.buckets[m.BucketOf(key)], key);
  }

  lemma {:induction false} UnlinkAbsent(chain: Chain, key: int)
    requires FindInChain(chain, key).None?
    ensures Unlink(chain, key) == chain
  {
    if chain != [] {
      UnlinkAbsent(chain[1..], key);
    }
  }

  /** Overwriting a stored row changes that entry of the plain map, and nothing else. */
  lemma {:induction false} PutRefines(m: RowMap, key: int, row: Row)
    requires m.Valid() && key in m.Contents()
    ensures m.Put(key, row).Valid()
    ensures m.Put(key, row).Contents() == m.Contents()[key := row]
  {
    var a, d := SplitAtKey(m, key, row);
    var n := Node(key, m.Contents()[key]);
    ToMapMiddle(a, [n], d);
    ToMapMiddle(a, [Node(key, row)], d);
    ToMapSingleton(n);
    ToMapSingleton(Node(key, row));
  }

  /** The iteration order holds each stored row once, and nothing else. */
  lemma {:induction false} IterationOrder(m: RowMap)
    requires m.Valid()
    ensures |Flatten(m.buckets)| == |m.Contents()|
    ensures forall i, j :: 0 <= i < j < |Flatten(m.buckets)| ==> Flatten(m.buckets)[i].key != Flatten(m.buckets)[j].key
    ensures forall n :: n in Flatten(m.buckets) <==> n.key in m.Contents() && m.Contents()[n.key] == n.row
  {
    ToMapMeaning(Flatten(m.buckets));
  }
}
