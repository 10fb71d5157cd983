/** The hash map and its iterator as the server runs them: loops over chains, updated in place. */
module HashMap {
  import opened Values
  import opened RowMap

  /** The position of the first node with the key, or the end of the chain. */
  method WalkTo(chain: Chain, key: int) returns (node: nat)
    ensures node <= |chain|
    ensures node == |chain| ==> FindInChain(chain, key) == None && Unlink(chain, key) == chain
    ensures node < |chain| ==>
              && FindInChain(chain, key) == Some(chain[node].row)
              && Unlink(chain, key) == chain[..node] + chain[node + 1..]
              && forall row :: Overwrite(chain, key, row) == chain[node := Node(key, row)]
  {
    node := 0;
    while node < |chain| && chain[node].key != key
      invariant 0 <= node <= |chain|
      invariant forall i :: 0 <= i < node ==> chain[i].key != key
    {
      node := node + 1;
    }
    WalkMeaning(chain, key, node);
  }

  lemma {:induction false} WalkMeaning(chain: Chain, key: int, node: nat)
    requires node <= |chain| && forall i :: 0 <= i < node ==> chain[i].key != key
    requires node < |chain| ==> chain[node].key == key
    ensures node == |chain| ==> FindInChain(chain, key) == None && Unlink(chain, key) == chain
    ensures node < |chain| ==>
              && FindInChain(chain, key) == Some(chain[node].row)
              && Unlink(chain, key) == chain[..node] + chain[node + 1..]
              && forall row :: Overwrite(chain, key, row) == chain[node := Node(key, row)]
  {
    if node > 0 {
      WalkMeaning(chain[1..], key, node - 1);
    }
  }

  class RowHashMap {
    const hash: int -> nat
    var buckets: seq<Chain>

    ghost function Model(): RowMap
      reads this
    {
      RowMap(hash, buckets)
    }

    ghost predicate Valid()
      reads this
    {
      Model().Valid()
    }

    constructor (hash: int -> nat, bucketCount: nat)
      requires bucketCount > 0
      ensures Valid() && Model() == Empty(hash, bucketCount) && Model().Contents() == map[]
    {
      this.hash := hash;
      buckets := seq(bucketCount, _ => []);
      new;
      EmptyIsEmpty(hash, bucketCount);
    }

    /** Walks one chain to the first node with the key. */
    method Find(key: int) returns (found: Option<Row>)
      requires Valid()
      ensures found == Model().Find(key)
      ensures found == if key in Model().Contents() then Some(Model().Contents()[key]) else None
    {
      FindRefines(Model(), key);
      var chain := buckets[hash(key) % |buckets|];
      var node := 0;
      while node < |chain|
        invariant 0 <= node <= |chain|
        invariant FindInChain(chain[node..], key) == FindInChain(chain, key)
      {
        if chain[node].key == key {
          return Some(chain[node].row);
        }
        node := node + 1;
      }
      return None;
    }

    /** Links a node at the head of its chain, then grows the bucket array if the load asks for it. */
    method Insert(key: int, row: Row, sizeAfterInsert: int, allocOk: bool)
      requires Valid() && key !in Model().Contents()
      modifies this
      ensures Valid()
      ensures Model() == old(Model()).Insert(key, row, sizeAfterInsert, allocOk)
      ensures Model().Contents() == old(Model().Contents())[key := row]
    {
      InsertRefines(Model(), key, row, sizeAfterInsert, allocOk);
      LinkRefines(Model(), Node(key, row));
      var bucket := hash(key) % |buckets|;
      buckets := buckets[bucket := [Node(key, row)] + buckets[bucket]];
      if ShouldRehash(sizeAfterInsert, |buckets|) {
        var newBucketCount := |buckets| * 2;
        if newBucketCount > |buckets| && allocOk {
          RehashRows(newBucketCount);
        }
      }
    }

    /** Relinks every node, bucket by bucket, head to tail, into a larger bucket array. */
    method RehashRows(newBucketCount: nat)
      requires Valid() && newBucketCount > |buckets|
      modifies this
      ensures Valid() && |buckets| == newBucketCount
      ensures Model() == old(Model()).Rehash(newBucketCount)
      ensures Model().Contents() == old(Model().Contents())
    {
      RehashRefines(Model(), newBucketCount);
      var newBuckets: seq<Chain> := seq(newBucketCount, _ => []);
      ghost var target := Model().Rehash(newBucketCount);
      var i := 0;
      while i < |buckets|
        invariant 0 <= i <= |buckets| && |newBuckets| == newBucketCount
        invariant RowMap(hash, newBuckets).LinkAll(Flatten(buckets[i..])) == target
      {
        var chain := buckets[i];
        var node := 0;
        assert buckets[i..][1..] == buckets[i + 1..];
        while node < |chain|
          invariant 0 <= node <= |chain| && |newBuckets| == newBucketCount
          invariant RowMap(hash, newBuckets).LinkAll(chain[node..] + Flatten(buckets[i + 1..])) == target
        {
          var bi := hash(chain[node].key) % newBucketCount;
          ghost var rest := chain[node..] + Flatten(buckets[i + 1..]);
          assert rest[0] == chain[node] && rest[1..] == chain[node + 1..] + Flatten(buckets[i + 1..]);
          newBuckets := newBuckets[bi := [chain[node]] + newBuckets[bi]];
          node := node + 1;
        }
        assert chain[node..] + Flatten(buckets[i + 1..]) == Flatten(buckets[i + 1..]);
        i := i + 1;
      }
      buckets := newBuckets;
    }

    /** Unlinks the node of a key and hands back its row; an absent key changes nothing. */
    method Remove(key: int) returns (removed: Option<Row>)
      requires Valid()
      modifies this
      ensures Valid()
      ensures Model() == old(Model()).Remove(key)
      ensures removed == if key in old(Model().Contents()) then Some(old(Model().Contents())[key]) else None
      ensures Model().Contents() == old(Model().Contents()) - {key}
    {
      FindRefines(Model(), key);
      ghost var present := key in Model().Contents();
      if present {
        RemoveRefines(Model(), key);
      } else {
        RemoveAbsent(Model(), key);
      }
      var bucket := hash(key) % |buckets|;
      var node := WalkTo(buckets[bucket], key);
      if node == |buckets[bucket]| {
        return None;
      }
      removed := Some(buckets[bucket][node].row);
      buckets := buckets[bucket := buckets[bucket][..node] + buckets[bucket][node + 1..]];
    }

    /** Overwrites the row stored under a key, as writing through a found row pointer does. */
    method Put(key: int, row: Row)
      requires Valid() && key in Model().Contents()
      modifies this
      ensures Valid()
      ensures Model() == old(Model()).Put(key, row)
      ensures Model().Contents() == old(Model().Contents())[key := row]
    {
      FindRefines(Model(), key);
      PutRefines(Model(), key, row);
      var bucket := hash(key) % |buckets|;
      var node := WalkTo(buckets[bucket], key);
      buckets := buckets[bucket := buckets[bucket][node := Node(key, row)]];
    }
  }

  // ---- Cursor positions ----

  /** Before the first row, at a row, or past the last one. */
  ghost predicate IsPosition(buckets: seq<Chain>, bucketIndex: int, node: Option<nat>) {
    && -1 <= bucketIndex <= |buckets|
    && (node.Some? <==> 0 <= bucketIndex < |buckets|)
    && (node.Some? ==> node.value < |buckets[bucketIndex]|)
  }

  /** How many rows come up to and including the position. */
  ghost function RowsUpTo(buckets: seq<Chain>, bucketIndex: int, node: Option<nat>): nat
    requires IsPosition(buckets, bucketIndex, node)
  {
    if bucketIndex < 0 then 0
    else if bucketIndex == |buckets| then |Flatten(buckets)|
    else |Flatten(buckets[..bucketIndex])| + node.value + 1
  }

  /** The position and result of handing out row number k, or of stopping after the last. */
  ghost predicate IsResult(buckets: seq<Chain>, bucketIndex: int, node: Option<nat>, row: Option<Row>, k: int) {
    && IsPosition(buckets, bucketIndex, node)
    && 0 <= k <= |Flatten(buckets)|
    && (k < |Flatten(buckets)| ==>
          row == Some(Flatten(buckets)[k].row) && RowsUpTo(buckets, bucketIndex, node) == k + 1)
    && (k == |Flatten(buckets)| ==> row == None && RowsUpTo(buckets, bucketIndex, node) == k)
  }

  lemma {:induction false} NextInChain(buckets: seq<Chain>, b: nat, j: nat)
    requires b < |buckets| && j + 1 < |buckets[b]|
    ensures IsResult(buckets, b, Some(j + 1), Some(buckets[b][j + 1].row), RowsUpTo(buckets, b, Some(j)))
  {
    FlattenAt(buckets, b);
  }

  lemma {:induction false} FirstOfChain(buckets: seq<Chain>, i: nat)
    requires i < |buckets| && buckets[i] != []
    ensures IsResult(buckets, i, Some(0), Some(buckets[i][0].row), |Flatten(buckets[..i])|)
  {
    FlattenAt(buckets, i);
  }

  /** Past the last node of a chain, the rows so far fill exactly the chains up to it. */
  lemma {:induction false} ChainDone(buckets: seq<Chain>, i: int)
    requires -1 <= i < |buckets|
    ensures |Flatten(buckets[..i + 1])| == if i < 0 then 0 else |Flatten(buckets[..i])| + |buckets[i]|
  {
    if i >= 0 {
      assert buckets[..i + 1] == buckets[..i] + [buckets[i]];
      FlattenConcat(buckets[..i], [buckets[i]]);
      assert Flatten([buckets[i]]) == buckets[i] + Flatten([]);
    }
  }

  /** A cursor: the current bucket, and the current node of its chain if there is one. */
  class RowIterator {
    var bucketIndex: int
    var node: Option<nat>

    ghost predicate At(buckets: seq<Chain>)
      reads this
    {
      IsPosition(buckets, bucketIndex, node)
    }

    /** How many rows the cursor has handed out. */
    ghost function Visited(buckets: seq<Chain>): nat
      reads this
      requires At(buckets)
    {
      RowsUpTo(buckets, bucketIndex, node)
    }

    ghost predicate HandedOut(buckets: seq<Chain>, row: Option<Row>, k: int)
      reads this
    {
      IsResult(buckets, bucketIndex, node, row, k)
    }

    constructor (buckets: seq<Chain>)
      ensures At(buckets) && Visited(buckets) == 0
    {
      bucketIndex, node := -1, None;
    }

    /** Hands out the rows of the map in iteration order, each once, then `None` for ever. */
    method Next(buckets: seq<Chain>) returns (row: Option<Row>)
      requires At(buckets)
      modifies this
      ensures HandedOut(buckets, row, old(Visited(buckets)))
    {
      ghost var k := Visited(buckets);
      if node.Some? && node.value + 1 < |buckets[bucketIndex]| {
        NextInChain(buckets, bucketIndex, node.value);
        node := Some(node.value + 1);
        return Some(buckets[bucketIndex][node.value].row);
      }
      var i := bucketIndex + 1;
      if bucketIndex < |buckets| {
        ChainDone(buckets, bucketIndex);
      }
      while i < |buckets|
        invariant 0 <= i && (i > |buckets| ==> k == |Flatten(buckets)|)
        invariant i <= |buckets| ==> |Flatten(buckets[..i])| == k
      {
        if buckets[i] != [] {
          FirstOfChain(buckets, i);
          bucketIndex, node := i, Some(0);
          return Some(buckets[i][0].row);
        }
        ChainDone(buckets, i);
        i := i + 1;
      }
      assert buckets[..|buckets|] == buckets;
      bucketIndex, node := |buckets|, None;
      return None;
    }
  }
}
