/**
 * Hash indexes on scalar columns: 32 buckets of entries, one entry per distinct
 * value, each holding the keys of the rows with that value.
 */
module FieldIndex {
  import opened Values
  import opened RowMap

  datatype Entry = Entry(value: Data, keys: seq<int>)

  type Buckets = seq<seq<Entry>>

  /** Position of the first entry equal to the value, or the end of the chain. */
  function EntryAt(chain: seq<Entry>, v: Data, k: Kind): (p: nat)
    ensures p <= |chain|
    ensures p < |chain| ==> DataValueEquals(chain[p].value, v, k)
    ensures forall i :: 0 <= i < p ==> !DataValueEquals(chain[i].value, v, k)
  {
    if chain == [] || DataValueEquals(chain[0].value, v, k) then 0 else 1 + EntryAt(chain[1..], v, k)
  }

  /** The keys a chain has filed under a value. */
  function KeysIn(chain: seq<Entry>, v: Data, k: Kind): seq<int> {
    var p := EntryAt(chain, v, k);
    if p < |chain| then chain[p].keys else []
  }

  /** The keys filed under a value. */
  function KeysOf(ib: Buckets, v: Data, k: Kind): seq<int>
    requires |ib| == INDEX_BUCKETS
  {
    KeysIn(ib[IndexBucket(v, k)], v, k)
  }

  /** Files one more key, unless the entry already has it. */
  function AddKey(e: Entry, key: int): Entry {
    if key in e.keys then e else e.(keys := e.keys + [key])
  }

  /** Files a row in the entry of its value, or in a new entry at the head of the chain. */
  function FileIn(chain: seq<Entry>, v: Data, key: int, k: Kind): seq<Entry> {
    var p := EntryAt(chain, v, k);
    if p < |chain| then chain[p := AddKey(chain[p], key)] else [AddKey(Entry(v, []), key)] + chain
  }

  function File(ib: Buckets, v: Data, key: int, k: Kind): (ib': Buckets)
    requires |ib| == INDEX_BUCKETS
    ensures |ib'| == INDEX_BUCKETS
  {
    ib[IndexBucket(v, k) := FileIn(ib[IndexBucket(v, k)], v, key, k)]
  }

  /** The row holds its own key in cell 0 and a scalar of the kind in the indexed cell. */
  predicate Indexable(n: Node, f: nat, k: Kind) {
    f < |n.row.values| && HasKind(n.row.values[f], k) && n.row.values[0] == IntV(n.key)
  }

  predicate AllIndexable(nodes: Chain, f: nat, k: Kind) {
    forall i :: 0 <= i < |nodes| ==> Indexable(nodes[i], f, k)
  }

  /** Files rows one after another. */
  function FileAll(ib: Buckets, nodes: Chain, f: nat, k: Kind): (ib': Buckets)
    requires |ib| == INDEX_BUCKETS && AllIndexable(nodes, f, k)
    ensures |ib'| == INDEX_BUCKETS
    decreases |nodes|
  {
    if nodes == [] then ib
    else FileAll(File(ib, nodes[0].row.values[f], nodes[0].row.values[0].i, k), nodes[1..], f, k)
  }

  function NoEntries(): (ib: Buckets)
    ensures |ib| == INDEX_BUCKETS
  {
    seq(INDEX_BUCKETS, _ => [])
  }

  /** The index built from scratch over the rows in iteration order. */
  function Build(nodes: Chain, f: nat, k: Kind): (ib: Buckets)
    requires AllIndexable(nodes, f, k)
    ensures |ib| == INDEX_BUCKETS
  {
    FileAll(NoEntries(), nodes, f, k)
  }

  /** The keys of the rows whose cell equals the value, in order. */
  function MatchingKeys(nodes: Chain, f: nat, v: Data, k: Kind): seq<int>
    requires AllIndexable(nodes, f, k)
  {
    if nodes == [] then []
    else (if DataValueEquals(nodes[0].row.values[f], v, k) then [nodes[0].key] else [])
         + MatchingKeys(nodes[1..], f, v, k)
  }

  /** Entry positions depend on the entry values only. */
  lemma {:induction false} EntryAtByValues(a: seq<Entry>, b: seq<Entry>, v: Data, k: Kind)
    requires |a| == |b| && forall i :: 0 <= i < |a| ==> a[i].value == b[i].value
    ensures EntryAt(a, v, k) == EntryAt(b, v, k)
  {
    if a != [] {
      EntryAtByValues(a[1..], b[1..], v, k);
    }
  }

  /** Equal values have the same entry. */
  lemma {:induction false} EntryAtEqual(chain: seq<Entry>, v: Data, w: Data, k: Kind)
    requires DataValueEquals(v, w, k)
    ensures EntryAt(chain, v, k) == EntryAt(chain, w, k)
  {
    if chain != [] {
      EqualsTransfers(v, w, chain[0].value, k);
      EntryAtEqual(chain[1..], v, w, k);
    }
  }

  lemma {:induction false} FileInEqual(chain: seq<Entry>, w: Data, key: int, v: Data, k: Kind)
    requires DataValueEquals(w, v, k) && key !in KeysIn(chain, w, k)
    ensures KeysIn(FileIn(chain, w, key, k), v, k) == KeysIn(chain, v, k) + [key]
  {
    var p := EntryAt(chain, w, k);
    EntryAtEqual(chain, w, v, k);
    if p < |chain| {
      EntryAtByValues(chain, chain[p := AddKey(chain[p], key)], v, k);
    }
  }

  lemma {:induction false} FileInOther(chain: seq<Entry>, w: Data, key: int, v: Data, k: Kind)
    requires !DataValueEquals(w, v, k)
    ensures KeysIn(FileIn(chain, w, key, k), v, k) == KeysIn(chain, v, k)
  {
    hide DataValueEquals;
    var p := EntryAt(chain, w, k);
    if p < |chain| {
      EntryAtByValues(chain, chain[p := AddKey(chain[p], key)], v, k);
      EqualsTransfers(chain[p].value, w, v, k);
    } else {
      EntryAfterHead(AddKey(Entry(w, []), key), chain, v, k);
    }
  }

  lemma {:induction false} EntryAfterHead(e: Entry, chain: seq<Entry>, v: Data, k: Kind)
    requires !DataValueEquals(e.value, v, k)
    ensures EntryAt([e] + chain, v, k) == 1 + EntryAt(chain, v, k)
  {
    hide DataValueEquals;
    assert ([e] + chain)[1..] == chain;
  }

  /** Filing a row adds its key to the keys of every value it equals, and to no other. */
  lemma {:induction false} FileEffect(ib: Buckets, w: Data, key: int, v: Data, k: Kind)
    requires |ib| == INDEX_BUCKETS && HasKind(w, k) && HasKind(v, k)
    requires key !in KeysOf(ib, w, k)
    ensures KeysOf(File(ib, w, key, k), v, k) == KeysOf(ib, v, k) + if DataValueEquals(w, v, k) then [key] else []
  {
    var chain := ib[IndexBucket(w, k)];
    if DataValueEquals(w, v, k) {
      EqualValuesShareBucket(w, v, k);
      FileInEqual(chain, w, key, v, k);
    } else {
      FileInOther(chain, w, key, v, k);
    }
  }

  /** No value has any of these keys filed under it yet. */
  ghost predicate Unfiled(ib: Buckets, nodes: Chain, k: Kind)
    requires |ib| == INDEX_BUCKETS
  {
    forall i, u :: 0 <= i < |nodes| && HasKind(u, k) ==> nodes[i].key !in KeysOf(ib, u, k)
  }

  lemma {:induction false} UnfiledStep(ib: Buckets, nodes: Chain, w: Data, k: Kind)
    requires |ib| == INDEX_BUCKETS && nodes != [] && HasKind(w, k) && Unfiled(ib, nodes, k)
    requires forall i :: 0 < i < |nodes| ==> nodes[i].key != nodes[0].key
    ensures Unfiled(File(ib, w, nodes[0].key, k), nodes[1..], k)
  {
    var ib', rest := File(ib, w, nodes[0].key, k), nodes[1..];
    forall i, u | 0 <= i < |rest| && HasKind(u, k)
      ensures rest[i].key !in KeysOf(ib', u, k)
    {
      FileEffect(ib, w, nodes[0].key, u, k);
      assert rest[i] == nodes[i + 1];
    }
  }

  lemma {:induction false} FileAllEffect(ib: Buckets, nodes: Chain, f: nat, v: Data, k: Kind)
    requires |ib| == INDEX_BUCKETS && AllIndexable(nodes, f, k) && HasKind(v, k)
    requires forall i, j :: 0 <= i < j < |nodes| ==> nodes[i].key != nodes[j].key
    requires Unfiled(ib, nodes, k)
    ensures KeysOf(FileAll(ib, nodes, f, k), v, k) == KeysOf(ib, v, k) + MatchingKeys(nodes, f, v, k)
    decreases |nodes|
  {
    if nodes != [] {
      assert Indexable(nodes[0], f, k);
      UnfiledStep(ib, nodes, nodes[0].row.values[f], k);
      FileHeadEffect(ib, nodes, f, v, k);
      FileAllEffect(FileHead(ib, nodes, f, k), nodes[1..], f, v, k);
    }
  }

  function FileHead(ib: Buckets, nodes: Chain, f: nat, k: Kind): (ib': Buckets)
    requires |ib| == INDEX_BUCKETS && nodes != [] && Indexable(nodes[0], f, k)
    ensures |ib'| == INDEX_BUCKETS
  {
    File(ib, nodes[0].row.values[f], nodes[0].key, k)
  }

  lemma {:induction false} FileHeadEffect(ib: Buckets, nodes: Chain, f: nat, v: Data, k: Kind)
    requires |ib| == INDEX_BUCKETS && nodes != [] && AllIndexable(nodes, f, k) && HasKind(v, k)
    requires Unfiled(ib, nodes, k) && Indexable(nodes[0], f, k)
    ensures KeysOf(FileHead(ib, nodes, f, k), v, k) + MatchingKeys(nodes[1..], f, v, k)
         == KeysOf(ib, v, k) + MatchingKeys(nodes, f, v, k)
  {
    var w, key := nodes[0].row.values[f], nodes[0].key;
    FileEffect(ib, w, key, v, k);
    ConcatAssociates(KeysOf(ib, v, k), if DataValueEquals(w, v, k) then [key] else [], MatchingKeys(nodes[1..], f, v, k));
  }

  /** A freshly built index files under each value exactly the keys of the rows that match it, in order. */
  lemma {:induction false} BuildEffect(nodes: Chain, f: nat, v: Data, k: Kind)
    requires AllIndexable(nodes, f, k) && HasKind(v, k)
    requires forall i, j :: 0 <= i < j < |nodes| ==> nodes[i].key != nodes[j].key
    ensures KeysOf(Build(nodes, f, k), v, k) == MatchingKeys(nodes, f, v, k)
  {
    FileAllEffect(NoEntries(), nodes, f, v, k);
  }
}
