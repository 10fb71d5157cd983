/** The list of tables: lookup, registration at the head, removal. */
module Catalog {
  import opened Values
  import opened Tables
  import opened Snapshot

  ghost predicate DistinctNames(tables: seq<Table>) {
    forall i, j :: 0 <= i < j < |tables| ==> tables[i].name != tables[j].name
  }

  /** The place of the first table with this name, or the length. */
  function TablePlace(tables: seq<Table>, name: string): (r: nat)
    ensures r <= |tables| && (r < |tables| ==> tables[r].name == name)
    ensures forall i :: 0 <= i < r ==> tables[i].name != name
  {
    if tables == [] || tables[0].name == name then 0 else 1 + TablePlace(tables[1..], name)
  }

  lemma {:induction false} FindDbPlace(tables: seq<Table>, name: string)
    ensures FindDb(tables, name)
         == if TablePlace(tables, name) < |tables| then Some(tables[TablePlace(tables, name)]) else None
    decreases |tables|
  {
    if tables != [] && tables[0].name != name {
      FindDbPlace(tables[1..], name);
    }
  }

  function RemoveDb(tables: seq<Table>, name: string): (seq<Table>, int) {
    var k := TablePlace(tables, name);
    if k < |tables| then (tables[..k] + tables[k + 1..], 0) else (tables, -1)
  }

  /** The list after a change to the table of this name. */
  function Changed(tables: seq<Table>, t: Table): seq<Table> {
    var k := TablePlace(tables, t.name);
    if k < |tables| then tables[k := t] else tables
  }

  lemma {:induction false} FindAt(tables: seq<Table>, i: nat)
    requires DistinctNames(tables) && i < |tables|
    ensures FindDb(tables, tables[i].name) == Some(tables[i])
  {
    FindDbPlace(tables, tables[i].name);
  }

  lemma {:induction false} FindNone(tables: seq<Table>, name: string)
    requires forall i :: 0 <= i < |tables| ==> tables[i].name != name
    ensures FindDb(tables, name) == None
  {
    FindDbPlace(tables, name);
  }

  /** A registered table is found under its name, every other name is looked up as before. */
  lemma {:induction false} AddDbEffect(tables: seq<Table>, t: Table, name: string)
    requires DistinctNames(tables) && |tables| <= MAX_DB_COUNT
    ensures var (after, code) := AddDb(tables, t);
            && DistinctNames(after) && |after| <= MAX_DB_COUNT
            && (code == 0 <==> |tables| < MAX_DB_COUNT && FindDb(tables, t.name).None?)
            && (code != 0 ==> after == tables)
            && FindDb(after, name) == if code == 0 && name == t.name then Some(t) else FindDb(tables, name)
  {
    FindDbPlace(tables, t.name);
    var after := AddDb(tables, t).0;
    if AddDb(tables, t).1 == 0 {
      assert after == [t] + tables;
      assert after[1..] == tables;
    }
  }

  /** A removed table is gone; every other name is looked up as before. */
  lemma {:induction false} RemoveDbEffect(tables: seq<Table>, gone: string, name: string)
    requires DistinctNames(tables)
    ensures var (after, code) := RemoveDb(tables, gone);
            && DistinctNames(after) && |after| <= |tables|
            && (code == 0 <==> FindDb(tables, gone).Some?)
            && (forall i :: 0 <= i < |after| ==> after[i] in tables)
            && FindDb(after, name) == if name == gone then None else FindDb(tables, name)
  {
    hide FindDb;
    FindDbPlace(tables, gone);
    FindDbPlace(tables, name);
    var k := TablePlace(tables, gone);
    if k < |tables| {
      var after := tables[..k] + tables[k + 1..];
      assert forall i :: 0 <= i < |after| ==> after[i] == tables[if i < k then i else i + 1];
      assert DistinctNames(after);
      var j := TablePlace(tables, name);
      if name == gone || j == |tables| {
        FindNone(after, name);
      } else {
        assert after[if j < k then j else j - 1] == tables[j];
        FindAt(after, if j < k then j else j - 1);
      }
    }
  }

  /** Changing one table leaves every other name's lookup alone. */
  lemma {:induction false} ChangedEffect(tables: seq<Table>, t: Table, name: string)
    requires DistinctNames(tables)
    ensures var after := Changed(tables, t);
            && DistinctNames(after) && |after| == |tables|
            && (forall i :: 0 <= i < |after| ==> after[i] == tables[i] || after[i] == t)
            && FindDb(after, name) == if name == t.name && FindDb(tables, name).Some? then Some(t) else FindDb(tables, name)
  {
    hide FindDb;
    FindDbPlace(tables, name);
    FindDbPlace(tables, t.name);
    var after, j := Changed(tables, t), TablePlace(tables, name);
    if j < |tables| {
      FindAt(after, j);
    } else {
      FindNone(after, name);
    }
  }
}
