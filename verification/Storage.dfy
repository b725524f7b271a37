/** The SQLite database: the `queue` table keyed by its integer primary key, and the `config`
    table. Every statement is atomic and may fail without effect; a history variable counts the
    failures, so that callers cannot claim one. */
module Storage {
  import opened Common
  import opened Protocol
  import opened Backlog

  datatype Record = Record(kind: Kind, payload: Bytes, ticket: nat)

  type Table = map<int, Record>

  predicate IsLeast(id: int, ids: set<int>) {
    id in ids && forall j :: j in ids ==> id <= j
  }

  predicate IsGreatest(id: int, ids: set<int>) {
    id in ids && forall j :: j in ids ==> j <= id
  }

  lemma AnyOf<T>(ids: set<T>) returns (x: T)
    requires |ids| > 0
    ensures x in ids
  {
    x :| x in ids;
  }

  lemma {:induction false} HasLeast(ids: set<int>) returns (id: int)
    requires |ids| > 0
    ensures IsLeast(id, ids)
  {
    id := AnyOf(ids);
    var rest := ids - {id};
    assert forall j :: j in ids ==> j == id || j in rest;
    if |rest| > 0 {
      var y := HasLeast(rest);
      id := if id <= y then id else y;
    }
  }

  lemma {:induction false} HasGreatest(ids: set<int>) returns (id: int)
    requires |ids| > 0
    ensures IsGreatest(id, ids)
  {
    id := AnyOf(ids);
    var rest := ids - {id};
    assert forall j :: j in ids ==> j == id || j in rest;
    if |rest| > 0 {
      var y := HasGreatest(rest);
      id := if id <= y then y else id;
    }
  }

  ghost function Least(ids: set<int>): (id: int)
    requires |ids| > 0
    ensures IsLeast(id, ids)
  {
    assert exists x :: IsLeast(x, ids) by { var x := HasLeast(ids); }
    var x :| IsLeast(x, ids);
    x
  }

  function ToRow(id: int, record: Record): Row {
    Row(id, record.kind, record.payload, record.ticket)
  }

  lemma WithoutKey(table: Table, id: int)
    requires id in table
    ensures (table - {id}).Keys == table.Keys - {id} && |table - {id}| == |table| - 1
  {
    assert (table - {id}).Keys == table.Keys - {id};
    assert |table.Keys| == |table| && |(table - {id}).Keys| == |table - {id}|;
  }

  /** SELECT ... FROM queue ORDER BY id: the table as a sequence of rows. */
  ghost function Scan(table: Table): (rows: seq<Row>)
    ensures |rows| == |table|
    decreases |table|
  {
    if |table| == 0 then []
    else
      var id := Least(table.Keys);
      WithoutKey(table, id);
      [ToRow(id, table[id])] + Scan(table - {id})
  }

  lemma ScanEmpty()
    ensures Scan(map[]) == []
  {
  }

  lemma ScanStep(table: Table, id: int)
    requires IsLeast(id, table.Keys)
    ensures Scan(table) == [ToRow(id, table[id])] + Scan(table - {id})
  {
  }

  lemma ScanRest(table: Table, found: seq<Row>, rest: Table, id: int)
    requires Scan(table) == found + Scan(rest) && IsLeast(id, rest.Keys)
    ensures Scan(table) == found + [ToRow(id, rest[id])] + Scan(rest - {id}) && |rest - {id}| < |rest|
  {
    WithoutKey(rest, id);
    ScanStep(rest, id);
  }

  /** A scan holds exactly the rows of the table. */
  lemma {:induction false} ScanMembers(table: Table, r: Row)
    ensures r in Scan(table) <==> r.id in table && r == ToRow(r.id, table[r.id])
    decreases |table|
  {
    if |table| > 0 {
      var id := Least(table.Keys);
      WithoutKey(table, id);
      ScanStep(table, id);
      ScanMembers(table - {id}, r);
    }
  }

  /** A scan is in strictly increasing id order. */
  lemma {:induction false} ScanIsSorted(table: Table)
    ensures forall i, j :: 0 <= i < j < |Scan(table)| ==> Scan(table)[i].id < Scan(table)[j].id
    decreases |table|
  {
    if |table| > 0 {
      var id := Least(table.Keys);
      WithoutKey(table, id);
      ScanStep(table, id);
      var rest := Scan(table - {id});
      ScanIsSorted(table - {id});
      forall j | 0 <= j < |rest| ensures id < rest[j].id {
        ScanMembers(table - {id}, rest[j]);
      }
    }
  }

  /** Inserting under a new greatest id appends to the scan. */
  lemma {:induction false} ScanInsert(table: Table, id: int, record: Record)
    requires forall j :: j in table ==> j < id
    ensures Scan(table[id := record]) == Scan(table) + [ToRow(id, record)]
    decreases |table|
  {
    hide Scan;
    var bigger := table[id := record];
    if |table| == 0 {
      assert table == map[];
      ScanStep(bigger, id);
      assert bigger - {id} == map[];
      ScanEmpty();
    } else {
      var m := Least(table.Keys);
      WithoutKey(table, m);
      ScanStep(table, m);
      ScanStep(bigger, m);
      assert bigger - {m} == (table - {m})[id := record];
      ScanInsert(table - {m}, id, record);
    }
  }

  lemma ScanDeleteMissing(table: Table, id: int)
    requires id !in table
    ensures DeleteId(Scan(table), id) == Scan(table)
  {
    var rows := Scan(table);
    forall i | 0 <= i < |rows| ensures rows[i].id != id {
      ScanMembers(table, rows[i]);
    }
    DeleteMissing(rows, id);
  }

  lemma {:induction false} ScanDeletePresent(table: Table, id: int)
    requires id in table
    ensures Scan(table - {id}) == DeleteId(Scan(table), id)
    decreases |table|
  {
    var m := Least(table.Keys);
    var rest := table - {m};
    WithoutKey(table, m);
    ScanStep(table, m);
    DeleteIdCons(ToRow(m, table[m]), Scan(rest), id);
    if m == id {
      ScanDeleteMissing(rest, id);
    } else {
      ScanDeletePresent(rest, id);
      var left := table - {id};
      assert IsLeast(m, left.Keys);
      ScanStep(left, m);
      assert rest - {id} == left - {m};
    }
  }

  /** Deleting a key deletes the row with that id from the scan. */
  lemma ScanDelete(table: Table, id: int)
    ensures Scan(table - {id}) == DeleteId(Scan(table), id)
  {
    if id in table {
      ScanDeletePresent(table, id);
    } else {
      ScanDeleteMissing(table, id);
      assert table - {id} == table;
    }
  }

  lemma DeleteIdCons(r: Row, rows: seq<Row>, id: int)
    ensures DeleteId([r] + rows, id) == if r.id == id then DeleteId(rows, id) else [r] + DeleteId(rows, id)
  {
    assert ([r] + rows)[1..] == rows;
  }

  /** SQLite's next id, computed on the key set, is the one computed on the scan. */
  lemma NextIdAgrees(table: Table, top: int)
    requires IsGreatest(top, table.Keys)
    ensures NextId(Scan(table)) == top + 1
  {
    ScanIsSorted(table);
    ScanMembers(table, ToRow(top, table[top]));
    var rows := Scan(table);
    var i :| 0 <= i < |rows| && rows[i] == ToRow(top, table[top]);
    ScanMembers(table, rows[|rows| - 1]);
    assert rows[|rows| - 1] in rows;
  }

  class Database {
    var queue: Table
    var config: map<Key, string>
    /** Rows inserted so far; no statement reads it. */
    var tickets: nat
    /** Statements that failed so far, and secrets that could not be decrypted. */
    ghost var faults: nat

    ghost function Rows(): (rows: seq<Row>)
      reads this`queue
      ensures |rows| == |queue|
    {
      Scan(queue)
    }

    constructor ()
      ensures queue == map[] && config == map[] && tickets == 0 && faults == 0
    {
      queue, config, tickets, faults := map[], map[], 0, 0;
    }

    /** A statement that may fail; what it does when it does not fail is up to the caller. */
    method Attempt() returns (ok: bool)
      modifies this`faults
      ensures faults == if ok then old(faults) else old(faults) + 1
    {
      ok := *;
      if !ok { faults := faults + 1; }
    }

    method Enqueue(kind: Kind, payload: Bytes) returns (ok: bool)
      modifies this`queue, this`tickets, this`faults
      ensures faults == if ok then old(faults) else old(faults) + 1
      ensures !ok ==> queue == old(queue) && tickets == old(tickets)
      ensures ok ==>
                && Rows() == old(Rows()) + [Row(NextId(old(Rows())), kind, payload, old(tickets))]
                && tickets == old(tickets) + 1
      // ids start at 1 and follow the greatest one in the table
      ensures ok ==> Rows()[|Rows()| - 1].id == if old(Rows()) == [] then 1 else old(Rows())[|old(Rows())| - 1].id + 1
    {
      hide Scan;
      ok := Attempt();
      if !ok { return; }
      var id := 1;
      if |queue| > 0 {
        ghost var greatest := HasGreatest(queue.Keys);
        var top :| IsGreatest(top, queue.Keys);
        NextIdAgrees(queue, top);
        id := top + 1;
      }
      ScanInsert(queue, id, Record(kind, payload, tickets));
      queue := queue[id := Record(kind, payload, tickets)];
      tickets := tickets + 1;
    }

    /** The first `limit` rows in id order; a limit that is not positive means 100. */
    method Pending(limit: int) returns (items: Option<seq<Row>>)
      modifies this`faults
      ensures faults == if items.Some? then old(faults) else old(faults) + 1
      ensures items.Some? ==>
                items.value == Rows()[..Min(if limit <= 0 then 100 else limit, |Rows()|)]
    {
      hide Scan;
      var ok := Attempt();
      if !ok { return None; }
      var bound := if limit <= 0 then 100 else limit;
      var found: seq<Row>, rest := [], queue;
      while |found| < bound && |rest| > 0
        invariant Scan(queue) == found + Scan(rest)
        invariant |found| <= bound && faults == old(faults)
        decreases |rest|
      {
        ghost var least := Least(rest.Keys);
        var id :| IsLeast(id, rest.Keys);
        ScanRest(queue, found, rest, id);
        found, rest := found + [ToRow(id, rest[id])], rest - {id};
      }
      assert Scan(queue)[..|found|] == found;
      return Some(found);
    }

    method DeleteQueueItem(id: int) returns (ok: bool)
      modifies this`queue, this`faults
      ensures faults == if ok then old(faults) else old(faults) + 1
      ensures Rows() == if ok then DeleteId(old(Rows()), id) else old(Rows())
    {
      ok := Attempt();
      if ok {
        ScanDelete(queue, id);
        queue := queue - {id};
      }
    }

    method QueueSize() returns (size: Option<nat>)
      modifies this`faults
      ensures faults == if size.Some? then old(faults) else old(faults) + 1
      ensures size.Some? ==> size.value == |Rows()|
    {
      var ok := Attempt();
      if !ok { return None; }
      return Some(|queue|);
    }

    method Put(key: Key, value: string) returns (ok: bool)
      modifies this`config, this`faults
      ensures faults == if ok then old(faults) else old(faults) + 1
      ensures config == if ok then old(config)[key := value] else old(config)
    {
      ok := Attempt();
      if ok { config := config[key := value]; }
    }

    /** `ok` is false when the read failed; otherwise `value` is what the table holds. */
    method Get(key: Key) returns (ok: bool, value: Option<string>)
      modifies this`faults
      ensures faults == if ok then old(faults) else old(faults) + 1
      ensures value == if ok && key in config then Some(config[key]) else None
    {
      ok := Attempt();
      value := if ok && key in config then Some(config[key]) else None;
    }

    /** The same for a secret, which must also be decrypted. The table is modelled with its secrets in
        plain text. */
    method GetSecret(key: Key) returns (ok: bool, value: Option<string>)
      modifies this`faults
      ensures faults == if ok then old(faults) else old(faults) + 1
      ensures value == if ok && key in config then Some(config[key]) else None
    {
      ok, value := Get(key);
      if value.Some? {
        ok := Attempt();
        if !ok { value := None; }
      }
    }
  }
}
