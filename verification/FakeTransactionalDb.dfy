// fake-transactional-db.ts: an in-memory store whose transactions work on a shallow clone.
// Stores, tables and rows are heap objects here, as in the source, so that sharing shows.
module FakeTransactionalDb {
  import opened Options

  type Fields = map<string, string>
  type Rows = seq<(string, Fields)> // keyed rows in insertion order
  type Tables = map<string, Rows>

  type Filters = seq<(string, Option<string>)>

  /** A query; `first` says that it ends in `executeTakeFirst` rather than in `execute`. */
  datatype Op =
    | Insert(table: string, values: Fields, first: bool)
    | Update(table: string, filters: Filters, set_: Fields, first: bool)
    | Select(table: string, filters: Filters, first: bool)

  // ---------------------------------------------------------------- what an operation means

  predicate Matches(row: Fields, filters: Filters) {
    forall i | 0 <= i < |filters| :: filters[i].1 == if filters[i].0 in row then Some(row[filters[i].0]) else None
  }

  /** `String(row.id)`. */
  function KeyOf(row: Fields): string {
    if "id" in row then row["id"] else "undefined"
  }

  function TableOf(tables: Tables, name: string): Rows {
    if name in tables then tables[name] else []
  }

  function PositionOf(rows: Rows, key: string): (i: nat)
    ensures i <= |rows| && (i < |rows| ==> rows[i].0 == key) && forall j :: 0 <= j < i ==> rows[j].0 != key
  {
    if rows == [] || rows[0].0 == key then 0 else 1 + PositionOf(rows[1..], key)
  }

  /** `Map.set`: an existing key keeps its place. */
  function Put(rows: Rows, key: string, row: Fields): Rows {
    var i := PositionOf(rows, key);
    if i < |rows| then rows[i := (key, row)] else rows + [(key, row)]
  }

  function FirstMatch(rows: Rows, filters: Filters): (i: nat)
    ensures i <= |rows| && (i < |rows| ==> Matches(rows[i].1, filters))
    ensures forall j :: 0 <= j < i ==> !Matches(rows[j].1, filters)
  {
    if rows == [] || Matches(rows[0].1, filters) then 0 else 1 + FirstMatch(rows[1..], filters)
  }

  /** The first matching row merged with the new values. */
  function UpdateFirst(rows: Rows, filters: Filters, values: Fields): Rows {
    var i := FirstMatch(rows, filters);
    if i < |rows| then rows[i := (rows[i].0, rows[i].1 + values)] else rows
  }

  /** `execute` of an update does nothing. */
  predicate Idle(op: Op) {
    op.Update? && !op.first
  }

  function RowsAfter(rows: Rows, op: Op): Rows {
    match op
    case Insert(_, values, _) => Put(rows, KeyOf(values), values)
    case Update(_, filters, values, first) => if first then UpdateFirst(rows, filters, values) else rows
    case Select(_, _, _) => rows
  }

  /** The rows handed back; `execute` of an insert hands back nothing. */
  function Reply(rows: Rows, op: Op): seq<Fields> {
    match op
    case Insert(_, values, first) => if first then [values] else []
    case Update(_, filters, values, first) =>
      var i := FirstMatch(rows, filters);
      if first && i < |rows| then [rows[i].1 + values] else []
    case Select(_, filters, first) =>
      var i := FirstMatch(rows, filters);
      if !first then Matching(rows, filters) else if i < |rows| then [rows[i].1] else []
  }

  function Matching(rows: Rows, filters: Filters): seq<Fields> {
    if rows == [] then []
    else Matching(rows[..|rows| - 1], filters) +
         (if Matches(rows[|rows| - 1].1, filters) then [rows[|rows| - 1].1] else [])
  }

  /** Even a select creates the table it names. */
  function After(tables: Tables, op: Op): Tables {
    if Idle(op) then tables else tables[op.table := RowsAfter(TableOf(tables, op.table), op)]
  }

  // ---------------------------------------------------------------- the heap

  /** A row object. Stores share them. */
  class Row {
    var fields: Fields

    constructor (fields: Fields)
      ensures this.fields == fields
    {
      this.fields := fields;
    }
  }

  predicate Shows(entry: (string, Row), row: (string, Fields))
    reads entry.1
  {
    entry.0 == row.0 && entry.1.fields == row.1
  }

  class Table {
    ghost const name: string
    var entries: seq<(string, Row)>
    ghost var rows: Rows
    ghost var held: set<Row>

    /** The row objects that `entries` refers to hold what `rows` says. They are read only: no
        method here names a row among the objects it modifies. */
    ghost predicate Valid()
      reads this, held
    {
      && |entries| == |rows|
      && (forall i :: 0 <= i < |entries| ==> entries[i].1 in held && Shows(entries[i], rows[i]))
    }

    ghost predicate Keeps(name: string, rows: Rows, held: set<Row>)
      reads this, held
    {
      this.name == name && this.rows == rows && this.held <= held && Valid()
    }

    lemma KeepsIff(name: string, rows: Rows, held: set<Row>)
      ensures Keeps(name, rows, held) <==> this.name == name && this.rows == rows && this.held <= held && Valid()
    {
    }

    constructor (ghost name: string)
      ensures Valid() && this.name == name && entries == [] && rows == [] && held == {}
    {
      this.name, entries, rows, held := name, [], [], {};
    }

    /** `new Map(rows)`: another table object that refers to the same row objects. */
    constructor CopyOf(other: Table)
      requires other.Valid()
      ensures Valid() && name == other.name && entries == other.entries && rows == other.rows && held == other.held
    {
      name, entries, rows, held := other.name, other.entries, other.rows, other.held;
    }

    /** `map.set(String(row.id), row)`. */
    method Set(key: string, row: Row)
      requires Valid()
      modifies this
      ensures Valid() && rows == Put(old(rows), key, row.fields) && held == old(held) + {row}
    {
      for i := 0 to |entries|
        invariant Valid() && entries == old(entries) && rows == old(rows) && held == old(held)
        invariant forall j :: 0 <= j < i ==> rows[j].0 != key
      {
        assert Shows(entries[i], rows[i]);
        if entries[i].0 == key {
          entries, rows, held := entries[i := (key, row)], rows[i := (key, row.fields)], held + {row};
          return;
        }
      }
      entries, rows, held := entries + [(key, row)], rows + [(key, row.fields)], held + {row};
    }

    /** `executeTakeFirst` of an update: a new row object replaces the first match. */
    method UpdateFirstMatch(filters: Filters, values: Fields) returns (updated: Option<Row>)
      requires Valid()
      modifies this
      ensures Valid() && fresh(held - old(held)) && rows == UpdateFirst(old(rows), filters, values)
      ensures var i := FirstMatch(old(rows), filters);
              if i < |old(rows)| then updated.Some? && updated.value.fields == old(rows)[i].1 + values
              else updated.None?
    {
      for i := 0 to |entries|
        invariant Valid() && entries == old(entries) && rows == old(rows) && held == old(held)
        invariant forall j :: 0 <= j < i ==> !Matches(rows[j].1, filters)
      {
        assert Shows(entries[i], rows[i]);
        if Matches(entries[i].1.fields, filters) {
          assert FirstMatch(rows, filters) == i;
          var row := new Row(entries[i].1.fields + values);
          entries := entries[i := (entries[i].0, row)];
          rows, held := rows[i := (rows[i].0, row.fields)], held + {row};
          return Some(row);
        }
      }
      return None;
    }

    method SelectMatching(filters: Filters) returns (found: seq<Fields>)
      requires Valid()
      ensures found == Matching(rows, filters)
    {
      found := [];
      for i := 0 to |entries|
        invariant found == Matching(rows[..i], filters)
      {
        assert Shows(entries[i], rows[i]) && rows[..i + 1][..i] == rows[..i];
        if Matches(entries[i].1.fields, filters) {
          found := found + [entries[i].1.fields];
        }
      }
      assert rows[..|entries|] == rows;
    }

    method SelectFirst(filters: Filters) returns (found: seq<Fields>)
      requires Valid()
      ensures var i := FirstMatch(rows, filters);
              found == if i < |rows| then [rows[i].1] else []
    {
      for i := 0 to |entries|
        invariant forall j :: 0 <= j < i ==> !Matches(rows[j].1, filters)
      {
        assert Shows(entries[i], rows[i]);
        if Matches(entries[i].1.fields, filters) {
          assert FirstMatch(rows, filters) == i;
          return [entries[i].1.fields];
        }
      }
      return [];
    }

    method Execute(op: Op) returns (reply: seq<Fields>)
      requires Valid()
      modifies this
      ensures Valid() && fresh(held - old(held))
      ensures rows == RowsAfter(old(rows), op) && reply == Reply(old(rows), op)
    {
      reply := [];
      match op {
        case Insert(_, values, first) =>
          var row := new Row(values);
          Set(KeyOf(values), row);
          if first {
            reply := [row.fields];
          }
        case Update(_, filters, values, first) =>
          if first {
            var updated := UpdateFirstMatch(filters, values);
            reply := if updated.Some? then [updated.value.fields] else [];
          }
        case Select(_, filters, first) =>
          if first {
            reply := SelectFirst(filters);
          } else {
            reply := SelectMatching(filters);
          }
      }
    }
  }

  lemma IdleRepliesNothing(rows: Rows, op: Op)
    ensures Idle(op) ==> Reply(rows, op) == []
  {
  }

  class Store {
    var tables: map<string, Table>
    ghost var contents: Tables
    ghost var owned: set<Table>
    ghost var held: set<Row>

    /** The tables hold what `contents` says, and belong to this store; their row objects need
        not. Each table object goes by one name, so no two names share one. */
    ghost predicate Valid()
      reads this, owned, held
    {
      && contents.Keys == tables.Keys
      && (forall n :: n in tables ==> tables[n] in owned && tables[n].Keeps(n, contents[n], held))
    }

    constructor ()
      ensures Valid() && owned == {} && held == {} && contents == map[]
    {
      tables, contents, owned, held := map[], map[], {}, {};
    }

    /** `store.set(name, t)`. */
    method Set(name: string, t: Table)
      requires Valid() && t.name == name && t.Valid()
      modifies this
      ensures Valid() && tables == old(tables)[name := t]
      ensures owned == old(owned) + {t} && held == old(held) + t.held
      ensures contents == old(contents)[name := t.rows]
    {
      hide Table.Keeps, Table.Valid;
      ghost var more := held + t.held;
      t.KeepsIff(name, t.rows, more);
      forall n | n in tables ensures tables[n].Keeps(n, contents[n], more) {
        tables[n].KeepsIff(n, contents[n], held);
        tables[n].KeepsIff(n, contents[n], more);
      }
      tables, contents := tables[name := t], contents[name := t.rows];
      owned, held := owned + {t}, more;
    }

    method TableMap(name: string) returns (t: Table)
      requires Valid()
      modifies this
      ensures Valid() && fresh(owned - old(owned)) && held == old(held)
      ensures name in tables && t == tables[name] && t in owned
      ensures contents == old(contents)[name := TableOf(old(contents), name)]
    {
      if name !in tables {
        var empty := new Table(name);
        Set(name, empty);
      }
      t := tables[name];
    }

    /** One query through an executor on this store. Row objects are built, none is modified. */
    method Execute(op: Op) returns (reply: seq<Fields>)
      requires Valid()
      modifies this, owned
      ensures Valid() && fresh(owned - old(owned)) && fresh(held - old(held))
      ensures contents == After(old(contents), op)
      ensures reply == Reply(TableOf(old(contents), op.table), op)
    {
      hide RowsAfter, Reply, Valid;
      if Idle(op) {
        IdleRepliesNothing(TableOf(contents, op.table), op);
        return [];
      }
      var t := TableMap(op.table);
      reply := ExecuteOn(t, op);
    }

    method ExecuteOn(t: Table, op: Op) returns (reply: seq<Fields>)
      requires Valid() && op.table in tables && t == tables[op.table]
      modifies this, t
      ensures Valid() && tables == old(tables) && owned == old(owned) && fresh(held - old(held))
      ensures contents == old(contents)[op.table := RowsAfter(old(contents)[op.table], op)]
      ensures reply == Reply(old(contents)[op.table], op)
    {
      hide RowsAfter, Reply, Table.Keeps, Table.Valid;
      ghost var others := tables.Keys - {op.table};
      t.KeepsIff(op.table, contents[op.table], held);
      forall n | n in others ensures tables[n] != t {
        tables[n].KeepsIff(n, contents[n], held);
      }
      reply := t.Execute(op);
      ghost var more := held + t.held;
      t.KeepsIff(op.table, t.rows, more);
      forall n | n in others ensures tables[n].Keeps(n, contents[n], more) {
        tables[n].KeepsIff(n, contents[n], held);
        tables[n].KeepsIff(n, contents[n], more);
      }
      contents, held := contents[op.table := t.rows], more;
    }

    /** `cloneStore`: new table objects that refer to the same row objects. */
    method Clone() returns (clone: Store)
      requires Valid()
      ensures clone.Valid() && fresh(clone) && fresh(clone.owned) && clone.held == held
      ensures clone.contents == contents
    {
      hide Table.Keeps;
      clone := new Store();
      clone.tables, clone.owned := CopyTables();
      clone.contents, clone.held := contents, held;
    }

    method CopyTables() returns (copied: map<string, Table>, ghost objects: set<Table>)
      requires Valid()
      ensures copied.Keys == tables.Keys && fresh(objects)
      ensures forall n :: n in copied ==>
                copied[n] in objects && copied[n].Keeps(n, contents[n], held)
    {
      hide Table.Valid;
      copied, objects := map[], {};
      var todo := tables.Keys;
      while todo != {}
        invariant forall n :: n in todo ==> n in tables
        invariant forall n :: n in copied <==> n in tables && n !in todo
        invariant fresh(objects)
        invariant forall n :: n in copied ==>
                    copied[n] in objects && copied[n].Keeps(n, contents[n], held)
        decreases |todo|
      {
        var name :| name in todo;
        var rows := new Table.CopyOf(tables[name]);
        copied, objects := copied[name := rows], objects + {rows};
        todo := todo - {name};
      }
    }

    /** The tables under their names, gathered one by one. */
    method Refilled() returns (refilled: map<string, Table>)
      ensures refilled == tables
    {
      refilled := map[];
      var todo := tables.Keys;
      while todo != {}
        invariant forall n :: n in todo ==> n in tables
        invariant forall n :: n in refilled <==> n in tables && n !in todo
        invariant forall n :: n in refilled ==> refilled[n] == tables[n]
        decreases |todo|
      {
        var name :| name in todo;
        refilled := refilled[name := tables[name]];
        todo := todo - {name};
      }
    }

    /** The commit: `clear`, then every table object of the other store under its name. */
    method ReplaceBy(other: Store)
      requires Valid() && other.Valid() && this != other
      modifies this
      ensures Valid() && contents == other.contents && owned == other.owned && held == other.held
    {
      hide Table.Keeps;
      tables := other.Refilled();
      contents, owned, held := other.contents, other.owned, other.held;
    }
  }

  // ---------------------------------------------------------------- transactions

  /** What happens while a transaction is open: queries of its callback, and queries on the
      autocommit connection. */
  datatype Action = Tx(op: Op) | Auto(op: Op)

  function TxOps(script: seq<Action>): seq<Op> {
    if script == [] then []
    else TxOps(script[..|script| - 1]) + (if script[|script| - 1].Tx? then [script[|script| - 1].op] else [])
  }

  function AutoOps(script: seq<Action>): seq<Op> {
    if script == [] then []
    else AutoOps(script[..|script| - 1]) + (if script[|script| - 1].Auto? then [script[|script| - 1].op] else [])
  }

  function AfterAll(tables: Tables, ops: seq<Op>): Tables {
    if ops == [] then tables else After(AfterAll(tables, ops[..|ops| - 1]), ops[|ops| - 1])
  }

  /** The replies to queries made one after the other. */
  function Replies(tables: Tables, ops: seq<Op>): seq<seq<Fields>> {
    if ops == [] then []
    else
      var before, op := ops[..|ops| - 1], ops[|ops| - 1];
      Replies(tables, before) + [Reply(TableOf(AfterAll(tables, before), op.table), op)]
  }

  /** The committed tables once the transaction is over. */
  function Outcome(tables: Tables, script: seq<Action>, throws: bool): Tables {
    AfterAll(tables, if throws then AutoOps(script) else TxOps(script))
  }

  lemma AfterOne(tables: Tables, ops: seq<Op>, op: Op)
    ensures AfterAll(tables, ops + [op]) == After(AfterAll(tables, ops), op)
    ensures Replies(tables, ops + [op]) == Replies(tables, ops) + [Reply(TableOf(AfterAll(tables, ops), op.table), op)]
  {
    assert (ops + [op])[..|ops|] == ops;
  }

  lemma OneMore(script: seq<Action>, i: nat)
    requires i < |script|
    ensures TxOps(script[..i + 1]) ==
            if script[i].Tx? then TxOps(script[..i]) + [script[i].op] else TxOps(script[..i])
    ensures AutoOps(script[..i + 1]) ==
            if script[i].Auto? then AutoOps(script[..i]) + [script[i].op] else AutoOps(script[..i])
  {
    assert script[..i + 1][..i] == script[..i];
  }

  lemma Nothing(tables: Tables)
    ensures TxOps([]) == [] && AutoOps([]) == [] && AfterAll(tables, []) == tables && Replies(tables, []) == []
  {
  }

  class FakeTransactionalStore {
    const committed: Store

    constructor ()
      ensures committed.Valid() && fresh(committed) && committed.owned == {} && committed.contents == map[]
    {
      committed := new Store();
    }

    /** `transaction().execute(cb)`. The callback's queries go to a clone; `throws` says whether
        it rejects in the end. Its replies never show what the autocommit connection does
        meanwhile. A rejected callback leaves the committed tables as the autocommit queries
        alone make them; a resolved one replaces them by its own view. */
    method Transaction(script: seq<Action>, throws: bool) returns (replies: seq<seq<Fields>>)
      requires committed.Valid()
      modifies committed, committed.owned
      ensures committed.Valid() && fresh(committed.owned - old(committed.owned))
      ensures replies == Replies(old(committed.contents), TxOps(script))
      ensures committed.contents == Outcome(old(committed.contents), script, throws)
    {
      hide After, AfterAll, Reply, Replies, TxOps, AutoOps;
      replies := [];
      var staging := committed.Clone();
      ghost var before := committed.contents;
      Nothing(before);
      for i := 0 to |script|
        invariant committed.Valid() && fresh(committed.owned - old(committed.owned))
        invariant staging.Valid() && fresh(staging) && fresh(staging.owned) && staging.owned !! committed.owned
        invariant staging.contents == AfterAll(before, TxOps(script[..i]))
        invariant committed.contents == AfterAll(before, AutoOps(script[..i]))
        invariant replies == Replies(before, TxOps(script[..i]))
      {
        OneMore(script, i);
        match script[i] {
          case Tx(op) =>
            AfterOne(before, TxOps(script[..i]), op);
            var reply := staging.Execute(op);
            replies := replies + [reply];
          case Auto(op) =>
            AfterOne(before, AutoOps(script[..i]), op);
            var reply := committed.Execute(op);
        }
      }
      assert script[..|script|] == script;
      if !throws {
        committed.ReplaceBy(staging);
      }
    }
  }

  // ---------------------------------------------------------------- atomicity

  function Ops(script: seq<Action>): seq<Op> {
    seq(|script|, i requires 0 <= i < |script| => script[i].op)
  }

  lemma {:induction false} NoAutocommit(script: seq<Action>)
    requires forall a :: a in script ==> a.Tx?
    ensures TxOps(script) == Ops(script) && AutoOps(script) == []
    decreases |script|
  {
    if script != [] {
      var before := script[..|script| - 1];
      assert forall a :: a in before ==> a in script;
      assert script[|script| - 1] in script;
      NoAutocommit(before);
    }
  }

  /** Without interleaved autocommit queries a transaction is all or nothing: rejected, it
      leaves the committed tables as they were; resolved, it leaves its own effect on them. */
  lemma {:induction false} AllOrNothing(tables: Tables, script: seq<Action>)
    requires forall a :: a in script ==> a.Tx?
    ensures Outcome(tables, script, true) == tables
    ensures Outcome(tables, script, false) == AfterAll(tables, Ops(script))
  {
    NoAutocommit(script);
  }

  // ---------------------------------------------------------------- tables as maps

  function Lookup(rows: Rows, key: string): Option<Fields> {
    var i := PositionOf(rows, key);
    if i < |rows| then Some(rows[i].1) else None
  }

  predicate KeysUnique(rows: Rows) {
    forall i, j :: 0 <= i < j < |rows| ==> rows[i].0 != rows[j].0
  }

  /** Inserting is inserting or replacing by id, and touches no other key. */
  lemma PutIsUpsert(rows: Rows, key: string, row: Fields, other: string)
    ensures Lookup(Put(rows, key, row), key) == Some(row)
    ensures other != key ==> Lookup(Put(rows, key, row), other) == Lookup(rows, other)
    ensures KeysUnique(rows) ==> KeysUnique(Put(rows, key, row))
  {
    var i, after := PositionOf(rows, key), Put(rows, key, row);
    assert after[i] == (key, row);
    if other != key {
      var j := PositionOf(rows, other);
      assert j < |rows| ==> after[j] == rows[j];
      assert PositionOf(after, other) == if j < |rows| then j else |after|;
    }
  }

  /** Every table keeps one row per key, whatever is executed. */
  lemma {:induction false} KeysStayUnique(tables: Tables, ops: seq<Op>, name: string)
    requires KeysUnique(TableOf(tables, name))
    ensures KeysUnique(TableOf(AfterAll(tables, ops), name))
    decreases |ops|
  {
    if ops != [] {
      var op := ops[|ops| - 1];
      KeysStayUnique(tables, ops[..|ops| - 1], name);
      if op.Insert? && op.table == name {
        PutIsUpsert(TableOf(AfterAll(tables, ops[..|ops| - 1]), name), KeyOf(op.values), op.values, "");
      }
    }
  }

  predicate HasRow(rows: Rows, row: Fields) {
    exists i :: 0 <= i < |rows| && rows[i].1 == row
  }

  lemma HasRowLast(rows: Rows, row: Fields)
    requires rows != []
    ensures HasRow(rows, row) <==> HasRow(rows[..|rows| - 1], row) || rows[|rows| - 1].1 == row
  {
    var before := rows[..|rows| - 1];
    assert forall i :: 0 <= i < |before| ==> before[i] == rows[i];
    if HasRow(before, row) {
      var i :| 0 <= i < |before| && before[i].1 == row;
      assert rows[i].1 == row;
    }
  }

  /** Each filtered column has the value asked for; `None` asks for a column that is not there. */
  predicate Fits(row: Fields, filters: Filters) {
    forall f :: f in filters ==> if f.1.Some? then f.0 in row && row[f.0] == f.1.value else f.0 !in row
  }

  lemma FitsIff(row: Fields, filters: Filters)
    ensures Matches(row, filters) <==> Fits(row, filters)
  {
    assert forall i :: 0 <= i < |filters| ==> filters[i] in filters;
  }

  /** A query finds exactly the rows that match, so a transaction reads its own inserts. */
  lemma {:induction false} MatchingIff(rows: Rows, filters: Filters, row: Fields)
    ensures row in Matching(rows, filters) <==> HasRow(rows, row) && Fits(row, filters)
    decreases |rows|
  {
    if rows != [] {
      MatchingIff(rows[..|rows| - 1], filters, row);
      HasRowLast(rows, row);
      FitsIff(rows[|rows| - 1].1, filters);
    }
  }

  /** What a select replies: `execute` all stored rows that fit, `executeTakeFirst` the first of
      these. */
  lemma SelectReplies(rows: Rows, table: string, filters: Filters)
    ensures var all, one := Reply(rows, Select(table, filters, false)), Reply(rows, Select(table, filters, true));
            && (forall row :: row in all <==> HasRow(rows, row) && Fits(row, filters))
            && one == if all == [] then [] else [all[0]]
  {
    forall row ensures row in Matching(rows, filters) <==> HasRow(rows, row) && Fits(row, filters) {
      MatchingIff(rows, filters, row);
    }
    FirstOfMatching(rows, filters);
  }

  lemma {:induction false} FirstOfMatching(rows: Rows, filters: Filters)
    ensures var i, all := FirstMatch(rows, filters), Matching(rows, filters);
            (all == [] <==> i == |rows|) && (i < |rows| ==> all != [] && all[0] == rows[i].1)
    decreases |rows|
  {
    if rows != [] {
      var before := rows[..|rows| - 1];
      FirstOfMatching(before, filters);
      var i, j := FirstMatch(rows, filters), FirstMatch(before, filters);
      assert forall n :: 0 <= n < |before| ==> before[n] == rows[n];
      assert i == if j < |before| then j else if Matches(rows[|before|].1, filters) then |before| else |rows|;
    }
  }

  /** What a write replies: the row as it is stored, from `executeTakeFirst`; nothing from
      `execute`, and from an update that fits no row, which writes nothing either. */
  lemma WritesReply(rows: Rows, table: string, values: Fields, filters: Filters, first: bool)
    ensures Reply(rows, Insert(table, values, first)) == (if first then [values] else [])
    ensures "id" in values ==>
              Lookup(RowsAfter(rows, Insert(table, values, first)), values["id"]) == Some(values)
    ensures var op := Update(table, filters, values, first);
            if first && exists row :: HasRow(rows, row) && Fits(row, filters) then
              exists row :: HasRow(rows, row) && Fits(row, filters) && Reply(rows, op) == [row + values] &&
                            HasRow(RowsAfter(rows, op), row + values)
            else Reply(rows, op) == [] && RowsAfter(rows, op) == rows
  {
    PutIsUpsert(rows, KeyOf(values), values, "");
    var i := FirstMatch(rows, filters);
    if i < |rows| {
      var row, after := rows[i].1, UpdateFirst(rows, filters, values);
      FitsIff(row, filters);
      assert HasRow(rows, row);
      assert after[i].1 == row + values;
      assert HasRow(after, row + values);
    } else if row :| HasRow(rows, row) && Fits(row, filters) {
      FitsIff(row, filters);
      assert false;
    }
  }

  lemma ReadsOwnInsert(rows: Rows, values: Fields, filters: Filters)
    requires Matches(values, filters)
    ensures values in Matching(Put(rows, KeyOf(values), values), filters)
  {
    var after := Put(rows, KeyOf(values), values);
    assert after[PositionOf(rows, KeyOf(values))].1 == values;
    FitsIff(values, filters);
    MatchingIff(after, filters, values);
  }

  /** An update changes at most one row, one that matched, and only in the columns it sets. */
  lemma UpdateTouchesOne(rows: Rows, filters: Filters, values: Fields, i: nat)
    requires i < |rows|
    ensures var after := UpdateFirst(rows, filters, values);
            && |after| == |rows| && after[i].0 == rows[i].0
            && (after[i] != rows[i] ==>
                  && Matches(rows[i].1, filters) && (forall j :: 0 <= j < i ==> !Matches(rows[j].1, filters))
                  && forall c :: c !in values ==>
                       && (c in after[i].1 <==> c in rows[i].1)
                       && (c in rows[i].1 ==> after[i].1[c] == rows[i].1[c]))
  {
  }

  // ---------------------------------------------------------------- interleaved autocommit queries

  /** The row that a query stores, and under which key. */
  function Stored(rows: Rows, op: Op): Option<(string, Fields)> {
    match op
    case Insert(_, values, _) => Some((KeyOf(values), values))
    case Update(_, filters, values, first) =>
      var i := FirstMatch(rows, filters);
      if first && i < |rows| then Some((rows[i].0, rows[i].1 + values)) else None
    case Select(_, _, _) => None
  }

  /** The row that these queries last stored under `key`, if any of them did. */
  function LastStored(tables: Tables, ops: seq<Op>, name: string, key: string): Option<Fields> {
    if ops == [] then None
    else
      var before, op := ops[..|ops| - 1], ops[|ops| - 1];
      var stored := Stored(TableOf(AfterAll(tables, before), name), op);
      if op.table == name && stored.Some? && stored.value.0 == key then Some(stored.value.1)
      else LastStored(tables, before, name, key)
  }

  function OrElse(r: Option<Fields>, otherwise: Option<Fields>): Option<Fields> {
    if r.Some? then r else otherwise
  }

  lemma StoredIsFound(rows: Rows, op: Op, key: string)
    requires KeysUnique(rows)
    ensures var stored := Stored(rows, op);
            Lookup(RowsAfter(rows, op), key) ==
              if stored.Some? && stored.value.0 == key then Some(stored.value.1) else Lookup(rows, key)
  {
    match op
    case Insert(_, values, _) => PutIsUpsert(rows, KeyOf(values), values, key);
    case Update(_, filters, values, _) => UpdatedIsFound(rows, filters, values, key);
    case Select(_, _, _) =>
  }

  lemma UpdatedIsFound(rows: Rows, filters: Filters, values: Fields, key: string)
    requires KeysUnique(rows)
    ensures var i := FirstMatch(rows, filters);
            Lookup(UpdateFirst(rows, filters, values), key) ==
              if i < |rows| && rows[i].0 == key then Some(rows[i].1 + values) else Lookup(rows, key)
  {
    var i, j, after := FirstMatch(rows, filters), PositionOf(rows, key), UpdateFirst(rows, filters, values);
    assert forall n :: 0 <= n < |rows| ==> after[n].0 == rows[n].0;
    assert PositionOf(after, key) == j;
    assert i < |rows| && j < |rows| && rows[i].0 == key ==> i == j;
  }

  /** What a table holds under a key is what was last stored there. */
  lemma {:induction false} RowUnderKey(tables: Tables, ops: seq<Op>, name: string, key: string)
    requires KeysUnique(TableOf(tables, name))
    ensures Lookup(TableOf(AfterAll(tables, ops), name), key) ==
            OrElse(LastStored(tables, ops, name, key), Lookup(TableOf(tables, name), key))
    decreases |ops|
  {
    if ops != [] {
      hide RowsAfter, Stored, KeysUnique;
      var before, op := ops[..|ops| - 1], ops[|ops| - 1];
      RowUnderKey(tables, before, name, key);
      KeysStayUnique(tables, before, name);
      StoredIsFound(TableOf(AfterAll(tables, before), name), op, key);
      IdleStoresNothing(TableOf(AfterAll(tables, before), name), op);
    }
  }

  lemma IdleStoresNothing(rows: Rows, op: Op)
    ensures Idle(op) ==> Stored(rows, op) == None
  {
  }

  /** Autocommit queries made while a transaction is open, whatever either side does. When it
      rejects, all of them stay. When it resolves, a row they have last stored is there exactly
      if the transaction has last stored the same row under that key, or has stored nothing
      there and its snapshot held that row already. */
  lemma AutocommitSurvivesIff(tables: Tables, script: seq<Action>, name: string, key: string)
    requires KeysUnique(TableOf(tables, name))
    ensures Outcome(tables, script, true) == AfterAll(tables, AutoOps(script))
    ensures var before := Lookup(TableOf(tables, name), key);
            var mine := LastStored(tables, TxOps(script), name, key);
            var theirs := LastStored(tables, AutoOps(script), name, key);
            && Lookup(TableOf(Outcome(tables, script, true), name), key) == OrElse(theirs, before)
            && Lookup(TableOf(Outcome(tables, script, false), name), key) == OrElse(mine, before)
            && (theirs.Some? ==>
                  (Lookup(TableOf(Outcome(tables, script, false), name), key) == theirs
                   <==> mine == theirs || (mine.None? && before == theirs)))
  {
    hide LastStored, AfterAll, TxOps, AutoOps;
    RowUnderKey(tables, TxOps(script), name, key);
    RowUnderKey(tables, AutoOps(script), name, key);
  }

  /** So an autocommit insert is lost when a transaction that inserts another row into the same
      table resolves, although it had been committed at once. */
  lemma AutocommitWriteLost(mine: Fields, theirs: Fields)
    requires KeyOf(mine) != KeyOf(theirs)
    ensures var script := [Tx(Insert("audit", mine, true)), Auto(Insert("audit", theirs, true))];
            && Lookup(TableOf(Outcome(map[], script, true), "audit"), KeyOf(theirs)) == Some(theirs)
            && Lookup(TableOf(Outcome(map[], script, false), "audit"), KeyOf(theirs)) == None
            && Lookup(TableOf(Outcome(map[], script, false), "audit"), KeyOf(mine)) == Some(mine)
  {
    hide TxOps, AutoOps, AfterAll, Lookup;
    var a, b := Insert("audit", mine, true), Insert("audit", theirs, true);
    var script := [Tx(a), Auto(b)];
    OneMore(script, 0);
    OneMore(script, 1);
    Nothing(map[]);
    assert script[..0] == [] && script[..2] == script;
    assert TxOps(script) == [] + [a] == [a] && AutoOps(script) == [] + [b] == [b];
    AutocommitSurvivesIff(map[], script, "audit", KeyOf(theirs));
    AutocommitSurvivesIff(map[], script, "audit", KeyOf(mine));
    OneStored(a, KeyOf(theirs));
    OneStored(a, KeyOf(mine));
    OneStored(b, KeyOf(theirs));
    NotFound(KeyOf(theirs));
  }

  lemma OneStored(op: Op, key: string)
    requires op.Insert?
    ensures LastStored(map[], [op], op.table, key) == if KeyOf(op.values) == key then Some(op.values) else None
  {
    assert [op][..0] == [];
  }

  lemma NotFound(key: string)
    ensures Lookup([], key) == None && TableOf(map[], "audit") == []
  {
  }
}
