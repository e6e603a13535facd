/**
 * The SQLite database behind the provider, reduced to the one table the
 * helper creates: `tasks (_id INTEGER PRIMARY KEY AUTOINCREMENT,
 * description TEXT, is_complete INTEGER, is_priority INTEGER, due_date
 * INTEGER)`. A table is a map from `_id` to the other four columns; the
 * `sqlite_sequence` entry that AUTOINCREMENT keeps is the largest id ever
 * issued. A selection (WHERE clause with its arguments) is a predicate on
 * rows; the SQL engine itself is not modelled.
 */
module Database {
  import opened Primitives

  /** The four data columns of a row; `_id` is the table's key. */
  datatype Row = Row(description: string, isComplete: Long, isPriority: Long, dueDate: Long)

  /** A row together with its `_id`: what a cursor positioned on it reads. */
  datatype Record = Record(id: Long, row: Row)

  /** The ContentValues of an update: the columns that were put, and their new values. */
  datatype Patch = Patch(
    description: Option<string>,
    isComplete: Option<Long>,
    isPriority: Option<Long>,
    dueDate: Option<Long>)
  {
    predicate IsEmpty() {
      description.None? && isComplete.None? && isPriority.None? && dueDate.None?
    }
  }

  /** A WHERE clause and its arguments, as a predicate on `_id` and row. */
  type Selection = (Long, Row) -> bool

  /** A null WHERE clause, or the clause "1": every row. */
  function AllRows(): Selection {
    (id: Long, r: Row) => true
  }

  /** `_id = ?` with the argument `n`, compared as a number. */
  function IdIs(n: int): Selection {
    (id: Long, r: Row) => id == n
  }

  /** The row with the put columns replaced and the others kept. */
  function Apply(r: Row, p: Patch): (r': Row)
    ensures p.IsEmpty() ==> r' == r
  {
    Row(
      if p.description.Some? then p.description.value else r.description,
      if p.isComplete.Some? then p.isComplete.value else r.isComplete,
      if p.isPriority.Some? then p.isPriority.value else r.isPriority,
      if p.dueDate.Some? then p.dueDate.value else r.dueDate)
  }

  /** The ids of the rows a selection picks. */
  function Matching(t: map<Long, Row>, sel: Selection): (ids: set<Long>)
    ensures ids <= t.Keys
  {
    set id | id in t && sel(id, t[id])
  }

  /** The rows a query with this selection returns: stored rows, unaltered. */
  function Select(t: map<Long, Row>, sel: Selection): (rows: map<Long, Row>)
    ensures rows.Keys <= t.Keys
    ensures forall id :: id in rows ==> rows[id] == t[id]
  {
    map id | id in t && sel(id, t[id]) :: t[id]
  }

  /** The table after `DELETE ... WHERE sel`: rows can only disappear, and none is altered. */
  function DeleteWhere(t: map<Long, Row>, sel: Selection): (t': map<Long, Row>)
    ensures t'.Keys <= t.Keys
    ensures forall id :: id in t' ==> t'[id] == t[id]
  {
    map id | id in t && !sel(id, t[id]) :: t[id]
  }

  /** The table after `UPDATE ... SET p WHERE sel`: no row is added or removed, and an empty patch changes nothing. */
  function UpdateWhere(t: map<Long, Row>, p: Patch, sel: Selection): (t': map<Long, Row>)
    ensures t'.Keys == t.Keys
    ensures p.IsEmpty() ==> t' == t
  {
    map id | id in t :: if sel(id, t[id]) then Apply(t[id], p) else t[id]
  }

  /** Putting the same values twice is the same as putting them once. */
  lemma ApplyIdempotent(r: Row, p: Patch)
    ensures Apply(Apply(r, p), p) == Apply(r, p)
  {
  }

  /**
   * A query and a delete with the same selection split the table: the rows
   * the query returns are exactly the ones the delete removes, and together
   * with the rows left they make up the whole table.
   */
  lemma SelectDeletePartition(t: map<Long, Row>, sel: Selection)
    ensures Select(t, sel).Keys == Matching(t, sel)
    ensures Select(t, sel).Keys !! DeleteWhere(t, sel).Keys
    ensures Select(t, sel) + DeleteWhere(t, sel) == t
  {
  }

  /** Every row a delete removes is counted: the rows left and the count add up to the old size. */
  lemma DeleteCount(t: map<Long, Row>, sel: Selection)
    ensures |DeleteWhere(t, sel)| + |Matching(t, sel)| == |t|
  {
    var left, gone := DeleteWhere(t, sel).Keys, Matching(t, sel);
    assert left == t.Keys - gone;
    assert left + gone == t.Keys;
    assert |DeleteWhere(t, sel)| == |left| && |t| == |t.Keys|;
  }

  /** Deleting every row empties the table and counts every former row. */
  lemma DeleteAllRows(t: map<Long, Row>)
    ensures DeleteWhere(t, AllRows()) == map[]
    ensures |Matching(t, AllRows())| == |t|
  {
    assert Matching(t, AllRows()) == t.Keys;
    assert |t| == |t.Keys|;
  }

  /**
   * An `_id = ?` selection picks at most the one row with that id: it
   * selects, deletes and updates that row only.
   */
  lemma IdSelection(t: map<Long, Row>, n: Long, p: Patch)
    ensures Matching(t, IdIs(n)) == if n in t then {n} else {}
    ensures Select(t, IdIs(n)) == if n in t then map[n := t[n]] else map[]
    ensures DeleteWhere(t, IdIs(n)) == t - {n}
    ensures UpdateWhere(t, p, IdIs(n)) == if n in t then t[n := Apply(t[n], p)] else t
  {
  }

  /** An `_id = ?` argument outside the `long` range selects nothing. */
  lemma IdOutOfRange(t: map<Long, Row>, n: int)
    requires n > LONG_MAX
    ensures Select(t, IdIs(n)) == map[]
  {
  }

  /**
   * The tasks database: whether the table exists, its rows, and the
   * AUTOINCREMENT sequence. Every id in the table was issued, so none
   * exceeds the sequence; dropping the table also drops its sequence entry.
   */
  class TaskDatabase {
    var hasTable: bool
    var table: map<Long, Row>
    var sequence: Long

    ghost predicate Valid()
      reads this
    {
      && 0 <= sequence
      && (!hasTable ==> table == map[] && sequence == 0)
      && forall id :: id in table ==> 1 <= id <= sequence
    }

    /** An empty database file: no table yet. */
    constructor ()
      ensures Valid() && !hasTable
    {
      hasTable, table, sequence := false, map[], 0;
    }

    /** `CREATE TABLE tasks (...)`: fails when the table already exists. */
    method CreateTable() returns (r: Result<()>)
      requires Valid()
      modifies this
      ensures Valid()
      ensures old(hasTable) ==> r == Throws(SQLite("table tasks already exists")) && unchanged(this)
      ensures !old(hasTable) ==> r == Ok(()) && hasTable && table == map[] && sequence == 0
    {
      if hasTable {
        r := Throws(SQLite("table tasks already exists"));
      } else {
        hasTable := true;
        r := Ok(());
      }
    }

    /** `DROP TABLE IF EXISTS tasks`: the rows and the sequence entry go. */
    method DropTableIfExists()
      requires Valid()
      modifies this
      ensures Valid() && !hasTable && table == map[] && sequence == 0
    {
      hasTable, table, sequence := false, map[], 0;
    }

    /**
     * `insertOrThrow`: the new row gets the id after the sequence, so it
     * exceeds every id issued before; when the sequence is exhausted the
     * insert fails (SQLITE_FULL) and nothing changes.
     */
    method InsertOrThrow(values: Row) returns (r: Result<Long>)
      requires Valid() && hasTable
      modifies this
      ensures Valid() && hasTable
      ensures old(sequence) == LONG_MAX ==> r.Throws? && unchanged(this)
      ensures old(sequence) < LONG_MAX ==>
        && r == Ok(old(sequence) + 1)
        && old(sequence) + 1 !in old(table)
        && table == old(table)[old(sequence) + 1 := values]
        && sequence == old(sequence) + 1
    {
      if sequence == LONG_MAX {
        r := Throws(SQLite("database or disk is full"));
      } else {
        var id := sequence + 1;
        table := table[id := values];
        sequence := id;
        r := Ok(id);
      }
    }

    /** `insert`: as `insertOrThrow`, but a failure is reported as row id -1. */
    method Insert(values: Row) returns (rowId: Long)
      requires Valid() && hasTable
      modifies this
      ensures Valid() && hasTable
      ensures old(sequence) == LONG_MAX ==> rowId == -1 && unchanged(this)
      ensures old(sequence) < LONG_MAX ==>
        && rowId == old(sequence) + 1
        && table == old(table)[rowId := values]
        && sequence == rowId
    {
      var r := InsertOrThrow(values);
      rowId := if r.Ok? then r.value else -1;
    }

    /** `update`: empty values are rejected; otherwise the count of selected rows. */
    method Update(values: Patch, sel: Selection) returns (r: Result<nat>)
      requires Valid() && hasTable
      modifies this
      ensures Valid() && hasTable && sequence == old(sequence)
      ensures values.IsEmpty() ==> r == Throws(IllegalArgument("Empty values")) && unchanged(this)
      ensures !values.IsEmpty() ==>
        r == Ok(|Matching(old(table), sel)|) && table == UpdateWhere(old(table), values, sel)
    {
      if values.IsEmpty() {
        r := Throws(IllegalArgument("Empty values"));
      } else {
        r := Ok(|Matching(table, sel)|);
        table := UpdateWhere(table, values, sel);
      }
    }

    /** `delete`: removes the selected rows and returns how many there were. */
    method Delete(sel: Selection) returns (count: nat)
      requires Valid() && hasTable
      modifies this
      ensures Valid() && hasTable && sequence == old(sequence)
      ensures count == |Matching(old(table), sel)|
      ensures table == DeleteWhere(old(table), sel)
      ensures count + |table| == |old(table)|
    {
      DeleteCount(table, sel);
      count := |Matching(table, sel)|;
      table := DeleteWhere(table, sel);
    }
  }
}
