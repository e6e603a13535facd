/**
 * The task content provider: query, insert, update and delete addressed by
 * content URI. The collection URI names every task and an item URI names one
 * row by id; each operation accepts only some of the shapes and throws on
 * the rest. Change notifications are kept as the log of URIs notified.
 */
module Provider {
  import opened Primitives
  import opened Uris
  import opened Database
  import opened DbHelper

  /** What a query returns: the selected rows, the sort order passed on, and the URI the cursor watches. */
  datatype TaskCursor = TaskCursor(rows: map<Long, Row>, sortOrder: Option<string>, notificationUri: Uri)

  function UnknownUri(uri: Uri): Exception {
    UnsupportedOperation("Unknown URI:" + UriToString(uri))
  }

  /** The message both update and delete use for a URI they refuse. */
  const ILLEGAL_URI: Exception := IllegalArgument("Illegal delete URI")

  class TaskProvider {
    const dbHelper: TaskDbHelper
    /** The database the helper hands out; its tasks table exists. */
    const db: TaskDatabase
    /** Every URI passed to `notifyChange`, oldest first. */
    var notifications: seq<Uri>

    ghost predicate Valid()
      reads this, db
    {
      db.Valid() && db.hasTable
    }

    /**
     * `onCreate`: make the helper; nothing notified yet. The database is the
     * one the helper hands out once opened, so its table exists.
     */
    constructor (demoTask: string, db: TaskDatabase)
      requires db.Valid() && db.hasTable
      ensures Valid()
      ensures this.db == db && fresh(dbHelper) && dbHelper.demoTask == demoTask
      ensures notifications == []
    {
      dbHelper := new TaskDbHelper(demoTask);
      this.db := db;
      notifications := [];
    }

    /**
     * The collection query applies the caller's selection (none: every row);
     * an item query selects by the id in the URI and ignores the caller's
     * selection. Any other URI throws. The sort order is passed through and
     * the cursor watches the queried URI.
     */
    method Query(uri: Uri, selection: Option<Selection>, sortOrder: Option<string>) returns (r: Result<TaskCursor>)
      requires Valid()
      ensures Match(uri) == NoMatch <==> r.Throws?
      ensures r.Throws? ==> r.error == UnknownUri(uri)
      ensures r.Ok? ==> r.value.sortOrder == sortOrder && r.value.notificationUri == uri
      ensures r.Ok? ==> forall id :: id in r.value.rows ==> id in db.table && r.value.rows[id] == db.table[id]
      ensures Match(uri) == Tasks && selection.None? ==> r.Ok? && r.value.rows == db.table
      ensures Match(uri) == Tasks && selection.Some? ==> r.Ok? && r.value.rows == Select(db.table, selection.value)
      ensures Match(uri) == TasksWithId ==>
        var n := DigitsValue(uri.segments[1]);
        r.Ok? && r.value.rows == if n in db.table then map[n := db.table[n]] else map[]
    {
      match Match(uri)
      case Tasks =>
        var rows := if selection.None? then Select(db.table, AllRows()) else Select(db.table, selection.value);
        assert selection.None? ==> rows == db.table;
        r := Ok(TaskCursor(rows, sortOrder, uri));
      case TasksWithId =>
        // `_id = ?` with the last segment as argument, compared as a number
        var n := DigitsValue(uri.segments[1]);
        var rows := Select(db.table, IdIs(n));
        if n <= LONG_MAX {
          IdSelection(db.table, n, Patch(None, None, None, None));
        } else {
          IdOutOfRange(db.table, n);
        }
        r := Ok(TaskCursor(rows, sortOrder, uri));
      case NoMatch =>
        r := Throws(UnknownUri(uri));
    }

    /**
     * Insert into the collection only. The new row takes the next id; the
     * result is the collection URI, and the passed URI is notified whether
     * or not the row went in.
     */
    method Insert(uri: Uri, values: Row) returns (r: Result<Uri>)
      requires Valid()
      modifies this, db
      ensures Valid()
      ensures Match(uri) != Tasks ==>
        r == Throws(UnknownUri(uri)) && unchanged(db) && notifications == old(notifications)
      ensures Match(uri) == Tasks ==>
        && r == Ok(CONTENT_URI)
        && notifications == old(notifications) + [uri]
        && db.sequence == (if old(db.sequence) < LONG_MAX then old(db.sequence) + 1 else old(db.sequence))
        && db.table == (if old(db.sequence) < LONG_MAX
                        then old(db.table)[old(db.sequence) + 1 := values] else old(db.table))
    {
      if Match(uri) == Tasks {
        var rowId := db.Insert(values);
        r := Ok(CONTENT_URI);
        notifications := notifications + [uri];
      } else {
        r := Throws(UnknownUri(uri));
      }
    }

    /**
     * Update one row, named by an item URI; the caller's selection is
     * replaced by the URI's id, so no other row can change. Every other URI,
     * the collection included, throws. Observers are told only when a row
     * was updated.
     */
    method Update(uri: Uri, values: Patch, selection: Option<Selection>) returns (r: Result<int>)
      requires Valid()
      modifies this, db
      ensures Valid() && db.sequence == old(db.sequence)
      ensures Match(uri) != TasksWithId ==> r == Throws(ILLEGAL_URI) && unchanged(db)
      ensures Match(uri) == TasksWithId && ParseId(uri).Throws? ==> r == Throws(ParseId(uri).error) && unchanged(db)
      ensures Match(uri) == TasksWithId && ParseId(uri).Ok? && values.IsEmpty() ==>
        r == Throws(IllegalArgument("Empty values")) && unchanged(db)
      ensures Match(uri) == TasksWithId && ParseId(uri).Ok? && !values.IsEmpty() ==>
        var id := ParseId(uri).value;
        && r == Ok(if id in old(db.table) then 1 else 0)
        && db.table == if id in old(db.table) then old(db.table)[id := Apply(old(db.table)[id], values)] else old(db.table)
      ensures r.Throws? ==> notifications == old(notifications)
      ensures r.Ok? ==> notifications == old(notifications) + if r.value > 0 then [uri] else []
    {
      if Match(uri) != TasksWithId {
        return Throws(ILLEGAL_URI);
      }
      var parsed := ParseId(uri);
      if parsed.Throws? {
        return Throws(parsed.error);
      }
      var id := parsed.value;
      IdSelection(db.table, id, values);
      var updated := db.Update(values, IdIs(id));
      if updated.Throws? {
        return Throws(updated.error);
      }
      var count := updated.value;
      if count > 0 {
        notifications := notifications + [uri];
      }
      r := Ok(count);
    }

    /**
     * Delete from the collection (no selection: every row) or the one row an
     * item URI names (the caller's selection is replaced by the URI's id).
     * Any other URI throws. The count is the number of rows removed, and
     * observers are told only when it is positive. Ids of deleted rows are
     * not issued again: the sequence is kept.
     */
    method Delete(uri: Uri, selection: Option<Selection>) returns (r: Result<int>)
      requires Valid()
      modifies this, db
      ensures Valid() && db.sequence == old(db.sequence)
      ensures Match(uri) == NoMatch ==> r == Throws(ILLEGAL_URI) && unchanged(db)
      ensures Match(uri) == Tasks && selection.None? ==> r == Ok(|old(db.table)|) && db.table == map[]
      ensures Match(uri) == Tasks && selection.Some? ==>
        && r == Ok(|Matching(old(db.table), selection.value)|)
        && db.table == DeleteWhere(old(db.table), selection.value)
      ensures Match(uri) == TasksWithId && ParseId(uri).Throws? ==> r == Throws(ParseId(uri).error) && unchanged(db)
      ensures Match(uri) == TasksWithId && ParseId(uri).Ok? ==>
        var id := ParseId(uri).value;
        r == Ok(if id in old(db.table) then 1 else 0) && db.table == old(db.table) - {id}
      ensures r.Ok? ==> r.value + |db.table| == |old(db.table)|
      ensures r.Throws? ==> notifications == old(notifications)
      ensures r.Ok? ==> notifications == old(notifications) + if r.value > 0 then [uri] else []
    {
      match Match(uri) {
        case Tasks =>
          // a null selection deletes every row ("1"), and counts them
          if selection.None? {
            DeleteAllRows(db.table);
            var count := DeleteAndNotify(uri, AllRows());
            r := Ok(count);
          } else {
            var count := DeleteAndNotify(uri, selection.value);
            r := Ok(count);
          }
        case TasksWithId =>
          var parsed := ParseId(uri);
          if parsed.Throws? {
            return Throws(parsed.error);
          }
          IdSelection(db.table, parsed.value, Patch(None, None, None, None));
          var count := DeleteAndNotify(uri, IdIs(parsed.value));
          r := Ok(count);
        case NoMatch =>
          r := Throws(ILLEGAL_URI);
      }
    }

    /** Delete the selected rows; notify the URI when there were any. */
    method DeleteAndNotify(uri: Uri, sel: Selection) returns (count: nat)
      requires Valid()
      modifies this, db
      ensures Valid() && db.sequence == old(db.sequence)
      ensures count == |Matching(old(db.table), sel)| && db.table == DeleteWhere(old(db.table), sel)
      ensures count + |db.table| == |old(db.table)|
      ensures notifications == old(notifications) + if count > 0 then [uri] else []
    {
      count := db.Delete(sel);
      if count > 0 {
        notifications := notifications + [uri];
      }
    }
  }
}
