/**
 * Runs of the provider, checked statically: seeding a fresh store, opening
 * a provider over it and listing the seed, adding a task and reading it
 * back by id, an update of a missing id, two toggles of one task, and
 * clearing the collection.
 */
module Scenarios {
  import opened Primitives
  import opened Uris
  import opened Database
  import opened DbHelper
  import opened Provider
  import Tasks

  /** A freshly created store holds the one demo row, read back as an undated priority task. */
  method SeedScenario(demoTask: string)
  {
    var db := new TaskDatabase();
    var helper := new TaskDbHelper(demoTask);
    var created := helper.OnCreate(db);
    assert db.table == map[1 := DemoRow(demoTask)];
    DemoTaskDecoded(demoTask, 1);
    assert !Tasks.FromCursor(Record(1, db.table[1])).HasDueDate();
  }

  /** Opening the store seeds it; a provider over it then lists exactly the demo row. */
  method OpenThenQueryScenario(demoTask: string)
  {
    var db := new TaskDatabase();
    var helper := new TaskDbHelper(demoTask);
    var created := helper.OnCreate(db);
    var provider := new TaskProvider(demoTask, db);
    var all := provider.Query(CONTENT_URI, None, None);
    assert all.value.rows == map[1 := DemoRow(demoTask)];
  }

  /** A task added to the collection is read back unchanged through its item URI. */
  method InsertThenQueryScenario(provider: TaskProvider, t: Tasks.Task)
    requires provider.Valid() && provider.db.sequence < LONG_MAX
    modifies provider, provider.db
  {
    var id := provider.db.sequence + 1;
    var inserted := provider.Insert(CONTENT_URI, Tasks.ToRow(t));
    assert inserted == Ok(CONTENT_URI);
    var item := WithAppendedId(CONTENT_URI, id);
    ItemUriRoundTrip(id);
    var found := provider.Query(item, None, None);
    assert found.value.rows == map[id := Tasks.ToRow(t)];
    Tasks.DecodeStoredTask(t, id);
    assert Tasks.FromCursor(Record(id, found.value.rows[id])) == t.(id := id);
  }

  /** Updating an id that is not there changes nothing and notifies no one. */
  method MissingUpdateScenario(provider: TaskProvider)
    requires provider.Valid() && 5 !in provider.db.table
    modifies provider, provider.db
  {
    var before := provider.notifications;
    var missing := WithAppendedId(CONTENT_URI, 5);
    ItemUriRoundTrip(5);
    var none := provider.Update(missing, Patch(None, Some(1), None, None), None);
    assert none == Ok(0) && provider.notifications == before;
  }

  /** Complete, then reopen, one task: the last toggle wins and each one notifies. */
  method ToggleTwiceScenario(provider: TaskProvider, id: Long)
    requires provider.Valid() && id in provider.db.table
    modifies provider, provider.db
  {
    var before := provider.notifications;
    var row := provider.db.table[id];
    var item := WithAppendedId(CONTENT_URI, id);
    ItemUriRoundTrip(id);
    var done := provider.Update(item, Patch(None, Some(1), None, None), None);
    assert provider.db.table[id].isComplete == 1;
    var reopened := provider.Update(item, Patch(None, Some(0), None, None), None);
    assert provider.db.table[id] == row.(isComplete := 0);
    assert provider.notifications == before + [item, item];
  }

  /** The collection refuses updates; deleting it with no selection removes every row. */
  method ClearScenario(provider: TaskProvider)
    requires provider.Valid()
    modifies provider, provider.db
  {
    var n := |provider.db.table|;
    var refused := provider.Update(CONTENT_URI, Patch(None, Some(1), None, None), None);
    assert refused == Throws(ILLEGAL_URI);
    var cleared := provider.Delete(CONTENT_URI, None);
    assert cleared == Ok(n) && provider.db.table == map[];
  }
}
