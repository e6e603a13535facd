/**
 * The open helper of `tasks.db`: creating the store makes the tasks table
 * and seeds it with one demo task; upgrading drops the table and creates
 * it again, so the old rows are lost.
 */
module DbHelper {
  import opened Primitives
  import opened Database
  import Tasks

  const DATABASE_NAME: string := "tasks.db"
  const DATABASE_VERSION: int := 1

  /** The seed row: the demo text, not complete, priority, no due date. */
  function DemoRow(demoTask: string): (r: Row)
    ensures r.description == demoTask
    ensures !Tasks.DecodeFlag(r.isComplete) && Tasks.DecodeFlag(r.isPriority)
    ensures r.dueDate == Tasks.NO_DATE
  {
    Row(demoTask, 0, 1, LONG_MAX)
  }

  /** Read back through a cursor, the seed is an incomplete priority task with no due date. */
  lemma DemoTaskDecoded(demoTask: string, id: Long)
    ensures Tasks.FromCursor(Record(id, DemoRow(demoTask)))
         == Tasks.Task(id, demoTask, false, true, Tasks.NO_DATE)
    ensures !Tasks.FromCursor(Record(id, DemoRow(demoTask))).HasDueDate()
  {
  }

  class TaskDbHelper {
    /** The text of the demo task, a string resource of the app. */
    const demoTask: string

    constructor (demoTask: string)
      ensures this.demoTask == demoTask
    {
      this.demoTask := demoTask;
    }

    /**
     * Create the table, then insert the seed row. On a database without the
     * table this leaves exactly the seed row, with id 1; creating over an
     * existing table fails before anything changes.
     */
    method OnCreate(db: TaskDatabase) returns (r: Result<()>)
      requires db.Valid()
      modifies db
      ensures db.Valid()
      ensures old(db.hasTable) ==> r.Throws? && unchanged(db)
      ensures !old(db.hasTable) ==>
        r == Ok(()) && db.hasTable && db.table == map[1 := DemoRow(demoTask)] && db.sequence == 1
    {
      r := db.CreateTable();
      if r.Ok? {
        r := LoadDemoTask(db);
      }
    }

    /** Drop the table whatever it held and create it again: afterwards only the seed row is left. */
    method OnUpgrade(db: TaskDatabase, oldVersion: int, newVersion: int)
      requires db.Valid()
      modifies db
      ensures db.Valid() && db.hasTable
      ensures db.table == map[1 := DemoRow(demoTask)] && db.sequence == 1
    {
      db.DropTableIfExists();
      var r := OnCreate(db);
    }

    /** Insert the seed row with `insertOrThrow`: a failed insert is passed on, not ignored. */
    method LoadDemoTask(db: TaskDatabase) returns (r: Result<()>)
      requires db.Valid() && db.hasTable
      modifies db
      ensures db.Valid() && db.hasTable
      ensures old(db.sequence) == LONG_MAX ==> r.Throws? && unchanged(db)
      ensures old(db.sequence) < LONG_MAX ==>
        && r == Ok(())
        && db.table == old(db.table)[old(db.sequence) + 1 := DemoRow(demoTask)]
        && db.sequence == old(db.sequence) + 1
    {
      var inserted := db.InsertOrThrow(DemoRow(demoTask));
      r := if inserted.Ok? then Ok(()) else Throws(inserted.error);
    }
  }
}
