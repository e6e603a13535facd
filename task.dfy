/**
 * The in-memory task record: built from discrete values (with or without a
 * due date) or decoded from a cursor row. "No id" and "no date" are
 * sentinel values of the `long` fields.
 */
module Tasks {
  import opened Primitives
  import opened Database

  /** No due date: `Long.MAX_VALUE`. */
  const NO_DATE: Long := LONG_MAX
  /** Not yet stored: -1. */
  const NO_ID: Long := -1

  datatype Task = Task(
    id: Long,
    description: string,
    isComplete: bool,
    isPriority: bool,
    dueDateMillis: Long)
  {
    /** True when a due date has been set: any date but the `NO_DATE` sentinel, negative ones included. */
    predicate HasDueDate(): (b: bool)
      ensures b <==> dueDateMillis < LONG_MAX
    {
      dueDateMillis != LONG_MAX
    }
  }

  /** A new task from discrete values; it has no id until stored. */
  function NewTask(description: string, isComplete: bool, isPriority: bool, dueDateMillis: Long): (t: Task)
    ensures t.id == NO_ID
    ensures t.description == description && t.isComplete == isComplete && t.isPriority == isPriority
    ensures t.dueDateMillis == dueDateMillis
    ensures t.HasDueDate() <==> dueDateMillis != NO_DATE
  {
    Task(NO_ID, description, isComplete, isPriority, dueDateMillis)
  }

  /** A new task with no due date: the four-value constructor given `NO_DATE`. */
  function NewUndatedTask(description: string, isComplete: bool, isPriority: bool): (t: Task)
    ensures t == NewTask(description, isComplete, isPriority, NO_DATE)
    ensures !t.HasDueDate()
  {
    NewTask(description, isComplete, isPriority, NO_DATE)
  }

  /**
   * A boolean column as the task reads it: `getInt(column) == 1`. For a
   * stored value in `int` range the flag is set exactly when the value is 1.
   */
  function DecodeFlag(stored: Long): (b: bool)
    ensures INT_MIN <= stored <= INT_MAX ==> (b <==> stored == 1)
  {
    LongToInt(stored) == 1
  }

  /** A task decoded from the row a cursor is positioned on. */
  function FromCursor(rec: Record): (t: Task)
    ensures t.id == rec.id && t.description == rec.row.description
    ensures t.dueDateMillis == rec.row.dueDate
    ensures t.isComplete == DecodeFlag(rec.row.isComplete) && t.isPriority == DecodeFlag(rec.row.isPriority)
  {
    Task(rec.id, rec.row.description, DecodeFlag(rec.row.isComplete),
         DecodeFlag(rec.row.isPriority), rec.row.dueDate)
  }

  /** The columns the app stores for a task, flags as 1 and 0. */
  function ToRow(t: Task): Row {
    Row(t.description, if t.isComplete then 1 else 0, if t.isPriority then 1 else 0, t.dueDateMillis)
  }

  /**
   * `getInt` narrows the stored `long` to 32 bits first, so every value that
   * is 1 modulo 2^32 decodes as set, and no other value does.
   */
  lemma DecodeFlagNarrows(v: Long)
    ensures DecodeFlag(v) <==> v % 0x1_0000_0000 == 1
  {
  }

  /** Storing a task and decoding the row gives the same task, now with the row's id. */
  lemma DecodeStoredTask(t: Task, id: Long)
    ensures FromCursor(Record(id, ToRow(t))) == t.(id := id)
  {
  }
}
