/**
 * The list adapter: how one cursor row is shown (title state, checkbox,
 * priority icon, due-date text) and the adapter's own bookkeeping (the
 * cursor it holds, item lookup by position, the click listener).
 */
module Adapter {
  import opened Primitives
  import opened Database
  import Tasks

  /** The states of the task title view. */
  datatype TitleState = Normal | Done | Overdue

  /** The image shown in the priority view. */
  datatype PriorityIcon = Priority | NotPriority

  /** The text of the date view: "Not Set", or the due date as relative time. */
  datatype DateText = NotSet | Relative(dueDateMillis: Long)

  /**
   * What binding a row sets on a holder: the item tag, the checkbox, the
   * title state, whether this binding sets the strike-through paint flag,
   * the priority icon, the date text, whether this binding makes the date
   * view visible, and the title text. The binding never clears the paint
   * flag nor hides the date view, so on a recycled holder both may remain
   * from an earlier row.
   */
  datatype Binding = Binding(
    tag: int,
    checked: bool,
    state: TitleState,
    strikeThrough: bool,
    icon: PriorityIcon,
    date: DateText,
    showsDate: bool,
    title: string)

  /** Complete first, then past due, else normal. */
  function TitleFor(isComplete: int, dueDate: Long, now: Long): (st: TitleState)
    ensures st == Done <==> isComplete == 1
    ensures st == Overdue ==> dueDate < now
    ensures dueDate == LONG_MAX ==> st != Overdue
  {
    if isComplete == 1 then Done
    else if dueDate < now then Overdue
    else Normal
  }

  /**
   * Bind one row at time `now`. The flags and the id are read with
   * `getInt`; the due date is read as text and parsed back to a `long`.
   */
  function Bind(rec: Record, now: Long): (b: Binding)
    ensures b.checked <==> b.state == Done
    ensures b.strikeThrough == b.checked
    ensures b.showsDate <==> b.date != NotSet
    ensures b.title == rec.row.description
  {
    var isComplete := LongToInt(rec.row.isComplete);
    var priority := LongToInt(rec.row.isPriority);
    LongTextRoundTrip(rec.row.dueDate);
    var dueDate := ParseLong(LongToString(rec.row.dueDate)).value;
    Binding(
      LongToInt(rec.id),
      isComplete == 1,
      TitleFor(isComplete, dueDate, now),
      isComplete == 1,
      if priority == 1 then Priority else NotPriority,
      if dueDate == LONG_MAX then NotSet else Relative(dueDate),
      dueDate != LONG_MAX,
      rec.row.description)
  }

  /** A complete task is shown DONE with its box checked, whatever its due date. */
  lemma DoneIffComplete(rec: Record, now: Long)
    ensures Bind(rec, now).state == Done <==> Tasks.FromCursor(rec).isComplete
    ensures Bind(rec, now).checked == Tasks.FromCursor(rec).isComplete
  {
  }

  /** An incomplete task is OVERDUE exactly when its due date is before now; otherwise NORMAL. */
  lemma OverdueIffPastDue(rec: Record, now: Long)
    ensures var t := Tasks.FromCursor(rec);
      Bind(rec, now).state == Overdue <==> !t.isComplete && t.dueDateMillis < now
    ensures var t := Tasks.FromCursor(rec);
      Bind(rec, now).state == Normal <==> !t.isComplete && t.dueDateMillis >= now
  {
    LongTextRoundTrip(rec.row.dueDate);
  }

  /** A task without a due date is never OVERDUE and its date reads "Not Set". */
  lemma UndatedNeverOverdue(rec: Record, now: Long)
    requires !Tasks.FromCursor(rec).HasDueDate()
    ensures Bind(rec, now).state != Overdue
    ensures Bind(rec, now).date == NotSet
  {
    LongTextRoundTrip(rec.row.dueDate);
  }

  /** The date text is "Not Set" exactly for the no-date sentinel; any other date is shown. */
  lemma DateTextFollowsDueDate(rec: Record, now: Long)
    ensures var t := Tasks.FromCursor(rec);
      Bind(rec, now).date == if t.HasDueDate() then Relative(t.dueDateMillis) else NotSet
  {
    LongTextRoundTrip(rec.row.dueDate);
  }

  /** The priority icon is shown exactly for a task read as priority. */
  lemma PriorityIconFollowsFlag(rec: Record, now: Long)
    ensures Bind(rec, now).icon == Priority <==> Tasks.FromCursor(rec).isPriority
  {
  }

  /** Identity of an item click listener. */
  type Listener = nat

  /** The listener's two callbacks. */
  datatype Callback = ItemClick(position: int) | ItemToggled(active: bool, position: int)

  /** One callback made on one listener. */
  datatype Delivery = Delivery(listener: Listener, callback: Callback)

  class TaskAdapter {
    /** The cursor shown; None stands for null. */
    var cursor: Option<seq<Record>>
    var listener: Option<Listener>
    /** Every callback made on a listener, oldest first. */
    var delivered: seq<Delivery>
    /** How many times observers were told the whole data set changed. */
    var dataSetChanges: nat

    constructor (cursor: Option<seq<Record>>)
      ensures this.cursor == cursor && listener == None
      ensures delivered == [] && dataSetChanges == 0
    {
      this.cursor := cursor;
      listener := None;
      delivered := [];
      dataSetChanges := 0;
    }

    method SetOnItemClickListener(l: Option<Listener>)
      modifies this`listener
      ensures listener == l
    {
      listener := l;
    }

    /** The checkbox was clicked: pass its state on, if a listener is set. */
    method CompletionToggled(checked: bool, position: int)
      modifies this`delivered
      ensures listener.None? ==> delivered == old(delivered)
      ensures listener.Some? ==>
        delivered == old(delivered) + [Delivery(listener.value, ItemToggled(checked, position))]
    {
      if listener.Some? {
        delivered := delivered + [Delivery(listener.value, ItemToggled(checked, position))];
      }
    }

    /** The item was clicked: pass it on, if a listener is set. */
    method PostItemClick(position: int)
      modifies this`delivered
      ensures listener.None? ==> delivered == old(delivered)
      ensures listener.Some? ==>
        delivered == old(delivered) + [Delivery(listener.value, ItemClick(position))]
    {
      if listener.Some? {
        delivered := delivered + [Delivery(listener.value, ItemClick(position))];
      }
    }

    /** A holder's click: the checkbox toggles completion, anything else is an item click. */
    method OnClick(onCheckBox: bool, checked: bool, position: int)
      modifies this`delivered
      ensures listener.None? ==> delivered == old(delivered)
      ensures listener.Some? ==> delivered == old(delivered) + [Delivery(listener.value,
        if onCheckBox then ItemToggled(checked, position) else ItemClick(position))]
    {
      if onCheckBox {
        CompletionToggled(checked, position);
      } else {
        PostItemClick(position);
      }
    }

    /** Bind the row at a position the list asks for (always one below the item count). */
    method OnBindViewHolder(position: int, now: Long) returns (b: Binding)
      requires cursor.Some? && 0 <= position < |cursor.value|
      ensures b == Bind(cursor.value[position], now)
      ensures b.state == Done <==> Tasks.FromCursor(cursor.value[position]).isComplete
    {
      b := Bind(cursor.value[position], now);
      DoneIffComplete(cursor.value[position], now);
    }

    /** Zero without a cursor, else the cursor's row count. */
    method GetItemCount() returns (n: int)
      ensures cursor.None? ==> n == 0
      ensures cursor.Some? ==> n == |cursor.value|
    {
      n := if cursor.Some? then |cursor.value| else 0;
    }

    /**
     * The task at a position. A position the cursor cannot move to throws
     * IllegalStateException; with no cursor at all the call fails on null.
     */
    method GetItem(position: int) returns (r: Result<Tasks.Task>)
      ensures cursor.None? ==> r == Throws(NullPointer)
      ensures cursor.Some? && !(0 <= position < |cursor.value|) ==>
        r == Throws(IllegalState("Invalid item position requested"))
      ensures cursor.Some? && 0 <= position < |cursor.value| ==>
        r == Ok(Tasks.FromCursor(cursor.value[position]))
    {
      if cursor.None? {
        return Throws(NullPointer);
      }
      // moveToPosition fails below 0 and at or past the row count
      if !(0 <= position < |cursor.value|) {
        return Throws(IllegalState("Invalid item position requested"));
      }
      r := Ok(Tasks.FromCursor(cursor.value[position]));
    }

    /** The `_id` of the row at a position, failing as `GetItem` does. */
    method GetItemId(position: int) returns (r: Result<Long>)
      ensures r.Ok? <==> cursor.Some? && 0 <= position < |cursor.value|
      ensures r.Ok? ==> r.value == cursor.value[position].id
      ensures cursor.None? ==> r == Throws(NullPointer)
      ensures cursor.Some? && !(0 <= position < |cursor.value|) ==>
        r == Throws(IllegalState("Invalid item position requested"))
    {
      var item := GetItem(position);
      r := if item.Ok? then Ok(item.value.id) else Throws(item.error);
    }

    /** Hold a new cursor and tell observers that everything changed. */
    method SwapCursor(c: Option<seq<Record>>)
      modifies this`cursor, this`dataSetChanges
      ensures cursor == c
      ensures dataSetChanges == old(dataSetChanges) + 1
    {
      cursor := c;
      dataSetChanges := dataSetChanges + 1;
    }
  }
}
