/**
 * The new-task dialog: its thirteen form fields, the draft that submitting
 * builds from them, and the reset that follows.
 */
module AddTaskModal {
  import opened Options
  import opened Dates
  import opened Strings
  import opened Seqs
  import opened TaskTypes
  import opened TaskStore

  /** The dialog's fields; `reminderHours` is `None` when the selected text is not a number. */
  datatype FormValues = FormValues(
    title: string,
    description: string,
    dueDate: Date,
    dueTime: string,
    priority: Priority,
    category: Category,
    tags: string,
    addToCalendar: bool,
    recurrenceType: RecurrenceType,
    recurrenceInterval: int,
    recurrenceEndDate: Option<Date>,
    enableReminder: bool,
    reminderHours: Option<int>)

  /** The fields as the dialog opens and after each submit, `today` standing for `new Date()`. */
  function Defaults(today: Date): (v: FormValues)
    ensures v.title == "" && v.description == "" && v.dueTime == "" && v.tags == ""
    ensures v.dueDate == today && v.priority == Medium && v.category == Uncategorized
    ensures v.addToCalendar && v.recurrenceType == NoRecurrence && v.recurrenceInterval == 1
    ensures v.recurrenceEndDate.None? && !v.enableReminder && v.reminderHours == Some(3)
  {
    FormValues("", "", today, "", Medium, Uncategorized, "", true, NoRecurrence, 1, None, false, Some(3))
  }

  /** What pressing the submit button gives. */
  datatype Outcome =
    | BlankTitle            // nothing happens
    | InvalidDate           // `toISOString` throws on an invalid date; nothing is added
    | Built(draft: TaskDraft)

  /** `tags.trim() ? tags.split(',').map(tag => tag.trim()) : undefined`. */
  function TagList(tags: string): (r: Option<seq<string>>)
    ensures r.None? <==> IsBlank(tags)
    ensures r.Some? ==> |r.value| == |Split(tags, ',')| == Occurrences(tags, ',') + 1
    ensures r.Some? ==> forall k :: 0 <= k < |r.value| ==> r.value[k] == Trim(Split(tags, ',')[k])
  {
    if IsBlank(tags) then None
    else
      SplitCount(tags, ',');
      Some(Map(Split(tags, ','), Trim))
  }

  /** Every tag is a trimmed piece between commas: no comma and no white space at either end. */
  lemma TagsAreTrimmedPieces(tags: string)
    requires TagList(tags).Some?
    ensures forall k :: 0 <= k < |TagList(tags).value| ==> ',' !in TagList(tags).value[k]
    ensures forall k :: 0 <= k < |TagList(tags).value| ==>
              var g := TagList(tags).value[k]; g == [] || (!IsWhitespace(g[0]) && !IsWhitespace(g[|g| - 1]))
  {
    var pieces := Split(tags, ',');
    var r := TagList(tags).value;
    forall k | 0 <= k < |r|
      ensures ',' !in r[k]
    {
      assert r[k] == Trim(pieces[k]);
      assert ',' !in pieces[k];
      TrimInside(pieces[k]);
    }
  }

  /** Trimming keeps a contiguous piece of the text, so it adds no character. */
  lemma TrimInside(s: string)
    ensures forall c :: c in Trim(s) ==> c in s
  {
    var a := TrimStart(s);
    var b := TrimEnd(a);
    assert b == a[..|b|];
    assert a == s[|s| - |a|..];
    forall c | c in b
      ensures c in s
    {
      var i :| 0 <= i < |b| && b[i] == c;
      assert a[i] == c;
      assert s[|s| - |a| + i] == c;
    }
  }

  /** The instant of the reminder: `reminderHours` before the due date at the due time, when there is a due time. */
  function ReminderTime(v: FormValues): (r: Option<Option<int>>)
    ensures r.None? <==> v.enableReminder && v.dueTime != ""
                         && (DateTimeInstant(v.dueDate, v.dueTime).None? || v.reminderHours.None?)
    ensures r == Some(None) <==> !(v.enableReminder && v.dueTime != "")
    ensures r.Some? && r.value.Some? ==>
              r.value.value == DateTimeInstant(v.dueDate, v.dueTime).value - v.reminderHours.value * HOUR_MS
  {
    if !(v.enableReminder && v.dueTime != "") then Some(None)
    else
      var due := DateTimeInstant(v.dueDate, v.dueTime);
      if due.None? || v.reminderHours.None? then None
      else Some(Some(due.value - v.reminderHours.value * HOUR_MS))
  }

  /** `handleSubmit`'s outcome: nothing for a blank title, a throw for a bad date or time, else the draft. */
  function BuildDraft(v: FormValues): (r: Outcome)
    ensures r.BlankTitle? <==> IsBlank(v.title)
    ensures r.InvalidDate? <==> !IsBlank(v.title) && (!ValidDate(v.dueDate) || ReminderTime(v).None?)
    ensures r.Built? ==> r.draft == DraftOf(v, ReminderTime(v).value)
  {
    if IsBlank(v.title) then BlankTitle
    else if !ValidDate(v.dueDate) then InvalidDate
    else
      var time := ReminderTime(v);
      if time.None? then InvalidDate else Built(DraftOf(v, time.value))
  }

  /** The object `handleSubmit` passes to `addTask`: trimmed texts, absent empties, optional recurrence and reminder. */
  function DraftOf(v: FormValues, time: Option<int>): TaskDraft {
    var description := Trim(v.description);
    TaskDraft(
      Trim(v.title),
      if description == "" then None else Some(description),
      v.dueDate,
      if v.dueTime == "" then None else Some(v.dueTime),
      v.priority,
      v.category,
      TagList(v.tags),
      None,
      None,
      Some(v.addToCalendar),
      if v.recurrenceType == NoRecurrence then None
      else Some(Recurrence(v.recurrenceType,
                           if v.recurrenceType == Custom then Some(v.recurrenceInterval) else None,
                           v.recurrenceEndDate)),
      if v.enableReminder then Some(Reminder(true, time, Some(false))) else None)
  }

  /** The draft's fields against the form's, one by one. */
  lemma DraftFields(v: FormValues)
    requires BuildDraft(v).Built?
    ensures var d := BuildDraft(v).draft;
      && d.title == Trim(v.title) && d.title != ""
      && (d.description.None? <==> IsBlank(v.description))
      && (d.description.Some? ==> d.description.value == Trim(v.description))
      && d.dueDate == v.dueDate
      && (d.dueTime.None? <==> v.dueTime == "")
      && (v.dueTime != "" ==> d.dueTime == Some(v.dueTime))
      && d.priority == v.priority && d.category == v.category
      && d.tags == TagList(v.tags)
      && d.subtasks.None? && d.notes.None? && d.addToCalendar == Some(v.addToCalendar)
      && (d.recurrence.Some? <==> v.recurrenceType != NoRecurrence)
      && (d.recurrence.Some? ==> d.recurrence.value.rtype == v.recurrenceType
                                 && (d.recurrence.value.interval.Some? <==> v.recurrenceType == Custom)
                                 && (v.recurrenceType == Custom ==> d.recurrence.value.interval == Some(v.recurrenceInterval))
                                 && d.recurrence.value.endDate == v.recurrenceEndDate)
      && (d.reminder.Some? <==> v.enableReminder)
      && (d.reminder.Some? ==> d.reminder.value.enabled && d.reminder.value.notified == Some(false)
                               && (d.reminder.value.time.Some? <==> v.dueTime != ""))
  {
    assert IsBlank(v.title) == (Trim(v.title) == []);
  }

  /**
   * Once added to the store, the dialog's reminder comes due exactly
   * `reminderHours` before the due date and time, and not earlier.
   */
  lemma ReminderComesDueHoursBefore(v: FormValues, id: string, createdAt: int, now: int)
    requires BuildDraft(v).Built? && v.enableReminder && v.dueTime != ""
    ensures var t := FromDraft(BuildDraft(v).draft, id, createdAt);
            ReminderDue(t, now)
            <==> now >= DateTimeInstant(v.dueDate, v.dueTime).value - v.reminderHours.value * HOUR_MS
  {
  }

  /** A custom recurrence made in the dialog repeats every `recurrenceInterval` days, never zero. */
  lemma CustomIntervalIsTheStep(v: FormValues, id: string, createdAt: int)
    requires BuildDraft(v).Built? && v.recurrenceType == Custom && v.recurrenceInterval != 0
    ensures var t := FromDraft(BuildDraft(v).draft, id, createdAt);
            && NextDueDate(t).Some?
            && DayNumber(NextDueDate(t).value) == DayNumber(v.dueDate) + v.recurrenceInterval
  {
    var t := FromDraft(BuildDraft(v).draft, id, createdAt);
    assert t.recurrence.value.interval == Some(v.recurrenceInterval);
  }

  /** The dialog's state. The interval input never holds 0: its handler maps 0 and non-numbers to 1. */
  class AddTaskForm {
    var values: FormValues
    var isSubmitting: bool

    predicate Valid()
      reads this
    {
      values.recurrenceInterval != 0
    }

    constructor (today: Date)
      ensures Valid() && values == Defaults(today) && !isSubmitting
    {
      values := Defaults(today);
      isSubmitting := false;
    }

    /** The custom interval input: `parseInt(value) || 1`. */
    method SetInterval(text: string)
      requires Valid()
      modifies this
      ensures Valid()
      ensures values == old(values).(recurrenceInterval := IntOr(ParseInt(text), 1))
      ensures isSubmitting == old(isSubmitting)
    {
      values := values.(recurrenceInterval := IntOr(ParseInt(text), 1));
    }

    /** The reminder-hours select: `parseInt(value)`, with no fallback. */
    method SetReminderHours(text: string)
      requires Valid()
      modifies this
      ensures Valid()
      ensures values == old(values).(reminderHours := ParseInt(text))
      ensures isSubmitting == old(isSubmitting)
    {
      values := values.(reminderHours := ParseInt(text));
    }

    /** Any other field: typed or picked as it is. */
    method Edit(next: FormValues)
      requires Valid() && next.recurrenceInterval == values.recurrenceInterval
      modifies this
      ensures Valid() && values == next && isSubmitting == old(isSubmitting)
    {
      values := next;
    }

    /**
     * `handleSubmit`: a blank title does nothing; a built draft is added with
     * the given id and creation time and every field resets; when building
     * throws, nothing is added and `isSubmitting` stays set.
     */
    method Submit(store: Store, id: string, createdAt: int, today: Date) returns (outcome: Outcome)
      requires Valid()
      modifies this, store
      ensures Valid()
      ensures outcome == BuildDraft(old(values))
      ensures outcome.BlankTitle? ==> values == old(values) && isSubmitting == old(isSubmitting)
                                      && store.tasks == old(store.tasks)
      ensures outcome.InvalidDate? ==> values == old(values) && isSubmitting && store.tasks == old(store.tasks)
      ensures outcome.Built? ==> store.tasks == old(store.tasks) + [FromDraft(outcome.draft, id, createdAt)]
                                 && values == Defaults(today) && !isSubmitting
    {
      outcome := BuildDraft(values);
      Finish(store, outcome, id, createdAt, today);
    }

    /** What follows the draft's construction, whichever way it went. */
    method Finish(store: Store, outcome: Outcome, id: string, createdAt: int, today: Date)
      requires Valid()
      modifies this, store
      ensures Valid()
      ensures outcome.BlankTitle? ==> values == old(values) && isSubmitting == old(isSubmitting)
                                      && store.tasks == old(store.tasks)
      ensures outcome.InvalidDate? ==> values == old(values) && isSubmitting && store.tasks == old(store.tasks)
      ensures outcome.Built? ==> store.tasks == old(store.tasks) + [FromDraft(outcome.draft, id, createdAt)]
                                 && values == Defaults(today) && !isSubmitting
    {
      if outcome.BlankTitle? {
        return;
      }
      isSubmitting := true;
      if outcome.InvalidDate? {
        return;
      }
      store.AddTask(outcome.draft, id, createdAt);
      values := Defaults(today);
      isSubmitting := false;
    }
  }
}
