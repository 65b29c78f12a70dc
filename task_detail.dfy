/**
 * The task detail page's edit form: the edited copy of a task and the
 * handlers that transform it (subtasks, tags, recurrence, reminder), and
 * the saves that go back to the task store.
 */
module TaskDetail {
  import opened Options
  import opened Dates
  import opened Strings
  import opened Seqs
  import opened TaskTypes
  import opened TaskStore

  // ----- Due date ------------------------------------------------------------

  /**
   * `handleDateChange`: a picked date goes through `new Date(y, m - 1, d)`,
   * so it is stored as a calendar date; clearing the picker changes nothing.
   */
  function DueDateChanged(t: Task, value: Option<Date>): (r: Task)
    ensures value.None? ==> r == t
    ensures value.Some? ==> ValidDate(r.dueDate)
    ensures value.Some? && ValidDate(value.value) ==> r.dueDate == value.value
    ensures r.(dueDate := t.dueDate) == t
  {
    if value.None? then t
    else
      var d := value.value;
      assert ValidDate(d) ==> Normalize(d.year, d.month, d.day) == d by {
        if ValidDate(d) { NormalizeValid(d); }
      }
      t.(dueDate := Normalize(d.year, d.month, d.day))
  }

  // ----- Subtasks ------------------------------------------------------------

  /** `handleAddSubtask`: blank input is ignored; otherwise the trimmed title is appended as an open subtask. */
  function SubtaskAdded(t: Task, input: string, id: string): (r: Option<Task>)
    ensures r.None? <==> IsBlank(input)
    ensures r.Some? ==> r.value.subtasks.Some?
    ensures r.Some? ==> var before := if t.subtasks.Some? then t.subtasks.value else [];
                        r.value.subtasks.value == before + [SubTask(id, Trim(input), false)]
    ensures r.Some? ==> r.value.(subtasks := t.subtasks) == t
  {
    if IsBlank(input) then None
    else
      var before := if t.subtasks.Some? then t.subtasks.value else [];
      Some(t.(subtasks := Some(before + [SubTask(id, Trim(input), false)])))
  }

  function FlipSubtask(s: SubTask, sid: string): SubTask {
    if s.id == sid then s.(completed := !s.completed) else s
  }

  /** `subtasks.map(...)`: flips `completed` on the subtasks with the id, in place. */
  function SubtasksToggled(subs: seq<SubTask>, sid: string): (r: seq<SubTask>)
    ensures |r| == |subs|
    ensures forall i :: 0 <= i < |subs| ==> r[i].id == subs[i].id && r[i].title == subs[i].title
    ensures forall i :: 0 <= i < |subs| ==>
              r[i].completed == (if subs[i].id == sid then !subs[i].completed else subs[i].completed)
  {
    Map(subs, (s: SubTask) => FlipSubtask(s, sid))
  }

  /** Toggling a subtask twice restores the list. */
  lemma SubtasksToggledTwice(subs: seq<SubTask>, sid: string)
    ensures SubtasksToggled(SubtasksToggled(subs, sid), sid) == subs
  {
    var twice := SubtasksToggled(SubtasksToggled(subs, sid), sid);
    forall i | 0 <= i < |subs|
      ensures twice[i] == subs[i]
    {
    }
  }

  predicate SubtaskKept(sid: string, s: SubTask) {
    s.id != sid
  }

  /** `subtasks.filter(...)`: drops every subtask with the id and keeps the rest in order. */
  function SubtasksRemoved(subs: seq<SubTask>, sid: string): (r: seq<SubTask>)
    ensures |r| <= |subs| && IsSubsequence(r, subs)
    ensures forall s :: s in r <==> s in subs && s.id != sid
    ensures forall s :: multiset(r)[s] == if s.id != sid then multiset(subs)[s] else 0
  {
    var keep := (s: SubTask) => SubtaskKept(sid, s);
    FilterMembers(subs, keep);
    Filter(subs, keep)
  }

  // ----- Tags ----------------------------------------------------------------

  predicate NoDuplicates(s: seq<string>) {
    forall i, j :: 0 <= i < j < |s| ==> s[i] != s[j]
  }

  /** `tags.includes(tag)` or `tags.push(tag)`: adds a tag at the end unless it is already there. */
  function TagAdded(tags: seq<string>, tag: string): (r: seq<string>)
    ensures tag in r && tags <= r && |r| <= |tags| + 1
    ensures forall x :: x in r <==> x in tags || x == tag
    ensures NoDuplicates(tags) ==> NoDuplicates(r)
  {
    if tag in tags then tags else tags + [tag]
  }

  predicate TagKept(tag: string, x: string) {
    x != tag
  }

  /** `tags.filter(t => t !== tag)`: every copy of the tag goes. */
  function TagRemoved(tags: seq<string>, tag: string): (r: seq<string>)
    ensures tag !in r && IsSubsequence(r, tags)
    ensures forall x :: x in r <==> x in tags && x != tag
    ensures forall x :: multiset(r)[x] == if x != tag then multiset(tags)[x] else 0
  {
    var keep := (x: string) => TagKept(tag, x);
    FilterMembers(tags, keep);
    Filter(tags, keep)
  }

  /** Adding a new tag and removing it again gives the tags back. */
  lemma TagAddRemove(tags: seq<string>, tag: string)
    requires tag !in tags
    ensures TagRemoved(TagAdded(tags, tag), tag) == tags
  {
    var keep := (x: string) => TagKept(tag, x);
    FilterAppend(tags, tag, keep);
    FilterKeepsAll(tags, keep);
  }

  /** The task's tags, an absent list read as empty. */
  function TagsOf(t: Task): seq<string> {
    if t.tags.Some? then t.tags.value else []
  }

  /** `handleAddTag`: blank input is ignored, a tag already there changes nothing, a new one is appended. */
  function TagInputApplied(t: Task, input: string): (r: Task)
  {
    if IsBlank(input) || Trim(input) in TagsOf(t) then t
    else t.(tags := Some(TagAdded(TagsOf(t), Trim(input))))
  }

  /**
   * Only the tags change: a blank input leaves the task as it was, and
   * otherwise the trimmed input ends up among the tags, the old tags kept
   * in order before it, with nothing else added.
   */
  lemma TagInputAppliedLaws(t: Task, input: string)
    ensures var r := TagInputApplied(t, input);
            && r.(tags := t.tags) == t
            && (IsBlank(input) ==> r == t)
            && (!IsBlank(input) ==> && Trim(input) in TagsOf(r) && TagsOf(t) <= TagsOf(r)
                                    && forall x :: x in TagsOf(r) <==> x in TagsOf(t) || x == Trim(input))
  {
  }

  // ----- Recurrence ----------------------------------------------------------

  /**
   * `handleRecurrenceTypeChange`: none removes the recurrence; any other type
   * creates `{type}` when there is none, and an existing recurrence is kept
   * as it is, its own `type` overriding the chosen one.
   */
  function RecurrenceTypeChanged(t: Task, rtype: RecurrenceType): (r: Task)
    ensures rtype == NoRecurrence ==> r.recurrence.None?
    ensures rtype != NoRecurrence && t.recurrence.None? ==> r.recurrence == Some(Recurrence(rtype, None, None))
    ensures rtype != NoRecurrence && t.recurrence.Some? ==> r == t
    ensures r.(recurrence := t.recurrence) == t
  {
    if rtype == NoRecurrence then t.(recurrence := None)
    else if t.recurrence.Some? then t
    else t.(recurrence := Some(Recurrence(rtype, None, None)))
  }

  /**
   * As written, a task that already repeats daily cannot be switched to
   * weekly: the old recurrence is spread after `type` and overrides it.
   */
  lemma SwitchingTypeKeepsOldType(t: Task)
    requires t.recurrence.Some? && t.recurrence.value.rtype == Daily
    ensures RecurrenceTypeChanged(t, Weekly).recurrence.value.rtype == Daily
  {
  }

  /**
   * The evidently intended type change: none removes the recurrence; any
   * other type becomes the recurrence's type, keeping its interval and end
   * date.
   */
  function RecurrenceTypeSet(t: Task, rtype: RecurrenceType): (r: Task)
    ensures rtype == NoRecurrence ==> r.recurrence.None?
    ensures rtype != NoRecurrence ==> r.recurrence.Some? && r.recurrence.value.rtype == rtype
    ensures rtype != NoRecurrence && t.recurrence.None? ==> r.recurrence == Some(Recurrence(rtype, None, None))
    ensures rtype != NoRecurrence && t.recurrence.Some? ==>
              r.recurrence == Some(t.recurrence.value.(rtype := rtype))
    ensures r.(recurrence := t.recurrence) == t
  {
    if rtype == NoRecurrence then t.(recurrence := None)
    else if t.recurrence.Some? then t.(recurrence := Some(t.recurrence.value.(rtype := rtype)))
    else t.(recurrence := Some(Recurrence(rtype, None, None)))
  }

  /** With the intended change, switching a daily task to weekly moves its next date a week on. */
  lemma SwitchToWeeklyStepsAWeek(t: Task)
    requires t.recurrence.Some? && ValidDate(t.dueDate)
    ensures NextDueDate(RecurrenceTypeSet(t, Weekly)).Some?
    ensures DayNumber(NextDueDate(RecurrenceTypeSet(t, Weekly)).value) == DayNumber(t.dueDate) + 7
  {
    var u := RecurrenceTypeSet(t, Weekly);
    assert u.recurrence.value.rtype == Weekly;
  }

  /** `handleRecurrenceIntervalChange`: without a recurrence nothing changes; else `parseInt(value) || 1`. */
  function IntervalChanged(t: Task, value: string): (r: Task)
    ensures t.recurrence.None? ==> r == t
    ensures t.recurrence.Some? ==>
              && r.recurrence.Some?
              && r.recurrence.value.interval.Some?
              && r.recurrence.value.interval.value != 0
              && r.recurrence.value.(interval := t.recurrence.value.interval) == t.recurrence.value
    ensures r.(recurrence := t.recurrence) == t
  {
    if t.recurrence.None? then t
    else t.(recurrence := Some(t.recurrence.value.(interval := Some(IntOr(ParseInt(value), 1)))))
  }

  /** A custom recurrence's next date moves by exactly the interval typed in (`0` and non-numbers give one day). */
  lemma IntervalSetsCustomStep(t: Task, value: string)
    requires t.recurrence.Some? && t.recurrence.value.rtype == Custom && ValidDate(t.dueDate)
    ensures NextDueDate(IntervalChanged(t, value)).Some?
    ensures DayNumber(NextDueDate(IntervalChanged(t, value)).value)
         == DayNumber(t.dueDate) + IntOr(ParseInt(value), 1)
  {
    var u := IntervalChanged(t, value);
    assert u.recurrence.value.interval == Some(IntOr(ParseInt(value), 1));
  }

  /**
   * `handleRecurrenceEndDateChange`: without a recurrence nothing changes; a
   * picked date becomes the end date and clearing the field removes only the
   * end date.
   */
  function EndDateChanged(t: Task, value: Option<Date>): (r: Task)
    ensures t.recurrence.None? ==> r == t
    ensures t.recurrence.Some? ==> r.recurrence.Some?
    ensures t.recurrence.Some? && value.None? ==> r.recurrence == Some(t.recurrence.value.(endDate := None))
    ensures t.recurrence.Some? && value.Some? ==>
              && r.recurrence.value.endDate.Some?
              && ValidDate(r.recurrence.value.endDate.value)
              && (ValidDate(value.value) ==> r.recurrence.value.endDate == value)
              && r.recurrence.value.(endDate := t.recurrence.value.endDate) == t.recurrence.value
    ensures r.(recurrence := t.recurrence) == t
  {
    if t.recurrence.None? then t
    else if value.None? then t.(recurrence := Some(t.recurrence.value.(endDate := None)))
    else
      var d := value.value;
      assert ValidDate(d) ==> Normalize(d.year, d.month, d.day) == d by {
        if ValidDate(d) { NormalizeValid(d); }
      }
      t.(recurrence := Some(t.recurrence.value.(endDate := Some(Normalize(d.year, d.month, d.day)))))
  }

  /**
   * The end date is inclusive: ending a daily task's recurrence on its next
   * due date still lets that occurrence be created, ending it on the due
   * date itself stops it.
   */
  lemma EndDateIsInclusive(t: Task)
    requires t.recurrence.Some? && t.recurrence.value.rtype == Daily && ValidDate(t.dueDate)
    ensures NextOccurrence(EndDateChanged(t, NextDueDate(t))).Some?
    ensures NextOccurrence(EndDateChanged(t, Some(t.dueDate))).None?
  {
    var next := NextDueDate(t).value;
    var u := EndDateChanged(t, Some(next));
    assert u.recurrence.value.endDate == Some(next);
    assert NextDueDate(u) == NextDueDate(t);
    var v := EndDateChanged(t, Some(t.dueDate));
    assert v.recurrence.value.endDate == Some(t.dueDate);
    assert NextDueDate(v) == NextDueDate(t);
  }

  // ----- Reminder ------------------------------------------------------------

  /**
   * `new Date(`${dueDate}T${dueTime}`)`, or `T12:00:00` when there is no due
   * time, in milliseconds; `None` is an invalid date.
   */
  function DueInstant(t: Task): (r: Option<int>)
    ensures r.Some? ==> ValidDate(t.dueDate)
    ensures r.Some? ==> StartOfDay(t.dueDate) <= r.value <= StartOfDay(t.dueDate) + DAY_MS
    ensures ValidDate(t.dueDate) && !IsSetText(t.dueTime) ==> r == Some(StartOfDay(t.dueDate) + 12 * HOUR_MS)
    ensures ValidDate(t.dueDate) && IsSetText(t.dueTime) ==> r == DateTimeInstant(t.dueDate, t.dueTime.value)
  {
    if !ValidDate(t.dueDate) then None
    else if !IsSetText(t.dueTime) then Some(StartOfDay(t.dueDate) + 12 * HOUR_MS)
    else DateTimeInstant(t.dueDate, t.dueTime.value)
  }

  /**
   * `handleReminderToggle`: off removes the reminder; on sets an enabled,
   * unnotified reminder three hours before the due instant. `None` when the
   * due instant is invalid: `toISOString` throws and the edit is lost.
   */
  function ReminderToggled(t: Task, enabled: bool): (r: Option<Task>)
    ensures !enabled ==> r == Some(t.(reminder := None))
    ensures enabled ==> (r.Some? <==> DueInstant(t).Some?)
    ensures enabled && r.Some? ==>
              r.value.reminder == Some(Reminder(true, Some(DueInstant(t).value - 3 * HOUR_MS), Some(false)))
    ensures r.Some? ==> r.value.(reminder := t.reminder) == t
  {
    if !enabled then Some(t.(reminder := None))
    else
      var due := DueInstant(t);
      if due.None? then None
      else Some(t.(reminder := Some(Reminder(true, Some(due.value - 3 * HOUR_MS), Some(false)))))
  }

  /**
   * `handleReminderHoursChange`: without a reminder nothing changes;
   * otherwise the time becomes `parseInt(value) || 3` hours before the due
   * instant and the other reminder fields are kept.
   */
  function ReminderHoursChanged(t: Task, value: string): (r: Option<Task>)
    ensures t.reminder.None? ==> r == Some(t)
    ensures t.reminder.Some? ==> (r.Some? <==> DueInstant(t).Some?)
    ensures t.reminder.Some? && r.Some? ==>
              && r.value.reminder.Some?
              && r.value.reminder.value.enabled == t.reminder.value.enabled
              && r.value.reminder.value.notified == t.reminder.value.notified
              && r.value.reminder.value.time == Some(DueInstant(t).value - IntOr(ParseInt(value), 3) * HOUR_MS)
    ensures r.Some? ==> r.value.(reminder := t.reminder) == t
  {
    if t.reminder.None? then Some(t)
    else
      var due := DueInstant(t);
      if due.None? then None
      else
        var hours := IntOr(ParseInt(value), 3);
        Some(t.(reminder := Some(t.reminder.value.(time := Some(due.value - hours * HOUR_MS)))))
  }

  /** Choosing three hours right after switching the reminder on changes nothing: three is the default. */
  lemma DefaultReminderIsThreeHours(t: Task)
    requires ReminderToggled(t, true).Some?
    ensures ReminderHoursChanged(ReminderToggled(t, true).value, "3") == ReminderToggled(t, true)
  {
    var u := ReminderToggled(t, true).value;
    assert DueInstant(u) == DueInstant(t);
    ReadDigitsThree();
  }

  lemma ReadDigitsThree()
    ensures ParseInt("3") == Some(3)
  {
    assert NatToString(3) == "3";
    ParseIntToString(3);
  }

  // ----- Saving --------------------------------------------------------------

  /**
   * The `Partial<Task>` that spreading the edited object gives: a field the
   * edit form removed by rest-destructuring (`recurrence`, `reminder`) is a
   * key the object no longer has.
   */
  function SpreadPatch(u: Task): (p: TaskPatch)
    ensures p.id == Some(u.id) && p.title == Some(u.title) && p.status == Some(u.status)
    ensures u.recurrence.None? ==> p.recurrence.None?
    ensures u.reminder.None? ==> p.reminder.None?
  {
    TaskPatch(Some(u.id), Some(u.title), Absent(u.description), Some(u.dueDate), Absent(u.dueTime),
              Some(u.priority), Some(u.status), Some(u.category), Absent(u.tags), Absent(u.subtasks),
              Absent(u.notes), Absent(u.addToCalendar), Some(u.createdAt), Absent(u.recurrence),
              Absent(u.reminder))
  }

  /** An optional field as a key: a missing value is a missing key. */
  function Absent<T>(v: Option<T>): Option<Option<T>> {
    if v.None? then None else Some(v)
  }

  /**
   * Saving as written: removing the recurrence in the form and saving
   * leaves the stored recurrence in place, because the key is missing from
   * the update and the spread keeps the old value.
   */
  lemma SaveAsWrittenKeepsRemovedRecurrence(t: Task)
    requires t.recurrence.Some?
    ensures var u := RecurrenceTypeChanged(t, NoRecurrence);
            && u.recurrence.None?
            && Updated([t], t.id, SpreadPatch(u))[0].recurrence == t.recurrence
            && Updated([t], t.id, SpreadPatch(u))[0] != u
  {
    var u := RecurrenceTypeChanged(t, NoRecurrence);
    assert Updated([t], t.id, SpreadPatch(u))[0] == ApplyPatch(t, SpreadPatch(u));
  }

  /** The same for a reminder switched off. */
  lemma SaveAsWrittenKeepsRemovedReminder(t: Task)
    requires t.reminder.Some?
    ensures ReminderToggled(t, false).Some?
    ensures var u := ReminderToggled(t, false).value;
            && u.reminder.None?
            && Updated([t], t.id, SpreadPatch(u))[0].reminder == t.reminder
  {
    var u := ReminderToggled(t, false).value;
    assert Updated([t], t.id, SpreadPatch(u))[0] == ApplyPatch(t, SpreadPatch(u));
  }

  /** Saving with every key of the edited task: each task with the id becomes exactly the edited task. */
  lemma SaveStoresEditedTask(tasks: seq<Task>, id: string, u: Task)
    ensures |Updated(tasks, id, FullPatch(u))| == |tasks|
    ensures forall i :: 0 <= i < |tasks| && tasks[i].id == id ==> Updated(tasks, id, FullPatch(u))[i] == u
    ensures forall i :: 0 <= i < |tasks| && tasks[i].id != id ==> Updated(tasks, id, FullPatch(u))[i] == tasks[i]
  {
    forall i | 0 <= i < |tasks| && tasks[i].id == id
      ensures Updated(tasks, id, FullPatch(u))[i] == u
    {
      ApplyPatchLaws(tasks[i], u, FullPatch(u));
    }
  }

  // ----- The form ------------------------------------------------------------

  /** The page's state: the task id from the route, the edited copy, the two text inputs and the edit flag. */
  class EditForm {
    var taskId: string
    var editedTask: Task
    var newSubtask: string
    var newTag: string
    var isEditing: bool

    /** Opening the page on a task copies it into the form, not editing. */
    constructor (id: string, task: Task)
      ensures taskId == id && editedTask == task
      ensures newSubtask == "" && newTag == "" && !isEditing
    {
      taskId := id;
      editedTask := task;
      newSubtask := "";
      newTag := "";
      isEditing := false;
    }

    method StartEditing()
      modifies this
      ensures isEditing
      ensures taskId == old(taskId) && editedTask == old(editedTask)
      ensures newSubtask == old(newSubtask) && newTag == old(newTag)
    {
      isEditing := true;
    }

    /** Cancel: leave edit mode and copy the stored task back into the form. */
    method Cancel(current: Task)
      modifies this
      ensures !isEditing && editedTask == current
      ensures taskId == old(taskId) && newSubtask == old(newSubtask) && newTag == old(newTag)
    {
      isEditing := false;
      editedTask := current;
    }

    /**
     * The effect on `[task]`: whenever the stored task changes (a save, the
     * status checkbox, a reminder marked notified) the form takes a fresh
     * copy of it, in edit mode or not, so unsaved edits are dropped.
     */
    method Resync(current: Task)
      modifies this
      ensures editedTask == current
      ensures taskId == old(taskId) && newSubtask == old(newSubtask) && newTag == old(newTag)
      ensures isEditing == old(isEditing)
    {
      editedTask := current;
    }

    /**
     * The status checkbox: `toggleTaskStatus(id)` on the store, after which
     * the effect copies the stored task, with its new status, into the form.
     */
    method ToggleStatus(store: Store) returns (scheduled: seq<Task>)
      modifies this, store
      ensures store.tasks == Toggled(old(store.tasks), taskId)
      ensures scheduled == RecurrenceSources(old(store.tasks), taskId)
      ensures FindTask(store.tasks, taskId).Some? ==> editedTask == FindTask(store.tasks, taskId).value
      ensures FindTask(store.tasks, taskId).None? ==> editedTask == old(editedTask)
      ensures FindTask(old(store.tasks), taskId).Some? ==>
                var t := FindTask(old(store.tasks), taskId).value;
                editedTask == t.(status := Flipped(t.status))
      ensures taskId == old(taskId) && newSubtask == old(newSubtask) && newTag == old(newTag)
      ensures isEditing == old(isEditing)
    {
      FindToggled(store.tasks, taskId);
      scheduled := store.ToggleTaskStatus(taskId);
      var current := store.GetTaskById(taskId);
      if current.Some? {
        Resync(current.value);
      }
    }

    method TypeSubtask(text: string)
      modifies this
      ensures newSubtask == text
      ensures taskId == old(taskId) && editedTask == old(editedTask)
      ensures newTag == old(newTag) && isEditing == old(isEditing)
    {
      newSubtask := text;
    }

    method TypeTag(text: string)
      modifies this
      ensures newTag == text
      ensures taskId == old(taskId) && editedTask == old(editedTask)
      ensures newSubtask == old(newSubtask) && isEditing == old(isEditing)
    {
      newTag := text;
    }

    method ChangeDueDate(value: Option<Date>)
      modifies this
      ensures editedTask == DueDateChanged(old(editedTask), value)
      ensures taskId == old(taskId) && newSubtask == old(newSubtask) && newTag == old(newTag)
      ensures isEditing == old(isEditing)
    {
      editedTask := DueDateChanged(editedTask, value);
    }

    /** `handleDelete`: removes the page's task from the store (the page then navigates away). */
    method Delete(store: Store)
      modifies store
      ensures store.tasks == Deleted(old(store.tasks), taskId)
      ensures forall t :: t in store.tasks ==> t.id != taskId
    {
      var _ := store.DeleteTask(taskId);
    }

    /** `handleAddSubtask`: a blank input changes nothing, not even the input. */
    method AddSubtask(id: string)
      modifies this
      ensures IsBlank(old(newSubtask)) ==> editedTask == old(editedTask) && newSubtask == old(newSubtask)
      ensures !IsBlank(old(newSubtask)) ==>
                editedTask == SubtaskAdded(old(editedTask), old(newSubtask), id).value && newSubtask == ""
      ensures taskId == old(taskId) && newTag == old(newTag) && isEditing == old(isEditing)
    {
      var r := SubtaskAdded(editedTask, newSubtask, id);
      if r.Some? {
        editedTask := r.value;
        newSubtask := "";
      }
    }

    /**
     * `handleToggleSubtask`: flips one subtask and, outside edit mode, saves
     * the spread `{...editedTask, subtasks}` at once.
     */
    method ToggleSubtask(sid: string, store: Store)
      modifies this, store
      ensures old(editedTask).subtasks.None? ==> editedTask == old(editedTask) && store.tasks == old(store.tasks)
      ensures old(editedTask).subtasks.Some? ==>
                editedTask == old(editedTask).(subtasks := Some(SubtasksToggled(old(editedTask).subtasks.value, sid)))
      ensures old(editedTask).subtasks.Some? && !isEditing ==>
                store.tasks == Updated(old(store.tasks), taskId, SpreadPatch(editedTask))
      ensures isEditing ==> store.tasks == old(store.tasks)
      ensures taskId == old(taskId) && newSubtask == old(newSubtask) && newTag == old(newTag)
      ensures isEditing == old(isEditing)
    {
      if editedTask.subtasks.Some? {
        editedTask := editedTask.(subtasks := Some(SubtasksToggled(editedTask.subtasks.value, sid)));
        if !isEditing {
          store.UpdateTask(taskId, SpreadPatch(editedTask));
        }
      }
    }

    method RemoveSubtask(sid: string)
      modifies this
      ensures editedTask == if old(editedTask).subtasks.None? then old(editedTask)
                            else old(editedTask).(subtasks := Some(SubtasksRemoved(old(editedTask).subtasks.value, sid)))
      ensures taskId == old(taskId) && newSubtask == old(newSubtask) && newTag == old(newTag)
      ensures isEditing == old(isEditing)
    {
      if editedTask.subtasks.Some? {
        editedTask := editedTask.(subtasks := Some(SubtasksRemoved(editedTask.subtasks.value, sid)));
      }
    }

    /** `handleAddTag`: a non-blank input is cleared whether or not the tag was new. */
    method AddTag()
      modifies this
      ensures editedTask == TagInputApplied(old(editedTask), old(newTag))
      ensures newTag == if IsBlank(old(newTag)) then old(newTag) else ""
      ensures taskId == old(taskId) && newSubtask == old(newSubtask) && isEditing == old(isEditing)
    {
      var input := newTag;
      editedTask := TagInputApplied(editedTask, input);
      if !IsBlank(input) {
        newTag := "";
      }
    }

    method RemoveTag(tag: string)
      modifies this
      ensures editedTask == if old(editedTask).tags.None? then old(editedTask)
                            else old(editedTask).(tags := Some(TagRemoved(old(editedTask).tags.value, tag)))
      ensures taskId == old(taskId) && newSubtask == old(newSubtask) && newTag == old(newTag)
      ensures isEditing == old(isEditing)
    {
      if editedTask.tags.Some? {
        editedTask := editedTask.(tags := Some(TagRemoved(editedTask.tags.value, tag)));
      }
    }

    /** The recurrence select, as written: an existing recurrence keeps its own type. */
    method ChangeRecurrenceType(rtype: RecurrenceType)
      modifies this
      ensures editedTask == RecurrenceTypeChanged(old(editedTask), rtype)
      ensures taskId == old(taskId) && newSubtask == old(newSubtask) && newTag == old(newTag)
      ensures isEditing == old(isEditing)
    {
      editedTask := RecurrenceTypeChanged(editedTask, rtype);
    }

    method ChangeInterval(value: string)
      modifies this
      ensures editedTask == IntervalChanged(old(editedTask), value)
      ensures taskId == old(taskId) && newSubtask == old(newSubtask) && newTag == old(newTag)
      ensures isEditing == old(isEditing)
    {
      editedTask := IntervalChanged(editedTask, value);
    }

    method ChangeEndDate(value: Option<Date>)
      modifies this
      ensures editedTask == EndDateChanged(old(editedTask), value)
      ensures taskId == old(taskId) && newSubtask == old(newSubtask) && newTag == old(newTag)
      ensures isEditing == old(isEditing)
    {
      editedTask := EndDateChanged(editedTask, value);
    }

    /** `handleReminderToggle`; when the handler throws, the form keeps its task. */
    method ToggleReminder(enabled: bool)
      modifies this
      ensures var r := ReminderToggled(old(editedTask), enabled);
              editedTask == if r.Some? then r.value else old(editedTask)
      ensures taskId == old(taskId) && newSubtask == old(newSubtask) && newTag == old(newTag)
      ensures isEditing == old(isEditing)
    {
      var r := ReminderToggled(editedTask, enabled);
      if r.Some? {
        editedTask := r.value;
      }
    }

    method ChangeReminderHours(value: string)
      modifies this
      ensures var r := ReminderHoursChanged(old(editedTask), value);
              editedTask == if r.Some? then r.value else old(editedTask)
      ensures taskId == old(taskId) && newSubtask == old(newSubtask) && newTag == old(newTag)
      ensures isEditing == old(isEditing)
    {
      var r := ReminderHoursChanged(editedTask, value);
      if r.Some? {
        editedTask := r.value;
      }
    }

    /** `handleSave`, with every key of the edited task sent, so removed fields are removed in the store too. */
    method Save(store: Store)
      modifies this, store
      ensures store.tasks == Updated(old(store.tasks), taskId, FullPatch(editedTask))
      ensures forall i :: 0 <= i < |store.tasks| && old(store.tasks)[i].id == taskId ==> store.tasks[i] == editedTask
      ensures !isEditing
      ensures taskId == old(taskId) && editedTask == old(editedTask)
      ensures newSubtask == old(newSubtask) && newTag == old(newTag)
    {
      store.UpdateTask(taskId, FullPatch(editedTask));
      SaveStoresEditedTask(old(store.tasks), taskId, editedTask);
      isEditing := false;
    }
  }
}
