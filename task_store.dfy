/**
 * The task store: the list of tasks the application holds, its mutations
 * (add, update, delete, toggle, next recurring occurrence, reminder scan)
 * and its read-only views (by id, today, upcoming, completed, priority,
 * category).
 */
module TaskStore {
  import opened Options
  import opened Dates
  import opened Strings
  import opened Seqs
  import opened TaskTypes

  // ----- Records -------------------------------------------------------------

  /** `{...draft, id, createdAt, status: pending}`. */
  function FromDraft(d: TaskDraft, id: string, createdAt: int): (t: Task)
    ensures t.id == id && t.createdAt == createdAt && t.status == Pending
    ensures ToDraft(t) == d
  {
    Task(id, d.title, d.description, d.dueDate, d.dueTime, d.priority, Pending, d.category,
         d.tags, d.subtasks, d.notes, d.addToCalendar, createdAt, d.recurrence, d.reminder)
  }

  /** The draft part of a task: everything but `id`, `createdAt` and `status`. */
  function ToDraft(t: Task): TaskDraft {
    TaskDraft(t.title, t.description, t.dueDate, t.dueTime, t.priority, t.category,
              t.tags, t.subtasks, t.notes, t.addToCalendar, t.recurrence, t.reminder)
  }

  function Pick<T>(key: Option<T>, current: T): T {
    if key.Some? then key.value else current
  }

  /** `{...t, ...p}`: every key present in the patch overrides, the rest is kept. */
  function ApplyPatch(t: Task, p: TaskPatch): Task {
    Task(Pick(p.id, t.id), Pick(p.title, t.title), Pick(p.description, t.description),
         Pick(p.dueDate, t.dueDate), Pick(p.dueTime, t.dueTime), Pick(p.priority, t.priority),
         Pick(p.status, t.status), Pick(p.category, t.category), Pick(p.tags, t.tags),
         Pick(p.subtasks, t.subtasks), Pick(p.notes, t.notes), Pick(p.addToCalendar, t.addToCalendar),
         Pick(p.createdAt, t.createdAt), Pick(p.recurrence, t.recurrence), Pick(p.reminder, t.reminder))
  }

  /** `{}`. */
  function EmptyPatch(): TaskPatch {
    TaskPatch(None, None, None, None, None, None, None, None, None, None, None, None, None, None, None)
  }

  /** A whole task used as `Partial<Task>`: every key present. */
  function FullPatch(u: Task): TaskPatch {
    TaskPatch(Some(u.id), Some(u.title), Some(u.description), Some(u.dueDate), Some(u.dueTime),
              Some(u.priority), Some(u.status), Some(u.category), Some(u.tags), Some(u.subtasks),
              Some(u.notes), Some(u.addToCalendar), Some(u.createdAt), Some(u.recurrence), Some(u.reminder))
  }

  /** The empty patch changes nothing; a patch with every key replaces the task; patching twice is patching once. */
  lemma ApplyPatchLaws(t: Task, u: Task, p: TaskPatch)
    ensures ApplyPatch(t, EmptyPatch()) == t
    ensures ApplyPatch(t, FullPatch(u)) == u
    ensures ApplyPatch(ApplyPatch(t, p), p) == ApplyPatch(t, p)
  {
  }

  // ----- Lookup --------------------------------------------------------------

  /** `tasks.find((t: Task) => t.id === id)`: the first task with that id. */
  function FindTask(tasks: seq<Task>, id: string): (r: Option<Task>)
    ensures r.None? <==> forall i :: 0 <= i < |tasks| ==> tasks[i].id != id
    ensures r.Some? ==> exists i :: 0 <= i < |tasks| && tasks[i] == r.value && r.value.id == id
                                    && forall j :: 0 <= j < i ==> tasks[j].id != id
  {
    if tasks == [] then None
    else if tasks[0].id == id then Some(tasks[0])
    else
      var r := FindTask(tasks[1..], id);
      FindTaskShift(tasks, id, r);
      r
  }

  lemma FindTaskShift(tasks: seq<Task>, id: string, r: Option<Task>)
    requires tasks != [] && tasks[0].id != id
    requires r.Some? ==> exists i :: 0 <= i < |tasks[1..]| && tasks[1..][i] == r.value && r.value.id == id
                                    && forall j :: 0 <= j < i ==> tasks[1..][j].id != id
    ensures r.Some? ==> exists i :: 0 <= i < |tasks| && tasks[i] == r.value && r.value.id == id
                                    && forall j :: 0 <= j < i ==> tasks[j].id != id
  {
    if r.Some? {
      var i :| 0 <= i < |tasks[1..]| && tasks[1..][i] == r.value && r.value.id == id
               && forall j :: 0 <= j < i ==> tasks[1..][j].id != id;
      assert tasks[i + 1] == r.value;
      forall j | 0 <= j < i + 1 ensures tasks[j].id != id {
        if j > 0 { assert tasks[j] == tasks[1..][j - 1]; }
      }
    }
  }

  // ----- Update and delete ---------------------------------------------------

  /** `prev.map((t: Task) => t.id === id ? {...t, ...updates} : t)`. */
  function Updated(tasks: seq<Task>, id: string, p: TaskPatch): (r: seq<Task>)
    ensures |r| == |tasks|
    ensures forall i :: 0 <= i < |tasks| && tasks[i].id != id ==> r[i] == tasks[i]
    ensures forall i :: 0 <= i < |tasks| && tasks[i].id == id ==> r[i] == ApplyPatch(tasks[i], p)
  {
    Map(tasks, (t: Task) => if t.id == id then ApplyPatch(t, p) else t)
  }

  /** An unknown id leaves the list as it is. */
  lemma UpdateUnknownId(tasks: seq<Task>, id: string, p: TaskPatch)
    requires forall i :: 0 <= i < |tasks| ==> tasks[i].id != id
    ensures Updated(tasks, id, p) == tasks
  {
  }

  /** Applying the same update twice is applying it once. */
  lemma UpdateIdempotent(tasks: seq<Task>, id: string, p: TaskPatch)
    ensures Updated(Updated(tasks, id, p), id, p) == Updated(tasks, id, p)
  {
    var once := Updated(tasks, id, p);
    forall i | 0 <= i < |tasks|
      ensures Updated(once, id, p)[i] == once[i]
    {
      ApplyPatchLaws(tasks[i], tasks[i], p);
    }
  }

  /** `prev.filter((t: Task) => t.id !== id)`. */
  function Deleted(tasks: seq<Task>, id: string): (r: seq<Task>)
    ensures |r| <= |tasks| && IsSubsequence(r, tasks)
    ensures forall t :: t in r <==> t in tasks && t.id != id
    ensures forall t :: multiset(r)[t] == if t.id != id then multiset(tasks)[t] else 0
  {
    var keep := (t: Task) => t.id != id;
    FilterMembers(tasks, keep);
    Filter(tasks, keep)
  }

  /** Deleting is idempotent, and deleting an unknown id changes nothing. */
  lemma DeleteLaws(tasks: seq<Task>, id: string)
    ensures Deleted(Deleted(tasks, id), id) == Deleted(tasks, id)
    ensures (forall t :: t in tasks ==> t.id != id) ==> Deleted(tasks, id) == tasks
  {
    FilterIdempotent(tasks, (t: Task) => t.id != id);
    if forall t :: t in tasks ==> t.id != id {
      FilterKeepsAll(tasks, (t: Task) => t.id != id);
    }
  }

  // ----- Status --------------------------------------------------------------

  function Flipped(s: Status): Status {
    if s == Completed then Pending else Completed
  }

  /** `{...t, status: newStatus}` on every task with the id. */
  function Toggled(tasks: seq<Task>, id: string): (r: seq<Task>)
    ensures |r| == |tasks|
    ensures forall i :: 0 <= i < |tasks| ==>
              r[i] == if tasks[i].id == id then tasks[i].(status := Flipped(tasks[i].status)) else tasks[i]
  {
    Map(tasks, (t: Task) => if t.id == id then t.(status := Flipped(t.status)) else t)
  }

  /** Looking the id up after a toggle finds the same first task, its status flipped. */
  lemma {:induction false} FindToggled(tasks: seq<Task>, id: string)
    ensures FindTask(Toggled(tasks, id), id).None? <==> FindTask(tasks, id).None?
    ensures FindTask(tasks, id).Some? ==>
              var t := FindTask(tasks, id).value;
              FindTask(Toggled(tasks, id), id) == Some(t.(status := Flipped(t.status)))
    decreases |tasks|
  {
    if tasks != [] {
      var r := Toggled(tasks, id);
      assert r[1..] == Toggled(tasks[1..], id);
      FindToggled(tasks[1..], id);
    }
  }

  /** Toggling twice restores every status. */
  lemma ToggleTwice(tasks: seq<Task>, id: string)
    ensures Toggled(Toggled(tasks, id), id) == tasks
  {
    var twice := Toggled(Toggled(tasks, id), id);
    assert forall i :: 0 <= i < |tasks| ==> twice[i] == tasks[i];
  }

  predicate HasActiveRecurrence(t: Task) {
    t.recurrence.Some? && t.recurrence.value.rtype != NoRecurrence
  }

  /**
   * The tasks for which toggling schedules `createRecurringTask`: those with
   * the id that become completed and recur. Each is passed as it was before
   * the toggle.
   */
  function RecurrenceSources(tasks: seq<Task>, id: string): (r: seq<Task>)
    ensures forall t :: t in r <==> t in tasks && t.id == id && t.status == Pending && HasActiveRecurrence(t)
  {
    var recurs := (t: Task) => t.id == id && t.status == Pending && HasActiveRecurrence(t);
    FilterMembers(tasks, recurs);
    Filter(tasks, recurs)
  }

  // ----- Recurrence ----------------------------------------------------------

  /**
   * The next due date: daily +1 day, weekly +7 days, monthly +1 month rolled
   * by `setMonth`, custom `interval || 1` days. `None` without a recurrence,
   * for type none, or when the due date is not a calendar date.
   */
  function NextDueDate(t: Task): (r: Option<Date>)
    ensures r.Some? <==> HasActiveRecurrence(t) && ValidDate(t.dueDate)
    ensures r.Some? ==> ValidDate(r.value)
    ensures r.Some? && t.recurrence.value.rtype == Daily ==> DayNumber(r.value) == DayNumber(t.dueDate) + 1
    ensures r.Some? && t.recurrence.value.rtype == Weekly ==> DayNumber(r.value) == DayNumber(t.dueDate) + 7
    ensures r.Some? && t.recurrence.value.rtype == Custom ==>
              DayNumber(r.value) == DayNumber(t.dueDate) + IntOr(t.recurrence.value.interval, 1)
    ensures r.Some? && t.recurrence.value.rtype == Monthly ==>
              (var ym := RollMonths(t.dueDate.year, t.dueDate.month + 1);
               DayNumber(r.value) == DayNumber(Date(ym.0, ym.1, 1)) + t.dueDate.day - 1)
  {
    if !HasActiveRecurrence(t) || !ValidDate(t.dueDate) then None
    else
      var due := t.dueDate;
      match t.recurrence.value.rtype
      case Daily => Some(AddDays(due, 1))
      case Weekly => Some(AddDays(due, 7))
      case Monthly => Some(AddMonths(due, 1))
      case Custom => Some(AddDays(due, IntOr(t.recurrence.value.interval, 1)))
  }

  /** `{...reminder, notified: false}`. */
  function ResetReminder(r: Option<Reminder>): Option<Reminder> {
    if r.Some? then Some(r.value.(notified := Some(false))) else None
  }

  /** The end date cuts off only a next date strictly after it. */
  predicate PastEndDate(t: Task, next: Date)
    requires HasActiveRecurrence(t) && ValidDate(next)
  {
    var end := t.recurrence.value.endDate;
    end.Some? && ValidDate(end.value) && DayNumber(next) > DayNumber(end.value)
  }

  /**
   * `createRecurringTask`'s draft: the next occurrence of a completed task,
   * or `None` when nothing is created.
   */
  function NextOccurrence(t: Task): (r: Option<TaskDraft>)
    ensures r.Some? <==> NextDueDate(t).Some? && !PastEndDate(t, NextDueDate(t).value)
    ensures r.Some? ==> r.value.dueDate == NextDueDate(t).value
  {
    match NextDueDate(t)
    case None => None
    case Some(next) =>
      if PastEndDate(t, next) then None
      else Some(TaskDraft(t.title, t.description, next, t.dueTime, t.priority, t.category, t.tags,
                          None, None, t.addToCalendar, t.recurrence, ResetReminder(t.reminder)))
  }

  /**
   * The occurrence copies title, description, time, priority, category, tags,
   * calendar flag and recurrence; it has no subtasks or notes; a reminder keeps
   * its time and enabled flag and is no longer notified.
   */
  lemma NextOccurrenceCopies(t: Task)
    requires NextOccurrence(t).Some?
    ensures var d := NextOccurrence(t).value;
      && d.title == t.title && d.description == t.description && d.dueTime == t.dueTime
      && d.priority == t.priority && d.category == t.category && d.tags == t.tags
      && d.addToCalendar == t.addToCalendar && d.recurrence == t.recurrence
      && d.subtasks.None? && d.notes.None?
      && d.reminder.Some? == t.reminder.Some?
      && (d.reminder.Some? ==>
            d.reminder.value == t.reminder.value.(notified := Some(false)))
  {
  }

  // ----- Reminders -----------------------------------------------------------

  /** A reminder fires for a pending task whose enabled, unnotified reminder time has come. */
  predicate ReminderDue(t: Task, now: int) {
    && t.status != Completed
    && t.reminder.Some?
    && t.reminder.value.enabled
    && t.reminder.value.notified != Some(true)
    && t.reminder.value.time.Some?
    && now >= t.reminder.value.time.value
  }

  function MarkNotified(t: Task): Task
    requires t.reminder.Some?
  {
    t.(reminder := Some(t.reminder.value.(notified := Some(true))))
  }

  /** One reminder scan at instant `now`. */
  function Scanned(tasks: seq<Task>, now: int): (r: seq<Task>)
    ensures |r| == |tasks|
    ensures forall i :: 0 <= i < |tasks| ==>
              r[i] == if ReminderDue(tasks[i], now) then MarkNotified(tasks[i]) else tasks[i]
  {
    Map(tasks, (t: Task) => if ReminderDue(t, now) then MarkNotified(t) else t)
  }

  /**
   * A scan changes only the reminders that are due, and only their
   * `notified` flag, which becomes true.
   */
  lemma ScanChangesOnlyDueReminders(tasks: seq<Task>, now: int, i: int)
    requires 0 <= i < |tasks|
    ensures var t, u := tasks[i], Scanned(tasks, now)[i];
      && (u != t <==> ReminderDue(t, now))
      && u.(reminder := t.reminder) == t
      && (u != t ==> u.reminder.value == t.reminder.value.(notified := Some(true)))
  {
    var t := tasks[i];
    if ReminderDue(t, now) {
      assert MarkNotified(t).reminder.value.notified != t.reminder.value.notified;
    }
  }

  /**
   * A scan at `n1` followed by one at a later `n2` equals one scan at `n2`:
   * nothing is notified twice, and a second scan at the same instant
   * changes nothing.
   */
  lemma ScanCompose(tasks: seq<Task>, n1: int, n2: int)
    requires n1 <= n2
    ensures Scanned(Scanned(tasks, n1), n2) == Scanned(tasks, n2)
    ensures Scanned(Scanned(tasks, n1), n1) == Scanned(tasks, n1)
  {
  }

  // ----- Views ---------------------------------------------------------------

  /** Due on day `today` and not completed. */
  predicate IsDueToday(t: Task, today: int) {
    ValidDate(t.dueDate) && DayNumber(t.dueDate) == today && t.status != Completed
  }

  /** Due after `today` and at most seven days later, and not completed. */
  predicate IsUpcoming(t: Task, today: int) {
    ValidDate(t.dueDate) && today < DayNumber(t.dueDate) <= today + 7 && t.status != Completed
  }

  function DueTodayAt(today: int): Task -> bool {
    (t: Task) => IsDueToday(t, today)
  }

  function UpcomingAt(today: int): Task -> bool {
    (t: Task) => IsUpcoming(t, today)
  }

  predicate IsCompleted(t: Task) {
    t.status == Completed
  }

  function Rank(p: Priority): nat {
    match p
    case High => 0
    case Medium => 1
    case Low => 2
  }

  predicate IsOpen(t: Task) {
    t.status != Completed
  }

  function HasPriority(p: Priority): Task -> bool {
    (t: Task) => t.priority == p
  }

  /** The open tasks, high first, then medium, then low, ties in list order: what a stable sort by rank gives. */
  function ByPriority(tasks: seq<Task>): seq<Task> {
    var open := Filter(tasks, IsOpen);
    Filter(open, HasPriority(High)) + Filter(open, HasPriority(Medium)) + Filter(open, HasPriority(Low))
  }

  /** `getFilteredTasks(filter)` with `today` the current day number; an unknown filter returns everything. */
  function FilteredTasks(tasks: seq<Task>, filter: string, today: int): seq<Task> {
    if filter == "today" then Filter(tasks, DueTodayAt(today))
    else if filter == "upcoming" then Filter(tasks, UpcomingAt(today))
    else if filter == "completed" then Filter(tasks, IsCompleted)
    else if filter == "priority" then ByPriority(tasks)
    else tasks
  }

  /** The today, upcoming and completed views keep exactly the matching tasks, in order. */
  lemma FilteredTasksMembership(tasks: seq<Task>, today: int, t: Task)
    ensures t in FilteredTasks(tasks, "today", today) <==> t in tasks && IsDueToday(t, today)
    ensures t in FilteredTasks(tasks, "upcoming", today) <==> t in tasks && IsUpcoming(t, today)
    ensures t in FilteredTasks(tasks, "completed", today) <==> t in tasks && t.status == Completed
    ensures IsSubsequence(FilteredTasks(tasks, "today", today), tasks)
    ensures IsSubsequence(FilteredTasks(tasks, "upcoming", today), tasks)
    ensures IsSubsequence(FilteredTasks(tasks, "completed", today), tasks)
    ensures FilteredTasks(tasks, "all", today) == tasks
  {
    FilterMembers(tasks, DueTodayAt(today));
    FilterMembers(tasks, UpcomingAt(today));
    FilterMembers(tasks, IsCompleted);
  }

  /** A completed task due today is in the completed view and not in the today view. */
  lemma CompletedTodayExcluded(tasks: seq<Task>, today: int, t: Task)
    requires t in tasks && t.status == Completed && ValidDate(t.dueDate) && DayNumber(t.dueDate) == today
    ensures t !in FilteredTasks(tasks, "today", today)
    ensures t in FilteredTasks(tasks, "completed", today)
  {
    FilteredTasksMembership(tasks, today, t);
  }

  /** The priority view is ordered high, medium, low. */
  lemma ByPrioritySorted(tasks: seq<Task>)
    ensures var r := ByPriority(tasks);
            forall i, j :: 0 <= i < j < |r| ==> Rank(r[i].priority) <= Rank(r[j].priority)
  {
    var open := Filter(tasks, IsOpen);
    var h, m, l := Filter(open, HasPriority(High)), Filter(open, HasPriority(Medium)),
                   Filter(open, HasPriority(Low));
    var r := h + m + l;
    forall i | 0 <= i < |r|
      ensures Rank(r[i].priority) == if i < |h| then 0 else if i < |h| + |m| then 1 else 2
    {
      if i < |h| {
        assert r[i] == h[i] && HasPriority(High)(h[i]);
      } else if i < |h| + |m| {
        assert r[i] == m[i - |h|] && HasPriority(Medium)(m[i - |h|]);
      } else {
        assert r[i] == l[i - |h| - |m|] && HasPriority(Low)(l[i - |h| - |m|]);
      }
    }
  }

  /** Splitting a sequence three ways by priority loses and invents nothing. */
  lemma {:induction false} PriorityPartition(s: seq<Task>)
    ensures multiset(Filter(s, HasPriority(High)) + Filter(s, HasPriority(Medium))
                     + Filter(s, HasPriority(Low))) == multiset(s)
    decreases |s|
  {
    if s != [] {
      PriorityPartition(s[1..]);
      assert s == [s[0]] + s[1..];
    }
  }

  /**
   * The priority view is a permutation of the open tasks, and within each
   * priority it keeps list order (the sort is stable).
   */
  lemma ByPriorityPermutation(tasks: seq<Task>)
    ensures multiset(ByPriority(tasks)) == multiset(Filter(tasks, IsOpen))
  {
    PriorityPartition(Filter(tasks, IsOpen));
  }

  lemma ByPriorityStable(tasks: seq<Task>, p: Priority)
    ensures Filter(ByPriority(tasks), HasPriority(p)) == Filter(Filter(tasks, IsOpen), HasPriority(p))
  {
    var open := Filter(tasks, IsOpen);
    var h, m, l := Filter(open, HasPriority(High)), Filter(open, HasPriority(Medium)),
                   Filter(open, HasPriority(Low));
    FilterConcat(h + m, l, HasPriority(p));
    FilterConcat(h, m, HasPriority(p));
    SamePriorityClass(open, High, p);
    SamePriorityClass(open, Medium, p);
    SamePriorityClass(open, Low, p);
  }

  /** Filtering one priority class by priority `p` keeps it all when `q == p` and nothing otherwise. */
  lemma SamePriorityClass(s: seq<Task>, q: Priority, p: Priority)
    ensures Filter(Filter(s, HasPriority(q)), HasPriority(p)) == if q == p then Filter(s, HasPriority(p)) else []
  {
    var c := Filter(s, HasPriority(q));
    if q == p {
      FilterKeepsAll(c, HasPriority(p));
    } else {
      FilterKeepsNone(c, HasPriority(p));
    }
  }

  /** `'all'` or one category. */
  datatype CategoryChoice = AllCategories | OnlyCategory(category: Category)

  /** `getTasksByCategory`: the identity for `'all'`, else the tasks of that category in order. */
  function TasksByCategory(tasks: seq<Task>, choice: CategoryChoice): (r: seq<Task>)
    ensures choice.AllCategories? ==> r == tasks
    ensures choice.OnlyCategory? ==> IsSubsequence(r, tasks)
    ensures choice.OnlyCategory? ==> forall t :: t in r <==> t in tasks && t.category == choice.category
    ensures choice.OnlyCategory? ==>
              forall t :: multiset(r)[t] == if t.category == choice.category then multiset(tasks)[t] else 0
  {
    if choice.AllCategories? then tasks
    else
      var inCategory := (t: Task) => t.category == choice.category;
      FilterMembers(tasks, inCategory);
      Filter(tasks, inCategory)
  }

  // ----- The store -----------------------------------------------------------

  /** The provider's `tasks` state; every mutation replaces the list. */
  class Store {
    var tasks: seq<Task>

    /** The saved list when the storage key is present, else the seed tasks. */
    constructor (saved: Option<seq<Task>>, seed: seq<Task>)
      ensures tasks == if saved.Some? then saved.value else seed
    {
      tasks := if saved.Some? then saved.value else seed;
    }

    /** Appends the draft as a pending task with the given id and creation time. */
    method AddTask(draft: TaskDraft, id: string, createdAt: int)
      modifies this
      ensures tasks == old(tasks) + [FromDraft(draft, id, createdAt)]
    {
      tasks := tasks + [FromDraft(draft, id, createdAt)];
    }

    method UpdateTask(id: string, patch: TaskPatch)
      modifies this
      ensures tasks == Updated(old(tasks), id, patch)
    {
      tasks := Updated(tasks, id, patch);
    }

    /** Removes every task with the id; `found` says whether there was one (the deletion notice). */
    method DeleteTask(id: string) returns (found: bool)
      modifies this
      ensures tasks == Deleted(old(tasks), id)
      ensures found <==> FindTask(old(tasks), id).Some?
    {
      found := FindTask(tasks, id).Some?;
      tasks := Deleted(tasks, id);
    }

    function GetTaskById(id: string): (r: Option<Task>)
      reads this
      ensures r.Some? ==> r.value in tasks && r.value.id == id
      ensures r.None? ==> forall t :: t in tasks ==> t.id != id
      ensures r.Some? ==> exists k :: 0 <= k < |tasks| && tasks[k] == r.value
                                      && forall j :: 0 <= j < k ==> tasks[j].id != id
    {
      FindTask(tasks, id)
    }

    /**
     * Flips the status of the tasks with the id; returns the tasks whose next
     * occurrence is scheduled (in their state before the flip).
     */
    method ToggleTaskStatus(id: string) returns (scheduled: seq<Task>)
      modifies this
      ensures tasks == Toggled(old(tasks), id)
      ensures scheduled == RecurrenceSources(old(tasks), id)
    {
      scheduled := RecurrenceSources(tasks, id);
      tasks := Toggled(tasks, id);
    }

    /** Adds the next occurrence of `completed` unless there is none or it is past the end date. */
    method CreateRecurringTask(completed: Task, id: string, createdAt: int) returns (created: bool)
      modifies this
      ensures created <==> NextOccurrence(completed).Some?
      ensures tasks == if created then old(tasks) + [FromDraft(NextOccurrence(completed).value, id, createdAt)]
                       else old(tasks)
    {
      var next := NextOccurrence(completed);
      created := next.Some?;
      if created {
        AddTask(next.value, id, createdAt);
      }
    }

    /** Marks every due reminder as notified. */
    method CheckReminders(now: int)
      modifies this
      ensures tasks == Scanned(old(tasks), now)
    {
      tasks := Scanned(tasks, now);
    }
  }
}
