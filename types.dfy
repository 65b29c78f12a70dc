/**
 * The task record and its enumerations. Optional properties are `Option`s
 * (`None` is a missing or `undefined` property), calendar dates are `Date`
 * records and ISO timestamps are milliseconds.
 */
module TaskTypes {
  import opened Options
  import opened Dates

  datatype Priority = Low | Medium | High

  datatype Status = Pending | Completed

  datatype Category = Brand | Personal | Gym | Content | Uncategorized

  datatype RecurrenceType = NoRecurrence | Daily | Weekly | Monthly | Custom

  /** The enum's string value, which the pages compare against filter keys. */
  function CategoryName(c: Category): string {
    match c
    case Brand => "brand"
    case Personal => "personal"
    case Gym => "gym"
    case Content => "content"
    case Uncategorized => "uncategorized"
  }

  lemma CategoryNameInjective(a: Category, b: Category)
    ensures CategoryName(a) == CategoryName(b) ==> a == b
  {
  }

  datatype SubTask = SubTask(id: string, title: string, completed: bool)

  /** `interval` counts days for the custom type; both parts are optional. */
  datatype Recurrence = Recurrence(rtype: RecurrenceType, interval: Option<int>, endDate: Option<Date>)

  /** `time` is the reminder instant in milliseconds; `notified` is optional and falsy when absent. */
  datatype Reminder = Reminder(enabled: bool, time: Option<int>, notified: Option<bool>)

  datatype Task = Task(
    id: string,
    title: string,
    description: Option<string>,
    dueDate: Date,
    dueTime: Option<string>,
    priority: Priority,
    status: Status,
    category: Category,
    tags: Option<seq<string>>,
    subtasks: Option<seq<SubTask>>,
    notes: Option<string>,
    addToCalendar: Option<bool>,
    createdAt: int,
    recurrence: Option<Recurrence>,
    reminder: Option<Reminder>)

  /** What `addTask` receives: a task without `id`, `createdAt` and `status`. */
  datatype TaskDraft = TaskDraft(
    title: string,
    description: Option<string>,
    dueDate: Date,
    dueTime: Option<string>,
    priority: Priority,
    category: Category,
    tags: Option<seq<string>>,
    subtasks: Option<seq<SubTask>>,
    notes: Option<string>,
    addToCalendar: Option<bool>,
    recurrence: Option<Recurrence>,
    reminder: Option<Reminder>)

  /**
   * `Partial<Task>`: `None` is a key the object does not have, `Some(v)` a key
   * it has with value `v` (for an optional field `v` may itself be `None`,
   * a key explicitly set to `undefined`).
   */
  datatype TaskPatch = TaskPatch(
    id: Option<string>,
    title: Option<string>,
    description: Option<Option<string>>,
    dueDate: Option<Date>,
    dueTime: Option<Option<string>>,
    priority: Option<Priority>,
    status: Option<Status>,
    category: Option<Category>,
    tags: Option<Option<seq<string>>>,
    subtasks: Option<Option<seq<SubTask>>>,
    notes: Option<Option<string>>,
    addToCalendar: Option<Option<bool>>,
    createdAt: Option<int>,
    recurrence: Option<Option<Recurrence>>,
    reminder: Option<Option<Reminder>>)

  /** A JavaScript truthiness test on an optional string: absent and `""` are falsy. */
  predicate IsSetText(s: Option<string>) {
    s.Some? && s.value != ""
  }
}
