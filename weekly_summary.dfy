/**
 * The weekly summary card: the Sunday-to-Saturday window around now, the
 * tasks due in it, their completion rate, the per-category groups and the
 * recently completed list.
 */
module WeeklySummary {
  import opened Dates
  import opened Seqs
  import opened TaskTypes
  import opened TaskStore

  /** `getWeekDates`: Sunday 00:00:00.000 to Saturday 23:59:59.999 of the week holding `now` (milliseconds). */
  function WeekWindow(now: int): (w: (int, int))
    ensures w.0 <= now <= w.1
    ensures w.1 == w.0 + 7 * DAY_MS - 1
    ensures w.0 % DAY_MS == 0 && Weekday(w.0 / DAY_MS) == 0
  {
    var today := now / DAY_MS;
    var start := (today - Weekday(today)) * DAY_MS;
    SundayOfWeek(today);
    (start, start + 7 * DAY_MS - 1)
  }

  lemma SundayOfWeek(n: int)
    ensures Weekday(n - Weekday(n)) == 0
  {
    var q := n + 4;
    assert q == 7 * (q / 7) + q % 7;
    assert n - Weekday(n) + 4 == 7 * (q / 7);
  }

  /** A task's due date read as `new Date(dueDate)` falls inside the window; an invalid date never does. */
  predicate InWeek(t: Task, now: int) {
    var w := WeekWindow(now);
    ValidDate(t.dueDate) && w.0 <= StartOfDay(t.dueDate) <= w.1
  }

  /** In the window exactly when the due day is one of the seven days from that Sunday. */
  lemma InWeekByDays(t: Task, now: int)
    requires ValidDate(t.dueDate)
    ensures var sunday := WeekWindow(now).0 / DAY_MS;
            InWeek(t, now) <==> sunday <= DayNumber(t.dueDate) <= sunday + 6
  {
    var w := WeekWindow(now);
    var sunday := w.0 / DAY_MS;
    assert w.0 == sunday * DAY_MS;
    var d := DayNumber(t.dueDate);
    if sunday <= d <= sunday + 6 {
      assert w.0 <= d * DAY_MS;
      assert d * DAY_MS <= (sunday + 6) * DAY_MS;
    } else if d < sunday {
      assert d * DAY_MS <= (sunday - 1) * DAY_MS;
    } else {
      assert d * DAY_MS >= (sunday + 7) * DAY_MS;
    }
  }

  /** `getWeeklyTasks`: the tasks due this week, in list order. */
  function WeeklyTasks(tasks: seq<Task>, now: int): (r: seq<Task>)
    ensures IsSubsequence(r, tasks)
    ensures forall t :: t in r <==> t in tasks && InWeek(t, now)
    ensures forall t :: multiset(r)[t] == if InWeek(t, now) then multiset(tasks)[t] else 0
  {
    var inWeek := (t: Task) => InWeek(t, now);
    FilterMembers(tasks, inWeek);
    Filter(tasks, inWeek)
  }

  /**
   * `Math.round(completed / total * 100)`, or 0 with no tasks: the nearest
   * whole percentage, halves rounding up.
   */
  function CompletionRate(completed: int, total: int): (r: int)
    requires 0 <= completed <= total
    ensures total == 0 ==> r == 0
    ensures 0 <= r <= 100
    ensures total > 0 ==> -total < 2 * (r * total - 100 * completed) <= total
    ensures total > 0 && completed == total ==> r == 100
    ensures completed == 0 ==> r == 0
  {
    if total == 0 then 0
    else
      var r := (200 * completed + total) / (2 * total);
      RoundingBounds(completed, total, r);
      r
  }

  lemma RoundingBounds(completed: int, total: int, r: int)
    requires 0 <= completed <= total && 0 < total && r == (200 * completed + total) / (2 * total)
    ensures 0 <= r <= 100
    ensures -total < 2 * (r * total - 100 * completed) <= total
    ensures completed == total ==> r == 100
    ensures completed == 0 ==> r == 0
  {
    var n, d := 200 * completed + total, 2 * total;
    var m := n % d;
    assert n == d * r + m && 0 <= m < d;
    assert r * d == 2 * (r * total);
    assert 2 * (r * total - 100 * completed) == total - m;
    if r < 0 {
      MulMono(r, -1, total);
    }
    if r > 100 {
      MulMono(101, r, total);
    }
    if completed == total {
      if r < 100 {
        MulMono(r, 99, total);
      }
    }
    if completed == 0 && r > 0 {
      MulMono(1, r, total);
    }
  }

  lemma MulMono(a: int, b: int, t: int)
    requires a <= b && 0 < t
    ensures a * t <= b * t
  {
  }

  /** The weekly tasks that are completed, in list order. */
  function CompletedTasks(weekly: seq<Task>): (r: seq<Task>)
    ensures |r| <= |weekly| && IsSubsequence(r, weekly)
    ensures forall t :: t in r <==> t in weekly && t.status == Completed
    ensures forall t :: multiset(r)[t] == if t.status == Completed then multiset(weekly)[t] else 0
  {
    FilterMembers(weekly, IsCompleted);
    Filter(weekly, IsCompleted)
  }

  /** "Recently Completed": the first three completed weekly tasks at most. */
  function RecentlyCompleted(weekly: seq<Task>): (r: seq<Task>)
    ensures |r| <= 3 && |r| <= |CompletedTasks(weekly)|
    ensures r == CompletedTasks(weekly)[..|r|]
    ensures |r| == 3 || r == CompletedTasks(weekly)
  {
    Take(CompletedTasks(weekly), 3)
  }

  /** One entry of the grouping: a category and its tasks. */
  datatype Group = Group(category: Category, tasks: seq<Task>)

  function InCategory(c: Category): Task -> bool {
    (t: Task) => t.category == c
  }

  /** The categories of `ts` in order of first appearance, each once. */
  function CategoryOrder(ts: seq<Task>): (r: seq<Category>)
    ensures forall i, j :: 0 <= i < j < |r| ==> r[i] != r[j]
    ensures forall c :: c in r <==> exists t :: t in ts && t.category == c
    decreases |ts|
  {
    if ts == [] then []
    else
      var init := ts[..|ts| - 1];
      var last := ts[|ts| - 1];
      var r := CategoryOrder(init);
      assert forall t :: t in ts <==> t in init || t == last;
      if last.category in r then r else r + [last.category]
  }

  /**
   * First-appearance order: the categories met in any prefix of the list
   * come first, in the same order, so a category seen earlier is listed
   * earlier.
   */
  lemma {:induction false} CategoryOrderPrefix(ts: seq<Task>, p: nat)
    requires p <= |ts|
    ensures var before := CategoryOrder(ts[..p]);
            |before| <= |CategoryOrder(ts)| && before == CategoryOrder(ts)[..|before|]
    decreases |ts|
  {
    if p < |ts| {
      var init := ts[..|ts| - 1];
      assert init[..p] == ts[..p];
      CategoryOrderPrefix(init, p);
    } else {
      assert ts[..p] == ts;
    }
  }

  /** `groups` lists the categories of `ts` in first-appearance order, each with its tasks in order. */
  predicate Grouped(groups: seq<Group>, ts: seq<Task>) {
    var order := CategoryOrder(ts);
    && |groups| == |order|
    && (forall k :: 0 <= k < |groups| ==> groups[k].category == order[k])
    && (forall k :: 0 <= k < |groups| ==> groups[k].tasks == Filter(ts, InCategory(groups[k].category)))
  }

  /**
   * The `reduce` into a record keyed by category: each task is pushed onto
   * its category's list, a new list being opened at the category's first
   * appearance (record keys keep insertion order).
   */
  method GroupByCategory(tasks: seq<Task>) returns (groups: seq<Group>)
    ensures Grouped(groups, tasks)
  {
    groups := [];
    var i := 0;
    while i < |tasks|
      invariant 0 <= i <= |tasks|
      invariant Grouped(groups, tasks[..i])
    {
      var t := tasks[i];
      assert tasks[..i + 1] == tasks[..i] + [t];
      var j := FindGroup(groups, t.category);
      if j < |groups| {
        PushKeepsGrouped(tasks[..i], t, groups, j);
        groups := groups[j := Group(t.category, groups[j].tasks + [t])];
      } else {
        OpenKeepsGrouped(tasks[..i], t, groups);
        groups := groups + [Group(t.category, [t])];
      }
      i := i + 1;
    }
    assert tasks[..i] == tasks;
  }

  /** `acc[category]`: the index of the category's group, or `|groups|` when it has none yet. */
  method FindGroup(groups: seq<Group>, c: Category) returns (j: int)
    ensures 0 <= j <= |groups|
    ensures j < |groups| ==> groups[j].category == c
    ensures j == |groups| ==> forall k :: 0 <= k < |groups| ==> groups[k].category != c
  {
    j := 0;
    while j < |groups| && groups[j].category != c
      invariant 0 <= j <= |groups|
      invariant forall k :: 0 <= k < j ==> groups[k].category != c
    {
      j := j + 1;
    }
  }

  lemma PushKeepsGrouped(ts: seq<Task>, t: Task, groups: seq<Group>, j: int)
    requires Grouped(groups, ts) && 0 <= j < |groups| && groups[j].category == t.category
    ensures Grouped(groups[j := Group(t.category, groups[j].tasks + [t])], ts + [t])
  {
    var next := groups[j := Group(t.category, groups[j].tasks + [t])];
    assert (ts + [t])[..|ts|] == ts;
    assert t.category in CategoryOrder(ts);
    assert CategoryOrder(ts + [t]) == CategoryOrder(ts);
    forall k | 0 <= k < |next|
      ensures next[k].tasks == Filter(ts + [t], InCategory(next[k].category))
    {
      FilterAppend(ts, t, InCategory(next[k].category));
    }
  }

  lemma OpenKeepsGrouped(ts: seq<Task>, t: Task, groups: seq<Group>)
    requires Grouped(groups, ts) && forall k :: 0 <= k < |groups| ==> groups[k].category != t.category
    ensures Grouped(groups + [Group(t.category, [t])], ts + [t])
  {
    var next := groups + [Group(t.category, [t])];
    assert (ts + [t])[..|ts|] == ts;
    assert t.category !in CategoryOrder(ts);
    assert CategoryOrder(ts + [t]) == CategoryOrder(ts) + [t.category];
    FilterKeepsNone(ts, InCategory(t.category));
    forall k | 0 <= k < |next|
      ensures next[k].tasks == Filter(ts + [t], InCategory(next[k].category))
    {
      FilterAppend(ts, t, InCategory(next[k].category));
    }
  }

  /** Every weekly task is in exactly one group, its own category's. */
  lemma GroupsPartition(tasks: seq<Task>, groups: seq<Group>, t: Task)
    requires Grouped(groups, tasks) && t in tasks
    ensures exists k :: 0 <= k < |groups| && groups[k].category == t.category && t in groups[k].tasks
    ensures forall k :: 0 <= k < |groups| && t in groups[k].tasks ==> groups[k].category == t.category
  {
    var order := CategoryOrder(tasks);
    assert t.category in order;
    var k :| 0 <= k < |order| && order[k] == t.category;
    FilterMembers(tasks, InCategory(t.category));
    forall k' | 0 <= k' < |groups| && t in groups[k'].tasks
      ensures groups[k'].category == t.category
    {
      FilterMembers(tasks, InCategory(groups[k'].category));
    }
  }

  /** A category line's `completed/total`: the completed count never exceeds the group. */
  function CategoryProgress(g: Group): (r: (nat, nat))
    ensures r.0 <= r.1 == |g.tasks|
    ensures r.0 == |CompletedTasks(g.tasks)|
  {
    (Count(g.tasks, IsCompleted), |g.tasks|)
  }
}
