/**
 * The tasks page: the list shown for the chosen filter tab and category
 * chip, and the empty-state texts when that list is empty.
 */
module TasksPage {
  import opened Seqs
  import opened TaskTypes
  import opened TaskStore

  const COMPLETED_FILTER: string := "completed"

  const TITLE_NO_COMPLETED: string := "No completed tasks"
  const TITLE_NO_TASKS: string := "No tasks found"
  const ICON_COMPLETED: string := "lucide:check-circle"
  const ICON_LIST: string := "lucide:clipboard-list"
  const TEXT_NONE_COMPLETED: string := "You haven't completed any tasks yet. Keep going!"
  const TEXT_NO_MATCH: string := "There are no tasks matching your current filter. Try creating a new task."

  /**
   * The page's `filteredTasks`: the store's view for the filter tab, then,
   * unless the chip is `'all'`, only the tasks of the chosen category, in
   * the view's order.
   */
  function VisibleTasks(tasks: seq<Task>, filter: string, choice: CategoryChoice, today: int): (r: seq<Task>)
    ensures choice.AllCategories? ==> r == FilteredTasks(tasks, filter, today)
    ensures choice.OnlyCategory? ==> IsSubsequence(r, FilteredTasks(tasks, filter, today))
    ensures choice.OnlyCategory? ==>
              forall t :: t in r <==> t in FilteredTasks(tasks, filter, today) && t.category == choice.category
    ensures choice.OnlyCategory? ==>
              forall t :: multiset(r)[t] == if t.category == choice.category
                                            then multiset(FilteredTasks(tasks, filter, today))[t] else 0
  {
    TasksByCategory(FilteredTasks(tasks, filter, today), choice)
  }

  /** A task is listed under the completed tab and a category chip exactly when it is completed and in that category. */
  lemma CompletedInCategory(tasks: seq<Task>, c: Category, today: int, t: Task)
    ensures t in VisibleTasks(tasks, COMPLETED_FILTER, OnlyCategory(c), today)
            <==> t in tasks && t.status == Completed && t.category == c
  {
    FilteredTasksMembership(tasks, today, t);
  }

  /** Under the today tab and a chip: due today, open, and in that category. */
  lemma TodayInCategory(tasks: seq<Task>, c: Category, today: int, t: Task)
    ensures t in VisibleTasks(tasks, "today", OnlyCategory(c), today)
            <==> t in tasks && IsDueToday(t, today) && t.category == c
  {
    FilteredTasksMembership(tasks, today, t);
  }

  /** Under the upcoming tab and a chip: due within the next seven days, open, and in that category. */
  lemma UpcomingInCategory(tasks: seq<Task>, c: Category, today: int, t: Task)
    ensures t in VisibleTasks(tasks, "upcoming", OnlyCategory(c), today)
            <==> t in tasks && IsUpcoming(t, today) && t.category == c
  {
    FilteredTasksMembership(tasks, today, t);
  }

  /** The empty state's icon: a check mark under the completed tab, a list otherwise. */
  function EmptyIcon(filter: string): (r: string)
    ensures r == ICON_COMPLETED <==> filter == COMPLETED_FILTER
    ensures r == ICON_COMPLETED || r == ICON_LIST
  {
    if filter == COMPLETED_FILTER then ICON_COMPLETED else ICON_LIST
  }

  /** The empty state's title: "No completed tasks" under the completed tab, "No tasks found" otherwise. */
  function EmptyTitle(filter: string): (r: string)
    ensures r == TITLE_NO_COMPLETED <==> filter == COMPLETED_FILTER
    ensures r == TITLE_NO_COMPLETED || r == TITLE_NO_TASKS
  {
    assert TITLE_NO_COMPLETED[3] != TITLE_NO_TASKS[3];
    if filter == COMPLETED_FILTER then TITLE_NO_COMPLETED else TITLE_NO_TASKS
  }

  /**
   * The empty state's description. A chosen category wins: the text names
   * the filter and the category; with `'all'`, the completed tab has its
   * own encouragement and every other tab the generic text.
   */
  function EmptyDescription(filter: string, choice: CategoryChoice): (r: string)
  {
    if choice.OnlyCategory? then
      "No " + filter + " tasks in the " + CategoryName(choice.category) + " category."
    else if filter == COMPLETED_FILTER then TEXT_NONE_COMPLETED
    else TEXT_NO_MATCH
  }

  /** With a category chosen the description reads back the filter key and the category name at fixed places. */
  lemma CategoryDescription(filter: string, c: Category)
    ensures var r, name := EmptyDescription(filter, OnlyCategory(c)), CategoryName(c);
            && |r| == |filter| + |name| + 27
            && r[..3] == "No "
            && r[3..3 + |filter|] == filter
            && r[3 + |filter|..17 + |filter|] == " tasks in the "
            && r[17 + |filter|..17 + |filter| + |name|] == name
            && r[17 + |filter| + |name|..] == " category."
  {
    FivePieces("No ", filter, " tasks in the ", CategoryName(c), " category.");
  }

  /** The pieces of a five-part concatenation sit at the sums of the lengths before them. */
  lemma FivePieces(a: string, b: string, c: string, d: string, e: string)
    ensures var r, i, j, k := a + b + c + d + e, |a| + |b|, |a| + |b| + |c|, |a| + |b| + |c| + |d|;
            && |r| == k + |e|
            && r[..|a|] == a && r[|a|..i] == b && r[i..j] == c && r[j..k] == d && r[k..] == e
  {
  }

  /** With `'all'` the description is one of two fixed texts, the encouragement exactly under the completed tab. */
  lemma AllCategoriesDescription(filter: string)
    ensures var r := EmptyDescription(filter, AllCategories);
            && (r == TEXT_NONE_COMPLETED <==> filter == COMPLETED_FILTER)
            && (r == TEXT_NONE_COMPLETED || r == TEXT_NO_MATCH)
  {
    assert |TEXT_NONE_COMPLETED| < 60 < |TEXT_NO_MATCH|;
  }

  /** Two different categories never give the same category description for the same filter. */
  lemma EmptyDescriptionNamesCategory(filter: string, c: Category, d: Category)
    requires EmptyDescription(filter, OnlyCategory(c)) == EmptyDescription(filter, OnlyCategory(d))
    ensures c == d
  {
    CategoryDescription(filter, c);
    CategoryDescription(filter, d);
    var nc, nd := CategoryName(c), CategoryName(d);
    var r := EmptyDescription(filter, OnlyCategory(c));
    assert |nc| == |nd|;
    assert nc == r[17 + |filter|..17 + |filter| + |nc|] == nd;
    CategoryNameInjective(c, d);
  }
}
