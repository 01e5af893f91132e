/** The page of the SQLite-backed to-do app: the task cache, the search
    flag, what the task area shows and the statistics panel. Every answer
    of the server is an input: `None` stands for a failed request. */
module DatabaseClient {
  import opened Text
  import opened Ordering
  import opened TaskStats
  import TaskDatabase

  /** A task as the page receives it; `created_at` may be missing. */
  datatype TaskItem = TaskItem(id: int, title: string, description: string, completed: bool, createdAt: Option<int>)

  /** What the task area shows. */
  datatype View = Loading | EmptyState | TaskList(items: seq<TaskItem>)

  /** The JSON of `/stats`; every field may be `null`. */
  datatype StatsBody = StatsBody(total: Option<int>, completed: Option<int>, active: Option<int>, completionRate: Option<real>)

  datatype Panel = Panel(total: int, active: int, completed: int, rate: RateLabel)

  /** The comparator of `displayTasks`: open tasks first, then the later
      `created_at` first, a missing one counting as 0. */
  function DisplayRank(t: TaskItem): Rank {
    Rank(if t.completed then 1 else 0, -(if t.createdAt.Some? then t.createdAt.value else 0))
  }

  /** `displayTasks`: the empty state for an empty list, otherwise a sorted
      copy in which tasks that tie keep the order they arrived in. */
  function Display(tasks: seq<TaskItem>): (v: View)
    ensures v != Loading
    ensures v == EmptyState <==> tasks == []
    ensures v.TaskList? ==> SortedBy(v.items, DisplayRank) && multiset(v.items) == multiset(tasks)
    ensures v.TaskList? ==> forall g :: WithKey(v.items, DisplayRank, g) == WithKey(tasks, DisplayRank, g)
  {
    SortByStable(tasks, DisplayRank);
    if tasks == [] then EmptyState else TaskList(SortBy(tasks, DisplayRank))
  }

  /** `x || 0` on a number that may be `null`. */
  function OrZero(x: Option<int>): int {
    if x.Some? then x.value else 0
  }

  /** `loadStats`: missing counts show as 0, a missing or zero rate as
      `'0%'`. */
  function PanelOf(s: StatsBody): (p: Panel)
    ensures p.rate == ZeroPercent <==> s.completionRate.None? || s.completionRate.value == 0.0
    ensures s.total.None? ==> p.total == 0
    ensures s.completed.None? ==> p.completed == 0
    ensures s.active.None? ==> p.active == 0
    ensures s.total.Some? ==> p.total == s.total.value
    ensures s.completed.Some? ==> p.completed == s.completed.value
    ensures s.active.Some? ==> p.active == s.active.value
    ensures p.rate.Percent? ==> s.completionRate.Some? && p.rate.rate == s.completionRate.value
  {
    Panel(OrZero(s.total), OrZero(s.active), OrZero(s.completed),
      if s.completionRate.Some? && s.completionRate.value != 0.0 then Percent(s.completionRate.value) else ZeroPercent)
  }

  /** The `/stats` JSON the database answers with. */
  function StatsJson(s: TaskDatabase.DbStats): StatsBody {
    StatsBody(Some(s.total), s.completed, s.active, Some(s.completionRate))
  }

  /** The `null` sums of an empty table show as zeros, and on a non-empty
      table the panel's open and done counts add up to its total. */
  lemma PanelOfDatabaseStats(s: TaskDatabase.DbStats, rows: seq<TaskDatabase.Row>)
    requires s.total == |rows| && (s.completed.None? <==> rows == []) && (s.active.None? <==> rows == [])
    requires rows != [] ==> s.completed.value + s.active.value == s.total
    requires s.completionRate == CompletionRate(if rows == [] then 0 else TaskDatabase.CountCompleted(rows), |rows|)
    ensures rows == [] ==> PanelOf(StatsJson(s)) == Panel(0, 0, 0, ZeroPercent)
    ensures PanelOf(StatsJson(s)).active + PanelOf(StatsJson(s)).completed == PanelOf(StatsJson(s)).total
    ensures PanelOf(StatsJson(s)).rate.Percent? ==> 0.0 < PanelOf(StatsJson(s)).rate.rate <= 100.0
  {
    if rows != [] {
      assert TaskDatabase.CountCompleted(rows) <= |rows|;
    }
  }

  /** A database row as the page receives it. */
  function Item(r: TaskDatabase.Row): TaskItem {
    TaskItem(r.id, r.title, r.description, r.completed, Some(r.createdAt))
  }

  function Items(rows: seq<TaskDatabase.Row>): (r: seq<TaskItem>)
    ensures |r| == |rows| && forall i :: 0 <= i < |rows| ==> r[i] == Item(rows[i])
  {
    seq(|rows|, i requires 0 <= i < |rows| => Item(rows[i]))
  }

  /** The page sorts by the same key as `get_all_tasks`, and stably, so it
      shows the server's list in the server's order. */
  lemma DisplayKeepsServerOrder(rows: seq<TaskDatabase.Row>)
    requires rows != []
    ensures Display(Items(TaskDatabase.Listing(rows))) == TaskList(Items(TaskDatabase.Listing(rows)))
  {
    var l := TaskDatabase.Listing(rows);
    assert |l| == |rows| by {
      assert |multiset(l)| == |multiset(rows)|;
    }
    var items := Items(l);
    forall i, j | 0 <= i < j < |items| ensures RankLe(DisplayRank(items[i]), DisplayRank(items[j])) {
      assert DisplayRank(items[i]) == TaskDatabase.ListRank(l[i]);
      assert DisplayRank(items[j]) == TaskDatabase.ListRank(l[j]);
    }
    SortBySorted(items, DisplayRank);
  }

  class Page {
    var currentTasks: seq<TaskItem>
    var isSearching: bool
    var view: View
    var panel: Panel

    /** The page as served, before `init` loads anything. */
    constructor (panel0: Panel)
      ensures currentTasks == [] && !isSearching && view == Loading && panel == panel0
    {
      currentTasks := [];
      isSearching := false;
      view := Loading;
      panel := panel0;
    }

    /** `loadStats`: a failed request leaves the panel as it was. */
    method LoadStats(stats: Option<StatsBody>)
      modifies this
      ensures panel == if stats.Some? then PanelOf(stats.value) else old(panel)
      ensures currentTasks == old(currentTasks) && isSearching == old(isSearching) && view == old(view)
    {
      if stats.Some? {
        panel := PanelOf(stats.value);
      }
    }

    /** `loadTasks`: the cache is replaced wholesale only by a successful
        answer. On failure the one-argument `showError` call reaches the
        two-argument declaration, finds no element with that id, and the
        loading view stays. */
    method LoadTasks(tasks: Option<seq<TaskItem>>, stats: Option<StatsBody>)
      modifies this
      ensures isSearching == old(isSearching)
      ensures tasks.None? ==> currentTasks == old(currentTasks) && view == Loading && panel == old(panel)
      ensures tasks.Some? ==> currentTasks == tasks.value && view == Display(tasks.value)
      ensures tasks.Some? ==> panel == if stats.Some? then PanelOf(stats.value) else old(panel)
    {
      view := Loading;
      if tasks.None? {
        return;
      }
      currentTasks := tasks.value;
      view := Display(currentTasks);
      LoadStats(stats);
    }

    /** `searchTasks`: a blank keyword reloads everything; otherwise the
        trimmed keyword is sent and the results are shown without touching
        the cache or the panel. */
    method SearchTasks(input: string, results: Option<seq<TaskItem>>, tasks: Option<seq<TaskItem>>, stats: Option<StatsBody>)
      returns (query: Option<string>)
      modifies this
      ensures IsBlank(input) ==> query == None && isSearching == old(isSearching)
      ensures IsBlank(input) && tasks.None? ==> currentTasks == old(currentTasks) && view == Loading && panel == old(panel)
      ensures IsBlank(input) && tasks.Some? ==> currentTasks == tasks.value && view == Display(tasks.value)
      ensures IsBlank(input) && tasks.Some? ==> panel == if stats.Some? then PanelOf(stats.value) else old(panel)
      ensures !IsBlank(input) ==> query == Some(Trim(input)) && currentTasks == old(currentTasks) && panel == old(panel)
      ensures !IsBlank(input) && results.None? ==> view == Loading && isSearching == old(isSearching)
      ensures !IsBlank(input) && results.Some? ==> view == Display(results.value) && isSearching
    {
      TrimEmptyIffBlank(input);
      var keyword := Trim(input);
      if keyword == [] {
        LoadTasks(tasks, stats);
        return None;
      }
      query := Some(keyword);
      view := Loading;
      if results.Some? {
        view := Display(results.value);
        isSearching := true;
      }
    }

    /** `clearSearch`. */
    method ClearSearch(tasks: Option<seq<TaskItem>>, stats: Option<StatsBody>)
      modifies this
      ensures !isSearching
      ensures tasks.None? ==> currentTasks == old(currentTasks) && view == Loading && panel == old(panel)
      ensures tasks.Some? ==> currentTasks == tasks.value && view == Display(tasks.value)
      ensures tasks.Some? ==> panel == if stats.Some? then PanelOf(stats.value) else old(panel)
    {
      isSearching := false;
      LoadTasks(tasks, stats);
    }
  }
}
