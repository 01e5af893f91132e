/** The page of the in-memory Flask to-do app. It keeps no cache: every
    list it shows is the array just read from `/tasks`, sorted in place. */
module PatchClient {
  import opened Text
  import opened Ordering
  import opened TaskSchemas
  import opened TaskStats
  import TaskForm
  import FlaskTaskStore

  type Task = FlaskTaskStore.Task

  /** What the task area shows. */
  datatype View = LoadError | EmptyState | TaskList(items: seq<Task>)

  /** The comparator of `displayTasks`: open tasks first, then the larger
      id first. */
  function DisplayRank(t: Task): Rank {
    Rank(if t.completed then 1 else 0, -t.id)
  }

  /** No two tasks of the list share an id. */
  predicate UniqueIds(s: seq<Task>) {
    forall i, j :: 0 <= i < |s| && 0 <= j < |s| && s[i].id == s[j].id ==> i == j
  }

  /** `displayTasks`: an empty array shows the empty state and is left
      alone; any other is sorted in place and shown in its new order. */
  method DisplayTasks(a: array<Task>) returns (v: View)
    modifies a
    ensures a.Length == 0 ==> v == EmptyState && a[..] == old(a[..])
    ensures a.Length > 0 ==> a[..] == SortBy(old(a[..]), DisplayRank) && v == TaskList(a[..])
    ensures SortedBy(a[..], DisplayRank) || a.Length == 0
    ensures multiset(a[..]) == multiset(old(a[..]))
  {
    if a.Length == 0 {
      return EmptyState;
    }
    var sorted := SortBy(a[..], DisplayRank);
    forall i | 0 <= i < a.Length {
      a[i] := sorted[i];
    }
    assert a[..] == sorted;
    v := TaskList(a[..]);
  }

  /** With unique ids the comparator never ties, so every sorted
      rearrangement of the list is the one the page shows. */
  lemma DisplayOrderDeterministic(s: seq<Task>, r: seq<Task>)
    requires UniqueIds(s)
    requires SortedBy(r, DisplayRank) && multiset(r) == multiset(s)
    ensures r == SortBy(s, DisplayRank)
  {
    forall i, j | 0 <= i < |r| && 0 <= j < |r| && DisplayRank(r[i]) == DisplayRank(r[j])
      ensures r[i] == r[j]
    {
      assert r[i] in multiset(s) && r[j] in multiset(s);
      var p :| 0 <= p < |s| && s[p] == r[i];
      var q :| 0 <= q < |s| && s[q] == r[j];
    }
    SortedPermutationUnique(r, SortBy(s, DisplayRank), DisplayRank);
  }

  /** `loadTasks`: a failed request shows the error block; a successful one
      shows the answer through `displayTasks`. */
  method LoadTasks(ok: bool, answer: array<Task>) returns (v: View)
    modifies answer
    ensures !ok ==> v == LoadError && answer[..] == old(answer[..])
    ensures ok && answer.Length == 0 ==> v == EmptyState
    ensures ok && answer.Length > 0 ==> answer[..] == SortBy(old(answer[..]), DisplayRank) && v == TaskList(answer[..])
  {
    if !ok {
      return LoadError;
    }
    v := DisplayTasks(answer);
  }

  /** `loadStats`: the counts as sent, and `'0%'` whenever there is no task. */
  function RateLabelOf(s: FlaskTaskStore.Stats): (l: RateLabel)
    ensures s.total == 0 <==> l == ZeroPercent
    ensures l.Percent? ==> l.rate == s.completionRate
  {
    if s.total > 0 then Percent(s.completionRate) else ZeroPercent
  }

  /** For the server's own statistics the label is a percentage between 0
      and 100, and 100 exactly when every task is done. */
  lemma RateLabelInRange(s: FlaskTaskStore.Stats)
    requires s.completed <= s.total
    requires s.completionRate == CompletionRate(s.completed, s.total)
    ensures RateLabelOf(s).Percent? ==> 0.0 <= RateLabelOf(s).rate <= 100.0
    ensures RateLabelOf(s).Percent? ==> (RateLabelOf(s).rate == 100.0 <==> s.completed == s.total)
  {
    if s.total > 0 && RateLabelOf(s).rate == 100.0 {
      assert (s.completed as real) * 100.0 == (s.total as real) * 100.0;
    }
  }

  /** `toggleTask`: a failed GET aborts before any PATCH; otherwise the body
      is `{completed: !task.completed}` and nothing else. */
  function ToggleRequest(fetched: Option<Task>): (r: Option<UpdatePayload>)
    ensures r.None? <==> fetched.None?
    ensures r.Some? ==> r.value.title.Absent? && r.value.description.Absent?
    ensures r.Some? ==> r.value.completed == Given(!fetched.value.completed)
  {
    if fetched.None? then None else Some(UpdatePayload(Absent, Absent, Given(!fetched.value.completed)))
  }

  /** The toggle body passes validation and, applied to the task it was
      read from, flips `completed` and nothing else. */
  lemma ToggleFlipsCompletion(t: Task)
    ensures ValidateUpdate(ToggleRequest(Some(t)).value) == []
    ensures FlaskTaskStore.Updated(t, ToggleRequest(Some(t)).value) == t.(completed := !t.completed)
  {
  }

  /** Two toggles in a row restore the task. */
  lemma ToggleTwiceRestores(t: Task)
    ensures var once := FlaskTaskStore.Updated(t, ToggleRequest(Some(t)).value);
      FlaskTaskStore.Updated(once, ToggleRequest(Some(once)).value) == t
  {
    ToggleFlipsCompletion(t);
    ToggleFlipsCompletion(t.(completed := !t.completed));
  }

  /** The edit body, once the server applies it, keeps the task's
      completion, sets the typed title, and cannot clear the description:
      an emptied description is left out of the body, so the stored one
      stays. Whether the server applies it is `EditRoundTrip`'s concern. */
  lemma EditKeepsCompletion(t: Task, newTitle: string, newDescription: string)
    ensures var u := FlaskTaskStore.Updated(t, TaskForm.EditRequest(Some(t.completed), Some(newTitle), Some(newDescription)).value);
      && u.completed == t.completed
      && u.title == newTitle
      && u.description == (if newDescription == [] then t.description else newDescription)
  {
  }

  /** `editTask` against the in-memory server: the task is read with
      `GET /tasks/<id>`, the two prompts may be cancelled, and the body is
      sent with `PUT`. Nothing is sent for an unknown id or a cancelled
      prompt; the server applies the edit exactly when the typed title has
      1 to 100 characters and the description at most 500, and otherwise
      answers 400 and changes nothing. */
  method EditRoundTrip(store: FlaskTaskStore.Store, id: int, newTitle: Option<string>, newDescription: Option<string>)
    returns (r: Option<FlaskTaskStore.Outcome<Task>>)
    requires store.Valid()
    modifies store
    ensures store.Valid()
    ensures r.None? <==> FlaskTaskStore.IndexOf(old(store.tasks), id) == -1 || newTitle.None? || newDescription.None?
    ensures r.None? ==> store.tasks == old(store.tasks)
    ensures r.Some? ==> (r.value.Ok? <==>
      TitleMinLength <= |newTitle.value| <= TitleMaxLength && |newDescription.value| <= DescriptionMaxLength)
    ensures r.Some? && !r.value.Ok? ==> r.value.Validation? && store.tasks == old(store.tasks)
    ensures r.Some? && r.value.Ok? ==>
      var k := FlaskTaskStore.IndexOf(old(store.tasks), id);
      var t := old(store.tasks)[k];
      store.tasks == old(store.tasks)[k := t.(title := newTitle.value,
        description := if newDescription.value == [] then t.description else newDescription.value)]
  {
    var fetched := store.FindTask(id);
    var request := TaskForm.EditRequest(if fetched.Some? then Some(fetched.value.completed) else None, newTitle, newDescription);
    if request.None? {
      return None;
    }
    EditKeepsCompletion(fetched.value, newTitle.value, newDescription.value);
    var answer := store.UpdateTask(id, FlaskTaskStore.Json(request.value));
    r := Some(answer);
  }
}
