/** The page of the FastAPI to-do app. It caches the last list it loaded
    in `currentTasks` and builds its update requests from that cache. */
module CachedClient {
  import opened Text
  import FastApiTaskStore

  type Task = FastApiTaskStore.Task

  /** What the task list shows. */
  datatype View = Blank | LoadError | EmptyMessage | TaskList(items: seq<Task>)

  /** A delete answer as the page reads it: `success` may be missing. */
  datatype DeleteAnswer = DeleteAnswer(ok: bool, success: Option<bool>)

  /** `displayTasks`: the tasks in the order the server sent them. */
  function Display(tasks: seq<Task>): (v: View)
    ensures v == EmptyMessage <==> tasks == []
    ensures v.TaskList? ==> v.items == tasks
  {
    if tasks == [] then EmptyMessage else TaskList(tasks)
  }

  /** `cache[k]` is the first cached task with that id. */
  predicate FirstAt(cache: seq<Task>, id: int, k: int) {
    0 <= k < |cache| && cache[k].id == id && forall i :: 0 <= i < k ==> cache[i].id != id
  }

  /** `currentTasks.find(t => t.id === id)`: the first cached task with
      that id. */
  function Find(cache: seq<Task>, id: int): (r: Option<Task>)
    ensures r.None? <==> !FastApiTaskStore.HasId(cache, id)
    ensures r.Some? ==> exists k :: FirstAt(cache, id, k) && cache[k] == r.value
  {
    if cache == [] then None
    else if cache[0].id == id then
      assert FirstAt(cache, id, 0);
      Some(cache[0])
    else
      var r := Find(cache[1..], id);
      assert forall i :: 0 <= i < |cache[1..]| ==> cache[1..][i] == cache[i + 1];
      assert r.Some? ==> exists k :: FirstAt(cache, id, k) && cache[k] == r.value by {
        if r.Some? {
          var k :| FirstAt(cache[1..], id, k) && cache[1..][k] == r.value;
          assert FirstAt(cache, id, k + 1);
        }
      }
      r
  }

  /** `addTask`: a blank input sends nothing, any other sends its trimmed
      text as the title. */
  function AddRequest(input: string): (title: Option<string>)
    ensures title.None? <==> IsBlank(input)
    ensures title.Some? ==> title.value == Trim(input)
  {
    TrimEmptyIffBlank(input);
    if Trim(input) == [] then None else Some(Trim(input))
  }

  /** Every title the page sends passes the server's presence check and
      carries no outer white space. */
  lemma AddRequestAccepted(input: string)
    requires AddRequest(input).Some?
    ensures Truthy(AddRequest(input))
    ensures var t := AddRequest(input).value; !IsSpace(t[0]) && !IsSpace(t[|t| - 1])
  {
    var t := Trim(input);
    assert AddRequest(input) == Some(t) && t != [];
  }

  /** `toggleTask`: the new `completed` sent by PUT, or nothing when the id
      is not in the cache. */
  function ToggleRequest(cache: seq<Task>, id: int): (completed: Option<bool>)
    ensures completed.None? <==> !FastApiTaskStore.HasId(cache, id)
    ensures completed.Some? ==> completed.value == !Find(cache, id).value.completed
  {
    var t := Find(cache, id);
    if t.None? then None else Some(!t.value.completed)
  }

  /** The task the page reads from its cache is the first one with the
      id, so the request negates that task's flag. */
  lemma ToggleMatchesServerTask(cache: seq<Task>, id: int, k: int)
    requires FirstAt(cache, id, k)
    ensures ToggleRequest(cache, id) == Some(!cache[k].completed)
  {
    var t := Find(cache, id);
    var m :| FirstAt(cache, id, m) && cache[m] == t.value;
    assert m == k;
  }

  /** `deleteTask`'s label: the cached title, or `'задачу'`. */
  function DeleteLabel(cache: seq<Task>, id: int): (shown: string)
    ensures FastApiTaskStore.HasId(cache, id) ==> shown == Find(cache, id).value.title
    ensures !FastApiTaskStore.HasId(cache, id) ==> shown == "задачу"
  {
    var t := Find(cache, id);
    if t.Some? then t.value.title else "задачу"
  }

  /** `deleteTask`'s success test: an ok status and a true `success`. */
  predicate DeleteSucceeded(a: DeleteAnswer) {
    a.ok && a.success == Some(true)
  }

  class Page {
    var currentTasks: seq<Task>
    var view: View

    constructor ()
      ensures currentTasks == [] && view == Blank
    {
      currentTasks := [];
      view := Blank;
    }

    /** `loadTasks`: only a successful answer replaces the cache. */
    method LoadTasks(answer: Option<seq<Task>>)
      modifies this
      ensures answer.None? ==> currentTasks == old(currentTasks) && view == LoadError
      ensures answer.Some? ==> currentTasks == answer.value && view == Display(answer.value)
    {
      if answer.None? {
        view := LoadError;
        return;
      }
      currentTasks := answer.value;
      view := Display(currentTasks);
    }

    /** `deleteTask`: nothing is sent when the confirmation is declined;
        otherwise the DELETE goes out, and the list is reloaded only on
        success. Answers the title in the message and whether it is the
        success message. */
    method DeleteTask(id: int, confirmed: bool, answer: DeleteAnswer, reload: Option<seq<Task>>)
      returns (sent: bool, succeeded: bool, title: string)
      modifies this
      ensures sent == confirmed
      ensures succeeded <==> confirmed && DeleteSucceeded(answer)
      ensures confirmed ==> title == DeleteLabel(old(currentTasks), id)
      ensures !succeeded ==> currentTasks == old(currentTasks) && view == old(view)
      ensures succeeded && reload.None? ==> currentTasks == old(currentTasks) && view == LoadError
      ensures succeeded && reload.Some? ==> currentTasks == reload.value && view == Display(reload.value)
    {
      title := "";
      sent := false;
      succeeded := false;
      if !confirmed {
        return;
      }
      title := DeleteLabel(currentTasks, id);
      sent := true;
      if answer.ok && answer.success == Some(true) {
        succeeded := true;
        LoadTasks(reload);
      }
    }
  }

  /** A confirmed delete against the FastAPI server: the server's answer,
      sent with its default status 200, always passes the page's success
      test, so the page reloads and the server no longer holds the id. */
  method DeleteRoundTrip(page: Page, store: FastApiTaskStore.Store, id: int, reload: Option<seq<Task>>)
    returns (succeeded: bool, title: string)
    requires store.Valid()
    modifies page, store
    ensures succeeded
    ensures store.Valid() && store.tasks == FastApiTaskStore.Without(old(store.tasks), id)
    ensures !FastApiTaskStore.HasId(store.tasks, id)
    ensures title == DeleteLabel(old(page.currentTasks), id)
    ensures reload.Some? ==> page.currentTasks == reload.value && page.view == Display(reload.value)
    ensures reload.None? ==> page.currentTasks == old(page.currentTasks) && page.view == LoadError
  {
    var success := store.DeleteTask(id);
    var sent;
    sent, succeeded, title := page.DeleteTask(id, true, DeleteAnswer(true, Some(success)), reload);
  }

  /** `toggleTask` against the FastAPI server while the cache matches it:
      the server updates the same first match the page read, so exactly
      that task's flag is flipped and nothing else changes. */
  method ToggleRoundTrip(store: FastApiTaskStore.Store, id: int, k: int) returns (r: FastApiTaskStore.Reply<Task>)
    requires store.Valid() && FirstAt(store.tasks, id, k)
    modifies store
    ensures store.Valid()
    ensures r == FastApiTaskStore.Done(old(store.tasks)[k].(completed := !old(store.tasks)[k].completed))
    ensures store.tasks == old(store.tasks)[k := old(store.tasks)[k].(completed := !old(store.tasks)[k].completed)]
  {
    ToggleMatchesServerTask(store.tasks, id, k);
    r := store.UpdateTask(id, None, ToggleRequest(store.tasks, id));
  }
}
