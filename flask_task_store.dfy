/** The in-memory Flask back-end: a global list of tasks and a counter that
    hands out ids, behind the `/tasks` and `/stats` handlers. */
module FlaskTaskStore {
  import opened Text
  import opened TaskSchemas
  import TaskStats

  datatype Task = Task(id: int, title: string, description: string, completed: bool)

  /** A request body: not declared as JSON (`request.is_json` false), or a
      JSON object already read into the schema's payload. */
  datatype Body<+P> = NotJson | Json(payload: P)

  /** A handler's answer: `Ok` is 200 (201 for a create), `Validation` 400
      with its `details`, `NotFound` 404, `NotJsonBody` 415. */
  datatype Outcome<+T> = Ok(value: T) | Validation(details: seq<FieldError>) | NotFound | NotJsonBody

  datatype Stats = Stats(total: nat, completed: nat, active: int, completionRate: real)

  predicate IdsIncreasing(tasks: seq<Task>) {
    forall i, j :: 0 <= i < j < |tasks| ==> tasks[i].id < tasks[j].id
  }

  /** No task carries `id`. */
  predicate NoTaskWith(tasks: seq<Task>, id: int) {
    forall i :: 0 <= i < |tasks| ==> tasks[i].id != id
  }

  /** Position of the first task carrying `id`, or -1 when there is none. */
  function IndexOf(tasks: seq<Task>, id: int): (k: int)
    ensures -1 <= k < |tasks|
    ensures k == -1 <==> NoTaskWith(tasks, id)
    ensures k >= 0 ==> tasks[k].id == id && forall i :: 0 <= i < k ==> tasks[i].id != id
  {
    if tasks == [] then -1
    else if tasks[0].id == id then 0
    else
      var k := IndexOf(tasks[1..], id);
      if k == -1 then -1 else k + 1
  }

  /** The task built by a successful create: the next id, the title, the
      description or `""` when none was sent, not completed. */
  function NewTask(id: int, p: CreatePayload): Task
    requires p.title.Given?
  {
    Task(id, p.title.value, if p.description.Given? then p.description.value else "", false)
  }

  /** One `setattr(task, key, value)`. */
  datatype Assignment = SetTitle(title: string) | SetDescription(description: string) | SetCompleted(completed: bool)

  function Assign(t: Task, a: Assignment): Task {
    match a
    case SetTitle(s) => t.(title := s)
    case SetDescription(s) => t.(description := s)
    case SetCompleted(b) => t.(completed := b)
  }

  /** The assignments applied one after the other. */
  function ApplyAll(t: Task, s: seq<Assignment>): Task {
    if s == [] then t else Assign(ApplyAll(t, s[..|s| - 1]), s[|s| - 1])
  }

  /** The keys of the update, in field order, that carry a value. A key
      sent as `null` is skipped: see `UpdatedAsWritten` for the code as
      written, which assigns it. */
  function Assignments(u: UpdatePayload): seq<Assignment> {
    (if u.title.Given? then [SetTitle(u.title.value)] else [])
      + (if u.description.Given? then [SetDescription(u.description.value)] else [])
      + (if u.completed.Given? then [SetCompleted(u.completed.value)] else [])
  }

  /** A task after PUT/PATCH: every field sent with a value is replaced,
      every other field, the id included, is kept. */
  function Updated(t: Task, u: UpdatePayload): (r: Task)
    ensures r.id == t.id
    ensures r.title == (if u.title.Given? then u.title.value else t.title)
    ensures r.description == (if u.description.Given? then u.description.value else t.description)
    ensures r.completed == (if u.completed.Given? then u.completed.value else t.completed)
  {
    var s1 := if u.title.Given? then [SetTitle(u.title.value)] else [];
    var s2 := if u.description.Given? then [SetDescription(u.description.value)] else [];
    var s3 := if u.completed.Given? then [SetCompleted(u.completed.value)] else [];
    assert Assignments(u) == s1 + s2 + s3;
    ApplyAllAppend(t, s1, s2);
    ApplyAllAppend(t, s1 + s2, s3);
    ApplyAll(t, Assignments(u))
  }

  /** Applying `s` and then at most one more assignment. */
  lemma ApplyAllAppend(t: Task, s: seq<Assignment>, x: seq<Assignment>)
    requires |x| <= 1
    ensures ApplyAll(t, s + x) == if x == [] then ApplyAll(t, s) else Assign(ApplyAll(t, s), x[0])
  {
    if x == [] {
      assert s + x == s;
    } else {
      assert (s + x)[..|s + x| - 1] == s;
    }
  }

  /** Sending the same update twice leaves the task as sending it once. */
  lemma UpdateIdempotent(t: Task, u: UpdatePayload)
    ensures Updated(Updated(t, u), u) == Updated(t, u)
  {
  }

  /** A valid update keeps a valid title valid. */
  lemma UpdateKeepsTitleValid(t: Task, u: UpdatePayload)
    requires InBounds(t.title, TitleMinLength, TitleMaxLength)
    requires ValidateUpdate(u) == []
    ensures InBounds(Updated(t, u).title, TitleMinLength, TitleMaxLength)
  {
  }

  /** The `setattr` loop over the update's keys. */
  method ApplyAssignments(t: Task, s: seq<Assignment>) returns (r: Task)
    ensures r == ApplyAll(t, s)
  {
    r := t;
    var i := 0;
    while i < |s|
      invariant 0 <= i <= |s|
      invariant r == ApplyAll(t, s[..i])
    {
      assert s[..i + 1][..i] == s[..i];
      r := Assign(r, s[i]);
      i := i + 1;
    }
    assert s[..i] == s;
  }

  /** A task as the code as written may leave it: `None` is a possible
      value of every attribute. */
  datatype StoredTask = StoredTask(id: int, title: Option<string>, description: Option<string>, completed: Option<bool>)

  function SetKey<T>(current: T, f: Field<T>): Option<T> {
    match f
    case Absent => Some(current)
    case Null => None
    case Given(v) => Some(v)
  }

  /** PUT/PATCH as written: `model_dump(exclude_unset=True)` keeps a key sent
      as `null`, and the loop stores `None` into that attribute. */
  function UpdatedAsWritten(t: Task, u: UpdatePayload): StoredTask {
    StoredTask(t.id, SetKey(t.title, u.title), SetKey(t.description, u.description), SetKey(t.completed, u.completed))
  }

  /** The discrepancy: `{"title": null}` passes `TaskUpdate` (the field is
      optional) and, as written, erases the task's title; the corrected
      update leaves it as it was. */
  lemma NullTitleErasesTitle(t: Task)
    ensures ValidateUpdate(UpdatePayload(Null, Absent, Absent)) == []
    ensures UpdatedAsWritten(t, UpdatePayload(Null, Absent, Absent)).title == None
    ensures Updated(t, UpdatePayload(Null, Absent, Absent)) == t
  {
  }

  /** Without `null` keys the code as written and the corrected update agree. */
  lemma {:induction false} AsWrittenAgreesWithoutNulls(t: Task, u: UpdatePayload)
    requires !u.title.Null? && !u.description.Null? && !u.completed.Null?
    ensures UpdatedAsWritten(t, u) ==
      StoredTask(t.id, Some(Updated(t, u).title), Some(Updated(t, u).description), Some(Updated(t, u).completed))
  {
    var r := Updated(t, u);
  }

  /** Number of completed tasks, counted as the generator in `/stats` does. */
  function CountCompleted(tasks: seq<Task>): (n: nat)
    ensures n <= |tasks|
  {
    if tasks == [] then 0
    else CountCompleted(tasks[..|tasks| - 1]) + (if tasks[|tasks| - 1].completed then 1 else 0)
  }

  /** The list without its `k`-th task, the others kept in order. */
  function Removed(tasks: seq<Task>, k: int): (r: seq<Task>)
    requires 0 <= k < |tasks|
    ensures |r| == |tasks| - 1
    ensures forall i :: 0 <= i < k ==> r[i] == tasks[i]
    ensures forall i :: k <= i < |r| ==> r[i] == tasks[i + 1]
  {
    tasks[..k] + tasks[k + 1..]
  }

  /** Every task's id is one of `ids`. */
  predicate IdsIn(tasks: seq<Task>, ids: set<int>) {
    forall i :: 0 <= i < |tasks| ==> tasks[i].id in ids
  }

  /** Removing one task keeps the others in increasing id order, drawn from
      the same ids, and leaves no task with the removed task's id. */
  lemma RemoveKeepsOrder(tasks: seq<Task>, k: int, ids: set<int>)
    requires IdsIncreasing(tasks) && 0 <= k < |tasks|
    requires IdsIn(tasks, ids)
    ensures IdsIncreasing(Removed(tasks, k))
    ensures IdsIn(Removed(tasks, k), ids)
    ensures NoTaskWith(Removed(tasks, k), tasks[k].id)
  {
    var r := Removed(tasks, k);
    forall i, j | 0 <= i < j < |r| ensures r[i].id < r[j].id {
      assert r[i] == tasks[if i < k then i else i + 1];
      assert r[j] == tasks[if j < k then j else j + 1];
    }
    forall i | 0 <= i < |r| ensures r[i].id in ids && r[i].id != tasks[k].id {
      assert r[i] == tasks[if i < k then i else i + 1];
    }
  }

  /** Replacing a task by one with the same id keeps the ids as they were. */
  lemma ReplaceKeepsIds(tasks: seq<Task>, k: int, t: Task, ids: set<int>)
    requires IdsIncreasing(tasks) && 0 <= k < |tasks| && t.id == tasks[k].id
    requires IdsIn(tasks, ids)
    ensures IdsIncreasing(tasks[k := t]) && IdsIn(tasks[k := t], ids)
  {
  }

  class Store {
    var tasks: seq<Task>
    var currentId: int
    /** Every id ever handed out, including those of deleted tasks. */
    ghost var issued: set<int>

    ghost predicate Valid()
      reads this
    {
      && IdsIncreasing(tasks)
      && IdsIn(tasks, issued)
      && (forall n :: n in issued ==> n < currentId)
    }

    /** The two seeded tasks, with the counter set past them. */
    constructor ()
      ensures Valid()
      ensures tasks == [
        Task(1, "Изучить Python", "Пройти курс по Python", true),
        Task(2, "Создать REST API", "Написать простое API на Flask", false)]
      ensures currentId == 3
    {
      tasks := [
        Task(1, "Изучить Python", "Пройти курс по Python", true),
        Task(2, "Создать REST API", "Написать простое API на Flask", false)];
      currentId := 3;
      issued := {1, 2};
    }

    /** `find_task`: the first task with `id`, if any. */
    method FindTask(id: int) returns (r: Option<Task>)
      ensures r == if IndexOf(tasks, id) == -1 then None else Some(tasks[IndexOf(tasks, id)])
    {
      var i := 0;
      while i < |tasks|
        invariant 0 <= i <= |tasks|
        invariant forall k :: 0 <= k < i ==> tasks[k].id != id
      {
        if tasks[i].id == id {
          return Some(tasks[i]);
        }
        i := i + 1;
      }
      return None;
    }

    /** `find_task_index`: the position of that same task, or -1. */
    method FindTaskIndex(id: int) returns (k: int)
      ensures k == IndexOf(tasks, id)
    {
      var i := 0;
      while i < |tasks|
        invariant 0 <= i <= |tasks|
        invariant forall j :: 0 <= j < i ==> tasks[j].id != id
      {
        if tasks[i].id == id {
          return i;
        }
        i := i + 1;
      }
      return -1;
    }

    /** `POST /tasks`. */
    method CreateTask(body: Body<CreatePayload>) returns (r: Outcome<Task>)
      requires Valid()
      modifies this
      ensures Valid()
      ensures body.NotJson? ==>
        r == NotJsonBody && tasks == old(tasks) && currentId == old(currentId) && issued == old(issued)
      ensures body.Json? && ValidateCreate(body.payload) != [] ==>
        r == Validation(ValidateCreate(body.payload))
        && tasks == old(tasks) && currentId == old(currentId) && issued == old(issued)
      ensures body.Json? && ValidateCreate(body.payload) == [] ==>
        && r == Ok(NewTask(old(currentId), body.payload))
        && tasks == old(tasks) + [NewTask(old(currentId), body.payload)]
        && currentId == old(currentId) + 1
        && old(currentId) !in old(issued)
        && issued == old(issued) + {old(currentId)}
    {
      if body.NotJson? {
        return NotJsonBody;
      }
      var errors := ValidateCreate(body.payload);
      if errors != [] {
        return Validation(errors);
      }
      var t := NewTask(currentId, body.payload);
      tasks := tasks + [t];
      issued := issued + {currentId};
      currentId := currentId + 1;
      r := Ok(t);
    }

    /** `PUT /tasks/<id>`: 404 before anything else, then 415, then 400, then
        the `setattr` loop on the task found. */
    method UpdateTask(id: int, body: Body<UpdatePayload>) returns (r: Outcome<Task>)
      requires Valid()
      modifies this
      ensures Valid() && currentId == old(currentId) && issued == old(issued)
      ensures var k := IndexOf(old(tasks), id);
        if k == -1 then r == NotFound && tasks == old(tasks)
        else if body.NotJson? then r == NotJsonBody && tasks == old(tasks)
        else if ValidateUpdate(body.payload) != [] then
          r == Validation(ValidateUpdate(body.payload)) && tasks == old(tasks)
        else
          r == Ok(Updated(old(tasks)[k], body.payload))
          && tasks == old(tasks)[k := Updated(old(tasks)[k], body.payload)]
    {
      var k := FindTaskIndex(id);
      if k == -1 {
        return NotFound;
      }
      if body.NotJson? {
        return NotJsonBody;
      }
      var errors := ValidateUpdate(body.payload);
      if errors != [] {
        return Validation(errors);
      }
      var t := ApplyAssignments(tasks[k], Assignments(body.payload));
      assert t == Updated(tasks[k], body.payload);
      ReplaceKeepsIds(tasks, k, t, issued);
      tasks := tasks[k := t];
      r := Ok(t);
    }

    /** `PATCH /tasks/<id>`: the same code as PUT. */
    method PatchTask(id: int, body: Body<UpdatePayload>) returns (r: Outcome<Task>)
      requires Valid()
      modifies this
      ensures Valid() && currentId == old(currentId) && issued == old(issued)
      ensures var k := IndexOf(old(tasks), id);
        if k == -1 then r == NotFound && tasks == old(tasks)
        else if body.NotJson? then r == NotJsonBody && tasks == old(tasks)
        else if ValidateUpdate(body.payload) != [] then
          r == Validation(ValidateUpdate(body.payload)) && tasks == old(tasks)
        else
          r == Ok(Updated(old(tasks)[k], body.payload))
          && tasks == old(tasks)[k := Updated(old(tasks)[k], body.payload)]
    {
      r := UpdateTask(id, body);
    }

    /** `DELETE /tasks/<id>`: removes the task found and answers with it. */
    method DeleteTask(id: int) returns (r: Outcome<Task>)
      requires Valid()
      modifies this
      ensures Valid() && currentId == old(currentId) && issued == old(issued)
      ensures var k := IndexOf(old(tasks), id);
        if k == -1 then r == NotFound && tasks == old(tasks)
        else r == Ok(old(tasks)[k]) && tasks == Removed(old(tasks), k)
      ensures NoTaskWith(tasks, id)
    {
      var k := FindTaskIndex(id);
      if k == -1 {
        return NotFound;
      }
      r := Pop(k);
    }

    /** `tasks_db.pop(index)`: takes out and returns the task at `k`. */
    method Pop(k: int) returns (r: Outcome<Task>)
      requires Valid() && 0 <= k < |tasks|
      modifies this
      ensures Valid() && currentId == old(currentId) && issued == old(issued)
      ensures r == Ok(old(tasks)[k]) && tasks == Removed(old(tasks), k)
      ensures NoTaskWith(tasks, old(tasks)[k].id)
    {
      r := Ok(tasks[k]);
      RemoveKeepsOrder(tasks, k, issued);
      tasks := Removed(tasks, k);
    }

    /** `DELETE /tasks`: empties the list but keeps the counter, so no id is
        handed out twice. */
    method DeleteAllTasks() returns (deleted: seq<Task>, count: nat)
      requires Valid()
      modifies this
      ensures Valid() && currentId == old(currentId) && issued == old(issued)
      ensures deleted == old(tasks) && count == |old(tasks)| && tasks == []
    {
      deleted := tasks;
      count := |deleted|;
      tasks := [];
    }

    /** `GET /stats`. */
    method GetStats() returns (s: Stats)
      ensures s.total == |tasks| && s.completed == CountCompleted(tasks)
      ensures 0 <= s.active && s.active + s.completed == s.total
      ensures s.completionRate == TaskStats.CompletionRate(s.completed, s.total)
      ensures s.total == 0 ==> s.completionRate == 0.0
    {
      var completed := 0;
      var i := 0;
      while i < |tasks|
        invariant 0 <= i <= |tasks|
        invariant completed == CountCompleted(tasks[..i])
      {
        assert tasks[..i + 1][..i] == tasks[..i];
        if tasks[i].completed {
          completed := completed + 1;
        }
        i := i + 1;
      }
      assert tasks[..i] == tasks;
      var total := |tasks|;
      s := Stats(total, completed, total - completed, TaskStats.CompletionRate(completed, total));
    }
  }

  /** Two creates in a row, with a delete-all in between, never hand out
      the same id: ids keep growing across a clear. */
  method IdsNeverReused(store: Store, p: CreatePayload) returns (first: int, second: int)
    requires store.Valid() && ValidateCreate(p) == []
    modifies store
    ensures first < second
  {
    var a := store.CreateTask(Json(p));
    var _, _ := store.DeleteAllTasks();
    var b := store.CreateTask(Json(p));
    first := a.value.id;
    second := b.value.id;
  }
}
