/** The FastAPI back-end of the minimal to-do page: a global list of
    `{id, title, completed}` records and a `next_id` counter. */
module FastApiTaskStore {
  import opened Text

  datatype Task = Task(id: int, title: string, completed: bool)

  /** A handler's JSON answer. Errors are plain objects with an `error`
      message, sent with status 200. */
  datatype Reply<+T> = Done(value: T) | Error(message: string)

  const TitleRequired: string := "Название обязательно"
  const TaskNotFound: string := "Задача не найдена"

  predicate IdsIncreasing(tasks: seq<Task>) {
    forall i, j :: 0 <= i < j < |tasks| ==> tasks[i].id < tasks[j].id
  }

  predicate HasId(tasks: seq<Task>, id: int) {
    exists i :: 0 <= i < |tasks| && tasks[i].id == id
  }

  /** The list comprehension of `DELETE`: every task whose id differs from
      `id`, in their order. */
  function Without(tasks: seq<Task>, id: int): (r: seq<Task>)
    ensures |r| <= |tasks|
    ensures forall i :: 0 <= i < |r| ==> r[i].id != id
    ensures forall t :: t in r <==> t in tasks && t.id != id
  {
    if tasks == [] then []
    else if tasks[0].id == id then Without(tasks[1..], id)
    else [tasks[0]] + Without(tasks[1..], id)
  }

  /** Deleting an id no task carries changes nothing. */
  lemma {:induction false} WithoutAbsent(tasks: seq<Task>, id: int)
    requires !HasId(tasks, id)
    ensures Without(tasks, id) == tasks
  {
    if tasks != [] {
      assert !HasId(tasks[1..], id) by {
        forall i | 0 <= i < |tasks[1..]| ensures tasks[1..][i].id != id {
          assert tasks[1..][i] == tasks[i + 1];
        }
      }
      WithoutAbsent(tasks[1..], id);
      assert tasks == [tasks[0]] + tasks[1..];
    }
  }

  /** Deleting twice is deleting once. */
  lemma WithoutIdempotent(tasks: seq<Task>, id: int)
    ensures Without(Without(tasks, id), id) == Without(tasks, id)
  {
    WithoutAbsent(Without(tasks, id), id);
  }

  /** The tasks that survive keep their relative order: the result is a
      subsequence of the input, kept in increasing id order. */
  lemma {:induction false} WithoutKeepsOrder(tasks: seq<Task>, id: int)
    requires IdsIncreasing(tasks)
    ensures IdsIncreasing(Without(tasks, id))
  {
    if tasks != [] {
      assert IdsIncreasing(tasks[1..]);
      WithoutKeepsOrder(tasks[1..], id);
      var rest := Without(tasks[1..], id);
      forall t | t in rest ensures tasks[0].id < t.id {
        var i :| 0 <= i < |tasks[1..]| && tasks[1..][i] == t;
        assert t == tasks[i + 1];
      }
    }
  }

  class Store {
    var tasks: seq<Task>
    var nextId: int

    ghost predicate Valid()
      reads this
    {
      IdsIncreasing(tasks) && forall i :: 0 <= i < |tasks| ==> tasks[i].id < nextId
    }

    /** The three seeded tasks, ids 1 to 3, and the counter at 4. */
    constructor ()
      ensures Valid()
      ensures tasks == [
        Task(1, "Изучить Python", true),
        Task(2, "Изучить FastAPI", false),
        Task(3, "Создать Todo List", false)]
      ensures nextId == 4
    {
      tasks := [
        Task(1, "Изучить Python", true),
        Task(2, "Изучить FastAPI", false),
        Task(3, "Создать Todo List", false)];
      nextId := 4;
    }

    /** `POST /api/tasks`: a missing, `null` or empty title is refused. */
    method CreateTask(title: Option<string>) returns (r: Reply<Task>)
      requires Valid()
      modifies this
      ensures Valid()
      ensures !Truthy(title) ==> r == Error(TitleRequired) && tasks == old(tasks) && nextId == old(nextId)
      ensures Truthy(title) ==>
        && r == Done(Task(old(nextId), title.value, false))
        && tasks == old(tasks) + [Task(old(nextId), title.value, false)]
        && nextId == old(nextId) + 1
        && !HasId(old(tasks), old(nextId))
    {
      if !Truthy(title) {
        return Error(TitleRequired);
      }
      var t := Task(nextId, title.value, false);
      tasks := tasks + [t];
      nextId := nextId + 1;
      r := Done(t);
    }

    /** `PUT /api/tasks/{id}`: the first task with `id` gets the keys sent,
        nothing else changes; an unknown id is an error. No value is
        checked. */
    method UpdateTask(id: int, title: Option<string>, completed: Option<bool>) returns (r: Reply<Task>)
      requires Valid()
      modifies this
      ensures Valid() && nextId == old(nextId) && |tasks| == |old(tasks)|
      ensures !HasId(old(tasks), id) ==> r == Error(TaskNotFound) && tasks == old(tasks)
      ensures HasId(old(tasks), id) ==> exists k ::
        && 0 <= k < |old(tasks)| && old(tasks)[k].id == id
        && (forall i :: 0 <= i < k ==> old(tasks)[i].id != id)
        && var t := old(tasks)[k];
           var u := Task(id, if title.Some? then title.value else t.title,
                         if completed.Some? then completed.value else t.completed);
           r == Done(u) && tasks == old(tasks)[k := u]
    {
      var i := 0;
      while i < |tasks|
        invariant 0 <= i <= |tasks|
        invariant forall j :: 0 <= j < i ==> tasks[j].id != id
        invariant tasks == old(tasks)
      {
        if tasks[i].id == id {
          var t := tasks[i];
          if title.Some? {
            t := t.(title := title.value);
          }
          if completed.Some? {
            t := t.(completed := completed.value);
          }
          tasks := tasks[i := t];
          return Done(t);
        }
        i := i + 1;
      }
      return Error(TaskNotFound);
    }

    /** `DELETE /api/tasks/{id}`: keeps every task with another id and
        always reports success. */
    method DeleteTask(id: int) returns (success: bool)
      requires Valid()
      modifies this
      ensures Valid() && nextId == old(nextId)
      ensures success
      ensures tasks == Without(old(tasks), id)
      ensures !HasId(tasks, id)
      ensures !HasId(old(tasks), id) ==> tasks == old(tasks)
    {
      WithoutKeepsOrder(tasks, id);
      if !HasId(tasks, id) {
        WithoutAbsent(tasks, id);
      }
      tasks := Without(tasks, id);
      success := true;
    }
  }
}
