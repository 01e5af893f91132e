/** The SQLite-backed task table, seen as a sequence of rows in id order.
    AUTOINCREMENT hands out fresh, increasing ids that are never reused;
    `CURRENT_TIMESTAMP` is the `now` argument of the operations that write. */
module TaskDatabase {
  import opened Text
  import opened Ordering
  import TaskStats
  import TaskSchemas

  datatype Row = Row(id: int, title: string, description: string, completed: bool, createdAt: int, updatedAt: int)

  /** A keyword argument value of `update_task`. */
  datatype Value = NoValue | Str(s: string) | Flag(b: bool)

  datatype KwArg = KwArg(key: string, value: Value)

  datatype DbStats = DbStats(total: nat, completed: Option<nat>, active: Option<nat>, completionRate: real)

  const AllowedFields: seq<string> := ["title", "description", "completed"]

  predicate IdsIncreasing(rows: seq<Row>) {
    forall i, j :: 0 <= i < j < |rows| ==> rows[i].id < rows[j].id
  }

  predicate HasId(rows: seq<Row>, id: int) {
    exists i :: 0 <= i < |rows| && rows[i].id == id
  }

  /** Position of the row with `id`, or -1. */
  function RowIndex(rows: seq<Row>, id: int): (k: int)
    ensures -1 <= k < |rows|
    ensures k == -1 <==> !HasId(rows, id)
    ensures k >= 0 ==> rows[k].id == id
  {
    if rows == [] then -1
    else if rows[|rows| - 1].id == id then |rows| - 1
    else RowIndex(rows[..|rows| - 1], id)
  }

  /** A keyword argument that makes it into `set_clauses`: an allowed
      column with a value other than `None` (`False` qualifies). */
  predicate Qualifies(a: KwArg) {
    a.key in AllowedFields && !a.value.NoValue?
  }

  /** String columns receive strings and `completed` a boolean, as the
      validated update schema guarantees. */
  predicate WellTyped(kwargs: seq<KwArg>) {
    forall i :: 0 <= i < |kwargs| ==>
      (kwargs[i].key == "completed" ==> !kwargs[i].value.Str?) &&
      (kwargs[i].key != "completed" ==> !kwargs[i].value.Flag?)
  }

  /** Python keyword arguments never repeat a name. */
  predicate DistinctKeys(kwargs: seq<KwArg>) {
    forall i, j :: 0 <= i < j < |kwargs| ==> kwargs[i].key != kwargs[j].key
  }

  /** The pairs the loop of `update_task` keeps, in argument order. */
  function Qualifying(kwargs: seq<KwArg>): (r: seq<KwArg>)
    ensures |r| <= |kwargs|
    ensures forall a :: a in r <==> a in kwargs && Qualifies(a)
  {
    if kwargs == [] then []
    else
      var last := kwargs[|kwargs| - 1];
      assert kwargs == kwargs[..|kwargs| - 1] + [last];
      Qualifying(kwargs[..|kwargs| - 1]) + (if Qualifies(last) then [last] else [])
  }

  /** The value given for `key`, or `NoValue` when it is not given. */
  function Lookup(kwargs: seq<KwArg>, key: string): Value {
    if kwargs == [] then NoValue
    else if kwargs[0].key == key then kwargs[0].value
    else Lookup(kwargs[1..], key)
  }

  /** Whether some argument is named `key`. */
  predicate HasKey(a: seq<KwArg>, key: string) {
    a != [] && (a[0].key == key || HasKey(a[1..], key))
  }

  /** A column is set by the `UPDATE` exactly when its argument is allowed
      and not `None`; its value is then the argument's value. */
  lemma {:induction false} QualifyingLookup(kwargs: seq<KwArg>, key: string)
    requires DistinctKeys(kwargs)
    ensures Lookup(Qualifying(kwargs), key) ==
      if key in AllowedFields then Lookup(kwargs, key) else NoValue
  {
    if kwargs != [] {
      var init := kwargs[..|kwargs| - 1];
      var last := kwargs[|kwargs| - 1];
      assert kwargs == init + [last];
      assert Qualifying(kwargs) == Qualifying(init) + (if Qualifies(last) then [last] else []);
      HasKeyMember(init, key);
      if HasKey(init, key) {
        assert DistinctKeys(init);
        QualifyingLookup(init, key);
        var j :| 0 <= j < |init| && init[j].key == key;
        assert kwargs[j] == init[j];
        QualifyingStepFound(init, last, key);
      } else {
        QualifyingStepNew(init, last, key);
      }
    }
  }

  /** The step of `QualifyingLookup` when `key` was given before `last`. */
  lemma QualifyingStepFound(init: seq<KwArg>, last: KwArg, key: string)
    requires HasKey(init, key) && last.key != key
    requires Lookup(Qualifying(init), key) == if key in AllowedFields then Lookup(init, key) else NoValue
    ensures Lookup(Qualifying(init) + (if Qualifies(last) then [last] else []), key) ==
      if key in AllowedFields then Lookup(init + [last], key) else NoValue
  {
    var q := Qualifying(init);
    var tail := if Qualifies(last) then [last] else [];
    LookupAppend(q, tail, key);
    LookupAppend(init, [last], key);
    assert [last][1..] == [];
    LookupAbsent(tail, key);
    if !HasKey(q, key) {
      LookupAbsent(q, key);
    }
  }

  /** The step of `QualifyingLookup` when `key` was not given before `last`. */
  lemma QualifyingStepNew(init: seq<KwArg>, last: KwArg, key: string)
    requires !HasKey(init, key)
    ensures Lookup(Qualifying(init) + (if Qualifies(last) then [last] else []), key) ==
      if key in AllowedFields then Lookup(init + [last], key) else NoValue
  {
    var q := Qualifying(init);
    var tail := if Qualifies(last) then [last] else [];
    HasKeyMember(init, key);
    QualifyingLacksKey(init, key);
    HasKeyMember(q, key);
    LookupAppend(q, tail, key);
    LookupAppend(init, [last], key);
    assert [last][1..] == [];
  }

  /** Filtering adds no argument name. */
  lemma QualifyingLacksKey(kwargs: seq<KwArg>, key: string)
    requires forall i :: 0 <= i < |kwargs| ==> kwargs[i].key != key
    ensures forall i :: 0 <= i < |Qualifying(kwargs)| ==> Qualifying(kwargs)[i].key != key
  {
    var q := Qualifying(kwargs);
    forall i | 0 <= i < |q| ensures q[i].key != key {
      assert q[i] in q;
      var j :| 0 <= j < |kwargs| && kwargs[j] == q[i];
    }
  }

  lemma {:induction false} HasKeyMember(a: seq<KwArg>, key: string)
    ensures HasKey(a, key) <==> exists i :: 0 <= i < |a| && a[i].key == key
  {
    if a != [] {
      HasKeyMember(a[1..], key);
      if !HasKey(a, key) {
        forall i | 0 <= i < |a| ensures a[i].key != key {
          if i > 0 {
            assert a[i] == a[1..][i - 1];
          }
        }
      } else if a[0].key != key {
        var i :| 0 <= i < |a[1..]| && a[1..][i].key == key;
        assert a[i + 1] == a[1..][i];
      }
    }
  }

  lemma {:induction false} LookupAppend(a: seq<KwArg>, b: seq<KwArg>, key: string)
    ensures Lookup(a + b, key) == if HasKey(a, key) then Lookup(a, key) else Lookup(b, key)
  {
    if a != [] {
      assert (a + b)[0] == a[0] && (a + b)[1..] == a[1..] + b;
      LookupAppend(a[1..], b, key);
    } else {
      assert a + b == b;
    }
  }

  lemma {:induction false} LookupAbsent(a: seq<KwArg>, key: string)
    requires !HasKey(a, key)
    ensures Lookup(a, key) == NoValue
  {
    if a != [] {
      LookupAbsent(a[1..], key);
    }
  }

  function StrOr(v: Value, d: string): string {
    if v.Str? then v.s else d
  }

  function FlagOr(v: Value, d: bool): bool {
    if v.Flag? then v.b else d
  }

  /** `UPDATE tasks SET <clauses>, updated_at = CURRENT_TIMESTAMP` on one row. */
  function SetColumns(r: Row, clauses: seq<KwArg>, now: int): Row {
    r.(title := StrOr(Lookup(clauses, "title"), r.title),
       description := StrOr(Lookup(clauses, "description"), r.description),
       completed := FlagOr(Lookup(clauses, "completed"), r.completed),
       updatedAt := now)
  }

  /** Rows not matching `id`, in order: `DELETE ... WHERE id = ?`. */
  function Without(rows: seq<Row>, id: int): (r: seq<Row>)
    ensures forall x :: x in r <==> x in rows && x.id != id
    ensures !HasId(rows, id) ==> r == rows
  {
    if rows == [] then []
    else if rows[0].id == id then Without(rows[1..], id)
    else
      assert rows == [rows[0]] + rows[1..];
      [rows[0]] + Without(rows[1..], id)
  }

  function CountCompleted(rows: seq<Row>): (n: nat)
    ensures n <= |rows|
    ensures rows != [] && (forall i :: 0 <= i < |rows| ==> rows[i].completed) ==> n == |rows|
  {
    if rows == [] then 0
    else (if rows[0].completed then 1 else 0) + CountCompleted(rows[1..])
  }

  /** `ORDER BY completed, created_at DESC`: open tasks first, newest first. */
  function ListRank(r: Row): Rank {
    Rank(if r.completed then 1 else 0, -r.createdAt)
  }

  /** `ORDER BY created_at DESC`. */
  function RecencyRank(r: Row): Rank {
    Rank(0, -r.createdAt)
  }

  /** The rows `get_all_tasks` returns. Rows with equal keys keep table
      order. */
  function Listing(rows: seq<Row>): (r: seq<Row>)
    ensures multiset(r) == multiset(rows)
    ensures forall i, j :: 0 <= i < j < |r| && r[i].completed ==> r[j].completed
    ensures forall i, j :: 0 <= i < j < |r| && r[i].completed == r[j].completed ==> r[i].createdAt >= r[j].createdAt
  {
    var r := SortBy(rows, ListRank);
    assert forall i, j :: 0 <= i < j < |r| ==> RankLe(ListRank(r[i]), ListRank(r[j]));
    r
  }

  /** `title LIKE %kw% OR description LIKE %kw%`, as a substring test. */
  predicate Matches(r: Row, keyword: string) {
    Contains(r.title, keyword) || Contains(r.description, keyword)
  }

  function Matching(rows: seq<Row>, keyword: string): (r: seq<Row>)
    ensures forall x :: x in r <==> x in rows && Matches(x, keyword)
    ensures forall x :: multiset(r)[x] == if Matches(x, keyword) then multiset(rows)[x] else 0
  {
    if rows == [] then []
    else
      assert rows == [rows[0]] + rows[1..];
      (if Matches(rows[0], keyword) then [rows[0]] else []) + Matching(rows[1..], keyword)
  }

  /** `dict(row)` of a `SELECT` over all six columns: every key is present,
      and the timestamps are the text SQLite gives for them (`stamp`). */
  function RowDict(r: Row, stamp: int -> string): TaskSchemas.ResponsePayload {
    TaskSchemas.ResponsePayload(
      TaskSchemas.Given(r.id), TaskSchemas.Given(r.title), TaskSchemas.Given(r.description),
      TaskSchemas.Given(r.completed), TaskSchemas.Given(stamp(r.createdAt)), TaskSchemas.Given(stamp(r.updatedAt)))
  }

  /** Every row the database hands out is a valid `TaskResponse`, with its
      columns and both timestamps carried over. */
  lemma StoredRowParses(r: Row, stamp: int -> string)
    ensures TaskSchemas.ParseResponse(RowDict(r, stamp)) ==
      Some(TaskSchemas.TaskResponse(r.id, r.title, r.description, r.completed,
        Some(stamp(r.createdAt)), Some(stamp(r.updatedAt))))
  {
  }

  /** The seeded rows, numbered from `firstId`. */
  function SampleRows(firstId: int, now: int): (r: seq<Row>)
    ensures |r| == 5 && IdsIncreasing(r)
    ensures forall i :: 0 <= i < 5 ==> r[i].id == firstId + i && r[i].createdAt == now
  {
    [Row(firstId, "Изучить Python", "Пройти курс по Python и Flask", true, now, now),
     Row(firstId + 1, "Создать REST API", "Написать API на Flask с SQLite", false, now, now),
     Row(firstId + 2, "Изучить SQLite", "Разобраться с работой SQLite в Python", false, now, now),
     Row(firstId + 3, "Добавить валидацию", "Реализовать Pydantic схемы", true, now, now),
     Row(firstId + 4, "Написать документацию", "Описать API endpoints", false, now, now)]
  }

  class Database {
    var rows: seq<Row>
    /** The id AUTOINCREMENT gives the next inserted row. */
    var nextId: int

    ghost predicate Valid()
      reads this
    {
      IdsIncreasing(rows) && forall i :: 0 <= i < |rows| ==> rows[i].id < nextId
    }

    /** A fresh database file: the table is created empty and seeded. */
    constructor (now: int)
      ensures Valid()
      ensures rows == SampleRows(1, now) && nextId == 6
    {
      rows := SampleRows(1, now);
      nextId := 6;
    }

    /** `init_db` on an existing file: seeds only an empty table. */
    method InitDb(now: int)
      requires Valid()
      modifies this
      ensures Valid()
      ensures old(rows) == [] ==> rows == SampleRows(old(nextId), now) && nextId == old(nextId) + 5
      ensures old(rows) != [] ==> rows == old(rows) && nextId == old(nextId)
    {
      if |rows| == 0 {
        rows := SampleRows(nextId, now);
        nextId := nextId + 5;
      }
    }

    /** `get_task_by_id`. */
    method GetTaskById(id: int) returns (r: Option<Row>)
      requires Valid()
      ensures r.Some? <==> HasId(rows, id)
      ensures r.Some? ==> r.value in rows && r.value.id == id
      ensures r.Some? ==> forall x :: x in rows && x.id == id ==> x == r.value
    {
      var k := RowIndex(rows, id);
      r := if k == -1 then None else Some(rows[k]);
    }

    /** `create_task`: a new open row under a fresh id, returned as read
        back. */
    method CreateTask(title: string, description: string, now: int) returns (r: Row)
      requires Valid()
      modifies this
      ensures Valid()
      ensures r == Row(old(nextId), title, description, false, now, now)
      ensures rows == old(rows) + [r] && nextId == old(nextId) + 1
      ensures !HasId(old(rows), r.id)
    {
      r := Row(nextId, title, description, false, now, now);
      rows := rows + [r];
      nextId := nextId + 1;
    }

    /** `update_task`: builds the `SET` list from the allowed, non-`None`
        arguments; with none it answers `None` without touching the table,
        otherwise it updates the row with `id`, if there is one. */
    method UpdateTask(id: int, kwargs: seq<KwArg>, now: int) returns (r: Option<Row>)
      requires Valid() && DistinctKeys(kwargs) && WellTyped(kwargs)
      modifies this
      ensures Valid() && nextId == old(nextId)
      ensures Qualifying(kwargs) == [] ==> r == None && rows == old(rows)
      ensures !HasId(old(rows), id) ==> r == None && rows == old(rows)
      ensures Qualifying(kwargs) != [] && HasId(old(rows), id) ==>
        var k := RowIndex(old(rows), id);
        r == Some(SetColumns(old(rows)[k], kwargs, now)) && rows == old(rows)[k := r.value]
    {
      var clauses: seq<KwArg> := [];
      var i := 0;
      while i < |kwargs|
        invariant 0 <= i <= |kwargs|
        invariant clauses == Qualifying(kwargs[..i])
      {
        assert kwargs[..i + 1][..i] == kwargs[..i];
        if kwargs[i].key in AllowedFields && !kwargs[i].value.NoValue? {
          clauses := clauses + [kwargs[i]];
        }
        i := i + 1;
      }
      assert kwargs[..i] == kwargs;
      if clauses == [] {
        return None;
      }
      var k := RowIndex(rows, id);
      if k == -1 {
        return None;
      }
      FilterKeepsColumns(rows[k], kwargs, now);
      var updated := SetColumns(rows[k], clauses, now);
      rows := rows[k := updated];
      r := Some(updated);
    }

    /** `delete_task`: true exactly when a row with `id` existed; afterwards
        none does. */
    method DeleteTask(id: int) returns (deleted: bool)
      requires Valid()
      modifies this
      ensures Valid() && nextId == old(nextId)
      ensures deleted <==> HasId(old(rows), id)
      ensures rows == Without(old(rows), id)
      ensures !HasId(rows, id)
    {
      deleted := RowIndex(rows, id) != -1;
      WithoutKeepsOrder(rows, id);
      rows := Without(rows, id);
    }

    /** `delete_all_tasks`: the number of rows before the deletion. */
    method DeleteAllTasks() returns (count: nat)
      requires Valid()
      modifies this
      ensures Valid() && nextId == old(nextId)
      ensures count == |old(rows)| && rows == []
    {
      count := |rows|;
      rows := [];
    }

    /** `toggle_task_completion`: flips `completed` of the row with `id`. */
    method ToggleTaskCompletion(id: int, now: int) returns (r: Option<Row>)
      requires Valid()
      modifies this
      ensures Valid() && nextId == old(nextId)
      ensures !HasId(old(rows), id) ==> r == None && rows == old(rows)
      ensures HasId(old(rows), id) ==>
        var k := RowIndex(old(rows), id);
        && r.Some? && r.value.id == id
        && r.value.completed == !old(rows)[k].completed
        && r.value == old(rows)[k].(completed := r.value.completed, updatedAt := now)
        && rows == old(rows)[k := r.value]
    {
      var k := RowIndex(rows, id);
      if k == -1 {
        return None;
      }
      var toggled := rows[k].(completed := !rows[k].completed, updatedAt := now);
      rows := rows[k := toggled];
      r := Some(toggled);
    }

    /** `get_stats`: SUM over an empty table is NULL, so `completed` and
        `active` are absent then. */
    method GetStats() returns (s: DbStats)
      ensures s.total == |rows|
      ensures s.completed.None? <==> rows == []
      ensures s.active.None? <==> rows == []
      ensures rows != [] ==> s.completed.value == CountCompleted(rows)
      ensures rows != [] ==> s.completed.value + s.active.value == s.total
      ensures s.completionRate == TaskStats.CompletionRate(if rows == [] then 0 else CountCompleted(rows), |rows|)
      ensures rows == [] ==> s.completionRate == 0.0
    {
      var total := |rows|;
      if total == 0 {
        return DbStats(0, None, None, 0.0);
      }
      var completed := CountCompleted(rows);
      s := DbStats(total, Some(completed), Some(total - completed), TaskStats.CompletionRate(completed, total));
    }

    /** `get_all_tasks`. */
    method GetAllTasks() returns (r: seq<Row>)
      ensures r == Listing(rows)
    {
      r := Listing(rows);
    }

    /** `search_tasks`: a blank keyword lists everything as `get_all_tasks`
        does; otherwise the matching rows, newest first. */
    method SearchTasks(keyword: string) returns (r: seq<Row>)
      ensures IsBlank(keyword) ==> r == Listing(rows)
      ensures !IsBlank(keyword) ==> SortedBy(r, RecencyRank)
      ensures !IsBlank(keyword) ==> multiset(r) == multiset(Matching(rows, keyword))
      ensures !IsBlank(keyword) ==> forall x :: x in r <==> x in rows && Matches(x, keyword)
    {
      TrimEmptyIffBlank(keyword);
      if Trim(keyword) == [] {
        r := Listing(rows);
      } else {
        r := SortBy(Matching(rows, keyword), RecencyRank);
        assert forall x :: x in r <==> x in multiset(r);
      }
    }
  }

  /** `DELETE ... WHERE id = ?` keeps the other rows in increasing id order. */
  lemma {:induction false} WithoutKeepsOrder(rows: seq<Row>, id: int)
    requires IdsIncreasing(rows)
    ensures IdsIncreasing(Without(rows, id))
  {
    if rows != [] {
      var tail := rows[1..];
      assert forall p :: 0 <= p < |tail| ==> tail[p] == rows[p + 1];
      WithoutKeepsOrder(tail, id);
      var rest := Without(tail, id);
      forall x | x in rest ensures rows[0].id < x.id {
        var i :| 0 <= i < |tail| && tail[i] == x;
      }
      if rows[0].id != id {
        ConsIncreasing(rows[0], rest);
      }
    }
  }

  /** A row with a smaller id than all of an increasing list may go first. */
  lemma ConsIncreasing(h: Row, rest: seq<Row>)
    requires IdsIncreasing(rest) && forall x :: x in rest ==> h.id < x.id
    ensures IdsIncreasing([h] + rest)
  {
    var r := [h] + rest;
    forall i, j | 0 <= i < j < |r| ensures r[i].id < r[j].id {
      assert r[j] == rest[j - 1];
      if i > 0 {
        assert r[i] == rest[i - 1];
      }
    }
  }

  /** Dropping the disallowed and `None` arguments changes no column: the
      row comes out as if every argument had been applied. */
  lemma FilterKeepsColumns(r: Row, kwargs: seq<KwArg>, now: int)
    requires DistinctKeys(kwargs)
    ensures SetColumns(r, Qualifying(kwargs), now) == SetColumns(r, kwargs, now)
  {
    QualifyingLookup(kwargs, "title");
    QualifyingLookup(kwargs, "description");
    QualifyingLookup(kwargs, "completed");
  }

  /** `completed=False` is an update, not a missing argument. */
  lemma FalseIsApplied(r: Row, now: int)
    ensures Qualifying([KwArg("completed", Flag(false))]) != []
    ensures !SetColumns(r, Qualifying([KwArg("completed", Flag(false))]), now).completed
  {
    assert Qualifying([KwArg("completed", Flag(false))]) == [KwArg("completed", Flag(false))] by {
      assert [KwArg("completed", Flag(false))][..0] == [];
    }
  }
}
