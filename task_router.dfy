/** The `/tasks` router (app/routers/task.py): listing and reading are queries over the
    task table; create, update and delete change it. The table is a sequence in table
    order, the signed-in user's id is a plain input, and an `HTTPException` is an
    `HttpError` result. */
module TaskRouter {
  import opened Wrappers
  import opened Tasks
  import Seqs
  import SqlLike

  datatype HttpError = HttpError(status: int, detail: string)

  const NotAuthorizedDetail := "Not authorized to perform requested action"

  function DigitChar(d: nat): (c: char)
    requires d < 10
    ensures '0' <= c <= '9'
  {
    "0123456789"[d]
  }

  /** Python's `str(n)` for a non-negative integer. */
  function NatToString(n: nat): (s: string)
    ensures |s| >= 1
    ensures forall i :: 0 <= i < |s| ==> '0' <= s[i] <= '9'
    decreases n
  {
    if n < 10 then [DigitChar(n)] else NatToString(n / 10) + [DigitChar(n % 10)]
  }

  /** Python's `str(i)`, as the f-strings of the handlers render an id. */
  function IntToString(i: int): string
  {
    if i < 0 then "-" + NatToString(-i) else NatToString(i)
  }

  // ---------------------------------------------------------------------------
  // GET /tasks/ : owner filter, optional search, optional status, then paging.

  /** The query parameters of `root`; `limit` defaults to 10 and `skip` to 0. */
  datatype ListQuery = ListQuery(limit: nat, skip: nat, search: Option<string>, status: Option<string>)

  const DefaultListQuery := ListQuery(10, 0, None, None)

  /** Python truthiness of an optional string: present and not empty. */
  predicate Given(o: Option<string>)
  {
    o.Some? && o.value != []
  }

  function OwnedBy(user: int): Task -> bool
  {
    (t: Task) => t.userId == user
  }

  /** `or_(progress.contains(search), content.contains(search))`: `title` is not searched. */
  function SearchHit(search: string): Task -> bool
  {
    (t: Task) => SqlLike.Contains(ProgressText(t.progress), search) || SqlLike.Contains(t.content, search)
  }

  function StatusIs(status: string): Task -> bool
  {
    (t: Task) => ProgressText(t.progress) == status
  }

  /** Whether one row passes every `filter` the query applies. */
  predicate Matches(t: Task, user: int, q: ListQuery)
  {
    && t.userId == user
    && (Given(q.search) ==> SearchHit(q.search.value)(t))
    && (Given(q.status) ==> StatusIs(q.status.value)(t))
  }

  /** The filtered query before `offset`/`limit`, in table order. */
  function Selected(rows: seq<Task>, user: int, q: ListQuery): (r: seq<Task>)
    ensures |r| <= |rows|
    ensures forall i :: 0 <= i < |r| ==> r[i] in rows && Matches(r[i], user, q)
    ensures forall i :: 0 <= i < |rows| && Matches(rows[i], user, q) ==> rows[i] in r
  {
    var owned := Seqs.Filter(rows, OwnedBy(user));
    var searched := if Given(q.search) then Seqs.Filter(owned, SearchHit(q.search.value)) else owned;
    if Given(q.status) then Seqs.Filter(searched, StatusIs(q.status.value)) else searched
  }

  /** `.offset(skip).limit(limit)`. */
  function Page(s: seq<Task>, skip: nat, limit: nat): (r: seq<Task>)
    ensures |r| <= limit
    ensures |r| == if skip >= |s| then 0 else if |s| - skip <= limit then |s| - skip else limit
    ensures forall i :: 0 <= i < |r| ==> skip + i < |s| && r[i] == s[skip + i]
  {
    if skip >= |s| then []
    else if |s| - skip <= limit then s[skip..]
    else s[skip..skip + limit]
  }

  /** `root`: the caller's tasks that pass the search and status filters, one page of them. */
  function ListTasks(rows: seq<Task>, user: int, q: ListQuery): (r: seq<Task>)
    ensures |r| <= q.limit
    ensures forall i :: 0 <= i < |r| ==> r[i] in rows && r[i].userId == user
    ensures Given(q.status) ==> forall i :: 0 <= i < |r| ==> ProgressText(r[i].progress) == q.status.value
    ensures Given(q.search) ==> forall i :: 0 <= i < |r| ==>
      SqlLike.Contains(ProgressText(r[i].progress), q.search.value) || SqlLike.Contains(r[i].content, q.search.value)
  {
    Page(Selected(rows, user, q), q.skip, q.limit)
  }

  /** Two consecutive pages make up the longer page that starts where the first does. */
  lemma PageTile(s: seq<Task>, skip: nat, a: nat, b: nat)
    ensures Page(s, skip, a) + Page(s, skip + a, b) == Page(s, skip, a + b)
  {
  }

  /** Consecutive pages of a listing tile the selection: the page of `a` rows at `skip`
      followed by the page of `b` rows right after it is the page of `a + b` rows. */
  lemma PagesTile(rows: seq<Task>, user: int, q: ListQuery, a: nat, b: nat)
    ensures ListTasks(rows, user, q.(limit := a)) + ListTasks(rows, user, q.(skip := q.skip + a, limit := b))
         == ListTasks(rows, user, q.(limit := a + b))
  {
    var s := Selected(rows, user, q);
    assert Selected(rows, user, q.(limit := a)) == s;
    assert Selected(rows, user, q.(skip := q.skip + a, limit := b)) == s;
    assert Selected(rows, user, q.(limit := a + b)) == s;
    PageTile(s, q.skip, a, b);
  }

  /** With the default parameters the caller sees their first ten tasks in table order. */
  lemma DefaultListing(rows: seq<Task>, user: int)
    ensures var owned := Seqs.Filter(rows, OwnedBy(user));
      ListTasks(rows, user, DefaultListQuery) == if |owned| <= 10 then owned else owned[..10]
  {
  }

  /** After `DELETE /tasks/{id}` no listing shows that id again. */
  lemma ListingAfterDelete(rows: seq<Task>, id: int, user: int, q: ListQuery)
    ensures !HasId(ListTasks(RemoveById(rows, id), user, q), id)
  {
  }

  /** A search string without `%`, `_` or `\` selects by plain substring. */
  lemma ListSearchIsSubstring(rows: seq<Task>, user: int, q: ListQuery)
    requires Given(q.search) && SqlLike.NoWildcards(q.search.value)
    ensures forall t :: t in ListTasks(rows, user, q) ==>
      SqlLike.IsSubstring(q.search.value, ProgressText(t.progress)) || SqlLike.IsSubstring(q.search.value, t.content)
  {
    forall t | t in ListTasks(rows, user, q)
      ensures SqlLike.IsSubstring(q.search.value, ProgressText(t.progress)) || SqlLike.IsSubstring(q.search.value, t.content)
    {
      SqlLike.ContainsIsSubstring(ProgressText(t.progress), q.search.value);
      SqlLike.ContainsIsSubstring(t.content, q.search.value);
    }
  }

  /** A row appended to the table that passes the filters comes last in the selection. */
  lemma SelectedAppend(rows: seq<Task>, created: Task, user: int, q: ListQuery)
    requires Matches(created, user, q)
    ensures Selected(rows + [created], user, q) == Selected(rows, user, q) + [created]
  {
    var owned := Seqs.Filter(rows, OwnedBy(user));
    Seqs.FilterConcat(rows, [created], OwnedBy(user));
    assert Seqs.Filter([created], OwnedBy(user)) == [created];
    var searched := if Given(q.search) then Seqs.Filter(owned, SearchHit(q.search.value)) else owned;
    if Given(q.search) {
      Seqs.FilterConcat(owned, [created], SearchHit(q.search.value));
      assert Seqs.Filter([created], SearchHit(q.search.value)) == [created];
    }
    if Given(q.status) {
      Seqs.FilterConcat(searched, [created], StatusIs(q.status.value));
      assert Seqs.Filter([created], StatusIs(q.status.value)) == [created];
    }
  }

  /** A task just created by the caller is listed on the page that reaches the end of
      the selection. */
  lemma CreatedIsListed(rows: seq<Task>, created: Task, user: int, q: ListQuery)
    requires Matches(created, user, q)
    requires q.skip <= |Selected(rows, user, q)| < q.skip + q.limit
    ensures created in ListTasks(rows + [created], user, q)
  {
    SelectedAppend(rows, created, user, q);
    var s := Selected(rows + [created], user, q);
    var r := ListTasks(rows + [created], user, q);
    assert r[|s| - 1 - q.skip] == s[|s| - 1];
  }

  /** `contains(search, autoescape=True)`: the search string matches only itself. */
  function ListTasksEscaped(rows: seq<Task>, user: int, q: ListQuery): (r: seq<Task>)
    ensures |r| <= q.limit
    ensures forall i :: 0 <= i < |r| ==> r[i] in rows && r[i].userId == user
    ensures Given(q.status) ==> forall i :: 0 <= i < |r| ==> ProgressText(r[i].progress) == q.status.value
    ensures Given(q.search) ==> forall i :: 0 <= i < |r| ==>
      SqlLike.IsSubstring(q.search.value, ProgressText(r[i].progress)) || SqlLike.IsSubstring(q.search.value, r[i].content)
  {
    var escaped := if q.search.Some? then Some(SqlLike.Escape(q.search.value)) else None;
    var r := ListTasks(rows, user, q.(search := escaped));
    forall i | 0 <= i < |r| && Given(q.search)
      ensures SqlLike.IsSubstring(q.search.value, ProgressText(r[i].progress)) || SqlLike.IsSubstring(q.search.value, r[i].content)
    {
      SqlLike.EscapedContainsIsSubstring(ProgressText(r[i].progress), q.search.value);
      SqlLike.EscapedContainsIsSubstring(r[i].content, q.search.value);
    }
    r
  }

  /** A search for `d_ne` lists a task whose content is `dune`, although neither its content
      nor its progress contains `d_ne`; with `autoescape` it is not listed. */
  lemma SearchWildcardExample()
    ensures var row := Task(1, 7, "chores", "dune", Planned, 0);
      var q := DefaultListQuery.(search := Some("d_ne"));
      && ListTasks([row], 7, q) == [row]
      && ListTasksEscaped([row], 7, q) == []
  {
    var row := Task(1, 7, "chores", "dune", Planned, 0);
    var q := DefaultListQuery.(search := Some("d_ne"));
    SqlLike.UnderscoreIsWildcard();
    assert Seqs.Filter([row], OwnedBy(7)) == [row];
    assert Seqs.Filter([row], SearchHit("d_ne")) == [row];
    assert !SqlLike.IsSubstring("d_ne", "planned") by {
      forall k | 0 <= k <= 3
        ensures !SqlLike.OccursAt("d_ne", "planned", k)
      {
        assert "planned"[k..k + 4][0] != 'd';
      }
    }
    SqlLike.EscapedContainsIsSubstring("planned", "d_ne");
    SqlLike.EscapedContainsIsSubstring("dune", "d_ne");
    assert Seqs.Filter([row], SearchHit(SqlLike.Escape("d_ne"))) == [];
  }

  // ---------------------------------------------------------------------------
  // GET, PUT and DELETE /tasks/{id}: 404 when absent, then 403 when not the owner.

  /** `.filter(task_id == id).first()`. */
  function FindTask(rows: seq<Task>, id: int): (r: Option<Task>)
    ensures r.None? <==> !HasId(rows, id)
    ensures r.Some? ==> r.value in rows && r.value.taskId == id
    ensures r.Some? && UniqueIds(rows) ==> forall i :: 0 <= i < |rows| && rows[i].taskId == id ==> rows[i] == r.value
    decreases |rows|
  {
    if rows == [] then None
    else if rows[0].taskId == id then Some(rows[0])
    else
      var r := FindTask(rows[1..], id);
      assert HasId(rows[1..], id) ==> HasId(rows, id) by {
        if HasId(rows[1..], id) {
          var k :| 0 <= k < |rows[1..]| && rows[1..][k].taskId == id;
          assert rows[k + 1].taskId == id;
        }
      }
      r
  }

  /** The shared checks of the single-task handlers, in their order: the 404 for a missing
      id comes first, whoever asks; the 403 for someone else's task after it. */
  function Authorize(rows: seq<Task>, id: int, user: int, notFound: string): (r: Result<Task, HttpError>)
    ensures !HasId(rows, id) ==> r == Err(HttpError(404, notFound))
    ensures HasId(rows, id) && FindTask(rows, id).value.userId != user ==> r == Err(HttpError(403, NotAuthorizedDetail))
    ensures r.Ok? <==> HasId(rows, id) && FindTask(rows, id).value.userId == user
    ensures r.Ok? ==> r.value in rows && r.value.taskId == id && r.value.userId == user
  {
    match FindTask(rows, id)
    case None => Err(HttpError(404, notFound))
    case Some(t) => if t.userId != user then Err(HttpError(403, NotAuthorizedDetail)) else Ok(t)
  }

  /** With unique ids, only the owner of an existing task gets past the checks. */
  lemma AuthorizeOwnerOnly(rows: seq<Task>, id: int, user: int, notFound: string)
    requires UniqueIds(rows)
    ensures Authorize(rows, id, user, notFound).Ok? <==>
      exists i :: 0 <= i < |rows| && rows[i].taskId == id && rows[i].userId == user
  {
  }

  /** `read_single_task`. */
  function ReadSingleTask(rows: seq<Task>, id: int, user: int): (r: Result<Task, HttpError>)
    ensures !HasId(rows, id) ==> r == Err(HttpError(404, "Task with id: " + IntToString(id) + " not found"))
    ensures HasId(rows, id) && FindTask(rows, id).value.userId != user ==> r == Err(HttpError(403, NotAuthorizedDetail))
    ensures r.Ok? <==> HasId(rows, id) && FindTask(rows, id).value.userId == user
    ensures r.Ok? ==> r.value in rows && r.value.taskId == id && r.value.userId == user
  {
    Authorize(rows, id, user, "Task with id: " + IntToString(id) + " not found")
  }

  /** The detail of the 404 raised by `update_task` and `delete_task`. */
  function WasNotFound(id: int): string
  {
    "Task with id: " + IntToString(id) + " was not found"
  }

  /** A row with the payload's `title`, `content` and `progress`; the rest is kept. */
  function WithPayload(t: Task, p: TaskPayload): (u: Task)
    ensures PayloadOf(u) == p
    ensures u.taskId == t.taskId && u.userId == t.userId && u.createdAt == t.createdAt
  {
    t.(title := p.title, content := p.content, progress := p.progress)
  }

  /** `UPDATE tasks SET title, content, progress WHERE task_id = id`. */
  function UpdateRows(rows: seq<Task>, id: int, p: TaskPayload): (r: seq<Task>)
    ensures |r| == |rows|
    ensures forall i :: 0 <= i < |rows| ==>
      r[i] == if rows[i].taskId == id then WithPayload(rows[i], p) else rows[i]
    decreases |rows|
  {
    if rows == [] then []
    else [if rows[0].taskId == id then WithPayload(rows[0], p) else rows[0]] + UpdateRows(rows[1..], id, p)
  }

  /** An update keeps every id where it was, so ids stay unique and present. */
  lemma UpdateRowsKeepsIds(rows: seq<Task>, id: int, p: TaskPayload)
    ensures forall i :: 0 <= i < |rows| ==> UpdateRows(rows, id, p)[i].taskId == rows[i].taskId
    ensures UniqueIds(rows) ==> UniqueIds(UpdateRows(rows, id, p))
    ensures HasId(UpdateRows(rows, id, p), id) <==> HasId(rows, id)
  {
  }

  /** `PUT` twice with the same body leaves the table as one `PUT` does. */
  lemma UpdateRowsIdempotent(rows: seq<Task>, id: int, p: TaskPayload)
    ensures UpdateRows(UpdateRows(rows, id, p), id, p) == UpdateRows(rows, id, p)
  {
  }

  /** The row that `update_task` reads back is the updated one. */
  lemma FindAfterUpdate(rows: seq<Task>, id: int, p: TaskPayload)
    requires HasId(rows, id)
    ensures FindTask(UpdateRows(rows, id, p), id) == Some(WithPayload(FindTask(rows, id).value, p))
    decreases |rows|
  {
    if rows[0].taskId != id {
      assert HasId(rows[1..], id) by {
        var k :| 0 <= k < |rows| && rows[k].taskId == id;
        assert rows[1..][k - 1].taskId == id;
      }
      FindAfterUpdate(rows[1..], id, p);
      assert UpdateRows(rows, id, p)[1..] == UpdateRows(rows[1..], id, p);
    }
  }

  /** The table: rows in table order, and the primary-key sequence that numbers new rows. */
  class TaskTable {
    var rows: seq<Task>
    var nextId: int

    ghost predicate Valid()
      reads this
    {
      && nextId >= 1
      && UniqueIds(rows)
      && forall i :: 0 <= i < |rows| ==> rows[i].taskId < nextId
    }

    constructor ()
      ensures Valid()
      ensures rows == [] && nextId == 1
    {
      rows := [];
      nextId := 1;
    }

    /** `write_task`: a new row owned by the caller, with a fresh id and the database's
        clock as its creation time; every existing row is unchanged. */
    method WriteTask(payload: TaskPayload, user: int, now: Timestamp) returns (created: Task)
      requires Valid()
      modifies this
      ensures Valid()
      ensures created.userId == user && PayloadOf(created) == payload && created.createdAt == now
      ensures created.taskId == old(nextId) && !HasId(old(rows), created.taskId)
      ensures rows == old(rows) + [created]
      ensures nextId == old(nextId) + 1
    {
      created := Task(nextId, user, payload.title, payload.content, payload.progress, now);
      rows := rows + [created];
      nextId := nextId + 1;
    }

    /** `update_task`: the checks of `Authorize`; then the task's title, content and
        progress take the payload's values and the updated row is returned. */
    method UpdateTask(payload: TaskPayload, id: int, user: int) returns (r: Result<Task, HttpError>)
      requires Valid()
      modifies this
      ensures Valid() && nextId == old(nextId)
      ensures !HasId(old(rows), id) ==> r == Err(HttpError(404, WasNotFound(id)))
      ensures r.Err? ==> r == Authorize(old(rows), id, user, WasNotFound(id)) && rows == old(rows)
      ensures r.Ok? ==> Authorize(old(rows), id, user, WasNotFound(id)).Ok?
      ensures r.Ok? ==> rows == UpdateRows(old(rows), id, payload)
      ensures r.Ok? ==> r.value == WithPayload(Authorize(old(rows), id, user, WasNotFound(id)).value, payload)
      ensures Authorize(old(rows), id, user, WasNotFound(id)).Ok? ==> r.Ok?
    {
      var check := Authorize(rows, id, user, WasNotFound(id));
      if check.Err? {
        return check;
      }
      UpdateRowsKeepsIds(rows, id, payload);
      FindAfterUpdate(rows, id, payload);
      rows := UpdateRows(rows, id, payload);
      r := Ok(FindTask(rows, id).value);
    }

    /** `delete_task`: the checks of `Authorize`; then exactly the task with that id is
        removed, the others keep their order, and the confirmation text is returned. */
    method DeleteTask(id: int, user: int) returns (r: Result<string, HttpError>)
      requires Valid()
      modifies this
      ensures Valid() && nextId == old(nextId)
      ensures !HasId(old(rows), id) ==> r == Err(HttpError(404, WasNotFound(id)))
      ensures r.Err? ==> rows == old(rows)
      ensures r.Err? ==> Authorize(old(rows), id, user, WasNotFound(id)) == Err(r.error)
      ensures r.Ok? <==> Authorize(old(rows), id, user, WasNotFound(id)).Ok?
      ensures r.Ok? ==> r.value == "Task with id " + IntToString(id) + " was deleted"
      ensures r.Ok? ==> rows == RemoveById(old(rows), id) && |rows| == |old(rows)| - 1
    {
      var check := Authorize(rows, id, user, WasNotFound(id));
      if check.Err? {
        return Err(check.error);
      }
      var k :| 0 <= k < |rows| && rows[k].taskId == id;
      RemoveByIdExact(rows, id, k);
      RemoveByIdKeepsUnique(rows, id);
      rows := RemoveById(rows, id);
      r := Ok("Task with id " + IntToString(id) + " was deleted");
    }
  }
}
