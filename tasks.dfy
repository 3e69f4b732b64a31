/** The task record shared by the server table and the client list (app/models.py),
    and the request body of create and update (app/schemas.py, `TaskCreate`). */
module Tasks {
  import Seqs

  /** `TaskStatus`: exactly three values. */
  datatype Progress = Planned | InProgress | Done

  /** The text form of a progress value, as it travels in JSON and is compared in queries. */
  function ProgressText(p: Progress): string
  {
    match p
    case Planned => "planned"
    case InProgress => "in-progress"
    case Done => "done"
  }

  /** Distinct progress values have distinct texts, so a status text selects exactly
      one progress value. */
  lemma ProgressTextInjective(p: Progress, q: Progress)
    ensures ProgressText(p) == ProgressText(q) ==> p == q
  {
  }

  /** Server-assigned creation time, opaque to both sides. */
  type Timestamp = int

  datatype Task = Task(
    taskId: int,
    userId: int,
    title: string,
    content: string,
    progress: Progress,
    createdAt: Timestamp)

  /** The body of `POST /tasks/` and `PUT /tasks/{id}`. */
  datatype TaskPayload = TaskPayload(title: string, content: string, progress: Progress)

  /** The fields a payload carries, read off a task. */
  function PayloadOf(t: Task): TaskPayload
  {
    TaskPayload(t.title, t.content, t.progress)
  }

  /** `task_id` is the primary key: no two entries share one. */
  ghost predicate UniqueIds(tasks: seq<Task>)
  {
    forall i, j :: 0 <= i < j < |tasks| ==> tasks[i].taskId != tasks[j].taskId
  }

  predicate HasId(tasks: seq<Task>, id: int)
  {
    exists i :: 0 <= i < |tasks| && tasks[i].taskId == id
  }

  /** The keep-condition of a removal: every task whose id differs from `id`. */
  function NotId(id: int): Task -> bool
  {
    (t: Task) => t.taskId != id
  }

  /** `tasks.filter(task => task.task_id !== id)` on the client, and
      `DELETE FROM tasks WHERE task_id = id` on the server. */
  function RemoveById(tasks: seq<Task>, id: int): (r: seq<Task>)
    ensures |r| <= |tasks|
    ensures !HasId(r, id)
    ensures forall i :: 0 <= i < |r| ==> r[i] in tasks
    ensures forall i :: 0 <= i < |tasks| && tasks[i].taskId != id ==> tasks[i] in r
  {
    Seqs.Filter(tasks, NotId(id))
  }

  /** Removing an id that is absent changes nothing. */
  lemma RemoveByIdAbsent(tasks: seq<Task>, id: int)
    requires !HasId(tasks, id)
    ensures RemoveById(tasks, id) == tasks
  {
    Seqs.FilterKeepsAll(tasks, NotId(id));
  }

  /** With unique ids, removing the id held at index `k` drops exactly that entry
      and keeps every other entry in its original order. */
  lemma RemoveByIdExact(tasks: seq<Task>, id: int, k: nat)
    requires UniqueIds(tasks)
    requires k < |tasks| && tasks[k].taskId == id
    ensures RemoveById(tasks, id) == tasks[..k] + tasks[k + 1..]
    ensures |RemoveById(tasks, id)| == |tasks| - 1
  {
    var keep := NotId(id);
    assert tasks == tasks[..k] + ([tasks[k]] + tasks[k + 1..]);
    Seqs.FilterConcat(tasks[..k], [tasks[k]] + tasks[k + 1..], keep);
    Seqs.FilterConcat([tasks[k]], tasks[k + 1..], keep);
    Seqs.FilterKeepsAll(tasks[..k], keep);
    Seqs.FilterKeepsAll(tasks[k + 1..], keep);
    assert Seqs.Filter([tasks[k]], keep) == [];
  }

  /** Removal keeps ids unique. */
  lemma {:induction false} RemoveByIdKeepsUnique(tasks: seq<Task>, id: int)
    requires UniqueIds(tasks)
    ensures UniqueIds(RemoveById(tasks, id))
    decreases |tasks|
  {
    if tasks != [] {
      var keep := NotId(id);
      RemoveByIdKeepsUnique(tasks[1..], id);
      assert tasks == [tasks[0]] + tasks[1..];
      Seqs.FilterConcat([tasks[0]], tasks[1..], keep);
      var rest := RemoveById(tasks[1..], id);
      forall i | 0 <= i < |rest|
        ensures rest[i].taskId != tasks[0].taskId
      {
        assert rest[i] in tasks[1..];
      }
    }
  }
}
