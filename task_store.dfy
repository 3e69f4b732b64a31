/** The task list held by the `App` component (frontend/src/App.js). Each handler is one
    atomic step; the backend call it makes is an `ApiOutcome` parameter and
    `window.confirm` is a boolean parameter. */
module TaskStore {
  import opened Wrappers
  import opened Tasks
  import Seqs

  /** What a call through `taskAPI` gives the handler: the response body, or a thrown error. */
  datatype ApiOutcome<T> = Success(value: T) | Failure

  const LoadFailed := "Failed to load tasks"
  const AddFailed := "Failed to add task"
  const UpdateFailed := "Failed to update task"
  const DeleteFailed := "Failed to delete task"
  const FillInBoth := "Please fill in both title and content"

  // ---------------------------------------------------------------------------
  // `String.prototype.trim`

  /** The characters ECMAScript's `trim` strips: WhiteSpace and LineTerminator. */
  predicate IsJsWhitespace(c: char)
  {
    || c == '\t' || c == '\n' || c == '\U{000B}' || c == '\U{000C}' || c == '\r' || c == ' '
    || c == '\U{00A0}' || c == '\U{1680}' || ('\U{2000}' <= c <= '\U{200A}')
    || c == '\U{2028}' || c == '\U{2029}' || c == '\U{202F}' || c == '\U{205F}'
    || c == '\U{3000}' || c == '\U{FEFF}'
  }

  /** `s` without its leading whitespace. */
  function TrimStart(s: string): (r: string)
    ensures |r| <= |s| && r == s[|s| - |r|..]
    ensures r == [] || !IsJsWhitespace(r[0])
    ensures forall i :: 0 <= i < |s| - |r| ==> IsJsWhitespace(s[i])
    decreases |s|
  {
    if s != [] && IsJsWhitespace(s[0]) then
      var r := TrimStart(s[1..]);
      assert s[1..][|s| - 1 - |r|..] == s[|s| - |r|..];
      assert forall i :: 1 <= i < |s| - |r| ==> s[i] == s[1..][i - 1];
      r
    else s
  }

  /** `s` without its trailing whitespace. */
  function TrimEnd(s: string): (r: string)
    ensures |r| <= |s| && r == s[..|r|]
    ensures r == [] || !IsJsWhitespace(r[|r| - 1])
    ensures forall i :: |r| <= i < |s| ==> IsJsWhitespace(s[i])
    decreases |s|
  {
    if s != [] && IsJsWhitespace(s[|s| - 1]) then
      var r := TrimEnd(s[..|s| - 1]);
      assert s[..|s| - 1][..|r|] == s[..|r|];
      assert forall i :: |r| <= i < |s| - 1 ==> s[i] == s[..|s| - 1][i];
      r
    else s
  }

  function Trim(s: string): string
  {
    TrimEnd(TrimStart(s))
  }

  /** Nothing but whitespace. */
  predicate IsBlank(s: string)
  {
    forall i :: 0 <= i < |s| ==> IsJsWhitespace(s[i])
  }

  /** `s.trim() === ""` exactly when every character of `s` is whitespace. */
  lemma TrimEmptyIffBlank(s: string)
    ensures Trim(s) == [] <==> IsBlank(s)
  {
  }

  // ---------------------------------------------------------------------------
  // The new lists the handlers build.

  /** `tasks.map(t => t.task_id === id ? replacement : t)`. */
  function ReplaceById(tasks: seq<Task>, id: int, replacement: Task): (r: seq<Task>)
    ensures |r| == |tasks|
    ensures forall i :: 0 <= i < |tasks| ==>
      r[i] == if tasks[i].taskId == id then replacement else tasks[i]
    decreases |tasks|
  {
    if tasks == [] then []
    else [if tasks[0].taskId == id then replacement else tasks[0]] + ReplaceById(tasks[1..], id, replacement)
  }

  /** Saving the same server response twice leaves the list as saving it once. */
  lemma ReplaceByIdIdempotent(tasks: seq<Task>, id: int, replacement: Task)
    ensures ReplaceById(ReplaceById(tasks, id, replacement), id, replacement) == ReplaceById(tasks, id, replacement)
  {
  }

  /** With unique ids and a response carrying the same id, exactly the entry at `k`
      changes, and ids stay unique. */
  lemma ReplaceByIdAt(tasks: seq<Task>, id: int, replacement: Task, k: nat)
    requires UniqueIds(tasks) && k < |tasks| && tasks[k].taskId == id
    requires replacement.taskId == id
    ensures ReplaceById(tasks, id, replacement) == tasks[k := replacement]
    ensures UniqueIds(ReplaceById(tasks, id, replacement))
  {
  }

  /** The progress `quickToggleTask` sends: `done` goes back to `planned`, anything
      else, `in-progress` included, goes to `done`. */
  function Toggled(p: Progress): (r: Progress)
    ensures r != InProgress
    ensures r == Planned <==> p == Done
  {
    if p == Done then Planned else Done
  }

  /** Two toggles restore `planned` and `done`, and take `in-progress` to `planned`. */
  lemma ToggleTwice(p: Progress)
    ensures Toggled(Toggled(p)) == if p == InProgress then Planned else p
  {
  }

  // ---------------------------------------------------------------------------
  // The statistics computed on every render.

  function HasProgress(p: Progress): Task -> bool
  {
    (t: Task) => t.progress == p
  }

  /** `tasks.filter(task => task.progress === p).length`. */
  function CountProgress(tasks: seq<Task>, p: Progress): (n: nat)
    ensures n <= |tasks|
  {
    |Seqs.Filter(tasks, HasProgress(p))|
  }

  /** Planned, in progress and completed add up to the total. */
  lemma {:induction false} CountsSum(tasks: seq<Task>)
    ensures CountProgress(tasks, Planned) + CountProgress(tasks, InProgress) + CountProgress(tasks, Done) == |tasks|
    decreases |tasks|
  {
    if tasks != [] {
      CountsSum(tasks[1..]);
    }
  }

  lemma MulMono(d: nat, a: int, b: int)
    requires a <= b
    ensures d * a <= d * b
  {
  }

  /** `x / d` is the one `q` with `d * q <= x < d * q + d`. */
  lemma DivIsUnique(x: int, d: int, q: int)
    requires d > 0 && d * q <= x < d * q + d
    ensures x / d == q
  {
    var q' := x / d;
    assert d * q' + x % d == x && 0 <= x % d < d;
    if q' > q {
      MulMono(d, q + 1, q');
    } else if q' < q {
      MulMono(d, q' + 1, q);
    }
  }

  /** Half-up rounding of the completed share in percent, on integers. */
  function RoundedPercent(completed: nat, total: nat): (r: nat)
    requires completed <= total
    ensures r <= 100
    ensures total == 0 ==> r == 0
    ensures total > 0 ==> -(total as int) <= 200 * completed - 2 * total * r < total
  {
    if total > 0 then
      var x, d := 200 * completed + total, 2 * total;
      var r := x / d;
      assert d * r + x % d == x && 0 <= x % d < d;
      assert r <= 100 by {
        if r > 100 {
          MulMono(d, 101, r);
        }
      }
      r
    else 0
  }

  /** A whole share rounds to 100. */
  lemma RoundedPercentFull(total: nat)
    requires total > 0
    ensures RoundedPercent(total, total) == 100
  {
    DivIsUnique(200 * total + total, 2 * total, 100);
  }

  /** `Math.round(completed / total * 100)`, or 0 without tasks: the whole number nearest
      to the completed share in percent, halves rounded up. */
  function ProgressPercent(tasks: seq<Task>): (r: nat)
    ensures r <= 100
    ensures tasks == [] ==> r == 0
    ensures tasks != [] ==>
      -(|tasks| as int) <= 200 * CountProgress(tasks, Done) - 2 * |tasks| * r < |tasks|
  {
    RoundedPercent(CountProgress(tasks, Done), |tasks|)
  }

  /** The celebration banner: `completedCount === totalCount && totalCount > 0`. */
  predicate ShowsCelebration(tasks: seq<Task>)
  {
    CountProgress(tasks, Done) == |tasks| && |tasks| > 0
  }

  /** The banner shows exactly when there are tasks and all of them are done. */
  lemma CelebrationIffAllDone(tasks: seq<Task>)
    ensures ShowsCelebration(tasks) <==> tasks != [] && forall i :: 0 <= i < |tasks| ==> tasks[i].progress == Done
  {
    Seqs.FilterKeepsLength(tasks, HasProgress(Done));
  }

  /** When the banner shows, the progress reads 100%. */
  lemma CelebrationMeansFull(tasks: seq<Task>)
    ensures ShowsCelebration(tasks) ==> ProgressPercent(tasks) == 100
  {
    if ShowsCelebration(tasks) {
      RoundedPercentFull(|tasks|);
    }
  }

  /** The figures of the progress overview. */
  datatype TaskStats = TaskStats(planned: nat, inProgress: nat, completed: nat, total: nat, percent: nat, celebrate: bool)

  function Stats(tasks: seq<Task>): (s: TaskStats)
    ensures s.planned + s.inProgress + s.completed == s.total == |tasks|
    ensures s.percent <= 100 && (s.total == 0 ==> s.percent == 0)
    ensures s.celebrate <==> s.total > 0 && forall i :: 0 <= i < |tasks| ==> tasks[i].progress == Done
    ensures s.celebrate ==> s.percent == 100
    ensures s.planned == CountProgress(tasks, Planned) && s.inProgress == CountProgress(tasks, InProgress)
      && s.completed == CountProgress(tasks, Done)
    ensures s.total > 0 ==> -(s.total as int) <= 200 * s.completed - 2 * s.total * s.percent < s.total
  {
    CountsSum(tasks);
    CelebrationIffAllDone(tasks);
    CelebrationMeansFull(tasks);
    TaskStats(
      CountProgress(tasks, Planned), CountProgress(tasks, InProgress), CountProgress(tasks, Done),
      |tasks|, ProgressPercent(tasks), ShowsCelebration(tasks))
  }

  // ---------------------------------------------------------------------------
  // The component's state and its handlers.

  /** Every state variable of the component, plus the browser's `access_token` slot. */
  datatype AppState = AppState(
    storedToken: Option<string>,
    isLoggedIn: bool,
    tasks: seq<Task>,
    loading: bool,
    error: string,
    newTaskTitle: string,
    newTaskContent: string,
    newTaskProgress: Progress,
    editingTask: Option<int>,
    editTitle: string,
    editContent: string,
    editProgress: Progress)

  /** JavaScript truthiness of `localStorage.getItem(...)`: present and not empty. */
  predicate HasToken(stored: Option<string>)
  {
    stored.Some? && stored.value != []
  }

  class App {
    var storedToken: Option<string>
    var isLoggedIn: bool
    var tasks: seq<Task>
    var loading: bool
    var error: string
    var newTaskTitle: string
    var newTaskContent: string
    var newTaskProgress: Progress
    var editingTask: Option<int>
    var editTitle: string
    var editContent: string
    var editProgress: Progress

    function State(): AppState
      reads this
    {
      AppState(storedToken, isLoggedIn, tasks, loading, error,
               newTaskTitle, newTaskContent, newTaskProgress,
               editingTask, editTitle, editContent, editProgress)
    }

    /** The initial values of the `useState` hooks; `stored` is what the browser holds. */
    constructor (stored: Option<string>)
      ensures State() == AppState(stored, false, [], true, "", "", "", Planned, None, "", "", Planned)
    {
      storedToken := stored;
      isLoggedIn := false;
      tasks := [];
      loading := true;
      error := "";
      newTaskTitle, newTaskContent, newTaskProgress := "", "", Planned;
      editingTask, editTitle, editContent, editProgress := None, "", "", Planned;
    }

    /** `loadTasks`: on success the list becomes the server's list and the error is
        cleared; on failure the list stays and the error says so. Loading ends either way. */
    method LoadTasks(fetched: ApiOutcome<seq<Task>>)
      modifies this
      ensures fetched.Success? ==> State() == old(State()).(tasks := fetched.value, error := "", loading := false)
      ensures fetched.Failure? ==> State() == old(State()).(error := LoadFailed, loading := false)
    {
      loading := true;
      match fetched {
        case Success(data) =>
          tasks := data;
          error := "";
        case Failure =>
          error := LoadFailed;
      }
      loading := false;
    }

    /** The mount effect: with a stored token the user counts as logged in and the list
        is loaded; without one, loading simply ends. */
    method Mount(fetched: ApiOutcome<seq<Task>>)
      modifies this
      ensures HasToken(old(storedToken)) && fetched.Success? ==>
        State() == old(State()).(isLoggedIn := true, tasks := fetched.value, error := "", loading := false)
      ensures HasToken(old(storedToken)) && fetched.Failure? ==>
        State() == old(State()).(isLoggedIn := true, error := LoadFailed, loading := false)
      ensures !HasToken(old(storedToken)) ==> State() == old(State()).(loading := false)
    {
      if HasToken(storedToken) {
        isLoggedIn := true;
        LoadTasks(fetched);
      } else {
        loading := false;
      }
    }

    /** `handleLoginSuccess`: logged in, then the list is loaded. */
    method HandleLoginSuccess(fetched: ApiOutcome<seq<Task>>)
      modifies this
      ensures fetched.Success? ==>
        State() == old(State()).(isLoggedIn := true, tasks := fetched.value, error := "", loading := false)
      ensures fetched.Failure? ==>
        State() == old(State()).(isLoggedIn := true, error := LoadFailed, loading := false)
    {
      isLoggedIn := true;
      LoadTasks(fetched);
    }

    /** `handleLogout`: the stored token is removed, the user is logged out and the list
        is emptied, without any call to the backend. */
    method HandleLogout()
      modifies this
      ensures State() == old(State()).(storedToken := None, isLoggedIn := false, tasks := [])
    {
      storedToken := None;
      isLoggedIn := false;
      tasks := [];
    }

    /** The `onChange` handlers of the new-task form. */
    method SetNewTaskFields(title: string, content: string, progress: Progress)
      modifies this
      ensures State() == old(State()).(newTaskTitle := title, newTaskContent := content, newTaskProgress := progress)
    {
      newTaskTitle, newTaskContent, newTaskProgress := title, content, progress;
    }

    /** `newTaskTitle.trim() !== "" && newTaskContent.trim() !== ""`, by `TrimEmptyIffBlank`:
        both form fields hold something besides whitespace. */
    predicate FormFilled()
      reads this
    {
      !IsBlank(newTaskTitle) && !IsBlank(newTaskContent)
    }

    /** `addTask`: with a blank title or content nothing is sent and only the error
        changes; otherwise the form is sent, and on success the created task is appended
        and the form reset, on failure only the error changes. */
    method AddTask(created: ApiOutcome<Task>) returns (sent: Option<TaskPayload>)
      modifies this
      ensures sent.Some? <==> old(FormFilled())
      ensures sent.Some? ==> sent.value == TaskPayload(old(newTaskTitle), old(newTaskContent), old(newTaskProgress))
      ensures !old(FormFilled()) ==> State() == old(State()).(error := FillInBoth)
      ensures old(FormFilled()) && created.Success? ==>
        State() == old(State()).(tasks := old(tasks) + [created.value],
                                 newTaskTitle := "", newTaskContent := "", newTaskProgress := Planned, error := "")
      ensures old(FormFilled()) && created.Failure? ==> State() == old(State()).(error := AddFailed)
    {
      if FormFilled() {
        sent := Some(TaskPayload(newTaskTitle, newTaskContent, newTaskProgress));
        if created.Success? {
          tasks := tasks + [created.value];
          newTaskTitle, newTaskContent, newTaskProgress := "", "", Planned;
          error := "";
        } else {
          error := AddFailed;
        }
      } else {
        sent := None;
        error := FillInBoth;
      }
    }

    /** `startEditing`: the edit fields take the task's values. */
    method StartEditing(task: Task)
      modifies this
      ensures State() == old(State()).(editingTask := Some(task.taskId),
        editTitle := task.title, editContent := task.content, editProgress := task.progress)
    {
      editingTask := Some(task.taskId);
      editTitle, editContent, editProgress := task.title, task.content, task.progress;
    }

    /** `cancelEditing`: the edit fields return to their initial values. */
    method CancelEditing()
      modifies this
      ensures State() == old(State()).(editingTask := None, editTitle := "", editContent := "", editProgress := Planned)
    {
      editingTask := None;
      editTitle, editContent, editProgress := "", "", Planned;
    }

    /** The `onChange` handlers of the edit form. */
    method SetEditFields(title: string, content: string, progress: Progress)
      modifies this
      ensures State() == old(State()).(editTitle := title, editContent := content, editProgress := progress)
    {
      editTitle, editContent, editProgress := title, content, progress;
    }

    /** `saveTask`: the edit fields are sent; on success every entry with that id becomes
        the server's response and editing ends; on failure only the error changes. */
    method SaveTask(taskId: int, updated: ApiOutcome<Task>) returns (sent: TaskPayload)
      modifies this
      ensures sent == TaskPayload(old(editTitle), old(editContent), old(editProgress))
      ensures updated.Success? ==>
        State() == old(State()).(tasks := ReplaceById(old(tasks), taskId, updated.value), editingTask := None, error := "")
      ensures updated.Failure? ==> State() == old(State()).(error := UpdateFailed)
    {
      sent := TaskPayload(editTitle, editContent, editProgress);
      match updated {
        case Success(t) =>
          tasks := ReplaceById(tasks, taskId, t);
          editingTask := None;
          error := "";
        case Failure =>
          error := UpdateFailed;
      }
    }

    /** `quickToggleTask`: the task's own title and content are sent with the toggled
        progress; on success every entry with that id becomes the server's response. */
    method QuickToggleTask(task: Task, updated: ApiOutcome<Task>) returns (sent: TaskPayload)
      modifies this
      ensures sent == TaskPayload(task.title, task.content, Toggled(task.progress))
      ensures updated.Success? ==>
        State() == old(State()).(tasks := ReplaceById(old(tasks), task.taskId, updated.value), error := "")
      ensures updated.Failure? ==> State() == old(State()).(error := UpdateFailed)
    {
      var newProgress := Toggled(task.progress);
      sent := TaskPayload(task.title, task.content, newProgress);
      match updated {
        case Success(t) =>
          tasks := ReplaceById(tasks, task.taskId, t);
          error := "";
        case Failure =>
          error := UpdateFailed;
      }
    }

    /** `deleteTask`: nothing happens unless the user confirms; then on success every
        entry with that id is dropped, on failure only the error changes. */
    method DeleteTask(taskId: int, confirmed: bool, deleted: ApiOutcome<()>) returns (sent: bool)
      modifies this
      ensures sent == confirmed
      ensures !confirmed ==> State() == old(State())
      ensures confirmed && deleted.Success? ==> State() == old(State()).(tasks := RemoveById(old(tasks), taskId), error := "")
      ensures confirmed && deleted.Failure? ==> State() == old(State()).(error := DeleteFailed)
    {
      sent := confirmed;
      if confirmed {
        match deleted {
          case Success(_) =>
            tasks := RemoveById(tasks, taskId);
            error := "";
          case Failure =>
            error := DeleteFailed;
        }
      }
    }
  }
}
