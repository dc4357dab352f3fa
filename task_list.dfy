/**
 * The task panel (src/components/TaskList.tsx). The list is never changed in
 * place: each operation builds the next list from the current one, so the
 * operations are functions from lists to lists. The clock (`Date.now()`) is
 * a parameter.
 */
module TaskList {
  import opened Wrappers
  import Decimal

  /** A task as it is stored: `completedAt` is present only while it is done. */
  datatype Task = Task(
    id: string,
    title: string,
    completed: bool,
    createdAt: nat,
    completedAt: Option<nat>,
    pomodoroCount: nat)

  // ---------------------------------------------------------------------
  // String.prototype.trim
  // ---------------------------------------------------------------------

  /** ECMAScript's WhiteSpace and LineTerminator characters, which `trim` removes. */
  predicate IsWhiteSpace(c: char) {
    || c == '\t' || c == '\n' || c == '\U{000B}' || c == '\U{000C}' || c == '\r'
    || c == ' ' || c == '\U{00A0}' || c == '\U{1680}'
    || ('\U{2000}' <= c <= '\U{200A}')
    || c == '\U{2028}' || c == '\U{2029}' || c == '\U{202F}' || c == '\U{205F}'
    || c == '\U{3000}' || c == '\U{FEFF}'
  }

  /** How many white-space characters `s` starts with. */
  function LeadingWhiteSpace(s: string): (n: nat)
    ensures n <= |s|
    ensures forall i :: 0 <= i < n ==> IsWhiteSpace(s[i])
    ensures n < |s| ==> !IsWhiteSpace(s[n])
  {
    if s != [] && IsWhiteSpace(s[0]) then 1 + LeadingWhiteSpace(s[1..]) else 0
  }

  /** How many white-space characters `s` ends with. */
  function TrailingWhiteSpace(s: string): (n: nat)
    ensures n <= |s|
    ensures forall i :: |s| - n <= i < |s| ==> IsWhiteSpace(s[i])
    ensures n < |s| ==> !IsWhiteSpace(s[|s| - n - 1])
  {
    if s != [] && IsWhiteSpace(s[|s| - 1]) then 1 + TrailingWhiteSpace(s[..|s| - 1]) else 0
  }

  /**
   * `s.trim()`: the part of `s` between its leading and its trailing white
   * space. It is empty exactly when `s` is all white space.
   */
  function Trim(s: string): (r: string)
    ensures var k := LeadingWhiteSpace(s);
      && k + |r| <= |s| && r == s[k..k + |r|]
      && (forall i :: 0 <= i < k ==> IsWhiteSpace(s[i]))
      && (forall i :: k + |r| <= i < |s| ==> IsWhiteSpace(s[i]))
    ensures r != [] ==> !IsWhiteSpace(r[0]) && !IsWhiteSpace(r[|r| - 1])
    ensures r == [] <==> forall i :: 0 <= i < |s| ==> IsWhiteSpace(s[i])
  {
    var k := LeadingWhiteSpace(s);
    if k == |s| then []
    else
      var n := TrailingWhiteSpace(s);
      assert |s| - n > k;
      s[k..|s| - n]
  }

  /** Trimming twice is trimming once. */
  lemma TrimIdempotent(s: string)
    ensures Trim(Trim(s)) == Trim(s)
  {
    var r := Trim(s);
    if r != [] {
      assert LeadingWhiteSpace(r) == 0;
      assert TrailingWhiteSpace(r) == 0;
    }
  }

  // ---------------------------------------------------------------------
  // The three operations
  // ---------------------------------------------------------------------

  /** The task `addTask` creates: the id is the clock reading in decimal. */
  function NewTask(title: string, now: nat): Task {
    Task(Decimal.ToDecimal(now), title, false, now, None, 0)
  }

  /**
   * Submitting the form with `input` in the text field: nothing happens when
   * it is blank; otherwise a fresh task with the trimmed title goes in front
   * of the old ones and the field is cleared. The result is the new list and
   * the new contents of the field.
   */
  function AddTask(tasks: seq<Task>, input: string, now: nat): (r: (seq<Task>, string))
    ensures Trim(input) == [] ==> r.0 == tasks && r.1 == input
    ensures Trim(input) != [] ==> r.1 == "" && |r.0| == |tasks| + 1 && r.0[1..] == tasks
    ensures Trim(input) != [] ==>
      && r.0[0].title == Trim(input) && !r.0[0].completed && r.0[0].completedAt == None
      && r.0[0].pomodoroCount == 0 && r.0[0].createdAt == now && r.0[0].id == Decimal.ToDecimal(now)
  {
    var title := Trim(input);
    if title == [] then (tasks, input)
    else ([NewTask(title, now)] + tasks, "")
  }

  /** The task with the check box clicked: done flips, and the completion time follows it. */
  function Toggled(t: Task, now: nat): (r: Task)
    ensures r.completed == !t.completed
    ensures r.completedAt.Some? <==> r.completed
    ensures r.completed ==> r.completedAt == Some(now)
    ensures r.id == t.id && r.title == t.title && r.createdAt == t.createdAt
    ensures r.pomodoroCount == t.pomodoroCount
  {
    var newCompleted := !t.completed;
    t.(completed := newCompleted, completedAt := if newCompleted then Some(now) else None)
  }

  /**
   * `toggleTask(id)`: every task with that id toggled, every other task
   * exactly as it was, in the same positions.
   */
  function ToggleTask(tasks: seq<Task>, id: string, now: nat): (r: seq<Task>)
    ensures |r| == |tasks|
    ensures forall i :: 0 <= i < |tasks| && tasks[i].id == id ==> r[i] == Toggled(tasks[i], now)
    ensures forall i :: 0 <= i < |tasks| && tasks[i].id != id ==> r[i] == tasks[i]
  {
    if tasks == [] then []
    else [if tasks[0].id == id then Toggled(tasks[0], now) else tasks[0]] + ToggleTask(tasks[1..], id, now)
  }

  /** How many tasks carry `id` (ids are clock readings, so two can coincide). */
  function CountId(tasks: seq<Task>, id: string): (n: nat)
    ensures n <= |tasks|
    ensures n == 0 <==> forall t :: t in tasks ==> t.id != id
  {
    if tasks == [] then 0
    else (if tasks[0].id == id then 1 else 0) + CountId(tasks[1..], id)
  }

  /**
   * `deleteTask(id)`: the tasks without that id, in their order. The list
   * gets shorter by the number of tasks that had it.
   */
  function DeleteTask(tasks: seq<Task>, id: string): (r: seq<Task>)
    ensures |r| == |tasks| - CountId(tasks, id)
    ensures forall t :: t in r <==> t in tasks && t.id != id
    ensures CountId(tasks, id) == 0 ==> r == tasks
  {
    if tasks == [] then []
    else (if tasks[0].id == id then [] else [tasks[0]]) + DeleteTask(tasks[1..], id)
  }

  /** Deleting works piecewise along the list, so it keeps the survivors' order. */
  lemma {:induction false} DeleteTaskSplits(a: seq<Task>, b: seq<Task>, id: string)
    ensures DeleteTask(a + b, id) == DeleteTask(a, id) + DeleteTask(b, id)
  {
    if a == [] {
      assert a + b == b;
    } else {
      assert (a + b)[1..] == a[1..] + b;
      DeleteTaskSplits(a[1..], b, id);
    }
  }

  /** Deleting the same id again changes nothing. */
  lemma DeleteTaskIdempotent(tasks: seq<Task>, id: string)
    ensures DeleteTask(DeleteTask(tasks, id), id) == DeleteTask(tasks, id)
  {
  }

  // ---------------------------------------------------------------------
  // What the operations keep
  // ---------------------------------------------------------------------

  /** Each task has a completion time exactly when it is done. */
  predicate WellFormed(tasks: seq<Task>) {
    forall i :: 0 <= i < |tasks| ==> (tasks[i].completed <==> tasks[i].completedAt.Some?)
  }

  lemma OperationsKeepWellFormed(tasks: seq<Task>, input: string, id: string, now: nat)
    requires WellFormed(tasks)
    ensures WellFormed(AddTask(tasks, input, now).0)
    ensures WellFormed(ToggleTask(tasks, id, now))
    ensures WellFormed(DeleteTask(tasks, id))
  {
    var d := DeleteTask(tasks, id);
    forall i | 0 <= i < |d|
      ensures d[i].completed <==> d[i].completedAt.Some?
    {
      assert d[i] in tasks;
    }
  }

  /**
   * Clicking the same task twice gives every task its done flag back; a task
   * that was open (and had no completion time) is back exactly as it was.
   * A done task comes back done with the second click's time.
   */
  lemma ToggleTaskTwice(tasks: seq<Task>, id: string, first: nat, second: nat)
    ensures var r := ToggleTask(ToggleTask(tasks, id, first), id, second);
      && |r| == |tasks|
      && (forall i :: 0 <= i < |tasks| ==> r[i].completed == tasks[i].completed)
      && (forall i :: 0 <= i < |tasks| && tasks[i].id != id ==> r[i] == tasks[i])
      && (forall i :: 0 <= i < |tasks| && !tasks[i].completed && tasks[i].completedAt == None ==>
            r[i] == tasks[i])
  {
  }

  // ---------------------------------------------------------------------
  // The counters over the list
  // ---------------------------------------------------------------------

  /** `tasks.filter((t) => t.completed)`. */
  function CompletedTasks(tasks: seq<Task>): (r: seq<Task>)
    ensures |r| <= |tasks|
    ensures forall t :: t in r <==> t in tasks && t.completed
  {
    if tasks == [] then []
    else (if tasks[0].completed then [tasks[0]] else []) + CompletedTasks(tasks[1..])
  }

  /** The filter works piecewise along the list, so it keeps the done tasks' order and repetitions. */
  lemma {:induction false} CompletedTasksSplits(a: seq<Task>, b: seq<Task>)
    ensures CompletedTasks(a + b) == CompletedTasks(a) + CompletedTasks(b)
  {
    if a == [] {
      assert a + b == b;
    } else {
      assert (a + b)[1..] == a[1..] + b;
      CompletedTasksSplits(a[1..], b);
    }
  }

  /** "Done": never more than "Total" (`tasks.length`). */
  function DoneCount(tasks: seq<Task>): (n: nat)
    ensures n <= |tasks|
  {
    |CompletedTasks(tasks)|
  }

  /** "Done" adds up along the list. */
  lemma DoneCountSplits(a: seq<Task>, b: seq<Task>)
    ensures DoneCount(a + b) == DoneCount(a) + DoneCount(b)
  {
    CompletedTasksSplits(a, b);
  }

  /** A single task counts once towards "Done" when it is done, and not at all when open. */
  lemma DoneCountSingle(t: Task)
    ensures DoneCount([t]) == if t.completed then 1 else 0
  {
  }

  /** The sum of the pomodoro counts. */
  function PomodoroSum(tasks: seq<Task>): nat {
    if tasks == [] then 0 else tasks[0].pomodoroCount + PomodoroSum(tasks[1..])
  }

  /** `tasks.reduce((sum, t) => sum + t.pomodoroCount, acc)`: a fold from the left. */
  function ReducePomodoros(acc: nat, tasks: seq<Task>): nat
    decreases tasks
  {
    if tasks == [] then acc else ReducePomodoros(acc + tasks[0].pomodoroCount, tasks[1..])
  }

  lemma {:induction false} ReduceIsSum(acc: nat, tasks: seq<Task>)
    ensures ReducePomodoros(acc, tasks) == acc + PomodoroSum(tasks)
    decreases tasks
  {
    if tasks != [] {
      ReduceIsSum(acc + tasks[0].pomodoroCount, tasks[1..]);
    }
  }

  /** The pomodoro counter of the panel: the sum over all tasks. */
  function PomodoroTotal(tasks: seq<Task>): (n: nat)
    ensures n == PomodoroSum(tasks)
    ensures tasks != [] ==> tasks[0].pomodoroCount <= n
  {
    ReduceIsSum(0, tasks);
    ReducePomodoros(0, tasks)
  }

  /**
   * Adding a task raises Total by one and leaves Done and the pomodoro total
   * as they were; a blank input changes none of them.
   */
  lemma AddTaskCounts(tasks: seq<Task>, input: string, now: nat)
    ensures var r := AddTask(tasks, input, now).0;
      && |r| == |tasks| + (if Trim(input) == [] then 0 else 1)
      && DoneCount(r) == DoneCount(tasks)
      && PomodoroTotal(r) == PomodoroTotal(tasks)
  {
    var r := AddTask(tasks, input, now).0;
    if Trim(input) != [] {
      assert r == [r[0]] + tasks;
      assert r[1..] == tasks;
    }
  }

  /** Toggling keeps Total and the pomodoro total. */
  lemma {:induction false} ToggleTaskCounts(tasks: seq<Task>, id: string, now: nat)
    ensures |ToggleTask(tasks, id, now)| == |tasks|
    ensures PomodoroSum(ToggleTask(tasks, id, now)) == PomodoroSum(tasks)
  {
    if tasks != [] {
      var r := ToggleTask(tasks, id, now);
      assert r[1..] == ToggleTask(tasks[1..], id, now);
      ToggleTaskCounts(tasks[1..], id, now);
    }
  }

  /** Deleting never raises Done or the pomodoro total. */
  lemma {:induction false} DeleteTaskCounts(tasks: seq<Task>, id: string)
    ensures DoneCount(DeleteTask(tasks, id)) <= DoneCount(tasks)
    ensures PomodoroSum(DeleteTask(tasks, id)) <= PomodoroSum(tasks)
  {
    if tasks != [] {
      var rest := DeleteTask(tasks[1..], id);
      DeleteTaskCounts(tasks[1..], id);
      if tasks[0].id != id {
        var r := [tasks[0]] + rest;
        assert DeleteTask(tasks, id) == r;
        assert r[1..] == rest;
      } else {
        assert DeleteTask(tasks, id) == rest;
      }
    }
  }
}
