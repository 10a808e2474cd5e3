/**
 * The task list: the task record, the list searches and filters the
 * application uses (`Array.prototype.find` and `filter`), and the credit a
 * work session gives the active task.
 */
module Tasks {
  import opened Wrappers

  /** One entry of `state.tasks`. Timestamps are ISO strings; `None` is `null`. */
  datatype Task = Task(
    id: string,
    title: string,
    estimatedPomodoros: int,
    completedPomodoros: int,
    completed: bool,
    createdAt: string,
    lastWorkedOn: Option<string>,
    completedAt: Option<string>)

  /** The task `addTask` builds: no progress, not completed. */
  function NewTask(id: string, title: string, estimate: int, now: string): (t: Task)
    ensures t.id == id && t.title == title && t.estimatedPomodoros == estimate && t.createdAt == now
    ensures t.completedPomodoros == 0 && !t.completed
    ensures t.lastWorkedOn == None && t.completedAt == None
  {
    Task(id, title, estimate, 0, false, now, None, None)
  }

  /**
   * JavaScript truthiness of `state.currentTask`: `null` and the empty id are
   * both "no task selected".
   */
  predicate IsSelected(current: Option<string>) {
    current.Some? && current.value != ""
  }

  /** `t => t.id === id`. */
  function HasId(id: string): Task -> bool {
    (t: Task) => t.id == id
  }

  /** `t => t.id !== id`, the filter of `deleteTask`. */
  function LacksId(id: string): Task -> bool {
    (t: Task) => t.id != id
  }

  /** `t => !t.completed`. */
  predicate IsIncomplete(t: Task) {
    !t.completed
  }

  /** `t => t.completed`. */
  predicate IsCompleted(t: Task) {
    t.completed
  }

  /** The position of the element `Array.prototype.find` returns: the first one satisfying `p`. */
  function Find<T>(s: seq<T>, p: T -> bool): (r: Option<nat>)
    ensures r.Some? ==> r.value < |s| && p(s[r.value])
    ensures r.Some? ==> forall j :: 0 <= j < r.value ==> !p(s[j])
    ensures r.None? ==> forall j :: 0 <= j < |s| ==> !p(s[j])
  {
    if s == [] then None
    else if p(s[0]) then Some(0)
    else match Find(s[1..], p)
      case None => None
      case Some(k) => Some(k + 1)
  }

  /** `Array.prototype.filter`: the elements satisfying `p`, in their order. */
  function Filter<T>(s: seq<T>, p: T -> bool): (r: seq<T>)
    ensures |r| <= |s|
    ensures forall j :: 0 <= j < |r| ==> r[j] in s && p(r[j])
    ensures forall j :: 0 <= j < |s| && p(s[j]) ==> s[j] in r
  {
    if s == [] then []
    else if p(s[0]) then [s[0]] + Filter(s[1..], p)
    else Filter(s[1..], p)
  }

  /** Filtering keeps the order: it distributes over concatenation. */
  lemma {:induction false} FilterAppend<T>(a: seq<T>, b: seq<T>, p: T -> bool)
    ensures Filter(a + b, p) == Filter(a, p) + Filter(b, p)
  {
    if a == [] {
      assert a + b == b;
    } else {
      assert (a + b)[0] == a[0] && (a + b)[1..] == a[1..] + b;
      FilterAppend(a[1..], b, p);
    }
  }

  /** Filtering a list whose every element passes changes nothing. */
  lemma {:induction false} FilterAll<T>(s: seq<T>, p: T -> bool)
    requires forall j :: 0 <= j < |s| ==> p(s[j])
    ensures Filter(s, p) == s
  {
    if s != [] {
      FilterAll(s[1..], p);
    }
  }

  /** How many elements satisfy `p`. */
  function Count<T>(s: seq<T>, p: T -> bool): nat {
    if s == [] then 0 else (if p(s[0]) then 1 else 0) + Count(s[1..], p)
  }

  /** The filter keeps exactly as many elements as satisfy the test. */
  lemma {:induction false} FilterCount<T>(s: seq<T>, p: T -> bool)
    ensures |Filter(s, p)| == Count(s, p)
  {
    if s != [] {
      FilterCount(s[1..], p);
    }
  }

  /** `clearCompletedTasks` drops exactly the `completedCount` tasks it announced. */
  lemma {:induction false} ClearCompletedRemovesCount(tasks: seq<Task>)
    ensures |Filter(tasks, IsIncomplete)| == |tasks| - |Filter(tasks, IsCompleted)|
  {
    if tasks != [] {
      ClearCompletedRemovesCount(tasks[1..]);
    }
  }

  /** What `toggleTaskCompletion` does to the task: flips `completed`, stamping `completedAt` or clearing it. */
  function Toggled(t: Task, now: string): (r: Task)
    ensures r.completed == !t.completed
    ensures r.completedAt == if r.completed then Some(now) else None
    ensures r.(completed := t.completed, completedAt := t.completedAt) == t
  {
    if !t.completed then t.(completed := true, completedAt := Some(now))
    else t.(completed := false, completedAt := None)
  }

  /** Toggling twice restores everything but the completion stamp; an open task comes back exactly. */
  lemma ToggleTwice(t: Task, now1: string, now2: string)
    ensures Toggled(Toggled(t, now1), now2).(completedAt := t.completedAt) == t
    ensures !t.completed && t.completedAt == None ==> Toggled(Toggled(t, now1), now2) == t
  {
  }

  /** Whether one more pomodoro brings `t` to its estimate: the `>=` test of `handleWorkCompletion`. */
  predicate ReachesEstimate(t: Task) {
    t.completedPomodoros + 1 >= t.estimatedPomodoros
  }

  /**
   * What `handleWorkCompletion` does to the active task: one more pomodoro,
   * stamped now; completed, and stamped, once the count reaches the estimate.
   */
  function Credit(t: Task, now: string): (r: Task)
    ensures r.id == t.id && r.title == t.title && r.estimatedPomodoros == t.estimatedPomodoros
    ensures r.createdAt == t.createdAt
    ensures r.completedPomodoros == t.completedPomodoros + 1 && r.lastWorkedOn == Some(now)
    ensures r.completed <==> t.completed || r.completedPomodoros >= r.estimatedPomodoros
    ensures r.completedAt == if ReachesEstimate(t) then Some(now) else t.completedAt
  {
    var worked := t.(completedPomodoros := t.completedPomodoros + 1, lastWorkedOn := Some(now));
    if ReachesEstimate(t) then worked.(completed := true, completedAt := Some(now)) else worked
  }

  /** `k` work sessions credited to the same task. */
  function CreditTimes(t: Task, now: string, k: nat): Task {
    if k == 0 then t else Credit(CreditTimes(t, now, k - 1), now)
  }

  /** Crediting never changes the estimate. */
  lemma {:induction false} EstimateKept(t: Task, now: string, k: nat)
    ensures CreditTimes(t, now, k).estimatedPomodoros == t.estimatedPomodoros
  {
    if k > 0 {
      EstimateKept(t, now, k - 1);
    }
  }

  /**
   * A new task with estimate e is completed by its e-th work session and not
   * before: after k sessions it has k pomodoros and is completed iff k >= e.
   */
  lemma {:induction false} NewTaskCompletesAtEstimate(id: string, title: string, e: int, now: string, created: string, k: nat)
    ensures CreditTimes(NewTask(id, title, e, created), now, k).completedPomodoros == k
    ensures CreditTimes(NewTask(id, title, e, created), now, k).completed <==> k >= 1 && k >= e
  {
    if k > 0 {
      NewTaskCompletesAtEstimate(id, title, e, now, created, k - 1);
      var before := CreditTimes(NewTask(id, title, e, created), now, k - 1);
      assert before.estimatedPomodoros == e by {
        EstimateKept(NewTask(id, title, e, created), now, k - 1);
      }
      assert CreditTimes(NewTask(id, title, e, created), now, k) == Credit(before, now);
    }
  }

  /**
   * The `>=` test fires again for a task that is already completed and still
   * active, so its completion is counted a second time.
   */
  lemma CompletedTaskCountsAgain(t: Task)
    requires t.completed && t.completedPomodoros >= t.estimatedPomodoros
    ensures ReachesEstimate(t) && Credit(t, "").completed
  {
  }
}
