/**
 * One row of the task list: its direct subtasks, whether it can be expanded, its
 * checkbox, the colour dot of its priority and the tag badges it shows.
 */
module TaskItem {
  import opened Wrappers
  import opened TaskTypes
  import Seqs
  import AppStore

  /** Whether `sub` names `task` as its parent. */
  predicate IsChildOf(sub: Task, task: Task) {
    sub.parentId == Some(task.id)
  }

  /** The direct subtasks of `task` among the store's top-level tasks, in store order. */
  function Subtasks(task: Task, tasks: seq<Task>): (r: seq<Task>)
    ensures Seqs.IsSubsequence(r, tasks)
    ensures forall t :: t in r ==> t in tasks && IsChildOf(t, task)
    ensures forall t :: t in tasks && IsChildOf(t, task) ==> t in r
  {
    Seqs.Filter((sub: Task) => IsChildOf(sub, task), tasks)
  }

  /** The row offers expansion exactly when some task names it as parent. */
  predicate HasSubtasks(task: Task, tasks: seq<Task>) {
    |Subtasks(task, tasks)| > 0
  }

  lemma HasSubtasksIffChild(task: Task, tasks: seq<Task>)
    ensures HasSubtasks(task, tasks) <==> exists t :: t in tasks && IsChildOf(t, task)
  {
    var r := Subtasks(task, tasks);
    if |r| > 0 {
      assert r[0] in r;
    }
  }

  /** The class of the priority dot. */
  function PriorityColour(p: TaskPriority): (r: string)
    ensures p == High <==> r == "bg-red-500"
    ensures p == Medium <==> r == "bg-orange-500"
    ensures p == Low <==> r == "bg-green-500"
  {
    match p
    case High => "bg-red-500"
    case Medium => "bg-orange-500"
    case Low => "bg-green-500"
  }

  /** The badges: the first two tags, when the task has any. */
  function ShownTags(task: Task): (r: seq<string>)
    ensures |r| <= 2
    ensures task.tags.Some? ==> r <= task.tags.value
    ensures task.tags.Some? && |task.tags.value| >= 2 ==> r == task.tags.value[..2]
    ensures task.tags.Some? && |task.tags.value| < 2 ==> r == task.tags.value
    ensures task.tags.None? ==> r == []
  {
    if task.tags.Some? && |task.tags.value| > 0 then
      var tags := task.tags.value;
      if |tags| <= 2 then tags else tags[..2]
    else []
  }

  /** The checkbox is ticked exactly for a completed task. */
  function IsChecked(task: Task): (r: bool)
    ensures r <==> task.status == Completed
  {
    task.status == Completed
  }

  /**
   * Clicking the checkbox of a top-level row calls `toggleTaskStatus(task.id)`, which flips
   * that row's box and leaves every row with another id as it was.
   */
  lemma ClickFlipsCheckbox(tasks: seq<Task>, k: nat)
    requires k < |tasks|
    ensures var after := AppStore.ToggleTopLevel(tasks, tasks[k].id);
            |after| == |tasks| && (IsChecked(after[k]) <==> !IsChecked(tasks[k]))
            && forall i :: 0 <= i < |tasks| && tasks[i].id != tasks[k].id ==> after[i] == tasks[i]
  {
  }
}
