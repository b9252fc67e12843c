/**
 * The task statistics cards: how many tasks there are, how many are completed and how
 * many are overdue. Whether a due date lies in the past depends on the clock, so it is a
 * parameter.
 */
module TaskStats {
  import opened Wrappers
  import opened TaskTypes
  import Seqs

  datatype Stats = Stats(total: nat, completed: nat, overdue: nat)

  predicate IsCompleted(t: Task) {
    t.status == Completed
  }

  /** A task is overdue when it has a due date, that date has passed, and it is not completed. */
  predicate IsOverdue(t: Task, isPast: string -> bool) {
    Truthy(t.dueDate) && isPast(t.dueDate.value) && t.status != Completed
  }

  function ComputeStats(tasks: seq<Task>, isPast: string -> bool): (r: Stats)
    ensures r.total == |tasks|
    ensures r.completed == |Seqs.Filter(IsCompleted, tasks)|
    ensures r.overdue == |Seqs.Filter((t: Task) => IsOverdue(t, isPast), tasks)|
    ensures r.completed <= r.total
    ensures r.completed + r.overdue <= r.total
  {
    var completed := Seqs.Filter(IsCompleted, tasks);
    var overdue := Seqs.Filter((t: Task) => IsOverdue(t, isPast), tasks);
    Seqs.DisjointFiltersFit(IsCompleted, (t: Task) => IsOverdue(t, isPast), tasks);
    Stats(|tasks|, |completed|, |overdue|)
  }

  /** Adding a task raises the total by one, and each other count by one exactly when the task meets its test. */
  lemma AddingTaskCounts(tasks: seq<Task>, t: Task, isPast: string -> bool)
    ensures var before := ComputeStats(tasks, isPast);
            var after := ComputeStats(tasks + [t], isPast);
            after.total == before.total + 1
            && after.completed == before.completed + (if IsCompleted(t) then 1 else 0)
            && after.overdue == before.overdue + (if IsOverdue(t, isPast) then 1 else 0)
  {
    Seqs.FilterSnoc(IsCompleted, tasks, t);
    Seqs.FilterSnoc((t: Task) => IsOverdue(t, isPast), tasks, t);
  }
}
