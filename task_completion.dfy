/**
 * The completion flow behind a task's checkbox: completing a task that still has
 * incomplete direct subtasks either completes them all, completes only the parent, or
 * holds the task pending while a dialog asks, depending on the stored preference. The
 * store actions it calls are emitted as values; what they do to the store is not
 * modelled here.
 */
module TaskCompletion {
  import opened Wrappers
  import opened TaskTypes
  import Seqs

  /** The store calls the flow makes, in the order it makes them. */
  datatype StoreAction =
    | ToggleTaskStatus(taskId: string)
    | CompleteTaskWithSubtasks(taskId: string)
    | SetSubtaskCompletionPreference(preference: SubtaskCompletionPreference)

  /** A direct subtask of `task` that is not completed yet. */
  predicate IsIncompleteChildOf(t: Task, task: Task) {
    t.parentId == Some(task.id) && t.status != Completed
  }

  function IncompleteSubtasks(task: Task, allTasks: seq<Task>): (r: seq<Task>)
    ensures Seqs.IsSubsequence(r, allTasks)
    ensures forall t :: t in r ==> t in allTasks && IsIncompleteChildOf(t, task)
    ensures forall t :: t in allTasks && IsIncompleteChildOf(t, task) ==> t in r
  {
    Seqs.Filter((t: Task) => IsIncompleteChildOf(t, task), allTasks)
  }

  predicate HasIncompleteChild(task: Task, allTasks: seq<Task>) {
    exists t :: t in allTasks && IsIncompleteChildOf(t, task)
  }

  /** What ticking the checkbox of `task` leads to. */
  datatype Decision = Toggle | Cascade | AskUser

  function Decide(task: Task, allTasks: seq<Task>, preference: SubtaskCompletionPreference): (r: Decision)
    ensures task.status == Completed ==> r == Toggle
    ensures task.status != Completed && (!HasIncompleteChild(task, allTasks) || preference == Never) ==> r == Toggle
    ensures task.status != Completed && HasIncompleteChild(task, allTasks) && preference == Always ==> r == Cascade
    ensures task.status != Completed && HasIncompleteChild(task, allTasks) && preference == Ask ==> r == AskUser
  {
    if task.status == Completed then Toggle
    else
      var incomplete := IncompleteSubtasks(task, allTasks);
      assert |incomplete| > 0 ==> incomplete[0] in incomplete;
      if |incomplete| == 0 || preference == Never then Toggle
      else if preference == Always then Cascade
      else AskUser
  }

  /** The store calls a decision makes at once: none while the user is asked. */
  function ActionsFor(d: Decision, task: Task): (r: seq<StoreAction>)
    ensures d == AskUser <==> r == []
    ensures d == Toggle ==> r == [ToggleTaskStatus(task.id)]
    ensures d == Cascade ==> r == [CompleteTaskWithSubtasks(task.id)]
  {
    match d
    case Toggle => [ToggleTaskStatus(task.id)]
    case Cascade => [CompleteTaskWithSubtasks(task.id)]
    case AskUser => []
  }

  /** The two answers the dialog offers. */
  datatype Choice = CompleteAll | ParentOnly

  /** The preference an answer sets when it is to be remembered. */
  function ChoicePreference(c: Choice): SubtaskCompletionPreference {
    match c
    case CompleteAll => Always
    case ParentOnly => Never
  }

  /** The store calls an answer makes for the pending task; nothing when none is pending. */
  function Resolution(pending: Option<Task>, c: Choice, rememberChoice: bool): (r: seq<StoreAction>)
    ensures pending.None? ==> r == []
    ensures pending.Some? ==> |r| == (if rememberChoice then 2 else 1)
    ensures pending.Some? && rememberChoice ==> r[0] == SetSubtaskCompletionPreference(ChoicePreference(c))
    ensures pending.Some? && c == CompleteAll ==> r[|r| - 1] == CompleteTaskWithSubtasks(pending.value.id)
    ensures pending.Some? && c == ParentOnly ==> r[|r| - 1] == ToggleTaskStatus(pending.value.id)
  {
    if pending.None? then []
    else
      var id := pending.value.id;
      (if rememberChoice then [SetSubtaskCompletionPreference(ChoicePreference(c))] else [])
      + [if c == CompleteAll then CompleteTaskWithSubtasks(id) else ToggleTaskStatus(id)]
  }

  /**
   * Answering the dialog does what the answer's preference would have done without asking,
   * and once that preference is remembered the same situation is not asked about again.
   */
  lemma AnswerMatchesPreference(task: Task, allTasks: seq<Task>, c: Choice, rememberChoice: bool)
    requires Decide(task, allTasks, Ask) == AskUser
    ensures Resolution(Some(task), c, rememberChoice)
            == (if rememberChoice then [SetSubtaskCompletionPreference(ChoicePreference(c))] else [])
               + ActionsFor(Decide(task, allTasks, ChoicePreference(c)), task)
    ensures Decide(task, allTasks, ChoicePreference(c)) != AskUser
  {
  }

  /** The pending task of the completion dialog. */
  class CompletionFlow {
    var taskToComplete: Option<Task>

    constructor()
      ensures taskToComplete.None?
    {
      taskToComplete := None;
    }

    /** `open: !!taskToComplete`: the dialog is open exactly while a task is pending. */
    function Open(): (r: bool)
      reads this
      ensures r <==> taskToComplete.Some?
      ensures !r ==> DialogTaskTitle() == ""
    {
      taskToComplete.Some?
    }

    /** The title the dialog shows: the pending task's, or empty. */
    function DialogTaskTitle(): (r: string)
      reads this
      ensures taskToComplete.Some? ==> r == taskToComplete.value.title
      ensures taskToComplete.None? ==> r == ""
    {
      if taskToComplete.Some? then taskToComplete.value.title else ""
    }

    method HandleToggleCompletion(task: Task, allTasks: seq<Task>, preference: SubtaskCompletionPreference)
      returns (actions: seq<StoreAction>)
      modifies this
      ensures actions == ActionsFor(Decide(task, allTasks, preference), task)
      ensures Decide(task, allTasks, preference) == AskUser ==> taskToComplete == Some(task)
      ensures Decide(task, allTasks, preference) != AskUser ==> taskToComplete == old(taskToComplete)
      ensures Open() <==> old(Open()) || Decide(task, allTasks, preference) == AskUser
    {
      if task.status == Completed {
        actions := [ToggleTaskStatus(task.id)];
        return;
      }
      var incompleteSubtasks := IncompleteSubtasks(task, allTasks);
      if |incompleteSubtasks| == 0 || preference == Never {
        actions := [ToggleTaskStatus(task.id)];
        return;
      }
      if preference == Always {
        actions := [CompleteTaskWithSubtasks(task.id)];
        return;
      }
      taskToComplete := Some(task);
      actions := [];
    }

    method HandleConfirmCompleteAll(rememberChoice: bool) returns (actions: seq<StoreAction>)
      modifies this
      ensures actions == Resolution(old(taskToComplete), CompleteAll, rememberChoice)
      ensures taskToComplete.None? && !Open()
    {
      actions := [];
      if taskToComplete.Some? {
        if rememberChoice {
          actions := actions + [SetSubtaskCompletionPreference(Always)];
        }
        actions := actions + [CompleteTaskWithSubtasks(taskToComplete.value.id)];
        taskToComplete := None;
      }
    }

    method HandleConfirmCompleteParentOnly(rememberChoice: bool) returns (actions: seq<StoreAction>)
      modifies this
      ensures actions == Resolution(old(taskToComplete), ParentOnly, rememberChoice)
      ensures taskToComplete.None? && !Open()
    {
      actions := [];
      if taskToComplete.Some? {
        if rememberChoice {
          actions := actions + [SetSubtaskCompletionPreference(Never)];
        }
        actions := actions + [ToggleTaskStatus(taskToComplete.value.id)];
        taskToComplete := None;
      }
    }

    /** Any open-state change of the dialog (in practice: dismissing it) drops the pending task. */
    method OnOpenChange(open: bool) returns (actions: seq<StoreAction>)
      modifies this
      ensures actions == [] && taskToComplete.None? && !Open()
    {
      taskToComplete := None;
      actions := [];
    }
  }
}
