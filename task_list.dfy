/**
 * The task list: which folders it shows and which of them, and which tasks, are open.
 * A folder is the "Quick Tasks" group (top-level tasks without an objective) or the
 * top-level tasks of one objective; a folder with no tasks is not shown.
 */
module TaskList {
  import opened Wrappers
  import opened TaskTypes
  import Seqs

  /** The set with `x` removed when it is there and added when it is not. */
  function Toggled(s: set<string>, x: string): (r: set<string>)
    ensures x in r <==> x !in s
    ensures forall y :: y != x ==> (y in r <==> y in s)
  {
    if x in s then s - {x} else s + {x}
  }

  lemma ToggledTwice(s: set<string>, x: string)
    ensures Toggled(Toggled(s, x), x) == s
  {
  }

  /** The open folders and the expanded tasks of one rendered list. */
  class TaskListState {
    var openObjectives: set<string>
    var expandedTasks: set<string>

    constructor()
      ensures openObjectives == {} && expandedTasks == {}
    {
      openObjectives := {};
      expandedTasks := {};
    }

    /** Opens the folder `objectiveId` when closed and closes it when open. */
    method ToggleObjective(objectiveId: string)
      modifies this
      ensures openObjectives == Toggled(old(openObjectives), objectiveId)
      ensures expandedTasks == old(expandedTasks)
    {
      var newSet := openObjectives;
      if objectiveId in newSet {
        newSet := newSet - {objectiveId};
      } else {
        newSet := newSet + {objectiveId};
      }
      openObjectives := newSet;
    }

    /** Expands the task `taskId` when collapsed and collapses it when expanded. */
    method ToggleTaskExpansion(taskId: string)
      modifies this
      ensures expandedTasks == Toggled(old(expandedTasks), taskId)
      ensures openObjectives == old(openObjectives)
    {
      var newSet := expandedTasks;
      if taskId in newSet {
        newSet := newSet - {taskId};
      } else {
        newSet := newSet + {taskId};
      }
      expandedTasks := newSet;
    }
  }

  /** A task listed under "Quick Tasks": neither an objective nor a parent. */
  predicate IsQuickTask(t: Task) {
    !Truthy(t.objectiveId) && !Truthy(t.parentId)
  }

  /** A task listed in the folder of objective `objectiveId`. */
  predicate InObjectiveGroup(t: Task, objectiveId: string) {
    t.objectiveId == Some(objectiveId) && !Truthy(t.parentId)
  }

  function UnassignedTasks(tasks: seq<Task>): (r: seq<Task>)
    ensures Seqs.IsSubsequence(r, tasks)
    ensures forall t :: t in r ==> IsQuickTask(t)
    ensures forall t :: t in tasks && IsQuickTask(t) ==> t in r
  {
    Seqs.Filter(IsQuickTask, tasks)
  }

  function ObjectiveTopLevelTasks(tasks: seq<Task>, objectiveId: string): (r: seq<Task>)
    ensures Seqs.IsSubsequence(r, tasks)
    ensures forall t :: t in r ==> InObjectiveGroup(t, objectiveId)
    ensures forall t :: t in tasks && InObjectiveGroup(t, objectiveId) ==> t in r
  {
    Seqs.Filter((t: Task) => InObjectiveGroup(t, objectiveId), tasks)
  }

  /** One shown folder: the key its open state is stored under, its title, count and tasks. */
  datatype Folder = Folder(key: string, title: string, taskCount: nat, tasks: seq<Task>)

  const QuickTasksKey := "unassigned"

  /** The folder of objective `o`, keyed and titled by it. */
  function FolderOf(tasks: seq<Task>, o: Objective): Folder {
    var group := ObjectiveTopLevelTasks(tasks, o.id);
    Folder(o.id, o.title, |group|, group)
  }

  predicate IsShown(f: Folder) {
    f.taskCount > 0
  }

  /** `objectives.map(...)` before the objectives with an empty group are dropped. */
  function AllFolders(tasks: seq<Task>, objectives: seq<Objective>): (r: seq<Folder>)
    ensures |r| == |objectives|
    ensures forall i :: 0 <= i < |objectives| ==> r[i] == FolderOf(tasks, objectives[i])
  {
    seq(|objectives|, i requires 0 <= i < |objectives| => FolderOf(tasks, objectives[i]))
  }

  /** `objectives.map(...)` with the objectives whose group is empty rendering nothing. */
  function ObjectiveFolders(tasks: seq<Task>, objectives: seq<Objective>): (r: seq<Folder>)
    ensures r == Seqs.Filter(IsShown, AllFolders(tasks, objectives))
    ensures Seqs.IsSubsequence(r, AllFolders(tasks, objectives))
    ensures forall f :: f in r ==> IsShown(f) && exists o :: o in objectives && f == FolderOf(tasks, o)
    ensures forall o :: o in objectives && |ObjectiveTopLevelTasks(tasks, o.id)| > 0 ==> FolderOf(tasks, o) in r
  {
    var all := AllFolders(tasks, objectives);
    var r := Seqs.Filter(IsShown, all);
    assert forall f :: f in r ==> exists o :: o in objectives && f == FolderOf(tasks, o) by {
      forall f | f in r ensures exists o :: o in objectives && f == FolderOf(tasks, o) {
        var i :| 0 <= i < |all| && all[i] == f;
        assert objectives[i] in objectives;
      }
    }
    assert forall o :: o in objectives && |ObjectiveTopLevelTasks(tasks, o.id)| > 0 ==> FolderOf(tasks, o) in r by {
      forall o | o in objectives && |ObjectiveTopLevelTasks(tasks, o.id)| > 0 ensures FolderOf(tasks, o) in r {
        var i :| 0 <= i < |objectives| && objectives[i] == o;
        assert all[i] == FolderOf(tasks, o);
      }
    }
    r
  }

  /** No objectives, no folders. */
  lemma ObjectiveFoldersNil(tasks: seq<Task>)
    ensures ObjectiveFolders(tasks, []) == []
  {
    assert AllFolders(tasks, []) == [];
  }

  /**
   * The folders follow the objectives: the first objective's folder (when its group has
   * tasks) comes first, then those of the remaining objectives, each objective once.
   */
  lemma {:induction false} ObjectiveFoldersCons(tasks: seq<Task>, o: Objective, rest: seq<Objective>)
    ensures ObjectiveFolders(tasks, [o] + rest)
            == (if |ObjectiveTopLevelTasks(tasks, o.id)| > 0 then [FolderOf(tasks, o)] else [])
               + ObjectiveFolders(tasks, rest)
  {
    var whole := AllFolders(tasks, [o] + rest);
    var tail := AllFolders(tasks, rest);
    assert whole == [FolderOf(tasks, o)] + tail by {
      forall i | 0 <= i < |whole| ensures whole[i] == ([FolderOf(tasks, o)] + tail)[i] {
        if i > 0 {
          assert ([o] + rest)[i] == rest[i - 1];
        }
      }
    }
    assert whole[1..] == tail;
  }

  /** The "Quick Tasks" folder. */
  function QuickFolder(tasks: seq<Task>): Folder {
    var quick := UnassignedTasks(tasks);
    Folder(QuickTasksKey, "Quick Tasks", |quick|, quick)
  }

  /**
   * The folders the list shows, in order: "Quick Tasks" first when it has tasks, then
   * the folder of each objective with tasks, in objective order.
   */
  function Folders(tasks: seq<Task>, objectives: seq<Objective>): (r: seq<Folder>)
    ensures forall f :: f in r ==> f.taskCount == |f.tasks| > 0
    ensures r == (if |UnassignedTasks(tasks)| > 0 then [QuickFolder(tasks)] else []) + ObjectiveFolders(tasks, objectives)
    ensures QuickFolder(tasks) in r <==> exists t :: t in tasks && IsQuickTask(t)
  {
    var quick := UnassignedTasks(tasks);
    var perObjective := ObjectiveFolders(tasks, objectives);
    assert QuickFolder(tasks) in perObjective ==> quick != [] by {
      if QuickFolder(tasks) in perObjective {
        assert IsShown(QuickFolder(tasks));
      }
    }
    assert |quick| > 0 ==> quick[0] in quick;
    if |quick| > 0 then [QuickFolder(tasks)] + perObjective
    else perObjective
  }

  /** The shown folders hold only tasks of the list, and no task with a parent. */
  lemma FoldersHoldOnlyTopLevel(tasks: seq<Task>, objectives: seq<Objective>)
    ensures forall f, t :: f in Folders(tasks, objectives) && t in f.tasks ==> !Truthy(t.parentId) && t in tasks
  {
    var r := Folders(tasks, objectives);
    var quick := UnassignedTasks(tasks);
    var perObjective := ObjectiveFolders(tasks, objectives);
    forall f, t | f in r && t in f.tasks ensures !Truthy(t.parentId) && t in tasks {
      if f in perObjective {
        var o :| o in objectives && f == FolderOf(tasks, o);
      } else {
        assert f.tasks == quick;
      }
    }
  }

  /**
   * No task sits in two groups: a quick task has no objective and a task of one objective's
   * group has no other objective. An objective with the id "" is excluded because its
   * group and the quick group would then overlap in the source as well.
   */
  lemma GroupsDisjoint(tasks: seq<Task>, a: string, b: string)
    requires a != "" && b != ""
    ensures forall t :: t in UnassignedTasks(tasks) ==> t !in ObjectiveTopLevelTasks(tasks, a)
    ensures a != b ==> forall t :: t in ObjectiveTopLevelTasks(tasks, a) ==> t !in ObjectiveTopLevelTasks(tasks, b)
  {
  }
}
