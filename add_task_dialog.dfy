/**
 * The add-task dialog: the form it opens with (a top-level task, or a subtask that
 * inherits its parent's objective) and the task it hands to the store on submit.
 */
module AddTaskDialog {
  import opened Wrappers
  import opened TaskTypes
  import opened TaskForms
  import AppStore
  import TaskList

  // ---------------------------------------------------------------------------
  // Opening the dialog
  // ---------------------------------------------------------------------------

  /** The objective a new subtask inherits: the parent's, or the sentinel when it has none. */
  function InheritedObjective(parent: Option<Task>): (r: string)
    ensures parent.Some? && Truthy(parent.value.objectiveId) ==> r == parent.value.objectiveId.value
    ensures !(parent.Some? && Truthy(parent.value.objectiveId)) ==> r == Unassigned
  {
    if parent.Some? then OrElse(parent.value.objectiveId, Unassigned) else Unassigned
  }

  /** The subtask form: the defaults plus the parent and the inherited objective. */
  function SubtaskForm(parentId: string, parent: Option<Task>): (r: TaskFormData)
    ensures r.parentId == Some(parentId) && r.objectiveId == InheritedObjective(parent)
    ensures r.(parentId := None, objectiveId := Unassigned) == InitialFormData
  {
    InitialFormData.(parentId := Some(parentId), objectiveId := InheritedObjective(parent))
  }

  /**
   * The form the dialog shows once open, with the parent looked up by id among the
   * store's tasks.
   */
  function OpenedForm(parentId: Option<string>, tasks: seq<Task>): (r: TaskFormData)
    ensures !Truthy(parentId) ==> r == InitialFormData
    ensures Truthy(parentId) ==>
      r.title == "" && r.description == "" && r.dueDate == "" && r.priority == Medium && r.tags == ""
      && r.parentId == parentId
  {
    if Truthy(parentId) then SubtaskForm(parentId.value, AppStore.FindTask(tasks, parentId.value))
    else InitialFormData
  }

  /** A subtask of an existing task starts in that task's objective, or unassigned if it has none. */
  lemma SubtaskInheritsObjective(parentId: string, tasks: seq<Task>, k: nat)
    requires parentId != "" && k < |tasks| && tasks[k].id == parentId
    requires forall j :: 0 <= j < k ==> tasks[j].id != parentId
    ensures Truthy(tasks[k].objectiveId) ==> OpenedForm(Some(parentId), tasks).objectiveId == tasks[k].objectiveId.value
    ensures !Truthy(tasks[k].objectiveId) ==> OpenedForm(Some(parentId), tasks).objectiveId == Unassigned
  {
    var found := AppStore.FindTask(tasks, parentId);
    var i :| 0 <= i < |tasks| && tasks[i] == found.value && tasks[i].id == parentId &&
             forall j :: 0 <= j < i ==> tasks[j].id != parentId;
    assert i == k;
  }

  /** A subtask of an id no task has starts unassigned. */
  lemma SubtaskOfMissingParent(parentId: string, tasks: seq<Task>)
    requires parentId != ""
    requires forall i :: 0 <= i < |tasks| ==> tasks[i].id != parentId
    ensures OpenedForm(Some(parentId), tasks) == InitialFormData.(parentId := Some(parentId))
  {
  }

  // ---------------------------------------------------------------------------
  // The parent lookup as written: the task array indexed by the id string
  // ---------------------------------------------------------------------------

  predicate IsDigit(c: char) {
    '0' <= c <= '9'
  }

  function DigitsValue(s: string): nat
    requires forall i :: 0 <= i < |s| ==> IsDigit(s[i])
  {
    if s == [] then 0
    else
      assert IsDigit(s[|s| - 1]);
      DigitsValue(s[..|s| - 1]) * 10 + (s[|s| - 1] as int - '0' as int)
  }

  /** A property key that a JavaScript array reads as an element index. */
  predicate IsArrayIndexKey(key: string) {
    |key| > 0 && (forall i :: 0 <= i < |key| ==> IsDigit(key[i]))
    && (key[0] != '0' || |key| == 1) && DigitsValue(key) < 0xFFFF_FFFF
  }

  /** `tasks[key]` on the tasks array: an element only for an index key inside the array. */
  function ArrayKeyLookup(tasks: seq<Task>, key: string): (r: Option<Task>)
    ensures r.Some? ==> r.value in tasks
    ensures !IsArrayIndexKey(key) ==> r.None?
  {
    if IsArrayIndexKey(key) && DigitsValue(key) < |tasks| then Some(tasks[DigitsValue(key)]) else None
  }

  /** The form the dialog shows once open, with the parent read as `tasks[parentId]`. */
  function OpenedFormAsWritten(parentId: Option<string>, tasks: seq<Task>): (r: TaskFormData)
    ensures !Truthy(parentId) ==> r == InitialFormData
    ensures Truthy(parentId) ==>
      r.parentId == parentId && r.objectiveId == InheritedObjective(ArrayKeyLookup(tasks, parentId.value))
  {
    if Truthy(parentId) then SubtaskForm(parentId.value, ArrayKeyLookup(tasks, parentId.value))
    else InitialFormData
  }

  /** No task id with a non-digit in it (a uuid has '-') finds its parent as written. */
  lemma AsWrittenNeverFindsUuidParent(parentId: string, tasks: seq<Task>)
    requires '-' in parentId
    ensures OpenedFormAsWritten(Some(parentId), tasks).objectiveId == Unassigned
  {
    var i :| 0 <= i < |parentId| && parentId[i] == '-';
    assert !IsDigit(parentId[i]);
  }

  /** A parent "p-1" in objective "o-1": as written the subtask starts unassigned. */
  lemma AsWrittenLosesParentObjective()
    ensures var parent := Task("p-1", "Parent", None, Todo, Medium, None, None, Some("o-1"), None, Absent);
            OpenedFormAsWritten(Some("p-1"), [parent]).objectiveId == Unassigned
            && OpenedForm(Some("p-1"), [parent]).objectiveId == "o-1"
  {
    var parent := Task("p-1", "Parent", None, Todo, Medium, None, None, Some("o-1"), None, Absent);
    assert "p-1"[1] == '-';
    AsWrittenNeverFindsUuidParent("p-1", [parent]);
    SubtaskInheritsObjective("p-1", [parent], 0);
  }

  // ---------------------------------------------------------------------------
  // Submitting
  // ---------------------------------------------------------------------------

  /** `{ ...formData, status: 'todo', tags: parsed }`: every form field as typed, tags parsed. */
  function NewTaskPayload(form: TaskFormData): (r: TaskDraft)
    ensures r.status == Todo && r.subtasks.Absent?
    ensures r.title == form.title && r.description == Some(form.description) && r.dueDate == Some(form.dueDate)
    ensures r.priority == form.priority && r.objectiveId == Some(form.objectiveId) && r.parentId == form.parentId
    ensures r.tags == Some(ParseTags(form.tags))
    ensures r.tags.Some? && forall i :: 0 <= i < |r.tags.value| ==> CleanTag(r.tags.value[i])
  {
    TaskDraft(form.title, Some(form.description), Todo, form.priority, Some(form.dueDate),
              Some(ParseTags(form.tags)), Some(form.objectiveId), form.parentId, Absent)
  }

  /** The form's objective is stored as typed, the "unassigned" sentinel included. */
  lemma PayloadKeepsSentinel(form: TaskFormData)
    requires form.objectiveId == Unassigned
    ensures NewTaskPayload(form).objectiveId == Some("unassigned")
  {
  }

  /** Adds the task the form describes under `freshId`, then closes the dialog. */
  method HandleSubmit(store: AppStore.Store, form: TaskFormData, freshId: string) returns (open: bool)
    modifies store
    ensures store.tasks == old(store.tasks) + [WithId(NewTaskPayload(form), freshId)]
    ensures store.objectives == old(store.objectives) && store.activityLog == old(store.activityLog)
    ensures store.isSidebarCollapsed == old(store.isSidebarCollapsed)
    ensures !open
  {
    store.AddTask(NewTaskPayload(form), freshId);
    open := false;
  }

  /**
   * A top-level task added with the default objective carries the sentinel as its objective,
   * so unless some objective has the id "unassigned" no folder of the task list shows it.
   */
  lemma DefaultTaskInNoFolder(tasks: seq<Task>, objectives: seq<Objective>, form: TaskFormData, freshId: string)
    requires form.objectiveId == Unassigned && form.parentId.None?
    requires forall o :: o in objectives ==> o.id != Unassigned
    ensures var t := WithId(NewTaskPayload(form), freshId);
            forall f :: f in TaskList.Folders(tasks + [t], objectives) ==> t !in f.tasks
  {
    var t := WithId(NewTaskPayload(form), freshId);
    var all := tasks + [t];
    var quick := TaskList.UnassignedTasks(all);
    var perObjective := TaskList.ObjectiveFolders(all, objectives);
    forall f | f in TaskList.Folders(all, objectives) ensures t !in f.tasks {
      if f in perObjective {
        var o :| o in objectives && f == TaskList.FolderOf(all, o);
        assert !TaskList.InObjectiveGroup(t, o.id);
      } else {
        assert f.tasks == quick;
        assert !TaskList.IsQuickTask(t);
      }
    }
  }
}
