/**
 * The edit-task dialog: a task shown as form fields, and the form laid back over the
 * task on save.
 */
module EditTaskDialog {
  import opened Wrappers
  import opened TaskTypes
  import opened TaskForms
  import AppStore
  import AddTaskDialog

  /** The form prefilled from a task; missing text becomes empty, a missing objective the sentinel. */
  function TaskToForm(t: Task): (r: TaskFormData)
    ensures r.title == t.title && r.priority == t.priority && r.parentId.None?
    ensures t.description.Some? ==> r.description == t.description.value
    ensures t.description.None? ==> r.description == ""
    ensures t.dueDate.Some? ==> r.dueDate == t.dueDate.value
    ensures t.dueDate.None? ==> r.dueDate == ""
    ensures Truthy(t.objectiveId) ==> r.objectiveId == t.objectiveId.value
    ensures !Truthy(t.objectiveId) ==> r.objectiveId == Unassigned
    ensures t.tags.Some? ==> r.tags == JoinTags(t.tags.value)
    ensures t.tags.None? ==> r.tags == ""
  {
    TaskFormData(t.title, OrElse(t.description, ""), OrElse(t.dueDate, ""), t.priority,
                 OrElse(t.objectiveId, Unassigned),
                 if t.tags.Some? then JoinTags(t.tags.value) else "", None)
  }

  /** The form for the task being edited, or the defaults when there is none. */
  function FormFor(taskToEdit: Option<Task>): (r: TaskFormData)
    ensures taskToEdit.None? ==> r == InitialFormData
    ensures taskToEdit.Some? ==> r == TaskToForm(taskToEdit.value)
  {
    if taskToEdit.Some? then TaskToForm(taskToEdit.value) else InitialFormData
  }

  /** `{ ...taskToEdit, ...formData, tags: parsed }`. */
  function ApplyForm(t: Task, form: TaskFormData): (r: Task)
    ensures r.id == t.id && r.status == t.status && r.subtasks == t.subtasks
    ensures form.parentId.None? ==> r.parentId == t.parentId
    ensures form.parentId.Some? ==> r.parentId == form.parentId
    ensures r.title == form.title && r.priority == form.priority
    ensures r.description == Some(form.description) && r.dueDate == Some(form.dueDate)
    ensures r.objectiveId == Some(form.objectiveId)
    ensures r.tags == Some(ParseTags(form.tags))
  {
    t.(title := form.title, description := Some(form.description), dueDate := Some(form.dueDate),
       priority := form.priority, objectiveId := Some(form.objectiveId),
       tags := Some(ParseTags(form.tags)),
       parentId := if form.parentId.Some? then form.parentId else t.parentId)
  }

  /** Saving the form unchanged gives the task back, when its fields survive the form. */
  lemma SaveUnchangedIsIdentity(t: Task)
    requires t.description.Some? && t.dueDate.Some? && Truthy(t.objectiveId)
    requires t.tags.Some? && forall i :: 0 <= i < |t.tags.value| ==> CleanTag(t.tags.value[i])
    ensures ApplyForm(t, TaskToForm(t)) == t
  {
    TagsRoundTrip(t.tags.value);
  }

  /** A task without an objective is saved with the "unassigned" sentinel as its objective. */
  lemma SaveStoresSentinel(t: Task)
    requires !Truthy(t.objectiveId)
    ensures ApplyForm(t, TaskToForm(t)).objectiveId == Some("unassigned")
  {
  }

  /** A task just added from a form opens for editing with what was typed, tags normalised. */
  lemma AddedTaskEditsAsTyped(form: TaskFormData, freshId: string)
    requires form.objectiveId != ""
    ensures TaskToForm(WithId(AddTaskDialog.NewTaskPayload(form), freshId))
            == form.(tags := JoinTags(ParseTags(form.tags)), parentId := None)
  {
  }

  /** Normalised tag text reads back as the same tags. */
  lemma ReparsedTagsStable(text: string)
    ensures ParseTags(JoinTags(ParseTags(text))) == ParseTags(text)
  {
    TagsRoundTrip(ParseTags(text));
  }

  /**
   * Saving the edit of a top-level task whose id no other tree of the forest carries keeps
   * the ids of the forest at every depth: the overlay keeps the task's own subtasks.
   */
  lemma EditKeepsSkeleton(ts: seq<Task>, k: nat, form: TaskFormData)
    requires k < |ts|
    requires forall i :: 0 <= i < |ts| && i != k ==> ts[k].id !in AppStore.TreeIds(ts[i])
    ensures AppStore.Skeleton(AppStore.UpdateRecursively(ts, ApplyForm(ts[k], form))) == AppStore.Skeleton(ts)
  {
    var u := ApplyForm(ts[k], form);
    forall i | 0 <= i < |ts|
      ensures AppStore.AgreesAt(ts[i], u)
      ensures ts[i].id != u.id && AppStore.HasNestedTasks(ts[i]) ==> AppStore.AllAgree(ts[i].subtasks.items, u)
    {
      if i != k && AppStore.HasNestedTasks(ts[i]) {
        assert u.id !in AppStore.AllIds(ts[i].subtasks.items);
        AppStore.UnknownIdAgrees(ts[i].subtasks.items, u);
      }
    }
    AppStore.UpdateKeepsSkeleton(ts, u);
  }

  /** Updates the store with the form laid over the edited task, if any; the dialog closes either way. */
  method HandleSubmit(store: AppStore.Store, taskToEdit: Option<Task>, form: TaskFormData) returns (open: bool)
    modifies store
    ensures taskToEdit.Some? ==> store.tasks == AppStore.UpdateRecursively(old(store.tasks), ApplyForm(taskToEdit.value, form))
    ensures taskToEdit.None? ==> store.tasks == old(store.tasks)
    ensures store.objectives == old(store.objectives) && store.activityLog == old(store.activityLog)
    ensures store.isSidebarCollapsed == old(store.isSidebarCollapsed)
    ensures !open
  {
    if taskToEdit.Some? {
      store.UpdateTask(ApplyForm(taskToEdit.value, form));
    }
    open := false;
  }
}
