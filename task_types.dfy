/** The records of the task tracker: tasks, objectives, the task form and activity entries. */
module TaskTypes {
  import opened Wrappers

  datatype TaskStatus = Todo | InProgress | Completed

  datatype TaskPriority = Low | Medium | High

  /** The store keeps a task's subtasks nested inside it; the key may be absent altogether. */
  datatype SubtaskField = Absent | Present(items: seq<Task>)

  datatype Task = Task(
    id: string,
    title: string,
    description: Option<string>,
    status: TaskStatus,
    priority: TaskPriority,
    dueDate: Option<string>,
    tags: Option<seq<string>>,
    objectiveId: Option<string>,
    parentId: Option<string>,
    subtasks: SubtaskField)

  /** A task without its id: what callers hand to the store's addTask. */
  datatype TaskDraft = TaskDraft(
    title: string,
    description: Option<string>,
    status: TaskStatus,
    priority: TaskPriority,
    dueDate: Option<string>,
    tags: Option<seq<string>>,
    objectiveId: Option<string>,
    parentId: Option<string>,
    subtasks: SubtaskField)

  /** `{ ...draft, id }`: the draft's fields with the given id. */
  function WithId(d: TaskDraft, id: string): Task {
    Task(id, d.title, d.description, d.status, d.priority, d.dueDate, d.tags,
         d.objectiveId, d.parentId, d.subtasks)
  }

  /** The editable fields of a task as the forms hold them: all text, tags comma-separated. */
  datatype TaskFormData = TaskFormData(
    title: string,
    description: string,
    dueDate: string,
    priority: TaskPriority,
    objectiveId: string,
    tags: string,
    parentId: Option<string>)

  datatype SubtaskCompletionPreference = Ask | Always | Never

  datatype Objective = Objective(id: string, title: string, progress: int, color: string)

  datatype ActivityType = TaskCompletedActivity | TaskCreatedActivity | ObjectiveCreatedActivity

  datatype ActivityItem = ActivityItem(id: string, kind: ActivityType, text: string, timestamp: string)
}
