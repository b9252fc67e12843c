# Synapse task tracker: a verified model of its store and task logic

Synapse is a personal task tracker. Tasks (with optional nested subtasks) hang under
objectives, and the app shows them as folders, as a filterable list, as statistics and as
a graph. This project models the part of the app that has real logic, in Dafny:

- the global store (`src/store/appStore.ts`): ordered sequences of tasks, objectives and
  activity entries, plus the sidebar flag. Its actions append, merge-update over a task
  forest, delete from a task forest, replace an objective, toggle a status (and log it),
  prepend to the log, and toggle the sidebar. The store is a class whose methods reassign
  its fields. The forest transformations are functions.
- the completion-confirmation flow (`src/hooks/use-task-completion.ts`). It decides
  between a direct toggle, a cascade, and asking the user. It holds the pending task, and
  it turns the user's answer into store calls. Those calls are emitted as values
  (`StoreAction`), because the store does not define them.
- graph construction (`src/hooks/use-graph-layout.ts`): the nodes, the edges and their
  styles, and the in-place step that puts handle sides on the node array.
- the add and edit dialogs. This covers the default form, the form of a new subtask, tag
  text parsing and joining, the payload of a new task, and the edit overlay.
- the list derivations: the all-tasks filter, the task list's folders and open/expanded
  sets, a task row's subtasks, priority colour and tag badges, and the statistics counts.

Modules follow the source files: `AppStore`, `TaskCompletion`, `GraphLayout`,
`AddTaskDialog`, `EditTaskDialog`, `AllTasksView`, `TaskList`, `TaskItem`, `TaskStats`.
They rest on `TaskTypes` (the records of `src/types/taskTypes.ts`, with the `subtasks`
field the store uses), `TaskForms` (what both dialogs share), `Wrappers` (`Option` and
JavaScript truthiness) and `Seqs` (an order-preserving filter and its lemmas).

Conventions:
- An optional text field is an `Option<string>`; `None` is an absent key.
- "Truthy" means present and non-empty, as in JavaScript.
- An object spread `{...a, ...b}` lets every key present in `b` win.
- The ids that `uuidv4()` generates, the current time, and the "is this date in the past"
  test are parameters.

## How the code links tasks

The model follows the code in each case.

- `appStore.ts` keeps tasks in a plain array and nests subtasks inside their parent's
  `subtasks` list (the seed data at `appStore.ts:60-106`). `updateTask` and `deleteTask`
  walk that nesting (`appStore.ts:131-145`, `160-185`).
- The rest of the app links a subtask to its parent through `parentId` in the same flat
  array instead. The add dialog writes `parentId` (`AddTaskDialog.tsx:70-74`). A task row
  finds its subtasks by `parentId` (`TaskItem.tsx:61-64`), and so does the completion hook
  (`use-task-completion.ts:30-32`).
- `deleteTask` does not follow `parentId`. A child linked only that way stays in the
  store with a parent id that no longer exists. The task list no longer shows it, since it
  has a parent (`TaskList.tsx:71-73`, `111-113`). The statistics still count it
  (`TaskStats.tsx:21-33`). `AppStore.DeleteRemovesExactlySubtrees` states that only
  nested tasks disappear with a deleted task.
- The store defines no `deleteObjective`, no `completeTaskWithSubtasks` and no
  subtask-completion preference, although `use-task-completion.ts` calls the last two.
- Node coordinates come from the dagre library (`use-graph-layout.ts:32-53`). Only node
  and edge construction is modelled.
- The dialogs store the objective selector's `'unassigned'` value as the task's
  `objectiveId` (`AddTaskDialog.tsx:86-88`, `EditTaskDialog.tsx:74-84`). They do not turn it
  back into "no objective". A task saved that way is shown in no folder of the task list
  (`AddTaskDialog.DefaultTaskInNoFolder`).

## Model

| member | source | states |
|---|---|---|
| AppStore.UpdateRecursively | src/store/appStore.ts:131-145 | same length and ids; a task with the updated id gets the update's present fields over its own; any other task with a non-empty subtask list keeps its other fields and has the update applied to that list, recursively; any other task without one is unchanged |
| AppStore.UpdateMergesNestedTask | src/store/appStore.ts:133-143 | a subtask one level down that carries the updated id gets the update merged over it, and the parent's subtask list keeps its length |
| AppStore.UpdateKeepsSkeleton | src/store/appStore.ts:131-145 | an update that, wherever it matches, brings no subtasks key or the matched task's own subtasks keeps the ids of the forest at every depth, in order |
| AppStore.AbsentSubtasksAgree | src/store/appStore.ts:133-140 | an update without a subtasks key meets that condition for every forest |
| AppStore.UnknownIdAgrees | src/store/appStore.ts:133-140 | an update whose id occurs nowhere in a forest meets that condition for it |
| AppStore.UpdateUnknownIdIsIdentity | src/store/appStore.ts:131-145 | updating an id that occurs nowhere in the forest leaves it unchanged |
| AppStore.UpdateIdempotent | src/store/appStore.ts:129-148 | applying the same update twice equals applying it once |
| AppStore.DeleteRecursively | src/store/appStore.ts:160-185 | the result is the tasks without the id, in their original order, each keeping every field apart from its (pruned) subtask list |
| AppStore.PruneOne | src/store/appStore.ts:172-184 | a survivor with subtasks has the delete applied to them; one without is unchanged |
| AppStore.DeleteRemovesIdEverywhere | src/store/appStore.ts:158-188 | after the delete no task at any depth carries the id |
| AppStore.DeleteUnknownIdIsIdentity | src/store/appStore.ts:160-185 | deleting an id that occurs nowhere leaves the forest unchanged |
| AppStore.DeleteIdempotent | src/store/appStore.ts:158-188 | deleting twice equals deleting once |
| AppStore.DeleteRemovesExactlySubtrees | src/store/appStore.ts:160-185 | the ids removed are exactly the ids of every deleted task and everything nested under it: nothing else disappears |
| AppStore.DeleteRecursivelyAsWritten | src/store/appStore.ts:160-185 | as written: the tasks without the id, in order, each keeping every field apart from its subtask list |
| AppStore.PruneOneAsWritten | src/store/appStore.ts:172-183 | as written: only the subtask list can change, and a survivor whose subtask count did not change is kept as it was |
| AppStore.DeleteAsWrittenKeepsGrandchild | src/store/appStore.ts:174-180 | as written, deleting a grandchild leaves the forest unchanged and the id present; the corrected delete removes it |
| AppStore.ReplaceObjective | src/store/appStore.ts:150-155 | same length; the objective with the id becomes the new record; all others unchanged |
| AppStore.ReplaceObjectiveLaws | src/store/appStore.ts:150-155 | an unknown id changes nothing; replacing twice equals replacing once |
| AppStore.ToggleTopLevel | src/store/appStore.ts:218-227 | top-level tasks with the id flip completed to todo and anything else to completed; all other tasks, and all nested subtasks, are unchanged |
| AppStore.ToggleTwice | src/store/appStore.ts:218-227 | toggling twice restores todo and completed, and turns in-progress into todo |
| AppStore.FindTask | src/store/appStore.ts:213 | none exactly when no top-level task has the id; otherwise the first such task |
| AppStore.LogsCompletionExactly | src/store/appStore.ts:213-217 | a completion is logged exactly when the first top-level task with the id exists and is not completed |
| AppStore.Store.constructor | src/store/appStore.ts:60-106 | the seed tasks and objectives, an empty log, the sidebar collapsed |
| AppStore.Store.ToggleSidebar | src/store/appStore.ts:116-119 | negates the sidebar flag; nothing else changes |
| AppStore.Store.AddTask | src/store/appStore.ts:122-126 | appends exactly the draft with the fresh id; earlier tasks and every other field unchanged |
| AppStore.Store.UpdateTask | src/store/appStore.ts:129-148 | tasks become the recursive merge-update; nothing else changes |
| AppStore.Store.UpdateObjective | src/store/appStore.ts:150-155 | objectives become the replacement; nothing else changes |
| AppStore.Store.DeleteTask | src/store/appStore.ts:158-188 | tasks become the recursive delete, with the id gone at every depth; nothing else changes |
| AppStore.Store.AddObjective | src/store/appStore.ts:191-198 | appends one objective with the fresh id, progress 0 and colour #e0aaff; nothing else changes |
| AppStore.Store.LogActivity | src/store/appStore.ts:201-209 | prepends exactly one entry; nothing else changes |
| AppStore.Store.ToggleTaskStatus | src/store/appStore.ts:212-228 | toggles the top level and prepends a TASK_COMPLETED entry for the found task's title exactly when it exists and is not completed |
| TaskCompletion.IncompleteSubtasks | src/hooks/use-task-completion.ts:30-32 | exactly the tasks naming this task as parent that are not completed, in order |
| TaskCompletion.Decide | src/hooks/use-task-completion.ts:24-50 | completed task: toggle; no incomplete child or preference never: toggle; else always: cascade; else ask: pending |
| TaskCompletion.ActionsFor | src/hooks/use-task-completion.ts:24-50 | asking emits nothing; a toggle emits exactly `toggleTaskStatus(task.id)`; a cascade exactly `completeTaskWithSubtasks(task.id)` |
| TaskCompletion.Resolution | src/hooks/use-task-completion.ts:60-78 | nothing when none is pending; otherwise the remembered preference first (if asked for), then the cascade or the toggle of the pending task |
| TaskCompletion.AnswerMatchesPreference | src/hooks/use-task-completion.ts:60-78 | answering does what the answer's preference does without asking, and a remembered preference never asks again in the same situation |
| TaskCompletion.CompletionFlow.constructor | src/hooks/use-task-completion.ts:20 | nothing pending |
| TaskCompletion.CompletionFlow.Open | src/hooks/use-task-completion.ts:84 | the dialog is open exactly while a task is pending; closed, it shows an empty title |
| TaskCompletion.CompletionFlow.DialogTaskTitle | src/hooks/use-task-completion.ts:86 | the pending task's title, or empty |
| TaskCompletion.CompletionFlow.HandleToggleCompletion | src/hooks/use-task-completion.ts:22-58 | emits the decision's store calls; holds the task exactly when it asks, otherwise leaves the pending task alone; the dialog is then open exactly when it was or the decision asks |
| TaskCompletion.CompletionFlow.HandleConfirmCompleteAll | src/hooks/use-task-completion.ts:60-68 | emits the complete-all resolution, clears the pending task and closes the dialog |
| TaskCompletion.CompletionFlow.HandleConfirmCompleteParentOnly | src/hooks/use-task-completion.ts:70-78 | emits the parent-only resolution, clears the pending task and closes the dialog |
| TaskCompletion.CompletionFlow.OnOpenChange | src/hooks/use-task-completion.ts:85 | clears the pending task, closes the dialog and emits nothing |
| GraphLayout.AllNodes | src/hooks/use-graph-layout.ts:86-107 | objective nodes in order (kind objective, label with the target emoji), then task nodes in order (kind task, title, parent, objective, status and priority copied) |
| GraphLayout.EdgeFor | src/hooks/use-graph-layout.ts:112-122 | target is the task; source is the parent when present, else the objective; id "e-source-task"; solid grey exactly for a parent edge, dashed light grey exactly for an objective edge |
| GraphLayout.Edges | src/hooks/use-graph-layout.ts:110-122 | one edge per task with a parent or an objective, in task order |
| GraphLayout.EdgesMatchLinkedTasks | src/hooks/use-graph-layout.ts:110-122 | every edge enters a linked task, and every linked task has its edge |
| GraphLayout.WithHandles | src/hooks/use-graph-layout.ts:56-71 | same nodes, ids and data in the same order, each entered at the top and left at the bottom |
| GraphLayout.WithHandlesIdempotent | src/hooks/use-graph-layout.ts:56-71 | setting the handles again changes nothing |
| GraphLayout.GetLayoutedElements | src/hooks/use-graph-layout.ts:27-74 | the node array in place becomes its handled version; the edges come back unchanged |
| GraphLayout.UseGraphLayout | src/hooks/use-graph-layout.ts:82-127 | a fresh node array holding the handled node list, and the edge list |
| TaskForms.InitialFormData | src/components/modals/AddTaskDialog.tsx:29-36 | the empty form: blank texts, medium priority, objective "unassigned", no parent |
| TaskForms.Split | src/components/modals/AddTaskDialog.tsx:91 | at least one piece, none containing the separator |
| TaskForms.JoinSplit | src/components/modals/AddTaskDialog.tsx:91 | joining the pieces with the separator gives the text back |
| TaskForms.TrimStart | src/components/modals/AddTaskDialog.tsx:92 | a suffix with no leading whitespace, only whitespace dropped |
| TaskForms.TrimEnd | src/components/modals/AddTaskDialog.tsx:92 | a prefix with no trailing whitespace, only whitespace dropped |
| TaskForms.Trim | src/components/modals/AddTaskDialog.tsx:92 | the result is the input's middle slice; everything cut off in front and behind is whitespace, and the result starts and ends with none |
| TaskForms.TrimPadded | src/components/modals/AddTaskDialog.tsx:92 | leading whitespace before a trimmed text is all that trim removes |
| TaskForms.ParseTags | src/components/modals/AddTaskDialog.tsx:89-94 | the empty text gives no tags; otherwise the pieces between commas, trimmed, with the empty ones dropped, in order: every tag is such a piece, and every piece non-empty once trimmed is a tag; every tag is non-empty, trimmed and comma-free |
| TaskForms.TagsRoundTrip | src/components/modals/EditTaskDialog.tsx:62-83 | joining clean tags with ", " and parsing them back gives the same list |
| AddTaskDialog.InheritedObjective | src/components/modals/AddTaskDialog.tsx:73 | the parent's objective when truthy, else "unassigned" |
| AddTaskDialog.SubtaskForm | src/components/modals/AddTaskDialog.tsx:70-74 | the empty form with the parent id and the parent's inherited objective |
| AddTaskDialog.OpenedForm | src/components/modals/AddTaskDialog.tsx:66-79 | without a parent the defaults; with one the defaults plus that parent |
| AddTaskDialog.SubtaskInheritsObjective | src/components/modals/AddTaskDialog.tsx:68-74 | a subtask form takes the objective of the first task with the parent id, or "unassigned" if it has none |
| AddTaskDialog.SubtaskOfMissingParent | src/components/modals/AddTaskDialog.tsx:68-74 | with no task of that id the subtask form is the defaults plus the parent |
| AddTaskDialog.ArrayKeyLookup | src/components/modals/AddTaskDialog.tsx:69 | indexing the task array by a string finds an element only for an array-index key |
| AddTaskDialog.OpenedFormAsWritten | src/components/modals/AddTaskDialog.tsx:66-79 | as written: without a parent the empty form; with one, the parent id and the objective of whatever `tasks[parentId]` finds |
| AddTaskDialog.AsWrittenNeverFindsUuidParent | src/components/modals/AddTaskDialog.tsx:69-73 | as written, a parent id containing '-' always gives "unassigned" |
| AddTaskDialog.AsWrittenLosesParentObjective | src/components/modals/AddTaskDialog.tsx:69-73 | a parent "p-1" in objective "o-1": "unassigned" as written, "o-1" corrected |
| AddTaskDialog.NewTaskPayload | src/components/modals/AddTaskDialog.tsx:86-95 | title, description, due date, priority, objective and parent copied from the form; status todo; no subtasks; tags the parsed tag text, each clean |
| AddTaskDialog.PayloadKeepsSentinel | src/components/modals/AddTaskDialog.tsx:86-88 | the "unassigned" objective is stored as it is |
| AddTaskDialog.HandleSubmit | src/components/modals/AddTaskDialog.tsx:84-98 | exactly one task added, the payload with the fresh id; the dialog closes |
| AddTaskDialog.DefaultTaskInNoFolder | src/components/modals/AddTaskDialog.tsx:29-36 | a top-level task added with the default objective is in no folder of the task list |
| EditTaskDialog.TaskToForm | src/components/modals/EditTaskDialog.tsx:55-63 | title and priority copied; missing description or due date empty; a missing objective "unassigned"; tags joined with ", ", or empty when missing |
| EditTaskDialog.FormFor | src/components/modals/EditTaskDialog.tsx:54-70 | the task's form, or the defaults when there is no task |
| EditTaskDialog.ApplyForm | src/components/modals/EditTaskDialog.tsx:74-84 | id, status and subtasks kept; title, description, due date, priority, objective and parsed tags from the form; the form's parent when it has one, else the task's |
| EditTaskDialog.SaveUnchangedIsIdentity | src/components/modals/EditTaskDialog.tsx:55-84 | saving the unchanged form gives the task back when its fields survive the form |
| EditTaskDialog.SaveStoresSentinel | src/components/modals/EditTaskDialog.tsx:61-76 | a task without an objective is saved with "unassigned" |
| EditTaskDialog.AddedTaskEditsAsTyped | src/components/modals/EditTaskDialog.tsx:55-63 | a task just added opens for editing with the typed fields, tags normalised |
| EditTaskDialog.ReparsedTagsStable | src/components/modals/EditTaskDialog.tsx:78-83 | parsing normalised tag text gives the same tags |
| EditTaskDialog.EditKeepsSkeleton | src/components/modals/EditTaskDialog.tsx:72-87 | saving the edit of a top-level task whose id no other tree carries keeps the ids of the whole forest at every depth |
| EditTaskDialog.HandleSubmit | src/components/modals/EditTaskDialog.tsx:72-88 | with a task, the store gets the overlay as update; without, nothing changes; the dialog closes |
| AllTasksView.ToLower | src/views/AllTasksView.tsx:59-61 | same length, each character folded |
| AllTasksView.IncludesIsOccurrence | src/views/AllTasksView.tsx:60-61 | includes holds exactly when the term occurs at some position |
| AllTasksView.FilteredTasks | src/views/AllTasksView.tsx:58-70 | an order-preserving subsequence holding exactly the tasks passing all three tests; a set status or priority filter holds for every kept task |
| AllTasksView.EmptySearchMatchesAll | src/views/AllTasksView.tsx:60-62 | the empty term matches every title |
| AllTasksView.DefaultFiltersKeepAll | src/views/AllTasksView.tsx:33-37 | the start-up filters keep every task |
| AllTasksView.FilterIdempotent | src/views/AllTasksView.tsx:58-70 | filtering the result again changes nothing |
| TaskList.Toggled | src/components/task/TaskList.tsx:53-68 | membership of exactly the given id flips |
| TaskList.ToggledTwice | src/components/task/TaskList.tsx:53-68 | toggling twice restores the set |
| TaskList.TaskListState.constructor | src/components/task/TaskList.tsx:49-50 | nothing open, nothing expanded |
| TaskList.TaskListState.ToggleObjective | src/components/task/TaskList.tsx:53-61 | the open set is toggled at the id; the expanded set is unchanged |
| TaskList.TaskListState.ToggleTaskExpansion | src/components/task/TaskList.tsx:62-68 | the expanded set is toggled at the id; the open set is unchanged |
| TaskList.UnassignedTasks | src/components/task/TaskList.tsx:71-73 | exactly the tasks with neither objective nor parent, in order |
| TaskList.ObjectiveTopLevelTasks | src/components/task/TaskList.tsx:111-113 | exactly the tasks of that objective without a parent, in order |
| TaskList.AllFolders | src/components/task/TaskList.tsx:109-125 | one folder per objective, in objective order, keyed and titled by it, holding and counting its top-level tasks |
| TaskList.ObjectiveFolders | src/components/task/TaskList.tsx:109-145 | the folders of the objectives, in objective order, with those whose group is empty dropped; every objective with a non-empty group has its folder, and every folder shown is such a folder |
| TaskList.ObjectiveFoldersNil | src/components/task/TaskList.tsx:109 | no objectives, no folders |
| TaskList.ObjectiveFoldersCons | src/components/task/TaskList.tsx:109-115 | the first objective's folder, when its group has tasks, comes before those of the remaining objectives |
| TaskList.Folders | src/components/task/TaskList.tsx:78-145 | "Quick Tasks" first exactly when some task is a quick task, then the objective folders in objective order; every shown folder is non-empty and shows its group's length |
| TaskList.FoldersHoldOnlyTopLevel | src/components/task/TaskList.tsx:71-113 | no task with a parent is in any folder, and folders hold only listed tasks |
| TaskList.GroupsDisjoint | src/components/task/TaskList.tsx:71-113 | the quick group and each objective group are pairwise disjoint |
| TaskItem.Subtasks | src/components/task/TaskItem.tsx:61-64 | exactly the tasks naming this task as parent, in order |
| TaskItem.HasSubtasksIffChild | src/components/task/TaskItem.tsx:66 | the row expands exactly when some task names it as parent |
| TaskItem.IsChecked | src/components/task/TaskItem.tsx:130 | ticked exactly for a completed task |
| TaskItem.ClickFlipsCheckbox | src/components/task/TaskItem.tsx:129-131 | clicking a row's checkbox flips that row's tick and leaves every row with another id unchanged |
| TaskItem.PriorityColour | src/components/task/TaskItem.tsx:69-80 | high red, medium orange, low green, each exactly |
| TaskItem.ShownTags | src/components/task/TaskItem.tsx:147-149 | no badges without tags; otherwise all the tags when there are fewer than two, else the first two |
| TaskStats.ComputeStats | src/components/task/TaskStats.tsx:21-33 | total is the task count; completed and overdue count their tasks; completed and overdue together are at most the total |
| TaskStats.AddingTaskCounts | src/components/task/TaskStats.tsx:21-33 | one more task raises the total by one and each other count by one exactly when the task meets its test |

## Left out

- Coordinates: `dagre` and the position arithmetic (`src/hooks/use-graph-layout.ts:32-53, 65-68`) are a foreign library working in floating point. Nodes carry no `position`, and edges carry no constant `markerEnd`.
- Generated ids (`uuidv4()`) and timestamps are parameters; the model does not check that an id is fresh.
- The 150 ms delayed form resets (`AddTaskDialog.tsx:57-63`, `EditTaskDialog.tsx:66-68`) are timers. `EditTaskDialog.FormFor` gives the state once the timer has fired.
- `completeTaskWithSubtasks`, `subtaskCompletionPreference` and `setSubtaskCompletionPreference` are not defined by the store. They are `StoreAction` values, and the preference is a parameter. `deleteObjective` and `addReflection` are absent in the same way.
- `setMainObjective`, `setShowAddTaskDialog`, `setSidebarCollapsed` and their fields (`mainObjective`, `showAddTaskDialog`, the unused `expandedTasks` set) are one-line setters of UI state. They are not modelled.
- `src/types/objectivesTypes.ts` is not part of this model. Objectives take the fields the store gives them: id, title, progress and colour.
- Unreachable fallbacks: `priority` is a required field. So `|| 'medium'` (`EditTaskDialog.tsx:60`), `task.priority &&` (`TaskItem.tsx:164`) and the `bg-slate-400` default (`TaskItem.tsx:77-78`) cannot fire. `TaskItem.PriorityColour` is total over the three priorities.
- `toLowerCase` and `trim` are modelled on ASCII only. Other Unicode case mappings and spaces are not.
- A key that is present but holds `undefined` is not distinguished from an absent key.
- Object identity: `updateRecursively`'s test `newSubtasks !== task.subtasks` always holds for a freshly mapped array, so a parent with subtasks is always rebuilt. Everything is compared by value.
- Nothing in the code keeps a `parentId` pointing at an existing task, keeps parent links free of cycles, or keeps an `objectiveId` pointing at an existing objective. The model assumes none of these.
- Presentation: recursive rendering of subtask rows (`TaskItem.tsx:199-217`), date formatting, the add-subtask button's console message, and the checkbox's styling.
- `useTasks()` is read as the store's task array.
- `AddObjectiveDialog`'s non-blank-title check is in the dialog, not in the store. `AppStore.Store.AddObjective` therefore has no precondition.
- AppStore.UpdateKeepsSkeleton: stated only for an update that brings no `subtasks` key, or the matched task's own subtasks, wherever it matches. An update carrying other subtasks replaces the matched subtree, as in the source.
- TaskForms.TagsRoundTrip: holds only for tags that are non-empty, trimmed and comma-free. Others are normalised on the way back (`EditTaskDialog.ReparsedTagsStable`).
- EditTaskDialog.SaveUnchangedIsIdentity: needs the description, due date and tags to be present and the objective to be truthy. Otherwise saving fills them in.

## Findings

| source | as written | input that shows it | evidently intended | confidence | as-written member | corrected member |
|---|---|---|---|---|---|---|
| src/store/appStore.ts:178 | a parent is rebuilt only when its subtask count changed | task "a" with subtask "b" with subtask "c"; deleteTask("c") | a deletion at any depth removes the task | not executed | AppStore.DeleteAsWrittenKeepsGrandchild | AppStore.DeleteRemovesIdEverywhere |
| src/components/modals/AddTaskDialog.tsx:69 | `tasks[parentId]` indexes the task array with an id string | a parent task "p-1" in objective "o-1" | the subtask inherits the parent's objective "o-1" | not executed | AddTaskDialog.AsWrittenLosesParentObjective | AddTaskDialog.SubtaskInheritsObjective |

In both cases the as-written definitions (`AppStore.DeleteRecursivelyAsWritten`,
`AddTaskDialog.OpenedFormAsWritten`) sit beside the corrected ones
(`AppStore.DeleteRecursively`, `AddTaskDialog.OpenedForm`), and the rest of the model uses
the corrected ones.
