/**
 * The global task/objective store: ordered sequences of tasks (each possibly nesting
 * subtasks), objectives and activity entries, a sidebar flag, and the actions that
 * replace them. The record transformations are functions; the store is a class whose
 * methods reassign its fields, as each action's `set` does.
 */
module AppStore {
  import opened Wrappers
  import opened TaskTypes
  import Seqs

  // ---------------------------------------------------------------------------
  // Ids at every depth of a task forest
  // ---------------------------------------------------------------------------

  /** Every id occurring in the forest, at any depth, with multiplicity. */
  function AllIds(ts: seq<Task>): multiset<string>
    decreases ts, 1
  {
    if ts == [] then multiset{} else TreeIds(ts[0]) + AllIds(ts[1..])
  }

  /** The ids of a task and of everything nested under it. */
  function TreeIds(t: Task): multiset<string>
    decreases t, 0
  {
    multiset{t.id} + (if t.subtasks.Present? then AllIds(t.subtasks.items) else multiset{})
  }

  /** The ids of a forest laid out as a tree, forgetting every other field. */
  datatype IdTree = IdTree(id: string, children: Option<seq<IdTree>>)

  function Skeleton(ts: seq<Task>): (r: seq<IdTree>)
    decreases ts, 1
    ensures |r| == |ts|
  {
    seq(|ts|, i requires 0 <= i < |ts| => TreeSkeleton(ts[i]))
  }

  function TreeSkeleton(t: Task): IdTree
    decreases t, 0
  {
    IdTree(t.id, if t.subtasks.Present? then Some(Skeleton(t.subtasks.items)) else None)
  }

  lemma {:induction false} AllIdsCons(t: Task, ts: seq<Task>)
    ensures AllIds([t] + ts) == TreeIds(t) + AllIds(ts)
  {
    assert ([t] + ts)[1..] == ts;
  }

  lemma {:induction false} TreeIdsInAllIds(ts: seq<Task>, i: nat)
    requires i < |ts|
    ensures TreeIds(ts[i]) <= AllIds(ts)
  {
    if i > 0 {
      TreeIdsInAllIds(ts[1..], i - 1);
    }
  }

  // ---------------------------------------------------------------------------
  // updateTask: recursive merge-update (appStore.ts:129-148)
  // ---------------------------------------------------------------------------

  function Override<T>(base: Option<T>, over: Option<T>): Option<T> {
    if over.Some? then over else base
  }

  /** `{ ...base, ...over }`: every key present in `over` wins, absent keys keep `base`'s value. */
  function Merge(base: Task, over: Task): Task {
    Task(over.id, over.title, Override(base.description, over.description), over.status,
         over.priority, Override(base.dueDate, over.dueDate), Override(base.tags, over.tags),
         Override(base.objectiveId, over.objectiveId), Override(base.parentId, over.parentId),
         if over.subtasks.Present? then over.subtasks else base.subtasks)
  }

  /** `updateRecursively`: merge `updated` over each task carrying its id; search the others' subtasks. */
  function UpdateRecursively(ts: seq<Task>, updated: Task): (r: seq<Task>)
    decreases ts, 1
    ensures |r| == |ts|
    ensures forall i :: 0 <= i < |ts| ==> r[i].id == ts[i].id
    ensures forall i :: 0 <= i < |ts| && ts[i].id == updated.id ==> r[i] == Merge(ts[i], updated)
    ensures forall i :: 0 <= i < |ts| && ts[i].id != updated.id ==>
              r[i].(subtasks := ts[i].subtasks) == ts[i]
    ensures forall i :: 0 <= i < |ts| && ts[i].id != updated.id && HasNestedTasks(ts[i]) ==>
              r[i].subtasks == Present(UpdateRecursively(ts[i].subtasks.items, updated))
    ensures forall i :: 0 <= i < |ts| && ts[i].id != updated.id && !HasNestedTasks(ts[i]) ==> r[i] == ts[i]
  {
    seq(|ts|, i requires 0 <= i < |ts| => UpdateOne(ts[i], updated))
  }

  /** `task.subtasks && task.subtasks.length > 0`. */
  predicate HasNestedTasks(t: Task) {
    t.subtasks.Present? && |t.subtasks.items| > 0
  }

  /** A subtask one level down that carries the id gets the update merged over it. */
  lemma UpdateMergesNestedTask(ts: seq<Task>, updated: Task, i: nat, j: nat)
    requires i < |ts| && ts[i].id != updated.id && ts[i].subtasks.Present?
    requires j < |ts[i].subtasks.items| && ts[i].subtasks.items[j].id == updated.id
    ensures var r := UpdateRecursively(ts, updated);
            r[i].subtasks.Present? && |r[i].subtasks.items| == |ts[i].subtasks.items|
            && r[i].subtasks.items[j] == Merge(ts[i].subtasks.items[j], updated)
  {
  }

  function UpdateOne(t: Task, updated: Task): Task
    decreases t, 0
  {
    if t.id == updated.id then Merge(t, updated)
    else if HasNestedTasks(t) then
      t.(subtasks := Present(UpdateRecursively(t.subtasks.items, updated)))
    else t
  }

  /** What the update leaves of `t`'s subtasks when it matches: none of its own, or `t`'s own. */
  predicate AgreesAt(t: Task, updated: Task) {
    t.id == updated.id ==> updated.subtasks.Absent? || updated.subtasks == t.subtasks
  }

  /** Every task the update reaches, at any depth, agrees with it about subtasks. */
  predicate AllAgree(ts: seq<Task>, updated: Task)
    decreases ts
  {
    forall i :: 0 <= i < |ts| ==>
      AgreesAt(ts[i], updated)
      && (ts[i].id != updated.id && HasNestedTasks(ts[i]) ==> AllAgree(ts[i].subtasks.items, updated))
  }

  /**
   * An update that brings no subtasks of its own, or the very subtasks of every task it
   * matches, keeps the ids of the forest at every level.
   */
  lemma {:induction false} UpdateKeepsSkeleton(ts: seq<Task>, updated: Task)
    requires AllAgree(ts, updated)
    ensures Skeleton(UpdateRecursively(ts, updated)) == Skeleton(ts)
    decreases ts, 1
  {
    var r := UpdateRecursively(ts, updated);
    forall i | 0 <= i < |ts|
      ensures Skeleton(r)[i] == Skeleton(ts)[i]
    {
      UpdateOneKeepsSkeleton(ts[i], updated);
    }
  }

  lemma {:induction false} UpdateOneKeepsSkeleton(t: Task, updated: Task)
    requires AgreesAt(t, updated)
    requires t.id != updated.id && HasNestedTasks(t) ==> AllAgree(t.subtasks.items, updated)
    ensures TreeSkeleton(UpdateOne(t, updated)) == TreeSkeleton(t)
    decreases t, 0
  {
    if t.id != updated.id && HasNestedTasks(t) {
      UpdateKeepsSkeleton(t.subtasks.items, updated);
    }
  }

  /** An update without a subtasks key agrees with every forest. */
  lemma {:induction false} AbsentSubtasksAgree(ts: seq<Task>, updated: Task)
    requires updated.subtasks.Absent?
    ensures AllAgree(ts, updated)
    decreases ts
  {
    forall i | 0 <= i < |ts| && ts[i].id != updated.id && HasNestedTasks(ts[i])
      ensures AllAgree(ts[i].subtasks.items, updated)
    {
      AbsentSubtasksAgree(ts[i].subtasks.items, updated);
    }
  }

  /** An update whose id occurs nowhere in the forest agrees with it. */
  lemma {:induction false} UnknownIdAgrees(ts: seq<Task>, updated: Task)
    requires updated.id !in AllIds(ts)
    ensures AllAgree(ts, updated)
    decreases ts
  {
    forall i | 0 <= i < |ts|
      ensures AgreesAt(ts[i], updated)
      ensures ts[i].id != updated.id && HasNestedTasks(ts[i]) ==> AllAgree(ts[i].subtasks.items, updated)
    {
      TreeIdsInAllIds(ts, i);
      if HasNestedTasks(ts[i]) {
        UnknownIdAgrees(ts[i].subtasks.items, updated);
      }
    }
  }

  /** Updating with an id that occurs nowhere in the forest changes nothing. */
  lemma {:induction false} UpdateUnknownIdIsIdentity(ts: seq<Task>, updated: Task)
    requires updated.id !in AllIds(ts)
    ensures UpdateRecursively(ts, updated) == ts
    decreases ts, 1
  {
    forall i | 0 <= i < |ts|
      ensures UpdateRecursively(ts, updated)[i] == ts[i]
    {
      TreeIdsInAllIds(ts, i);
      UpdateOneUnknownId(ts[i], updated);
    }
  }

  lemma {:induction false} UpdateOneUnknownId(t: Task, updated: Task)
    requires updated.id !in TreeIds(t)
    ensures UpdateOne(t, updated) == t
    decreases t, 0
  {
    if t.subtasks.Present? && |t.subtasks.items| > 0 {
      UpdateUnknownIdIsIdentity(t.subtasks.items, updated);
    }
  }

  /** Applying the same update twice gives the same forest as applying it once. */
  lemma {:induction false} UpdateIdempotent(ts: seq<Task>, updated: Task)
    ensures UpdateRecursively(UpdateRecursively(ts, updated), updated) == UpdateRecursively(ts, updated)
    decreases ts, 1
  {
    var once := UpdateRecursively(ts, updated);
    forall i | 0 <= i < |ts|
      ensures UpdateRecursively(once, updated)[i] == once[i]
    {
      UpdateOneIdempotent(ts[i], updated);
    }
  }

  lemma {:induction false} UpdateOneIdempotent(t: Task, updated: Task)
    ensures UpdateOne(UpdateOne(t, updated), updated) == UpdateOne(t, updated)
    decreases t, 0
  {
    if t.id != updated.id && t.subtasks.Present? && |t.subtasks.items| > 0 {
      UpdateIdempotent(t.subtasks.items, updated);
    }
  }

  // ---------------------------------------------------------------------------
  // deleteTask: recursive delete (appStore.ts:158-188)
  // ---------------------------------------------------------------------------

  /** `tasks.some(task => task.id === taskId)`. */
  predicate HasIdAtLevel(ts: seq<Task>, taskId: string) {
    ts != [] && (ts[0].id == taskId || HasIdAtLevel(ts[1..], taskId))
  }

  /** When no task of the level has the id, filtering it out keeps the level as it is. */
  lemma {:induction false} NoIdAtLevelFilter(ts: seq<Task>, taskId: string)
    ensures !HasIdAtLevel(ts, taskId) ==> Seqs.Filter((t: Task) => t.id != taskId, ts) == ts
  {
    if ts != [] {
      NoIdAtLevelFilter(ts[1..], taskId);
    }
  }

  /**
   * `deleteRecursively` with its change test comparing the rebuilt subtask list's
   * contents: drop every task carrying `taskId`, then delete inside each survivor.
   */
  function DeleteRecursively(ts: seq<Task>, taskId: string): (r: seq<Task>)
    decreases ts, 1
    ensures var kept := Seqs.Filter((t: Task) => t.id != taskId, ts);
            |r| == |kept| &&
            forall i :: 0 <= i < |r| ==> r[i].(subtasks := kept[i].subtasks) == kept[i]
  {
    var newTasks := if HasIdAtLevel(ts, taskId) then Seqs.Filter((t: Task) => t.id != taskId, ts) else ts;
    NoIdAtLevelFilter(ts, taskId);
    seq(|newTasks|, i requires 0 <= i < |newTasks| =>
      assert newTasks[i] in ts; PruneOne(newTasks[i], taskId))
  }

  function PruneOne(t: Task, taskId: string): (r: Task)
    decreases t, 0
    ensures r == if t.subtasks.Present? then t.(subtasks := Present(DeleteRecursively(t.subtasks.items, taskId))) else t
  {
    if t.subtasks.Present? then
      var newSubtasks := DeleteRecursively(t.subtasks.items, taskId);
      if newSubtasks != t.subtasks.items then t.(subtasks := Present(newSubtasks)) else t
    else t
  }

  /** The delete inside each task of a level. */
  function PruneAll(kept: seq<Task>, taskId: string): (r: seq<Task>)
    ensures |r| == |kept|
    ensures forall i :: 0 <= i < |kept| ==> r[i] == PruneOne(kept[i], taskId)
  {
    seq(|kept|, i requires 0 <= i < |kept| => PruneOne(kept[i], taskId))
  }

  lemma PruneAllCons(x: Task, tail: seq<Task>, taskId: string)
    ensures PruneAll([x] + tail, taskId) == [PruneOne(x, taskId)] + PruneAll(tail, taskId)
  {
    var whole := PruneAll([x] + tail, taskId);
    var split := [PruneOne(x, taskId)] + PruneAll(tail, taskId);
    forall i | 0 <= i < |whole| ensures whole[i] == split[i] {
      if i > 0 {
        assert ([x] + tail)[i] == tail[i - 1];
      }
    }
  }

  /** The delete is the level without the id, each survivor pruned. */
  lemma DeleteIsPrunedFilter(ts: seq<Task>, taskId: string)
    ensures DeleteRecursively(ts, taskId) == PruneAll(Seqs.Filter((t: Task) => t.id != taskId, ts), taskId)
  {
    NoIdAtLevelFilter(ts, taskId);
  }

  /** The delete written as head and tail: the step every induction below takes. */
  lemma {:induction false} DeleteCons(ts: seq<Task>, taskId: string)
    requires ts != []
    ensures DeleteRecursively(ts, taskId) ==
            (if ts[0].id == taskId then [] else [PruneOne(ts[0], taskId)]) + DeleteRecursively(ts[1..], taskId)
  {
    var p := (t: Task) => t.id != taskId;
    var tail := Seqs.Filter(p, ts[1..]);
    DeleteIsPrunedFilter(ts, taskId);
    DeleteIsPrunedFilter(ts[1..], taskId);
    if ts[0].id == taskId {
      assert Seqs.Filter(p, ts) == tail;
    } else {
      assert Seqs.Filter(p, ts) == [ts[0]] + tail;
      PruneAllCons(ts[0], tail, taskId);
    }
  }

  /** After the delete no task at any depth carries the id. */
  lemma {:induction false} DeleteRemovesIdEverywhere(ts: seq<Task>, taskId: string)
    ensures taskId !in AllIds(DeleteRecursively(ts, taskId))
    decreases ts
  {
    if ts != [] {
      var t := ts[0];
      var rest := DeleteRecursively(ts[1..], taskId);
      DeleteCons(ts, taskId);
      DeleteRemovesIdEverywhere(ts[1..], taskId);
      if t.id == taskId {
        assert DeleteRecursively(ts, taskId) == rest;
      } else {
        var pruned := PruneOne(t, taskId);
        assert DeleteRecursively(ts, taskId) == [pruned] + rest;
        AllIdsCons(pruned, rest);
        if t.subtasks.Present? {
          DeleteRemovesIdEverywhere(t.subtasks.items, taskId);
        }
        assert taskId !in TreeIds(pruned);
      }
    }
  }

  /** Deleting an id that occurs nowhere leaves the forest unchanged. */
  lemma {:induction false} DeleteUnknownIdIsIdentity(ts: seq<Task>, taskId: string)
    requires taskId !in AllIds(ts)
    ensures DeleteRecursively(ts, taskId) == ts
    decreases ts
  {
    if ts != [] {
      DeleteCons(ts, taskId);
      DeleteUnknownIdIsIdentity(ts[1..], taskId);
      var t := ts[0];
      if t.subtasks.Present? {
        DeleteUnknownIdIsIdentity(t.subtasks.items, taskId);
      }
      assert ts == [t] + ts[1..];
    }
  }

  /** Deleting twice is deleting once. */
  lemma DeleteIdempotent(ts: seq<Task>, taskId: string)
    ensures DeleteRecursively(DeleteRecursively(ts, taskId), taskId) == DeleteRecursively(ts, taskId)
  {
    DeleteRemovesIdEverywhere(ts, taskId);
    DeleteUnknownIdIsIdentity(DeleteRecursively(ts, taskId), taskId);
  }

  /**
   * The ids a delete should remove: every task carrying `taskId` together with
   * everything nested under it, looked for below the tasks that survive.
   */
  function RemovedIds(ts: seq<Task>, taskId: string): multiset<string>
    decreases ts
  {
    if ts == [] then multiset{}
    else
      (if ts[0].id == taskId then TreeIds(ts[0])
       else if ts[0].subtasks.Present? then RemovedIds(ts[0].subtasks.items, taskId)
       else multiset{})
      + RemovedIds(ts[1..], taskId)
  }

  /** A deleted task's nested subtasks disappear with it, and nothing else disappears. */
  lemma {:induction false} DeleteRemovesExactlySubtrees(ts: seq<Task>, taskId: string)
    ensures AllIds(DeleteRecursively(ts, taskId)) + RemovedIds(ts, taskId) == AllIds(ts)
    decreases ts, 1
  {
    if ts != [] {
      var t := ts[0];
      var rest := DeleteRecursively(ts[1..], taskId);
      var removedHere := if t.id == taskId then TreeIds(t)
                         else if t.subtasks.Present? then RemovedIds(t.subtasks.items, taskId)
                         else multiset{};
      assert RemovedIds(ts, taskId) == removedHere + RemovedIds(ts[1..], taskId);
      assert AllIds(ts) == TreeIds(t) + AllIds(ts[1..]);
      DeleteCons(ts, taskId);
      DeleteRemovesExactlySubtrees(ts[1..], taskId);
      if t.id == taskId {
        assert DeleteRecursively(ts, taskId) == rest;
      } else {
        var pruned := PruneOne(t, taskId);
        assert DeleteRecursively(ts, taskId) == [pruned] + rest;
        AllIdsCons(pruned, rest);
        PruneRemovesExactlySubtrees(t, taskId);
      }
    }
  }

  lemma {:induction false} PruneRemovesExactlySubtrees(t: Task, taskId: string)
    ensures TreeIds(PruneOne(t, taskId)) +
            (if t.subtasks.Present? then RemovedIds(t.subtasks.items, taskId) else multiset{})
            == TreeIds(t)
    decreases t, 0
  {
    if t.subtasks.Present? {
      DeleteRemovesExactlySubtrees(t.subtasks.items, taskId);
    }
  }

  /** deleteRecursively exactly as written: a parent is rebuilt only when its subtask COUNT changed. */
  function DeleteRecursivelyAsWritten(ts: seq<Task>, taskId: string): (r: seq<Task>)
    decreases ts, 1
    ensures var kept := Seqs.Filter((t: Task) => t.id != taskId, ts);
            |r| == |kept| &&
            forall i :: 0 <= i < |r| ==> r[i].(subtasks := kept[i].subtasks) == kept[i]
  {
    var newTasks := if HasIdAtLevel(ts, taskId) then Seqs.Filter((t: Task) => t.id != taskId, ts) else ts;
    NoIdAtLevelFilter(ts, taskId);
    seq(|newTasks|, i requires 0 <= i < |newTasks| =>
      assert newTasks[i] in ts; PruneOneAsWritten(newTasks[i], taskId))
  }

  /** As written, a survivor is kept as it was whenever its subtask count did not change. */
  function PruneOneAsWritten(t: Task, taskId: string): (r: Task)
    decreases t, 0
    ensures r.(subtasks := t.subtasks) == t
    ensures t.subtasks.Absent? ==> r == t
    ensures t.subtasks.Present? && |DeleteRecursivelyAsWritten(t.subtasks.items, taskId)| == |t.subtasks.items| ==> r == t
  {
    if t.subtasks.Present? then
      var newSubtasks := DeleteRecursivelyAsWritten(t.subtasks.items, taskId);
      if |newSubtasks| != |t.subtasks.items| then t.(subtasks := Present(newSubtasks)) else t
    else t
  }

  function Leaf(id: string, subtasks: SubtaskField): Task {
    Task(id, id, None, Todo, Medium, None, None, None, None, subtasks)
  }

  /**
   * With a grandchild "c" under "b" under "a", deleting "c" as written leaves it in place:
   * "b" is rebuilt without "c", but "a" still has one subtask, so the old "b" is kept.
   */
  lemma DeleteAsWrittenKeepsGrandchild()
    ensures var c := Leaf("c", Absent);
            var b := Leaf("b", Present([c]));
            var a := Leaf("a", Present([b]));
            DeleteRecursivelyAsWritten([a], "c") == [a] &&
            "c" in AllIds(DeleteRecursivelyAsWritten([a], "c")) &&
            "c" !in AllIds(DeleteRecursively([a], "c"))
  {
    var c := Leaf("c", Absent);
    var b := Leaf("b", Present([c]));
    var a := Leaf("a", Present([b]));
    assert [c][0].id == "c";
    assert Seqs.Filter((t: Task) => t.id != "c", [c]) == [];
    assert DeleteRecursivelyAsWritten([c], "c") == [];
    assert |DeleteRecursivelyAsWritten([b], "c")| == 1;
    assert PruneOneAsWritten(a, "c") == a;
    assert [a][1..] == [];
    assert !HasIdAtLevel([a], "c");
    assert DeleteRecursivelyAsWritten([a], "c")[0] == a;
    assert AllIds([c]) == multiset{"c"};
    assert AllIds([b]) == multiset{"b", "c"};
    assert "c" in AllIds([a]);
    DeleteRemovesIdEverywhere([a], "c");
  }

  // ---------------------------------------------------------------------------
  // updateObjective, toggleTaskStatus helpers (appStore.ts:150-155, 212-228)
  // ---------------------------------------------------------------------------

  /** `objectives.map(obj => obj.id === updated.id ? updated : obj)`. */
  function ReplaceObjective(os: seq<Objective>, updated: Objective): (r: seq<Objective>)
    ensures |r| == |os|
    ensures forall i :: 0 <= i < |os| && os[i].id == updated.id ==> r[i] == updated
    ensures forall i :: 0 <= i < |os| && os[i].id != updated.id ==> r[i] == os[i]
  {
    seq(|os|, i requires 0 <= i < |os| => if os[i].id == updated.id then updated else os[i])
  }

  /** Replacing with an id no objective has changes nothing; replacing twice is replacing once. */
  lemma ReplaceObjectiveLaws(os: seq<Objective>, updated: Objective)
    ensures (forall i :: 0 <= i < |os| ==> os[i].id != updated.id) ==> ReplaceObjective(os, updated) == os
    ensures ReplaceObjective(ReplaceObjective(os, updated), updated) == ReplaceObjective(os, updated)
  {
  }

  function ToggledStatus(s: TaskStatus): TaskStatus {
    if s == Completed then Todo else Completed
  }

  /** The top level of `tasks.map(...)` in toggleTaskStatus: flip the status of each task with the id. */
  function ToggleTopLevel(ts: seq<Task>, taskId: string): (r: seq<Task>)
    ensures |r| == |ts|
    ensures forall i :: 0 <= i < |ts| && ts[i].id == taskId ==>
              r[i] == ts[i].(status := if ts[i].status == Completed then Todo else Completed)
    ensures forall i :: 0 <= i < |ts| && ts[i].id != taskId ==> r[i] == ts[i]
  {
    seq(|ts|, i requires 0 <= i < |ts| =>
      if ts[i].id == taskId then ts[i].(status := ToggledStatus(ts[i].status)) else ts[i])
  }

  /**
   * Toggling twice restores `todo` and `completed`, and turns `in-progress` into `todo`;
   * nested subtasks are never touched.
   */
  lemma ToggleTwice(ts: seq<Task>, taskId: string)
    ensures var r := ToggleTopLevel(ToggleTopLevel(ts, taskId), taskId);
            |r| == |ts| &&
            forall i :: 0 <= i < |ts| ==>
              r[i] == if ts[i].id == taskId && ts[i].status == InProgress then ts[i].(status := Todo) else ts[i]
  {
  }

  /** `tasks.find(t => t.id === taskId)`: the first top-level task with the id. */
  function FindTask(ts: seq<Task>, taskId: string): (r: Option<Task>)
    ensures r.None? <==> forall i :: 0 <= i < |ts| ==> ts[i].id != taskId
    ensures r.Some? ==> exists i :: 0 <= i < |ts| && ts[i] == r.value && ts[i].id == taskId &&
                                   forall j :: 0 <= j < i ==> ts[j].id != taskId
  {
    if ts == [] then None
    else if ts[0].id == taskId then Some(ts[0])
    else
      var r := FindTask(ts[1..], taskId);
      if r.Some? then
        var k :| 0 <= k < |ts[1..]| && ts[1..][k] == r.value && ts[1..][k].id == taskId &&
                 forall j :: 0 <= j < k ==> ts[1..][j].id != taskId;
        assert ts[k + 1] == r.value;
        r
      else r
  }

  /** toggleTaskStatus logs a completion exactly when a top-level task with the id exists and is not completed. */
  predicate LogsCompletion(ts: seq<Task>, taskId: string) {
    FindTask(ts, taskId).Some? && FindTask(ts, taskId).value.status != Completed
  }

  /** A completion is logged exactly when the first top-level task with the id is not completed. */
  lemma LogsCompletionExactly(ts: seq<Task>, taskId: string)
    ensures LogsCompletion(ts, taskId) <==>
      exists i :: 0 <= i < |ts| && ts[i].id == taskId && ts[i].status != Completed
                  && forall j :: 0 <= j < i ==> ts[j].id != taskId
  {
    var found := FindTask(ts, taskId);
    if found.Some? {
      var k :| 0 <= k < |ts| && ts[k] == found.value && ts[k].id == taskId &&
               forall j :: 0 <= j < k ==> ts[j].id != taskId;
      forall i | 0 <= i < |ts| && ts[i].id == taskId && (forall j :: 0 <= j < i ==> ts[j].id != taskId)
        ensures i == k
      {
      }
    }
  }

  function CompletionText(title: string): string {
    "Completed task: \"" + title + "\""
  }

  // ---------------------------------------------------------------------------
  // Initial state (appStore.ts:60-106)
  // ---------------------------------------------------------------------------

  function SeedTasks(): seq<Task> {
    [ Task("d9a8b5c0-4f6e-4b8a-82f3-1c9d0e7a6b5c", "Learn French Grammar",
           Some("Master French grammar fundamentals"), Todo, High, Some("2025-08-15"),
           Some(["learning", "french"]), None, None,
           Present([Task("e1c7b4a2-9f8e-4c6d-8a3b-2f9e1d8c5b7a", "Study verb conjugations",
                         None, InProgress, Medium, None, None, None, None, Absent)])),
      Task("f3b2a1c9-8e7d-4f6c-8a2b-1e9d8c7b6a5d", "Build Marketing Website",
           None, Completed, High, Some("2025-08-10"), Some(["work", "development"]),
           None, None, Present([])) ]
  }

  function SeedObjectives(): seq<Objective> {
    [ Objective("f3b2a1c9-8e7d-4f6c-8a2b-1e988c7b6a5d", "Synapse App", 70, "#e0aaff"),
      Objective("f3b2a1676c9-8e7d-4f6c-8a2b-1e9d8c7b6a5d", "Marketing Website", 45, "#c77dff") ]
  }

  const DefaultObjectiveColor := "#e0aaff"

  // ---------------------------------------------------------------------------
  // The store
  // ---------------------------------------------------------------------------

  class Store {
    var tasks: seq<Task>
    var objectives: seq<Objective>
    var activityLog: seq<ActivityItem>
    var isSidebarCollapsed: bool

    constructor ()
      ensures tasks == SeedTasks() && objectives == SeedObjectives()
      ensures activityLog == [] && isSidebarCollapsed
    {
      tasks := SeedTasks();
      objectives := SeedObjectives();
      activityLog := [];
      isSidebarCollapsed := true;
    }

    method ToggleSidebar()
      modifies this
      ensures isSidebarCollapsed == !old(isSidebarCollapsed)
      ensures tasks == old(tasks) && objectives == old(objectives) && activityLog == old(activityLog)
    {
      isSidebarCollapsed := !isSidebarCollapsed;
    }

    /** addTask, with the id that uuidv4() would produce given as `freshId`. */
    method AddTask(newTask: TaskDraft, freshId: string)
      modifies this
      ensures tasks == old(tasks) + [WithId(newTask, freshId)]
      ensures objectives == old(objectives) && activityLog == old(activityLog)
      ensures isSidebarCollapsed == old(isSidebarCollapsed)
    {
      tasks := tasks + [WithId(newTask, freshId)];
    }

    method UpdateTask(updatedTask: Task)
      modifies this
      ensures tasks == UpdateRecursively(old(tasks), updatedTask)
      ensures objectives == old(objectives) && activityLog == old(activityLog)
      ensures isSidebarCollapsed == old(isSidebarCollapsed)
    {
      tasks := UpdateRecursively(tasks, updatedTask);
    }

    method UpdateObjective(updatedObjective: Objective)
      modifies this
      ensures objectives == ReplaceObjective(old(objectives), updatedObjective)
      ensures tasks == old(tasks) && activityLog == old(activityLog)
      ensures isSidebarCollapsed == old(isSidebarCollapsed)
    {
      objectives := ReplaceObjective(objectives, updatedObjective);
    }

    method DeleteTask(taskId: string)
      modifies this
      ensures tasks == DeleteRecursively(old(tasks), taskId)
      ensures taskId !in AllIds(tasks)
      ensures objectives == old(objectives) && activityLog == old(activityLog)
      ensures isSidebarCollapsed == old(isSidebarCollapsed)
    {
      DeleteRemovesIdEverywhere(tasks, taskId);
      tasks := DeleteRecursively(tasks, taskId);
    }

    /** addObjective, with the generated id given as `freshId`. */
    method AddObjective(title: string, freshId: string)
      modifies this
      ensures objectives == old(objectives) + [Objective(freshId, title, 0, DefaultObjectiveColor)]
      ensures tasks == old(tasks) && activityLog == old(activityLog)
      ensures isSidebarCollapsed == old(isSidebarCollapsed)
    {
      objectives := objectives + [Objective(freshId, title, 0, DefaultObjectiveColor)];
    }

    /** logActivity, with the generated id and the current time given as parameters. */
    method LogActivity(kind: ActivityType, text: string, freshId: string, timestamp: string)
      modifies this
      ensures activityLog == [ActivityItem(freshId, kind, text, timestamp)] + old(activityLog)
      ensures tasks == old(tasks) && objectives == old(objectives)
      ensures isSidebarCollapsed == old(isSidebarCollapsed)
    {
      activityLog := [ActivityItem(freshId, kind, text, timestamp)] + activityLog;
    }

    method ToggleTaskStatus(taskId: string, activityId: string, timestamp: string)
      modifies this
      ensures tasks == ToggleTopLevel(old(tasks), taskId)
      ensures activityLog ==
                if LogsCompletion(old(tasks), taskId)
                then [ActivityItem(activityId, TaskCompletedActivity,
                                   CompletionText(FindTask(old(tasks), taskId).value.title), timestamp)]
                     + old(activityLog)
                else old(activityLog)
      ensures objectives == old(objectives) && isSidebarCollapsed == old(isSidebarCollapsed)
    {
      var task := FindTask(tasks, taskId);
      if task.Some? && task.value.status != Completed {
        LogActivity(TaskCompletedActivity, CompletionText(task.value.title), activityId, timestamp);
      }
      tasks := ToggleTopLevel(tasks, taskId);
    }
  }
}
