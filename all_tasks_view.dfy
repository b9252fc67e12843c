/**
 * The all-tasks view's filter: a case-insensitive title search, a status filter and a
 * priority filter, each of which may be switched off ("all"). Letters are folded to lower
 * case in the ASCII range only.
 */
module AllTasksView {
  import opened TaskTypes
  import Seqs

  datatype StatusFilter = AllStatuses | StatusIs(status: TaskStatus)

  datatype PriorityFilter = AllPriorities | PriorityIs(priority: TaskPriority)

  datatype Filters = Filters(searchTerm: string, statusFilter: StatusFilter, priorityFilter: PriorityFilter)

  /** The filters the view starts with: no search, all statuses, all priorities. */
  const DefaultFilters := Filters("", AllStatuses, AllPriorities)

  function ToLowerChar(c: char): char {
    if 'A' <= c <= 'Z' then (c as int - 'A' as int + 'a' as int) as char else c
  }

  function ToLower(s: string): (r: string)
    ensures |r| == |s|
    ensures forall i :: 0 <= i < |s| ==> r[i] == ToLowerChar(s[i])
  {
    if s == [] then [] else [ToLowerChar(s[0])] + ToLower(s[1..])
  }

  /** `s.includes(sub)`: `sub` occurs in `s` at some position. */
  predicate Includes(s: string, sub: string)
    decreases |s|
  {
    sub <= s || (s != [] && Includes(s[1..], sub))
  }

  /** `sub` occurs in `s` starting at position `k`. */
  predicate OccursAt(s: string, sub: string, k: int) {
    0 <= k <= |s| - |sub| && s[k..k + |sub|] == sub
  }

  /** `includes` holds exactly when `sub` occurs in `s` at some position. */
  lemma {:induction false} IncludesIsOccurrence(s: string, sub: string)
    ensures Includes(s, sub) <==> exists k :: OccursAt(s, sub, k)
  {
    if sub <= s {
      assert OccursAt(s, sub, 0);
    } else if s == [] {
    } else {
      IncludesIsOccurrence(s[1..], sub);
      if Includes(s[1..], sub) {
        var k :| OccursAt(s[1..], sub, k);
        assert s[k + 1..k + 1 + |sub|] == s[1..][k..k + |sub|];
        assert OccursAt(s, sub, k + 1);
      }
      if exists k :: OccursAt(s, sub, k) {
        var k :| OccursAt(s, sub, k);
        if k > 0 {
          assert s[1..][k - 1..k - 1 + |sub|] == s[k..k + |sub|];
          assert OccursAt(s[1..], sub, k - 1);
        }
      }
    }
  }

  predicate MatchesSearch(t: Task, searchTerm: string) {
    Includes(ToLower(t.title), ToLower(searchTerm))
  }

  predicate MatchesStatus(t: Task, f: StatusFilter) {
    f.AllStatuses? || t.status == f.status
  }

  predicate MatchesPriority(t: Task, f: PriorityFilter) {
    f.AllPriorities? || t.priority == f.priority
  }

  predicate Matches(t: Task, filters: Filters) {
    MatchesSearch(t, filters.searchTerm) && MatchesStatus(t, filters.statusFilter)
    && MatchesPriority(t, filters.priorityFilter)
  }

  /** The listed tasks: those passing all three tests, in their original order. */
  function FilteredTasks(tasks: seq<Task>, filters: Filters): (r: seq<Task>)
    ensures Seqs.IsSubsequence(r, tasks)
    ensures forall t :: t in r ==> t in tasks && Matches(t, filters)
    ensures forall t :: t in tasks && Matches(t, filters) ==> t in r
    ensures filters.statusFilter.StatusIs? ==> forall t :: t in r ==> t.status == filters.statusFilter.status
    ensures filters.priorityFilter.PriorityIs? ==> forall t :: t in r ==> t.priority == filters.priorityFilter.priority
  {
    Seqs.Filter((t: Task) => Matches(t, filters), tasks)
  }

  /** The empty search term matches every title. */
  lemma EmptySearchMatchesAll(t: Task)
    ensures MatchesSearch(t, "")
  {
    assert ToLower("") == [];
  }

  /** The start-up filters list every task. */
  lemma DefaultFiltersKeepAll(tasks: seq<Task>)
    ensures FilteredTasks(tasks, DefaultFilters) == tasks
  {
    forall t | t in tasks ensures Matches(t, DefaultFilters) {
      EmptySearchMatchesAll(t);
    }
    Seqs.FilterKeepsAll((t: Task) => Matches(t, DefaultFilters), tasks);
  }

  /** Filtering the listed tasks again with the same filters changes nothing. */
  lemma FilterIdempotent(tasks: seq<Task>, filters: Filters)
    ensures FilteredTasks(FilteredTasks(tasks, filters), filters) == FilteredTasks(tasks, filters)
  {
    Seqs.FilterKeepsAll((t: Task) => Matches(t, filters), FilteredTasks(tasks, filters));
  }
}
