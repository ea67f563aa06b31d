/** The task list grouped by task group: the flat list of headers and tasks
    the adapter shows, and the expand/collapse state kept per group id
    (None stands for the "ungrouped" group). The group-click callback is
    recorded as the sequence of its calls. */
module GroupedTasksAdapter {
  import opened Wrappers
  import opened Data

  datatype TaskGroup = TaskGroup(id: int, title: string)

  datatype GroupedItem =
    | GroupHeader(group: Option<TaskGroup>, taskCount: int, completedCount: int, isExpanded: bool)
    | TaskItem(task: Task)

  /** `group?.id`. */
  function GroupId(group: Option<TaskGroup>): Option<int> {
    if group.Some? then Some(group.value.id) else None
  }

  /** `tasks.count { it.completed }`. */
  function CompletedCount(tasks: seq<Task>): (n: nat)
    ensures n <= |tasks|
  {
    if tasks == [] then 0 else (if tasks[0].completed then 1 else 0) + CompletedCount(tasks[1..])
  }

  function TaskItems(tasks: seq<Task>): (r: seq<GroupedItem>)
    ensures |r| == |tasks|
    ensures forall i :: 0 <= i < |r| ==> r[i] == TaskItem(tasks[i])
  {
    if tasks == [] then [] else [TaskItem(tasks[0])] + TaskItems(tasks[1..])
  }

  /** The header of one group. */
  function Header(group: Option<TaskGroup>, tasks: seq<Task>, expanded: set<Option<int>>): GroupedItem {
    GroupHeader(group, |tasks|, CompletedCount(tasks), GroupId(group) in expanded)
  }

  /** The items of one group: its header, then its tasks when it is expanded. */
  function GroupItems(group: Option<TaskGroup>, tasks: seq<Task>, expanded: set<Option<int>>): seq<GroupedItem> {
    [Header(group, tasks, expanded)] + (if GroupId(group) in expanded then TaskItems(tasks) else [])
  }

  /** The list updateGroupedTasks submits, for the map's entries in iteration order. */
  function Flatten(groups: seq<(Option<TaskGroup>, seq<Task>)>, expanded: set<Option<int>>): seq<GroupedItem> {
    if groups == [] then []
    else Flatten(groups[..|groups| - 1], expanded)
         + GroupItems(groups[|groups| - 1].0, groups[|groups| - 1].1, expanded)
  }

  /** The number of tasks in the expanded groups. */
  function ExpandedTasks(groups: seq<(Option<TaskGroup>, seq<Task>)>, expanded: set<Option<int>>): nat {
    if groups == [] then 0
    else ExpandedTasks(groups[..|groups| - 1], expanded)
         + (if GroupId(groups[|groups| - 1].0) in expanded then |groups[|groups| - 1].1| else 0)
  }

  function Headers(items: seq<GroupedItem>): nat {
    if items == [] then 0 else (if items[0].GroupHeader? then 1 else 0) + Headers(items[1..])
  }

  lemma {:induction false} HeadersConcat(a: seq<GroupedItem>, b: seq<GroupedItem>)
    ensures Headers(a + b) == Headers(a) + Headers(b)
  {
    if a == [] {
      assert a + b == b;
    } else {
      assert (a + b)[1..] == a[1..] + b;
      HeadersConcat(a[1..], b);
    }
  }

  lemma {:induction false} TaskItemsNoHeaders(tasks: seq<Task>)
    ensures Headers(TaskItems(tasks)) == 0
  {
    if tasks != [] {
      TaskItemsNoHeaders(tasks[1..]);
      assert TaskItems(tasks)[1..] == TaskItems(tasks[1..]);
    }
  }

  /** The list holds one header per group, plus the tasks of the expanded
      groups, and nothing else. */
  lemma {:induction false} FlattenCounts(groups: seq<(Option<TaskGroup>, seq<Task>)>, expanded: set<Option<int>>)
    ensures |Flatten(groups, expanded)| == |groups| + ExpandedTasks(groups, expanded)
    ensures Headers(Flatten(groups, expanded)) == |groups|
  {
    if groups != [] {
      var init := groups[..|groups| - 1];
      var g := groups[|groups| - 1];
      FlattenCounts(init, expanded);
      var items := GroupItems(g.0, g.1, expanded);
      HeadersConcat(Flatten(init, expanded), items);
      var tail := if GroupId(g.0) in expanded then TaskItems(g.1) else [];
      TaskItemsNoHeaders(g.1);
      HeadersConcat([Header(g.0, g.1, expanded)], tail);
      assert Headers([Header(g.0, g.1, expanded)]) == 1 by {
        assert [Header(g.0, g.1, expanded)][1..] == [];
      }
    }
  }

  /** Every header counts its group's tasks, and no more of them are
      completed than there are tasks. */
  lemma {:induction false} FlattenHeaders(groups: seq<(Option<TaskGroup>, seq<Task>)>, expanded: set<Option<int>>, k: int)
    requires 0 <= k < |Flatten(groups, expanded)|
    requires Flatten(groups, expanded)[k].GroupHeader?
    ensures var h := Flatten(groups, expanded)[k];
      0 <= h.completedCount <= h.taskCount
      && h.isExpanded == (GroupId(h.group) in expanded)
      && exists i :: 0 <= i < |groups| && groups[i].0 == h.group && h.taskCount == |groups[i].1|
  {
    var init := groups[..|groups| - 1];
    var g := groups[|groups| - 1];
    var f := Flatten(init, expanded);
    if k < |f| {
      FlattenHeaders(init, expanded, k);
      var h := Flatten(groups, expanded)[k];
      var i :| 0 <= i < |init| && init[i].0 == h.group && h.taskCount == |init[i].1|;
      assert groups[i] == init[i];
    } else {
      var items := GroupItems(g.0, g.1, expanded);
      assert Flatten(groups, expanded)[k] == items[k - |f|];
      assert groups[|groups| - 1] == g;
    }
  }

  /** Flipping one group's membership in the expanded set. */
  function Toggled(expanded: set<Option<int>>, id: Option<int>): (r: set<Option<int>>)
    ensures id in r <==> id !in expanded
    ensures forall x :: x != id ==> (x in r <==> x in expanded)
  {
    if id in expanded then expanded - {id} else expanded + {id}
  }

  /** Toggling a group twice gives back the expanded set. */
  lemma ToggleTwice(expanded: set<Option<int>>, id: Option<int>)
    ensures Toggled(Toggled(expanded, id), id) == expanded
  {
  }

  class GroupedTasksAdapter {
    var expandedGroups: set<Option<int>>
    /** The submitted list. */
    var items: seq<GroupedItem>
    /** The onGroupClick calls made: the group and its new expanded state. */
    var groupClicks: seq<(Option<TaskGroup>, bool)>

    constructor ()
      ensures expandedGroups == {} && items == [] && groupClicks == []
    {
      expandedGroups := {};
      items := [];
      groupClicks := [];
    }

    /** updateGroupedTasks: a header per group, its tasks after it when expanded. */
    method UpdateGroupedTasks(groupedTasks: seq<(Option<TaskGroup>, seq<Task>)>)
      modifies this
      ensures items == Flatten(groupedTasks, expandedGroups)
      ensures expandedGroups == old(expandedGroups) && groupClicks == old(groupClicks)
    {
      var list: seq<GroupedItem> := [];
      var i := 0;
      while i < |groupedTasks|
        invariant 0 <= i <= |groupedTasks|
        invariant list == Flatten(groupedTasks[..i], expandedGroups)
      {
        var (group, tasks) := groupedTasks[i];
        var isExpanded := GroupId(group) in expandedGroups;
        list := list + [GroupHeader(group, |tasks|, CompletedCount(tasks), isExpanded)];
        if isExpanded {
          list := list + TaskItems(tasks);
        }
        assert groupedTasks[..i + 1][..i] == groupedTasks[..i];
        i := i + 1;
      }
      assert groupedTasks[..i] == groupedTasks;
      items := list;
    }

    /** toggleGroupExpansion: flips the group and reports its new state. */
    method ToggleGroupExpansion(group: Option<TaskGroup>)
      modifies this
      ensures expandedGroups == Toggled(old(expandedGroups), GroupId(group))
      ensures groupClicks == old(groupClicks) + [(group, GroupId(group) !in old(expandedGroups))]
      ensures items == old(items)
    {
      var groupId := GroupId(group);
      if groupId in expandedGroups {
        expandedGroups := expandedGroups - {groupId};
      } else {
        expandedGroups := expandedGroups + {groupId};
      }
      groupClicks := groupClicks + [(group, groupId in expandedGroups)];
    }
  }
}
