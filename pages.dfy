/** The selection and presentation helpers of the command center's pages: status
    labels, the assistant summary of a command, the focus project of the tasks page,
    the latest command of a task, the detail timeline, and the filters and counts
    of the overview and projects pages. */
module AppPages {
  import opened Text
  import opened Hierarchy
  import opened TaskDetailWorkspace
  import O = Orchestrator

  // ---------------------------------------------------------------------------
  // Labels and summaries

  /** `statusLabel`: the status name with every underscore turned into a space. */
  function StatusLabel(status: TaskStatus): (r: string)
    ensures |r| == |status.Name()| && '_' !in r
    ensures forall i :: 0 <= i < |r| ==> r[i] == if status.Name()[i] == '_' then ' ' else status.Name()[i]
  {
    ReplaceUnderscores(status.Name())
  }

  const AssistantPrefix: string := "助手: "
  const NoCommandSummary: string := "助手: 暂无命令记录。"

  /** `commandSummary`: the assistant line for a task's latest command, or a fixed
      line when there is none. */
  function CommandSummary(c: Option<Command>): (r: string)
    ensures c.None? ==> r == NoCommandSummary
    ensures c.Some? ==> r == AssistantPrefix + CommandBody(c.value)
  {
    if c.None? then NoCommandSummary
    else if Truthy(c.value.outputSummary) then AssistantPrefix + c.value.outputSummary.value
    else if Truthy(c.value.errorMessage) then AssistantPrefix + c.value.errorMessage.value
    else AssistantPrefix + c.value.text
  }

  // ---------------------------------------------------------------------------
  // Sorting a copy with a comparator

  /** The key a comparator of the form `b.x - a.x || b.y - a.y` orders by. */
  datatype Rank = Rank(major: int, minor: int)

  /** `a` sorts strictly before `b`. */
  predicate Above(a: Rank, b: Rank)
  {
    a.major > b.major || (a.major == b.major && a.minor > b.minor)
  }

  /** Inserts `x` before the first element of `s` that is not strictly above it:
      elements of equal rank keep their input order. */
  function Insert<T>(x: T, s: seq<T>, rank: T -> Rank): (r: seq<T>)
    ensures |r| == |s| + 1 && multiset(r) == multiset(s) + multiset{x}
    ensures r[0] == if s == [] || !Above(rank(s[0]), rank(x)) then x else s[0]
  {
    if s == [] || !Above(rank(s[0]), rank(x)) then [x] + s
    else
      assert s == [s[0]] + s[1..];
      [s[0]] + Insert(x, s[1..], rank)
  }

  /** `[...s].sort(cmp)` for a comparator that orders by `rank`, largest first; the
      sort of ECMA-262 (section 23.1.3.30 of the 2023 edition) is stable. */
  function SortDesc<T>(s: seq<T>, rank: T -> Rank): (r: seq<T>)
    ensures |r| == |s| && multiset(r) == multiset(s)
  {
    if s == [] then []
    else
      assert s == [s[0]] + s[1..];
      Insert(s[0], SortDesc(s[1..], rank), rank)
  }

  /** No element is strictly above the one before it. */
  predicate Descending<T>(s: seq<T>, rank: T -> Rank)
  {
    forall i :: 0 < i < |s| ==> !Above(rank(s[i]), rank(s[i - 1]))
  }

  lemma {:induction false} InsertDescending<T>(x: T, s: seq<T>, rank: T -> Rank)
    requires Descending(s, rank)
    ensures Descending(Insert(x, s, rank), rank)
  {
    if s != [] && Above(rank(s[0]), rank(x)) {
      InsertDescending(x, s[1..], rank);
    }
  }

  /** The sorted copy is a permutation of the input in descending order. */
  lemma {:induction false} SortDescSorted<T>(s: seq<T>, rank: T -> Rank)
    ensures Descending(SortDesc(s, rank), rank) && multiset(SortDesc(s, rank)) == multiset(s)
  {
    if s != [] {
      SortDescSorted(s[1..], rank);
      InsertDescending(s[0], SortDesc(s[1..], rank), rank);
    }
  }

  /** A copy already in order comes back unchanged. */
  lemma {:induction false} SortDescKeepsSorted<T>(s: seq<T>, rank: T -> Rank)
    requires Descending(s, rank)
    ensures SortDesc(s, rank) == s
  {
    if s != [] {
      assert Descending(s[1..], rank) by {
        forall i | 0 < i < |s[1..]| ensures !Above(rank(s[1..][i]), rank(s[1..][i - 1])) {
          assert s[1..][i] == s[i + 1] && s[1..][i - 1] == s[i];
        }
      }
      SortDescKeepsSorted(s[1..], rank);
      if |s| > 1 {
        assert !Above(rank(s[1]), rank(s[0]));
      }
      assert [s[0]] + s[1..] == s;
    }
  }

  /** Ranks are totally preordered: "not above" chains. */
  lemma NotAboveChains(a: Rank, b: Rank, c: Rank)
    requires !Above(a, b) && !Above(b, c)
    ensures !Above(a, c)
  {
  }

  /** The head of the sorted copy is the input's head unless the sorted tail's head
      is strictly above it. */
  lemma SortDescHeadStep<T>(s: seq<T>, rank: T -> Rank)
    requires |s| > 1
    ensures var rest := SortDesc(s[1..], rank);
            SortDesc(s, rank)[0] == if Above(rank(rest[0]), rank(s[0])) then rest[0] else s[0]
  {
  }

  /** The head of the sorted copy is the first element of maximal rank: nothing is
      above it, and everything before it in the input is strictly below it. */
  lemma {:induction false} SortDescHead<T>(s: seq<T>, rank: T -> Rank) returns (i: int)
    requires s != []
    ensures 0 <= i < |s| && SortDesc(s, rank)[0] == s[i]
    ensures forall j :: 0 <= j < |s| ==> !Above(rank(s[j]), rank(s[i]))
    ensures forall j :: 0 <= j < i ==> Above(rank(s[i]), rank(s[j]))
  {
    if |s| == 1 {
      i := 0;
      return;
    }
    var tail := s[1..];
    var k := SortDescHead(tail, rank);
    var top := rank(tail[k]);
    SortDescHeadStep(s, rank);
    if Above(top, rank(s[0])) {
      i := 1 + k;
      forall j | 0 < j < |s| ensures !Above(rank(s[j]), top) {
        assert s[j] == tail[j - 1];
      }
      forall j | 0 < j < i ensures Above(top, rank(s[j])) {
        assert s[j] == tail[j - 1];
      }
    } else {
      i := 0;
      forall j | 0 < j < |s| ensures !Above(rank(s[j]), rank(s[0])) {
        assert s[j] == tail[j - 1];
        NotAboveChains(rank(s[j]), top, rank(s[0]));
      }
    }
  }

  // ---------------------------------------------------------------------------
  // The tasks page

  /** The comparator of `pickFocusProject`: most active tasks first, then most
      tasks. */
  function LoadRank(p: Project): Rank
  {
    Rank(p.activeTaskCount, p.taskCount)
  }

  /** `pickFocusProject`: the head of a sorted copy, none for an empty list. */
  function PickFocusProject(projects: seq<Project>): (r: Option<Project>)
    ensures r.None? <==> projects == []
    ensures r.Some? ==> r.value in projects
  {
    if projects == [] then None
    else
      var sorted := SortDesc(projects, LoadRank);
      assert sorted[0] in multiset(projects);
      Some(sorted[0])
  }

  /** The focus project is the first one with the most active tasks and, among
      those, the most tasks; the input list itself is left as it was. */
  lemma FocusIsFirstBusiest(projects: seq<Project>) returns (i: int)
    requires projects != []
    ensures 0 <= i < |projects| && PickFocusProject(projects) == Some(projects[i])
    ensures forall j :: 0 <= j < |projects| ==>
              projects[j].activeTaskCount < projects[i].activeTaskCount
              || (projects[j].activeTaskCount == projects[i].activeTaskCount && projects[j].taskCount <= projects[i].taskCount)
    ensures forall j :: 0 <= j < i ==>
              projects[j].activeTaskCount < projects[i].activeTaskCount
              || (projects[j].activeTaskCount == projects[i].activeTaskCount && projects[j].taskCount < projects[i].taskCount)
  {
    i := SortDescHead(projects, LoadRank);
  }

  /** The comparator of the latest-command lookup: largest sequence first. */
  function LatestRank(c: Command): Rank
  {
    Rank(c.sequence, 0)
  }

  /** The latest command of a task: the head of its commands sorted by descending
      sequence, none when it has no command. */
  function LatestCommand(commands: seq<Command>): (r: Option<Command>)
    ensures r.None? <==> commands == []
    ensures r.Some? ==> r.value in commands
  {
    if commands == [] then None
    else
      var sorted := SortDesc(commands, LatestRank);
      assert sorted[0] in multiset(commands);
      Some(sorted[0])
  }

  /** The latest command has the largest sequence number; on a list as the server
      returns it (sequences 1..n in order) it is the last one. */
  lemma LatestHasLargestSequence(commands: seq<Command>)
    requires commands != []
    ensures forall c :: c in commands ==> c.sequence <= LatestCommand(commands).value.sequence
    ensures (forall i :: 0 <= i < |commands| ==> commands[i].sequence == i + 1) ==>
              LatestCommand(commands) == Some(commands[|commands| - 1])
  {
    var i := SortDescHead(commands, LatestRank);
    assert !Above(LatestRank(commands[|commands| - 1]), LatestRank(commands[i]));
  }

  /** The comparator of the detail timeline: ascending sequence. */
  function TimelineRank(c: Command): Rank
  {
    Rank(-c.sequence, 0)
  }

  /** The detail timeline: the commands sorted by ascending sequence, last three. */
  function Timeline(commands: seq<Command>): (r: seq<Command>)
    ensures |r| == if |commands| < 3 then |commands| else 3
    ensures multiset(r) <= multiset(commands)
  {
    var sorted := SortDesc(commands, TimelineRank);
    var k := |sorted| - (if |sorted| < 3 then |sorted| else 3);
    assert sorted == sorted[..k] + sorted[k..];
    sorted[k..]
  }

  /** In a descending sequence no element is strictly above any earlier one. */
  lemma {:induction false} DescendingPairs<T>(s: seq<T>, rank: T -> Rank)
    requires Descending(s, rank)
    ensures forall i, j :: 0 <= i < j < |s| ==> !Above(rank(s[j]), rank(s[i]))
  {
    if |s| > 1 {
      var init := s[..|s| - 1];
      assert Descending(init, rank) by {
        forall i | 0 < i < |init| ensures !Above(rank(init[i]), rank(init[i - 1])) {
          assert init[i] == s[i] && init[i - 1] == s[i - 1];
        }
      }
      DescendingPairs(init, rank);
      forall i, j | 0 <= i < j < |s| ensures !Above(rank(s[j]), rank(s[i])) {
        if j < |s| - 1 {
          assert s[j] == init[j] && s[i] == init[i];
        } else if i < j - 1 {
          assert !Above(rank(init[j - 1]), rank(init[i]));
          NotAboveChains(rank(s[j]), rank(s[j - 1]), rank(s[i]));
        }
      }
    }
  }

  /** Cutting a descending sequence leaves nothing in the head strictly above an
      element of the tail. */
  lemma DescendingCut<T>(s: seq<T>, rank: T -> Rank, k: int)
    requires Descending(s, rank) && 0 <= k <= |s|
    ensures forall x, y :: x in s && x !in s[k..] && y in s[k..] ==> !Above(rank(y), rank(x))
  {
    DescendingPairs(s, rank);
    assert forall m :: k <= m < |s| ==> s[m] == s[k..][m - k];
    forall x, y | x in s && x !in s[k..] && y in s[k..] ensures !Above(rank(y), rank(x)) {
      var i :| 0 <= i < |s| && s[i] == x;
      var j :| 0 <= j < |s[k..]| && s[k..][j] == y;
      assert i < k && s[k + j] == y;
    }
  }

  /** The timeline shows the latest commands: every command of the list that it
      leaves out has a sequence no larger than any command it shows. */
  lemma TimelineShowsLatest(commands: seq<Command>)
    ensures forall c, t :: c in commands && c !in Timeline(commands) && t in Timeline(commands) ==>
              c.sequence <= t.sequence
  {
    var sorted := SortDesc(commands, TimelineRank);
    SortDescSorted(commands, TimelineRank);
    var k := |sorted| - (if |sorted| < 3 then |sorted| else 3);
    assert Timeline(commands) == sorted[k..];
    DescendingCut(sorted, TimelineRank, k);
    forall c, t | c in commands && c !in Timeline(commands) && t in Timeline(commands)
      ensures c.sequence <= t.sequence
    {
      assert c in multiset(commands);
      assert !Above(TimelineRank(t), TimelineRank(c));
    }
  }

  /** The timeline is in ascending sequence order; on a list as the server returns it
      it is the list's last three commands. */
  lemma TimelineOrder(commands: seq<Command>)
    ensures forall i :: 0 < i < |Timeline(commands)| ==> Timeline(commands)[i - 1].sequence <= Timeline(commands)[i].sequence
    ensures (forall i :: 0 <= i < |commands| ==> commands[i].sequence == i + 1) ==>
              Timeline(commands) == commands[|commands| - (if |commands| < 3 then |commands| else 3)..]
  {
    var sorted := SortDesc(commands, TimelineRank);
    SortDescSorted(commands, TimelineRank);
    var k := |sorted| - (if |sorted| < 3 then |sorted| else 3);
    forall i | 0 < i < |Timeline(commands)|
      ensures Timeline(commands)[i - 1].sequence <= Timeline(commands)[i].sequence
    {
      assert Timeline(commands)[i] == sorted[k + i] && Timeline(commands)[i - 1] == sorted[k + i - 1];
    }
    if forall i :: 0 <= i < |commands| ==> commands[i].sequence == i + 1 {
      SortDescKeepsSorted(commands, TimelineRank);
    }
  }

  // ---------------------------------------------------------------------------
  // Filters and counts

  /** `s.filter(f)`. */
  function Filter<T>(s: seq<T>, f: T -> bool): (r: seq<T>)
    ensures |r| <= |s|
    ensures forall x :: x in r ==> x in s && f(x)
  {
    if s == [] then [] else Filter(s[..|s| - 1], f) + (if f(s[|s| - 1]) then [s[|s| - 1]] else [])
  }

  /** Nothing that passes is dropped. */
  lemma {:induction false} FilterKeeps<T>(s: seq<T>, f: T -> bool, x: T)
    requires x in s && f(x)
    ensures x in Filter(s, f)
  {
    if x != s[|s| - 1] {
      assert x in s[..|s| - 1];
      FilterKeeps(s[..|s| - 1], f, x);
    }
  }

  predicate IsActiveTask(t: Task)
  {
    t.status in {Todo, InProgress, TaskStatus.WaitingApproval}
  }

  predicate IsBlockedTask(t: Task)
  {
    t.status in {Blocked, TaskStatus.Failed}
  }

  predicate IsDoneTask(t: Task)
  {
    t.status == Done
  }

  predicate IsCanceledTask(t: Task)
  {
    t.status == TaskStatus.Canceled
  }

  /** The client's active statuses are exactly the server's. */
  lemma ActiveAgreesWithServer(t: Task)
    ensures IsActiveTask(t) <==> O.IsActiveTaskStatus(t.status)
  {
  }

  /** Every task is counted by exactly one of the active, blocked and done filters,
      except canceled tasks, which none counts. */
  lemma {:induction false} FiltersPartition(ts: seq<Task>)
    ensures |Filter(ts, IsActiveTask)| + |Filter(ts, IsBlockedTask)| + |Filter(ts, IsDoneTask)|
            + |Filter(ts, IsCanceledTask)| == |ts|
  {
    if ts != [] {
      FiltersPartition(ts[..|ts| - 1]);
    }
  }

  /** The tasks of one project snapshot. */
  function SnapshotTasks(d: ProjectDetail): (r: seq<Task>)
    ensures |r| == |d.tasks| && forall i :: 0 <= i < |d.tasks| ==> r[i] == d.tasks[i].task
  {
    seq(|d.tasks|, i requires 0 <= i < |d.tasks| => d.tasks[i].task)
  }

  /** `snapshots.flatMap((snapshot) => snapshot.tasks)`. */
  function TaskList(snapshots: seq<ProjectDetail>): seq<Task>
  {
    if snapshots == [] then []
    else TaskList(snapshots[..|snapshots| - 1]) + SnapshotTasks(snapshots[|snapshots| - 1])
  }

  /** `snapshots.reduce((sum, snapshot) => sum + snapshot.tasks.length, 0)`. */
  function TotalTasks(snapshots: seq<ProjectDetail>): nat
  {
    if snapshots == [] then 0
    else TotalTasks(snapshots[..|snapshots| - 1]) + |snapshots[|snapshots| - 1].tasks|
  }

  /** The overview's task list and the projects page's task total agree. */
  lemma {:induction false} TaskListLength(snapshots: seq<ProjectDetail>)
    ensures |TaskList(snapshots)| == TotalTasks(snapshots)
  {
    if snapshots != [] {
      TaskListLength(snapshots[..|snapshots| - 1]);
    }
  }

  /** On a snapshot the server returns, the client's active filter counts exactly the
      project's `active_task_count`. */
  lemma SnapshotActiveCount(s: O.Store, p: string)
    requires O.Inv(s) && p in s.projects
    ensures |Filter(SnapshotTasks(O.ProjectDetailOf(s, p)), IsActiveTask)|
            == O.ProjectDetailOf(s, p).project.activeTaskCount
  {
    var tids := O.TaskIds(s, p);
    assert O.Counted(s, p);
    assert SnapshotTasks(O.ProjectDetailOf(s, p)) == O.TasksOf(s, tids);
    ActiveFilterCounts(s, tids);
  }

  lemma {:induction false} ActiveFilterCounts(s: O.Store, ids: seq<string>)
    requires forall id :: id in ids ==> id in s.tasks
    ensures |Filter(O.TasksOf(s, ids), IsActiveTask)| == O.CountActive(s.tasks, ids)
  {
    if ids != [] {
      var init := ids[..|ids| - 1];
      assert O.TasksOf(s, ids)[..|ids| - 1] == O.TasksOf(s, init);
      ActiveFilterCounts(s, init);
    }
  }

  /** `a.concat(b).filter(f)` is `a.filter(f).concat(b.filter(f))`. */
  lemma {:induction false} FilterAppend<T>(a: seq<T>, b: seq<T>, f: T -> bool)
    ensures Filter(a + b, f) == Filter(a, f) + Filter(b, f)
  {
    if b == [] {
      assert a + b == a;
    } else {
      var init, last := b[..|b| - 1], b[|b| - 1];
      var tail := if f(last) then [last] else [];
      assert (a + b)[..|a + b| - 1] == a + init;
      assert (a + b)[|a + b| - 1] == last;
      assert Filter(a + b, f) == Filter(a + init, f) + tail;
      assert Filter(b, f) == Filter(init, f) + tail;
      FilterAppend(a, init, f);
      assert Filter(a, f) + Filter(init, f) + tail == Filter(a, f) + (Filter(init, f) + tail);
    }
  }

  predicate IsActiveProject(p: Project)
  {
    p.status == Active
  }

  /** The overview's active projects. */
  function ActiveProjects(projects: seq<Project>): seq<Project>
  {
    Filter(projects, IsActiveProject)
  }

  /** The overview's risk projects: the snapshots holding a blocked or failed task. */
  function RiskProjects(snapshots: seq<ProjectDetail>): seq<ProjectDetail>
  {
    Filter(snapshots, HasBlockedTask)
  }

  /** The sum of the snapshots' `active_task_count`. */
  function SumActive(snapshots: seq<ProjectDetail>): int
  {
    if snapshots == [] then 0
    else SumActive(snapshots[..|snapshots| - 1]) + snapshots[|snapshots| - 1].project.activeTaskCount
  }

  /** On snapshots the server returns, the overview's active task list is as long as
      the projects' active counts add up to. */
  lemma {:induction false} OverviewActiveCount(s: O.Store, pids: seq<string>, snapshots: seq<ProjectDetail>)
    requires O.Inv(s) && |pids| == |snapshots|
    requires forall i :: 0 <= i < |pids| ==> pids[i] in s.projects && snapshots[i] == O.ProjectDetailOf(s, pids[i])
    ensures |Filter(TaskList(snapshots), IsActiveTask)| == SumActive(snapshots)
  {
    if snapshots != [] {
      var n := |snapshots| - 1;
      OverviewActiveCount(s, pids[..n], snapshots[..n]);
      FilterAppend(TaskList(snapshots[..n]), SnapshotTasks(snapshots[n]), IsActiveTask);
      SnapshotActiveCount(s, pids[n]);
    }
  }

  /** A snapshot is a risk exactly when its tasks pass the blocked filter. */
  lemma SnapshotRisk(d: ProjectDetail)
    ensures HasBlockedTask(d) <==> Filter(SnapshotTasks(d), IsBlockedTask) != []
  {
    var ts := SnapshotTasks(d);
    if HasBlockedTask(d) {
      var i :| 0 <= i < |d.tasks| && IsBlockedTask(d.tasks[i].task);
      assert ts[i] in ts;
      FilterKeeps(ts, IsBlockedTask, ts[i]);
    }
    if Filter(ts, IsBlockedTask) != [] {
      var x := Filter(ts, IsBlockedTask)[0];
      assert x in ts && IsBlockedTask(x);
      var i :| 0 <= i < |ts| && ts[i] == x;
      assert IsBlockedTask(d.tasks[i].task);
    }
  }

  /** The overview lists risk projects exactly when it lists blocked tasks. */
  lemma {:induction false} RiskIffBlocked(snapshots: seq<ProjectDetail>)
    ensures RiskProjects(snapshots) != [] <==> Filter(TaskList(snapshots), IsBlockedTask) != []
  {
    if snapshots != [] {
      var n := |snapshots| - 1;
      RiskIffBlocked(snapshots[..n]);
      FilterAppend(TaskList(snapshots[..n]), SnapshotTasks(snapshots[n]), IsBlockedTask);
      SnapshotRisk(snapshots[n]);
    }
  }

  /** `array.slice(0, n)`. */
  function Take<T>(s: seq<T>, n: nat): (r: seq<T>)
    ensures |r| <= n && |r| <= |s| && r == s[..|r|]
    ensures |s| >= n ==> |r| == n
  {
    if |s| <= n then s else s[..n]
  }

  predicate HasActiveTasks(p: Project)
  {
    p.activeTaskCount > 0
  }

  predicate IsFinishedProject(p: Project)
  {
    p.taskCount > 0 && p.activeTaskCount == 0
  }

  predicate HasBlockedTask(d: ProjectDetail)
  {
    exists i :: 0 <= i < |d.tasks| && IsBlockedTask(d.tasks[i].task)
  }

  /** The projects of the "in progress" card: at most three with active tasks. */
  function InProgressProjects(projects: seq<Project>): seq<Project>
  {
    Take(Filter(projects, HasActiveTasks), 3)
  }

  /** The projects of the "done" card: at most two with tasks, none of them active. */
  function DoneProjects(projects: seq<Project>): seq<Project>
  {
    Take(Filter(projects, IsFinishedProject), 2)
  }

  /** The snapshots of the "blocked" card: at most two holding a blocked or failed
      task. */
  function BlockedSnapshots(snapshots: seq<ProjectDetail>): seq<ProjectDetail>
  {
    Take(RiskProjects(snapshots), 2)
  }

  /** No project is both in progress and done; the cards hold at most three and two
      projects, and every listed project comes from the input. */
  lemma ProjectCardsDisjoint(projects: seq<Project>)
    ensures |InProgressProjects(projects)| <= 3 && |DoneProjects(projects)| <= 2
    ensures forall p :: p in InProgressProjects(projects) ==> p in projects && p.activeTaskCount > 0
    ensures forall p :: p in DoneProjects(projects) ==> p in projects && p.taskCount > 0 && p.activeTaskCount == 0
    ensures forall p :: p in InProgressProjects(projects) ==> p !in DoneProjects(projects)
  {
    var a := Filter(projects, HasActiveTasks);
    var d := Filter(projects, IsFinishedProject);
    forall p | p in InProgressProjects(projects) ensures p in a {
      assert InProgressProjects(projects) == a[..|InProgressProjects(projects)|];
    }
    forall p | p in DoneProjects(projects) ensures p in d {
      assert DoneProjects(projects) == d[..|DoneProjects(projects)|];
    }
  }

  /** The line of a project in the "in progress" card. */
  function InProgressLine(p: Project): string
  {
    "• " + p.name + " · 任务 " + IntString(p.activeTaskCount) + "/" + IntString(p.taskCount)
  }

  /** The line of a project in the "done" card. */
  function DoneLine(p: Project): string
  {
    "• " + p.name + " · 已归档任务 " + IntString(p.taskCount) + " 条"
  }

  /** The line of a snapshot in the "blocked" card. */
  function BlockedLine(d: ProjectDetail): string
  {
    "• " + d.project.name + " · 包含失败/阻塞任务"
  }

  /** The three cards' lines; their counts are the cards' titles. */
  function ProjectsPageLines(projects: seq<Project>, snapshots: seq<ProjectDetail>)
    : (r: (seq<string>, seq<string>, seq<string>))
    ensures |r.0| <= 3 && |r.1| <= 2 && |r.2| <= 2
    ensures |r.0| == |InProgressProjects(projects)| && |r.1| == |BlockedSnapshots(snapshots)|
    ensures |r.2| == |DoneProjects(projects)|
  {
    var a := InProgressProjects(projects);
    var b := BlockedSnapshots(snapshots);
    var d := DoneProjects(projects);
    (seq(|a|, i requires 0 <= i < |a| => InProgressLine(a[i])),
     seq(|b|, i requires 0 <= i < |b| => BlockedLine(b[i])),
     seq(|d|, i requires 0 <= i < |d| => DoneLine(d[i])))
  }
}
