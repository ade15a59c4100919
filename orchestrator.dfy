/** The control center's in-memory hierarchy orchestrator.

    The store is a set of dictionaries (projects, tasks, commands), the per-project
    and per-task id lists, and a per-task sequence counter. `Store` is the value of
    all of them at one moment; `Inv` is what every locked block keeps; the functions
    below give the new store each locked block produces; `InMemoryOrchestrator` is
    the mutable object, whose methods update its fields step by step as the server
    does and are proved to produce exactly those stores.

    Python dictionaries keep insertion order, which `list_projects` and the
    advance-all loop observe: the order of the `projects` and `commands` keys is
    kept in `projectOrder` and `commandOrder`. A `defaultdict` lookup of a missing
    key reads as the empty list or zero (`TaskIds`, `CommandIds`, `Sequence`). */
module Orchestrator {
  import opened Text
  import opened Hierarchy
  import opened Api

  /** The run time a command must have before it may finish: 200 ms in microseconds. */
  const GateMicros: int := 200000
  const FailedMessage: string := "mock execution failed by command content"
  const CompletedMessage: string := "mock execution completed"

  // ---------------------------------------------------------------------------
  // The command state machine

  /** The moves the server makes on its own: queued -> running -> success | failed. */
  predicate ServerStep(from: CommandStatus, to: CommandStatus)
  {
    || from == to
    || (from == Queued && to == Running)
    || (from == Running && (to == Success || to == CommandStatus.Failed))
  }

  /** What one advance does to a command record, at instant `now`. */
  function Advanced(c: Command, now: int): (r: Command)
    ensures ServerStep(c.status, r.status)
    ensures c.status.IsTerminal() || c.status == CommandStatus.WaitingApproval ==> r == c
    ensures r.status.IsTerminal() && r != c ==>
              c.status == Running && (r.status == CommandStatus.Failed <==> MentionsFailure(c.text))
    ensures r.status.IsTerminal() && r != c ==>
              c.startedAt.Some? && r.finishedAt == Some(now) && c.startedAt.value + GateMicros <= now
    ensures r.(status := c.status, startedAt := c.startedAt, finishedAt := c.finishedAt,
               outputSummary := c.outputSummary, errorMessage := c.errorMessage) == c
  {
    match c.status
    case Queued => c.(status := Running, startedAt := Some(now))
    case Running =>
      var started := if c.startedAt.Some? then c.startedAt.value else now;
      if now - started < GateMicros then c
      else if MentionsFailure(c.text) then
        c.(status := CommandStatus.Failed, errorMessage := Some(FailedMessage), finishedAt := Some(now))
      else
        c.(status := Success, outputSummary := Some(CompletedMessage), finishedAt := Some(now))
    case _ => c
  }

  /** Which timestamps a command carries in each status. */
  predicate StampsFit(c: Command)
  {
    match c.status
    case Queued => c.startedAt.None? && c.finishedAt.None?
    case WaitingApproval => c.startedAt.None? && c.finishedAt.None?
    case Running => c.startedAt.Some? && c.finishedAt.None?
    case Success => c.startedAt.Some? && c.finishedAt.Some? && c.startedAt.value + GateMicros <= c.finishedAt.value
    case Failed => c.startedAt.Some? && c.finishedAt.Some? && c.startedAt.value + GateMicros <= c.finishedAt.value
    // No operation of the orchestrator produces `canceled`.
    case Canceled => c.startedAt.Some? && c.finishedAt.Some? ==> c.startedAt.value <= c.finishedAt.value
  }

  lemma AdvancedKeepsStamps(c: Command, now: int)
    requires StampsFit(c)
    ensures StampsFit(Advanced(c, now))
  {
  }

  // ---------------------------------------------------------------------------
  // Derived task status and project counter

  /** The task statuses a project counts as active. */
  predicate IsActiveTaskStatus(s: TaskStatus)
  {
    s == Todo || s == InProgress || s == TaskStatus.WaitingApproval
  }

  /** `_derive_task_status_locked`, given the set of its commands' statuses. */
  function DeriveTaskStatus(statuses: set<CommandStatus>): TaskStatus
  {
    if statuses == {} then Todo
    else if CommandStatus.WaitingApproval in statuses then TaskStatus.WaitingApproval
    else if Running in statuses || Queued in statuses then InProgress
    else if CommandStatus.Failed in statuses then TaskStatus.Failed
    // Only success and canceled are left, so the source's closing `todo` is unreachable.
    else if Success in statuses then Done
    else TaskStatus.Canceled
  }

  /** What the precedence means: a task is `todo` only without commands, `done` when
      something succeeded and nothing is pending or failed, `canceled` only when every
      command was canceled, never `blocked`, and it counts as active exactly when it
      has no commands or one of them has not reached a terminal status. */
  lemma DeriveTaskStatusMeaning(statuses: set<CommandStatus>)
    ensures DeriveTaskStatus(statuses) == Todo <==> statuses == {}
    ensures DeriveTaskStatus(statuses) == Done <==>
              Success in statuses && statuses <= {Success, CommandStatus.Canceled}
    ensures DeriveTaskStatus(statuses) == TaskStatus.Canceled <==> statuses == {CommandStatus.Canceled}
    ensures IsActiveTaskStatus(DeriveTaskStatus(statuses)) <==>
              statuses == {} || exists st :: st in statuses && !st.IsTerminal()
    ensures DeriveTaskStatus(statuses) != Blocked
  {
    if statuses != {} && DeriveTaskStatus(statuses) in {Done, TaskStatus.Canceled} {
      assert forall x :: x in statuses ==> x == Success || x == CommandStatus.Canceled;
      if Success !in statuses {
        assert statuses == {CommandStatus.Canceled};
      }
    }
  }

  /** The set of statuses of the commands `ids`. */
  function StatusesOf(cmds: map<string, Command>, ids: seq<string>): (r: set<CommandStatus>)
    requires forall id :: id in ids ==> id in cmds
    ensures r == {} <==> ids == []
  {
    if ids == [] then {} else StatusesOf(cmds, ids[..|ids| - 1]) + {cmds[ids[|ids| - 1]].status}
  }

  /** How many of the commands `ids` are in status `st`. */
  function CountStatus(cmds: map<string, Command>, ids: seq<string>, st: CommandStatus): (n: nat)
    requires forall id :: id in ids ==> id in cmds
    ensures n <= |ids|
  {
    if ids == [] then 0
    else CountStatus(cmds, ids[..|ids| - 1], st) + (if cmds[ids[|ids| - 1]].status == st then 1 else 0)
  }

  /** How many of the tasks `ids` are active. */
  function CountActive(tasks: map<string, Task>, ids: seq<string>): (n: nat)
    requires forall id :: id in ids ==> id in tasks
    ensures n <= |ids|
  {
    if ids == [] then 0
    else CountActive(tasks, ids[..|ids| - 1]) + (if IsActiveTaskStatus(tasks[ids[|ids| - 1]].status) then 1 else 0)
  }

  /** Success and failure counts never add up to more than the commands counted. */
  lemma {:induction false} OutcomesBounded(cmds: map<string, Command>, ids: seq<string>)
    requires forall id :: id in ids ==> id in cmds
    ensures CountStatus(cmds, ids, Success) + CountStatus(cmds, ids, CommandStatus.Failed) <= |ids|
  {
    if ids != [] {
      OutcomesBounded(cmds, ids[..|ids| - 1]);
    }
  }

  // ---------------------------------------------------------------------------
  // Frame lemmas: the derived values only look at statuses

  lemma {:induction false} StatusesFrame(m: map<string, Command>, m': map<string, Command>, ids: seq<string>)
    requires forall id :: id in ids ==> id in m && id in m' && m'[id].status == m[id].status
    ensures StatusesOf(m', ids) == StatusesOf(m, ids)
    ensures forall st :: CountStatus(m', ids, st) == CountStatus(m, ids, st)
  {
    if ids != [] {
      StatusesFrame(m, m', ids[..|ids| - 1]);
    }
  }

  lemma {:induction false} CountActiveFrame(m: map<string, Task>, m': map<string, Task>, ids: seq<string>)
    requires forall id :: id in ids ==> id in m && id in m' && m'[id].status == m[id].status
    ensures CountActive(m', ids) == CountActive(m, ids)
  {
    if ids != [] {
      CountActiveFrame(m, m', ids[..|ids| - 1]);
    }
  }

  predicate Distinct(ids: seq<string>)
  {
    forall i, j :: 0 <= i < j < |ids| ==> ids[i] != ids[j]
  }

  /** Changing the one command `c` of a list without repetitions moves each count by
      at most one, in the direction of its old and new status. */
  lemma {:induction false} CountStatusUpdate(m: map<string, Command>, ids: seq<string>, c: string, x: Command, st: CommandStatus)
    requires forall id :: id in ids ==> id in m
    requires Distinct(ids) && c in ids
    ensures CountStatus(m[c := x], ids, st) + (if m[c].status == st then 1 else 0)
            == CountStatus(m, ids, st) + (if x.status == st then 1 else 0)
  {
    var pre := ids[..|ids| - 1];
    assert Distinct(pre);
    if ids[|ids| - 1] == c {
      assert c !in pre;
      StatusesFrame(m, m[c := x], pre);
    } else {
      assert c in pre;
      CountStatusUpdate(m, pre, c, x, st);
    }
  }

  /** What a stored command satisfies on its own: non-empty text, timestamps that
      fit its status, and an approval only where one was required, given once. */
  predicate CommandShape(cmd: Command)
  {
    && |cmd.text| >= 1 && StampsFit(cmd)
    && (cmd.approvedBy.Some? ==> cmd.requiresApproval)
    && (cmd.status == CommandStatus.WaitingApproval ==> cmd.requiresApproval && cmd.approvedBy.None?)
  }

  /** The fields no operation changes once a command is stored. */
  predicate SameIdentity(a: Command, b: Command)
  {
    && a.id == b.id && a.projectId == b.projectId && a.taskId == b.taskId
    && a.sequence == b.sequence && a.text == b.text && a.requiresApproval == b.requiresApproval
  }

  // ---------------------------------------------------------------------------
  // The store and its invariant

  datatype Store = Store(
    projects: map<string, Project>,
    projectOrder: seq<string>,
    tasks: map<string, Task>,
    commands: map<string, Command>,
    commandOrder: seq<string>,
    projectTasks: map<string, seq<string>>,
    taskCommands: map<string, seq<string>>,
    taskSequence: map<string, int>)

  const EmptyStore := Store(map[], [], map[], map[], [], map[], map[], map[])

  function TaskIds(s: Store, p: string): seq<string>
  {
    if p in s.projectTasks then s.projectTasks[p] else []
  }

  function CommandIds(s: Store, t: string): seq<string>
  {
    if t in s.taskCommands then s.taskCommands[t] else []
  }

  function Sequence(s: Store, t: string): int
  {
    if t in s.taskSequence then s.taskSequence[t] else 0
  }

  /** `order` lists the keys `keys` once each, in insertion order. */
  ghost predicate OrderOf(order: seq<string>, keys: set<string>)
  {
    Distinct(order) && (forall k :: k in order <==> k in keys)
  }

  /** Every id on a list names a stored entity, so derived values are defined. */
  ghost predicate ListsClosed(s: Store)
  {
    && (forall p, id :: p in s.projectTasks && id in s.projectTasks[p] ==> id in s.tasks)
    && (forall t, id :: t in s.taskCommands && id in s.taskCommands[t] ==> id in s.commands)
  }

  ghost predicate KeysFit(s: Store)
  {
    && s.projectTasks.Keys <= s.projects.Keys
    && s.taskCommands.Keys <= s.tasks.Keys
    && s.taskSequence.Keys <= s.tasks.Keys
    && OrderOf(s.projectOrder, s.projects.Keys)
    && OrderOf(s.commandOrder, s.commands.Keys)
  }

  ghost predicate ProjectCore(s: Store, p: string)
    requires p in s.projects
  {
    var pr := s.projects[p];
    var ids := TaskIds(s, p);
    && pr.id == p && |pr.name| >= 1 && pr.taskCount == |ids| && Distinct(ids)
    && forall i :: 0 <= i < |ids| ==> ids[i] in s.tasks && s.tasks[ids[i]].projectId == p
  }

  /** A task's counters agree with its command list, whose sequence numbers are
      exactly 1..n in stored order. */
  ghost predicate TaskCore(s: Store, t: string)
    requires t in s.tasks && ListsClosed(s)
  {
    var tk := s.tasks[t];
    var ids := CommandIds(s, t);
    && tk.id == t && |tk.title| >= 1 && 1 <= tk.priority <= 5
    && tk.projectId in s.projects && t in TaskIds(s, tk.projectId)
    && |ids| == Sequence(s, t) == tk.commandCount
    && (forall i :: 0 <= i < |ids| ==> s.commands[ids[i]].taskId == t && s.commands[ids[i]].sequence == i + 1)
    && tk.successCount == CountStatus(s.commands, ids, Success)
    && tk.failedCount == CountStatus(s.commands, ids, CommandStatus.Failed)
    && tk.lastCommandId == (if ids == [] then None else Some(ids[|ids| - 1]))
  }

  ghost predicate CommandCore(s: Store, c: string)
    requires c in s.commands
  {
    var cmd := s.commands[c];
    && cmd.id == c && cmd.taskId in s.tasks && cmd.projectId == s.tasks[cmd.taskId].projectId
    && c in CommandIds(s, cmd.taskId)
    && CommandShape(cmd)
  }

  ghost predicate AllProjectsCore(s: Store)
  {
    forall p {:trigger ProjectCore(s, p)} :: p in s.projects ==> ProjectCore(s, p)
  }

  ghost predicate AllTasksCore(s: Store)
    requires ListsClosed(s)
  {
    forall t {:trigger TaskCore(s, t)} :: t in s.tasks ==> TaskCore(s, t)
  }

  ghost predicate AllCommandsCore(s: Store)
  {
    forall c {:trigger CommandCore(s, c)} :: c in s.commands ==> CommandCore(s, c)
  }

  /** Everything but the derived task statuses and active counts. */
  ghost predicate Core(s: Store)
  {
    KeysFit(s) && ListsClosed(s) && AllProjectsCore(s) && AllTasksCore(s) && AllCommandsCore(s)
  }

  ghost predicate Derived(s: Store, t: string)
    requires t in s.tasks && ListsClosed(s)
  {
    s.tasks[t].status == DeriveTaskStatus(StatusesOf(s.commands, CommandIds(s, t)))
  }

  ghost predicate Counted(s: Store, p: string)
    requires p in s.projects && ListsClosed(s)
  {
    s.projects[p].activeTaskCount == CountActive(s.tasks, TaskIds(s, p))
  }

  ghost predicate AllDerived(s: Store)
    requires ListsClosed(s)
  {
    forall t {:trigger Derived(s, t)} :: t in s.tasks ==> Derived(s, t)
  }

  ghost predicate AllCounted(s: Store)
    requires ListsClosed(s)
  {
    forall p {:trigger Counted(s, p)} :: p in s.projects ==> Counted(s, p)
  }

  /** The invariant of the store between two locked blocks. */
  ghost predicate Inv(s: Store)
  {
    Core(s) && AllDerived(s) && AllCounted(s)
  }

  /** The derived values are right everywhere except, possibly, at task `t0` and
      at its project: the state inside a locked block before the refresh. */
  ghost predicate DerivedExcept(s: Store, t0: string)
    requires Core(s) && t0 in s.tasks
  {
    && (forall t {:trigger Derived(s, t)} :: t in s.tasks && t != t0 ==> Derived(s, t))
    && (forall p {:trigger Counted(s, p)} :: p in s.projects && p != s.tasks[t0].projectId ==> Counted(s, p))
  }

  // ---------------------------------------------------------------------------
  // The locked helpers as functions of the store

  /** `_recompute_project_active_count_locked`. */
  function RecomputeActive(s: Store, p: string): (r: Store)
    requires ListsClosed(s)
    ensures ListsClosed(r)
  {
    if p !in s.projects then s
    else s.(projects := s.projects[p := s.projects[p].(activeTaskCount := CountActive(s.tasks, TaskIds(s, p)))])
  }

  /** `_refresh_task_and_project_state_locked`. */
  function Refresh(s: Store, t: string): (r: Store)
    requires ListsClosed(s)
    ensures ListsClosed(r)
  {
    if t !in s.tasks then s
    else
      var tk := s.tasks[t].(status := DeriveTaskStatus(StatusesOf(s.commands, CommandIds(s, t))));
      RecomputeActive(s.(tasks := s.tasks[t := tk]), tk.projectId)
  }

  /** `r` differs from `s` at most in task statuses and project active counts. */
  ghost predicate SameButDerived(s: Store, r: Store)
  {
    && r.commands == s.commands && r.commandOrder == s.commandOrder && r.projectOrder == s.projectOrder
    && r.projectTasks == s.projectTasks && r.taskCommands == s.taskCommands && r.taskSequence == s.taskSequence
    && r.tasks.Keys == s.tasks.Keys && r.projects.Keys == s.projects.Keys
    && (forall t :: t in s.tasks ==> TaskHeader(r.tasks[t]) == TaskHeader(s.tasks[t]))
    && (forall p :: p in s.projects ==> ProjectHeader(r.projects[p]) == ProjectHeader(s.projects[p]))
  }

  /** A task record with its derived status blanked out. */
  function TaskHeader(tk: Task): Task
  {
    tk.(status := Todo)
  }

  /** A project record with its derived active count blanked out. */
  function ProjectHeader(pr: Project): Project
  {
    pr.(activeTaskCount := 0)
  }

  /** The core invariant does not look at the derived values. */
  lemma CoreIgnoresDerived(s: Store, r: Store)
    requires Core(s) && SameButDerived(s, r)
    ensures Core(r)
  {
    forall q | q in r.projects ensures ProjectCore(r, q) {
      ProjectCoreIgnoresDerived(s, r, q);
    }
    forall u | u in r.tasks ensures TaskCore(r, u) {
      TaskCoreIgnoresDerived(s, r, u);
    }
    forall c | c in r.commands ensures CommandCore(r, c) {
      CommandCoreIgnoresDerived(s, r, c);
    }
    assert KeysFit(r) && ListsClosed(r);
  }

  lemma CommandCoreIgnoresDerived(s: Store, r: Store, c: string)
    requires SameButDerived(s, r) && c in s.commands && CommandCore(s, c)
    ensures CommandCore(r, c)
  {
    var t := s.commands[c].taskId;
    assert r.tasks[t].projectId == s.tasks[t].projectId;
    assert CommandIds(r, t) == CommandIds(s, t);
  }

  lemma ProjectCoreIgnoresDerived(s: Store, r: Store, q: string)
    requires SameButDerived(s, r) && q in s.projects && ProjectCore(s, q)
    ensures ProjectCore(r, q)
  {
    var ids := TaskIds(s, q);
    assert TaskIds(r, q) == ids;
    forall i | 0 <= i < |ids| ensures ids[i] in r.tasks && r.tasks[ids[i]].projectId == q {
      assert ids[i] in s.tasks && s.tasks[ids[i]].projectId == q;
    }
  }

  lemma TaskCoreIgnoresDerived(s: Store, r: Store, u: string)
    requires ListsClosed(s) && SameButDerived(s, r) && u in s.tasks && TaskCore(s, u)
    ensures ListsClosed(r) && TaskCore(r, u)
  {
    var a, b := s.tasks[u], r.tasks[u];
    assert TaskHeader(b) == TaskHeader(a);
    assert TaskHeader(b).title == b.title && TaskHeader(a).title == a.title;
    assert b.id == a.id && b.title == a.title && b.priority == a.priority && b.projectId == a.projectId;
    assert b.commandCount == a.commandCount && b.successCount == a.successCount;
    assert b.failedCount == a.failedCount && b.lastCommandId == a.lastCommandId;
    assert CommandIds(r, u) == CommandIds(s, u) && Sequence(r, u) == Sequence(s, u);
    assert TaskIds(r, a.projectId) == TaskIds(s, a.projectId);
  }

  lemma SetStatusShape(s: Store, t: string, st: TaskStatus)
    requires t in s.tasks
    ensures SameButDerived(s, s.(tasks := s.tasks[t := s.tasks[t].(status := st)]))
  {
  }

  lemma RecomputeShape(s: Store, p: string)
    requires ListsClosed(s)
    ensures SameButDerived(s, RecomputeActive(s, p))
  {
    if p in s.projects {
      var pr := s.projects[p];
      var n := CountActive(s.tasks, TaskIds(s, p));
      assert RecomputeActive(s, p) == s.(projects := s.projects[p := pr.(activeTaskCount := n)]);
      assert ProjectHeader(pr.(activeTaskCount := n)) == ProjectHeader(pr);
    }
  }

  lemma SameButDerivedTrans(s: Store, r: Store, r2: Store)
    requires SameButDerived(s, r) && SameButDerived(r, r2)
    ensures SameButDerived(s, r2)
  {
  }

  /** A refresh changes derived values only ... */
  lemma RefreshShape(s: Store, t: string)
    requires ListsClosed(s) && t in s.tasks
    ensures SameButDerived(s, Refresh(s, t))
  {
    var st := DeriveTaskStatus(StatusesOf(s.commands, CommandIds(s, t)));
    var s1 := s.(tasks := s.tasks[t := s.tasks[t].(status := st)]);
    assert Refresh(s, t) == RecomputeActive(s1, s.tasks[t].projectId);
    SetStatusShape(s, t, st);
    RecomputeShape(s1, s.tasks[t].projectId);
    SameButDerivedTrans(s, s1, Refresh(s, t));
  }

  /** ... and only those of `t` ... */
  lemma RefreshKeepsOtherTasks(s: Store, t: string)
    requires ListsClosed(s) && t in s.tasks
    ensures forall u :: u in s.tasks && u != t ==> Refresh(s, t).tasks[u] == s.tasks[u]
  {
    var tk := s.tasks[t].(status := DeriveTaskStatus(StatusesOf(s.commands, CommandIds(s, t))));
    var s1 := s.(tasks := s.tasks[t := tk]);
    assert Refresh(s, t) == RecomputeActive(s1, tk.projectId);
  }

  /** ... and of its project. */
  lemma RefreshKeepsOtherProjects(s: Store, t: string)
    requires ListsClosed(s) && t in s.tasks
    ensures forall q :: q in s.projects && q != s.tasks[t].projectId ==> Refresh(s, t).projects[q] == s.projects[q]
  {
    var tk := s.tasks[t].(status := DeriveTaskStatus(StatusesOf(s.commands, CommandIds(s, t))));
    var s1 := s.(tasks := s.tasks[t := tk]);
    assert Refresh(s, t) == RecomputeActive(s1, tk.projectId);
  }

  /** The values a refresh writes. */
  lemma RefreshValues(s: Store, t: string)
    requires ListsClosed(s) && t in s.tasks
    ensures Refresh(s, t).tasks[t].status == DeriveTaskStatus(StatusesOf(s.commands, CommandIds(s, t)))
    ensures s.tasks[t].projectId in s.projects ==>
              Refresh(s, t).projects[s.tasks[t].projectId].activeTaskCount
              == CountActive(Refresh(s, t).tasks, TaskIds(s, s.tasks[t].projectId))
  {
    var tk := s.tasks[t].(status := DeriveTaskStatus(StatusesOf(s.commands, CommandIds(s, t))));
    var s1 := s.(tasks := s.tasks[t := tk]);
    assert Refresh(s, t) == RecomputeActive(s1, tk.projectId);
  }

  /** Refreshing a task whose own status and project count are the only stale
      derived values restores the whole invariant. */
  lemma RefreshRestores(s: Store, t: string)
    requires Core(s) && t in s.tasks && DerivedExcept(s, t)
    ensures Inv(Refresh(s, t))
  {
    var r := Refresh(s, t);
    RefreshShape(s, t);
    RefreshKeepsOtherTasks(s, t);
    RefreshKeepsOtherProjects(s, t);
    RefreshValues(s, t);
    assert TaskCore(s, t);
    CoreIgnoresDerived(s, r);
    StatusesRestored(s, r, t);
    CountsRestored(s, r, t);
  }

  lemma StatusesRestored(s: Store, r: Store, t: string)
    requires ListsClosed(s) && t in s.tasks && SameButDerived(s, r)
    requires forall u :: u in s.tasks && u != t ==> Derived(s, u)
    requires forall u :: u in s.tasks && u != t ==> r.tasks[u] == s.tasks[u]
    requires r.tasks[t].status == DeriveTaskStatus(StatusesOf(s.commands, CommandIds(s, t)))
    ensures ListsClosed(r) && forall u :: u in r.tasks ==> Derived(r, u)
  {
    assert ListsClosed(r);
    forall u | u in r.tasks ensures Derived(r, u) {
      assert CommandIds(r, u) == CommandIds(s, u);
      if u != t {
        assert Derived(s, u);
      }
    }
  }

  lemma CountsRestored(s: Store, r: Store, t: string)
    requires ListsClosed(s) && t in s.tasks && SameButDerived(s, r)
    requires forall q :: q in s.projects ==> ProjectCore(s, q)
    requires forall q :: q in s.projects && q != s.tasks[t].projectId ==> Counted(s, q)
    requires forall q :: q in s.projects && q != s.tasks[t].projectId ==> r.projects[q] == s.projects[q]
    requires forall u :: u in s.tasks && u != t ==> r.tasks[u] == s.tasks[u]
    requires s.tasks[t].projectId in s.projects
    requires r.projects[s.tasks[t].projectId].activeTaskCount == CountActive(r.tasks, TaskIds(s, s.tasks[t].projectId))
    ensures ListsClosed(r) && forall q :: q in r.projects ==> Counted(r, q)
  {
    assert ListsClosed(r);
    forall q | q in r.projects ensures Counted(r, q) {
      assert TaskIds(r, q) == TaskIds(s, q);
      if q != s.tasks[t].projectId {
        CountedElsewhere(s, r, t, q);
      }
    }
  }

  lemma CountedElsewhere(s: Store, r: Store, t: string, q: string)
    requires ListsClosed(s) && t in s.tasks && SameButDerived(s, r)
    requires q in s.projects && q != s.tasks[t].projectId && ProjectCore(s, q) && Counted(s, q)
    requires r.projects[q] == s.projects[q]
    requires forall u :: u in s.tasks && u != t ==> r.tasks[u] == s.tasks[u]
    ensures ListsClosed(r) && Counted(r, q)
  {
    assert ListsClosed(r);
    var ids := TaskIds(s, q);
    assert TaskIds(r, q) == ids;
    forall id | id in ids ensures id in s.tasks && id in r.tasks && r.tasks[id].status == s.tasks[id].status {
      var i :| 0 <= i < |ids| && ids[i] == id;
      assert s.tasks[id].projectId == q;
    }
    CountActiveFrame(s.tasks, r.tasks, ids);
  }

  // ---------------------------------------------------------------------------
  // Facts the invariant implies

  /** A task's commands carry the sequence numbers 1..n, so none is listed twice. */
  lemma CommandIdsDistinct(s: Store, t: string)
    requires ListsClosed(s) && t in s.tasks && TaskCore(s, t)
    ensures Distinct(CommandIds(s, t))
  {
    var ids := CommandIds(s, t);
    forall i, j | 0 <= i < j < |ids| ensures ids[i] != ids[j] {
      assert s.commands[ids[i]].sequence != s.commands[ids[j]].sequence;
    }
  }

  /** A command appears only on its own task's list. */
  lemma CommandOnOwnList(s: Store, c: string, u: string)
    requires ListsClosed(s) && u in s.tasks && TaskCore(s, u) && c in s.commands
    requires s.commands[c].taskId != u
    ensures c !in CommandIds(s, u)
  {
    var ids := CommandIds(s, u);
    forall i | 0 <= i < |ids| ensures ids[i] != c {
      assert s.commands[ids[i]].taskId == u;
    }
  }

  // ---------------------------------------------------------------------------
  // Replacing one command record (approval and the two advance steps)

  /** The store right after one command record is replaced and its task's outcome
      counters are updated, before the refresh. */
  function Replaced(s: Store, c: string, x: Command, tk: Task): Store
  {
    s.(commands := s.commands[c := x], tasks := s.tasks[x.taskId := tk])
  }

  /** Replacing a command by one with the same identity and a sound shape, with its
      task's counters moved to match, keeps everything but the derived values of
      that task and its project. */
  lemma ReplaceKeepsCore(s: Store, c: string, x: Command, tk: Task)
    requires Inv(s) && c in s.commands && SameIdentity(s.commands[c], x) && CommandShape(x)
    requires x.taskId in s.tasks
    requires tk == s.tasks[x.taskId].(
               successCount := CountStatus(s.commands[c := x], CommandIds(s, x.taskId), Success),
               failedCount := CountStatus(s.commands[c := x], CommandIds(s, x.taskId), CommandStatus.Failed))
    ensures Core(Replaced(s, c, x, tk)) && DerivedExcept(Replaced(s, c, x, tk), x.taskId)
  {
    ReplaceCore(s, c, x, tk);
    var r := Replaced(s, c, x, tk);
    var t := x.taskId;
    forall u | u in r.tasks && u != t ensures Derived(r, u) {
      assert TaskCore(s, u) && Derived(s, u);
      ReplaceKeepsOtherDerived(s, c, x, tk, u);
    }
    forall q | q in r.projects && q != r.tasks[t].projectId ensures Counted(r, q) {
      assert Counted(s, q) && ProjectCore(s, q);
      ReplaceKeepsCounted(s, c, x, tk, q);
    }
  }

  lemma ReplaceCore(s: Store, c: string, x: Command, tk: Task)
    requires Core(s) && c in s.commands && SameIdentity(s.commands[c], x) && CommandShape(x)
    requires x.taskId in s.tasks
    requires tk == s.tasks[x.taskId].(
               successCount := CountStatus(s.commands[c := x], CommandIds(s, x.taskId), Success),
               failedCount := CountStatus(s.commands[c := x], CommandIds(s, x.taskId), CommandStatus.Failed))
    ensures Core(Replaced(s, c, x, tk))
  {
    var r := Replaced(s, c, x, tk);
    assert CommandCore(s, c);
    assert KeysFit(r) && ListsClosed(r);
    forall q | q in r.projects ensures ProjectCore(r, q) {
      ReplaceKeepsProject(s, c, x, tk, q);
    }
    forall u | u in r.tasks ensures TaskCore(r, u) {
      assert TaskCore(s, u);
      ReplaceKeepsTask(s, c, x, tk, u);
    }
    forall d | d in r.commands ensures CommandCore(r, d) {
      ReplaceKeepsCommand(s, c, x, tk, d);
    }
  }

  lemma ReplaceKeepsCommand(s: Store, c: string, x: Command, tk: Task, d: string)
    requires c in s.commands && SameIdentity(s.commands[c], x) && CommandShape(x) && CommandCore(s, c)
    requires x.taskId in s.tasks && tk.projectId == s.tasks[x.taskId].projectId
    requires d in s.commands && CommandCore(s, d)
    ensures CommandCore(Replaced(s, c, x, tk), d)
  {
    var r := Replaced(s, c, x, tk);
    var t := r.commands[d].taskId;
    assert CommandIds(r, t) == CommandIds(s, t);
  }

  lemma ReplaceKeepsProject(s: Store, c: string, x: Command, tk: Task, q: string)
    requires ListsClosed(s) && x.taskId in s.tasks && tk.projectId == s.tasks[x.taskId].projectId
    requires q in s.projects && ProjectCore(s, q)
    ensures ProjectCore(Replaced(s, c, x, tk), q)
  {
    var r := Replaced(s, c, x, tk);
    var ids := TaskIds(s, q);
    assert TaskIds(r, q) == ids;
    forall i | 0 <= i < |ids| ensures ids[i] in r.tasks && r.tasks[ids[i]].projectId == q {
      assert ids[i] in s.tasks && s.tasks[ids[i]].projectId == q;
    }
  }

  lemma ReplaceKeepsTask(s: Store, c: string, x: Command, tk: Task, u: string)
    requires ListsClosed(s) && c in s.commands && SameIdentity(s.commands[c], x) && x.taskId in s.tasks
    requires s.commands[c].taskId in s.tasks && TaskCore(s, s.commands[c].taskId)
    requires tk == s.tasks[x.taskId].(
               successCount := CountStatus(s.commands[c := x], CommandIds(s, x.taskId), Success),
               failedCount := CountStatus(s.commands[c := x], CommandIds(s, x.taskId), CommandStatus.Failed))
    requires u in s.tasks && TaskCore(s, u)
    ensures ListsClosed(Replaced(s, c, x, tk)) && TaskCore(Replaced(s, c, x, tk), u)
  {
    var r := Replaced(s, c, x, tk);
    assert ListsClosed(r);
    var ids := CommandIds(s, u);
    assert CommandIds(r, u) == ids && Sequence(r, u) == Sequence(s, u) && TaskIds(r, s.tasks[u].projectId) == TaskIds(s, s.tasks[u].projectId);
    forall i | 0 <= i < |ids| ensures r.commands[ids[i]].taskId == u && r.commands[ids[i]].sequence == i + 1 {
      assert s.commands[ids[i]].taskId == u && s.commands[ids[i]].sequence == i + 1;
    }
    if u != x.taskId {
      CommandOnOwnList(s, c, u);
      StatusesFrame(s.commands, r.commands, ids);
    }
  }

  lemma ReplaceKeepsOtherDerived(s: Store, c: string, x: Command, tk: Task, u: string)
    requires ListsClosed(s) && c in s.commands && SameIdentity(s.commands[c], x) && x.taskId in s.tasks
    requires u in s.tasks && u != x.taskId && TaskCore(s, u) && Derived(s, u)
    ensures ListsClosed(Replaced(s, c, x, tk)) && Derived(Replaced(s, c, x, tk), u)
  {
    var r := Replaced(s, c, x, tk);
    assert ListsClosed(r);
    assert CommandIds(r, u) == CommandIds(s, u);
    CommandOnOwnList(s, c, u);
    StatusesFrame(s.commands, r.commands, CommandIds(s, u));
  }

  lemma ReplaceKeepsCounted(s: Store, c: string, x: Command, tk: Task, q: string)
    requires ListsClosed(s) && x.taskId in s.tasks && tk.status == s.tasks[x.taskId].status
    requires q in s.projects && Counted(s, q) && ProjectCore(s, q)
    ensures ListsClosed(Replaced(s, c, x, tk)) && Counted(Replaced(s, c, x, tk), q)
  {
    var r := Replaced(s, c, x, tk);
    assert ListsClosed(r);
    var ids := TaskIds(s, q);
    assert TaskIds(r, q) == ids;
    forall id | id in ids ensures id in s.tasks && id in r.tasks && r.tasks[id].status == s.tasks[id].status {
      var i :| 0 <= i < |ids| && ids[i] == id;
    }
    CountActiveFrame(s.tasks, r.tasks, ids);
  }

  /** Replacing command `c` of task `t` moves the task's outcome counters by the
      change of that one command's status. */
  lemma CountsAfterReplace(s: Store, c: string, x: Command, st: CommandStatus)
    requires ListsClosed(s) && c in s.commands && s.commands[c].taskId in s.tasks
    requires TaskCore(s, s.commands[c].taskId) && c in CommandIds(s, s.commands[c].taskId)
    ensures CountStatus(s.commands[c := x], CommandIds(s, s.commands[c].taskId), st)
            + (if s.commands[c].status == st then 1 else 0)
            == CountStatus(s.commands, CommandIds(s, s.commands[c].taskId), st) + (if x.status == st then 1 else 0)
  {
    var t := s.commands[c].taskId;
    CommandIdsDistinct(s, t);
    CountStatusUpdate(s.commands, CommandIds(s, t), c, x, st);
  }

  // ---------------------------------------------------------------------------
  // approve_command

  /** `approve_command` once its three checks have passed. */
  function ApproveStore(s: Store, c: string, approver: string): Store
    requires ListsClosed(s) && c in s.commands
  {
    var cmd := s.commands[c].(approvedBy := Some(approver), status := Queued);
    Refresh(s.(commands := s.commands[c := cmd]), cmd.taskId)
  }

  lemma ApproveKeepsInv(s: Store, c: string, approver: string)
    requires Inv(s) && c in s.commands && s.commands[c].status == CommandStatus.WaitingApproval
    ensures Inv(ApproveStore(s, c, approver))
  {
    var x := s.commands[c].(approvedBy := Some(approver), status := Queued);
    var t := x.taskId;
    assert CommandCore(s, c) && TaskCore(s, t);
    CountsAfterReplace(s, c, x, Success);
    CountsAfterReplace(s, c, x, CommandStatus.Failed);
    var tk := s.tasks[t];
    ReplaceKeepsCore(s, c, x, tk);
    assert Replaced(s, c, x, tk) == s.(commands := s.commands[c := x]);
    RefreshRestores(Replaced(s, c, x, tk), t);
  }

  // ---------------------------------------------------------------------------
  // _advance_command_locked

  /** `_advance_command_locked(c)` at instant `now`. */
  function AdvanceOne(s: Store, c: string, now: int): (r: Store)
    requires ListsClosed(s)
    ensures ListsClosed(r)
  {
    if c !in s.commands then s
    else
      var cmd := s.commands[c];
      var next := Advanced(cmd, now);
      match cmd.status
      case Queued => Refresh(s.(commands := s.commands[c := next]), cmd.taskId)
      case Running =>
        if next == cmd || cmd.taskId !in s.tasks then s
        else
          var tk := s.tasks[cmd.taskId];
          var tk' := if next.status == CommandStatus.Failed then tk.(failedCount := tk.failedCount + 1)
                     else tk.(successCount := tk.successCount + 1);
          Refresh(s.(commands := s.commands[c := next], tasks := s.tasks[cmd.taskId := tk']), cmd.taskId)
      case _ => s
  }

  /** The finishing step of `AdvanceOne` spelled out as the source performs it: the
      command record is replaced, the matching counter of its task bumped, and the
      task refreshed. */
  lemma AdvanceFinishStep(s: Store, c: string, now: int, tk: Task)
    requires ListsClosed(s) && c in s.commands && s.commands[c].status == Running
    requires s.commands[c].taskId in s.tasks
    requires Advanced(s.commands[c], now) != s.commands[c]
    requires var tk0 := s.tasks[s.commands[c].taskId];
             tk == if MentionsFailure(s.commands[c].text) then tk0.(failedCount := tk0.failedCount + 1)
                   else tk0.(successCount := tk0.successCount + 1)
    ensures var t := s.commands[c].taskId;
            AdvanceOne(s, c, now)
              == Refresh(s.(commands := s.commands[c := Advanced(s.commands[c], now)], tasks := s.tasks[t := tk]), t)
  {
  }

  /** The layout of the store: every key set, id list, order and counter. */
  ghost predicate SameLayout(s: Store, r: Store)
  {
    && r.projectOrder == s.projectOrder && r.commandOrder == s.commandOrder
    && r.projectTasks == s.projectTasks && r.taskCommands == s.taskCommands && r.taskSequence == s.taskSequence
    && r.projects.Keys == s.projects.Keys && r.tasks.Keys == s.tasks.Keys && r.commands.Keys == s.commands.Keys
  }

  /** The task record after command `c` of it is replaced by `x`, with its outcome
      counters recounted. */
  function Recounted(s: Store, c: string, x: Command): Task
    requires ListsClosed(s) && c in s.commands && x.taskId in s.tasks
  {
    s.tasks[x.taskId].(
      successCount := CountStatus(s.commands[c := x], CommandIds(s, x.taskId), Success),
      failedCount := CountStatus(s.commands[c := x], CommandIds(s, x.taskId), CommandStatus.Failed))
  }

  /** An advance that changes the command is a replacement followed by a refresh:
      the source's `+= 1` on the counters is a recount. */
  lemma AdvanceIsReplace(s: Store, c: string, now: int)
    requires ListsClosed(s) && c in s.commands && s.commands[c].taskId in s.tasks
    requires TaskCore(s, s.commands[c].taskId) && c in CommandIds(s, s.commands[c].taskId)
    requires Advanced(s.commands[c], now) != s.commands[c]
    ensures AdvanceOne(s, c, now)
            == Refresh(Replaced(s, c, Advanced(s.commands[c], now), Recounted(s, c, Advanced(s.commands[c], now))),
                       s.commands[c].taskId)
  {
    var x := Advanced(s.commands[c], now);
    CountsAfterReplace(s, c, x, Success);
    CountsAfterReplace(s, c, x, CommandStatus.Failed);
    if s.commands[c].status == Queued {
      StartIsReplace(s, c, x);
    } else {
      FinishIsReplace(s, c, x);
      AdvanceFinishStep(s, c, now, Recounted(s, c, x));
    }
  }

  lemma StartIsReplace(s: Store, c: string, x: Command)
    requires ListsClosed(s) && c in s.commands && x.taskId == s.commands[c].taskId && x.taskId in s.tasks
    requires Recounted(s, c, x) == s.tasks[x.taskId]
    ensures Replaced(s, c, x, Recounted(s, c, x)) == s.(commands := s.commands[c := x])
  {
    assert s.tasks[x.taskId := s.tasks[x.taskId]] == s.tasks;
  }

  lemma FinishIsReplace(s: Store, c: string, x: Command)
    requires ListsClosed(s) && c in s.commands && x.taskId == s.commands[c].taskId && x.taskId in s.tasks
    requires x.status == Success || x.status == CommandStatus.Failed
    requires Recounted(s, c, x).successCount == s.tasks[x.taskId].successCount + (if x.status == Success then 1 else 0)
    requires Recounted(s, c, x).failedCount == s.tasks[x.taskId].failedCount + (if x.status == CommandStatus.Failed then 1 else 0)
    ensures Recounted(s, c, x) == (if x.status == CommandStatus.Failed
                                   then s.tasks[x.taskId].(failedCount := s.tasks[x.taskId].failedCount + 1)
                                   else s.tasks[x.taskId].(successCount := s.tasks[x.taskId].successCount + 1))
  {
  }

  /** An advance keeps a command's identity and the soundness of its shape. */
  lemma AdvancedShape(cmd: Command, now: int)
    requires CommandShape(cmd)
    ensures SameIdentity(cmd, Advanced(cmd, now)) && CommandShape(Advanced(cmd, now))
  {
    AdvancedKeepsStamps(cmd, now);
  }

  lemma ReplacedLayout(s: Store, c: string, x: Command, tk: Task)
    requires c in s.commands && x.taskId in s.tasks
    ensures SameLayout(s, Replaced(s, c, x, tk))
  {
  }

  lemma DerivedOnlyLayout(s: Store, r: Store)
    requires SameButDerived(s, r)
    ensures SameLayout(s, r)
  {
  }

  lemma SameLayoutTrans(s: Store, r: Store, r2: Store)
    requires SameLayout(s, r) && SameLayout(r, r2)
    ensures SameLayout(s, r2)
  {
  }

  /** An advance that changes the command keeps the invariant. */
  lemma AdvanceChangedKeepsInv(s: Store, c: string, now: int)
    requires Inv(s) && c in s.commands && Advanced(s.commands[c], now) != s.commands[c]
    ensures Inv(AdvanceOne(s, c, now)) && SameLayout(s, AdvanceOne(s, c, now))
    ensures AdvanceOne(s, c, now).commands == s.commands[c := Advanced(s.commands[c], now)]
  {
    var cmd := s.commands[c];
    var x := Advanced(cmd, now);
    var t := cmd.taskId;
    assert CommandCore(s, c) && TaskCore(s, t);
    AdvancedShape(cmd, now);
    var tk := Recounted(s, c, x);
    AdvanceIsReplace(s, c, now);
    var s1 := Replaced(s, c, x, tk);
    ReplaceKeepsCore(s, c, x, tk);
    RefreshRestores(s1, t);
    RefreshShape(s1, t);
    ReplacedLayout(s, c, x, tk);
    DerivedOnlyLayout(s1, Refresh(s1, t));
    SameLayoutTrans(s, s1, Refresh(s1, t));
  }

  /** One advance keeps the invariant and the layout, and changes exactly one
      command record: `c` becomes `Advanced(c)`. */
  lemma AdvanceOneKeepsInv(s: Store, c: string, now: int)
    requires Inv(s)
    ensures Inv(AdvanceOne(s, c, now)) && SameLayout(s, AdvanceOne(s, c, now))
    ensures c in s.commands ==> AdvanceOne(s, c, now).commands == s.commands[c := Advanced(s.commands[c], now)]
    ensures c !in s.commands ==> AdvanceOne(s, c, now) == s
  {
    if c in s.commands {
      if Advanced(s.commands[c], now) != s.commands[c] {
        AdvanceChangedKeepsInv(s, c, now);
      } else {
        assert AdvanceOne(s, c, now) == s;
        assert s.commands[c := s.commands[c]] == s.commands;
      }
    }
  }

  // ---------------------------------------------------------------------------
  // create_project

  /** `create_project` with `id` the fresh id `new_id("proj")` drew. */
  function CreateProjectStore(s: Store, req: CreateProjectRequest, id: string): Store
  {
    var pr := NewProject(id, req.name).(description := req.description, owner := req.owner, tags := req.tags);
    s.(projects := s.projects[id := pr], projectOrder := s.projectOrder + [id])
  }

  lemma CreateProjectKeepsInv(s: Store, req: CreateProjectRequest, id: string)
    requires Inv(s) && ValidCreateProjectRequest(req) && id !in s.projects
    ensures Inv(CreateProjectStore(s, req, id))
  {
    var r := CreateProjectStore(s, req, id);
    assert id !in s.projectOrder && id !in s.projectTasks;
    assert KeysFit(r) && ListsClosed(r);
    ProjectAddedProjects(s, r, id);
    ProjectAddedTasks(s, r);
    ProjectAddedCommands(s, r);
  }

  lemma ProjectAddedProjects(s: Store, r: Store, id: string)
    requires ListsClosed(s) && AllProjectsCore(s) && AllCounted(s) && id !in s.projectTasks
    requires r.tasks == s.tasks && r.commands == s.commands
    requires r.projectTasks == s.projectTasks && r.taskCommands == s.taskCommands
    requires r.projects.Keys == s.projects.Keys + {id}
    requires forall q :: q in s.projects ==> r.projects[q] == s.projects[q]
    requires id in r.projects && r.projects[id].id == id && |r.projects[id].name| >= 1
    requires r.projects[id].taskCount == 0 && r.projects[id].activeTaskCount == 0
    ensures ListsClosed(r) && AllProjectsCore(r) && AllCounted(r)
  {
    forall q | q in r.projects ensures ProjectCore(r, q) && Counted(r, q) {
      assert TaskIds(r, q) == TaskIds(s, q);
      if q != id {
        assert ProjectCore(s, q) && Counted(s, q);
      }
    }
  }

  lemma ProjectAddedTasks(s: Store, r: Store)
    requires ListsClosed(s) && AllTasksCore(s) && AllDerived(s)
    requires r.tasks == s.tasks && r.commands == s.commands && r.taskSequence == s.taskSequence
    requires r.projectTasks == s.projectTasks && r.taskCommands == s.taskCommands
    requires r.projects.Keys >= s.projects.Keys
    ensures ListsClosed(r) && AllTasksCore(r) && AllDerived(r)
  {
    forall u | u in r.tasks ensures TaskCore(r, u) && Derived(r, u) {
      assert TaskCore(s, u) && Derived(s, u);
      assert TaskIds(r, s.tasks[u].projectId) == TaskIds(s, s.tasks[u].projectId);
      assert CommandIds(r, u) == CommandIds(s, u) && Sequence(r, u) == Sequence(s, u);
    }
  }

  lemma ProjectAddedCommands(s: Store, r: Store)
    requires AllCommandsCore(s)
    requires r.tasks == s.tasks && r.commands == s.commands && r.taskCommands == s.taskCommands
    ensures AllCommandsCore(r)
  {
    forall d | d in r.commands ensures CommandCore(r, d) {
      assert CommandCore(s, d);
      assert CommandIds(r, s.commands[d].taskId) == CommandIds(s, s.commands[d].taskId);
    }
  }

  // ---------------------------------------------------------------------------
  // create_task

  /** The store of `create_task` before the refresh. */
  function TaskAdded(s: Store, p: string, req: CreateTaskRequest, id: string): (r: Store)
    requires p in s.projects
    ensures ListsClosed(s) && id !in s.tasks ==> ListsClosed(r)
  {
    var tk := NewTask(id, p, req.title).(
      description := req.description, priority := req.priority, assigneeAgent := req.assigneeAgent);
    var pr := s.projects[p];
    s.(tasks := s.tasks[id := tk],
       projectTasks := s.projectTasks[p := TaskIds(s, p) + [id]],
       projects := s.projects[p := pr.(taskCount := pr.taskCount + 1)])
  }

  /** `create_task(p)` once project `p` is found, with `id` the fresh `new_id("task")`. */
  function CreateTaskStore(s: Store, p: string, req: CreateTaskRequest, id: string): Store
    requires ListsClosed(s) && p in s.projects && id !in s.tasks
  {
    Refresh(TaskAdded(s, p, req, id), id)
  }

  lemma CreateTaskKeepsInv(s: Store, p: string, req: CreateTaskRequest, id: string)
    requires Inv(s) && ValidCreateTaskRequest(req) && p in s.projects && id !in s.tasks
    ensures Inv(CreateTaskStore(s, p, req, id))
  {
    var r := TaskAdded(s, p, req, id);
    assert id !in s.taskCommands && id !in s.taskSequence;
    assert KeysFit(r);
    TaskAddedCore(s, p, req, id);
    TaskAddedDerived(s, p, req, id);
    RefreshRestores(r, id);
  }

  lemma TaskAddedCore(s: Store, p: string, req: CreateTaskRequest, id: string)
    requires ListsClosed(s) && AllProjectsCore(s) && AllTasksCore(s) && AllCommandsCore(s)
    requires ValidCreateTaskRequest(req) && p in s.projects && id !in s.tasks
    requires s.taskCommands.Keys <= s.tasks.Keys && s.taskSequence.Keys <= s.tasks.Keys
    ensures ListsClosed(TaskAdded(s, p, req, id))
    ensures AllProjectsCore(TaskAdded(s, p, req, id)) && AllTasksCore(TaskAdded(s, p, req, id))
    ensures AllCommandsCore(TaskAdded(s, p, req, id))
  {
    var r := TaskAdded(s, p, req, id);
    forall q | q in r.projects ensures ProjectCore(r, q) {
      assert ProjectCore(s, q);
      TaskAddedKeepsProject(s, p, req, id, q);
    }
    forall u | u in r.tasks ensures TaskCore(r, u) {
      if u != id {
        assert TaskCore(s, u);
      }
      TaskAddedKeepsTask(s, p, req, id, u);
    }
    forall d | d in r.commands ensures CommandCore(r, d) {
      assert CommandCore(s, d);
      assert CommandIds(r, s.commands[d].taskId) == CommandIds(s, s.commands[d].taskId);
    }
  }

  lemma TaskAddedDerived(s: Store, p: string, req: CreateTaskRequest, id: string)
    requires ListsClosed(s) && AllProjectsCore(s) && AllDerived(s) && AllCounted(s)
    requires p in s.projects && id !in s.tasks && s.taskCommands.Keys <= s.tasks.Keys
    ensures ListsClosed(TaskAdded(s, p, req, id))
    ensures forall u {:trigger Derived(TaskAdded(s, p, req, id), u)} ::
              u in TaskAdded(s, p, req, id).tasks && u != id ==> Derived(TaskAdded(s, p, req, id), u)
    ensures forall q {:trigger Counted(TaskAdded(s, p, req, id), q)} ::
              q in TaskAdded(s, p, req, id).projects && q != p ==> Counted(TaskAdded(s, p, req, id), q)
  {
    var r := TaskAdded(s, p, req, id);
    forall u | u in r.tasks && u != id ensures Derived(r, u) {
      assert Derived(s, u);
      assert CommandIds(r, u) == CommandIds(s, u);
    }
    forall q | q in r.projects && q != p ensures Counted(r, q) {
      assert Counted(s, q) && ProjectCore(s, q);
      TaskAddedKeepsCounted(s, p, req, id, q);
    }
  }

  lemma TaskAddedKeepsProject(s: Store, p: string, req: CreateTaskRequest, id: string, q: string)
    requires ListsClosed(s) && p in s.projects && id !in s.tasks && q in s.projects && ProjectCore(s, q)
    ensures ProjectCore(TaskAdded(s, p, req, id), q)
  {
    var r := TaskAdded(s, p, req, id);
    var ids := TaskIds(s, q);
    forall i | 0 <= i < |ids| ensures ids[i] in r.tasks && r.tasks[ids[i]].projectId == q {
      assert ids[i] in s.tasks && s.tasks[ids[i]].projectId == q;
    }
    if q == p {
      assert TaskIds(r, p) == ids + [id];
      assert id !in ids;
    } else {
      assert TaskIds(r, q) == ids;
    }
  }

  lemma TaskAddedKeepsTask(s: Store, p: string, req: CreateTaskRequest, id: string, u: string)
    requires ListsClosed(s) && ValidCreateTaskRequest(req) && p in s.projects && id !in s.tasks
    requires s.taskCommands.Keys <= s.tasks.Keys && s.taskSequence.Keys <= s.tasks.Keys
    requires u == id || (u in s.tasks && TaskCore(s, u))
    ensures ListsClosed(TaskAdded(s, p, req, id)) && TaskCore(TaskAdded(s, p, req, id), u)
  {
    var r := TaskAdded(s, p, req, id);
    assert CommandIds(r, u) == CommandIds(s, u) && Sequence(r, u) == Sequence(s, u);
    if u == id {
      assert TaskIds(r, p) == TaskIds(s, p) + [id];
      assert id in TaskIds(r, p);
    } else {
      var q := s.tasks[u].projectId;
      assert u in TaskIds(r, q) by {
        if q == p {
          assert TaskIds(r, p) == TaskIds(s, p) + [id];
        }
      }
    }
  }

  lemma TaskAddedKeepsCounted(s: Store, p: string, req: CreateTaskRequest, id: string, q: string)
    requires ListsClosed(s) && p in s.projects && id !in s.tasks
    requires q in s.projects && q != p && Counted(s, q) && ProjectCore(s, q)
    ensures ListsClosed(TaskAdded(s, p, req, id)) && Counted(TaskAdded(s, p, req, id), q)
  {
    var r := TaskAdded(s, p, req, id);
    var ids := TaskIds(s, q);
    assert TaskIds(r, q) == ids;
    forall x | x in ids ensures x in s.tasks && x in r.tasks && r.tasks[x].status == s.tasks[x].status {
    }
    CountActiveFrame(s.tasks, r.tasks, ids);
  }

  // ---------------------------------------------------------------------------
  // create_command

  /** The command `create_command(t)` stores: the next sequence number of its task,
      and `waiting_approval` exactly when approval is required. */
  function CommandFor(s: Store, t: string, req: CreateCommandRequest, id: string): (c: Command)
    requires t in s.tasks
    ensures c.status == (if req.requiresApproval then CommandStatus.WaitingApproval else Queued)
    ensures c.sequence == Sequence(s, t) + 1 && c.taskId == t && c.projectId == s.tasks[t].projectId
    ensures c.approvedBy == None && c.startedAt == None && c.finishedAt == None
  {
    NewCommand(id, s.tasks[t].projectId, t, Sequence(s, t) + 1, req.text).(
      source := req.source, requestedBy := req.requestedBy, requiresApproval := req.requiresApproval,
      status := if req.requiresApproval then CommandStatus.WaitingApproval else Queued)
  }

  /** The store of `create_command` before the refresh. */
  function CommandAdded(s: Store, t: string, req: CreateCommandRequest, id: string): (r: Store)
    requires t in s.tasks
    ensures ListsClosed(s) ==> ListsClosed(r)
  {
    var tk := s.tasks[t];
    s.(taskSequence := s.taskSequence[t := Sequence(s, t) + 1],
       commands := s.commands[id := CommandFor(s, t, req, id)],
       commandOrder := s.commandOrder + [id],
       taskCommands := s.taskCommands[t := CommandIds(s, t) + [id]],
       tasks := s.tasks[t := tk.(commandCount := tk.commandCount + 1, lastCommandId := Some(id))])
  }

  /** `create_command(t)` once task `t` is found, with `id` the fresh `new_id("cmd")`. */
  function CreateCommandStore(s: Store, t: string, req: CreateCommandRequest, id: string): Store
    requires ListsClosed(s) && t in s.tasks
  {
    Refresh(CommandAdded(s, t, req, id), t)
  }

  lemma CreateCommandKeepsInv(s: Store, t: string, req: CreateCommandRequest, id: string)
    requires Inv(s) && ValidCreateCommandRequest(req) && t in s.tasks && id !in s.commands
    ensures Inv(CreateCommandStore(s, t, req, id))
  {
    var r := CommandAdded(s, t, req, id);
    assert id !in s.commandOrder;
    assert KeysFit(r);
    CommandAddedCore(s, t, req, id);
    CommandAddedDerived(s, t, req, id);
    RefreshRestores(r, t);
  }

  lemma CommandAddedCore(s: Store, t: string, req: CreateCommandRequest, id: string)
    requires ListsClosed(s) && AllProjectsCore(s) && AllTasksCore(s) && AllCommandsCore(s)
    requires ValidCreateCommandRequest(req) && t in s.tasks && id !in s.commands
    ensures ListsClosed(CommandAdded(s, t, req, id))
    ensures AllProjectsCore(CommandAdded(s, t, req, id)) && AllTasksCore(CommandAdded(s, t, req, id))
    ensures AllCommandsCore(CommandAdded(s, t, req, id))
  {
    var r := CommandAdded(s, t, req, id);
    forall q | q in r.projects ensures ProjectCore(r, q) {
      assert ProjectCore(s, q);
      CommandAddedKeepsProject(s, t, req, id, q);
    }
    forall u | u in r.tasks ensures TaskCore(r, u) {
      assert TaskCore(s, u);
      CommandAddedKeepsTask(s, t, req, id, u);
    }
    forall d | d in r.commands ensures CommandCore(r, d) {
      if d != id {
        assert CommandCore(s, d);
      }
      CommandAddedKeepsCommand(s, t, req, id, d);
    }
  }

  lemma CommandAddedKeepsProject(s: Store, t: string, req: CreateCommandRequest, id: string, q: string)
    requires ListsClosed(s) && t in s.tasks && q in s.projects && ProjectCore(s, q)
    ensures ProjectCore(CommandAdded(s, t, req, id), q)
  {
    var r := CommandAdded(s, t, req, id);
    var ids := TaskIds(s, q);
    assert TaskIds(r, q) == ids;
    forall i | 0 <= i < |ids| ensures ids[i] in r.tasks && r.tasks[ids[i]].projectId == q {
      assert ids[i] in s.tasks && s.tasks[ids[i]].projectId == q;
    }
  }

  lemma CommandAddedKeepsTask(s: Store, t: string, req: CreateCommandRequest, id: string, u: string)
    requires ListsClosed(s) && t in s.tasks && id !in s.commands && u in s.tasks && TaskCore(s, u)
    ensures ListsClosed(CommandAdded(s, t, req, id)) && TaskCore(CommandAdded(s, t, req, id), u)
  {
    if u == t {
      CommandAddedKeepsOwnTask(s, t, req, id);
    } else {
      CommandAddedKeepsOtherTask(s, t, req, id, u);
    }
  }

  lemma CommandAddedKeepsOwnTask(s: Store, t: string, req: CreateCommandRequest, id: string)
    requires ListsClosed(s) && t in s.tasks && id !in s.commands && TaskCore(s, t)
    ensures ListsClosed(CommandAdded(s, t, req, id)) && TaskCore(CommandAdded(s, t, req, id), t)
  {
    var r := CommandAdded(s, t, req, id);
    var ids := CommandIds(s, t);
    var ids' := ids + [id];
    assert id !in ids;
    assert CommandIds(r, t) == ids' && ids'[..|ids|] == ids;
    assert TaskIds(r, s.tasks[t].projectId) == TaskIds(s, s.tasks[t].projectId);
    StatusesFrame(s.commands, r.commands, ids);
    assert CountStatus(r.commands, ids', Success) == CountStatus(r.commands, ids, Success);
    assert CountStatus(r.commands, ids', CommandStatus.Failed) == CountStatus(r.commands, ids, CommandStatus.Failed);
    forall i | 0 <= i < |ids'| ensures r.commands[ids'[i]].taskId == t && r.commands[ids'[i]].sequence == i + 1 {
      if i < |ids| {
        assert s.commands[ids[i]].taskId == t && s.commands[ids[i]].sequence == i + 1;
      }
    }
  }

  lemma CommandAddedKeepsOtherTask(s: Store, t: string, req: CreateCommandRequest, id: string, u: string)
    requires ListsClosed(s) && t in s.tasks && id !in s.commands && u in s.tasks && u != t && TaskCore(s, u)
    ensures ListsClosed(CommandAdded(s, t, req, id)) && TaskCore(CommandAdded(s, t, req, id), u)
  {
    var r := CommandAdded(s, t, req, id);
    var ids := CommandIds(s, u);
    assert id !in ids;
    assert CommandIds(r, u) == ids && Sequence(r, u) == Sequence(s, u);
    assert TaskIds(r, s.tasks[u].projectId) == TaskIds(s, s.tasks[u].projectId);
    StatusesFrame(s.commands, r.commands, ids);
    forall i | 0 <= i < |ids| ensures r.commands[ids[i]].taskId == u && r.commands[ids[i]].sequence == i + 1 {
      assert s.commands[ids[i]].taskId == u && s.commands[ids[i]].sequence == i + 1;
    }
  }

  lemma CommandAddedKeepsCommand(s: Store, t: string, req: CreateCommandRequest, id: string, d: string)
    requires ListsClosed(s) && ValidCreateCommandRequest(req) && t in s.tasks && id !in s.commands
    requires d == id || (d in s.commands && CommandCore(s, d))
    ensures CommandCore(CommandAdded(s, t, req, id), d)
  {
    var r := CommandAdded(s, t, req, id);
    if d == id {
      assert CommandIds(r, t) == CommandIds(s, t) + [id];
    } else {
      var u := s.commands[d].taskId;
      assert d in CommandIds(r, u) by {
        if u == t {
          assert CommandIds(r, t) == CommandIds(s, t) + [id];
        }
      }
    }
  }

  lemma CommandAddedDerived(s: Store, t: string, req: CreateCommandRequest, id: string)
    requires ListsClosed(s) && AllProjectsCore(s) && AllTasksCore(s) && AllDerived(s) && AllCounted(s)
    requires t in s.tasks && id !in s.commands
    ensures ListsClosed(CommandAdded(s, t, req, id))
    ensures forall u {:trigger Derived(CommandAdded(s, t, req, id), u)} ::
              u in CommandAdded(s, t, req, id).tasks && u != t ==> Derived(CommandAdded(s, t, req, id), u)
    ensures forall q {:trigger Counted(CommandAdded(s, t, req, id), q)} ::
              q in CommandAdded(s, t, req, id).projects ==> Counted(CommandAdded(s, t, req, id), q)
  {
    var r := CommandAdded(s, t, req, id);
    forall u | u in r.tasks && u != t ensures Derived(r, u) {
      assert Derived(s, u);
      assert CommandIds(r, u) == CommandIds(s, u);
      StatusesFrame(s.commands, r.commands, CommandIds(s, u));
    }
    forall q | q in r.projects ensures Counted(r, q) {
      assert Counted(s, q) && ProjectCore(s, q);
      var ids := TaskIds(s, q);
      assert TaskIds(r, q) == ids;
      CountActiveFrame(s.tasks, r.tasks, ids);
    }
  }

  // ---------------------------------------------------------------------------
  // The advance loops

  /** `_advance_command_locked` run on each of `ids` in order: the loop of
      `_advance_task_commands_locked` and of `_advance_all_commands_locked`. */
  function AdvanceEach(s: Store, ids: seq<string>, now: int): (r: Store)
    requires Inv(s)
    ensures Inv(r) && SameLayout(s, r)
    decreases |ids|
  {
    if ids == [] then s
    else
      var mid := AdvanceEach(s, ids[..|ids| - 1], now);
      AdvanceOneKeepsInv(mid, ids[|ids| - 1], now);
      SameLayoutTrans(s, mid, AdvanceOne(mid, ids[|ids| - 1], now));
      AdvanceOne(mid, ids[|ids| - 1], now)
  }

  /** Advancing a list without repetitions advances each listed command exactly
      once and leaves every other command as it was. */
  lemma {:induction false} AdvanceEachCommands(s: Store, ids: seq<string>, now: int)
    requires Inv(s) && Distinct(ids)
    ensures forall d :: d in s.commands ==>
              AdvanceEach(s, ids, now).commands[d] == if d in ids then Advanced(s.commands[d], now) else s.commands[d]
    decreases |ids|
  {
    if ids != [] {
      var pre, l := ids[..|ids| - 1], ids[|ids| - 1];
      assert Distinct(pre) && l !in pre;
      assert ids == pre + [l];
      AdvanceEachCommands(s, pre, now);
      var mid := AdvanceEach(s, pre, now);
      AdvanceOneKeepsInv(mid, l, now);
    }
  }

  /** `_advance_task_commands_locked` run for each of the tasks `tids` in order: the
      loop of `list_tasks` and `get_project_detail`. */
  function AdvanceTasks(s: Store, tids: seq<string>, now: int): (r: Store)
    requires Inv(s)
    ensures Inv(r) && SameLayout(s, r)
    decreases |tids|
  {
    if tids == [] then s
    else
      var mid := AdvanceTasks(s, tids[..|tids| - 1], now);
      SameLayoutTrans(s, mid, AdvanceEach(mid, CommandIds(mid, tids[|tids| - 1]), now));
      AdvanceEach(mid, CommandIds(mid, tids[|tids| - 1]), now)
  }

  /** A command is on task `u`'s list exactly when it belongs to `u`. */
  lemma ListedIffOwned(s: Store, d: string, u: string)
    requires Inv(s) && d in s.commands
    ensures d in CommandIds(s, u) <==> s.commands[d].taskId == u
  {
    assert CommandCore(s, d);
    if u in s.tasks {
      assert TaskCore(s, u);
      if s.commands[d].taskId != u {
        CommandOnOwnList(s, d, u);
      }
    }
  }

  /** The command lists of the tasks of a store are without repetitions. */
  lemma ListsDistinct(s: Store, u: string)
    requires Inv(s)
    ensures Distinct(CommandIds(s, u))
  {
    if u in s.tasks {
      assert TaskCore(s, u);
      CommandIdsDistinct(s, u);
    }
  }

  /** Advancing the tasks `tids` (no task twice) advances every command of those
      tasks exactly once and leaves every other command as it was. */
  lemma {:induction false} AdvanceTasksCommands(s: Store, tids: seq<string>, now: int)
    requires Inv(s) && Distinct(tids)
    ensures forall d :: d in s.commands ==>
              AdvanceTasks(s, tids, now).commands[d]
              == if s.commands[d].taskId in tids then Advanced(s.commands[d], now) else s.commands[d]
    decreases |tids|
  {
    if tids != [] {
      var pre, l := tids[..|tids| - 1], tids[|tids| - 1];
      assert Distinct(pre) && l !in pre;
      assert tids == pre + [l];
      AdvanceTasksCommands(s, pre, now);
      var mid := AdvanceTasks(s, pre, now);
      ListsDistinct(mid, l);
      AdvanceEachCommands(mid, CommandIds(mid, l), now);
      forall d | d in s.commands
        ensures AdvanceTasks(s, tids, now).commands[d]
                == if s.commands[d].taskId in tids then Advanced(s.commands[d], now) else s.commands[d]
      {
        ListedIffOwned(mid, d, l);
        AdvanceTaskStep(s.commands[d], mid.commands[d], AdvanceTasks(s, tids, now).commands[d], pre, l, now);
      }
    }
  }

  /** One step of the task loop, for one command `c0` that became `c1` over the
      tasks before `l` and `c2` after advancing the commands of `l`. */
  lemma AdvanceTaskStep(c0: Command, c1: Command, c2: Command, pre: seq<string>, l: string, now: int)
    requires l !in pre
    requires c1 == if c0.taskId in pre then Advanced(c0, now) else c0
    requires c2 == if c1.taskId == l then Advanced(c1, now) else c1
    ensures c2 == if c0.taskId in pre + [l] then Advanced(c0, now) else c0
  {
    assert Advanced(c0, now).taskId == c0.taskId;
  }

  // ---------------------------------------------------------------------------
  // What the read operations return

  /** The records of the commands `ids`, in list order. */
  function CommandsOf(s: Store, ids: seq<string>): (r: seq<Command>)
    requires forall id :: id in ids ==> id in s.commands
    ensures |r| == |ids| && forall i :: 0 <= i < |ids| ==> r[i] == s.commands[ids[i]]
  {
    seq(|ids|, i requires 0 <= i < |ids| => s.commands[ids[i]])
  }

  /** The records of the tasks `ids`, in list order. */
  function TasksOf(s: Store, ids: seq<string>): (r: seq<Task>)
    requires forall id :: id in ids ==> id in s.tasks
    ensures |r| == |ids| && forall i :: 0 <= i < |ids| ==> r[i] == s.tasks[ids[i]]
  {
    seq(|ids|, i requires 0 <= i < |ids| => s.tasks[ids[i]])
  }

  /** The records of the projects `ids`, in list order. */
  function ProjectsOf(s: Store, ids: seq<string>): (r: seq<Project>)
    requires forall id :: id in ids ==> id in s.projects
    ensures |r| == |ids| && forall i :: 0 <= i < |ids| ==> r[i] == s.projects[ids[i]]
  {
    seq(|ids|, i requires 0 <= i < |ids| => s.projects[ids[i]])
  }

  function TaskDetailOf(s: Store, t: string): TaskDetail
    requires ListsClosed(s) && t in s.tasks
  {
    TaskDetail(s.tasks[t], CommandsOf(s, CommandIds(s, t)))
  }

  /** The body of `get_project_detail` after its advance loop. */
  function ProjectDetailOf(s: Store, p: string): ProjectDetail
    requires ListsClosed(s) && p in s.projects
  {
    var tids := TaskIds(s, p);
    ProjectDetail(s.projects[p], seq(|tids|, i requires 0 <= i < |tids| => TaskDetailOf(s, tids[i])))
  }

  /** Under the invariant no model validator of a stored entity can fail: counts
      are non-negative, success and failure never exceed the command count, the
      active count never exceeds the task count, and a command's start is never
      after its finish. */
  lemma StoredEntitiesValid(s: Store)
    requires Inv(s)
    ensures forall p :: p in s.projects ==> ValidProject(s.projects[p])
    ensures forall t :: t in s.tasks ==> ValidTask(s.tasks[t])
    ensures forall c :: c in s.commands ==> ValidCommand(s.commands[c])
  {
    forall p | p in s.projects ensures ValidProject(s.projects[p]) {
      assert ProjectCore(s, p) && Counted(s, p);
    }
    forall t | t in s.tasks ensures ValidTask(s.tasks[t]) {
      TaskValid(s, t);
    }
    forall c | c in s.commands ensures ValidCommand(s.commands[c]) {
      assert CommandCore(s, c);
      var t := s.commands[c].taskId;
      assert TaskCore(s, t);
      var ids := CommandIds(s, t);
      var i :| 0 <= i < |ids| && ids[i] == c;
    }
  }

  lemma TaskValid(s: Store, t: string)
    requires ListsClosed(s) && t in s.tasks && TaskCore(s, t)
    ensures ValidTask(s.tasks[t])
  {
    OutcomesBounded(s.commands, CommandIds(s, t));
  }

  /** The project snapshot passes its relation validators: every nested task belongs
      to the project and every nested command to its task and project; it lists
      exactly `task_count` tasks, each with exactly `command_count` commands. */
  lemma SnapshotValid(s: Store, p: string)
    requires Inv(s) && p in s.projects
    ensures ValidProjectDetail(ProjectDetailOf(s, p))
    ensures |ProjectDetailOf(s, p).tasks| == ProjectDetailOf(s, p).project.taskCount
    ensures forall i :: 0 <= i < |ProjectDetailOf(s, p).tasks| ==>
              |ProjectDetailOf(s, p).tasks[i].commands| == ProjectDetailOf(s, p).tasks[i].task.commandCount
  {
    var d := ProjectDetailOf(s, p);
    var tids := TaskIds(s, p);
    assert ProjectCore(s, p) && Counted(s, p);
    forall i | 0 <= i < |d.tasks|
      ensures ValidTaskDetail(d.tasks[i]) && d.tasks[i].task.projectId == d.project.id
      ensures |d.tasks[i].commands| == d.tasks[i].task.commandCount
    {
      var t := tids[i];
      assert TaskCore(s, t);
      TaskValid(s, t);
      var ids := CommandIds(s, t);
      forall k | 0 <= k < |ids| ensures s.commands[ids[k]].taskId == t && s.commands[ids[k]].projectId == s.tasks[t].projectId {
        assert CommandCore(s, ids[k]);
      }
    }
  }

  // ---------------------------------------------------------------------------
  // The orchestrator object

  /** `InMemoryOrchestrator`: the dictionaries are fields that the methods update in
      place. Every public method is one locked block and takes the instant `now` of
      its clock reads, and fresh ids as random hex suffixes. */
  class InMemoryOrchestrator {
    var projects: map<string, Project>
    var projectOrder: seq<string>
    var tasks: map<string, Task>
    var commands: map<string, Command>
    var commandOrder: seq<string>
    var projectTasks: map<string, seq<string>>
    var taskCommands: map<string, seq<string>>
    var taskSequence: map<string, int>

    function State(): Store
      reads this
    {
      Store(projects, projectOrder, tasks, commands, commandOrder, projectTasks, taskCommands, taskSequence)
    }

    ghost predicate Valid()
      reads this
    {
      Inv(State())
    }

    constructor ()
      ensures Valid() && State() == EmptyStore
    {
      projects, projectOrder, tasks, commands, commandOrder := map[], [], map[], map[], [];
      projectTasks, taskCommands, taskSequence := map[], map[], map[];
    }

    /** `reset`: every dictionary cleared. */
    method Reset()
      modifies this
      ensures Valid() && State() == EmptyStore
    {
      projects, projectOrder, tasks, commands, commandOrder := map[], [], map[], map[], [];
      projectTasks, taskCommands, taskSequence := map[], map[], map[];
    }

    /** `_recompute_project_active_count_locked`: the generator sum is a loop. */
    method RecomputeActiveCount(p: string)
      requires ListsClosed(State())
      modifies this
      ensures State() == RecomputeActive(old(State()), p)
    {
      if p !in projects {
        return;
      }
      var ids := if p in projectTasks then projectTasks[p] else [];
      assert ids == TaskIds(State(), p);
      var n := 0;
      var i := 0;
      while i < |ids|
        invariant 0 <= i <= |ids|
        invariant n == CountActive(tasks, ids[..i])
      {
        assert ids[..i + 1][..i] == ids[..i];
        if IsActiveTaskStatus(tasks[ids[i]].status) {
          n := n + 1;
        }
        i := i + 1;
      }
      assert ids[..i] == ids;
      projects := projects[p := projects[p].(activeTaskCount := n)];
    }

    /** `_refresh_task_and_project_state_locked`. */
    method RefreshTask(t: string)
      requires ListsClosed(State())
      modifies this
      ensures State() == Refresh(old(State()), t)
    {
      if t !in tasks {
        return;
      }
      var ids := if t in taskCommands then taskCommands[t] else [];
      tasks := tasks[t := tasks[t].(status := DeriveTaskStatus(StatusesOf(commands, ids)))];
      RecomputeActiveCount(tasks[t].projectId);
    }

    /** `_advance_command_locked`, which keeps the invariant. */
    method AdvanceCommand(c: string, now: int)
      requires Valid()
      modifies this
      ensures Valid() && State() == AdvanceOne(old(State()), c, now)
    {
      AdvanceOneKeepsInv(State(), c, now);
      if c in commands {
        assert CommandCore(State(), c);
      }
      StepCommand(c, now);
    }

    /** The body of `_advance_command_locked`, which needs of the store only that the
        command's task exists. */
    method StepCommand(c: string, now: int)
      requires ListsClosed(State()) && (c in commands ==> commands[c].taskId in tasks)
      modifies this
      ensures State() == AdvanceOne(old(State()), c, now)
    {
      ghost var s0 := State();
      if c !in commands {
        return;
      }
      var cmd := commands[c];
      var next := Advanced(cmd, now);
      if cmd.status.IsTerminal() || cmd.status == CommandStatus.WaitingApproval {
        return;
      }
      if cmd.status == Queued {
        commands := commands[c := next];
        RefreshTask(cmd.taskId);
        return;
      }
      var started := if cmd.startedAt.Some? then cmd.startedAt.value else now;
      if now - started < GateMicros {
        assert next == cmd;
        return;
      }
      FinishCommand(c, now);
    }

    /** The last part of `_advance_command_locked`: a running command whose 200 ms
        have passed gets its outcome from its text, its task's matching counter is
        bumped and the task refreshed. */
    method FinishCommand(c: string, now: int)
      requires ListsClosed(State()) && c in commands && commands[c].status == Running
      requires commands[c].taskId in tasks
      requires now - (if commands[c].startedAt.Some? then commands[c].startedAt.value else now) >= GateMicros
      modifies this
      ensures State() == AdvanceOne(old(State()), c, now)
    {
      ghost var s0 := State();
      var cmd := commands[c];
      var t := cmd.taskId;
      var tk := tasks[t];
      if MentionsFailure(cmd.text) {
        tk := tk.(failedCount := tk.failedCount + 1);
      } else {
        tk := tk.(successCount := tk.successCount + 1);
      }
      AdvanceFinishStep(s0, c, now, tk);
      commands := commands[c := Advanced(cmd, now)];
      tasks := tasks[t := tk];
      RefreshTask(t);
    }

    /** `_advance_task_commands_locked`. */
    method AdvanceTaskCommands(t: string, now: int)
      requires Valid()
      modifies this
      ensures Valid() && State() == AdvanceEach(old(State()), CommandIds(old(State()), t), now)
    {
      var ids := if t in taskCommands then taskCommands[t] else [];
      AdvanceLoop(ids, now);
    }

    /** `_advance_all_commands_locked`: the key list is copied before the loop. */
    method AdvanceAllCommands(now: int)
      requires Valid()
      modifies this
      ensures Valid() && State() == AdvanceEach(old(State()), old(commandOrder), now)
    {
      AdvanceLoop(commandOrder, now);
    }

    /** The loop both advance helpers run over a list of command ids. */
    method AdvanceLoop(ids: seq<string>, now: int)
      requires Valid()
      modifies this
      ensures Valid() && State() == AdvanceEach(old(State()), ids, now)
    {
      ghost var s0 := State();
      var i := 0;
      while i < |ids|
        invariant 0 <= i <= |ids|
        invariant Valid() && State() == AdvanceEach(s0, ids[..i], now)
      {
        assert ids[..i + 1][..i] == ids[..i];
        AdvanceCommand(ids[i], now);
        i := i + 1;
      }
      assert ids[..i] == ids;
    }

    /** The loop of `list_tasks` and `get_project_detail` over a project's tasks. */
    method AdvanceTasksLoop(tids: seq<string>, now: int)
      requires Valid()
      modifies this
      ensures Valid() && State() == AdvanceTasks(old(State()), tids, now)
    {
      ghost var s0 := State();
      var i := 0;
      while i < |tids|
        invariant 0 <= i <= |tids|
        invariant Valid() && State() == AdvanceTasks(s0, tids[..i], now)
      {
        assert tids[..i + 1][..i] == tids[..i];
        AdvanceTaskCommands(tids[i], now);
        i := i + 1;
      }
      assert tids[..i] == tids;
    }

    /** `create_project`; `hex` is the random part of the new id. */
    method CreateProject(req: CreateProjectRequest, hex: string) returns (r: Project)
      requires Valid() && ValidCreateProjectRequest(req) && IsHexSuffix(hex) && NewId("proj", hex) !in projects
      modifies this
      ensures Valid() && State() == CreateProjectStore(old(State()), req, NewId("proj", hex))
      ensures r.id == NewId("proj", hex) && r == projects[r.id]
      ensures r.name == req.name && r.status == Active && r.taskCount == 0 && r.activeTaskCount == 0
    {
      CreateProjectKeepsInv(State(), req, NewId("proj", hex));
      r := NewProject(NewId("proj", hex), req.name).(description := req.description, owner := req.owner, tags := req.tags);
      projects := projects[r.id := r];
      projectOrder := projectOrder + [r.id];
    }

    /** `list_projects`: every command is advanced, then the projects are listed in
        insertion order. */
    method ListProjects(now: int) returns (r: seq<Project>)
      requires Valid()
      modifies this
      ensures Valid() && State() == AdvanceEach(old(State()), old(commandOrder), now)
      ensures r == ProjectsOf(State(), projectOrder)
    {
      AdvanceAllCommands(now);
      r := ProjectsOf(State(), projectOrder);
    }

    /** `create_task`: 404 when the project is missing. */
    method CreateTask(p: string, req: CreateTaskRequest, hex: string) returns (r: Result<Task>)
      requires Valid() && ValidCreateTaskRequest(req) && IsHexSuffix(hex) && NewId("task", hex) !in tasks
      modifies this
      ensures Valid()
      ensures r.HttpError? <==> old(p !in projects)
      ensures r.HttpError? ==> r == HttpError(404, "project not found") && State() == old(State())
      ensures r.Ok? ==> State() == CreateTaskStore(old(State()), p, req, NewId("task", hex))
                        && r.value == tasks[NewId("task", hex)]
    {
      if p !in projects {
        return HttpError(404, "project not found");
      }
      var id := NewId("task", hex);
      ghost var s0 := State();
      CreateTaskKeepsInv(s0, p, req, id);
      RefreshShape(TaskAdded(s0, p, req, id), id);
      AddTask(p, req, id);
      r := Ok(tasks[id]);
    }

    /** The body of `create_task` once the project is found. */
    method AddTask(p: string, req: CreateTaskRequest, id: string)
      requires ListsClosed(State()) && p in projects && id !in tasks
      modifies this
      ensures State() == CreateTaskStore(old(State()), p, req, id)
    {
      ghost var s0 := State();
      var tk := NewTask(id, p, req.title).(
        description := req.description, priority := req.priority, assigneeAgent := req.assigneeAgent);
      tasks := tasks[id := tk];
      projectTasks := projectTasks[p := (if p in projectTasks then projectTasks[p] else []) + [id]];
      projects := projects[p := projects[p].(taskCount := projects[p].taskCount + 1)];
      assert State() == TaskAdded(s0, p, req, id);
      RefreshTask(id);
    }

    /** `list_tasks`: 404 when the project is missing; otherwise the commands of each
        of its tasks are advanced and its tasks listed. */
    method ListTasks(p: string, now: int) returns (r: Result<seq<Task>>)
      requires Valid()
      modifies this
      ensures Valid()
      ensures r.HttpError? <==> old(p !in projects)
      ensures r.HttpError? ==> r == HttpError(404, "project not found") && State() == old(State())
      ensures r.Ok? ==> State() == AdvanceTasks(old(State()), TaskIds(old(State()), p), now)
                        && r.value == TasksOf(State(), TaskIds(State(), p))
    {
      if p !in projects {
        return HttpError(404, "project not found");
      }
      var tids := if p in projectTasks then projectTasks[p] else [];
      AdvanceTasksLoop(tids, now);
      r := Ok(TasksOf(State(), tids));
    }

    /** `get_task`: 404 when missing; otherwise its commands are advanced first. */
    method GetTask(t: string, now: int) returns (r: Result<Task>)
      requires Valid()
      modifies this
      ensures Valid()
      ensures r.HttpError? <==> old(t !in tasks)
      ensures r.HttpError? ==> r == HttpError(404, "task not found") && State() == old(State())
      ensures r.Ok? ==> State() == AdvanceEach(old(State()), CommandIds(old(State()), t), now)
                        && t in tasks && r.value == tasks[t]
    {
      if t !in tasks {
        return HttpError(404, "task not found");
      }
      AdvanceTaskCommands(t, now);
      r := Ok(tasks[t]);
    }

    /** `create_command`: 404 when the task is missing; otherwise the command gets the
        task's next sequence number and waits for approval iff approval is required. */
    method CreateCommand(t: string, req: CreateCommandRequest, hex: string) returns (r: Result<Command>)
      requires Valid() && ValidCreateCommandRequest(req) && IsHexSuffix(hex) && NewId("cmd", hex) !in commands
      modifies this
      ensures Valid()
      ensures r.HttpError? <==> old(t !in tasks)
      ensures r.HttpError? ==> r == HttpError(404, "task not found") && State() == old(State())
      ensures r.Ok? ==> State() == CreateCommandStore(old(State()), t, req, NewId("cmd", hex))
                        && r.value == commands[NewId("cmd", hex)]
      ensures r.Ok? ==> r.value.sequence == old(Sequence(State(), t)) + 1
                        && r.value.status == (if req.requiresApproval then CommandStatus.WaitingApproval else Queued)
    {
      if t !in tasks {
        return HttpError(404, "task not found");
      }
      var id := NewId("cmd", hex);
      ghost var s0 := State();
      CreateCommandKeepsInv(s0, t, req, id);
      RefreshShape(CommandAdded(s0, t, req, id), t);
      AddCommand(t, req, id);
      RefreshTask(t);
      r := Ok(commands[id]);
    }

    /** The insertion step of `create_command`: the next sequence number is taken and
        the command is stored and appended to the order and to its task's list. */
    method AddCommand(t: string, req: CreateCommandRequest, id: string)
      requires t in tasks
      modifies this
      ensures State() == CommandAdded(old(State()), t, req, id)
    {
      var cmd := CommandFor(State(), t, req, id);
      taskSequence := taskSequence[t := cmd.sequence];
      var tk := tasks[t];
      commands := commands[id := cmd];
      commandOrder := commandOrder + [id];
      taskCommands := taskCommands[t := (if t in taskCommands then taskCommands[t] else []) + [id]];
      tasks := tasks[t := tk.(commandCount := tk.commandCount + 1, lastCommandId := Some(id))];
    }

    /** `list_commands`: 404 when the task is missing; otherwise its commands are
        advanced and listed in sequence order. */
    method ListCommands(t: string, now: int) returns (r: Result<seq<Command>>)
      requires Valid()
      modifies this
      ensures Valid()
      ensures r.HttpError? <==> old(t !in tasks)
      ensures r.HttpError? ==> r == HttpError(404, "task not found") && State() == old(State())
      ensures r.Ok? ==> State() == AdvanceEach(old(State()), CommandIds(old(State()), t), now)
                        && r.value == CommandsOf(State(), CommandIds(State(), t))
    {
      if t !in tasks {
        return HttpError(404, "task not found");
      }
      AdvanceTaskCommands(t, now);
      r := Ok(CommandsOf(State(), if t in taskCommands then taskCommands[t] else []));
    }

    /** `get_command`: 404 when missing; otherwise that one command is advanced. */
    method GetCommand(c: string, now: int) returns (r: Result<Command>)
      requires Valid()
      modifies this
      ensures Valid()
      ensures r.HttpError? <==> old(c !in commands)
      ensures r.HttpError? ==> r == HttpError(404, "command not found") && State() == old(State())
      ensures r.Ok? ==> State() == AdvanceOne(old(State()), c, now) && c in commands
                        && r.value == Advanced(old(commands[c]), now)
    {
      if c !in commands {
        return HttpError(404, "command not found");
      }
      AdvanceOneKeepsInv(State(), c, now);
      AdvanceCommand(c, now);
      r := Ok(commands[c]);
    }

    /** `approve_command`: 404 when missing, 409 when no approval is required or the
        command is not waiting for one; otherwise it is queued with its approver. */
    method ApproveCommand(c: string, approver: string) returns (r: Result<Command>)
      requires Valid()
      modifies this
      ensures Valid()
      ensures r.HttpError? ==> State() == old(State())
      ensures old(c !in commands) ==> r == HttpError(404, "command not found")
      ensures old(c in commands && !commands[c].requiresApproval) ==>
                r == HttpError(409, "command does not require approval")
      ensures old(c in commands && commands[c].requiresApproval && commands[c].status != CommandStatus.WaitingApproval) ==>
                r == HttpError(409, "command is not waiting approval")
      ensures r.Ok? <==> old(c in commands && commands[c].status == CommandStatus.WaitingApproval)
      ensures r.Ok? ==> State() == ApproveStore(old(State()), c, approver) && r.value == commands[c]
                        && r.value.status == Queued && r.value.approvedBy == Some(approver)
    {
      if c !in commands {
        return HttpError(404, "command not found");
      }
      var cmd := commands[c];
      assert CommandCore(State(), c);
      if !cmd.requiresApproval {
        return HttpError(409, "command does not require approval");
      }
      if cmd.status != CommandStatus.WaitingApproval {
        return HttpError(409, "command is not waiting approval");
      }
      ghost var s0 := State();
      ApproveKeepsInv(s0, c, approver);
      assert CommandCore(s0, c);
      RefreshShape(s0.(commands := s0.commands[c := cmd.(approvedBy := Some(approver), status := Queued)]), cmd.taskId);
      QueueApproved(c, approver);
      r := Ok(commands[c]);
    }

    /** The approval itself: the approver is recorded, the command queued and its task
        refreshed. */
    method QueueApproved(c: string, approver: string)
      requires ListsClosed(State()) && c in commands
      modifies this
      ensures State() == ApproveStore(old(State()), c, approver)
    {
      var cmd := commands[c];
      commands := commands[c := cmd.(approvedBy := Some(approver), status := Queued)];
      RefreshTask(cmd.taskId);
    }

    /** `get_project_detail`: 404 when missing; otherwise the commands of each of its
        tasks are advanced and the nested snapshot is built. */
    method GetProjectDetail(p: string, now: int) returns (r: Result<ProjectDetail>)
      requires Valid()
      modifies this
      ensures Valid()
      ensures r.HttpError? <==> old(p !in projects)
      ensures r.HttpError? ==> r == HttpError(404, "project not found") && State() == old(State())
      ensures r.Ok? ==> State() == AdvanceTasks(old(State()), TaskIds(old(State()), p), now)
                        && p in projects && r.value == ProjectDetailOf(State(), p)
                        && ValidProjectDetail(r.value)
    {
      if p !in projects {
        return HttpError(404, "project not found");
      }
      var tids := if p in projectTasks then projectTasks[p] else [];
      AdvanceTasksLoop(tids, now);
      SnapshotValid(State(), p);
      r := Ok(ProjectDetailOf(State(), p));
    }
  }
}
