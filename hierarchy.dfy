/** The entities of the project -> task -> command hierarchy, their status enums,
    the field constraints and model validators of the server's data model, and the
    id format of freshly created entities. Timestamps are integer instants
    (microseconds); `created_at`, `updated_at` and the free-form `metadata` map are
    not part of this model. */
module Hierarchy {
  import opened Text

  datatype Option<+T> = None | Some(value: T)

  datatype ProjectStatus = Active | Paused | Archived
  {
    function Name(): string
    {
      match this
      case Active => "active"
      case Paused => "paused"
      case Archived => "archived"
    }
  }

  datatype TaskStatus = Todo | InProgress | WaitingApproval | Blocked | Done | Failed | Canceled
  {
    function Name(): string
    {
      match this
      case Todo => "todo"
      case InProgress => "in_progress"
      case WaitingApproval => "waiting_approval"
      case Blocked => "blocked"
      case Done => "done"
      case Failed => "failed"
      case Canceled => "canceled"
    }
  }

  datatype CommandStatus = Queued | Running | Success | Failed | WaitingApproval | Canceled
  {
    function Name(): string
    {
      match this
      case Queued => "queued"
      case Running => "running"
      case Success => "success"
      case Failed => "failed"
      case WaitingApproval => "waiting_approval"
      case Canceled => "canceled"
    }

    /** success, failed and canceled: no further transition leaves them. */
    predicate IsTerminal()
    {
      this == Success || this == CommandStatus.Failed || this == CommandStatus.Canceled
    }
  }

  datatype CommandSource = User | Agent | Automation | System

  datatype Command = Command(
    id: string,
    projectId: string,
    taskId: string,
    sequence: int,
    text: string,
    source: CommandSource,
    status: CommandStatus,
    outputSummary: Option<string>,
    errorMessage: Option<string>,
    requestedBy: Option<string>,
    requiresApproval: bool,
    approvedBy: Option<string>,
    startedAt: Option<int>,
    finishedAt: Option<int>)

  datatype Task = Task(
    id: string,
    projectId: string,
    title: string,
    description: Option<string>,
    status: TaskStatus,
    priority: int,
    assigneeAgent: Option<string>,
    commandCount: int,
    successCount: int,
    failedCount: int,
    lastCommandId: Option<string>)

  datatype Project = Project(
    id: string,
    name: string,
    description: Option<string>,
    status: ProjectStatus,
    owner: Option<string>,
    taskCount: int,
    activeTaskCount: int,
    tags: seq<string>)

  /** A task together with its commands, as the project snapshot returns it. */
  datatype TaskDetail = TaskDetail(task: Task, commands: seq<Command>)

  /** A project together with its task details. */
  datatype ProjectDetail = ProjectDetail(project: Project, tasks: seq<TaskDetail>)

  /** The field constraints of a command (`sequence >= 1`, non-empty `text`) and its
      timestamp validator: when both instants are present the start is not later
      than the finish. */
  predicate ValidCommand(c: Command)
  {
    && c.sequence >= 1
    && |c.text| >= 1
    && (c.startedAt.Some? && c.finishedAt.Some? ==> c.startedAt.value <= c.finishedAt.value)
  }

  /** The field constraints of a task and its count validator. */
  predicate ValidTask(t: Task)
  {
    && |t.title| >= 1
    && 1 <= t.priority <= 5
    && t.commandCount >= 0 && t.successCount >= 0 && t.failedCount >= 0
    && t.successCount + t.failedCount <= t.commandCount
  }

  /** The field constraints of a project and its count validator. */
  predicate ValidProject(p: Project)
  {
    && |p.name| >= 1
    && p.taskCount >= 0 && p.activeTaskCount >= 0
    && p.activeTaskCount <= p.taskCount
  }

  /** The relation validator of a task detail: every nested command belongs to the
      task and to the task's project. */
  predicate ValidTaskDetail(d: TaskDetail)
  {
    && ValidTask(d.task)
    && forall i :: 0 <= i < |d.commands| ==>
         d.commands[i].taskId == d.task.id && d.commands[i].projectId == d.task.projectId
  }

  /** The relation validator of a project detail: every nested task belongs to the
      project. */
  predicate ValidProjectDetail(d: ProjectDetail)
  {
    && ValidProject(d.project)
    && forall i :: 0 <= i < |d.tasks| ==> ValidTaskDetail(d.tasks[i]) && d.tasks[i].task.projectId == d.project.id
  }

  /** The 12 lower-case hex digits that `uuid4().hex[:12]` yields. */
  predicate IsHexSuffix(h: string)
  {
    |h| == 12 && forall i :: 0 <= i < |h| ==> '0' <= h[i] <= '9' || 'a' <= h[i] <= 'f'
  }

  /** `new_id(prefix)`: the prefix, an underscore and a random hex suffix, which is
      a parameter here. */
  function NewId(prefix: string, hex: string): (id: string)
    requires IsHexSuffix(hex)
    ensures StartsWith(id, prefix + "_")
    ensures |id| == |prefix| + 13
    ensures id[|prefix| + 1..] == hex
  {
    prefix + "_" + hex
  }

  /** Two ids are equal only if their prefixes and their suffixes are: ids of
      different kinds ("proj", "task", "cmd") never collide. */
  lemma NewIdInjective(p1: string, h1: string, p2: string, h2: string)
    requires IsHexSuffix(h1) && IsHexSuffix(h2)
    ensures NewId(p1, h1) == NewId(p2, h2) <==> p1 == p2 && h1 == h2
  {
    if NewId(p1, h1) == NewId(p2, h2) {
      var id := NewId(p1, h1);
      assert |p1| == |p2|;
      assert p1 == id[..|p1|] == p2;
    }
  }

  /** A command as the server's model builds it from the required fields alone:
      source `user`, status `queued`, no approval needed, every optional absent. */
  function NewCommand(id: string, projectId: string, taskId: string, sequence: int, text: string): (c: Command)
    ensures c.status == Queued && c.source == User && !c.requiresApproval
    ensures ValidCommand(c) <==> sequence >= 1 && |text| >= 1
    ensures c.id == id && c.projectId == projectId && c.taskId == taskId
    ensures c.sequence == sequence && c.text == text
  {
    Command(id, projectId, taskId, sequence, text, User, Queued,
            None, None, None, false, None, None, None)
  }

  /** A task with the model's defaults: status `todo`, priority 3, all counts 0. */
  function NewTask(id: string, projectId: string, title: string): (t: Task)
    ensures t.status == Todo && t.priority == 3
    ensures t.commandCount == 0 && t.successCount == 0 && t.failedCount == 0 && t.lastCommandId == None
    ensures ValidTask(t) <==> |title| >= 1
    ensures t.id == id && t.projectId == projectId && t.title == title
  {
    Task(id, projectId, title, None, Todo, 3, None, 0, 0, 0, None)
  }

  /** A project with the model's defaults: status `active`, both counts 0, no tags. */
  function NewProject(id: string, name: string): (p: Project)
    ensures p.status == Active && p.taskCount == 0 && p.activeTaskCount == 0 && p.tags == []
    ensures ValidProject(p) <==> |name| >= 1
    ensures p.id == id && p.name == name
  {
    Project(id, name, None, Active, None, 0, 0, [])
  }
}
