/** The command feed of the mobile command center: the client-side controller that
    submits a command, polls its status with an edge-triggered event log, stops at
    approval or a final status, approves a waiting command and re-arms polling, and
    keeps the task selection when the task list reloads.

    The asynchronous calls to the control center are inputs: each step takes the
    outcome its awaited call settled with. A polling effect is identified by the
    `generation` it was started under; the effect is restarted, and the old one
    cancelled, exactly when `pollingCommandId` changes value. */
module Feed {
  import opened Text
  import opened Hierarchy
  import opened Api

  // ---------------------------------------------------------------------------
  // Tones

  datatype FeedEventTone = NeutralTone | SuccessTone | WarningTone | DangerTone

  /** `toneClass`: the card classes of an event. */
  function ToneClass(tone: FeedEventTone): string
  {
    match tone
    case SuccessTone => "border-success/35 bg-success/10"
    case WarningTone => "border-warning/35 bg-warning/10"
    case DangerTone => "border-danger/35 bg-danger/10"
    case NeutralTone => "border-border bg-card"
  }

  /** Every tone has its own classes. */
  lemma ToneClassesDistinct(a: FeedEventTone, b: FeedEventTone)
    ensures ToneClass(a) == ToneClass(b) <==> a == b
  {
    if ToneClass(a) == ToneClass(b) {
      assert ToneClass(a)[7] == ToneClass(b)[7];
    }
  }

  /** `eventToneByStatus`: the tone of an event about a command status. */
  function EventTone(status: CommandStatus): (r: FeedEventTone)
    ensures r == SuccessTone <==> status == CommandStatus.Success
    ensures r == WarningTone <==> status == CommandStatus.WaitingApproval
    ensures r == DangerTone <==> status == CommandStatus.Failed || status == CommandStatus.Canceled
    ensures r == NeutralTone <==> status == CommandStatus.Queued || status == CommandStatus.Running
  {
    match status
    case Success => SuccessTone
    case WaitingApproval => WarningTone
    case Failed | Canceled => DangerTone
    case Queued | Running => NeutralTone
  }

  /** `FINAL_STATUSES`. */
  const FinalStatuses: seq<CommandStatus> := [CommandStatus.Success, CommandStatus.Failed, CommandStatus.Canceled]

  /** A poll observing this status stops polling. */
  predicate StopsPolling(status: CommandStatus)
  {
    status == CommandStatus.WaitingApproval || status in FinalStatuses
  }

  /** The client's final statuses are the server's terminal ones, and polling goes on
      exactly while the command is queued or running. */
  lemma FinalStatusesAreTerminal(status: CommandStatus)
    ensures status in FinalStatuses <==> status.IsTerminal()
    ensures !StopsPolling(status) <==> status == CommandStatus.Queued || status == CommandStatus.Running
  {
  }

  // ---------------------------------------------------------------------------
  // The event log

  /** An entry of the feed; its random id and creation time are not modelled. */
  datatype FeedEvent = FeedEvent(title: string, body: string, tone: FeedEventTone)

  const MaxEvents: nat := 12

  /** `pushEvent`: the new event first, then the previous ones, cut to twelve. */
  function Pushed(events: seq<FeedEvent>, e: FeedEvent): (r: seq<FeedEvent>)
    ensures |r| == if |events| < MaxEvents then |events| + 1 else MaxEvents
    ensures r[0] == e && r[1..] == events[..|r| - 1]
  {
    ([e] + events)[..if |events| < MaxEvents then |events| + 1 else MaxEvents]
  }

  /** Below the cap nothing is dropped; at the cap exactly the oldest entries beyond
      twelve go, and the survivors keep their order. */
  lemma PushedDropsOnlyOldest(events: seq<FeedEvent>, e: FeedEvent)
    ensures |events| < MaxEvents ==> Pushed(events, e) == [e] + events
    ensures forall i :: 0 < i < |Pushed(events, e)| ==> Pushed(events, e)[i] == events[i - 1]
  {
    var r := Pushed(events, e);
    forall i | 0 < i < |r| ensures r[i] == events[i - 1] {
      assert r[i] == r[1..][i - 1];
    }
  }

  /** `err instanceof Error ? err.message : fallback`; `None` stands for a rejection
      with something that is not an `Error`. */
  datatype Outcome<+T> = Resolved(value: T) | Rejected(message: Option<string>)

  function ErrorText(message: Option<string>, fallback: string): string
  {
    if message.Some? then message.value else fallback
  }

  const PollFailed: string := "轮询命令状态失败"
  const NoTaskSelected: string := "请先选择任务"
  const EmptyCommand: string := "请输入命令内容"
  const SubmitFailed: string := "提交命令失败"
  const ApproveFailed: string := "命令审批失败"
  const LoadTasksFailed: string := "加载任务失败"
  const DefaultApprover: string := "mobile-user"

  function StatusEvent(d: Command): FeedEvent
  {
    FeedEvent("命令状态更新: " + d.status.Name(), d.id + " (" + d.taskId + ")", EventTone(d.status))
  }

  function SubmittedEvent(a: CommandAcceptedResponse): FeedEvent
  {
    FeedEvent("命令已提交", a.commandId + " 已加入队列，状态 " + a.status.Name(), EventTone(a.status))
  }

  function ApprovedEvent(c: Command): FeedEvent
  {
    FeedEvent("命令已批准", c.id + " 进入执行队列", SuccessTone)
  }

  // ---------------------------------------------------------------------------
  // The controller's state and its steps

  /** The feed's state: the loaded tasks and the selection, the command on screen,
      the command being polled, the last status an event was logged for, the event
      log, the error line and the generation of the polling effect. */
  datatype FeedState = FeedState(
    tasks: seq<Task>,
    selectedTaskId: string,
    currentCommand: Option<Command>,
    pollingCommandId: Option<string>,
    lastStatus: Option<CommandStatus>,
    events: seq<FeedEvent>,
    error: string,
    generation: nat)

  const Initial: FeedState := FeedState([], "", None, None, None, [], "", 0)

  predicate Bounded(s: FeedState)
  {
    |s.events| <= MaxEvents
  }

  /** `setPollingCommandId`: a new value cancels the running effect and starts one
      under a new generation; the same value changes nothing. */
  function WithPolling(s: FeedState, id: Option<string>): FeedState
  {
    if id == s.pollingCommandId then s else s.(pollingCommandId := id, generation := s.generation + 1)
  }

  /** A tick of the effect started under generation `g` is live when that effect is
      still the running one. */
  predicate Live(s: FeedState, g: nat)
  {
    s.pollingCommandId.Some? && g == s.generation
  }

  /** One poll tick settling with `reply`. */
  function TickStep(s: FeedState, g: nat, reply: Outcome<Command>): FeedState
  {
    if !Live(s, g) then s
    else match reply
      case Resolved(d) =>
        var seen := s.(currentCommand := Some(d));
        var logged :=
          if s.lastStatus == Some(d.status) then seen
          else seen.(lastStatus := Some(d.status), events := Pushed(s.events, StatusEvent(d)));
        if StopsPolling(d.status) then WithPolling(logged, None) else logged
      case Rejected(m) => WithPolling(s.(error := ErrorText(m, PollFailed)), None)
  }

  /** The request `handleSubmitCommand` sends, if any: the task and the body. */
  function SubmitCall(s: FeedState, text: string, requestedBy: string, requiresApproval: bool)
    : Option<(string, CreateCommandRequest)>
  {
    if s.selectedTaskId == [] || Trim(text, IsJsSpace) == [] then None
    else
      Some((s.selectedTaskId,
            CreateCommandRequest(Trim(text, IsJsSpace), User,
                                 if requestedBy == [] then None else Some(requestedBy), requiresApproval)))
  }

  /** `handleSubmitCommand`, its call settling with `reply`. */
  function SubmitStep(s: FeedState, text: string, requestedBy: string, requiresApproval: bool,
                      reply: Outcome<CommandAcceptedResponse>): FeedState
  {
    if s.selectedTaskId == [] then s.(error := NoTaskSelected)
    else if Trim(text, IsJsSpace) == [] then s.(error := EmptyCommand)
    else match reply
      case Resolved(a) =>
        WithPolling(s.(error := [], events := Pushed(s.events, SubmittedEvent(a)), lastStatus := Some(a.status)),
                    Some(a.commandId))
      case Rejected(m) => s.(error := ErrorText(m, SubmitFailed))
  }

  /** The request `handleApproveCommand` sends, if any: the command and the body. */
  function ApproveCall(s: FeedState, requestedBy: string): Option<(string, ApproveCommandRequest)>
  {
    if s.currentCommand.None? || s.currentCommand.value.status != CommandStatus.WaitingApproval then None
    else Some((s.currentCommand.value.id,
               ApproveCommandRequest(if requestedBy == [] then DefaultApprover else requestedBy)))
  }

  /** `handleApproveCommand`, its call settling with `reply`. */
  function ApproveStep(s: FeedState, requestedBy: string, reply: Outcome<Command>): FeedState
  {
    if ApproveCall(s, requestedBy).None? then s
    else match reply
      case Resolved(c) =>
        var shown := WithPolling(s.(error := [], currentCommand := Some(c)), Some(c.id));
        shown.(events := Pushed(shown.events, ApprovedEvent(c)))
      case Rejected(m) => s.(error := ErrorText(m, ApproveFailed))
  }

  /** The selection after a non-empty task list loads: the previous one while it is
      still listed, the first task otherwise. */
  function NextSelectedTask(previous: string, all: seq<Task>): (r: string)
    requires all != []
    ensures exists i :: 0 <= i < |all| && all[i].id == r
    ensures previous != [] && (exists i :: 0 <= i < |all| && all[i].id == previous) ==> r == previous
    ensures (previous == [] || forall i :: 0 <= i < |all| ==> all[i].id != previous) ==> r == all[0].id
  {
    if previous != [] && exists i :: 0 <= i < |all| && all[i].id == previous then previous else all[0].id
  }

  /** `loadTasks(projectId)`, the list call settling with `reply`; a rejection
      reaches the caller's error line. */
  function LoadTasksStep(s: FeedState, projectId: string, reply: Outcome<seq<Task>>): FeedState
  {
    if projectId == [] then s.(tasks := [], selectedTaskId := [])
    else match reply
      case Resolved(all) =>
        s.(tasks := all, selectedTaskId := if all == [] then [] else NextSelectedTask(s.selectedTaskId, all))
      case Rejected(m) => s.(error := ErrorText(m, LoadTasksFailed))
  }

  // ---------------------------------------------------------------------------
  // Properties of the steps

  /** Every step keeps the log within twelve entries. */
  lemma TickKeepsBound(s: FeedState, g: nat, reply: Outcome<Command>)
    requires Bounded(s)
    ensures Bounded(TickStep(s, g, reply))
  {
  }

  lemma SubmitKeepsBound(s: FeedState, text: string, requester: string, ra: bool,
                         reply: Outcome<CommandAcceptedResponse>)
    requires Bounded(s)
    ensures Bounded(SubmitStep(s, text, requester, ra, reply))
  {
  }

  lemma ApproveKeepsBound(s: FeedState, requester: string, reply: Outcome<Command>)
    requires Bounded(s)
    ensures Bounded(ApproveStep(s, requester, reply))
  {
  }

  lemma LoadTasksKeepsBound(s: FeedState, p: string, reply: Outcome<seq<Task>>)
    requires Bounded(s)
    ensures Bounded(LoadTasksStep(s, p, reply))
  {
  }

  /** A tick of a cancelled effect, or one arriving while nothing is polled, changes
      nothing at all. */
  lemma StaleTickChangesNothing(s: FeedState, g: nat, reply: Outcome<Command>)
    requires !Live(s, g)
    ensures TickStep(s, g, reply) == s
  {
  }

  /** A live tick shows the fetched command and records its status; it logs one
      status event exactly when the status differs from the last one logged, and
      stops polling exactly at approval or a final status. */
  lemma TickIsEdgeTriggered(s: FeedState, g: nat, d: Command)
    requires Live(s, g)
    ensures var t := TickStep(s, g, Resolved(d));
            && t.currentCommand == Some(d) && t.lastStatus == Some(d.status) && t.error == s.error
            && (s.lastStatus == Some(d.status) ==> t.events == s.events)
            && (s.lastStatus != Some(d.status) ==> t.events == Pushed(s.events, StatusEvent(d)))
            && (t.pollingCommandId.None? <==> StopsPolling(d.status))
            && (t.pollingCommandId.Some? ==> t.pollingCommandId == s.pollingCommandId && t.generation == s.generation)
  {
  }

  /** A repeated poll result changes nothing more: the second tick logs nothing. */
  lemma TickIdempotent(s: FeedState, g: nat, d: Command)
    requires Live(s, g)
    ensures TickStep(TickStep(s, g, Resolved(d)), g, Resolved(d)) == TickStep(s, g, Resolved(d))
  {
    TickIsEdgeTriggered(s, g, d);
  }

  /** Once polling has stopped, the old effect's later ticks are all stale. */
  lemma StoppedPollingIgnoresLateTicks(s: FeedState, g: nat, d: Command, later: Outcome<Command>)
    requires Live(s, g) && StopsPolling(d.status)
    ensures var t := TickStep(s, g, Resolved(d)); TickStep(t, g, later) == t
  {
  }

  /** A failed poll shows its error and stops polling for good, without touching the
      command, the log or the last status. */
  lemma TickFailureStops(s: FeedState, g: nat, m: Option<string>)
    requires Live(s, g)
    ensures var t := TickStep(s, g, Rejected(m));
            && t.pollingCommandId == None && t.error == ErrorText(m, PollFailed)
            && t.currentCommand == s.currentCommand && t.events == s.events && t.lastStatus == s.lastStatus
            && t.generation == s.generation + 1
  {
  }

  /** Submission makes no call without a selected task or with blank text, and then
      only the error line changes; a call carries the trimmed, non-blank text. */
  lemma SubmitGuards(s: FeedState, text: string, requester: string, ra: bool, reply: Outcome<CommandAcceptedResponse>)
    ensures SubmitCall(s, text, requester, ra).None? <==> s.selectedTaskId == [] || Trim(text, IsJsSpace) == []
    ensures SubmitCall(s, text, requester, ra).None? ==>
              SubmitStep(s, text, requester, ra, reply)
              == s.(error := if s.selectedTaskId == [] then NoTaskSelected else EmptyCommand)
    ensures SubmitCall(s, text, requester, ra).Some? ==>
              var (task, req) := SubmitCall(s, text, requester, ra).value;
              && task == s.selectedTaskId && ValidCreateCommandRequest(req)
              && req.text == Trim(text, IsJsSpace) && req.requiresApproval == ra
              && (req.requestedBy.None? <==> requester == [])
  {
  }

  /** An accepted submission logs one event, records the accepted status and polls
      the new command under a fresh effect. */
  lemma SubmitArmsPolling(s: FeedState, text: string, requester: string, ra: bool, a: CommandAcceptedResponse)
    requires SubmitCall(s, text, requester, ra).Some? && s.pollingCommandId != Some(a.commandId)
    ensures var t := SubmitStep(s, text, requester, ra, Resolved(a));
            && t.lastStatus == Some(a.status) && t.pollingCommandId == Some(a.commandId)
            && t.events == Pushed(s.events, SubmittedEvent(a)) && t.error == []
            && t.generation == s.generation + 1 && t.currentCommand == s.currentCommand
  {
  }

  /** The first poll after an accepted submission logs nothing when the command is
      still in the accepted status. */
  lemma FirstTickAfterSubmit(s: FeedState, text: string, requester: string, ra: bool,
                             a: CommandAcceptedResponse, d: Command)
    requires SubmitCall(s, text, requester, ra).Some? && d.status == a.status
    ensures var t := SubmitStep(s, text, requester, ra, Resolved(a));
            Live(t, t.generation) && TickStep(t, t.generation, Resolved(d)).events == t.events
  {
    assert s.selectedTaskId != [] && Trim(text, IsJsSpace) != [];
    var t := SubmitStep(s, text, requester, ra, Resolved(a));
    assert t.lastStatus == Some(a.status) && t.pollingCommandId == Some(a.commandId);
    TickIsEdgeTriggered(t, t.generation, d);
  }

  /** Approval makes no call, and changes nothing, unless the command on screen waits
      for approval; the approver is the requester or `mobile-user`. */
  lemma ApproveGuard(s: FeedState, requester: string, reply: Outcome<Command>)
    ensures ApproveCall(s, requester).None? <==>
              s.currentCommand.None? || s.currentCommand.value.status != CommandStatus.WaitingApproval
    ensures ApproveCall(s, requester).None? ==> ApproveStep(s, requester, reply) == s
    ensures ApproveCall(s, requester).Some? ==>
              && ApproveCall(s, requester).value.0 == s.currentCommand.value.id
              && ValidApproveCommandRequest(ApproveCall(s, requester).value.1)
              && ApproveCall(s, requester).value.1.approvedBy == (if requester == [] then DefaultApprover else requester)
  {
  }

  /** An approval shows the returned command, polls it again and logs one success
      event; the last logged status is left as it was. */
  lemma ApproveRearmsPolling(s: FeedState, requester: string, c: Command)
    requires ApproveCall(s, requester).Some?
    ensures var t := ApproveStep(s, requester, Resolved(c));
            && t.currentCommand == Some(c) && t.pollingCommandId == Some(c.id)
            && Live(t, t.generation) && t.lastStatus == s.lastStatus
            && t.events == Pushed(s.events, ApprovedEvent(c)) && t.error == []
  {
  }

  /** After a list loads the selection is one of its tasks, the previous one when it
      is still there; an empty list or no project clears it. */
  lemma LoadTasksKeepsSelection(s: FeedState, p: string, all: seq<Task>)
    ensures var t := LoadTasksStep(s, p, Resolved(all));
            && (p == [] || all == [] ==> t.selectedTaskId == [])
            && (p != [] ==> t.tasks == all)
            && (p != [] && all != [] ==> exists i :: 0 <= i < |all| && all[i].id == t.selectedTaskId)
            && (p != [] && s.selectedTaskId != [] && (exists i :: 0 <= i < |all| && all[i].id == s.selectedTaskId)
                ==> t.selectedTaskId == s.selectedTaskId)
  {
  }

  // ---------------------------------------------------------------------------
  // The controller

  class FeedController {
    var tasks: seq<Task>
    var selectedTaskId: string
    var currentCommand: Option<Command>
    var pollingCommandId: Option<string>
    var lastStatus: Option<CommandStatus>
    var events: seq<FeedEvent>
    var error: string
    var generation: nat

    function State(): FeedState
      reads this
    {
      FeedState(tasks, selectedTaskId, currentCommand, pollingCommandId, lastStatus, events, error, generation)
    }

    ghost predicate Valid()
      reads this
    {
      Bounded(State())
    }

    constructor ()
      ensures Valid() && State() == Initial
    {
      tasks, selectedTaskId, currentCommand, pollingCommandId := [], [], None, None;
      lastStatus, events, error, generation := None, [], [], 0;
    }

    /** `pushEvent`. */
    method PushEvent(e: FeedEvent)
      modifies this
      ensures State() == old(State()).(events := Pushed(old(events), e))
    {
      events := Pushed(events, e);
    }

    /** `setPollingCommandId`. */
    method SetPolling(id: Option<string>)
      modifies this
      ensures State() == WithPolling(old(State()), id)
    {
      if id != pollingCommandId {
        pollingCommandId := id;
        generation := generation + 1;
      }
    }

    /** One tick of the polling effect started under generation `g`. */
    method Tick(g: nat, reply: Outcome<Command>)
      requires Valid()
      modifies this
      ensures Valid() && State() == TickStep(old(State()), g, reply)
    {
      if pollingCommandId.None? || g != generation {
        return;
      }
      match reply
      case Resolved(d) =>
        currentCommand := Some(d);
        if lastStatus != Some(d.status) {
          lastStatus := Some(d.status);
          PushEvent(StatusEvent(d));
        }
        if StopsPolling(d.status) {
          SetPolling(None);
        }
      case Rejected(m) =>
        error := ErrorText(m, PollFailed);
        SetPolling(None);
    }

    /** `handleSubmitCommand`: returns the request it sends, if any. */
    method Submit(text: string, requestedBy: string, requiresApproval: bool,
                  reply: Outcome<CommandAcceptedResponse>)
      returns (call: Option<(string, CreateCommandRequest)>)
      requires Valid()
      modifies this
      ensures call == SubmitCall(old(State()), text, requestedBy, requiresApproval)
      ensures Valid() && State() == SubmitStep(old(State()), text, requestedBy, requiresApproval, reply)
    {
      if selectedTaskId == [] {
        error := NoTaskSelected;
        return None;
      }
      var trimmed := Trim(text, IsJsSpace);
      if trimmed == [] {
        error := EmptyCommand;
        return None;
      }
      error := [];
      call := Some((selectedTaskId,
                    CreateCommandRequest(trimmed, User, if requestedBy == [] then None else Some(requestedBy),
                                         requiresApproval)));
      match reply
      case Resolved(a) =>
        PushEvent(SubmittedEvent(a));
        lastStatus := Some(a.status);
        SetPolling(Some(a.commandId));
      case Rejected(m) =>
        error := ErrorText(m, SubmitFailed);
    }

    /** `handleApproveCommand`: returns the request it sends, if any. */
    method Approve(requestedBy: string, reply: Outcome<Command>)
      returns (call: Option<(string, ApproveCommandRequest)>)
      requires Valid()
      modifies this
      ensures call == ApproveCall(old(State()), requestedBy)
      ensures Valid() && State() == ApproveStep(old(State()), requestedBy, reply)
    {
      if currentCommand.None? || currentCommand.value.status != CommandStatus.WaitingApproval {
        return None;
      }
      error := [];
      call := Some((currentCommand.value.id,
                    ApproveCommandRequest(if requestedBy == [] then DefaultApprover else requestedBy)));
      match reply
      case Resolved(c) =>
        currentCommand := Some(c);
        SetPolling(Some(c.id));
        PushEvent(ApprovedEvent(c));
      case Rejected(m) =>
        error := ErrorText(m, ApproveFailed);
    }

    /** `loadTasks(projectId)` with the effect's error handler: returns the project
        whose tasks it lists, if any. */
    method LoadTasks(projectId: string, reply: Outcome<seq<Task>>) returns (call: Option<string>)
      requires Valid()
      modifies this
      ensures call == (if projectId == [] then None else Some(projectId))
      ensures Valid() && State() == LoadTasksStep(old(State()), projectId, reply)
    {
      if projectId == [] {
        tasks, selectedTaskId := [], [];
        return None;
      }
      call := Some(projectId);
      match reply
      case Resolved(all) =>
        tasks := all;
        if all == [] {
          selectedTaskId := [];
        } else {
          selectedTaskId := NextSelectedTask(selectedTaskId, all);
        }
      case Rejected(m) =>
        error := ErrorText(m, LoadTasksFailed);
    }
  }
}
