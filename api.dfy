/** The request and response shapes of the control center's HTTP contract: the
    field constraints a request must meet before the orchestrator sees it, the
    defaults of its optional fields, and the accepted envelope of command submission. */
module Api {
  import opened Hierarchy

  /** What an orchestrator call yields: a value, or an HTTP error status with its
      `detail` message. */
  datatype Result<+T> = Ok(value: T) | HttpError(status: int, detail: string)

  datatype CreateProjectRequest = CreateProjectRequest(
    name: string, description: Option<string>, owner: Option<string>, tags: seq<string>)

  datatype CreateTaskRequest = CreateTaskRequest(
    title: string, description: Option<string>, priority: int, assigneeAgent: Option<string>)

  datatype CreateCommandRequest = CreateCommandRequest(
    text: string, source: CommandSource, requestedBy: Option<string>, requiresApproval: bool)

  datatype ApproveCommandRequest = ApproveCommandRequest(approvedBy: string)

  datatype ActionExecuteRequest = ActionExecuteRequest(
    text: string, requestedBy: Option<string>, taskId: Option<string>, projectId: Option<string>)

  /** The 202 envelope of `POST /tasks/{task_id}/commands`. */
  datatype CommandAcceptedResponse = CommandAcceptedResponse(
    commandId: string, taskId: string, projectId: string, status: CommandStatus, pollUrl: string)

  predicate ValidCreateProjectRequest(r: CreateProjectRequest) { |r.name| >= 1 }

  predicate ValidCreateTaskRequest(r: CreateTaskRequest) { |r.title| >= 1 && 1 <= r.priority <= 5 }

  predicate ValidCreateCommandRequest(r: CreateCommandRequest) { |r.text| >= 1 }

  predicate ValidApproveCommandRequest(r: ApproveCommandRequest) { |r.approvedBy| >= 1 }

  predicate ValidActionExecuteRequest(r: ActionExecuteRequest) { |r.text| >= 1 }

  /** A project request with only its required field given. */
  function ProjectRequestOf(name: string): (r: CreateProjectRequest)
    ensures r.tags == [] && r.description == None && r.owner == None
    ensures ValidCreateProjectRequest(r) <==> name != []
  {
    CreateProjectRequest(name, None, None, [])
  }

  /** A task request with only its required field given: priority 3. */
  function TaskRequestOf(title: string): (r: CreateTaskRequest)
    ensures r.priority == 3
    ensures ValidCreateTaskRequest(r) <==> title != []
  {
    CreateTaskRequest(title, None, 3, None)
  }

  /** A command request with only its required field given: source `user`, no
      approval. */
  function CommandRequestOf(text: string): (r: CreateCommandRequest)
    ensures r.source == User && !r.requiresApproval && r.requestedBy == None
    ensures ValidCreateCommandRequest(r) <==> text != []
  {
    CreateCommandRequest(text, User, None, false)
  }

  /** An action request with only its required field given. */
  function ActionRequestOf(text: string): (r: ActionExecuteRequest)
    ensures r.requestedBy == None && r.taskId == None && r.projectId == None
    ensures ValidActionExecuteRequest(r) <==> text != []
  {
    ActionExecuteRequest(text, None, None, None)
  }

  const PollPrefix: string := "/commands/"

  /** The envelope the submission endpoint builds from the stored command. */
  function AcceptedEnvelope(c: Command): (r: CommandAcceptedResponse)
    ensures r.commandId == c.id && r.taskId == c.taskId && r.projectId == c.projectId
    ensures r.status == c.status
    ensures |r.pollUrl| == |PollPrefix| + |c.id| && r.pollUrl[..|PollPrefix|] == PollPrefix
  {
    CommandAcceptedResponse(c.id, c.taskId, c.projectId, c.status, PollPrefix + c.id)
  }

  /** The poll URL names the command: stripping the fixed prefix gives back its id,
      so two envelopes with the same poll URL are about the same command. */
  lemma PollUrlNamesCommand(c: Command, d: Command)
    ensures AcceptedEnvelope(c).pollUrl[|PollPrefix|..] == c.id
    ensures AcceptedEnvelope(c).pollUrl == AcceptedEnvelope(d).pollUrl <==> c.id == d.id
  {
    var u, v := AcceptedEnvelope(c).pollUrl, AcceptedEnvelope(d).pollUrl;
    assert u[|PollPrefix|..] == c.id;
    assert v[|PollPrefix|..] == d.id;
  }
}
