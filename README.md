# WhereCode command center: a verified model

WhereCode drives coding agents from a phone. It organises work as a hierarchy:

- **projects** hold **tasks**, and tasks hold **commands**;
- a command is queued, run by a mock executor and finished as `success` or `failed`;
- a command may instead wait for a human approval first;
- a task's status and counters, and a project's count of active tasks, are derived from their children.

This project models the core of that system in Dafny and proves what it promises.

- **The control center** (`Orchestrator`): the in-memory orchestrator. It is the class `InMemoryOrchestrator`, with the same maps, ordering lists and sequence counters as the server. Its methods are specified against pure functions on a `Store` value, and the invariant `Inv` is proved to hold after every operation:
  - every stored entity satisfies its model validators;
  - the task lists and sequence numbers are consistent;
  - every task status equals the status derived from its commands;
  - every project's active count equals the number of its active tasks.
- **The data model** (`Hierarchy`, `Api`): the entities, the status enums, the field constraints and validators, the id format, the request defaults and the 202 envelope of command submission.
- **The mobile client**:
  - `Feed` is the command-lifecycle controller of the feed page: edge-triggered polling, submission, approval and the task selection.
  - `AppPages` holds the selection helpers of the overview, tasks, projects and task-detail pages.
  - `NavTabs` is the tab bar.
  - `StatusChip` is the status chip.
  - `TaskDetailWorkspace` holds the command body of the detail page.
- **The action layer** (`ActionLayer`): how its HTTP runtime answers a request, and how the JSON answer and its Content-Length are written.
- **Shared text rules** (`Text`):
  - ASCII lower-casing;
  - the "mentions fail or error" content rule that both the orchestrator and the action layer use;
  - Python `strip()` and JavaScript `trim()`;
  - `replaceAll("_", " ")`;
  - decimal rendering and parsing.

Clock readings, random id suffixes and the outcomes of asynchronous calls are parameters:

- the orchestrator takes a `now` instant in integer microseconds and a 12-digit hex suffix;
- each client step takes the outcome its awaited call settled with;
- the action layer takes the parsed body and the trace suffix.

Inheritance between the server's models (`TaskDetail(Task)`, `ProjectDetail(Project)`) is modelled as a nested field: `TaskDetail(task, commands)` and `ProjectDetail(project, tasks)`.

## Model

| member | source | states |
|---|---|---|
| Hierarchy.NewId | control_center/models/hierarchy.py:15-16 | an id is the prefix, `_` and the 12 hex digits; its length is the prefix's plus 13 and the suffix reads back |
| Hierarchy.NewIdInjective | control_center/models/hierarchy.py:15-16 | two ids are equal iff their prefixes and suffixes are, so project, task and command ids never collide |
| Hierarchy.NewCommand | control_center/models/hierarchy.py:57-77 | a command built from its required fields is `queued`, source `user`, needs no approval, and is valid iff `sequence >= 1` and the text is non-empty |
| Hierarchy.NewTask | control_center/models/hierarchy.py:80-97 | a new task is `todo` with priority 3 and all counts 0, and is valid iff its title is non-empty |
| Hierarchy.NewProject | control_center/models/hierarchy.py:100-114 | a new project is `active` with both counts 0 and no tags, and is valid iff its name is non-empty |
| Api.ProjectRequestOf | control_center/models/api.py:8-12 | a project request defaults to no description, no owner and no tags; it is valid iff the name is non-empty |
| Api.TaskRequestOf | control_center/models/api.py:15-19 | a task request defaults to priority 3; it is valid iff the title is non-empty |
| Api.CommandRequestOf | control_center/models/api.py:22-26 | a command request defaults to source `user`, no requester and no approval; it is valid iff the text is non-empty |
| Api.ActionRequestOf | control_center/models/api.py:47-51 | an action request defaults every optional field to absent; it is valid iff the text is non-empty |
| Api.AcceptedEnvelope | control_center/main.py:118-124 | the 202 envelope copies the command's id, task, project and status, and its poll URL is `/commands/` followed by the id |
| Api.PollUrlNamesCommand | control_center/main.py:118-124 | stripping `/commands/` from the poll URL gives back the command id; two poll URLs are equal iff the ids are |
| Orchestrator.Advanced | control_center/services/orchestrator.py:101-143 | one step of a command: terminal and waiting commands are untouched; a queued one starts; a running one finishes only once 200 ms have passed since its start. The verdict is `failed` exactly when the text mentions a failure, and the finish instant is `now` |
| Orchestrator.AdvancedKeepsStamps | control_center/models/hierarchy.py:73-77 | advancing never puts the start after the finish |
| Orchestrator.DeriveTaskStatusMeaning | control_center/services/orchestrator.py:55-71 | the derived task status is `todo` iff there are no commands, `done` iff something succeeded and nothing else is pending or failed, `canceled` iff all are canceled, active iff some command is not terminal, and never `blocked` |
| Orchestrator.OutcomesBounded | control_center/models/hierarchy.py:93-97 | success and failure counts together never exceed the number of commands |
| Orchestrator.RefreshValues | control_center/services/orchestrator.py:85-91 | a refresh sets the task's status from its commands and the project's active count from its tasks |
| Orchestrator.RefreshRestores | control_center/services/orchestrator.py:73-91 | when only one task's derived fields are stale, refreshing that task restores the invariant |
| Orchestrator.AdvanceOneKeepsInv | control_center/services/orchestrator.py:101-143 | advancing a command keeps the invariant and the layout, changes only that command, and changes nothing for an unknown id |
| Orchestrator.AdvanceIsReplace | control_center/services/orchestrator.py:101-143 | an effective step replaces the command, recounts its task's outcomes, then refreshes the task |
| Orchestrator.ApproveKeepsInv | control_center/services/orchestrator.py:232-248 | approving a waiting command keeps the invariant |
| Orchestrator.CreateProjectKeepsInv | control_center/services/orchestrator.py:44-53 | adding a project with a fresh id keeps the invariant |
| Orchestrator.CreateTaskKeepsInv | control_center/services/orchestrator.py:150-168 | adding a task to an existing project keeps the invariant |
| Orchestrator.CommandFor | control_center/services/orchestrator.py:186-215 | a new command takes the next sequence of its task and its task's project; it waits for approval iff the request asks for it and is queued otherwise, with no approver and no timestamps |
| Orchestrator.CreateCommandKeepsInv | control_center/services/orchestrator.py:186-215 | adding a command to an existing task keeps the invariant |
| Orchestrator.AdvanceEach | control_center/services/orchestrator.py:93-99 | advancing a list of commands keeps the invariant and the layout |
| Orchestrator.AdvanceTasks | control_center/services/orchestrator.py:170-176 | advancing the commands of a list of tasks keeps the invariant and the layout |
| Orchestrator.ListedIffOwned | control_center/services/orchestrator.py:186-215 | a command is on a task's list iff it belongs to that task |
| Orchestrator.StoredEntitiesValid | control_center/models/hierarchy.py:57-114 | under the invariant every stored project, task and command satisfies its field constraints and validators |
| Orchestrator.SnapshotValid | control_center/services/orchestrator.py:250-264 | a project snapshot passes the relation validators, lists `task_count` tasks, and each task lists `command_count` commands |
| Orchestrator.InMemoryOrchestrator.constructor | control_center/services/orchestrator.py:27-34 | a new orchestrator is empty and valid |
| Orchestrator.InMemoryOrchestrator.Reset | control_center/services/orchestrator.py:36-42 | reset empties every map and list |
| Orchestrator.InMemoryOrchestrator.RecomputeActiveCount | control_center/services/orchestrator.py:73-83 | the loop counts the project's active tasks, as the specification function does |
| Orchestrator.InMemoryOrchestrator.RefreshTask | control_center/services/orchestrator.py:85-91 | the in-place refresh equals the specification refresh |
| Orchestrator.InMemoryOrchestrator.AdvanceCommand | control_center/services/orchestrator.py:101-143 | the in-place step equals `AdvanceOne` and keeps the invariant |
| Orchestrator.InMemoryOrchestrator.AdvanceTaskCommands | control_center/services/orchestrator.py:93-95 | advances the task's commands in list order, keeping the invariant |
| Orchestrator.InMemoryOrchestrator.AdvanceAllCommands | control_center/services/orchestrator.py:97-99 | advances every command in creation order, keeping the invariant |
| Orchestrator.InMemoryOrchestrator.CreateProject | control_center/services/orchestrator.py:44-53 | stores an `active` project with zero counts under a `proj_` id and returns it |
| Orchestrator.InMemoryOrchestrator.ListProjects | control_center/services/orchestrator.py:145-148 | advances every command, then returns the projects in creation order |
| Orchestrator.InMemoryOrchestrator.CreateTask | control_center/services/orchestrator.py:150-168 | answers 404 "project not found" iff the project is unknown, changing nothing; otherwise stores the task and refreshes the counts |
| Orchestrator.InMemoryOrchestrator.ListTasks | control_center/services/orchestrator.py:170-176 | answers 404 for an unknown project; otherwise advances the project's tasks and returns them in order |
| Orchestrator.InMemoryOrchestrator.GetTask | control_center/services/orchestrator.py:178-184 | answers 404 "task not found" iff the task is unknown; otherwise advances its commands and returns it |
| Orchestrator.InMemoryOrchestrator.CreateCommand | control_center/services/orchestrator.py:186-215 | answers 404 iff the task is unknown; otherwise stores the command with the next sequence, and it waits for approval iff asked |
| Orchestrator.InMemoryOrchestrator.ListCommands | control_center/services/orchestrator.py:217-222 | answers 404 for an unknown task; otherwise advances and returns its commands in order |
| Orchestrator.InMemoryOrchestrator.GetCommand | control_center/services/orchestrator.py:224-230 | answers 404 "command not found" iff unknown; otherwise returns the command advanced by one step |
| Orchestrator.InMemoryOrchestrator.ApproveCommand | control_center/services/orchestrator.py:232-248 | answers 404, then 409 "does not require approval", then 409 "not waiting approval", changing nothing; it succeeds iff the command waits, and then the command is queued with its approver |
| Orchestrator.InMemoryOrchestrator.GetProjectDetail | control_center/services/orchestrator.py:250-264 | answers 404 for an unknown project; otherwise advances its tasks and returns a valid snapshot |
| Feed.ToneClassesDistinct | command_center/components/feed-workspace.tsx:34-45 | the four tones have pairwise distinct card classes |
| Feed.EventTone | command_center/components/feed-workspace.tsx:47-58 | `success` gives the success tone, `waiting_approval` warning, `failed` and `canceled` danger, `queued` and `running` neutral, each as an iff |
| Feed.FinalStatusesAreTerminal | command_center/components/feed-workspace.tsx:60 | the client's final statuses are the server's terminal ones; polling continues only while queued or running |
| Feed.Pushed | command_center/components/feed-workspace.tsx:85-96 | the new event comes first, the log holds at most 12, and the rest is the previous log's prefix |
| Feed.PushedDropsOnlyOldest | command_center/components/feed-workspace.tsx:85-96 | below 12 nothing is dropped; otherwise only the oldest go and the survivors keep their order |
| Feed.StaleTickChangesNothing | command_center/components/feed-workspace.tsx:147-149 | a tick from a cancelled effect changes no field at all |
| Feed.TickIsEdgeTriggered | command_center/components/feed-workspace.tsx:150-162 | a live tick shows the command and records its status; it logs one event iff the status changed, and it stops polling iff the status is waiting or final |
| Feed.TickIdempotent | command_center/components/feed-workspace.tsx:151-158 | the same poll result twice has the effect of once |
| Feed.StoppedPollingIgnoresLateTicks | command_center/components/feed-workspace.tsx:160-162 | after polling stops, the old effect's later ticks change nothing |
| Feed.TickFailureStops | command_center/components/feed-workspace.tsx:163-169 | a failed poll sets the error and stops polling, leaving the command, the log and the last status alone |
| Feed.SubmitGuards | command_center/components/feed-workspace.tsx:231-247 | no call without a selected task or with blank text, and then only the error changes; a call carries the trimmed text, the flag, and a requester iff one was typed |
| Feed.SubmitArmsPolling | command_center/components/feed-workspace.tsx:248-254 | acceptance logs one event, records the accepted status and polls the new command under a new effect |
| Feed.FirstTickAfterSubmit | command_center/components/feed-workspace.tsx:151-158 | the first poll after acceptance logs nothing while the status is unchanged |
| Feed.ApproveGuard | command_center/components/feed-workspace.tsx:262-271 | no call and no change unless the shown command waits for approval; the approver is the requester or `mobile-user` |
| Feed.ApproveRearmsPolling | command_center/components/feed-workspace.tsx:272-274 | approval shows the returned command, polls it again and logs one success event; the last status is untouched |
| Feed.NextSelectedTask | command_center/components/feed-workspace.tsx:118-123 | the selection is a listed task, the previous one if still listed and the first one otherwise |
| Feed.LoadTasksKeepsSelection | command_center/components/feed-workspace.tsx:106-124 | no project or an empty list clears the selection; otherwise it is a listed task, the previous one when possible |
| Feed.TickKeepsBound | command_center/components/feed-workspace.tsx:85-96 | a tick keeps the log within 12 entries |
| Feed.FeedController.Tick | command_center/components/feed-workspace.tsx:138-181 | the in-place tick equals `TickStep` and keeps the log bounded |
| Feed.FeedController.Submit | command_center/components/feed-workspace.tsx:231-260 | the in-place submit makes the call `SubmitCall` describes and reaches `SubmitStep` |
| Feed.FeedController.Approve | command_center/components/feed-workspace.tsx:262-280 | the in-place approve makes the call `ApproveCall` describes and reaches `ApproveStep` |
| Feed.FeedController.LoadTasks | command_center/components/feed-workspace.tsx:106-124 | lists tasks only for a selected project and reaches `LoadTasksStep` |
| AppPages.StatusLabel | command_center/components/app-pages-replica.tsx:31-33 | the label has the status's length, no underscore, and a space wherever the status had one |
| AppPages.CommandSummary | command_center/components/app-pages-replica.tsx:35-46 | no command gives the fixed placeholder; otherwise the assistant prefix and the command's body |
| AppPages.SortDescSorted | command_center/components/app-pages-replica.tsx:60-66 | the comparator sort returns a permutation in descending order |
| AppPages.SortDescKeepsSorted | command_center/components/app-pages-replica.tsx:663 | a list already in order comes back unchanged |
| AppPages.SortDescHead | command_center/components/app-pages-replica.tsx:60-66 | the head of the sort is the first element of maximal rank |
| AppPages.PickFocusProject | command_center/components/app-pages-replica.tsx:57-67 | none iff there are no projects; otherwise one of them |
| AppPages.FocusIsFirstBusiest | command_center/components/app-pages-replica.tsx:57-67 | the focus has the most active tasks, then the most tasks, and is the earliest such project |
| AppPages.LatestCommand | command_center/components/app-pages-replica.tsx:516 | none iff there are no commands; otherwise one of them |
| AppPages.LatestHasLargestSequence | command_center/components/app-pages-replica.tsx:516 | the latest command has the largest sequence, and on a server list it is the last one |
| AppPages.Timeline | command_center/components/app-pages-replica.tsx:663-684 | the timeline holds three commands, or all of them when there are fewer, each taken from the list and no command more often than the list holds it |
| AppPages.TimelineShowsLatest | command_center/components/app-pages-replica.tsx:663-684 | whatever order the list comes in, every command the timeline leaves out has a sequence no larger than any command it shows |
| AppPages.TimelineOrder | command_center/components/app-pages-replica.tsx:663-684 | the timeline ascends by sequence, and on a server list it is the list's tail |
| AppPages.Filter | command_center/components/app-pages-replica.tsx:351-358 | a filter keeps only passing elements of the input and is never longer |
| AppPages.ActiveAgreesWithServer | command_center/components/app-pages-replica.tsx:28 | the client's active statuses are the server's |
| AppPages.FiltersPartition | command_center/components/app-pages-replica.tsx:28-29 | the active, blocked, done and canceled filters together count every task once |
| AppPages.TaskListLength | command_center/components/app-pages-replica.tsx:613 | the flattened task list is as long as the summed task counts |
| AppPages.SnapshotActiveCount | command_center/components/app-pages-replica.tsx:352 | on a server snapshot the active filter counts the project's `active_task_count` |
| AppPages.OverviewActiveCount | command_center/components/app-pages-replica.tsx:351-352 | on server snapshots the overview's active list is as long as the active counts add up to |
| AppPages.RiskIffBlocked | command_center/components/app-pages-replica.tsx:353-358 | the overview lists risk projects iff it lists blocked tasks |
| AppPages.ProjectCardsDisjoint | command_center/components/app-pages-replica.tsx:598-611 | the in-progress card holds at most 3 projects with active tasks, and the done card at most 2 finished ones; no project is on both |
| AppPages.ProjectsPageLines | command_center/components/app-pages-replica.tsx:598-617 | the three cards hold at most 3, 2 and 2 lines, one per selected project |
| NavTabs.IsActiveCases | command_center/components/nav-tabs.tsx:13-27 | an exact match is active; `/feed` activates the overview; `/project/…` activates projects and `/task/…` tasks; command-lab is active only on an exact match |
| NavTabs.AtMostOneTabActive | command_center/components/nav-tabs.tsx:6-27 | no pathname activates two tabs |
| StatusChip.DefaultOnlyUnlisted | command_center/components/status-chip.tsx:5-29 | the default style goes exactly to unlisted statuses |
| StatusChip.StyleGroups | command_center/components/status-chip.tsx:5-29 | the success style is for `success`, `done` and `active` exactly |
| StatusChip.StyleGroupsDanger | command_center/components/status-chip.tsx:5-29 | the danger style is for `failed`, `blocked`, `canceled` and `archived` exactly |
| StatusChip.StyleGroupsPending | command_center/components/status-chip.tsx:5-29 | warning is for `waiting_approval` only; muted is for `queued`, `todo`, `paused` and `idle` |
| StatusChip.EveryStatusListed | command_center/components/status-chip.tsx:5-29 | every project, task and command status has a style of its own |
| StatusChip.TaskLabelsDistinct | command_center/components/status-chip.tsx:31-33 | different task statuses get different labels |
| StatusChip.CommandLabelsDistinct | command_center/components/status-chip.tsx:31-33 | different command statuses get different labels |
| TaskDetailWorkspace.CommandBody | command_center/components/task-detail-workspace.tsx:12-20 | the body is the summary, the error or the text, and it is never empty for a valid command |
| TaskDetailWorkspace.CommandBodyChoice | command_center/components/task-detail-workspace.tsx:12-20 | a non-empty summary wins, then a non-empty error, then the text |
| ActionLayer.Lookup | action_layer/runtime.py:53 | a key is found iff some member has it, and the value found is that of the last member with the key, as `json.loads` keeps the last duplicate |
| ActionLayer.ReadJsonBody | action_layer/runtime.py:79-95 | the body is refused with 400 iff the length is not positive, the body is undecodable, or it is not an object |
| ActionLayer.Decide | action_layer/runtime.py:17-77 | every request gets 200, 400, 404 or 422 |
| ActionLayer.GetRoutes | action_layer/runtime.py:17-42 | GET answers health on `/healthz`, the capabilities on `/capabilities`, and not found elsewhere |
| ActionLayer.PostElsewhereIgnoresBody | action_layer/runtime.py:44-47 | a POST outside `/execute` is 404 whatever its body |
| ActionLayer.ExecuteChecksInOrder | action_layer/runtime.py:49-59 | the body checks answer in order: empty body, invalid JSON, not an object, then blank text with 422 |
| ActionLayer.BlankTextRefused | action_layer/runtime.py:53-59 | 422 is given iff the text is missing or a whitespace-only string; a non-string is never blank |
| ActionLayer.ExecutionVerdict | action_layer/runtime.py:61-77 | an executed command gets 200 from the coding agent; its trace id is an `act` id, `act_` plus the 12 hex digits, 16 characters in all; `failed` iff the text mentions a failure, `success` otherwise |
| ActionLayer.VerdictMatchesOrchestrator | action_layer/runtime.py:61-62 | the action layer's verdict on a text is the orchestrator's content rule on the same text |
| ActionLayer.EscapeRoundTrip | action_layer/runtime.py:10-11 | a JSON reader reading a written string gets the original string back |
| ActionLayer.Utf8Length | action_layer/runtime.py:10-11 | the UTF-8 byte count is at least the character count, with equality iff the text is ASCII |
| ActionLayer.SendJson | action_layer/runtime.py:97-103 | the response carries the status and four headers in order: `Server` built from `server_version` (line 15), `Date`, the JSON content type and Content-Length; then the encoded body |
| ActionLayer.ContentLengthCountsBytes | action_layer/runtime.py:101 | Content-Length reads back as the number of body bytes |
| Text.LowerIdempotent | action_layer/runtime.py:61 | lower-casing twice is lower-casing once |
| Text.MentionsFailureIgnoresCase | control_center/services/orchestrator.py:126-127 | the content rule does not depend on case |
| Text.MentionsFailureSurvivesTrim | action_layer/runtime.py:53-62 | stripping whitespace does not change the content rule |
| Text.TrimEmptyIffBlank | command_center/components/feed-workspace.tsx:236 | a string trims to nothing iff it is all whitespace |
| Text.TrimIsSlice | action_layer/runtime.py:53 | trimming keeps a contiguous slice and removes only whitespace |
| Text.DecimalRoundTrip | action_layer/runtime.py:101 | reading a rendered number back gives the number |

## Left out

- Asynchronous locking: each locked block of the orchestrator is one atomic method call, so `asyncio.Lock` is not modelled. Returned entities are values, so aliasing of the Pydantic objects is not modelled.
- Clock: the orchestrator calls `now_utc()` afresh at every stamp and at every 200 ms check, several times within one locked block. The model uses one instant, the `now` parameter in integer microseconds, for the whole block. A command whose 200 ms elapse only at a later clock reading inside the same block, while other commands are advanced, therefore finishes one call later in the model. `created_at` and `updated_at` are not modelled, and neither is the free-form `metadata` map.
- Random ids: `uuid4().hex[:12]` is a parameter. The class methods require the resulting id to be fresh, so uuid collisions are not modelled.
- Dead branches: the orchestrator's guards for a missing task or project inside refresh and advance cannot fire under the invariant, so they are not written. The trailing `return TODO` of `_derive_task_status_locked` is unreachable and is not written either.
- `defaultdict` inserting an empty list on read is not modelled. Missing keys read as empty lists.
- Text:
  - Lower-casing is ASCII-only; Python's and JavaScript's full Unicode case mappings are not modelled.
  - `str()` of a list or dict inside a JSON body renders nested strings without `repr` escaping.
- JSON:
  - Numbers are integers; floats and exponents are not modelled.
  - Reading the socket, UTF-8 decoding and `json.loads` are inputs (`ParsedBody`).
  - A non-numeric Content-Length header, which raises in `int()`, is not modelled.
- HTTP:
  - Methods other than GET and POST are not modelled.
  - `main`, `log_message` and the server loop are not modelled.
  - `control_center/main.py` routing, CORS and environment lookup are not part of this model, except the 202 envelope.
- Storage: `sqlite_state_store.py` and `action_layer_client.py` are not part of this model.
- Feed client:
  - The `busy` flag is not modelled.
- Feed.FeedController.Submit: the handler is one atomic step from the guard to the settled call, so a poll tick cannot land between `setError("")` and the `await`'s outcome. A poll failure during a pending submit, whose error line survives the submit's success in the client, is not reachable in the model.
- Feed.FeedController.Approve: the handler is one atomic step, so a tick that replaces the shown command while the approval is pending cannot interleave. An approval whose guard passed before such a tick is not reachable in the model.
- ActionLayer.SendJson: the interpreter's version string and the formatted date are parameters, and the status line and the request log line that `send_response` writes are not modelled.
  - The random event ids and `createdAt` of `pushEvent`, and the 1200 ms interval timer, are not modelled. Polling is a sequence of `Tick` calls, each tagged with the generation of the effect that made it.
  - `loadProjects`, `handleCreateProject` and `handleCreateTask` are not modelled.
- Approval in the feed leaves the last logged status as it was, as `handleApproveCommand` does. The first poll after an approval therefore logs a `queued` event.
- Pages: `timeLabel`, `formatRelativeMinutes`, the rendering and the data-loading effects of the pages are not modelled.
- The if-chain of `eventToneByStatus` is written as a match: the command status enum is closed, so its default `neutral` branch covers exactly `queued` and `running`.
