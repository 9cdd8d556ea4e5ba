# Fleet control plane: verified model

A Dafny model of the parts of a robot-fleet control plane where correctness depends on more than
one function: route planning in a mall, the task scheduler and its runner, the robot execution
engine, the workflow allocator, the simulated robot, and the delivery machinery (webhooks, edge
command queue, event replay, SQL placeholders). `dafny verify dfyconfig.toml` checks everything.

## How the model reads

| module | what it holds |
|---|---|
| `Walks`, `ShortestPath`, `MallRoutes` | walks and their lengths; Dijkstra with stale heap entries, early exit and predecessor rebuilding; the graph built from a mall map |
| `Tasks`, `Zones`, `Fleet`, `Safety` | the task store, zone locks, robot capabilities and the two safety supervisors |
| `Scheduler` | the protocol of runners, API calls and mall assistants as a step system over one task store |
| `RunnerProtocol` | logs of protocol runs in which one runner takes part, and what the others can do to a task it holds |
| `Scenarios`, `TaskRunner` | scenarios and their expansion into commands; the runner as an object: dispatch, zone bracket, step loop and cancellation, with the other users of the store at work before each of its store calls |
| `RobotEngine`, `NavigationExecutor` | guarded state transitions and result handling; the race between telemetry callbacks and the polling loop |
| `Workflows` | greedy allocation of robots to workflow steps and the run ledger |
| `SimRobot`, `Arrival` | motion, commands and failure injection; the simulated robot under the navigation executor |
| `Webhooks`, `EdgeQueue`, `ReplayRing`, `EventIds`, `Placeholders` | circuit breaker and retries; edge queue and relay; the replay ring; event identifiers; `?` to `$n` rewriting |

Conventions. Mutable objects of the program are classes whose methods are proved against functions
of the old state; concurrent parts are step systems in which every mutex-protected section is one
step and runs are sequences of states. What comes from outside (publish and send outcomes,
telemetry, shutdown, the other users of the task store, sleep overshoot, other senders on a shared
breaker) is an arbitrary input, so every statement holds for all of it. Weights and coordinates are
exact reals, time is a non-decreasing natural number, JSON payloads are a datatype, and UUIDs are
numbers from a counter. Map iteration picks an arbitrary order. Reals have no square root, so a
distance is a measured value required to be the non-negative root of the squared coordinate differences; after
a move the new root is proved, not measured.

Findings stated as exact conditions, where the program does not meet what its comments suggest:

- Placeholder rewriting keeps the meaning of a query if and only if no `?` or `$` is directly followed
  by a digit (`Placeholders.RewriteMeaning`).
- Event identifiers are called lexicographically sortable; within a second they sort like the times
  if and only if neither trimmed fraction is a proper prefix of the other
  (`EventIds.IdOrderIsTimeOrder`); equal digit counts, which section 5.1 of RFC 3339 asks for, would
  guarantee that. A reconnecting stream misses exactly the later events of the same second whose
  digits extend its own, and gets exactly the mirror cases again (`ReplayRing.ReconnectDelivers`).
- One runner never gives a robot two running tasks, two or more runners can (`Scheduler.SafeExactlyWithOneRunner`).
- While the runner executes a task, its status reads cancelled if and only if an API cancel was
  written after the runner marked the task running (`RunnerProtocol.HeldStatus`). A cancel is lost if
  and only if it is written while the runner has picked the task and not yet marked it
  (`RunnerProtocol.CancelLostExactly`, with a run in `EarlyCancelIsLost`), and one that is written
  while the engine or an assistant has the task is overwritten (`RunnerProtocol.ClosingOverwrites`).
- A mall assistant's navigation task cannot start while the assistant's own task is running, so its
  wait ends only by cancellation, shutdown or timeout (`Scheduler.NavigationBlocked`).
- The state broadcast at the end of a navigation task is the stored one except when it succeeds on a
  robot in error, and the one at its beginning only for an idle robot (`RobotEngine.AnnouncementMatches`,
  `FirstAnnouncementMatches`).
- The route search is right on all graphs with weights of at least c if and only if c is not negative
  (`ShortestPath.RightExactlyWithoutNegativeWeights`). A rebuilt path is the walk found if and only if
  no node on it has the empty name, and all paths of a graph are if and only if the empty name has no
  edge from or to another key (`ShortestPath.WholeExactlyWithoutSentinel`).
- Simulated telemetry within the threshold means that the robot is at its commanded target if and only
  if its mode is one whose telemetry shows a target position (`Arrival.TrueExactlyWithTargetShown`).
  Success of the navigation executor for q can be believed if and only if the deciding sample shows a
  target and that target is q (`Arrival.BelievableExactlyWithItsTarget`). The executor looks at neither:
  a safe_stop on the way (`Arrival.FalseSuccess`) or a tick from before the robot handled the order
  (`Arrival.StaleSuccess`) makes it answer success.
- An arrival that the executor hears is what its task ends with unless the context is cancelled before
  it or a deadline passes before it is read; in the latter case the recorded success is not returned
  (`NavigationExecutor.TaskEndsBy`, `NavigationExecutor.ArrivalLostToDeadline`).

## Model

| member | source | states |
|---|---|---|
| ShortestPath.ShortestPath | internal/mall/navigation.go:37-88 | For every graph: error exactly when an endpoint is no key or no walk exists; otherwise a repetition-free walk of the reported length was found, and none is shorter unless there are negative weights; the path is the part of that walk after the empty name, hence the walk exactly when it avoids that name; predecessors settle strictly earlier, each node at most once; heap entries popped and left are at most one plus the number of edges |
| ShortestPath.Explore | internal/mall/navigation.go:45-77 | The search loop is a run of its turns that ends with the target's entry least, its distance final without negative weights, or with nothing left because no walk reaches it |
| ShortestPath.RelaxNeighbours | internal/mall/navigation.go:66-76 | A settled node's edges are each looked at once, in any order; that keeps the search invariant, and the heap grows by at most one entry per edge |
| ShortestPath.RelaxStep | internal/mall/navigation.go:70-75 | An improved neighbour gets a recorded walk through the settled node, and everything else recorded survives |
| ShortestPath.SettleStep | internal/mall/navigation.go:57-64 | Settling a popped unsettled node keeps every settled distance optimal if no weight is negative, and the rest of the invariant in any case |
| ShortestPath.Frontier | internal/mall/navigation.go:56-77 | Without negative weights any walk to an unsettled key passes an unsettled key recorded no longer than the walk |
| ShortestPath.MinimumIsFinal | internal/mall/navigation.go:57-64 | A least heap entry of an unsettled node carries that node's recorded distance despite stale entries, and without negative weights the shortest one |
| ShortestPath.ExhaustedMeansUnreachable | internal/mall/navigation.go:79-81 | Whatever the weights, when the heap runs empty an unsettled key is unreachable and its distance infinite |
| ShortestPath.PopMinimum | internal/mall/navigation.go:95-111 | A pop removes some entry with a least key |
| ShortestPath.RebuildPath | internal/mall/navigation.go:83-87 | Following predecessors ends, and yields the recorded walk after the last empty name |
| ShortestPath.NegativeWeightMisleads | internal/mall/navigation.go:56-60 | For every e > 0 and any three names a graph with weights of at least -e has a run of the loop that stops at the target with a distance that is not the shortest |
| ShortestPath.RightExactlyWithoutNegativeWeights | internal/mall/navigation.go:37-88 | For every real c: all runs of the search on all graphs with weights of at least c end with the shortest distance, or with nothing left and no walk, if and only if c is not negative |
| ShortestPath.TurnKeeps | internal/mall/navigation.go:56-77 | Any turn of the loop, with any choice among least entries and any order of neighbours, keeps the search invariant |
| ShortestPath.SentinelCuts | internal/mall/navigation.go:84-86 | The rebuilt path is the whole walk exactly when the empty name is not on it |
| ShortestPath.WholeExactlyWithoutSentinel | internal/mall/navigation.go:83-87 | All walks between different keys of a graph survive rebuilding whole if and only if the empty name is not a key with an edge from or to another key |
| MallRoutes.NewGraph | internal/mall/navigation.go:15-33 | The adjacency map has exactly the declared and touched nodes as keys and the last-written distance on each pair |
| MallRoutes.WeightIsLastWriter | internal/mall/navigation.go:20-31 | The distance of a pair is that of the last edge writing it, in either direction if bidirectional |
| MallRoutes.BidirectionalRoutesAgree | internal/mall/navigation.go:25-30 | If all edges are bidirectional the graph is symmetric and shortest distances there and back are equal |
| Walks.ShortestIsSymmetric | internal/mall/navigation.go:25-30 | In a symmetric graph reversed walks are as long, so shortest distances agree |
| MallRoutes.IndexNodes | internal/mall/routes.go:23-26 | Every declared identifier names its last declaration |
| MallRoutes.CalculateRoute | internal/mall/routes.go:18-43 | Error exactly for a missing mall, an undeclared endpoint or no walk; otherwise the named nodes of a walk of the reported length in order, from after the empty name on, all declared if edge endpoints are; the walk is a shortest one unless some pair of nodes ends up with a negative distance |
| Tasks.TaskStore.Create | pkg/control-plane/tasks/store.go:39-49 | The task is stored under a new identifier and nothing else changes |
| Tasks.TaskStore.Get | pkg/control-plane/tasks/store.go:52-61 | The stored task, or none |
| Tasks.TaskStore.List | pkg/control-plane/tasks/store.go:64-81 | Exactly the tasks of the given robot, tenant and status, an empty filter letting all through, each once |
| Tasks.TaskStore.UpdateStatus | pkg/control-plane/tasks/store.go:84-94 | Only the status of that task changes, whatever it was before |
| Tasks.TaskStore.UpdateStatusAndCompletedAt | pkg/control-plane/tasks/store.go:97-108 | Only status and completion time of that task change |
| Tasks.TaskStore.HasRunningForRobot | pkg/control-plane/tasks/store.go:111-120 | True exactly when some task of the robot is running |
| Scheduler.SafeExactlyWithOneRunner | docs/architecture/control-plane-workforce-split.md:129-139 | Over all interleavings, no robot ever has two running tasks if and only if at most one runner works on the store |
| Scheduler.TwoRunnersRace | docs/architecture/control-plane-workforce-split.md:135 | With two runners there is a run in which both pass the check before either write |
| Scheduler.OneOfEach | pkg/control-plane/tasks/runner.go:102-171 | With one runner, in every state of every run, a robot has at most one running task and a task at most one assistant |
| Scheduler.StepKeepsInvariant | pkg/control-plane/tasks/runner.go:102-171 | Every step of runner, API or assistant keeps the protocol invariant |
| Scheduler.RunInvariant | pkg/control-plane/tasks/runner.go:102-171 | The invariant holds in every state of every run with one runner |
| Scheduler.NavigationBlocked | pkg/control-plane/mallassistant/handler.go:346-361 | While a mall assistant's task is running, its navigation task is pending or cancelled, leaves pending only by an API cancel, and its wait never observes completed or failed |
| TaskRunner.Runner.RunOne | pkg/control-plane/tasks/runner.go:102-299 | With any steps of API calls and mall assistants before each store and bus call, the iteration extends a run of the protocol, its own steps being exactly those of its outcome; every outcome has its cause, said of the task, the registry and the catalogue: nothing pending, robot busy or unknown, refused, to assistant, to engine, or executed. A patrol or navigation with a zone fails without a command if the zone is locked and otherwise has it locked for its robot at every command; any other task leaves the locks alone. All commands are for the task's robot and lawful, the steps' in order with their payloads, a safe_stop after them exactly if cancelled. An executed task is cancelled exactly if a poll met a shutdown or an API cancel written since the mark; each of its commands has a poll of its own that said to go on, and once a cancel is written at most the command whose poll was already made is still sent; with its zone free it fails exactly for a failed publish or a forbidden step not cancelled before; a completed one held every step. Completions and the engine's status are accounted for |
| TaskRunner.Runner.Take | pkg/control-plane/tasks/runner.go:121-186 | A task that may start is refused exactly when its scenario is unknown or a capability is missing, otherwise marked running and given to assistant, engine or step loop; the same accounting as RunOne |
| TaskRunner.OneRunningThroughout | pkg/control-plane/tasks/runner.go:83-95 | The runner as coded, over any number of iterations and any interleaving with the others, never gave a robot two running tasks or a task two assistants, in the store or in any state on the way |
| TaskRunner.Runner.LetOthersWork | pkg/control-plane/api/server.go:2381-2413 | Before the k-th store call exactly those steps of the others for that call are played that the protocol lets them take; the runner has no part in them, and no task disappears or changes in more than status and completion time |
| TaskRunner.Runner.RunEngine | pkg/control-plane/tasks/runner.go:173-186 | The engine ends the task with its final status, reports it once and moves the robot contexts; in the protocol that is the finishing step |
| TaskRunner.CancelCause | pkg/control-plane/tasks/runner.go:208-226 | A task is cancelled exactly if some poll met a shutdown or came after an API cancel written since the mark |
| TaskRunner.CancelIsPrompt | pkg/control-plane/tasks/runner.go:218-268 | Every command of the plan was let through by a poll made before any cancel written since the mark, and all but the last were sent before it |
| RunnerProtocol.HeldStatus | pkg/control-plane/tasks/runner.go:151-226 | In every run, from marking until closing the status of the runner's task is running, or cancelled exactly if an API cancel was written since the mark |
| RunnerProtocol.CancelLostExactly | pkg/control-plane/api/server.go:2405-2413 | In any reachable state with one runner: after an API cancel is written some continuation still runs the task if and only if the runner has picked it and not yet marked it |
| RunnerProtocol.NeverRunsAgain | pkg/control-plane/tasks/runner.go:103-151 | A closed task that no runner holds unmarked never runs again, in every run with any number of runners |
| RunnerProtocol.ClosingOverwrites | pkg/control-plane/tasks/store.go:97-108 | Runner, engine and assistants close a task with the same result whether or not a cancel was written before |
| RunnerProtocol.EarlyCancelIsLost | pkg/control-plane/api/server.go:2405-2413 | There is a run in which a cancel is written between pick and mark and the task then runs |
| Scenarios.BuiltInPlans | pkg/control-plane/scenarios/catalog.go:52-126 | The arbiter never stops standby, patrol or an empty assistant plan, stops navigation exactly for velocities out of bounds and navigation to a store exactly without a target |
| Scenarios.BuiltInDurations | pkg/control-plane/tasks/runner.go:147-149 | Moving scenarios are held for the requested duration, 30 seconds by default |
| Scenarios.BuiltInCatalogue | pkg/control-plane/scenarios/catalog.go:52-126 | The built-in scenarios by identifier, with their commands, required capabilities and patrol velocities |
| Scenarios.HeldRule | pkg/control-plane/tasks/runner.go:228-235 | A step is held for its own duration, or with -1 for the task's, 30 seconds by default |
| TaskRunner.Runner.RunInline | pkg/control-plane/tasks/runner.go:188-299 | One completion; cancelled exactly if a poll said to stop; a patrol or navigation with a zone fails without a command if the zone is locked and otherwise has it locked for its robot at every command, any other task leaves the locks alone, and the lock map is restored; the commands are an allowed prefix of the plan, whole if completed, plus one safe_stop exactly if cancelled, each after a poll of its own; apart from the zone the task fails exactly for a failed publish or a forbidden step; a completed task held each step for its duration |
| TaskRunner.Runner.RunSteps | pkg/control-plane/tasks/runner.go:207-298 | The same for the step loop |
| TaskRunner.Runner.RunStep | pkg/control-plane/tasks/runner.go:208-292 | One poll, then cancelled, rejected, failed to publish, or sent and held; it fails exactly if the bus or the arbiter rejects the command |
| TaskRunner.Runner.Hold | pkg/control-plane/tasks/runner.go:270-292 | A poll precedes every sleep of 500 ms: the time passed is that of the sleeps after its polls that did not stop it, every poll comes before the deadline, and without a stop the deadline has passed |
| TaskRunner.Runner.Launch | pkg/control-plane/tasks/runner.go:208-268 | Exactly one poll, then cancellation, or the safety check and the publish with a failure exactly on their refusal |
| TaskRunner.Runner.Stopped | pkg/control-plane/tasks/runner.go:208-226 | Stops exactly on shutdown or when the stored status reads cancelled at that poll |
| TaskRunner.Runner.CancelTask | pkg/control-plane/tasks/runner.go:218-226 | Cancelled status and completion time, one completion, one safe_stop |
| Zones.ZoneStore.AcquireZone | pkg/control-plane/coordinator/store.go:43-55 | Succeeds exactly when the zone is free, and locks it |
| Zones.ZoneStore.ReleaseZone | pkg/control-plane/coordinator/store.go:59-68 | Succeeds exactly for the holder, and frees only that zone |
| Zones.ZoneStore.ReleaseAllForRobot | pkg/control-plane/coordinator/store.go:71-79 | Exactly the locks of other robots remain |
| Fleet.HasCapability | pkg/hal/capabilities.go:18-32 | True exactly for an absent robot or one having every required capability |
| RobotEngine.StateManager.Transition | internal/robot/state_manager.go:46-77 | Applied exactly when allowed from the current state; a refused first one leaves an idle context |
| RobotEngine.TransitionTable | internal/robot/state_machine.go:33-57 | The allowed transitions, pair by pair, and an error from anywhere |
| RobotEngine.StateManager.GetRobotState | internal/robot/execution_engine.go:253-270 | The stored state, idle for an unknown robot |
| RobotEngine.Engine.HandleResult | internal/robot/execution_engine.go:96-152 | Success, or a timeout that counts as one, gives status completed, the goal state and its event; anything else gives cancelled or failed as the result says, the error state, the failure event and a safe_stop; one completion and one store write in either case |
| RobotEngine.Engine.ExecuteTaskEntry | internal/robot/execution_engine.go:156-209 | Both navigation scenarios are handled, any other leaves everything unchanged. With a target, success, or a timeout if it is set to count, gives completed, no command, and from rest the goal state except for a navigation in error; otherwise cancelled or failed as the result says, a safe_stop and the error state; without a target always failed. Contexts, events and store in full |
| RobotEngine.StepRefines | internal/robot/execution_engine.go:96-209 | One executed task is one step of a three-state machine for its robot, and other robots' contexts are untouched |
| RobotEngine.EngineRefines | internal/robot/execution_engine.go:96-209 | Over any sequence of tasks every robot rests in idle, arrived or error as the three-state machine says |
| RobotEngine.RestingStateFromHistory | internal/robot/state_machine.go:33-57 | A robot is in error exactly when a task failed on it with no later successful return, otherwise arrived exactly when it got there and has not returned |
| RobotEngine.AnnouncementMatches | internal/robot/execution_engine.go:98-110 | The final broadcast state is the stored one except for a successful navigation of a robot in error |
| RobotEngine.ContextAfter | internal/robot/execution_engine.go:96-197 | What is kept of a robot at rest after a task: previous state, task, store name with its preference, coordinates and message |
| RobotEngine.FirstAnnouncementMatches | internal/robot/execution_engine.go:172-190 | The first broadcast state of a navigation is the stored one exactly for an idle robot, that of a return always; with its previous state it is true exactly if the robot was in that |
| NavigationExecutor.StepKeepsInvariant | internal/robot/navigation_executor.go:117-175 | Callbacks, ticks, cancellation and deadline keep the shared result tied to the first decisive sample; a success is never overwritten and an answer never changes |
| NavigationExecutor.RunInvariant | internal/robot/navigation_executor.go:110-175 | The same in every state of every interleaving |
| NavigationExecutor.OutcomeFixedByFirstSample | internal/robot/navigation_executor.go:110-175 | The done channel is closed at most once even without the once guard; the answer is the verdict on the first decisive sample, cancelled or timed out; success means that sample was online within the threshold |
| NavigationExecutor.VerdictIsReached | internal/robot/navigation_executor.go:117-160 | Conversely, for any telemetry whose first decisive sample is its last there is a run that answers with the verdict on it |
| NavigationExecutor.AnsweredOnce | internal/robot/navigation_executor.go:147-175 | The answer comes from one action: the first decisive sample on the done signal or a tick, cancelled on a done context unless the arrival was already heard, timed out on a passed deadline |
| NavigationExecutor.TaskEndsBy | internal/robot/execution_engine.go:96-152 | The status of the task by what ended its navigation, over all interleavings: arrival completes, offline fails, a done context cancels unless the arrival was heard before, a passed deadline completes or fails as the engine is set |
| NavigationExecutor.ArrivalLostToDeadline | internal/robot/navigation_executor.go:162-173 | A run in which an arrival heard between the tick and the reading of the clock is answered as a timeout |
| Workflows.WorkflowRunner.FindRobot | pkg/control-plane/orchestration/runner.go:149-197 | A robot of the tenant, unused, able and not running a task, or none exactly when there is no such robot |
| Workflows.WorkflowRunner.ChooseRobot | pkg/control-plane/orchestration/runner.go:76-111 | An assignable robot, or nothing only when the step is blocked |
| Workflows.WorkflowRunner.RunStep | pkg/control-plane/orchestration/runner.go:75-145 | A blocked step fails the run; otherwise one pending task for the chosen robot and its tenant with the step's scenario and payload, one ledger entry and the run's tenant |
| Workflows.WorkflowRunner.RunSteps | pkg/control-plane/orchestration/runner.go:75-146 | The steps are assigned in order until one is blocked |
| Workflows.WorkflowRunner.Run | pkg/control-plane/orchestration/runner.go:50-147 | Failed exactly when fewer tasks than steps were created; the ledger pairs the task identifiers with 0, 1, 2, ...; task i is new, pending, for robot i with its tenant or the default one, step i's scenario, and its payload or its zone alone; robot i is of the tenant, able, free, and the step's own or not used before |
| Workflows.GreedyCount | pkg/control-plane/orchestration/runner.go:172-197 | Identical unconstrained steps get exactly min(steps, eligible robots) tasks on pairwise distinct eligible robots |
| Workflows.CreatedCount | pkg/control-plane/orchestration/runner.go:113-145 | Identical unconstrained steps leave exactly min(steps, able robots) new tasks in the store, pending, for pairwise distinct robots that are of the tenant, have every required capability and had no running task |
| Workflows.SearchedRobotsAreFresh | pkg/control-plane/orchestration/runner.go:156-159 | A robot found by search is never shared with an earlier step, fixed robots included |
| Workflows.CreatedKeepsView | pkg/control-plane/orchestration/runner.go:106-111 | Tasks created by the run are pending, so eligibility does not change while it runs |
| Workflows.RunStore.Create | pkg/control-plane/orchestration/store.go:30-42 | A new running run with an empty ledger |
| Workflows.RunStore.UpdateStatus | pkg/control-plane/orchestration/store.go:73-81 | Only the status of that run changes |
| Workflows.RunStore.UpdateTenantID | pkg/control-plane/orchestration/store.go:84-92 | Only the tenant of that run changes |
| Workflows.RunStore.AddTask | pkg/control-plane/orchestration/store.go:95-103 | The entry is appended to that run's ledger |
| SimRobot.Robot.Tick | internal/simrobot/simulator.go:13-66 | One tick, and that a moving robot that reported its true distance still does |
| SimRobot.Robot.ApplyFailure | internal/simrobot/failures.go:6-70 | Effect of the pending injection, what remains of it, and whether the tick ends |
| SimRobot.InjectionLeaves | internal/simrobot/failures.go:6-70 | When an injection is due and what each kind leaves, field by field |
| SimRobot.FiresOnTime | internal/simrobot/failures.go:16-21 | Over any number of ticks an injection set to a tick count is pending until that count and has fired exactly once from then on |
| SimRobot.DelaysOnce | internal/simrobot/failures.go:54-67 | Over any number of ticks a delay slows the robot down exactly once, at its tick, and lasts for its number of ticks |
| SimRobot.Robot.HandleCommand | internal/simrobot/command_handler.go:28-119 | Effect of each command; commands for other robots change nothing |
| SimRobot.CommandLeaves | internal/simrobot/command_handler.go:28-119 | What each command leaves, field by field: nothing moves or charges the robot, only speak changes the text, only navigate_to, safe_stop and release_control the target and the reported distance |
| SimRobot.CommandMode | internal/simrobot/command_handler.go:39-111 | The mode after each command; a moving robot does not walk or stand on command but walks on a velocity |
| SimRobot.Robot.SetFailureConfig | internal/simrobot/robot.go:207-218 | Replaces or clears the pending injection and nothing else |
| SimRobot.MoveShortens | internal/simrobot/simulator.go:48-57 | A move of length step along the direction vector leaves exactly the distance minus step |
| SimRobot.DistanceUnique | internal/simrobot/command_handler.go:122-126 | The distance between two points is determined |
| SimRobot.ArrivalTime | internal/simrobot/simulator.go:29-63 | From distance d above 0.5 an undisturbed robot moves for exactly ceil((d - 0.5) / stride) ticks, each shortening the true distance by min(stride, distance), and arrives on the next |
| SimRobot.StepKeepsSafe | internal/simrobot/simulator.go:13-66 | Every tick, command and injection keeps the safety invariant |
| SimRobot.RunIsSafe | internal/simrobot/simulator.go:13-66 | In every run the speed is positive, a moving robot reports its true distance, an arrived one stands on its target, and no tick-ending injection fires twice |
| SimRobot.StoppedStaysPut | internal/simrobot/command_handler.go:86-92 | After a safe_stop the position is constant until the next accepted navigate_to, whatever ticks, commands and injections come |
| Arrival.TrueExactlyWithTargetShown | internal/simrobot/telemetry.go:17-54 | For every mode and threshold, over all runs from the start: published online telemetry within the threshold always means that the robot is within it of the commanded target if and only if the mode is navigating, returning or arrived, the modes whose telemetry carries the target |
| Arrival.FalseReport | internal/simrobot/command_handler.go:86-98 | For every other mode a run from the start ends in it away from the commanded target and reports zero |
| Arrival.FalseSuccess | internal/robot/navigation_executor.go:129-136 | For every target and every number of ticks that leaves the robot at least the threshold away: navigate_to, the ticks, safe_stop and one tick are a run at no moment of which the robot is within the threshold, and the executor hearing its telemetry answers success |
| Arrival.StaleSuccess | internal/robot/navigation_executor.go:105-136 | For every target at least the threshold away: an executor that hears a tick from before the robot handled its order answers success, the robot being within the threshold at no moment |
| Arrival.BelievableExactlyWithItsTarget | internal/robot/navigation_executor.go:105-136 | For every q, threshold and shown target, over all runs from the start, all telemetry heard and all interleavings: success always means that the robot is within the threshold of q at the deciding sample if and only if that sample shows a target and it is q |
| Arrival.HarmlessSuccessIsTrue | internal/robot/navigation_executor.go:129-136 | Once the robot heads for its target, through any commands but safe_stop, release_control and navigate_to elsewhere, and any injections but a stop on the way (and a timeout for thresholds above 999), in any interleaving, success means that the robot was online and truly within the threshold, and offline that an injection took it offline, unless the deciding sample is older than the order |
| Arrival.StepTracks | internal/simrobot/simulator.go:13-66 | Every such step keeps the report true of the target, or at the 999 of an injected timeout |
| Webhooks.CircuitBreaker.Allow | pkg/control-plane/webhooks/circuitbreaker.go:39-57 | Refuses exactly when the threshold of failures since the last success is reached and the latest failure is younger than the open duration |
| Webhooks.CircuitBreaker.RecordSuccess | pkg/control-plane/webhooks/circuitbreaker.go:60-65 | The breaker is the replay of its history with a success |
| Webhooks.CircuitBreaker.RecordFailure | pkg/control-plane/webhooks/circuitbreaker.go:68-80 | The breaker is the replay of its history with a failure |
| Webhooks.ClosedIffFewFailures | pkg/control-plane/webhooks/circuitbreaker.go:39-80 | In every interleaving of senders the state is closed exactly while failures since the last success are below the threshold |
| Webhooks.AllowIffHistory | pkg/control-plane/webhooks/circuitbreaker.go:39-57 | Half-open and the probing calls do not matter: the answer depends on the recorded outcomes and times alone |
| Webhooks.RefusesExactly | pkg/control-plane/webhooks/circuitbreaker.go:39-80 | The breaker refuses exactly if at least five failures have no success after them and the last failure is less than 60 seconds old |
| Webhooks.SendWithRetry | pkg/control-plane/webhooks/dispatcher.go:102-132 | With arbitrary other senders on the breaker at arbitrary times: sends stop at the first refusal or success or after retries + 1; every send was permitted by the breaker's history at that moment and came after 2^j - 1 seconds of sleep, which lie between start and end; the history afterwards is exactly the others' calls with this sender's asking and one outcome per send in order; exactly one delivery or one dead letter |
| Webhooks.Attempt | pkg/control-plane/webhooks/dispatcher.go:105-127 | One turn: refused exactly when the history does not permit it, with nothing slept or recorded; otherwise the backoff is slept, the request sent and its outcome recorded |
| Webhooks.SendTime | pkg/control-plane/webhooks/dispatcher.go:114-117 | Send j leaves exactly 2^j - 1 seconds of sleep plus the time of pauses and earlier requests after the start |
| EdgeQueue.EdgeStore.EnqueueCommand | pkg/control-plane/edges/memorystore.go:73-84 | The command is appended unacknowledged |
| EdgeQueue.EdgeStore.FetchAndAckPendingCommands | pkg/control-plane/edges/memorystore.go:87-99 | Returns the edge's pending commands in order and acknowledges exactly its entries |
| EdgeQueue.Relay | pkg/edge/sync.go:65-73 | Offers, in order and each at its position, exactly the commands of a batch that the edge supervisor allows |
| EdgeQueue.Conservation | pkg/control-plane/edges/memorystore.go:73-99 | Over any run, fetched commands of an edge followed by its pending ones are its enqueued ones in order |
| EdgeQueue.RelayIsSelection | pkg/edge/sync.go:60-73 | Even if responses are lost: of the arbiter-accepted commands that reach the edge exactly those that are not navigate_to are offered, in order, and what reaches it is an order-preserving at-most-once selection of the enqueued ones |
| EdgeQueue.OffersTheAllowed | pkg/edge/sync.go:60-73 | Over any run, of the commands in the batches that arrive exactly the allowed ones are offered, in order |
| EdgeQueue.NothingArrives | pkg/edge/sync.go:48-63 | An edge none of whose responses arrives gets nothing |
| Safety.EdgeIsArbiterButNavigate | pkg/edge/safety.go:16-53 | For every command the edge supervisor allows what the arbiter allows except navigate_to |
| Safety.ArbiterList | pkg/control-plane/arbiter/safety.go:16-69 | The closed list of allowed commands, with velocities up to 1.5, 1.5 and 2.0 in absolute value and a target for navigate_to |
| EdgeQueue.LosslessRelay | pkg/edge/sync.go:60-73 | Without lost responses, what reached the edge and what is pending are all commands enqueued, and exactly the allowed ones among them are offered or would be, in order |
| ReplayRing.RingBuffer.constructor | pkg/control-plane/streaming/buffer.go:46-54 | An empty ring of the given capacity, 1000 if that is not positive |
| ReplayRing.RingBuffer.Add | pkg/control-plane/streaming/buffer.go:57-64 | The event is logged with its robot and instant and an identifier of that instant, and walking the ring from the cursor yields exactly the last min(n, capacity) events, oldest first |
| ReplayRing.RingBuffer.GetSince | pkg/control-plane/streaming/buffer.go:68-83 | An identifier-sorted permutation of the buffered events above lastID; so a stream that last saw an instant gets of the events still in the ring the later ones but those of its second whose digits extend its own, and again those whose digits its own extend |
| ReplayRing.SortById | pkg/control-plane/streaming/buffer.go:81-82 | A sorted permutation |
| ReplayRing.ReconnectDelivers | pkg/control-plane/streaming/buffer.go:66-83 | A later buffered event is sent unless it falls into the same second and its digits extend those of lastID; an event that is not later is sent exactly in the mirror case |
| EventIds.IdOrderIsTimeOrder | pkg/control-plane/streaming/buffer.go:85-88 | Within a second, string order is time order exactly when neither trimmed fraction is a proper prefix of the other |
| EventIds.ExtensionSortsBefore | pkg/control-plane/streaming/buffer.go:85-88 | An extended fraction sorts before the shorter one although it is later |
| EventIds.SecondsDecide | pkg/control-plane/streaming/buffer.go:85-88 | Across seconds of equal width the seconds decide the order |
| EventIds.IdReadsBack | pkg/control-plane/streaming/buffer.go:85-88 | An identifier is the second, the nanoseconds as a decimal fraction of up to nine digits without trailing zeros unless they are zero, and Z; the digits read back as the nanoseconds |
| Placeholders.Ph | pkg/control-plane/registry/sqlstore.go:71-87 | Unchanged for other drivers; otherwise the rewriting, which keeps the meaning for all arguments if and only if no ? or $ is directly followed by a digit |
| Placeholders.RewriteMeaning | pkg/control-plane/registry/sqlstore.go:71-87 | Substituting by number into the result is substituting by position into the query, for all arguments, if and only if the query is unambiguous |
| Placeholders.SameTokens | pkg/control-plane/registry/sqlstore.go:77-85 | For unambiguous queries both readings are the same tokens, for any number of placeholders |
| Placeholders.SwallowedLiterals | pkg/control-plane/registry/sqlstore.go:78-81 | An ambiguous query loses literal characters |

## Left out

- ShortestPath.ShortestPath: distances are exact reals, so floating-point rounding is not captured; whether a given graph with negative edges is still answered with a shortest distance is not characterised.
- ShortestPath.PopMinimum: container/heap belongs to Go's library and is taken as a multiset with a least entry removed.
- Scheduler.NavigationBlocked: creation is a step without the preceding check of the API, which only allows more runs; visitor channels, speech and event broadcasts of the assistant are not part of the protocol.
- TaskRunner.Runner.RunOne: other users of the store work at any moment before a store or bus call, but zone locks are the runner's alone; time passes only in its own sleeps; the answer of the engine's navigation is an input here and comes from NavigationExecutor. Store errors are left out, since the in-memory store has none. A payload that decodes only in part counts as undecodable.
- NavigationExecutor.OutcomeFixedByFirstSample: starts after the commands are published; the three early failures of Execute (safety, publish, subscribe) are not modelled.
- Workflows.WorkflowRunner.Run: requires fixed robots to be registered, because an unregistered one is dereferenced as nil (pkg/control-plane/orchestration/runner.go:113 and 119), and non-empty robot names, which registration enforces (pkg/control-plane/api/server.go:1039). Concurrent changes of the task store during a run are not modelled.
- SimRobot.RunIsSafe: each injection is its own value; the predefined configurations are shared pointers whose counters survive a second injection. Reset and replay are left out, since they bypass the guarded paths.
- ReplayRing.RingBuffer.Add: container/ring is taken as a circular array; whole seconds are an opaque rendering.
- Placeholders.Ph: queries are valid strings; quotes and comments are not parsed, as in the code.
- Terminal task statuses are not sticky (a cancel that read a live status may be written after the task was closed), so nothing is claimed about them after closing.
- Webhook breaker lookup, subscription filtering and payload signing; registry listing beyond what allocation needs.
- SQL-backed stores, migrations and retention: their behaviour is the database engine's.
- HTTP handlers, authentication, tenants, OpenAPI: request plumbing.
- Message bus, metrics, tracing, secrets, cognitive and speech providers: foreign calls.
- Store-name matching, conversation templates and intent patterns: string heuristics.
- Robot adapters in Python, operator console, SDK clients, scripts.
- Idempotency keys, audit listing, event sequence and adapter contract checks: single map and list operations that no property here depends on.
