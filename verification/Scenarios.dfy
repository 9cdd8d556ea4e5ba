/** Scenarios, their expansion into commands, and what the built-in ones expand to. */
module Scenarios {
  import opened Tasks
  import opened Safety

  datatype Step = Step(command: string, payload: Payload, durationSec: int)

  datatype Scenario = Scenario(steps: seq<Step>, required: seq<string>)

  const NO_FIELDS := Fields(0.0, 0.0, 0.0, 0, "", "", "", "", "")

  function Decoded(p: Payload): Payload {
    if p.Fields? then p else NO_FIELDS
  }

  function TaskDuration(p: Payload): int {
    if Decoded(p).durationSec <= 0 then 30 else Decoded(p).durationSec
  }

  function StepPayload(step: Step, p: Payload): Payload {
    if !step.payload.Absent? then step.payload
    else if step.command == "cmd_vel" then (if p.Absent? then NO_FIELDS else p)
    else if step.command == "navigate_to" && !p.Absent? then p
    else step.payload
  }

  function HoldSeconds(step: Step, p: Payload): int {
    if step.durationSec == -1 then TaskDuration(p) else step.durationSec
  }

  function Held(step: Step, p: Payload): nat {
    if HoldSeconds(step, p) > 0 then HoldSeconds(step, p) else 0
  }

  /** The seconds that the first n steps of a scenario are held. */
  function TotalHeld(scenario: Scenario, p: Payload, n: nat): nat
    requires n <= |scenario.steps|
  {
    if n == 0 then 0 else TotalHeld(scenario, p, n - 1) + Held(scenario.steps[n - 1], p)
  }

  /** The commands a scenario expands to for a task. */
  function Plan(scenario: Scenario, task: Task): seq<Command> {
    seq(|scenario.steps|, i requires 0 <= i < |scenario.steps| => StepCommand(task, scenario.steps[i]))
  }

  function StepCommand(task: Task, step: Step): Command {
    Command(task.robot, step.command, StepPayload(step, task.payload))
  }

  lemma PlanSize(scenario: Scenario, task: Task)
    ensures |Plan(scenario, task)| == |scenario.steps|
  {
  }

  lemma PlanAt(scenario: Scenario, task: Task, i: nat)
    requires i < |scenario.steps|
    ensures |Plan(scenario, task)| == |scenario.steps|
    ensures Plan(scenario, task)[i] == StepCommand(task, scenario.steps[i])
  {
  }

  /** A step is held for its own duration, or with -1 for the task's, 30 seconds by default. */
  lemma HeldRule(step: Step, p: Payload)
    ensures Held(step, p) ==
            if step.durationSec == -1 then (if p.Fields? && p.durationSec > 0 then p.durationSec else 30)
            else if step.durationSec > 0 then step.durationSec else 0
  {
  }

  lemma HeldNone(scenario: Scenario, p: Payload)
    ensures TotalHeld(scenario, p, 0) == 0
  {
  }

  // ---- The built-in catalogue --------------------------------------------------------

  const STANDBY_SCENARIO := Scenario([Step("stand_mode", Absent, 0)], ["stand"])

  const PATROL_SCENARIO := Scenario(
    [Step("walk_mode", Absent, 0), Step("cmd_vel", NO_FIELDS.(linearX := 0.3), -1), Step("cmd_vel", NO_FIELDS, 0)],
    ["walk", "cmd_vel", "patrol"])

  const NAVIGATION_SCENARIO := Scenario([Step("walk_mode", Absent, 0), Step("cmd_vel", Absent, -1)],
                                        ["walk", "cmd_vel", "navigation"])

  const ASSISTANT_SCENARIO := Scenario([], ["walk", "stand", "navigation", "speech"])

  const STORE_SCENARIO := Scenario([Step("walk_mode", Absent, 0), Step("navigate_to", Absent, -1)],
                                   ["walk", "navigation"])

  const BUILT_IN: map<string, Scenario> := map[
    "standby" := STANDBY_SCENARIO, PATROL := PATROL_SCENARIO, NAVIGATION := NAVIGATION_SCENARIO,
    MALL_ASSISTANT := ASSISTANT_SCENARIO, NAVIGATE_TO_STORE := STORE_SCENARIO]

  /** The catalogue by identifier: the commands and the capabilities of each scenario. */
  lemma BuiltInCatalogue()
    ensures BUILT_IN.Keys == {"standby", "patrol", "navigation", "mall_assistant", "navigate_to_store"}
    ensures Commands("standby") == ["stand_mode"] && BUILT_IN["standby"].required == ["stand"]
    ensures Commands("patrol") == ["walk_mode", "cmd_vel", "cmd_vel"]
    ensures BUILT_IN["patrol"].required == ["walk", "cmd_vel", "patrol"]
    ensures Commands("navigation") == ["walk_mode", "cmd_vel"]
    ensures BUILT_IN["navigation"].required == ["walk", "cmd_vel", "navigation"]
    ensures Commands("mall_assistant") == []
    ensures BUILT_IN["mall_assistant"].required == ["walk", "stand", "navigation", "speech"]
    ensures Commands("navigate_to_store") == ["walk_mode", "navigate_to"]
    ensures BUILT_IN["navigate_to_store"].required == ["walk", "navigation"]
    // A patrol drives at 0.3 and then stops.
    ensures BUILT_IN["patrol"].steps[1].payload == Fields(0.3, 0.0, 0.0, 0, "", "", "", "", "")
    ensures BUILT_IN["patrol"].steps[2].payload == Fields(0.0, 0.0, 0.0, 0, "", "", "", "", "")
  {
  }

  ghost function Commands(id: string): seq<string>
    requires id in BUILT_IN
  {
    seq(|BUILT_IN[id].steps|, i requires 0 <= i < |BUILT_IN[id].steps| => BUILT_IN[id].steps[i].command)
  }

  ghost predicate AllAllowed(plan: seq<Command>) {
    forall i | 0 <= i < |plan| :: ArbiterAllow(plan[i])
  }

  /** Which built-in scenarios the arbiter can stop: standby and patrol never, navigation exactly for
      velocities out of bounds, navigation to a store exactly without a target. */
  lemma BuiltInPlans(task: Task)
    ensures AllAllowed(Plan(STANDBY_SCENARIO, task)) && AllAllowed(Plan(PATROL_SCENARIO, task))
            && AllAllowed(Plan(ASSISTANT_SCENARIO, task))
    ensures AllAllowed(Plan(NAVIGATION_SCENARIO, task)) <==> task.payload.Absent? || VelocityAllowed(task.payload)
    ensures AllAllowed(Plan(STORE_SCENARIO, task)) <==> task.payload.Fields? && task.payload.target != ""
  {
    var nav, store := Plan(NAVIGATION_SCENARIO, task), Plan(STORE_SCENARIO, task);
    assert nav[0].name == "walk_mode" && nav[1].name == "cmd_vel";
    assert nav[1].payload == if task.payload.Absent? then NO_FIELDS else task.payload;
    assert store[0].name == "walk_mode" && store[1].name == "navigate_to" && store[1].payload == task.payload;
  }

  /** Patrol and navigation are held for the requested duration, 30 seconds by default. */
  lemma BuiltInDurations(p: Payload)
    ensures TotalHeld(PATROL_SCENARIO, p, 3) == TotalHeld(NAVIGATION_SCENARIO, p, 2) == TotalHeld(STORE_SCENARIO, p, 2)
    ensures TotalHeld(PATROL_SCENARIO, p, 3) == if p.Fields? && p.durationSec > 0 then p.durationSec else 30
  {
    assert TotalHeld(PATROL_SCENARIO, p, 1) == 0 && TotalHeld(PATROL_SCENARIO, p, 2) == TaskDuration(p);
    assert TotalHeld(NAVIGATION_SCENARIO, p, 1) == 0 && TotalHeld(STORE_SCENARIO, p, 1) == 0;
  }
}
