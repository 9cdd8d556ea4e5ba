/** Commands, JSON payloads, tasks and the in-memory task store. */
module Tasks {
  import opened Common

  type RobotId = string
  type TaskId = nat
  type Time = nat

  /** A raw JSON message: absent, undecodable, or an object whose missing fields read as zero. */
  datatype Payload =
    | Absent
    | Malformed
    | Fields(linearX: real, linearY: real, angularZ: real, durationSec: int, zone: string,
             target: string, store: string, targetStore: string, node: string)

  datatype Command = Command(robot: RobotId, name: string, payload: Payload)

  datatype Status = Pending | Running | Completed | Failed | Cancelled

  datatype Task = Task(
    robot: RobotId, tenant: string, scenario: string, payload: Payload, status: Status, completedAt: Option<Time>)

  // Scenario identifiers. "navigation" with target coordinates is the return to base.
  const PATROL := "patrol"
  const NAVIGATION := "navigation"
  const NAVIGATE_TO_STORE := "navigate_to_store"
  const MALL_ASSISTANT := "mall_assistant"

  type TaskMap = map<TaskId, Task>

  function SetStatus(tasks: TaskMap, id: TaskId, status: Status): TaskMap {
    if id in tasks then tasks[id := tasks[id].(status := status)] else tasks
  }

  function Close(tasks: TaskMap, id: TaskId, status: Status, now: Time): TaskMap {
    if id in tasks then tasks[id := tasks[id].(status := status, completedAt := Some(now))] else tasks
  }

  predicate Terminal(s: Status) {
    s == Completed || s == Failed || s == Cancelled
  }

  predicate HasRunning(tasks: TaskMap, robot: RobotId) {
    exists id :: id in tasks && tasks[id].robot == robot && tasks[id].status == Running
  }

  /** List filters; an empty string filters nothing. */
  predicate Matches(t: Task, robot: RobotId, tenant: string, status: Option<Status>) {
    && (robot != "" ==> t.robot == robot)
    && (tenant != "" ==> t.tenant == tenant)
    && (status.Some? ==> t.status == status.value)
  }

  /** Map iteration has no fixed order, so List and HasRunningForRobot visit the tasks in any
      order. Identifiers are issued from a counter, which stands for random UUIDs. */
  class TaskStore {
    var tasks: TaskMap
    var nextId: TaskId

    constructor ()
      ensures Valid() && tasks == map[]
    {
      tasks, nextId := map[], 0;
    }

    ghost predicate Valid()
      reads this
    {
      forall id | id in tasks :: id < nextId
    }

    method Create(t: Task) returns (id: TaskId)
      requires Valid()
      modifies this
      ensures Valid() && id !in old(tasks) && tasks == old(tasks)[id := t]
      ensures id == old(nextId) && nextId == id + 1
    {
      id := nextId;
      tasks, nextId := tasks[id := t], id + 1;
    }

    method Get(id: TaskId) returns (t: Option<Task>)
      ensures t == if id in tasks then Some(tasks[id]) else None
    {
      t := if id in tasks then Some(tasks[id]) else None;
    }

    method List(robot: RobotId, tenant: string, status: Option<Status>) returns (ids: seq<TaskId>)
      ensures forall id :: id in ids <==>
                && id in tasks && (robot == "" || tasks[id].robot == robot)
                && (tenant == "" || tasks[id].tenant == tenant)
                && (status.None? || tasks[id].status == status.value)
      ensures forall i, j | 0 <= i < j < |ids| :: ids[i] != ids[j]
    {
      ids := [];
      var todo := tasks.Keys;
      while todo != {}
        invariant todo <= tasks.Keys
        invariant forall id :: id in ids <==> id in tasks.Keys - todo && Matches(tasks[id], robot, tenant, status)
        invariant forall i, j | 0 <= i < j < |ids| :: ids[i] != ids[j]
      {
        var id :| id in todo;
        todo := todo - {id};
        if Matches(tasks[id], robot, tenant, status) {
          ids := ids + [id];
        }
      }
    }

    method UpdateStatus(id: TaskId, status: Status)
      requires Valid()
      modifies this`tasks
      ensures Valid() && tasks == SetStatus(old(tasks), id, status)
      ensures tasks.Keys == old(tasks.Keys)
      ensures forall other | other in tasks && other != id :: tasks[other] == old(tasks)[other]
      ensures id in tasks ==> tasks[id] == old(tasks)[id].(status := status)
    {
      tasks := SetStatus(tasks, id, status);
    }

    method UpdateStatusAndCompletedAt(id: TaskId, status: Status, now: Time)
      requires Valid()
      modifies this`tasks
      ensures Valid() && tasks == Close(old(tasks), id, status, now)
      ensures tasks.Keys == old(tasks.Keys)
      ensures forall other | other in tasks && other != id :: tasks[other] == old(tasks)[other]
      ensures id in tasks ==> tasks[id] == old(tasks)[id].(status := status, completedAt := Some(now))
    {
      tasks := Close(tasks, id, status, now);
    }

    method HasRunningForRobot(robot: RobotId) returns (b: bool)
      ensures b <==> HasRunning(tasks, robot)
    {
      var todo := tasks.Keys;
      while todo != {}
        invariant todo <= tasks.Keys
        invariant forall id | id in tasks.Keys - todo :: !(tasks[id].robot == robot && tasks[id].status == Running)
      {
        var id :| id in todo;
        if tasks[id].robot == robot && tasks[id].status == Running {
          return true;
        }
        todo := todo - {id};
      }
      return false;
    }
  }
}
