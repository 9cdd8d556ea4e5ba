/** Registered robots and their capabilities. */
module Fleet {
  import opened Common

  datatype Robot = Robot(tenant: string, capabilities: seq<string>)

  predicate HasAll(robot: Robot, required: seq<string>) {
    forall c | c in required :: c in robot.capabilities
  }

  /** An absent robot passes, as does an empty requirement. */
  method HasCapability(robot: Option<Robot>, required: seq<string>) returns (ok: bool)
    ensures ok <==> robot.None? || HasAll(robot.value, required)
  {
    if robot.None? || |required| == 0 {
      return true;
    }
    var caps := {};
    for i := 0 to |robot.value.capabilities|
      invariant caps == set c | c in robot.value.capabilities[..i]
    {
      caps := caps + {robot.value.capabilities[i]};
    }
    assert robot.value.capabilities[..|robot.value.capabilities|] == robot.value.capabilities;
    for i := 0 to |required|
      invariant forall c | c in required[..i] :: c in robot.value.capabilities
    {
      if required[i] !in caps {
        return false;
      }
    }
    assert required[..|required|] == required;
    return true;
  }
}
