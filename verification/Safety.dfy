/** The two safety supervisors: the arbiter of the control plane and its edge-side copy. */
module Safety {
  import opened Tasks

  predicate VelocityAllowed(p: Payload) {
    && p.Fields?
    && -1.5 <= p.linearX <= 1.5
    && -1.5 <= p.linearY <= 1.5
    && -2.0 <= p.angularZ <= 2.0
  }

  /** pkg/control-plane/arbiter */
  predicate ArbiterAllow(c: Command) {
    match c.name
    case "safe_stop" => true
    case "release_control" => true
    case "zero_mode" => true
    case "stand_mode" => true
    case "walk_mode" => true
    case "cmd_vel" => VelocityAllowed(c.payload)
    case "navigate_to" => c.payload.Fields? && c.payload.target != ""
    case _ => false
  }

  /** pkg/edge */
  predicate EdgeAllow(c: Command) {
    match c.name
    case "safe_stop" => true
    case "release_control" => true
    case "zero_mode" => true
    case "stand_mode" => true
    case "walk_mode" => true
    case "cmd_vel" => VelocityAllowed(c.payload)
    case _ => false
  }

  /** The closed list of what the arbiter lets through, with the bounds on velocities. */
  ghost predicate Lawful(c: Command) {
    || c.name in {"safe_stop", "release_control", "zero_mode", "stand_mode", "walk_mode"}
    || (c.name == "cmd_vel" && c.payload.Fields? && Abs(c.payload.linearX) <= 1.5
        && Abs(c.payload.linearY) <= 1.5 && Abs(c.payload.angularZ) <= 2.0)
    || (c.name == "navigate_to" && c.payload.Fields? && c.payload.target != "")
  }

  function Abs(x: real): real {
    if x < 0.0 then -x else x
  }

  lemma ArbiterList(c: Command)
    ensures ArbiterAllow(c) <==> Lawful(c)
  {
  }

  /** The edge supervisor is the arbiter without navigate_to, for every command. */
  lemma EdgeIsArbiterButNavigate(c: Command)
    ensures EdgeAllow(c) <==> ArbiterAllow(c) && c.name != "navigate_to"
  {
  }
}
