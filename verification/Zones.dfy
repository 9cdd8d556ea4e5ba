/** Zone locks of the coordinator. */
module Zones {
  import opened Tasks

  type Zone = string
  type Locks = map<Zone, RobotId>

  class ZoneStore {
    var locks: Locks

    constructor ()
      ensures locks == map[]
    {
      locks := map[];
    }

    method AcquireZone(robot: RobotId, zone: Zone) returns (acquired: bool)
      modifies this
      ensures acquired <==> zone !in old(locks)
      ensures locks == if acquired then old(locks)[zone := robot] else old(locks)
    {
      if zone in locks {
        return false;
      }
      locks := locks[zone := robot];
      return true;
    }

    method ReleaseZone(robot: RobotId, zone: Zone) returns (released: bool)
      modifies this
      ensures released <==> zone in old(locks) && old(locks)[zone] == robot
      ensures locks == if released then old(locks) - {zone} else old(locks)
    {
      if zone !in locks || locks[zone] != robot {
        return false;
      }
      locks := locks - {zone};
      return true;
    }

    method ReleaseAllForRobot(robot: RobotId)
      modifies this
      ensures locks == map z | z in old(locks) && old(locks)[z] != robot :: old(locks)[z]
    {
      var todo := locks.Keys;
      while todo != {}
        invariant todo <= old(locks).Keys
        invariant locks == map z | z in old(locks) && (z in todo || old(locks)[z] != robot) :: old(locks)[z]
      {
        var z :| z in todo;
        todo := todo - {z};
        if locks[z] == robot {
          locks := locks - {z};
        }
      }
    }
  }
}
