/** The in-memory rendezvous hub: at most one parked socket per relay id, and the count
    of running tunnels. */
module RelayHubs {
  import opened Wrappers
  import opened NetworkTables

  type SocketId = int

  datatype Role = Host | Guest

  predicate RolesPair(a: Role, b: Role) { a != b }

  datatype Waiter = Waiter(role: Role, socket: SocketId)

  datatype Hub = Hub(waiting: map<RelayId, Waiter>, active: nat)

  /** The range of the `AtomicUsize` counter; both of its operations wrap. */
  const USIZE_RANGE := 0x1_0000_0000_0000_0000

  /** The peer `take` hands out: the parked socket, when its role is the opposite one. */
  function Takes(hub: Hub, r: RelayId, incoming: Role): Option<SocketId> {
    if r in hub.waiting && RolesPair(hub.waiting[r].role, incoming)
    then Some(hub.waiting[r].socket) else None
  }

  function AfterTake(hub: Hub, r: RelayId, incoming: Role): Hub {
    if Takes(hub, r, incoming).Some? then hub.(waiting := hub.waiting - {r}) else hub
  }

  function AfterPark(hub: Hub, r: RelayId, waiter: Waiter): Hub {
    if r in hub.waiting then hub else hub.(waiting := hub.waiting[r := waiter])
  }

  function AfterRemove(hub: Hub, r: RelayId): Hub {
    hub.(waiting := hub.waiting - {r})
  }

  function AfterIncr(hub: Hub): Hub {
    hub.(active := (hub.active + 1) % USIZE_RANGE)
  }

  function AfterDecr(hub: Hub): Hub {
    hub.(active := (hub.active - 1) % USIZE_RANGE)
  }

  class RelayHub {
    var waiting: map<RelayId, Waiter>
    var active: nat

    ghost function Value(): Hub
      reads this
    {
      Hub(waiting, active)
    }

    constructor ()
      ensures Value() == Hub(map[], 0)
    {
      waiting, active := map[], 0;
    }

    /** Hands the socket back when something is parked already, leaving that untouched. */
    method Park(r: RelayId, role: Role, socket: SocketId) returns (refused: Option<SocketId>)
      modifies this`waiting
      ensures Value() == AfterPark(old(Value()), r, Waiter(role, socket))
      ensures refused == if r in old(waiting) then Some(socket) else None
      ensures forall id :: id in old(waiting) ==> id in waiting && waiting[id] == old(waiting)[id]
    {
      if r in waiting { return Some(socket); }
      waiting := waiting[r := Waiter(role, socket)];
      return None;
    }

    method Take(r: RelayId, incoming: Role) returns (peer: Option<SocketId>)
      modifies this`waiting
      ensures peer == Takes(old(Value()), r, incoming)
      ensures Value() == AfterTake(old(Value()), r, incoming)
    {
      if r !in waiting || !RolesPair(waiting[r].role, incoming) { return None; }
      peer := Some(waiting[r].socket);
      waiting := waiting - {r};
    }

    method RemoveWaiting(r: RelayId) returns (peer: Option<SocketId>)
      modifies this`waiting
      ensures peer == if r in old(waiting) then Some(old(waiting)[r].socket) else None
      ensures Value() == AfterRemove(old(Value()), r)
    {
      peer := if r in waiting then Some(waiting[r].socket) else None;
      waiting := waiting - {r};
    }

    method IncrActive()
      modifies this`active
      ensures Value() == AfterIncr(old(Value()))
    {
      active := (active + 1) % USIZE_RANGE;
    }

    method DecrActive()
      modifies this`active
      ensures Value() == AfterDecr(old(Value()))
    {
      active := (active - 1) % USIZE_RANGE;
    }
  }
}
