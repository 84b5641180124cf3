/** The `world_sessions`, `relay_sessions` and `join_tickets` rows the relay protocol
    works on, one function per SQL statement (or per committed transaction), and the
    store whose methods carry those statements out in place. */
module NetworkTables {
  import opened Wrappers

  type UserId = int
  type WorldId = int
  type RelayId = int
  type TicketId = int

  datatype InvitePolicy = HostOnly | FriendsOfFriends

  datatype WorldStatus = Open | Closed

  datatype World = World(
    host: UserId, status: WorldStatus, maxPlayers: int, currentPlayers: int, policy: InvitePolicy)

  datatype RelayStatus = Pending | Active | Closed

  datatype Relay = Relay(world: WorldId, ticket: Option<TicketId>, status: RelayStatus)

  /** `tickets` maps a live ticket row to whether it has been consumed. */
  datatype Tables = Tables(
    worlds: map<WorldId, World>, relays: map<RelayId, Relay>, tickets: map<TicketId, bool>)

  function Clamp(value: int, cap: int): (r: int)
    requires 1 <= cap
    ensures 1 <= r <= cap
  {
    if value < 1 then 1 else if value > cap then cap else value
  }

  // ----- relay.rs: the four statements of a tunnel -----

  predicate HasFreeSlot(t: Tables, w: WorldId) {
    w in t.worlds && t.worlds[w].status.Open? && t.worlds[w].currentPlayers < t.worlds[w].maxPlayers
  }

  function WithPlayers(t: Tables, w: WorldId, players: int): Tables
    requires w in t.worlds
  {
    t.(worlds := t.worlds[w := t.worlds[w].(currentPlayers := players)])
  }

  function TryAdmit(t: Tables, w: WorldId): Tables {
    if HasFreeSlot(t, w) then WithPlayers(t, w, t.worlds[w].currentPlayers + 1) else t
  }

  function Release(t: Tables, w: WorldId): Tables {
    if w !in t.worlds then t
    else if t.worlds[w].currentPlayers - 1 > 0 then WithPlayers(t, w, t.worlds[w].currentPlayers - 1)
    else WithPlayers(t, w, 0)
  }

  function WithRelayStatus(t: Tables, r: RelayId, status: RelayStatus): Tables
    requires r in t.relays
  {
    t.(relays := t.relays[r := t.relays[r].(status := status)])
  }

  function MarkActive(t: Tables, r: RelayId): Tables {
    if r in t.relays && !t.relays[r].status.Closed? then WithRelayStatus(t, r, RelayStatus.Active) else t
  }

  function MarkClosed(t: Tables, r: RelayId): Tables {
    if r in t.relays then WithRelayStatus(t, r, RelayStatus.Closed) else t
  }

  // ----- worlds.rs -----

  predicate HostsOpen(t: Tables, w: WorldId, host: UserId) {
    w in t.worlds && t.worlds[w].status.Open? && t.worlds[w].host == host
  }

  /** The partial unique index `world_sessions_one_open_per_host`. */
  ghost predicate OneOpenPerHost(t: Tables) {
    forall v, w, host :: HostsOpen(t, v, host) && HostsOpen(t, w, host) ==> v == w
  }

  /** `INSERT ... ON CONFLICT (host) WHERE open DO UPDATE SET max_players, current_players = 0`. */
  function CreateWorld(t: Tables, cap: int, host: UserId, requested: Option<int>, newId: WorldId): Tables
    requires 1 <= cap
  {
    var size := Clamp(if requested.Some? then requested.value else cap, cap);
    t.(worlds :=
      if exists w :: w in t.worlds && HostsOpen(t, w, host) then
        map w | w in t.worlds ::
          if HostsOpen(t, w, host) then t.worlds[w].(maxPlayers := size, currentPlayers := 0) else t.worlds[w]
      else
        t.worlds[newId := World(host, Open, size, 0, HostOnly)])
  }

  /** `close_world_cleanup`: close the world's relay rows and zero its player count. */
  function CleanupWorld(t: Tables, w: WorldId): Tables
    requires w in t.worlds
  {
    WithPlayers(
      t.(relays := map r | r in t.relays ::
           if t.relays[r].world == w then t.relays[r].(status := RelayStatus.Closed) else t.relays[r]),
      w, 0)
  }

  /** `DELETE /world-sessions/:id`. */
  function CloseWorld(t: Tables, w: WorldId): Tables {
    if w !in t.worlds then t
    else CleanupWorld(t.(worlds := t.worlds[w := t.worlds[w].(status := WorldStatus.Closed)]), w)
  }

  function PatchedWorld(
    world: World, cap: int, size: Option<int>, status: Option<WorldStatus>, policy: Option<InvitePolicy>): World
    requires 1 <= cap
  {
    world.(
      maxPlayers := if size.Some? then Clamp(size.value, cap) else world.maxPlayers,
      status := if status.Some? then status.value else world.status,
      policy := if policy.Some? then policy.value else world.policy)
  }

  /** Whether a PATCH takes the world from open to closed. */
  predicate PatchCloses(t: Tables, w: WorldId, status: Option<WorldStatus>) {
    w in t.worlds && t.worlds[w].status.Open? && status == Some(WorldStatus.Closed)
  }

  /** Whether the unique index refuses the PATCH: it would give the host a second open world. */
  predicate PatchCollides(t: Tables, w: WorldId, status: Option<WorldStatus>) {
    w in t.worlds && status == Some(WorldStatus.Open) &&
    exists v :: v in t.worlds && v != w && HostsOpen(t, v, t.worlds[w].host)
  }

  /** `PATCH /world-sessions/:id`, its read and its transaction taken as one step. */
  function UpdateWorld(
    t: Tables, cap: int, w: WorldId,
    size: Option<int>, status: Option<WorldStatus>, policy: Option<InvitePolicy>): Tables
    requires 1 <= cap
  {
    if w !in t.worlds || PatchCollides(t, w, status) then t
    else
      var patched := t.(worlds := t.worlds[w := PatchedWorld(t.worlds[w], cap, size, status, policy)]);
      if PatchCloses(t, w, status) then CleanupWorld(patched, w) else patched
  }

  // ----- join.rs, cleanup.rs, db.rs -----

  /** `issue_ticket_and_relay_tx`: a fresh ticket and its pending relay row, together. */
  function MintRelay(t: Tables, r: RelayId, w: WorldId, ticket: TicketId): Tables {
    t.(relays := t.relays[r := Relay(w, Some(ticket), RelayStatus.Pending)],
       tickets := t.tickets[ticket := false])
  }

  predicate TicketUsable(t: Tables, r: RelayId) {
    r in t.relays && t.relays[r].ticket.Some? && t.relays[r].ticket.value in t.tickets
    && !t.tickets[t.relays[r].ticket.value]
  }

  /** `validate_guest_ticket`, its check and its consumption taken as one step. */
  function ConsumeTicket(t: Tables, r: RelayId): Tables
    requires TicketUsable(t, r)
  {
    t.(tickets := t.tickets[t.relays[r].ticket.value := true])
  }

  /** Deleting ticket rows; `relay_sessions.join_ticket_id` is `ON DELETE SET NULL`. */
  function DeleteTickets(t: Tables, gone: set<TicketId>): Tables {
    t.(tickets := t.tickets - gone,
       relays := map r | r in t.relays ::
         if t.relays[r].ticket.Some? && t.relays[r].ticket.value in gone
         then t.relays[r].(ticket := None) else t.relays[r])
  }

  /** `reconcile_after_restart`. */
  function Reconcile(t: Tables): Tables {
    t.(relays := map r | r in t.relays :: t.relays[r].(status := RelayStatus.Closed),
       worlds := map w | w in t.worlds ::
         if t.worlds[w].status.Open? then t.worlds[w].(currentPlayers := 0) else t.worlds[w])
  }

  /** The rows themselves, changed in place one statement at a time. */
  class NetworkStore {
    var worlds: map<WorldId, World>
    var relays: map<RelayId, Relay>
    var tickets: map<TicketId, bool>
    const cap: int

    ghost function Rows(): Tables
      reads this
    {
      Tables(worlds, relays, tickets)
    }

    constructor (cap: int)
      ensures Rows() == Tables(map[], map[], map[]) && this.cap == cap
    {
      worlds, relays, tickets := map[], map[], map[];
      this.cap := cap;
    }

    method Create(host: UserId, requested: Option<int>, newId: WorldId)
      requires 1 <= cap && newId !in worlds
      modifies this`worlds
      ensures Rows() == CreateWorld(old(Rows()), cap, host, requested, newId)
    {
      var size := Clamp(if requested.Some? then requested.value else cap, cap);
      if exists w :: w in worlds && worlds[w].status.Open? && worlds[w].host == host {
        worlds := map w | w in worlds ::
          if worlds[w].status.Open? && worlds[w].host == host
          then worlds[w].(maxPlayers := size, currentPlayers := 0) else worlds[w];
      } else {
        worlds := worlds[newId := World(host, WorldStatus.Open, size, 0, HostOnly)];
      }
    }

    method TryAdmitPlayer(w: WorldId) returns (admitted: bool)
      modifies this`worlds
      ensures admitted <==> HasFreeSlot(old(Rows()), w)
      ensures Rows() == TryAdmit(old(Rows()), w)
    {
      admitted := w in worlds && worlds[w].status.Open? && worlds[w].currentPlayers < worlds[w].maxPlayers;
      if admitted {
        worlds := worlds[w := worlds[w].(currentPlayers := worlds[w].currentPlayers + 1)];
      }
    }

    method ReleasePlayer(w: WorldId)
      modifies this`worlds
      ensures Rows() == Release(old(Rows()), w)
    {
      if w in worlds {
        var left := worlds[w].currentPlayers - 1;
        worlds := worlds[w := worlds[w].(currentPlayers := if left > 0 then left else 0)];
      }
    }

    method MarkRelayActive(r: RelayId)
      modifies this`relays
      ensures Rows() == MarkActive(old(Rows()), r)
    {
      if r in relays && relays[r].status != RelayStatus.Closed {
        relays := relays[r := relays[r].(status := RelayStatus.Active)];
      }
    }

    method MarkRelayClosed(r: RelayId)
      modifies this`relays
      ensures Rows() == MarkClosed(old(Rows()), r)
    {
      if r in relays {
        relays := relays[r := relays[r].(status := RelayStatus.Closed)];
      }
    }

    method CleanupClosedWorld(w: WorldId)
      requires w in worlds
      modifies this`worlds, this`relays
      ensures Rows() == CleanupWorld(old(Rows()), w)
    {
      relays := map r | r in relays ::
        if relays[r].world == w then relays[r].(status := RelayStatus.Closed) else relays[r];
      worlds := worlds[w := worlds[w].(currentPlayers := 0)];
    }

    method Close(w: WorldId) returns (found: bool)
      modifies this`worlds, this`relays
      ensures found <==> w in old(worlds)
      ensures Rows() == CloseWorld(old(Rows()), w)
    {
      found := w in worlds;
      if found {
        worlds := worlds[w := worlds[w].(status := WorldStatus.Closed)];
        CleanupClosedWorld(w);
      }
    }

    method Update(w: WorldId, size: Option<int>, status: Option<WorldStatus>, policy: Option<InvitePolicy>)
      returns (updated: bool)
      requires 1 <= cap
      modifies this`worlds, this`relays
      ensures updated <==> w in old(worlds) && !PatchCollides(old(Rows()), w, status)
      ensures Rows() == UpdateWorld(old(Rows()), cap, w, size, status, policy)
    {
      if w !in worlds { return false; }
      var world := worlds[w];
      if status == Some(WorldStatus.Open)
         && exists v :: v in worlds && v != w && worlds[v].status.Open? && worlds[v].host == world.host {
        return false;
      }
      var closing := world.status.Open? && status == Some(WorldStatus.Closed);
      worlds := worlds[w := PatchedWorld(world, cap, size, status, policy)];
      if closing {
        CleanupClosedWorld(w);
      }
      return true;
    }

    method ReconcileAfterRestart()
      modifies this`worlds, this`relays
      ensures Rows() == Reconcile(old(Rows()))
    {
      relays := map r | r in relays :: relays[r].(status := RelayStatus.Closed);
      worlds := map w | w in worlds ::
        if worlds[w].status.Open? then worlds[w].(currentPlayers := 0) else worlds[w];
    }
  }
}
