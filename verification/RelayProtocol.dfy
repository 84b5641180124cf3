/** The relay tunnel as a protocol: every connection is a handler with a program counter,
    every SQL statement and every hub lock acquisition is one step, and the steps of all
    handlers, the world endpoints, ticket cleanup and restarts interleave arbitrarily. */
module RelayProtocol {
  import opened Wrappers
  import opened NetworkTables
  import opened RelayHubs

  /** Where a `handle_relay` call stands, and the peer socket it holds, if any. */
  datatype Pc =
    | Start                       // before `take`
    | Admitting(peer: SocketId)   // took the peer; before `try_admit_player`
    | Refusing(peer: SocketId)    // world full; before `mark_relay_closed`
    | Admitted(peer: SocketId)    // before `incr_active`
    | Counted(peer: SocketId)     // before `mark_relay_active`
    | Piping(peer: SocketId)      // the tunnel runs
    | Piped                       // before `decr_active`
    | Uncounted                   // before `release_player`
    | Released                    // before the final `mark_relay_closed`
    | Parking                     // found no peer; before `park`
    | Waiting                     // parked; before the timeout or the done signal
    | Removing                    // before `remove_waiting`
    | Finished
  {
    predicate HasPeer() { Admitting? || Refusing? || Admitted? || Counted? || Piping? }

    /** The handler's own socket is still in its own hands. */
    predicate OwnsSocket() { Start? || Parking? || HasPeer() }

    predicate Parked() { Waiting? || Removing? }

    /** Between a successful admission and the release of its slot. */
    predicate HoldsSlot() { Admitted? || Counted? || Piping? || Piped? || Uncounted? }

    /** Between `mark_relay_active` and the final `mark_relay_closed`. */
    predicate MarkedActive() { Piping? || Piped? || Uncounted? || Released? }

    /** Between `incr_active` and `decr_active`. */
    predicate CountedActive() { Counted? || Piping? || Piped? }
  }

  /** A handler is named by its own socket. */
  datatype Handler = Handler(relay: RelayId, world: WorldId, role: Role, pc: Pc)

  datatype State = State(
    cap: int, tables: Tables, hub: Hub, handlers: map<SocketId, Handler>, dropped: set<SocketId>)

  datatype Label =
    | CreateStep(host: UserId, requested: Option<int>, newWorld: WorldId)
    | UpdateStep(world: WorldId, size: Option<int>, status: Option<WorldStatus>, policy: Option<InvitePolicy>)
    | CloseStep(world: WorldId)
    | MintStep(relay: RelayId, world: WorldId, ticket: TicketId)
    | ConnectStep(h: SocketId, relay: RelayId, role: Role)
    | HandlerStep(h: SocketId)
    | SweepTicketsStep(gone: set<TicketId>)
    | RestartStep

  function Initial(cap: int): State {
    State(cap, Tables(map[], map[], map[]), Hub(map[], 0), map[], {})
  }

  predicate Enabled(s: State, l: Label) {
    match l
    case CreateStep(_, _, w) => w !in s.tables.worlds
    case UpdateStep(_, _, _, _) => true
    case CloseStep(_) => true
    case MintStep(r, w, t) =>
      && r !in s.tables.relays && w in s.tables.worlds && t !in s.tables.tickets
      && forall q :: q in s.tables.relays ==> s.tables.relays[q].ticket != Some(t)
    case ConnectStep(h, r, role) =>
      && h !in s.handlers && r in s.tables.relays && !s.tables.relays[r].status.Closed?
      && (role.Guest? ==> TicketUsable(s.tables, r))
    case HandlerStep(h) => h in s.handlers && !s.handlers[h].pc.Finished?
    case SweepTicketsStep(_) => true
    case RestartStep => true
  }

  function At(s: State, h: SocketId, pc: Pc): State
    requires h in s.handlers
  {
    s.(handlers := s.handlers[h := s.handlers[h].(pc := pc)])
  }

  /** The next statement of handler `h`. */
  function AfterHandler(s: State, h: SocketId): State
    requires h in s.handlers
  {
    var r, w, role := s.handlers[h].relay, s.handlers[h].world, s.handlers[h].role;
    match s.handlers[h].pc
    case Start =>
      var peer := Takes(s.hub, r, role);
      At(s.(hub := AfterTake(s.hub, r, role)), h, if peer.Some? then Admitting(peer.value) else Parking)
    case Admitting(k) =>
      At(s.(tables := TryAdmit(s.tables, w)), h, if HasFreeSlot(s.tables, w) then Admitted(k) else Refusing(k))
    case Refusing(k) =>
      At(s.(tables := MarkClosed(s.tables, r), dropped := s.dropped + {h, k}), h, Finished)
    case Admitted(k) => At(s.(hub := AfterIncr(s.hub)), h, Counted(k))
    case Counted(k) => At(s.(tables := MarkActive(s.tables, r)), h, Piping(k))
    case Piping(k) => At(s.(dropped := s.dropped + {h, k}), h, Piped)
    case Piped => At(s.(hub := AfterDecr(s.hub)), h, Uncounted)
    case Uncounted => At(s.(tables := Release(s.tables, w)), h, Released)
    case Released => At(s.(tables := MarkClosed(s.tables, r)), h, Finished)
    case Parking =>
      if r in s.hub.waiting then At(s.(dropped := s.dropped + {h}), h, Finished)
      else At(s.(hub := AfterPark(s.hub, r, Waiter(role, h))), h, Waiting)
    case Waiting => At(s, h, Removing)
    case Removing =>
      var lost := if r in s.hub.waiting then {s.hub.waiting[r].socket} else {};
      At(s.(hub := AfterRemove(s.hub, r), dropped := s.dropped + lost), h, Finished)
    case Finished => s
  }

  /** `relay_ws` up to the upgrade: the guest's ticket is spent here. */
  function AfterConnect(s: State, h: SocketId, r: RelayId, role: Role): State
    requires Enabled(s, ConnectStep(h, r, role))
  {
    s.(tables := if role.Guest? then ConsumeTicket(s.tables, r) else s.tables,
       handlers := s.handlers[h := Handler(r, s.tables.relays[r].world, role, Start)])
  }

  /** Every connection drops with the process; the rows are then reconciled. */
  function AfterRestart(s: State): State {
    s.(tables := Reconcile(s.tables), hub := Hub(map[], 0), dropped := s.handlers.Keys,
       handlers := map h | h in s.handlers :: s.handlers[h].(pc := Finished))
  }

  function Apply(s: State, l: Label): State
    requires 1 <= s.cap && Enabled(s, l)
  {
    match l
    case CreateStep(host, requested, w) => s.(tables := CreateWorld(s.tables, s.cap, host, requested, w))
    case UpdateStep(w, size, status, policy) => s.(tables := UpdateWorld(s.tables, s.cap, w, size, status, policy))
    case CloseStep(w) => s.(tables := CloseWorld(s.tables, w))
    case MintStep(r, w, t) => s.(tables := MintRelay(s.tables, r, w, t))
    case ConnectStep(h, r, role) => AfterConnect(s, h, r, role)
    case HandlerStep(h) => AfterHandler(s, h)
    case SweepTicketsStep(gone) => s.(tables := DeleteTickets(s.tables, gone))
    case RestartStep => AfterRestart(s)
  }

  /** The state after a run of steps, or `None` when one of them is not enabled. */
  function Exec(s: State, run: seq<Label>): Option<State>
    requires 1 <= s.cap
    decreases |run|
  {
    if run == [] then Some(s)
    else if Enabled(s, run[0]) then Exec(Apply(s, run[0]), run[1..])
    else None
  }
}
