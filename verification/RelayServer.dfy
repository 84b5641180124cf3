/** The running server: the store, the hub and the connections, advanced in place one
    statement of one connection at a time. */
module RelayServers {
  import opened Wrappers
  import opened NetworkTables
  import opened RelayHubs
  import opened RelayProtocol

  class RelayServer {
    const store: NetworkStore
    const hub: RelayHub
    var handlers: map<SocketId, Handler>
    var dropped: set<SocketId>

    ghost function Model(): State
      reads this, store, hub
    {
      State(store.cap, store.Rows(), hub.Value(), handlers, dropped)
    }

    constructor (cap: int)
      ensures Model() == Initial(cap) && fresh(store) && fresh(hub)
    {
      store := new NetworkStore(cap);
      hub := new RelayHub();
      handlers, dropped := map[], {};
    }

    method Goto(h: SocketId, pc: Pc)
      requires h in handlers
      modifies this`handlers
      ensures Model() == At(old(Model()), h, pc)
    {
      handlers := handlers[h := handlers[h].(pc := pc)];
    }

    /** `relay_ws`: refuse a closed relay or a spent ticket, else start a handler. */
    method Connect(h: SocketId, r: RelayId, role: Role) returns (accepted: bool)
      requires h !in handlers
      modifies this`handlers, store`tickets
      ensures accepted <==> Enabled(old(Model()), ConnectStep(h, r, role))
      ensures accepted ==> Model() == AfterConnect(old(Model()), h, r, role)
      ensures !accepted ==> Model() == old(Model())
    {
      if r !in store.relays || store.relays[r].status.Closed? { return false; }
      var relay := store.relays[r];
      if role.Guest? {
        if relay.ticket.None? || relay.ticket.value !in store.tickets || store.tickets[relay.ticket.value] {
          return false;
        }
        store.tickets := store.tickets[relay.ticket.value := true];
      }
      handlers := handlers[h := Handler(r, relay.world, role, Start)];
      return true;
    }

    /** The arm of `handle_relay` that found its peer parked. */
    method StepSecondParty(h: SocketId)
      requires h in handlers && (handlers[h].pc.HasPeer() || handlers[h].pc.MarkedActive())
      modifies this`handlers, this`dropped, store`worlds, store`relays, hub`active
      ensures Model() == AfterHandler(old(Model()), h)
    {
      var r, w := handlers[h].relay, handlers[h].world;
      match handlers[h].pc
      case Admitting(k) =>
        var admitted := store.TryAdmitPlayer(w);
        Goto(h, if admitted then Admitted(k) else Refusing(k));
      case Refusing(k) =>
        store.MarkRelayClosed(r);
        dropped := dropped + {h, k};
        Goto(h, Finished);
      case Admitted(k) =>
        hub.IncrActive();
        Goto(h, Counted(k));
      case Counted(k) =>
        store.MarkRelayActive(r);
        Goto(h, Piping(k));
      case Piping(k) =>
        dropped := dropped + {h, k};
        Goto(h, Piped);
      case Piped =>
        hub.DecrActive();
        Goto(h, Uncounted);
      case Uncounted =>
        store.ReleasePlayer(w);
        Goto(h, Released);
      case Released =>
        store.MarkRelayClosed(r);
        Goto(h, Finished);
    }

    /** `take`, and the arm of `handle_relay` that found nobody and waits. */
    method StepFirstParty(h: SocketId)
      requires h in handlers
      requires handlers[h].pc.Start? || handlers[h].pc.Parking? || handlers[h].pc.Parked()
      modifies this`handlers, this`dropped, hub`waiting
      ensures Model() == AfterHandler(old(Model()), h)
    {
      var r, role := handlers[h].relay, handlers[h].role;
      match handlers[h].pc
      case Start =>
        var peer := hub.Take(r, role);
        Goto(h, if peer.Some? then Admitting(peer.value) else Parking);
      case Parking =>
        var refused := hub.Park(r, role, h);
        if refused.Some? {
          dropped := dropped + {h};
        }
        Goto(h, if refused.Some? then Finished else Waiting);
      case Waiting =>
        Goto(h, Removing);
      case Removing =>
        var removed := hub.RemoveWaiting(r);
        if removed.Some? {
          dropped := dropped + {removed.value};
        }
        Goto(h, Finished);
    }
  }
}
