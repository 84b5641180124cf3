/** What a connection promises, stated on the rows and sockets over runs: who is let in, and what
    becomes of the relay row and the sockets however the rendezvous ends. */
module RelayLaws {
  import opened Wrappers
  import opened NetworkTables
  import opened RelayHubs
  import opened RelayProtocol
  import opened RelaySockets
  import opened RelaySlots
  import opened RelayRuns
  import opened RelayWitnesses

  // ----- Who is let in -----

  /** The relay row is there and not closed; a guest also needs its ticket, there and unspent. */
  predicate MayEnter(t: Tables, r: RelayId, role: Role) {
    && r in t.relays && t.relays[r].status != RelayStatus.Closed
    && (role == Guest ==> t.relays[r].ticket.Some? && t.relays[r].ticket.value in t.tickets && t.tickets[t.relays[r].ticket.value] == false)
  }

  /** A connection is accepted exactly then. It starts at the world of its row; a guest's ticket is
      spent, and nothing else changes. */
  lemma ConnectsExactly(s: State, h: SocketId, r: RelayId, role: Role)
    requires 1 <= s.cap && h !in s.handlers
    ensures var l := ConnectStep(h, r, role);
      && (Enabled(s, l) <==> MayEnter(s.tables, r, role))
      && (Enabled(s, l) ==>
            && Apply(s, l) == s.(tables := Apply(s, l).tables, handlers := s.handlers[h := Handler(r, s.tables.relays[r].world, role, Start)])
            && Apply(s, l).tables == s.tables.(tickets := Apply(s, l).tables.tickets)
            && Apply(s, l).tables.tickets.Keys == s.tables.tickets.Keys
            && forall t :: t in s.tables.tickets ==>
                 Apply(s, l).tables.tickets[t] == (s.tables.tickets[t] || (role == Guest && s.tables.relays[r].ticket == Some(t))))
  {
  }

  /** Over every run, nobody connects to a closed relay. */
  lemma {:induction false} NobodyEntersAClosedRelay(s: State, run: seq<Label>, r: RelayId, role: Role)
    requires 1 <= s.cap && r in s.tables.relays && s.tables.relays[r].status.Closed? && Exec(s, run).Some?
    ensures Connected(Exec(s, run).value, r, role) == Connected(s, r, role)
    decreases |run|
  {
    if run != [] {
      ClosedRelayStep(s, run[0], r);
      ConnectedMoves(s, run[0], r, role);
      NobodyEntersAClosedRelay(Apply(s, run[0]), run[1..], r, role);
    }
  }

  /** What ends a relay row from outside: its world is closed, by itself or by a PATCH that takes it
      from open to closed, or the process restarts. */
  predicate Ends(s: State, l: Label, r: RelayId) {
    r in s.tables.relays &&
    var w := s.tables.relays[r].world;
    w in s.tables.worlds &&
    (l == RestartStep || l == CloseStep(w) ||
     (l.UpdateStep? && l.world == w && l.status == Some(WorldStatus.Closed) && s.tables.worlds[w].status == WorldStatus.Open))
  }

  /** After that nobody connects to it, over every run. */
  lemma NobodyEntersAfterTheEnd(s: State, l: Label, run: seq<Label>, r: RelayId, role: Role)
    requires 1 <= s.cap && Ends(s, l, r) && Exec(s, [l] + run).Some?
    ensures Connected(Exec(s, [l] + run).value, r, role) == Connected(s, r, role)
  {
    ExecCons(s, l, run);
    ConnectedMoves(s, l, r, role);
    NobodyEntersAClosedRelay(Apply(s, l), run, r, role);
  }

  /** A restart drops every socket, parked or not, and leaves no handler running and no tunnel. */
  lemma RestartDropsEverything(s: State, h: SocketId)
    requires 1 <= s.cap && Enabled(s, RestartStep)
    ensures var t := Apply(s, RestartStep);
      && t.cap == s.cap && t.handlers.Keys == s.handlers.Keys && t.dropped == s.handlers.Keys
      && t.hub.active == 0 && t.hub.waiting == map[]
      && (h in s.handlers ==> t.handlers[h] == Handler(s.handlers[h].relay, s.handlers[h].world, s.handlers[h].role, Finished))
  {
  }

  // ----- What becomes of the relay row -----

  /** The handler has taken a peer and is not through with it. */
  predicate HasTaken(pc: Pc) { pc.HasPeer() || pc.Piped? || pc.Uncounted? || pc.Released? }

  predicate RowClosed(s: State, r: RelayId) {
    r in s.tables.relays && s.tables.relays[r].status == RelayStatus.Closed
  }

  lemma TakerStep(s: State, l: Label, h: SocketId)
    requires 1 <= s.cap && Linked(s) && Enabled(s, l) && h in s.handlers
    ensures h in Apply(s, l).handlers && Apply(s, l).handlers[h].relay == s.handlers[h].relay
    ensures HasTaken(s.handlers[h].pc) || (s.handlers[h].pc.Finished? && RowClosed(s, s.handlers[h].relay)) ==>
      var pc := Apply(s, l).handlers[h].pc;
      HasTaken(pc) || (pc.Finished? && RowClosed(Apply(s, l), s.handlers[h].relay))
  {
    var r := s.handlers[h].relay;
    if RowClosed(s, r) { ClosedRelayStep(s, l, r); }
    assert r in s.tables.relays;
  }

  lemma {:induction false} TakerInvariant(s: State, run: seq<Label>, h: SocketId)
    requires 1 <= s.cap && Linked(s) && Exec(s, run).Some? && h in s.handlers
    requires HasTaken(s.handlers[h].pc) || (s.handlers[h].pc.Finished? && RowClosed(s, s.handlers[h].relay))
    ensures var t := Exec(s, run).value;
      && h in t.handlers && t.handlers[h].relay == s.handlers[h].relay
      && (HasTaken(t.handlers[h].pc) || (t.handlers[h].pc.Finished? && RowClosed(t, s.handlers[h].relay)))
    decreases |run|
  {
    if run != [] {
      TakerStep(s, run[0], h);
      LinkedKept(s, run[0]);
      TakerInvariant(Apply(s, run[0]), run[1..], h);
    }
  }

  /** Over every run, once a handler that had taken a peer has finished, refused or piped, its relay
      row is closed: nobody parks again for a guest whose ticket is spent. */
  lemma FinishedTakersHaveClosed(cap: int, before: seq<Label>, run: seq<Label>, h: SocketId)
    requires 1 <= cap && Exec(Initial(cap), before).Some?
    requires var s := Exec(Initial(cap), before).value;
      1 <= s.cap && h in s.handlers && HasTaken(s.handlers[h].pc) && Exec(s, run).Some?
    ensures var s := Exec(Initial(cap), before).value;
      var t := Exec(s, run).value;
      && h in t.handlers
      && (t.handlers[h].pc.Finished? ==>
            s.handlers[h].relay in t.tables.relays && t.tables.relays[s.handlers[h].relay].status == RelayStatus.Closed)
  {
    RowsInvariant(Initial(cap), before);
    TakerInvariant(Exec(Initial(cap), before).value, run, h);
  }

  // ----- Minting and deleting tickets -----

  /** A relay row and its ticket can be minted exactly when both are new, for a world there is and
      for no other relay. The row is pending, the ticket unspent, and nothing else changes. */
  lemma MintsExactly(s: State, r: RelayId, w: WorldId, ticket: TicketId)
    requires 1 <= s.cap
    ensures var l := MintStep(r, w, ticket);
      var unused := ticket !in s.tables.tickets && forall q :: q in s.tables.relays ==> s.tables.relays[q].ticket != Some(ticket);
      && (Enabled(s, l) <==> r !in s.tables.relays && w in s.tables.worlds && unused)
      && (Enabled(s, l) ==>
            && Apply(s, l) == s.(tables := Tables(s.tables.worlds, Apply(s, l).tables.relays, Apply(s, l).tables.tickets))
            && Apply(s, l).tables.relays == s.tables.relays[r := Relay(w, Some(ticket), RelayStatus.Pending)]
            && Apply(s, l).tables.tickets == s.tables.tickets[ticket := false])
  {
  }

  /** Deleting ticket rows leaves the others as they are; a relay row loses its ticket exactly when
      that was deleted, and keeps its world and status. A guest can then enter exactly with a ticket
      that is left. */
  lemma TicketsDeleted(s: State, gone: set<TicketId>, r: RelayId, ticket: TicketId)
    requires 1 <= s.cap
    ensures var t, t' := s.tables, Apply(s, SweepTicketsStep(gone)).tables;
      && Apply(s, SweepTicketsStep(gone)) == s.(tables := t')
      && t'.worlds == t.worlds && t'.relays.Keys == t.relays.Keys
      && (ticket in t'.tickets <==> ticket in t.tickets && ticket !in gone)
      && (ticket in t'.tickets ==> t'.tickets[ticket] == t.tickets[ticket])
      && (r in t.relays && t.relays[r].ticket == None ==> t'.relays[r] == t.relays[r])
      && (r in t.relays && t.relays[r].ticket == Some(ticket) ==>
            t'.relays[r] == if ticket in gone then Relay(t.relays[r].world, None, t.relays[r].status) else t.relays[r])
      && (MayEnter(t', r, Guest) <==> MayEnter(t, r, Guest) && t.relays[r].ticket.value !in gone)
      && (MayEnter(t', r, Host) <==> MayEnter(t, r, Host))
  {
  }

  // ----- Waiting for the peer -----

  /** A connection that finds the opposite role parked takes that socket, which is then parked no
      longer; any other goes to park. Nothing but the hub's slot for the relay changes. */
  lemma TakesExactly(s: State, h: SocketId, r: RelayId)
    requires 1 <= s.cap && h in s.handlers && s.handlers[h].pc == Start && s.handlers[h].relay == r
    ensures Enabled(s, HandlerStep(h))
    ensures var t := Apply(s, HandlerStep(h));
      var pc := t.handlers[h].pc;
      && t == s.(hub := t.hub, handlers := s.handlers[h := s.handlers[h].(pc := pc)])
      && t.hub.active == s.hub.active
      && (if r in s.hub.waiting && s.hub.waiting[r].role == (if s.handlers[h].role == Host then Guest else Host)
          then pc == Admitting(s.hub.waiting[r].socket) && t.hub.waiting == s.hub.waiting - {r}
          else pc == Parking && t.hub.waiting == s.hub.waiting)
  {
  }

  /** A connection that comes to park waits if the slot is free; else it is dropped, and whoever
      waits there goes on waiting. */
  lemma ParksExactly(s: State, h: SocketId, r: RelayId)
    requires 1 <= s.cap && h in s.handlers && s.handlers[h].pc == Parking && s.handlers[h].relay == r
    ensures Enabled(s, HandlerStep(h))
    ensures var t := Apply(s, HandlerStep(h));
      && t.tables == s.tables && t.hub.active == s.hub.active && t.cap == s.cap
      && (if r in s.hub.waiting then
            && t.hub.waiting == s.hub.waiting && t.dropped == s.dropped + {h}
            && t.handlers == s.handlers[h := s.handlers[h].(pc := Finished)]
          else
            && t.hub.waiting == s.hub.waiting[r := Waiter(s.handlers[h].role, h)] && t.dropped == s.dropped
            && t.handlers == s.handlers[h := s.handlers[h].(pc := Waiting)])
  {
  }

  /** At the hub itself: a waiter stays whoever else comes to park, and
      a parked one is the newcomer exactly when nobody was there. */
  lemma WaiterStays(hub: Hub, r: RelayId, w: Waiter)
    ensures var after := AfterPark(hub, r, w);
      && after.active == hub.active
      && after.waiting == hub.waiting[r := if r in hub.waiting then hub.waiting[r] else w]
  {
  }

  /** A wait that ends, by timeout or because the peer came, clears the slot: it drops whatever
      still waits there, and the connection is through. */
  lemma WaitsEnd(s: State, h: SocketId, r: RelayId)
    requires 1 <= s.cap && h in s.handlers && s.handlers[h].pc == Waiting && s.handlers[h].relay == r
    ensures Exec(s, Turns(h, 2)).Some?
    ensures var t := Exec(s, Turns(h, 2)).value;
      && t.tables == s.tables && t.hub == s.hub.(waiting := s.hub.waiting - {r})
      && t.dropped == s.dropped + (if r in s.hub.waiting then {s.hub.waiting[r].socket} else {})
      && t.handlers == s.handlers[h := s.handlers[h].(pc := Finished)]
  {
    var s1 := AfterHandler(s, h);
    assert s1.handlers[h].pc == Removing;
    var s2 := AfterHandler(s1, h);
    assert s2.handlers == s.handlers[h := s.handlers[h].(pc := Finished)];
    assert AfterTurns(s1, h, 1) == s2 && CanTurn(s1, h, 1);
    assert AfterTurns(s, h, 2) == s2 && CanTurn(s, h, 2);
    ExecTurns(s, h, 2);
  }

  // ----- Finished connections -----

  /** Over every run a connection that has finished stays as it is. */
  lemma {:induction false} FinishedStays(s: State, run: seq<Label>, h: SocketId)
    requires 1 <= s.cap && h in s.handlers && s.handlers[h].pc == Finished && Exec(s, run).Some?
    ensures h in Exec(s, run).value.handlers && Exec(s, run).value.handlers[h] == s.handlers[h]
    ensures forall i :: 0 <= i < |run| ==> run[i] != HandlerStep(h)
    decreases |run|
  {
    if run != [] { FinishedStays(Apply(s, run[0]), run[1..], h); }
  }

  // ----- A tunnel opens -----

  /** The four turns of a handler that finds its peer parked and a free slot. */
  lemma OpeningTurns(s: State, b: SocketId, a: SocketId)
    requires 1 <= s.cap && b in s.handlers && s.handlers[b].pc == Start
    requires Takes(s.hub, s.handlers[b].relay, s.handlers[b].role) == Some(a) && HasFreeSlot(s.tables, s.handlers[b].world)
    ensures Exec(s, Turns(b, 4)) == Some(s.(
      handlers := s.handlers[b := s.handlers[b].(pc := Piping(a))],
      hub := Hub(s.hub.waiting - {s.handlers[b].relay}, (s.hub.active + 1) % USIZE_RANGE),
      tables := MarkActive(TryAdmit(s.tables, s.handlers[b].world), s.handlers[b].relay)))
  {
    var s1 := AfterHandler(s, b);
    assert s1.handlers[b].pc == Admitting(a);
    var s2 := AfterHandler(s1, b);
    assert s2.handlers[b].pc == Admitted(a);
    var s3 := AfterHandler(s2, b);
    assert s3.handlers[b].pc == Counted(a);
    var s4 := AfterHandler(s3, b);
    assert s4.handlers == s.handlers[b := s.handlers[b].(pc := Piping(a))];
    assert AfterTurns(s3, b, 1) == s4 && CanTurn(s3, b, 1);
    assert AfterTurns(s2, b, 2) == s4 && CanTurn(s2, b, 2);
    assert AfterTurns(s1, b, 3) == s4 && CanTurn(s1, b, 3);
    assert AfterTurns(s, b, 4) == s4 && CanTurn(s, b, 4);
    ExecTurns(s, b, 4);
  }

  /** Whoever comes second to an open world with room takes the waiter, of the other role, and pipes:
      one player and one tunnel more, the row active, the guest's ticket spent, nobody waiting. */
  lemma TunnelOpens(s: State, b: SocketId, a: SocketId, r: RelayId, role: Role)
    requires 1 <= s.cap && b !in s.handlers && MayEnter(s.tables, r, role)
    requires r in s.hub.waiting && s.hub.waiting[r].socket == a && s.hub.waiting[r].role != role
    requires var w := s.tables.relays[r].world;
      w in s.tables.worlds && s.tables.worlds[w].status == WorldStatus.Open && s.tables.worlds[w].currentPlayers < s.tables.worlds[w].maxPlayers
    requires s.hub.active + 1 < USIZE_RANGE
    ensures var run := [ConnectStep(b, r, role)] + Turns(b, 4);
      var relay := s.tables.relays[r];
      var world := s.tables.worlds[relay.world];
      && Exec(s, run).Some?
      && var t := Exec(s, run).value;
         && t.handlers == s.handlers[b := Handler(r, relay.world, role, Piping(a))]
         && t.hub == Hub(s.hub.waiting - {r}, s.hub.active + 1) && t.dropped == s.dropped
         && t.tables.relays == s.tables.relays[r := relay.(status := RelayStatus.Active)]
         && t.tables.worlds == s.tables.worlds[relay.world := world.(currentPlayers := world.currentPlayers + 1)]
         && t.tables.tickets == (if role == Guest then s.tables.tickets[relay.ticket.value := true] else s.tables.tickets)
  {
    ConnectsExactly(s, b, r, role);
    ExecCons(s, ConnectStep(b, r, role), Turns(b, 4));
    var s0 := Apply(s, ConnectStep(b, r, role));
    OpeningTurns(s0, b, a);
    assert s0.handlers[b := s0.handlers[b].(pc := Piping(a))] == s.handlers[b := Handler(r, s.tables.relays[r].world, role, Piping(a))];
  }

  // ----- A full world -----

  /** A guest that takes the parked host of a world without a free slot: both sockets are dropped,
      the row is closed, and the world and the tunnel counter are as they were. */
  lemma FullWorldRefuses(s: State, g: SocketId, h: SocketId, r: RelayId)
    requires 1 <= s.cap && g !in s.handlers && MayEnter(s.tables, r, Guest)
    requires r in s.hub.waiting && s.hub.waiting[r] == Waiter(Host, h)
    requires var w := s.tables.relays[r].world;
      w in s.tables.worlds && s.tables.worlds[w].currentPlayers >= s.tables.worlds[w].maxPlayers
    ensures var run := [ConnectStep(g, r, Guest)] + Turns(g, 3);
      && Exec(s, run).Some?
      && var t := Exec(s, run).value;
         && t.handlers == s.handlers[g := Handler(r, s.tables.relays[r].world, Guest, Finished)]
         && t.dropped == s.dropped + {g, h} && t.hub.active == s.hub.active && t.hub.waiting == s.hub.waiting - {r}
         && t.tables.worlds == s.tables.worlds
         && t.tables.relays == s.tables.relays[r := s.tables.relays[r].(status := RelayStatus.Closed)]
  {
    var w := s.tables.relays[r].world;
    ConnectsExactly(s, g, r, Guest);
    ExecCons(s, ConnectStep(g, r, Guest), Turns(g, 3));
    var s0 := Apply(s, ConnectStep(g, r, Guest));
    var s1 := AfterHandler(s0, g);
    assert s1.handlers[g].pc == Admitting(h);
    var s2 := AfterHandler(s1, g);
    assert s2.handlers[g].pc == Refusing(h);
    var s3 := AfterHandler(s2, g);
    assert s3.handlers == s.handlers[g := Handler(r, w, Guest, Finished)];
    assert AfterTurns(s2, g, 1) == s3 && CanTurn(s2, g, 1);
    assert AfterTurns(s1, g, 2) == s3 && CanTurn(s1, g, 2);
    assert AfterTurns(s0, g, 3) == s3 && CanTurn(s0, g, 3);
    ExecTurns(s0, g, 3);
  }

  // ----- The end of a tunnel -----

  lemma EndingTurns(s: State, g: SocketId, k: SocketId)
    requires 1 <= s.cap && g in s.handlers && s.handlers[g].pc == Piping(k)
    ensures Exec(s, Turns(g, 4)) == Some(s.(
      handlers := s.handlers[g := s.handlers[g].(pc := Finished)], dropped := s.dropped + {g, k},
      hub := s.hub.(active := (s.hub.active - 1) % USIZE_RANGE),
      tables := MarkClosed(Release(s.tables, s.handlers[g].world), s.handlers[g].relay)))
  {
    var s1 := AfterHandler(s, g);
    assert s1.handlers[g].pc == Piped;
    var s2 := AfterHandler(s1, g);
    assert s2.handlers[g].pc == Uncounted;
    var s3 := AfterHandler(s2, g);
    assert s3.handlers[g].pc == Released;
    var s4 := AfterHandler(s3, g);
    assert s4.handlers == s.handlers[g := s.handlers[g].(pc := Finished)];
    assert AfterTurns(s3, g, 1) == s4 && CanTurn(s3, g, 1);
    assert AfterTurns(s2, g, 2) == s4 && CanTurn(s2, g, 2);
    assert AfterTurns(s1, g, 3) == s4 && CanTurn(s1, g, 3);
    assert AfterTurns(s, g, 4) == s4 && CanTurn(s, g, 4);
    ExecTurns(s, g, 4);
  }

  /** A tunnel that ends drops both sockets, gives its slot and its count back and closes its row. */
  lemma TunnelEnds(s: State, g: SocketId, k: SocketId) returns (t: State)
    requires 1 <= s.cap && g in s.handlers && s.handlers[g].pc == Piping(k)
    requires s.handlers[g].relay in s.tables.relays && s.handlers[g].world in s.tables.worlds
    requires s.hub.active >= 1 && s.hub.active < USIZE_RANGE && s.tables.worlds[s.handlers[g].world].currentPlayers >= 1
    ensures Exec(s, Turns(g, 4)) == Some(t)
    ensures var w, r := s.handlers[g].world, s.handlers[g].relay;
      && t.handlers == s.handlers[g := s.handlers[g].(pc := Finished)]
      && t.dropped == s.dropped + {g, k} && t.hub == s.hub.(active := s.hub.active - 1)
      && t.tables.tickets == s.tables.tickets
      && t.tables.worlds == s.tables.worlds[w := s.tables.worlds[w].(currentPlayers := s.tables.worlds[w].currentPlayers - 1)]
      && t.tables.relays == s.tables.relays[r := s.tables.relays[r].(status := RelayStatus.Closed)]
  {
    EndingTurns(s, g, k);
    t := Exec(s, Turns(g, 4)).value;
    ReleasedAndClosed(s.tables, s.handlers[g].world, s.handlers[g].relay);
    assert (s.hub.active - 1) % USIZE_RANGE == s.hub.active - 1;
  }

  lemma ReleasedAndClosed(t: Tables, w: WorldId, r: RelayId)
    requires w in t.worlds && r in t.relays && t.worlds[w].currentPlayers >= 1
    ensures MarkClosed(Release(t, w), r) == Tables(
      t.worlds[w := t.worlds[w].(currentPlayers := t.worlds[w].currentPlayers - 1)],
      t.relays[r := t.relays[r].(status := RelayStatus.Closed)],
      t.tickets)
  {
  }
}
