/** What holds after every run of the relay protocol, and the runs that show which
    stronger claims fail. */
module RelayRuns {
  import opened Wrappers
  import opened NetworkTables
  import opened RelayHubs
  import opened RelayProtocol
  import opened RelaySockets
  import opened RelaySlots

  lemma {:induction false} RowsInvariant(s: State, run: seq<Label>)
    requires Rows(s) && Exec(s, run).Some?
    ensures Rows(Exec(s, run).value)
    decreases |run|
  {
    if run != [] {
      RowsKept(s, run[0]);
      RowsInvariant(Apply(s, run[0]), run[1..]);
    }
  }

  /** After any run, a relay row reads active only while its world is open and some handler
      is between marking it active and marking it closed. */
  lemma ActiveRelaysAreLive(cap: int, run: seq<Label>, r: RelayId)
    requires 1 <= cap && Exec(Initial(cap), run).Some?
    requires var t := Exec(Initial(cap), run).value.tables;
      r in t.relays && t.relays[r].status.Active?
    ensures var s := Exec(Initial(cap), run).value;
      WorldOpen(s, s.tables.relays[r].world) && HasLiveHandler(s, r)
  {
    RowsInvariant(Initial(cap), run);
    assert ActiveRowOk(Exec(Initial(cap), run).value, r);
  }

  /** No step, hence no run, takes a closed relay row out of `closed`. */
  lemma {:induction false} ClosedRelayStaysClosed(s: State, run: seq<Label>, r: RelayId)
    requires 1 <= s.cap && r in s.tables.relays && s.tables.relays[r].status.Closed? && Exec(s, run).Some?
    ensures var t := Exec(s, run).value.tables;
      r in t.relays && t.relays[r].status.Closed?
    decreases |run|
  {
    if run != [] {
      ClosedRelayStep(s, run[0], r);
      ClosedRelayStaysClosed(Apply(s, run[0]), run[1..], r);
    }
  }

  lemma ClosedRelayStep(s: State, l: Label, r: RelayId)
    requires 1 <= s.cap && r in s.tables.relays && s.tables.relays[r].status.Closed? && Enabled(s, l)
    ensures r in Apply(s, l).tables.relays && Apply(s, l).tables.relays[r].status.Closed?
  {
  }

  /** After any run, the player count of a world is at most its slot-holding handlers, lies
      between 0 and the configured cap, and is 0 once the world is closed. */
  lemma PlayerSlotBounds(cap: int, run: seq<Label>, w: WorldId)
    requires 1 <= cap && Exec(Initial(cap), run).Some? && w in Exec(Initial(cap), run).value.tables.worlds
    ensures var s := Exec(Initial(cap), run).value;
      var world := s.tables.worlds[w];
      && 0 <= world.currentPlayers <= cap
      && world.currentPlayers <= |SlotHolders(s, w)|
      && (world.status.Closed? ==> world.currentPlayers == 0)
  {
    RowsInvariant(Initial(cap), run);
    CapIsFixed(Initial(cap), run);
  }

  lemma {:induction false} CapIsFixed(s: State, run: seq<Label>)
    requires 1 <= s.cap && Exec(s, run).Some?
    ensures Exec(s, run).value.cap == s.cap
    decreases |run|
  {
    if run != [] { CapIsFixed(Apply(s, run[0]), run[1..]); }
  }

  // ----- Accounting between resets -----

  /** The steps that set the player count of `w` back while its tunnels run on: re-creating
      and closing. A restart ends the tunnels too. */
  predicate Resets(s: State, l: Label, w: WorldId) {
    match l
    case CreateStep(host, _, _) => HostsOpen(s.tables, w, host)
    case UpdateStep(v, _, status, _) => v == w && PatchCloses(s.tables, w, status)
    case CloseStep(v) => v == w && WorldOpen(s, w)
    case _ => false
  }

  /** How many steps of the run reset `w`. */
  function ResetCount(s: State, run: seq<Label>, w: WorldId): nat
    requires 1 <= s.cap && Exec(s, run).Some?
    decreases |run|
  {
    if run == [] then 0
    else (if Resets(s, run[0], w) then 1 else 0) + ResetCount(Apply(s, run[0]), run[1..], w)
  }

  function Players(s: State, w: WorldId): int {
    if w in s.tables.worlds then s.tables.worlds[w].currentPlayers else 0
  }

  /** The slots held in `w` that its player count does not tell. */
  ghost function Shortfall(s: State, w: WorldId): int {
    |SlotHolders(s, w)| - Players(s, w)
  }

  lemma ShortfallByHandler(s: State, h: SocketId, w: WorldId)
    requires Rows(s) && Enabled(s, HandlerStep(h))
    ensures Shortfall(AfterHandler(s, h), w) <= Shortfall(s, w)
  {
    SameWorlds(s, h);
    HoldersCount(s, h, w);
    if w in s.tables.worlds { PlayersMove(s, h, w); }
  }

  lemma ShortfallByRestart(s: State, w: WorldId)
    requires Rows(s)
    ensures Shortfall(AfterRestart(s), w) == 0
  {
    forall h ensures h !in SlotHolders(AfterRestart(s), w) {}
    assert SlotHolders(AfterRestart(s), w) == {};
  }

  /** A step that is not a reset leaves the player count of `w` alone. */
  lemma PlayersKeptElsewhere(s: State, l: Label, w: WorldId)
    requires Rows(s) && Enabled(s, l) && !l.HandlerStep? && !l.RestartStep? && !Resets(s, l, w)
    ensures Players(Apply(s, l), w) == Players(s, w)
  {
  }

  /** Only a reset leaves more slots uncounted, and one leaves at most a whole world more. */
  lemma ShortfallMoves(s: State, l: Label, w: WorldId)
    requires Rows(s) && Enabled(s, l)
    ensures Shortfall(Apply(s, l), w) <= Shortfall(s, w) + if Resets(s, l, w) then s.cap else 0
  {
    if l.HandlerStep? {
      ShortfallByHandler(s, l.h, w);
    } else if l.RestartStep? {
      ShortfallByRestart(s, w);
    } else {
      assert SlotHolders(Apply(s, l), w) == SlotHolders(s, w);
      if !Resets(s, l, w) { PlayersKeptElsewhere(s, l, w); }
    }
  }

  lemma {:induction false} ShortfallInvariant(s: State, run: seq<Label>, w: WorldId)
    requires Rows(s) && Exec(s, run).Some?
    ensures Shortfall(Exec(s, run).value, w) <= Shortfall(s, w) + s.cap * ResetCount(s, run, w)
    decreases |run|
  {
    if run != [] {
      var s1, reset := Apply(s, run[0]), if Resets(s, run[0], w) then 1 else 0;
      RowsKept(s, run[0]);
      ShortfallMoves(s, run[0], w);
      ShortfallInvariant(s1, run[1..], w);
      assert s1.cap == s.cap;
      assert s.cap * (reset + ResetCount(s1, run[1..], w)) == s.cap * reset + s.cap * ResetCount(s1, run[1..], w);
    }
  }

  ghost function Tunnels(s: State, w: WorldId): set<SocketId> {
    set h | h in s.handlers && s.handlers[h].world == w && s.handlers[h].pc.Piping?
  }

  lemma SubsetSize<T>(a: set<T>, b: set<T>)
    requires a <= b
    ensures |a| <= |b|
  {
    if a != {} {
      var x :| x in a;
      SubsetSize(a - {x}, b - {x});
    }
  }

  /** However its host re-creates and closes it, a world has at most one capful of slots held,
      and one more for each reset; its player count is short by at most the latter. */
  lemma SlotsBoundedByResets(cap: int, run: seq<Label>, w: WorldId)
    requires 1 <= cap && Exec(Initial(cap), run).Some?
    ensures var s, resets := Exec(Initial(cap), run).value, ResetCount(Initial(cap), run, w);
      && Players(s, w) <= |SlotHolders(s, w)| <= Players(s, w) + cap * resets
      && |Tunnels(s, w)| <= |SlotHolders(s, w)| <= cap * (1 + resets)
  {
    var s := Exec(Initial(cap), run).value;
    RowsInvariant(Initial(cap), run);
    CapIsFixed(Initial(cap), run);
    ShortfallInvariant(Initial(cap), run, w);
    assert SlotHolders(Initial(cap), w) == {};
    forall h | h in Tunnels(s, w) ensures h in SlotHolders(s, w) {}
    SubsetSize(Tunnels(s, w), SlotHolders(s, w));
  }

  /** On a run that never resets `w`, its player count is exactly the number of slot-holding
      handlers, so the tunnels running in it never exceed the configured cap. */
  lemma PlayerSlotsAreExact(cap: int, run: seq<Label>, w: WorldId)
    requires 1 <= cap && Exec(Initial(cap), run).Some? && ResetCount(Initial(cap), run, w) == 0
    ensures var s := Exec(Initial(cap), run).value;
      Players(s, w) == |SlotHolders(s, w)| && |Tunnels(s, w)| <= cap
  {
    SlotsBoundedByResets(cap, run, w);
  }

  /** The tunnel counter is the number of counted handlers; with fewer connections than the
      counter's range it is never decremented at zero. */
  lemma TunnelCounterNeverUnderflows(cap: int, run: seq<Label>, h: SocketId)
    requires 1 <= cap && Exec(Initial(cap), run).Some?
    requires var s := Exec(Initial(cap), run).value;
      |s.handlers.Keys| < USIZE_RANGE && h in s.handlers
    ensures var s := Exec(Initial(cap), run).value;
      s.hub.active == |CountedHandlers(s)| && (s.handlers[h].pc.Piped? ==> s.hub.active >= 1)
  {
    RowsInvariant(Initial(cap), run);
    var s := Exec(Initial(cap), run).value;
    SubsetSize(CountedHandlers(s), s.handlers.Keys);
    if s.handlers[h].pc.Piped? {
      SubsetSize({h}, CountedHandlers(s));
    }
  }

  // ----- Whose socket does `remove_waiting` drop? -----

  ghost function Connected(s: State, r: RelayId, role: Role): set<SocketId> {
    set h | h in s.handlers && s.handlers[h].relay == r && s.handlers[h].role == role
  }

  ghost predicate AtMostOne(s: State, r: RelayId, role: Role) {
    forall g, h :: g in Connected(s, r, role) && h in Connected(s, r, role) ==> g == h
  }

  ghost predicate SameTicket(s: State, q: RelayId, r: RelayId) {
    && q in s.tables.relays && r in s.tables.relays
    && s.tables.relays[q].ticket.Some? && s.tables.relays[q].ticket == s.tables.relays[r].ticket
  }

  /** Relay rows never share a ticket, and a ticket still usable has let no guest in. */
  ghost predicate TicketsOk(s: State) {
    && (forall q, r :: SameTicket(s, q, r) ==> q == r)
    && (forall r :: TicketUsable(s.tables, r) ==> Connected(s, r, Guest) == {})
    && (forall r :: AtMostOne(s, r, Guest))
  }

  lemma ConnectedMoves(s: State, l: Label, r: RelayId, role: Role)
    requires 1 <= s.cap && Enabled(s, l)
    ensures Connected(Apply(s, l), r, role) ==
      if l.ConnectStep? && l.relay == r && l.role == role then Connected(s, r, role) + {l.h}
      else Connected(s, r, role)
  {
  }

  lemma TicketsKept(s: State, l: Label)
    requires 1 <= s.cap && Linked(s) && TicketsOk(s) && Enabled(s, l)
    ensures TicketsOk(Apply(s, l))
  {
    var s' := Apply(s, l);
    forall q, r | SameTicket(s', q, r) ensures q == r {
      assert SameTicket(s, q, r) || l.MintStep?;
    }
    forall r ensures TicketUsable(s'.tables, r) ==> Connected(s', r, Guest) == {} {
      ConnectedMoves(s, l, r, Guest);
      if TicketUsable(s'.tables, r) {
        UsableBefore(s, l, r);
      }
    }
    forall r ensures AtMostOne(s', r, Guest) {
      ConnectedMoves(s, l, r, Guest);
      assert AtMostOne(s, r, Guest);
    }
  }

  lemma UsableBefore(s: State, l: Label, r: RelayId)
    requires 1 <= s.cap && Linked(s) && TicketsOk(s) && Enabled(s, l) && TicketUsable(Apply(s, l).tables, r)
    ensures TicketUsable(s.tables, r) || r !in s.tables.relays
    ensures Connected(s, r, Guest) == {}
    ensures !(l.ConnectStep? && l.relay == r && l.role.Guest?)
  {
    if r !in s.tables.relays {
      forall h | h in s.handlers ensures s.handlers[h].relay != r {}
    }
    if l.ConnectStep? && l.role.Guest? && r != l.relay {
      assert !SameTicket(s, r, l.relay);
    }
  }

  lemma {:induction false} TicketsInvariant(s: State, run: seq<Label>)
    requires 1 <= s.cap && Linked(s) && TicketsOk(s) && Exec(s, run).Some?
    ensures TicketsOk(Exec(s, run).value)
    decreases |run|
  {
    if run != [] {
      LinkedKept(s, run[0]);
      TicketsKept(s, run[0]);
      TicketsInvariant(Apply(s, run[0]), run[1..]);
    }
  }

  /** A join ticket is single use: after any run at most one guest ever connected to a relay id. */
  lemma GuestConnectsAtMostOnce(cap: int, run: seq<Label>, r: RelayId)
    requires 1 <= cap && Exec(Initial(cap), run).Some?
    ensures AtMostOne(Exec(Initial(cap), run).value, r, Guest)
  {
    TicketsInvariant(Initial(cap), run);
  }

  /** The handler has taken a peer, or its tunnel or its wait is over. */
  predicate PastWaiting(pc: Pc) {
    pc.HasPeer() || pc.Piped? || pc.Uncounted? || pc.Released? || pc.Finished?
  }

  ghost predicate SingleConnects(s: State, r: RelayId) {
    AtMostOne(s, r, Host) && AtMostOne(s, r, Guest)
  }

  ghost predicate OthersPast(s: State, h: SocketId) {
    exists g :: g in s.handlers && h in s.handlers && g != h
      && s.handlers[g].relay == s.handlers[h].relay && PastWaiting(s.handlers[g].pc)
  }

  ghost predicate OwnParked(s: State, h: SocketId)
    requires h in s.handlers
  {
    var r := s.handlers[h].relay;
    s.handlers[h].pc.Parked() && SingleConnects(s, r) ==>
      (r in s.hub.waiting && s.hub.waiting[r].socket == h) || OthersPast(s, h)
  }

  /** With one connection a role, three handlers of one relay id cannot differ. */
  lemma NoThird(s: State, a: SocketId, b: SocketId, c: SocketId)
    requires a in s.handlers && b in s.handlers && c in s.handlers
    requires s.handlers[a].relay == s.handlers[b].relay == s.handlers[c].relay
    requires SingleConnects(s, s.handlers[a].relay)
    ensures a == b || b == c || a == c
  {
    var r := s.handlers[a].relay;
    assert a in Connected(s, r, s.handlers[a].role) && b in Connected(s, r, s.handlers[b].role)
      && c in Connected(s, r, s.handlers[c].role);
  }

  lemma SingleBefore(s: State, l: Label, r: RelayId)
    requires 1 <= s.cap && Enabled(s, l) && SingleConnects(Apply(s, l), r)
    ensures SingleConnects(s, r)
  {
    ConnectedMoves(s, l, r, Host);
    ConnectedMoves(s, l, r, Guest);
  }

  lemma OwnParkedKept(s: State, l: Label, h: SocketId)
    requires 1 <= s.cap && Sockets(s) && Enabled(s, l) && (forall g :: g in s.handlers ==> OwnParked(s, g))
    requires h in Apply(s, l).handlers
    ensures OwnParked(Apply(s, l), h)
  {
    var s' := Apply(s, l);
    if h in s.handlers && s'.handlers[h].pc.Parked() && SingleConnects(s', s.handlers[h].relay) {
      SingleBefore(s, l, s.handlers[h].relay);
      if OthersPast(s, h) {
        var g :| g in s.handlers && g != h
          && s.handlers[g].relay == s.handlers[h].relay && PastWaiting(s.handlers[g].pc);
        assert PastWaiting(s'.handlers[g].pc);
      } else if l.HandlerStep? {
        OwnParkedStep(s, l.h, h);
      }
    }
  }

  lemma OwnParkedStep(s: State, x: SocketId, h: SocketId)
    requires 1 <= s.cap && Sockets(s) && Enabled(s, HandlerStep(x)) && (forall g :: g in s.handlers ==> OwnParked(s, g))
    requires h in s.handlers && AfterHandler(s, x).handlers[h].pc.Parked()
    requires SingleConnects(s, s.handlers[h].relay) && !OthersPast(s, h)
    ensures OwnParked(AfterHandler(s, x), h)
  {
    var s', r := AfterHandler(s, x), s.handlers[h].relay;
    if x != h {
      assert OwnParked(s, h) && s.hub.waiting[r].socket == h;
      if s.handlers[x].relay == r {
        if s.handlers[x].pc.Start? && Takes(s.hub, r, s.handlers[x].role).Some? {
          assert PastWaiting(s'.handlers[x].pc);
        } else if s.handlers[x].pc.Removing? {
          assert OwnParked(s, x) && OthersPast(s, x);
          var g :| g in s.handlers && g != x && s.handlers[g].relay == r && PastWaiting(s.handlers[g].pc);
          NoThird(s, g, h, x);
        }
      }
    }
  }

  lemma {:induction false} OwnParkedInvariant(s: State, run: seq<Label>)
    requires 1 <= s.cap && Sockets(s) && Exec(s, run).Some? && (forall g :: g in s.handlers ==> OwnParked(s, g))
    ensures var t := Exec(s, run).value;
      forall g :: g in t.handlers ==> OwnParked(t, g)
    decreases |run|
  {
    if run != [] {
      SocketsKept(s, run[0]);
      forall h | h in Apply(s, run[0]).handlers ensures OwnParked(Apply(s, run[0]), h) {
        OwnParkedKept(s, run[0], h);
      }
      OwnParkedInvariant(Apply(s, run[0]), run[1..]);
    }
  }

  /** Handler `h` is about to `remove_waiting` a socket that is not its own. */
  ghost predicate RemovesForeign(s: State, h: SocketId) {
    h in s.handlers && s.handlers[h].pc.Removing?
    && s.handlers[h].relay in s.hub.waiting && s.hub.waiting[s.handlers[h].relay].socket != h
  }

  /** "Anything still here is ours": with a single host connection to the relay id, a handler
      that calls `remove_waiting` removes its own socket or nothing. */
  lemma RemoveWaitingIsOwn(cap: int, run: seq<Label>, h: SocketId)
    requires 1 <= cap && Exec(Initial(cap), run).Some?
    requires var s := Exec(Initial(cap), run).value;
      h in s.handlers && AtMostOne(s, s.handlers[h].relay, Host)
    ensures !RemovesForeign(Exec(Initial(cap), run).value, h)
  {
    SocketsInvariant(Initial(cap), run);
    OwnParkedInvariant(Initial(cap), run);
    var s := Exec(Initial(cap), run).value;
    var r := s.handlers[h].relay;
    GuestConnectsAtMostOnce(cap, run, r);
    if RemovesForeign(s, h) {
      assert OwnParked(s, h);
      var g :| g in s.handlers && g != h && s.handlers[g].relay == r && PastWaiting(s.handlers[g].pc);
      NoThird(s, g, h, s.hub.waiting[r].socket);
    }
  }

  // ----- One open world per host -----

  /** A step after which every open world was open before, or is one that may be. */
  lemma OneOpenFrom(t: Tables, t': Tables, touched: WorldId)
    requires OneOpenPerHost(t)
    requires forall w, host :: HostsOpen(t', w, host) && w != touched ==> HostsOpen(t, w, host)
    requires forall host :: HostsOpen(t', touched, host) && !HostsOpen(t, touched, host) ==> forall w :: !HostsOpen(t, w, host)
    ensures OneOpenPerHost(t')
  {
    forall v, w, host | HostsOpen(t', v, host) && HostsOpen(t', w, host) ensures v == w {
      assert v == touched || HostsOpen(t, v, host);
      assert w == touched || HostsOpen(t, w, host);
    }
  }

  lemma OneOpenKept(s: State, l: Label)
    requires 1 <= s.cap && Enabled(s, l) && OneOpenPerHost(s.tables)
    ensures OneOpenPerHost(Apply(s, l).tables)
  {
    var t, t' := s.tables, Apply(s, l).tables;
    var touched := match l case CreateStep(_, _, w) => w case UpdateStep(w, _, _, _) => w case _ => 0;
    if l.HandlerStep? {
      forall w, host ensures HostsOpen(t', w, host) <==> HostsOpen(t, w, host) {}
    }
    OneOpenFrom(t, t', touched);
  }

  /** No host ever has two worlds open, however creates, reopenings and closes interleave. */
  lemma {:induction false} HostsHaveOneOpenWorld(s: State, run: seq<Label>)
    requires 1 <= s.cap && OneOpenPerHost(s.tables) && Exec(s, run).Some?
    ensures OneOpenPerHost(Exec(s, run).value.tables)
    decreases |run|
  {
    if run != [] {
      OneOpenKept(s, run[0]);
      HostsHaveOneOpenWorld(Apply(s, run[0]), run[1..]);
    }
  }
}
