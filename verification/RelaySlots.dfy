/** What the rows say about the tunnels: a relay row reads active only while a tunnel of an
    open world holds it, and the player count of a world never exceeds its tunnels. */
module RelaySlots {
  import opened Wrappers
  import opened NetworkTables
  import opened RelayHubs
  import opened RelayProtocol
  import opened RelaySockets

  ghost function SlotHolders(s: State, w: WorldId): set<SocketId> {
    set h | h in s.handlers && s.handlers[h].world == w && s.handlers[h].pc.HoldsSlot()
  }

  ghost function CountedHandlers(s: State): set<SocketId> {
    set h | h in s.handlers && s.handlers[h].pc.CountedActive()
  }

  ghost predicate HasLiveHandler(s: State, r: RelayId) {
    exists h :: h in s.handlers && s.handlers[h].relay == r && s.handlers[h].pc.MarkedActive()
  }

  predicate WorldOpen(s: State, w: WorldId) {
    w in s.tables.worlds && s.tables.worlds[w].status.Open?
  }

  ghost predicate ActiveRowOk(s: State, r: RelayId)
    requires r in s.tables.relays
  {
    s.tables.relays[r].status.Active? ==> WorldOpen(s, s.tables.relays[r].world) && HasLiveHandler(s, r)
  }

  /** A world closed after an admission has already closed the relay row that the admitted
      handler is about to mark active. */
  ghost predicate AdmittedOk(s: State, h: SocketId)
    requires h in s.handlers
  {
    s.handlers[h].pc.Admitted? || s.handlers[h].pc.Counted? ==>
      s.handlers[h].relay in s.tables.relays
      && (s.tables.relays[s.handlers[h].relay].status.Closed? || WorldOpen(s, s.handlers[h].world))
  }

  ghost predicate ActiveRowsOk(s: State) {
    && (forall r :: r in s.tables.relays ==> ActiveRowOk(s, r))
    && (forall h :: h in s.handlers ==> AdmittedOk(s, h))
  }

  ghost predicate SlotsOk(s: State) {
    forall w :: w in s.tables.worlds ==>
      var world := s.tables.worlds[w];
      && 1 <= world.maxPlayers <= s.cap && 0 <= world.currentPlayers <= s.cap
      && (world.status.Closed? ==> world.currentPlayers == 0)
      && world.currentPlayers <= |SlotHolders(s, w)|
  }

  ghost predicate CounterOk(s: State) {
    s.hub.active == |CountedHandlers(s)| % USIZE_RANGE
  }

  ghost predicate Rows(s: State) {
    1 <= s.cap && Linked(s) && ActiveRowsOk(s) && SlotsOk(s) && CounterOk(s)
  }

  /** The steps of the world endpoints, minting, connecting and ticket cleanup: none marks
      a row active, and one that closes a world closes its rows. */
  lemma ActiveRowsKeptElsewhere(s: State, l: Label)
    requires Rows(s) && Enabled(s, l) && !l.HandlerStep? && !l.RestartStep?
    ensures ActiveRowsOk(Apply(s, l))
  {
    var s' := Apply(s, l);
    forall r | r in s'.tables.relays && !s'.tables.relays[r].status.Closed?
      ensures r in s.tables.relays ==>
        && s.tables.relays[r].status == s'.tables.relays[r].status
        && s.tables.relays[r].world == s'.tables.relays[r].world
        && (WorldOpen(s, s.tables.relays[r].world) ==> WorldOpen(s', s.tables.relays[r].world))
      ensures r !in s.tables.relays ==> s'.tables.relays[r].status.Pending?
    {
    }
    forall r | r in s'.tables.relays && s'.tables.relays[r].status.Active? ensures HasLiveHandler(s', r) {
      assert ActiveRowOk(s, r);
      var h :| h in s.handlers && s.handlers[h].relay == r && s.handlers[h].pc.MarkedActive();
      assert h in s'.handlers && s'.handlers[h] == s.handlers[h];
    }
  }

  lemma LiveHandlerKept(s: State, h: SocketId, r: RelayId)
    requires Rows(s) && Enabled(s, HandlerStep(h))
    requires r in AfterHandler(s, h).tables.relays && AfterHandler(s, h).tables.relays[r].status.Active?
    ensures HasLiveHandler(AfterHandler(s, h), r)
  {
    var s' := AfterHandler(s, h);
    if s.handlers[h].relay == r && s'.handlers[h].pc.MarkedActive() {
      assert HasLiveHandler(s', r);
    } else {
      assert s.tables.relays[r].status.Active? && ActiveRowOk(s, r);
      var g :| g in s.handlers && s.handlers[g].relay == r && s.handlers[g].pc.MarkedActive();
      assert g != h && s'.handlers[g] == s.handlers[g];
    }
  }

  lemma AdmittedKeptByHandler(s: State, h: SocketId, g: SocketId)
    requires Rows(s) && Enabled(s, HandlerStep(h)) && g in s.handlers
    ensures AdmittedOk(AfterHandler(s, h), g)
  {
    assert AdmittedOk(s, g);
  }

  lemma ActiveRowKeptByHandler(s: State, h: SocketId, r: RelayId)
    requires Rows(s) && Enabled(s, HandlerStep(h)) && r in s.tables.relays
    ensures ActiveRowOk(AfterHandler(s, h), r)
  {
    assert ActiveRowOk(s, r) && AdmittedOk(s, h);
    if AfterHandler(s, h).tables.relays[r].status.Active? {
      LiveHandlerKept(s, h, r);
    }
  }

  lemma ActiveRowsKeptByHandler(s: State, h: SocketId)
    requires Rows(s) && Enabled(s, HandlerStep(h))
    ensures ActiveRowsOk(AfterHandler(s, h))
  {
    forall r | r in AfterHandler(s, h).tables.relays ensures ActiveRowOk(AfterHandler(s, h), r) {
      ActiveRowKeptByHandler(s, h, r);
    }
    forall g | g in AfterHandler(s, h).handlers ensures AdmittedOk(AfterHandler(s, h), g) {
      AdmittedKeptByHandler(s, h, g);
    }
  }

  lemma HoldersMove(s: State, h: SocketId, w: WorldId)
    requires 1 <= s.cap && Enabled(s, HandlerStep(h))
    ensures var s' := AfterHandler(s, h);
      SlotHolders(s', w) ==
        if s.handlers[h].world == w && s'.handlers[h].pc.HoldsSlot() then SlotHolders(s, w) + {h}
        else SlotHolders(s, w) - {h}
  {
  }

  lemma SlotsKeptElsewhere(s: State, l: Label)
    requires Rows(s) && Enabled(s, l) && !l.HandlerStep?
    ensures SlotsOk(Apply(s, l))
  {
    var s' := Apply(s, l);
    if !l.RestartStep? {
      forall w ensures w in s.tables.worlds ==> SlotHolders(s', w) == SlotHolders(s, w) {}
    }
  }

  /** What a handler's next statement adds to the slots held in `w`. */
  function SlotDelta(s: State, h: SocketId, w: WorldId): int
    requires h in s.handlers
  {
    var handler := s.handlers[h];
    if handler.world != w then 0
    else if handler.pc.Admitting? && HasFreeSlot(s.tables, w) then 1
    else if handler.pc.Uncounted? then -1
    else 0
  }

  lemma MemberSize<T>(a: set<T>, x: T)
    ensures |a + {x}| == |a| + (if x in a then 0 else 1) && |a - {x}| == |a| - (if x in a then 1 else 0)
  {
    if x in a { assert a + {x} == a; } else { assert a - {x} == a; }
  }

  lemma SlotPcMove(s: State, h: SocketId, w: WorldId)
    requires 1 <= s.cap && Enabled(s, HandlerStep(h))
    ensures var holds, holds' := s.handlers[h].pc.HoldsSlot(), AfterHandler(s, h).handlers[h].pc.HoldsSlot();
      s.handlers[h].world == w ==> SlotDelta(s, h, w) == (if holds' then 1 else 0) - (if holds then 1 else 0)
  {
  }

  lemma HoldersCount(s: State, h: SocketId, w: WorldId)
    requires 1 <= s.cap && Enabled(s, HandlerStep(h))
    ensures |SlotHolders(AfterHandler(s, h), w)| == |SlotHolders(s, w)| + SlotDelta(s, h, w)
  {
    var holders := SlotHolders(s, w);
    assert h in holders <==> s.handlers[h].world == w && s.handlers[h].pc.HoldsSlot();
    SlotPcMove(s, h, w);
    MemberSize(holders, h);
    HoldersMove(s, h, w);
  }

  lemma PlayersMove(s: State, h: SocketId, w: WorldId)
    requires 1 <= s.cap && Enabled(s, HandlerStep(h)) && w in s.tables.worlds
    ensures var worlds, worlds', delta := s.tables.worlds, AfterHandler(s, h).tables.worlds, SlotDelta(s, h, w);
      && w in worlds' && worlds'[w] == worlds[w].(currentPlayers := worlds'[w].currentPlayers)
      && worlds'[w].currentPlayers ==
           if delta == -1 && worlds[w].currentPlayers <= 0 then 0 else worlds[w].currentPlayers + delta
  {
  }

  lemma SameWorlds(s: State, h: SocketId)
    requires Enabled(s, HandlerStep(h))
    ensures AfterHandler(s, h).tables.worlds.Keys == s.tables.worlds.Keys
  {
  }

  lemma SlotsKeptByHandler(s: State, h: SocketId)
    requires Rows(s) && Enabled(s, HandlerStep(h))
    ensures SlotsOk(AfterHandler(s, h))
  {
    var s' := AfterHandler(s, h);
    SameWorlds(s, h);
    forall w | w in s.tables.worlds
      ensures var world := s'.tables.worlds[w];
        && 1 <= world.maxPlayers <= s'.cap && 0 <= world.currentPlayers <= s'.cap
        && (world.status.Closed? ==> world.currentPlayers == 0) && world.currentPlayers <= |SlotHolders(s', w)|
    {
      HoldersCount(s, h, w);
      PlayersMove(s, h, w);
    }
  }

  lemma CountedMove(s: State, h: SocketId)
    requires 1 <= s.cap && Enabled(s, HandlerStep(h))
    ensures var s' := AfterHandler(s, h);
      CountedHandlers(s') ==
        if s'.handlers[h].pc.CountedActive() then CountedHandlers(s) + {h} else CountedHandlers(s) - {h}
  {
  }

  lemma WrappingCount(n: int)
    ensures (n % USIZE_RANGE + 1) % USIZE_RANGE == (n + 1) % USIZE_RANGE
    ensures (n % USIZE_RANGE - 1) % USIZE_RANGE == (n - 1) % USIZE_RANGE
  {
  }

  lemma CounterKeptByHandler(s: State, h: SocketId)
    requires Rows(s) && Enabled(s, HandlerStep(h))
    ensures CounterOk(AfterHandler(s, h))
  {
    CountedMove(s, h);
    WrappingCount(|CountedHandlers(s)|);
    var s', counted := AfterHandler(s, h), CountedHandlers(s);
    var pc, pc' := s.handlers[h].pc, s'.handlers[h].pc;
    assert h in counted <==> pc.CountedActive();
    if pc.Admitted? {
      assert |counted + {h}| == |counted| + 1;
    } else if pc.Piped? {
      assert |counted - {h}| == |counted| - 1;
    } else {
      assert pc.CountedActive() == pc'.CountedActive();
      assert s'.hub.active == s.hub.active;
      assert CountedHandlers(s') == counted;
    }
  }

  lemma CounterKept(s: State, l: Label)
    requires Rows(s) && Enabled(s, l)
    ensures CounterOk(Apply(s, l))
  {
    var s' := Apply(s, l);
    if l.HandlerStep? {
      CounterKeptByHandler(s, l.h);
    } else if l.RestartStep? {
      forall h ensures h !in CountedHandlers(AfterRestart(s)) {}
      assert CountedHandlers(AfterRestart(s)) == {};
    } else {
      assert CountedHandlers(s') == CountedHandlers(s);
    }
  }

  lemma RowsKept(s: State, l: Label)
    requires Rows(s) && Enabled(s, l)
    ensures Rows(Apply(s, l))
  {
    LinkedKept(s, l);
    if l.HandlerStep? {
      ActiveRowsKeptByHandler(s, l.h);
      SlotsKeptByHandler(s, l.h);
    } else {
      if !l.RestartStep? { ActiveRowsKeptElsewhere(s, l); }
      SlotsKeptElsewhere(s, l);
    }
    CounterKept(s, l);
  }
}
