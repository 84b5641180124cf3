/** What the world endpoints promise, stated on the rows: the size, status and policy a world
    gets, and that no more guests are let in than its host asked for. */
module WorldLaws {
  import opened Wrappers
  import opened NetworkTables
  import opened RelayHubs
  import opened RelayProtocol
  import opened RelaySockets
  import opened RelaySlots
  import opened RelayRuns

  /** `size` is what a request for `value` players gets under the cap. */
  predicate Grants(size: int, value: int, cap: int) {
    && (1 <= value <= cap ==> size == value)
    && (value < 1 ==> size == 1)
    && (value > cap ==> size == cap)
  }

  predicate GrantsAsked(size: int, requested: Option<int>, cap: int) {
    match requested
    case None => size == cap
    case Some(value) => Grants(size, value, cap)
  }

  predicate IsOpenOf(t: Tables, w: WorldId, host: UserId) {
    w in t.worlds && t.worlds[w].status == WorldStatus.Open && t.worlds[w].host == host
  }

  /** After a create the host has an open world of the size asked for, with nobody in it. It is
      the one that was open, which keeps its policy, or a new one, for the host's friends only;
      no other row changes. */
  lemma CreatedWorld(t: Tables, cap: int, host: UserId, requested: Option<int>, newId: WorldId, w: WorldId)
    requires 1 <= cap && newId !in t.worlds
    ensures var t' := CreateWorld(t, cap, host, requested, newId);
      && t'.relays == t.relays && t'.tickets == t.tickets
      && (if IsOpenOf(t, w, host) then
            && IsOpenOf(t', w, host) && GrantsAsked(t'.worlds[w].maxPlayers, requested, cap)
            && t'.worlds[w].currentPlayers == 0 && t'.worlds[w].policy == t.worlds[w].policy
          else if w == newId && forall v :: !IsOpenOf(t, v, host) then
            && IsOpenOf(t', w, host) && GrantsAsked(t'.worlds[w].maxPlayers, requested, cap)
            && t'.worlds[w].currentPlayers == 0 && t'.worlds[w].policy == HostOnly
          else (w in t'.worlds <==> w in t.worlds) && (w in t.worlds ==> t'.worlds[w] == t.worlds[w]))
  {
    assert forall v :: IsOpenOf(t, v, host) <==> HostsOpen(t, v, host);
  }

  /** A PATCH is refused exactly when it would give the host a second open world; otherwise the
      world gets what is named, under the same bounds, and keeps the rest. Closing it closes its
      relay rows and empties it; no other row changes. */
  lemma UpdatedWorld(
    t: Tables, cap: int, w: WorldId, size: Option<int>, status: Option<WorldStatus>, policy: Option<InvitePolicy>, v: WorldId)
    requires 1 <= cap && w in t.worlds
    ensures var t' := UpdateWorld(t, cap, w, size, status, policy);
      var host, refused := t.worlds[w].host,
        status == Some(WorldStatus.Open) && exists u :: u != w && IsOpenOf(t, u, t.worlds[w].host);
      var closing := t.worlds[w].status == WorldStatus.Open && status == Some(WorldStatus.Closed);
      if refused then t' == t
      else
        && t'.worlds.Keys == t.worlds.Keys && t'.tickets == t.tickets && t'.relays.Keys == t.relays.Keys
        && (v in t.worlds && v != w ==> t'.worlds[v] == t.worlds[v])
        && t'.worlds[w].host == host
        && (if size.Some? then Grants(t'.worlds[w].maxPlayers, size.value, cap) else t'.worlds[w].maxPlayers == t.worlds[w].maxPlayers)
        && t'.worlds[w].status == (if status.Some? then status.value else t.worlds[w].status)
        && t'.worlds[w].policy == (if policy.Some? then policy.value else t.worlds[w].policy)
        && t'.worlds[w].currentPlayers == (if closing then 0 else t.worlds[w].currentPlayers)
        && forall r :: r in t.relays ==>
             t'.relays[r] == if closing && t.relays[r].world == w then t.relays[r].(status := RelayStatus.Closed) else t.relays[r]
  {
    forall u ensures IsOpenOf(t, u, t.worlds[w].host) <==> HostsOpen(t, u, t.worlds[w].host) {}
  }

  /** Closing a world empties it and closes its relay rows, and touches nothing else. */
  lemma ClosedWorld(t: Tables, w: WorldId, v: WorldId, r: RelayId)
    requires w in t.worlds
    ensures var t' := CloseWorld(t, w);
      && t'.worlds.Keys == t.worlds.Keys && t'.relays.Keys == t.relays.Keys && t'.tickets == t.tickets
      && t'.worlds[w] == t.worlds[w].(status := WorldStatus.Closed, currentPlayers := 0)
      && (v in t.worlds && v != w ==> t'.worlds[v] == t.worlds[v])
      && (r in t.relays ==>
            t'.relays[r] == if t.relays[r].world == w then t.relays[r].(status := RelayStatus.Closed) else t.relays[r])
  {
  }

  /** After a restart no relay row is open and no open world counts anyone; nothing else changes. */
  lemma RestartedTables(t: Tables, w: WorldId, r: RelayId)
    ensures var t' := Reconcile(t);
      && t'.worlds.Keys == t.worlds.Keys && t'.relays.Keys == t.relays.Keys && t'.tickets == t.tickets
      && (w in t.worlds ==>
            t'.worlds[w] == if t.worlds[w].status == WorldStatus.Open then t.worlds[w].(currentPlayers := 0) else t.worlds[w])
      && (r in t.relays ==> t'.relays[r] == t.relays[r].(status := RelayStatus.Closed))
  {
  }

  // ----- The size over a run -----

  /** No step of the run names another size for `w`. */
  predicate Unresized(run: seq<Label>, w: WorldId) {
    forall i :: 0 <= i < |run| ==> !(run[i].UpdateStep? && run[i].world == w && run[i].size.Some?)
  }

  ghost predicate WithinSize(s: State, w: WorldId, size: int) {
    w in s.tables.worlds && s.tables.worlds[w].maxPlayers == size && s.tables.worlds[w].currentPlayers <= size
  }

  lemma SizeKeptByHandler(s: State, h: SocketId, w: WorldId, size: int)
    requires Rows(s) && Enabled(s, HandlerStep(h)) && WithinSize(s, w, size) && 1 <= size
    ensures WithinSize(AfterHandler(s, h), w, size)
  {
    PlayersMove(s, h, w);
  }

  lemma SizeKept(s: State, l: Label, w: WorldId, size: int)
    requires Rows(s) && Enabled(s, l) && WithinSize(s, w, size) && 1 <= size && !Resets(s, l, w) && Unresized([l], w)
    ensures WithinSize(Apply(s, l), w, size)
  {
    if l.HandlerStep? {
      SizeKeptByHandler(s, l.h, w, size);
    } else {
      assert !([l][0].UpdateStep? && [l][0].world == w && [l][0].size.Some?);
    }
  }

  lemma {:induction false} SizeInvariant(s: State, run: seq<Label>, w: WorldId, size: int)
    requires Rows(s) && Exec(s, run).Some? && WithinSize(s, w, size) && 1 <= size
    requires Unresized(run, w) && ResetCount(s, run, w) == 0
    ensures WithinSize(Exec(s, run).value, w, size)
    decreases |run|
  {
    if run != [] {
      assert Unresized([run[0]], w) && Unresized(run[1..], w);
      RowsKept(s, run[0]);
      SizeKept(s, run[0], w, size);
      SizeInvariant(Apply(s, run[0]), run[1..], w, size);
    }
  }

  lemma NobodyInANewWorld(s: State, w: WorldId)
    requires Rows(s) && w !in s.tables.worlds
    ensures SlotHolders(s, w) == {}
  {
    forall h | h in s.handlers ensures s.handlers[h].world != w {
      assert s.handlers[h].relay in s.tables.relays;
    }
  }

  /** A world that its host opened for so many players never has more tunnels, until the host
      re-creates, closes or resizes it. */
  lemma TunnelsWithinTheSizeAsked(
    cap: int, before: seq<Label>, host: UserId, requested: Option<int>, w: WorldId, run: seq<Label>)
    requires 1 <= cap && Exec(Initial(cap), before).Some?
    requires var s := Exec(Initial(cap), before).value;
      && w !in s.tables.worlds && (forall v :: !IsOpenOf(s.tables, v, host)) && s.cap == cap
      && var s1 := s.(tables := CreateWorld(s.tables, cap, host, requested, w));
         Exec(s1, run).Some? && ResetCount(s1, run, w) == 0 && Unresized(run, w)
    ensures var s := Exec(Initial(cap), before).value;
      var t := Exec(s.(tables := CreateWorld(s.tables, cap, host, requested, w)), run).value;
      && w in t.tables.worlds && GrantsAsked(t.tables.worlds[w].maxPlayers, requested, cap)
      && |Tunnels(t, w)| <= |SlotHolders(t, w)| <= t.tables.worlds[w].maxPlayers
  {
    var s := Exec(Initial(cap), before).value;
    RowsInvariant(Initial(cap), before);
    var create := CreateStep(host, requested, w);
    var s1 := Apply(s, create);
    CreatedWorld(s.tables, cap, host, requested, w, w);
    NobodyInANewWorld(s, w);
    assert SlotHolders(s1, w) == SlotHolders(s, w);
    RowsKept(s, create);
    var size := s1.tables.worlds[w].maxPlayers;
    SizeInvariant(s1, run, w, size);
    ShortfallInvariant(s1, run, w);
    RowsInvariant(s1, run);
    var t := Exec(s1, run).value;
    forall h | h in Tunnels(t, w) ensures h in SlotHolders(t, w) {}
    SubsetSize(Tunnels(t, w), SlotHolders(t, w));
  }
}
