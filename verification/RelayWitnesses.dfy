/** Runs that show where stronger claims about the relay protocol fail: a waiter's socket
    removed by another handler, and more tunnels than the cap after a world is re-created. */
module RelayWitnesses {
  import opened Wrappers
  import opened NetworkTables
  import opened RelayHubs
  import opened RelayProtocol
  import opened RelaySockets
  import opened RelaySlots
  import opened RelayRuns

  lemma ExecCons(s: State, l: Label, rest: seq<Label>)
    requires 1 <= s.cap && Enabled(s, l)
    ensures Exec(s, [l] + rest) == Exec(Apply(s, l), rest)
  {
    assert ([l] + rest)[1..] == rest;
  }

  lemma {:induction false} ExecAppend(s: State, a: seq<Label>, b: seq<Label>)
    requires 1 <= s.cap && Exec(s, a).Some?
    ensures Exec(s, a).value.cap == s.cap
    ensures Exec(s, a + b) == Exec(Exec(s, a).value, b)
    decreases |a|
  {
    if a == [] {
      assert a + b == b;
    } else {
      assert (a + b)[1..] == a[1..] + b;
      ExecAppend(Apply(s, a[0]), a[1..], b);
    }
  }

  /** A host connects, finds nobody and parks (or is refused). */
  function HostWaits(h: SocketId, r: RelayId): seq<Label> {
    [ConnectStep(h, r, Host)] + Turns(h, 2)
  }

  function Turns(h: SocketId, n: nat): seq<Label> {
    if n == 0 then [] else [HandlerStep(h)] + Turns(h, n - 1)
  }

  function AfterTurns(s: State, h: SocketId, n: nat): State
    requires h in s.handlers
    decreases n
  {
    if n == 0 then s else AfterTurns(AfterHandler(s, h), h, n - 1)
  }

  predicate CanTurn(s: State, h: SocketId, n: nat)
    requires h in s.handlers
    decreases n
  {
    n == 0 || (!s.handlers[h].pc.Finished? && CanTurn(AfterHandler(s, h), h, n - 1))
  }

  lemma {:induction false} ExecTurns(s: State, h: SocketId, n: nat)
    requires 1 <= s.cap && h in s.handlers && CanTurn(s, h, n)
    ensures Exec(s, Turns(h, n)) == Some(AfterTurns(s, h, n))
    decreases n
  {
    if n > 0 {
      ExecCons(s, HandlerStep(h), Turns(h, n - 1));
      ExecTurns(AfterHandler(s, h), h, n - 1);
    }
  }

  /** Host `h` has connected to `r` and parked. */
  function WithParked(s: State, h: SocketId, r: RelayId): State
    requires r in s.tables.relays
  {
    s.(handlers := s.handlers[h := Handler(r, s.tables.relays[r].world, Host, Waiting)],
       hub := s.hub.(waiting := s.hub.waiting[r := Waiter(Host, h)]))
  }

  /** Guest `g` has connected to `r`, spent its ticket, taken `h` and started to pipe. */
  function WithTunnel(s: State, g: SocketId, h: SocketId, r: RelayId): State
    requires TicketUsable(s.tables, r)
  {
    var w := s.tables.relays[r].world;
    s.(handlers := s.handlers[g := Handler(r, w, Guest, Piping(h))],
       hub := Hub(s.hub.waiting - {r}, (s.hub.active + 1) % USIZE_RANGE),
       tables := MarkActive(TryAdmit(ConsumeTicket(s.tables, r), w), r))
  }

  /** A host that finds nobody parked ends up parked. */
  lemma HostParks(s: State, h: SocketId, r: RelayId)
    requires 1 <= s.cap && Enabled(s, ConnectStep(h, r, Host)) && r !in s.hub.waiting
    ensures Exec(s, HostWaits(h, r)) == Some(WithParked(s, h, r))
  {
    ExecCons(s, ConnectStep(h, r, Host), Turns(h, 2));
    var s0 := Apply(s, ConnectStep(h, r, Host));
    var s1 := AfterHandler(s0, h);
    assert s1.handlers[h].pc == Parking;
    var s2 := AfterHandler(s1, h);
    assert s2.handlers == WithParked(s, h, r).handlers;
    assert AfterTurns(s1, h, 1) == s2 && CanTurn(s1, h, 1);
    assert AfterTurns(s0, h, 2) == s2 && CanTurn(s0, h, 2);
    ExecTurns(s0, h, 2);
  }

  /** A guest with a usable ticket takes the parked host and, given a free slot, pipes. */
  lemma GuestPipes(s: State, g: SocketId, h: SocketId, r: RelayId)
    requires 1 <= s.cap && Enabled(s, ConnectStep(g, r, Guest)) && r in s.hub.waiting
    requires s.hub.waiting[r] == Waiter(Host, h) && HasFreeSlot(s.tables, s.tables.relays[r].world)
    ensures Exec(s, [ConnectStep(g, r, Guest)] + Turns(g, 4)) == Some(WithTunnel(s, g, h, r))
  {
    var w := s.tables.relays[r].world;
    ExecCons(s, ConnectStep(g, r, Guest), Turns(g, 4));
    var s0 := Apply(s, ConnectStep(g, r, Guest));
    var s1 := AfterHandler(s0, g);
    assert s1.handlers[g].pc == Admitting(h);
    var s2 := AfterHandler(s1, g);
    assert s2.handlers[g].pc == Admitted(h);
    var s3 := AfterHandler(s2, g);
    assert s3.handlers[g].pc == Counted(h);
    var s4 := AfterHandler(s3, g);
    assert s4.handlers == s.handlers[g := Handler(r, w, Guest, Piping(h))];
    assert AfterTurns(s3, g, 1) == s4 && CanTurn(s3, g, 1);
    assert AfterTurns(s2, g, 2) == s4 && CanTurn(s2, g, 2);
    assert AfterTurns(s1, g, 3) == s4 && CanTurn(s1, g, 3);
    assert AfterTurns(s0, g, 4) == s4 && CanTurn(s0, g, 4);
    ExecTurns(s0, g, 4);
  }

  lemma TunnelRows(s: State, g: SocketId, h: SocketId, r: RelayId)
    requires TicketUsable(s.tables, r) && !s.tables.relays[r].status.Closed?
    requires HasFreeSlot(s.tables, s.tables.relays[r].world)
    ensures var t, t', w := s.tables, WithTunnel(s, g, h, r).tables, s.tables.relays[r].world;
      && t'.relays == t.relays[r := t.relays[r].(status := RelayStatus.Active)]
      && t'.tickets == t.tickets[t.relays[r].ticket.value := true]
      && t'.worlds == t.worlds[w := t.worlds[w].(currentPlayers := t.worlds[w].currentPlayers + 1)]
  {
  }

  // ----- A world re-created under its tunnels -----

  /** `n` tunnels run in world 1, which counts `p` players, all ids below the next free ones,
      nobody parked. */
  ghost predicate Crowded(s: State, n: nat, p: nat) {
    && 1 <= s.cap && s.hub.waiting == map[] && s.tables.worlds.Keys == {1} && HostsOpen(s.tables, 1, 1)
    && s.tables.worlds[1].maxPlayers == s.cap && s.tables.worlds[1].currentPlayers == p
    && (forall h :: h in s.handlers ==> h < 2 * n)
    && (forall r :: r in s.tables.relays ==>
          r < n && (s.tables.relays[r].ticket.Some? ==> s.tables.relays[r].ticket.value < n))
    && (forall t :: t in s.tables.tickets ==> t < n)
    && |Tunnels(s, 1)| == n
  }

  function GuestJoins(n: nat): seq<Label> { [ConnectStep(2 * n + 1, n, Guest)] + Turns(2 * n + 1, 4) }

  function OneMoreTunnel(n: nat): seq<Label> { [MintStep(n, 1, n)] + (HostWaits(2 * n, n) + GuestJoins(n)) }

  function Minted(s: State, n: nat): State { s.(tables := MintRelay(s.tables, n, 1, n)) }

  lemma CrowdMints(s: State, n: nat, p: nat, rest: seq<Label>)
    requires Crowded(s, n, p) && p < s.cap
    ensures Exec(s, [MintStep(n, 1, n)] + rest) == Exec(Minted(s, n), rest)
    ensures var t := Minted(s, n).tables;
      && t.worlds == s.tables.worlds && HasFreeSlot(t, 1)
      && t.relays == s.tables.relays[n := Relay(1, Some(n), RelayStatus.Pending)]
      && t.tickets == s.tables.tickets[n := false]
  {
    ExecCons(s, MintStep(n, 1, n), rest);
  }

  /** With a free slot, one more tunnel comes to run. */
  lemma CrowdGrows(s: State, n: nat, p: nat)
    requires Crowded(s, n, p) && p < s.cap
    ensures Exec(s, OneMoreTunnel(n)).Some? && Crowded(Exec(s, OneMoreTunnel(n)).value, n + 1, p + 1)
  {
    var h, g := 2 * n, 2 * n + 1;
    CrowdMints(s, n, p, HostWaits(h, n) + GuestJoins(n));
    var s1 := Minted(s, n);
    HostParks(s1, h, n);
    var s2 := WithParked(s1, h, n);
    ExecAppend(s1, HostWaits(h, n), GuestJoins(n));
    GuestPipes(s2, g, h, n);
    CrowdSize(s, n, p);
  }

  lemma CrowdSize(s: State, n: nat, p: nat)
    requires Crowded(s, n, p) && p < s.cap
    requires var t := Minted(s, n).tables;
      && t.worlds == s.tables.worlds && HasFreeSlot(t, 1)
      && t.relays == s.tables.relays[n := Relay(1, Some(n), RelayStatus.Pending)]
      && t.tickets == s.tables.tickets[n := false]
    ensures Crowded(WithTunnel(WithParked(Minted(s, n), 2 * n, n), 2 * n + 1, 2 * n, n), n + 1, p + 1)
  {
    var h, g, s1 := 2 * n, 2 * n + 1, Minted(s, n);
    var s3 := WithTunnel(WithParked(s1, h, n), g, h, n);
    assert s3.handlers == s.handlers[h := Handler(n, 1, Host, Waiting)][g := Handler(n, 1, Guest, Piping(h))];
    TunnelRows(WithParked(s1, h, n), g, h, n);
    CrowdedTunnels(s, s3, n);
    assert s3.hub.waiting == map[];
  }

  lemma CrowdedTunnels(s: State, s3: State, n: nat)
    requires |Tunnels(s, 1)| == n && (forall h :: h in s.handlers ==> h < 2 * n)
    requires s3.handlers ==
      s.handlers[2 * n := Handler(n, 1, Host, Waiting)][2 * n + 1 := Handler(n, 1, Guest, Piping(2 * n))]
    ensures |Tunnels(s3, 1)| == n + 1
  {
    assert Tunnels(s3, 1) == Tunnels(s, 1) + {2 * n + 1};
  }

  /** Re-creating the world counts its players from zero, and is a reset. */
  lemma CrowdForgotten(s: State, n: nat, p: nat)
    requires Crowded(s, n, p)
    ensures Exec(s, [CreateStep(1, None, 2)]).Some? && Crowded(Exec(s, [CreateStep(1, None, 2)]).value, n, 0)
    ensures ResetCount(s, [CreateStep(1, None, 2)], 1) == 1
  {
    var l := CreateStep(1, None, 2);
    var s' := Apply(s, l);
    assert [l][1..] == [] && Exec(s', []) == Some(s') && ResetCount(s', [], 1) == 0;
    assert Tunnels(s', 1) == Tunnels(s, 1);
  }

  lemma {:induction false} ResetsAppend(s: State, a: seq<Label>, b: seq<Label>, w: WorldId)
    requires 1 <= s.cap && Exec(s, a).Some? && Exec(s, a).value.cap == s.cap && Exec(Exec(s, a).value, b).Some?
    ensures Exec(s, a + b).Some?
    ensures ResetCount(s, a + b, w) == ResetCount(s, a, w) + ResetCount(Exec(s, a).value, b, w)
    decreases |a|
  {
    ExecAppend(s, a, b);
    if a == [] {
      assert a + b == b;
    } else {
      assert (a + b)[1..] == a[1..] + b;
      ResetsAppend(Apply(s, a[0]), a[1..], b, w);
    }
  }

  /** Steps that no world endpoint takes. */
  predicate Quiet(run: seq<Label>) {
    forall i :: 0 <= i < |run| ==> run[i].MintStep? || run[i].ConnectStep? || run[i].HandlerStep?
  }

  lemma {:induction false} QuietTurns(h: SocketId, n: nat)
    ensures Quiet(Turns(h, n))
  {
    if n > 0 { QuietTurns(h, n - 1); }
  }

  lemma {:induction false} QuietResets(s: State, run: seq<Label>, w: WorldId)
    requires 1 <= s.cap && Exec(s, run).Some? && Quiet(run)
    ensures ResetCount(s, run, w) == 0
    decreases |run|
  {
    if run != [] { QuietResets(Apply(s, run[0]), run[1..], w); }
  }

  lemma QuietTunnel(n: nat)
    ensures Quiet(OneMoreTunnel(n))
  {
    QuietTurns(2 * n, 2);
    QuietTurns(2 * n + 1, 4);
  }

  /** A world filled `k` times over and then up to `p` players, with `k` resets. */
  ghost predicate Filled(cap: int, run: seq<Label>, k: nat, p: nat)
    requires 1 <= cap
  {
    && Exec(Initial(cap), run).Some? && ResetCount(Initial(cap), run, 1) == k
    && Crowded(Exec(Initial(cap), run).value, cap * k + p, p)
  }

  lemma FirstWorld(cap: int) returns (run: seq<Label>)
    requires 1 <= cap
    ensures Filled(cap, run, 0, 0)
  {
    run := [CreateStep(1, None, 1)];
    var s := Apply(Initial(cap), run[0]);
    assert run[1..] == [] && Exec(s, []) == Some(s) && ResetCount(s, [], 1) == 0;
    assert Tunnels(s, 1) == {};
  }

  lemma FilledOnce(cap: int, before: seq<Label>, more: seq<Label>, k: nat, resets: nat)
    requires 1 <= cap && Exec(Initial(cap), before).Some? && ResetCount(Initial(cap), before, 1) == k
    requires var s := Exec(Initial(cap), before).value;
      s.cap == cap && Exec(s, more).Some? && ResetCount(s, more, 1) == resets
    ensures Exec(Initial(cap), before + more) == Exec(Exec(Initial(cap), before).value, more)
    ensures ResetCount(Initial(cap), before + more, 1) == k + resets
  {
    ExecAppend(Initial(cap), before, more);
    ResetsAppend(Initial(cap), before, more, 1);
  }

  lemma FilledFurther(cap: int, before: seq<Label>, k: nat, p: nat)
    requires 1 <= cap && p < cap && Filled(cap, before, k, p)
    ensures Filled(cap, before + OneMoreTunnel(cap * k + p), k, p + 1)
  {
    var s, n := Exec(Initial(cap), before).value, cap * k + p;
    CapIsFixed(Initial(cap), before);
    CrowdGrows(s, n, p);
    assert ResetCount(s, OneMoreTunnel(n), 1) == 0 by {
      QuietTunnel(n);
      QuietResets(s, OneMoreTunnel(n), 1);
    }
    FilledOnce(cap, before, OneMoreTunnel(n), k, 0);
  }

  lemma FilledAgain(cap: int, before: seq<Label>, k: nat)
    requires 1 <= cap && Filled(cap, before, k, cap)
    ensures Filled(cap, before + [CreateStep(1, None, 2)], k + 1, 0)
  {
    CapIsFixed(Initial(cap), before);
    CrowdForgotten(Exec(Initial(cap), before).value, cap * k + cap, cap);
    FilledOnce(cap, before, [CreateStep(1, None, 2)], k, 1);
    assert cap * k + cap == cap * (k + 1) + 0;
  }

  lemma {:induction false} FillWorld(cap: int, k: nat, p: nat) returns (run: seq<Label>)
    requires 1 <= cap && p <= cap
    ensures Filled(cap, run, k, p)
    decreases k, p
  {
    if p > 0 {
      var before := FillWorld(cap, k, p - 1);
      FilledFurther(cap, before, k, p - 1);
      run := before + OneMoreTunnel(cap * k + (p - 1));
    } else if k > 0 {
      var before := FillWorld(cap, k - 1, cap);
      FilledAgain(cap, before, k - 1);
      run := before + [CreateStep(1, None, 2)];
    } else {
      run := FirstWorld(cap);
    }
  }

  /** The bound of `SlotsBoundedByResets` is met: for every cap and every number of resets there
      is a run with exactly one capful of tunnels more for each. */
  lemma ResetBoundIsTight(cap: int, k: nat) returns (run: seq<Label>)
    requires 1 <= cap
    ensures Exec(Initial(cap), run).Some? && ResetCount(Initial(cap), run, 1) == k
    ensures |Tunnels(Exec(Initial(cap), run).value, 1)| == cap * (1 + k)
  {
    run := FillWorld(cap, k, cap);
    assert cap * k + cap == cap * (1 + k);
  }

  /** So any number of tunnels can run in a world at once, whatever the cap. */
  lemma RecreatedWorldsExceedAnyCap(cap: int, n: nat) returns (run: seq<Label>)
    requires 1 <= cap
    ensures Exec(Initial(cap), run).Some? && |Tunnels(Exec(Initial(cap), run).value, 1)| == n
  {
    run := FillWorld(cap, n / cap, n % cap);
  }

  // ----- A socket removed by another handler -----

  /** `n` further hosts connect to relay id 1 and go no further. */
  function IdleHosts(n: nat): seq<Label> {
    if n == 0 then [] else IdleHosts(n - 1) + [ConnectStep(100 + n, 1, Host)]
  }

  ghost predicate IdleAfter(s: State, n: nat) {
    && s.hub.waiting == map[] && 1 <= s.cap
    && 1 in s.tables.relays && s.tables.relays[1] == Relay(1, Some(1), RelayStatus.Pending)
    && 1 in s.tables.tickets && !s.tables.tickets[1] && HasFreeSlot(s.tables, 1)
    && s.handlers.Keys == Connected(s, 1, Host) && (forall h :: h in s.handlers ==> 100 < h <= 100 + n)
    && |Connected(s, 1, Host)| == n
  }

  function Setup(): seq<Label> { [CreateStep(1, None, 1)] + [MintStep(1, 1, 1)] }

  lemma SetupIsIdle(cap: int)
    requires 1 <= cap
    ensures Exec(Initial(cap), Setup()).Some? && IdleAfter(Exec(Initial(cap), Setup()).value, 0)
  {
    ExecCons(Initial(cap), CreateStep(1, None, 1), [MintStep(1, 1, 1)]);
    var s1 := Apply(Initial(cap), CreateStep(1, None, 1));
    ExecCons(s1, MintStep(1, 1, 1), []);
    assert [MintStep(1, 1, 1)] + [] == [MintStep(1, 1, 1)];
    assert Connected(Apply(s1, MintStep(1, 1, 1)), 1, Host) == {};
  }

  lemma IdleHostConnects(s: State, n: nat)
    requires IdleAfter(s, n)
    ensures var last := ConnectStep(101 + n, 1, Host); Enabled(s, last) && IdleAfter(Apply(s, last), n + 1)
  {
    var s' := Apply(s, ConnectStep(101 + n, 1, Host));
    assert 101 + n !in s.handlers;
    assert Connected(s', 1, Host) == Connected(s, 1, Host) + {101 + n};
  }

  lemma {:induction false} IdleHostsConnect(s: State, n: nat)
    requires IdleAfter(s, 0)
    ensures Exec(s, IdleHosts(n)).Some? && IdleAfter(Exec(s, IdleHosts(n)).value, n)
  {
    if n > 0 {
      IdleHostsConnect(s, n - 1);
      var s1 := Exec(s, IdleHosts(n - 1)).value;
      var last := ConnectStep(100 + n, 1, Host);
      IdleHostConnects(s1, n - 1);
      assert Exec(s1, [last]) == Some(Apply(s1, last)) by {
        ExecCons(s1, last, []);
        assert [last] + [] == [last];
      }
      ExecAppend(s, IdleHosts(n - 1), [last]);
    }
  }

  /** Host 10 parks, guest 11 takes it, host 12 parks, host 10's wait times out. */
  function DoubleHost(): seq<Label> {
    HostWaits(10, 1) + (([ConnectStep(11, 1, Guest)] + Turns(11, 4)) + (HostWaits(12, 1) + Turns(10, 1)))
  }

  lemma DoubleHostRuns(s: State, n: nat)
    requires IdleAfter(s, n)
    ensures Exec(s, DoubleHost()).Some?
    ensures var t := Exec(s, DoubleHost()).value;
      RemovesForeign(t, 10) && t.handlers[10].relay == 1 && |Connected(t, 1, Host)| == n + 2
  {
    var guest := [ConnectStep(11, 1, Guest)] + Turns(11, 4);
    HostParks(s, 10, 1);
    var s1 := WithParked(s, 10, 1);
    ExecAppend(s, HostWaits(10, 1), guest + (HostWaits(12, 1) + Turns(10, 1)));
    GuestPipes(s1, 11, 10, 1);
    ExecAppend(s1, guest, HostWaits(12, 1) + Turns(10, 1));
    SecondHostParks(s, n);
  }

  /** Once host 10 and guest 11 are piped, another host may connect and nobody is parked. */
  lemma TunnelLeaves(s: State, n: nat)
    requires IdleAfter(s, n)
    ensures var s2 := WithTunnel(WithParked(s, 10, 1), 11, 10, 1);
      && s2.cap == s.cap && s2.hub.waiting == map[] && Enabled(s2, ConnectStep(12, 1, Host))
      && s2.tables.relays[1].world == 1
      && s2.handlers == s.handlers[10 := Handler(1, 1, Host, Waiting)][11 := Handler(1, 1, Guest, Piping(10))]
  {
    TunnelRows(WithParked(s, 10, 1), 11, 10, 1);
  }

  lemma SecondHostParks(s: State, n: nat)
    requires IdleAfter(s, n)
    ensures var s2 := WithTunnel(WithParked(s, 10, 1), 11, 10, 1);
      && Exec(s2, HostWaits(12, 1) + Turns(10, 1)).Some?
      && var t := Exec(s2, HostWaits(12, 1) + Turns(10, 1)).value;
         RemovesForeign(t, 10) && t.handlers[10].relay == 1 && |Connected(t, 1, Host)| == n + 2
  {
    var s2 := WithTunnel(WithParked(s, 10, 1), 11, 10, 1);
    TunnelLeaves(s, n);
    SecondHostParksAfter(s2);
    var s4 := At(WithParked(s2, 12, 1), 10, Removing);
    assert s4.handlers == s.handlers[10 := Handler(1, 1, Host, Removing)][11 := Handler(1, 1, Guest, Piping(10))][
      12 := Handler(1, 1, Host, Waiting)];
    MoreHosts(s, s4, n);
  }

  lemma SecondHostParksAfter(s2: State)
    requires 1 <= s2.cap && s2.hub.waiting == map[] && Enabled(s2, ConnectStep(12, 1, Host))
    requires 10 in s2.handlers && s2.handlers[10] == Handler(1, 1, Host, Waiting)
    ensures var s4 := At(WithParked(s2, 12, 1), 10, Removing);
      Exec(s2, HostWaits(12, 1) + Turns(10, 1)) == Some(s4) && RemovesForeign(s4, 10)
  {
    var s3 := WithParked(s2, 12, 1);
    assert Exec(s2, HostWaits(12, 1)) == Some(s3) by { HostParks(s2, 12, 1); }
    assert Exec(s3, Turns(10, 1)) == Some(At(s3, 10, Removing)) by { OneTurn(s3, 10); }
    ExecAppend(s2, HostWaits(12, 1), Turns(10, 1));
  }

  lemma OneTurn(s: State, h: SocketId)
    requires 1 <= s.cap && h in s.handlers && s.handlers[h].pc == Waiting
    ensures Exec(s, Turns(h, 1)) == Some(At(s, h, Removing))
  {
    var s' := At(s, h, Removing);
    assert AfterTurns(s', h, 0) == s' && AfterTurns(s, h, 1) == s' && CanTurn(s, h, 1);
    ExecTurns(s, h, 1);
  }

  lemma MoreHosts(s: State, s4: State, n: nat)
    requires |Connected(s, 1, Host)| == n && (forall h :: h in s.handlers ==> 100 < h)
    requires s4.handlers ==
      s.handlers[10 := Handler(1, 1, Host, Removing)][11 := Handler(1, 1, Guest, Piping(10))][
        12 := Handler(1, 1, Host, Waiting)]
    ensures |Connected(s4, 1, Host)| == n + 2
  {
    assert Connected(s4, 1, Host) == Connected(s, 1, Host) + {10} + {12};
  }

  /** Some run with exactly `n` host connections to a relay id reaches a handler about to
      remove a socket that is not its own. */
  ghost predicate ForeignRemovalPossible(cap: int, n: nat)
    requires 1 <= cap
  {
    exists run, h :: Exec(Initial(cap), run).Some? && RemovesForeign(Exec(Initial(cap), run).value, h)
      && |Connected(Exec(Initial(cap), run).value, Exec(Initial(cap), run).value.handlers[h].relay, Host)| == n
  }

  /** The claim that a first party removes only its own socket fails exactly when the host
      has connected to the relay id more than once. */
  lemma RemoveWaitingExactlyWhenOwn(cap: int, n: nat)
    requires 1 <= cap
    ensures ForeignRemovalPossible(cap, n) <==> n >= 2
  {
    if n >= 2 {
      SetupIsIdle(cap);
      var s0 := Exec(Initial(cap), Setup()).value;
      IdleHostsConnect(s0, n - 2);
      var s1 := Exec(s0, IdleHosts(n - 2)).value;
      DoubleHostRuns(s1, n - 2);
      ExecAppend(Initial(cap), Setup(), IdleHosts(n - 2) + DoubleHost());
      ExecAppend(s0, IdleHosts(n - 2), DoubleHost());
      var run := Setup() + (IdleHosts(n - 2) + DoubleHost());
      assert RemovesForeign(Exec(Initial(cap), run).value, 10);
    } else if ForeignRemovalPossible(cap, n) {
      var run, h :| Exec(Initial(cap), run).Some? && RemovesForeign(Exec(Initial(cap), run).value, h)
        && |Connected(Exec(Initial(cap), run).value, Exec(Initial(cap), run).value.handlers[h].relay, Host)| == n;
      var s := Exec(Initial(cap), run).value;
      SmallSet(Connected(s, s.handlers[h].relay, Host));
      RemoveWaitingIsOwn(cap, run, h);
    }
  }

  lemma SmallSet<T>(a: set<T>)
    requires |a| <= 1
    ensures forall x, y :: x in a && y in a ==> x == y
  {
    forall x, y | x in a && y in a ensures x == y {
      if x != y {
        SubsetSize({x, y}, a);
      }
    }
  }
}
