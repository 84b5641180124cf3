/** The way in, from the accept to the tunnel: whoever is accepted gets into the world, when both
    parties come and nobody takes the slot before. */
module JourneyLaws {
  import opened Wrappers
  import opened NetworkTables
  import opened RelayHubs
  import Desk = Admissions
  import DeskRuns = AdmissionRuns
  import DeskLaws = AdmissionLaws
  import Net = RelayProtocol
  import NetRuns = RelayRuns
  import NetWitnesses = RelayWitnesses
  import NetLaws = RelayLaws
  import opened GuestJourneys

  // ----- Runs of the relay alone -----

  predicate RelayOnly(run: seq<Net.Label>) {
    forall i :: 0 <= i < |run| ==> !run[i].MintStep? && !run[i].SweepTicketsStep?
  }

  function AtTheRelay(run: seq<Net.Label>): seq<Event> {
    if run == [] then [] else [AtRelay(run[0])] + AtTheRelay(run[1..])
  }

  /** Steps of the relay change its half as they do alone, and leave the desk. */
  lemma {:induction false} RelayRunsAlone(j: Journey, run: seq<Net.Label>)
    requires 1 <= j.net.cap && RelayOnly(run) && Net.Exec(j.net, run).Some?
    ensures Exec(j, AtTheRelay(run)) == Some(Journey(j.desk, Net.Exec(j.net, run).value))
    decreases |run|
  {
    if run != [] {
      assert RelayOnly(run[1..]);
      RelayRunsAlone(Apply(j, AtRelay(run[0])), run[1..]);
      assert AtTheRelay(run)[1..] == AtTheRelay(run[1..]);
    }
  }

  lemma {:induction false} TurnsAreRelayOnly(h: SocketId, n: nat)
    ensures RelayOnly(NetWitnesses.Turns(h, n))
  {
    if n > 0 { TurnsAreRelayOnly(h, n - 1); }
  }

  // ----- Both parties come -----

  /** The host connects and parks, then the guest connects, takes it and pipes. */
  function BothCome(h: SocketId, g: SocketId, r: RelayId): seq<Net.Label> {
    NetWitnesses.HostWaits(h, r) + ([Net.ConnectStep(g, r, Guest)] + NetWitnesses.Turns(g, 4))
  }

  lemma BothComeIsRelayOnly(h: SocketId, g: SocketId, r: RelayId)
    ensures RelayOnly(BothCome(h, g, r))
  {
    TurnsAreRelayOnly(h, 2);
    TurnsAreRelayOnly(g, 4);
  }

  predicate RoomIn(t: Tables, w: WorldId) {
    w in t.worlds && t.worlds[w].status == WorldStatus.Open && t.worlds[w].currentPlayers < t.worlds[w].maxPlayers
  }

  /** `g` and `h` are joined in a tunnel, and that is what became of the rows. */
  predicate LetIn(s: Net.State, t: Net.State, h: SocketId, g: SocketId, r: RelayId, w: WorldId, ticket: TicketId)
    requires w in s.tables.worlds
  {
    && g in t.handlers && t.handlers[g] == Net.Handler(r, w, Guest, Net.Piping(h))
    && h in t.handlers && t.handlers[h] == Net.Handler(r, w, Host, Net.Waiting)
    && t.tables.relays == s.tables.relays[r := Relay(w, Some(ticket), RelayStatus.Active)]
    && t.tables.tickets == s.tables.tickets[ticket := true]
    && t.tables.worlds == s.tables.worlds[w := s.tables.worlds[w].(currentPlayers := s.tables.worlds[w].currentPlayers + 1)]
    && t.hub.active == s.hub.active + 1
  }

  /** Two new connections, to a relay id nobody waits at, with room left in the counter. */
  predicate BothNew(s: Net.State, h: SocketId, g: SocketId, r: RelayId) {
    h !in s.handlers && g !in s.handlers && h != g && r !in s.hub.waiting && s.hub.active + 1 < USIZE_RANGE
  }

  lemma MintedPairMeets(s: Net.State, r: RelayId, w: WorldId, ticket: TicketId, h: SocketId, g: SocketId)
    requires 1 <= s.cap && Net.Enabled(s, Net.MintStep(r, w, ticket)) && RoomIn(s.tables, w) && BothNew(s, h, g, r)
    ensures var run := BothCome(h, g, r);
      var minted := Net.Apply(s, Net.MintStep(r, w, ticket));
      Net.Exec(minted, run).Some? && LetIn(s, Net.Exec(minted, run).value, h, g, r, w, ticket)
  {
    NetLaws.MintsExactly(s, r, w, ticket);
    var minted := Net.Apply(s, Net.MintStep(r, w, ticket));
    NetLaws.ConnectsExactly(minted, h, r, Host);
    NetWitnesses.HostParks(minted, h, r);
    var parked := NetWitnesses.WithParked(minted, h, r);
    NetLaws.TunnelOpens(parked, g, h, r, Guest);
    NetWitnesses.ExecAppend(minted, NetWitnesses.HostWaits(h, r), [Net.ConnectStep(g, r, Guest)] + NetWitnesses.Turns(g, 4));
  }

  /** The desk step mints, and the rest is the relay's. */
  lemma MintingStepLetsIn(j: Journey, step: Desk.Label, r: RelayId, w: WorldId, ticket: TicketId, h: SocketId, g: SocketId)
    requires Together(j) && Desk.Enabled(Seen(j), step) && Mirrored(j, step) == Some(Net.MintStep(r, w, ticket))
    requires RoomIn(j.net.tables, w) && BothNew(j.net, h, g, r)
    ensures var run := [AtDesk(step)] + AtTheRelay(BothCome(h, g, r));
      && Exec(j, run).Some?
      && Exec(j, run).value.desk == Desk.Apply(Seen(j), step)
      && LetIn(j.net, Exec(j, run).value.net, h, g, r, w, ticket)
  {
    MirrorIsEnabled(j, step);
    MintedPairMeets(j.net, r, w, ticket, h, g);
    BothComeIsRelayOnly(h, g, r);
    var run := AtTheRelay(BothCome(h, g, r));
    RelayRunsAlone(Apply(j, AtDesk(step)), BothCome(h, g, r));
    assert ([AtDesk(step)] + run)[1..] == run;
  }

  // ----- From the accept to the tunnel -----

  /** In every state a run can reach: when the invitee accepts an acceptable invite, and then the host
      and the guest connect, the invite is accepted and the guest's tunnel into the world runs. */
  lemma AcceptedInviteeGetsIn(
    cap: int, now: int, around: Desk.Surroundings, before: seq<Event>,
    caller: UserId, id: Desk.RequestId, ticket: TicketId, r: RelayId, h: SocketId, g: SocketId)
    requires 1 <= cap && Exec(Initial(cap, now, around), before).Some?
    requires var j := Exec(Initial(cap, now, around), before).value;
      && DeskLaws.InviteAcceptable(Seen(j), caller, id)
      && ticket !in j.desk.usedTickets && r !in j.desk.relays && BothNew(j.net, h, g, r)
    ensures var j := Exec(Initial(cap, now, around), before).value;
      var run := [AtDesk(Desk.AcceptInviteStep(caller, id, ticket, r))] + AtTheRelay(BothCome(h, g, r));
      && j.net.cap >= 1 && Exec(j, run).Some?
      && var t := Exec(j, run).value;
         && id in t.desk.invites && t.desk.invites[id].status == Desk.Accepted
         && j.desk.invites[id].world in j.net.tables.worlds
         && LetIn(j.net, t.net, h, g, r, j.desk.invites[id].world, ticket)
         && GuestOf(t, Desk.FromInvite(id), g)
  {
    Invariant(Initial(cap, now, around), before);
    var j := Exec(Initial(cap, now, around), before).value;
    var step := Desk.AcceptInviteStep(caller, id, ticket, r);
    DeskLaws.AcceptsInviteExactly(Seen(j), caller, id, ticket, r);
    MintingStepLetsIn(j, step, r, j.desk.invites[id].world, ticket, h, g);
  }

  /** The same for a join request that its host accepts. */
  lemma AcceptedRequesterGetsIn(
    cap: int, now: int, around: Desk.Surroundings, before: seq<Event>,
    caller: UserId, id: Desk.RequestId, ticket: TicketId, r: RelayId, h: SocketId, g: SocketId)
    requires 1 <= cap && Exec(Initial(cap, now, around), before).Some?
    requires var j := Exec(Initial(cap, now, around), before).value;
      && DeskLaws.RequestAcceptable(Seen(j), caller, id)
      && ticket !in j.desk.usedTickets && r !in j.desk.relays && BothNew(j.net, h, g, r)
    ensures var j := Exec(Initial(cap, now, around), before).value;
      var run := [AtDesk(Desk.AcceptRequestStep(caller, id, ticket, r))] + AtTheRelay(BothCome(h, g, r));
      && j.net.cap >= 1 && Exec(j, run).Some?
      && var t := Exec(j, run).value;
         && id in t.desk.requests && t.desk.requests[id].status == Desk.Accepted
         && j.desk.requests[id].world in j.net.tables.worlds
         && LetIn(j.net, t.net, h, g, r, j.desk.requests[id].world, ticket)
         && GuestOf(t, Desk.FromRequest(id), g)
  {
    Invariant(Initial(cap, now, around), before);
    var j := Exec(Initial(cap, now, around), before).value;
    var step := Desk.AcceptRequestStep(caller, id, ticket, r);
    DeskLaws.AcceptsRequestExactly(Seen(j), caller, id, ticket, r);
    MintingStepLetsIn(j, step, r, j.desk.requests[id].world, ticket, h, g);
  }
}
