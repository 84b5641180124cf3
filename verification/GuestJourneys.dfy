/** The two halves of an admission together: the desk mints tickets and relay rows, the relay
    lets guests in by them. Both work on the same world, relay and ticket rows. */
module GuestJourneys {
  import opened Wrappers
  import opened NetworkTables
  import opened RelayHubs
  import Desk = Admissions
  import DeskRuns = AdmissionRuns
  import Net = RelayProtocol
  import NetSockets = RelaySockets
  import NetRuns = RelayRuns

  datatype Journey = Journey(desk: Desk.State, net: Net.State)

  datatype Event = AtDesk(step: Desk.Label) | AtRelay(move: Net.Label)

  function Initial(cap: int, now: int, around: Desk.Surroundings): Journey {
    Journey(Desk.Initial(now, around), Net.Initial(cap))
  }

  /** The desk reads the world rows as the world endpoints and the relay have left them. */
  function Seen(j: Journey): Desk.State {
    j.desk.(around := j.desk.around.(worlds := j.net.tables.worlds))
  }

  /** The relay row a desk step may write. */
  function Wanted(step: Desk.Label): Option<RelayId> {
    match step
    case AcceptInviteStep(_, _, _, r) => Some(r)
    case AcceptRequestStep(_, _, _, r) => Some(r)
    case IssueStep(_, _, r) => Some(r)
    case _ => None
  }

  /** What a desk step does to the rows of the relay. */
  function Mirrored(j: Journey, step: Desk.Label): Option<Net.Label>
    requires Desk.Enabled(Seen(j), step)
  {
    var after, r := Desk.Apply(Seen(j), step), Wanted(step);
    if step.DeleteTicketsStep? then Some(Net.SweepTicketsStep(step.gone))
    else if r.Some? && r.value in after.relays then
      Some(Net.MintStep(r.value, after.relays[r.value].world, after.relays[r.value].ticket))
    else None
  }

  /** Any step of the desk, and any of the relay that is not the desk's to make. */
  predicate Enabled(j: Journey, e: Event) {
    match e
    case AtDesk(step) =>
      Desk.Enabled(Seen(j), step) && (Mirrored(j, step).Some? ==> Net.Enabled(j.net, Mirrored(j, step).value))
    case AtRelay(l) => !l.MintStep? && !l.SweepTicketsStep? && Net.Enabled(j.net, l)
  }

  function Apply(j: Journey, e: Event): Journey
    requires 1 <= j.net.cap && Enabled(j, e)
  {
    match e
    case AtDesk(step) =>
      var mirrored := Mirrored(j, step);
      Journey(Desk.Apply(Seen(j), step), if mirrored.Some? then Net.Apply(j.net, mirrored.value) else j.net)
    case AtRelay(l) => j.(net := Net.Apply(j.net, l))
  }

  function Exec(j: Journey, run: seq<Event>): Option<Journey>
    requires 1 <= j.net.cap
    decreases |run|
  {
    if run == [] then Some(j)
    else if Enabled(j, run[0]) then Exec(Apply(j, run[0]), run[1..])
    else None
  }

  // ----- The shared rows -----

  /** Each relay row is one row, seen from both sides; the relay side forgets a ticket that
      was deleted. */
  ghost predicate SameRows(desk: Desk.State, t: Tables) {
    && desk.relays.Keys == t.relays.Keys && desk.tickets.Keys == t.tickets.Keys
    && forall r :: r in t.relays ==>
         && t.relays[r].world == desk.relays[r].world
         && (t.relays[r].ticket.Some? ==> t.relays[r].ticket.value == desk.relays[r].ticket)
  }

  /** A ticket about to be issued is for a world that exists. */
  ghost predicate IssuesOk(desk: Desk.State, t: Tables) {
    forall h :: h in desk.pending && desk.pending[h].IssueTicket? ==> desk.pending[h].world in t.worlds
  }

  ghost predicate Together(j: Journey) {
    && DeskRuns.Inv(j.desk) && 1 <= j.net.cap && NetSockets.Linked(j.net) && NetRuns.TicketsOk(j.net)
    && SameRows(j.desk, j.net.tables) && IssuesOk(j.desk, j.net.tables)
  }

  lemma SeenKeeps(j: Journey)
    requires Together(j)
    ensures Together(j.(desk := Seen(j)))
  {
    DeskRuns.InvKept(j.desk, Desk.Elsewhere(Seen(j).around, j.desk.now));
  }

  /** The relay rows after a desk step are those there were, and the one it writes. */
  ghost predicate RelaysMove(s: Desk.State, s': Desk.State, step: Desk.Label) {
    var r := Wanted(step);
    && s'.relays.Keys == (if r.Some? && r.value in s'.relays then s.relays.Keys + {r.value} else s.relays.Keys)
    && (forall q :: q in s.relays ==> s'.relays[q] == s.relays[q])
    && (r.Some? ==> r.value !in s.relays && (r.value in s'.relays ==> s'.relays[r.value].ticket !in s.usedTickets))
  }

  ghost predicate TicketsMove(s: Desk.State, s': Desk.State, step: Desk.Label) {
    s'.tickets.Keys ==
      if step.DeleteTicketsStep? then s.tickets.Keys - step.gone
      else if Wanted(step).Some? && Wanted(step).value in s'.relays then s.tickets.Keys + {s'.relays[Wanted(step).value].ticket}
      else s.tickets.Keys
  }

  lemma DeskRelays(s: Desk.State, step: Desk.Label)
    requires Desk.Enabled(s, step)
    ensures RelaysMove(s, Desk.Apply(s, step), step)
  {
    if step.WriteStep? { DeskRuns.TransitionKeepsRows(s, s.pending[step.h]); }
  }

  lemma DeskTickets(s: Desk.State, step: Desk.Label)
    requires Desk.Enabled(s, step)
    ensures TicketsMove(s, Desk.Apply(s, step), step)
  {
    if step.WriteStep? { DeskRuns.TransitionKeepsRows(s, s.pending[step.h]); }
  }

  lemma DeskWorlds(s: Desk.State, step: Desk.Label)
    requires Desk.Enabled(s, step)
    ensures var s' := Desk.Apply(s, step);
      forall r :: r in s'.relays && r !in s.relays ==>
        s'.relays[r].world in s.around.worlds || (step.IssueStep? && s'.relays[r].world == s.pending[step.h].world)
  {
    if step.WriteStep? { DeskRuns.TransitionKeepsRows(s, s.pending[step.h]); }
  }

  /** What the desk step leaves in the relay's tables. */
  function RowsAfter(t: Tables, after: Desk.State, step: Desk.Label): Tables {
    if step.DeleteTicketsStep? then DeleteTickets(t, step.gone)
    else if Wanted(step).Some? && Wanted(step).value in after.relays then
      MintRelay(t, Wanted(step).value, after.relays[Wanted(step).value].world, after.relays[Wanted(step).value].ticket)
    else t
  }

  lemma MirrorWrites(j: Journey, step: Desk.Label)
    requires 1 <= j.net.cap && Enabled(j, AtDesk(step))
    ensures Apply(j, AtDesk(step)).net.tables == RowsAfter(j.net.tables, Desk.Apply(Seen(j), step), step)
  {
  }

  lemma RowsFollow(s: Desk.State, s': Desk.State, t: Tables, step: Desk.Label)
    requires SameRows(s, t) && RelaysMove(s, s', step) && TicketsMove(s, s', step) && s.tickets.Keys <= s.usedTickets
    ensures SameRows(s', RowsAfter(t, s', step)) && RowsAfter(t, s', step).worlds == t.worlds
  {
    assert RowsAfter(t, s', step).tickets.Keys == s'.tickets.Keys;
    assert RowsAfter(t, s', step).relays.Keys == s'.relays.Keys;
  }

  lemma DeskIssues(s: Desk.State, step: Desk.Label, h: Desk.HandlerId)
    requires Desk.Enabled(s, step)
    ensures var s' := Desk.Apply(s, step);
      h in s'.pending && s'.pending[h].IssueTicket? ==>
        (h in s.pending && s'.pending[h] == s.pending[h]) || s'.pending[h].world in s.around.worlds
  {
  }

  /** The rows never stand in the way: whatever the desk may do, the relay's tables take. */
  lemma MirrorIsEnabled(j: Journey, step: Desk.Label)
    requires Together(j) && Desk.Enabled(Seen(j), step)
    ensures Enabled(j, AtDesk(step))
  {
    DeskRelays(Seen(j), step);
    DeskWorlds(Seen(j), step);
  }

  lemma DeskStepKeepsNet(j: Journey, step: Desk.Label)
    requires Together(j) && Enabled(j, AtDesk(step))
    ensures var net := Apply(j, AtDesk(step)).net;
      1 <= net.cap && NetSockets.Linked(net) && NetRuns.TicketsOk(net)
  {
    if Mirrored(j, step).Some? {
      NetSockets.LinkedKept(j.net, Mirrored(j, step).value);
      NetRuns.TicketsKept(j.net, Mirrored(j, step).value);
    }
  }

  lemma DeskStepKeepsRows(j: Journey, step: Desk.Label)
    requires Together(j) && Enabled(j, AtDesk(step))
    ensures var j' := Apply(j, AtDesk(step));
      SameRows(j'.desk, j'.net.tables) && j'.net.tables.worlds == j.net.tables.worlds
  {
    var s := Seen(j);
    var s' := Desk.Apply(s, step);
    DeskRelays(s, step);
    DeskTickets(s, step);
    MirrorWrites(j, step);
    RowsFollow(s, s', j.net.tables, step);
  }

  lemma DeskStepKeeps(j: Journey, step: Desk.Label)
    requires Together(j) && Enabled(j, AtDesk(step))
    ensures Together(Apply(j, AtDesk(step)))
  {
    var s, j' := Seen(j), Apply(j, AtDesk(step));
    assert DeskRuns.Inv(j'.desk) by {
      SeenKeeps(j);
      DeskRuns.InvKept(s, step);
    }
    DeskStepKeepsNet(j, step);
    DeskStepKeepsRows(j, step);
    forall h | h in j'.desk.pending && j'.desk.pending[h].IssueTicket?
      ensures j'.desk.pending[h].world in j'.net.tables.worlds
    {
      DeskIssues(s, step, h);
    }
  }

  lemma RelayStepKeeps(j: Journey, l: Net.Label)
    requires Together(j) && Enabled(j, AtRelay(l))
    ensures Together(Apply(j, AtRelay(l)))
  {
    NetSockets.LinkedKept(j.net, l);
    NetRuns.TicketsKept(j.net, l);
    RelayStepRows(j.net, l);
  }

  lemma RelayStepRows(s: Net.State, l: Net.Label)
    requires 1 <= s.cap && Net.Enabled(s, l) && !l.MintStep? && !l.SweepTicketsStep?
    ensures var t, t' := s.tables, Net.Apply(s, l).tables;
      && t'.relays.Keys == t.relays.Keys && t'.tickets.Keys == t.tickets.Keys && t.worlds.Keys <= t'.worlds.Keys
      && forall r :: r in t.relays ==> t'.relays[r].world == t.relays[r].world && t'.relays[r].ticket == t.relays[r].ticket
  {
    if l.HandlerStep? { HandlerStepRows(s, l.h); }
  }

  lemma HandlerStepRows(s: Net.State, h: SocketId)
    requires h in s.handlers
    ensures var t, t' := s.tables, Net.AfterHandler(s, h).tables;
      && t'.relays.Keys == t.relays.Keys && t'.tickets == t.tickets && t.worlds.Keys <= t'.worlds.Keys
      && forall r :: r in t.relays ==> t'.relays[r].world == t.relays[r].world && t'.relays[r].ticket == t.relays[r].ticket
  {
  }

  lemma {:induction false} Invariant(j: Journey, run: seq<Event>)
    requires Together(j) && Exec(j, run).Some?
    ensures Together(Exec(j, run).value)
    decreases |run|
  {
    if run != [] {
      match run[0] {
        case AtDesk(step) => DeskStepKeeps(j, step);
        case AtRelay(l) => RelayStepKeeps(j, l);
      }
      Invariant(Apply(j, run[0]), run[1..]);
    }
  }

  // ----- From an invite to a guest -----

  /** Guest connection `g` stands on a relay row that was minted for `o`. */
  ghost predicate GuestOf(j: Journey, o: Desk.Origin, g: SocketId) {
    g in j.net.handlers && j.net.handlers[g].role.Guest? && DeskRuns.Minted(j.desk, o, j.net.handlers[g].relay)
  }

  /** However accepts, connections, cleanups and restarts interleave, an invite or a join request
      lets in at most one guest connection, and only once it is accepted. */
  lemma OneGuestPerAdmission(
    cap: int, now: int, around: Desk.Surroundings, run: seq<Event>, o: Desk.Origin, g: SocketId, h: SocketId)
    requires 1 <= cap && Exec(Initial(cap, now, around), run).Some? && o != Desk.FromJoinable
    ensures var j := Exec(Initial(cap, now, around), run).value;
      && (GuestOf(j, o, g) && GuestOf(j, o, h) ==> g == h)
      && (GuestOf(j, o, g) && DeskRuns.Live(j.desk, o) ==> DeskRuns.HasAccepted(j.desk, o))
  {
    Invariant(Initial(cap, now, around), run);
    var j := Exec(Initial(cap, now, around), run).value;
    if GuestOf(j, o, g) && GuestOf(j, o, h) {
      var r := j.net.handlers[g].relay;
      assert NetRuns.AtMostOne(j.net, r, Guest) && j.net.handlers[h].relay == r;
      assert g in NetRuns.Connected(j.net, r, Guest) && h in NetRuns.Connected(j.net, r, Guest);
    }
  }

  /** Every guest connection stands on a relay row that the desk minted, for its world, and no
      other guest connection stands on the ticket of that row. */
  lemma EveryGuestWasAdmitted(
    cap: int, now: int, around: Desk.Surroundings, run: seq<Event>, g: SocketId, h: SocketId)
    requires 1 <= cap && Exec(Initial(cap, now, around), run).Some?
    requires var net := Exec(Initial(cap, now, around), run).value.net;
      && g in net.handlers && net.handlers[g].role.Guest?
      && h in net.handlers && net.handlers[h].role.Guest?
    ensures var j := Exec(Initial(cap, now, around), run).value;
      var q, r := j.net.handlers[g].relay, j.net.handlers[h].relay;
      && q in j.desk.relays && j.desk.relays[q].world == j.net.handlers[g].world
      && r in j.desk.relays && (j.desk.relays[q].ticket == j.desk.relays[r].ticket ==> g == h)
  {
    Invariant(Initial(cap, now, around), run);
    var j := Exec(Initial(cap, now, around), run).value;
    var q, r := j.net.handlers[g].relay, j.net.handlers[h].relay;
    if j.desk.relays[q].ticket == j.desk.relays[r].ticket {
      assert q == r && NetRuns.AtMostOne(j.net, q, Guest);
      assert g in NetRuns.Connected(j.net, q, Guest) && h in NetRuns.Connected(j.net, q, Guest);
    }
  }

  /** An accept that mints finds a free slot in the world by the very test that the relay
      makes when the guest comes. */
  lemma AcceptFindsAFreeSlot(j: Journey, step: Desk.Label, o: Desk.Origin, r: RelayId)
    requires Together(j) && Enabled(j, AtDesk(step)) && o != Desk.FromJoinable
    requires DeskRuns.Minted(Apply(j, AtDesk(step)).desk, o, r) && !DeskRuns.Minted(j.desk, o, r)
    ensures r in Apply(j, AtDesk(step)).net.tables.relays
    ensures HasFreeSlot(j.net.tables, Apply(j, AtDesk(step)).net.tables.relays[r].world)
  {
    SeenKeeps(j);
    DeskStepKeepsRows(j, step);
    if o.FromInvite? {
      DeskRuns.InviteAdmissionGates(Seen(j), step, o.id, r);
    } else {
      DeskRuns.RequestAdmissionGates(Seen(j), step, o.id, r);
    }
  }
}
