/** The invite and join-request tables, changed in place by the endpoints' statements. */
module AdmissionDesks {
  import opened Wrappers
  import opened NetworkTables
  import opened Admissions

  class AdmissionDesk {
    var now: int
    var around: Surroundings
    var invites: map<RequestId, Invite>
    var requests: map<RequestId, JoinRequest>
    var tickets: map<TicketId, Ticket>
    var relays: map<RelayId, RelayRow>
    var usedInvites: set<RequestId>
    var usedRequests: set<RequestId>
    var usedTickets: set<TicketId>
    var pending: map<HandlerId, Step>

    ghost function Model(): State
      reads this
    {
      State(now, around, invites, requests, tickets, relays, usedInvites, usedRequests, usedTickets, pending)
    }

    constructor (now: int, around: Surroundings)
      ensures Model() == Initial(now, around)
    {
      this.now, this.around, invites, requests, tickets := now, around, map[], map[], map[];
      relays, usedInvites, usedRequests, usedTickets, pending := map[], {}, {}, {}, map[];
    }

    method IssueTicketAndRelay(
      guest: UserId, host: UserId, w: WorldId, ticket: TicketId, relay: RelayId, origin: Origin)
      requires ticket !in usedTickets && relay !in relays
      modifies this`tickets, this`relays, this`usedTickets
      ensures Model() == Issue(old(Model()), guest, host, w, ticket, relay, origin)
    {
      tickets := tickets[ticket := Ticket(guest, w, relay)];
      relays := relays[relay := RelayRow(w, host, guest, ticket, origin)];
      usedTickets := usedTickets + {ticket};
    }

    /** The transaction of `POST /invites/:id/accept`. */
    method AcceptInvitation(caller: UserId, id: RequestId, ticket: TicketId, relay: RelayId)
      returns (refusal: Option<Error>)
      requires ticket !in usedTickets && relay !in relays
      modifies this`invites, this`tickets, this`relays, this`usedTickets
      ensures refusal == AcceptInviteRefusal(old(Model()), caller, id)
      ensures Model() == AcceptInvite(old(Model()), caller, id, ticket, relay)
    {
      if id !in invites { return Some(NotFound); }
      var row := invites[id];
      if row.invitee != caller { return Some(Forbidden); }
      if row.status != RequestStatus.Pending { return Some(Conflict); }
      if row.expiresAt <= now { return Some(Conflict); }
      if !IsOpen(around, row.world) { return Some(NotFound); }
      var world := around.worlds[row.world];
      if row.inviter != row.host {
        if world.policy != FriendsOfFriends { return Some(Forbidden); }
        if !AreFriends(around, row.host, row.inviter) { return Some(Forbidden); }
        if !AreFriends(around, row.inviter, row.invitee) { return Some(Forbidden); }
      }
      if world.currentPlayers >= world.maxPlayers { return Some(Conflict); }
      invites := invites[id := row.(status := Accepted, updatedAt := now)];
      IssueTicketAndRelay(row.invitee, row.host, row.world, ticket, relay, FromInvite(id));
      return None;
    }

    /** The transaction of `POST /join-requests/:id/accept`. */
    method AcceptJoinRequest(caller: UserId, id: RequestId, ticket: TicketId, relay: RelayId)
      returns (refusal: Option<Error>)
      requires ticket !in usedTickets && relay !in relays
      modifies this`requests, this`tickets, this`relays, this`usedTickets
      ensures refusal == AcceptRequestRefusal(old(Model()), caller, id)
      ensures Model() == AcceptRequest(old(Model()), caller, id, ticket, relay)
    {
      if id !in requests { return Some(NotFound); }
      var row := requests[id];
      if row.host != caller { return Some(Forbidden); }
      if row.status != RequestStatus.Pending { return Some(Conflict); }
      if row.expiresAt <= now { return Some(Conflict); }
      if !IsOpen(around, row.world) { return Some(NotFound); }
      var world := around.worlds[row.world];
      if !AreFriends(around, row.requester, row.host) {
        if world.policy != FriendsOfFriends { return Some(Forbidden); }
        if !FriendOfMember(around, row.requester, row.world) { return Some(Forbidden); }
      }
      if world.currentPlayers >= world.maxPlayers { return Some(Conflict); }
      requests := requests[id := row.(status := Accepted, updatedAt := now)];
      IssueTicketAndRelay(row.requester, row.host, row.world, ticket, relay, FromRequest(id));
      return None;
    }

    /** `UPDATE world_invites SET status = to WHERE id AND status IN from`. */
    method UpdateInvite(id: RequestId, from: set<RequestStatus>, to: RequestStatus) returns (affected: bool)
      modifies this`invites
      ensures affected <==> id in old(invites) && old(invites)[id].status in from
      ensures Model() == if affected then SetInvite(old(Model()), id, to) else old(Model())
    {
      affected := id in invites && invites[id].status in from;
      if affected {
        invites := invites[id := invites[id].(status := to, updatedAt := now)];
      }
    }

    /** The write of decline, approve or revoke, after the handler's reads. */
    method WriteInvite(step: Step) returns (affected: bool)
      requires step.DeclineInvite? || step.ApproveInvite? || step.RevokeInvite?
      modifies this`invites
      ensures Model() == Transition(old(Model()), step)
      ensures !affected ==> Model() == old(Model())
    {
      match step
      case DeclineInvite(id) => affected := UpdateInvite(id, {RequestStatus.Pending}, Declined);
      case ApproveInvite(id) => affected := UpdateInvite(id, {PendingApproval}, RequestStatus.Pending);
      case RevokeInvite(id) => affected := UpdateInvite(id, {RequestStatus.Pending, PendingApproval}, Revoked);
    }

    method InsertInviteRow(row: Invite, newId: RequestId) returns (conflict: bool)
      requires newId !in usedInvites
      modifies this`invites, this`usedInvites
      ensures conflict <==> InviteSlotTaken(old(Model()), row.world, row.invitee)
      ensures Model() == PutInvite(old(Model()), row, newId)
    {
      conflict := exists id ::
        && id in invites && invites[id].status.Active()
        && invites[id].world == row.world && invites[id].invitee == row.invitee;
      forall id ensures ActiveInvite(Model(), id, row.world, row.invitee) <==>
        && id in invites && invites[id].status.Active()
        && invites[id].world == row.world && invites[id].invitee == row.invitee {}
      if !conflict {
        invites := invites[newId := row.(updatedAt := now)];
        usedInvites := usedInvites + {newId};
      }
    }

    method ExpireRequests()
      modifies this`requests
      ensures Model() == ExpireRequestsOf(old(Model()), None)
    {
      requests := map id | id in requests ::
        if requests[id].status.Pending? && requests[id].expiresAt <= now
        then requests[id].(status := Expired, updatedAt := now) else requests[id];
    }

    method ExpireInvites()
      modifies this`invites
      ensures Model() == ExpireInvitesOf(old(Model()), None)
    {
      invites := map id | id in invites ::
        if invites[id].status.Active() && invites[id].expiresAt <= now
        then invites[id].(status := Expired, updatedAt := now) else invites[id];
    }

    method DeleteAgedRequests(before: int)
      modifies this`requests
      ensures Model() == DeleteRequests(old(Model()), before)
    {
      requests := map id | id in requests
        && !(!requests[id].status.Active() && requests[id].updatedAt < before) :: requests[id];
    }

    method DeleteAgedInvites(before: int)
      modifies this`invites
      ensures Model() == DeleteInvites(old(Model()), before)
    {
      invites := map id | id in invites
        && !(!invites[id].status.Active() && invites[id].updatedAt < before) :: invites[id];
    }

    /** The hourly sweep: each statement reads the clock anew. `spent` are the tickets that its
        third statement selects. */
    method CleanupRows(later: int, spent: set<TicketId>, requestsBefore: int, invitesBefore: int)
      modifies this`now, this`invites, this`requests, this`tickets
      ensures Model() == CleanedUp(old(Model()), later, spent, requestsBefore, invitesBefore)
    {
      ExpireRequests();
      now := later;
      ExpireInvites();
      tickets := tickets - spent;
      DeleteAgedRequests(requestsBefore);
      DeleteAgedInvites(invitesBefore);
    }
  }

  function CleanedUp(s: State, later: int, spent: set<TicketId>, requestsBefore: int, invitesBefore: int): State {
    var expired := ExpireInvitesOf(ExpireRequestsOf(s, None).(now := later), None);
    DeleteInvites(DeleteRequests(Admissions.DeleteTickets(expired, spent), requestsBefore), invitesBefore)
  }

  function Cleanup(s: State, later: int, spent: set<TicketId>, requestsBefore: int, invitesBefore: int): seq<Label> {
    Expiries(s, later) + [DeleteTicketsStep(spent), DeleteRequestsStep(requestsBefore), DeleteInvitesStep(invitesBefore)]
  }

  lemma {:induction false} ExecSnoc(s: State, run: seq<Label>, l: Label)
    requires Exec(s, run).Some? && Enabled(Exec(s, run).value, l)
    ensures Exec(s, run + [l]) == Some(Apply(Exec(s, run).value, l))
    decreases |run|
  {
    if run == [] {
      assert run + [l] == [l] && [l][1..] == [];
    } else {
      assert (run + [l])[1..] == run[1..] + [l];
      ExecSnoc(Apply(s, run[0]), run[1..], l);
    }
  }

  lemma ExecThree(s: State, run: seq<Label>, a: Label, b: Label, c: Label)
    requires Exec(s, run).Some? && Enabled(Exec(s, run).value, a)
    requires Enabled(Apply(Exec(s, run).value, a), b) && Enabled(Apply(Apply(Exec(s, run).value, a), b), c)
    ensures Exec(s, run + [a, b, c]) == Some(Apply(Apply(Apply(Exec(s, run).value, a), b), c))
  {
    ExecSnoc(s, run, a);
    ExecSnoc(s, run + [a], b);
    ExecSnoc(s, run + [a] + [b], c);
    assert run + [a] + [b] + [c] == run + [a, b, c];
  }

  function Expiries(s: State, later: int): seq<Label> {
    [ExpireRequestsStep, Elsewhere(s.around, later), ExpireInvitesStep]
  }

  lemma ExpiriesRun(s: State, later: int)
    requires s.now <= later
    ensures Exec(s, Expiries(s, later)) == Some(ExpireInvitesOf(ExpireRequestsOf(s, None).(now := later), None))
  {
    ExecThree(s, [], ExpireRequestsStep, Elsewhere(s.around, later), ExpireInvitesStep);
    assert [] + Expiries(s, later) == Expiries(s, later);
  }

  lemma DeletionsRun(s: State, run: seq<Label>, expired: State, spent: set<TicketId>, requestsBefore: int, invitesBefore: int)
    requires Exec(s, run) == Some(expired)
    ensures Exec(s, run + [DeleteTicketsStep(spent), DeleteRequestsStep(requestsBefore), DeleteInvitesStep(invitesBefore)])
      == Some(DeleteInvites(DeleteRequests(Admissions.DeleteTickets(expired, spent), requestsBefore), invitesBefore))
  {
    ExecThree(s, run, DeleteTicketsStep(spent), DeleteRequestsStep(requestsBefore), DeleteInvitesStep(invitesBefore));
  }

  /** The sweep is a run of the step relation, so what holds over every run holds across it. */
  lemma CleanupIsARun(s: State, later: int, spent: set<TicketId>, requestsBefore: int, invitesBefore: int)
    requires s.now <= later
    ensures Exec(s, Cleanup(s, later, spent, requestsBefore, invitesBefore))
      == Some(CleanedUp(s, later, spent, requestsBefore, invitesBefore))
  {
    ExpiriesRun(s, later);
    var expired := ExpireInvitesOf(ExpireRequestsOf(s, None).(now := later), None);
    DeletionsRun(s, Expiries(s, later), expired, spent, requestsBefore, invitesBefore);
  }

  // ----- The drain loop over the event log -----

  datatype EventId = EventId(uuid: int)

  ghost predicate Aged(events: map<EventId, int>, before: int, id: EventId) {
    id in events && events[id] < before
  }

  /** One chunked DELETE: the oldest aged rows, at most `chunk` of them. */
  method DeleteOldest(events: map<EventId, int>, before: int, chunk: nat) returns (left: map<EventId, int>, affected: nat)
    requires chunk > 0
    ensures left.Keys <= events.Keys && (forall id :: id in left ==> left[id] == events[id])
    ensures forall id :: id in events && id !in left ==> Aged(events, before, id)
    ensures affected == |events| - |left| && affected <= chunk
    ensures affected < chunk ==> forall id :: !Aged(left, before, id)
    ensures forall gone, id :: gone in events && gone !in left && Aged(left, before, id) ==> events[gone] <= events[id]
  {
    left, affected := events, 0;
    var aged := set id | id in events && events[id] < before;
    while affected < chunk && aged != {}
      invariant left.Keys <= events.Keys && (forall id :: id in left ==> left[id] == events[id])
      invariant forall id :: id in events && id !in left ==> Aged(events, before, id)
      invariant aged == set id | id in left && left[id] < before
      invariant affected == |events| - |left| && affected <= chunk
      invariant forall gone, id :: gone in events && gone !in left && Aged(left, before, id) ==> events[gone] <= events[id]
      decreases aged
    {
      var id := Oldest(left, aged);
      assert forall kept :: Aged(left, before, kept) ==> kept in aged;
      left := left - {id};
      aged := aged - {id};
      affected := affected + 1;
    }
    if affected < chunk {
      forall id ensures !Aged(left, before, id) { assert id !in aged; }
    }
  }

  method Oldest(events: map<EventId, int>, aged: set<EventId>) returns (oldest: EventId)
    requires aged != {} && aged <= events.Keys
    ensures oldest in aged && forall id :: id in aged ==> events[oldest] <= events[id]
  {
    oldest :| oldest in aged;
    var rest := aged - {oldest};
    while rest != {}
      invariant rest <= aged && oldest in aged
      invariant forall id :: id in aged && id !in rest ==> events[oldest] <= events[id]
      decreases rest
    {
      var id :| id in rest;
      rest := rest - {id};
      if events[id] < events[oldest] { oldest := id; }
    }
  }

  /** Chunking never makes the sweep partial: every aged row goes, nothing else does, and the
      total counts them. */
  method DeleteAgedInChunks(events: map<EventId, int>, before: int, chunk: nat)
    returns (left: map<EventId, int>, deleted: nat)
    requires chunk > 0
    ensures left == map id | id in events && events[id] >= before :: events[id]
    ensures deleted == |events| - |left|
  {
    left, deleted := events, 0;
    while true
      invariant left.Keys <= events.Keys && (forall id :: id in left ==> left[id] == events[id])
      invariant forall id :: id in events && id !in left ==> Aged(events, before, id)
      invariant deleted == |events| - |left|
      decreases |left|
    {
      var affected;
      left, affected := DeleteOldest(left, before, chunk);
      deleted := deleted + affected;
      if affected < chunk {
        forall id ensures id in left <==> id in events && events[id] >= before {
          assert !Aged(left, before, id);
        }
        return;
      }
    }
  }
}
