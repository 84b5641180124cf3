/** What each endpoint of the admission desk promises, stated on the rows: exactly when it goes
    through, what it writes then, and what it answers otherwise. */
module AdmissionLaws {
  import opened Wrappers
  import opened NetworkTables
  import opened Admissions
  import opened AdmissionRuns

  // ----- What the rows say -----

  /** The two are friends, whichever of them asked. */
  ghost predicate Befriended(around: Surroundings, a: UserId, b: UserId) {
    exists p :: p in around.friendships && p.0 <= p.1 && (p == (a, b) || p == (b, a))
  }

  lemma FriendsAre(around: Surroundings, a: UserId, b: UserId)
    ensures AreFriends(around, a, b) <==> Befriended(around, a, b)
  {
  }

  /** A friend of the user is live in the world. */
  ghost predicate KnowsAMember(around: Surroundings, user: UserId, w: WorldId) {
    w in around.members && exists g :: g in around.members[w] && Befriended(around, g, user)
  }

  lemma MembersAre(around: Surroundings, user: UserId, w: WorldId)
    ensures FriendOfMember(around, user, w) <==> KnowsAMember(around, user, w)
  {
    forall g ensures AreFriends(around, g, user) <==> Befriended(around, g, user) { FriendsAre(around, g, user); }
  }

  predicate Opened(around: Surroundings, w: WorldId) {
    w in around.worlds && around.worlds[w].status == WorldStatus.Open
  }

  predicate HasRoom(around: Surroundings, w: WorldId)
    requires w in around.worlds
  {
    around.worlds[w].currentPlayers < around.worlds[w].maxPlayers
  }

  predicate LetsFriendsOfFriends(around: Surroundings, w: WorldId)
    requires w in around.worlds
  {
    around.worlds[w].policy == FriendsOfFriends
  }

  predicate IsWith(around: Surroundings, user: UserId, statuses: set<PresenceStatus>) {
    user in around.presence && around.presence[user] in statuses
  }

  // ----- Accepting -----

  /** The invite was sent by the host, or by a friend of the host to a friend of the sender, while
      the world allows that. */
  ghost predicate RouteHolds(around: Surroundings, row: Invite)
    requires row.world in around.worlds
  {
    row.inviter == row.host
    || (LetsFriendsOfFriends(around, row.world)
        && Befriended(around, row.host, row.inviter) && Befriended(around, row.inviter, row.invitee))
  }

  predicate Ready(status: RequestStatus, expiresAt: int, now: int) { status == RequestStatus.Pending && now < expiresAt }

  ghost predicate InviteAcceptable(s: State, caller: UserId, id: RequestId) {
    && id in s.invites && s.invites[id].invitee == caller
    && Ready(s.invites[id].status, s.invites[id].expiresAt, s.now)
    && Opened(s.around, s.invites[id].world) && RouteHolds(s.around, s.invites[id]) && HasRoom(s.around, s.invites[id].world)
  }

  /** An accept goes through exactly if the caller is the invitee of a pending, unlapsed invite, its
      world is open and has room, and its route holds. Then the invite is accepted and ticket and
      relay row are written for the invitee, all at once; otherwise nothing is. */
  lemma AcceptsInviteExactly(s: State, caller: UserId, id: RequestId, ticket: TicketId, relay: RelayId)
    requires ticket !in s.usedTickets && relay !in s.relays
    ensures Enabled(s, AcceptInviteStep(caller, id, ticket, relay))
    ensures Apply(s, AcceptInviteStep(caller, id, ticket, relay)) ==
      if InviteAcceptable(s, caller, id) then
        var row := s.invites[id];
        s.(invites := s.invites[id := row.(status := Accepted, updatedAt := s.now)],
           tickets := s.tickets[ticket := Ticket(row.invitee, row.world, relay)],
           relays := s.relays[relay := RelayRow(row.world, row.host, row.invitee, ticket, FromInvite(id))],
           usedTickets := s.usedTickets + {ticket})
      else s
  {
    if id in s.invites {
      FriendsAre(s.around, s.invites[id].host, s.invites[id].inviter);
      FriendsAre(s.around, s.invites[id].inviter, s.invites[id].invitee);
    }
  }

  /** What a refused accept answers. */
  lemma InviteRefusals(s: State, caller: UserId, id: RequestId)
    ensures var refusal := AcceptInviteRefusal(s, caller, id);
      && (refusal.None? <==> InviteAcceptable(s, caller, id))
      && (refusal == Some(BadRequest) ==> false)
      && (id !in s.invites ==> refusal == Some(NotFound))
      && (id in s.invites ==>
            var row := s.invites[id];
            && (row.invitee != caller ==> refusal == Some(Forbidden))
            && (row.invitee == caller && !Ready(row.status, row.expiresAt, s.now) ==> refusal == Some(Conflict))
            && (row.invitee == caller && Ready(row.status, row.expiresAt, s.now) ==>
                  && (!Opened(s.around, row.world) ==> refusal == Some(NotFound))
                  && (Opened(s.around, row.world) && !RouteHolds(s.around, row) ==> refusal == Some(Forbidden))
                  && (Opened(s.around, row.world) && RouteHolds(s.around, row) && !HasRoom(s.around, row.world) ==>
                        refusal == Some(Conflict))))
  {
    if id in s.invites {
      FriendsAre(s.around, s.invites[id].host, s.invites[id].inviter);
      FriendsAre(s.around, s.invites[id].inviter, s.invites[id].invitee);
    }
  }

  /** The requester is a friend of the host, or of someone in a world that allows that. */
  ghost predicate MayAsk(around: Surroundings, requester: UserId, host: UserId, w: WorldId)
    requires w in around.worlds
  {
    Befriended(around, requester, host) || (LetsFriendsOfFriends(around, w) && KnowsAMember(around, requester, w))
  }

  ghost predicate RequestAcceptable(s: State, caller: UserId, id: RequestId) {
    && id in s.requests && s.requests[id].host == caller
    && Ready(s.requests[id].status, s.requests[id].expiresAt, s.now)
    && Opened(s.around, s.requests[id].world)
    && MayAsk(s.around, s.requests[id].requester, s.requests[id].host, s.requests[id].world)
    && HasRoom(s.around, s.requests[id].world)
  }

  /** The same for the host who accepts a join request. */
  lemma AcceptsRequestExactly(s: State, caller: UserId, id: RequestId, ticket: TicketId, relay: RelayId)
    requires ticket !in s.usedTickets && relay !in s.relays
    ensures Enabled(s, AcceptRequestStep(caller, id, ticket, relay))
    ensures Apply(s, AcceptRequestStep(caller, id, ticket, relay)) ==
      if RequestAcceptable(s, caller, id) then
        var row := s.requests[id];
        s.(requests := s.requests[id := row.(status := Accepted, updatedAt := s.now)],
           tickets := s.tickets[ticket := Ticket(row.requester, row.world, relay)],
           relays := s.relays[relay := RelayRow(row.world, row.host, row.requester, ticket, FromRequest(id))],
           usedTickets := s.usedTickets + {ticket})
      else s
  {
    if id in s.requests {
      FriendsAre(s.around, s.requests[id].requester, s.requests[id].host);
      MembersAre(s.around, s.requests[id].requester, s.requests[id].world);
    }
  }

  lemma RequestRefusals(s: State, caller: UserId, id: RequestId)
    ensures var refusal := AcceptRequestRefusal(s, caller, id);
      && (refusal.None? <==> RequestAcceptable(s, caller, id))
      && (refusal == Some(BadRequest) ==> false)
      && (id !in s.requests ==> refusal == Some(NotFound))
      && (id in s.requests ==>
            var row := s.requests[id];
            && (row.host != caller ==> refusal == Some(Forbidden))
            && (row.host == caller && !Ready(row.status, row.expiresAt, s.now) ==> refusal == Some(Conflict))
            && (row.host == caller && Ready(row.status, row.expiresAt, s.now) ==>
                  && (!Opened(s.around, row.world) ==> refusal == Some(NotFound))
                  && (Opened(s.around, row.world) && !MayAsk(s.around, row.requester, row.host, row.world) ==>
                        refusal == Some(Forbidden))
                  && (Opened(s.around, row.world) && MayAsk(s.around, row.requester, row.host, row.world) ==>
                        HasRoom(s.around, row.world) || refusal == Some(Conflict))))
  {
    if id in s.requests {
      FriendsAre(s.around, s.requests[id].requester, s.requests[id].host);
      MembersAre(s.around, s.requests[id].requester, s.requests[id].world);
    }
  }

  // ----- Asking: the reads of the other endpoints -----

  /** A handler that has read what it needs goes on to its write; a refused one is gone. */
  predicate GoesOn(s: State, h: HandlerId, q: Question, step: Step)
    requires h !in s.pending
  {
    Apply(s, ReadStep(h, q)) == s.(pending := s.pending[h := step])
  }

  predicate Refused(s: State, h: HandlerId, q: Question, error: Error)
    requires h !in s.pending
  {
    Apply(s, ReadStep(h, q)) == s && Read(s, q) == Err(error)
  }

  lemma ReadsGoOn(s: State, h: HandlerId, q: Question)
    requires h !in s.pending
    ensures match Read(s, q) case Ok(step) => GoesOn(s, h, q, step) case Err(e) => Refused(s, h, q, e)
  {
  }

  /** The host may invite a friend; a friend of the host may invite one of their own, if the world
      allows that. */
  ghost predicate MayInvite(around: Surroundings, caller: UserId, host: UserId, invitee: UserId, w: WorldId)
    requires w in around.worlds
  {
    if caller == host then Befriended(around, host, invitee)
    else LetsFriendsOfFriends(around, w) && Befriended(around, host, caller) && Befriended(around, caller, invitee)
  }

  /** A create-invite goes on exactly if the world is open, the invitee is a user other than the
      caller and the host, and the caller may invite them. A friend of the host needs no approval. */
  lemma CreatesInviteExactly(s: State, h: HandlerId, caller: UserId, w: WorldId, invitee: UserId, ttl: nat)
    requires h !in s.pending
    ensures var q := AskInvite(caller, w, invitee, ttl);
      if !Opened(s.around, w) then Refused(s, h, q, NotFound)
      else
        var host := s.around.worlds[w].host;
        if invitee == caller || invitee == host then Refused(s, h, q, BadRequest)
        else if invitee !in s.around.users then Refused(s, h, q, NotFound)
        else if !MayInvite(s.around, caller, host, invitee, w) then Refused(s, h, q, Forbidden)
        else
          var status := if Befriended(s.around, host, invitee) then RequestStatus.Pending else PendingApproval;
          GoesOn(s, h, q, FreeInviteSlot(Invite(w, host, caller, invitee, status, s.now + ttl, s.now)))
  {
    ReadsGoOn(s, h, AskInvite(caller, w, invitee, ttl));
    if Opened(s.around, w) {
      var host := s.around.worlds[w].host;
      FriendsAre(s.around, host, invitee);
      FriendsAre(s.around, host, caller);
      FriendsAre(s.around, caller, invitee);
    }
  }

  /** A join request goes on exactly if the world is open, the caller is not its host and may ask,
      and the host is in a world. */
  lemma CreatesRequestExactly(s: State, h: HandlerId, caller: UserId, w: WorldId, ttl: nat)
    requires h !in s.pending
    ensures var q := AskJoin(caller, w, ttl);
      if !Opened(s.around, w) then Refused(s, h, q, NotFound)
      else
        var host := s.around.worlds[w].host;
        if caller == host then Refused(s, h, q, BadRequest)
        else if !MayAsk(s.around, caller, host, w) then Refused(s, h, q, Forbidden)
        else if !IsWith(s.around, host, {InWorld, Joinable}) then Refused(s, h, q, Conflict)
        else GoesOn(s, h, q, FreeRequestSlot(JoinRequest(w, host, caller, RequestStatus.Pending, s.now + ttl, s.now)))
  {
    ReadsGoOn(s, h, AskJoin(caller, w, ttl));
    if Opened(s.around, w) {
      FriendsAre(s.around, caller, s.around.worlds[w].host);
      MembersAre(s.around, caller, w);
    }
  }

  /** A join ticket is issued to a friend of a joinable host whose open world has room. */
  lemma IssuesTicketExactly(s: State, h: HandlerId, caller: UserId, w: WorldId)
    requires h !in s.pending
    ensures var q := AskTicket(caller, w);
      if !Opened(s.around, w) then Refused(s, h, q, NotFound)
      else
        var host := s.around.worlds[w].host;
        if caller == host then Refused(s, h, q, BadRequest)
        else if !Befriended(s.around, caller, host) then Refused(s, h, q, Forbidden)
        else if !IsWith(s.around, host, {Joinable}) || !HasRoom(s.around, w) then Refused(s, h, q, Conflict)
        else GoesOn(s, h, q, IssueTicket(caller, host, w))
  {
    ReadsGoOn(s, h, AskTicket(caller, w));
    if Opened(s.around, w) { FriendsAre(s.around, caller, s.around.worlds[w].host); }
  }

  /** Then ticket and relay row are written for the caller. */
  lemma TicketIsIssued(s: State, h: HandlerId, guest: UserId, host: UserId, w: WorldId, ticket: TicketId, relay: RelayId)
    requires h in s.pending && s.pending[h] == IssueTicket(guest, host, w) && ticket !in s.usedTickets && relay !in s.relays
    ensures Enabled(s, IssueStep(h, ticket, relay))
    ensures Apply(s, IssueStep(h, ticket, relay)) ==
      s.(tickets := s.tickets[ticket := Ticket(guest, w, relay)],
         relays := s.relays[relay := RelayRow(w, host, guest, ticket, FromJoinable)],
         usedTickets := s.usedTickets + {ticket}, pending := s.pending - {h})
  {
  }

  /** The invitee may decline a pending invite, the host approve an unlapsed one that waits for it,
      host and inviter revoke any. */
  lemma AnswersInviteExactly(s: State, h: HandlerId, caller: UserId, id: RequestId)
    requires h !in s.pending
    ensures id !in s.invites ==>
      && Refused(s, h, AskDecline(caller, id), NotFound) && Refused(s, h, AskApprove(caller, id), NotFound)
      && Refused(s, h, AskRevoke(caller, id), NotFound)
    ensures id in s.invites ==>
      var row := s.invites[id];
      && (if row.invitee != caller then Refused(s, h, AskDecline(caller, id), Forbidden)
          else if row.status != RequestStatus.Pending then Refused(s, h, AskDecline(caller, id), Conflict)
          else GoesOn(s, h, AskDecline(caller, id), DeclineInvite(id)))
      && (if row.host != caller then Refused(s, h, AskApprove(caller, id), Forbidden)
          else if row.status != PendingApproval || row.expiresAt <= s.now then Refused(s, h, AskApprove(caller, id), Conflict)
          else GoesOn(s, h, AskApprove(caller, id), ApproveInvite(id)))
      && (if caller != row.host && caller != row.inviter then Refused(s, h, AskRevoke(caller, id), Forbidden)
          else GoesOn(s, h, AskRevoke(caller, id), RevokeInvite(id)))
  {
  }

  /** The host may decline a pending join request. */
  lemma AnswersRequestExactly(s: State, h: HandlerId, caller: UserId, id: RequestId)
    requires h !in s.pending
    ensures var q := AskDeclineRequest(caller, id);
      if id !in s.requests then Refused(s, h, q, NotFound)
      else if s.requests[id].host != caller then Refused(s, h, q, Forbidden)
      else if s.requests[id].status != RequestStatus.Pending then Refused(s, h, q, Conflict)
      else GoesOn(s, h, q, DeclineRequest(id))
  {
  }

  // ----- Writing -----

  function Written(s: State, h: HandlerId): State
    requires h in s.pending
  {
    s.(pending := s.pending - {h})
  }

  /** Whatever happened since the read, the write takes effect exactly if the row is still in a
      status it may leave. */
  lemma WritesInviteExactly(s: State, h: HandlerId, id: RequestId)
    requires h in s.pending
    ensures s.pending[h] == DeclineInvite(id) ==>
      Apply(s, WriteStep(h)) ==
        if id in s.invites && s.invites[id].status == RequestStatus.Pending
        then Written(s, h).(invites := s.invites[id := s.invites[id].(status := Declined, updatedAt := s.now)])
        else Written(s, h)
    ensures s.pending[h] == ApproveInvite(id) ==>
      Apply(s, WriteStep(h)) ==
        if id in s.invites && s.invites[id].status == PendingApproval
        then Written(s, h).(invites := s.invites[id := s.invites[id].(status := RequestStatus.Pending, updatedAt := s.now)])
        else Written(s, h)
    ensures s.pending[h] == RevokeInvite(id) ==>
      Apply(s, WriteStep(h)) ==
        if id in s.invites && s.invites[id].status in {RequestStatus.Pending, PendingApproval}
        then Written(s, h).(invites := s.invites[id := s.invites[id].(status := Revoked, updatedAt := s.now)])
        else Written(s, h)
  {
  }

  lemma WritesRequestExactly(s: State, h: HandlerId, id: RequestId)
    requires h in s.pending && s.pending[h] == DeclineRequest(id)
    ensures Apply(s, WriteStep(h)) ==
      if id in s.requests && s.requests[id].status == RequestStatus.Pending
      then Written(s, h).(requests := s.requests[id := s.requests[id].(status := Declined, updatedAt := s.now)])
      else Written(s, h)
  {
  }

  predicate InviteLapsed(row: Invite, now: int) {
    row.status in {RequestStatus.Pending, PendingApproval} && row.expiresAt <= now
  }

  predicate RequestLapsed(row: JoinRequest, now: int) { row.status == RequestStatus.Pending && row.expiresAt <= now }

  /** Creating an invite first expires the lapsed ones of its world and invitee, and no others. */
  lemma FreesInviteSlotExactly(s: State, h: HandlerId, row: Invite)
    requires h in s.pending && s.pending[h] == FreeInviteSlot(row)
    ensures var s' := Apply(s, WriteStep(h));
      && s' == s.(invites := s'.invites, pending := s.pending[h := InsertInvite(row)]) && s'.invites.Keys == s.invites.Keys
      && forall id :: id in s.invites ==>
           s'.invites[id] ==
             if InviteLapsed(s.invites[id], s.now) && s.invites[id].world == row.world && s.invites[id].invitee == row.invitee
             then s.invites[id].(status := Expired, updatedAt := s.now) else s.invites[id]
  {
  }

  lemma FreesRequestSlotExactly(s: State, h: HandlerId, row: JoinRequest)
    requires h in s.pending && s.pending[h] == FreeRequestSlot(row)
    ensures var s' := Apply(s, WriteStep(h));
      && s' == s.(requests := s'.requests, pending := s.pending[h := InsertRequest(row)]) && s'.requests.Keys == s.requests.Keys
      && forall id :: id in s.requests ==>
           s'.requests[id] ==
             if RequestLapsed(s.requests[id], s.now) && s.requests[id].world == row.world && s.requests[id].requester == row.requester
             then s.requests[id].(status := Expired, updatedAt := s.now) else s.requests[id]
  {
  }

  /** Then it inserts its row, exactly if no invite for that world and invitee is active. */
  lemma InsertsInviteExactly(s: State, h: HandlerId, row: Invite, newId: RequestId)
    requires h in s.pending && s.pending[h] == InsertInvite(row) && newId !in s.usedInvites && newId !in s.usedRequests
    ensures Enabled(s, InsertStep(h, newId))
    ensures Apply(s, InsertStep(h, newId)) ==
      if exists id :: id in s.invites && s.invites[id].world == row.world && s.invites[id].invitee == row.invitee
                      && s.invites[id].status in {RequestStatus.Pending, PendingApproval}
      then Written(s, h)
      else Written(s, h).(invites := s.invites[newId := row.(updatedAt := s.now)], usedInvites := s.usedInvites + {newId})
  {
    forall id ensures ActiveInvite(s, id, row.world, row.invitee) <==>
      id in s.invites && s.invites[id].world == row.world && s.invites[id].invitee == row.invitee
      && s.invites[id].status in {RequestStatus.Pending, PendingApproval} {}
  }

  lemma InsertsRequestExactly(s: State, h: HandlerId, row: JoinRequest, newId: RequestId)
    requires h in s.pending && s.pending[h] == InsertRequest(row) && newId !in s.usedInvites && newId !in s.usedRequests
    ensures Enabled(s, InsertStep(h, newId))
    ensures Apply(s, InsertStep(h, newId)) ==
      if exists id :: id in s.requests && s.requests[id].world == row.world && s.requests[id].requester == row.requester
                      && s.requests[id].status == RequestStatus.Pending
      then Written(s, h)
      else Written(s, h).(requests := s.requests[newId := row.(updatedAt := s.now)], usedRequests := s.usedRequests + {newId})
  {
    forall id ensures PendingRequest(s, id, row.world, row.requester) <==>
      id in s.requests && s.requests[id].world == row.world && s.requests[id].requester == row.requester
      && s.requests[id].status == RequestStatus.Pending {}
  }

  // ----- The sweep -----

  /** The sweep expires exactly the lapsed rows. */
  lemma SweepExpiresExactly(s: State, id: RequestId)
    ensures var s' := Apply(s, ExpireInvitesStep);
      && s' == s.(invites := s'.invites) && (id in s'.invites <==> id in s.invites)
      && (id in s.invites ==>
            s'.invites[id] == if InviteLapsed(s.invites[id], s.now) then s.invites[id].(status := Expired, updatedAt := s.now) else s.invites[id])
    ensures var s' := Apply(s, ExpireRequestsStep);
      && s' == s.(requests := s'.requests) && (id in s'.requests <==> id in s.requests)
      && (id in s.requests ==>
            s'.requests[id] == if RequestLapsed(s.requests[id], s.now) then s.requests[id].(status := Expired, updatedAt := s.now) else s.requests[id])
  {
  }

  /** And deletes exactly the terminal ones that were last changed before the limit, and the tickets
      it names. */
  lemma SweepDeletesExactly(s: State, id: RequestId, before: int, gone: set<TicketId>)
    ensures var s' := Apply(s, DeleteInvitesStep(before));
      && s' == s.(invites := s'.invites)
      && (id in s'.invites <==>
            id in s.invites && (s.invites[id].status in {RequestStatus.Pending, PendingApproval} || before <= s.invites[id].updatedAt))
      && (id in s'.invites ==> s'.invites[id] == s.invites[id])
    ensures var s' := Apply(s, DeleteRequestsStep(before));
      && s' == s.(requests := s'.requests)
      && (id in s'.requests <==>
            id in s.requests && (s.requests[id].status in {RequestStatus.Pending, PendingApproval} || before <= s.requests[id].updatedAt))
      && (id in s'.requests ==> s'.requests[id] == s.requests[id])
    ensures Apply(s, DeleteTicketsStep(gone)) == s.(tickets := s.tickets - gone)
  {
  }

  // ----- Turns -----

  /** A handler takes the statement it is at and no other; all else may change at any time, and the
      clock only forward. */
  lemma StepsInTurn(s: State, h: HandlerId, newId: RequestId, ticket: TicketId, relay: RelayId, around: Surroundings, now: int)
    requires newId !in s.usedInvites && newId !in s.usedRequests && ticket !in s.usedTickets && relay !in s.relays
    ensures Enabled(s, WriteStep(h)) <==>
      h in s.pending && match s.pending[h]
        case InsertInvite(_) => false case InsertRequest(_) => false case IssueTicket(_, _, _) => false case _ => true
    ensures Enabled(s, InsertStep(h, newId)) <==> h in s.pending && (s.pending[h].InsertInvite? || s.pending[h].InsertRequest?)
    ensures Enabled(s, IssueStep(h, ticket, relay)) <==> h in s.pending && s.pending[h].IssueTicket?
    ensures Enabled(s, Elsewhere(around, now)) <==> s.now <= now
    ensures s.now <= now ==> Apply(s, Elsewhere(around, now)) == s.(around := around, now := now)
  {
  }
}
