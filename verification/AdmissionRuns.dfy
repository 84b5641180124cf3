/** What holds after every interleaving of the invite and join-request endpoints. */
module AdmissionRuns {
  import opened Wrappers
  import opened NetworkTables
  import opened Admissions

  /** Row ids are fresh UUIDs: no id ever names a second row. A row waiting to be inserted
      is active. */
  ghost predicate IdsOk(s: State) {
    && s.invites.Keys <= s.usedInvites && s.requests.Keys <= s.usedRequests && s.tickets.Keys <= s.usedTickets
    && forall h :: h in s.pending ==> StepOk(s.pending[h])
  }

  predicate StepOk(step: Step) {
    && (step.FreeInviteSlot? || step.InsertInvite? ==> step.invite.status.Active())
    && (step.FreeRequestSlot? || step.InsertRequest? ==> step.request.status.Pending?)
  }

  lemma TransitionKeepsRows(s: State, step: Step)
    ensures var s' := Transition(s, step);
      && s'.invites.Keys == s.invites.Keys && s'.requests.Keys == s.requests.Keys
      && s' == s.(invites := s'.invites, requests := s'.requests)
  {
  }

  lemma IdsKept(s: State, l: Label)
    requires IdsOk(s) && Enabled(s, l)
    ensures IdsOk(Apply(s, l))
    ensures s.usedInvites <= Apply(s, l).usedInvites && s.usedRequests <= Apply(s, l).usedRequests
  {
    if l.WriteStep? {
      assert StepOk(s.pending[l.h]);
      TransitionKeepsRows(s, s.pending[l.h]);
    } else if l.ReadStep? && Read(s, l.asked).Ok? {
      assert StepOk(Read(s, l.asked).value);
    }
  }

  // ----- The lifecycle of a row -----

  predicate LegalMove(a: RequestStatus, b: RequestStatus) {
    || a == b
    || (a.PendingApproval? && (b.Pending? || b.Revoked? || b.Expired?))
    || (a.Pending? && (b.Accepted? || b.Declined? || b.Revoked? || b.Expired?))
  }

  predicate SameInvite(a: Invite, b: Invite) {
    a.(status := b.status, updatedAt := b.updatedAt) == b
  }

  predicate SameRequest(a: JoinRequest, b: JoinRequest) {
    a.(status := b.status, updatedAt := b.updatedAt) == b
  }

  lemma InviteMovesByWrite(s: State, step: Step, id: RequestId)
    requires id in s.invites
    ensures var s' := Transition(s, step);
      && id in s'.invites && SameInvite(s.invites[id], s'.invites[id])
      && LegalMove(s.invites[id].status, s'.invites[id].status)
      && (s'.invites[id].status.Accepted? ==> s.invites[id].status.Accepted?)
  {
  }

  lemma RequestMovesByWrite(s: State, step: Step, id: RequestId)
    requires id in s.requests
    ensures var s' := Transition(s, step);
      && id in s'.requests && SameRequest(s.requests[id], s'.requests[id])
      && LegalMove(s.requests[id].status, s'.requests[id].status)
      && (s'.requests[id].status.Accepted? ==> s.requests[id].status.Accepted?)
  {
  }

  /** One step of anyone moves an invite only along its lifecycle, reaches `accepted` only
      through an accept, and deletes only terminal rows. */
  lemma InviteMoves(s: State, l: Label, id: RequestId)
    requires IdsOk(s) && Enabled(s, l) && id in s.invites
    ensures var s' := Apply(s, l);
      if id in s'.invites then
        && SameInvite(s.invites[id], s'.invites[id])
        && LegalMove(s.invites[id].status, s'.invites[id].status)
        && (s.invites[id].status != Accepted && s'.invites[id].status == Accepted ==>
              l.AcceptInviteStep? && l.id == id && AcceptInviteRefusal(s, l.caller, id).None?)
      else s.invites[id].status.Rank() == 0
  {
    if l.WriteStep? { InviteMovesByWrite(s, s.pending[l.h], id); }
  }

  lemma RequestMoves(s: State, l: Label, id: RequestId)
    requires IdsOk(s) && Enabled(s, l) && id in s.requests
    ensures var s' := Apply(s, l);
      if id in s'.requests then
        && SameRequest(s.requests[id], s'.requests[id])
        && LegalMove(s.requests[id].status, s'.requests[id].status)
        && (s.requests[id].status != Accepted && s'.requests[id].status == Accepted ==>
              l.AcceptRequestStep? && l.id == id && AcceptRequestRefusal(s, l.caller, id).None?)
      else s.requests[id].status.Rank() == 0
  {
    if l.WriteStep? { RequestMovesByWrite(s, s.pending[l.h], id); }
  }

  /** Once used, an id that names no row never names one again. */
  lemma GoneStaysGone(s: State, l: Label, id: RequestId)
    requires IdsOk(s) && Enabled(s, l)
    ensures id in s.usedInvites && id !in s.invites ==> id !in Apply(s, l).invites
    ensures id in s.usedRequests && id !in s.requests ==> id !in Apply(s, l).requests
  {
  }

  /** Over any run an invite only ever descends: a changed status has a smaller rank, a
      terminal one never changes, and a row that goes was terminal or may have become so. */
  lemma {:induction false} InviteLifecycle(s: State, run: seq<Label>, id: RequestId)
    requires IdsOk(s) && Exec(s, run).Some? && id in s.invites
    ensures var s' := Exec(s, run).value;
      id in s'.invites ==>
        && SameInvite(s.invites[id], s'.invites[id])
        && (s'.invites[id].status == s.invites[id].status
            || s'.invites[id].status.Rank() < s.invites[id].status.Rank())
    decreases |run|
  {
    if run != [] {
      var s1 := Apply(s, run[0]);
      IdsKept(s, run[0]);
      InviteMoves(s, run[0], id);
      if id in s1.invites {
        InviteLifecycle(s1, run[1..], id);
      } else {
        InviteGone(s1, run[1..], id);
      }
    }
  }

  lemma {:induction false} InviteGone(s: State, run: seq<Label>, id: RequestId)
    requires IdsOk(s) && Exec(s, run).Some? && id in s.usedInvites && id !in s.invites
    ensures id !in Exec(s, run).value.invites
    decreases |run|
  {
    if run != [] {
      IdsKept(s, run[0]);
      GoneStaysGone(s, run[0], id);
      InviteGone(Apply(s, run[0]), run[1..], id);
    }
  }

  lemma {:induction false} RequestLifecycle(s: State, run: seq<Label>, id: RequestId)
    requires IdsOk(s) && Exec(s, run).Some? && id in s.requests
    ensures var s' := Exec(s, run).value;
      id in s'.requests ==>
        && SameRequest(s.requests[id], s'.requests[id])
        && (s'.requests[id].status == s.requests[id].status
            || s'.requests[id].status.Rank() < s.requests[id].status.Rank())
    decreases |run|
  {
    if run != [] {
      var s1 := Apply(s, run[0]);
      IdsKept(s, run[0]);
      RequestMoves(s, run[0], id);
      if id in s1.requests {
        RequestLifecycle(s1, run[1..], id);
      } else {
        RequestGone(s1, run[1..], id);
      }
    }
  }

  lemma {:induction false} RequestGone(s: State, run: seq<Label>, id: RequestId)
    requires IdsOk(s) && Exec(s, run).Some? && id in s.usedRequests && id !in s.requests
    ensures id !in Exec(s, run).value.requests
    decreases |run|
  {
    if run != [] {
      IdsKept(s, run[0]);
      GoneStaysGone(s, run[0], id);
      RequestGone(Apply(s, run[0]), run[1..], id);
    }
  }

  // ----- Exactly-once admission -----

  ghost predicate Minted(s: State, o: Origin, r: RelayId) {
    r in s.relays && s.relays[r].origin == o
  }

  predicate Used(s: State, o: Origin) {
    (o.FromInvite? ==> o.id in s.usedInvites) && (o.FromRequest? ==> o.id in s.usedRequests)
  }

  predicate Live(s: State, o: Origin) {
    (o.FromInvite? && o.id in s.invites) || (o.FromRequest? && o.id in s.requests)
  }

  predicate HasAccepted(s: State, o: Origin)
    requires Live(s, o)
  {
    if o.FromInvite? then s.invites[o.id].status.Accepted? else s.requests[o.id].status.Accepted?
  }

  /** A row has minted a relay row just when it is accepted, and then only one. */
  ghost predicate MintsOk(s: State) {
    && (forall o, r :: Minted(s, o, r) ==> Used(s, o) && (Live(s, o) ==> HasAccepted(s, o)))
    && (forall o, q, r :: Minted(s, o, q) && Minted(s, o, r) && o != FromJoinable ==> q == r)
    && (forall o :: Live(s, o) && HasAccepted(s, o) ==> exists r :: Minted(s, o, r))
  }

  /** Every live ticket is the ticket of the one relay row it was issued with. */
  ghost predicate TicketsOk(s: State) {
    && (forall t :: t in s.tickets ==> s.tickets[t].relay in s.relays && s.relays[s.tickets[t].relay].ticket == t)
    && (forall r :: r in s.relays ==> s.relays[r].ticket in s.usedTickets)
    && (forall q, r :: q in s.relays && r in s.relays && s.relays[q].ticket == s.relays[r].ticket ==> q == r)
  }

  ghost predicate Inv(s: State) { IdsOk(s) && MintsOk(s) && TicketsOk(s) }

  lemma IssueKeepsTickets(
    s: State, guest: UserId, host: UserId, w: WorldId, ticket: TicketId, relay: RelayId, origin: Origin)
    requires s.tickets.Keys <= s.usedTickets && TicketsOk(s) && FreshIds(s, ticket, relay)
    ensures TicketsOk(Issue(s, guest, host, w, ticket, relay, origin))
  {
  }

  lemma TicketsKept(s: State, l: Label)
    requires IdsOk(s) && TicketsOk(s) && Enabled(s, l)
    ensures TicketsOk(Apply(s, l))
  {
    var s' := Apply(s, l);
    match l
    case AcceptInviteStep(caller, id, t, r) =>
      if AcceptInviteRefusal(s, caller, id).None? {
        var row := s.invites[id];
        IssueKeepsTickets(SetInvite(s, id, Accepted), row.invitee, row.host, row.world, t, r, FromInvite(id));
      }
    case AcceptRequestStep(caller, id, t, r) =>
      if AcceptRequestRefusal(s, caller, id).None? {
        var row := s.requests[id];
        IssueKeepsTickets(SetRequest(s, id, Accepted), row.requester, row.host, row.world, t, r, FromRequest(id));
      }
    case IssueStep(h, t, r) =>
      var p := s.pending[h];
      IssueKeepsTickets(s, p.guest, p.host, p.world, t, r, FromJoinable);
    case WriteStep(h) => TransitionKeepsRows(s, s.pending[h]);
    case DeleteTicketsStep(_) =>
    case _ => assert (s'.tickets, s'.relays, s'.usedTickets) == (s.tickets, s.relays, s.usedTickets);
  }

  /** The relay rows a step adds: one from an accept that is not refused or from a joinable
      host's ticket, none otherwise. */
  lemma StepMints(s: State, l: Label, o: Origin, r: RelayId)
    requires IdsOk(s) && Enabled(s, l)
    ensures Minted(s, o, r) ==> Minted(Apply(s, l), o, r)
    ensures Minted(Apply(s, l), o, r) && !Minted(s, o, r) ==>
      || (l.AcceptInviteStep? && AcceptInviteRefusal(s, l.caller, l.id).None? && o == FromInvite(l.id) && r == l.relay)
      || (l.AcceptRequestStep? && AcceptRequestRefusal(s, l.caller, l.id).None? && o == FromRequest(l.id) && r == l.relay)
      || (l.IssueStep? && o == FromJoinable && r == l.relay)
  {
  }

  /** A row becomes accepted only by an accept that is not refused. */
  lemma LiveMoves(s: State, l: Label, o: Origin)
    requires IdsOk(s) && Enabled(s, l)
    ensures Used(s, o) ==> Used(Apply(s, l), o) && (Live(Apply(s, l), o) ==> Live(s, o))
    ensures Live(s, o) && Live(Apply(s, l), o) && HasAccepted(s, o) ==> HasAccepted(Apply(s, l), o)
    ensures Live(Apply(s, l), o) && HasAccepted(Apply(s, l), o) && !(Live(s, o) && HasAccepted(s, o)) ==>
      || (l.AcceptInviteStep? && o == FromInvite(l.id) && AcceptInviteRefusal(s, l.caller, l.id).None?)
      || (l.AcceptRequestStep? && o == FromRequest(l.id) && AcceptRequestRefusal(s, l.caller, l.id).None?)
  {
    IdsKept(s, l);
    if Live(s, o) {
      if o.FromInvite? { InviteMoves(s, l, o.id); } else { RequestMoves(s, l, o.id); }
    } else if Live(Apply(s, l), o) {
      NewRowIsActive(s, l, o);
    }
    if o != FromJoinable { GoneStaysGone(s, l, o.id); }
  }

  lemma NewRowIsActive(s: State, l: Label, o: Origin)
    requires IdsOk(s) && Enabled(s, l) && !Live(s, o) && Live(Apply(s, l), o)
    ensures !HasAccepted(Apply(s, l), o) && l.InsertStep?
  {
    if l.InsertStep? { assert StepOk(s.pending[l.h]); }
  }

  lemma InvKept(s: State, l: Label)
    requires Inv(s) && Enabled(s, l)
    ensures Inv(Apply(s, l))
  {
    var s' := Apply(s, l);
    IdsKept(s, l);
    TicketsKept(s, l);
    forall o, r | Minted(s', o, r) ensures Used(s', o) && (Live(s', o) ==> HasAccepted(s', o)) {
      StepMints(s, l, o, r);
      LiveMoves(s, l, o);
    }
    forall o, q, r | Minted(s', o, q) && Minted(s', o, r) && o != FromJoinable ensures q == r {
      StepMints(s, l, o, q);
      StepMints(s, l, o, r);
    }
    forall o | Live(s', o) && HasAccepted(s', o) ensures exists r :: Minted(s', o, r) {
      LiveMoves(s, l, o);
      if Live(s, o) && HasAccepted(s, o) {
        var r :| Minted(s, o, r);
        StepMints(s, l, o, r);
      } else if l.AcceptInviteStep? || l.AcceptRequestStep? {
        assert Minted(s', o, l.relay);
      }
    }
  }

  lemma {:induction false} Invariant(s: State, run: seq<Label>)
    requires Inv(s) && SlotsOk(s) && Exec(s, run).Some?
    ensures Inv(Exec(s, run).value) && SlotsOk(Exec(s, run).value)
    decreases |run|
  {
    if run != [] {
      InvKept(s, run[0]);
      SlotsKept(s, run[0]);
      Invariant(Apply(s, run[0]), run[1..]);
    }
  }

  ghost predicate TicketFrom(s: State, o: Origin, t: TicketId) {
    t in s.tickets && Minted(s, o, s.tickets[t].relay)
  }

  /** After any run each invite or join request has minted at most one relay row and at most
      one live ticket, and, while its row is there, has minted exactly if it is accepted. */
  lemma ExactlyOnceAdmission(now: int, around: Surroundings, run: seq<Label>, o: Origin)
    requires Exec(Initial(now, around), run).Some? && o != FromJoinable
    ensures var s := Exec(Initial(now, around), run).value;
      && (forall q, r :: Minted(s, o, q) && Minted(s, o, r) ==> q == r)
      && (forall t, u :: TicketFrom(s, o, t) && TicketFrom(s, o, u) ==> t == u)
      && (Live(s, o) ==> ((exists r :: Minted(s, o, r)) <==> HasAccepted(s, o)))
  {
    Invariant(Initial(now, around), run);
  }

  /** A step mints for an invite or a join request exactly when it takes that row to
      `accepted`: among any number of concurrent accepts, one. */
  lemma MintsExactlyWhenAccepted(s: State, l: Label, o: Origin)
    requires Inv(s) && Enabled(s, l) && o != FromJoinable
    ensures var s' := Apply(s, l);
      (exists r :: Minted(s', o, r) && !Minted(s, o, r))
      <==> Live(s, o) && !HasAccepted(s, o) && Live(s', o) && HasAccepted(s', o)
  {
    var s' := Apply(s, l);
    LiveMoves(s, l, o);
    if r :| Minted(s', o, r) && !Minted(s, o, r) {
      StepMints(s, l, o, r);
    }
    if Live(s, o) && !HasAccepted(s, o) && Live(s', o) && HasAccepted(s', o) {
      assert Minted(s', o, l.relay) && !Minted(s, o, l.relay);
    }
  }

  /** What held at the commit that admitted a guest. */
  predicate RouteStands(s: State, host: UserId, guest: UserId, w: WorldId, inviter: UserId) {
    && IsOpen(s.around, w) && !IsFull(s.around, w)
    && (inviter == host
        || (s.around.worlds[w].policy == FriendsOfFriends
            && AreFriends(s.around, host, inviter) && AreFriends(s.around, inviter, guest)))
  }

  /** When a step mints for an invite, the invite was pending and unlapsed, the world open
      and not full, and an invite by another than the host still passed the policy and both
      friendships, whatever happened between creation and this commit. */
  lemma InviteAdmissionGates(s: State, l: Label, id: RequestId, r: RelayId)
    requires Inv(s) && Enabled(s, l) && Minted(Apply(s, l), FromInvite(id), r) && !Minted(s, FromInvite(id), r)
    ensures id in s.invites
    ensures var row := s.invites[id];
      && row.status.Pending? && s.now < row.expiresAt && l.caller == row.invitee
      && RouteStands(s, row.host, row.invitee, row.world, row.inviter)
      && Apply(s, l).relays[r] == RelayRow(row.world, row.host, row.invitee, l.ticket, FromInvite(id))
  {
    StepMints(s, l, FromInvite(id), r);
  }

  lemma RequestAdmissionGates(s: State, l: Label, id: RequestId, r: RelayId)
    requires Inv(s) && Enabled(s, l) && Minted(Apply(s, l), FromRequest(id), r) && !Minted(s, FromRequest(id), r)
    ensures id in s.requests
    ensures var row := s.requests[id];
      && row.status.Pending? && s.now < row.expiresAt && l.caller == row.host
      && IsOpen(s.around, row.world) && !IsFull(s.around, row.world)
      && (AreFriends(s.around, row.requester, row.host)
          || (s.around.worlds[row.world].policy == FriendsOfFriends && FriendOfMember(s.around, row.requester, row.world)))
      && Apply(s, l).relays[r] == RelayRow(row.world, row.host, row.requester, l.ticket, FromRequest(id))
  {
    StepMints(s, l, FromRequest(id), r);
  }

  // ----- One active row per slot -----

  ghost predicate SlotsOk(s: State) {
    && (forall i, j, w, u :: ActiveInvite(s, i, w, u) && ActiveInvite(s, j, w, u) ==> i == j)
    && (forall i, j, w, u :: PendingRequest(s, i, w, u) && PendingRequest(s, j, w, u) ==> i == j)
  }

  /** An invite active after a step was active before it, or was just put in a free slot. */
  lemma ActiveBefore(s: State, l: Label, i: RequestId, w: WorldId, u: UserId)
    requires IdsOk(s) && Enabled(s, l)
    ensures ActiveInvite(Apply(s, l), i, w, u) ==>
      ActiveInvite(s, i, w, u) || (l.InsertStep? && i == l.newId && !InviteSlotTaken(s, w, u))
    ensures PendingRequest(Apply(s, l), i, w, u) ==>
      PendingRequest(s, i, w, u) || (l.InsertStep? && i == l.newId && !RequestSlotTaken(s, w, u))
  {
    if i in s.invites { InviteMoves(s, l, i); }
    if i in s.requests { RequestMoves(s, l, i); }
    NewRowSlot(s, l, i, w, u);
  }

  lemma NewRowSlot(s: State, l: Label, i: RequestId, w: WorldId, u: UserId)
    requires IdsOk(s) && Enabled(s, l)
    ensures i !in s.invites && ActiveInvite(Apply(s, l), i, w, u) ==>
      l.InsertStep? && i == l.newId && !InviteSlotTaken(s, w, u)
    ensures i !in s.requests && PendingRequest(Apply(s, l), i, w, u) ==>
      l.InsertStep? && i == l.newId && !RequestSlotTaken(s, w, u)
  {
    if l.WriteStep? { TransitionKeepsRows(s, s.pending[l.h]); }
  }

  lemma SlotsKept(s: State, l: Label)
    requires IdsOk(s) && SlotsOk(s) && Enabled(s, l)
    ensures SlotsOk(Apply(s, l))
  {
    var s' := Apply(s, l);
    forall i, j, w, u | ActiveInvite(s', i, w, u) && ActiveInvite(s', j, w, u) ensures i == j {
      ActiveBefore(s, l, i, w, u);
      ActiveBefore(s, l, j, w, u);
    }
    forall i, j, w, u | PendingRequest(s', i, w, u) && PendingRequest(s', j, w, u) ensures i == j {
      ActiveBefore(s, l, i, w, u);
      ActiveBefore(s, l, j, w, u);
    }
  }

  /** After any run at most one invite is active per (world, invitee), and at most one join
      request is pending per (world, requester). */
  lemma OneActiveRowPerSlot(now: int, around: Surroundings, run: seq<Label>, i: RequestId, j: RequestId, w: WorldId, u: UserId)
    requires Exec(Initial(now, around), run).Some?
    ensures var s := Exec(Initial(now, around), run).value;
      && (ActiveInvite(s, i, w, u) && ActiveInvite(s, j, w, u) ==> i == j)
      && (PendingRequest(s, i, w, u) && PendingRequest(s, j, w, u) ==> i == j)
  {
    Invariant(Initial(now, around), run);
  }

  lemma ExecTwo(s: State, a: Label, b: Label)
    requires Enabled(s, a) && Enabled(Apply(s, a), b)
    ensures Exec(s, [a, b]) == Some(Apply(Apply(s, a), b))
  {
    assert [a, b][1..] == [b] && [b][1..] == [];
    assert Exec(Apply(s, a), [b]) == Some(Apply(Apply(s, a), b));
  }

  /** A create that frees its slot and inserts on one clock reading conflicts exactly when
      the slot held an active row that had not lapsed. */
  lemma InviteConflictsExactlyWhenUnlapsed(s: State, h: HandlerId, newId: RequestId)
    requires IdsOk(s) && h in s.pending && s.pending[h].FreeInviteSlot?
    requires newId !in s.usedInvites && newId !in s.usedRequests
    ensures var row := s.pending[h].invite;
      && Exec(s, [WriteStep(h), InsertStep(h, newId)]).Some?
      && var s' := Exec(s, [WriteStep(h), InsertStep(h, newId)]).value;
         (newId !in s'.invites
          <==> exists id :: ActiveInvite(s, id, row.world, row.invitee) && s.now < s.invites[id].expiresAt)
  {
    var row := s.pending[h].invite;
    var s1 := Apply(s, WriteStep(h));
    assert s1.pending[h] == InsertInvite(row) && s1.usedInvites == s.usedInvites;
    ExecTwo(s, WriteStep(h), InsertStep(h, newId));
    forall id ensures ActiveInvite(s1, id, row.world, row.invitee)
      <==> ActiveInvite(s, id, row.world, row.invitee) && s.now < s.invites[id].expiresAt {}
  }

  lemma RequestConflictsExactlyWhenUnlapsed(s: State, h: HandlerId, newId: RequestId)
    requires IdsOk(s) && h in s.pending && s.pending[h].FreeRequestSlot?
    requires newId !in s.usedInvites && newId !in s.usedRequests
    ensures var row := s.pending[h].request;
      && Exec(s, [WriteStep(h), InsertStep(h, newId)]).Some?
      && var s' := Exec(s, [WriteStep(h), InsertStep(h, newId)]).value;
         (newId !in s'.requests
          <==> exists id :: PendingRequest(s, id, row.world, row.requester) && s.now < s.requests[id].expiresAt)
  {
    var row := s.pending[h].request;
    var s1 := Apply(s, WriteStep(h));
    assert s1.pending[h] == InsertRequest(row) && s1.usedRequests == s.usedRequests;
    ExecTwo(s, WriteStep(h), InsertStep(h, newId));
    forall id ensures PendingRequest(s1, id, row.world, row.requester)
      <==> PendingRequest(s, id, row.world, row.requester) && s.now < s.requests[id].expiresAt {}
  }
}
