/** Invites, join requests and the tickets they mint, as handlers change them: `accept` is
    one transaction, every other endpoint reads, then writes under a status predicate, and
    the hourly cleanup runs statement by statement between them. */
module Admissions {
  import opened Wrappers
  import opened NetworkTables

  type RequestId = int
  type HandlerId = int

  datatype RequestStatus = Pending | PendingApproval | Accepted | Declined | Revoked | Expired
  {
    predicate Active() { Pending? || PendingApproval? }

    function Rank(): nat { if PendingApproval? then 2 else if Pending? then 1 else 0 }
  }

  datatype PresenceStatus = Offline | Online | InWorld | Joinable

  datatype Invite = Invite(
    world: WorldId, host: UserId, inviter: UserId, invitee: UserId,
    status: RequestStatus, expiresAt: int, updatedAt: int)

  datatype JoinRequest = JoinRequest(
    world: WorldId, host: UserId, requester: UserId,
    status: RequestStatus, expiresAt: int, updatedAt: int)

  /** What authorised a ticket. Not a column: it names the row whose transition committed
      together with the ticket. */
  datatype Origin = FromInvite(id: RequestId) | FromRequest(id: RequestId) | FromJoinable

  datatype Ticket = Ticket(user: UserId, world: WorldId, relay: RelayId)

  datatype RelayRow = RelayRow(world: WorldId, host: UserId, guest: UserId, ticket: TicketId, origin: Origin)

  /** A handler between its reads and its guarded write. */
  datatype Step =
    | DeclineInvite(id: RequestId)
    | ApproveInvite(id: RequestId)
    | RevokeInvite(id: RequestId)
    | DeclineRequest(id: RequestId)
    | FreeInviteSlot(invite: Invite)
    | InsertInvite(invite: Invite)
    | FreeRequestSlot(request: JoinRequest)
    | InsertRequest(request: JoinRequest)
    | IssueTicket(guest: UserId, host: UserId, world: WorldId)

  /** Users, worlds, friendships, live members and presence belong to other endpoints; any step of
      theirs may change them. */
  datatype Surroundings = Surroundings(
    users: set<UserId>, worlds: map<WorldId, World>, friendships: set<(UserId, UserId)>,
    members: map<WorldId, set<UserId>>, presence: map<UserId, PresenceStatus>)

  datatype State = State(
    now: int, around: Surroundings,
    invites: map<RequestId, Invite>, requests: map<RequestId, JoinRequest>,
    tickets: map<TicketId, Ticket>, relays: map<RelayId, RelayRow>,
    usedInvites: set<RequestId>, usedRequests: set<RequestId>, usedTickets: set<TicketId>,
    pending: map<HandlerId, Step>)

  datatype Error = NotFound | Forbidden | Conflict | BadRequest

  // ----- Reads -----

  /** `friendships` holds each pair once, least id first. */
  predicate AreFriends(around: Surroundings, a: UserId, b: UserId) {
    (if a <= b then (a, b) else (b, a)) in around.friendships
  }

  predicate FriendOfMember(around: Surroundings, requester: UserId, w: WorldId) {
    w in around.members && exists g :: g in around.members[w] && AreFriends(around, g, requester)
  }

  predicate IsOpen(around: Surroundings, w: WorldId) {
    w in around.worlds && around.worlds[w].status.Open?
  }

  predicate IsFull(around: Surroundings, w: WorldId)
    requires IsOpen(around, w)
  {
    around.worlds[w].currentPlayers >= around.worlds[w].maxPlayers
  }

  function Presence(around: Surroundings, user: UserId): PresenceStatus {
    if user in around.presence then around.presence[user] else Offline
  }

  // ----- invites.rs: accept -----

  /** The refusals of `accept`, in the order the transaction tests them. */
  function AcceptInviteRefusal(s: State, caller: UserId, id: RequestId): Option<Error> {
    if id !in s.invites then Some(NotFound)
    else
      var row := s.invites[id];
      if row.invitee != caller then Some(Forbidden)
      else if row.status != RequestStatus.Pending then Some(Conflict)
      else if row.expiresAt <= s.now then Some(Conflict)
      else if !IsOpen(s.around, row.world) then Some(NotFound)
      else if row.inviter != row.host
              && (s.around.worlds[row.world].policy != FriendsOfFriends
                  || !AreFriends(s.around, row.host, row.inviter)
                  || !AreFriends(s.around, row.inviter, row.invitee)) then Some(Forbidden)
      else if IsFull(s.around, row.world) then Some(Conflict)
      else None
  }

  // ----- join.rs: accept -----

  function AcceptRequestRefusal(s: State, caller: UserId, id: RequestId): Option<Error> {
    if id !in s.requests then Some(NotFound)
    else
      var row := s.requests[id];
      if row.host != caller then Some(Forbidden)
      else if row.status != RequestStatus.Pending then Some(Conflict)
      else if row.expiresAt <= s.now then Some(Conflict)
      else if !IsOpen(s.around, row.world) then Some(NotFound)
      else if !AreFriends(s.around, row.requester, row.host)
              && (s.around.worlds[row.world].policy != FriendsOfFriends
                  || !FriendOfMember(s.around, row.requester, row.world)) then Some(Forbidden)
      else if IsFull(s.around, row.world) then Some(Conflict)
      else None
  }

  predicate FreshIds(s: State, ticket: TicketId, relay: RelayId) {
    ticket !in s.usedTickets && relay !in s.relays
  }

  /** `issue_ticket_and_relay_tx`. */
  function Issue(
    s: State, guest: UserId, host: UserId, w: WorldId, ticket: TicketId, relay: RelayId, origin: Origin): State {
    s.(tickets := s.tickets[ticket := Ticket(guest, w, relay)],
       relays := s.relays[relay := RelayRow(w, host, guest, ticket, origin)],
       usedTickets := s.usedTickets + {ticket})
  }

  function SetInvite(s: State, id: RequestId, status: RequestStatus): State
    requires id in s.invites
  {
    s.(invites := s.invites[id := s.invites[id].(status := status, updatedAt := s.now)])
  }

  function SetRequest(s: State, id: RequestId, status: RequestStatus): State
    requires id in s.requests
  {
    s.(requests := s.requests[id := s.requests[id].(status := status, updatedAt := s.now)])
  }

  function AcceptInvite(s: State, caller: UserId, id: RequestId, ticket: TicketId, relay: RelayId): State {
    if AcceptInviteRefusal(s, caller, id).Some? then s
    else
      var row := s.invites[id];
      Issue(SetInvite(s, id, Accepted), row.invitee, row.host, row.world, ticket, relay, FromInvite(id))
  }

  function AcceptRequest(s: State, caller: UserId, id: RequestId, ticket: TicketId, relay: RelayId): State {
    if AcceptRequestRefusal(s, caller, id).Some? then s
    else
      var row := s.requests[id];
      Issue(SetRequest(s, id, Accepted), row.requester, row.host, row.world, ticket, relay, FromRequest(id))
  }

  // ----- The reads of the two-statement endpoints -----

  /** What the host, or a friend under the open policy, may invite as. */
  function InviteStatus(s: State, caller: UserId, w: WorldId, invitee: UserId): Result<RequestStatus, Error> {
    if !IsOpen(s.around, w) then Err(NotFound)
    else
      var host := s.around.worlds[w].host;
      if invitee == caller || invitee == host then Err(BadRequest)
      else if invitee !in s.around.users then Err(NotFound)
      else if caller == host then
        if AreFriends(s.around, host, invitee) then Ok(RequestStatus.Pending) else Err(Forbidden)
      else if s.around.worlds[w].policy != FriendsOfFriends then Err(Forbidden)
      else if !AreFriends(s.around, host, caller) || !AreFriends(s.around, caller, invitee) then Err(Forbidden)
      else if AreFriends(s.around, host, invitee) then Ok(RequestStatus.Pending)
      else Ok(PendingApproval)
  }

  function ReadCreateInvite(s: State, caller: UserId, w: WorldId, invitee: UserId, ttl: nat): Result<Step, Error> {
    match InviteStatus(s, caller, w, invitee)
    case Err(e) => Err(e)
    case Ok(status) =>
      Ok(FreeInviteSlot(
           Invite(w, s.around.worlds[w].host, caller, invitee, status, s.now + ttl, s.now)))
  }

  function ReadCreateRequest(s: State, caller: UserId, w: WorldId, ttl: nat): Result<Step, Error> {
    if !IsOpen(s.around, w) then Err(NotFound)
    else
      var host := s.around.worlds[w].host;
      if host == caller then Err(BadRequest)
      else if !AreFriends(s.around, caller, host)
              && (s.around.worlds[w].policy != FriendsOfFriends || !FriendOfMember(s.around, caller, w)) then Err(Forbidden)
      else if !(Presence(s.around, host).InWorld? || Presence(s.around, host).Joinable?) then Err(Conflict)
      else Ok(FreeRequestSlot(JoinRequest(w, host, caller, RequestStatus.Pending, s.now + ttl, s.now)))
  }

  function ReadJoinTicket(s: State, caller: UserId, w: WorldId): Result<Step, Error> {
    if !IsOpen(s.around, w) then Err(NotFound)
    else
      var host := s.around.worlds[w].host;
      if host == caller then Err(BadRequest)
      else if !AreFriends(s.around, caller, host) then Err(Forbidden)
      else if Presence(s.around, host) != Joinable then Err(Conflict)
      else if IsFull(s.around, w) then Err(Conflict)
      else Ok(IssueTicket(caller, host, w))
  }

  function ReadDeclineInvite(s: State, caller: UserId, id: RequestId): Result<Step, Error> {
    if id !in s.invites then Err(NotFound)
    else if s.invites[id].invitee != caller then Err(Forbidden)
    else if s.invites[id].status != RequestStatus.Pending then Err(Conflict)
    else Ok(DeclineInvite(id))
  }

  function ReadApproveInvite(s: State, caller: UserId, id: RequestId): Result<Step, Error> {
    if id !in s.invites then Err(NotFound)
    else if s.invites[id].host != caller then Err(Forbidden)
    else if s.invites[id].status != PendingApproval then Err(Conflict)
    else if s.invites[id].expiresAt <= s.now then Err(Conflict)
    else Ok(ApproveInvite(id))
  }

  function ReadRevokeInvite(s: State, caller: UserId, id: RequestId): Result<Step, Error> {
    if id !in s.invites then Err(NotFound)
    else if s.invites[id].host != caller && s.invites[id].inviter != caller then Err(Forbidden)
    else Ok(RevokeInvite(id))
  }

  function ReadDeclineRequest(s: State, caller: UserId, id: RequestId): Result<Step, Error> {
    if id !in s.requests then Err(NotFound)
    else if s.requests[id].host != caller then Err(Forbidden)
    else if s.requests[id].status != RequestStatus.Pending then Err(Conflict)
    else Ok(DeclineRequest(id))
  }

  // ----- The guarded writes -----

  predicate ActiveInvite(s: State, id: RequestId, w: WorldId, invitee: UserId) {
    id in s.invites && s.invites[id].status.Active()
    && s.invites[id].world == w && s.invites[id].invitee == invitee
  }

  predicate PendingRequest(s: State, id: RequestId, w: WorldId, requester: UserId) {
    id in s.requests && s.requests[id].status.Pending?
    && s.requests[id].world == w && s.requests[id].requester == requester
  }

  /** The partial unique index `world_invites_active_unique`. */
  predicate InviteSlotTaken(s: State, w: WorldId, invitee: UserId) {
    exists id :: id in s.invites && ActiveInvite(s, id, w, invitee)
  }

  /** The partial unique index `join_requests_pending_unique`. */
  predicate RequestSlotTaken(s: State, w: WorldId, requester: UserId) {
    exists id :: id in s.requests && PendingRequest(s, id, w, requester)
  }

  /** Expire the lapsed invites the predicate selects: one UPDATE statement. */
  function ExpireInvitesOf(s: State, only: Option<(WorldId, UserId)>): State {
    s.(invites := map id | id in s.invites ::
      var row := s.invites[id];
      if row.status.Active() && row.expiresAt <= s.now && (only.Some? ==> only.value == (row.world, row.invitee))
      then row.(status := Expired, updatedAt := s.now) else row)
  }

  function ExpireRequestsOf(s: State, only: Option<(WorldId, UserId)>): State {
    s.(requests := map id | id in s.requests ::
      var row := s.requests[id];
      if row.status.Pending? && row.expiresAt <= s.now && (only.Some? ==> only.value == (row.world, row.requester))
      then row.(status := Expired, updatedAt := s.now) else row)
  }

  /** A transition under its status predicate; otherwise no row is affected. */
  function Transition(s: State, step: Step): State {
    match step
    case DeclineInvite(id) =>
      if id in s.invites && s.invites[id].status.Pending? then SetInvite(s, id, Declined) else s
    case ApproveInvite(id) =>
      if id in s.invites && s.invites[id].status.PendingApproval? then SetInvite(s, id, RequestStatus.Pending) else s
    case RevokeInvite(id) =>
      if id in s.invites && s.invites[id].status.Active() then SetInvite(s, id, Revoked) else s
    case DeclineRequest(id) =>
      if id in s.requests && s.requests[id].status.Pending? then SetRequest(s, id, Declined) else s
    case FreeInviteSlot(row) => ExpireInvitesOf(s, Some((row.world, row.invitee)))
    case FreeRequestSlot(row) => ExpireRequestsOf(s, Some((row.world, row.requester)))
    case _ => s
  }

  function PutInvite(s: State, row: Invite, id: RequestId): State {
    if InviteSlotTaken(s, row.world, row.invitee) then s
    else s.(invites := s.invites[id := row.(updatedAt := s.now)], usedInvites := s.usedInvites + {id})
  }

  function PutRequest(s: State, row: JoinRequest, id: RequestId): State {
    if RequestSlotTaken(s, row.world, row.requester) then s
    else s.(requests := s.requests[id := row.(updatedAt := s.now)], usedRequests := s.usedRequests + {id})
  }

  /** The step a handler takes next: the expiry of a lapsed slot is followed by the insert. */
  function AfterWrite(s: State, h: HandlerId): map<HandlerId, Step>
    requires h in s.pending
  {
    match s.pending[h]
    case FreeInviteSlot(row) => s.pending[h := InsertInvite(row)]
    case FreeRequestSlot(row) => s.pending[h := InsertRequest(row)]
    case _ => s.pending - {h}
  }

  // ----- cleanup.rs -----

  function DeleteTickets(s: State, gone: set<TicketId>): State {
    s.(tickets := s.tickets - gone)
  }

  function DeleteInvites(s: State, before: int): State {
    s.(invites := map id | id in s.invites
         && !(!s.invites[id].status.Active() && s.invites[id].updatedAt < before) :: s.invites[id])
  }

  function DeleteRequests(s: State, before: int): State {
    s.(requests := map id | id in s.requests
         && !(!s.requests[id].status.Active() && s.requests[id].updatedAt < before) :: s.requests[id])
  }

  // ----- Steps -----

  datatype Label =
    | Elsewhere(around: Surroundings, now: int)
    | AcceptInviteStep(caller: UserId, id: RequestId, ticket: TicketId, relay: RelayId)
    | AcceptRequestStep(caller: UserId, id: RequestId, ticket: TicketId, relay: RelayId)
    | ReadStep(h: HandlerId, asked: Question)
    | WriteStep(h: HandlerId)
    | InsertStep(h: HandlerId, newId: RequestId)
    | IssueStep(h: HandlerId, ticket: TicketId, relay: RelayId)
    | ExpireInvitesStep
    | ExpireRequestsStep
    | DeleteTicketsStep(gone: set<TicketId>)
    | DeleteInvitesStep(before: int)
    | DeleteRequestsStep(before: int)

  /** What a handler was asked to do. */
  datatype Question =
    | AskInvite(caller: UserId, world: WorldId, invitee: UserId, ttl: nat)
    | AskJoin(caller: UserId, world: WorldId, ttl: nat)
    | AskTicket(caller: UserId, world: WorldId)
    | AskDecline(caller: UserId, id: RequestId)
    | AskApprove(caller: UserId, id: RequestId)
    | AskRevoke(caller: UserId, id: RequestId)
    | AskDeclineRequest(caller: UserId, id: RequestId)

  function Read(s: State, q: Question): Result<Step, Error> {
    match q
    case AskInvite(caller, w, invitee, ttl) => ReadCreateInvite(s, caller, w, invitee, ttl)
    case AskJoin(caller, w, ttl) => ReadCreateRequest(s, caller, w, ttl)
    case AskTicket(caller, w) => ReadJoinTicket(s, caller, w)
    case AskDecline(caller, id) => ReadDeclineInvite(s, caller, id)
    case AskApprove(caller, id) => ReadApproveInvite(s, caller, id)
    case AskRevoke(caller, id) => ReadRevokeInvite(s, caller, id)
    case AskDeclineRequest(caller, id) => ReadDeclineRequest(s, caller, id)
  }

  predicate IsInsert(step: Step) { step.InsertInvite? || step.InsertRequest? }

  predicate Enabled(s: State, l: Label) {
    match l
    case Elsewhere(_, now) => s.now <= now
    case AcceptInviteStep(_, _, t, r) => FreshIds(s, t, r)
    case AcceptRequestStep(_, _, t, r) => FreshIds(s, t, r)
    case ReadStep(h, _) => h !in s.pending
    case WriteStep(h) => h in s.pending && !IsInsert(s.pending[h]) && !s.pending[h].IssueTicket?
    case InsertStep(h, id) =>
      h in s.pending && IsInsert(s.pending[h]) && id !in s.usedInvites && id !in s.usedRequests
    case IssueStep(h, t, r) => h in s.pending && s.pending[h].IssueTicket? && FreshIds(s, t, r)
    case _ => true
  }

  function Apply(s: State, l: Label): State
    requires Enabled(s, l)
  {
    match l
    case Elsewhere(around, now) => s.(around := around, now := now)
    case AcceptInviteStep(caller, id, t, r) => AcceptInvite(s, caller, id, t, r)
    case AcceptRequestStep(caller, id, t, r) => AcceptRequest(s, caller, id, t, r)
    case ReadStep(h, asked) =>
      var read := Read(s, asked);
      if read.Ok? then s.(pending := s.pending[h := read.value]) else s
    case WriteStep(h) => Transition(s, s.pending[h]).(pending := AfterWrite(s, h))
    case InsertStep(h, id) =>
      var s' := if s.pending[h].InsertInvite? then PutInvite(s, s.pending[h].invite, id)
                else PutRequest(s, s.pending[h].request, id);
      s'.(pending := s.pending - {h})
    case IssueStep(h, t, r) =>
      var p := s.pending[h];
      Issue(s, p.guest, p.host, p.world, t, r, FromJoinable).(pending := s.pending - {h})
    case ExpireInvitesStep => ExpireInvitesOf(s, None)
    case ExpireRequestsStep => ExpireRequestsOf(s, None)
    case DeleteTicketsStep(gone) => DeleteTickets(s, gone)
    case DeleteInvitesStep(before) => DeleteInvites(s, before)
    case DeleteRequestsStep(before) => DeleteRequests(s, before)
  }

  function Exec(s: State, run: seq<Label>): Option<State>
    decreases |run|
  {
    if run == [] then Some(s)
    else if Enabled(s, run[0]) then Exec(Apply(s, run[0]), run[1..])
    else None
  }

  function Initial(now: int, around: Surroundings): State {
    State(now, around, map[], map[], map[], map[], {}, {}, {}, map[])
  }
}
