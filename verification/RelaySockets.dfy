/** Socket conservation: in every interleaving each socket is in exactly one place, and
    every tunnel joins one host and one guest of the same relay id. */
module RelaySockets {
  import opened Wrappers
  import opened NetworkTables
  import opened RelayHubs
  import opened RelayProtocol

  /** Every handler, relay row and parked socket refers to rows that exist and agree. */
  ghost predicate Linked(s: State) {
    && (forall r :: r in s.tables.relays ==> s.tables.relays[r].world in s.tables.worlds)
    && (forall h :: h in s.handlers ==>
          s.handlers[h].relay in s.tables.relays && s.tables.relays[s.handlers[h].relay].world == s.handlers[h].world)
  }

  /** A parked socket belongs to a waiting handler of that relay id and role. */
  ghost predicate ParkedOk(s: State) {
    forall r :: r in s.hub.waiting ==>
      var k := s.hub.waiting[r].socket;
      k in s.handlers && s.handlers[k].relay == r && s.handlers[k].role == s.hub.waiting[r].role
      && s.handlers[k].pc.Parked() && k !in s.dropped
  }

  ghost predicate IsPeerOf(s: State, t: SocketId, k: SocketId) {
    t in s.handlers && s.handlers[t].pc.HasPeer() && s.handlers[t].pc.peer == k
  }

  /** A held peer is a once-parked socket of the same relay id and the opposite role. */
  ghost predicate PeerFits(s: State, t: SocketId, k: SocketId)
    requires t in s.handlers
  {
    && k in s.handlers && s.handlers[k].relay == s.handlers[t].relay
    && RolesPair(s.handlers[k].role, s.handlers[t].role)
    && (s.handlers[k].pc.Parked() || s.handlers[k].pc.Finished?)
    && k !in s.dropped
    && !(s.handlers[k].relay in s.hub.waiting && s.hub.waiting[s.handlers[k].relay].socket == k)
  }

  ghost predicate PeersOk(s: State) {
    && (forall t, k :: IsPeerOf(s, t, k) ==> PeerFits(s, t, k))
    && (forall t, u, k :: IsPeerOf(s, t, k) && IsPeerOf(s, u, k) ==> t == u)
  }

  /** Socket `g` is parked or held by a peer. */
  ghost predicate Kept(s: State, g: SocketId)
    requires g in s.handlers
  {
    (s.handlers[g].relay in s.hub.waiting && s.hub.waiting[s.handlers[g].relay].socket == g)
    || exists t :: IsPeerOf(s, t, g)
  }

  /** No socket is lost: one that its handler no longer owns is parked, held or dropped. */
  ghost predicate NoneLost(s: State) {
    && s.dropped <= s.handlers.Keys
    && (forall h :: h in s.handlers && s.handlers[h].pc.OwnsSocket() ==> h !in s.dropped)
    && (forall h :: h in s.handlers && !s.handlers[h].pc.OwnsSocket() && h !in s.dropped ==>
          Kept(s, h))
  }

  /** The socket side of the invariant. */
  ghost predicate Sockets(s: State) {
    Linked(s) && ParkedOk(s) && PeersOk(s) && NoneLost(s)
  }

  lemma LinkedKept(s: State, l: Label)
    requires 1 <= s.cap && Linked(s) && Enabled(s, l)
    ensures Linked(Apply(s, l))
  {
  }

  lemma ParkedKeptByHandler(s: State, h: SocketId)
    requires 1 <= s.cap && Sockets(s) && Enabled(s, HandlerStep(h))
    ensures ParkedOk(AfterHandler(s, h))
  {
    var s' := AfterHandler(s, h);
    forall r | r in s'.hub.waiting
      ensures var k := s'.hub.waiting[r].socket;
        k in s'.handlers && s'.handlers[k].relay == r && s'.handlers[k].role == s'.hub.waiting[r].role
        && s'.handlers[k].pc.Parked() && k !in s'.dropped
    {
      match s.handlers[h].pc
      case Parking =>
      case Refusing(k) => assert IsPeerOf(s, h, k);
      case Piping(k) => assert IsPeerOf(s, h, k);
      case _ =>
    }
  }

  lemma PeerOrigin(s: State, h: SocketId, t: SocketId, k: SocketId)
    requires 1 <= s.cap && Enabled(s, HandlerStep(h)) && IsPeerOf(AfterHandler(s, h), t, k)
    ensures IsPeerOf(s, t, k)
      || (t == h && s.handlers[h].pc.Start? && Takes(s.hub, s.handlers[h].relay, s.handlers[h].role) == Some(k))
  {
  }

  lemma PeerFitsAfterHandler(s: State, h: SocketId, t: SocketId, k: SocketId)
    requires 1 <= s.cap && Sockets(s) && Enabled(s, HandlerStep(h)) && IsPeerOf(AfterHandler(s, h), t, k)
    ensures PeerFits(AfterHandler(s, h), t, k)
  {
    PeerOrigin(s, h, t, k);
    if s.handlers[h].pc.Piping? || s.handlers[h].pc.Refusing? {
      assert IsPeerOf(s, h, s.handlers[h].pc.peer);
    }
  }

  lemma PeersKeptByHandler(s: State, h: SocketId)
    requires 1 <= s.cap && Sockets(s) && Enabled(s, HandlerStep(h))
    ensures PeersOk(AfterHandler(s, h))
  {
    var s' := AfterHandler(s, h);
    forall t, k | IsPeerOf(s', t, k) ensures PeerFits(s', t, k) {
      PeerFitsAfterHandler(s, h, t, k);
    }
    forall t, u, k | IsPeerOf(s', t, k) && IsPeerOf(s', u, k) ensures t == u {
      PeerOrigin(s, h, t, k);
      PeerOrigin(s, h, u, k);
    }
  }

  lemma NoneLostKeptByHandler(s: State, h: SocketId)
    requires 1 <= s.cap && Sockets(s) && Enabled(s, HandlerStep(h))
    ensures NoneLost(AfterHandler(s, h))
  {
    var s' := AfterHandler(s, h);
    forall g | g in s'.handlers && !s'.handlers[g].pc.OwnsSocket() && g !in s'.dropped
      ensures Kept(s', g)
    {
      KeptByHandler(s, h, g);
    }
    if s.handlers[h].pc.Piping? || s.handlers[h].pc.Refusing? {
      assert IsPeerOf(s, h, s.handlers[h].pc.peer);
    }
  }

  lemma KeptByHandler(s: State, h: SocketId, g: SocketId)
    requires 1 <= s.cap && Sockets(s) && Enabled(s, HandlerStep(h)) && g in s.handlers
    requires !AfterHandler(s, h).handlers[g].pc.OwnsSocket() && g !in AfterHandler(s, h).dropped
    ensures Kept(AfterHandler(s, h), g)
  {
    var s' := AfterHandler(s, h);
    var pc := s.handlers[h].pc;
    if g == h && pc.Parking? {
      assert s'.hub.waiting[s.handlers[h].relay].socket == g;
    } else {
      assert Kept(s, g);
      if t :| IsPeerOf(s, t, g) {
        assert IsPeerOf(s', t, g);
      } else if pc.Start? && Takes(s.hub, s.handlers[h].relay, s.handlers[h].role) == Some(g) {
        assert IsPeerOf(s', h, g);
      }
    }
  }

  /** A step other than a handler's own leaves the hub and the earlier handlers alone. */
  lemma SocketsKeptElsewhere(s: State, l: Label)
    requires 1 <= s.cap && Sockets(s) && Enabled(s, l) && !l.HandlerStep? && !l.RestartStep?
    ensures ParkedOk(Apply(s, l)) && PeersOk(Apply(s, l)) && NoneLost(Apply(s, l))
  {
    var s' := Apply(s, l);
    assert s'.hub == s.hub && s'.dropped == s.dropped;
    forall t, k ensures IsPeerOf(s', t, k) <==> IsPeerOf(s, t, k) {}
    forall t, k | IsPeerOf(s', t, k) ensures PeerFits(s', t, k) {
      assert PeerFits(s, t, k);
    }
    forall g | g in s'.handlers && !s'.handlers[g].pc.OwnsSocket() && g !in s'.dropped ensures Kept(s', g) {
      assert Kept(s, g);
      if t :| IsPeerOf(s, t, g) {
        assert IsPeerOf(s', t, g);
      }
    }
  }

  lemma SocketsKept(s: State, l: Label)
    requires 1 <= s.cap && Sockets(s) && Enabled(s, l)
    ensures Sockets(Apply(s, l))
  {
    LinkedKept(s, l);
    if l.HandlerStep? {
      ParkedKeptByHandler(s, l.h);
      PeersKeptByHandler(s, l.h);
      NoneLostKeptByHandler(s, l.h);
    } else if !l.RestartStep? {
      SocketsKeptElsewhere(s, l);
    }
  }

  // ----- Conservation -----

  datatype Place = Held(holder: SocketId) | ParkedAt(relay: RelayId) | PipedBy(holder: SocketId) | Gone

  ghost predicate Located(s: State, k: SocketId, p: Place) {
    match p
    case Held(t) =>
      t in s.handlers && !s.handlers[t].pc.Piping?
      && ((t == k && s.handlers[t].pc.OwnsSocket()) || IsPeerOf(s, t, k))
    case ParkedAt(r) => r in s.hub.waiting && s.hub.waiting[r].socket == k
    case PipedBy(t) => t in s.handlers && s.handlers[t].pc.Piping? && (t == k || IsPeerOf(s, t, k))
    case Gone => k in s.dropped
  }

  lemma SocketIsSomewhere(s: State, k: SocketId) returns (p: Place)
    requires Sockets(s) && k in s.handlers
    ensures Located(s, k, p)
  {
    if k in s.dropped {
      p := Gone;
    } else if s.handlers[k].pc.OwnsSocket() {
      p := if s.handlers[k].pc.Piping? then PipedBy(k) else Held(k);
    } else {
      assert Kept(s, k);
      if t :| IsPeerOf(s, t, k) {
        p := if s.handlers[t].pc.Piping? then PipedBy(t) else Held(t);
      } else {
        p := ParkedAt(s.handlers[k].relay);
      }
    }
  }

  lemma SocketIsInOnePlace(s: State, k: SocketId, p: Place, q: Place)
    requires Sockets(s) && Located(s, k, p) && Located(s, k, q)
    ensures p == q
  {
    if t :| IsPeerOf(s, t, k) {
      assert PeerFits(s, t, k);
    }
  }

  lemma SocketsInvariant(s: State, run: seq<Label>)
    requires 1 <= s.cap && Sockets(s) && Exec(s, run).Some?
    ensures Sockets(Exec(s, run).value)
    decreases |run|
  {
    if run != [] {
      SocketsKept(s, run[0]);
      SocketsInvariant(Apply(s, run[0]), run[1..]);
    }
  }

  /** After any run, every socket ever connected is in exactly one place. */
  lemma RendezvousConservation(cap: int, run: seq<Label>, k: SocketId)
    requires 1 <= cap && Exec(Initial(cap), run).Some?
    requires k in Exec(Initial(cap), run).value.handlers
    ensures var s := Exec(Initial(cap), run).value;
      exists p :: Located(s, k, p) && forall q :: Located(s, k, q) ==> q == p
  {
    SocketsInvariant(Initial(cap), run);
    var s := Exec(Initial(cap), run).value;
    var p := SocketIsSomewhere(s, k);
    forall q | Located(s, k, q) ensures q == p {
      SocketIsInOnePlace(s, k, p, q);
    }
  }

  /** After any run, every tunnel joins one host and one guest of the same relay id, and no
      other tunnel has either of the two sockets. */
  lemma TunnelsJoinOnePair(cap: int, run: seq<Label>, t: SocketId)
    requires 1 <= cap && Exec(Initial(cap), run).Some?
    requires t in Exec(Initial(cap), run).value.handlers && Exec(Initial(cap), run).value.handlers[t].pc.Piping?
    ensures var s := Exec(Initial(cap), run).value;
      var k := s.handlers[t].pc.peer;
      && k in s.handlers && s.handlers[k].relay == s.handlers[t].relay
      && {s.handlers[k].role, s.handlers[t].role} == {Host, Guest}
      && forall u :: u in s.handlers && s.handlers[u].pc.Piping? && u != t ==>
           u != k && s.handlers[u].pc.peer != k && s.handlers[u].pc.peer != t
  {
    SocketsInvariant(Initial(cap), run);
    var s := Exec(Initial(cap), run).value;
    var k := s.handlers[t].pc.peer;
    assert IsPeerOf(s, t, k) && PeerFits(s, t, k);
    forall u | u in s.handlers && s.handlers[u].pc.Piping? && u != t
      ensures u != k && s.handlers[u].pc.peer != k && s.handlers[u].pc.peer != t
    {
      assert IsPeerOf(s, u, s.handlers[u].pc.peer);
      assert PeerFits(s, u, s.handlers[u].pc.peer);
    }
  }
}
