/** When the driver starts a handshake, arms its deadlines and counts itself as
    having sent, for every arm, with the protocol's times written out. */
module Rekeying {
  import opened Wrappers
  import opened Timing
  import opened TransportData
  import opened PeerSpec
  import opened ActorSpec
  import opened ActorRuns
  import AE = ArmEffects
  import H = Handshake

  /** The current session has sent 2^60 messages. */
  predicate Worn(m: PeerState) {
    m.current.Some? && m.current.value.sendCounter >= 0x1000_0000_0000_0000
  }

  /** This end initiated the session, and it is that many seconds old. */
  predicate Aged(session: Option<Timers>, now: nat, seconds: nat) {
    session.Some? && session.value.initiator && now >= session.value.established + seconds * SECOND
  }

  /** The socket took one of the first `n` trains. */
  predicate Taken(sends: seq<bool>, n: nat) {
    exists k :: 0 <= k < n && k < |sends| && sends[k]
  }

  /** The attempt an initiation begins: first sent at one reading, retried five
      seconds and some jitter after the other. */
  function Fresh(first: nat, hs: HsInput): Attempt {
    Attempt(first, hs.now + 5 * SECOND + hs.jitter * 1_000_000)
  }

  // ---------- the building blocks ----------

  lemma EnsureExactly(a: ActorState, hs: HsInput)
    ensures EnsureHandshake(a, hs).handshake ==
            if a.handshake.Some? then a.handshake
            else if a.machine.endpoint.Some? then Some(Fresh(hs.first, hs)) else None
  {
    hide H.Initiate;
  }

  /** A flush, with no attempt in flight, starts one when it could not seal
      everything, when the session is worn, or when something went out and the
      initiator's session is two minutes old; otherwise not. */
  lemma FlushBeginsExactly(a: ActorState, payloads: seq<Payload>, f: FlushInput)
    requires a.handshake.None?
    ensures var b := FlushSends(a, payloads, f);
            var (machine, packets) := SealAll(a.machine, f.now, payloads);
            var stalled, trains := |packets| < |payloads|, |BatchesOf(payloads, packets, 0, f.gso)|;
            b.handshake ==
            if a.machine.endpoint.Some? && stalled then Some(Fresh(f.hs.first, f.hs))
            else if a.machine.endpoint.Some? && payloads != []
                    && (Worn(machine) || (Taken(f.sends, trains) && Aged(a.session, f.now, 120)))
            then Some(Fresh(f.now, f.hs)) else None
  {
    hide SealAll, BatchesOf, EnsureHandshake, Repeat, LastStaged, H.Initiate;
    if payloads == [] {
      AE.EmptyFlush(a, f);
    } else {
      SealedSame(a.machine, f.now, payloads);
      var c := AfterSealing(a, payloads, f);
      var n := |SealAll(a.machine, f.now, payloads).1|;
      if n < |payloads| {
        var q := c.staged + payloads[n..];
        var evicted := if |q| <= MAX_STAGED then 0 else |q| - MAX_STAGED;
        EnsureExactly(c.(session := None, staged := LastStaged(q),
                         history := c.history.(fates := c.history.fates + Repeat(WasEvicted, evicted))), f.hs);
      }
    }
  }

  lemma SealedSame(m: PeerState, now: nat, payloads: seq<Payload>)
    ensures SealAll(m, now, payloads).0.endpoint == m.endpoint
  {
    hide SealAll;
    AE.SealedPackets(m, now, payloads);
  }

  /** A keepalive likewise; a refused one starts nothing. */
  lemma KeepaliveBeginsExactly(a: ActorState, k: KeepaliveInput)
    requires a.handshake.None?
    ensures var b := SendKeepalive(a, k);
            var (machine, packet) := a.machine.Encrypt(k.now, [], PacketLen(0));
            b.handshake ==
            if packet.Ok? && (Worn(machine) || (k.sent && Aged(a.session, k.now, 120)))
            then Some(Fresh(k.hs.first, k.hs)) else None
  {
    hide EnsureHandshake, DataPacket;
    var (machine, packet) := a.machine.Encrypt(k.now, [], PacketLen(0));
    if packet.Ok? {
      var a1 := a.(clock := k.now, machine := machine,
                   session := if a.session.Some? then Some(a.session.value.KeepaliveSent()) else None,
                   lastSend := if k.sent then k.now else a.lastSend);
      EnsureExactly(a1, k.hs);
    }
  }

  // ---------- every arm ----------

  /** The driver right after a packet was opened, before anything is flushed. */
  function AfterReceipt(a: ActorState, e: Event): ActorState
    requires e.RecvData? && a.machine.Decrypt(e.now, e.receiver, e.packet, e.source).1.Ok?
  {
    var (machine, recv) := a.machine.Decrypt(e.now, e.receiver, e.packet, e.source);
    var Recv(payload, confirmed, unmapped) := recv.value;
    var before := if confirmed then Some(Timers(false, e.now, None, None)) else a.session;
    a.(clock := e.now, machine := machine,
       session := if before.None? then None
                  else Some(before.value.(
                              newHandshakeAt := None,
                              keepaliveAt := if payload != [] && before.value.keepaliveAt.None? then Some(e.now + 10 * SECOND)
                                             else before.value.keepaliveAt)),
       control := a.control + (if unmapped.Some? then [Retire(unmapped.value)] else []),
       inbound := if payload != [] && e.room then a.inbound + [payload] else a.inbound)
  }

  /** A receipt: the packet clears the unanswered-data deadline; one with a payload
      owes an answer within ten seconds; a confirming one starts the responder's
      timers and releases the queue; then an initiator whose session is 165
      seconds old starts a handshake. */
  lemma ReceiptExactly(a: ActorState, e: Event)
    requires e.RecvData?
    ensures var recv := a.machine.Decrypt(e.now, e.receiver, e.packet, e.source).1;
            Step(a, e) ==
            if recv.Err? then a.(clock := e.now)
            else if recv.value.confirmed then SessionEstablished(AfterReceipt(a, e), false, e.est)
            else if Aged(a.session, e.now, 165) then EnsureHandshake(AfterReceipt(a, e), e.hs) else AfterReceipt(a, e)
  {
    hide PeerState.Decrypt, SessionEstablished, EnsureHandshake;
  }

  /** What makes an arm start an attempt when none is in flight. */
  predicate Reason(a: ActorState, e: Event) {
    match e
    case Connect(_, _) => true
    case Reconfigure(_, _, endpoint, _) => endpoint.Some?
    case SendData(payloads, f) => FlushReason(a, payloads, f)
    case RecvData(now, packet, receiver, source, _, est, _) =>
      var recv := a.machine.Decrypt(now, receiver, packet, source).1;
      && recv.Ok?
      && if recv.value.confirmed then FlushReason(AfterReceipt(a, e), a.staged, est.flush) else Aged(a.session, now, 165)
    case RecvInit(_, _, _, _, _) => false
    case RecvResp(now, msg, source, est) =>
      var (machine, r) := a.machine.HandshakeResponse(a.ourSecret, now, msg, source);
      var b := a.(machine := machine, session := Some(Timers(true, now, None, None)));
      r.Ok? && if a.staged == [] then KeepaliveReason(b, est.keepalive) else FlushReason(b, a.staged, est.flush)
    case HandshakeDue(_, _) => false
    case RecvCookie(_) => false
    case SessionExpired => false
    case KeepaliveDue(k) => KeepaliveReason(a, k)
    case NewHandshakeDue(_) => a.machine.endpoint.Some?
    case PersistentDue(now, k, _) =>
      if a.session.Some? && now < a.session.value.established + 180 * SECOND then KeepaliveReason(a, k)
      else a.machine.endpoint.Some?
  }

  predicate FlushReason(a: ActorState, payloads: seq<Payload>, f: FlushInput) {
    var (machine, packets) := SealAll(a.machine, f.now, payloads);
    var trains := |BatchesOf(payloads, packets, 0, f.gso)|;
    && a.machine.endpoint.Some? && payloads != []
    && (|packets| < |payloads| || Worn(machine) || (Taken(f.sends, trains) && Aged(a.session, f.now, 120)))
  }

  predicate KeepaliveReason(a: ActorState, k: KeepaliveInput) {
    var (machine, packet) := a.machine.Encrypt(k.now, [], PacketLen(0));
    packet.Ok? && (Worn(machine) || (k.sent && Aged(a.session, k.now, 120)))
  }

  lemma FlushBegins(a: ActorState, payloads: seq<Payload>, f: FlushInput)
    requires a.handshake.None?
    ensures FlushSends(a, payloads, f).handshake.Some? <==> FlushReason(a, payloads, f)
  {
    hide SealAll, BatchesOf, FlushSends, Worn, Aged, Taken;
    FlushBeginsExactly(a, payloads, f);
  }

  lemma KeepaliveBegins(a: ActorState, k: KeepaliveInput)
    requires a.handshake.None?
    ensures SendKeepalive(a, k).handshake.Some? <==> KeepaliveReason(a, k)
  {
    hide SendKeepalive, Worn, Aged, DataPacket;
    KeepaliveBeginsExactly(a, k);
  }

  lemma ReceiptBegins(a: ActorState, e: Event)
    requires e.RecvData? && a.handshake.None?
    ensures Step(a, e).handshake.Some? <==> Reason(a, e)
  {
    hide Step, FlushSends, FlushReason, EnsureHandshake, SessionState.Receive;
    ReceiptExactly(a, e);
    if a.machine.Decrypt(e.now, e.receiver, e.packet, e.source).1.Ok? {
      var b := AfterReceipt(a, e);
      FlushBegins(b.(staged := []), b.staged, e.est.flush);
      FlushReasonSame(b, b.staged, e.est.flush);
      EnsureExactly(b, e.hs);
    }
  }

  lemma FlushReasonSame(a: ActorState, payloads: seq<Payload>, f: FlushInput)
    ensures FlushReason(a.(staged := []), payloads, f) == FlushReason(a, payloads, f)
  {
  }

  lemma AnswerBegins(a: ActorState, e: Event)
    requires e.RecvResp? && (a.handshake.None? || a.machine.HandshakeResponse(a.ourSecret, e.now, e.msg, e.source).1.Ok?)
    ensures Step(a, e).handshake.Some? <==> Reason(a, e)
  {
    hide FlushSends, SendKeepalive, FlushReason, KeepaliveReason, H.ResponseReceived, H.FinishInitiator;
    var (machine, r) := a.machine.HandshakeResponse(a.ourSecret, e.now, e.msg, e.source);
    if r.Ok? {
      var c := a.(clock := e.now, machine := machine, control := a.control + RetireOpt(r.value), handshake := None,
                  session := Some(NewTimers(true, e.now)));
      var b := a.(machine := machine, session := Some(Timers(true, e.now, None, None)));
      FlushBegins(c.(staged := []), c.staged, e.est.flush);
      KeepaliveBegins(c.(staged := []), e.est.keepalive);
      ReasonsOf(b, c, e.est, a.staged);
      if a.staged == [] { FlushNothing(c, e.est.flush); }
    }
  }

  /** Only the machine and the session matter. */
  lemma ReasonsOf(b: ActorState, c: ActorState, est: EstablishedInput, payloads: seq<Payload>)
    requires b.machine == c.machine && b.session == c.session
    ensures FlushReason(b, payloads, est.flush) == FlushReason(c.(staged := []), payloads, est.flush)
    ensures KeepaliveReason(b, est.keepalive) == KeepaliveReason(c.(staged := []), est.keepalive)
  {
  }

  /** Rekeying, over every arm: with no attempt in flight (or one just answered)
      an arm leaves one in flight exactly for the reasons above. */
  lemma BeginsExactly(a: ActorState, e: Event)
    requires || a.handshake.None?
             || (e.RecvResp? && a.machine.HandshakeResponse(a.ourSecret, e.now, e.msg, e.source).1.Ok?)
    ensures Step(a, e).handshake.Some? <==> Reason(a, e)
  {
    hide SendHandshake, EnsureHandshake, FlushSends, SendKeepalive, OnRecvData, OnRecvResp, FlushReason, KeepaliveReason,
         PeerState.Respond, PeerState.Decrypt, PeerState.HandshakeResponse;
    match e
    case Connect(address, hs) => EnsureExactly(a.(machine := a.machine.(endpoint := Some(address))), hs);
    case Reconfigure(psk, keepalive, endpoint, hs) => ReconfigureBegins(a, e);
    case SendData(payloads, f) =>
      var c := a.(history := a.history.(submitted := a.history.submitted + payloads));
      FlushBegins(c, payloads, f);
      HistoryAside(a, c, payloads, f);
    case RecvData(_, _, _, _, _, _, _) => ReceiptBegins(a, e);
    case RecvInit(_, _, _, _, _) => InitBegins(a, e);
    case RecvResp(_, _, _, _) => AnswerBegins(a, e);
    case HandshakeDue(_, _) =>
    case RecvCookie(_) =>
    case SessionExpired =>
    case KeepaliveDue(k) => KeepaliveBegins(a, k);
    case NewHandshakeDue(hs) =>
      EnsureExactly(a.(session := if a.session.Some? then Some(a.session.value.(newHandshakeAt := None)) else None), hs);
    case PersistentDue(now, k, hs) =>
      var c := a.(clock := now, lastSend := now);
      KeepaliveBegins(c, k);
      KeepaliveAside(a, c, k);
      EnsureExactly(c, hs);
  }

  lemma HistoryAside(a: ActorState, c: ActorState, payloads: seq<Payload>, f: FlushInput)
    requires a.machine == c.machine && a.session == c.session
    ensures FlushReason(a, payloads, f) == FlushReason(c, payloads, f)
  {
  }

  lemma KeepaliveAside(a: ActorState, c: ActorState, k: KeepaliveInput)
    requires a.machine == c.machine && a.session == c.session
    ensures KeepaliveReason(a, k) == KeepaliveReason(c, k)
  {
  }

  lemma InitBegins(a: ActorState, e: Event)
    requires e.RecvInit?
    ensures Step(a, e).handshake == a.handshake
  {
    hide H.Respond, H.FinishResponder;
  }

  lemma ReconfigureBegins(a: ActorState, e: Event)
    requires e.Reconfigure? && a.handshake.None?
    ensures Step(a, e).handshake.Some? <==> e.endpoint.Some?
  {
    hide EnsureHandshake;
    if e.endpoint.Some? {
      var machine := match e.psk case Keep => a.machine case Clear => a.machine.(psk := None) case Set(k) => a.machine.(psk := Some(k));
      var persistent := match e.keepalive case Keep => a.persistentKeepalive case Clear => None case Set(i) => Some(i);
      EnsureExactly(a.(machine := machine.(endpoint := Some(e.endpoint.value)), persistentKeepalive := persistent), e.hs);
    }
  }
}
