/** The driver's remaining clocks: when something last went out, when the
    persistent keepalive is due, the session deadlines, and whether a session is up. */
module Deadlines {
  import opened Wrappers
  import opened Crypto
  import opened Timing
  import opened TransportData
  import opened PeerSpec
  import opened ActorSpec
  import opened ActorRuns
  import opened Rekeying
  import AE = ArmEffects
  import AT = ActorTheorems
  import H = Handshake

  // ---------- the session's deadlines ----------

  /** A flush that got something out owes no keepalive any more, and expects an
      answer within fifteen seconds and some jitter of the first unanswered one. */
  lemma FlushArms(a: ActorState, payloads: seq<Payload>, f: FlushInput)
    requires a.session.Some? && payloads != []
    ensures var (machine, packets) := SealAll(a.machine, f.now, payloads);
            var trains, t := |BatchesOf(payloads, packets, 0, f.gso)|, a.session.value;
            FlushSends(a, payloads, f).session ==
            if |packets| < |payloads| then None
            else if Taken(f.sends, trains)
            then Some(Timers(t.initiator, t.established, None,
                             if t.newHandshakeAt.Some? then t.newHandshakeAt
                             else Some(f.now + 15 * SECOND + f.jitter * 1_000_000)))
            else Some(t)
  {
    hide SealAll, BatchesOf, FlushSends;
    AE.FlushEffect(a, payloads, f);
  }

  /** A keepalive pays what is owed and expects nothing. */
  lemma KeepalivePays(a: ActorState, k: KeepaliveInput)
    requires a.session.Some?
    ensures var packet, t := a.machine.Encrypt(k.now, [], PacketLen(0)).1, a.session.value;
            SendKeepalive(a, k).session ==
            if packet.Err? then None else Some(Timers(t.initiator, t.established, None, t.newHandshakeAt))
  {
    hide SendKeepalive, DataPacket;
    AE.KeepaliveEffect(a, k);
  }

  /** An expired session's timers go, three minutes after it was established, and nothing else. */
  lemma ExpiryExactly(a: ActorState, t: Timers, now: nat)
    ensures t.Usable(now) <==> now < t.established + 180 * SECOND
    ensures var b := Step(a, SessionExpired); b.session == None && b == a.(session := b.session)
  {
  }

  /** What a flush leaves queued: nothing new when all was sealed, and otherwise
      the newest 128 of what waited and what was refused, the oldest evicted. */
  lemma QueueExactly(a: ActorState, payloads: seq<Payload>, f: FlushInput)
    ensures var b, n := FlushSends(a, payloads, f), |SealAll(a.machine, f.now, payloads).1|;
            var q := a.staged + payloads[n..];
            var gone := if n < |payloads| && |q| > 128 then |q| - 128 else 0;
            && b.staged == (if n < |payloads| then q[gone..] else a.staged)
            && |b.history.fates| == |a.history.fates| + n + gone
  {
    hide SealAll, BatchesOf, AnySent, SendHandshake, EnsureHandshake, PeerState.RekeyDueToMessages;
    if payloads != [] {
      var c := AfterSealing(a, payloads, f);
      var packets := SealAll(a.machine, f.now, payloads).1;
      var n := |packets|;
      if n < |payloads| {
        var q := c.staged + payloads[n..];
        var evicted := if |q| <= MAX_STAGED then 0 else |q| - MAX_STAGED;
        assert q[0..] == q;
        AE.HandshakeEffect(c.(session := None, staged := LastStaged(q),
                              history := c.history.(fates := c.history.fates + Repeat(WasEvicted, evicted))), 0, f.hs);
      } else {
        var c1 := if AnySent(f.sends, |BatchesOf(payloads, packets, 0, f.gso)|)
                  then c.(lastSend := f.now,
                          session := if c.session.Some? then Some(c.session.value.DataSent(f.now, f.jitter)) else None)
                  else c;
        AE.HandshakeEffect(c1, f.now, f.hs);
      }
    } else {
      AE.EmptyFlush(a, f);
    }
  }

  // ---------- when something last went out ----------

  /** The socket took the initiation of an attempt that began here. */
  predicate InitiationOut(a: ActorState, b: ActorState, hs: HsInput) {
    a.handshake.None? && b.handshake.Some? && a.machine.peerKey != LowOrder && hs.sent
  }

  lemma EnsureSends(a: ActorState, hs: HsInput)
    ensures var b := EnsureHandshake(a, hs);
            b.lastSend == if InitiationOut(a, b, hs) then hs.now else a.lastSend
  {
  }

  lemma FlushSendsLast(a: ActorState, payloads: seq<Payload>, f: FlushInput)
    ensures var b := FlushSends(a, payloads, f);
            var packets := SealAll(a.machine, f.now, payloads).1;
            var trains := |BatchesOf(payloads, packets, 0, f.gso)|;
            b.lastSend ==
            if InitiationOut(a, b, f.hs) then f.hs.now
            else if payloads != [] && |packets| == |payloads| && Taken(f.sends, trains) then f.now else a.lastSend
  {
    hide SealAll, BatchesOf, EnsureHandshake, Repeat, LastStaged;
    if payloads != [] {
      SealedKey(a.machine, f.now, payloads);
      var c := AfterSealing(a, payloads, f);
      var n := |SealAll(a.machine, f.now, payloads).1|;
      if n < |payloads| {
        var q := c.staged + payloads[n..];
        var evicted := if |q| <= MAX_STAGED then 0 else |q| - MAX_STAGED;
        EnsureSends(c.(session := None, staged := LastStaged(q),
                       history := c.history.(fates := c.history.fates + Repeat(WasEvicted, evicted))), f.hs);
      }
    }
  }

  lemma SealedKey(m: PeerState, now: nat, payloads: seq<Payload>)
    ensures SealAll(m, now, payloads).0.peerKey == m.peerKey
  {
    hide SealAll;
    AE.SealedPackets(m, now, payloads);
  }

  lemma KeepaliveSendsLast(a: ActorState, k: KeepaliveInput)
    ensures var b := SendKeepalive(a, k);
            b.lastSend ==
            if InitiationOut(a, b, k.hs) then k.hs.now
            else if k.sent && a.machine.Encrypt(k.now, [], PacketLen(0)).1.Ok? then k.now else a.lastSend
  {
    hide EnsureHandshake, DataPacket;
    var (machine, packet) := a.machine.Encrypt(k.now, [], PacketLen(0));
    if packet.Ok? {
      EnsureSends(a.(clock := k.now, machine := machine,
                     session := if a.session.Some? then Some(a.session.value.KeepaliveSent()) else None,
                     lastSend := if k.sent then k.now else a.lastSend), k.hs);
    }
  }

  /** An answered initiation counts as sending when the socket took the response. */
  lemma ResponseSends(a: ActorState, e: Event)
    requires e.RecvInit?
    ensures Step(a, e).lastSend ==
            if e.sent && (a.machine.lastTimestamp.None? || e.received.timestamp > a.machine.lastTimestamp.value)
            then e.now else a.lastSend
  {
    hide H.Respond, H.FinishResponder;
  }

  /** The persistent keepalive: due an interval after something last went out,
      once an endpoint is known. */
  lemma PersistentExactly(a: ActorState, at: nat)
    ensures PersistentKeepaliveAt(a) == Some(at) <==>
            a.persistentKeepalive.Some? && a.machine.endpoint.Some? && at == a.lastSend + a.persistentKeepalive.value
  {
  }

  /** So for an actor that never sent anything it is due an interval after the start. */
  lemma SpawnedPersistent(ourSecret: nat, peerKey: Term, psk: Option<Term>, interval: nat, address: Address, hs: HsInput)
    requires !hs.sent
    ensures PersistentKeepaliveAt(Step(Spawn(ourSecret, peerKey, psk, Some(interval)), Connect(address, hs))) == Some(interval)
  {
    hide EnsureHandshake;
    var a := Spawn(ourSecret, peerKey, psk, Some(interval));
    var c := a.(machine := a.machine.(endpoint := Some(address)));
    EnsureSends(c, hs);
    AE.HandshakeEffect(c, 0, hs);
  }

  /** Its timer never spins: whatever comes of it, it is next due a whole interval later. */
  lemma PersistentNeverSpins(a: ActorState, now: nat, k: KeepaliveInput, hs: HsInput)
    requires Timely(a, PersistentDue(now, k, hs)) && a.persistentKeepalive.Some? && a.machine.endpoint.Some?
    ensures var due := PersistentKeepaliveAt(Step(a, PersistentDue(now, k, hs)));
            due.Some? && due.value >= now + a.persistentKeepalive.value
  {
    hide SendKeepalive, EnsureHandshake;
    var c := a.(clock := now, lastSend := now);
    KeepaliveSendsLast(c, k);
    EnsureSends(c, hs);
    AE.HandshakeEffect(c, 0, hs);
    KeepaliveKeepsInterval(c, k);
  }

  lemma KeepaliveKeepsInterval(a: ActorState, k: KeepaliveInput)
    ensures var b := SendKeepalive(a, k);
            b.persistentKeepalive == a.persistentKeepalive && b.machine.endpoint == a.machine.endpoint
  {
    hide EnsureHandshake, DataPacket, PeerState.RekeyDueToMessages;
    var (machine, packet) := a.machine.Encrypt(k.now, [], PacketLen(0));
    if packet.Ok? {
      AE.HandshakeEffect(a.(clock := k.now, machine := machine,
                            session := if a.session.Some? then Some(a.session.value.KeepaliveSent()) else None,
                            lastSend := if k.sent then k.now else a.lastSend), 0, k.hs);
    }
  }

  // ---------- whether a session is up ----------

  /** The application is told of a session exactly when there has been one. */
  predicate Told(a: ActorState) {
    a.ready <==> a.machine.current.Some?
  }

  lemma HandshakeTells(a: ActorState, hs: HsInput)
    requires Told(a)
    ensures Told(EnsureHandshake(a, hs))
  {
    hide EnsureHandshake;
    AE.HandshakeEffect(a, 0, hs);
  }

  lemma FlushTells(a: ActorState, payloads: seq<Payload>, f: FlushInput)
    ensures var b := FlushSends(a, payloads, f);
            b.ready == a.ready && (b.machine.current.Some? <==> a.machine.current.Some?)
  {
    hide SealAll, BatchesOf, AnySent, SendHandshake, EnsureHandshake, Repeat, LastStaged, PeerState.RekeyDueToMessages;
    if payloads != [] {
      AE.SealedPackets(a.machine, f.now, payloads);
      var c := AfterSealing(a, payloads, f);
      var n := |SealAll(a.machine, f.now, payloads).1|;
      if n < |payloads| {
        var q := c.staged + payloads[n..];
        var evicted := if |q| <= MAX_STAGED then 0 else |q| - MAX_STAGED;
        AE.HandshakeEffect(c.(session := None, staged := LastStaged(q),
                              history := c.history.(fates := c.history.fates + Repeat(WasEvicted, evicted))), 0, f.hs);
      } else {
        var sent := AnySent(f.sends, |BatchesOf(payloads, SealAll(a.machine, f.now, payloads).1, 0, f.gso)|);
        var c1 := if sent
                  then c.(lastSend := f.now,
                          session := if c.session.Some? then Some(c.session.value.DataSent(f.now, f.jitter)) else None)
                  else c;
        AE.HandshakeEffect(c1, f.now, f.hs);
      }
    }
  }

  lemma KeepaliveTells(a: ActorState, k: KeepaliveInput)
    ensures var b := SendKeepalive(a, k);
            b.ready == a.ready && (b.machine.current.Some? <==> a.machine.current.Some?)
  {
    hide EnsureHandshake, DataPacket, PeerState.RekeyDueToMessages;
    var (machine, packet) := a.machine.Encrypt(k.now, [], PacketLen(0));
    if packet.Ok? {
      AE.HandshakeEffect(a.(clock := k.now, machine := machine,
                            session := if a.session.Some? then Some(a.session.value.KeepaliveSent()) else None,
                            lastSend := if k.sent then k.now else a.lastSend), 0, k.hs);
    }
  }

  lemma EstablishedTells(a: ActorState, initiator: bool, e: EstablishedInput)
    requires a.machine.current.Some?
    ensures Told(SessionEstablished(a, initiator, e))
  {
    hide FlushSends, SendKeepalive;
    FlushTells(a.(staged := []), a.staged, e.flush);
    KeepaliveTells(FlushStaged(a, e.flush), e.keepalive);
  }

  lemma ReceiptTells(a: ActorState, e: Event)
    requires Told(a) && e.RecvData?
    ensures Told(Step(a, e))
  {
    hide Step, SessionEstablished, EnsureHandshake, SessionState.Receive;
    ReceiptExactly(a, e);
    if a.machine.Decrypt(e.now, e.receiver, e.packet, e.source).1.Ok? {
      var b := AfterReceipt(a, e);
      if a.machine.Decrypt(e.now, e.receiver, e.packet, e.source).1.value.confirmed {
        EstablishedTells(b, false, e.est);
      } else {
        HandshakeTells(b, e.hs);
      }
    }
  }

  lemma AnswerTells(a: ActorState, e: Event)
    requires Told(a) && e.RecvResp?
    ensures Told(Step(a, e))
  {
    hide SessionEstablished, H.ResponseReceived, H.FinishInitiator;
    var (machine, r) := a.machine.HandshakeResponse(a.ourSecret, e.now, e.msg, e.source);
    if r.Ok? {
      EstablishedTells(a.(clock := e.now, machine := machine, control := a.control + RetireOpt(r.value), handshake := None,
                          session := Some(NewTimers(true, e.now))), true, e.est);
    }
  }

  lemma StepTells(a: ActorState, e: Event)
    requires Told(a)
    ensures Told(Step(a, e))
  {
    hide SendHandshake, EnsureHandshake, FlushSends, SendKeepalive, OnRecvData, OnRecvResp, H.Respond;
    match e
    case Connect(address, hs) => HandshakeTells(a.(machine := a.machine.(endpoint := Some(address))), hs);
    case Reconfigure(_, _, _, _) => ReconfigureTells(a, e);
    case SendData(payloads, f) =>
      FlushTells(a.(history := a.history.(submitted := a.history.submitted + payloads)), payloads, f);
    case RecvData(_, _, _, _, _, _, _) => ReceiptTells(a, e);
    case RecvResp(_, _, _, _) => AnswerTells(a, e);
    case HandshakeDue(now, hs) =>
      if a.handshake.Some? { AE.HandshakeEffect(a.(clock := now), a.handshake.value.firstSent, hs); }
    case KeepaliveDue(k) => KeepaliveTells(a, k);
    case NewHandshakeDue(hs) =>
      HandshakeTells(a.(session := if a.session.Some? then Some(a.session.value.(newHandshakeAt := None)) else None), hs);
    case PersistentDue(now, k, hs) =>
      KeepaliveTells(a.(clock := now, lastSend := now), k);
      HandshakeTells(a.(clock := now, lastSend := now), hs);
    case _ =>
  }

  lemma ReconfigureTells(a: ActorState, e: Event)
    requires Told(a) && e.Reconfigure?
    ensures Told(Step(a, e))
  {
    hide EnsureHandshake;
    var machine := match e.psk case Keep => a.machine case Clear => a.machine.(psk := None) case Set(k) => a.machine.(psk := Some(k));
    var persistent := match e.keepalive case Keep => a.persistentKeepalive case Clear => None case Set(i) => Some(i);
    if e.endpoint.Some? {
      HandshakeTells(a.(machine := machine.(endpoint := Some(e.endpoint.value)), persistentKeepalive := persistent), e.hs);
    }
  }

  lemma {:induction false} RunTells(a: ActorState, events: seq<Event>)
    requires Told(a)
    ensures Told(Run(a, events))
    decreases |events|
  {
    hide Told, Step;
    if events != [] {
      StepTells(a, events[0]);
      RunTells(Step(a, events[0]), events[1..]);
    }
  }

  /** In every reachable state the application has been told of a session
      exactly when the machine has one to send on. */
  lemma ReadyExactly(a: ActorState)
    requires AT.Reachable(a)
    ensures a.ready <==> a.machine.current.Some?
  {
    hide Run, ValidRun;
    var ourSecret: nat, peerKey: Term, psk: Option<Term>, keepalive: Option<nat>, events: seq<Event> :|
      && ValidRun(Spawn(ourSecret, peerKey, psk, keepalive), events, false)
      && a == Run(Spawn(ourSecret, peerKey, psk, keepalive), events);
    RunTells(Spawn(ourSecret, peerKey, psk, keepalive), events);
  }
}
