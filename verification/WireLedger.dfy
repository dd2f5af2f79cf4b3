/** What is on the wire: the sealed payloads, one data packet each, in order. */
module WireLedger {
  import opened Wrappers
  import opened Crypto
  import opened TransportData
  import opened PeerSpec
  import opened ActorSpec
  import opened ActorTheorems
  import opened ArmEffects
  import H = Handshake

  /** A data packet that carries the payload. */
  ghost predicate Carries(packet: seq<Octet>, payload: Payload) {
    exists receiver: nat, counter: nat, key: Term :: packet == DataPacket(receiver, counter, key, payload)
  }

  ghost predicate AllCarry(packets: seq<seq<Octet>>, payloads: seq<Payload>) {
    |packets| == |payloads| && forall k | 0 <= k < |packets| :: Carries(packets[k], payloads[k])
  }

  ghost predicate Ledger(a: ActorState) {
    AllCarry(Flatten(a.wire), a.history.sealed)
  }

  predicate SameLedger(a: ActorState, b: ActorState) {
    b.wire == a.wire && b.history.sealed == a.history.sealed
  }

  lemma {:induction false} FlattenAppend(x: seq<Batch>, y: seq<Batch>)
    ensures Flatten(x + y) == Flatten(x) + Flatten(y)
    decreases |x|
  {
    if x == [] {
      assert x + y == y;
    } else {
      assert (x + y)[1..] == x[1..] + y;
      FlattenAppend(x[1..], y);
    }
  }

  lemma SealedCarry(m: PeerState, now: nat, payloads: seq<Payload>)
    ensures var packets := SealAll(m, now, payloads).1; AllCarry(packets, payloads[..|packets|])
  {
    hide SealAll, DataPacket;
    SealedPackets(m, now, payloads);
    var packets := SealAll(m, now, payloads).1;
    forall k | 0 <= k < |packets| ensures Carries(packets[k], payloads[..|packets|][k]) {
      var s := m.current.value;
      assert packets[k] == DataPacket(s.keys.peerIndex, s.sendCounter + k, s.keys.sendKey, payloads[k]);
    }
  }

  lemma FlushLedger(a: ActorState, payloads: seq<Payload>, f: FlushInput)
    requires Ledger(a)
    ensures Ledger(FlushSends(a, payloads, f))
  {
    hide SealAll, FlushSends, BatchesOf, AnySent, Carries;
    var packets := SealAll(a.machine, f.now, payloads).1;
    var batches := BatchesOf(payloads, packets, 0, f.gso);
    FlushEffect(a, payloads, f);
    BatchesPartition(payloads, packets, 0, f.gso);
    FlattenAppend(a.wire, batches);
    SealedCarry(a.machine, f.now, payloads);
    assert packets[0..] == packets;
  }

  lemma EstablishedLedger(a: ActorState, initiator: bool, est: EstablishedInput)
    requires Ledger(a)
    ensures Ledger(SessionEstablished(a, initiator, est))
  {
    hide FlushSends, SendKeepalive, Carries, AllCarry;
    FlushLedger(a.(staged := []), a.staged, est.flush);
    KeepaliveEffect(FlushStaged(a, est.flush), est.keepalive);
  }

  lemma ReceiptLedger(a: ActorState, e: Event)
    requires Ledger(a) && e.RecvData?
    ensures Ledger(Step(a, e))
  {
    hide EnsureHandshake, SessionEstablished, SessionState.Receive, AllCarry;
    forall b: ActorState
      ensures SameLedger(b, EnsureHandshake(b, e.hs))
      ensures Ledger(b) ==> Ledger(SessionEstablished(b, false, e.est))
    {
      HandshakeEffect(b, 0, e.hs);
      if Ledger(b) { EstablishedLedger(b, false, e.est); }
    }
  }

  lemma AdoptionLedger(a: ActorState, e: Event)
    requires Ledger(a) && e.RecvResp?
    ensures Ledger(Step(a, e))
  {
    hide SessionEstablished, H.ResponseReceived, H.FinishInitiator, AllCarry;
    forall b: ActorState ensures Ledger(b) ==> Ledger(SessionEstablished(b, true, e.est)) {
      if Ledger(b) { EstablishedLedger(b, true, e.est); }
    }
  }

  lemma StepLedger(a: ActorState, e: Event)
    requires Ledger(a)
    ensures Ledger(Step(a, e))
  {
    hide SendHandshake, EnsureHandshake, FlushSends, SendKeepalive, OnRecvData, OnRecvResp, OnConnect, OnReconfigure,
         PeerState.Respond, AllCarry;
    match e
    case Connect(_, _) => ReconfigureEffect(a, e);
    case Reconfigure(_, _, _, _) => ReconfigureEffect(a, e);
    case SendData(payloads, f) =>
      FlushLedger(a.(history := a.history.(submitted := a.history.submitted + payloads)), payloads, f);
    case RecvData(_, _, _, _, _, _, _) => ReceiptLedger(a, e);
    case RecvResp(_, _, _, _) => AdoptionLedger(a, e);
    case HandshakeDue(now, hs) =>
      if a.handshake.Some? { HandshakeEffect(a.(clock := now), a.handshake.value.firstSent, hs); }
    case KeepaliveDue(k) => KeepaliveEffect(a, k);
    case NewHandshakeDue(hs) =>
      HandshakeEffect(a.(session := if a.session.Some? then Some(a.session.value.(newHandshakeAt := None)) else None), 0, hs);
    case PersistentDue(now, k, hs) =>
      KeepaliveEffect(a.(clock := now, lastSend := now), k);
      HandshakeEffect(a.(clock := now, lastSend := now), 0, hs);
    case _ =>
  }

  lemma {:induction false} RunLedger(a: ActorState, events: seq<Event>)
    requires Ledger(a)
    ensures Ledger(Run(a, events))
    decreases |events|
  {
    hide Ledger, Step;
    if events != [] {
      StepLedger(a, events[0]);
      RunLedger(Step(a, events[0]), events[1..]);
    }
  }

  /** In every reachable state the trains handed to the socket, concatenated, are
      exactly one data packet for each sealed payload, carrying it, in order. */
  lemma WireCarriesSealed(a: ActorState)
    requires Reachable(a)
    ensures var packets := Flatten(a.wire);
            && |packets| == |a.history.sealed|
            && forall k | 0 <= k < |packets| :: Carries(packets[k], a.history.sealed[k])
  {
    hide Run, ValidRun, Carries;
    var ourSecret: nat, peerKey: Term, psk: Option<Term>, keepalive: Option<nat>, events: seq<Event> :|
      && ValidRun(Spawn(ourSecret, peerKey, psk, keepalive), events, false)
      && a == Run(Spawn(ourSecret, peerKey, psk, keepalive), events);
    RunLedger(Spawn(ourSecret, peerKey, psk, keepalive), events);
  }

  /** A data packet carries one payload only, so the wire determines what was sealed. */
  lemma CarriesOne(packet: seq<Octet>, x: Payload, y: Payload)
    requires Carries(packet, x) && Carries(packet, y)
    ensures x == y
  {
    hide Header, Seal, Open;
    var r: nat, c: nat, k: Term :| packet == DataPacket(r, c, k, x);
    var r': nat, c': nat, k': Term :| packet == DataPacket(r', c', k', y);
    assert packet[PAYLOAD_OFFSET..] == Seal(k, c, EMPTY, x) && packet[PAYLOAD_OFFSET..] == Seal(k', c', EMPTY, y);
    OpenOfSeal(k, c, EMPTY, k, c, EMPTY, x);
    OpenOfSeal(k, c, EMPTY, k', c', EMPTY, y);
  }
}
