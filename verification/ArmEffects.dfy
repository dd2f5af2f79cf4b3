/** What the driver's building blocks leave alone, and what they change. */
module ArmEffects {
  import opened Wrappers
  import opened TransportData
  import opened Replay
  import opened PeerSpec
  import opened ActorSpec
  import opened ActorRuns
  import H = Handshake

  /** The key the actor signs with and what it has handed to the application. */
  predicate SameOwner(a: ActorState, b: ActorState) {
    b.ourSecret == a.ourSecret && b.inbound == a.inbound
  }

  /** Only the attempt and what sending an initiation touches may differ. */
  predicate OnlyHandshake(a: ActorState, b: ActorState) {
    b == a.(clock := b.clock, handshake := b.handshake, machine := a.machine.(pending := b.machine.pending),
            control := b.control, lastSend := b.lastSend, history := a.history.(initiations := b.history.initiations))
  }

  lemma HandshakeEffect(a: ActorState, firstSent: nat, hs: HsInput)
    ensures OnlyHandshake(a, SendHandshake(a, firstSent, hs)) && OnlyHandshake(a, EnsureHandshake(a, hs))
  {
    hide H.Initiate;
  }

  /** Sealing one payload uses one counter of the current session. */
  lemma SealedPacket(m: PeerState, now: nat, payload: Payload)
    ensures var (m', packet) := m.Encrypt(now, payload, PacketLen(|payload|));
            packet.Ok? ==>
              && m.current.Some? && m.current.value.sendCounter < REJECT_AFTER_MESSAGES
              && var s := m.current.value;
                 && m' == m.(current := Some(s.(sendCounter := s.sendCounter + 1)))
                 && packet.value == DataPacket(s.keys.peerIndex, s.sendCounter, s.keys.sendKey, payload)
  {
    hide DataPacket;
  }

  /** What each sealed packet is: the payload under the next counters of the current session. */
  lemma {:induction false} SealedPackets(m: PeerState, now: nat, payloads: seq<Payload>)
    ensures var (m', packets) := SealAll(m, now, payloads);
            && (packets != [] ==> m.current.Some?)
            && (m.current.Some? ==>
                  var s := m.current.value;
                  && m' == m.(current := Some(s.(sendCounter := s.sendCounter + |packets|)))
                  && forall i: nat | i < |packets| ::
                       && s.sendCounter + i < REJECT_AFTER_MESSAGES
                       && packets[i] == DataPacket(s.keys.peerIndex, s.sendCounter + i, s.keys.sendKey, payloads[i]))
            && (m.current.None? ==> m' == m)
    decreases |payloads|
  {
    hide DataPacket, SessionState.Send;
    if payloads != [] {
      var (m1, packet) := m.Encrypt(now, payloads[0], PacketLen(|payloads[0]|));
      SealedPacket(m, now, payloads[0]);
      if packet.Ok? {
        SealedPackets(m1, now, payloads[1..]);
        var packets, rest := SealAll(m, now, payloads).1, SealAll(m1, now, payloads[1..]).1;
        assert packets == [packet.value] + rest;
        var s := m.current.value;
        forall i: nat | i < |packets|
          ensures s.sendCounter + i < REJECT_AFTER_MESSAGES
          ensures packets[i] == DataPacket(s.keys.peerIndex, s.sendCounter + i, s.keys.sendKey, payloads[i])
        {
          if i > 0 { assert packets[i] == rest[i - 1]; }
        }
      }
    }
  }

  /** A flush seals a prefix and sends it in trains; only a flush that sealed everything keeps the session's timers. */
  lemma FlushEffect(a: ActorState, payloads: seq<Payload>, f: FlushInput)
    ensures var (machine, packets) := SealAll(a.machine, f.now, payloads);
            var batches := BatchesOf(payloads, packets, 0, f.gso);
            var b := FlushSends(a, payloads, f);
            && b.machine == machine.(pending := b.machine.pending)
            && SameOwner(a, b) && b.wire == a.wire + batches
            && b.history.sealed == a.history.sealed + payloads[..|packets|]
            && (payloads == [] ==> b == a)
            && b.session == if |packets| < |payloads| || a.session.None? then None
                            else Some(if payloads != [] && AnySent(f.sends, |batches|)
                                      then a.session.value.DataSent(f.now, f.jitter) else a.session.value)
  {
    hide SealAll, BatchesOf, AnySent, SendHandshake, EnsureHandshake, Repeat, LastStaged, PeerState.RekeyDueToMessages;
    if payloads == [] {
      EmptyFlush(a, f);
    } else {
      var packets := SealAll(a.machine, f.now, payloads).1;
      var sent := AnySent(f.sends, |BatchesOf(payloads, packets, 0, f.gso)|);
      var c := AfterSealing(a, payloads, f);
      if |packets| < |payloads| {
        RestageEffect(c, payloads[|packets|..], f.hs);
      } else {
        AfterSendEffect(c, sent, f);
      }
    }
  }

  lemma EmptyFlush(a: ActorState, f: FlushInput)
    ensures SealAll(a.machine, f.now, []) == (a.machine, []) && BatchesOf([], [], 0, f.gso) == []
  {
  }

  lemma RestageEffect(a: ActorState, rest: seq<Payload>, hs: HsInput)
    ensures var b := Restage(a, rest, hs);
            && b.machine == a.machine.(pending := b.machine.pending) && SameOwner(a, b) && b.wire == a.wire
            && b.history.sealed == a.history.sealed && b.session == None
  {
    hide EnsureHandshake, LastStaged, Repeat;
    var q := a.staged + rest;
    var evicted := if |q| <= MAX_STAGED then 0 else |q| - MAX_STAGED;
    HandshakeEffect(
      a.(session := None, staged := LastStaged(q),
         history := a.history.(fates := a.history.fates + Repeat(WasEvicted, evicted))), 0, hs);
  }

  lemma AfterSendEffect(a: ActorState, sent: bool, f: FlushInput)
    ensures var b := AfterSend(a, sent, f);
            && b.machine == a.machine.(pending := b.machine.pending) && SameOwner(a, b) && b.wire == a.wire
            && b.history.sealed == a.history.sealed
            && b.session == if a.session.None? then None
                            else Some(if sent then a.session.value.DataSent(f.now, f.jitter) else a.session.value)
  {
    hide SendHandshake, PeerState.RekeyDueToMessages;
    var a1 := if sent
              then a.(lastSend := f.now,
                      session := if a.session.Some? then Some(a.session.value.DataSent(f.now, f.jitter)) else None)
              else a;
    HandshakeEffect(a1, f.now, f.hs);
  }

  /** A keepalive is one empty packet; a refused one gives the session up. */
  lemma KeepaliveEffect(a: ActorState, k: KeepaliveInput)
    ensures var (machine, packet) := a.machine.Encrypt(k.now, [], PacketLen(0));
            var b := SendKeepalive(a, k);
            && b.machine == machine.(pending := b.machine.pending) && SameOwner(a, b) && b.wire == a.wire
            && b.history.sealed == a.history.sealed
            && b.session == if packet.Err? || a.session.None? then None else Some(a.session.value.KeepaliveSent())
  {
    hide EnsureHandshake, DataPacket, PeerState.RekeyDueToMessages;
    var (machine, packet) := a.machine.Encrypt(k.now, [], PacketLen(0));
    if packet.Ok? {
      var a1 := a.(clock := k.now, machine := machine,
                   session := if a.session.Some? then Some(a.session.value.KeepaliveSent()) else None,
                   lastSend := if k.sent then k.now else a.lastSend);
      HandshakeEffect(a1, 0, k.hs);
      assert SendKeepalive(a, k) == a1 || SendKeepalive(a, k) == EnsureHandshake(a1, k.hs);
    }
  }

  /** Connecting and reconfiguring touch no session. */
  lemma ReconfigureEffect(a: ActorState, e: Event)
    requires e.Connect? || e.Reconfigure?
    ensures var b := Step(a, e);
            && b.machine == a.machine.(psk := b.machine.psk, endpoint := b.machine.endpoint, pending := b.machine.pending)
            && (a.machine.endpoint.Some? ==> b.machine.endpoint.Some?)
            && SameOwner(a, b) && b.session == a.session && b.wire == a.wire && b.history.sealed == a.history.sealed
  {
    hide OnConnect;
    if e.Connect? {
      ConnectEffect(a, e.address, e.hs);
    } else {
      var machine := match e.psk case Keep => a.machine case Clear => a.machine.(psk := None) case Set(k) => a.machine.(psk := Some(k));
      var persistent := match e.keepalive case Keep => a.persistentKeepalive case Clear => None case Set(i) => Some(i);
      var c := a.(machine := machine, persistentKeepalive := persistent);
      assert Step(a, e) == if e.endpoint.Some? then OnConnect(c, e.endpoint.value, e.hs) else c;
      if e.endpoint.Some? { ConnectEffect(c, e.endpoint.value, e.hs); }
    }
  }

  lemma ConnectEffect(a: ActorState, address: Address, hs: HsInput)
    ensures var b := OnConnect(a, address, hs);
            && b.machine == a.machine.(endpoint := Some(address), pending := b.machine.pending)
            && SameOwner(a, b) && b.session == a.session && b.wire == a.wire && b.history.sealed == a.history.sealed
  {
    hide EnsureHandshake;
    HandshakeEffect(a.(machine := a.machine.(endpoint := Some(address))), 0, hs);
  }
}
