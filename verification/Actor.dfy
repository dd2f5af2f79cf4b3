/** The driver in place: each method is one function of the peer actor and
    leaves exactly the state its specification names. */
module Actor {
  import opened Wrappers
  import opened Crypto
  import opened Timing
  import opened TransportData
  import opened PeerSpec
  import Spec = ActorSpec
  import opened ActorSpec
  import H = Handshake

  class PeerActor {
    const ourSecret: nat
    var machine: PeerState
    var persistentKeepalive: Option<nat>
    var lastSend: nat
    var handshake: Option<Attempt>
    var session: Option<Timers>
    var ready: bool
    var staged: seq<Payload>
    var control: seq<Control>
    var wire: seq<Batch>
    var inbound: seq<Payload>
    ghost var clock: nat
    ghost var history: History

    ghost predicate Valid()
      reads this
    {
      |staged| <= MAX_STAGED
    }

    ghost function View(): ActorState
      reads this
    {
      ActorState(ourSecret, machine, clock, persistentKeepalive, lastSend, handshake, session, ready, staged, control,
                 wire, inbound, history)
    }

    constructor (ourSecret: nat, peerKey: Term, psk: Option<Term>, persistentKeepalive: Option<nat>)
      ensures Valid() && View() == Spawn(ourSecret, peerKey, psk, persistentKeepalive)
    {
      this.ourSecret := ourSecret;
      machine := NewPeer(peerKey).(psk := psk);
      this.persistentKeepalive, lastSend := persistentKeepalive, 0;
      handshake, session, ready := None, None, false;
      staged, control, wire, inbound := [], [], [], [];
      clock, history := 0, History([], [], [], 0);
    }

    method RetireIndex(index: Option<nat>)
      modifies this`control
      ensures control == old(control) + RetireOpt(index)
    {
      if index.Some? {
        control := control + [Retire(index.value)];
      }
    }

    /** Tells the router which index goes and which comes, before the handshake message leaves. */
    method Announce(replaced: Option<nat>, index: nat, now: nat, sent: bool)
      modifies this`control, this`lastSend
      ensures control == old(control) + RetireOpt(replaced) + [Bind(index)]
      ensures lastSend == if sent then now else old(lastSend)
    {
      RetireIndex(replaced);
      control := control + [Bind(index)];
      if sent {
        lastSend := now;
      }
    }

    method SendHandshake(firstSent: nat, i: HsInput)
      requires Valid()
      modifies this
      ensures Valid() && View() == Spec.SendHandshake(old(View()), firstSent, i)
    {
      hide H.Initiate;
      if machine.endpoint.None? {
        return;
      }
      ghost var earlier := if handshake.None? then 0 else history.initiations;
      clock := i.now;
      handshake := Some(Attempt(firstSent, i.now + REKEY_TIMEOUT + i.jitter * MS));
      history := history.(initiations := earlier);
      var (machine', r) := machine.Initiate(ourSecret, i.values, H.INIT_MSG_LENGTH);
      if r.Err? {
        return;
      }
      machine := machine';
      history := history.(initiations := earlier + 1);
      Announce(r.value.0, i.values.index, i.now, i.sent);
    }

    method EnsureHandshake(i: HsInput)
      requires Valid()
      modifies this
      ensures Valid() && View() == Spec.EnsureHandshake(old(View()), i)
    {
      hide Spec.SendHandshake;
      if handshake.None? {
        clock := i.first;
        SendHandshake(i.first, i);
      }
    }

    /** Queues payloads behind those already waiting, dropping the oldest when full. */
    method Stage(payloads: seq<Payload>)
      requires Valid()
      modifies this`staged
      ensures Valid() && staged == LastStaged(old(staged) + payloads)
    {
      for i := 0 to |payloads|
        invariant |staged| <= MAX_STAGED
        invariant staged == LastStaged(old(staged) + payloads[..i])
      {
        ghost var q := old(staged) + payloads[..i];
        assert old(staged) + payloads[..i + 1] == q + [payloads[i]];
        if |staged| == MAX_STAGED {
          staged := staged[1..];
        }
        staged := staged + [payloads[i]];
      }
      assert payloads[..|payloads|] == payloads;
    }

    method FlushStaged(f: FlushInput)
      requires Valid()
      modifies this
      ensures Valid() && View() == Spec.FlushStaged(old(View()), f)
    {
      hide Spec.FlushSends;
      var payloads := staged;
      staged := [];
      FlushSends(payloads, f);
    }

    /** The end of the train that starts at `start`: equal sizes, within the segment limit. */
    method FindBatchEnd(payloads: seq<Payload>, start: nat, maxSegments: nat) returns (end: nat)
      requires start < |payloads|
      ensures end == BatchEnd(payloads, start, start + 1, maxSegments)
    {
      end := start + 1;
      while end < |payloads| && end - start < maxSegments && PacketLen(|payloads[end]|) == PacketLen(|payloads[start]|)
        invariant start < end <= |payloads|
        invariant BatchEnd(payloads, start, end, maxSegments) == BatchEnd(payloads, start, start + 1, maxSegments)
      {
        end := end + 1;
      }
    }

    /** Seals payloads `start..end` in order until the machine refuses one. */
    method SealBatch(payloads: seq<Payload>, start: nat, end: nat, now: nat, ghost packets: seq<seq<Octet>>, ghost last: PeerState)
      returns (batch: seq<seq<Octet>>, stalled: bool)
      requires start < end <= |payloads| && SealAll(machine, now, payloads[start..]) == (last, packets)
      modifies this`machine
      ensures |batch| <= end - start && (stalled <==> |batch| < end - start)
      ensures batch <= packets && SealAll(machine, now, payloads[start + |batch|..]) == (last, packets[|batch|..])
      ensures stalled ==> |packets| == |batch|
      ensures batch != [] ==> machine.endpoint.Some?
    {
      hide SealAll, DataPacket;
      batch, stalled := [], false;
      assert packets[0..] == packets;
      while |batch| < end - start && !stalled
        invariant |batch| <= end - start && batch <= packets
        invariant SealAll(machine, now, payloads[start + |batch|..]) == (last, packets[|batch|..])
        invariant stalled ==> |batch| < end - start && |packets| == |batch|
        invariant batch != [] ==> machine.endpoint.Some?
        decreases end - start - |batch|, !stalled
      {
        var payload := payloads[start + |batch|];
        SealOne(machine, now, payloads, start + |batch|, packets, |batch|, last);
        var (machine', packet) := machine.Encrypt(now, payload, PacketLen(|payload|));
        if packet.Ok? {
          machine := machine';
          batch := batch + [packet.value];
        } else {
          stalled := true;
        }
      }
    }

    /** Seals and sends one train from `start` on; reports how many packets it
        holds and whether sealing stalled inside it. */
    method SendTrain(payloads: seq<Payload>, start: nat, f: FlushInput, ghost packets: seq<seq<Octet>>, ghost last: PeerState)
      returns (n: nat, stalled: bool)
      requires start < |payloads| && start <= |packets| <= |payloads|
      requires SealAll(machine, f.now, payloads[start..]) == (last, packets[start..])
      modifies this`machine, this`wire
      ensures start + n <= |packets| && (stalled ==> start + n == |packets|) && (n == 0 ==> stalled)
      ensures SealAll(machine, f.now, payloads[start + n..]) == (last, packets[start + n..])
      ensures n == 0 ==> wire == old(wire)
      ensures n > 0 ==>
                var train := Batch(PacketLen(|payloads[start]|), packets[start..start + n]);
                && wire == old(wire) + [train]
                && BatchesOf(payloads, packets, start, f.gso) == [train] + BatchesOf(payloads, packets, start + n, f.gso)
    {
      hide SealAll, BatchesOf, BatchEnd, MaxBatchSegments;
      var segmentSize := PacketLen(|payloads[start]|);
      var end := FindBatchEnd(payloads, start, MaxBatchSegments(f.gso, segmentSize));
      var batch;
      batch, stalled := SealBatch(payloads, start, end, f.now, packets[start..], last);
      n := |batch|;
      assert packets[start..][n..] == packets[start + n..];
      if n > 0 {
        assert machine.endpoint.Some?;
        assert batch == packets[start..start + n];
        TrainStep(payloads, packets, start, f.gso, n);
        wire := wire + [Batch(segmentSize, batch)];
      }
    }

    /** Seals and sends what it can, in trains; reports how many payloads were
        sealed and whether any train left the socket. */
    method SealAndSend(payloads: seq<Payload>, f: FlushInput) returns (start: nat, sent: bool)
      requires payloads != []
      modifies this`machine, this`wire
      ensures var (last, packets) := SealAll(old(machine), f.now, payloads);
              var batches := BatchesOf(payloads, packets, 0, f.gso);
              && machine == last && start == |packets|
              && wire == old(wire) + batches
              && sent == AnySent(f.sends, |batches|)
    {
      hide SealAll, BatchesOf, AnySent;
      start, sent := 0, false;
      var stalled, trains := false, 0;
      ghost var (last, packets) := SealAll(machine, f.now, payloads);
      ghost var batches := BatchesOf(payloads, packets, 0, f.gso);
      ghost var done: seq<Batch> := [];
      assert payloads[0..] == payloads && packets[0..] == packets;
      NoneSent(f.sends);
      while start < |payloads| && !stalled
        invariant start <= |packets| <= |payloads|
        invariant SealAll(machine, f.now, payloads[start..]) == (last, packets[start..])
        invariant stalled ==> start == |packets|
        invariant wire == old(wire) + done && done + BatchesOf(payloads, packets, start, f.gso) == batches
        invariant trains == |done| && sent == AnySent(f.sends, trains)
        decreases |payloads| - start, !stalled
      {
        var n;
        n, stalled := SendTrain(payloads, start, f, packets, last);
        if n > 0 {
          OneMoreSent(f.sends, trains);
          sent := sent || (trains < |f.sends| && f.sends[trains]);
          trains := trains + 1;
          done := done + [Batch(PacketLen(|payloads[start]|), packets[start..start + n])];
        }
        start := start + n;
      }
      SealedNothing(machine, f.now, payloads, start, stalled, packets, last);
      NoTrains(payloads, packets, f.gso);
    }

    method Restage(rest: seq<Payload>, hs: HsInput)
      requires Valid()
      modifies this
      ensures Valid() && View() == Spec.Restage(old(View()), rest, hs)
    {
      hide Spec.EnsureHandshake;
      session := None;
      ghost var q := staged + rest;
      ghost var evicted := if |q| <= MAX_STAGED then 0 else |q| - MAX_STAGED;
      history := history.(fates := history.fates + Repeat(WasEvicted, evicted));
      Stage(rest);
      EnsureHandshake(hs);
    }

    method AfterSend(sent: bool, f: FlushInput)
      requires Valid()
      modifies this
      ensures Valid() && View() == Spec.AfterSend(old(View()), sent, f)
    {
      hide Spec.SendHandshake;
      var rekey := machine.RekeyDueToMessages();
      if sent {
        lastSend := f.now;
        if session.Some? {
          session := Some(session.value.DataSent(f.now, f.jitter));
          rekey := rekey || session.value.RekeyAfterSend(f.now);
        }
      }
      if rekey && handshake.None? {
        SendHandshake(f.now, f.hs);
      }
    }

    method FlushSends(payloads: seq<Payload>, f: FlushInput)
      requires Valid()
      modifies this
      ensures Valid() && View() == Spec.FlushSends(old(View()), payloads, f)
    {
      hide SealAll, BatchesOf, AnySent, Spec.Restage, Spec.AfterSend;
      if payloads == [] {
        return;
      }
      clock := f.now;
      var start, sent := SealAndSend(payloads, f);
      history := history.(sealed := history.sealed + payloads[..start], fates := history.fates + Repeat(WasSealed, start));
      if start < |payloads| {
        Restage(payloads[start..], f.hs);
      } else {
        AfterSend(sent, f);
      }
    }

    method SendKeepalive(k: KeepaliveInput)
      requires Valid()
      modifies this
      ensures Valid() && View() == Spec.SendKeepalive(old(View()), k)
    {
      hide DataPacket, Spec.EnsureHandshake;
      clock := k.now;
      var (machine', packet) := machine.Encrypt(k.now, [], PacketLen(0));
      if packet.Err? {
        session := None;
        return;
      }
      machine := machine';
      assert machine.endpoint.Some?;
      if session.Some? {
        session := Some(session.value.KeepaliveSent());
      }
      if k.sent {
        lastSend := k.now;
      }
      if machine.RekeyDueToMessages() || (k.sent && session.Some? && session.value.RekeyAfterSend(k.now)) {
        EnsureHandshake(k.hs);
      }
    }

    method SessionEstablished(initiator: bool, e: EstablishedInput)
      requires Valid()
      modifies this
      ensures Valid() && View() == Spec.SessionEstablished(old(View()), initiator, e)
    {
      hide Spec.FlushStaged, Spec.SendKeepalive;
      var hadStaged := staged != [];
      FlushStaged(e.flush);
      if initiator && !hadStaged {
        SendKeepalive(e.keepalive);
      }
      ready := true;
    }

    method Connect(address: Address, hs: HsInput)
      requires Valid()
      modifies this
      ensures Valid() && View() == OnConnect(old(View()), address, hs)
    {
      hide Spec.EnsureHandshake;
      machine := machine.(endpoint := Some(address));
      EnsureHandshake(hs);
    }

    method ApplyUpdate(psk: Update<Term>, keepalive: Update<nat>, endpoint: Option<Address>, hs: HsInput)
      requires Valid()
      modifies this
      ensures Valid() && View() == OnReconfigure(old(View()), psk, keepalive, endpoint, hs)
    {
      hide Spec.EnsureHandshake;
      match psk {
        case Keep =>
        case Clear => machine := machine.(psk := None);
        case Set(k) => machine := machine.(psk := Some(k));
      }
      match keepalive {
        case Keep =>
        case Clear => persistentKeepalive := None;
        case Set(interval) => persistentKeepalive := Some(interval);
      }
      if endpoint.Some? {
        machine := machine.(endpoint := Some(endpoint.value));
        EnsureHandshake(hs);
      }
    }

    method Submit(payloads: seq<Payload>, f: FlushInput)
      requires Valid()
      modifies this
      ensures Valid() && View() == OnSendData(old(View()), payloads, f)
    {
      hide Spec.FlushSends;
      history := history.(submitted := history.submitted + payloads);
      FlushSends(payloads, f);
    }

    method ReceiveData(now: nat, packet: seq<Octet>, receiver: nat, source: Address, room: bool, est: EstablishedInput, hs: HsInput)
      requires Valid()
      modifies this
      ensures Valid() && View() == OnRecvData(old(View()), now, packet, receiver, source, room, est, hs)
    {
      hide SessionState.Receive, Spec.SessionEstablished, Spec.EnsureHandshake;
      clock := now;
      var (machine', recv) := machine.Decrypt(now, receiver, packet, source);
      if recv.Err? {
        return;
      }
      var Recv(payload, confirmed, unmapped) := recv.value;
      machine := machine';
      RetireIndex(unmapped);
      if confirmed {
        session := Some(NewTimers(false, now));
      }
      if session.Some? {
        session := Some(session.value.PacketReceived(now, payload != []));
      }
      var rekey := session.Some? && session.value.RekeyAfterReceive(now);
      if payload != [] && room {
        inbound := inbound + [payload];
      }
      if confirmed {
        SessionEstablished(false, est);
      }
      if rekey {
        EnsureHandshake(hs);
      }
    }

    method ReceiveInit(now: nat, received: H.InitReceived, values: HandshakeValues, source: Address, sent: bool)
      requires Valid()
      modifies this
      ensures Valid() && View() == OnRecvInit(old(View()), now, received, values, source, sent)
    {
      hide H.Respond;
      clock := now;
      var (machine', r) := machine.Respond(now, received, values, source, H.RESP_MSG_LENGTH);
      if r.Err? {
        return;
      }
      machine := machine';
      Announce(r.value.0, values.index, now, sent);
    }

    method ReceiveResponse(now: nat, msg: H.RespMsg, source: Address, est: EstablishedInput)
      requires Valid()
      modifies this
      ensures Valid() && View() == OnRecvResp(old(View()), now, msg, source, est)
    {
      hide H.ResponseReceived, Spec.SessionEstablished;
      clock := now;
      var (machine', r) := machine.HandshakeResponse(ourSecret, now, msg, source);
      if r.Err? {
        return;
      }
      machine := machine';
      RetireIndex(r.value);
      handshake := None;
      session := Some(NewTimers(true, now));
      SessionEstablished(true, est);
    }

    method HandshakeDue(now: nat, hs: HsInput)
      requires Valid()
      modifies this
      ensures Valid() && View() == OnHandshakeDue(old(View()), now, hs)
    {
      hide Spec.SendHandshake;
      if handshake.None? {
        return;
      }
      clock := now;
      if Since(now, handshake.value.firstSent) >= REKEY_ATTEMPT_TIME {
        handshake := None;
        history := history.(fates := history.fates + Repeat(WasCleared, |staged|));
        staged := [];
        var (machine', abandoned) := machine.Abandon();
        machine := machine';
        RetireIndex(abandoned);
      } else {
        SendHandshake(handshake.value.firstSent, hs);
      }
    }

    /** A cookie reply: the peer's generator takes it, nothing else moves. */
    method ReceiveCookie(ghost now: nat)
      requires Valid()
      modifies this`clock
      ensures Valid() && View() == Step(old(View()), RecvCookie(now))
    {
      clock := now;
    }

    method SessionExpired()
      requires Valid()
      modifies this
      ensures Valid() && View() == Step(old(View()), Event.SessionExpired)
    {
      session := None;
    }

    method NewHandshakeDue(hs: HsInput)
      requires Valid()
      modifies this
      ensures Valid() && View() == OnNewHandshakeDue(old(View()), hs)
    {
      hide Spec.EnsureHandshake;
      if session.Some? {
        session := Some(session.value.(newHandshakeAt := None));
      }
      EnsureHandshake(hs);
    }

    method PersistentKeepaliveDue(now: nat, k: KeepaliveInput, hs: HsInput)
      requires Valid()
      modifies this
      ensures Valid() && View() == OnPersistentDue(old(View()), now, k, hs)
    {
      hide Spec.SendKeepalive, Spec.EnsureHandshake;
      clock := now;
      lastSend := now;
      if session.Some? && session.value.Usable(now) {
        SendKeepalive(k);
      } else {
        EnsureHandshake(hs);
      }
    }
  }

  // ---------- unfolding the specification one payload or one train at a time ----------

  lemma SealOne(m: PeerState, now: nat, payloads: seq<Payload>, i: nat, packets: seq<seq<Octet>>, k: nat, last: PeerState)
    requires i < |payloads| && k <= |packets|
    requires SealAll(m, now, payloads[i..]) == (last, packets[k..])
    ensures var (m', packet) := m.Encrypt(now, payloads[i], PacketLen(|payloads[i]|));
            && (packet.Err? ==> k == |packets|)
            && (packet.Ok? ==>
                  && k < |packets| && packets[k] == packet.value
                  && SealAll(m', now, payloads[i + 1..]) == (last, packets[k + 1..]))
  {
    hide DataPacket;
    var (m', packet) := m.Encrypt(now, payloads[i], PacketLen(|payloads[i]|));
    assert payloads[i..][1..] == payloads[i + 1..];
    if packet.Ok? {
      assert packets[k..] == [packet.value] + SealAll(m', now, payloads[i + 1..]).1;
      assert packets[k..][1..] == packets[k + 1..];
    }
  }

  /** When the loop ends nothing sealable is left. */
  lemma SealedNothing(m: PeerState, now: nat, payloads: seq<Payload>, start: nat, stalled: bool, packets: seq<seq<Octet>>,
                      last: PeerState)
    requires start <= |packets| <= |payloads| && (start == |payloads| || stalled) && (stalled ==> start == |packets|)
    requires SealAll(m, now, payloads[start..]) == (last, packets[start..])
    ensures start == |packets| && m == last
  {
    hide DataPacket;
    assert packets[start..] == [];
  }

  lemma TrainStep(payloads: seq<Payload>, packets: seq<seq<Octet>>, start: nat, gso: nat, n: nat)
    requires start < |packets| <= |payloads| && n > 0
    requires var end := BatchEnd(payloads, start, start + 1, MaxBatchSegments(gso, PacketLen(|payloads[start]|)));
             start + n == Min(end, |packets|)
    ensures BatchesOf(payloads, packets, start, gso) ==
            [Batch(PacketLen(|payloads[start]|), packets[start..start + n])] + BatchesOf(payloads, packets, start + n, gso)
  {
  }

  lemma NoTrains(payloads: seq<Payload>, packets: seq<seq<Octet>>, gso: nat)
    requires |packets| <= |payloads|
    ensures BatchesOf(payloads, packets, |packets|, gso) == []
  {
  }

  lemma NoneSent(sends: seq<bool>)
    ensures !AnySent(sends, 0)
  {
  }

  lemma OneMoreSent(sends: seq<bool>, n: nat)
    ensures AnySent(sends, n + 1) <==> AnySent(sends, n) || (n < |sends| && sends[n])
  {
  }
}
