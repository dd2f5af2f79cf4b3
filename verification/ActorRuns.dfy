/** What every run of the driver keeps: order and conservation of payloads, no
    stranded payloads or orphan handshakes, agreement of the index messages with
    the machine, exclusive timers and the retransmission bound. */
module ActorRuns {
  import opened Wrappers
  import opened Crypto
  import opened Replay
  import opened Timing
  import opened TransportData
  import opened PeerSpec
  import opened ActorSpec
  import H = Handshake

  /** The most initiations one attempt can make. */
  const MAX_INITIATIONS: nat := 18

  // ---------- invariants ----------

  /** The submitted payloads whose fate was to be sealed, in submission order. */
  function SealedOf(submitted: seq<Payload>, fates: seq<Fate>): seq<Payload>
    requires |submitted| == |fates|
  {
    if fates == [] then []
    else
      var n := |fates| - 1;
      SealedOf(submitted[..n], fates[..n]) + if fates[n] == WasSealed then [submitted[n]] else []
  }

  /** Every submitted payload either met exactly one fate or still waits, and
      the queue is exactly the unfated tail of the submissions. */
  predicate QueueOk(submitted: seq<Payload>, fates: seq<Fate>, sealed: seq<Payload>, queue: seq<Payload>) {
    && |fates| <= |submitted|
    && submitted[|fates|..] == queue
    && sealed == SealedOf(submitted[..|fates|], fates)
  }

  predicate MachineOk(m: PeerState) {
    && (m.current.Some? || m.next.Some? || m.previous.Some? ==> m.endpoint.Some?)
    && (m.previous.Some? ==> m.current.Some?)
    && (m.pending.Some? ==> m.pending.value.state.index == m.pending.value.ourIndex)
  }

  predicate Apart(a: Option<nat>, b: Option<nat>) {
    a.Some? && b.Some? ==> a != b
  }

  predicate IndicesApart(m: PeerState) {
    var (p, c, n, v) := (PendingIndex(m), IndexOf(m.current), IndexOf(m.next), IndexOf(m.previous));
    Apart(p, c) && Apart(p, n) && Apart(p, v) && Apart(c, n) && Apart(c, v) && Apart(n, v)
  }

  /** The index messages sent so far amount to exactly the machine's indices. */
  predicate IndexOk(control: seq<Control>, m: PeerState) {
    Bound({}, control) == Live(m) && IndicesApart(m)
  }

  predicate AttemptOk(handshake: Option<Attempt>, initiations: nat) {
    && initiations <= MAX_INITIATIONS
    && (handshake.Some? ==>
          && handshake.value.retryAt >= handshake.value.firstSent + REKEY_TIMEOUT
          && handshake.value.retryAt >= handshake.value.firstSent + REKEY_TIMEOUT * initiations)
  }

  /** Holds at every point inside an arm as well; `incoming` are payloads
      submitted but not yet in the queue. */
  predicate Base(a: ActorState, incoming: seq<Payload>, drawsFresh: bool) {
    && |a.staged| <= MAX_STAGED
    && QueueOk(a.history.submitted, a.history.fates, a.history.sealed, a.staged + incoming)
    && MachineOk(a.machine)
    && (drawsFresh ==> IndexOk(a.control, a.machine))
    && (a.machine.pending.Some? ==> a.handshake.Some?)
    && AttemptOk(a.handshake, a.history.initiations)
    && (a.session.Some? ==> a.session.value.Exclusive())
  }

  /** Sealing is refused, and will be at any later time until a session is adopted. */
  predicate Stalled(m: PeerState, now: nat) {
    || m.endpoint.None? || m.current.None? || m.current.value.ExpiredAt(now)
    || m.current.value.sendCounter >= REJECT_AFTER_MESSAGES
  }

  /** Holds between arms: waiting payloads mean sealing is refused, and
      something will resolve that: a scheduled attempt, an unconfirmed session,
      or learning an endpoint. */
  predicate Settled(a: ActorState) {
    a.staged != [] ==>
      && Stalled(a.machine, a.clock)
      && (a.handshake.Some? || a.machine.endpoint.None? || a.machine.next.Some?)
  }

  predicate Inv(a: ActorState, drawsFresh: bool) {
    Base(a, [], drawsFresh) && Settled(a)
  }

  // ---------- the machine ----------

  lemma StalledIsRefusal(m: PeerState, now: nat, payload: Payload)
    ensures Stalled(m, now) <==> m.Encrypt(now, payload, PacketLen(|payload|)).1.Err?
    ensures m.Encrypt(now, payload, PacketLen(|payload|)).1.Err? ==> m.Encrypt(now, payload, PacketLen(|payload|)).0 == m
  {
    hide DataPacket;
  }

  lemma StalledLater(m: PeerState, now: nat, later: nat)
    requires Stalled(m, now) && now <= later
    ensures Stalled(m, later)
  {
  }

  /** Machines that differ only in how much was sealed under the current session. */
  predicate SameButCounter(m: PeerState, m': PeerState) {
    && m' == m.(current := m'.current)
    && (m.current.None? <==> m'.current.None?)
    && (m.current.Some? ==> m'.current.value == m.current.value.(sendCounter := m'.current.value.sendCounter))
  }

  lemma {:induction false} SealAllStops(m: PeerState, now: nat, payloads: seq<Payload>)
    ensures var (m', packets) := SealAll(m, now, payloads);
            && SameButCounter(m, m')
            && (|packets| < |payloads| ==> Stalled(m', now))
            && (payloads != [] && Stalled(m, now) ==> packets == [] && m' == m)
    decreases |payloads|
  {
    hide DataPacket;
    if payloads != [] {
      StalledIsRefusal(m, now, payloads[0]);
      var (m', packet) := m.Encrypt(now, payloads[0], PacketLen(|payloads[0]|));
      if packet.Ok? {
        SealAllStops(m', now, payloads[1..]);
      }
    }
  }

  lemma SameLive(m: PeerState, m': PeerState)
    requires SameButCounter(m, m')
    ensures Live(m') == Live(m) && (IndicesApart(m) ==> IndicesApart(m')) && (MachineOk(m) ==> MachineOk(m'))
  {
  }

  // ---------- the queue ----------

  lemma {:induction false} SealedOfAppend(submitted: seq<Payload>, fates: seq<Fate>, more: seq<Payload>, f: Fate)
    requires |submitted| == |fates|
    ensures |submitted + more| == |fates + Repeat(f, |more|)|
    ensures SealedOf(submitted + more, fates + Repeat(f, |more|)) ==
            SealedOf(submitted, fates) + if f == WasSealed then more else []
    decreases |more|
  {
    var all, fs := submitted + more, fates + Repeat(f, |more|);
    if more == [] {
      assert all == submitted && fs == fates;
    } else {
      var n := |more| - 1;
      SealedOfAppend(submitted, fates, more[..n], f);
      assert all[..|all| - 1] == submitted + more[..n];
      assert fs[..|fs| - 1] == fates + Repeat(f, n);
      assert more == more[..n] + [more[n]];
    }
  }

  /** Taking a prefix off the waiting payloads, with one fate, keeps the books. */
  lemma Departs(submitted: seq<Payload>, fates: seq<Fate>, sealed: seq<Payload>, q: seq<Payload>, n: nat, f: Fate)
    requires QueueOk(submitted, fates, sealed, q) && n <= |q|
    ensures QueueOk(submitted, fates + Repeat(f, n), sealed + (if f == WasSealed then q[..n] else []), q[n..])
  {
    var k := |fates|;
    SealedOfAppend(submitted[..k], fates, q[..n], f);
    assert submitted[..k + n] == submitted[..k] + q[..n];
  }

  // ---------- the index messages ----------

  lemma BoundAppend(control: seq<Control>, retired: Option<nat>, added: Option<nat>)
    ensures Bound({}, control + RetireOpt(retired)) == Bound({}, control) - OptSet(retired)
    ensures added.Some? ==>
              Bound({}, control + RetireOpt(retired) + [Bind(added.value)]) ==
              Bound({}, control) - OptSet(retired) + {added.value}
  {
    var c := control + RetireOpt(retired);
    if retired.Some? {
      assert c[..|c| - 1] == control;
    } else {
      assert c == control;
    }
    if added.Some? {
      var d := c + [Bind(added.value)];
      assert d[..|d| - 1] == c;
    }
  }

  // ---------- handshakes ----------

  /** An attempt is started anew, or continued when its timer is due. */
  predicate AttemptDue(a: ActorState, firstSent: nat, i: HsInput) {
    && firstSent <= i.now
    && (a.handshake.Some? ==>
          && firstSent == a.handshake.value.firstSent
          && a.handshake.value.retryAt <= i.now
          && a.handshake.value.retryAt < firstSent + REKEY_ATTEMPT_TIME)
  }

  lemma InitiateIndices(m: PeerState, ourSecret: nat, v: HandshakeValues, control: seq<Control>, drawsFresh: bool)
    requires MachineOk(m) && (drawsFresh ==> IndexOk(control, m) && v.index !in Live(m))
    ensures var (m', r) := m.Initiate(ourSecret, v, H.INIT_MSG_LENGTH);
            && m' == m.(pending := m'.pending)
            && (r.Err? ==> m' == m)
            && (r.Ok? ==> m'.pending.Some? && MachineOk(m')
                          && (drawsFresh ==> IndexOk(control + RetireOpt(r.value.0) + [Bind(v.index)], m')))
  {
    BoundAppend(control, PendingIndex(m), Some(v.index));
  }

  lemma SendHandshakeKeeps(a: ActorState, firstSent: nat, i: HsInput, incoming: seq<Payload>, drawsFresh: bool)
    requires Base(a, incoming, drawsFresh) && AttemptDue(a, firstSent, i) && (drawsFresh ==> i.values.index !in Live(a.machine))
    ensures var b := SendHandshake(a, firstSent, i);
            && Base(b, incoming, drawsFresh) && b.staged == a.staged
            && b.machine == a.machine.(pending := b.machine.pending)
            && (b == a || (b.clock == i.now && b.handshake.Some?))
            && (a.machine.endpoint.Some? ==> b.handshake.Some?)
  {
    hide H.Initiate, QueueOk, IndexOk, Live;
    InitiateIndices(a.machine, a.ourSecret, i.values, a.control, drawsFresh);
  }

  lemma EnsureHandshakeKeeps(a: ActorState, i: HsInput, incoming: seq<Payload>, drawsFresh: bool)
    requires Base(a, incoming, drawsFresh) && HsTimely(a.clock, i) && (drawsFresh && a.handshake.None? ==> i.values.index !in Live(a.machine))
    ensures var b := EnsureHandshake(a, i);
            && Base(b, incoming, drawsFresh) && b.staged == a.staged
            && b.machine == a.machine.(pending := b.machine.pending)
            && a.clock <= b.clock <= i.now
            && (a.machine.endpoint.Some? ==> b.handshake.Some?)
            && (a.handshake.Some? ==> b == a)
            && (b.handshake.None? ==> b.machine == a.machine)
            && (Settled(a) ==> Settled(b))
  {
    hide QueueOk, IndexOk, Live, SendHandshake;
    if a.handshake.None? {
      SendHandshakeKeeps(a.(clock := i.first), i.first, i, incoming, drawsFresh);
    }
  }

  // ---------- sealing ----------

  lemma IndexSame(control: seq<Control>, m: PeerState, m': PeerState, drawsFresh: bool)
    requires SameButCounter(m, m') && (drawsFresh ==> IndexOk(control, m))
    ensures drawsFresh ==> IndexOk(control, m')
  {
    SameLive(m, m');
  }

  /** The state right after sealing a prefix of the payloads. */
  function AfterSealing(a: ActorState, payloads: seq<Payload>, f: FlushInput): ActorState {
    var (machine, packets) := SealAll(a.machine, f.now, payloads);
    var n := |packets|;
    a.(clock := f.now, machine := machine, wire := a.wire + BatchesOf(payloads, packets, 0, f.gso),
       history := a.history.(sealed := a.history.sealed + payloads[..n],
                             fates := a.history.fates + Repeat(WasSealed, n)))
  }

  lemma SealingKeeps(a: ActorState, payloads: seq<Payload>, f: FlushInput, drawsFresh: bool)
    requires Base(a, payloads, drawsFresh) && payloads != [] && (a.staged == [] || Stalled(a.machine, f.now))
    ensures var n := |SealAll(a.machine, f.now, payloads).1|;
            var c := AfterSealing(a, payloads, f);
            && Base(c, payloads[n..], drawsFresh) && Live(c.machine) == Live(a.machine)
            && (n < |payloads| ==> Stalled(c.machine, f.now))
            && (n > 0 ==> a.staged == [])
  {
    hide QueueOk, IndexOk, SealAll, BatchesOf, Live;
    var (machine, packets) := SealAll(a.machine, f.now, payloads);
    SealAllStops(a.machine, f.now, payloads);
    SameLive(a.machine, machine);
    IndexSame(a.control, a.machine, machine, drawsFresh);
    var n := |packets|;
    var all := a.staged + payloads;
    assert all[n..] == a.staged + payloads[n..] && all[..n] == payloads[..n] by {
      if n > 0 { assert all == payloads; }
    }
    Departs(a.history.submitted, a.history.fates, a.history.sealed, all, n, WasSealed);
  }

  lemma RestageKeeps(a: ActorState, rest: seq<Payload>, hs: HsInput, drawsFresh: bool)
    requires Base(a, rest, drawsFresh) && Stalled(a.machine, a.clock) && HsTimely(a.clock, hs) && (drawsFresh ==> hs.values.index !in Live(a.machine))
    ensures var b := Restage(a, rest, hs);
            && Inv(b, drawsFresh) && a.clock <= b.clock <= hs.now
            && (b.handshake.None? ==> b.machine == a.machine)
  {
    hide QueueOk, IndexOk, Live, EnsureHandshake;
    var q := a.staged + rest;
    var h := a.history;
    var evicted := if |q| <= MAX_STAGED then 0 else |q| - MAX_STAGED;
    Departs(h.submitted, h.fates, h.sealed, q, evicted, WasEvicted);
    assert q[evicted..] == LastStaged(q) && h.sealed + [] == h.sealed;
    var c := a.(session := None, staged := LastStaged(q), history := h.(fates := h.fates + Repeat(WasEvicted, evicted)));
    assert c.staged + [] == c.staged;
    assert Base(c, [], drawsFresh);
    EnsureHandshakeKeeps(c, hs, [], drawsFresh);
    StalledLater(a.machine, a.clock, EnsureHandshake(c, hs).clock);
  }

  lemma AfterSendKeeps(a: ActorState, sent: bool, f: FlushInput, drawsFresh: bool)
    requires Base(a, [], drawsFresh) && a.staged == [] && a.clock == f.now && f.now <= f.hs.now && (drawsFresh ==> f.hs.values.index !in Live(a.machine))
    ensures var b := AfterSend(a, sent, f);
            && Inv(b, drawsFresh) && a.clock <= b.clock <= f.hs.now
            && (b.handshake.None? ==> b.machine == a.machine)
  {
    hide QueueOk, IndexOk, SendHandshake, Live;
    var c := if sent
             then a.(lastSend := f.now,
                     session := if a.session.Some? then Some(a.session.value.DataSent(f.now, f.jitter)) else None)
             else a;
    assert Base(c, [], drawsFresh);
    if c.handshake.None? {
      SendHandshakeKeeps(c, f.now, f.hs, [], drawsFresh);
    }
  }

  /** Sealing from the front and staging the rest settles the actor: the order
      of submission is kept because nothing overtakes a waiting payload. */
  lemma FlushSendsKeeps(a: ActorState, payloads: seq<Payload>, f: FlushInput, drawsFresh: bool)
    requires Base(a, payloads, drawsFresh) && FlushTimely(a.clock, f) && (drawsFresh ==> f.hs.values.index !in Live(a.machine))
    requires payloads != [] && (a.staged == [] || Stalled(a.machine, f.now))
    ensures var b := FlushSends(a, payloads, f);
            && Inv(b, drawsFresh) && a.clock <= b.clock <= f.hs.now
            && (b.handshake.None? ==> Live(b.machine) == Live(a.machine))
  {
    hide Base, Settled, SealAll, BatchesOf, AnySent, Live, Restage, AfterSend;
    var packets := SealAll(a.machine, f.now, payloads).1;
    var n := |packets|;
    var c := AfterSealing(a, payloads, f);
    SealingKeeps(a, payloads, f, drawsFresh);
    if n < |payloads| {
      RestageKeeps(c, payloads[n..], f.hs, drawsFresh);
    } else {
      assert payloads[n..] == [];
      AfterSendKeeps(c, AnySent(f.sends, |BatchesOf(payloads, packets, 0, f.gso)|), f, drawsFresh);
    }
  }

  /** An actor that only waited is as settled as before. */
  lemma SettledLater(a: ActorState, b: ActorState)
    requires Settled(a) && a.clock <= b.clock && b.staged == a.staged
    requires a.machine.endpoint == b.machine.endpoint && a.machine.current == b.machine.current
    requires a.machine.next == b.machine.next && (a.handshake.Some? ==> b.handshake.Some?)
    ensures Settled(b)
  {
    if a.staged != [] {
      StalledLater(a.machine, a.clock, b.clock);
    }
  }

  lemma SendKeepaliveKeeps(a: ActorState, k: KeepaliveInput, drawsFresh: bool)
    requires Inv(a, drawsFresh) && KeepaliveTimely(a.clock, k) && (drawsFresh && a.handshake.None? ==> k.hs.values.index !in Live(a.machine))
    ensures var b := SendKeepalive(a, k);
            && Inv(b, drawsFresh) && a.clock <= b.clock <= k.hs.now
            && (b.handshake.None? ==> Live(b.machine) == Live(a.machine))
  {
    hide QueueOk, IndexOk, EnsureHandshake, Live, DataPacket;
    StalledIsRefusal(a.machine, k.now, []);
    if Stalled(a.machine, k.now) {
      SettledLater(a, SendKeepalive(a, k));
    } else {
      var machine := a.machine.Encrypt(k.now, [], PacketLen(0)).0;
      SameLive(a.machine, machine);
      IndexSame(a.control, a.machine, machine, drawsFresh);
      var c := a.(clock := k.now, machine := machine,
                  session := if a.session.Some? then Some(a.session.value.KeepaliveSent()) else None,
                  lastSend := if k.sent then k.now else a.lastSend);
      assert a.staged == [] by {
        if a.staged != [] { StalledLater(a.machine, a.clock, k.now); }
      }
      assert Base(c, [], drawsFresh);
      EnsureHandshakeKeeps(c, k.hs, [], drawsFresh);
    }
  }

  lemma SessionEstablishedKeeps(a: ActorState, initiator: bool, e: EstablishedInput, drawsFresh: bool)
    requires Base(a, [], drawsFresh) && EstTimely(a.clock, e) && (drawsFresh ==> EstDraws(e) !! Live(a.machine))
    ensures var b := SessionEstablished(a, initiator, e);
            && Inv(b, drawsFresh) && a.clock <= b.clock <= e.keepalive.hs.now
            && (b.handshake.None? ==> Live(b.machine) == Live(a.machine))
  {
    hide QueueOk, IndexOk, SealAll, FlushSends, SendKeepalive, Live;
    var c := FlushStaged(a, e.flush);
    assert e.flush.hs.values.index in EstDraws(e) && e.keepalive.hs.values.index in EstDraws(e);
    if a.staged == [] {
      FlushNothing(a, e.flush);
      if initiator {
        SendKeepaliveKeeps(c, e.keepalive, drawsFresh);
      }
    } else {
      assert [] + a.staged == a.staged == a.staged + [];
      FlushSendsKeeps(a.(staged := []), a.staged, e.flush, drawsFresh);
    }
  }

  lemma FlushNothing(a: ActorState, f: FlushInput)
    requires a.staged == []
    ensures FlushStaged(a, f) == a
  {
  }

  // ---------- receiving ----------

  lemma DecryptKeeps(m: PeerState, now: nat, receiver: nat, packet: seq<Octet>, source: Address, control: seq<Control>, drawsFresh: bool)
    requires MachineOk(m) && (drawsFresh ==> IndexOk(control, m))
    ensures var (m', recv) := m.Decrypt(now, receiver, packet, source);
            && (recv.Err? ==> m' == m)
            && (recv.Ok? ==>
                  && MachineOk(m') && (drawsFresh ==> IndexOk(control + RetireOpt(recv.value.unmapped), m'))
                  && Live(m') <= Live(m) && m'.pending == m.pending
                  && (!recv.value.confirmed ==>
                        m'.next == m.next && m.endpoint.Some? && m'.endpoint.Some? && (Stalled(m, now) ==> Stalled(m', now))))
  {
    hide SessionState.Receive, Bound;
    BoundAppend(control, IndexOf(m.previous), None);
    BoundAppend(control, None, None);
  }

  lemma RespondKeeps(m: PeerState, now: nat, received: H.InitReceived, v: HandshakeValues, source: Address, control: seq<Control>, drawsFresh: bool)
    requires MachineOk(m) && (drawsFresh ==> IndexOk(control, m) && v.index !in Live(m))
    ensures var (m', r) := m.Respond(now, received, v, source, H.RESP_MSG_LENGTH);
            && (r.Err? ==> m' == m)
            && (r.Ok? ==>
                  && MachineOk(m') && (drawsFresh ==> IndexOk(control + RetireOpt(r.value.0) + [Bind(v.index)], m'))
                  && m'.pending == m.pending && m'.next.Some? && m'.current == m.current
                  && (Stalled(m, now) ==> Stalled(m', now)))
  {
    hide Bound;
    BoundAppend(control, IndexOf(m.next), Some(v.index));
  }

  lemma ResponseKeeps(m: PeerState, ourSecret: nat, now: nat, msg: H.RespMsg, source: Address, control: seq<Control>, drawsFresh: bool)
    requires MachineOk(m) && (drawsFresh ==> IndexOk(control, m))
    ensures var (m', r) := m.HandshakeResponse(ourSecret, now, msg, source);
            && (r.Err? ==> m' == m)
            && (r.Ok? ==>
                  && MachineOk(m') && (drawsFresh ==> IndexOk(control + RetireOpt(r.value), m'))
                  && m'.pending == None && Live(m') <= Live(m))
  {
    hide Bound;
    BoundAppend(control, IndexOf(m.previous), None);
  }

  lemma AbandonKeeps(m: PeerState, control: seq<Control>, drawsFresh: bool)
    requires MachineOk(m) && (drawsFresh ==> IndexOk(control, m))
    ensures var (m', abandoned) := m.Abandon();
            MachineOk(m') && (drawsFresh ==> IndexOk(control + RetireOpt(abandoned), m')) && m'.pending == None
  {
    hide Bound;
    BoundAppend(control, PendingIndex(m), None);
  }

  // ---------- the arms ----------

  lemma ConnectKeeps(a: ActorState, address: Address, hs: HsInput, drawsFresh: bool)
    requires Inv(a, drawsFresh) && HsTimely(a.clock, hs) && (drawsFresh ==> hs.values.index !in Live(a.machine))
    ensures Inv(OnConnect(a, address, hs), drawsFresh)
  {
    hide QueueOk, EnsureHandshake;
    var c := a.(machine := a.machine.(endpoint := Some(address)));
    assert Live(c.machine) == Live(a.machine);
    assert Base(c, [], drawsFresh);
    EnsureHandshakeKeeps(c, hs, [], drawsFresh);
    var b := EnsureHandshake(c, hs);
    if a.staged != [] {
      assert Stalled(c.machine, a.clock);
      StalledLater(c.machine, a.clock, b.clock);
    }
  }

  lemma ReconfigureKeeps(a: ActorState, psk: Update<Term>, keepalive: Update<nat>, endpoint: Option<Address>, hs: HsInput, drawsFresh: bool)
    requires Inv(a, drawsFresh) && HsTimely(a.clock, hs) && (drawsFresh ==> hs.values.index !in Live(a.machine))
    ensures Inv(OnReconfigure(a, psk, keepalive, endpoint, hs), drawsFresh)
  {
    hide QueueOk, OnConnect;
    var machine := match psk case Keep => a.machine case Clear => a.machine.(psk := None) case Set(k) => a.machine.(psk := Some(k));
    var persistent := match keepalive case Keep => a.persistentKeepalive case Clear => None case Set(i) => Some(i);
    var c := a.(machine := machine, persistentKeepalive := persistent);
    assert OnReconfigure(a, psk, keepalive, endpoint, hs) == if endpoint.Some? then OnConnect(c, endpoint.value, hs) else c;
    assert Live(c.machine) == Live(a.machine);
    assert Inv(c, drawsFresh);
    if endpoint.Some? {
      ConnectKeeps(c, endpoint.value, hs, drawsFresh);
    }
  }

  lemma SendDataKeeps(a: ActorState, payloads: seq<Payload>, f: FlushInput, drawsFresh: bool)
    requires Inv(a, drawsFresh) && FlushTimely(a.clock, f) && (drawsFresh ==> f.hs.values.index !in Live(a.machine))
    ensures Inv(OnSendData(a, payloads, f), drawsFresh)
  {
    hide IndexOk, FlushSends, Live, SealedOf;
    var h := a.history;
    var c := a.(history := h.(submitted := h.submitted + payloads));
    var k := |h.fates|;
    assert (h.submitted + payloads)[k..] == a.staged + payloads;
    assert (h.submitted + payloads)[..k] == h.submitted[..k];
    assert Base(c, payloads, drawsFresh);
    if payloads == [] {
      FlushEmpty(c, f);
      assert h.submitted + payloads == h.submitted;
    } else {
      if a.staged != [] {
        StalledLater(a.machine, a.clock, f.now);
      }
      FlushSendsKeeps(c, payloads, f, drawsFresh);
    }
  }

  lemma FlushEmpty(a: ActorState, f: FlushInput)
    ensures FlushSends(a, [], f) == a
  {
  }

  lemma RecvDataKeeps(a: ActorState, now: nat, packet: seq<Octet>, receiver: nat, source: Address, room: bool,
                      est: EstablishedInput, hs: HsInput, drawsFresh: bool)
    requires Inv(a, drawsFresh) && a.clock <= now && EstTimely(now, est) && HsTimely(est.keepalive.hs.now, hs)
    requires drawsFresh ==> EstDraws(est) !! Live(a.machine) && hs.values.index !in Live(a.machine)
    ensures Inv(OnRecvData(a, now, packet, receiver, source, room, est, hs), drawsFresh)
  {
    hide QueueOk, IndexOk, Live, SessionEstablished, EnsureHandshake, SessionState.Receive;
    DecryptKeeps(a.machine, now, receiver, packet, source, a.control, drawsFresh);
    var (machine, recv) := a.machine.Decrypt(now, receiver, packet, source);
    if recv.Err? {
      SettledLater(a, a.(clock := now));
    } else {
      var Recv(payload, confirmed, unmapped) := recv.value;
      var session := if confirmed then Some(NewTimers(false, now)) else a.session;
      var session' := if session.Some? then Some(session.value.PacketReceived(now, payload != [])) else None;
      var c := a.(clock := now, machine := machine, session := session',
                  control := a.control + RetireOpt(unmapped),
                  inbound := if payload != [] && room then a.inbound + [payload] else a.inbound);
      assert Base(c, [], drawsFresh);
      var d := if confirmed then SessionEstablished(c, false, est) else c;
      assert Inv(d, drawsFresh) && d.clock <= est.keepalive.hs.now && (d.handshake.None? ==> Live(d.machine) <= Live(a.machine)) by {
        if confirmed {
          SessionEstablishedKeeps(c, false, est, drawsFresh);
        } else if a.staged != [] {
          StalledLater(a.machine, a.clock, now);
        }
      }
      EnsureHandshakeKeeps(d, hs, [], drawsFresh);
    }
  }

  lemma RecvInitKeeps(a: ActorState, now: nat, received: H.InitReceived, values: HandshakeValues, source: Address, sent: bool, drawsFresh: bool)
    requires Inv(a, drawsFresh) && a.clock <= now && (drawsFresh ==> values.index !in Live(a.machine))
    ensures Inv(OnRecvInit(a, now, received, values, source, sent), drawsFresh)
  {
    hide QueueOk, IndexOk, Live, H.Respond;
    RespondKeeps(a.machine, now, received, values, source, a.control, drawsFresh);
    if a.staged != [] {
      StalledLater(a.machine, a.clock, now);
    }
  }

  lemma RecvRespKeeps(a: ActorState, now: nat, msg: H.RespMsg, source: Address, est: EstablishedInput, drawsFresh: bool)
    requires Inv(a, drawsFresh) && a.clock <= now && EstTimely(now, est) && (drawsFresh ==> EstDraws(est) !! Live(a.machine))
    ensures Inv(OnRecvResp(a, now, msg, source, est), drawsFresh)
  {
    hide QueueOk, IndexOk, Live, H.ResponseReceived, SessionEstablished;
    ResponseKeeps(a.machine, a.ourSecret, now, msg, source, a.control, drawsFresh);
    var (machine, r) := a.machine.HandshakeResponse(a.ourSecret, now, msg, source);
    if r.Err? {
      SettledLater(a, a.(clock := now));
    } else {
      var c := a.(clock := now, machine := machine, control := a.control + RetireOpt(r.value),
                  handshake := None, session := Some(NewTimers(true, now)));
      assert Base(c, [], drawsFresh);
      SessionEstablishedKeeps(c, true, est, drawsFresh);
    }
  }

  lemma HandshakeDueKeeps(a: ActorState, now: nat, hs: HsInput, drawsFresh: bool)
    requires Inv(a, drawsFresh) && a.clock <= now <= hs.now && (drawsFresh ==> hs.values.index !in Live(a.machine))
    requires a.handshake.Some? ==> a.handshake.value.retryAt <= now
    ensures Inv(OnHandshakeDue(a, now, hs), drawsFresh)
  {
    hide QueueOk, IndexOk, Live, SendHandshake;
    if a.handshake.Some? {
      if Since(now, a.handshake.value.firstSent) >= REKEY_ATTEMPT_TIME {
        AbandonKeeps(a.machine, a.control, drawsFresh);
        var h := a.history;
        assert a.staged + [] == a.staged && a.staged[|a.staged|..] == [];
        Departs(h.submitted, h.fates, h.sealed, a.staged, |a.staged|, WasCleared);
        assert h.sealed + [] == h.sealed;
        var b := OnHandshakeDue(a, now, hs);
        assert b.staged + [] == [];
      } else {
        var c := a.(clock := now);
        SettledLater(a, c);
        SendHandshakeKeeps(c, a.handshake.value.firstSent, hs, [], drawsFresh);
        SettledLater(c, SendHandshake(c, a.handshake.value.firstSent, hs));
      }
    }
  }

  lemma NewHandshakeDueKeeps(a: ActorState, hs: HsInput, drawsFresh: bool)
    requires Inv(a, drawsFresh) && HsTimely(a.clock, hs) && (drawsFresh ==> hs.values.index !in Live(a.machine))
    ensures Inv(OnNewHandshakeDue(a, hs), drawsFresh)
  {
    hide QueueOk, IndexOk, Live, EnsureHandshake;
    var c := a.(session := if a.session.Some? then Some(a.session.value.(newHandshakeAt := None)) else None);
    assert Inv(c, drawsFresh);
    EnsureHandshakeKeeps(c, hs, [], drawsFresh);
  }

  lemma PersistentDueKeeps(a: ActorState, now: nat, k: KeepaliveInput, hs: HsInput, drawsFresh: bool)
    requires Inv(a, drawsFresh) && a.clock <= now && KeepaliveTimely(now, k) && HsTimely(now, hs)
    requires drawsFresh ==> k.hs.values.index !in Live(a.machine) && hs.values.index !in Live(a.machine)
    ensures Inv(OnPersistentDue(a, now, k, hs), drawsFresh)
  {
    hide QueueOk, IndexOk, Live, EnsureHandshake, SendKeepalive;
    var c := a.(clock := now, lastSend := now);
    SettledLater(a, c);
    EnsureHandshakeKeeps(c, hs, [], drawsFresh);
    SendKeepaliveKeeps(c, k, drawsFresh);
  }

  lemma StepKeeps(a: ActorState, e: Event, drawsFresh: bool)
    requires Inv(a, drawsFresh) && Timely(a, e) && (drawsFresh ==> Draws(e) !! Live(a.machine))
    ensures Inv(Step(a, e), drawsFresh)
  {
    hide Base, Settled, Live, OnConnect, OnReconfigure, OnSendData, OnRecvData, OnRecvInit, OnRecvResp, OnHandshakeDue,
         SendKeepalive, OnNewHandshakeDue, OnPersistentDue;
    match e
    case Connect(address, hs) =>
      assert hs.values.index in Draws(e);
      ConnectKeeps(a, address, hs, drawsFresh);
    case Reconfigure(psk, keepalive, endpoint, hs) =>
      assert hs.values.index in Draws(e);
      ReconfigureKeeps(a, psk, keepalive, endpoint, hs, drawsFresh);
    case SendData(payloads, flush) =>
      assert flush.hs.values.index in Draws(e);
      SendDataKeeps(a, payloads, flush, drawsFresh);
    case RecvData(now, packet, receiver, source, room, est, hs) =>
      assert hs.values.index in Draws(e);
      RecvDataKeeps(a, now, packet, receiver, source, room, est, hs, drawsFresh);
    case RecvInit(now, received, values, source, sent) =>
      assert values.index in Draws(e);
      RecvInitKeeps(a, now, received, values, source, sent, drawsFresh);
    case RecvResp(now, msg, source, est) => RecvRespKeeps(a, now, msg, source, est, drawsFresh);
    case HandshakeDue(now, hs) =>
      assert hs.values.index in Draws(e);
      HandshakeDueKeeps(a, now, hs, drawsFresh);
    case RecvCookie(now) => CookieKeeps(a, now, drawsFresh);
    case SessionExpired => SessionExpiredKeeps(a, drawsFresh);
    case KeepaliveDue(k) =>
      assert k.hs.values.index in Draws(e);
      SendKeepaliveKeeps(a, k, drawsFresh);
    case NewHandshakeDue(hs) =>
      assert hs.values.index in Draws(e);
      NewHandshakeDueKeeps(a, hs, drawsFresh);
    case PersistentDue(now, k, hs) =>
      assert k.hs.values.index in Draws(e) && hs.values.index in Draws(e);
      PersistentDueKeeps(a, now, k, hs, drawsFresh);
  }

  lemma SessionExpiredKeeps(a: ActorState, drawsFresh: bool)
    requires Inv(a, drawsFresh)
    ensures Inv(a.(session := None), drawsFresh)
  {
  }

  lemma CookieKeeps(a: ActorState, now: nat, drawsFresh: bool)
    requires Inv(a, drawsFresh) && a.clock <= now
    ensures Inv(a.(clock := now), drawsFresh)
  {
    hide IndexOk, QueueOk;
    SettledLater(a, a.(clock := now));
  }

  lemma SpawnKeeps(ourSecret: nat, peerKey: Term, psk: Option<Term>, persistentKeepalive: Option<nat>, drawsFresh: bool)
    ensures Inv(Spawn(ourSecret, peerKey, psk, persistentKeepalive), drawsFresh)
  {
  }

  lemma {:induction false} RunKeeps(a: ActorState, events: seq<Event>, drawsFresh: bool)
    requires Inv(a, drawsFresh) && ValidRun(a, events, drawsFresh)
    ensures Inv(Run(a, events), drawsFresh)
    decreases |events|
  {
    hide Inv, Step, Timely, Draws, Live;
    if events != [] {
      StepKeeps(a, events[0], drawsFresh);
      RunKeeps(Step(a, events[0]), events[1..], drawsFresh);
    }
  }
}
