/** The per-peer driver as a value: liveness timers, the staging queue and the
    calls each select arm makes into the peer machine. Clock readings, jitter,
    fresh handshake values and socket results are inputs. */
module ActorSpec {
  import opened Wrappers
  import opened Crypto
  import opened Timing
  import opened TransportData
  import opened PeerSpec
  import H = Handshake

  const MAX_STAGED: nat := 128
  const MAX_MESSAGE_SIZE: nat := 65_535

  /** Random milliseconds added to a rekey timer. */
  type Jitter = j: nat | j < REKEY_TIMEOUT_JITTER_MAX_MS

  /** An index-routing update, sent under the actor's own public key. */
  datatype Control = Bind(index: nat) | Retire(index: nat)

  datatype Attempt = Attempt(firstSent: nat, retryAt: nat)

  /** The timers of the session in use. */
  datatype Timers = Timers(
    initiator: bool, established: nat, keepaliveAt: Option<nat>, newHandshakeAt: Option<nat>)
  {
    function ExpiresAt(): nat {
      established + REJECT_AFTER_TIME
    }

    function DataSent(now: nat, jitter: Jitter): Timers {
      this.(keepaliveAt := None,
            newHandshakeAt := if newHandshakeAt.Some? then newHandshakeAt
                              else Some(now + KEEPALIVE_TIMEOUT + REKEY_TIMEOUT + jitter * MS))
    }

    function KeepaliveSent(): Timers {
      this.(keepaliveAt := None)
    }

    function PacketReceived(now: nat, carriedPayload: bool): Timers {
      this.(newHandshakeAt := None,
            keepaliveAt := if carriedPayload && keepaliveAt.None? then Some(now + KEEPALIVE_TIMEOUT) else keepaliveAt)
    }

    predicate Usable(now: nat) {
      now < ExpiresAt()
    }

    predicate RekeyAfterSend(now: nat) {
      initiator && Since(now, established) >= REKEY_AFTER_TIME
    }

    predicate RekeyAfterReceive(now: nat) {
      initiator && Since(now, established) >= REKEY_AFTER_TIME_RECEIVING
    }

    /** A session owes an answer or awaits one, never both. */
    predicate Exclusive() {
      keepaliveAt.None? || newHandshakeAt.None?
    }
  }

  function NewTimers(initiator: bool, now: nat): Timers {
    Timers(initiator, now, None, None)
  }

  /** One datagram train: packets of one size handed to the socket together. */
  datatype Batch = Batch(segmentSize: nat, packets: seq<seq<Octet>>)

  /** What became of a payload that left the staging queue. */
  datatype Fate = WasSealed | WasEvicted | WasCleared

  /** What the run has seen: payloads in submission order, the fates of those
      that left the queue, the sealed ones, and the initiations of the attempt in flight. */
  datatype History = History(submitted: seq<Payload>, fates: seq<Fate>, sealed: seq<Payload>, initiations: nat)

  datatype ActorState = ActorState(
    ourSecret: nat,
    machine: PeerState,
    clock: nat,
    persistentKeepalive: Option<nat>,
    lastSend: nat,
    handshake: Option<Attempt>,
    session: Option<Timers>,
    ready: bool,
    staged: seq<Payload>,
    control: seq<Control>,
    wire: seq<Batch>,
    inbound: seq<Payload>,
    history: History)

  // ---------- inputs ----------

  /** For a possible initiation: the reading that anchors the attempt, the
      reading when it is sent, jitter, fresh values, and whether the socket took it. */
  datatype HsInput = HsInput(first: nat, now: nat, jitter: Jitter, values: HandshakeValues, sent: bool)

  datatype FlushInput = FlushInput(now: nat, gso: nat, sends: seq<bool>, jitter: Jitter, hs: HsInput)

  datatype KeepaliveInput = KeepaliveInput(now: nat, sent: bool, hs: HsInput)

  datatype EstablishedInput = EstablishedInput(flush: FlushInput, keepalive: KeepaliveInput)

  datatype Update<T> = Keep | Clear | Set(value: T)

  datatype Event =
    | Connect(address: Address, hs: HsInput)
    | Reconfigure(psk: Update<Term>, keepalive: Update<nat>, endpoint: Option<Address>, hs: HsInput)
    | SendData(payloads: seq<Payload>, flush: FlushInput)
    | RecvData(now: nat, packet: seq<Octet>, receiver: nat, source: Address, room: bool, est: EstablishedInput, hs: HsInput)
    | RecvInit(now: nat, received: H.InitReceived, values: HandshakeValues, source: Address, sent: bool)
    | RecvResp(now: nat, msg: H.RespMsg, source: Address, est: EstablishedInput)
    | RecvCookie(now: nat)  // the cookie itself is the generator's
    | HandshakeDue(now: nat, hs: HsInput)
    | SessionExpired
    | KeepaliveDue(k: KeepaliveInput)
    | NewHandshakeDue(hs: HsInput)
    | PersistentDue(now: nat, k: KeepaliveInput, hs: HsInput)

  // ---------- handshakes ----------

  function RetireOpt(index: Option<nat>): seq<Control> {
    if index.Some? then [Retire(index.value)] else []
  }

  function SendHandshake(a: ActorState, firstSent: nat, i: HsInput): ActorState {
    if a.machine.endpoint.None? then a else
    var attempt := Attempt(firstSent, i.now + REKEY_TIMEOUT + i.jitter * MS);
    var earlier := if a.handshake.None? then 0 else a.history.initiations;
    var (machine, r) := a.machine.Initiate(a.ourSecret, i.values, H.INIT_MSG_LENGTH);
    if r.Err? then
      a.(clock := i.now, handshake := Some(attempt), history := a.history.(initiations := earlier))
    else
      a.(clock := i.now, handshake := Some(attempt), machine := machine,
         control := a.control + RetireOpt(r.value.0) + [Bind(i.values.index)],
         lastSend := if i.sent then i.now else a.lastSend,
         history := a.history.(initiations := earlier + 1))
  }

  function EnsureHandshake(a: ActorState, i: HsInput): ActorState {
    if a.handshake.None? then SendHandshake(a.(clock := i.first), i.first, i) else a
  }

  // ---------- sealing and batching ----------

  /** Seals payloads in order until the machine refuses. */
  function SealAll(m: PeerState, now: nat, payloads: seq<Payload>): (r: (PeerState, seq<seq<Octet>>))
    ensures |r.1| <= |payloads|
    ensures forall i: nat | i < |r.1| :: |r.1[i]| == PacketLen(|payloads[i]|)
    decreases |payloads|
  {
    if payloads == [] then (m, [])
    else
      var (m', packet) := m.Encrypt(now, payloads[0], PacketLen(|payloads[0]|));
      if packet.Err? then (m, [])
      else
        var (m'', packets) := SealAll(m', now, payloads[1..]);
        (m'', [packet.value] + packets)
  }

  function Min(a: nat, b: nat): nat {
    if a < b then a else b
  }

  function MaxBatchSegments(gso: nat, segmentSize: nat): (n: nat)
    requires segmentSize > 0
    ensures n >= 1 && (n == 1 || (n <= gso && n * segmentSize <= MAX_MESSAGE_SIZE))
  {
    var fit := Min(gso, MAX_MESSAGE_SIZE / segmentSize);
    if fit < 1 then 1 else fit
  }

  /** Where the batch starting at `start` ends, given that it already reaches `end`. */
  function BatchEnd(payloads: seq<Payload>, start: nat, end: nat, limit: nat): (e: nat)
    requires start < end <= |payloads|
    ensures end <= e <= |payloads|
    ensures e == end || e - start <= limit
    ensures forall i | end <= i < e :: |payloads[i]| == |payloads[start]|
    decreases |payloads| - end
  {
    if end < |payloads| && end - start < limit && |payloads[end]| == |payloads[start]|
    then BatchEnd(payloads, start, end + 1, limit) else end
  }

  /** The batches that carry the packets from `start` on. */
  function BatchesOf(payloads: seq<Payload>, packets: seq<seq<Octet>>, start: nat, gso: nat): seq<Batch>
    requires start <= |packets| <= |payloads|
    decreases |packets| - start
  {
    if start == |packets| then []
    else
      var size := PacketLen(|payloads[start]|);
      var end := Min(BatchEnd(payloads, start, start + 1, MaxBatchSegments(gso, size)), |packets|);
      [Batch(size, packets[start..end])] + BatchesOf(payloads, packets, end, gso)
  }

  predicate AnySent(sends: seq<bool>, batches: nat) {
    exists k :: 0 <= k < batches && k < |sends| && sends[k]
  }

  /** The newest payloads that fit the staging queue. */
  function LastStaged(q: seq<Payload>): seq<Payload> {
    if |q| <= MAX_STAGED then q else q[|q| - MAX_STAGED..]
  }

  function Repeat(f: Fate, n: nat): (s: seq<Fate>)
    ensures |s| == n && forall i | 0 <= i < n :: s[i] == f
  {
    seq(n, _ => f)
  }

  /** Sealing stopped early: the session is given up and the rest waits for a new one. */
  function Restage(a: ActorState, rest: seq<Payload>, hs: HsInput): ActorState {
    var q := a.staged + rest;
    var evicted := if |q| <= MAX_STAGED then 0 else |q| - MAX_STAGED;
    EnsureHandshake(
      a.(session := None, staged := LastStaged(q),
         history := a.history.(fates := a.history.fates + Repeat(WasEvicted, evicted))), hs)
  }

  /** Everything was sealed: arm the timers and rekey if the session is old or worn. */
  function AfterSend(a: ActorState, sent: bool, f: FlushInput): ActorState {
    var a1 := if sent
              then a.(lastSend := f.now,
                      session := if a.session.Some? then Some(a.session.value.DataSent(f.now, f.jitter)) else None)
              else a;
    var rekey := a.machine.RekeyDueToMessages()
                 || (sent && a1.session.Some? && a1.session.value.RekeyAfterSend(f.now));
    if rekey && a1.handshake.None? then SendHandshake(a1, f.now, f.hs) else a1
  }

  function FlushSends(a: ActorState, payloads: seq<Payload>, f: FlushInput): ActorState {
    if payloads == [] then a else
    var (machine, packets) := SealAll(a.machine, f.now, payloads);
    var n := |packets|;
    var batches := BatchesOf(payloads, packets, 0, f.gso);
    var sent := AnySent(f.sends, |batches|);
    var a1 := a.(clock := f.now, machine := machine, wire := a.wire + batches,
                 history := a.history.(sealed := a.history.sealed + payloads[..n],
                                       fates := a.history.fates + Repeat(WasSealed, n)));
    if n < |payloads| then Restage(a1, payloads[n..], f.hs) else AfterSend(a1, sent, f)
  }

  function FlushStaged(a: ActorState, f: FlushInput): ActorState {
    FlushSends(a.(staged := []), a.staged, f)
  }

  function SendKeepalive(a: ActorState, k: KeepaliveInput): ActorState {
    var (machine, packet) := a.machine.Encrypt(k.now, [], PacketLen(0));
    if packet.Err? then a.(clock := k.now, session := None) else
    var a1 := a.(clock := k.now, machine := machine,
                 session := if a.session.Some? then Some(a.session.value.KeepaliveSent()) else None,
                 lastSend := if k.sent then k.now else a.lastSend);
    if machine.RekeyDueToMessages() || (k.sent && a1.session.Some? && a1.session.value.RekeyAfterSend(k.now))
    then EnsureHandshake(a1, k.hs) else a1
  }

  /** The session became usable: flush what waited; an initiator with nothing
      staged confirms with a keepalive. */
  function SessionEstablished(a: ActorState, initiator: bool, e: EstablishedInput): ActorState {
    var a1 := FlushStaged(a, e.flush);
    var a2 := if initiator && a.staged == [] then SendKeepalive(a1, e.keepalive) else a1;
    a2.(ready := true)
  }

  // ---------- the select arms ----------

  function OnConnect(a: ActorState, address: Address, hs: HsInput): ActorState {
    EnsureHandshake(a.(machine := a.machine.(endpoint := Some(address))), hs)
  }

  function OnReconfigure(a: ActorState, psk: Update<Term>, keepalive: Update<nat>, endpoint: Option<Address>, hs: HsInput)
    : ActorState
  {
    var a1 := match psk
              case Keep => a
              case Clear => a.(machine := a.machine.(psk := None))
              case Set(k) => a.(machine := a.machine.(psk := Some(k)));
    var a2 := match keepalive
              case Keep => a1
              case Clear => a1.(persistentKeepalive := None)
              case Set(interval) => a1.(persistentKeepalive := Some(interval));
    if endpoint.Some? then OnConnect(a2, endpoint.value, hs) else a2
  }

  function OnSendData(a: ActorState, payloads: seq<Payload>, f: FlushInput): ActorState {
    FlushSends(a.(history := a.history.(submitted := a.history.submitted + payloads)), payloads, f)
  }

  function OnRecvData(a: ActorState, now: nat, packet: seq<Octet>, receiver: nat, source: Address, room: bool,
                      est: EstablishedInput, hs: HsInput): ActorState {
    var (machine, recv) := a.machine.Decrypt(now, receiver, packet, source);
    if recv.Err? then a.(clock := now) else
    var Recv(payload, confirmed, unmapped) := recv.value;
    var session := if confirmed then Some(NewTimers(false, now)) else a.session;
    var session' := if session.Some? then Some(session.value.PacketReceived(now, payload != [])) else None;
    var rekey := session'.Some? && session'.value.RekeyAfterReceive(now);
    var a1 := a.(clock := now, machine := machine, session := session',
                 control := a.control + RetireOpt(unmapped),
                 inbound := if payload != [] && room then a.inbound + [payload] else a.inbound);
    var a2 := if confirmed then SessionEstablished(a1, false, est) else a1;
    if rekey then EnsureHandshake(a2, hs) else a2
  }

  function OnRecvInit(a: ActorState, now: nat, received: H.InitReceived, values: HandshakeValues, source: Address,
                      sent: bool): ActorState {
    var (machine, r) := a.machine.Respond(now, received, values, source, H.RESP_MSG_LENGTH);
    if r.Err? then a.(clock := now) else
    a.(clock := now, machine := machine,
       control := a.control + RetireOpt(r.value.0) + [Bind(values.index)],
       lastSend := if sent then now else a.lastSend)
  }

  function OnRecvResp(a: ActorState, now: nat, msg: H.RespMsg, source: Address, est: EstablishedInput): ActorState {
    var (machine, r) := a.machine.HandshakeResponse(a.ourSecret, now, msg, source);
    if r.Err? then a.(clock := now) else
    SessionEstablished(
      a.(clock := now, machine := machine, control := a.control + RetireOpt(r.value),
         handshake := None, session := Some(NewTimers(true, now))), true, est)
  }

  function OnHandshakeDue(a: ActorState, now: nat, hs: HsInput): ActorState {
    if a.handshake.None? then a
    else if Since(now, a.handshake.value.firstSent) >= REKEY_ATTEMPT_TIME then
      var (machine, abandoned) := a.machine.Abandon();
      a.(clock := now, handshake := None, staged := [], machine := machine,
         control := a.control + RetireOpt(abandoned),
         history := a.history.(fates := a.history.fates + Repeat(WasCleared, |a.staged|)))
    else SendHandshake(a.(clock := now), a.handshake.value.firstSent, hs)
  }

  function OnNewHandshakeDue(a: ActorState, hs: HsInput): ActorState {
    EnsureHandshake(
      a.(session := if a.session.Some? then Some(a.session.value.(newHandshakeAt := None)) else None), hs)
  }

  function OnPersistentDue(a: ActorState, now: nat, k: KeepaliveInput, hs: HsInput): ActorState {
    var a1 := a.(clock := now, lastSend := now);
    if a1.session.Some? && a1.session.value.Usable(now) then SendKeepalive(a1, k) else EnsureHandshake(a1, hs)
  }

  function Step(a: ActorState, e: Event): ActorState {
    match e
    case Connect(address, hs) => OnConnect(a, address, hs)
    case Reconfigure(psk, keepalive, endpoint, hs) => OnReconfigure(a, psk, keepalive, endpoint, hs)
    case SendData(payloads, flush) => OnSendData(a, payloads, flush)
    case RecvData(now, packet, receiver, source, room, est, hs) =>
      OnRecvData(a, now, packet, receiver, source, room, est, hs)
    case RecvInit(now, received, values, source, sent) => OnRecvInit(a, now, received, values, source, sent)
    case RecvResp(now, msg, source, est) => OnRecvResp(a, now, msg, source, est)
    case HandshakeDue(now, hs) => OnHandshakeDue(a, now, hs)
    case RecvCookie(now) => a.(clock := now)
    case SessionExpired => a.(session := None)
    case KeepaliveDue(k) => SendKeepalive(a, k)
    case NewHandshakeDue(hs) => OnNewHandshakeDue(a, hs)
    case PersistentDue(now, k, hs) => OnPersistentDue(a, now, k, hs)
  }

  function PersistentKeepaliveAt(a: ActorState): Option<nat> {
    if a.persistentKeepalive.Some? && a.machine.endpoint.Some? then Some(a.lastSend + a.persistentKeepalive.value) else None
  }

  function Spawn(ourSecret: nat, peerKey: Term, psk: Option<Term>, persistentKeepalive: Option<nat>): ActorState {
    ActorState(ourSecret, NewPeer(peerKey).(psk := psk), 0, persistentKeepalive, 0, None, None, false, [], [], [], [],
               History([], [], [], 0))
  }

  // ---------- what the environment owes each step ----------

  predicate HsTimely(clock: nat, i: HsInput) {
    clock <= i.first <= i.now
  }

  predicate FlushTimely(clock: nat, f: FlushInput) {
    clock <= f.now && HsTimely(f.now, f.hs)
  }

  predicate KeepaliveTimely(clock: nat, k: KeepaliveInput) {
    clock <= k.now && HsTimely(k.now, k.hs)
  }

  predicate EstTimely(clock: nat, e: EstablishedInput) {
    FlushTimely(clock, e.flush) && KeepaliveTimely(e.flush.hs.now, e.keepalive)
  }

  /** Clock readings never go back, and the retransmit timer never fires early. */
  predicate Timely(a: ActorState, e: Event) {
    match e
    case Connect(_, hs) => HsTimely(a.clock, hs)
    case Reconfigure(_, _, _, hs) => HsTimely(a.clock, hs)
    case SendData(_, flush) => FlushTimely(a.clock, flush)
    case RecvData(now, _, _, _, _, est, hs) =>
      a.clock <= now && EstTimely(now, est) && HsTimely(est.keepalive.hs.now, hs)
    case RecvInit(now, _, _, _, _) => a.clock <= now
    case RecvResp(now, _, _, est) => a.clock <= now && EstTimely(now, est)
    case HandshakeDue(now, hs) =>
      a.clock <= now <= hs.now && (a.handshake.Some? ==> a.handshake.value.retryAt <= now)
    case RecvCookie(now) => a.clock <= now
    case SessionExpired => true
    case KeepaliveDue(k) => KeepaliveTimely(a.clock, k)
    case NewHandshakeDue(hs) => HsTimely(a.clock, hs)
    case PersistentDue(now, k, hs) => a.clock <= now && KeepaliveTimely(now, k) && HsTimely(now, hs)
  }

  function EstDraws(e: EstablishedInput): set<nat> {
    {e.flush.hs.values.index, e.keepalive.hs.values.index}
  }

  /** The indices a step may draw. */
  function Draws(e: Event): set<nat> {
    match e
    case Connect(_, hs) => {hs.values.index}
    case Reconfigure(_, _, _, hs) => {hs.values.index}
    case SendData(_, flush) => {flush.hs.values.index}
    case RecvData(_, _, _, _, _, est, hs) => EstDraws(est) + {hs.values.index}
    case RecvInit(_, _, values, _, _) => {values.index}
    case RecvResp(_, _, _, est) => EstDraws(est)
    case HandshakeDue(_, hs) => {hs.values.index}
    case RecvCookie(_) => {}
    case SessionExpired => {}
    case KeepaliveDue(k) => {k.hs.values.index}
    case NewHandshakeDue(hs) => {hs.values.index}
    case PersistentDue(_, k, hs) => {k.hs.values.index, hs.values.index}
  }

  /** A run on a monotone clock; with `drawsFresh`, one that also never draws an index still in use. */
  predicate ValidRun(a: ActorState, events: seq<Event>, drawsFresh: bool)
    decreases |events|
  {
    events == [] ||
    (&& Timely(a, events[0]) && (drawsFresh ==> Draws(events[0]) !! Live(a.machine))
     && ValidRun(Step(a, events[0]), events[1..], drawsFresh))
  }

  function Run(a: ActorState, events: seq<Event>): ActorState
    decreases |events|
  {
    if events == [] then a else Run(Step(a, events[0]), events[1..])
  }

  // ---------- receiver indices ----------

  function OptSet(o: Option<nat>): set<nat> {
    if o.Some? then {o.value} else {}
  }

  function PendingIndex(m: PeerState): Option<nat> {
    if m.pending.Some? then Some(m.pending.value.ourIndex) else None
  }

  /** The receiver indices the machine answers to. */
  function Live(m: PeerState): set<nat> {
    OptSet(PendingIndex(m)) + OptSet(IndexOf(m.current)) + OptSet(IndexOf(m.next)) + OptSet(IndexOf(m.previous))
  }

  /** The effect of control messages on the set of bound indices. */
  function Bound(start: set<nat>, control: seq<Control>): set<nat> {
    if control == [] then start
    else
      var before := Bound(start, control[..|control| - 1]);
      match control[|control| - 1]
      case Bind(i) => before + {i}
      case Retire(i) => before - {i}
  }
}
