/** Two drivers over the network of the two machines: what one hands to its
    application, and what was submitted to the other. */
module EndToEnd {
  import opened Wrappers
  import opened Parties
  import opened Crypto
  import opened TransportData
  import opened PeerSpec
  import opened ActorSpec
  import Timing
  import AR = ActorRuns
  import AE = ArmEffects
  import AT = ActorTheorems
  import TP = TwoParty
  import H = Handshake

  /** The message on the network behind an event. */
  datatype Carrier = Local | FromInit(i: TP.Initiation) | FromResponse(r: TP.Response) | FromPacket(d: TP.Sealing)

  datatype Move = Move(p: Party, e: Event, c: Carrier)

  datatype World = World(
    net: TP.Sys,
    actors: Pair<ActorState>,
    // bookkeeping of the run
    sealed: Pair<seq<TP.Sealing>>,  // the packets that carry the sealed payloads, in order
    taken: Pair<seq<TP.Sealing>>)   // the packets behind the inbound payloads, in order

  // ---------- what an arm does to the machines ----------

  /** The initiation of an arm that left an attempt in flight where there was none. */
  function Begun(p: Party, before: Option<Attempt>, after: Option<Attempt>, hs: HsInput): seq<TP.Action> {
    if before.None? && after.Some? then [TP.Initiate(p, hs.values, H.INIT_MSG_LENGTH)] else []
  }

  function Seals(p: Party, now: nat, payloads: seq<Payload>): seq<TP.Action> {
    if payloads == [] then []
    else [TP.Seal(p, now, payloads[0], PacketLen(|payloads[0]|))] + Seals(p, now, payloads[1..])
  }

  /** The payloads a flush seals. */
  function Prefix(m: PeerState, now: nat, payloads: seq<Payload>): seq<Payload> {
    payloads[..|SealAll(m, now, payloads).1|]
  }

  function FlushActs(p: Party, a: ActorState, payloads: seq<Payload>, f: FlushInput): seq<TP.Action> {
    Seals(p, f.now, Prefix(a.machine, f.now, payloads))
    + Begun(p, a.handshake, FlushSends(a, payloads, f).handshake, f.hs)
  }

  function KeepaliveActs(p: Party, a: ActorState, k: KeepaliveInput): seq<TP.Action> {
    [TP.Seal(p, k.now, [], PacketLen(0))] + Begun(p, a.handshake, SendKeepalive(a, k).handshake, k.hs)
  }

  function EstablishedActs(p: Party, a: ActorState, initiator: bool, e: EstablishedInput): seq<TP.Action> {
    FlushActs(p, a.(staged := []), a.staged, e.flush)
    + if initiator && a.staged == [] then KeepaliveActs(p, FlushStaged(a, e.flush), e.keepalive) else []
  }

  function PskActs(p: Party, psk: Update<Term>): seq<TP.Action> {
    match psk
    case Keep => []
    case Clear => [TP.SetPsk(p, None)]
    case Set(k) => [TP.SetPsk(p, Some(k))]
  }

  /** The driver right after a packet was opened. */
  function Accepted(a: ActorState, e: Event): ActorState
    requires e.RecvData? && a.machine.Decrypt(e.now, e.receiver, e.packet, e.source).1.Ok?
  {
    var (machine, recv) := a.machine.Decrypt(e.now, e.receiver, e.packet, e.source);
    var Recv(payload, confirmed, unmapped) := recv.value;
    var session := if confirmed then Some(NewTimers(false, e.now)) else a.session;
    a.(clock := e.now, machine := machine,
       session := if session.Some? then Some(session.value.PacketReceived(e.now, payload != [])) else None,
       control := a.control + RetireOpt(unmapped),
       inbound := if payload != [] && e.room then a.inbound + [payload] else a.inbound)
  }

  /** The driver right after its handshake was answered. */
  function Answered(a: ActorState, e: Event): ActorState
    requires e.RecvResp? && a.machine.HandshakeResponse(a.ourSecret, e.now, e.msg, e.source).1.Ok?
  {
    var (machine, r) := a.machine.HandshakeResponse(a.ourSecret, e.now, e.msg, e.source);
    a.(clock := e.now, machine := machine, control := a.control + RetireOpt(r.value),
       handshake := None, session := Some(NewTimers(true, e.now)))
  }

  function ReceiptActs(p: Party, a: ActorState, e: Event, d: TP.Sealing): seq<TP.Action>
    requires e.RecvData?
  {
    var recv := a.machine.Decrypt(e.now, e.receiver, e.packet, e.source).1;
    if recv.Err? then [TP.DeliverData(p, d, e.now, e.source)] else
    var a1 := Accepted(a, e);
    var a2 := if recv.value.confirmed then SessionEstablished(a1, false, e.est) else a1;
    [TP.DeliverData(p, d, e.now, e.source)]
    + (if recv.value.confirmed then EstablishedActs(p, a1, false, e.est) else [])
    + Begun(p, a2.handshake, Step(a, e).handshake, e.hs)
  }

  function AnswerActs(p: Party, a: ActorState, e: Event, r: TP.Response): seq<TP.Action>
    requires e.RecvResp?
  {
    [TP.DeliverResponse(p, r, e.now, e.source)]
    + if a.machine.HandshakeResponse(a.ourSecret, e.now, e.msg, e.source).1.Ok?
      then EstablishedActs(p, Answered(a, e), true, e.est) else []
  }

  function RetryActs(p: Party, a: ActorState, now: nat, hs: HsInput): seq<TP.Action> {
    if a.handshake.None? then []
    else if Timing.Since(now, a.handshake.value.firstSent) >= Timing.REKEY_ATTEMPT_TIME then [TP.Abandon(p)]
    else if a.machine.endpoint.Some? then [TP.Initiate(p, hs.values, H.INIT_MSG_LENGTH)] else []
  }

  /** What an arm calls on its machine, in order. */
  function Acts(p: Party, a: ActorState, e: Event, c: Carrier): seq<TP.Action> {
    match e
    case Connect(address, hs) => [TP.SetEndpoint(p, address)] + Begun(p, a.handshake, Step(a, e).handshake, hs)
    case Reconfigure(psk, _, endpoint, hs) =>
      PskActs(p, psk) + (if endpoint.Some? then [TP.SetEndpoint(p, endpoint.value)] else [])
      + Begun(p, a.handshake, Step(a, e).handshake, hs)
    case SendData(payloads, f) =>
      FlushActs(p, a.(history := a.history.(submitted := a.history.submitted + payloads)), payloads, f)
    case RecvData(_, _, _, _, _, _, _) => if c.FromPacket? then ReceiptActs(p, a, e, c.d) else []
    case RecvInit(now, _, values, source, _) =>
      if c.FromInit? then [TP.DeliverInit(p, c.i, now, values, source, H.RESP_MSG_LENGTH)] else []
    case RecvResp(_, _, _, _) => if c.FromResponse? then AnswerActs(p, a, e, c.r) else []
    case HandshakeDue(now, hs) => RetryActs(p, a, now, hs)
    case RecvCookie(_) => []
    case SessionExpired => []
    case KeepaliveDue(k) => KeepaliveActs(p, a, k)
    case NewHandshakeDue(hs) => Begun(p, a.handshake, Step(a, e).handshake, hs)
    case PersistentDue(now, k, hs) =>
      if a.session.Some? && a.session.value.Usable(now) then KeepaliveActs(p, a.(clock := now, lastSend := now), k)
      else Begun(p, a.handshake, Step(a, e).handshake, hs)
  }

  /** What arrives was sent: the event is the reading of a message on the network. */
  predicate Carried(s: TP.Sys, p: Party, e: Event, c: Carrier) {
    match e
    case RecvData(_, packet, receiver, _, _, _, _) =>
      c.FromPacket? && packet == TP.DataWire(c.d) && receiver == c.d.receiver
    case RecvInit(_, received, _, _, _) =>
      && c.FromInit? && H.Receive(s.secrets.At(p), TP.InitWire(s.secrets, c.i)) == Some(received)
      && received.peerPublic == s.peers.At(p).peerKey
    case RecvResp(_, msg, _, _) => c.FromResponse? && msg == TP.RespWire(s.secrets, c.r)
    case _ => true
  }

  // ---------- the packets behind the payloads ----------

  /** The packets that carry payloads sealed one after another. */
  function Listed(p: Party, m: PeerState, payloads: seq<Payload>): (r: seq<TP.Sealing>)
    ensures |r| == if m.current.Some? then |payloads| else 0
  {
    if m.current.None? then [] else
    var s := m.current.value;
    seq(|payloads|, i requires 0 <= i < |payloads| =>
      TP.Sealing(p, s.keys.peerIndex, s.keys.sendKey, s.sendCounter + i, payloads[i]))
  }

  function FlushLog(p: Party, m: PeerState, now: nat, payloads: seq<Payload>): seq<TP.Sealing> {
    Listed(p, m, Prefix(m, now, payloads))
  }

  function SealedBy(p: Party, a: ActorState, e: Event): seq<TP.Sealing> {
    match e
    case SendData(payloads, f) => FlushLog(p, a.machine, f.now, payloads)
    case RecvData(now, packet, receiver, source, _, est, _) =>
      var (machine, recv) := a.machine.Decrypt(now, receiver, packet, source);
      if recv.Ok? && recv.value.confirmed then FlushLog(p, machine, est.flush.now, a.staged) else []
    case RecvResp(now, msg, source, est) =>
      var (machine, r) := a.machine.HandshakeResponse(a.ourSecret, now, msg, source);
      if r.Ok? then FlushLog(p, machine, est.flush.now, a.staged) else []
    case _ => []
  }

  function TakenBy(a: ActorState, e: Event, c: Carrier): seq<TP.Sealing> {
    if !e.RecvData? || !c.FromPacket? then [] else
    var recv := a.machine.Decrypt(e.now, e.receiver, e.packet, e.source).1;
    if recv.Ok? && recv.value.payload != [] && e.room then [c.d] else []
  }

  // ---------- steps ----------

  predicate Enabled(w: World, m: Move) {
    var a := w.actors.At(m.p);
    && Timely(a, m.e) && Carried(w.net, m.p, m.e, m.c)
    && TP.ValidRun(w.net, Acts(m.p, a, m.e, m.c))
  }

  function Do(w: World, m: Move): World {
    var a := w.actors.At(m.p);
    World(TP.Run(w.net, Acts(m.p, a, m.e, m.c)),
          w.actors.With(m.p, Step(a, m.e)),
          w.sealed.With(m.p, w.sealed.At(m.p) + SealedBy(m.p, a, m.e)),
          w.taken.With(m.p, w.taken.At(m.p) + TakenBy(a, m.e, m.c)))
  }

  function Start(secrets: Pair<nat>, psks: Pair<Option<Term>>, keepalives: Pair<Option<nat>>): World {
    var s := TP.Start(secrets.left, secrets.right);
    World(TP.Apply(TP.Apply(s, TP.SetPsk(Left, psks.left)), TP.SetPsk(Right, psks.right)),
          Pair(Spawn(secrets.left, Point(secrets.right), psks.left, keepalives.left),
               Spawn(secrets.right, Point(secrets.left), psks.right, keepalives.right)),
          Pair([], []), Pair([], []))
  }

  predicate ValidRun(w: World, moves: seq<Move>)
    decreases |moves|
  {
    moves == [] || (Enabled(w, moves[0]) && ValidRun(Do(w, moves[0]), moves[1..]))
  }

  function Run(w: World, moves: seq<Move>): World
    decreases |moves|
  {
    if moves == [] then w else Run(Do(w, moves[0]), moves[1..])
  }

  // ---------- the driver's calls are the machine's ----------

  /** A party's machine moved, sealing the listed packets and otherwise only keepalives. */
  predicate Moved(s: TP.Sys, t: TP.Sys, p: Party, m: PeerState, list: seq<TP.Sealing>) {
    && t.secrets == s.secrets && t.peers == s.peers.With(p, m) && t.delivered == s.delivered
    && s.sealings <= t.sealings
    && (forall d | d in list :: d in t.sealings)
    && (forall d | d in t.sealings && d !in s.sealings :: d.sender == p && (d in list || d.payload == []))
  }

  lemma {:induction false} RunJoin(s: TP.Sys, x: seq<TP.Action>, y: seq<TP.Action>)
    ensures TP.Run(s, x + y) == TP.Run(TP.Run(s, x), y)
    decreases |x|
  {
    hide TP.Apply;
    if x == [] {
      assert x + y == y;
    } else {
      assert (x + y)[0] == x[0] && (x + y)[1..] == x[1..] + y;
      RunJoin(TP.Apply(s, x[0]), x[1..], y);
    }
  }

  lemma RunOne(s: TP.Sys, a: TP.Action)
    ensures TP.Run(s, [a]) == TP.Apply(s, a)
  {
    hide TP.Apply;
    assert TP.Run(TP.Apply(s, a), [a][1..]) == TP.Apply(s, a);
  }

  lemma MovedOn(s: TP.Sys, t: TP.Sys, u: TP.Sys, p: Party, m: PeerState, m': PeerState,
                x: seq<TP.Sealing>, y: seq<TP.Sealing>)
    requires Moved(s, t, p, m, x) && Moved(t, u, p, m', y)
    ensures Moved(s, u, p, m', x + y)
  {
  }

  /** The machine after an arm that may have begun an attempt. */
  function AfterBegun(m: PeerState, secret: nat, before: Option<Attempt>, after: Option<Attempt>, hs: HsInput): PeerState {
    if before.None? && after.Some? then m.Initiate(secret, hs.values, H.INIT_MSG_LENGTH).0 else m
  }

  lemma BegunMoves(s: TP.Sys, p: Party, before: Option<Attempt>, after: Option<Attempt>, hs: HsInput)
    ensures Moved(s, TP.Run(s, Begun(p, before, after, hs)), p,
                  AfterBegun(s.peers.At(p), s.secrets.At(p), before, after, hs), [])
  {
    hide H.Initiate;
    if before.None? && after.Some? { RunOne(s, TP.Initiate(p, hs.values, H.INIT_MSG_LENGTH)); }
  }

  lemma EnsureBegins(a: ActorState, hs: HsInput)
    ensures var b := EnsureHandshake(a, hs);
            b.machine == AfterBegun(a.machine, a.ourSecret, a.handshake, b.handshake, hs)
  {
    hide H.Initiate;
  }

  lemma FlushBegins(a: ActorState, payloads: seq<Payload>, f: FlushInput)
    ensures var b := FlushSends(a, payloads, f);
            b.machine == AfterBegun(SealAll(a.machine, f.now, payloads).0, a.ourSecret, a.handshake, b.handshake, f.hs)
  {
    hide SealAll, BatchesOf, AnySent, EnsureHandshake, Repeat, LastStaged, H.Initiate, PeerState.RekeyDueToMessages;
    if payloads == [] {
      AE.EmptyFlush(a, f);
    } else {
      var c := AR.AfterSealing(a, payloads, f);
      var n := |SealAll(a.machine, f.now, payloads).1|;
      if n < |payloads| {
        var q := c.staged + payloads[n..];
        var evicted := if |q| <= MAX_STAGED then 0 else |q| - MAX_STAGED;
        EnsureBegins(c.(session := None, staged := LastStaged(q),
                        history := c.history.(fates := c.history.fates + Repeat(WasEvicted, evicted))), f.hs);
      }
    }
  }

  lemma KeepaliveBegins(a: ActorState, k: KeepaliveInput)
    ensures var b := SendKeepalive(a, k);
            var (machine, packet) := a.machine.Encrypt(k.now, [], PacketLen(0));
            b.machine == if packet.Err? then a.machine else AfterBegun(machine, a.ourSecret, a.handshake, b.handshake, k.hs)
  {
    hide EnsureHandshake, DataPacket, H.Initiate, PeerState.RekeyDueToMessages;
    var (machine, packet) := a.machine.Encrypt(k.now, [], PacketLen(0));
    if packet.Ok? {
      var a1 := a.(clock := k.now, machine := machine,
                   session := if a.session.Some? then Some(a.session.value.KeepaliveSent()) else None,
                   lastSend := if k.sent then k.now else a.lastSend);
      EnsureBegins(a1, k.hs);
      assert SendKeepalive(a, k) == a1 || SendKeepalive(a, k) == EnsureHandshake(a1, k.hs);
    }
  }

  lemma ListedStep(p: Party, m: PeerState, m': PeerState, payloads: seq<Payload>)
    requires payloads != [] && m.current.Some?
    requires m' == m.(current := Some(m.current.value.(sendCounter := m.current.value.sendCounter + 1)))
    ensures var s := m.current.value;
            Listed(p, m, payloads)
            == [TP.Sealing(p, s.keys.peerIndex, s.keys.sendKey, s.sendCounter, payloads[0])] + Listed(p, m', payloads[1..])
  {
  }

  lemma ListedOne(p: Party, m: PeerState, payload: Payload)
    requires m.current.Some?
    ensures var s := m.current.value;
            Listed(p, m, [payload]) == [TP.Sealing(p, s.keys.peerIndex, s.keys.sendKey, s.sendCounter, payload)]
  {
  }

  lemma SealMoves(s: TP.Sys, p: Party, now: nat, payload: Payload)
    ensures var m := s.peers.At(p);
            var (m', packet) := m.Encrypt(now, payload, PacketLen(|payload|));
            Moved(s, TP.Apply(s, TP.Seal(p, now, payload, PacketLen(|payload|))), p, if packet.Ok? then m' else m,
                  if packet.Ok? then Listed(p, m, [payload]) else [])
  {
    hide DataPacket, Listed;
    AE.SealedPacket(s.peers.At(p), now, payload);
    if s.peers.At(p).current.Some? { ListedOne(p, s.peers.At(p), payload); }
  }

  lemma {:induction false} SealsMove(s: TP.Sys, p: Party, now: nat, payloads: seq<Payload>)
    requires |SealAll(s.peers.At(p), now, payloads).1| == |payloads|
    ensures Moved(s, TP.Run(s, Seals(p, now, payloads)), p, SealAll(s.peers.At(p), now, payloads).0,
                  Listed(p, s.peers.At(p), payloads))
    decreases |payloads|
  {
    hide TP.Apply, DataPacket, Listed, PeerState.Encrypt;
    var m := s.peers.At(p);
    if payloads == [] {
      assert Listed(p, m, payloads) == [];
    } else {
      var head := TP.Seal(p, now, payloads[0], PacketLen(|payloads[0]|));
      var t := TP.Apply(s, head);
      var (m', packet) := m.Encrypt(now, payloads[0], PacketLen(|payloads[0]|));
      SealMoves(s, p, now, payloads[0]);
      AE.SealedPacket(m, now, payloads[0]);
      SealsMove(t, p, now, payloads[1..]);
      RunOne(s, head);
      RunJoin(s, [head], Seals(p, now, payloads[1..]));
      ListedStep(p, m, m', payloads);
      ListedOne(p, m, payloads[0]);
      MovedOn(s, t, TP.Run(t, Seals(p, now, payloads[1..])), p, m', SealAll(m, now, payloads).0,
              Listed(p, m, [payloads[0]]), Listed(p, m', payloads[1..]));
    }
  }

  /** Sealing just the payloads that can be sealed does the same. */
  lemma {:induction false} SealPrefix(m: PeerState, now: nat, payloads: seq<Payload>)
    ensures var (m', packets) := SealAll(m, now, payloads);
            SealAll(m, now, payloads[..|packets|]) == (m', packets)
    decreases |payloads|
  {
    hide DataPacket, PeerState.Encrypt;
    if payloads != [] {
      var (m1, packet) := m.Encrypt(now, payloads[0], PacketLen(|payloads[0]|));
      if packet.Ok? {
        SealPrefix(m1, now, payloads[1..]);
        var n := |SealAll(m1, now, payloads[1..]).1|;
        assert payloads[..n + 1][1..] == payloads[1..][..n];
      }
    }
  }

  lemma FlushMoves(s: TP.Sys, p: Party, a: ActorState, payloads: seq<Payload>, f: FlushInput)
    requires s.peers.At(p) == a.machine && s.secrets.At(p) == a.ourSecret
    ensures Moved(s, TP.Run(s, FlushActs(p, a, payloads, f)), p, FlushSends(a, payloads, f).machine,
                  FlushLog(p, a.machine, f.now, payloads))
  {
    hide TP.Run, Moved, SealAll, Seals, Begun, Listed, FlushSends, AfterBegun;
    var sealing, b := Seals(p, f.now, Prefix(a.machine, f.now, payloads)), FlushSends(a, payloads, f);
    var log, begun := FlushLog(p, a.machine, f.now, payloads), Begun(p, a.handshake, b.handshake, f.hs);
    SealPrefix(a.machine, f.now, payloads);
    SealsMove(s, p, f.now, Prefix(a.machine, f.now, payloads));
    var t := TP.Run(s, sealing);
    MovedParty(s, t, p, SealAll(a.machine, f.now, payloads).0, log);
    FlushBegins(a, payloads, f);
    BegunMoves(t, p, a.handshake, b.handshake, f.hs);
    RunJoin(s, sealing, begun);
    MovedOn(s, t, TP.Run(t, begun), p, t.peers.At(p), b.machine, log, []);
    assert log + [] == log;
  }

  lemma MovedParty(s: TP.Sys, t: TP.Sys, p: Party, m: PeerState, list: seq<TP.Sealing>)
    requires Moved(s, t, p, m, list)
    ensures t.peers.At(p) == m && t.secrets == s.secrets && t.delivered == s.delivered
    ensures t.peers.At(p.Other()) == s.peers.At(p.Other())
  {
  }

  lemma KeepaliveMoves(s: TP.Sys, p: Party, a: ActorState, k: KeepaliveInput)
    requires s.peers.At(p) == a.machine && s.secrets.At(p) == a.ourSecret
    ensures Moved(s, TP.Run(s, KeepaliveActs(p, a, k)), p, SendKeepalive(a, k).machine, [])
  {
    hide TP.Run, TP.Apply, Moved, Begun, Listed, AfterBegun, PeerState.Encrypt, EnsureHandshake;
    var seal, b := TP.Seal(p, k.now, [], PacketLen(0)), SendKeepalive(a, k);
    var none: seq<TP.Sealing> := [];
    var begun := Begun(p, a.handshake, b.handshake, k.hs);
    var t := TP.Apply(s, seal);
    KeepaliveSealMoves(s, p, k.now);
    MovedParty(s, t, p, t.peers.At(p), []);
    KeepaliveBegins(a, k);
    BegunMoves(t, p, a.handshake, b.handshake, k.hs);
    RunOne(s, seal);
    RunJoin(s, [seal], begun);
    if a.machine.Encrypt(k.now, [], PacketLen(0)).1.Err? { NotBegun(a.machine, a.ourSecret, a.handshake, k.hs); }
    MovedOn(s, t, TP.Run(t, begun), p, t.peers.At(p), b.machine, none, none);
    assert none + none == none;
  }

  lemma NotBegun(m: PeerState, secret: nat, same: Option<Attempt>, hs: HsInput)
    ensures AfterBegun(m, secret, same, same, hs) == m
  {
  }

  lemma KeepaliveSealMoves(s: TP.Sys, p: Party, now: nat)
    ensures var m := s.peers.At(p);
            var (m', packet) := m.Encrypt(now, [], PacketLen(0));
            var t := TP.Apply(s, TP.Seal(p, now, [], PacketLen(0)));
            Moved(s, t, p, t.peers.At(p), []) && t.peers.At(p) == if packet.Ok? then m' else m
  {
    hide TP.Apply, Listed, PeerState.Encrypt;
    SealMoves(s, p, now, []);
    if s.peers.At(p).current.Some? { ListedOne(p, s.peers.At(p), []); } else { AE.SealedPacket(s.peers.At(p), now, []); }
  }

  lemma EstablishedMoves(s: TP.Sys, p: Party, a: ActorState, initiator: bool, e: EstablishedInput)
    requires s.peers.At(p) == a.machine && s.secrets.At(p) == a.ourSecret
    ensures Moved(s, TP.Run(s, EstablishedActs(p, a, initiator, e)), p, SessionEstablished(a, initiator, e).machine,
                  FlushLog(p, a.machine, e.flush.now, a.staged))
  {
    hide TP.Run, Moved, FlushActs, KeepaliveActs, FlushSends, SendKeepalive, FlushLog;
    var flush, log := FlushActs(p, a.(staged := []), a.staged, e.flush), FlushLog(p, a.machine, e.flush.now, a.staged);
    var b := FlushStaged(a, e.flush);
    FlushMoves(s, p, a.(staged := []), a.staged, e.flush);
    AE.FlushEffect(a.(staged := []), a.staged, e.flush);
    var t := TP.Run(s, flush);
    MovedParty(s, t, p, b.machine, log);
    if initiator && a.staged == [] {
      var more := KeepaliveActs(p, b, e.keepalive);
      KeepaliveMoves(t, p, b, e.keepalive);
      RunJoin(s, flush, more);
      MovedOn(s, t, TP.Run(t, more), p, b.machine, SendKeepalive(b, e.keepalive).machine, log, []);
      assert log + [] == log;
    } else {
      assert EstablishedActs(p, a, initiator, e) == flush;
    }
  }

  lemma Quiet(s: TP.Sys, p: Party)
    ensures TP.Run(s, []) == s && Moved(s, s, p, s.peers.At(p), [])
  {
  }

  /** A call that touches only the machine itself, then perhaps an initiation. */
  lemma SetThenBegin(s: TP.Sys, t: TP.Sys, calls: seq<TP.Action>, p: Party, a: ActorState, hs: HsInput)
    requires t == TP.Run(s, calls) && Moved(s, t, p, a.machine, []) && s.secrets.At(p) == a.ourSecret
    ensures var b := EnsureHandshake(a, hs);
            Moved(s, TP.Run(s, calls + Begun(p, a.handshake, b.handshake, hs)), p, b.machine, [])
  {
    hide TP.Run, Moved, Begun, AfterBegun, EnsureHandshake;
    var b := EnsureHandshake(a, hs);
    var none: seq<TP.Sealing> := [];
    var begun := Begun(p, a.handshake, b.handshake, hs);
    MovedParty(s, t, p, a.machine, []);
    EnsureBegins(a, hs);
    BegunMoves(t, p, a.handshake, b.handshake, hs);
    RunJoin(s, calls, begun);
    MovedOn(s, t, TP.Run(t, begun), p, a.machine, b.machine, none, none);
    assert none + none == none;
  }

  // ---------- arm by arm ----------

  predicate Synced(s: TP.Sys, p: Party, a: ActorState) {
    s.peers.At(p) == a.machine && s.secrets.At(p) == a.ourSecret
  }

  lemma EndpointMoves(s: TP.Sys, p: Party, address: Address)
    ensures Moved(s, TP.Run(s, [TP.SetEndpoint(p, address)]), p, s.peers.At(p).(endpoint := Some(address)), [])
  {
    RunOne(s, TP.SetEndpoint(p, address));
  }

  lemma PskMoves(s: TP.Sys, p: Party, psk: Update<Term>)
    ensures var m := s.peers.At(p);
            Moved(s, TP.Run(s, PskActs(p, psk)), p,
                  match psk case Keep => m case Clear => m.(psk := None) case Set(k) => m.(psk := Some(k)), [])
  {
    match psk
    case Keep =>
    case Clear => RunOne(s, TP.SetPsk(p, None));
    case Set(k) => RunOne(s, TP.SetPsk(p, Some(k)));
  }

  lemma ConnectMoves(s: TP.Sys, p: Party, a: ActorState, address: Address, hs: HsInput)
    requires Synced(s, p, a)
    ensures var b := OnConnect(a, address, hs);
            Moved(s, TP.Run(s, [TP.SetEndpoint(p, address)] + Begun(p, a.handshake, b.handshake, hs)), p, b.machine, [])
  {
    hide TP.Run, Moved, Begun, EnsureHandshake;
    EndpointMoves(s, p, address);
    SetThenBegin(s, TP.Run(s, [TP.SetEndpoint(p, address)]), [TP.SetEndpoint(p, address)], p,
                 a.(machine := a.machine.(endpoint := Some(address))), hs);
  }

  lemma ReconfigureMoves(s: TP.Sys, p: Party, a: ActorState, e: Event)
    requires Synced(s, p, a) && e.Reconfigure?
    ensures Moved(s, TP.Run(s, Acts(p, a, e, Local)), p, Step(a, e).machine, [])
  {
    hide TP.Run, Moved, Begun, OnConnect, PskActs;
    var machine := match e.psk case Keep => a.machine case Clear => a.machine.(psk := None) case Set(k) => a.machine.(psk := Some(k));
    var persistent := match e.keepalive case Keep => a.persistentKeepalive case Clear => None case Set(i) => Some(i);
    var c := a.(machine := machine, persistentKeepalive := persistent);
    var t := TP.Run(s, PskActs(p, e.psk));
    PskMoves(s, p, e.psk);
    MovedParty(s, t, p, machine, []);
    assert Step(a, e) == if e.endpoint.Some? then OnConnect(c, e.endpoint.value, e.hs) else c;
    if e.endpoint.Some? {
      var none: seq<TP.Sealing> := [];
      var b := OnConnect(c, e.endpoint.value, e.hs);
      var rest := [TP.SetEndpoint(p, e.endpoint.value)] + Begun(p, a.handshake, b.handshake, e.hs);
      ConnectMoves(t, p, c, e.endpoint.value, e.hs);
      RunJoin(s, PskActs(p, e.psk), rest);
      MovedOn(s, t, TP.Run(t, rest), p, machine, b.machine, none, none);
      assert none + none == none;
      assert Acts(p, a, e, Local) == PskActs(p, e.psk) + rest;
    } else {
      NothingBegun(p, a.handshake, e.hs);
      assert Acts(p, a, e, Local) == PskActs(p, e.psk);
    }
  }

  lemma NothingBegun(p: Party, same: Option<Attempt>, hs: HsInput)
    ensures Begun(p, same, same, hs) == []
  {
  }

  lemma BeginMoves(s: TP.Sys, p: Party, a: ActorState, hs: HsInput)
    requires Synced(s, p, a)
    ensures var b := EnsureHandshake(a, hs);
            Moved(s, TP.Run(s, Begun(p, a.handshake, b.handshake, hs)), p, b.machine, [])
  {
    hide TP.Run, Moved, Begun, EnsureHandshake;
    EnsureBegins(a, hs);
    BegunMoves(s, p, a.handshake, EnsureHandshake(a, hs).handshake, hs);
  }

  lemma RetryMoves(s: TP.Sys, p: Party, a: ActorState, now: nat, hs: HsInput)
    requires Synced(s, p, a)
    ensures Moved(s, TP.Run(s, RetryActs(p, a, now, hs)), p, OnHandshakeDue(a, now, hs).machine, [])
  {
    hide H.Initiate;
    if a.handshake.Some? {
      RunOne(s, TP.Abandon(p));
      RunOne(s, TP.Initiate(p, hs.values, H.INIT_MSG_LENGTH));
    }
  }

  lemma InitMoves(s: TP.Sys, p: Party, a: ActorState, e: Event, c: Carrier)
    requires Synced(s, p, a) && e.RecvInit? && Carried(s, p, e, c)
    ensures Moved(s, TP.Run(s, Acts(p, a, e, c)), p, Step(a, e).machine, [])
  {
    hide H.Receive, TP.InitWire, PeerState.Respond;
    RunOne(s, TP.DeliverInit(p, c.i, e.now, e.values, e.source, H.RESP_MSG_LENGTH));
  }

  lemma AnswerAdopts(s: TP.Sys, p: Party, a: ActorState, e: Event, c: Carrier)
    requires Synced(s, p, a) && e.RecvResp? && Carried(s, p, e, c)
    ensures var (machine, r) := a.machine.HandshakeResponse(a.ourSecret, e.now, e.msg, e.source);
            var t := TP.Apply(s, TP.DeliverResponse(p, c.r, e.now, e.source));
            Moved(s, t, p, if r.Ok? then machine else a.machine, []) && t.sealings == s.sealings
  {
    hide TP.RespWire, H.ResponseReceived;
  }

  lemma AnswerMoves(s: TP.Sys, p: Party, a: ActorState, e: Event, c: Carrier)
    requires Synced(s, p, a) && e.RecvResp? && Carried(s, p, e, c)
    ensures Moved(s, TP.Run(s, Acts(p, a, e, c)), p, Step(a, e).machine, SealedBy(p, a, e))
  {
    hide TP.Run, TP.Apply, TP.RespWire, Moved, EstablishedActs, SessionEstablished, FlushLog, PeerState.HandshakeResponse;
    var deliver := TP.DeliverResponse(p, c.r, e.now, e.source);
    var t := TP.Apply(s, deliver);
    AnswerAdopts(s, p, a, e, c);
    RunOne(s, deliver);
    if a.machine.HandshakeResponse(a.ourSecret, e.now, e.msg, e.source).1.Ok? {
      var b := Answered(a, e);
      var none: seq<TP.Sealing> := [];
      var rest := EstablishedActs(p, b, true, e.est);
      MovedParty(s, t, p, b.machine, []);
      EstablishedMoves(t, p, b, true, e.est);
      RunJoin(s, [deliver], rest);
      MovedOn(s, t, TP.Run(t, rest), p, b.machine, Step(a, e).machine, none, SealedBy(p, a, e));
      assert none + SealedBy(p, a, e) == SealedBy(p, a, e);
    } else {
      assert Acts(p, a, e, c) == [deliver];
    }
  }

  /** Opening a packet: the machine records it, and so does the network. */
  lemma PacketOpens(s: TP.Sys, p: Party, a: ActorState, e: Event, c: Carrier)
    requires Synced(s, p, a) && e.RecvData? && Carried(s, p, e, c)
    ensures var (machine, recv) := a.machine.Decrypt(e.now, e.receiver, e.packet, e.source);
            var t := TP.Apply(s, TP.DeliverData(p, c.d, e.now, e.source));
            && t.secrets == s.secrets && t.sealings == s.sealings
            && t.peers == s.peers.With(p, if recv.Ok? then machine else a.machine)
            && t.delivered == s.delivered + if recv.Ok? then [TP.Delivery(p, c.d)] else []
  {
    hide TP.DataWire, Received;
  }

  lemma ReceiptMoves(s: TP.Sys, p: Party, a: ActorState, e: Event, c: Carrier)
    requires Synced(s, p, a) && e.RecvData? && Carried(s, p, e, c)
    ensures var t := TP.Apply(s, TP.DeliverData(p, c.d, e.now, e.source));
            Moved(t, TP.Run(s, Acts(p, a, e, c)), p, Step(a, e).machine, SealedBy(p, a, e))
  {
    hide TP.Run, TP.Apply, TP.DataWire, Moved, EstablishedActs, SessionEstablished, FlushLog, Begun, EnsureHandshake,
         PeerState.Decrypt;
    var deliver := TP.DeliverData(p, c.d, e.now, e.source);
    var t := TP.Apply(s, deliver);
    var recv := a.machine.Decrypt(e.now, e.receiver, e.packet, e.source).1;
    PacketOpens(s, p, a, e, c);
    RunOne(s, deliver);
    if recv.Err? {
      Quiet(t, p);
    } else {
      AcceptedMoves(t, p, a, e, c);
      assert Acts(p, a, e, c) == [deliver] + Acts(p, a, e, c)[1..];
      RunJoin(s, [deliver], Acts(p, a, e, c)[1..]);
    }
  }

  lemma AcceptedMoves(t: TP.Sys, p: Party, a: ActorState, e: Event, c: Carrier)
    requires e.RecvData? && c.FromPacket?
    requires a.machine.Decrypt(e.now, e.receiver, e.packet, e.source).1.Ok?
    requires Synced(t, p, Accepted(a, e))
    ensures |Acts(p, a, e, c)| > 0
    ensures Moved(t, TP.Run(t, Acts(p, a, e, c)[1..]), p, Step(a, e).machine, SealedBy(p, a, e))
  {
    hide TP.Run, Moved, EstablishedActs, SessionEstablished, FlushLog, Begun, EnsureHandshake, PeerState.Decrypt;
    var recv := a.machine.Decrypt(e.now, e.receiver, e.packet, e.source).1;
    var b := Accepted(a, e);
    var log, b' := SealedBy(p, a, e), if recv.value.confirmed then SessionEstablished(b, false, e.est) else b;
    var flush := if recv.value.confirmed then EstablishedActs(p, b, false, e.est) else [];
    var rekey := b.session.Some? && b.session.value.RekeyAfterReceive(e.now);
    var begun := Begun(p, b'.handshake, Step(a, e).handshake, e.hs);
    assert Step(a, e) == if rekey then EnsureHandshake(b', e.hs) else b';
    assert Acts(p, a, e, c)[1..] == flush + begun;
    var u := TP.Run(t, flush);
    Quiet(t, p);
    EstablishedMoves(t, p, b, false, e.est);
    EstablishedOwner(b, false, e.est);
    MovedParty(t, u, p, b'.machine, log);
    BeginMoves(u, p, b', e.hs);
    NothingBegun(p, b'.handshake, e.hs);
    Quiet(u, p);
    RunJoin(t, flush, begun);
    MovedOn(t, u, TP.Run(u, begun), p, b'.machine, Step(a, e).machine, log, []);
    assert log + [] == log;
  }

  lemma EstablishedOwner(a: ActorState, initiator: bool, e: EstablishedInput)
    ensures var b := SessionEstablished(a, initiator, e);
            && AE.SameOwner(a, b)
            && b.history.sealed == a.history.sealed + Prefix(a.machine, e.flush.now, a.staged)
  {
    hide FlushSends, SendKeepalive, SealAll;
    AE.FlushEffect(a.(staged := []), a.staged, e.flush);
    AE.KeepaliveEffect(FlushStaged(a, e.flush), e.keepalive);
  }

  /** Every arm but the receipt of a packet. */
  lemma ArmMoves(s: TP.Sys, p: Party, a: ActorState, e: Event, c: Carrier)
    requires Synced(s, p, a) && Carried(s, p, e, c) && !e.RecvData?
    ensures Moved(s, TP.Run(s, Acts(p, a, e, c)), p, Step(a, e).machine, SealedBy(p, a, e))
  {
    hide TP.Run, Moved, Begun, OnReconfigure, OnConnect, FlushSends, FlushActs, OnRecvInit, OnRecvResp, RetryActs,
         OnHandshakeDue, SendKeepalive, KeepaliveActs, EnsureHandshake, FlushLog;
    match e
    case Connect(address, hs) => ConnectMoves(s, p, a, address, hs);
    case Reconfigure(_, _, _, _) => ReconfigureMoves(s, p, a, e);
    case SendData(payloads, f) =>
      FlushMoves(s, p, a.(history := a.history.(submitted := a.history.submitted + payloads)), payloads, f);
    case RecvInit(_, _, _, _, _) => InitMoves(s, p, a, e, c);
    case RecvResp(_, _, _, _) => AnswerMoves(s, p, a, e, c);
    case HandshakeDue(now, hs) => RetryMoves(s, p, a, now, hs);
    case RecvCookie(_) => Quiet(s, p);
    case SessionExpired => Quiet(s, p);
    case KeepaliveDue(k) => KeepaliveMoves(s, p, a, k);
    case NewHandshakeDue(hs) =>
      BeginMoves(s, p, a.(session := if a.session.Some? then Some(a.session.value.(newHandshakeAt := None)) else None), hs);
    case PersistentDue(now, k, hs) =>
      KeepaliveMoves(s, p, a.(clock := now, lastSend := now), k);
      BeginMoves(s, p, a.(clock := now, lastSend := now), hs);
  }

  // ---------- every move keeps the books ----------

  predicate Distinct(list: seq<TP.Sealing>) {
    forall j, k | 0 <= j < k < |list| :: list[j] != list[k]
  }

  function PayloadsOf(list: seq<TP.Sealing>): (r: seq<Payload>)
    ensures |r| == |list| && forall k | 0 <= k < |list| :: r[k] == list[k].payload
  {
    seq(|list|, k requires 0 <= k < |list| => list[k].payload)
  }

  /** The log of a party's sealed payloads: its own packets, each once, and all that carry anything. */
  predicate SealedOk(s: TP.Sys, p: Party, list: seq<TP.Sealing>) {
    && Distinct(list)
    && (forall d | d in list :: d in s.sealings && d.sender == p)
    && (forall d | d in s.sealings && d.sender == p && d.payload != [] :: d in list)
  }

  /** The packets behind the inbound payloads were delivered here, each once. */
  predicate TakenOk(s: TP.Sys, p: Party, list: seq<TP.Sealing>) {
    && Distinct(list)
    && (forall d | d in list :: d.payload != [] && TP.Delivery(p, d) in s.delivered)
  }

  ghost predicate PartyOk(w: World, p: Party) {
    var a := w.actors.At(p);
    && Synced(w.net, p, a) && AR.Inv(a, false)
    && PayloadsOf(w.sealed.At(p)) == a.history.sealed && SealedOk(w.net, p, w.sealed.At(p))
    && PayloadsOf(w.taken.At(p)) == a.inbound && TakenOk(w.net, p, w.taken.At(p))
  }

  ghost predicate Inv(w: World) {
    TP.Inv(w.net) && PartyOk(w, Left) && PartyOk(w, Right)
  }

  /** Packets not on the network yet. */
  predicate Unsent(s: TP.Sys, p: Party, list: seq<TP.Sealing>) {
    Distinct(list) && forall d | d in list :: d !in s.sealings && d.sender == p
  }

  /** Sealing uses counters no packet has. */
  lemma ListedFresh(s: TP.Sys, p: Party, payloads: seq<Payload>)
    requires TP.Inv(s)
    ensures var list := Listed(p, s.peers.At(p), payloads);
            Unsent(s, p, list)
  {
    hide TP.InitsOk, TP.ResponsesOk, TP.SealingsOk, TP.DeliveredOk, TP.PendingOk, TP.AnsweredOk, TP.Remembered, TP.Owned;
    assert TP.SessionsOk(s, p);
  }

  lemma FlushPayloads(p: Party, m: PeerState, now: nat, payloads: seq<Payload>)
    ensures PayloadsOf(FlushLog(p, m, now, payloads)) == Prefix(m, now, payloads)
  {
    hide SealAll;
    AE.SealedPackets(m, now, payloads);
  }

  lemma PayloadsJoin(x: seq<TP.Sealing>, y: seq<TP.Sealing>)
    ensures PayloadsOf(x + y) == PayloadsOf(x) + PayloadsOf(y)
  {
  }

  lemma SealedMore(s: TP.Sys, t: TP.Sys, p: Party, m: PeerState, list: seq<TP.Sealing>, more: seq<TP.Sealing>)
    requires SealedOk(s, p, list) && Moved(s, t, p, m, more)
    requires Unsent(s, p, more)
    ensures SealedOk(t, p, list + more)
  {
    var all := list + more;
    forall j, k | 0 <= j < k < |all| ensures all[j] != all[k] {
      assert j < |list| ==> all[j] in list;
      assert k >= |list| ==> all[k] in more;
    }
  }

  lemma SealedElsewhere(s: TP.Sys, t: TP.Sys, p: Party, m: PeerState, list: seq<TP.Sealing>, more: seq<TP.Sealing>)
    requires SealedOk(s, p.Other(), list) && Moved(s, t, p, m, more)
    ensures SealedOk(t, p.Other(), list)
  {
  }

  /** What an arm adds to the books: the payloads of the packets logged. */
  predicate Booked(p: Party, a: ActorState, e: Event, c: Carrier, b: ActorState) {
    && b.ourSecret == a.ourSecret
    && b.history.sealed == a.history.sealed + PayloadsOf(SealedBy(p, a, e))
    && b.inbound == a.inbound + PayloadsOf(TakenBy(a, e, c))
  }

  predicate SameBooks(a: ActorState, b: ActorState) {
    AE.SameOwner(a, b) && b.history.sealed == a.history.sealed
  }

  lemma NothingBooked(p: Party, a: ActorState, e: Event, c: Carrier, b: ActorState)
    requires SealedBy(p, a, e) == [] && TakenBy(a, e, c) == [] && SameBooks(a, b)
    ensures Booked(p, a, e, c, b)
  {
  }

  lemma FlushBooks(p: Party, a: ActorState, e: Event, c: Carrier)
    requires e.SendData?
    ensures Booked(p, a, e, c, Step(a, e))
  {
    hide SealAll, FlushSends, FlushLog;
    AE.FlushEffect(a.(history := a.history.(submitted := a.history.submitted + e.payloads)), e.payloads, e.flush);
    FlushPayloads(p, a.machine, e.flush.now, e.payloads);
  }

  lemma AnswerBooks(p: Party, a: ActorState, e: Event, c: Carrier)
    requires e.RecvResp?
    ensures Booked(p, a, e, c, Step(a, e))
  {
    hide SessionEstablished, FlushLog, Prefix, H.ResponseReceived, H.FinishInitiator;
    if a.machine.HandshakeResponse(a.ourSecret, e.now, e.msg, e.source).1.Ok? {
      var b := Answered(a, e);
      EstablishedOwner(b, true, e.est);
      FlushPayloads(p, b.machine, e.est.flush.now, b.staged);
    }
  }

  lemma ReceiptBooks(p: Party, a: ActorState, e: Event, c: Carrier)
    requires e.RecvData? && c.FromPacket?
    requires var recv := a.machine.Decrypt(e.now, e.receiver, e.packet, e.source).1;
             recv.Ok? ==> recv.value.payload == c.d.payload
    ensures Booked(p, a, e, c, Step(a, e))
  {
    hide SessionEstablished, EnsureHandshake, FlushLog, Prefix, PeerState.Decrypt;
    var recv := a.machine.Decrypt(e.now, e.receiver, e.packet, e.source).1;
    if recv.Ok? {
      var b := Accepted(a, e);
      var b' := if recv.value.confirmed then SessionEstablished(b, false, e.est) else b;
      var rekey := b.session.Some? && b.session.value.RekeyAfterReceive(e.now);
      assert Step(a, e) == if rekey then EnsureHandshake(b', e.hs) else b';
      EstablishedOwner(b, false, e.est);
      FlushPayloads(p, b.machine, e.est.flush.now, b.staged);
      AE.HandshakeEffect(b', 0, e.hs);
    }
  }

  lemma ArmBooks(p: Party, a: ActorState, e: Event, c: Carrier)
    requires !e.RecvData?
    ensures Booked(p, a, e, c, Step(a, e))
  {
    hide SendHandshake, EnsureHandshake, FlushSends, SendKeepalive, OnSendData, OnRecvResp, OnConnect, OnReconfigure,
         PeerState.Respond, Booked;
    match e
    case SendData(_, _) => FlushBooks(p, a, e, c);
    case RecvResp(_, _, _, _) => AnswerBooks(p, a, e, c);
    case Connect(_, _) => AE.ReconfigureEffect(a, e); NothingBooked(p, a, e, c, Step(a, e));
    case Reconfigure(_, _, _, _) => AE.ReconfigureEffect(a, e); NothingBooked(p, a, e, c, Step(a, e));
    case HandshakeDue(now, hs) =>
      if a.handshake.Some? { AE.HandshakeEffect(a.(clock := now), a.handshake.value.firstSent, hs); }
      NothingBooked(p, a, e, c, Step(a, e));
    case KeepaliveDue(k) => AE.KeepaliveEffect(a, k); NothingBooked(p, a, e, c, Step(a, e));
    case NewHandshakeDue(hs) =>
      AE.HandshakeEffect(a.(session := if a.session.Some? then Some(a.session.value.(newHandshakeAt := None)) else None), 0, hs);
      NothingBooked(p, a, e, c, Step(a, e));
    case PersistentDue(now, k, hs) =>
      AE.KeepaliveEffect(a.(clock := now, lastSend := now), k);
      AE.HandshakeEffect(a.(clock := now, lastSend := now), 0, hs);
      NothingBooked(p, a, e, c, Step(a, e));
    case _ => NothingBooked(p, a, e, c, Step(a, e));
  }

  lemma AnswerUnsent(s: TP.Sys, p: Party, a: ActorState, e: Event, c: Carrier)
    requires TP.Inv(s) && Synced(s, p, a) && Carried(s, p, e, c) && e.RecvResp? && TP.ValidRun(s, Acts(p, a, e, c))
    ensures Unsent(s, p, SealedBy(p, a, e))
  {
    hide TP.Inv, TP.Run, TP.Apply, TP.RespWire, EstablishedActs, SessionEstablished, Listed, Prefix,
         PeerState.HandshakeResponse;
    var deliver := TP.DeliverResponse(p, c.r, e.now, e.source);
    var t := TP.Apply(s, deliver);
    AnswerAdopts(s, p, a, e, c);
    assert Acts(p, a, e, c)[0] == deliver;
    TP.StepKeeps(s, deliver);
    if a.machine.HandshakeResponse(a.ourSecret, e.now, e.msg, e.source).1.Ok? {
      var b := Answered(a, e);
      MovedParty(s, t, p, b.machine, []);
      ListedFresh(t, p, Prefix(b.machine, e.est.flush.now, a.staged));
    }
  }

  lemma ReceiptUnsent(s: TP.Sys, p: Party, a: ActorState, e: Event, c: Carrier)
    requires TP.Inv(s) && Synced(s, p, a) && Carried(s, p, e, c) && e.RecvData? && c.d in s.sealings
    ensures Unsent(s, p, SealedBy(p, a, e))
  {
    hide TP.Inv, TP.Run, TP.Apply, TP.DataWire, Listed, Prefix, PeerState.Decrypt;
    var deliver := TP.DeliverData(p, c.d, e.now, e.source);
    PacketOpens(s, p, a, e, c);
    TP.StepKeeps(s, deliver);
    var (machine, recv) := a.machine.Decrypt(e.now, e.receiver, e.packet, e.source);
    if recv.Ok? {
      ListedFresh(TP.Apply(s, deliver), p, Prefix(machine, e.est.flush.now, a.staged));
    }
  }

  lemma ArmUnsent(s: TP.Sys, p: Party, a: ActorState, e: Event, c: Carrier)
    requires TP.Inv(s) && Synced(s, p, a) && Carried(s, p, e, c) && !e.RecvData? && TP.ValidRun(s, Acts(p, a, e, c))
    ensures Unsent(s, p, SealedBy(p, a, e))
  {
    hide TP.Inv, TP.ValidRun, Acts, Listed, Prefix, PeerState.HandshakeResponse;
    if e.SendData? {
      ListedFresh(s, p, Prefix(a.machine, e.flush.now, e.payloads));
    } else if e.RecvResp? {
      AnswerUnsent(s, p, a, e, c);
    }
  }

  /** The network once the packet behind an event, if any, is opened. */
  function Opened(s: TP.Sys, p: Party, e: Event, c: Carrier): TP.Sys {
    if e.RecvData? && c.FromPacket? then TP.Apply(s, TP.DeliverData(p, c.d, e.now, e.source)) else s
  }

  /** What an arm leaves: its machine moved on from the opened packet, and the books agree. */
  ghost predicate Arm(s: TP.Sys, t: TP.Sys, p: Party, a: ActorState, e: Event, c: Carrier) {
    var o := Opened(s, p, e, c);
    && Moved(o, t, p, Step(a, e).machine, SealedBy(p, a, e))
    && Unsent(o, p, SealedBy(p, a, e))
    && Booked(p, a, e, c, Step(a, e))
    && o.secrets == s.secrets && o.sealings == s.sealings && s.delivered <= o.delivered && TP.DeliveredOk(o)
    && o.peers.At(p.Other()) == s.peers.At(p.Other())
    && (forall d | d in TakenBy(a, e, c) :: d.payload != [] && o.delivered == s.delivered + [TP.Delivery(p, d)])
  }

  lemma ReceiptArm(s: TP.Sys, p: Party, a: ActorState, e: Event, c: Carrier)
    requires TP.Inv(s) && Synced(s, p, a) && Carried(s, p, e, c) && e.RecvData? && TP.ValidRun(s, Acts(p, a, e, c))
    ensures Arm(s, TP.Run(s, Acts(p, a, e, c)), p, a, e, c)
  {
    hide TP.Inv, TP.Run, TP.Apply, TP.DataWire, Moved, Booked, SealedBy, Step, EstablishedActs, SessionEstablished,
         PeerState.Decrypt, Accepted;
    var deliver := TP.DeliverData(p, c.d, e.now, e.source);
    assert Acts(p, a, e, c)[0] == deliver;
    assert c.d in s.sealings;
    PacketOpens(s, p, a, e, c);
    PacketPayload(s, p, c.d, e.now, e.source);
    ReceiptMoves(s, p, a, e, c);
    ReceiptBooks(p, a, e, c);
    ReceiptUnsent(s, p, a, e, c);
    TP.StepKeeps(s, deliver);
    InvDelivered(TP.Apply(s, deliver));
  }

  lemma PacketPayload(s: TP.Sys, p: Party, d: TP.Sealing, now: nat, source: Address)
    requires TP.Inv(s) && d in s.sealings
    ensures var recv := s.peers.At(p).Decrypt(now, d.receiver, TP.DataWire(d), source).1;
            recv.Ok? ==> recv.value.payload == d.payload
  {
    hide TP.Inv, TP.DataWire, TP.DoDeliverData, PeerState.Decrypt;
    TP.DeliverDataEffect(s, p, d, now, source);
  }

  lemma InvDelivered(s: TP.Sys)
    requires TP.Inv(s)
    ensures TP.DeliveredOk(s)
  {
  }

  lemma OtherArm(s: TP.Sys, p: Party, a: ActorState, e: Event, c: Carrier)
    requires TP.Inv(s) && Synced(s, p, a) && Carried(s, p, e, c) && !e.RecvData? && TP.ValidRun(s, Acts(p, a, e, c))
    ensures Arm(s, TP.Run(s, Acts(p, a, e, c)), p, a, e, c)
  {
    hide TP.Inv, TP.Run, TP.ValidRun, Moved, Booked, SealedBy, Step, Acts, Carried;
    ArmMoves(s, p, a, e, c);
    ArmBooks(p, a, e, c);
    ArmUnsent(s, p, a, e, c);
    InvDelivered(s);
  }

  lemma TakenKept(s: TP.Sys, t: TP.Sys, p: Party, list: seq<TP.Sealing>)
    requires TakenOk(s, p, list) && s.delivered <= t.delivered
    ensures TakenOk(t, p, list)
  {
    assert forall x | x in s.delivered :: x in t.delivered;
  }

  lemma TakenMore(s: TP.Sys, t: TP.Sys, p: Party, list: seq<TP.Sealing>, d: TP.Sealing)
    requires TakenOk(s, p, list) && t.delivered == s.delivered + [TP.Delivery(p, d)] && TP.DeliveredOk(t)
    requires d.payload != []
    ensures TakenOk(t, p, list + [d])
  {
    var x := TP.Delivery(p, d);
    assert t.delivered[|s.delivered|] == x;
    assert x !in s.delivered by {
      assert forall k | 0 <= k < |s.delivered| :: t.delivered[k] == s.delivered[k];
    }
    assert d !in list;
    assert forall y | y in s.delivered :: y in t.delivered;
  }

  lemma SealedSame(s: TP.Sys, t: TP.Sys, p: Party, list: seq<TP.Sealing>)
    requires SealedOk(s, p, list) && t.sealings == s.sealings
    ensures SealedOk(t, p, list)
  {
  }

  /** The party that moves. */
  lemma MoverOk(w: World, m: Move)
    requires PartyOk(w, m.p) && Arm(w.net, Do(w, m).net, m.p, w.actors.At(m.p), m.e, m.c)
    requires Timely(w.actors.At(m.p), m.e)
    ensures PartyOk(Do(w, m), m.p)
  {
    hide TP.Run, Acts, Step, SealedBy, TakenBy, Opened, Moved, Unsent, SealedOk, TakenOk, AR.Inv, TP.DeliveredOk, Timely;
    var p, a, w' := m.p, w.actors.At(m.p), Do(w, m);
    var o, b := Opened(w.net, p, m.e, m.c), Step(a, m.e);
    var sealed, taken := SealedBy(p, a, m.e), TakenBy(a, m.e, m.c);
    MovedParty(o, w'.net, p, b.machine, sealed);
    AR.StepKeeps(a, m.e, false);
    SealedSame(w.net, o, p, w.sealed.At(p));
    SealedMore(o, w'.net, p, b.machine, w.sealed.At(p), sealed);
    PayloadsJoin(w.sealed.At(p), sealed);
    PayloadsJoin(w.taken.At(p), taken);
    TakenAfter(w, m);
  }

  lemma TakenAfter(w: World, m: Move)
    requires PartyOk(w, m.p) && Arm(w.net, Do(w, m).net, m.p, w.actors.At(m.p), m.e, m.c)
    ensures TakenOk(Do(w, m).net, m.p, w.taken.At(m.p) + TakenBy(w.actors.At(m.p), m.e, m.c))
  {
    hide TP.Run, Acts, Step, SealedBy, Opened, Moved, Unsent, SealedOk, TakenOk, AR.Inv, TP.DeliveredOk, PeerState.Decrypt;
    var p, a, t := m.p, w.actors.At(m.p), Do(w, m).net;
    var o := Opened(w.net, p, m.e, m.c);
    var list, taken := w.taken.At(p), TakenBy(a, m.e, m.c);
    MovedParty(o, t, p, Step(a, m.e).machine, SealedBy(p, a, m.e));
    if taken == [] {
      assert list + taken == list;
      TakenKept(w.net, t, p, list);
    } else {
      assert taken == [m.c.d];
      TakenMore(w.net, o, p, list, m.c.d);
      TakenKept(o, t, p, list + taken);
    }
  }

  /** The party that does not. */
  lemma OtherOk(w: World, m: Move)
    requires PartyOk(w, m.p.Other()) && Arm(w.net, Do(w, m).net, m.p, w.actors.At(m.p), m.e, m.c)
    ensures PartyOk(Do(w, m), m.p.Other())
  {
    hide TP.Run, Acts, Step, SealedBy, TakenBy, Opened, Moved, Unsent, SealedOk, TakenOk, AR.Inv, TP.DeliveredOk, PayloadsOf;
    var p, q, a, w' := m.p, m.p.Other(), w.actors.At(m.p), Do(w, m);
    var o, b := Opened(w.net, p, m.e, m.c), Step(a, m.e);
    MovedParty(o, w'.net, p, b.machine, SealedBy(p, a, m.e));
    SealedSame(w.net, o, q, w.sealed.At(q));
    SealedElsewhere(o, w'.net, p, b.machine, w.sealed.At(q), SealedBy(p, a, m.e));
    TakenKept(w.net, o, q, w.taken.At(q));
    TakenKept(o, w'.net, q, w.taken.At(q));
  }

  /** Every move of either driver is a run of its machine over the network, and keeps the books. */
  lemma StepKeeps(w: World, m: Move)
    requires Inv(w) && Enabled(w, m)
    ensures Inv(Do(w, m))
  {
    hide TP.Inv, TP.Run, TP.ValidRun, Acts, Step, Arm, AR.Inv, SealedOk, TakenOk, PayloadsOf, Carried, Timely, Do;
    var a := w.actors.At(m.p);
    assert PartyOk(w, m.p) && PartyOk(w, m.p.Other());
    if m.e.RecvData? { ReceiptArm(w.net, m.p, a, m.e, m.c); } else { OtherArm(w.net, m.p, a, m.e, m.c); }
    TP.RunKeeps(w.net, Acts(m.p, a, m.e, m.c));
    DoNet(w, m);
    MoverOk(w, m);
    OtherOk(w, m);
    assert m.p == Left || m.p.Other() == Left;
  }

  lemma DoNet(w: World, m: Move)
    ensures Do(w, m).net == TP.Run(w.net, Acts(m.p, w.actors.At(m.p), m.e, m.c))
  {
  }

  lemma StartKeeps(secrets: Pair<nat>, psks: Pair<Option<Term>>, keepalives: Pair<Option<nat>>)
    requires secrets.left != secrets.right
    ensures Inv(Start(secrets, psks, keepalives))
  {
    hide TP.Inv, AR.Inv;
    var s := TP.Start(secrets.left, secrets.right);
    TP.StartKeeps(secrets.left, secrets.right);
    TP.StepKeeps(s, TP.SetPsk(Left, psks.left));
    TP.StepKeeps(TP.Apply(s, TP.SetPsk(Left, psks.left)), TP.SetPsk(Right, psks.right));
    AR.SpawnKeeps(secrets.left, Point(secrets.right), psks.left, keepalives.left, false);
    AR.SpawnKeeps(secrets.right, Point(secrets.left), psks.right, keepalives.right, false);
  }

  lemma {:induction false} RunKeeps(w: World, moves: seq<Move>)
    requires Inv(w) && ValidRun(w, moves)
    ensures Inv(Run(w, moves))
    decreases |moves|
  {
    hide Inv, Enabled, Do;
    if moves != [] {
      StepKeeps(w, moves[0]);
      RunKeeps(Do(w, moves[0]), moves[1..]);
    }
  }

  // ---------- end to end ----------

  /** What arrived, located in what was submitted: each submission at most once. */
  predicate Located(submitted: seq<Payload>, inbound: seq<Payload>, at: seq<nat>) {
    && |at| == |inbound|
    && (forall k | 0 <= k < |at| :: at[k] < |submitted| && inbound[k] == submitted[at[k]])
    && (forall j, k | 0 <= j < k < |at| :: at[j] != at[k])
  }

  predicate Increasing(at: seq<nat>) {
    forall j, k | 0 <= j < k < |at| :: at[j] < at[k]
  }

  /** One packet was sealed before another. */
  predicate Before(list: seq<TP.Sealing>, d: TP.Sealing, e: TP.Sealing) {
    exists j, k :: 0 <= j < k < |list| && list[j] == d && list[k] == e
  }

  /** A party's payloads arrived in the order in which the other sealed them. */
  predicate InOrder(w: World, q: Party) {
    var got, sent := w.taken.At(q), w.sealed.At(q.Other());
    forall j, k | 0 <= j < k < |got| :: Before(sent, got[j], got[k])
  }

  /** Where each packet stands in the sender's log. */
  ghost function Places(got: seq<TP.Sealing>, sent: seq<TP.Sealing>): (r: seq<nat>)
    requires forall d | d in got :: d in sent
    ensures |r| == |got| && forall k | 0 <= k < |r| :: r[k] < |sent| && sent[r[k]] == got[k]
  {
    if got == [] then [] else
    assert got[0] in got;
    assert forall d | d in got[1..] :: d in got;
    var i: nat :| i < |sent| && sent[i] == got[0];
    [i] + Places(got[1..], sent)
  }

  /** Nothing else reaches a party's application than packets the other sealed. */
  lemma TakenWasSealed(w: World, q: Party)
    requires Inv(w)
    ensures forall d | d in w.taken.At(q) :: d in w.sealed.At(q.Other())
  {
    hide TP.Inv, AR.Inv, Synced;
    InvDelivered(w.net);
    assert PartyOk(w, q) && PartyOk(w, q.Other());
    forall d | d in w.taken.At(q) ensures d in w.sealed.At(q.Other()) {
      var k :| 0 <= k < |w.net.delivered| && w.net.delivered[k] == TP.Delivery(q, d);
      assert q == d.sender.Other();
    }
  }

  /** Packets in the order of their places. */
  lemma PlacesOrder(got: seq<TP.Sealing>, sent: seq<TP.Sealing>)
    requires Distinct(got) && Distinct(sent) && forall d | d in got :: d in sent
    ensures var at := Places(got, sent);
            && (forall j, k | 0 <= j < k < |at| :: at[j] != at[k])
            && ((forall j, k | 0 <= j < k < |got| :: Before(sent, got[j], got[k])) <==> Increasing(at))
  {
    hide Places;
    var at := Places(got, sent);
    forall j, k | 0 <= j < k < |got|
      ensures at[j] != at[k] && (Before(sent, got[j], got[k]) <==> at[j] < at[k])
    {
      assert sent[at[j]] == got[j] && sent[at[k]] == got[k];
    }
    if Increasing(at) {
      forall j, k | 0 <= j < k < |got| ensures Before(sent, got[j], got[k]) { assert at[j] < at[k]; }
    }
  }

  /** End to end, in every run of two drivers over a network that loses,
      duplicates, reorders and misdelivers: what a party hands to its application
      was submitted at the other end, each submission at most once, and in
      submission order exactly when its packets arrived in the order of sealing. */
  lemma InboundIsSubmitted(secrets: Pair<nat>, psks: Pair<Option<Term>>, keepalives: Pair<Option<nat>>,
                           moves: seq<Move>, q: Party)
    requires secrets.left != secrets.right && ValidRun(Start(secrets, psks, keepalives), moves)
    ensures var w := Run(Start(secrets, psks, keepalives), moves);
            exists at :: && Located(w.actors.At(q.Other()).history.submitted, w.actors.At(q).inbound, at)
                         && (InOrder(w, q) <==> Increasing(at))
  {
    hide Inv, Start, Run, ValidRun, InOrder;
    StartKeeps(secrets, psks, keepalives);
    RunKeeps(Start(secrets, psks, keepalives), moves);
    InboundLocated(Run(Start(secrets, psks, keepalives), moves), q);
  }

  lemma InboundLocated(w: World, q: Party)
    requires Inv(w)
    ensures exists at :: && Located(w.actors.At(q.Other()).history.submitted, w.actors.At(q).inbound, at)
                         && (InOrder(w, q) <==> Increasing(at))
  {
    hide TP.Inv, AR.Inv, Synced, Before, Places, AT.SealedPositions, TakenOk, SealedOk;
    assert PartyOk(w, q) && PartyOk(w, q.Other());
    var got, sent, h := w.taken.At(q), w.sealed.At(q.Other()), w.actors.At(q.Other()).history;
    TakenWasSealed(w, q);
    assert Distinct(got) && Distinct(sent) by { Apart(w, q); }
    var places := Places(got, sent);
    PlacesOrder(got, sent);
    AT.FifoByInv(w.actors.At(q.Other()));
    var positions := AT.SealedPositions(h.fates);
    var at: seq<nat> := seq(|places|, k requires 0 <= k < |places| => positions[places[k]]);
    Through(positions, places, at);
    assert Located(h.submitted, w.actors.At(q).inbound, at) by {
      forall k | 0 <= k < |at| ensures at[k] < |h.submitted| && w.actors.At(q).inbound[k] == h.submitted[at[k]] {
        assert h.sealed[places[k]] == sent[places[k]].payload == got[k].payload;
      }
    }
  }

  lemma Apart(w: World, q: Party)
    requires PartyOk(w, q) && PartyOk(w, q.Other())
    ensures Distinct(w.taken.At(q)) && Distinct(w.sealed.At(q.Other()))
  {
    hide AR.Inv, Synced, PayloadsOf;
  }

  /** Looking places up in an ascending list keeps them apart and in order. */
  lemma Through(positions: seq<nat>, places: seq<nat>, at: seq<nat>)
    requires forall i, j | 0 <= i < j < |positions| :: positions[i] < positions[j]
    requires |at| == |places| && forall k | 0 <= k < |at| :: places[k] < |positions| && at[k] == positions[places[k]]
    requires forall j, k | 0 <= j < k < |places| :: places[j] != places[k]
    ensures forall j, k | 0 <= j < k < |at| :: at[j] != at[k]
    ensures Increasing(places) <==> Increasing(at)
  {
    forall j, k | 0 <= j < k < |at| ensures at[j] != at[k] && (places[j] < places[k] <==> at[j] < at[k]) {
      if places[j] < places[k] {
        assert positions[places[j]] < positions[places[k]];
      } else {
        assert positions[places[k]] < positions[places[j]];
      }
    }
    if Increasing(at) {
      forall j, k | 0 <= j < k < |places| ensures places[j] < places[k] { assert at[j] < at[k]; }
    }
  }
}
