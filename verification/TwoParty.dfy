/** Two peers and a network that may lose, duplicate, reorder and misdeliver
    messages: everything ever sent stays deliverable, to either party, forever.
    Handshakes may be retransmitted, abandoned and started by both sides at once. */
module TwoParty {
  import opened Wrappers
  import opened Parties
  import opened Crypto
  import opened Replay
  import opened Timing
  import opened TransportData
  import opened PeerSpec
  import H = Handshake
  import M = PeerTheorems

  /** An initiation sent by one party to the other. */
  datatype Initiation = Initiation(sender: Party, index: nat, ephemeral: nat, timestamp: nat)

  /** The answer to an initiation, sent by the other party. */
  datatype Response = Response(to: Initiation, index: nat, ephemeral: nat, psk: Option<Term>)

  /** One sealed transport packet. */
  datatype Sealing = Sealing(sender: Party, receiver: nat, key: Term, counter: nat, payload: Payload)

  datatype Delivery = Delivery(to: Party, sealing: Sealing)

  datatype Sys = Sys(
    secrets: Pair<nat>,
    peers: Pair<PeerState>,
    inits: set<Initiation>,
    responses: set<Response>,
    sealings: set<Sealing>,
    used: set<nat>,
    // bookkeeping of the run
    initiated: Pair<Option<Initiation>>,  // behind the pending handshake
    answered: Pair<Option<Response>>,     // the last response each party sent
    adopted: set<Response>,               // accepted by their initiators
    confirmed: set<Response>,             // confirmed at their responders
    delivered: seq<Delivery>)             // returned by decrypt, in order

  // ---------- what the records look like on the wire ----------

  function SentState(secrets: Pair<nat>, i: Initiation): H.InitSent {
    H.Initiate(secrets.At(i.sender), Point(secrets.At(i.sender.Other())), i.index, i.ephemeral, i.timestamp).value.0
  }

  function InitWire(secrets: Pair<nat>, i: Initiation): H.InitMsg {
    H.Initiate(secrets.At(i.sender), Point(secrets.At(i.sender.Other())), i.index, i.ephemeral, i.timestamp).value.1
  }

  function ReceivedState(secrets: Pair<nat>, i: Initiation): H.InitReceived {
    var sent := SentState(secrets, i);
    H.InitReceived(Point(secrets.At(i.sender)), Point(i.ephemeral), i.index, i.timestamp, sent.constr, sent.h)
  }

  function RespWire(secrets: Pair<nat>, r: Response): H.RespMsg {
    H.Respond(ReceivedState(secrets, r.to), r.index, r.ephemeral, r.psk).0
  }

  function Chain(secrets: Pair<nat>, r: Response): Term {
    H.Respond(ReceivedState(secrets, r.to), r.index, r.ephemeral, r.psk).1.constr
  }

  /** A party's end of the session a response establishes. */
  function End(secrets: Pair<nat>, p: Party, r: Response): H.TransportKeys {
    if p == r.to.sender then H.FinishInitiator(H.Established(r.to.index, r.index, Chain(secrets, r)))
    else H.FinishResponder(H.Established(r.index, r.to.index, Chain(secrets, r)))
  }

  function DataWire(d: Sealing): seq<Octet> {
    DataPacket(d.receiver, d.counter, d.key, d.payload)
  }

  // ---------- steps ----------

  datatype Action =
    | SetPsk(p: Party, psk: Option<Term>)
    | SetEndpoint(p: Party, address: Address)
    | Initiate(p: Party, v: HandshakeValues, outLen: nat)
    | Abandon(p: Party)
    | DeliverInit(p: Party, i: Initiation, now: nat, v: HandshakeValues, source: Address, outLen: nat)
    | DeliverResponse(p: Party, r: Response, now: nat, source: Address)
    | Seal(p: Party, now: nat, payload: Payload, outLen: nat)
    | DeliverData(p: Party, d: Sealing, now: nat, source: Address)

  /** A fresh ephemeral secret, and an index that fits the wire format. */
  predicate FreshValues(s: Sys, v: HandshakeValues) {
    v.ephemeralSecret !in s.used && v.index < INDEX_LIMIT
  }

  /** The driver's obligations: fresh secrets, and initiation timestamps that
      exceed every timestamp previously sent. Only sent messages are delivered. */
  predicate Enabled(s: Sys, a: Action) {
    match a
    case Initiate(p, v, _) =>
      FreshValues(s, v) && forall i | i in s.inits && i.sender == p :: i.timestamp < v.timestamp
    case DeliverInit(p, i, _, v, _, _) => i in s.inits && FreshValues(s, v)
    case DeliverResponse(p, r, _, _) => r in s.responses
    case DeliverData(p, d, _, _) => d in s.sealings
    case _ => true
  }

  function DoInitiate(s: Sys, p: Party, v: HandshakeValues, outLen: nat): Sys {
    var (peer, r) := s.peers.At(p).Initiate(s.secrets.At(p), v, outLen);
    if r.Err? then s else
    var i := Initiation(p, v.index, v.ephemeralSecret, v.timestamp);
    s.(peers := s.peers.With(p, peer), inits := s.inits + {i}, used := s.used + {v.ephemeralSecret},
       initiated := s.initiated.With(p, Some(i)))
  }

  /** The receive path hands a valid initiation to the peer registered under the key inside it. */
  function DoDeliverInit(s: Sys, p: Party, i: Initiation, now: nat, v: HandshakeValues, source: Address, outLen: nat): Sys {
    var received := H.Receive(s.secrets.At(p), InitWire(s.secrets, i));
    if received.None? || received.value.peerPublic != s.peers.At(p).peerKey then s else
    var (peer, r) := s.peers.At(p).Respond(now, received.value, v, source, outLen);
    if r.Err? then s else
    var sent := Response(i, v.index, v.ephemeralSecret, s.peers.At(p).psk);
    s.(peers := s.peers.With(p, peer), responses := s.responses + {sent}, used := s.used + {v.ephemeralSecret},
       answered := s.answered.With(p, Some(sent)))
  }

  function DoDeliverResponse(s: Sys, p: Party, r: Response, now: nat, source: Address): Sys {
    var (peer, result) := s.peers.At(p).HandshakeResponse(s.secrets.At(p), now, RespWire(s.secrets, r), source);
    if result.Err? then s else
    s.(peers := s.peers.With(p, peer), initiated := s.initiated.With(p, None), adopted := s.adopted + {r})
  }

  function DoSeal(s: Sys, p: Party, now: nat, payload: Payload, outLen: nat): Sys {
    var (peer, packet) := s.peers.At(p).Encrypt(now, payload, outLen);
    if packet.Err? then s else
    var session := s.peers.At(p).current.value;
    s.(peers := s.peers.With(p, peer),
       sealings := s.sealings + {Sealing(p, session.keys.peerIndex, session.keys.sendKey, session.sendCounter, payload)})
  }

  function DoDeliverData(s: Sys, p: Party, d: Sealing, now: nat, source: Address): Sys {
    var (peer, recv) := s.peers.At(p).Decrypt(now, d.receiver, DataWire(d), source);
    if recv.Err? then s else
    s.(peers := s.peers.With(p, peer), delivered := s.delivered + [Delivery(p, d)],
       confirmed := if recv.value.confirmed && s.answered.At(p).Some? then s.confirmed + {s.answered.At(p).value}
                    else s.confirmed)
  }

  function Apply(s: Sys, a: Action): Sys {
    match a
    case SetPsk(p, psk) => s.(peers := s.peers.With(p, s.peers.At(p).(psk := psk)))
    case SetEndpoint(p, address) => s.(peers := s.peers.With(p, s.peers.At(p).(endpoint := Some(address))))
    case Initiate(p, v, outLen) => DoInitiate(s, p, v, outLen)
    case Abandon(p) => s.(peers := s.peers.With(p, s.peers.At(p).Abandon().0), initiated := s.initiated.With(p, None))
    case DeliverInit(p, i, now, v, source, outLen) => DoDeliverInit(s, p, i, now, v, source, outLen)
    case DeliverResponse(p, r, now, source) => DoDeliverResponse(s, p, r, now, source)
    case Seal(p, now, payload, outLen) => DoSeal(s, p, now, payload, outLen)
    case DeliverData(p, d, now, source) => DoDeliverData(s, p, d, now, source)
  }

  function Start(left: nat, right: nat): Sys {
    Sys(Pair(left, right), Pair(NewPeer(Point(right)), NewPeer(Point(left))),
        {}, {}, {}, {}, Pair(None, None), Pair(None, None), {}, {}, [])
  }

  predicate ValidRun(s: Sys, actions: seq<Action>)
    decreases |actions|
  {
    actions == [] || (Enabled(s, actions[0]) && ValidRun(Apply(s, actions[0]), actions[1..]))
  }

  function Run(s: Sys, actions: seq<Action>): Sys
    decreases |actions|
  {
    if actions == [] then s else Run(Apply(s, actions[0]), actions[1..])
  }

  // ---------- invariants ----------

  predicate KeysOk(s: Sys) {
    && s.secrets.left != s.secrets.right
    && forall p: Party :: s.peers.At(p).peerKey == Point(s.secrets.At(p.Other()))
  }

  /** Initiations are told apart by ephemeral secret, and per sender by timestamp. */
  predicate InitsOk(s: Sys) {
    && (forall i | i in s.inits :: i.ephemeral in s.used && i.index < INDEX_LIMIT)
    && (forall i, j | i in s.inits && j in s.inits && i.ephemeral == j.ephemeral :: i == j)
    && (forall i, j | i in s.inits && j in s.inits && i.sender == j.sender && i.timestamp == j.timestamp :: i == j)
  }

  /** A pending handshake is the sender's newest initiation, and it was not yet completed. */
  predicate PendingOk(s: Sys, p: Party) {
    match s.initiated.At(p)
    case None => s.peers.At(p).pending == None
    case Some(i) =>
      && i in s.inits && i.sender == p
      && s.peers.At(p).pending == Some(PendingHandshake(SentState(s.secrets, i), i.index))
      && (forall j | j in s.inits && j.sender == p :: j.timestamp <= i.timestamp)
      && (forall r | r in s.adopted :: r.to != i)
  }

  /** Responses are told apart by ephemeral secret; each answers a real
      initiation, and a responder answers strictly newer ones over time. */
  predicate ResponsesOk(s: Sys) {
    && (forall r | r in s.responses :: r.to in s.inits && r.ephemeral in s.used && r.index < INDEX_LIMIT)
    && (forall r, q | r in s.responses && q in s.responses && r.ephemeral == q.ephemeral :: r == q)
    && s.confirmed <= s.adopted <= s.responses
  }

  predicate AnsweredOk(s: Sys, p: Party) {
    && (forall r | r in s.responses && r.to.sender == p.Other() ::
          && s.answered.At(p).Some?
          && r.to.timestamp <= s.answered.At(p).value.to.timestamp
          && (r.to.timestamp == s.answered.At(p).value.to.timestamp ==> r == s.answered.At(p).value))
    && match s.answered.At(p)
       case None => s.peers.At(p).lastTimestamp == None && s.peers.At(p).next == None
       case Some(a) =>
         && a in s.responses && a.to.sender == p.Other()
         && s.peers.At(p).lastTimestamp == Some(a.to.timestamp)
         // the responder's newest session waits in `next`, untouched, until it is confirmed
         && (s.peers.At(p).next.Some? <==> a !in s.confirmed)
         && (s.peers.At(p).next.Some? ==>
               var session := s.peers.At(p).next.value;
               session.keys == End(s.secrets, p, a) && session.window == EMPTY_WINDOW && session.sendCounter == 0)
  }

  /** Both ends of the session exist: the responder installed it, the initiator
      adopted it, and a responder that uses it has had it confirmed. */
  predicate Live(s: Sys, p: Party, r: Response) {
    r in s.adopted && (r.to.sender == p || r in s.confirmed)
  }

  ghost predicate Owned(s: Sys, p: Party, session: SessionState) {
    exists r :: Live(s, p, r) && session.keys == End(s.secrets, p, r)
  }

  ghost predicate SlotsOk(s: Sys, p: Party) {
    var peer := s.peers.At(p);
    && (peer.current.Some? ==> Owned(s, p, peer.current.value))
    && (peer.previous.Some? ==> peer.current.Some? && Owned(s, p, peer.previous.value))
    && (peer.previous.Some? ==> peer.current.value.keys.recvKey != peer.previous.value.keys.recvKey)
    && (peer.current.Some? ==>
          forall d | d in s.sealings && d.key == peer.current.value.keys.sendKey ::
            d.counter < peer.current.value.sendCounter)
  }

  ghost predicate SealingOk(s: Sys, d: Sealing) {
    && d.counter < REJECT_AFTER_MESSAGES
    && exists r :: Live(s, d.sender, r) && d.key == End(s.secrets, d.sender, r).sendKey
                   && d.receiver == End(s.secrets, d.sender, r).peerIndex
  }

  ghost predicate SealingsOk(s: Sys) {
    && (forall d | d in s.sealings :: SealingOk(s, d))
    && (forall d, e | d in s.sealings && e in s.sealings && d.key == e.key && d.counter == e.counter :: d == e)
  }

  predicate DeliveredUnder(delivered: seq<Delivery>, p: Party, key: Term, counter: nat) {
    exists k :: 0 <= k < |delivered| && delivered[k].to == p
                && delivered[k].sealing.key == key && delivered[k].sealing.counter == counter
  }

  /** A held session's replay window holds exactly what was delivered under it. */
  ghost predicate Remembered(s: Sys, p: Party, slot: Slot) {
    s.peers.At(p).At(slot).Some? ==>
      var session := s.peers.At(p).At(slot).value;
      forall c: nat :: c in session.window.accepted <==> DeliveredUnder(s.delivered, p, session.keys.recvKey, c)
  }

  predicate DeliveredOk(s: Sys) {
    && (forall k | 0 <= k < |s.delivered| ::
          s.delivered[k].sealing in s.sealings && s.delivered[k].to == s.delivered[k].sealing.sender.Other())
    && (forall j, k | 0 <= j < k < |s.delivered| :: s.delivered[j] != s.delivered[k])
  }

  ghost predicate SessionsOk(s: Sys, p: Party) {
    && AnsweredOk(s, p) && SlotsOk(s, p)
    && Remembered(s, p, Next) && Remembered(s, p, Current) && Remembered(s, p, Previous)
  }

  ghost predicate Inv(s: Sys) {
    && KeysOk(s) && InitsOk(s) && ResponsesOk(s) && SealingsOk(s) && DeliveredOk(s)
    && PendingOk(s, Left) && PendingOk(s, Right)
    && SessionsOk(s, Left) && SessionsOk(s, Right)
  }

  // ---------- symbolic facts ----------

  lemma ChainFresh(secrets: Pair<nat>, r: Response, q: Response)
    requires Chain(secrets, r) == Chain(secrets, q)
    ensures r.ephemeral == q.ephemeral
  {
    H.ChainDeterminesHandshake(ReceivedState(secrets, r.to), r.ephemeral, r.psk,
                               ReceivedState(secrets, q.to), q.ephemeral, q.psk);
  }

  /** A transport key determines the response it came from and the direction. */
  lemma KeyDetermines(secrets: Pair<nat>, p: Party, r: Response, p': Party, r': Response)
    ensures End(secrets, p, r).sendKey == End(secrets, p', r').sendKey ==> r.ephemeral == r'.ephemeral
    ensures End(secrets, p, r).recvKey == End(secrets, p', r').recvKey ==> r.ephemeral == r'.ephemeral
    ensures End(secrets, p, r).recvKey == End(secrets, p', r').sendKey ==> r.ephemeral == r'.ephemeral
    ensures End(secrets, p, r).recvKey == End(secrets, p', r).sendKey <==> p != p'
    ensures End(secrets, p, r).sendKey == End(secrets, p', r).sendKey <==> p == p'
    ensures H.Mirror(End(secrets, p, r), End(secrets, p.Other(), r))
  {
    if Chain(secrets, r) == Chain(secrets, r') {
      ChainFresh(secrets, r, r');
    }
  }

  lemma InitRead(secrets: Pair<nat>, i: Initiation, p: Party)
    requires secrets.left != secrets.right
    ensures H.Receive(secrets.At(p), InitWire(secrets, i)) ==
            if p == i.sender.Other() then Some(ReceivedState(secrets, i)) else None
  {
    H.InitiationRead(secrets.At(i.sender), secrets.At(i.sender.Other()), i.index, i.ephemeral, i.timestamp, secrets.At(p));
  }

  lemma ResponseRead(secrets: Pair<nat>, i: Initiation, r: Response, psk: Option<Term>)
    requires secrets.left != secrets.right
    ensures H.ResponseReceived(SentState(secrets, i), secrets.At(i.sender), psk, RespWire(secrets, r)) ==
            if i == r.to && H.PskTerm(psk) == H.PskTerm(r.psk)
            then Some(H.Established(i.index, r.index, Chain(secrets, r))) else None
  {
    H.ResponseRead(secrets.At(i.sender), secrets.At(i.sender.Other()), i.index, i.ephemeral, i.timestamp, psk,
                   secrets.At(r.to.sender), secrets.At(r.to.sender.Other()), r.to.index, r.to.ephemeral, r.to.timestamp,
                   r.index, r.ephemeral, r.psk, secrets.At(i.sender));
  }

  // ---------- every step keeps the invariant ----------

  /** History only grows: a session or packet that was accounted for stays so. */
  lemma Monotone(s: Sys, t: Sys, p: Party)
    requires s.secrets == t.secrets && s.adopted <= t.adopted && s.confirmed <= t.confirmed
    ensures forall session :: Owned(s, p, session) ==> Owned(t, p, session)
    ensures forall d :: SealingOk(s, d) ==> SealingOk(t, d)
  {
    forall session | Owned(s, p, session) ensures Owned(t, p, session) {
      var r :| Live(s, p, r) && session.keys == End(s.secrets, p, r);
      assert Live(t, p, r);
    }
    forall d | SealingOk(s, d) ensures SealingOk(t, d) {
      var r :| Live(s, d.sender, r) && d.key == End(s.secrets, d.sender, r).sendKey
               && d.receiver == End(s.secrets, d.sender, r).peerIndex;
      assert Live(t, d.sender, r);
    }
  }

  /** A session that moved or only sealed remembers what it remembered. */
  lemma RememberedSame(s: Sys, t: Sys, p: Party, slot: Slot, slot': Slot)
    requires Remembered(s, p, slot) && t.delivered == s.delivered
    requires var a, b := s.peers.At(p).At(slot), t.peers.At(p).At(slot');
             b.Some? ==> a.Some? && a.value.keys == b.value.keys && a.value.window == b.value.window
    ensures Remembered(t, p, slot')
  {
    hide DeliveredUnder;
  }

  /** A session with keys nothing was delivered under starts with an empty window. */
  lemma RememberedFresh(t: Sys, p: Party, slot: Slot)
    requires t.peers.At(p).At(slot).Some? && t.peers.At(p).At(slot).value.window == EMPTY_WINDOW
    requires forall k | 0 <= k < |t.delivered| :: t.delivered[k].sealing.key != t.peers.At(p).At(slot).value.keys.recvKey
    ensures Remembered(t, p, slot)
  {
  }

  /** A step that leaves a party's sessions and answers alone keeps what is said about them. */
  lemma PartyFrame(s: Sys, t: Sys, p: Party)
    requires s.secrets == t.secrets && s.sealings == t.sealings && s.delivered == t.delivered
    requires s.responses <= t.responses && s.adopted <= t.adopted && s.confirmed == t.confirmed
    requires forall r | r in t.responses && r !in s.responses :: r.to.sender == p
    requires s.answered.At(p) == t.answered.At(p)
    requires var a, b := s.peers.At(p), t.peers.At(p);
             a.lastTimestamp == b.lastTimestamp && a.next == b.next && a.current == b.current && a.previous == b.previous
    requires SessionsOk(s, p)
    ensures SessionsOk(t, p)
  {
    hide End, SentState, Remembered;
    Monotone(s, t, p);
    RememberedSame(s, t, p, Next, Next);
    RememberedSame(s, t, p, Current, Current);
    RememberedSame(s, t, p, Previous, Previous);
  }

  /** A step that seals and delivers nothing keeps what is said about packets. */
  lemma NetworkFrame(s: Sys, t: Sys)
    requires s.secrets == t.secrets && s.sealings == t.sealings && s.delivered == t.delivered
    requires s.adopted <= t.adopted && s.confirmed <= t.confirmed
    requires SealingsOk(s) && DeliveredOk(s)
    ensures SealingsOk(t) && DeliveredOk(t)
  {
    hide SealingOk;
    Monotone(s, t, Left);
  }

  lemma InitiateEffect(s: Sys, p: Party, v: HandshakeValues, outLen: nat)
    requires KeysOk(s)
    ensures var t := DoInitiate(s, p, v, outLen);
            var i := Initiation(p, v.index, v.ephemeralSecret, v.timestamp);
            || t == s
            || t == s.(peers := s.peers.With(p, s.peers.At(p).(
                                   pending := Some(PendingHandshake(SentState(s.secrets, i), i.index)))),
                       inits := s.inits + {i}, used := s.used + {i.ephemeral},
                       initiated := s.initiated.With(p, Some(i)))
  {
    assert s.peers.At(p).peerKey == Point(s.secrets.At(p.Other()));
  }

  lemma InitiatePending(s: Sys, t: Sys, p: Party, i: Initiation)
    requires PendingOk(s, p.Other()) && InitsOk(s) && ResponsesOk(s) && i.sender == p && i.ephemeral !in s.used
    requires forall j | j in s.inits && j.sender == p :: j.timestamp < i.timestamp
    requires t == s.(peers := s.peers.With(p, s.peers.At(p).(
                                pending := Some(PendingHandshake(SentState(s.secrets, i), i.index)))),
                     inits := s.inits + {i}, used := s.used + {i.ephemeral},
                     initiated := s.initiated.With(p, Some(i)))
    ensures PendingOk(t, Left) && PendingOk(t, Right)
  {
    hide SentState;
    assert PendingOk(t, p);
    assert PendingOk(t, p.Other());
  }

  lemma InitiateKeeps(s: Sys, p: Party, v: HandshakeValues, outLen: nat)
    requires Inv(s) && Enabled(s, Action.Initiate(p, v, outLen))
    ensures Inv(DoInitiate(s, p, v, outLen))
  {
    hide End, SentState, DoInitiate, SessionsOk, SealingsOk, DeliveredOk, PendingOk;
    var t := DoInitiate(s, p, v, outLen);
    InitiateEffect(s, p, v, outLen);
    if t != s {
      PartyFrame(s, t, Left);
      PartyFrame(s, t, Right);
      NetworkFrame(s, t);
      InitiatePending(s, t, p, Initiation(p, v.index, v.ephemeralSecret, v.timestamp));
    }
  }

  /** Among the responses of a run, keys tell sessions and directions apart. */
  lemma SameKey(s: Sys, p: Party, r: Response, p': Party, r': Response)
    requires ResponsesOk(s) && r in s.responses && r' in s.responses
    ensures End(s.secrets, p, r).sendKey == End(s.secrets, p', r').sendKey <==> r == r' && p == p'
    ensures End(s.secrets, p, r).recvKey == End(s.secrets, p', r').sendKey <==> r == r' && p != p'
    ensures p == p' && End(s.secrets, p, r).recvKey == End(s.secrets, p', r').recvKey ==> r == r'
  {
    hide End;
    KeyDetermines(s.secrets, p, r, p', r');
  }

  /** Nobody has sealed anything for a session that is not live yet. */
  lemma Unsealed(s: Sys, p: Party, r: Response, d: Sealing)
    requires ResponsesOk(s) && SealingOk(s, d)
    requires r.ephemeral !in s.used || r in s.responses - s.adopted
    ensures d.key != End(s.secrets, p, r).sendKey && d.key != End(s.secrets, p, r).recvKey
  {
    hide End;
    var r' :| Live(s, d.sender, r') && d.key == End(s.secrets, d.sender, r').sendKey
              && d.receiver == End(s.secrets, d.sender, r').peerIndex;
    KeyDetermines(s.secrets, p, r, d.sender, r');
  }

  lemma DeliverInitEffect(s: Sys, p: Party, i: Initiation, now: nat, v: HandshakeValues, source: Address, outLen: nat)
    requires KeysOk(s)
    ensures var t := DoDeliverInit(s, p, i, now, v, source, outLen);
            var peer := s.peers.At(p);
            var sent := Response(i, v.index, v.ephemeralSecret, peer.psk);
            || t == s
            || (&& p == i.sender.Other()
                && (peer.lastTimestamp.Some? ==> peer.lastTimestamp.value < i.timestamp)
                && t == s.(peers := s.peers.With(p, peer.(lastTimestamp := Some(i.timestamp), endpoint := Some(source),
                                                          next := Some(NewSession(End(s.secrets, p, sent), now)))),
                           responses := s.responses + {sent}, used := s.used + {sent.ephemeral},
                           answered := s.answered.With(p, Some(sent))))
  {
    hide SentState, InitWire, H.Receive;
    InitRead(s.secrets, i, p);
  }

  lemma DeliverInitKeeps(s: Sys, p: Party, i: Initiation, now: nat, v: HandshakeValues, source: Address, outLen: nat)
    requires Inv(s) && Enabled(s, DeliverInit(p, i, now, v, source, outLen))
    ensures Inv(DoDeliverInit(s, p, i, now, v, source, outLen))
  {
    hide End, SentState, DoDeliverInit, SessionsOk, SealingsOk, DeliveredOk;
    var t := DoDeliverInit(s, p, i, now, v, source, outLen);
    DeliverInitEffect(s, p, i, now, v, source, outLen);
    if t != s {
      NetworkFrame(s, t);
      PartyFrame(s, t, p.Other());
      RespondedSlots(s, t, p, Response(i, v.index, v.ephemeralSecret, s.peers.At(p).psk));
    }
  }

  /** A newly installed responder session is the newest answer, with keys nothing has seen. */
  lemma RespondedSlots(s: Sys, t: Sys, p: Party, r: Response)
    requires SessionsOk(s, p) && ResponsesOk(s) && SealingsOk(s) && DeliveredOk(s)
    requires r.ephemeral !in s.used && r.to.sender == p.Other()
    requires s.peers.At(p).lastTimestamp.Some? ==> s.peers.At(p).lastTimestamp.value < r.to.timestamp
    requires t.secrets == s.secrets && t.sealings == s.sealings && t.delivered == s.delivered
    requires t.responses == s.responses + {r} && t.confirmed == s.confirmed && t.adopted == s.adopted
    requires t.answered.At(p) == Some(r)
    requires var a, b := s.peers.At(p), t.peers.At(p);
             && b.lastTimestamp == Some(r.to.timestamp) && b.current == a.current && b.previous == a.previous
             && b.next.Some? && b.next.value.keys == End(s.secrets, p, r)
             && b.next.value.window == EMPTY_WINDOW && b.next.value.sendCounter == 0
    ensures SessionsOk(t, p)
  {
    hide End, SealingOk, Owned, Remembered;
    Monotone(s, t, p);
    assert r !in s.responses;
    forall k | 0 <= k < |s.delivered| ensures s.delivered[k].sealing.key != End(s.secrets, p, r).recvKey {
      Unsealed(s, p, r, s.delivered[k].sealing);
    }
    RememberedFresh(t, p, Next);
    RememberedSame(s, t, p, Current, Current);
    RememberedSame(s, t, p, Previous, Previous);
    assert AnsweredOk(t, p);
  }

  lemma DeliverResponseEffect(s: Sys, p: Party, r: Response, now: nat, source: Address)
    requires Inv(s)
    ensures var (peer', result) := s.peers.At(p).HandshakeResponse(s.secrets.At(p), now, RespWire(s.secrets, r), source);
            var t := DoDeliverResponse(s, p, r, now, source);
            var peer := s.peers.At(p);
            && (result.Err? ==> t == s)
            && (result.Ok? ==>
                  && s.initiated.At(p) == Some(r.to) && r.to.sender == p
                  && t == s.(peers := s.peers.With(p, peer.(pending := None, previous := peer.current,
                                                            current := Some(NewSession(End(s.secrets, p, r), now)),
                                                            endpoint := Some(source))),
                             initiated := s.initiated.With(p, None), adopted := s.adopted + {r}))
  {
    hide SentState, RespWire, H.ResponseReceived, Chain, SessionsOk, SealingsOk;
    assert PendingOk(s, p);
    if s.initiated.At(p).Some? {
      ResponseRead(s.secrets, s.initiated.At(p).value, r, s.peers.At(p).psk);
    }
  }

  lemma DeliverResponseKeeps(s: Sys, p: Party, r: Response, now: nat, source: Address)
    requires Inv(s) && Enabled(s, DeliverResponse(p, r, now, source))
    ensures Inv(DoDeliverResponse(s, p, r, now, source))
  {
    hide End, SentState, DoDeliverResponse, SessionsOk, SealingsOk, DeliveredOk, RespWire, H.ResponseReceived, H.FinishInitiator;
    var t := DoDeliverResponse(s, p, r, now, source);
    DeliverResponseEffect(s, p, r, now, source);
    if t != s {
      assert PendingOk(s, p) && PendingOk(s, p.Other());
      NetworkFrame(s, t);
      PartyFrame(s, t, p.Other());
      AdoptedSlots(s, t, p, r);
    }
  }

  /** A newly adopted session has keys no packet or slot has seen. */
  lemma AdoptedSlots(s: Sys, t: Sys, p: Party, r: Response)
    requires SessionsOk(s, p) && ResponsesOk(s) && SealingsOk(s) && DeliveredOk(s)
    requires r in s.responses && r !in s.adopted && r.to.sender == p
    requires t.secrets == s.secrets && t.sealings == s.sealings && t.delivered == s.delivered
    requires t.responses == s.responses && t.confirmed == s.confirmed && t.adopted == s.adopted + {r}
    requires t.answered.At(p) == s.answered.At(p)
    requires var a, b := s.peers.At(p), t.peers.At(p);
             && a.lastTimestamp == b.lastTimestamp && a.next == b.next && b.previous == a.current
             && b.current.Some? && b.current.value.keys == End(s.secrets, p, r) && b.current.value.window == EMPTY_WINDOW
    ensures SessionsOk(t, p)
  {
    hide End, SealingOk, Remembered;
    Monotone(s, t, p);
    assert Live(t, p, r);
    assert Owned(t, p, t.peers.At(p).current.value);
    forall d | d in s.sealings ensures d.key != End(s.secrets, p, r).sendKey && d.key != End(s.secrets, p, r).recvKey {
      Unsealed(s, p, r, d);
    }
    RememberedSame(s, t, p, Next, Next);
    RememberedFresh(t, p, Current);
    RememberedSame(s, t, p, Current, Previous);
    if s.peers.At(p).current.Some? {
      var session := s.peers.At(p).current.value;
      var r' :| Live(s, p, r') && session.keys == End(s.secrets, p, r');
      SameKey(s, p, r, p, r');
    }
  }

  lemma SealEffect(s: Sys, p: Party, now: nat, payload: Payload, outLen: nat)
    requires SlotsOk(s, p)
    ensures var t := DoSeal(s, p, now, payload, outLen);
            var peer := s.peers.At(p);
            || t == s
            || (&& peer.current.Some?
                && peer.current.value.sendCounter < REJECT_AFTER_MESSAGES
                && var session := peer.current.value;
                   t == s.(peers := s.peers.With(p, peer.(current := Some(session.(sendCounter := session.sendCounter + 1)))),
                           sealings := s.sealings + {Sealing(p, session.keys.peerIndex, session.keys.sendKey,
                                                             session.sendCounter, payload)}))
  {
    hide DataPacket, End;
  }

  predicate SealStep(s: Sys, t: Sys, p: Party, d: Sealing) {
    && s.peers.At(p).current.Some?
    && var session := s.peers.At(p).current.value;
       && session.sendCounter < REJECT_AFTER_MESSAGES
       && d == Sealing(p, session.keys.peerIndex, session.keys.sendKey, session.sendCounter, d.payload)
       && t == s.(peers := s.peers.With(p, s.peers.At(p).(current := Some(session.(sendCounter := session.sendCounter + 1)))),
                  sealings := s.sealings + {d})
  }

  /** The new packet takes a counter nobody used under its key. */
  lemma SealedPackets(s: Sys, t: Sys, p: Party, d: Sealing, r: Response)
    requires SealStep(s, t, p, d) && SealingsOk(s) && SessionsOk(s, p)
    requires Live(s, p, r) && s.peers.At(p).current.value.keys == End(s.secrets, p, r)
    ensures SealingsOk(t)
  {
    hide End, Owned, SealingOk;
    Monotone(s, t, p);
    SealingFromEnd(t, d, r);
  }

  lemma SealingFromEnd(s: Sys, d: Sealing, r: Response)
    requires Live(s, d.sender, r) && d.counter < REJECT_AFTER_MESSAGES
    requires d.key == End(s.secrets, d.sender, r).sendKey && d.receiver == End(s.secrets, d.sender, r).peerIndex
    ensures SealingOk(s, d)
  {
    hide End;
  }

  lemma SealedSlots(s: Sys, t: Sys, p: Party, d: Sealing, q: Party)
    requires SealStep(s, t, p, d) && SessionsOk(s, q)
    requires p != q && s.peers.At(q).current.Some? ==> s.peers.At(q).current.value.keys.sendKey != d.key
    ensures SessionsOk(t, q)
  {
    hide End, Owned, Remembered;
    Monotone(s, t, q);
    RememberedSame(s, t, q, Next, Next);
    RememberedSame(s, t, q, Current, Current);
    RememberedSame(s, t, q, Previous, Previous);
    OwnedByKeys(s, q);
  }

  lemma OwnedByKeys(s: Sys, p: Party)
    ensures forall a: SessionState, b: SessionState :: a.keys == b.keys && Owned(s, p, a) ==> Owned(s, p, b)
  {
    hide End;
  }

  lemma SealKeeps(s: Sys, p: Party, now: nat, payload: Payload, outLen: nat)
    requires Inv(s)
    ensures Inv(DoSeal(s, p, now, payload, outLen))
  {
    hide End, SentState, DoSeal, SealingOk;
    var t := DoSeal(s, p, now, payload, outLen);
    var q := p.Other();
    assert SessionsOk(s, p) && SessionsOk(s, q);
    SealEffect(s, p, now, payload, outLen);
    if t != s {
      var session := s.peers.At(p).current.value;
      var d := Sealing(p, session.keys.peerIndex, session.keys.sendKey, session.sendCounter, payload);
      var r :| Live(s, p, r) && session.keys == End(s.secrets, p, r);
      if s.peers.At(q).current.Some? {
        var r' :| Live(s, q, r') && s.peers.At(q).current.value.keys == End(s.secrets, q, r');
        SameKey(s, p, r, q, r');
      }
      SealFinish(s, t, p, d, r);
    }
  }

  lemma SealFinish(s: Sys, t: Sys, p: Party, d: Sealing, r: Response)
    requires Inv(s) && SealStep(s, t, p, d)
    requires Live(s, p, r) && s.peers.At(p).current.value.keys == End(s.secrets, p, r)
    requires var q := p.Other(); s.peers.At(q).current.Some? ==> s.peers.At(q).current.value.keys.sendKey != d.key
    ensures Inv(t)
  {
    hide End, SentState, SessionsOk, SealingsOk;
    SealedPackets(s, t, p, d, r);
    SealedSlots(s, t, p, d, p);
    SealedSlots(s, t, p, d, p.Other());
  }

  /** What accepting a packet does: the session that opened it records the
      counter, and a session in `next` is promoted. */
  predicate DataStep(s: Sys, t: Sys, p: Party, d: Sealing, slot: Slot, source: Address) {
    var peer := s.peers.At(p);
    && peer.At(slot).Some?
    && var session := peer.At(slot).value;
       var session' := session.(window := session.window.After(d.counter));
       && session.keys.recvKey == d.key && d.counter !in session.window.accepted
       && session'.window.accepted == session.window.accepted + {d.counter}
       && t == if slot == Next && s.answered.At(p).Some?
               then s.(peers := s.peers.With(p, peer.(next := None, previous := peer.current, current := Some(session'),
                                                      endpoint := Some(source))),
                       delivered := s.delivered + [Delivery(p, d)],
                       confirmed := s.confirmed + {s.answered.At(p).value})
               else s.(peers := s.peers.With(p, peer.With(slot, Some(session')).(endpoint := Some(source))),
                       delivered := s.delivered + [Delivery(p, d)])
  }

  lemma WireFits(s: Sys, d: Sealing)
    requires ResponsesOk(s) && InitsOk(s) && SealingOk(s, d)
    ensures d.receiver < INDEX_LIMIT && d.counter < REJECT_AFTER_MESSAGES < COUNTER_LIMIT
  {
    hide Chain;
  }

  lemma DeliverDataEffect(s: Sys, p: Party, d: Sealing, now: nat, source: Address)
    requires Inv(s) && d in s.sealings
    ensures var (peer', recv) := s.peers.At(p).Decrypt(now, d.receiver, DataWire(d), source);
            var t := DoDeliverData(s, p, d, now, source);
            var slot := s.peers.At(p).Find(d.receiver);
            && (recv.Err? ==> t == s)
            && (recv.Ok? ==> slot.Some? && DataStep(s, t, p, d, slot.value, source) && recv.value.payload == d.payload)
  {
    hide End, SentState, Received, DataPacket, SealingOk, Owned;
    var peer := s.peers.At(p);
    var slot := peer.Find(d.receiver);
    WireFits(s, d);
    assert AnsweredOk(s, p);
    if slot.Some? {
      var session := peer.At(slot.value).value;
      ReceivedOfSent(d.receiver, d.counter, d.key, d.payload, session.keys.ourIndex, session.keys.recvKey);
    }
  }

  /** The three slots never hold the same session. */
  lemma SlotKeysDistinct(s: Sys, p: Party)
    requires SessionsOk(s, p) && ResponsesOk(s)
    ensures var peer := s.peers.At(p);
            forall a: Slot, b: Slot | a != b && peer.At(a).Some? && peer.At(b).Some? ::
              peer.At(a).value.keys.recvKey != peer.At(b).value.keys.recvKey
  {
    hide End;
    var peer := s.peers.At(p);
    if peer.next.Some? {
      var a := s.answered.At(p).value;
      if peer.current.Some? {
        var r :| Live(s, p, r) && peer.current.value.keys == End(s.secrets, p, r);
        SameKey(s, p, a, p, r);
      }
      if peer.previous.Some? {
        var r :| Live(s, p, r) && peer.previous.value.keys == End(s.secrets, p, r);
        SameKey(s, p, a, p, r);
      }
    }
  }

  /** A packet that opens the unconfirmed session proves its initiator adopted it. */
  lemma ConfirmedIsAdopted(s: Sys, p: Party, d: Sealing)
    requires SessionsOk(s, p) && ResponsesOk(s) && SealingOk(s, d)
    requires s.peers.At(p).next.Some? && s.peers.At(p).next.value.keys.recvKey == d.key
    ensures s.answered.At(p).Some? && s.answered.At(p).value in s.adopted
    ensures s.answered.At(p).value.to.sender == p.Other() && s.answered.At(p).value !in s.confirmed
  {
    hide End;
    var a := s.answered.At(p).value;
    var r :| Live(s, d.sender, r) && d.key == End(s.secrets, d.sender, r).sendKey
             && d.receiver == End(s.secrets, d.sender, r).peerIndex;
    SameKey(s, p, a, d.sender, r);
  }

  /** A party never opens its own packets, even when they are reflected to it. */
  lemma NotFromSelf(s: Sys, p: Party, d: Sealing, slot: Slot)
    requires SessionsOk(s, p) && ResponsesOk(s) && SealingOk(s, d)
    requires s.peers.At(p).At(slot).Some? && s.peers.At(p).At(slot).value.keys.recvKey == d.key
    ensures d.sender != p
  {
    hide End;
    var r :| Live(s, d.sender, r) && d.key == End(s.secrets, d.sender, r).sendKey
             && d.receiver == End(s.secrets, d.sender, r).peerIndex;
    if slot == Next {
      SameKey(s, p, s.answered.At(p).value, d.sender, r);
    } else {
      var r' :| Live(s, p, r') && s.peers.At(p).At(slot).value.keys == End(s.secrets, p, r');
      SameKey(s, p, r', d.sender, r);
    }
  }

  lemma DataDelivered(s: Sys, t: Sys, p: Party, d: Sealing, slot: Slot, source: Address)
    requires DataStep(s, t, p, d, slot, source) && DeliveredOk(s) && SessionsOk(s, p) && d in s.sealings
    requires ResponsesOk(s) && SealingOk(s, d)
    ensures DeliveredOk(t)
  {
    hide End, SealingOk, Owned, ResponsesOk;
    NotFromSelf(s, p, d, slot);
    assert Remembered(s, p, slot);
  }

  /** A confirmed responder session has not been used to send. */
  lemma UnsealedByResponder(s: Sys, p: Party, d: Sealing)
    requires SessionsOk(s, p) && ResponsesOk(s) && SealingOk(s, d)
    requires s.peers.At(p).next.Some?
    ensures d.key != s.peers.At(p).next.value.keys.sendKey
  {
    hide End;
    var a := s.answered.At(p).value;
    var r :| Live(s, d.sender, r) && d.key == End(s.secrets, d.sender, r).sendKey
             && d.receiver == End(s.secrets, d.sender, r).peerIndex;
    SameKey(s, p, a, d.sender, r);
  }

  lemma PromotedSlots(s: Sys, t: Sys, p: Party, d: Sealing, source: Address)
    requires DataStep(s, t, p, d, Next, source) && SessionsOk(s, p) && ResponsesOk(s) && SealingsOk(s)
    requires d in s.sealings
    ensures SessionsOk(t, p)
  {
    hide End, SealingOk;
    var a := s.answered.At(p).value;
    SlotKeysDistinct(s, p);
    ConfirmedIsAdopted(s, p, d);
    Monotone(s, t, p);
    assert Live(t, p, a);
    assert Owned(t, p, t.peers.At(p).current.value);
    forall e | e in s.sealings ensures e.key != t.peers.At(p).current.value.keys.sendKey {
      UnsealedByResponder(s, p, e);
    }
    assert s.peers.At(p).At(Next).Some?;
    assert s.peers.At(p).current.Some? ==> s.peers.At(p).At(Current).Some?;
    RememberedAfter(s, t, p, d, Next, Current);
    if s.peers.At(p).current.Some? {
      RememberedAfter(s, t, p, d, Current, Previous);
    }
  }

  /** A slot's session, wherever it ends up, still remembers exactly what was delivered under it. */
  lemma RememberedAfter(s: Sys, t: Sys, p: Party, d: Sealing, slot: Slot, slot': Slot)
    requires Remembered(s, p, slot) && t.delivered == s.delivered + [Delivery(p, d)]
    requires s.peers.At(p).At(slot).Some? && t.peers.At(p).At(slot').Some?
    requires var a, b := s.peers.At(p).At(slot).value, t.peers.At(p).At(slot').value;
             && a.keys == b.keys
             && b.window.accepted == a.window.accepted + if a.keys.recvKey == d.key then {d.counter} else {}
    ensures Remembered(t, p, slot')
  {
    var key := s.peers.At(p).At(slot).value.keys.recvKey;
    forall c: nat ensures DeliveredUnder(t.delivered, p, key, c) <==> DeliveredUnder(s.delivered, p, key, c) || (key == d.key && c == d.counter) {
      DeliveredMore(s, t, p, d, key, c);
    }
  }

  lemma DeliveredMore(s: Sys, t: Sys, p: Party, d: Sealing, key: Term, c: nat)
    requires t.delivered == s.delivered + [Delivery(p, d)]
    ensures DeliveredUnder(t.delivered, p, key, c) <==> DeliveredUnder(s.delivered, p, key, c) || (key == d.key && c == d.counter)
  {
    if k :| 0 <= k < |s.delivered| && s.delivered[k].to == p && s.delivered[k].sealing.key == key && s.delivered[k].sealing.counter == c {
      assert t.delivered[k] == s.delivered[k];
    }
    if key == d.key && c == d.counter {
      assert t.delivered[|s.delivered|] == Delivery(p, d);
    }
  }

  /** Deliveries to the other party do not touch this one's windows. */
  lemma RememberedElsewhere(s: Sys, t: Sys, p: Party, d: Sealing, q: Party, slot: Slot)
    requires Remembered(s, q, slot) && t.delivered == s.delivered + [Delivery(p, d)] && p != q
    requires t.peers.At(q).At(slot) == s.peers.At(q).At(slot)
    ensures Remembered(t, q, slot)
  {
    forall key: Term, c: nat ensures DeliveredUnder(t.delivered, q, key, c) <==> DeliveredUnder(s.delivered, q, key, c) {
      if k :| 0 <= k < |s.delivered| && s.delivered[k].to == q && s.delivered[k].sealing.key == key && s.delivered[k].sealing.counter == c {
        assert t.delivered[k] == s.delivered[k];
      }
    }
  }

  lemma RecordedSlots(s: Sys, t: Sys, p: Party, d: Sealing, slot: Slot, source: Address)
    requires DataStep(s, t, p, d, slot, source) && SessionsOk(s, p) && ResponsesOk(s)
    requires slot != Next
    ensures SessionsOk(t, p)
  {
    hide End, Owned;
    SlotKeysDistinct(s, p);
    Monotone(s, t, p);
    OwnedByKeys(t, p);
    var peer := s.peers.At(p);
    assert peer.At(slot).Some?;
    forall other: Slot | peer.At(other).Some? ensures Remembered(t, p, other) {
      assert Remembered(s, p, other);
      RememberedAfter(s, t, p, d, other, other);
    }
    forall other: Slot ensures Remembered(t, p, other) {
      assert t.peers.At(p).At(other).Some? <==> peer.At(other).Some?;
    }
    assert AnsweredOk(t, p);
    assert SlotsOk(t, p);
  }

  lemma OtherSlots(s: Sys, t: Sys, p: Party, d: Sealing, slot: Slot, source: Address)
    requires DataStep(s, t, p, d, slot, source) && SessionsOk(s, p.Other())
    requires slot == Next ==> s.answered.At(p).Some? && s.answered.At(p).value.to.sender == p.Other()
    ensures SessionsOk(t, p.Other())
  {
    hide End, Remembered;
    var q := p.Other();
    Monotone(s, t, q);
    RememberedElsewhere(s, t, p, d, q, Next);
    RememberedElsewhere(s, t, p, d, q, Current);
    RememberedElsewhere(s, t, p, d, q, Previous);
  }

  lemma DeliverDataKeeps(s: Sys, p: Party, d: Sealing, now: nat, source: Address)
    requires Inv(s) && Enabled(s, DeliverData(p, d, now, source))
    ensures Inv(DoDeliverData(s, p, d, now, source))
  {
    hide End, SentState, DoDeliverData, SessionState.Receive, DataPacket, SealingOk, SlotsOk, AnsweredOk;
    var t := DoDeliverData(s, p, d, now, source);
    DeliverDataEffect(s, p, d, now, source);
    if t != s {
      var slot := s.peers.At(p).Find(d.receiver).value;
      DataFinish(s, t, p, d, slot, source);
    }
  }

  lemma DataFinish(s: Sys, t: Sys, p: Party, d: Sealing, slot: Slot, source: Address)
    requires Inv(s) && d in s.sealings && DataStep(s, t, p, d, slot, source)
    ensures Inv(t)
  {
    hide End, SentState, SealingOk, SessionsOk;
    DataDelivered(s, t, p, d, slot, source);
    Monotone(s, t, p);
    if slot == Next {
      ConfirmedIsAdopted(s, p, d);
      PromotedSlots(s, t, p, d, source);
    } else {
      RecordedSlots(s, t, p, d, slot, source);
    }
    OtherSlots(s, t, p, d, slot, source);
  }

  lemma SetupKeeps(s: Sys, t: Sys, p: Party)
    requires Inv(s)
    requires var a, b := s.peers.At(p), t.peers.At(p);
             && b == a.(psk := b.psk, endpoint := b.endpoint, pending := b.pending)
             && t == s.(peers := s.peers.With(p, b), initiated := t.initiated)
             && t.initiated.At(p.Other()) == s.initiated.At(p.Other())
             && ((b.pending == a.pending && t.initiated == s.initiated) || (b.pending == None && t.initiated.At(p) == None))
    ensures Inv(t)
  {
    hide End, SentState, SessionsOk, SealingsOk, DeliveredOk;
    PartyFrame(s, t, Left);
    PartyFrame(s, t, Right);
    NetworkFrame(s, t);
  }

  lemma StepKeeps(s: Sys, a: Action)
    requires Inv(s) && Enabled(s, a)
    ensures Inv(Apply(s, a))
  {
    hide Inv, DoInitiate, DoDeliverInit, DoDeliverResponse, DoSeal, DoDeliverData;
    match a
    case SetPsk(p, _) => SetupKeeps(s, Apply(s, a), p);
    case SetEndpoint(p, _) => SetupKeeps(s, Apply(s, a), p);
    case Initiate(p, v, outLen) => InitiateKeeps(s, p, v, outLen);
    case Abandon(p) => SetupKeeps(s, Apply(s, a), p);
    case DeliverInit(p, i, now, v, source, outLen) => DeliverInitKeeps(s, p, i, now, v, source, outLen);
    case DeliverResponse(p, r, now, source) => DeliverResponseKeeps(s, p, r, now, source);
    case Seal(p, now, payload, outLen) => SealKeeps(s, p, now, payload, outLen);
    case DeliverData(p, d, now, source) => DeliverDataKeeps(s, p, d, now, source);
  }

  lemma StartKeeps(left: nat, right: nat)
    requires left != right
    ensures Inv(Start(left, right))
  {
  }

  lemma {:induction false} RunKeeps(s: Sys, actions: seq<Action>)
    requires Inv(s) && ValidRun(s, actions)
    ensures Inv(Run(s, actions))
    decreases |actions|
  {
    hide Inv, Apply, Enabled;
    if actions != [] {
      StepKeeps(s, actions[0]);
      RunKeeps(Apply(s, actions[0]), actions[1..]);
    }
  }

  // ---------- what holds in every run ----------


  /** A state some run reaches from two fresh peers with different static keys. */
  ghost predicate Reachable(s: Sys) {
    exists left: nat, right: nat, actions ::
      left != right && ValidRun(Start(left, right), actions) && s == Run(Start(left, right), actions)
  }

  lemma ReachableInv(s: Sys)
    requires Reachable(s)
    ensures Inv(s)
  {
    hide Inv, ValidRun, Run, Start;
    var left: nat, right: nat, actions :|
      left != right && ValidRun(Start(left, right), actions) && s == Run(Start(left, right), actions);
    StartKeeps(left, right);
    RunKeeps(Start(left, right), actions);
  }

  /** Adoption agreement: whenever a response is accepted, after any run, the
      responder still holds the matching session in `next`, unused: mirrored
      keys, crossed indices, zero counters and an empty replay window. */
  lemma AdoptionAgreement(s: Sys, p: Party, r: Response, now: nat, source: Address)
    requires Reachable(s) && r in s.responses
    ensures var (adopter, result) := s.peers.At(p).HandshakeResponse(s.secrets.At(p), now, RespWire(s.secrets, r), source);
            var waiting := s.peers.At(p.Other()).next;
            result.Ok? ==>
              && adopter.current.Some? && waiting.Some?
              && H.Mirror(adopter.current.value.keys, waiting.value.keys)
              && adopter.current.value.sendCounter == 0 == waiting.value.sendCounter
              && adopter.current.value.window == EMPTY_WINDOW == waiting.value.window
  {
    hide End, RespWire, Reachable, SlotsOk, SealingsOk, SentState, H.ResponseReceived, H.FinishInitiator;
    ReachableInv(s);
    DeliverResponseEffect(s, p, r, now, source);
    assert PendingOk(s, p) && AnsweredOk(s, p.Other());
    KeyDetermines(s.secrets, p, r, p, r);
  }

  /** Key confirmation: after any run, a party that can seal does so under a
      session whose responder installed it and whose initiator adopted it, and
      every packet ever sealed was sealed under such a session. */
  lemma KeyConfirmation(s: Sys, p: Party, now: nat, payload: Payload, outLen: nat)
    requires Reachable(s)
    ensures s.peers.At(p).Encrypt(now, payload, outLen).1.Ok? ==>
              exists r :: r in s.responses && r in s.adopted && s.peers.At(p).current.value.keys == End(s.secrets, p, r)
    ensures forall d | d in s.sealings ::
              exists r :: r in s.responses && r in s.adopted && d.key == End(s.secrets, d.sender, r).sendKey
                          && d.receiver == End(s.secrets, d.sender.Other(), r).ourIndex
  {
    hide End, Reachable, DataPacket;
    ReachableInv(s);
    if s.peers.At(p).current.Some? {
      assert SlotsOk(s, p);
      var r :| Live(s, p, r) && s.peers.At(p).current.value.keys == End(s.secrets, p, r);
    }
    forall d | d in s.sealings
      ensures exists r :: r in s.responses && r in s.adopted && d.key == End(s.secrets, d.sender, r).sendKey
                          && d.receiver == End(s.secrets, d.sender.Other(), r).ourIndex
    {
      assert SealingOk(s, d);
      var r :| Live(s, d.sender, r) && d.key == End(s.secrets, d.sender, r).sendKey
               && d.receiver == End(s.secrets, d.sender, r).peerIndex;
      KeyDetermines(s.secrets, d.sender, r, d.sender, r);
    }
  }

  /** A responder uses a session only after its initiator adopted it, and each
      party's send session is mirrored by the other party's end of the same handshake. */
  lemma ResponderWaits(s: Sys, p: Party)
    requires Reachable(s) && s.peers.At(p).current.Some?
    ensures exists r :: r in s.adopted && (r.to.sender == p || r in s.confirmed)
                        && H.Mirror(s.peers.At(p).current.value.keys, End(s.secrets, p.Other(), r))
  {
    hide End, Reachable;
    ReachableInv(s);
    assert SlotsOk(s, p);
    var r :| Live(s, p, r) && s.peers.At(p).current.value.keys == End(s.secrets, p, r);
    KeyDetermines(s.secrets, p, r, p, r);
  }

  /** At-most-once delivery: in any run, across every rotation, no sealed packet
      is returned twice, every returned packet was sealed by the other party, and
      no two packets under one key share a counter. */
  lemma AtMostOnceDelivery(s: Sys)
    requires Reachable(s)
    ensures forall j, k | 0 <= j < k < |s.delivered| :: s.delivered[j] != s.delivered[k]
    ensures forall k | 0 <= k < |s.delivered| ::
              s.delivered[k].sealing in s.sealings && s.delivered[k].sealing.sender == s.delivered[k].to.Other()
    ensures forall d, e | d in s.sealings && e in s.sealings && d.key == e.key && d.counter == e.counter :: d == e
  {
    hide Reachable;
    ReachableInv(s);
  }

  /** What `decrypt` returns is the payload sealed at that counter, by the other
      party, and it was not returned before. */
  lemma DeliveryIsFaithful(s: Sys, p: Party, d: Sealing, now: nat, source: Address)
    requires Reachable(s) && d in s.sealings
    ensures var (peer, recv) := s.peers.At(p).Decrypt(now, d.receiver, DataWire(d), source);
            recv.Ok? ==> recv.value.payload == d.payload && d.sender == p.Other() && Delivery(p, d) !in s.delivered
  {
    hide Reachable, End, SessionState.Receive, DataPacket, SealingOk, Owned;
    ReachableInv(s);
    DeliverDataEffect(s, p, d, now, source);
    var slot := s.peers.At(p).Find(d.receiver);
    if slot.Some? && s.peers.At(p).At(slot.value).value.keys.recvKey == d.key {
      NotFromSelf(s, p, d, slot.value);
      assert Remembered(s, p, slot.value);
    }
  }

  /** Exactly which packets are returned: those that reach, in any of the three
      slots, the session they were sealed for, before it is three minutes old, at
      most 8128 behind the newest counter, for the first time. */
  lemma DeliveredExactly(s: Sys, p: Party, d: Sealing, now: nat, source: Address)
    requires Reachable(s) && d in s.sealings
    ensures var peer := s.peers.At(p);
            peer.Decrypt(now, d.receiver, DataWire(d), source).1.Ok? <==>
              exists slot :: && M.Holder(peer, slot, d.receiver)
                             && var session := peer.At(slot).value;
                                && session.keys.recvKey == d.key && M.Young(session, now)
                                && session.window.last <= d.counter + 8128
                                && Delivery(p, d) !in s.delivered
  {
    hide Reachable, End, Received, DataPacket, SealingOk, Owned, PeerState.Decrypt;
    ReachableInv(s);
    WireFits(s, d);
    var peer := s.peers.At(p);
    M.DecryptExactly(peer, now, d.receiver, d.counter, d.key, d.payload, source);
    forall slot | M.Holder(peer, slot, d.receiver) && peer.At(slot).value.keys.recvKey == d.key
      ensures peer.At(slot).value.window.Admits(d.counter) <==>
              peer.At(slot).value.window.last <= d.counter + 8128 && Delivery(p, d) !in s.delivered
    {
      assert Remembered(s, p, slot);
      DeliveredMeans(s, p, d);
    }
  }

  /** Under one key a counter stands for one packet. */
  lemma DeliveredMeans(s: Sys, p: Party, d: Sealing)
    requires SealingsOk(s) && DeliveredOk(s) && d in s.sealings
    ensures DeliveredUnder(s.delivered, p, d.key, d.counter) <==> Delivery(p, d) in s.delivered
  {
    hide SealingOk;
    if DeliveredUnder(s.delivered, p, d.key, d.counter) {
      var k :| 0 <= k < |s.delivered| && s.delivered[k].to == p
               && s.delivered[k].sealing.key == d.key && s.delivered[k].sealing.counter == d.counter;
      assert s.delivered[k] == Delivery(p, d);
    }
  }

  /** Progress after adoption: the first packet the adopter seals is accepted by
      the waiting responder unless its session expired, and confirms it. */
  lemma FirstPacketConfirms(s: Sys, p: Party, r: Response, now: nat, source: Address, payload: Payload, outLen: nat,
                            sealedAt: nat, openedAt: nat)
    requires Reachable(s) && r in s.responses && outLen >= PacketLen(|payload|)
    requires s.peers.At(p).HandshakeResponse(s.secrets.At(p), now, RespWire(s.secrets, r), source).1.Ok?
    requires Since(sealedAt, now) < REJECT_AFTER_TIME
    requires var waiting := s.peers.At(p.Other()).next;
             waiting.Some? ==> !waiting.value.ExpiredAt(openedAt)
    ensures var adopter := s.peers.At(p).HandshakeResponse(s.secrets.At(p), now, RespWire(s.secrets, r), source).0;
            var packet := adopter.Encrypt(sealedAt, payload, outLen).1;
            && packet.Ok?
            && var (responder, recv) := s.peers.At(p.Other()).Decrypt(openedAt, adopter.current.value.keys.peerIndex, packet.value, source);
               && recv.Ok? && recv.value.confirmed && recv.value.payload == payload
               && responder.current.Some? && H.Mirror(adopter.current.value.keys, responder.current.value.keys)
  {
    hide End, RespWire, Reachable, Inv, DataPacket, Received, H.ResponseReceived, H.FinishInitiator;
    AdoptionAgreement(s, p, r, now, source);
    var adopter := s.peers.At(p).HandshakeResponse(s.secrets.At(p), now, RespWire(s.secrets, r), source).0;
    var keys := adopter.current.value.keys;
    assert keys.peerIndex < INDEX_LIMIT by {
      IndicesFit(s, p, r, now, source);
    }
    ReceivedOfSent(keys.peerIndex, 0, keys.sendKey, payload, keys.peerIndex, keys.sendKey);
  }

  lemma IndicesFit(s: Sys, p: Party, r: Response, now: nat, source: Address)
    requires Reachable(s) && r in s.responses
    ensures var (adopter, result) := s.peers.At(p).HandshakeResponse(s.secrets.At(p), now, RespWire(s.secrets, r), source);
            result.Ok? ==> adopter.current.Some? && adopter.current.value.keys.peerIndex < INDEX_LIMIT
  {
    hide Chain, RespWire, Reachable, SessionsOk, SealingsOk, SentState, H.ResponseReceived;
    ReachableInv(s);
    DeliverResponseEffect(s, p, r, now, source);
  }
}
