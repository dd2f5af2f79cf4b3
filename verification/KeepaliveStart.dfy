/** From a handshake to a session both ends use: the initiator adopts it and
    sends what waited, the first packet confirms it to the responder, who then
    sends what waited there. Passive keepalive holds from the first instant. */
module KeepaliveStart {
  import opened Wrappers
  import opened Crypto
  import opened Parties
  import opened Timing
  import opened Replay
  import opened TransportData
  import opened PeerSpec
  import opened ActorSpec
  import opened ArmEffects
  import KA = KeepaliveActors
  import opened KeepaliveActors
  import L = KeepaliveLink
  import H = Handshake

  /** What an actor with a new session sends at once: the queue, or for an
      initiator with nothing queued a keepalive. */
  function FirstItems(c: ActorState, initiator: bool, est: EstablishedInput): seq<Item> {
    if c.staged != [] then Items(est.flush.now, SealAll(c.machine, est.flush.now, c.staged).1, Counter(c.machine), c.staged)
    else if initiator then KeepaliveItems(c.machine, est.keepalive.now) else []
  }

  /** The arm as a send of the actor with its queue taken. */
  function AsSend(c: ActorState, initiator: bool, est: EstablishedInput): Event {
    if c.staged == [] && initiator then KeepaliveDue(est.keepalive) else SendData(c.staged, est.flush)
  }

  /** What the environment owes it: the clock read now, every packet taken by
      the socket, fresh indices; and a queue holds some payload that is not empty. */
  predicate FirstOk(c: ActorState, initiator: bool, est: EstablishedInput, now: nat) {
    && est.flush.now == now && est.keepalive.now == now
    && Lossless(c, AsSend(c, initiator, est))
    && EstDraws(est) !! Live(c.machine)
    && (c.staged == [] || AnyPayload(c.staged))
    && SessionEstablished(c, initiator, est).session.Some?
  }

  /** Taking the session into use is sending what waits, for everything the link sees. */
  lemma FirstIsSend(c: ActorState, initiator: bool, est: EstablishedInput)
    ensures var d, e := c.(staged := []), AsSend(c, initiator, est);
            SameEnd(SessionEstablished(c, initiator, est), Step(d, e)) && FirstItems(c, initiator, est) == Emits(d, e)
  {
    hide FlushSends, SendKeepalive, SealAll, BatchesOf, AnySent, KeepaliveItems;
    var d, e := c.(staged := []), AsSend(c, initiator, est);
    FlushEffect(d, c.staged, est.flush);
    FlushEffect(d.(history := d.history.(submitted := d.history.submitted + c.staged)), c.staged, est.flush);
    if c.staged == [] {
      NothingSealed(c.machine, est.flush);
      assert d == c;
    }
  }

  lemma NothingSealed(m: PeerState, f: FlushInput)
    ensures SealAll(m, f.now, []) == (m, [])
  {
  }

  /** If both ends are ready before what waits is sent, they are after it. */
  lemma FirstKeeps(w: World, t: World, delay: nat, p: Party, c: ActorState, initiator: bool, est: EstablishedInput)
    requires 2 * delay < REKEY_TIMEOUT && Ready(w, delay) && w.actors.At(p) == c && FirstOk(c, initiator, est, w.now)
    requires SameEnd(t.actors.At(p), SessionEstablished(c, initiator, est))
    requires SameEnd(t.actors.At(p.Other()), w.actors.At(p.Other())) && t.now == w.now
    requires t.inbox == w.inbox.With(p.Other(), w.inbox.At(p.Other()) + FirstItems(c, initiator, est))
    ensures Ready(t, delay)
  {
    hide Ready, SessionEstablished, Step, Emits, FirstItems, Lossless, Live;
    var d, e := c.(staged := []), AsSend(c, initiator, est);
    var v := w.(actors := w.actors.With(p, d));
    FirstIsSend(c, initiator, est);
    SameFields(w, v);
    ReadySame(w, v, delay);
    LosslessSame(c, initiator, est);
    assert Enabled(v, delay, false, Arm(p, e)) by { FirstEnabled(v, delay, p, c, initiator, est); }
    ReadyStep(v, delay, Arm(p, e));
    var u := Do(v, Arm(p, e));
    forall z: Party ensures SameEnd(u.actors.At(z), t.actors.At(z)) { assert z == p || z == p.Other(); }
    ReadySame(u, t, delay);
  }

  lemma SameFields(w: World, v: World)
    requires w.now == v.now && w.inbox == v.inbox
    requires forall p: Party ::
               w.actors.At(p).session == v.actors.At(p).session && w.actors.At(p).machine == v.actors.At(p).machine
    ensures SameWorld(w, v)
  {
  }

  lemma LosslessSame(c: ActorState, initiator: bool, est: EstablishedInput)
    ensures Lossless(c.(staged := []), AsSend(c, initiator, est)) == Lossless(c, AsSend(c, initiator, est))
  {
    hide SealAll, BatchesOf;
  }

  lemma FirstEnabled(v: World, delay: nat, p: Party, c: ActorState, initiator: bool, est: EstablishedInput)
    requires FirstOk(c, initiator, est, v.now) && v.actors.At(p) == c.(staged := [])
    ensures Enabled(v, delay, false, Arm(p, AsSend(c, initiator, est)))
  {
    hide SessionEstablished, Step, Lossless, Live, Emits, FirstItems;
    LosslessSame(c, initiator, est);
    FirstIsSend(c, initiator, est);
    assert Draws(AsSend(c, initiator, est)) <= EstDraws(est);
  }

  // ---------- the initiator adopts ----------

  /** The responder as it will be once its waiting session is confirmed. */
  function StandIn(b: ActorState): ActorState {
    b.(machine := b.machine.(current := b.machine.next, next := None), session := Some(NewTimers(false, 0)))
  }

  function Shadow(w: World, p: Party): World {
    w.(actors := w.actors.With(p.Other(), StandIn(w.actors.At(p.Other()))))
  }

  /** The initiator right after it accepted the response, before it sends. */
  function Adopted(a: ActorState, e: Event): ActorState
    requires e.RecvResp?
  {
    var (machine, r) := a.machine.HandshakeResponse(a.ourSecret, e.now, e.msg, e.source);
    if r.Err? then a
    else
      a.(clock := e.now, machine := machine, control := a.control + RetireOpt(r.value), handshake := None,
         session := Some(NewTimers(true, e.now)))
  }

  /** A response the initiator accepts, and a responder that still holds the
      mirrored session, unused and unexpired. `TwoParty.AdoptionAgreement` proves
      the second of every accepted response. */
  predicate Waiting(w: World, p: Party, e: Event) {
    var a, b := w.actors.At(p), w.actors.At(p.Other());
    && e.RecvResp? && e.now == w.now && w.inbox == Pair([], [])
    && a.machine.HandshakeResponse(a.ourSecret, e.now, e.msg, e.source).1.Ok?
    && b.machine.next.Some?
    && var s, r := Adopted(a, e).machine.current, b.machine.next.value;
       && s.Some? && H.Mirror(s.value.keys, r.keys) && s.value.keys.ourIndex < INDEX_LIMIT && r.keys.ourIndex < INDEX_LIMIT
       && r.sendCounter == 0 && r.window == EMPTY_WINDOW && !r.ExpiredAt(w.now)
       && IndexOf(a.machine.next) != Some(s.value.keys.ourIndex)
  }

  function Establish(w: World, p: Party, e: Event): World
    requires e.RecvResp?
  {
    var a, q := w.actors.At(p), p.Other();
    w.(actors := w.actors.With(p, Step(a, e)),
       inbox := w.inbox.With(q, w.inbox.At(q) + FirstItems(Adopted(a, e), true, e.est)))
  }

  /** The session is in use at one end: seen with the responder as it will be, every deadline is covered. */
  predicate Opening(w: World, p: Party, delay: nat) {
    Ready(Shadow(w, p), delay)
  }

  lemma AdoptedStep(a: ActorState, e: Event)
    requires e.RecvResp? && a.machine.HandshakeResponse(a.ourSecret, e.now, e.msg, e.source).1.Ok?
    ensures Step(a, e) == SessionEstablished(Adopted(a, e), true, e.est)
    ensures var m := Adopted(a, e).machine;
            && m.current.Some? && m.current.value == NewSession(m.current.value.keys, e.now) && m.next == a.machine.next
            && m.endpoint == Some(e.source) && m.pending == None && m.previous == a.machine.current
  {
    hide H.ResponseReceived, H.FinishInitiator, SessionEstablished;
  }

  /** Adopting the session opens it idle. */
  lemma AdoptedIdle(w: World, p: Party, e: Event)
    requires Waiting(w, p, e)
    ensures Idle(Shadow(w.(actors := w.actors.With(p, Adopted(w.actors.At(p), e))), p))
  {
    hide Adopted, Stream, PeerState.HandshakeResponse, Live;
    var a, q := w.actors.At(p), p.Other();
    AdoptedStep(a, e);
    var c, b := Adopted(a, e), w.actors.At(q);
    assert c.session == Some(NewTimers(true, e.now)) by { AdoptedTimers(a, e); }
    NothingInFlight(c.machine.current.value, b.machine.next.value);
    var v := Shadow(w.(actors := w.actors.With(p, c)), p);
    assert v.actors.At(p) == c && v.actors.At(q) == StandIn(b) && q.Other() == p;
    forall z: Party
      ensures Holds(v.actors.At(z), v.now) && v.inbox.At(z) == []
      ensures TimersOf(v.actors.At(z)).keepaliveAt.None? && TimersOf(v.actors.At(z)).newHandshakeAt.None?
      ensures Stream(v.actors.At(z).machine.current.value, v.actors.At(z.Other()).machine.current.value, [])
    {
      assert z == p || z == q;
    }
  }

  lemma NothingInFlight(s: SessionState, r: SessionState)
    requires H.Mirror(s.keys, r.keys) && s.keys.ourIndex < INDEX_LIMIT && r.keys.ourIndex < INDEX_LIMIT
    requires s.sendCounter == 0 == r.sendCounter && s.window == EMPTY_WINDOW == r.window
    ensures Stream(s, r, []) && Stream(r, s, [])
  {
  }

  lemma AdoptedTimers(a: ActorState, e: Event)
    requires e.RecvResp? && a.machine.HandshakeResponse(a.ourSecret, e.now, e.msg, e.source).1.Ok?
    ensures Adopted(a, e).session == Some(NewTimers(true, e.now)) && Adopted(a, e).staged == a.staged
  {
    hide H.ResponseReceived, H.FinishInitiator;
  }

  /** Establishment: whatever waited at the initiator is on its way and covered. */
  lemma EstablishOpens(w: World, p: Party, e: Event, delay: nat)
    requires 2 * delay < REKEY_TIMEOUT && Waiting(w, p, e) && FirstOk(Adopted(w.actors.At(p), e), true, e.est, w.now)
    ensures Opening(Establish(w, p, e), p, delay)
  {
    hide Adopted, SessionEstablished, Step, FirstItems, FirstOk, Ready, Idle;
    var a, q := w.actors.At(p), p.Other();
    var c := Adopted(a, e);
    AdoptedIdle(w, p, e);
    AdoptedStep(a, e);
    var v := Shadow(w.(actors := w.actors.With(p, c)), p);
    IdleIsReady(v, delay);
    FirstKeeps(v, Shadow(Establish(w, p, e), p), delay, p, c, true, e.est);
  }

  // ---------- until the first packet arrives ----------

  datatype OpenAction =
    | Initiator(e: Event)
    | Responder(e: Event)
    | Pass(t: nat)

  /** The initiator runs any arm that keeps the session; the responder any arm
      that leaves its waiting session where it is; time passes no delivery bound,
      keepalive or expiry. */
  predicate OpenEnabled(w: World, p: Party, delay: nat, act: OpenAction) {
    match act
    case Initiator(e) => Enabled(w, delay, false, Arm(p, e))
    case Responder(e) => Step(w.actors.At(p.Other()), e).machine.next == w.actors.At(p.Other()).machine.next
    case Pass(t) => Enabled(Shadow(w, p), delay, false, Tick(t))
  }

  function OpenDo(w: World, p: Party, act: OpenAction): World {
    match act
    case Initiator(e) => Do(w, Arm(p, e))
    case Responder(e) => w.(actors := w.actors.With(p.Other(), Step(w.actors.At(p.Other()), e)))
    case Pass(t) => w.(now := t)
  }

  predicate OpenRunValid(w: World, p: Party, delay: nat, acts: seq<OpenAction>)
    decreases |acts|
  {
    acts == [] || (OpenEnabled(w, p, delay, acts[0]) && OpenRunValid(OpenDo(w, p, acts[0]), p, delay, acts[1..]))
  }

  function OpenRun(w: World, p: Party, acts: seq<OpenAction>): World
    decreases |acts|
  {
    if acts == [] then w else OpenRun(OpenDo(w, p, acts[0]), p, acts[1..])
  }

  lemma OpenStep(w: World, p: Party, delay: nat, act: OpenAction)
    requires 2 * delay < REKEY_TIMEOUT && Opening(w, p, delay) && OpenEnabled(w, p, delay, act)
    ensures Opening(OpenDo(w, p, act), p, delay)
  {
    hide Ready, Step, Emits, Lossless, Live, Draws, ReadsAt;
    var v, q := Shadow(w, p), p.Other();
    match act {
      case Initiator(e) =>
        assert v.actors.At(p) == w.actors.At(p) && v.now == w.now;
        assert Enabled(v, delay, false, Arm(p, e));
        ReadyStep(v, delay, Arm(p, e));
        assert Shadow(Do(w, Arm(p, e)), p) == Do(v, Arm(p, e));
      case Responder(e) =>
        var t := Shadow(OpenDo(w, p, act), p);
        forall z: Party ensures SameEnd(v.actors.At(z), t.actors.At(z)) { assert z == p || z == q; }
        ReadySame(v, t, delay);
      case Pass(t) =>
        ReadyStep(v, delay, Tick(t));
        assert Shadow(OpenDo(w, p, act), p) == Do(v, Tick(t));
    }
  }

  lemma {:induction false} OpenRunKeeps(w: World, p: Party, delay: nat, acts: seq<OpenAction>)
    requires 2 * delay < REKEY_TIMEOUT && Opening(w, p, delay) && OpenRunValid(w, p, delay, acts)
    ensures Opening(OpenRun(w, p, acts), p, delay)
    decreases |acts|
  {
    hide Opening, OpenDo, OpenEnabled;
    if acts != [] {
      OpenStep(w, p, delay, acts[0]);
      OpenRunKeeps(OpenDo(w, p, acts[0]), p, delay, acts[1..]);
    }
  }

  lemma OpeningNotDue(w: World, p: Party, delay: nat)
    requires 2 * delay < REKEY_TIMEOUT && Opening(w, p, delay)
    ensures !Due(w, p)
  {
    hide Synced, LinkOf;
    NotDue(Shadow(w, p), delay);
    assert !Due(Shadow(w, p), p);
  }

  // ---------- the first packet confirms ----------

  function FirstEvent(w: World, q: Party, act: Action): Event
    requires act.Deliver? && w.inbox.At(q) != []
  {
    var item := w.inbox.At(q)[0];
    RecvData(w.now, item.octets, Receiver(item.octets), act.source, act.room, act.est, act.hs)
  }

  /** The responder right after the packet confirmed its session, before it sends. */
  function Confirmed(b: ActorState, e: Event): ActorState
    requires e.RecvData?
  {
    var (machine, recv) := b.machine.Decrypt(e.now, e.receiver, e.packet, e.source);
    if recv.Err? then b
    else
      var Recv(payload, _, unmapped) := recv.value;
      b.(clock := e.now, machine := machine, session := Some(NewTimers(false, e.now).PacketReceived(e.now, payload != [])),
         control := b.control + RetireOpt(unmapped),
         inbound := if payload != [] && e.room then b.inbound + [payload] else b.inbound)
  }

  function First(w: World, p: Party, act: Action): World
    requires act.Deliver? && w.inbox.At(p.Other()) != []
  {
    var q := p.Other();
    var b, e := w.actors.At(q), FirstEvent(w, q, act);
    w.(actors := w.actors.With(q, Step(b, e)),
       inbox := w.inbox.With(q, w.inbox.At(q)[1..]).With(p, w.inbox.At(p) + FirstItems(Confirmed(b, e), false, act.est)))
  }

  predicate FirstArrives(w: World, p: Party, act: Action) {
    var q := p.Other();
    && act.Deliver? && act.p == q && w.inbox.At(q) != []
    && FirstOk(Confirmed(w.actors.At(q), FirstEvent(w, q, act)), false, act.est, w.now)
  }

  /** The packet opens on the waiting session, which becomes the one in use. */
  lemma Confirms(b: ActorState, s: SessionState, items: seq<Item>, now: nat, e: Event)
    requires Holds(StandIn(b), now) && items != [] && Stream(s, b.machine.next.value, items)
    requires e.RecvData? && e.now == now && e.packet == items[0].octets && e.receiver == Receiver(items[0].octets)
    ensures var c, r := Confirmed(b, e), b.machine.next.value;
            && Step(b, e) == SessionEstablished(c, false, e.est)
            && c.machine.current == Some(r.(window := r.window.After(items[0].counter))) && c.machine.next == None
            && c.session == Some(NewTimers(false, now).PacketReceived(now, items[0].payload != [])) && c.staged == b.staged
            && c.machine.endpoint == Some(e.source) && c.machine.pending == b.machine.pending
            && c.machine.previous == b.machine.current
  {
    hide DataPacket, Received, ReadNumber, EnsureHandshake, SessionEstablished;
    var item, r := items[0], b.machine.next.value;
    HeaderOf(s, item);
    ReceivedOfSent(s.keys.peerIndex, item.counter, s.keys.sendKey, item.payload, r.keys.ourIndex, r.keys.recvKey);
    assert b.machine.Find(e.receiver) == Some(Next);
  }

  /** After the first packet both ends use the session and every deadline is covered. */
  lemma FirstReady(w: World, p: Party, delay: nat, act: Action)
    requires 2 * delay < REKEY_TIMEOUT && Opening(w, p, delay) && FirstArrives(w, p, act)
    ensures Ready(First(w, p, act), delay)
  {
    hide Stream, Step, SessionEstablished, Confirmed, FirstItems, FirstOk, L.Inv, LinkOf;
    var q, v := p.Other(), Shadow(w, p);
    var b, e := w.actors.At(q), FirstEvent(w, q, act);
    var s := v.actors.At(p).machine.current.value;
    assert Holds(v.actors.At(q), v.now) && v.actors.At(q) == StandIn(b) && q.Other() == p;
    assert Holds(v.actors.At(p), v.now) && Stream(s, b.machine.next.value, w.inbox.At(q));
    Confirms(b, s, w.inbox.At(q), w.now, e);
    Receipt(v.actors.At(q), s, v.inbox.At(q), v.now, act);
    ReadyStep(v, delay, act);
    var c, u := Confirmed(b, e), Do(v, act);
    var t := w.(actors := w.actors.With(q, c), inbox := w.inbox.With(q, w.inbox.At(q)[1..]));
    assert u.actors.At(q) == Step(v.actors.At(q), e);
    assert SameEnd(u.actors.At(q), c) && u.actors.At(p) == t.actors.At(p) && t.actors.At(q) == c;
    forall z: Party ensures SameEnd(u.actors.At(z), t.actors.At(z)) { assert z == p || z == q; }
    ReadySame(u, t, delay);
    FirstKeeps(t, First(w, p, act), delay, q, c, false, act.est);
  }

  // ---------- the whole life of a session ----------

  /** Passive keepalive prevents spurious handshakes, from the handshake on. The
      initiator accepts a response, with any queue; it and the responder run
      other arms; the first packet confirms the session to the responder, with
      any queue; then both run any arms that keep the session. Over a lossless
      ordered link with a round trip under five seconds and prompt timers, and
      if no flush consists of empty payloads alone, the unanswered-data deadline
      is never reached: not by the initiator before the session is confirmed,
      and by neither end after that. */
  lemma NoSpuriousHandshake(w: World, p: Party, e: Event, delay: nat, opening: seq<OpenAction>, first: Action, acts: seq<Action>)
    requires 2 * delay < REKEY_TIMEOUT && Waiting(w, p, e) && FirstOk(Adopted(w.actors.At(p), e), true, e.est, w.now)
    requires OpenRunValid(Establish(w, p, e), p, delay, opening)
    ensures !Due(OpenRun(Establish(w, p, e), p, opening), p)
    ensures var t := OpenRun(Establish(w, p, e), p, opening);
            FirstArrives(t, p, first) && KA.ValidRun(First(t, p, first), delay, false, acts) ==>
              var u := KA.Run(First(t, p, first), acts);
              Synced(u) && forall z: Party :: !Due(u, z) && TimersOf(u.actors.At(z)).Exclusive()
  {
    hide FirstOk, Establish, Opening, OpenRun, OpenRunValid, First, FirstEvent, Ready, Adopted, KA.Run, KA.ValidRun, Synced;
    EstablishOpens(w, p, e, delay);
    var w1 := Establish(w, p, e);
    OpenRunKeeps(w1, p, delay, opening);
    var t := OpenRun(w1, p, opening);
    OpeningNotDue(t, p, delay);
    if FirstArrives(t, p, first) && KA.ValidRun(First(t, p, first), delay, false, acts) {
      FirstReady(t, p, delay, first);
      ReadyNeverFires(First(t, p, first), delay, acts);
    }
  }

  /** The same from any idle pair. */
  lemma IdleNeverFires(w: World, delay: nat, acts: seq<Action>)
    requires Idle(w) && 2 * delay < REKEY_TIMEOUT && KA.ValidRun(w, delay, false, acts)
    ensures forall p: Party :: !Due(KA.Run(w, acts), p)
  {
    hide Idle, Ready, KA.ValidRun, KA.Run;
    IdleIsReady(w, delay);
    ReadyNeverFires(w, delay, acts);
  }

  // ---------- from two spawned actors ----------

  /** An initiator just spawned and told the endpoint, its initiation, and a
      responder just spawned that answered it. */
  function Initiated(ourSecret: nat, peerSecret: nat, psk: Option<Term>, address: Address, hs: HsInput): ActorState {
    Step(Spawn(ourSecret, Point(peerSecret), psk, None), Connect(address, hs))
  }

  function InitiationOf(ourSecret: nat, peerSecret: nat, hs: HsInput): (init: H.InitMsg) {
    assert DiffieHellman(hs.values.ephemeralSecret, Point(peerSecret)) != LowOrder;
    H.Initiate(ourSecret, Point(peerSecret), hs.values.index, hs.values.ephemeralSecret, hs.values.timestamp).value.1
  }

  function ReadBy(peerSecret: nat, init: H.InitMsg): H.InitReceived {
    var r := H.Receive(peerSecret, init);
    if r.Some? then r.value else H.InitReceived(LowOrder, LowOrder, 0, 0, EMPTY, EMPTY)
  }

  function Answered(ourSecret: nat, peerSecret: nat, psk: Option<Term>, now: nat, hs: HsInput, v: HandshakeValues,
                    source: Address): ActorState {
    Step(Spawn(peerSecret, Point(ourSecret), psk, None),
         RecvInit(now, ReadBy(peerSecret, InitiationOf(ourSecret, peerSecret, hs)), v, source, true))
  }

  function AnswerTo(ourSecret: nat, peerSecret: nat, psk: Option<Term>, hs: HsInput, v: HandshakeValues): H.RespMsg {
    H.Respond(ReadBy(peerSecret, InitiationOf(ourSecret, peerSecret, hs)), v.index, v.ephemeralSecret, psk).0
  }

  /** Every handshake between two spawned actors that share a preshared key gets
      there: the initiator accepts the answer while the responder waits. */
  lemma SpawnedWait(ourSecret: nat, peerSecret: nat, psk: Option<Term>, address: Address, hs: HsInput, v: HandshakeValues,
                    source: Address, now: nat, est: EstablishedInput)
    requires hs.values.index < INDEX_LIMIT && v.index < INDEX_LIMIT
    ensures var w := World(now, Pair(Initiated(ourSecret, peerSecret, psk, address, hs),
                                     Answered(ourSecret, peerSecret, psk, now, hs, v, source)), Pair([], []));
            Waiting(w, Left, RecvResp(now, AnswerTo(ourSecret, peerSecret, psk, hs, v), source, est))
    ensures Initiated(ourSecret, peerSecret, psk, address, hs).staged == []
    ensures Answered(ourSecret, peerSecret, psk, now, hs, v, source).staged == []
  {
    hide H.Initiate, H.Receive, H.Respond, H.ResponseReceived, H.FinishInitiator, H.FinishResponder, SessionEstablished;
    H.HandshakeAgreement(ourSecret, peerSecret, hs.values.index, hs.values.ephemeralSecret, hs.values.timestamp,
                         v.index, v.ephemeralSecret, psk, ourSecret);
    InitiatedPending(ourSecret, peerSecret, psk, address, hs);
    AnsweredNext(ourSecret, peerSecret, psk, now, hs, v, source);
    OwnIndices(ourSecret, peerSecret, psk, hs, v);
  }

  lemma InitiatedPending(ourSecret: nat, peerSecret: nat, psk: Option<Term>, address: Address, hs: HsInput)
    ensures var a := Initiated(ourSecret, peerSecret, psk, address, hs);
            var init := H.Initiate(ourSecret, Point(peerSecret), hs.values.index, hs.values.ephemeralSecret, hs.values.timestamp);
            && init.Some? && a.ourSecret == ourSecret && a.staged == [] && a.machine.psk == psk && a.machine.next == None
            && a.machine.current == None
            && a.machine.pending == Some(PendingHandshake(init.value.0, hs.values.index))
  {
  }

  lemma AnsweredNext(ourSecret: nat, peerSecret: nat, psk: Option<Term>, now: nat, hs: HsInput, v: HandshakeValues, source: Address)
    ensures var b := Answered(ourSecret, peerSecret, psk, now, hs, v, source);
            var received := ReadBy(peerSecret, InitiationOf(ourSecret, peerSecret, hs));
            && b.staged == [] && b.machine.current == None && b.machine.pending == None
            && b.machine.next == Some(NewSession(H.FinishResponder(H.Respond(received, v.index, v.ephemeralSecret, psk).1), now))
  {
    hide H.Receive, H.Respond, H.FinishResponder, InitiationOf;
  }

  lemma OwnIndices(ourSecret: nat, peerSecret: nat, psk: Option<Term>, hs: HsInput, v: HandshakeValues)
    ensures var received := ReadBy(peerSecret, InitiationOf(ourSecret, peerSecret, hs));
            var keys := H.FinishResponder(H.Respond(received, v.index, v.ephemeralSecret, psk).1);
            keys.ourIndex == v.index && keys.peerIndex == hs.values.index
  {
    H.InitiationRead(ourSecret, peerSecret, hs.values.index, hs.values.ephemeralSecret, hs.values.timestamp, peerSecret);
  }

  /** An actor that can send on a new session with nothing queued. */
  predicate Fit(c: ActorState, initiator: bool, est: EstablishedInput, now: nat) {
    && c.staged == [] && c.session.Some? && est.flush.now == now && est.keepalive.now == now && est.keepalive.sent
    && EstDraws(est) !! Live(c.machine)
    && c.machine.endpoint.Some? && c.machine.current.Some? && !c.machine.current.value.ExpiredAt(now)
    && c.machine.current.value.sendCounter < REJECT_AFTER_MESSAGES
  }

  lemma FitIsOk(c: ActorState, initiator: bool, est: EstablishedInput, now: nat)
    requires Fit(c, initiator, est, now)
    ensures FirstOk(c, initiator, est, now)
    ensures if initiator then |FirstItems(c, initiator, est)| == 1 && FirstItems(c, initiator, est)[0].payload == []
            else FirstItems(c, initiator, est) == []
    ensures var b := SessionEstablished(c, initiator, est);
            b.session == Some(if initiator then c.session.value.KeepaliveSent() else c.session.value)
    ensures var b, s := SessionEstablished(c, initiator, est), c.machine.current.value;
            && b.machine.endpoint == c.machine.endpoint
            && b.machine.current == Some(if initiator then s.(sendCounter := s.sendCounter + 1) else s)
  {
    hide SendKeepalive, FlushSends, SealAll, BatchesOf, AnySent, DataPacket;
    NothingSealed(c.machine, est.flush);
    FlushEffect(c.(staged := []), [], est.flush);
    assert c.(staged := []) == c;
    KeepaliveEffect(c, est.keepalive);
    NoBatches(est.flush);
  }

  lemma NoBatches(f: FlushInput)
    ensures BatchesOf([], [], 0, f.gso) == []
  {
  }

  /** A handshake with nothing queued at either end leaves the pair idle, and able to send. */
  lemma QuietStart(w: World, p: Party, e: Event, first: Action)
    requires Waiting(w, p, e) && Fit(Adopted(w.actors.At(p), e), true, e.est, w.now)
    requires first.Deliver? && first.p == p.Other()
    requires var t, q := Establish(w, p, e), p.Other();
             t.inbox.At(q) != [] ==> Fit(Confirmed(t.actors.At(q), FirstEvent(t, q, first)), false, first.est, w.now)
    ensures var t := Establish(w, p, e);
            && t.inbox.At(p.Other()) != []
            && var u := First(t, p, first);
               Idle(u) && u.now == w.now
  {
    hide Adopted, Confirmed, SessionEstablished, Step, FirstItems, Stream, Fit, L.Inv, LinkOf, PeerState.HandshakeResponse;
    var q, a := p.Other(), w.actors.At(p);
    AdoptedStep(a, e);
    AdoptedTimers(a, e);
    FitIsOk(Adopted(a, e), true, e.est, w.now);
    EstablishOpens(w, p, e, 0);
    var t := Establish(w, p, e);
    assert t.actors.At(q) == w.actors.At(q) && t.inbox.At(p) == [] && |t.inbox.At(q)| == 1;
    var c := Confirmed(t.actors.At(q), FirstEvent(t, q, first));
    FitIsOk(c, false, first.est, w.now);
    FirstReady(t, p, 0, first);
    var v := Shadow(t, p);
    var s := v.actors.At(p).machine.current.value;
    assert Holds(v.actors.At(p), v.now) && Holds(v.actors.At(q), v.now) && q.Other() == p && v.actors.At(q) == StandIn(t.actors.At(q));
    assert Stream(s, t.actors.At(q).machine.next.value, t.inbox.At(q));
    Confirms(t.actors.At(q), s, t.inbox.At(q), t.now, FirstEvent(t, q, first));
    var u := First(t, p, first);
    assert u.inbox.At(q) == [] && u.inbox.At(p) == [];
    forall z: Party ensures TimersOf(u.actors.At(z)).keepaliveAt.None? && TimersOf(u.actors.At(z)).newHandshakeAt.None? {
      assert z == p || z == q;
    }
  }

  /** So every handshake between spawned actors ends in an idle pair: the idle start is reached. */
  lemma SpawnedBecomeIdle(ourSecret: nat, peerSecret: nat, psk: Option<Term>, address: Address, hs: HsInput, v: HandshakeValues,
                          source: Address, now: nat, est: EstablishedInput, first: Action)
    requires hs.values.index < INDEX_LIMIT && v.index < INDEX_LIMIT
    requires est.flush.now == now && est.keepalive.now == now && est.keepalive.sent
    requires EstDraws(est) !! {hs.values.index, v.index} && first.Deliver? && first.p == Right && first.est == est
    ensures var w := World(now, Pair(Initiated(ourSecret, peerSecret, psk, address, hs),
                                     Answered(ourSecret, peerSecret, psk, now, hs, v, source)), Pair([], []));
            var t := Establish(w, Left, RecvResp(now, AnswerTo(ourSecret, peerSecret, psk, hs, v), source, est));
            t.inbox.right != [] && Idle(First(t, Left, first))
  {
    hide Initiated, Answered, AnswerTo, Adopted, Confirmed, Step, SessionEstablished, Stream, FirstItems, L.Inv, LinkOf,
         PeerState.HandshakeResponse, H.FinishResponder, H.Respond, ReadBy, InitiationOf;
    var a, b := Initiated(ourSecret, peerSecret, psk, address, hs), Answered(ourSecret, peerSecret, psk, now, hs, v, source);
    var w := World(now, Pair(a, b), Pair([], []));
    var e := RecvResp(now, AnswerTo(ourSecret, peerSecret, psk, hs, v), source, est);
    SpawnedWait(ourSecret, peerSecret, psk, address, hs, v, source, now, est);
    InitiatedPending(ourSecret, peerSecret, psk, address, hs);
    AnsweredNext(ourSecret, peerSecret, psk, now, hs, v, source);
    OwnIndices(ourSecret, peerSecret, psk, hs, v);
    AdoptedStep(a, e);
    AdoptedTimers(a, e);
    assert Fit(Adopted(a, e), true, est, now);
    FitIsOk(Adopted(a, e), true, est, now);
    EstablishOpens(w, Left, e, 0);
    var t := Establish(w, Left, e);
    assert t.actors.right == b && |t.inbox.right| == 1;
    ConfirmedFit(t, b, first, est, v.index);
    QuietStart(w, Left, e, first);
  }

  lemma ConfirmedFit(t: World, b: ActorState, first: Action, est: EstablishedInput, index: nat)
    requires Opening(t, Left, 0) && t.actors.right == b && t.inbox.right != [] && first.Deliver? && first.est == est
    requires b.staged == [] && b.machine.current == None && b.machine.pending == None
    requires IndexOf(b.machine.next) == Some(index) && index !in EstDraws(est) && b.machine.next.value.sendCounter == 0
    requires est.flush.now == t.now && est.keepalive.now == t.now && est.keepalive.sent
    ensures Fit(Confirmed(b, FirstEvent(t, Right, first)), false, est, t.now)
  {
    hide Stream, Step, SessionEstablished, Confirmed, L.Inv, LinkOf;
    var v := Shadow(t, Left);
    var s, e := v.actors.left.machine.current.value, FirstEvent(t, Right, first);
    assert Holds(v.actors.At(Left), v.now) && Holds(v.actors.At(Right), v.now) && v.actors.At(Right) == StandIn(b);
    assert Left.Other() == Right && Stream(s, b.machine.next.value, t.inbox.right);
    Confirms(b, s, t.inbox.right, t.now, e);
  }
}
