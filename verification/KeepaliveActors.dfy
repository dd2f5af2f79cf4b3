/** Two driver actors that hold the two ends of one session, joined by a link
    that loses nothing and keeps order. Everything they do to the session's
    timers and packets is a run of `KeepaliveLink`. */
module KeepaliveActors {
  import opened Wrappers
  import opened Crypto
  import opened Parties
  import opened Timing
  import opened Replay
  import opened TransportData
  import opened PeerSpec
  import opened ActorSpec
  import opened ArmEffects
  import L = KeepaliveLink
  import H = Handshake

  /** A data packet in flight; counter and payload record what its octets seal. */
  datatype Item = Item(sentAt: nat, octets: seq<Octet>, counter: nat, payload: Payload)

  datatype World = World(now: nat, actors: Pair<ActorState>, inbox: Pair<seq<Item>>)

  datatype Action =
    | Arm(p: Party, event: Event)
    | Deliver(p: Party, source: Address, room: bool, est: EstablishedInput, hs: HsInput)
    | Tick(t: nat)

  // ---------- what an arm puts on the link ----------

  function Counter(m: PeerState): nat {
    if m.current.Some? then m.current.value.sendCounter else 0
  }

  function Items(now: nat, packets: seq<seq<Octet>>, first: nat, payloads: seq<Payload>): (items: seq<Item>)
    requires |packets| <= |payloads|
    ensures |items| == |packets|
    ensures forall i | 0 <= i < |items| :: items[i] == Item(now, packets[i], first + i, payloads[i])
  {
    seq(|packets|, i requires 0 <= i < |packets| => Item(now, packets[i], first + i, payloads[i]))
  }

  function KeepaliveItems(m: PeerState, now: nat): seq<Item> {
    var packet := m.Encrypt(now, [], PacketLen(0)).1;
    if packet.Ok? then [Item(now, packet.value, Counter(m), [])] else []
  }

  /** The data packets an arm hands to the socket, as long as it keeps its session. */
  function Emits(a: ActorState, e: Event): seq<Item> {
    match e
    case SendData(payloads, f) => Items(f.now, SealAll(a.machine, f.now, payloads).1, Counter(a.machine), payloads)
    case KeepaliveDue(k) => KeepaliveItems(a.machine, k.now)
    case PersistentDue(now, k, _) =>
      if a.session.Some? && a.session.value.Usable(now) then KeepaliveItems(a.machine, k.now) else []
    case _ => []
  }

  // ---------- steps ----------

  /** The arm reads the world's clock. */
  predicate ReadsAt(e: Event, t: nat) {
    match e
    case SendData(_, f) => f.now == t
    case RecvData(now, _, _, _, _, _, _) => now == t
    case RecvInit(now, _, _, _, _) => now == t
    case RecvResp(now, _, _, _) => now == t
    case RecvCookie(now) => now == t
    case HandshakeDue(now, _) => now == t
    case KeepaliveDue(k) => k.now == t
    case PersistentDue(now, k, _) => now == t && k.now == t
    case _ => true
  }

  /** The socket takes every packet. */
  predicate Lossless(a: ActorState, e: Event) {
    match e
    case SendData(payloads, f) =>
      var batches := BatchesOf(payloads, SealAll(a.machine, f.now, payloads).1, 0, f.gso);
      |batches| <= |f.sends| && forall i | 0 <= i < |batches| :: f.sends[i]
    case KeepaliveDue(k) => k.sent
    case PersistentDue(_, k, _) => k.sent
    case _ => true
  }

  predicate AnyPayload(payloads: seq<Payload>) {
    exists i :: 0 <= i < |payloads| && payloads[i] != []
  }

  /** The unanswered-data deadline has been reached while armed. */
  predicate Due(w: World, p: Party) {
    var session := w.actors.At(p).session;
    session.Some? && session.value.newHandshakeAt.Some? && session.value.newHandshakeAt.value <= w.now
  }

  /** Any arm that neither replaces the session nor gives it up. The deadline's
      own arm runs only when it is due; the packets received are those on the link. */
  predicate KeepsSession(w: World, p: Party, e: Event) {
    var a := w.actors.At(p);
    && !e.RecvData?
    && (e.RecvResp? ==> a.machine.HandshakeResponse(a.ourSecret, e.now, e.msg, e.source).1.Err?)
    && (e.NewHandshakeDue? ==> Due(w, p))
    && Step(a, e).session.Some?
  }

  predicate Enabled(w: World, delay: nat, empties: bool, act: Action) {
    match act
    case Arm(p, e) =>
      var a := w.actors.At(p);
      && ReadsAt(e, w.now) && Lossless(a, e) && Draws(e) !! Live(a.machine) && KeepsSession(w, p, e)
      && (e.SendData? ==> e.payloads == [] || empties || AnyPayload(e.payloads))
    case Deliver(p, _, _, _, _) => w.inbox.At(p) != []
    case Tick(t) =>
      && w.now <= t
      && forall p: Party ::
           && (w.actors.At(p).session.Some? && w.actors.At(p).session.value.keepaliveAt.Some? ==>
                 t <= w.actors.At(p).session.value.keepaliveAt.value)
           && (forall i | 0 <= i < |w.inbox.At(p)| :: t <= w.inbox.At(p)[i].sentAt + delay)
           && (w.actors.At(p).machine.current.Some? ==> !w.actors.At(p).machine.current.value.ExpiredAt(t))
  }

  /** The receiver index in a packet's header, by which it is dispatched. */
  function Receiver(octets: seq<Octet>): nat {
    if |octets| < 8 then 0
    else
      var n := ReadNumber(octets[4..8]);
      if n.Some? then n.value else 0
  }

  function Do(w: World, act: Action): World {
    match act
    case Arm(p, e) =>
      var a, q := w.actors.At(p), p.Other();
      w.(actors := w.actors.With(p, Step(a, e)), inbox := w.inbox.With(q, w.inbox.At(q) + Emits(a, e)))
    case Deliver(p, source, room, est, hs) =>
      var items := w.inbox.At(p);
      if items == [] then w
      else
        var e := RecvData(w.now, items[0].octets, Receiver(items[0].octets), source, room, est, hs);
        w.(actors := w.actors.With(p, Step(w.actors.At(p), e)), inbox := w.inbox.With(p, items[1..]))
    case Tick(t) => w.(now := t)
  }

  predicate ValidRun(w: World, delay: nat, empties: bool, acts: seq<Action>)
    decreases |acts|
  {
    acts == [] || (Enabled(w, delay, empties, acts[0]) && ValidRun(Do(w, acts[0]), delay, empties, acts[1..]))
  }

  function Run(w: World, acts: seq<Action>): World
    decreases |acts|
  {
    if acts == [] then w else Run(Do(w, acts[0]), acts[1..])
  }

  // ---------- one session, two ends ----------

  /** An actor that holds the session, unexpired, and whose unconfirmed session has another index. */
  predicate Holds(a: ActorState, now: nat) {
    && a.session.Some? && a.machine.current.Some? && !a.machine.current.value.ExpiredAt(now)
    && IndexOf(a.machine.next) != IndexOf(a.machine.current)
  }

  /** A packet under the sender's keys with the given counter. */
  predicate Numbered(keys: H.TransportKeys, counter: nat, item: Item) {
    && item.counter == counter < REJECT_AFTER_MESSAGES
    && item.octets == DataPacket(keys.peerIndex, counter, keys.sendKey, item.payload)
  }

  /** One direction: the packets in flight are the last ones sealed, in order, and the receiver has seen only earlier ones. */
  predicate Stream(sender: SessionState, receiver: SessionState, items: seq<Item>) {
    && sender.keys.sendKey == receiver.keys.recvKey && sender.keys.peerIndex == receiver.keys.ourIndex
    && sender.keys.peerIndex < INDEX_LIMIT
    && |items| <= sender.sendCounter
    && var base := sender.sendCounter - |items|;
       && receiver.window.last <= base && (forall c | c in receiver.window.accepted :: c < base)
       && forall i | 0 <= i < |items| :: Numbered(sender.keys, base + i, items[i])
  }

  predicate Synced(w: World) {
    && (forall p: Party :: Holds(w.actors.At(p), w.now))
    && (forall p: Party ::
          Stream(w.actors.At(p).machine.current.value, w.actors.At(p.Other()).machine.current.value, w.inbox.At(p.Other())))
  }

  // ---------- the projection ----------

  function TimersOf(a: ActorState): Timers {
    if a.session.Some? then a.session.value else NewTimers(false, 0)
  }

  function Flights(items: seq<Item>): (s: seq<L.InFlight>)
    ensures |s| == |items| && forall i | 0 <= i < |s| :: s[i] == L.InFlight(items[i].sentAt, items[i].payload != [])
  {
    seq(|items|, i requires 0 <= i < |items| => L.InFlight(items[i].sentAt, items[i].payload != []))
  }

  function LinkOf(w: World): L.Link {
    L.Link(w.now, Pair(TimersOf(w.actors.left), TimersOf(w.actors.right)), Pair(Flights(w.inbox.left), Flights(w.inbox.right)))
  }

  function Flags(payloads: seq<Payload>): (s: seq<bool>)
    ensures |s| == |payloads| && forall i | 0 <= i < |s| :: s[i] == (payloads[i] != [])
  {
    seq(|payloads|, i requires 0 <= i < |payloads| => payloads[i] != [])
  }

  /** What a step of the actors is on the link; most arms are nothing there. */
  function Projected(w: World, act: Action): Option<L.Action> {
    match act
    case Arm(p, SendData(payloads, f)) => if payloads == [] then None else Some(L.Data(p, Flags(payloads), f.jitter))
    case Arm(p, KeepaliveDue(_)) => Some(L.Keepalive(p))
    case Arm(p, PersistentDue(now, _, _)) => if TimersOf(w.actors.At(p)).Usable(now) then Some(L.Keepalive(p)) else None
    case Arm(_, _) => None
    case Deliver(p, _, _, _, _) => Some(L.Deliver(p, 0))
    case Tick(t) => Some(L.Tick(t))
  }

  // ---------- what an arm does to its end ----------

  /** The arm's end after the step: the session counts what was emitted, and nothing else of it moves. */
  predicate Emitted(a: ActorState, e: Event) {
    var m, m', items := a.machine, Step(a, e).machine, Emits(a, e);
    && m.current.Some?
    && var s := m.current.value;
       && m'.current == Some(s.(sendCounter := s.sendCounter + |items|))
       && (IndexOf(m'.next) == IndexOf(m.next) || (e.RecvInit? && IndexOf(m'.next) == Some(e.values.index)))
       && Consecutive(s, items)
  }

  /** The packets are sealed under the session's next counters. */
  predicate Consecutive(s: SessionState, items: seq<Item>) {
    forall i | 0 <= i < |items| :: Numbered(s.keys, s.sendCounter + i, items[i])
  }

  lemma FlushArm(a: ActorState, e: Event)
    requires e.SendData? && a.session.Some? && a.machine.current.Some? && Step(a, e).session.Some? && Lossless(a, e)
    ensures Emitted(a, e) && |Emits(a, e)| == |e.payloads|
    ensures Step(a, e).session.value ==
            if e.payloads == [] then a.session.value else a.session.value.DataSent(e.flush.now, e.flush.jitter)
  {
    hide SealAll, BatchesOf, FlushSends, DataPacket, Lossless, AnySent, Emitted, Emits;
    var payloads, f := e.payloads, e.flush;
    FlushEffect(a.(history := a.history.(submitted := a.history.submitted + payloads)), payloads, f);
    assert |SealAll(a.machine, f.now, payloads).1| == |payloads|;
    FlushEmits(a, e);
    if payloads != [] { TrainsLeave(a, e); }
  }

  /** A flush counts the packets it sealed. */
  lemma FlushEmits(a: ActorState, e: Event)
    requires e.SendData? && a.machine.current.Some?
    ensures Emitted(a, e) && |Emits(a, e)| == |SealAll(a.machine, e.flush.now, e.payloads).1|
  {
    hide SealAll, BatchesOf, FlushSends, DataPacket, AnySent, Step;
    FlushCounts(a, e);
    FlushItems(a, e);
  }

  lemma FlushCounts(a: ActorState, e: Event)
    requires e.SendData? && a.machine.current.Some?
    ensures var s, b := a.machine.current.value, Step(a, e);
            && b.machine.current == Some(s.(sendCounter := s.sendCounter + |SealAll(a.machine, e.flush.now, e.payloads).1|))
            && b.machine.next == a.machine.next
  {
    hide SealAll, BatchesOf, FlushSends, DataPacket, AnySent;
    var payloads, f := e.payloads, e.flush;
    var c := a.(history := a.history.(submitted := a.history.submitted + payloads));
    FlushEffect(c, payloads, f);
    SealedPackets(a.machine, f.now, payloads);
    var (machine, packets) := SealAll(a.machine, f.now, payloads);
    var s, b := a.machine.current.value, Step(a, e);
    assert b == FlushSends(c, payloads, f) && c.machine == a.machine;
    assert b.machine == machine.(pending := b.machine.pending);
    assert machine.current == Some(s.(sendCounter := s.sendCounter + |packets|)) && machine.next == a.machine.next;
  }

  lemma FlushItems(a: ActorState, e: Event)
    requires e.SendData? && a.machine.current.Some?
    ensures |Emits(a, e)| == |SealAll(a.machine, e.flush.now, e.payloads).1|
    ensures Consecutive(a.machine.current.value, Emits(a, e))
  {
    hide SealAll, DataPacket;
    SealedPackets(a.machine, e.flush.now, e.payloads);
    var packets, s := SealAll(a.machine, e.flush.now, e.payloads).1, a.machine.current.value;
    ItemsConsecutive(s, e.flush.now, packets, e.payloads);
  }

  lemma ItemsConsecutive(s: SessionState, now: nat, packets: seq<seq<Octet>>, payloads: seq<Payload>)
    requires |packets| <= |payloads|
    requires forall i: nat | i < |packets| ::
               && s.sendCounter + i < REJECT_AFTER_MESSAGES
               && packets[i] == DataPacket(s.keys.peerIndex, s.sendCounter + i, s.keys.sendKey, payloads[i])
    ensures Consecutive(s, Items(now, packets, s.sendCounter, payloads))
  {
    hide DataPacket;
  }

  lemma TrainsLeave(a: ActorState, e: Event)
    requires e.SendData? && Lossless(a, e) && SealAll(a.machine, e.flush.now, e.payloads).1 != []
    ensures AnySent(e.flush.sends, |BatchesOf(e.payloads, SealAll(a.machine, e.flush.now, e.payloads).1, 0, e.flush.gso)|)
  {
    hide SealAll, BatchesOf;
    SomeBatch(e.payloads, SealAll(a.machine, e.flush.now, e.payloads).1, e.flush.gso);
    assert e.flush.sends[0];
  }

  lemma SomeBatch(payloads: seq<Payload>, packets: seq<seq<Octet>>, gso: nat)
    requires packets != [] && |packets| <= |payloads|
    ensures BatchesOf(payloads, packets, 0, gso) != []
  {
  }

  lemma KeepaliveArm(a: ActorState, k: KeepaliveInput)
    requires a.session.Some? && a.machine.current.Some? && SendKeepalive(a, k).session.Some?
    ensures var m, m', items := a.machine, SendKeepalive(a, k).machine, KeepaliveItems(a.machine, k.now);
            var s := m.current.value;
            && |items| == 1 && items[0].payload == [] && items[0].sentAt == k.now
            && m' == m.(current := Some(s.(sendCounter := s.sendCounter + 1)), pending := m'.pending)
            && items[0].counter == s.sendCounter < REJECT_AFTER_MESSAGES
            && items[0].octets == DataPacket(s.keys.peerIndex, s.sendCounter, s.keys.sendKey, [])
    ensures SendKeepalive(a, k).session.value == a.session.value.KeepaliveSent()
  {
    hide SendKeepalive, DataPacket;
    KeepaliveEffect(a, k);
  }

  /** Arms that emit nothing leave the sessions and the timers alone. */
  lemma QuietArm(w: World, p: Party, e: Event)
    requires var a := w.actors.At(p);
             && a.session.Some? && a.machine.current.Some? && KeepsSession(w, p, e)
             && !e.SendData? && !e.KeepaliveDue? && !e.PersistentDue? && !e.NewHandshakeDue?
    ensures var a := w.actors.At(p);
            Emits(a, e) == [] && Emitted(a, e) && Step(a, e).session == a.session
  {
    hide SendHandshake, EnsureHandshake, OnConnect, OnReconfigure, OnRecvInit, OnRecvResp, DataPacket;
    var a := w.actors.At(p);
    match e
    case Connect(_, _) => ReconfigureEffect(a, e);
    case Reconfigure(_, _, _, _) => ReconfigureEffect(a, e);
    case RecvResp(_, _, _, _) => RefusedArm(a, e);
    case RecvInit(_, _, _, _, _) => RespondArm(a, e);
    case HandshakeDue(now, hs) =>
      if a.handshake.Some? { HandshakeEffect(a.(clock := now), a.handshake.value.firstSent, hs); }
    case _ =>
  }

  lemma RefusedArm(a: ActorState, e: Event)
    requires e.RecvResp? && a.machine.HandshakeResponse(a.ourSecret, e.now, e.msg, e.source).1.Err?
    ensures Step(a, e) == a.(clock := e.now)
  {
    hide PeerState.HandshakeResponse;
  }

  lemma RespondArm(a: ActorState, e: Event)
    requires e.RecvInit?
    ensures var b := Step(a, e);
            && b.session == a.session && b.machine.current == a.machine.current
            && (IndexOf(b.machine.next) == IndexOf(a.machine.next) || IndexOf(b.machine.next) == Some(e.values.index))
  {
  }

  lemma PersistentArm(a: ActorState, e: Event)
    requires e.PersistentDue? && a.session.Some? && a.machine.current.Some? && Step(a, e).session.Some?
    ensures Emitted(a, e)
    ensures if a.session.value.Usable(e.now)
            then && |Emits(a, e)| == 1 && Emits(a, e)[0].payload == [] && Emits(a, e)[0].sentAt == e.k.now
                 && Step(a, e).session.value == a.session.value.KeepaliveSent()
            else Emits(a, e) == [] && Step(a, e).session == a.session
  {
    hide SendKeepalive, EnsureHandshake, KeepaliveItems, DataPacket;
    var a1 := a.(clock := e.now, lastSend := e.now);
    if a.session.value.Usable(e.now) {
      KeepaliveArm(a1, e.k);
    } else {
      HandshakeEffect(a1, 0, e.hs);
    }
  }

  /** A packet from the link opens on the session and is new to it. */
  lemma Receipt(a: ActorState, sender: SessionState, items: seq<Item>, now: nat, act: Action)
    requires act.Deliver? && Holds(a, now) && items != [] && Stream(sender, a.machine.current.value, items)
    ensures var e := RecvData(now, items[0].octets, Receiver(items[0].octets), act.source, act.room, act.est, act.hs);
            var b, s := Step(a, e), a.machine.current.value;
            && b.session == Some(a.session.value.PacketReceived(now, items[0].payload != []))
            && b.machine.current == Some(s.(window := s.window.After(items[0].counter))) && b.machine.next == a.machine.next
            && s.window.Admits(items[0].counter)
  {
    hide DataPacket, Received, ReadNumber, EnsureHandshake, SessionEstablished;
    var item, s := items[0], a.machine.current.value;
    HeaderOf(sender, item);
    ReceivedOfSent(sender.keys.peerIndex, item.counter, sender.keys.sendKey, item.payload, s.keys.ourIndex, s.keys.recvKey);
    var e := RecvData(now, item.octets, Receiver(item.octets), act.source, act.room, act.est, act.hs);
    assert a.machine.Find(Receiver(item.octets)) == Some(Current);
    forall b: ActorState ensures OnlyHandshake(b, EnsureHandshake(b, act.hs)) { HandshakeEffect(b, 0, act.hs); }
  }

  lemma HeaderOf(sender: SessionState, item: Item)
    requires sender.keys.peerIndex < INDEX_LIMIT && item.counter < REJECT_AFTER_MESSAGES
    requires item.octets == DataPacket(sender.keys.peerIndex, item.counter, sender.keys.sendKey, item.payload)
    ensures Receiver(item.octets) == sender.keys.peerIndex
  {
    hide Header, Seal, ReadNumber;
    HeaderFields(sender.keys.peerIndex, item.counter, Seal(sender.keys.sendKey, item.counter, EMPTY, item.payload));
  }

  // ---------- streams ----------

  lemma StreamSends(s: SessionState, s': SessionState, r: SessionState, items: seq<Item>, more: seq<Item>)
    requires Stream(s, r, items) && s' == s.(sendCounter := s.sendCounter + |more|)
    requires Consecutive(s, more)
    ensures Stream(s', r, items + more)
  {
    hide DataPacket;
  }

  lemma StreamDelivers(s: SessionState, r: SessionState, r': SessionState, items: seq<Item>)
    requires Stream(s, r, items) && items != [] && r' == r.(window := r.window.After(items[0].counter))
    requires r.window.Admits(items[0].counter)
    ensures Stream(s, r', items[1..])
  {
    hide DataPacket;
  }

  /** The other direction of the session is not touched by counting or receiving. */
  lemma StreamSame(s: SessionState, s': SessionState, r: SessionState, r': SessionState, items: seq<Item>)
    requires Stream(s, r, items) && s' == s.(window := s'.window) && r' == r.(sendCounter := r'.sendCounter)
    ensures Stream(s', r', items)
  {
    hide DataPacket;
  }

  // ---------- each step is a step of the link ----------

  /** A step matches the link: the same thing happens there, or nothing. */
  predicate Matches(w: World, delay: nat, empties: bool, act: Action) {
    var step := Projected(w, act);
    if step.None? then LinkOf(Do(w, act)) == LinkOf(w)
    else L.Enabled(LinkOf(w), delay, empties, step.value) && LinkOf(Do(w, act)) == L.Do(LinkOf(w), step.value)
  }

  lemma ArmStep(w: World, p: Party, e: Event)
    requires Synced(w) && Emitted(w.actors.At(p), e) && Step(w.actors.At(p), e).session.Some?
    requires Draws(e) !! Live(w.actors.At(p).machine)
    ensures Synced(Do(w, Arm(p, e)))
  {
    hide Stream, Step, Emits, Live, Draws;
    var a, q := w.actors.At(p), p.Other();
    var t, b := Do(w, Arm(p, e)), Step(a, e);
    var s, r, s' := a.machine.current.value, w.actors.At(q).machine.current.value, b.machine.current.value;
    assert Holds(a, w.now) && Holds(w.actors.At(q), w.now);
    assert t.actors.At(p) == b && t.actors.At(q) == w.actors.At(q) && q.Other() == p;
    assert Stream(s, r, w.inbox.At(q)) && Stream(r, s, w.inbox.At(p));
    FreshNext(a, e);
    StreamSends(s, s', r, w.inbox.At(q), Emits(a, e));
    StreamSame(r, r, s, s', w.inbox.At(p));
    forall z: Party ensures Holds(t.actors.At(z), t.now) { assert z == p || z == q; }
    forall z: Party
      ensures Stream(t.actors.At(z).machine.current.value, t.actors.At(z.Other()).machine.current.value, t.inbox.At(z.Other()))
    {
      assert z == p || z == q;
    }
  }

  lemma FreshNext(a: ActorState, e: Event)
    requires Emitted(a, e) && Draws(e) !! Live(a.machine) && IndexOf(a.machine.next) != IndexOf(a.machine.current)
    ensures IndexOf(Step(a, e).machine.next) != IndexOf(Step(a, e).machine.current)
  {
    hide Step, Emits, DataPacket;
    var index := a.machine.current.value.keys.ourIndex;
    assert index in Live(a.machine);
    if e.RecvInit? { assert e.values.index in Draws(e); }
  }

  lemma ArmMatches(w: World, delay: nat, empties: bool, p: Party, e: Event)
    requires Synced(w) && Enabled(w, delay, empties, Arm(p, e)) && !e.NewHandshakeDue?
    ensures Synced(Do(w, Arm(p, e))) && Matches(w, delay, empties, Arm(p, e))
  {
    hide Stream, Step, Emits, Lossless, ReadsAt, Emitted, Live, Draws;
    var a, q := w.actors.At(p), p.Other();
    assert Holds(a, w.now) && w.inbox.At(q) + [] == w.inbox.At(q);
    match e {
      case SendData(payloads, f) =>
        FlushArm(a, e);
        ArmStep(w, p, e);
        FlushMatches(w, delay, empties, p, e);
      case KeepaliveDue(k) =>
        KeepaliveDueMatches(w, delay, empties, p, e);
      case PersistentDue(now, k, hs) =>
        PersistentMatches(w, delay, empties, p, e);
      case _ =>
        QuietArm(w, p, e);
        ArmStep(w, p, e);
    }
  }

  /** Emitted packets and new timers are what the link's send step says. */
  lemma SentMatches(w: World, p: Party, e: Event, timers: Timers, flags: seq<bool>)
    requires Step(w.actors.At(p), e).session == Some(timers)
    requires var items := Emits(w.actors.At(p), e);
             |items| == |flags| && forall i | 0 <= i < |items| :: items[i].sentAt == w.now && flags[i] == (items[i].payload != [])
    ensures LinkOf(Do(w, Arm(p, e))) == L.Sent(LinkOf(w), p, timers, flags)
  {
    hide Step, Emits;
    var a, q := w.actors.At(p), p.Other();
    var items, inbox := Emits(a, e), w.inbox.At(q);
    assert Flights(inbox + items) == Flights(inbox) + L.Packets(w.now, flags);
  }

  lemma FlushMatches(w: World, delay: nat, empties: bool, p: Party, e: Event)
    requires Synced(w) && Enabled(w, delay, empties, Arm(p, e)) && e.SendData?
    ensures Matches(w, delay, empties, Arm(p, e))
  {
    hide Stream, Step, SealAll, BatchesOf, Emitted, Live, Draws;
    var a, q := w.actors.At(p), p.Other();
    assert Holds(a, w.now);
    FlushArm(a, e);
    if e.payloads == [] {
      assert w.inbox.At(q) + Emits(a, e) == w.inbox.At(q);
    } else {
      var flags := Flags(e.payloads);
      if !empties {
        var i :| 0 <= i < |e.payloads| && e.payloads[i] != [];
        assert flags[i];
      }
      SentMatches(w, p, e, a.session.value.DataSent(w.now, e.flush.jitter), flags);
    }
  }

  lemma KeepaliveDueMatches(w: World, delay: nat, empties: bool, p: Party, e: Event)
    requires Synced(w) && Enabled(w, delay, empties, Arm(p, e)) && e.KeepaliveDue?
    ensures Synced(Do(w, Arm(p, e))) && Matches(w, delay, empties, Arm(p, e))
  {
    hide Stream, SendKeepalive, KeepaliveItems, Live, Draws, DataPacket;
    var a := w.actors.At(p);
    assert Holds(a, w.now);
    KeepaliveArm(a, e.k);
    ArmStep(w, p, e);
    SentMatches(w, p, e, a.session.value.KeepaliveSent(), [false]);
  }

  lemma PersistentMatches(w: World, delay: nat, empties: bool, p: Party, e: Event)
    requires Synced(w) && Enabled(w, delay, empties, Arm(p, e)) && e.PersistentDue?
    ensures Synced(Do(w, Arm(p, e))) && Matches(w, delay, empties, Arm(p, e))
  {
    hide Stream, Step, Emits, Emitted, Live, Draws;
    var a, q := w.actors.At(p), p.Other();
    assert Holds(a, w.now);
    PersistentArm(a, e);
    ArmStep(w, p, e);
    if a.session.value.Usable(e.now) {
      SentMatches(w, p, e, a.session.value.KeepaliveSent(), [false]);
    } else {
      assert w.inbox.At(q) + [] == w.inbox.At(q);
    }
  }

  lemma DeliverMatches(w: World, delay: nat, empties: bool, act: Action)
    requires Synced(w) && act.Deliver? && w.inbox.At(act.p) != []
    ensures Synced(Do(w, act)) && Matches(w, delay, empties, act)
  {
    hide Stream, Step;
    var p, q := act.p, act.p.Other();
    var a, items := w.actors.At(p), w.inbox.At(p);
    var s, r := a.machine.current.value, w.actors.At(q).machine.current.value;
    assert Holds(a, w.now) && Holds(w.actors.At(q), w.now) && q.Other() == p;
    assert Stream(s, r, w.inbox.At(q)) && Stream(r, s, items);
    Receipt(a, r, items, w.now, act);
    var t := Do(w, act);
    var s' := t.actors.At(p).machine.current.value;
    StreamDelivers(r, s, s', items);
    StreamSame(s, s', r, r, w.inbox.At(q));
    forall z: Party ensures Holds(t.actors.At(z), t.now) { assert z == p || z == q; }
    forall z: Party
      ensures Stream(t.actors.At(z).machine.current.value, t.actors.At(z.Other()).machine.current.value, t.inbox.At(z.Other()))
    {
      assert z == p || z == q;
    }
    assert Flights(items[1..]) == Flights(items)[..0] + Flights(items)[1..];
  }

  lemma TickMatches(w: World, delay: nat, empties: bool, t: nat)
    requires Synced(w) && Enabled(w, delay, empties, Tick(t))
    ensures Synced(Do(w, Tick(t))) && Matches(w, delay, empties, Tick(t))
  {
    hide Stream;
    assert forall p: Party :: Holds(w.actors.At(p), w.now);
    assert forall p: Party :: LinkOf(w).timers.At(p) == TimersOf(w.actors.At(p)) && LinkOf(w).inbox.At(p) == Flights(w.inbox.At(p));
  }

  /** Every step of two actors on one kept session is a step of the link. */
  lemma StepMatches(w: World, delay: nat, empties: bool, act: Action)
    requires Synced(w) && Enabled(w, delay, empties, act) && !(act.Arm? && act.event.NewHandshakeDue?)
    ensures Synced(Do(w, act)) && Matches(w, delay, empties, act)
  {
    hide Synced, Do, Matches;
    match act
    case Arm(p, e) => ArmMatches(w, delay, empties, p, e);
    case Deliver(_, _, _, _, _) => DeliverMatches(w, delay, empties, act);
    case Tick(t) => TickMatches(w, delay, empties, t);
  }

  // ---------- the bound ----------

  /** Both ends hold the session and every armed deadline is covered. */
  predicate Ready(w: World, delay: nat) {
    Synced(w) && L.Inv(LinkOf(w), delay)
  }

  lemma NotDue(w: World, delay: nat)
    requires L.Inv(LinkOf(w), delay) && 2 * delay < REKEY_TIMEOUT
    ensures forall p: Party :: !Due(w, p)
  {
    forall p: Party ensures !Due(w, p) { L.CoveredIsAhead(LinkOf(w), delay, p); }
  }

  lemma ReadyStep(w: World, delay: nat, act: Action)
    requires Ready(w, delay) && 2 * delay < REKEY_TIMEOUT && Enabled(w, delay, false, act)
    ensures Ready(Do(w, act), delay)
  {
    hide Synced, Do, L.Inv, L.Do, L.Enabled, LinkOf, Projected;
    NotDue(w, delay);
    StepMatches(w, delay, false, act);
    if Projected(w, act).Some? { L.StepKeeps(LinkOf(w), delay, Projected(w, act).value); }
  }

  lemma {:induction false} RunKeeps(w: World, delay: nat, acts: seq<Action>)
    requires Ready(w, delay) && 2 * delay < REKEY_TIMEOUT && ValidRun(w, delay, false, acts)
    ensures Ready(Run(w, acts), delay)
    decreases |acts|
  {
    hide Ready, Do, Enabled;
    if acts != [] {
      ReadyStep(w, delay, acts[0]);
      RunKeeps(Do(w, acts[0]), delay, acts[1..]);
    }
  }

  /** From any state in which every armed deadline is covered: whatever other
      arms the two actors run, if no flush consists of empty payloads alone, the
      unanswered-data deadline is never reached at either end, so its arm never
      runs; and every packet sent is accepted. */
  lemma ReadyNeverFires(w: World, delay: nat, acts: seq<Action>)
    requires Ready(w, delay) && 2 * delay < REKEY_TIMEOUT && ValidRun(w, delay, false, acts)
    ensures forall p: Party :: !Due(Run(w, acts), p) && TimersOf(Run(w, acts).actors.At(p)).Exclusive()
    ensures Synced(Run(w, acts))
  {
    hide Synced, Do, ValidRun, Run;
    RunKeeps(w, delay, acts);
    var t := Run(w, acts);
    NotDue(t, delay);
    forall p: Party ensures TimersOf(t.actors.At(p)).Exclusive() { L.CoveredIsAhead(LinkOf(t), delay, p); }
  }

  /** Both ends hold the session, nothing is in flight and no deadline is armed. */
  predicate Idle(w: World) {
    && Synced(w) && w.inbox == Pair([], [])
    && forall p: Party :: TimersOf(w.actors.At(p)).keepaliveAt.None? && TimersOf(w.actors.At(p)).newHandshakeAt.None?
  }

  lemma IdleIsReady(w: World, delay: nat)
    requires Idle(w)
    ensures Ready(w, delay)
  {
    hide Synced;
    assert forall p: Party :: LinkOf(w).timers.At(p) == TimersOf(w.actors.At(p)) && LinkOf(w).inbox.At(p) == [];
  }

  /** Two actors that differ in nothing the session's timers and packets depend on. */
  predicate SameEnd(a: ActorState, b: ActorState) {
    && a.session.Some? == b.session.Some?
    && TimersOf(a).keepaliveAt == TimersOf(b).keepaliveAt && TimersOf(a).newHandshakeAt == TimersOf(b).newHandshakeAt
    && a.machine.current == b.machine.current && IndexOf(a.machine.next) == IndexOf(b.machine.next)
  }

  predicate SameWorld(w: World, t: World) {
    w.now == t.now && w.inbox == t.inbox && forall p: Party :: SameEnd(w.actors.At(p), t.actors.At(p))
  }

  lemma ReadySame(w: World, t: World, delay: nat)
    requires SameWorld(w, t) && Ready(w, delay)
    ensures Ready(t, delay)
  {
    hide Stream;
    assert forall p: Party :: SameEnd(w.actors.At(p), t.actors.At(p)) && Holds(w.actors.At(p), w.now);
    assert forall p: Party :: LinkOf(w).timers.At(p) == TimersOf(w.actors.At(p)) && LinkOf(t).timers.At(p) == TimersOf(t.actors.At(p));
    L.InvSame(LinkOf(w), LinkOf(t), delay);
  }

  // ---------- the empty payload ----------

  /** An actor that can seal one more packet, at an end that lasts another sixteen seconds. */
  predicate CanSend(a: ActorState, now: nat) {
    && a.machine.endpoint.Some? && a.machine.current.Some?
    && a.machine.current.value.sendCounter < REJECT_AFTER_MESSAGES && !a.machine.current.value.ExpiredAt(now + 16 * SECOND)
  }

  /** Why a flush must carry a payload. From any idle pair, on a link of any
      delay, one submitted empty payload is enough: it is sealed and delivered at
      once, arms its sender's deadline, and its receiver owes nothing, so the
      deadline is reached fifteen seconds later. */
  lemma EmptyPayloadFires(w: World, delay: nat, p: Party, f: FlushInput, arrival: Action)
    requires Idle(w) && CanSend(w.actors.At(p), w.now) && CanSend(w.actors.At(p.Other()), w.now)
    requires f.now == w.now && f.sends == [true] && f.hs.values.index !in Live(w.actors.At(p).machine)
    requires arrival.Deliver? && arrival.p == p.Other()
    ensures var acts := [Arm(p, SendData([[]], f)), arrival, Tick(w.now + 15 * SECOND + f.jitter * MS)];
            ValidRun(w, delay, true, acts) && Due(Run(w, acts), p)
  {
    hide Stream, Step, Synced, Live;
    var q, send := p.Other(), Arm(p, SendData([[]], f));
    var last := Tick(w.now + 15 * SECOND + f.jitter * MS);
    EmptySend(w, delay, p, f);
    var w1 := Do(w, send);
    EmptyArrives(w1, delay, q, arrival);
    var w2 := Do(w1, arrival);
    assert Enabled(w2, delay, true, last) by {
      forall z: Party ensures w2.inbox.At(z) == [] && (z == p || z == q) {}
    }
    Extend(w2, delay, last, []);
    Extend(w1, delay, arrival, [last]);
    Extend(w, delay, send, [arrival, last]);
    assert [last] + [] == [last] && [arrival] + [last] == [arrival, last] && [send] + [arrival, last] == [send, arrival, last];
  }

  /** Sealing and sending the empty payload arms the deadline. */
  lemma EmptySend(w: World, delay: nat, p: Party, f: FlushInput)
    requires Idle(w) && CanSend(w.actors.At(p), w.now)
    requires f.now == w.now && f.sends == [true] && f.hs.values.index !in Live(w.actors.At(p).machine)
    ensures var send, q := Arm(p, SendData([[]], f)), p.Other();
            var w1 := Do(w, send);
            && Enabled(w, delay, true, send) && Synced(w1) && w1.now == w.now
            && w1.actors.At(q) == w.actors.At(q) && w1.inbox.At(p) == [] && |w1.inbox.At(q)| == 1
            && w1.inbox.At(q)[0].payload == []
            && w1.actors.At(p).machine.current.Some? && w1.actors.At(p).machine.current.value.established
                                                        == w.actors.At(p).machine.current.value.established
            && w1.actors.At(p).session.Some? && w1.actors.At(p).session.value.keepaliveAt.None?
            && w1.actors.At(p).session.value.newHandshakeAt == Some(w.now + 15 * SECOND + f.jitter * MS)
  {
    hide Stream, Live, FlushSends, DataPacket, BatchesOf;
    var a, e := w.actors.At(p), SendData([[]], f);
    assert Holds(a, w.now);
    OneSealed(a.machine, f);
    FlushEffect(a.(history := a.history.(submitted := a.history.submitted + [[]])), [[]], f);
    FlushArm(a, e);
    ArmStep(w, p, e);
  }

  lemma OneSealed(m: PeerState, f: FlushInput)
    requires m.endpoint.Some? && m.current.Some? && m.current.value.sendCounter < REJECT_AFTER_MESSAGES
    requires !m.current.value.ExpiredAt(f.now)
    ensures var packets := SealAll(m, f.now, [[]]).1;
            |packets| == 1 && |BatchesOf([[]], packets, 0, f.gso)| == 1
  {
    hide DataPacket, BatchEnd, MaxBatchSegments;
    var payloads: seq<Payload> := [[]];
    assert payloads[1..] == [];
    var packets := SealAll(m, f.now, payloads).1;
    assert |packets| == 1;
    var size := PacketLen(0);
    assert Min(BatchEnd(payloads, 0, 1, MaxBatchSegments(f.gso, size)), 1) == 1;
    assert BatchesOf(payloads, packets, 1, f.gso) == [];
  }

  /** Its arrival leaves the receiver owing nothing. */
  lemma EmptyArrives(w: World, delay: nat, q: Party, arrival: Action)
    requires Synced(w) && arrival.Deliver? && arrival.p == q && |w.inbox.At(q)| == 1 && w.inbox.At(q)[0].payload == []
    requires w.inbox.At(q.Other()) == [] && TimersOf(w.actors.At(q)).keepaliveAt.None?
    ensures var w2, p := Do(w, arrival), q.Other();
            && w2.now == w.now && w2.actors.At(p) == w.actors.At(p) && w2.inbox.At(q) == [] && w2.inbox.At(p) == []
            && w2.actors.At(q).session.Some? && w2.actors.At(q).session.value.keepaliveAt.None?
            && w2.actors.At(q).machine.current.Some? && w.actors.At(q).machine.current.Some?
            && w2.actors.At(q).machine.current.value.established == w.actors.At(q).machine.current.value.established
  {
    hide Stream, Step;
    var p := q.Other();
    var a := w.actors.At(q);
    assert Holds(a, w.now) && p.Other() == q;
    Receipt(a, w.actors.At(p).machine.current.value, w.inbox.At(q), w.now, arrival);
  }

  lemma Extend(w: World, delay: nat, act: Action, rest: seq<Action>)
    requires Enabled(w, delay, true, act) && ValidRun(Do(w, act), delay, true, rest)
    ensures ValidRun(w, delay, true, [act] + rest) && Run(w, [act] + rest) == Run(Do(w, act), rest)
  {
    hide Do, Enabled;
    assert ([act] + rest)[1..] == rest;
  }
}
