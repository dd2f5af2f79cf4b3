/** The whole tunnel's receive routing: any number of peer actors, the registry,
    the control queue and the index table, run together. */
module TunnelRouting {
  import opened Wrappers
  import opened Crypto
  import opened TransportData
  import opened PeerSpec
  import opened ActorSpec
  import AR = ActorRuns
  import R = Router
  import IA = IndexAgreement
  import H = Handshake

  // ---------- an arm's messages ----------

  /** The control channel only grows, and binds only indices drawn in the step. */
  predicate Extends(before: seq<Control>, after: seq<Control>, draws: set<nat>) {
    && before <= after
    && forall j | |before| <= j < |after| && after[j].Bind? :: after[j].index in draws
  }

  lemma ExtendsTrans(a: seq<Control>, b: seq<Control>, c: seq<Control>, d: set<nat>, e: set<nat>, all: set<nat>)
    requires Extends(a, b, d) && Extends(b, c, e) && d <= all && e <= all
    ensures Extends(a, c, all)
  {
  }

  lemma SendHandshakeExtends(a: ActorState, firstSent: nat, i: HsInput)
    ensures Extends(a.control, SendHandshake(a, firstSent, i).control, {i.values.index})
  {
    hide H.Initiate;
  }

  lemma EnsureHandshakeExtends(a: ActorState, i: HsInput)
    ensures Extends(a.control, EnsureHandshake(a, i).control, {i.values.index})
  {
    hide SendHandshake;
    SendHandshakeExtends(a.(clock := i.first), i.first, i);
  }

  lemma FlushSendsExtends(a: ActorState, payloads: seq<Payload>, f: FlushInput)
    ensures Extends(a.control, FlushSends(a, payloads, f).control, {f.hs.values.index})
  {
    hide SealAll, BatchesOf, AnySent, SendHandshake, EnsureHandshake;
    if payloads != [] {
      var (machine, packets) := SealAll(a.machine, f.now, payloads);
      var c := AR.AfterSealing(a, payloads, f);
      RestageExtends(c, payloads[|packets|..], f.hs);
      AfterSendExtends(c, AnySent(f.sends, |BatchesOf(payloads, packets, 0, f.gso)|), f);
    }
  }

  lemma RestageExtends(a: ActorState, rest: seq<Payload>, hs: HsInput)
    ensures Extends(a.control, Restage(a, rest, hs).control, {hs.values.index})
  {
    hide EnsureHandshake;
    var q := a.staged + rest;
    var evicted := if |q| <= MAX_STAGED then 0 else |q| - MAX_STAGED;
    EnsureHandshakeExtends(
      a.(session := None, staged := LastStaged(q),
         history := a.history.(fates := a.history.fates + Repeat(WasEvicted, evicted))), hs);
  }

  lemma AfterSendExtends(a: ActorState, sent: bool, f: FlushInput)
    ensures Extends(a.control, AfterSend(a, sent, f).control, {f.hs.values.index})
  {
    hide SendHandshake;
    SendHandshakeExtends(
      if sent
      then a.(lastSend := f.now, session := if a.session.Some? then Some(a.session.value.DataSent(f.now, f.jitter)) else None)
      else a, f.now, f.hs);
  }

  lemma SendKeepaliveExtends(a: ActorState, k: KeepaliveInput)
    ensures Extends(a.control, SendKeepalive(a, k).control, {k.hs.values.index})
  {
    hide EnsureHandshake, DataPacket;
    var (machine, packet) := a.machine.Encrypt(k.now, [], PacketLen(0));
    EnsureHandshakeExtends(
      a.(clock := k.now, machine := machine,
         session := if a.session.Some? then Some(a.session.value.KeepaliveSent()) else None,
         lastSend := if k.sent then k.now else a.lastSend), k.hs);
  }

  lemma EstablishedExtends(a: ActorState, initiator: bool, e: EstablishedInput)
    ensures Extends(a.control, SessionEstablished(a, initiator, e).control, EstDraws(e))
  {
    hide FlushSends, SendKeepalive;
    var c := FlushStaged(a, e.flush);
    FlushSendsExtends(a.(staged := []), a.staged, e.flush);
    SendKeepaliveExtends(c, e.keepalive);
    ExtendsTrans(a.control, c.control, SendKeepalive(c, e.keepalive).control, {e.flush.hs.values.index},
                 {e.keepalive.hs.values.index}, EstDraws(e));
  }

  lemma RecvDataExtends(a: ActorState, now: nat, packet: seq<Octet>, receiver: nat, source: Address, room: bool,
                        est: EstablishedInput, hs: HsInput)
    ensures Extends(a.control, OnRecvData(a, now, packet, receiver, source, room, est, hs).control,
                    EstDraws(est) + {hs.values.index})
  {
    hide SessionState.Receive, SessionEstablished, EnsureHandshake;
    var (machine, recv) := a.machine.Decrypt(now, receiver, packet, source);
    if recv.Ok? {
      var Recv(payload, confirmed, unmapped) := recv.value;
      var session := if confirmed then Some(NewTimers(false, now)) else a.session;
      var session' := if session.Some? then Some(session.value.PacketReceived(now, payload != [])) else None;
      var c := a.(clock := now, machine := machine, session := session',
                  control := a.control + RetireOpt(unmapped),
                  inbound := if payload != [] && room then a.inbound + [payload] else a.inbound);
      EstablishedExtends(c, false, est);
      var d := if confirmed then SessionEstablished(c, false, est) else c;
      ExtendsTrans(a.control, c.control, d.control, {}, EstDraws(est), EstDraws(est));
      EnsureHandshakeExtends(d, hs);
      ExtendsTrans(a.control, d.control, EnsureHandshake(d, hs).control, EstDraws(est), {hs.values.index},
                   EstDraws(est) + {hs.values.index});
    }
  }

  lemma RecvRespExtends(a: ActorState, now: nat, msg: H.RespMsg, source: Address, est: EstablishedInput)
    ensures Extends(a.control, OnRecvResp(a, now, msg, source, est).control, EstDraws(est))
  {
    hide H.ResponseReceived, SessionEstablished;
    var (machine, r) := a.machine.HandshakeResponse(a.ourSecret, now, msg, source);
    if r.Ok? {
      var c := a.(clock := now, machine := machine, control := a.control + RetireOpt(r.value),
                  handshake := None, session := Some(NewTimers(true, now)));
      EstablishedExtends(c, true, est);
      ExtendsTrans(a.control, c.control, SessionEstablished(c, true, est).control, {}, EstDraws(est), EstDraws(est));
    }
  }

  lemma ReconfigureExtends(a: ActorState, psk: Update<Term>, keepalive: Update<nat>, endpoint: Option<Address>, hs: HsInput)
    ensures Extends(a.control, OnReconfigure(a, psk, keepalive, endpoint, hs).control, {hs.values.index})
  {
    hide EnsureHandshake;
    var machine := match psk case Keep => a.machine case Clear => a.machine.(psk := None) case Set(k) => a.machine.(psk := Some(k));
    var persistent := match keepalive case Keep => a.persistentKeepalive case Clear => None case Set(i) => Some(i);
    var c := a.(machine := machine, persistentKeepalive := persistent);
    if endpoint.Some? {
      EnsureHandshakeExtends(c.(machine := c.machine.(endpoint := Some(endpoint.value))), hs);
    }
  }

  lemma HandshakeDueExtends(a: ActorState, now: nat, hs: HsInput)
    ensures Extends(a.control, OnHandshakeDue(a, now, hs).control, {hs.values.index})
  {
    hide SendHandshake;
    if a.handshake.Some? {
      SendHandshakeExtends(a.(clock := now), a.handshake.value.firstSent, hs);
    }
  }

  lemma StepExtends(a: ActorState, e: Event)
    ensures Extends(a.control, Step(a, e).control, Draws(e))
  {
    hide EnsureHandshake, SendKeepalive, FlushSends, OnRecvData, OnRecvResp, OnHandshakeDue, OnReconfigure, H.Respond;
    match e
    case Connect(address, hs) => EnsureHandshakeExtends(a.(machine := a.machine.(endpoint := Some(address))), hs);
    case Reconfigure(psk, keepalive, endpoint, hs) => ReconfigureExtends(a, psk, keepalive, endpoint, hs);
    case SendData(payloads, f) =>
      FlushSendsExtends(a.(history := a.history.(submitted := a.history.submitted + payloads)), payloads, f);
    case RecvData(now, packet, receiver, source, room, est, hs) =>
      RecvDataExtends(a, now, packet, receiver, source, room, est, hs);
    case RecvInit(_, _, _, _, _) =>
    case RecvResp(now, msg, source, est) => RecvRespExtends(a, now, msg, source, est);
    case HandshakeDue(now, hs) => HandshakeDueExtends(a, now, hs);
    case RecvCookie(_) =>
    case SessionExpired =>
    case KeepaliveDue(k) => SendKeepaliveExtends(a, k);
    case NewHandshakeDue(hs) =>
      EnsureHandshakeExtends(
        a.(session := if a.session.Some? then Some(a.session.value.(newHandshakeAt := None)) else None), hs);
    case PersistentDue(now, k, hs) =>
      SendKeepaliveExtends(a.(clock := now, lastSend := now), k);
      EnsureHandshakeExtends(a.(clock := now, lastSend := now), hs);
  }

  /** The messages one arm sends turn the machine's old indices into its new ones. */
  lemma ArmMessages(a: ActorState, e: Event)
    requires AR.Inv(a, true) && Timely(a, e) && Draws(e) !! Live(a.machine)
    ensures var b := Step(a, e);
            && a.control <= b.control
            && var messages := b.control[|a.control|..];
               && Bound(Live(a.machine), messages) == Live(b.machine)
               && (forall m | m in messages && m.Bind? :: m.index in Draws(e))
  {
    hide Step, Draws, Timely, Live;
    var b := Step(a, e);
    AR.StepKeeps(a, e, true);
    StepExtends(a, e);
    IA.BoundConcat({}, a.control, b.control[|a.control|..]);
    assert b.control == a.control + b.control[|a.control|..];
  }

  // ---------- the tunnel ----------

  datatype Tunnel = Tunnel(registry: R.Registry, actors: map<R.Key, ActorState>, indices: R.Indices, queue: seq<R.Control>)

  datatype Action =
    | AddPeer(key: R.Key, channel: R.Channel, actor: ActorState)
    | RemovePeer(key: R.Key)
    | ActorEvent(key: R.Key, event: Event)
    | Stray(key: R.Key, message: Control)  // from an actor that outlives its registration
    | ApplyHead

  /** The indices each peer's machine answers to. */
  function LiveSets(actors: map<R.Key, ActorState>): map<R.Key, set<nat>> {
    map k | k in actors :: Live(actors[k].machine)
  }

  ghost predicate Spawned(a: ActorState) {
    exists ourSecret: nat, peerKey: Term, psk: Option<Term>, keepalive: Option<nat> ::
      a == Spawn(ourSecret, peerKey, psk, keepalive)
  }

  /** A key is registered under a new channel while no message of an earlier
      actor of it is queued; clocks are monotone; an actor draws indices outside
      every live set. */
  ghost predicate Enabled(t: Tunnel, a: Action) {
    match a
    case AddPeer(key, channel, actor) => IA.Enabled(Abstract(t), IA.Register(key, channel)) && Spawned(actor)
    case RemovePeer(key) => key in t.registry
    case ActorEvent(key, event) =>
      && key in t.registry && key in t.actors && Timely(t.actors[key], event)
      && forall k | k in t.actors :: Draws(event) !! Live(t.actors[k].machine)
    case Stray(key, _) => key !in t.registry
    case ApplyHead => t.queue != []
  }

  ghost function Do(t: Tunnel, a: Action): Tunnel
    requires Enabled(t, a)
  {
    match a
    case AddPeer(key, channel, actor) => t.(registry := t.registry[key := channel], actors := t.actors[key := actor])
    case RemovePeer(key) =>
      t.(registry := t.registry - {key}, actors := t.actors - {key}, queue := t.queue + [R.Purge(t.registry[key])])
    case ActorEvent(key, event) =>
      var before, after := t.actors[key], Step(t.actors[key], event);
      t.(actors := t.actors[key := after],
         queue := t.queue + if before.control <= after.control
                            then IA.Tagged(key, after.control[|before.control|..]) else [])
    case Stray(key, message) => t.(queue := t.queue + [IA.Tag(key, message)])
    case ApplyHead => t.(indices := IA.ApplyIn(t.indices, t.queue[0], t.registry), queue := t.queue[1..])
  }

  /** The table routes no index to the key that another peer's machine answers to. */
  predicate Removable(t: Tunnel, key: R.Key)
    requires key in t.registry
  {
    forall i, k | i in t.indices && t.indices[i] == t.registry[key] && k in t.actors && k != key ::
      i !in Live(t.actors[k].machine)
  }

  /** A run in which every removal finds its key removable. */
  ghost predicate ValidRun(t: Tunnel, actions: seq<Action>)
    decreases |actions|
  {
    actions == [] ||
    (&& Enabled(t, actions[0]) && (actions[0].RemovePeer? ==> Removable(t, actions[0].key))
     && ValidRun(Do(t, actions[0]), actions[1..]))
  }

  ghost function Run(t: Tunnel, actions: seq<Action>): Tunnel
    requires ValidRun(t, actions)
    decreases |actions|
  {
    if actions == [] then t else Run(Do(t, actions[0]), actions[1..])
  }

  const START := Tunnel(map[], map[], map[], [])

  function Abstract(t: Tunnel): IA.Net {
    IA.Net(t.registry, LiveSets(t.actors), t.indices, t.queue)
  }

  ghost predicate Inv(t: Tunnel) {
    && (forall k | k in t.actors :: AR.Inv(t.actors[k], true))
    && IA.Inv(Abstract(t))
  }

  /** The guard means the same of the actors and of their live sets. */
  lemma SameRemovable(t: Tunnel, key: R.Key)
    requires key in t.registry
    ensures Removable(t, key) <==> IA.Removable(Abstract(t), key)
  {
    hide Live;
    var n := Abstract(t);
    if Removable(t, key) {
      forall i | i in n.indices && n.indices[i] == n.registry[key] ensures IA.Unheld(n, key, i) {}
    }
    if IA.Removable(n, key) {
      forall i, k | i in t.indices && t.indices[i] == t.registry[key] && k in t.actors && k != key
        ensures i !in Live(t.actors[k].machine)
      {
        assert IA.Unheld(n, key, i) && k in n.live;
      }
    }
  }

  lemma StepKeeps(t: Tunnel, a: Action)
    requires Inv(t) && Enabled(t, a) && (a.RemovePeer? ==> Removable(t, a.key))
    ensures Inv(Do(t, a))
  {
    hide AR.Inv, Step, Live, IA.Inv, IA.NewChannel, IA.Quiet, Draws, Timely, Spawn;
    match a
    case AddPeer(key, channel, actor) =>
      var ourSecret: nat, peerKey: Term, psk: Option<Term>, keepalive: Option<nat> :|
        actor == Spawn(ourSecret, peerKey, psk, keepalive);
      AR.SpawnKeeps(ourSecret, peerKey, psk, keepalive, true);
      SpawnedLive(ourSecret, peerKey, psk, keepalive);
      assert LiveSets(t.actors[key := actor]) == LiveSets(t.actors)[key := {}];
      IA.StepKeeps(Abstract(t), IA.Register(key, channel));
    case RemovePeer(key) =>
      assert LiveSets(t.actors - {key}) == LiveSets(t.actors) - {key};
      SameRemovable(t, key);
      IA.StepKeeps(Abstract(t), IA.Remove(key));
    case ActorEvent(key, event) =>
      var before, after := t.actors[key], Step(t.actors[key], event);
      AR.StepKeeps(before, event, true);
      ArmMessages(before, event);
      var messages := after.control[|before.control|..];
      assert LiveSets(t.actors[key := after]) == LiveSets(t.actors)[key := Bound(Live(before.machine), messages)];
      forall m | m in messages && m.Bind? ensures IA.Unheld(Abstract(t), key, m.index) {
        assert m.index in Draws(event);
      }
      IA.StepKeeps(Abstract(t), IA.Arm(key, messages));
    case Stray(key, message) =>
      IA.StepKeeps(Abstract(t), IA.Stray(key, message));
    case ApplyHead =>
      IA.StepKeeps(Abstract(t), IA.ApplyHead);
  }

  lemma SpawnedLive(ourSecret: nat, peerKey: Term, psk: Option<Term>, keepalive: Option<nat>)
    ensures Live(Spawn(ourSecret, peerKey, psk, keepalive).machine) == {}
  {
  }

  lemma {:induction false} RunKeeps(t: Tunnel, actions: seq<Action>)
    requires Inv(t) && ValidRun(t, actions)
    ensures Inv(Run(t, actions))
    decreases |actions|
  {
    hide Inv, Enabled, Do, Removable;
    if actions != [] {
      StepKeeps(t, actions[0]);
      RunKeeps(Do(t, actions[0]), actions[1..]);
    }
  }

  lemma StartKeeps()
    ensures Inv(START)
  {
    assert LiveSets(START.actors) == map[];
    IA.StartKeeps();
    assert Abstract(START) == IA.START;
  }

  /** In every run of the tunnel, peers coming and going, whenever the read loop
      gets to packets an index is routed to a peer exactly when it is one of the
      at most four indices of that peer's pending handshake and sessions, and no
      other index is routed at all. */
  lemma PacketsReachTheirPeer(actions: seq<Action>)
    requires ValidRun(START, actions)
    ensures var t := Run(START, actions);
            && t.registry.Keys == t.actors.Keys
            && (forall k | k in t.actors :: |Live(t.actors[k].machine)| <= 4)
            && (t.queue == [] ==>
                  && (forall k, i | k in t.actors ::
                        (i in t.indices && t.indices[i] == t.registry[k]) <==> i in Live(t.actors[k].machine))
                  && (forall i | i in t.indices :: exists k :: k in t.actors && i in Live(t.actors[k].machine)))
  {
    hide Run, ValidRun, AR.Inv, Live;
    StartKeeps();
    RunKeeps(START, actions);
    var t := Run(START, actions);
    assert LiveSets(t.actors).Keys == t.actors.Keys;
    forall k | k in t.actors ensures |Live(t.actors[k].machine)| <= 4 { FourIndices(t.actors[k].machine); }
    if t.queue == [] {
      IA.DrainAgrees(Abstract(t));
      forall k, i | k in t.actors
        ensures (i in t.indices && t.indices[i] == t.registry[k]) <==> i in Live(t.actors[k].machine)
      {
        assert k in LiveSets(t.actors) && IA.Routed(t.indices, t.registry[k]) == LiveSets(t.actors)[k];
      }
    }
  }

  /** Exactly when a peer can be removed: after any such run the agreement
      survives the removal if and only if the table routes no index to the peer
      that another peer's machine answers to. */
  lemma RemovalExactly(actions: seq<Action>, key: R.Key)
    requires ValidRun(START, actions) && key in Run(START, actions).registry
    ensures var t := Run(START, actions);
            var u := Do(t, RemovePeer(key));
            IA.Agrees(IA.Folded(u.indices, u.queue, u.registry), u.registry, LiveSets(u.actors)) <==> Removable(t, key)
  {
    hide Run, ValidRun, AR.Inv, Live, IA.Agrees, IA.Folded, IA.Inv;
    StartKeeps();
    RunKeeps(START, actions);
    var t := Run(START, actions);
    SameRemovable(t, key);
    IA.RemovalAgrees(Abstract(t), key);
    assert LiveSets(t.actors - {key}) == LiveSets(t.actors) - {key};
  }

  lemma FourIndices(m: PeerState)
    ensures |Live(m)| <= 4
  {
    var p, c, n, v := OptSet(PendingIndex(m)), OptSet(IndexOf(m.current)), OptSet(IndexOf(m.next)), OptSet(IndexOf(m.previous));
    SmallUnion(p, c);
    SmallUnion(p + c, n);
    SmallUnion(p + c + n, v);
    assert |p| <= 1 && |c| <= 1 && |n| <= 1 && |v| <= 1;
  }

  lemma SmallUnion(a: set<nat>, b: set<nat>)
    ensures |a + b| <= |a| + |b|
  {
    assert a + b == a + (b - a);
    assert |a + (b - a)| == |a| + |b - a|;
    assert |b| == |b - a| + |b * a| by { assert b == (b - a) + b * a; }
  }
}
