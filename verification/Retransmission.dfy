/** How often one handshake attempt retransmits, and when it is given up. */
module Retransmission {
  import opened Wrappers
  import opened Crypto
  import opened Timing
  import opened TransportData
  import opened PeerSpec
  import opened ActorSpec
  import opened ActorRuns
  import opened ActorTheorems
  import opened ArmEffects
  import H = Handshake

  /** One attempt never makes more than eighteen initiations, if timers do not fire early. */
  lemma RetransmissionBound(a: ActorState)
    requires Reachable(a)
    ensures a.history.initiations <= 18
  {
    hide Reachable;
    ReachableInv(a);
  }

  /** Flushing and keepalives never restart an attempt in flight. */
  lemma SendingAnchored(a: ActorState, payloads: seq<Payload>, f: FlushInput, k: KeepaliveInput)
    requires a.handshake.Some?
    ensures var b := FlushSends(a, payloads, f);
            b.handshake == a.handshake && b.history.initiations == a.history.initiations
    ensures var b := SendKeepalive(a, k);
            b.handshake == a.handshake && b.history.initiations == a.history.initiations
  {
    hide SealAll, BatchesOf, DataPacket, AnySent;
  }

  lemma EstablishedAnchored(a: ActorState, est: EstablishedInput)
    requires a.handshake.Some?
    ensures var b := SessionEstablished(a, false, est);
            b.handshake == a.handshake && b.history.initiations == a.history.initiations
  {
    hide FlushSends;
    SendingAnchored(a.(staged := []), a.staged, est.flush, est.keepalive);
  }

  /** While an attempt is in flight only its own timer, or its completion, changes it. */
  lemma AttemptAnchored(a: ActorState, e: Event)
    requires a.handshake.Some? && !e.HandshakeDue? && !e.RecvResp?
    ensures Step(a, e).handshake == a.handshake && Step(a, e).history.initiations == a.history.initiations
  {
    hide FlushSends, SendKeepalive, SessionEstablished, SessionState.Receive, H.Respond;
    match e
    case SendData(payloads, f) =>
      var c := a.(history := a.history.(submitted := a.history.submitted + payloads));
      SendingAnchored(c, payloads, f, KeepaliveInput(0, true, f.hs));
    case RecvData(now, packet, receiver, source, room, est, hs) => RecvDataAnchored(a, now, packet, receiver, source, room, est, hs);
    case KeepaliveDue(k) => SendingAnchored(a, [], FlushInput(0, 0, [], 0, k.hs), k);
    case PersistentDue(now, k, hs) =>
      SendingAnchored(a.(clock := now, lastSend := now), [], FlushInput(0, 0, [], 0, k.hs), k);
    case _ =>
  }

  lemma RecvDataAnchored(a: ActorState, now: nat, packet: seq<Octet>, receiver: nat, source: Address, room: bool,
                         est: EstablishedInput, hs: HsInput)
    requires a.handshake.Some?
    ensures var b := OnRecvData(a, now, packet, receiver, source, room, est, hs);
            b.handshake == a.handshake && b.history.initiations == a.history.initiations
  {
    hide SessionEstablished, SessionState.Receive;
    var (machine, recv) := a.machine.Decrypt(now, receiver, packet, source);
    if recv.Ok? && recv.value.confirmed {
      var Recv(payload, confirmed, unmapped) := recv.value;
      var c := a.(clock := now, machine := machine,
                  session := Some(NewTimers(false, now).PacketReceived(now, payload != [])),
                  control := a.control + RetireOpt(unmapped),
                  inbound := if payload != [] && room then a.inbound + [payload] else a.inbound);
      EstablishedAnchored(c, est);
    }
  }

  // ---------- where the attempt is aimed ----------

  /** The peer key is fixed, and an endpoint once known is never forgotten. */
  predicate StillAimed(m: PeerState, m': PeerState) {
    m'.peerKey == m.peerKey && (m.endpoint.Some? ==> m'.endpoint.Some?)
  }

  lemma FlushAims(a: ActorState, payloads: seq<Payload>, f: FlushInput)
    ensures StillAimed(a.machine, FlushSends(a, payloads, f).machine)
  {
    hide SealAll, FlushSends, BatchesOf, AnySent;
    SealAllStops(a.machine, f.now, payloads);
    FlushEffect(a, payloads, f);
  }

  lemma KeepaliveAims(a: ActorState, k: KeepaliveInput)
    ensures StillAimed(a.machine, SendKeepalive(a, k).machine)
  {
    hide SendKeepalive, DataPacket;
    KeepaliveEffect(a, k);
  }

  lemma EstablishedAims(a: ActorState, initiator: bool, est: EstablishedInput)
    ensures StillAimed(a.machine, SessionEstablished(a, initiator, est).machine)
  {
    hide FlushSends, SendKeepalive;
    FlushAims(a.(staged := []), a.staged, est.flush);
    KeepaliveAims(FlushStaged(a, est.flush), est.keepalive);
  }

  lemma ReceiptAims(a: ActorState, e: Event)
    requires e.RecvData?
    ensures StillAimed(a.machine, Step(a, e).machine)
  {
    hide EnsureHandshake, SessionEstablished, SessionState.Receive;
    forall b: ActorState
      ensures StillAimed(b.machine, EnsureHandshake(b, e.hs).machine)
      ensures StillAimed(b.machine, SessionEstablished(b, false, e.est).machine)
    {
      HandshakeEffect(b, 0, e.hs);
      EstablishedAims(b, false, e.est);
    }
  }

  lemma AdoptionAims(a: ActorState, e: Event)
    requires e.RecvResp?
    ensures StillAimed(a.machine, Step(a, e).machine)
  {
    hide SessionEstablished, H.ResponseReceived, H.FinishInitiator;
    forall b: ActorState ensures StillAimed(b.machine, SessionEstablished(b, true, e.est).machine) {
      EstablishedAims(b, true, e.est);
    }
  }

  lemma StepAims(a: ActorState, e: Event)
    ensures StillAimed(a.machine, Step(a, e).machine)
  {
    hide SendHandshake, EnsureHandshake, FlushSends, SendKeepalive, SessionEstablished, OnRecvData, OnRecvResp, OnConnect,
         OnReconfigure, H.Respond;
    match e
    case Connect(_, _) => ReconfigureEffect(a, e);
    case Reconfigure(_, _, _, _) => ReconfigureEffect(a, e);
    case SendData(payloads, f) =>
      FlushAims(a.(history := a.history.(submitted := a.history.submitted + payloads)), payloads, f);
    case RecvData(_, _, _, _, _, _, _) => ReceiptAims(a, e);
    case RecvResp(_, _, _, _) => AdoptionAims(a, e);
    case HandshakeDue(now, hs) =>
      if a.handshake.Some? { HandshakeEffect(a.(clock := now), a.handshake.value.firstSent, hs); }
    case KeepaliveDue(k) => KeepaliveAims(a, k);
    case NewHandshakeDue(hs) =>
      HandshakeEffect(a.(session := if a.session.Some? then Some(a.session.value.(newHandshakeAt := None)) else None), 0, hs);
    case PersistentDue(now, k, hs) =>
      KeepaliveAims(a.(clock := now, lastSend := now), k);
      HandshakeEffect(a.(clock := now, lastSend := now), 0, hs);
    case _ =>
  }

  // ---------- an attempt nobody answers ----------

  /** The longest interval between two initiations, when each is sent at most `gap` after its timer is read. */
  function Interval(gap: nat): nat {
    REKEY_TIMEOUT + 333 * MS + gap
  }

  /** An attempt begun at `t0` is in flight, its timer not yet passed. */
  predicate InFlight(a: ActorState, t0: nat, gap: nat) {
    var n := a.history.initiations;
    && a.machine.endpoint.Some? && a.machine.peerKey != LowOrder
    && a.handshake.Some? && a.handshake.value.firstSent == t0 && a.clock <= a.handshake.value.retryAt
    && 1 <= n <= 18
    && t0 + n * REKEY_TIMEOUT <= a.handshake.value.retryAt <= t0 + n * Interval(gap)
    && a.handshake.value.retryAt < t0 + REKEY_ATTEMPT_TIME + REKEY_TIMEOUT + 334 * MS + gap
  }

  predicate Refused(a: ActorState, e: Event) {
    e.RecvResp? ==> a.machine.HandshakeResponse(a.ourSecret, e.now, e.msg, e.source).1.Err?
  }

  /** The retransmit timer is exact: no other arm's clock passes it, and its own
      arm reads it and sends at most `gap` later. */
  predicate Exact(a: ActorState, e: Event, gap: nat)
    requires a.handshake.Some?
  {
    if e.HandshakeDue? then e.now == a.handshake.value.retryAt && e.now <= e.hs.now <= e.now + gap
    else Step(a, e).clock <= a.handshake.value.retryAt
  }

  /** Any arms in any order, none of them an accepted response, under exact
      timers; once the attempt is over nothing more is asked. */
  predicate Unheard(a: ActorState, events: seq<Event>, gap: nat)
    decreases |events|
  {
    || events == [] || a.handshake.None?
    || (Refused(a, events[0]) && Exact(a, events[0], gap) && Unheard(Step(a, events[0]), events[1..], gap))
  }

  /** The k-th event gives the attempt up: at least 90 s and less than 95.334 s
      and the gap have passed, as many initiations were made as fit, and nothing
      is left waiting. */
  predicate AbandonedBy(a: ActorState, events: seq<Event>, k: nat, t0: nat, gap: nat)
    requires k < |events|
  {
    var b := Run(a, events[..k + 1]);
    events[k].HandshakeDue? && Run(a, events[..k]).handshake.Some? && GivenUp(b, t0, gap)
  }

  predicate GivenUp(b: ActorState, t0: nat, gap: nat) {
    var n := b.history.initiations;
    && b.handshake.None? && b.staged == [] && b.machine.pending == None
    && t0 + 90 * SECOND <= b.clock < t0 + 95 * SECOND + 334 * MS + gap
    && n <= 18 && 90 * SECOND <= n * Interval(gap)
  }

  /** With sends within 291 ms of their timers that is 17 or 18 initiations. */
  lemma SeventeenOrEighteen(b: ActorState, t0: nat, gap: nat)
    requires GivenUp(b, t0, gap) && gap <= 291 * MS
    ensures b.history.initiations == 17 || b.history.initiations == 18
  {
    var n := b.history.initiations;
    if n <= 16 { Product(n, 16, Interval(gap)); }
  }

  lemma Product(n: nat, m: nat, x: nat)
    requires n <= m
    ensures n * x <= m * x
  {
  }

  lemma OtherArm(a: ActorState, t0: nat, e: Event, gap: nat)
    requires InFlight(a, t0, gap) && Refused(a, e) && Exact(a, e, gap) && !e.HandshakeDue?
    ensures InFlight(Step(a, e), t0, gap)
  {
    StepAims(a, e);
    if e.RecvResp? {
      hide H.ResponseReceived;
      assert Step(a, e) == a.(clock := e.now);
    } else {
      hide Step;
      AttemptAnchored(a, e);
    }
  }

  lemma Retransmit(a: ActorState, t0: nat, e: Event, gap: nat)
    requires InFlight(a, t0, gap) && e.HandshakeDue? && Exact(a, e, gap) && e.now < t0 + REKEY_ATTEMPT_TIME
    ensures InFlight(Step(a, e), t0, gap)
  {
    var n := a.history.initiations;
    OneMore(n, Interval(gap));
    OneMore(n, REKEY_TIMEOUT);
  }

  lemma OneMore(n: nat, x: nat)
    ensures (n + 1) * x == n * x + x
  {
  }

  lemma GiveUp(a: ActorState, t0: nat, e: Event, gap: nat)
    requires InFlight(a, t0, gap) && e.HandshakeDue? && Exact(a, e, gap) && e.now >= t0 + REKEY_ATTEMPT_TIME
    ensures GivenUp(Step(a, e), t0, gap)
  {
  }

  /** From any state of an attempt in flight, it is still in flight at the end of the run or some event gave it up. */
  lemma {:induction false} AttemptEnds(a: ActorState, t0: nat, events: seq<Event>, gap: nat)
    requires InFlight(a, t0, gap) && Unheard(a, events, gap)
    ensures InFlight(Run(a, events), t0, gap) || exists k: nat :: k < |events| && AbandonedBy(a, events, k, t0, gap)
    decreases |events|
  {
    hide InFlight, Step, Exact, Refused, GivenUp;
    if events != [] {
      assert a.handshake.Some? by { RetryOf(a, t0, gap); }
      var e, rest := events[0], events[1..];
      if e.HandshakeDue? && e.now >= t0 + REKEY_ATTEMPT_TIME {
        GiveUp(a, t0, e, gap);
        assert events[..1] == [e] && [e][1..] == [];
        assert Run(a, events[..1]) == Run(Step(a, e), []);
        assert AbandonedBy(a, events, 0, t0, gap);
      } else {
        if e.HandshakeDue? { Retransmit(a, t0, e, gap); } else { OtherArm(a, t0, e, gap); }
        AttemptEnds(Step(a, e), t0, rest, gap);
        assert Run(a, events) == Run(Step(a, e), rest);
        if !InFlight(Run(Step(a, e), rest), t0, gap) {
          var k: nat :| k < |rest| && AbandonedBy(Step(a, e), rest, k, t0, gap);
          Later(a, events, k, t0, gap);
        }
      }
    }
  }

  lemma RetryOf(a: ActorState, t0: nat, gap: nat)
    requires InFlight(a, t0, gap)
    ensures a.handshake.Some? && a.handshake.value.firstSent == t0 && a.history.initiations <= 18
    ensures a.clock < t0 + 95 * SECOND + 334 * MS + gap
  {
  }

  lemma Later(a: ActorState, events: seq<Event>, k: nat, t0: nat, gap: nat)
    requires events != [] && k < |events| - 1 && AbandonedBy(Step(a, events[0]), events[1..], k, t0, gap)
    ensures AbandonedBy(a, events, k + 1, t0, gap)
  {
    hide Step, GivenUp;
    assert events[..k + 2][1..] == events[1..][..k + 1];
    assert events[..k + 1][1..] == events[1..][..k];
  }

  /** Starting an attempt toward an honest key puts it in flight. */
  lemma AttemptBegins(a: ActorState, firstSent: nat, first: HsInput, gap: nat)
    requires a.machine.endpoint.Some? && a.machine.peerKey != LowOrder && a.handshake.None?
    requires firstSent <= first.now <= firstSent + gap
    ensures InFlight(SendHandshake(a, firstSent, first), firstSent, gap)
  {
  }

  /** An attempt that is never answered, however it was started: the reading
      that anchors it and the reading at which each initiation is sent may be up
      to `gap` apart. Whatever else the actor does meanwhile (submissions,
      receipts, keepalives, reconfigurations, responses it refuses), under exact
      timers the attempt is either still in flight, younger than 95.334 s and the
      gap and after at most 18 initiations, or some event of the run gave it up,
      at least 90 s in. So no run whose clock has passed that bound still has it
      in flight. */
  lemma UnansweredAttempt(a: ActorState, firstSent: nat, first: HsInput, events: seq<Event>, gap: nat)
    requires a.machine.endpoint.Some? && a.machine.peerKey != LowOrder && a.handshake.None?
    requires firstSent <= first.now <= firstSent + gap
    requires Unheard(SendHandshake(a, firstSent, first), events, gap)
    ensures var begun := SendHandshake(a, firstSent, first);
            var b := Run(begun, events);
            || (&& b.handshake.Some? && b.handshake.value.firstSent == firstSent
                && b.clock < firstSent + 95 * SECOND + 334 * MS + gap && b.history.initiations <= 18)
            || (exists k: nat :: k < |events| && AbandonedBy(begun, events, k, firstSent, gap))
    ensures var begun := SendHandshake(a, firstSent, first);
            Run(begun, events).clock >= firstSent + 95 * SECOND + 334 * MS + gap ==>
              exists k: nat :: k < |events| && AbandonedBy(begun, events, k, firstSent, gap)
  {
    hide SendHandshake, Unheard, Run, AbandonedBy, InFlight;
    AttemptBegins(a, firstSent, first, gap);
    var begun := SendHandshake(a, firstSent, first);
    AttemptEnds(begun, firstSent, events, gap);
    if InFlight(Run(begun, events), firstSent, gap) { RetryOf(Run(begun, events), firstSent, gap); }
  }
}
