/** The driver's promises, stated for every state a run can reach. */
module ActorTheorems {
  import opened Wrappers
  import opened Crypto
  import opened TransportData
  import opened PeerSpec
  import opened ActorSpec
  import opened ActorRuns
  import H = Handshake

  /** Some run of a freshly spawned actor ends here, whatever indices were drawn. */
  ghost predicate Reachable(a: ActorState) {
    exists ourSecret: nat, peerKey: Term, psk: Option<Term>, keepalive: Option<nat>, events: seq<Event> ::
      && ValidRun(Spawn(ourSecret, peerKey, psk, keepalive), events, false)
      && a == Run(Spawn(ourSecret, peerKey, psk, keepalive), events)
  }

  lemma ReachableInv(a: ActorState)
    requires Reachable(a)
    ensures Inv(a, false)
  {
    hide Inv, ValidRun, Run, Spawn;
    var ourSecret: nat, peerKey: Term, psk: Option<Term>, keepalive: Option<nat>, events: seq<Event> :|
      && ValidRun(Spawn(ourSecret, peerKey, psk, keepalive), events, false)
      && a == Run(Spawn(ourSecret, peerKey, psk, keepalive), events);
    SpawnKeeps(ourSecret, peerKey, psk, keepalive, false);
    RunKeeps(Spawn(ourSecret, peerKey, psk, keepalive), events, false);
  }

  // ---------- order and conservation of payloads ----------

  /** Positions of the payloads whose fate was to be sealed. */
  function SealedPositions(fates: seq<Fate>): seq<nat> {
    if fates == [] then []
    else
      var n := |fates| - 1;
      SealedPositions(fates[..n]) + if fates[n] == WasSealed then [n] else []
  }

  /** Every position is that of a sealed payload. */
  lemma {:induction false} PositionSealed(fates: seq<Fate>, i: nat)
    requires i < |SealedPositions(fates)|
    ensures SealedPositions(fates)[i] < |fates| && fates[SealedPositions(fates)[i]] == WasSealed
    decreases |fates|
  {
    var n := |fates| - 1;
    var before := SealedPositions(fates[..n]);
    assert SealedPositions(fates) == before + if fates[n] == WasSealed then [n] else [];
    if i < |before| { PositionSealed(fates[..n], i); }
  }

  /** The positions are in order. */
  lemma {:induction false} PositionsAscend(fates: seq<Fate>, i: nat, j: nat)
    requires i < j < |SealedPositions(fates)|
    ensures SealedPositions(fates)[i] < SealedPositions(fates)[j]
    decreases |fates|
  {
    var n := |fates| - 1;
    var before := SealedPositions(fates[..n]);
    assert SealedPositions(fates) == before + if fates[n] == WasSealed then [n] else [];
    if j < |before| { PositionsAscend(fates[..n], i, j); } else { PositionSealed(fates[..n], i); }
  }

  /** Every sealed payload has its position. */
  lemma {:induction false} PositionsComplete(fates: seq<Fate>, k: nat)
    requires k < |fates| && fates[k] == WasSealed
    ensures k in SealedPositions(fates)
    decreases |fates|
  {
    var n := |fates| - 1;
    assert SealedPositions(fates) == SealedPositions(fates[..n]) + if fates[n] == WasSealed then [n] else [];
    if k < n {
      assert fates[..n][k] == WasSealed;
      PositionsComplete(fates[..n], k);
    }
  }

  /** The positions pick the sealed payloads out of the submitted ones. */
  lemma {:induction false} PositionsPickSealed(submitted: seq<Payload>, fates: seq<Fate>)
    requires |submitted| == |fates|
    ensures var ps, sealed := SealedPositions(fates), SealedOf(submitted, fates);
            |ps| == |sealed| && forall i | 0 <= i < |ps| :: ps[i] < |submitted| && sealed[i] == submitted[ps[i]]
    decreases |fates|
  {
    if fates != [] {
      var n := |fates| - 1;
      PositionsPickSealed(submitted[..n], fates[..n]);
      var before, ps, sealed := SealedPositions(fates[..n]), SealedPositions(fates), SealedOf(submitted, fates);
      var head := SealedOf(submitted[..n], fates[..n]);
      assert ps == before + if fates[n] == WasSealed then [n] else [];
      assert sealed == head + if fates[n] == WasSealed then [submitted[n]] else [];
      forall i | 0 <= i < |ps| ensures ps[i] < |submitted| && sealed[i] == submitted[ps[i]] {
        if i < |before| {
          assert head[i] == submitted[..n][before[i]];
        }
      }
    }
  }

  lemma FifoByInv(a: ActorState)
    requires Inv(a, false)
    ensures |a.staged| <= 128
    ensures |a.history.submitted| == |a.history.fates| + |a.staged|
    ensures a.staged == a.history.submitted[|a.history.fates|..]
    ensures var ps := SealedPositions(a.history.fates);
            && |ps| == |a.history.sealed|
            && (forall i | 0 <= i < |ps| :: ps[i] < |a.history.fates| && a.history.sealed[i] == a.history.submitted[ps[i]])
            && (forall i, j | 0 <= i < j < |ps| :: ps[i] < ps[j])
            && (forall k: nat | k < |a.history.fates| && a.history.fates[k] == WasSealed :: k in ps)
    ensures a.staged != [] ==>
              forall later, payload :: later >= a.clock ==> a.machine.Encrypt(later, payload, PacketLen(|payload|)).1.Err?
  {
    hide IndexOk, Live;
    var k := |a.history.fates|;
    assert a.staged + [] == a.staged;
    PositionsPickSealed(a.history.submitted[..k], a.history.fates);
    var ps := SealedPositions(a.history.fates);
    forall i | 0 <= i < |ps| ensures ps[i] < k { PositionSealed(a.history.fates, i); }
    forall i, j | 0 <= i < j < |ps| ensures ps[i] < ps[j] { PositionsAscend(a.history.fates, i, j); }
    forall j: nat | j < k && a.history.fates[j] == WasSealed ensures j in SealedPositions(a.history.fates) {
      PositionsComplete(a.history.fates, j);
    }
    if a.staged != [] {
      forall later, payload | later >= a.clock
        ensures a.machine.Encrypt(later, payload, PacketLen(|payload|)).1.Err?
      {
        StalledLater(a.machine, a.clock, later);
        StalledIsRefusal(a.machine, later, payload);
      }
    }
  }

  /** First in, first out, and nothing lost track of. In every reachable state
      the sealed payloads are the submitted ones at strictly increasing
      positions; every submission was sealed, evicted or cleared, once, or is
      still queued; the queue is the tail of the submissions and never exceeds
      its bound; and while it is non-empty sealing is refused, now and later. */
  lemma FifoAndConservation(a: ActorState)
    requires Reachable(a)
    ensures |a.staged| <= 128
    ensures |a.history.submitted| == |a.history.fates| + |a.staged|
    ensures a.staged == a.history.submitted[|a.history.fates|..]
    ensures var ps := SealedPositions(a.history.fates);
            && |ps| == |a.history.sealed|
            && (forall i | 0 <= i < |ps| :: ps[i] < |a.history.fates| && a.history.sealed[i] == a.history.submitted[ps[i]])
            && (forall i, j | 0 <= i < j < |ps| :: ps[i] < ps[j])
            && (forall k: nat | k < |a.history.fates| && a.history.fates[k] == WasSealed :: k in ps)
    ensures a.staged != [] ==>
              forall later, payload :: later >= a.clock ==> a.machine.Encrypt(later, payload, PacketLen(|payload|)).1.Err?
  {
    hide Reachable, Inv;
    ReachableInv(a);
    FifoByInv(a);
  }

  /** Waiting payloads always have something scheduled or owed that can release
      them; a pending handshake always has a timer; a held session always has an
      endpoint to send to. */
  lemma NoStrandedPayloads(a: ActorState)
    requires Reachable(a)
    ensures a.staged != [] ==> a.handshake.Some? || a.machine.endpoint.None? || a.machine.next.Some?
    ensures a.machine.pending.Some? ==> a.handshake.Some?
    ensures a.machine.current.Some? || a.machine.next.Some? || a.machine.previous.Some? ==> a.machine.endpoint.Some?
    ensures a.session.Some? ==> a.session.value.keepaliveAt.None? || a.session.value.newHandshakeAt.None?
  {
    hide Reachable;
    ReachableInv(a);
  }

  /** The third case of `NoStrandedPayloads` is real: a payload submitted before
      any endpoint is known, then an initiation from the peer. The payload now
      waits, with no timer armed, for the peer to confirm the session. */
  lemma UnconfirmedSessionHoldsPayloads(payload: Payload)
    ensures exists a ::
              && Reachable(a) && a.staged == [payload] && a.machine.endpoint.Some? && a.machine.next.Some?
              && a.handshake.None? && a.session.None? && PersistentKeepaliveAt(a).None?
  {
    hide H.Respond, BatchesOf, AnySent;
    var values := HandshakeValues(7, 3, 1);
    var hs := HsInput(0, 0, 0, values, true);
    var f := FlushInput(0, 1, [], 0, hs);
    var e1 := SendData([payload], f);
    var received := H.InitReceived(Point(2), Point(4), 9, 1, EMPTY, EMPTY);
    var e2 := RecvInit(0, received, values, 5, true);
    var a0 := Spawn(1, Point(2), None, None);
    StalledIsRefusal(a0.machine, 0, payload);
    assert SealAll(a0.machine, 0, [payload]) == (a0.machine, []);
    var a1 := Step(a0, e1);
    assert a1.staged == [payload] && a1.machine == a0.machine && a1.handshake.None? && a1.session.None?;
    var a2 := Step(a1, e2);
    RunTwo(a0, e1, e2);
  }

  lemma RunTwo(a: ActorState, e1: Event, e2: Event)
    requires Timely(a, e1) && Timely(Step(a, e1), e2)
    ensures ValidRun(a, [e1, e2], false) && Run(a, [e1, e2]) == Step(Step(a, e1), e2)
  {
    hide Step, Timely;
    var events := [e1, e2];
    assert events[1..] == [e2] && [e2][1..] == [];
    assert ValidRun(Step(a, e1), [e2], false) && Run(Step(a, e1), [e2]) == Step(Step(a, e1), e2);
  }

  // ---------- batching ----------

  function Flatten(batches: seq<Batch>): seq<seq<Octet>> {
    if batches == [] then [] else batches[0].packets + Flatten(batches[1..])
  }

  /** One train: non-empty, one size throughout, and small enough for one send or a single packet. */
  predicate GoodBatch(b: Batch) {
    && b.packets != []
    && (forall p | p in b.packets :: |p| == b.segmentSize)
    && (|b.packets| == 1 || |b.packets| * b.segmentSize <= MAX_MESSAGE_SIZE)
  }

  /** How many segments fit one send: one always does, and more exactly when the
      offload and the 65,535 octets of a message allow. */
  lemma SegmentsExactly(gso: nat, size: nat, k: nat)
    requires size > 0 && k > 0
    ensures k <= MaxBatchSegments(gso, size) <==> k == 1 || (k <= gso && k * size <= 65_535)
  {
    var q := 65_535 / size;
    assert q * size <= 65_535 < (q + 1) * size;
    assert k <= q ==> k * size <= q * size;
    assert k > q ==> k * size >= (q + 1) * size;
  }

  lemma {:induction false} ScanStops(payloads: seq<Payload>, start: nat, end: nat, limit: nat)
    requires start < end <= |payloads|
    ensures var e := BatchEnd(payloads, start, end, limit);
            e == |payloads| || e - start >= limit || |payloads[e]| != |payloads[start]|
    decreases |payloads| - end
  {
    if end < |payloads| && end - start < limit && |payloads[end]| == |payloads[start]| {
      ScanStops(payloads, start, end + 1, limit);
    }
  }

  /** No train could have taken the first packet of the next one. */
  predicate Full(b: Batch, next: Batch, gso: nat) {
    var n := |b.packets| + 1;
    next.segmentSize != b.segmentSize || n > gso || n * b.segmentSize > 65_535
  }

  predicate AllFull(batches: seq<Batch>, gso: nat) {
    forall i, j | 0 <= i && j == i + 1 < |batches| :: Full(batches[i], batches[j], gso)
  }

  /** Every train is as long as it can be: it ends at the last sealed packet,
      before another size, or where one more segment would not fit. */
  lemma {:induction false} TrainIsMaximal(payloads: seq<Payload>, packets: seq<seq<Octet>>, start: nat, gso: nat)
    requires start <= |packets| <= |payloads|
    ensures AllFull(BatchesOf(payloads, packets, start, gso), gso)
    decreases |packets| - start
  {
    hide MaxBatchSegments, BatchEnd, Full;
    if start < |packets| {
      var size := PacketLen(|payloads[start]|);
      var limit := MaxBatchSegments(gso, size);
      var end := Min(BatchEnd(payloads, start, start + 1, limit), |packets|);
      var head, tail := Batch(size, packets[start..end]), BatchesOf(payloads, packets, end, gso);
      var batches := BatchesOf(payloads, packets, start, gso);
      assert batches == [head] + tail;
      TrainIsMaximal(payloads, packets, end, gso);
      assert tail != [] ==> Full(head, tail[0], gso) by {
        ScanStops(payloads, start, start + 1, limit);
        SegmentsExactly(gso, size, end - start + 1);
        FullAt(head, tail, payloads, packets, end, gso, limit);
      }
      FullMore(head, tail, gso);
    }
  }

  lemma FullMore(head: Batch, tail: seq<Batch>, gso: nat)
    requires AllFull(tail, gso) && (tail != [] ==> Full(head, tail[0], gso))
    ensures AllFull([head] + tail, gso)
  {
    hide Full;
    var all := [head] + tail;
    forall i, j | 0 <= i && j == i + 1 < |all| ensures Full(all[i], all[j], gso) {
      assert all[j] == tail[i];
      assert i > 0 ==> all[i] == tail[i - 1];
    }
  }

  lemma FullAt(head: Batch, tail: seq<Batch>, payloads: seq<Payload>, packets: seq<seq<Octet>>, end: nat, gso: nat, limit: nat)
    requires end <= |packets| <= |payloads| && tail == BatchesOf(payloads, packets, end, gso)
    requires end == |packets| || |head.packets| >= limit || head.segmentSize != PacketLen(|payloads[end]|)
    requires head.packets != [] && (|head.packets| + 1 <= limit <==> |head.packets| + 1 <= gso && (|head.packets| + 1) * head.segmentSize <= 65_535)
    ensures tail != [] ==> Full(head, tail[0], gso)
  {
  }

  /** Batching is a partition of the sealed packets, in order. */
  lemma {:induction false} BatchesPartition(payloads: seq<Payload>, packets: seq<seq<Octet>>, start: nat, gso: nat)
    requires start <= |packets| <= |payloads|
    requires forall i: nat | i < |packets| :: |packets[i]| == PacketLen(|payloads[i]|)
    ensures var batches := BatchesOf(payloads, packets, start, gso);
            && Flatten(batches) == packets[start..]
            && (forall b | b in batches :: GoodBatch(b) && (|b.packets| == 1 || |b.packets| <= gso))
    decreases |packets| - start
  {
    hide GoodBatch;
    if start < |packets| {
      var size := PacketLen(|payloads[start]|);
      var end := Min(BatchEnd(payloads, start, start + 1, MaxBatchSegments(gso, size)), |packets|);
      HeadBatch(payloads, packets, start, gso);
      BatchesPartition(payloads, packets, end, gso);
      var head := Batch(size, packets[start..end]);
      var tail := BatchesOf(payloads, packets, end, gso);
      assert ([head] + tail)[1..] == tail;
      assert packets[start..] == packets[start..end] + packets[end..];
    }
  }

  lemma HeadBatch(payloads: seq<Payload>, packets: seq<seq<Octet>>, start: nat, gso: nat)
    requires start < |packets| <= |payloads|
    requires forall i: nat | i < |packets| :: |packets[i]| == PacketLen(|payloads[i]|)
    ensures var size := PacketLen(|payloads[start]|);
            var end := Min(BatchEnd(payloads, start, start + 1, MaxBatchSegments(gso, size)), |packets|);
            && start < end
            && GoodBatch(Batch(size, packets[start..end])) && (end - start == 1 || end - start <= gso)
  {
    hide MaxBatchSegments, BatchEnd;
    var size := PacketLen(|payloads[start]|);
    var limit := MaxBatchSegments(gso, size);
    var end := Min(BatchEnd(payloads, start, start + 1, limit), |packets|);
    var train := packets[start..end];
    forall p | p in train ensures |p| == size {
      var i :| 0 <= i < |train| && train[i] == p;
      assert p == packets[start + i];
    }
    SmallerTrain(|train|, limit, size);
  }

  lemma SmallerTrain(n: nat, limit: nat, size: nat)
    requires n <= limit && (limit == 1 || limit * size <= MAX_MESSAGE_SIZE)
    ensures n <= 1 || n * size <= MAX_MESSAGE_SIZE
  {
    assert n * size <= limit * size;
  }

  /** What a flush puts on the wire: exactly the packets sealed, in order, in good trains. */
  lemma FlushBatches(a: ActorState, payloads: seq<Payload>, f: FlushInput)
    ensures var packets := SealAll(a.machine, f.now, payloads).1;
            var b := FlushSends(a, payloads, f);
            exists batches :: b.wire == a.wire + batches && Flatten(batches) == packets && forall t | t in batches :: GoodBatch(t)
  {
    hide SealAll, BatchesOf, Flatten, GoodBatch;
    var packets := SealAll(a.machine, f.now, payloads).1;
    if payloads == [] {
      NothingSealed(a.machine, f.now);
      assert a.wire == a.wire + [];
      FlattenNothing();
      assert forall t: Batch | t in [] :: GoodBatch(t);
    } else {
      var batches := BatchesOf(payloads, packets, 0, f.gso);
      BatchesPartition(payloads, packets, 0, f.gso);
      assert packets[0..] == packets;
      assert FlushSends(a, payloads, f).wire == a.wire + batches;
    }
  }

  lemma NothingSealed(m: PeerState, now: nat)
    ensures SealAll(m, now, []).1 == []
  {
  }

  lemma FlattenNothing()
    ensures Flatten([]) == []
  {
  }
}
