/** Passive keepalive over a link that loses nothing and delivers within a
    bounded delay, in any order, between the two ends of one session. */
module KeepaliveLink {
  import opened Wrappers
  import opened Parties
  import opened Timing
  import opened ActorSpec

  datatype InFlight = InFlight(sentAt: nat, payload: bool)

  /** The clock, the session timers of both ends, and the packets travelling to each end. */
  datatype Link = Link(now: nat, timers: Pair<Timers>, inbox: Pair<seq<InFlight>>)

  /** One flush sends several packets, each with a payload or empty. */
  datatype Action =
    | Data(p: Party, payloads: seq<bool>, jitter: Jitter)
    | Keepalive(p: Party)
    | Deliver(p: Party, i: nat)
    | Tick(t: nat)

  /** Time passes no keepalive deadline and no packet's delivery bound. With
      `empties`, a flush may consist of empty payloads only. */
  predicate Enabled(l: Link, delay: nat, empties: bool, a: Action) {
    match a
    case Data(_, payloads, _) => payloads != [] && (empties || true in payloads)
    case Keepalive(_) => true
    case Deliver(p, i) => i < |l.inbox.At(p)|
    case Tick(t) =>
      && l.now <= t
      && forall p: Party ::
           && (l.timers.At(p).keepaliveAt.Some? ==> t <= l.timers.At(p).keepaliveAt.value)
           && (forall m | m in l.inbox.At(p) :: t <= m.sentAt + delay)
  }

  function Packets(now: nat, payloads: seq<bool>): seq<InFlight> {
    seq(|payloads|, i requires 0 <= i < |payloads| => InFlight(now, payloads[i]))
  }

  /** The end's timers move and its packets join the other end's inbox. */
  function Sent(l: Link, p: Party, timers: Timers, payloads: seq<bool>): Link {
    var q := p.Other();
    l.(timers := l.timers.With(p, timers), inbox := l.inbox.With(q, l.inbox.At(q) + Packets(l.now, payloads)))
  }

  function Do(l: Link, a: Action): Link {
    match a
    case Data(p, payloads, jitter) => Sent(l, p, l.timers.At(p).DataSent(l.now, jitter), payloads)
    case Keepalive(p) => Sent(l, p, l.timers.At(p).KeepaliveSent(), [false])
    case Deliver(p, i) =>
      var packets := l.inbox.At(p);
      if i >= |packets| then l
      else
        l.(timers := l.timers.With(p, l.timers.At(p).PacketReceived(l.now, packets[i].payload)),
           inbox := l.inbox.With(p, packets[..i] + packets[i + 1..]))
    case Tick(t) => l.(now := t)
  }

  predicate ValidRun(l: Link, delay: nat, empties: bool, actions: seq<Action>)
    decreases |actions|
  {
    actions == [] || (Enabled(l, delay, empties, actions[0]) && ValidRun(Do(l, actions[0]), delay, empties, actions[1..]))
  }

  function Run(l: Link, actions: seq<Action>): Link
    decreases |actions|
  {
    if actions == [] then l else Run(Do(l, actions[0]), actions[1..])
  }

  function Start(now: nat): Link {
    Link(now, Pair(NewTimers(true, now), NewTimers(false, now)), Pair([], []))
  }

  /** The unanswered-data deadline has been reached while armed. */
  predicate Fires(l: Link, p: Party) {
    l.timers.At(p).newHandshakeAt.Some? && l.timers.At(p).newHandshakeAt.value <= l.now
  }

  // ---------- invariant ----------

  /** One end: what travels to it is within its bound, and its keepalive is not overdue. */
  predicate EndOk(now: nat, delay: nat, timers: Timers, inbox: seq<InFlight>) {
    && (forall m | m in inbox :: m.sentAt <= now <= m.sentAt + delay)
    && (timers.keepaliveAt.Some? ==> now <= timers.keepaliveAt.value <= now + KEEPALIVE_TIMEOUT)
    && timers.Exclusive()
  }

  /** An armed deadline is covered: the data is still travelling to the other
      end, or that end owes a keepalive soon enough, or an answer is on its way. */
  predicate Covered(toOther: seq<InFlight>, owed: Option<nat>, toUs: seq<InFlight>, delay: nat, deadline: nat) {
    || (exists m :: m in toOther && m.payload && m.sentAt + KEEPALIVE_TIMEOUT + REKEY_TIMEOUT <= deadline)
    || (owed.Some? && owed.value + REKEY_TIMEOUT <= deadline + delay)
    || (exists m :: m in toUs && m.sentAt + REKEY_TIMEOUT <= deadline + delay)
  }

  predicate Answerable(l: Link, delay: nat, p: Party) {
    var q := p.Other();
    l.timers.At(p).newHandshakeAt.Some? ==>
      Covered(l.inbox.At(q), l.timers.At(q).keepaliveAt, l.inbox.At(p), delay, l.timers.At(p).newHandshakeAt.value)
  }

  predicate Inv(l: Link, delay: nat) {
    forall p: Party :: EndOk(l.now, delay, l.timers.At(p), l.inbox.At(p)) && Answerable(l, delay, p)
  }

  /** Nothing but the deadlines and the packets matters. */
  lemma InvSame(l: Link, t: Link, delay: nat)
    requires Inv(l, delay) && t.now == l.now && t.inbox == l.inbox
    requires forall p: Party ::
               && t.timers.At(p).keepaliveAt == l.timers.At(p).keepaliveAt
               && t.timers.At(p).newHandshakeAt == l.timers.At(p).newHandshakeAt
    ensures Inv(t, delay)
  {
    hide Covered;
    forall p: Party ensures EndOk(t.now, delay, t.timers.At(p), t.inbox.At(p)) && Answerable(t, delay, p) {
      assert EndOk(l.now, delay, l.timers.At(p), l.inbox.At(p)) && Answerable(l, delay, p);
    }
  }

  /** Coverage survives more packets in flight. */
  lemma CoveredMore(a: seq<InFlight>, a': seq<InFlight>, owed: Option<nat>, b: seq<InFlight>, b': seq<InFlight>, delay: nat, x: nat)
    requires Covered(a, owed, b, delay, x)
    requires (forall m | m in a :: m in a') && (forall m | m in b :: m in b')
    ensures Covered(a', owed, b', delay, x)
  {
  }

  /** Sending keeps coverage: new data covers its own deadline, and whatever is
      sent is the answer the end owed. */
  lemma SendCovers(l: Link, delay: nat, p: Party, timers: Timers, payloads: seq<bool>)
    requires Inv(l, delay) && payloads != [] && timers.keepaliveAt == None
    requires || timers.newHandshakeAt == l.timers.At(p).newHandshakeAt
             || (&& timers.newHandshakeAt.Some? && true in payloads
                 && l.now + KEEPALIVE_TIMEOUT + REKEY_TIMEOUT <= timers.newHandshakeAt.value)
    ensures Inv(Sent(l, p, timers, payloads), delay)
  {
    var t, q := Sent(l, p, timers, payloads), p.Other();
    var toQ, toQ' := l.inbox.At(q), t.inbox.At(q);
    assert t.inbox.At(p) == l.inbox.At(p) && t.timers.At(q) == l.timers.At(q);
    assert EndOk(l.now, delay, l.timers.At(p), l.inbox.At(p)) && EndOk(l.now, delay, l.timers.At(q), toQ);
    assert Answerable(l, delay, p) && Answerable(l, delay, q);
    SentPackets(l.now, delay, l.timers.At(q), toQ, payloads);
    if timers.newHandshakeAt.Some? {
      var x := timers.newHandshakeAt.value;
      if timers.newHandshakeAt == l.timers.At(p).newHandshakeAt {
        CoveredMore(toQ, toQ', l.timers.At(q).keepaliveAt, l.inbox.At(p), l.inbox.At(p), delay, x);
      } else {
        assert InFlight(l.now, true) in toQ';
      }
    }
    if l.timers.At(q).newHandshakeAt.Some? {
      OwedIsSent(l.now, l.inbox.At(p), l.timers.At(p).keepaliveAt, toQ, toQ', payloads[0], delay, l.timers.At(q).newHandshakeAt.value);
    }
    forall r: Party ensures EndOk(t.now, delay, t.timers.At(r), t.inbox.At(r)) && Answerable(t, delay, r) {
      assert r == p || r == q;
    }
  }

  lemma SentPackets(now: nat, delay: nat, timers: Timers, toQ: seq<InFlight>, payloads: seq<bool>)
    requires EndOk(now, delay, timers, toQ)
    ensures EndOk(now, delay, timers, toQ + Packets(now, payloads))
    ensures forall m | m in toQ :: m in toQ + Packets(now, payloads)
    ensures forall b | b in payloads :: InFlight(now, b) in toQ + Packets(now, payloads)
  {
    var sent := Packets(now, payloads);
    forall b | b in payloads ensures InFlight(now, b) in toQ + sent {
      var i :| 0 <= i < |payloads| && payloads[i] == b;
      assert sent[i] == InFlight(now, b);
    }
  }

  /** A keepalive that was owed is replaced by the packet just sent. */
  lemma OwedIsSent(now: nat, toP: seq<InFlight>, owed: Option<nat>, toQ: seq<InFlight>, toQ': seq<InFlight>, b: bool,
                   delay: nat, x: nat)
    requires Covered(toP, owed, toQ, delay, x) && (owed.Some? ==> now <= owed.value)
    requires (forall m | m in toQ :: m in toQ') && InFlight(now, b) in toQ'
    ensures Covered(toP, None, toQ', delay, x)
  {
    if owed.Some? && owed.value + REKEY_TIMEOUT <= x + delay {
      assert InFlight(now, b) in toQ' && now + REKEY_TIMEOUT <= x + delay;
    }
  }

  lemma DeliverCovers(l: Link, delay: nat, p: Party, i: nat)
    requires Inv(l, delay) && i < |l.inbox.At(p)|
    ensures Inv(Do(l, Deliver(p, i)), delay)
  {
    var t, q := Do(l, Deliver(p, i)), p.Other();
    var inbox, inbox', m := l.inbox.At(p), t.inbox.At(p), l.inbox.At(p)[i];
    assert inbox == inbox[..i] + [m] + inbox[i + 1..];
    assert t.inbox.At(q) == l.inbox.At(q) && t.timers.At(q) == l.timers.At(q);
    assert EndOk(l.now, delay, l.timers.At(p), inbox) && EndOk(l.now, delay, l.timers.At(q), l.inbox.At(q));
    assert Answerable(l, delay, q);
    if l.timers.At(q).newHandshakeAt.Some? {
      DataIsOwed(l.now, inbox, inbox', m, l.timers.At(p), l.inbox.At(q), delay, l.timers.At(q).newHandshakeAt.value);
    }
    forall r: Party ensures EndOk(t.now, delay, t.timers.At(r), t.inbox.At(r)) && Answerable(t, delay, r) {
      assert r == p || r == q;
    }
  }

  /** Delivered data leaves a keepalive owed within the timeout. */
  lemma DataIsOwed(now: nat, inbox: seq<InFlight>, inbox': seq<InFlight>, m: InFlight, timers: Timers, toQ: seq<InFlight>,
                   delay: nat, x: nat)
    requires EndOk(now, delay, timers, inbox) && Covered(inbox, timers.keepaliveAt, toQ, delay, x) && m in inbox
    requires forall n | n in inbox && n != m :: n in inbox'
    ensures Covered(inbox', timers.PacketReceived(now, m.payload).keepaliveAt, toQ, delay, x)
  {
    if n :| n in inbox && n.payload && n.sentAt + KEEPALIVE_TIMEOUT + REKEY_TIMEOUT <= x {
      if n != m { assert n in inbox'; }
    }
  }

  lemma StepKeeps(l: Link, delay: nat, a: Action)
    requires Inv(l, delay) && Enabled(l, delay, false, a)
    ensures Inv(Do(l, a), delay)
  {
    hide Inv, Sent;
    match a
    case Data(p, payloads, jitter) => SendCovers(l, delay, p, l.timers.At(p).DataSent(l.now, jitter), payloads);
    case Keepalive(p) => SendCovers(l, delay, p, l.timers.At(p).KeepaliveSent(), [false]);
    case Deliver(p, i) => DeliverCovers(l, delay, p, i);
    case Tick(t) => TickCovers(l, delay, t);
  }

  lemma TickCovers(l: Link, delay: nat, t: nat)
    requires Inv(l, delay) && Enabled(l, delay, false, Tick(t))
    ensures Inv(Do(l, Tick(t)), delay)
  {
    hide Covered;
    forall p: Party ensures EndOk(t, delay, l.timers.At(p), l.inbox.At(p)) && Answerable(Do(l, Tick(t)), delay, p) {
      assert EndOk(l.now, delay, l.timers.At(p), l.inbox.At(p)) && Answerable(l, delay, p);
    }
  }

  lemma {:induction false} RunKeeps(l: Link, delay: nat, actions: seq<Action>)
    requires Inv(l, delay) && ValidRun(l, delay, false, actions)
    ensures Inv(Run(l, actions), delay)
    decreases |actions|
  {
    hide Inv, Do, Enabled;
    if actions != [] {
      StepKeeps(l, delay, actions[0]);
      RunKeeps(Do(l, actions[0]), delay, actions[1..]);
    }
  }

  /** A covered deadline lies ahead, when a round trip is shorter than the margin. */
  lemma CoveredIsAhead(l: Link, delay: nat, p: Party)
    requires Inv(l, delay) && 2 * delay < REKEY_TIMEOUT
    ensures !Fires(l, p) && l.timers.At(p).Exclusive()
  {
    assert EndOk(l.now, delay, l.timers.At(p), l.inbox.At(p)) && Answerable(l, delay, p);
    assert EndOk(l.now, delay, l.timers.At(p.Other()), l.inbox.At(p.Other()));
  }

  // ---------- exactly when no deadline fires ----------

  /** No run from here reaches an armed deadline, at either end. */
  ghost predicate NeverFires(l: Link, delay: nat, empties: bool) {
    forall actions: seq<Action>, p: Party :: ValidRun(l, delay, empties, actions) ==> !Fires(Run(l, actions), p)
  }

  /** Whether the unanswered-data deadline can fire. It never does, at either
      end, in any run, if and only if a round trip takes less than five seconds
      and no flush consists of empty payloads alone: an empty payload arms the
      sender's deadline, but its receiver owes no answer. */
  lemma NeverFiresExactly(delay: nat, empties: bool)
    ensures NeverFires(Start(0), delay, empties) <==> 2 * delay < REKEY_TIMEOUT && !empties
  {
    hide Do, Enabled;
    var l := Start(0);
    if 2 * delay < REKEY_TIMEOUT && !empties {
      forall actions: seq<Action>, p: Party | ValidRun(l, delay, empties, actions) ensures !Fires(Run(l, actions), p) {
        RunKeeps(l, delay, actions);
        CoveredIsAhead(Run(l, actions), delay, p);
      }
    } else {
      var actions := if empties then EmptyFires(delay) else SlowFires(delay);
      assert ValidRun(l, delay, empties, actions) && Fires(Run(l, actions), Left);
    }
  }

  const DEADLINE: nat := KEEPALIVE_TIMEOUT + REKEY_TIMEOUT

  /** An empty payload, delivered at once and never answered. */
  function EmptyFires(delay: nat): (actions: seq<Action>)
    ensures ValidRun(Start(0), delay, true, actions) && Fires(Run(Start(0), actions), Left)
  {
    var a := [Data(Left, [false], 0), Deliver(Right, 0), Tick(DEADLINE)];
    EmptyRun(delay);
    a
  }

  lemma EmptyRun(delay: nat)
    ensures var a := [Data(Left, [false], 0), Deliver(Right, 0), Tick(DEADLINE)];
            ValidRun(Start(0), delay, true, a) && Fires(Run(Start(0), a), Left)
  {
    var l0 := Start(0);
    var l1 := Do(l0, Data(Left, [false], 0));
    assert l1.inbox.right == [InFlight(0, false)];
    var l2 := Do(l1, Deliver(Right, 0));
    assert l2.inbox.right == [] && l2.inbox.left == [];
    Two(l1, delay, true, Deliver(Right, 0), Tick(DEADLINE));
    Extend(l0, delay, true, Data(Left, [false], 0), [Deliver(Right, 0), Tick(DEADLINE)]);
    assert [Data(Left, [false], 0)] + [Deliver(Right, 0), Tick(DEADLINE)] == [Data(Left, [false], 0), Deliver(Right, 0), Tick(DEADLINE)];
  }

  /** Data answered as late as the delay allows. */
  function SlowRun(delay: nat): seq<Action> {
    var first := Data(Left, [true], 0);
    if delay >= DEADLINE then [first, Tick(DEADLINE)]
    else if delay >= REKEY_TIMEOUT then [first, Tick(delay), Deliver(Right, 0), Tick(DEADLINE)]
    else [first, Tick(delay), Deliver(Right, 0), Tick(delay + KEEPALIVE_TIMEOUT), Keepalive(Right), Tick(DEADLINE)]
  }

  function SlowFires(delay: nat): (actions: seq<Action>)
    requires 2 * delay >= REKEY_TIMEOUT
    ensures ValidRun(Start(0), delay, false, actions) && Fires(Run(Start(0), actions), Left)
  {
    SlowRunFires(delay);
    SlowRun(delay)
  }

  lemma SlowRunFires(delay: nat)
    requires 2 * delay >= REKEY_TIMEOUT
    ensures ValidRun(Start(0), delay, false, SlowRun(delay)) && Fires(Run(Start(0), SlowRun(delay)), Left)
  {
    var a := SlowRun(delay);
    var l0 := Start(0);
    var l1 := Do(l0, a[0]);
    assert l1.inbox.right == [InFlight(0, true)];
    if delay >= DEADLINE {
      Two(l0, delay, false, a[0], a[1]);
    } else {
      var l2 := Do(l1, a[1]);
      var l3 := Do(l2, a[2]);
      assert l3.inbox.right == [] && l3.inbox.left == [];
      if delay >= REKEY_TIMEOUT {
        Two(l2, delay, false, a[2], a[3]);
      } else {
        AnswerTooLate(l3, delay);
        Extend(l2, delay, false, a[2], a[3..]);
      }
      Extend(l1, delay, false, a[1], a[2..]);
      Extend(l0, delay, false, a[0], a[1..]);
      assert [a[1]] + a[2..] == a[1..] && [a[0]] + a[1..] == a && [a[2]] + a[3..] == a[2..];
    }
  }

  /** The owed keepalive leaves on time and is still travelling when the deadline comes. */
  lemma AnswerTooLate(l: Link, delay: nat)
    requires REKEY_TIMEOUT <= 2 * delay < 2 * REKEY_TIMEOUT && l.now == delay && l.inbox == Pair([], [])
    requires l.timers.left.keepaliveAt.None? && l.timers.left.newHandshakeAt == Some(DEADLINE)
    requires l.timers.right.keepaliveAt == Some(delay + KEEPALIVE_TIMEOUT)
    ensures var a := [Tick(delay + KEEPALIVE_TIMEOUT), Keepalive(Right), Tick(DEADLINE)];
            ValidRun(l, delay, false, a) && Fires(Run(l, a), Left)
  {
    var a := [Tick(delay + KEEPALIVE_TIMEOUT), Keepalive(Right), Tick(DEADLINE)];
    var l4 := Do(l, a[0]);
    var l5 := Do(l4, a[1]);
    assert l5.inbox.left == [InFlight(delay + KEEPALIVE_TIMEOUT, false)] && l5.inbox.right == [];
    Two(l4, delay, false, a[1], a[2]);
    Extend(l, delay, false, a[0], a[1..]);
    assert a[1..] == [a[1], a[2]] && [a[0]] + a[1..] == a;
  }

  lemma Extend(l: Link, delay: nat, empties: bool, a: Action, rest: seq<Action>)
    requires Enabled(l, delay, empties, a) && ValidRun(Do(l, a), delay, empties, rest)
    ensures ValidRun(l, delay, empties, [a] + rest) && Run(l, [a] + rest) == Run(Do(l, a), rest)
  {
    hide Do, Enabled;
    assert ([a] + rest)[1..] == rest;
  }

  lemma Two(l: Link, delay: nat, empties: bool, a: Action, b: Action)
    requires Enabled(l, delay, empties, a) && Enabled(Do(l, a), delay, empties, b)
    ensures ValidRun(l, delay, empties, [a, b]) && Run(l, [a, b]) == Do(Do(l, a), b)
  {
    hide Do, Enabled;
    Extend(Do(l, a), delay, empties, b, []);
    assert [b] + [] == [b] && [a] + [b] == [a, b];
    Extend(l, delay, empties, a, [b]);
  }
}
