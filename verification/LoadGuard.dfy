/** The inbound-handshake guard: a fixed one-second window, and a cookie
    challenge for what exceeds it. */
module LoadGuard {
  import opened Crypto
  import opened Timing
  import opened Cookies
  import H = Handshake

  const U32_LIMIT: nat := 0x1_0000_0000

  // ---------- source addresses ----------

  datatype SocketAddr =
    | V4(ip: seq<byte>, port: nat)
    | V6(ip: seq<byte>, port: nat)
  {
    predicate Valid() {
      port < 65536 && |ip| == if V4? then 4 else 16
    }
  }

  /** Address octets followed by the port, most significant octet first. */
  function SourceBytes(a: SocketAddr): seq<byte>
    requires a.Valid()
  {
    a.ip + [a.port / 256, a.port % 256]
  }

  /** The octets a cookie is bound to determine the whole source address. */
  lemma SourceBytesInjective(a: SocketAddr, b: SocketAddr)
    requires a.Valid() && b.Valid()
    ensures SourceBytes(a) == SourceBytes(b) <==> a == b
  {
    if SourceBytes(a) == SourceBytes(b) {
      var n := |a.ip|;
      assert |SourceBytes(a)| == n + 2 && |SourceBytes(b)| == |b.ip| + 2;
      assert a.ip == SourceBytes(a)[..n] && b.ip == SourceBytes(b)[..n];
      assert a.port / 256 == SourceBytes(a)[n] && a.port % 256 == SourceBytes(a)[n + 1];
      assert b.port / 256 == SourceBytes(b)[n] && b.port % 256 == SourceBytes(b)[n + 1];
    }
  }

  // ---------- the guard ----------

  datatype Decision = Process | Drop | Challenge(reply: seq<Octet>)

  datatype GuardState = GuardState(publicKey: Term, secret: Term, windowStart: nat, handshakes: nat, maxPerSecond: nat) {

    /** The count after one more message at `now`, as a 32-bit machine integer. */
    function Counted(now: nat): GuardState {
      var g := if Since(now, windowStart) >= SECOND then this.(windowStart := now, handshakes := 0) else this;
      g.(handshakes := (g.handshakes + 1) % U32_LIMIT)
    }

    predicate Wellformed(msg: seq<Octet>) {
      IsHandshake(msg) && VerifyMac1(publicKey, msg)
    }

    function Check(now: nat, msg: seq<Octet>, source: SocketAddr, nonce: seq<Octet>): (GuardState, Decision)
      requires source.Valid() && |nonce| == 24
    {
      if !Wellformed(msg) then (this, Drop)
      else
        var g := Counted(now);
        if g.handshakes <= maxPerSecond then (g, Process)
        else if VerifyMac2(msg, Raws(SourceBytes(source)), secret) then (g, Process)
        else
          var reply := CookieReply(publicKey, msg, Raws(SourceBytes(source)), secret, nonce);
          (g, if reply.Ok? then Challenge(reply.value) else Drop)
    }
  }

  class Guard {
    const publicKey: Term
    var secret: Term
    var windowStart: nat
    var handshakes: nat
    const maxPerSecond: nat

    ghost function View(): GuardState
      reads this
    {
      GuardState(publicKey, secret, windowStart, handshakes, maxPerSecond)
    }

    constructor (publicKey: Term, secret: Term, maxPerSecond: nat)
      ensures View() == GuardState(publicKey, secret, 0, 0, maxPerSecond)
    {
      this.publicKey, this.secret, this.maxPerSecond := publicKey, secret, maxPerSecond;
      windowStart, handshakes := 0, 0;
    }

    method RotateSecret(secret: Term)
      modifies this`secret
      ensures View() == old(View()).(secret := secret)
    {
      this.secret := secret;
    }

    method Check(now: nat, msg: seq<Octet>, source: SocketAddr, nonce: seq<Octet>) returns (d: Decision)
      requires source.Valid() && |nonce| == 24
      modifies this`windowStart, this`handshakes
      ensures (View(), d) == old(View()).Check(now, msg, source, nonce)
    {
      if !IsHandshake(msg) || !VerifyMac1(publicKey, msg) {
        return Drop;
      }
      if Since(now, windowStart) >= SECOND {
        windowStart := now;
        handshakes := 0;
      }
      handshakes := (handshakes + 1) % U32_LIMIT;
      if handshakes <= maxPerSecond {
        return Process;
      }
      var octets := Raws(SourceBytes(source));
      if VerifyMac2(msg, octets, secret) {
        return Process;
      }
      var reply := CookieReply(publicKey, msg, octets, secret, nonce);
      if reply.Err? {
        return Drop;
      }
      return Challenge(reply.value);
    }
  }

  // ---------- the challenge ----------

  /** What a guard makes of the handshakes a generator sends. One addressed to
      another key is dropped and not counted. One addressed to the guard is never
      dropped; it is processed exactly while the window has room or when its
      sender holds a fresh cookie for this source under the current secret, and
      otherwise draws a challenge that its sender will accept. */
  lemma GeneratedIsAnswered(gen: GeneratorState, g: GuardState, sentAt: nat, msg: seq<Octet>, at: nat, source: SocketAddr,
                            nonce: seq<Octet>, repliedAt: nat)
    requires source.Valid() && |nonce| == 24 && IsHandshake(msg)
    ensures var (gen1, wire) := gen.AddMacs(sentAt, msg);
            var (g', d) := g.Check(at, wire, source, nonce);
            && (gen.publicKey != g.publicKey ==> d == Drop && g' == g)
            && (gen.publicKey == g.publicKey ==>
                  && (d == Process <==>
                        || g.Counted(at).handshakes <= g.maxPerSecond
                        || (gen.Fresh(sentAt) && gen.lastCookie.value.cookie == Cookie(Raws(SourceBytes(source)), g.secret)))
                  && (d != Process ==> d.Challenge? && gen1.ProcessReply(d.reply, repliedAt).1.Ok?))
  {
    hide GeneratorState.AddMacs, GeneratorState.ProcessReply, CookieReply, VerifyMac1, VerifyMac2, MacOf;
    var octets := Raws(SourceBytes(source));
    Mac1Verifies(gen, sentAt, msg, g.publicKey);
    Mac2Verifies(gen, sentAt, msg, octets, g.secret);
    AddedMacFields(gen, sentAt, msg);
    LastSent(gen, sentAt, msg);
    var (gen1, wire) := gen.AddMacs(sentAt, msg);
    ReplyAccepted(gen1, repliedAt, g.publicKey, wire, octets, g.secret, nonce);
    SendKeepsKey(gen, sentAt, msg);
  }

  lemma SendKeepsKey(gen: GeneratorState, sentAt: nat, msg: seq<Octet>)
    requires IsHandshake(msg)
    ensures gen.AddMacs(sentAt, msg).0.publicKey == gen.publicKey
  {
  }

  /** Answering a challenge. A handshake draws a challenge from the guard; its
      sender processes the reply; then every handshake it sends within the
      refresh interval, however many it sent before, is processed by the guard
      for that source, whatever the load, as long as the secret has not been
      rotated. */
  lemma ChallengeAnswered(gen: GeneratorState, g: GuardState, sentAt: nat, msg: seq<Octet>, at: nat, source: SocketAddr,
                          nonce: seq<Octet>, repliedAt: nat, between: seq<(nat, seq<Octet>)>, now: nat, later: seq<Octet>,
                          g': GuardState, at': nat, nonce': seq<Octet>)
    requires source.Valid() && |nonce| == 24 && |nonce'| == 24
    requires gen.publicKey == g.publicKey && IsHandshake(msg) && IsHandshake(later)
    requires forall s | s in between :: IsHandshake(s.1)
    requires g.Check(at, gen.AddMacs(sentAt, msg).1, source, nonce).1.Challenge?
    requires g'.publicKey == g.publicKey && g'.secret == g.secret
    requires Since(now, repliedAt) <= COOKIE_REFRESH_INTERVAL
    ensures var (gen1, wire) := gen.AddMacs(sentAt, msg);
            var (gen2, accepted) := gen1.ProcessReply(g.Check(at, wire, source, nonce).1.reply, repliedAt);
            && accepted.Ok?
            && g'.Check(at', SendMany(gen2, between).AddMacs(now, later).1, source, nonce').1 == Process
  {
    hide GeneratorState.AddMacs, GeneratorState.ProcessReply, CookieReply, VerifyMac1, VerifyMac2, SendMany;
    var octets := Raws(SourceBytes(source));
    CookieRoundTrip(gen, sentAt, msg, octets, g.secret, nonce, repliedAt, between, now, later, octets, g.secret);
    var reply := CookieReply(g.publicKey, gen.AddMacs(sentAt, msg).1, octets, g.secret, nonce).value;
    var gen2 := gen.AddMacs(sentAt, msg).0.ProcessReply(reply, repliedAt).0;
    ReplyKeepsKey(gen, sentAt, msg, reply, repliedAt);
    SendingKeepsCookie(gen2, between);
    Mac1Verifies(SendMany(gen2, between), now, later, g.publicKey);
  }

  lemma ReplyKeepsKey(gen: GeneratorState, sentAt: nat, msg: seq<Octet>, reply: seq<Octet>, repliedAt: nat)
    requires IsHandshake(msg)
    ensures gen.AddMacs(sentAt, msg).0.ProcessReply(reply, repliedAt).0.publicKey == gen.publicKey
  {
  }

  // ---------- the rate bound ----------

  datatype Event =
    | Arrive(now: nat, msg: seq<Octet>, source: SocketAddr, nonce: seq<Octet>)
    | Rotate(secret: Term)

  predicate ValidEvent(e: Event) {
    e.Arrive? ==> e.source.Valid() && |e.nonce| == 24
  }

  function Step(g: GuardState, e: Event): GuardState
    requires ValidEvent(e)
  {
    match e
    case Arrive(now, msg, source, nonce) => g.Check(now, msg, source, nonce).0
    case Rotate(secret) => g.(secret := secret)
  }

  /** Time does not run backwards, and fewer than 2^32 messages are counted per window. */
  predicate ValidRun(g: GuardState, clock: nat, events: seq<Event>)
    decreases |events|
  {
    events == [] ||
    (&& ValidEvent(events[0])
     && (events[0].Arrive? ==>
           clock <= events[0].now
           && (Since(events[0].now, g.windowStart) >= SECOND || g.handshakes + 1 < U32_LIMIT))
     && ValidRun(Step(g, events[0]), if events[0].Arrive? then events[0].now else clock, events[1..]))
  }

  /** Processed on credit: inside the interval, without a valid mac2. */
  predicate OnCredit(g: GuardState, e: Event, from: nat)
    requires ValidEvent(e)
  {
    && e.Arrive? && from <= e.now < from + SECOND
    && g.Check(e.now, e.msg, e.source, e.nonce).1 == Process
    && !VerifyMac2(e.msg, Raws(SourceBytes(e.source)), g.secret)
  }

  function Credits(g: GuardState, clock: nat, events: seq<Event>, from: nat): nat
    requires ValidRun(g, clock, events)
    decreases |events|
  {
    if events == [] then 0
    else
      var e := events[0];
      (if OnCredit(g, e, from) then 1 else 0)
      + Credits(Step(g, e), if e.Arrive? then e.now else clock, events[1..], from)
  }

  /** The most that can still be processed on credit in the interval. A window
      that reaches into it leaves what it has not used and a second, full one; a
      window already over leaves one full window. Before the interval a message
      may also open a window reaching into it, but then uses one place itself. */
  function Room(g: GuardState, clock: nat, from: nat): nat {
    var m := g.maxPerSecond;
    var left := if g.handshakes >= m then 0 else m - g.handshakes;
    if m == 0 || clock >= from + SECOND then 0
    else if clock >= from then
      if g.windowStart >= from then left else if Since(clock, g.windowStart) >= SECOND then m else left + m
    else
      var kept := if Since(from, g.windowStart) >= SECOND then m else left + m;
      if g.windowStart + SECOND < from && kept < 2 * m - 1 then 2 * m - 1 else kept
  }

  lemma CreditStep(g: GuardState, clock: nat, e: Event, from: nat)
    requires ValidRun(g, clock, [e]) && g.handshakes < U32_LIMIT && g.windowStart <= clock
    ensures var g' := Step(g, e);
            var clock' := if e.Arrive? then e.now else clock;
            && (if OnCredit(g, e, from) then 1 else 0) + Room(g', clock', from) <= Room(g, clock, from)
            && g'.handshakes < U32_LIMIT && g'.windowStart <= clock' && g'.maxPerSecond == g.maxPerSecond
  {
    hide VerifyMac1, VerifyMac2, CookieReply, IsHandshake;
  }

  lemma {:induction false} CreditsFitRoom(g: GuardState, clock: nat, events: seq<Event>, from: nat)
    requires ValidRun(g, clock, events) && g.handshakes < U32_LIMIT && g.windowStart <= clock
    ensures Credits(g, clock, events, from) <= Room(g, clock, from)
    decreases |events|
  {
    hide GuardState.Check, Room, OnCredit, Step;
    if events != [] {
      var e := events[0];
      assert [e][1..] == [];
      CreditStep(g, clock, e, from);
      CreditsFitRoom(Step(g, e), if e.Arrive? then e.now else clock, events[1..], from);
    }
  }

  // ---------- the bound is reached ----------

  function Copies(e: Event, n: nat): (s: seq<Event>)
    ensures |s| == n
  {
    seq(n, _ => e)
  }

  /** A handshake with a valid mac1 and no cookie. */
  function Uncookied(publicKey: Term): seq<Octet> {
    NewGenerator(publicKey).AddMacs(0, Blank()).1
  }

  function Blank(): (msg: seq<Octet>)
    ensures IsHandshake(msg)
  {
    TypeOctets(1) + seq(H.INIT_MSG_LENGTH - 4, _ => Raw(0))
  }

  const SOMEWHERE := V4([127, 0, 0, 1], 1)

  function SomeNonce(): (n: seq<Octet>)
    ensures |n| == 24
  {
    seq(24, _ => Raw(0))
  }

  function Knock(publicKey: Term, now: nat): Event {
    Arrive(now, Uncookied(publicKey), SOMEWHERE, SomeNonce())
  }

  lemma KnockCounts(g: GuardState, now: nat, from: nat)
    requires from <= now < from + SECOND && g.Counted(now).handshakes <= g.maxPerSecond
    ensures Step(g, Knock(g.publicKey, now)) == g.Counted(now) && OnCredit(g, Knock(g.publicKey, now), from)
  {
    hide GeneratorState.AddMacs, VerifyMac1, VerifyMac2, CookieReply;
    Mac1Verifies(NewGenerator(g.publicKey), 0, Blank(), g.publicKey);
    Mac2Verifies(NewGenerator(g.publicKey), 0, Blank(), Raws(SourceBytes(SOMEWHERE)), g.secret);
  }

  lemma OneMore(g: GuardState, clock: nat, e: Event, rest: seq<Event>, from: nat)
    requires ValidEvent(e) && e.Arrive? && clock <= e.now
    requires Since(e.now, g.windowStart) >= SECOND || g.handshakes + 1 < U32_LIMIT
    requires ValidRun(Step(g, e), e.now, rest)
    ensures ValidRun(g, clock, [e] + rest)
    ensures Credits(g, clock, [e] + rest, from) == (if OnCredit(g, e, from) then 1 else 0) + Credits(Step(g, e), e.now, rest, from)
  {
    hide OnCredit, Step;
    assert ([e] + rest)[1..] == rest;
  }

  /** A burst inside one window, up to the rate, all on credit. */
  lemma {:induction false} Burst(g: GuardState, clock: nat, now: nat, n: nat, rest: seq<Event>, from: nat)
    requires clock <= now && from <= now < from + SECOND && Since(now, g.windowStart) < SECOND
    requires g.handshakes + n <= g.maxPerSecond < U32_LIMIT
    requires ValidRun(g.(handshakes := g.handshakes + n), if n == 0 then clock else now, rest)
    ensures var events := Copies(Knock(g.publicKey, now), n) + rest;
            && ValidRun(g, clock, events)
            && Credits(g, clock, events, from) ==
               n + Credits(g.(handshakes := g.handshakes + n), if n == 0 then clock else now, rest, from)
    decreases n
  {
    hide Knock, OnCredit, GuardState.Check, Step, ValidRun, Credits;
    var e := Knock(g.publicKey, now);
    if n == 0 {
      assert Copies(e, 0) + rest == rest;
    } else {
      assert e.Arrive? && e.now == now && ValidEvent(e) by { KnockIsValid(g.publicKey, now); }
      KnockCounts(g, now, from);
      Burst(g.Counted(now), now, now, n - 1, rest, from);
      assert Copies(e, n) + rest == [e] + (Copies(e, n - 1) + rest);
      OneMore(g, clock, e, Copies(e, n - 1) + rest, from);
    }
  }

  lemma KnockIsValid(publicKey: Term, now: nat)
    ensures var e := Knock(publicKey, now); e.Arrive? && e.now == now && ValidEvent(e)
  {
  }

  /** A full window's worth on credit, from a message that opens the window. */
  lemma FullWindow(g: GuardState, clock: nat, now: nat, from: nat) returns (events: seq<Event>)
    requires clock <= now && from <= now < from + SECOND && Since(now, g.windowStart) >= SECOND
    requires 0 < g.maxPerSecond < U32_LIMIT
    ensures ValidRun(g, clock, events) && Credits(g, clock, events, from) == g.maxPerSecond
  {
    hide Knock, OnCredit, GuardState.Check, Step;
    var e := Knock(g.publicKey, now);
    KnockIsValid(g.publicKey, now);
    KnockCounts(g, now, from);
    var begun := g.Counted(now);
    Burst(begun, now, now, g.maxPerSecond - 1, [], from);
    var tail := Copies(e, g.maxPerSecond - 1) + [];
    events := [e] + tail;
    OneMore(g, clock, e, tail, from);
  }

  /** What is left of a window that reaches into the interval, then a full one. */
  lemma RestThenFull(g: GuardState, clock: nat, from: nat) returns (events: seq<Event>)
    requires clock <= from && g.windowStart < from < g.windowStart + SECOND
    requires g.handshakes <= g.maxPerSecond && 0 < g.maxPerSecond < U32_LIMIT
    ensures ValidRun(g, clock, events)
    ensures Credits(g, clock, events, from) == (g.maxPerSecond - g.handshakes) + g.maxPerSecond
  {
    hide Knock, OnCredit, GuardState.Check, Step, ValidRun, Credits;
    var left := g.maxPerSecond - g.handshakes;
    var full := FullWindow(g.(handshakes := g.maxPerSecond), if left == 0 then clock else from, g.windowStart + SECOND, from);
    Burst(g, clock, from, left, full, from);
    events := Copies(Knock(g.publicKey, from), left) + full;
  }

  /** When the configured rate holds. From any state of a guard, the second that
      starts now admits no more than the rate, whatever arrives, if and only if
      the rate is zero, the window is over, it starts now, or it is used up. */
  lemma RateHoldsExactly(g: GuardState, from: nat)
    requires g.windowStart <= from && g.handshakes < U32_LIMIT && g.maxPerSecond < U32_LIMIT
    ensures (forall events | ValidRun(g, from, events) :: Credits(g, from, events, from) <= g.maxPerSecond) <==>
            (|| g.maxPerSecond == 0 || Since(from, g.windowStart) >= SECOND
             || g.windowStart == from || g.handshakes >= g.maxPerSecond)
  {
    hide ValidRun, Credits, GuardState.Check;
    if g.maxPerSecond == 0 || Since(from, g.windowStart) >= SECOND || g.windowStart == from || g.handshakes >= g.maxPerSecond {
      forall events | ValidRun(g, from, events) ensures Credits(g, from, events, from) <= g.maxPerSecond {
        CreditsFitRoom(g, from, events, from);
      }
    } else {
      var events := RestThenFull(g, from, from);
      assert ValidRun(g, from, events) && Credits(g, from, events, from) > g.maxPerSecond;
    }
  }

  /** The most a new guard admits in the second from `from`. Its first window is
      opened by no message, so only intervals inside the first second can see
      twice the rate; every later window costs one place to open. */
  function Most(maxPerSecond: nat, from: nat): nat {
    if maxPerSecond == 0 then 0
    else if from == 0 || from == SECOND then maxPerSecond
    else if from < SECOND then 2 * maxPerSecond
    else 2 * maxPerSecond - 1
  }

  /** The exact rate of a new guard: in every half-open second, over every run
      with secrets rotated at will, no more than `Most` is processed without a
      valid mac2, and some run reaches it. */
  lemma RateBound(publicKey: Term, secret: Term, maxPerSecond: nat, from: nat)
    requires maxPerSecond < U32_LIMIT
    ensures var g := GuardState(publicKey, secret, 0, 0, maxPerSecond);
            && (forall events | ValidRun(g, 0, events) :: Credits(g, 0, events, from) <= Most(maxPerSecond, from))
            && (exists events :: ValidRun(g, 0, events) && Credits(g, 0, events, from) == Most(maxPerSecond, from))
  {
    hide GuardState.Check;
    var g := GuardState(publicKey, secret, 0, 0, maxPerSecond);
    forall events | ValidRun(g, 0, events) ensures Credits(g, 0, events, from) <= Most(maxPerSecond, from) {
      CreditsFitRoom(g, 0, events, from);
    }
    var events := MostReached(g, from);
  }

  lemma MostReached(g: GuardState, from: nat) returns (events: seq<Event>)
    requires g.windowStart == 0 && g.handshakes == 0 && g.maxPerSecond < U32_LIMIT
    ensures ValidRun(g, 0, events) && Credits(g, 0, events, from) == Most(g.maxPerSecond, from)
  {
    hide Knock, OnCredit, GuardState.Check, Step, GuardState.Counted;
    if g.maxPerSecond == 0 {
      events := [];
    } else if from == 0 {
      Burst(g, 0, 0, g.maxPerSecond, [], 0);
      events := Copies(Knock(g.publicKey, 0), g.maxPerSecond) + [];
    } else if from == SECOND {
      events := FullWindow(g, 0, SECOND, from);
    } else if from < SECOND {
      events := RestThenFull(g, 0, from);
    } else {
      events := OpenedThenFull(g, from);
    }
  }

  /** A message just before the interval opens the window that reaches into it. */
  lemma OpenedThenFull(g: GuardState, from: nat) returns (events: seq<Event>)
    requires g.windowStart + SECOND < from && 0 < g.maxPerSecond < U32_LIMIT
    ensures ValidRun(g, 0, events) && Credits(g, 0, events, from) == 2 * g.maxPerSecond - 1
  {
    hide Knock, OnCredit, GuardState.Check, Step, ValidRun, Credits;
    var before := from - 1;
    var e := Knock(g.publicKey, before);
    KnockIsValid(g.publicKey, before);
    KnockCounts(g, before, before);
    var begun := g.Counted(before);
    var rest := RestThenFull(begun, before, from);
    assert !OnCredit(g, e, from) by { EarlyIsNotOnCredit(g, e, from); }
    OneMore(g, 0, e, rest, from);
    events := [e] + rest;
  }

  lemma EarlyIsNotOnCredit(g: GuardState, e: Event, from: nat)
    requires ValidEvent(e) && e.Arrive? && e.now < from
    ensures !OnCredit(g, e, from)
  {
  }
}
