/** Handshake MACs and cookie replies, on message octets. */
module Cookies {
  import opened Wrappers
  import opened Crypto
  import opened Timing
  import H = Handshake

  const MAC_SIZE: nat := 16
  const COOKIE_REPLY_LENGTH: nat := 64
  const COOKIE_REFRESH_INTERVAL: nat := 120 * SECOND

  const LABEL_MAC_1 := Label("mac1----")
  const LABEL_COOKIE := Label("cookie--")

  datatype CookieError = InvalidCookie

  // ---------- message shapes ----------

  function TypeOctets(kind: byte): seq<Octet> {
    [Raw(kind), Raw(0), Raw(0), Raw(0)]
  }

  /** A well-formed initiation or response: type, reserved octets and exact length. */
  predicate IsHandshake(msg: seq<Octet>) {
    || (|msg| == H.INIT_MSG_LENGTH && msg[..4] == TypeOctets(1))
    || (|msg| == H.RESP_MSG_LENGTH && msg[..4] == TypeOctets(2))
  }

  predicate IsCookieReply(msg: seq<Octet>) {
    |msg| == COOKIE_REPLY_LENGTH && msg[..4] == TypeOctets(3)
  }

  function Mac1Offset(len: nat): nat
    requires len >= 2 * MAC_SIZE
  {
    len - 2 * MAC_SIZE
  }

  function Mac2Offset(len: nat): nat
    requires len >= MAC_SIZE
  {
    len - MAC_SIZE
  }

  /** A sixteen-octet keyed MAC. */
  function MacOf(key: Term, input: seq<Octet>): (s: seq<Octet>)
    ensures |s| == MAC_SIZE
  {
    Block(Mac(key, Octets(input)), MAC_SIZE)
  }

  lemma MacInjective(key: Term, input: seq<Octet>, key': Term, input': seq<Octet>)
    ensures MacOf(key, input) == MacOf(key', input') <==> key == key' && input == input'
  {
    BlockInjective(Mac(key, Octets(input)), Mac(key', Octets(input')), MAC_SIZE);
  }

  function Mac1Key(publicKey: Term): Term {
    Hash(LABEL_MAC_1, publicKey)
  }

  function CookieKey(publicKey: Term): Term {
    Hash(LABEL_COOKIE, publicKey)
  }

  // ---------- the verifier ----------

  predicate VerifyMac1(publicKey: Term, msg: seq<Octet>) {
    && |msg| >= 2 * MAC_SIZE
    && MacOf(Mac1Key(publicKey), msg[..Mac1Offset(|msg|)]) == msg[Mac1Offset(|msg|)..Mac2Offset(|msg|)]
  }

  /** The cookie a source address should present under a secret. */
  function Cookie(source: seq<Octet>, secret: Term): (c: seq<Octet>)
    ensures |c| == MAC_SIZE
  {
    MacOf(secret, source)
  }

  predicate VerifyMac2(msg: seq<Octet>, source: seq<Octet>, secret: Term) {
    && |msg| >= 2 * MAC_SIZE
    && MacOf(Octets(Cookie(source, secret)), msg[..Mac2Offset(|msg|)]) == msg[Mac2Offset(|msg|)..]
  }

  function XSeal(key: Term, nonce: seq<Octet>, ad: seq<Octet>, plain: seq<Octet>): (s: seq<Octet>)
    ensures |s| == |plain| + AEAD_TAG_SIZE
  {
    Block(XSealed(key, Octets(nonce), Octets(ad), Octets(plain)), |plain| + AEAD_TAG_SIZE)
  }

  function XOpen(key: Term, nonce: seq<Octet>, ad: seq<Octet>, data: seq<Octet>): Option<seq<Octet>> {
    if |data| < AEAD_TAG_SIZE || !data[0].Cell? || !data[0].block.XSealed? || !data[0].block.plain.Octets? then None
    else
      var plain := data[0].block.plain.octets;
      if data == XSeal(key, nonce, ad, plain) then Some(plain) else None
  }

  lemma XOpenOfXSeal(key: Term, nonce: seq<Octet>, ad: seq<Octet>, key': Term, nonce': seq<Octet>, ad': seq<Octet>, plain: seq<Octet>)
    ensures XOpen(key, nonce, ad, XSeal(key', nonce', ad', plain)) ==
            if key == key' && nonce == nonce' && ad == ad' then Some(plain) else None
  {
    var t' := XSealed(key', Octets(nonce'), Octets(ad'), Octets(plain));
    assert XSeal(key', nonce', ad', plain)[0] == Cell(t', 0);
    BlockInjective(XSealed(key, Octets(nonce), Octets(ad), Octets(plain)), t', |plain| + AEAD_TAG_SIZE);
  }

  /** The reply to a handshake: its sender index, a nonce, and the source's
      cookie sealed to the handshake's own mac1. */
  function CookieReply(publicKey: Term, prompting: seq<Octet>, source: seq<Octet>, secret: Term, nonce: seq<Octet>)
    : (r: Result<seq<Octet>, CookieError>)
    requires |nonce| == 24
    ensures r.Ok? <==> IsHandshake(prompting)
    ensures r.Ok? ==> IsCookieReply(r.value)
  {
    if !IsHandshake(prompting) then Err(InvalidCookie)
    else
      var mac1 := prompting[Mac1Offset(|prompting|)..Mac2Offset(|prompting|)];
      Ok(TypeOctets(3) + prompting[4..8] + nonce + XSeal(CookieKey(publicKey), nonce, mac1, Cookie(source, secret)))
  }

  // ---------- the generator ----------

  datatype LastCookie = LastCookie(received: nat, cookie: seq<Octet>)

  datatype GeneratorState = GeneratorState(publicKey: Term, lastCookie: Option<LastCookie>, lastSentMac1: Option<seq<Octet>>) {

    /** A cookie young enough to use at this time. */
    predicate Fresh(now: nat) {
      lastCookie.Some? && Since(now, lastCookie.value.received) <= COOKIE_REFRESH_INTERVAL
    }

    /** Fills in the trailing MAC fields: mac1 always, mac2 when a fresh cookie is held. */
    function AddMacs(now: nat, msg: seq<Octet>): (r: (GeneratorState, seq<Octet>))
      requires IsHandshake(msg)
      ensures |r.1| == |msg| && r.1[..Mac1Offset(|msg|)] == msg[..Mac1Offset(|msg|)] && IsHandshake(r.1)
      ensures r.0.publicKey == publicKey && r.0.lastCookie == lastCookie
    {
      var body := msg[..Mac1Offset(|msg|)];
      var mac1 := MacOf(Mac1Key(publicKey), body);
      var mac2 := if Fresh(now) then MacOf(Octets(lastCookie.value.cookie), body + mac1) else seq(MAC_SIZE, _ => Raw(0));
      var out := body + mac1 + mac2;
      assert out[..4] == msg[..4];
      (this.(lastSentMac1 := Some(mac1)), out)
    }

    /** Opens a reply against the mac1 of the last handshake sent. */
    function ProcessReply(reply: seq<Octet>, now: nat): (GeneratorState, Result<(), CookieError>) {
      if !IsCookieReply(reply) || lastSentMac1.None? then (this, Err(InvalidCookie))
      else
        var cookie := XOpen(CookieKey(publicKey), reply[8..32], lastSentMac1.value, reply[32..64]);
        if cookie.None? then (this, Err(InvalidCookie))
        else (this.(lastCookie := Some(LastCookie(now, cookie.value))), Ok(()))
    }
  }

  function NewGenerator(publicKey: Term): GeneratorState {
    GeneratorState(publicKey, None, None)
  }

  /** The generator in place, writing the MAC fields of a message buffer. */
  class Generator {
    const publicKey: Term
    var lastCookie: Option<LastCookie>
    var lastSentMac1: Option<seq<Octet>>

    ghost function View(): GeneratorState
      reads this
    {
      GeneratorState(publicKey, lastCookie, lastSentMac1)
    }

    constructor (publicKey: Term)
      ensures View() == NewGenerator(publicKey)
    {
      this.publicKey, lastCookie, lastSentMac1 := publicKey, None, None;
    }

    /** Works on the first `len` octets of the buffer, which hold the message. */
    method AddMacs(now: nat, buf: array<Octet>, len: nat) returns (r: Result<(), CookieError>)
      requires len <= buf.Length
      modifies this`lastSentMac1, buf
      ensures r.Ok? <==> IsHandshake(old(buf[..len]))
      ensures r.Err? ==> View() == old(View()) && buf[..] == old(buf[..])
      ensures r.Ok? ==>
                (View(), buf[..len]) == old(View()).AddMacs(now, old(buf[..len])) && buf[len..] == old(buf[len..])
    {
      hide MacOf;
      if !IsHandshake(buf[..len]) {
        return Err(InvalidCookie);
      }
      var m1, m2 := Mac1Offset(len), Mac2Offset(len);
      ghost var body, tail := buf[..m1], buf[len..];
      assert buf[..len][..m1] == body;
      var mac1 := MacOf(Mac1Key(publicKey), buf[..m1]);
      Write(buf, m1, mac1);
      Write(buf, m2, seq(MAC_SIZE, _ => Raw(0)));
      assert buf[..] == body + mac1 + seq(MAC_SIZE, _ => Raw(0)) + tail;
      assert buf[..m2] == body + mac1;
      if lastCookie.Some? && Since(now, lastCookie.value.received) <= COOKIE_REFRESH_INTERVAL {
        var mac2 := MacOf(Octets(lastCookie.value.cookie), buf[..m2]);
        Write(buf, m2, mac2);
        assert buf[..] == body + mac1 + mac2 + tail;
        assert buf[..len] == body + mac1 + mac2;
      } else {
        assert buf[..len] == body + mac1 + seq(MAC_SIZE, _ => Raw(0));
      }
      lastSentMac1 := Some(mac1);
      return Ok(());
    }

    method ProcessReply(reply: seq<Octet>, now: nat) returns (r: Result<(), CookieError>)
      modifies this`lastCookie
      ensures (View(), r) == old(View()).ProcessReply(reply, now)
    {
      if !IsCookieReply(reply) || lastSentMac1.None? {
        return Err(InvalidCookie);
      }
      var cookie := XOpen(CookieKey(publicKey), reply[8..32], lastSentMac1.value, reply[32..64]);
      if cookie.None? {
        return Err(InvalidCookie);
      }
      lastCookie := Some(LastCookie(now, cookie.value));
      return Ok(());
    }
  }

  // ---------- what the two ends agree on ----------

  lemma AddedMacFields(g: GeneratorState, now: nat, msg: seq<Octet>)
    requires IsHandshake(msg)
    ensures var out := g.AddMacs(now, msg).1;
            var body := msg[..Mac1Offset(|msg|)];
            var mac1 := MacOf(Mac1Key(g.publicKey), body);
            && out[..Mac1Offset(|out|)] == body
            && out[Mac1Offset(|out|)..Mac2Offset(|out|)] == mac1
            && out[..Mac2Offset(|out|)] == body + mac1
            && out[Mac2Offset(|out|)..] ==
               if g.Fresh(now) then MacOf(Octets(g.lastCookie.value.cookie), body + mac1) else seq(MAC_SIZE, _ => Raw(0))
  {
  }

  /** A generated mac1 verifies at the addressee and nowhere else. */
  lemma Mac1Verifies(g: GeneratorState, now: nat, msg: seq<Octet>, publicKey: Term)
    requires IsHandshake(msg)
    ensures VerifyMac1(publicKey, g.AddMacs(now, msg).1) <==> publicKey == g.publicKey
  {
    hide MacOf, GeneratorState.AddMacs;
    AddedMacFields(g, now, msg);
    var body := msg[..Mac1Offset(|msg|)];
    MacInjective(Mac1Key(publicKey), body, Mac1Key(g.publicKey), body);
  }

  /** A generated mac2 verifies for exactly the source and secret behind a fresh stored cookie. */
  lemma Mac2Verifies(g: GeneratorState, now: nat, msg: seq<Octet>, source: seq<Octet>, secret: Term)
    requires IsHandshake(msg)
    ensures VerifyMac2(g.AddMacs(now, msg).1, source, secret) <==>
            g.Fresh(now) && g.lastCookie.value.cookie == Cookie(source, secret)
  {
    hide GeneratorState.AddMacs;
    AddedMacFields(g, now, msg);
    var out := g.AddMacs(now, msg).1;
    var signed := out[..Mac2Offset(|out|)];
    if g.Fresh(now) {
      MacInjective(Octets(Cookie(source, secret)), signed, Octets(g.lastCookie.value.cookie), signed);
    } else {
      assert MacOf(Octets(Cookie(source, secret)), signed)[0].Cell?;
      assert out[Mac2Offset(|out|)..][0] == Raw(0);
    }
  }

  /** A reply is accepted exactly when it answers the mac1 sent last, under the
      right responder key; an accepted one stores the source's cookie, a
      rejected one changes nothing. */
  lemma ReplyAccepted(g: GeneratorState, now: nat, responder: Term, prompting: seq<Octet>, source: seq<Octet>, secret: Term,
                      nonce: seq<Octet>)
    requires |nonce| == 24 && IsHandshake(prompting)
    ensures var reply := CookieReply(responder, prompting, source, secret, nonce).value;
            var mac1 := prompting[Mac1Offset(|prompting|)..Mac2Offset(|prompting|)];
            var (g', r) := g.ProcessReply(reply, now);
            && (r.Ok? <==> g.publicKey == responder && g.lastSentMac1 == Some(mac1))
            && (r.Ok? ==> g' == g.(lastCookie := Some(LastCookie(now, Cookie(source, secret)))))
            && (r.Err? ==> g' == g)
  {
    hide XSeal, XOpen, MacOf;
    var reply := CookieReply(responder, prompting, source, secret, nonce).value;
    var mac1 := prompting[Mac1Offset(|prompting|)..Mac2Offset(|prompting|)];
    var sealedCookie := XSeal(CookieKey(responder), nonce, mac1, Cookie(source, secret));
    assert reply[8..32] == nonce && reply[32..64] == sealedCookie;
    if g.lastSentMac1.Some? {
      XOpenOfXSeal(CookieKey(g.publicKey), nonce, g.lastSentMac1.value, CookieKey(responder), nonce, mac1, Cookie(source, secret));
    }
  }

  /** Sends a list of handshake messages one after another. */
  function SendMany(g: GeneratorState, sends: seq<(nat, seq<Octet>)>): GeneratorState
    requires forall s | s in sends :: IsHandshake(s.1)
    decreases |sends|
  {
    if sends == [] then g else SendMany(g.AddMacs(sends[0].0, sends[0].1).0, sends[1..])
  }

  lemma {:induction false} SendingKeepsCookie(g: GeneratorState, sends: seq<(nat, seq<Octet>)>)
    requires forall s | s in sends :: IsHandshake(s.1)
    ensures SendMany(g, sends).lastCookie == g.lastCookie && SendMany(g, sends).publicKey == g.publicKey
    decreases |sends|
  {
    hide GeneratorState.AddMacs;
    if sends != [] {
      SendingKeepsCookie(g.AddMacs(sends[0].0, sends[0].1).0, sends[1..]);
    }
  }

  /** The cookie round trip. A handshake is sent, its recipient answers with a
      cookie, the reply is processed: from then on every handshake sent within
      the refresh interval carries a mac2 that verifies for that source under
      that secret, and under no other source or secret, however many were sent
      in between. */
  lemma CookieRoundTrip(g: GeneratorState, sentAt: nat, msg: seq<Octet>, source: seq<Octet>, secret: Term, nonce: seq<Octet>,
                        repliedAt: nat, between: seq<(nat, seq<Octet>)>, now: nat, later: seq<Octet>,
                        source': seq<Octet>, secret': Term)
    requires |nonce| == 24 && IsHandshake(msg) && IsHandshake(later)
    requires forall s | s in between :: IsHandshake(s.1)
    ensures var (g1, wire) := g.AddMacs(sentAt, msg);
            var reply := CookieReply(g.publicKey, wire, source, secret, nonce);
            && reply.Ok?
            && var (g2, accepted) := g1.ProcessReply(reply.value, repliedAt);
               && accepted.Ok?
               && var out := SendMany(g2, between).AddMacs(now, later).1;
                  VerifyMac2(out, source', secret') <==>
                  Since(now, repliedAt) <= COOKIE_REFRESH_INTERVAL && source' == source && secret' == secret
  {
    hide GeneratorState.AddMacs, CookieReply, GeneratorState.ProcessReply, MacOf, SendMany, VerifyMac2;
    var (g1, wire) := g.AddMacs(sentAt, msg);
    AddedMacFields(g, sentAt, msg);
    LastSent(g, sentAt, msg);
    ReplyAccepted(g1, repliedAt, g.publicKey, wire, source, secret, nonce);
    var reply := CookieReply(g.publicKey, wire, source, secret, nonce).value;
    var g2 := g1.ProcessReply(reply, repliedAt).0;
    SendingKeepsCookie(g2, between);
    Mac2Verifies(SendMany(g2, between), now, later, source', secret');
    MacInjective(secret, source, secret', source');
  }

  lemma LastSent(g: GeneratorState, now: nat, msg: seq<Octet>)
    requires IsHandshake(msg)
    ensures g.AddMacs(now, msg).0.lastSentMac1 == Some(MacOf(Mac1Key(g.publicKey), msg[..Mac1Offset(|msg|)]))
  {
  }
}
