/** The Noise IKpsk2 handshake, from initiation to transport keys. Messages are
    records of their fields; key material and hashes are symbolic terms. */
module Handshake {
  import opened Wrappers
  import opened Crypto

  const CONSTRUCTION := Label("Noise_IKpsk2_25519_ChaChaPoly_BLAKE2s")
  const IDENTIFIER := Label("WireGuard v1 zx2c4 Jason@zx2c4.com")
  const NO_PSK := Label("all-zero preshared key")

  datatype InitMsg = InitMsg(sender: nat, ephemeral: Term, sealedStatic: Term, sealedTimestamp: Term)

  datatype RespMsg = RespMsg(sender: nat, receiver: nat, ephemeral: Term, sealedEmpty: Term)

  /** Initiator, awaiting the response. */
  datatype InitSent = InitSent(index: nat, ephemeralSecret: nat, constr: Term, h: Term)

  /** Responder, holding a valid initiation. */
  datatype InitReceived = InitReceived(
    peerPublic: Term, ephemeral: Term, index: nat, timestamp: nat, constr: Term, h: Term)

  /** Either side, ready to derive transport keys. */
  datatype Established = Established(ourIndex: nat, peerIndex: nat, constr: Term)

  const INIT_MSG_LENGTH: nat := 148
  const RESP_MSG_LENGTH: nat := 92

  datatype TransportKeys = TransportKeys(ourIndex: nat, peerIndex: nat, recvKey: Term, sendKey: Term)

  function PskTerm(psk: Option<Term>): Term {
    if psk.Some? then psk.value else NO_PSK
  }

  /** Opens a sealed handshake field. */
  function OpenField(key: Term, ad: Term, field: Term): Option<Term> {
    if field.Sealed? && field.key == key && field.nonce == 0 && field.ad == ad then Some(field.plain) else None
  }

  function Initiate(ourSecret: nat, peerPublic: Term, sender: nat, ephemeral: nat, timestamp: nat)
    : Option<(InitSent, InitMsg)>
  {
    var e := Point(ephemeral);
    var c1, h1 := Tau1(CONSTRUCTION, e), Hash(Hash(IDENTIFIER, peerPublic), e);
    var es := DiffieHellman(ephemeral, peerPublic);
    if !Contributory(es) then None else
    var sealedStatic := Sealed(Tau2(c1, es), 0, h1, Point(ourSecret));
    var c2, h2 := Tau1(c1, es), Hash(h1, sealedStatic);
    var ss := DiffieHellman(ourSecret, peerPublic);
    var sealedTimestamp := Sealed(Tau2(c2, ss), 0, h2, Number(timestamp));
    Some((InitSent(sender, ephemeral, Tau1(c2, ss), Hash(h2, sealedTimestamp)),
          InitMsg(sender, e, sealedStatic, sealedTimestamp)))
  }

  function Receive(ourSecret: nat, msg: InitMsg): Option<InitReceived> {
    var e := msg.ephemeral;
    var c1, h1 := Tau1(CONSTRUCTION, e), Hash(Hash(IDENTIFIER, Point(ourSecret)), e);
    var es := DiffieHellman(ourSecret, e);
    if !Contributory(es) then None else
    var peerPublic := OpenField(Tau2(c1, es), h1, msg.sealedStatic);
    if peerPublic.None? then None else
    var c2, h2 := Tau1(c1, es), Hash(h1, msg.sealedStatic);
    var ss := DiffieHellman(ourSecret, peerPublic.value);
    if !Contributory(ss) then None else
    var timestamp := OpenField(Tau2(c2, ss), h2, msg.sealedTimestamp);
    if timestamp.None? || !timestamp.value.Number? then None else
    Some(InitReceived(peerPublic.value, e, msg.sender, timestamp.value.n,
                      Tau1(c2, ss), Hash(h2, msg.sealedTimestamp)))
  }

  function Respond(received: InitReceived, index: nat, ephemeral: nat, psk: Option<Term>): (RespMsg, Established) {
    var e := Point(ephemeral);
    var c1, h1 := Tau1(received.constr, e), Hash(received.h, e);
    var c2 := Tau1(c1, DiffieHellman(ephemeral, received.ephemeral));
    var c3 := Tau1(c2, DiffieHellman(ephemeral, received.peerPublic));
    var h2 := Hash(h1, Tau2(c3, PskTerm(psk)));
    (RespMsg(index, received.index, e, Sealed(Tau3(c3, PskTerm(psk)), 0, h2, EMPTY)),
     Established(index, received.index, Tau1(c3, PskTerm(psk))))
  }

  function ResponseReceived(sent: InitSent, ourSecret: nat, psk: Option<Term>, msg: RespMsg): Option<Established> {
    if msg.receiver != sent.index then None else
    var e := msg.ephemeral;
    var c1, h1 := Tau1(sent.constr, e), Hash(sent.h, e);
    var ee := DiffieHellman(sent.ephemeralSecret, e);
    if !Contributory(ee) then None else
    var c2 := Tau1(c1, ee);
    var c3 := Tau1(c2, DiffieHellman(ourSecret, e));
    var h2 := Hash(h1, Tau2(c3, PskTerm(psk)));
    if OpenField(Tau3(c3, PskTerm(psk)), h2, msg.sealedEmpty).None? then None else
    Some(Established(sent.index, msg.sender, Tau1(c3, PskTerm(psk))))
  }

  function FinishResponder(e: Established): TransportKeys {
    TransportKeys(e.ourIndex, e.peerIndex, Tau1(e.constr, EMPTY), Tau2(e.constr, EMPTY))
  }

  function FinishInitiator(e: Established): TransportKeys {
    TransportKeys(e.ourIndex, e.peerIndex, Tau2(e.constr, EMPTY), Tau1(e.constr, EMPTY))
  }

  /** The two ends of one session: what one seals the other opens, and each addresses the other's index. */
  predicate Mirror(a: TransportKeys, b: TransportKeys) {
    && a.sendKey == b.recvKey && a.recvKey == b.sendKey
    && a.ourIndex == b.peerIndex && a.peerIndex == b.ourIndex
  }

  /** What an initiation shows in the clear. */
  lemma InitiationFields(ourSecret: nat, peerKey: Term, sender: nat, ephemeral: nat, timestamp: nat)
    ensures var init := Initiate(ourSecret, peerKey, sender, ephemeral, timestamp);
            init.Some? ==> init.value.1.sender == sender && init.value.1.ephemeral == Point(ephemeral)
  {
  }

  /** Initiations fail exactly toward a low-order peer key; toward an honest key
      the addressee, and only the addressee, recovers the initiator's key and
      timestamp and lands on the initiator's chaining key and hash. */
  lemma InitiationRead(ourSecret: nat, peerSecret: nat, sender: nat, ephemeral: nat, timestamp: nat, reader: nat)
    ensures var init := Initiate(ourSecret, Point(peerSecret), sender, ephemeral, timestamp);
            && init.Some?
            && Receive(reader, init.value.1) ==
               if reader == peerSecret
               then Some(InitReceived(Point(ourSecret), Point(ephemeral), sender, timestamp,
                                      init.value.0.constr, init.value.0.h))
               else None
    ensures forall peer: Term :: Initiate(ourSecret, peer, sender, ephemeral, timestamp).None? <==> peer == LowOrder
  {
    DiffieHellmanAgrees(ephemeral, peerSecret, peerSecret, ephemeral);
    DiffieHellmanAgrees(ourSecret, peerSecret, peerSecret, ourSecret);
  }

  /** A pending initiation accepts a response exactly when the response answers
      that very initiation under the same preshared key and is read with the
      static secret that made it; both ends then hold the same chaining key and
      crossed indices. */
  lemma ResponseRead(ourSecret: nat, peerSecret: nat, sender: nat, ephemeral: nat, timestamp: nat, psk: Option<Term>,
                     ourSecret': nat, peerSecret': nat, sender': nat, ephemeral': nat, timestamp': nat,
                     index: nat, answer: nat, psk': Option<Term>, reader: nat)
    ensures var sent := Initiate(ourSecret, Point(peerSecret), sender, ephemeral, timestamp).value.0;
            var other := Initiate(ourSecret', Point(peerSecret'), sender', ephemeral', timestamp').value.0;
            var received := InitReceived(Point(ourSecret'), Point(ephemeral'), sender', timestamp', other.constr, other.h);
            var (msg, responder) := Respond(received, index, answer, psk');
            ResponseReceived(sent, reader, psk, msg) ==
            if reader == ourSecret && ourSecret == ourSecret' && peerSecret == peerSecret' && sender == sender'
               && ephemeral == ephemeral' && timestamp == timestamp' && PskTerm(psk) == PskTerm(psk')
            then Some(Established(sender, index, responder.constr)) else None
  {
    DiffieHellmanAgrees(ephemeral, answer, answer, ephemeral);
    DiffieHellmanAgrees(reader, answer, answer, ourSecret');
  }

  /** For all keys, indices, timestamps and preshared keys the four messages
      compose: both ends finish with mirrored transport keys, and no other static
      secret completes the handshake. */
  lemma HandshakeAgreement(ourSecret: nat, peerSecret: nat, sender: nat, ephemeral: nat, timestamp: nat,
                           index: nat, answer: nat, psk: Option<Term>, reader: nat)
    ensures var (sent, init) := Initiate(ourSecret, Point(peerSecret), sender, ephemeral, timestamp).value;
            var received := Receive(peerSecret, init);
            && received.Some? && received.value.peerPublic == Point(ourSecret) && received.value.timestamp == timestamp
            && var (resp, responder) := Respond(received.value, index, answer, psk);
               var initiator := ResponseReceived(sent, ourSecret, psk, resp);
               && initiator.Some? && initiator.value.constr == responder.constr
               && Mirror(FinishInitiator(initiator.value), FinishResponder(responder))
               && FinishInitiator(initiator.value).sendKey != FinishInitiator(initiator.value).recvKey
               && (ResponseReceived(sent, reader, psk, resp).Some? <==> reader == ourSecret)
  {
    InitiationRead(ourSecret, peerSecret, sender, ephemeral, timestamp, peerSecret);
    ResponseRead(ourSecret, peerSecret, sender, ephemeral, timestamp, psk,
                 ourSecret, peerSecret, sender, ephemeral, timestamp, index, answer, psk, ourSecret);
    ResponseRead(ourSecret, peerSecret, sender, ephemeral, timestamp, psk,
                 ourSecret, peerSecret, sender, ephemeral, timestamp, index, answer, psk, reader);
  }

  /** The session chaining key of a responder determines its ephemeral secret and the initiation it answers. */
  lemma ChainDeterminesHandshake(r: InitReceived, answer: nat, psk: Option<Term>,
                                 r': InitReceived, answer': nat, psk': Option<Term>)
    requires Respond(r, 0, answer, psk).1.constr == Respond(r', 0, answer', psk').1.constr
    ensures answer == answer' && r.constr == r'.constr && PskTerm(psk) == PskTerm(psk')
  {
  }
}
