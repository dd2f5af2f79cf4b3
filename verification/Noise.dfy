/** The Noise protocol framework, revision 34: symmetric state, message tokens
    and the IKpsk2 pattern, as an independent reference for the handshake. */
module Noise {
  import opened Wrappers
  import opened Crypto
  import H = Handshake

  /** Section 5.2: chaining key, transcript hash and the key last mixed. */
  datatype Symmetric = Symmetric(ck: Term, h: Term, k: Term) {
    function MixHash(data: Term): Symmetric {
      this.(h := Hash(h, data))
    }

    function MixKey(input: Term): Symmetric {
      this.(ck := KdfOutput(ck, input, 0), k := KdfOutput(ck, input, 1))
    }

    function MixKeyAndHash(input: Term): Symmetric {
      this.(ck := KdfOutput(ck, input, 0), k := KdfOutput(ck, input, 2)).MixHash(KdfOutput(ck, input, 1))
    }

    /** The ciphertext and the state it is mixed into. A key is used once, at nonce zero. */
    function EncryptAndHash(plain: Term): (Symmetric, Term) {
      var c := Sealed(k, 0, h, plain);
      (MixHash(c), c)
    }

    /** The key of each direction: first the initiator's, then the responder's. */
    function Split(): (Term, Term) {
      (KdfOutput(ck, EMPTY, 0), KdfOutput(ck, EMPTY, 1))
    }
  }

  /** Section 5.3: tokens of a message pattern. */
  datatype Token = E | S | EE | ES | SE | SS | Psk

  /** What a party holds: its static and ephemeral secrets, the other's public keys. */
  datatype Keys = Keys(initiator: bool, s: nat, e: nat, rs: Term, re: Term, psk: Term)

  /** One token of a message being written: the new state and what is put on the wire. */
  function WriteToken(st: Symmetric, keys: Keys, token: Token): (Symmetric, seq<Term>) {
    match token
    case E => (st.MixHash(Point(keys.e)).MixKey(Point(keys.e)), [Point(keys.e)])  // section 9.2: also mixed as a key
    case S => var (st', c) := st.EncryptAndHash(Point(keys.s)); (st', [c])
    case EE => (st.MixKey(DiffieHellman(keys.e, keys.re)), [])
    case ES => (st.MixKey(if keys.initiator then DiffieHellman(keys.e, keys.rs) else DiffieHellman(keys.s, keys.re)), [])
    case SE => (st.MixKey(if keys.initiator then DiffieHellman(keys.s, keys.re) else DiffieHellman(keys.e, keys.rs)), [])
    case SS => (st.MixKey(DiffieHellman(keys.s, keys.rs)), [])
    case Psk => (st.MixKeyAndHash(keys.psk), [])
  }

  function WriteTokens(st: Symmetric, keys: Keys, tokens: seq<Token>): (Symmetric, seq<Term>)
    decreases |tokens|
  {
    if tokens == [] then (st, [])
    else
      var (st1, out) := WriteToken(st, keys, tokens[0]);
      var (st2, rest) := WriteTokens(st1, keys, tokens[1..]);
      (st2, out + rest)
  }

  /** A whole message: its tokens, then the payload. */
  function WriteMessage(st: Symmetric, keys: Keys, tokens: seq<Token>, payload: Term): (Symmetric, seq<Term>) {
    var (st1, out) := WriteTokens(st, keys, tokens);
    var (st2, c) := st1.EncryptAndHash(payload);
    (st2, out + [c])
  }

  /** The IK pattern with the preshared key at the end of the second message:
      `<- s` beforehand, then `-> e, es, s, ss` and `<- e, ee, se, psk`. The
      labels stand for the hashes of the protocol name, alone and with the prologue. */
  function Begin(responder: Term): Symmetric {
    Symmetric(Label("Noise_IKpsk2_25519_ChaChaPoly_BLAKE2s"), Label("WireGuard v1 zx2c4 Jason@zx2c4.com"), EMPTY)
    .MixHash(responder)
  }

  const FIRST := [E, ES, S, SS]
  const SECOND := [E, EE, SE, Psk]

  lemma Taus(key: Term, input: Term)
    ensures KdfOutput(key, input, 0) == Tau1(key, input)
    ensures KdfOutput(key, input, 1) == Tau2(key, input)
    ensures KdfOutput(key, input, 2) == Tau3(key, input)
  {
    TausAreKdfOutputs(key, input);
  }

  /** A message of four tokens, one after another. */
  lemma FourTokens(st: Symmetric, keys: Keys, a: Token, b: Token, c: Token, d: Token)
    ensures var (s1, o1) := WriteToken(st, keys, a);
            var (s2, o2) := WriteToken(s1, keys, b);
            var (s3, o3) := WriteToken(s2, keys, c);
            var (s4, o4) := WriteToken(s3, keys, d);
            WriteTokens(st, keys, [a, b, c, d]) == (s4, o1 + o2 + o3 + o4)
  {
    hide WriteToken;
    var (s1, o1) := WriteToken(st, keys, a);
    var (s2, o2) := WriteToken(s1, keys, b);
    var (s3, o3) := WriteToken(s2, keys, c);
    var (s4, o4) := WriteToken(s3, keys, d);
    assert [a, b, c, d][1..] == [b, c, d] && [b, c, d][1..] == [c, d] && [c, d][1..] == [d] && [d][1..] == [];
    assert WriteTokens(s3, keys, [d]) == (s4, o4 + []);
    assert WriteTokens(s2, keys, [c, d]) == (s4, o3 + (o4 + []));
    assert WriteTokens(s1, keys, [b, c, d]) == (s4, o2 + (o3 + (o4 + [])));
    assert o1 + (o2 + (o3 + (o4 + []))) == o1 + o2 + o3 + o4;
  }

  /** The initiation is the first message, with the timestamp as payload. */
  lemma InitiationIsNoise(ourSecret: nat, peerPublic: Term, sender: nat, ephemeral: nat, timestamp: nat, psk: Option<Term>)
    requires peerPublic != LowOrder
    ensures var keys := Keys(true, ourSecret, ephemeral, peerPublic, EMPTY, H.PskTerm(psk));
            var (st, out) := WriteMessage(Begin(peerPublic), keys, FIRST, Number(timestamp));
            var init := H.Initiate(ourSecret, peerPublic, sender, ephemeral, timestamp);
            && init.Some?
            && out == [init.value.1.ephemeral, init.value.1.sealedStatic, init.value.1.sealedTimestamp]
            && init.value.0.constr == st.ck && init.value.0.h == st.h
  {
    var keys := Keys(true, ourSecret, ephemeral, peerPublic, EMPTY, H.PskTerm(psk));
    FourTokens(Begin(peerPublic), keys, E, ES, S, SS);
    hide KdfOutput;
    var e, es, ss := Point(ephemeral), DiffieHellman(ephemeral, peerPublic), DiffieHellman(ourSecret, peerPublic);
    Taus(H.CONSTRUCTION, e);
    Taus(Tau1(H.CONSTRUCTION, e), es);
    Taus(Tau1(Tau1(H.CONSTRUCTION, e), es), ss);
  }

  /** The response is the second message, with an empty payload, continued from
      the transcript of the initiation; the chaining key is the one it ends with. */
  lemma ResponseIsNoise(ourSecret: nat, received: H.InitReceived, index: nat, ephemeral: nat, psk: Option<Term>)
    ensures var keys := Keys(false, ourSecret, ephemeral, received.peerPublic, received.ephemeral, H.PskTerm(psk));
            var (st, out) := WriteMessage(Symmetric(received.constr, received.h, EMPTY), keys, SECOND, EMPTY);
            var (resp, established) := H.Respond(received, index, ephemeral, psk);
            && out == [resp.ephemeral, resp.sealedEmpty] && established.constr == st.ck
            && resp.sender == established.ourIndex == index && resp.receiver == established.peerIndex == received.index
  {
    var keys := Keys(false, ourSecret, ephemeral, received.peerPublic, received.ephemeral, H.PskTerm(psk));
    FourTokens(Symmetric(received.constr, received.h, EMPTY), keys, E, EE, SE, Psk);
    hide KdfOutput;
    var c1 := Tau1(received.constr, Point(ephemeral));
    var c2 := Tau1(c1, DiffieHellman(ephemeral, received.ephemeral));
    var c3 := Tau1(c2, DiffieHellman(ephemeral, received.peerPublic));
    Taus(received.constr, Point(ephemeral));
    Taus(c1, DiffieHellman(ephemeral, received.ephemeral));
    Taus(c2, DiffieHellman(ephemeral, received.peerPublic));
    Taus(c3, H.PskTerm(psk));
  }

  /** The transport keys are the split of the final state, each end sending under its own half. */
  lemma KeysAreSplit(st: Symmetric, ourIndex: nat, peerIndex: nat)
    ensures var (first, second) := st.Split();
            var e := H.Established(ourIndex, peerIndex, st.ck);
            && H.FinishInitiator(e) == H.TransportKeys(ourIndex, peerIndex, second, first)
            && H.FinishResponder(e) == H.TransportKeys(ourIndex, peerIndex, first, second)
  {
    Taus(st.ck, EMPTY);
  }
}
