/** Every message octet by octet, with offsets, lengths and labels written out. */
module Layout {
  import opened Wrappers
  import opened Crypto
  import opened Timing
  import opened TransportData
  import opened Cookies
  import opened Wire
  import H = Handshake

  /** Type octet and three zeros. */
  predicate Typed(msg: seq<Octet>, kind: byte) {
    |msg| >= 4 && msg[0] == Raw(kind) && msg[1] == Raw(0) && msg[2] == Raw(0) && msg[3] == Raw(0)
  }

  /** The number at this offset, its least significant octet first. */
  predicate IndexAt(msg: seq<Octet>, at: nat, index: nat) {
    && |msg| >= at + 4
    && msg[at] == Raw(index % 256) && msg[at + 1] == Raw(index / 256 % 256)
    && msg[at + 2] == Raw(index / 65536 % 256) && msg[at + 3] == Raw(index / 16777216 % 256)
  }

  lemma IndexOctets(msg: seq<Octet>, at: nat, index: nat)
    requires |msg| >= at + 4 && msg[at..at + 4] == IndexField(index)
    ensures IndexAt(msg, at, index)
  {
    hide LittleEndian;
    var field := msg[at..at + 4];
    assert msg[at] == field[0] && msg[at + 1] == field[1] && msg[at + 2] == field[2] && msg[at + 3] == field[3];
    assert Power256(0) == 1 && Power256(1) == 256 && Power256(2) == 65536 && Power256(3) == 16777216;
    LittleEndianDigit(index, 4, 0);
    LittleEndianDigit(index, 4, 1);
    LittleEndianDigit(index, 4, 2);
    LittleEndianDigit(index, 4, 3);
  }

  /** The two MACs at the end of a handshake message: the first keyed by the
      addressee's public key, the second by a cookie at most two minutes old. */
  ghost predicate MacsAt(g: GeneratorState, now: nat, out: seq<Octet>, at: nat) {
    && |out| == at + 32
    && out[at..at + 16] == Block(Mac(Hash(Label("mac1----"), g.publicKey), Octets(out[..at])), 16)
    && out[at + 16..] ==
       if g.lastCookie.Some? && now <= g.lastCookie.value.received + 120 * SECOND
       then Block(Mac(Octets(g.lastCookie.value.cookie), Octets(out[..at + 16])), 16)
       else [Raw(0), Raw(0), Raw(0), Raw(0), Raw(0), Raw(0), Raw(0), Raw(0),
             Raw(0), Raw(0), Raw(0), Raw(0), Raw(0), Raw(0), Raw(0), Raw(0)]
  }

  lemma MacsWritten(g: GeneratorState, now: nat, msg: seq<Octet>)
    requires IsHandshake(msg)
    ensures MacsAt(g, now, g.AddMacs(now, msg).1, |msg| - 32)
  {
    hide GeneratorState.AddMacs, Block;
    AddedMacFields(g, now, msg);
  }

  /** Which octets carry a valid first MAC: any body, its MAC under the label and
      the verifier's key, and sixteen octets more. */
  lemma Mac1Exactly(publicKey: Term, msg: seq<Octet>)
    ensures VerifyMac1(publicKey, msg) <==>
            exists body, rest :: && |rest| == 16
                                 && msg == body + Block(Mac(Hash(Label("mac1----"), publicKey), Octets(body)), 16) + rest
  {
    hide Block;
    if VerifyMac1(publicKey, msg) {
      var n := |msg|;
      assert msg == msg[..n - 32] + Block(Mac(Hash(Label("mac1----"), publicKey), Octets(msg[..n - 32])), 16) + msg[n - 16..];
    }
    if body, rest :| |rest| == 16 && msg == body + Block(Mac(Hash(Label("mac1----"), publicKey), Octets(body)), 16) + rest {
      assert msg[..|msg| - 32] == body;
    }
  }

  /** And a valid second one: sixteen octets at least, then the MAC under the
      cookie of the source and secret. */
  lemma Mac2Exactly(msg: seq<Octet>, source: seq<Octet>, secret: Term)
    ensures VerifyMac2(msg, source, secret) <==>
            exists body :: && |body| >= 16
                           && msg == body + Block(Mac(Octets(Block(Mac(secret, Octets(source)), 16)), Octets(body)), 16)
  {
    hide Block;
    if VerifyMac2(msg, source, secret) {
      var body := msg[..|msg| - 16];
      assert msg == body + Block(Mac(Octets(Block(Mac(secret, Octets(source)), 16)), Octets(body)), 16);
    }
    if body :| |body| >= 16 && msg == body + Block(Mac(Octets(Block(Mac(secret, Octets(source)), 16)), Octets(body)), 16) {
      assert msg[..|msg| - 16] == body;
    }
  }

  /** Slices of a prefix are slices of the whole. */
  lemma Slices(out: seq<Octet>, body: seq<Octet>)
    requires 4 <= |body| <= |out| && out[..|body|] == body
    ensures out[..4] == body[..4]
    ensures forall i, j | 0 <= i <= j <= |body| :: out[i..j] == body[i..j]
  {
    forall i, j | 0 <= i <= j <= |body| ensures out[i..j] == body[i..j] {
      assert out[..|body|][i..j] == out[i..j];
    }
    assert out[..|body|][..4] == out[..4];
  }

  lemma InitSlices(m: H.InitMsg)
    ensures var b := InitBody(m);
            && b[..4] == TypeOctets(1) && b[4..8] == IndexField(m.sender) && b[8..40] == Block(m.ephemeral, 32)
            && b[40..88] == Block(m.sealedStatic, 48) && b[88..116] == Block(m.sealedTimestamp, 28)
  {
    hide Block, IndexField, InitPrefix, InitSealed;
    var b, p, q := InitBody(m), InitPrefix(m.sender, m.ephemeral), InitSealed(m);
    assert p[..4] == TypeOctets(1) && p[4..8] == IndexField(m.sender) && p[8..40] == Block(m.ephemeral, 32) by {
      InitClear(m.sender, m.ephemeral);
    }
    assert q[..48] == Block(m.sealedStatic, 48) && q[48..] == Block(m.sealedTimestamp, 28) by { InitClosed(m); }
    assert b[..4] == p[..4] && b[4..8] == p[4..8] && b[8..40] == p[8..40];
    assert b[40..88] == q[..48] && b[88..116] == q[48..];
  }

  lemma InitClear(sender: nat, ephemeral: Term)
    ensures var p := InitPrefix(sender, ephemeral);
            p[..4] == TypeOctets(1) && p[4..8] == IndexField(sender) && p[8..40] == Block(ephemeral, 32)
  {
    hide Block, IndexField;
  }

  lemma InitClosed(m: H.InitMsg)
    ensures InitSealed(m)[..48] == Block(m.sealedStatic, 48) && InitSealed(m)[48..] == Block(m.sealedTimestamp, 28)
  {
    hide Block;
  }

  lemma RespSlices(m: H.RespMsg)
    ensures var b := RespBody(m);
            && b[..4] == TypeOctets(2) && b[4..8] == IndexField(m.sender) && b[8..12] == IndexField(m.receiver)
            && b[12..44] == Block(m.ephemeral, 32) && b[44..60] == Block(m.sealedEmpty, 16)
  {
    hide Block, IndexField, RespPrefix;
    var b, p := RespBody(m), RespPrefix(m.sender, m.receiver);
    var q := Block(m.ephemeral, 32) + Block(m.sealedEmpty, 16);
    assert p[..4] == TypeOctets(2) && p[4..8] == IndexField(m.sender) && p[8..12] == IndexField(m.receiver) by {
      RespClear(m.sender, m.receiver);
    }
    assert b == p + q && q[..32] == Block(m.ephemeral, 32) && q[32..] == Block(m.sealedEmpty, 16);
    assert b[..4] == p[..4] && b[4..8] == p[4..8] && b[8..12] == p[8..12];
    assert b[12..44] == q[..32] && b[44..60] == q[32..];
  }

  lemma RespClear(sender: nat, receiver: nat)
    ensures var p := RespPrefix(sender, receiver);
            p[..4] == TypeOctets(2) && p[4..8] == IndexField(sender) && p[8..12] == IndexField(receiver)
  {
    hide IndexField;
  }

  lemma InitLayout(g: GeneratorState, now: nat, m: H.InitMsg, scratch: seq<Octet>)
    requires |scratch| == 32
    ensures var out := InitOctets(g, now, m, scratch).1;
            && |out| == 148 && Typed(out, 1) && IndexAt(out, 4, m.sender)
            && out[8..40] == Block(m.ephemeral, 32) && out[40..88] == Block(m.sealedStatic, 48)
            && out[88..116] == Block(m.sealedTimestamp, 28) && MacsAt(g, now, out, 116)
  {
    hide GeneratorState.AddMacs, Block, IndexField, MacsAt, InitBody;
    var msg := InitBody(m) + scratch;
    assert msg[..4] == TypeOctets(1) by { InitSlices(m); assert msg[..4] == InitBody(m)[..4]; }
    var out := g.AddMacs(now, msg).1;
    MacsWritten(g, now, msg);
    InitSlices(m);
    assert out[..116] == InitBody(m) by { assert msg[..116] == InitBody(m); }
    Slices(out, InitBody(m));
    TypeRead(out, 1);
    IndexOctets(out, 4, m.sender);
  }

  lemma TypeRead(out: seq<Octet>, kind: byte)
    requires |out| >= 4 && out[..4] == TypeOctets(kind)
    ensures Typed(out, kind)
  {
    assert out[0] == out[..4][0] && out[1] == out[..4][1] && out[2] == out[..4][2] && out[3] == out[..4][3];
  }

  lemma RespLayout(g: GeneratorState, now: nat, m: H.RespMsg, scratch: seq<Octet>)
    requires |scratch| == 32
    ensures var out := RespOctets(g, now, m, scratch).1;
            && |out| == 92 && Typed(out, 2) && IndexAt(out, 4, m.sender) && IndexAt(out, 8, m.receiver)
            && out[12..44] == Block(m.ephemeral, 32) && out[44..60] == Block(m.sealedEmpty, 16)
            && MacsAt(g, now, out, 60)
  {
    hide GeneratorState.AddMacs, Block, IndexField, MacsAt, RespBody;
    var msg := RespBody(m) + scratch;
    assert msg[..4] == TypeOctets(2) by { RespSlices(m); assert msg[..4] == RespBody(m)[..4]; }
    var out := g.AddMacs(now, msg).1;
    MacsWritten(g, now, msg);
    RespSlices(m);
    assert out[..60] == RespBody(m) by { assert msg[..60] == RespBody(m); }
    Slices(out, RespBody(m));
    TypeRead(out, 2);
    IndexOctets(out, 4, m.sender);
    IndexOctets(out, 8, m.receiver);
  }

  /** A cookie reply: the prompting sender's index, the nonce, and the source's
      MAC sealed under the label and the replier's key, bound to the prompting mac1. */
  lemma CookieLayout(publicKey: Term, prompting: seq<Octet>, source: seq<Octet>, secret: Term, nonce: seq<Octet>)
    requires |nonce| == 24 && IsHandshake(prompting)
    ensures var out := Cookies.CookieReply(publicKey, prompting, source, secret, nonce).value;
            var n := |prompting|;
            && |out| == 64 && Typed(out, 3) && out[4..8] == prompting[4..8] && out[8..32] == nonce
            && n >= 92
            && out[32..64] == Block(XSealed(Hash(Label("cookie--"), publicKey), Octets(nonce), Octets(prompting[n - 32..n - 16]),
                                            Octets(Block(Mac(secret, Octets(source)), 16))), 32)
  {
    hide Block;
    var out := Cookies.CookieReply(publicKey, prompting, source, secret, nonce).value;
    assert out[..4] == TypeOctets(3) && out[4..8] == prompting[4..8] && out[8..32] == nonce;
    TypeRead(out, 3);
  }

  /** A data packet: receiver, eight octets of counter, the sealed payload. */
  lemma DataLayout(receiver: nat, counter: nat, key: Term, payload: Payload, i: nat)
    requires i < 8
    ensures var out := DataPacket(receiver, counter, key, payload);
            && |out| == |payload| + 32 && Typed(out, 4) && IndexAt(out, 4, receiver)
            && Power256(i) > 0 && out[8 + i] == Raw(counter / Power256(i) % 256)
            && out[16..] == Block(Sealed(key, counter, Octets([]), Octets(payload)), |payload| + 16)
  {
    hide Seal, LittleEndian, IndexAt;
    var out := DataPacket(receiver, counter, key, payload);
    assert out[..4] == Raws(HEADER_TYPE) && Raws(HEADER_TYPE) == TypeOctets(4);
    assert out[4..8] == IndexField(receiver);
    assert out[8..16] == Raws(LittleEndian(counter, 8)) && out[8 + i] == out[8..16][i];
    TypeRead(out, 4);
    IndexOctets(out, 4, receiver);
    LittleEndianDigit(counter, 8, i);
    SealIsBlock(key, counter, payload);
    assert out[16..] == Seal(key, counter, EMPTY, payload);
  }

  lemma SealIsBlock(key: Term, counter: nat, payload: Payload)
    ensures Seal(key, counter, EMPTY, payload) == Block(Sealed(key, counter, Octets([]), Octets(payload)), |payload| + 16)
  {
  }

  /** The index at an offset, if its octets are plain. */
  ghost predicate HasIndex(msg: seq<Octet>, at: nat) {
    |msg| >= at + 4 && msg[at].Raw? && msg[at + 1].Raw? && msg[at + 2].Raw? && msg[at + 3].Raw?
  }

  lemma IndexReads(msg: seq<Octet>, at: nat)
    requires |msg| >= at + 4
    ensures ReadNumber(msg[at..at + 4]).Some? <==> HasIndex(msg, at)
  {
    var field := msg[at..at + 4];
    assert msg[at] == field[0] && msg[at + 1] == field[1] && msg[at + 2] == field[2] && msg[at + 3] == field[3];
  }

  /** What is dispatched at all: the four kinds, with zeros after the type and
      the length of the kind. */
  lemma DispatchExactly(msg: seq<Octet>)
    ensures ParseHeader(msg).Ok? <==>
            || (Typed(msg, 1) && |msg| == 148)
            || (Typed(msg, 2) && |msg| == 92 && HasIndex(msg, 8))
            || (Typed(msg, 3) && |msg| == 64 && HasIndex(msg, 4))
            || (Typed(msg, 4) && |msg| >= 32 && HasIndex(msg, 4))
    ensures ParseHeader(msg) == Err(InvalidLength) <==>
            || |msg| < 4
            || (Typed(msg, 1) && |msg| != 148) || (Typed(msg, 2) && |msg| != 92)
            || (Typed(msg, 3) && |msg| != 64) || (Typed(msg, 4) && |msg| < 32)
    ensures ParseHeader(msg) == Err(InvalidMessageType) <==>
            |msg| >= 4 && msg[0] != Raw(1) && msg[0] != Raw(2) && msg[0] != Raw(3) && msg[0] != Raw(4)
  {
    hide ReadNumber, HasIndex;
    if |msg| >= 4 {
      assert msg[1..4][0] == msg[1] && msg[1..4][1] == msg[2] && msg[1..4][2] == msg[3];
      assert msg[1..4] == [msg[1], msg[2], msg[3]];
    }
    if |msg| >= 8 { IndexReads(msg, 4); }
    if |msg| >= 12 { IndexReads(msg, 8); }
  }
}
