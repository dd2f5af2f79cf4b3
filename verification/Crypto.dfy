/** Symbolic cryptography. Every primitive is a free constructor, so equal
    outputs mean equal inputs, and a Diffie-Hellman result is a symmetric term
    of two secrets. */
module Crypto {
  import opened Wrappers

  type byte = b: int | 0 <= b < 256

  /** One octet of a buffer: a plain byte, or one position of a symbolic block. */
  datatype Octet = Raw(value: byte) | Cell(block: Term, position: nat)

  datatype Term =
    | Label(text: string)
    | Number(n: nat)
    | Octets(octets: seq<Octet>)
    | Point(secret: nat)
    | LowOrder
    | Shared(lo: nat, hi: nat)
    | Foreign(secret: nat, point: Term)
    | Concat(first: Term, second: Term)
    | Hash(first: Term, second: Term)
    | Hmac(key: Term, input: Term)
    | Mac(key: Term, input: Term)
    | Sealed(key: Term, nonce: nat, ad: Term, plain: Term)
    | XSealed(key: Term, xnonce: Term, ad: Term, plain: Term)

  const EMPTY := Octets([])

  const AEAD_TAG_SIZE: nat := 16

  /** The Diffie-Hellman result of a secret and a public point. A low-order
      point (all of them one term here) gives a result that did not contribute. */
  function DiffieHellman(secret: nat, point: Term): (shared: Term)
    ensures shared == LowOrder <==> point == LowOrder
  {
    match point
    case Point(other) => if secret <= other then Shared(secret, other) else Shared(other, secret)
    case LowOrder => LowOrder
    case _ => Foreign(secret, point)
  }

  predicate Contributory(shared: Term) {
    shared != LowOrder
  }

  /** Both holders of a secret compute the same term, and the term determines the pair of secrets. */
  lemma DiffieHellmanAgrees(a: nat, b: nat, c: nat, d: nat)
    ensures DiffieHellman(a, Point(b)) == DiffieHellman(b, Point(a))
    ensures DiffieHellman(a, Point(b)) == DiffieHellman(c, Point(d)) <==> (a == c && b == d) || (a == d && b == c)
  {
  }

  /** Output `i` (counted from 0) of the key derivation chain. */
  function KdfOutput(key: Term, input: Term, i: nat): Term {
    var t0 := Hmac(key, input);
    if i == 0 then Hmac(t0, Number(1))
    else Hmac(t0, Concat(KdfOutput(key, input, i - 1), Number(i + 1)))
  }

  /** The derivation loop computes that chain; 1 to 255 outputs are allowed. */
  method Kdf(key: Term, input: Term, n: nat) returns (out: seq<Term>)
    requires 1 <= n <= 255
    ensures |out| == n
    ensures forall i: nat | i < n :: out[i] == KdfOutput(key, input, i)
  {
    var t0 := Hmac(key, input);
    out := [Hmac(t0, Number(1))];
    for i := 1 to n
      invariant |out| == i
      invariant forall k: nat | k < i :: out[k] == KdfOutput(key, input, k)
    {
      out := out + [Hmac(t0, Concat(out[i - 1], Number(i + 1)))];
    }
  }

  /** Different positions or different inputs never derive the same key. */
  lemma {:induction false} KdfInjective(key: Term, input: Term, i: nat, key': Term, input': Term, j: nat)
    ensures KdfOutput(key, input, i) == KdfOutput(key', input', j) <==> key == key' && input == input' && i == j
  {
    KdfShape(key, input, i);
    KdfShape(key', input', j);
  }

  /** An output is keyed by the extracted secret, and its input ends in its position. */
  lemma KdfShape(key: Term, input: Term, i: nat)
    ensures var t := KdfOutput(key, input, i);
            && t.Hmac? && t.key == Hmac(key, input)
            && (i == 0 ==> t.input == Number(1))
            && (i > 0 ==> t.input.Concat? && t.input.second == Number(i + 1))
  {
  }

  /** The first three outputs, the ones the handshake uses, written out. */
  function Tau1(key: Term, input: Term): Term {
    Hmac(Hmac(key, input), Number(1))
  }

  function Tau2(key: Term, input: Term): Term {
    Hmac(Hmac(key, input), Concat(Tau1(key, input), Number(2)))
  }

  function Tau3(key: Term, input: Term): Term {
    Hmac(Hmac(key, input), Concat(Tau2(key, input), Number(3)))
  }

  lemma TausAreKdfOutputs(key: Term, input: Term)
    ensures Tau1(key, input) == KdfOutput(key, input, 0)
    ensures Tau2(key, input) == KdfOutput(key, input, 1)
    ensures Tau3(key, input) == KdfOutput(key, input, 2)
  {
    assert KdfOutput(key, input, 1) == Tau2(key, input);
  }

  /** The octets of a block of `n` octets. */
  function Block(t: Term, n: nat): (s: seq<Octet>)
    ensures |s| == n
  {
    seq(n, i requires 0 <= i < n => Cell(t, i))
  }

  lemma BlockInjective(t: Term, u: Term, n: nat)
    requires n > 0
    ensures Block(t, n) == Block(u, n) <==> t == u
  {
    assert Block(t, n)[0] == Cell(t, 0) && Block(u, n)[0] == Cell(u, 0);
  }

  function Raws(bytes: seq<byte>): (s: seq<Octet>)
    ensures |s| == |bytes|
  {
    seq(|bytes|, i requires 0 <= i < |bytes| => Raw(bytes[i]))
  }

  /** The sealed form of a plaintext: a block sixteen octets longer. */
  function Seal(key: Term, nonce: nat, ad: Term, plain: seq<Octet>): (s: seq<Octet>)
    ensures |s| == |plain| + AEAD_TAG_SIZE
  {
    Block(Sealed(key, nonce, ad, Octets(plain)), |plain| + AEAD_TAG_SIZE)
  }

  /** Opening succeeds on exactly the sealed forms made with the same key, nonce and associated data. */
  function Open(key: Term, nonce: nat, ad: Term, data: seq<Octet>): (r: Option<seq<Octet>>)
    ensures r.Some? ==> data == Seal(key, nonce, ad, r.value)
  {
    if |data| < AEAD_TAG_SIZE || !data[0].Cell? || !data[0].block.Sealed? || !data[0].block.plain.Octets? then None
    else
      var plain := data[0].block.plain.octets;
      if data == Seal(key, nonce, ad, plain) then Some(plain) else None
  }

  lemma OpenOfSeal(key: Term, nonce: nat, ad: Term, key': Term, nonce': nat, ad': Term, plain: seq<Octet>)
    ensures Open(key, nonce, ad, Seal(key', nonce', ad', plain)) ==
            if key == key' && nonce == nonce' && ad == ad' then Some(plain) else None
  {
    var data := Seal(key', nonce', ad', plain);
    var t' := Sealed(key', nonce', ad', Octets(plain));
    assert data[0] == Cell(t', 0);
    BlockInjective(Sealed(key, nonce, ad, Octets(plain)), t', |plain| + AEAD_TAG_SIZE);
  }

  /** Decrypts the octets from `start` on and moves the plaintext to the front
      of the buffer, forward over the overlap. */
  method OpenWithin(key: Term, nonce: nat, ad: Term, data: array<Octet>, start: nat) returns (ok: bool)
    modifies data
    ensures ok <==> start <= data.Length && old(Open(key, nonce, ad, data[start..])).Some?
    ensures ok ==> var plain := old(Open(key, nonce, ad, data[start..])).value;
                   data.Length == start + |plain| + AEAD_TAG_SIZE && data[..|plain|] == plain
    ensures !ok ==> data[..] == old(data[..])
  {
    if data.Length < AEAD_TAG_SIZE || start > data.Length - AEAD_TAG_SIZE {
      assert start <= data.Length ==> |data[start..]| < AEAD_TAG_SIZE;
      return false;
    }
    var result := Open(key, nonce, ad, data[start..]);
    if result.None? {
      return false;
    }
    var plain := result.value;
    var tagStart := data.Length - AEAD_TAG_SIZE;
    assert |plain| == tagStart - start;
    for i := 0 to tagStart - start
      invariant forall k | 0 <= k < i :: data[start + k] == plain[k]
      invariant data.Length == start + |plain| + AEAD_TAG_SIZE
    {
      data[start + i] := plain[i];
    }
    if start != 0 {
      for i := 0 to tagStart - start
        invariant forall k | i <= k < |plain| :: data[start + k] == plain[k]
        invariant forall k | 0 <= k < i :: data[k] == plain[k]
      {
        data[i] := data[start + i];
      }
    }
    assert data[..|plain|] == plain;
    return true;
  }

  /** Copies `data` into the buffer at an offset. */
  method Write(buf: array<Octet>, at: nat, data: seq<Octet>)
    requires at + |data| <= buf.Length
    modifies buf
    ensures buf[..] == old(buf[..at]) + data + old(buf[at + |data|..])
  {
    for i := 0 to |data|
      invariant forall k | 0 <= k < buf.Length :: buf[k] == if at <= k < at + i then data[k - at] else old(buf[k])
    {
      buf[at + i] := data[i];
    }
  }

  /** `k` octets of a number, least significant first. */
  function LittleEndian(n: nat, k: nat): (s: seq<byte>)
    ensures |s| == k
  {
    if k == 0 then [] else [n % 256] + LittleEndian(n / 256, k - 1)
  }

  function FromLittleEndian(s: seq<byte>): nat {
    if s == [] then 0 else s[0] + 256 * FromLittleEndian(s[1..])
  }

  function Power256(k: nat): nat {
    if k == 0 then 1 else 256 * Power256(k - 1)
  }

  /** Octet `i` is digit `i` of the number in base 256. */
  lemma {:induction false} LittleEndianDigit(n: nat, k: nat, i: nat)
    requires i < k
    ensures Power256(i) > 0 && LittleEndian(n, k)[i] == n / Power256(i) % 256
    decreases i
  {
    if i > 0 {
      LittleEndianDigit(n / 256, k - 1, i - 1);
      assert LittleEndian(n, k)[i] == LittleEndian(n / 256, k - 1)[i - 1];
      DivTwice(n, Power256(i - 1));
    }
  }

  lemma DivTwice(n: nat, p: nat)
    requires p > 0
    ensures n / 256 / p == n / (256 * p)
  {
    var m, low := n / 256, n % 256;
    var q, r := m / p, m % p;
    assert m == q * p + r;
    Regroup(q, p);
    assert n == q * (256 * p) + (r * 256 + low);
    QuotientUnique(q, 256 * p, r * 256 + low);
  }

  lemma Regroup(q: nat, p: nat)
    ensures q * p * 256 == q * (256 * p)
  {
  }

  lemma QuotientUnique(q: nat, p: nat, r: nat)
    requires r < p
    ensures (q * p + r) / p == q
  {
    var n := q * p + r;
    var d, e := n / p, n % p;
    assert d * p + e == n && 0 <= e < p;
    Multiples(q - d, p, e - r);
  }

  /** A multiple that is smaller than the factor is zero. */
  lemma Multiples(k: int, p: int, small: int)
    requires p > 0 && -p < small < p && k * p == small
    ensures k == 0
  {
    assert k >= 1 ==> k * p >= p;
    assert k <= -1 ==> k * p <= -p;
  }

  lemma {:induction false} LittleEndianInverse(s: seq<byte>)
    ensures FromLittleEndian(s) < Power256(|s|) && LittleEndian(FromLittleEndian(s), |s|) == s
  {
    if s != [] {
      LittleEndianInverse(s[1..]);
      assert FromLittleEndian(s) % 256 == s[0] && FromLittleEndian(s) / 256 == FromLittleEndian(s[1..]);
      assert s == [s[0]] + s[1..];
    }
  }

  lemma {:induction false} LittleEndianRoundTrip(n: nat, k: nat)
    requires n < Power256(k)
    ensures FromLittleEndian(LittleEndian(n, k)) == n
  {
    if k > 0 {
      LittleEndianRoundTrip(n / 256, k - 1);
      assert LittleEndian(n, k)[1..] == LittleEndian(n / 256, k - 1);
    }
  }
}
