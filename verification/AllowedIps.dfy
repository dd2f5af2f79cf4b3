/** Cryptokey routing: prefixes to owners, by longest match. */
module AllowedIps {
  import opened Wrappers
  import Crypto

  datatype IpAddr = V4(bits: seq<bool>) | V6(bits: seq<bool>) {
    predicate Valid() {
      |bits| == if V4? then 32 else 128
    }

    predicate SameFamily(other: IpAddr) {
      V4? <==> other.V4?
    }
  }

  datatype IpNet = IpNet(addr: IpAddr, len: nat) {
    predicate Valid() {
      addr.Valid() && len <= |addr.bits|
    }

    /** The network with its host bits cleared. */
    function Trunc(): (n: IpNet)
      requires Valid()
      ensures n.Valid() && n.len == len && n.addr.SameFamily(addr) && n.addr.bits[..len] == addr.bits[..len]
      ensures n.Truncated()
    {
      var bits := addr.bits[..len] + seq(|addr.bits| - len, _ => false);
      IpNet(if addr.V4? then V4(bits) else V6(bits), len)
    }

    predicate Truncated()
      requires Valid()
    {
      forall i | len <= i < |addr.bits| :: !addr.bits[i]
    }

    predicate Contains(a: IpAddr)
      requires Valid() && a.Valid()
    {
      addr.SameFamily(a) && a.bits[..len] == addr.bits[..len]
    }
  }

  function Pow2(n: nat): (p: nat)
    ensures p > 0
  {
    if n == 0 then 1 else 2 * Pow2(n - 1)
  }

  /** The number whose binary digits these are, most significant first. */
  function Value(bits: seq<bool>): (v: nat)
    ensures v < Pow2(|bits|)
  {
    if bits == [] then 0 else (if bits[0] then Pow2(|bits| - 1) else 0) + Value(bits[1..])
  }

  lemma {:induction false} Pow2Sum(m: nat, n: nat)
    ensures Pow2(m + n) == Pow2(m) * Pow2(n)
  {
    if m > 0 {
      Pow2Sum(m - 1, n);
      assert Pow2(m) * Pow2(n) == 2 * (Pow2(m - 1) * Pow2(n));
    }
  }

  lemma {:induction false} ValueJoin(x: seq<bool>, y: seq<bool>)
    ensures Value(x + y) == Value(x) * Pow2(|y|) + Value(y)
  {
    if x == [] {
      assert x + y == y;
    } else {
      ValueJoin(x[1..], y);
      assert (x + y)[1..] == x[1..] + y && (x + y)[0] == x[0];
      Pow2Sum(|x| - 1, |y|);
      Distribute(if x[0] then Pow2(|x| - 1) else 0, Value(x[1..]), Pow2(|y|));
    }
  }

  lemma Distribute(a: nat, b: nat, c: nat)
    ensures (a + b) * c == a * c + b * c
  {
  }

  lemma {:induction false} ValueInjective(x: seq<bool>, y: seq<bool>)
    requires |x| == |y| && Value(x) == Value(y)
    ensures x == y
  {
    if x != [] {
      ValueInjective(x[1..], y[1..]);
      assert x == [x[0]] + x[1..] && y == [y[0]] + y[1..];
    }
  }

  /** The leading bits are the quotient. */
  lemma LeadingBits(bits: seq<bool>, len: nat)
    requires len <= |bits|
    ensures Value(bits) / Pow2(|bits| - len) == Value(bits[..len])
  {
    assert bits == bits[..len] + bits[len..];
    ValueJoin(bits[..len], bits[len..]);
    Crypto.QuotientUnique(Value(bits[..len]), Pow2(|bits| - len), Value(bits[len..]));
  }

  /** In numbers: a network contains the addresses of its family that agree with
      it when divided by the size of its host part. */
  lemma ContainsExactly(net: IpNet, a: IpAddr)
    requires net.Valid() && a.Valid()
    ensures net.Contains(a) <==>
            && (net.addr.V4? <==> a.V4?)
            && var size := Pow2((if a.V4? then 32 else 128) - net.len);
               Value(a.bits) / size == Value(net.addr.bits) / size
  {
    if net.addr.V4? == a.V4? {
      LeadingBits(a.bits, net.len);
      LeadingBits(net.addr.bits, net.len);
      if Value(a.bits[..net.len]) == Value(net.addr.bits[..net.len]) {
        ValueInjective(a.bits[..net.len], net.addr.bits[..net.len]);
      }
    }
  }

  /** Two truncated networks of one length that share an address are the same network. */
  lemma SameLengthSameNet(m: IpNet, n: IpNet, a: IpAddr)
    requires m.Valid() && n.Valid() && a.Valid() && m.Truncated() && n.Truncated()
    requires m.len == n.len && m.Contains(a) && n.Contains(a)
    ensures m == n
  {
    assert m.addr.bits[..m.len] == n.addr.bits[..n.len];
    forall i | 0 <= i < |m.addr.bits| ensures m.addr.bits[i] == n.addr.bits[i] {
      if i < m.len {
        assert m.addr.bits[..m.len][i] == n.addr.bits[..n.len][i];
      }
    }
    assert m.addr.bits == n.addr.bits;
  }

  // ---------- the table as a map ----------

  ghost predicate ValidNets<T>(m: map<IpNet, T>) {
    forall n | n in m :: n.Valid() && n.Truncated()
  }

  /** The net is the longest of the table's nets that contain the address. */
  ghost predicate IsLongest<T>(m: map<IpNet, T>, a: IpAddr, net: IpNet)
    requires ValidNets(m) && a.Valid()
  {
    && net in m && net.Contains(a)
    && forall n | n in m && n.Contains(a) :: n.len <= net.len
  }

  /** A table has at most one longest match, so a lookup depends on the map alone. */
  lemma LongestIsUnique<T>(m: map<IpNet, T>, a: IpAddr, x: IpNet, y: IpNet)
    requires ValidNets(m) && a.Valid() && IsLongest(m, a, x) && IsLongest(m, a, y)
    ensures x == y
  {
    SameLengthSameNet(x, y, a);
  }

  /** What a lookup answers: the owner of the longest match, or nothing when no net contains the address. */
  ghost predicate Answers<T>(m: map<IpNet, T>, a: IpAddr, r: Option<T>)
    requires ValidNets(m) && a.Valid()
  {
    match r
    case None => forall n | n in m :: !n.Contains(a)
    case Some(v) => exists n :: IsLongest(m, a, n) && m[n] == v
  }

  lemma AnswerIsUnique<T>(m: map<IpNet, T>, a: IpAddr, r: Option<T>, r': Option<T>)
    requires ValidNets(m) && a.Valid() && Answers(m, a, r) && Answers(m, a, r')
    ensures r == r'
  {
    if r.Some? && r'.Some? {
      var n :| IsLongest(m, a, n) && m[n] == r.value;
      var n' :| IsLongest(m, a, n') && m[n'] == r'.value;
      LongestIsUnique(m, a, n, n');
    }
  }

  // ---------- the table as a list ----------

  ghost predicate Unique<T>(entries: seq<(IpNet, T)>) {
    && (forall i | 0 <= i < |entries| :: entries[i].0.Valid() && entries[i].0.Truncated())
    && (forall i, j | 0 <= i < j < |entries| :: entries[i].0 != entries[j].0)
  }

  /** A list without repeated prefixes, in any order, stands for a map. */
  ghost predicate Represents<T>(entries: seq<(IpNet, T)>, m: map<IpNet, T>) {
    && Unique(entries)
    && (forall i | 0 <= i < |entries| :: entries[i].0 in m && m[entries[i].0] == entries[i].1)
    && (forall n | n in m :: exists i :: 0 <= i < |entries| && entries[i].0 == n)
  }

  class Table<T(==)> {
    var entries: seq<(IpNet, T)>
    ghost var owners: map<IpNet, T>

    ghost predicate Valid()
      reads this
    {
      Represents(entries, owners)
    }

    constructor ()
      ensures Valid() && owners == map[]
    {
      entries, owners := [], map[];
    }

    /** Gives a prefix to an owner, replacing whoever owned exactly that prefix. */
    method Insert(net: IpNet, value: T)
      requires Valid() && net.Valid()
      modifies this
      ensures Valid() && owners == old(owners)[net.Trunc() := value]
    {
      var key := net.Trunc();
      var i := 0;
      while i < |entries| && entries[i].0 != key
        invariant 0 <= i <= |entries|
        invariant forall k | 0 <= k < i :: entries[k].0 != key
      {
        i := i + 1;
      }
      owners := owners[key := value];
      if i < |entries| {
        entries := entries[i := (key, value)];
        Replaced(old(entries), old(owners), i, value);
      } else {
        entries := entries + [(key, value)];
        Pushed(old(entries), old(owners), key, value);
      }
    }

    /** Drops every entry whose owner fails the predicate. */
    method Retain(keep: T -> bool)
      requires Valid()
      modifies this
      ensures Valid() && owners == map n | n in old(owners) && keep(old(owners)[n]) :: old(owners)[n]
    {
      var kept: seq<(IpNet, T)> := [];
      ghost var from: seq<nat> := [];
      for i := 0 to |entries|
        invariant entries == old(entries) && owners == old(owners)
        invariant Selected(entries[..i], kept, from, keep)
      {
        assert entries[..i + 1] == entries[..i] + [entries[i]];
        SelectNext(entries[..i], kept, from, keep, entries[i]);
        if keep(entries[i].1) {
          kept := kept + [entries[i]];
          from := from + [i];
        }
      }
      assert entries[..|entries|] == entries;
      Filtered(entries, owners, kept, from, keep);
      entries := kept;
      owners := map n | n in owners && keep(owners[n]) :: owners[n];
    }

    /** Scans for the longest prefix containing the address; of equal lengths the last would win. */
    method LongestMatch(a: IpAddr) returns (r: Option<T>)
      requires Valid() && a.Valid()
      ensures ValidNets(owners) && Answers(owners, a, r)
    {
      ghost var best := -1;
      r := None;
      var bestLen := 0;
      for i := 0 to |entries|
        invariant -1 <= best < i
        invariant best == -1 ==> r == None && forall k | 0 <= k < i :: !entries[k].0.Contains(a)
        invariant best >= 0 ==> entries[best].0.Contains(a) && r == Some(entries[best].1) && bestLen == entries[best].0.len
        invariant best >= 0 ==> forall k | 0 <= k < i && entries[k].0.Contains(a) :: entries[k].0.len <= bestLen
      {
        var (net, value) := entries[i];
        if net.Contains(a) && (r.None? || net.len >= bestLen) {
          r, bestLen := Some(value), net.len;
          best := i;
        }
      }
      Scanned(entries, owners, a, best, r);
    }
  }

  lemma Replaced<T>(entries: seq<(IpNet, T)>, m: map<IpNet, T>, i: nat, value: T)
    requires Represents(entries, m) && i < |entries|
    ensures Represents(entries[i := (entries[i].0, value)], m[entries[i].0 := value])
  {
    var entries' := entries[i := (entries[i].0, value)];
    var m' := m[entries[i].0 := value];
    forall n | n in m' ensures exists k :: 0 <= k < |entries'| && entries'[k].0 == n {
      var k :| 0 <= k < |entries| && entries[k].0 == n;
      assert entries'[k].0 == n;
    }
  }

  lemma Pushed<T>(entries: seq<(IpNet, T)>, m: map<IpNet, T>, net: IpNet, value: T)
    requires Represents(entries, m) && net.Valid() && net.Truncated()
    requires forall i | 0 <= i < |entries| :: entries[i].0 != net
    ensures Represents(entries + [(net, value)], m[net := value])
  {
    var entries' := entries + [(net, value)];
    var m' := m[net := value];
    forall n | n in m' ensures exists k :: 0 <= k < |entries'| && entries'[k].0 == n {
      if n == net {
        assert entries'[|entries|].0 == n;
      } else {
        var k :| 0 <= k < |entries| && entries[k].0 == n;
        assert entries'[k].0 == n;
      }
    }
  }

  /** The kept entries are, in order, exactly those the predicate passes. */
  ghost predicate Selected<T>(entries: seq<(IpNet, T)>, kept: seq<(IpNet, T)>, from: seq<nat>, keep: T -> bool) {
    && |from| == |kept|
    && (forall k | 0 <= k < |kept| :: from[k] < |entries| && kept[k] == entries[from[k]] && keep(kept[k].1))
    && (forall j, k | 0 <= j < k < |from| :: from[j] < from[k])
    && (forall j: nat | j < |entries| && keep(entries[j].1) :: j in from)
  }

  lemma SelectNext<T>(entries: seq<(IpNet, T)>, kept: seq<(IpNet, T)>, from: seq<nat>, keep: T -> bool, e: (IpNet, T))
    requires Selected(entries, kept, from, keep)
    ensures if keep(e.1) then Selected(entries + [e], kept + [e], from + [|entries|], keep)
            else Selected(entries + [e], kept, from, keep)
  {
  }

  lemma Filtered<T>(entries: seq<(IpNet, T)>, m: map<IpNet, T>, kept: seq<(IpNet, T)>, from: seq<nat>, keep: T -> bool)
    requires Represents(entries, m) && Selected(entries, kept, from, keep)
    ensures Represents(kept, map n | n in m && keep(m[n]) :: m[n])
  {
    var m' := map n | n in m && keep(m[n]) :: m[n];
    forall n | n in m' ensures exists k :: 0 <= k < |kept| && kept[k].0 == n {
      var j: nat :| j < |entries| && entries[j].0 == n;
      assert j in from;
      var k :| 0 <= k < |from| && from[k] == j;
      assert kept[k].0 == n;
    }
  }

  lemma Scanned<T>(entries: seq<(IpNet, T)>, m: map<IpNet, T>, a: IpAddr, best: int, r: Option<T>)
    requires Represents(entries, m) && a.Valid() && -1 <= best < |entries|
    requires best == -1 ==> r == None && forall k | 0 <= k < |entries| :: !entries[k].0.Contains(a)
    requires best >= 0 ==>
               && entries[best].0.Contains(a) && r == Some(entries[best].1)
               && forall k | 0 <= k < |entries| && entries[k].0.Contains(a) :: entries[k].0.len <= entries[best].0.len
    ensures ValidNets(m) && Answers(m, a, r)
  {
    forall n | n in m ensures n.Valid() && n.Truncated() && exists k :: 0 <= k < |entries| && entries[k].0 == n {
    }
    if best >= 0 {
      assert IsLongest(m, a, entries[best].0);
    }
  }

  // ---------- the device's peers ----------

  /** Inserting a peer's prefixes one after another. */
  ghost function InsertAll<T>(m: map<IpNet, T>, nets: seq<IpNet>, owner: T): map<IpNet, T>
    requires forall n | n in nets :: n.Valid()
  {
    if nets == [] then m
    else
      var last := |nets| - 1;
      InsertAll(m, nets[..last], owner)[nets[last].Trunc() := owner]
  }

  ghost function Truncs(nets: seq<IpNet>): set<IpNet>
    requires forall n | n in nets :: n.Valid()
  {
    set i | 0 <= i < |nets| :: nets[i].Trunc()
  }

  lemma {:induction false} InsertAllEffect<T>(m: map<IpNet, T>, nets: seq<IpNet>, owner: T)
    requires forall n | n in nets :: n.Valid()
    ensures var m' := InsertAll(m, nets, owner);
            && m'.Keys == m.Keys + Truncs(nets)
            && forall n | n in m' :: m'[n] == if n in Truncs(nets) then owner else m[n]
    decreases |nets|
  {
    if nets != [] {
      var last := |nets| - 1;
      InsertAllEffect(m, nets[..last], owner);
      assert Truncs(nets) == Truncs(nets[..last]) + {nets[last].Trunc()};
    }
  }

  ghost function Owned<T>(m: map<IpNet, T>, owner: T): set<IpNet> {
    set n | n in m && m[n] == owner
  }

  lemma Reassigned<T>(m: map<IpNet, T>, others: map<IpNet, T>, nets: seq<IpNet>, owner: T)
    requires forall n | n in nets :: n.Valid()
    requires forall n :: n in others <==> n in m && m[n] != owner
    requires forall n | n in others :: others[n] == m[n]
    ensures var m' := InsertAll(others, nets, owner);
            && Owned(m', owner) == Truncs(nets)
            && (forall other | other != owner :: Owned(m', other) == Owned(m, other) - Truncs(nets))
            && (forall n | n in m' :: m'[n] == owner || (n in m && m'[n] == m[n]))
  {
    InsertAllEffect(others, nets, owner);
    var m' := InsertAll(others, nets, owner);
    forall other | other != owner ensures Owned(m', other) == Owned(m, other) - Truncs(nets) {
      forall n ensures n in Owned(m', other) <==> n in Owned(m, other) - Truncs(nets) {}
    }
  }

  type PeerKey = nat

  datatype DeviceError = AlreadyRegistered | UnknownPeer(key: PeerKey) | PeerRemoved

  datatype NetsUpdate = Keep | Clear | Set(nets: seq<IpNet>)

  class Device {
    var peers: set<PeerKey>
    const allowed: Table<PeerKey>

    /** Every prefix belongs to a registered peer. */
    ghost predicate Valid()
      reads this, allowed
    {
      allowed.Valid() && forall n | n in allowed.owners :: allowed.owners[n] in peers
    }

    constructor ()
      ensures Valid() && peers == {} && allowed.owners == map[] && fresh(allowed)
    {
      peers := {};
      allowed := new Table<PeerKey>();
    }

    method InsertNets(nets: seq<IpNet>, owner: PeerKey)
      requires allowed.Valid() && forall n | n in nets :: n.Valid()
      modifies allowed
      ensures allowed.Valid() && allowed.owners == InsertAll(old(allowed.owners), nets, owner)
    {
      for i := 0 to |nets|
        invariant allowed.Valid()
        invariant allowed.owners == InsertAll(old(allowed.owners), nets[..i], owner)
      {
        assert nets[..i + 1][..i] == nets[..i];
        allowed.Insert(nets[i], owner);
      }
      assert nets[..|nets|] == nets;
    }

    /** Registers a peer with its prefixes; `registered` is the tunnel's own answer. */
    method AddPeer(key: PeerKey, nets: seq<IpNet>, registered: bool) returns (r: Result<(), DeviceError>)
      requires Valid() && forall n | n in nets :: n.Valid()
      modifies this, allowed
      ensures Valid()
      ensures r == if key in old(peers) || !registered then Err(AlreadyRegistered) else Ok(())
      ensures r.Err? ==> peers == old(peers) && allowed.owners == old(allowed.owners)
      ensures r.Ok? ==>
                && peers == old(peers) + {key}
                && allowed.owners == InsertAll(old(allowed.owners), nets, key)
                && Owned(allowed.owners, key) == Truncs(nets)
                && forall other | other != key :: Owned(allowed.owners, other) == Owned(old(allowed.owners), other) - Truncs(nets)
    {
      if key in peers || !registered {
        return Err(AlreadyRegistered);
      }
      InsertNets(nets, key);
      InsertAllEffect(old(allowed.owners), nets, key);
      peers := peers + {key};
      return Ok(());
    }

    /** Changes a peer's prefixes; `accepted` is the tunnel's own answer. */
    method SetPeer(key: PeerKey, update: NetsUpdate, accepted: bool) returns (r: Result<(), DeviceError>)
      requires Valid() && (update.Set? ==> forall n | n in update.nets :: n.Valid())
      modifies this, allowed
      ensures Valid() && peers == old(peers)
      ensures r == if key !in old(peers) then Err(UnknownPeer(key)) else if !accepted then Err(PeerRemoved) else Ok(())
      ensures r.Err? || update.Keep? ==> allowed.owners == old(allowed.owners)
      ensures r.Ok? && !update.Keep? ==>
                var nets := if update.Set? then Truncs(update.nets) else {};
                && Owned(allowed.owners, key) == nets
                && forall other | other != key :: Owned(allowed.owners, other) == Owned(old(allowed.owners), other) - nets
    {
      if key !in peers {
        return Err(UnknownPeer(key));
      }
      if !accepted {
        return Err(PeerRemoved);
      }
      if !update.Keep? {
        Reassign(key, if update.Set? then update.nets else []);
      }
      return Ok(());
    }

    /** Takes all prefixes from a peer and gives it these. */
    method Reassign(key: PeerKey, nets: seq<IpNet>)
      requires Valid() && key in peers && forall n | n in nets :: n.Valid()
      modifies allowed
      ensures Valid() && Owned(allowed.owners, key) == Truncs(nets)
      ensures forall other | other != key :: Owned(allowed.owners, other) == Owned(old(allowed.owners), other) - Truncs(nets)
    {
      allowed.Retain(owner => owner != key);
      ghost var others := allowed.owners;
      InsertNets(nets, key);
      Reassigned(old(allowed.owners), others, nets, key);
    }

    method RemovePeer(key: PeerKey) returns (removed: bool)
      requires Valid()
      modifies this, allowed
      ensures Valid() && removed == (key in old(peers)) && peers == old(peers) - {key}
      ensures removed ==> Owned(allowed.owners, key) == {}
      ensures forall other | other != key || !removed :: Owned(allowed.owners, other) == Owned(old(allowed.owners), other)
    {
      if key !in peers {
        return false;
      }
      peers := peers - {key};
      allowed.Retain(owner => owner != key);
      return true;
    }
  }
}
