/** Receiver-index routing: the peer registry and the read loop's index table,
    kept in step by queued control messages. */
module Router {
  import opened Wrappers

  type Key = nat
  type Channel = nat

  datatype Control = Bind(key: Key, index: nat) | Retire(key: Key, index: nat) | Purge(channel: Channel)

  type Registry = map<Key, Channel>
  type Indices = map<nat, Channel>

  function Entry(registry: Registry, key: Key): Option<Channel> {
    if key in registry then Some(registry[key]) else None
  }

  /** One control message applied to the index table, given the registry entry
      that was read for its key. */
  function Apply(indices: Indices, c: Control, entry: Option<Channel>): (r: Indices)
    ensures forall i | i in r :: (i in indices && r[i] == indices[i]) || (c.Bind? && c.index == i && Some(r[i]) == entry)
  {
    match c
    case Bind(_, index) =>
      if entry.Some? && index !in indices then indices[index := entry.value] else indices
    case Retire(_, index) =>
      if entry.Some? && index in indices && indices[index] == entry.value then indices - {index} else indices
    case Purge(channel) =>
      map i | i in indices && indices[i] != channel :: indices[i]
  }

  /** The registry shared by the tunnel handle and the read loop. */
  class RoutingTable {
    var peers: Registry
    var control: seq<Control>
    var nextChannel: Channel

    ghost predicate Valid()
      reads this
    {
      && (forall k | k in peers :: peers[k] < nextChannel)
      && (forall j, k | j in peers && k in peers && peers[j] == peers[k] :: j == k)
    }

    constructor ()
      ensures Valid() && peers == map[] && control == []
    {
      peers, control, nextChannel := map[], [], 0;
    }

    /** Registers a key under a channel never used before; a registered key is refused. */
    method RegisterPeer(key: Key) returns (r: Option<Channel>)
      requires Valid()
      modifies this`peers, this`nextChannel
      ensures Valid()
      ensures key in old(peers) ==> r == None && peers == old(peers)
      ensures key !in old(peers) ==>
                r == Some(old(nextChannel)) && peers == old(peers)[key := old(nextChannel)] && nextChannel == old(nextChannel) + 1
    {
      if key in peers {
        return None;
      }
      r := Some(nextChannel);
      peers := peers[key := nextChannel];
      nextChannel := nextChannel + 1;
    }

    method RemovePeer(key: Key)
      requires Valid()
      modifies this`peers, this`control
      ensures Valid()
      ensures peers == old(peers) - {key}
      ensures control == old(control) + if key in old(peers) then [Purge(old(peers)[key])] else []
    {
      if key !in peers {
        return;
      }
      var channel := peers[key];
      peers := peers - {key};
      control := control + [Purge(channel)];
    }
  }

  /** The index table owned by the read loop. */
  class IndexRouter {
    var indices: Indices

    constructor ()
      ensures indices == map[]
    {
      indices := map[];
    }

    method ApplyControl(c: Control, table: RoutingTable)
      modifies this
      ensures indices == Apply(old(indices), c, if c.Purge? then None else Entry(table.peers, c.key))
    {
      match c {
        case Bind(key, index) =>
          if key !in table.peers { return; }
          if index !in indices {
            indices := indices[index := table.peers[key]];
          }
        case Retire(key, index) =>
          if key !in table.peers { return; }
          if index in indices && indices[index] == table.peers[key] {
            indices := indices - {index};
          }
        case Purge(channel) =>
          indices := map i | i in indices && indices[i] != channel :: indices[i];
      }
    }
  }
}

/** Agreement between the index table and the machines while messages are in
    flight: many peers, registered and removed at will. */
module IndexAgreement {
  import opened Wrappers
  import opened Router
  import ActorSpec

  /** Registered peers, the indices each peer's machine answers to, the index
      table and the messages still queued for it. */
  datatype Net = Net(registry: Registry, live: map<Key, set<nat>>, indices: Indices, queue: seq<Control>)

  datatype Action =
    | Register(key: Key, channel: Channel)
    | Remove(key: Key)
    | Arm(key: Key, messages: seq<ActorSpec.Control>)
    | Stray(key: Key, message: ActorSpec.Control)  // from an actor that outlives its registration
    | ApplyHead

  function Tag(key: Key, m: ActorSpec.Control): Control {
    match m
    case Bind(i) => Control.Bind(key, i)
    case Retire(i) => Control.Retire(key, i)
  }

  function Tagged(key: Key, messages: seq<ActorSpec.Control>): (s: seq<Control>)
    ensures |s| == |messages| && forall i | 0 <= i < |s| :: s[i] == Tag(key, messages[i])
  {
    seq(|messages|, i requires 0 <= i < |messages| => Tag(key, messages[i]))
  }

  /** No message of an earlier actor of the key is still queued. */
  predicate Quiet(queue: seq<Control>, key: Key) {
    forall c | c in queue && !c.Purge? :: c.key != key
  }

  /** A channel nothing refers to yet. */
  predicate NewChannel(n: Net, channel: Channel) {
    channel !in n.registry.Values && channel !in n.indices.Values && Control.Purge(channel) !in n.queue
  }

  /** The index is live at no other peer. */
  predicate Unheld(n: Net, key: Key, index: nat) {
    forall k | k in n.live && k != key :: index !in n.live[k]
  }

  /** The table routes no index to the key that is live at another peer. */
  predicate Removable(n: Net, key: Key)
    requires key in n.registry
  {
    forall i | i in n.indices && n.indices[i] == n.registry[key] :: Unheld(n, key, i)
  }

  /** Actors draw indices outside every other live set; a key may be registered
      again when nothing of its earlier actor is queued. */
  predicate Enabled(n: Net, a: Action) {
    match a
    case Register(key, channel) => key !in n.registry && NewChannel(n, channel) && Quiet(n.queue, key)
    case Remove(key) => key in n.registry
    case Arm(key, messages) => key in n.registry && key in n.live && forall m | m in messages && m.Bind? :: Unheld(n, key, m.index)
    case Stray(key, _) => key !in n.registry
    case ApplyHead => n.queue != []
  }

  function Do(n: Net, a: Action): Net
    requires Enabled(n, a)
  {
    match a
    case Register(key, channel) => n.(registry := n.registry[key := channel], live := n.live[key := {}])
    case Remove(key) =>
      n.(registry := n.registry - {key}, live := n.live - {key}, queue := n.queue + [Control.Purge(n.registry[key])])
    case Arm(key, messages) => Armed(n, key, messages)
    case Stray(key, message) => n.(queue := n.queue + [Tag(key, message)])
    case ApplyHead => n.(indices := ApplyIn(n.indices, n.queue[0], n.registry), queue := n.queue[1..])
  }

  function Armed(n: Net, key: Key, messages: seq<ActorSpec.Control>): Net
    requires key in n.live
  {
    n.(live := n.live[key := ActorSpec.Bound(n.live[key], messages)], queue := n.queue + Tagged(key, messages))
  }

  function ApplyIn(indices: Indices, c: Control, registry: Registry): Indices {
    Apply(indices, c, if c.Purge? then None else Entry(registry, c.key))
  }

  /** The table once everything queued has been applied. */
  function Folded(indices: Indices, queue: seq<Control>, registry: Registry): Indices
    decreases |queue|
  {
    if queue == [] then indices else Folded(ApplyIn(indices, queue[0], registry), queue[1..], registry)
  }

  /** A run in which every removal finds its key removable. */
  predicate ValidRun(n: Net, actions: seq<Action>)
    decreases |actions|
  {
    actions == [] ||
    (&& Enabled(n, actions[0]) && (actions[0].Remove? ==> Removable(n, actions[0].key))
     && ValidRun(Do(n, actions[0]), actions[1..]))
  }

  function Run(n: Net, actions: seq<Action>): Net
    requires ValidRun(n, actions)
    decreases |actions|
  {
    if actions == [] then n else Run(Do(n, actions[0]), actions[1..])
  }

  const START := Net(map[], map[], map[], [])

  // ---------- one index at a time ----------

  function At(indices: Indices, i: nat): Option<Channel> {
    if i in indices then Some(indices[i]) else None
  }

  /** What one message does to the entry of one index. */
  function CellStep(x: Option<Channel>, c: Control, registry: Registry, i: nat): Option<Channel> {
    match c
    case Bind(k, j) => if j == i && k in registry && x.None? then Some(registry[k]) else x
    case Retire(k, j) => if j == i && k in registry && x == Some(registry[k]) then None else x
    case Purge(d) => if x == Some(d) then None else x
  }

  function Cell(x: Option<Channel>, queue: seq<Control>, registry: Registry, i: nat): Option<Channel>
    decreases |queue|
  {
    if queue == [] then x else Cell(CellStep(x, queue[0], registry, i), queue[1..], registry, i)
  }

  /** A bind of a registered peer does not meet another registered peer's entry. */
  predicate LegalStep(x: Option<Channel>, c: Control, registry: Registry, i: nat) {
    c.Bind? && c.index == i && c.key in registry && x.Some? ==> x.value == registry[c.key] || x.value !in registry.Values
  }

  predicate Legal(x: Option<Channel>, queue: seq<Control>, registry: Registry, i: nat)
    decreases |queue|
  {
    queue == [] || (LegalStep(x, queue[0], registry, i) && Legal(CellStep(x, queue[0], registry, i), queue[1..], registry, i))
  }

  /** The entry is the channel of the peer at which the index is live, and empty when there is none. */
  predicate HeldBy(x: Option<Channel>, registry: Registry, live: map<Key, set<nat>>, i: nat) {
    && (forall k | k in live && k in registry && i in live[k] :: x == Some(registry[k]))
    && (x.Some? ==> exists k :: k in live && k in registry && i in live[k] && registry[k] == x.value)
  }

  predicate CellOk(n: Net, i: nat) {
    var x := At(n.indices, i);
    Legal(x, n.queue, n.registry, i) && HeldBy(Cell(x, n.queue, n.registry, i), n.registry, n.live, i)
  }

  lemma ApplyIsCellStep(indices: Indices, c: Control, registry: Registry, i: nat)
    ensures At(ApplyIn(indices, c, registry), i) == CellStep(At(indices, i), c, registry, i)
  {
  }

  lemma {:induction false} FoldedIsCell(indices: Indices, queue: seq<Control>, registry: Registry, i: nat)
    ensures At(Folded(indices, queue, registry), i) == Cell(At(indices, i), queue, registry, i)
    decreases |queue|
  {
    hide ApplyIn, CellStep, At;
    if queue != [] {
      ApplyIsCellStep(indices, queue[0], registry, i);
      FoldedIsCell(ApplyIn(indices, queue[0], registry), queue[1..], registry, i);
    }
  }

  lemma {:induction false} CellAppend(x: Option<Channel>, q: seq<Control>, c: Control, registry: Registry, i: nat)
    ensures Cell(x, q + [c], registry, i) == CellStep(Cell(x, q, registry, i), c, registry, i)
    ensures Legal(x, q + [c], registry, i) <==> Legal(x, q, registry, i) && LegalStep(Cell(x, q, registry, i), c, registry, i)
    decreases |q|
  {
    hide CellStep, LegalStep;
    if q == [] {
      assert [c][1..] == [] && q + [c] == [c];
    } else {
      assert (q + [c])[1..] == q[1..] + [c] && (q + [c])[0] == q[0];
      CellAppend(CellStep(x, q[0], registry, i), q[1..], c, registry, i);
    }
  }

  /** An entry without a registered owner outlives every message but its purge. */
  lemma {:induction false} Orphaned(c: Channel, queue: seq<Control>, registry: Registry, i: nat)
    requires c !in registry.Values && Control.Purge(c) !in queue
    ensures Cell(Some(c), queue, registry, i) == Some(c) && Legal(Some(c), queue, registry, i)
    decreases |queue|
  {
    if queue != [] {
      assert queue[0] in queue && forall m | m in queue[1..] :: m in queue;
      assert queue[0].Retire? && queue[0].key in registry ==> registry[queue[0].key] in registry.Values;
      Orphaned(c, queue[1..], registry, i);
    }
  }

  function Erase(x: Option<Channel>, c: Channel): Option<Channel> {
    if x == Some(c) then None else x
  }

  /** Leaving a peer's messages out erases its channel and changes nothing else. */
  lemma {:induction false} Erased(x: Option<Channel>, queue: seq<Control>, registry: Registry, key: Key, i: nat)
    requires key in registry && Injective(registry) && Control.Purge(registry[key]) !in queue && Legal(x, queue, registry, i)
    ensures Legal(Erase(x, registry[key]), queue, registry - {key}, i)
    ensures Cell(Erase(x, registry[key]), queue, registry - {key}, i) == Erase(Cell(x, queue, registry, i), registry[key])
    decreases |queue|
  {
    if queue != [] {
      assert queue[0] in queue && forall m | m in queue[1..] :: m in queue;
      ErasedStep(x, queue[0], registry, key, i);
      Erased(CellStep(x, queue[0], registry, i), queue[1..], registry, key, i);
    }
  }

  lemma ErasedStep(x: Option<Channel>, c: Control, registry: Registry, key: Key, i: nat)
    requires key in registry && Injective(registry) && c != Control.Purge(registry[key]) && LegalStep(x, c, registry, i)
    ensures LegalStep(Erase(x, registry[key]), c, registry - {key}, i)
    ensures CellStep(Erase(x, registry[key]), c, registry - {key}, i) == Erase(CellStep(x, c, registry, i), registry[key])
  {
    var registry' := registry - {key};
    assert forall k | k in registry' :: registry'[k] == registry[k] && registry[k] in registry.Values;
    assert registry[key] in registry.Values;
    if c.Bind? && c.index == i && c.key in registry && x.Some? && x.value !in registry.Values {
      assert x.value !in registry'.Values;
    }
  }

  /** A new registration is invisible to messages queued before it. */
  lemma {:induction false} CellOfNewKey(x: Option<Channel>, queue: seq<Control>, registry: Registry, key: Key, channel: Channel, i: nat)
    requires key !in registry && channel !in registry.Values && Quiet(queue, key) && x != Some(channel)
    requires Legal(x, queue, registry, i)
    ensures var registry' := registry[key := channel];
            && Legal(x, queue, registry', i)
            && Cell(x, queue, registry', i) == Cell(x, queue, registry, i) && Cell(x, queue, registry, i) != Some(channel)
    decreases |queue|
  {
    if queue != [] {
      var c := queue[0];
      var registry' := registry[key := channel];
      assert c in queue && forall m | m in queue[1..] :: m in queue;
      assert registry'.Values == registry.Values + {channel} by {
        assert registry'[key] == channel && forall k | k in registry :: registry'[k] == registry[k];
      }
      assert c.Bind? && c.key in registry ==> registry[c.key] in registry.Values;
      assert CellStep(x, c, registry', i) == CellStep(x, c, registry, i) && LegalStep(x, c, registry', i);
      CellOfNewKey(CellStep(x, c, registry, i), queue[1..], registry, key, channel, i);
    }
  }

  // ---------- invariant ----------

  predicate Injective(registry: Registry) {
    forall j, k | j in registry && k in registry && registry[j] == registry[k] :: j == k
  }

  predicate Spared(queue: seq<Control>, registry: Registry) {
    forall c | c in queue && c.Purge? :: c.channel !in registry.Values
  }

  ghost predicate Inv(n: Net) {
    && n.registry.Keys == n.live.Keys
    && Injective(n.registry) && Spared(n.queue, n.registry)
    && forall i: nat :: CellOk(n, i)
  }

  lemma RegisterKeeps(n: Net, key: Key, channel: Channel)
    requires Inv(n) && Enabled(n, Register(key, channel))
    ensures Inv(Do(n, Register(key, channel)))
  {
    hide CellOk;
    var t := Do(n, Register(key, channel));
    assert t.registry.Values == n.registry.Values + {channel} by {
      assert t.registry[key] == channel && forall k | k in n.registry :: t.registry[k] == n.registry[k];
    }
    assert forall k | k in n.registry :: n.registry[k] in n.registry.Values;
    forall i: nat ensures CellOk(t, i) { RegisterCell(n, key, channel, i); }
  }

  lemma RegisterCell(n: Net, key: Key, channel: Channel, i: nat)
    requires Inv(n) && Enabled(n, Register(key, channel))
    ensures CellOk(Do(n, Register(key, channel)), i)
  {
    hide Legal, Cell;
    var x, t := At(n.indices, i), Do(n, Register(key, channel));
    assert CellOk(n, i);
    assert x.Some? ==> x.value in n.indices.Values;
    CellOfNewKey(x, n.queue, n.registry, key, channel, i);
    var y := Cell(x, n.queue, n.registry, i);
    if y.Some? {
      var k :| k in n.live && k in n.registry && i in n.live[k] && n.registry[k] == y.value;
      assert k in t.live && k in t.registry && i in t.live[k] && t.registry[k] == y.value;
    }
    assert key !in n.live.Keys;
  }

  function AfterSend(n: Net, key: Key, m: ActorSpec.Control): Net
    requires key in n.live
  {
    n.(live := n.live[key := ActorSpec.Bound(n.live[key], [m])], queue := n.queue + [Tag(key, m)])
  }

  lemma SendOne(n: Net, key: Key, m: ActorSpec.Control)
    requires Inv(n) && key in n.registry && key in n.live && (m.Bind? ==> Unheld(n, key, m.index))
    ensures Inv(AfterSend(n, key, m))
  {
    hide CellOk, Unheld;
    forall i: nat ensures CellOk(AfterSend(n, key, m), i) { SendCell(n, key, m, i); }
  }

  /** One message of a registered peer moves its live set and the entry alike. */
  lemma SendCell(n: Net, key: Key, m: ActorSpec.Control, i: nat)
    requires Inv(n) && key in n.registry && key in n.live && (m.Bind? ==> Unheld(n, key, m.index))
    ensures CellOk(AfterSend(n, key, m), i)
  {
    hide Legal, Cell;
    var x, c := At(n.indices, i), Tag(key, m);
    assert CellOk(n, i);
    CellAppend(x, n.queue, c, n.registry, i);
    HeldStep(Cell(x, n.queue, n.registry, i), n, key, m, i);
  }

  lemma BoundOne(start: set<nat>, m: ActorSpec.Control)
    ensures ActorSpec.Bound(start, [m]) == if m.Bind? then start + {m.index} else start - {m.index}
  {
    assert [m][..|[m]| - 1] == [];
    assert ActorSpec.Bound(start, []) == start;
  }

  lemma HeldStep(y: Option<Channel>, n: Net, key: Key, m: ActorSpec.Control, i: nat)
    requires n.registry.Keys == n.live.Keys && Injective(n.registry) && HeldBy(y, n.registry, n.live, i)
    requires key in n.registry && key in n.live && (m.Bind? ==> Unheld(n, key, m.index))
    ensures LegalStep(y, Tag(key, m), n.registry, i)
    ensures HeldBy(CellStep(y, Tag(key, m), n.registry, i), n.registry, n.live[key := ActorSpec.Bound(n.live[key], [m])], i)
  {
    var after := ActorSpec.Bound(n.live[key], [m]);
    BoundOne(n.live[key], m);
    var live' := n.live[key := after];
    var y' := CellStep(y, Tag(key, m), n.registry, i);
    if y.Some? {
      var k :| k in n.live && k in n.registry && i in n.live[k] && n.registry[k] == y.value;
      if k != key || m != ActorSpec.Retire(i) { assert k in live' && i in live'[k]; }
    }
    if y'.Some? && m == ActorSpec.Bind(i) {
      assert key in live' && i in live'[key] && n.registry[key] == y'.value;
    }
  }

  lemma ArmKeeps(n: Net, key: Key, messages: seq<ActorSpec.Control>)
    requires Inv(n) && Enabled(n, Arm(key, messages))
    ensures Inv(Do(n, Arm(key, messages)))
  {
    hide Inv, Unheld, Armed;
    SendAll(n, key, messages);
  }

  lemma {:induction false} SendAll(n: Net, key: Key, messages: seq<ActorSpec.Control>)
    requires Inv(n) && key in n.registry && key in n.live && forall m | m in messages && m.Bind? :: Unheld(n, key, m.index)
    ensures Inv(Armed(n, key, messages))
    decreases |messages|
  {
    hide Inv, Unheld;
    if messages == [] {
      assert n.live[key := n.live[key]] == n.live && n.queue + [] == n.queue;
    } else {
      var k := |messages| - 1;
      var init, m := messages[..k], messages[k];
      assert m in messages && forall x | x in init :: x in messages;
      SendAll(n, key, init);
      var t := Armed(n, key, init);
      UnheldSame(n, t, key, m.index);
      SendOne(t, key, m);
      ArmedMore(n, key, messages);
    }
  }

  lemma ArmedMore(n: Net, key: Key, messages: seq<ActorSpec.Control>)
    requires key in n.live && messages != []
    ensures var k := |messages| - 1;
            Armed(n, key, messages) == AfterSend(Armed(n, key, messages[..k]), key, messages[k])
  {
    var k := |messages| - 1;
    var init, m := messages[..k], messages[k];
    assert messages == init + [m];
    BoundConcat(n.live[key], init, [m]);
    assert Tagged(key, messages) == Tagged(key, init) + [Tag(key, m)];
    assert n.queue + Tagged(key, messages) == n.queue + Tagged(key, init) + [Tag(key, m)];
  }

  lemma UnheldSame(n: Net, t: Net, key: Key, index: nat)
    requires n.live.Keys == t.live.Keys && forall k | k in n.live && k != key :: t.live[k] == n.live[k]
    ensures Unheld(n, key, index) == Unheld(t, key, index)
  {
  }

  lemma {:induction false} BoundConcat(start: set<nat>, x: seq<ActorSpec.Control>, y: seq<ActorSpec.Control>)
    ensures ActorSpec.Bound(start, x + y) == ActorSpec.Bound(ActorSpec.Bound(start, x), y)
    decreases |y|
  {
    if y == [] {
      assert x + y == x;
    } else {
      var n := |y| - 1;
      BoundConcat(start, x, y[..n]);
      assert (x + y)[..|x + y| - 1] == x + y[..n];
    }
  }

  lemma StrayKeeps(n: Net, key: Key, message: ActorSpec.Control)
    requires Inv(n) && key !in n.registry
    ensures Inv(Do(n, Stray(key, message)))
  {
    var t := Do(n, Stray(key, message));
    forall i: nat ensures CellOk(t, i) {
      hide Legal, Cell;
      assert CellOk(n, i);
      CellAppend(At(n.indices, i), n.queue, Tag(key, message), n.registry, i);
    }
  }

  lemma HeadKeeps(n: Net)
    requires Inv(n) && n.queue != []
    ensures Inv(Do(n, ApplyHead))
  {
    var t := Do(n, ApplyHead);
    assert forall c | c in t.queue :: c in n.queue;
    forall i: nat ensures CellOk(t, i) {
      hide ApplyIn, CellStep, LegalStep;
      assert CellOk(n, i);
      ApplyIsCellStep(n.indices, n.queue[0], n.registry, i);
    }
  }

  // ---------- removal ----------

  /** What a removal leaves of one entry: legal in any case, and right exactly
      when the entry was not the removed peer's while live at another. */
  lemma RemoveCell(n: Net, key: Key, i: nat)
    requires Inv(n) && key in n.registry
    ensures var t, x := Do(n, Remove(key)), At(n.indices, i);
            && Legal(x, t.queue, t.registry, i)
            && (HeldBy(Cell(x, t.queue, t.registry, i), t.registry, t.live, i) <==>
                  (x == Some(n.registry[key]) ==> Unheld(n, key, i)))
  {
    hide Legal, Cell;
    var t, x, c := Do(n, Remove(key)), At(n.indices, i), n.registry[key];
    assert CellOk(n, i) && c in n.registry.Values;
    assert c !in t.registry.Values by { assert forall k | k in t.registry :: t.registry[k] == n.registry[k]; }
    assert Control.Purge(c) !in n.queue;
    CellAppend(x, n.queue, Control.Purge(c), t.registry, i);
    var y := Cell(x, n.queue, n.registry, i);
    if x == Some(c) {
      Orphaned(c, n.queue, t.registry, i);
      OrphanHeld(n, key, i, y);
    } else {
      Erased(x, n.queue, n.registry, key, i);
      ErasedHeld(n, key, i, y);
    }
  }

  lemma OrphanHeld(n: Net, key: Key, i: nat, y: Option<Channel>)
    requires key in n.registry && n.registry.Keys == n.live.Keys && HeldBy(y, n.registry, n.live, i)
    ensures HeldBy(None, n.registry - {key}, n.live - {key}, i) <==> Unheld(n, key, i)
  {
    var live' := n.live - {key};
    if !Unheld(n, key, i) {
      var k :| k in n.live && k != key && i in n.live[k];
      assert k in n.registry.Keys && k in live' && i in live'[k];
    }
  }

  lemma ErasedHeld(n: Net, key: Key, i: nat, y: Option<Channel>)
    requires key in n.registry && Injective(n.registry) && n.registry.Keys == n.live.Keys && HeldBy(y, n.registry, n.live, i)
    ensures HeldBy(Erase(y, n.registry[key]), n.registry - {key}, n.live - {key}, i)
  {
    var registry', live' := n.registry - {key}, n.live - {key};
    if y.Some? && y.value != n.registry[key] {
      var k :| k in n.live && k in n.registry && i in n.live[k] && n.registry[k] == y.value;
      assert k in live' && k in registry' && i in live'[k] && registry'[k] == y.value;
    }
  }

  lemma RemoveKeeps(n: Net, key: Key)
    requires Inv(n) && key in n.registry
    ensures Inv(Do(n, Remove(key))) <==> Removable(n, key)
  {
    hide CellOk, Unheld;
    var t, c := Do(n, Remove(key)), n.registry[key];
    assert c in n.registry.Values && c !in t.registry.Values
    by { assert forall k | k in t.registry :: t.registry[k] == n.registry[k]; }
    forall i: nat ensures CellOk(t, i) <==> (At(n.indices, i) == Some(c) ==> Unheld(n, key, i)) {
      RemoveOk(n, key, i);
    }
    assert Spared(t.queue, t.registry) && Injective(t.registry) by {
      assert forall k | k in t.registry :: t.registry[k] == n.registry[k] && t.registry[k] in n.registry.Values;
    }
    if Removable(n, key) {
      assert forall i: nat :: CellOk(t, i);
    } else {
      var i :| i in n.indices && n.indices[i] == c && !Unheld(n, key, i);
      assert !CellOk(t, i);
    }
  }

  lemma RemoveOk(n: Net, key: Key, i: nat)
    requires Inv(n) && key in n.registry
    ensures CellOk(Do(n, Remove(key)), i) <==> (At(n.indices, i) == Some(n.registry[key]) ==> Unheld(n, key, i))
  {
    hide Legal, Cell, HeldBy, Unheld;
    RemoveCell(n, key, i);
  }

  // ---------- runs ----------

  lemma StepKeeps(n: Net, a: Action)
    requires Inv(n) && Enabled(n, a) && (a.Remove? ==> Removable(n, a.key))
    ensures Inv(Do(n, a))
  {
    hide Inv;
    match a
    case Register(key, channel) => RegisterKeeps(n, key, channel);
    case Remove(key) => RemoveKeeps(n, key);
    case Arm(key, messages) => ArmKeeps(n, key, messages);
    case Stray(key, message) => StrayKeeps(n, key, message);
    case ApplyHead => HeadKeeps(n);
  }

  lemma {:induction false} RunKeeps(n: Net, actions: seq<Action>)
    requires Inv(n) && ValidRun(n, actions)
    ensures Inv(Run(n, actions))
    decreases |actions|
  {
    hide Inv, Enabled, Do, Removable;
    if actions != [] {
      StepKeeps(n, actions[0]);
      RunKeeps(Do(n, actions[0]), actions[1..]);
    }
  }

  lemma StartKeeps()
    ensures Inv(START)
  {
  }

  // ---------- agreement ----------

  /** The indices a table routes to a channel. */
  function Routed(indices: Indices, channel: Channel): set<nat> {
    set i | i in indices && indices[i] == channel
  }

  /** A table routes exactly each peer's live indices to that peer's channel, and nothing else. */
  predicate Agrees(table: Indices, registry: Registry, live: map<Key, set<nat>>) {
    && registry.Keys == live.Keys
    && (forall k | k in live :: Routed(table, registry[k]) == live[k])
    && (forall i | i in table :: exists k :: k in live && i in live[k])
  }

  /** Agreement is every entry being held by the right peer. */
  lemma AgreesByCells(table: Indices, registry: Registry, live: map<Key, set<nat>>)
    requires registry.Keys == live.Keys && Injective(registry)
    ensures Agrees(table, registry, live) <==> forall i: nat :: HeldBy(At(table, i), registry, live, i)
  {
    if forall i: nat :: HeldBy(At(table, i), registry, live, i) {
      forall k | k in live ensures Routed(table, registry[k]) == live[k] {
        assert k in registry.Keys;
        forall i ensures i in Routed(table, registry[k]) <==> i in live[k] {
          if i in table { assert HeldBy(At(table, i), registry, live, i); }
          if i in live[k] { assert HeldBy(At(table, i), registry, live, i); }
        }
      }
      forall i | i in table ensures exists k :: k in live && i in live[k] {
        assert HeldBy(At(table, i), registry, live, i);
      }
    }
    if Agrees(table, registry, live) {
      forall i: nat ensures HeldBy(At(table, i), registry, live, i) { HeldByAgreement(table, registry, live, i); }
    }
  }

  lemma HeldByAgreement(table: Indices, registry: Registry, live: map<Key, set<nat>>, i: nat)
    requires Agrees(table, registry, live)
    ensures HeldBy(At(table, i), registry, live, i)
  {
    forall k | k in live && k in registry && i in live[k] ensures At(table, i) == Some(registry[k]) {
      assert i in Routed(table, registry[k]);
    }
    if i in table {
      var k :| k in live && i in live[k];
      assert k in registry.Keys && i in Routed(table, registry[k]);
    }
  }

  /** What the folded table of a state says, entry by entry. */
  lemma FoldedAgrees(n: Net)
    requires n.registry.Keys == n.live.Keys && Injective(n.registry)
    ensures Agrees(Folded(n.indices, n.queue, n.registry), n.registry, n.live) <==>
            forall i: nat :: HeldBy(Cell(At(n.indices, i), n.queue, n.registry, i), n.registry, n.live, i)
  {
    hide HeldBy, Agrees, Cell, Folded, At;
    var table := Folded(n.indices, n.queue, n.registry);
    AgreesByCells(table, n.registry, n.live);
    forall i: nat ensures At(table, i) == Cell(At(n.indices, i), n.queue, n.registry, i) {
      FoldedIsCell(n.indices, n.queue, n.registry, i);
    }
  }

  lemma DrainAgrees(n: Net)
    requires Inv(n)
    ensures Agrees(Folded(n.indices, n.queue, n.registry), n.registry, n.live)
  {
    hide HeldBy, Agrees, Cell, Folded, Legal;
    FoldedAgrees(n);
    forall i: nat ensures HeldBy(Cell(At(n.indices, i), n.queue, n.registry, i), n.registry, n.live, i) {
      assert CellOk(n, i);
    }
  }

  /** Index agreement. Indices are drawn outside every live set and nothing more
      is asked of them. After any interleaving of registrations, removals of
      removable keys, actor arms, messages of removed actors and table updates,
      folding the queued messages over the table yields exactly the live indices
      of the registered peers; so when the queue is drained, as the biased read
      loop guarantees before it looks at packets, an index is looked up to a
      peer exactly when that peer's machine answers to it. */
  lemma IndexCacheAgreement(actions: seq<Action>)
    requires ValidRun(START, actions)
    ensures var n := Run(START, actions);
            && Agrees(Folded(n.indices, n.queue, n.registry), n.registry, n.live)
            && (n.queue == [] ==> Agrees(n.indices, n.registry, n.live))
  {
    hide Inv, ValidRun, Run, Agrees;
    StartKeeps();
    RunKeeps(START, actions);
    DrainAgrees(Run(START, actions));
  }

  /** Exactly when a removal is harmless. After any such run, removing a key
      keeps the agreement if and only if the table, as it is, routes no index to
      that key which is live at another peer. */
  lemma RemovalExactly(actions: seq<Action>, key: Key)
    requires ValidRun(START, actions) && key in Run(START, actions).registry
    ensures var n := Run(START, actions);
            var t := Do(n, Remove(key));
            Agrees(Folded(t.indices, t.queue, t.registry), t.registry, t.live) <==> Removable(n, key)
  {
    hide ValidRun, Run;
    StartKeeps();
    RunKeeps(START, actions);
    RemovalAgrees(Run(START, actions), key);
  }

  lemma RemovalAgrees(n: Net, key: Key)
    requires Inv(n) && key in n.registry
    ensures var t := Do(n, Remove(key));
            Agrees(Folded(t.indices, t.queue, t.registry), t.registry, t.live) <==> Removable(n, key)
  {
    hide Agrees, Folded, Cell, Legal, HeldBy, CellOk, Unheld;
    var t, c := Do(n, Remove(key)), n.registry[key];
    FoldedAgrees(t);
    forall i: nat
      ensures HeldBy(Cell(At(t.indices, i), t.queue, t.registry, i), t.registry, t.live, i) <==>
              (At(n.indices, i) == Some(c) ==> Unheld(n, key, i))
    {
      RemoveCell(n, key, i);
    }
    if !Removable(n, key) {
      var i :| i in n.indices && n.indices[i] == c && !Unheld(n, key, i);
      assert !HeldBy(Cell(At(t.indices, i), t.queue, t.registry, i), t.registry, t.live, i);
    }
  }

  // ---------- draws that make every removal harmless ----------

  /** The index is held for no other peer: the table does not route it to
      another channel, and no other registered peer's bind is queued. */
  predicate Fresh(n: Net, key: Key, index: nat)
    requires key in n.registry
  {
    && (index in n.indices ==> n.indices[index] == n.registry[key])
    && (forall c | c in n.queue && c.Bind? && c.index == index && c.key in n.registry :: c.key == key)
  }

  /** A run whose draws are fresh; removals are not restricted. */
  predicate FreshRun(n: Net, actions: seq<Action>)
    decreases |actions|
  {
    actions == [] ||
    (&& Enabled(n, actions[0])
     && (actions[0].Arm? ==> forall m | m in actions[0].messages && m.Bind? :: Fresh(n, actions[0].key, m.index))
     && FreshRun(Do(n, actions[0]), actions[1..]))
  }

  /** Whatever is live was drawn fresh and still is. */
  predicate LiveFresh(n: Net) {
    forall k, i | k in n.registry && k in n.live && i in n.live[k] :: Fresh(n, k, i)
  }

  lemma FreshIsRemovable(n: Net, key: Key)
    requires LiveFresh(n) && n.registry.Keys == n.live.Keys && Injective(n.registry) && key in n.registry
    ensures Removable(n, key)
  {
    forall i | i in n.indices && n.indices[i] == n.registry[key] ensures Unheld(n, key, i) {
      forall k | k in n.live && k != key ensures i !in n.live[k] {
        assert k in n.registry.Keys;
        assert i in n.live[k] ==> Fresh(n, k, i);
      }
    }
  }

  lemma {:induction false} BoundWithin(start: set<nat>, messages: seq<ActorSpec.Control>, i: nat)
    requires i in ActorSpec.Bound(start, messages)
    ensures i in start || ActorSpec.Bind(i) in messages
    decreases |messages|
  {
    if messages != [] {
      var k := |messages| - 1;
      assert messages[k] in messages && forall m | m in messages[..k] :: m in messages;
      if i in ActorSpec.Bound(start, messages[..k]) { BoundWithin(start, messages[..k], i); }
    }
  }

  lemma ArmFresh(n: Net, key: Key, messages: seq<ActorSpec.Control>)
    requires LiveFresh(n) && n.registry.Keys == n.live.Keys && Enabled(n, Arm(key, messages))
    requires forall m | m in messages && m.Bind? :: Fresh(n, key, m.index)
    ensures LiveFresh(Do(n, Arm(key, messages)))
  {
    var t, tagged := Do(n, Arm(key, messages)), Tagged(key, messages);
    forall c | c in tagged ensures !c.Purge? && c.key == key && (c.Bind? ==> ActorSpec.Bind(c.index) in messages) {
      var j :| 0 <= j < |tagged| && tagged[j] == c;
      assert messages[j] in messages;
    }
    forall k, i | k in t.registry && k in t.live && i in t.live[k] ensures Fresh(t, k, i) {
      if k == key {
        BoundWithin(n.live[key], messages, i);
        if ActorSpec.Bind(i) in messages { assert Fresh(n, key, i); }
      } else {
        assert Fresh(n, k, i);
        assert ActorSpec.Bind(i) in messages ==> Unheld(n, key, i);
      }
    }
  }

  lemma StepFresh(n: Net, a: Action)
    requires LiveFresh(n) && Inv(n) && Enabled(n, a)
    requires a.Arm? ==> forall m | m in a.messages && m.Bind? :: Fresh(n, a.key, m.index)
    ensures LiveFresh(Do(n, a))
  {
    hide CellOk, NewChannel;
    var t := Do(n, a);
    if a.Arm? {
      ArmFresh(n, a.key, a.messages);
    } else {
      forall k, i | k in t.registry && k in t.live && i in t.live[k] ensures Fresh(t, k, i) {
        assert k in n.registry && k in n.live && i in n.live[k];
        assert Fresh(n, k, i);
        if a.ApplyHead? {
          assert n.queue[0] in n.queue && forall c | c in t.queue :: c in n.queue;
        }
      }
    }
  }

  /** Runs with fresh draws need no guard on removals, so they agree too. */
  lemma {:induction false} FreshRunIsValid(n: Net, actions: seq<Action>)
    requires LiveFresh(n) && Inv(n) && FreshRun(n, actions)
    ensures ValidRun(n, actions)
    decreases |actions|
  {
    hide LiveFresh, CellOk, Enabled, Do, Removable, Fresh;
    if actions != [] {
      var a := actions[0];
      if a.Remove? { assert a.key in n.registry by { RemoveNames(n, a); } FreshIsRemovable(n, a.key); }
      StepFresh(n, a);
      StepKeeps(n, a);
      FreshRunIsValid(Do(n, a), actions[1..]);
    }
  }

  lemma RemoveNames(n: Net, a: Action)
    requires a.Remove? && Enabled(n, a)
    ensures a.key in n.registry
  {
  }

  lemma FreshDrawsAgree(actions: seq<Action>)
    requires FreshRun(START, actions)
    ensures ValidRun(START, actions)
    ensures var n := Run(START, actions); Agrees(Folded(n.indices, n.queue, n.registry), n.registry, n.live)
  {
    hide Inv, FreshRun, ValidRun, Run, Agrees;
    StartKeeps();
    FreshRunIsValid(START, actions);
    IndexCacheAgreement(actions);
  }

  // ---------- the guard is needed ----------

  /** Peer 1 binds 7, the bind is applied, and it retires 7 again; the retire is
      still queued when peer 2, to whom 7 is free, draws it. */
  function RetireQueued(): seq<Action> {
    [Register(1, 10), Arm(1, [ActorSpec.Bind(7)]), ApplyHead, Arm(1, [ActorSpec.Retire(7)]), Register(2, 20),
     Arm(2, [ActorSpec.Bind(7)])]
  }

  /** A removal that breaks agreement. Removing peer 1 now makes its retire
      ignored; the bind finds 7 taken and the purge deletes it, so peer 2's index
      is routed nowhere. */
  lemma UnguardedRemovalBreaks()
    ensures ValidRun(START, RetireQueued())
    ensures var n := Run(START, RetireQueued());
            && 1 in n.registry && 2 in n.live && 7 in n.live[2] && !Removable(n, 1)
            && Folded(Do(n, Remove(1)).indices, Do(n, Remove(1)).queue, Do(n, Remove(1)).registry) == map[]
  {
    hide Run, ValidRun, ApplyIn;
    RetireQueuedRun();
    LostBind();
    var n := Run(START, RetireQueued());
    assert 7 in n.indices && n.indices[7] == n.registry[1] && !Unheld(n, 1, 7) by { assert 7 in n.live[2]; }
    assert Do(n, Remove(1)).queue == [Control.Retire(1, 7), Control.Bind(2, 7), Control.Purge(10)];
    assert Do(n, Remove(1)).registry == map[2 := 20];
  }

  lemma RetireQueuedRun()
    ensures ValidRun(START, RetireQueued())
    ensures Run(START, RetireQueued()) ==
            Net(map[1 := 10, 2 := 20], map[1 := {}, 2 := {7}], map[7 := 10], [Control.Retire(1, 7), Control.Bind(2, 7)])
  {
    hide ApplyIn, Removable;
    var a := RetireQueued();
    var s1 := Do(START, a[0]);
    assert s1 == Net(map[1 := 10], map[1 := {}], map[], []);
    var s2 := Net(map[1 := 10], map[1 := {7}], map[], [Control.Bind(1, 7)]);
    BindOnce();
    var s3 := Net(map[1 := 10], map[1 := {7}], map[7 := 10], []);
    var s4 := Net(map[1 := 10], map[1 := {}], map[7 := 10], [Control.Retire(1, 7)]);
    RetireOnce();
    var s5 := Net(map[1 := 10, 2 := 20], map[1 := {}, 2 := {}], map[7 := 10], s4.queue);
    assert Enabled(s4, a[4]) && Do(s4, a[4]) == s5;
    BindAgain();
    assert a[5..][1..] == [];
    RunOne(s5, a[5..]);
    RunOne(s4, a[4..]);
    RunOne(s3, a[3..]);
    RunOne(s2, a[2..]);
    RunOne(s1, a[1..]);
    RunOne(START, a);
  }

  lemma BindOnce()
    ensures var n := Net(map[1 := 10], map[1 := {}], map[], []);
            var a := Arm(1, [ActorSpec.Bind(7)]);
            var bound := Net(map[1 := 10], map[1 := {7}], map[], [Control.Bind(1, 7)]);
            && Enabled(n, a) && Do(n, a) == bound
            && Do(bound, ApplyHead) == Net(map[1 := 10], map[1 := {7}], map[7 := 10], [])
  {
    assert Tagged(1, [ActorSpec.Bind(7)]) == [Control.Bind(1, 7)];
    assert [ActorSpec.Bind(7)][..0] == [];
    assert ActorSpec.Bound({}, [ActorSpec.Bind(7)]) == {7};
  }

  lemma RetireOnce()
    ensures var n := Net(map[1 := 10], map[1 := {7}], map[7 := 10], []);
            var a := Arm(1, [ActorSpec.Retire(7)]);
            Enabled(n, a) && Do(n, a) == Net(map[1 := 10], map[1 := {}], map[7 := 10], [Control.Retire(1, 7)])
  {
    assert Tagged(1, [ActorSpec.Retire(7)]) == [Control.Retire(1, 7)];
    assert [ActorSpec.Retire(7)][..0] == [];
    assert ActorSpec.Bound({7}, [ActorSpec.Retire(7)]) == {};
  }

  lemma BindAgain()
    ensures var n := Net(map[1 := 10, 2 := 20], map[1 := {}, 2 := {}], map[7 := 10], [Control.Retire(1, 7)]);
            var a := Arm(2, [ActorSpec.Bind(7)]);
            && Enabled(n, a)
            && Do(n, a) == Net(map[1 := 10, 2 := 20], map[1 := {}, 2 := {7}], map[7 := 10], [Control.Retire(1, 7), Control.Bind(2, 7)])
  {
    assert Tagged(2, [ActorSpec.Bind(7)]) == [Control.Bind(2, 7)];
    assert [ActorSpec.Bind(7)][..0] == [];
    assert ActorSpec.Bound({}, [ActorSpec.Bind(7)]) == {7};
    assert map[1 := {}, 2 := {}][2 := {7}] == map[1 := {}, 2 := {7}];
  }

  lemma LostBind()
    ensures Folded(map[7 := 10], [Control.Retire(1, 7), Control.Bind(2, 7), Control.Purge(10)], map[2 := 20]) == map[]
  {
    var q := [Control.Retire(1, 7), Control.Bind(2, 7), Control.Purge(10)];
    var registry: Registry := map[2 := 20];
    assert q[1..] == [Control.Bind(2, 7), Control.Purge(10)] && q[1..][1..] == [Control.Purge(10)];
    assert ApplyIn(map[7 := 10], q[0], registry) == map[7 := 10] == ApplyIn(map[7 := 10], q[1], registry);
    assert ApplyIn(map[7 := 10], q[2], registry) == map[];
    assert [Control.Purge(10)][1..] == [];
    assert Folded(map[7 := 10], q[2..], registry) == map[];
  }

  lemma RunOne(n: Net, actions: seq<Action>)
    requires actions != [] && !actions[0].Remove? && Enabled(n, actions[0]) && ValidRun(Do(n, actions[0]), actions[1..])
    ensures ValidRun(n, actions) && Run(n, actions) == Run(Do(n, actions[0]), actions[1..])
  {
  }
}
