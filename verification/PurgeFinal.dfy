/** Removal of peers under concurrency: other threads may register and remove
    keys between the read loop's registry read and its table update, and a
    removal and the sending of its purge are separate steps. */
module PurgeFinal {
  import opened Wrappers
  import opened Router

  /** A control message being applied, with the registry entry read for it. */
  datatype Reading = Reading(control: Control, entry: Option<Channel>)

  datatype Shared = Shared(
    registry: Registry,
    nextChannel: Channel,
    removing: set<Channel>,   // taken out of the registry, purge not yet sent
    queue: seq<Control>,
    reading: Option<Reading>,
    indices: Indices,
    purged: set<Channel>)     // purges applied so far

  datatype Action =
    | Register(key: Key)
    | Remove(key: Key)
    | SendPurge(channel: Channel)
    | SendIndex(control: Control)  // any actor, even one already removed
    | ReadEntry
    | Update

  predicate Enabled(s: Shared, a: Action) {
    match a
    case Register(key) => key !in s.registry
    case Remove(key) => key in s.registry
    case SendPurge(channel) => channel in s.removing
    case SendIndex(control) => !control.Purge?
    case ReadEntry => s.reading.None? && s.queue != []
    case Update => s.reading.Some?
  }

  function Do(s: Shared, a: Action): Shared
    requires Enabled(s, a)
  {
    match a
    case Register(key) => s.(registry := s.registry[key := s.nextChannel], nextChannel := s.nextChannel + 1)
    case Remove(key) => s.(registry := s.registry - {key}, removing := s.removing + {s.registry[key]})
    case SendPurge(channel) => s.(removing := s.removing - {channel}, queue := s.queue + [Purge(channel)])
    case SendIndex(control) => s.(queue := s.queue + [control])
    case ReadEntry =>
      var c := s.queue[0];
      s.(queue := s.queue[1..], reading := Some(Reading(c, if c.Purge? then None else Entry(s.registry, c.key))))
    case Update =>
      var r := s.reading.value;
      s.(reading := None, indices := Apply(s.indices, r.control, r.entry),
         purged := if r.control.Purge? then s.purged + {r.control.channel} else s.purged)
  }

  predicate ValidRun(s: Shared, actions: seq<Action>)
    decreases |actions|
  {
    actions == [] || (Enabled(s, actions[0]) && ValidRun(Do(s, actions[0]), actions[1..]))
  }

  function Run(s: Shared, actions: seq<Action>): Shared
    requires ValidRun(s, actions)
    decreases |actions|
  {
    if actions == [] then s else Run(Do(s, actions[0]), actions[1..])
  }

  const START := Shared(map[], 0, {}, [], None, map[], {})

  /** The channel's purge is on its way: owed, queued, or being applied. */
  predicate PurgeAhead(s: Shared, c: Channel) {
    || c in s.removing
    || Purge(c) in s.queue
    || (s.reading.Some? && s.reading.value.control == Purge(c))
  }

  /** The channel is reachable from the table, now or after the update in progress. */
  predicate Routed(s: Shared, c: Channel) {
    || c in s.indices.Values
    || (s.reading.Some? && s.reading.value.entry == Some(c))
  }

  ghost predicate Inv(s: Shared) {
    // channels are never reused
    && (forall k | k in s.registry :: s.registry[k] < s.nextChannel)
    && (forall j, k | j in s.registry && k in s.registry && s.registry[j] == s.registry[k] :: j == k)
    && (forall c: Channel | PurgeAhead(s, c) || c in s.purged :: c < s.nextChannel && c !in s.registry.Values)
    // each channel is purged once
    && (forall c | c in s.purged :: !PurgeAhead(s, c))
    && (forall c | c in s.removing :: Purge(c) !in s.queue && (s.reading.Some? ==> s.reading.value.control != Purge(c)))
    && (forall i, j | 0 <= i < j < |s.queue| && s.queue[i].Purge? :: s.queue[i] != s.queue[j])
    && (s.reading.Some? && s.reading.value.control.Purge? ==> s.reading.value.control !in s.queue && s.reading.value.entry == None)
    // whatever is routed is registered or about to be purged
    && (forall c: Channel | Routed(s, c) :: c in s.registry.Values || PurgeAhead(s, c))
  }

  lemma SendKeeps(s: Shared, a: Action)
    requires Inv(s) && Enabled(s, a) && (a.SendPurge? || a.SendIndex?)
    ensures Inv(Do(s, a))
  {
    var t := Do(s, a);
    var sent := if a.SendPurge? then Purge(a.channel) else a.control;
    assert forall c: Control :: c in t.queue <==> c in s.queue || c == sent;
    assert forall c: Channel :: PurgeAhead(t, c) <==> PurgeAhead(s, c);
  }

  lemma RegisterKeeps(s: Shared, key: Key)
    requires Inv(s) && key !in s.registry
    ensures Inv(Do(s, Register(key)))
  {
    var t := Do(s, Register(key));
    assert forall c: Channel :: PurgeAhead(t, c) <==> PurgeAhead(s, c);
    assert t.registry[key] == s.nextChannel;
    forall c | c in s.registry.Values ensures c in t.registry.Values {
      var k :| k in s.registry && s.registry[k] == c;
      assert t.registry[k] == c;
    }
  }

  lemma RemoveKeeps(s: Shared, key: Key)
    requires Inv(s) && key in s.registry
    ensures Inv(Do(s, Remove(key)))
  {
    var t := Do(s, Remove(key));
    var gone := s.registry[key];
    forall c | c in s.registry.Values && c != gone ensures c in t.registry.Values {
      var k :| k in s.registry && s.registry[k] == c;
      assert t.registry[k] == c;
    }
    assert gone in s.registry.Values && gone !in t.registry.Values;
    assert forall c: Channel :: PurgeAhead(t, c) <==> PurgeAhead(s, c) || c == gone;
  }

  lemma ReadKeeps(s: Shared)
    requires Inv(s) && Enabled(s, ReadEntry)
    ensures Inv(Do(s, ReadEntry))
  {
    var t := Do(s, ReadEntry);
    var head := s.queue[0];
    assert s.queue == [head] + t.queue;
    assert forall c: Control :: c in s.queue <==> c == head || c in t.queue;
    assert head.Purge? ==> head !in t.queue;
    assert forall c: Channel :: PurgeAhead(t, c) <==> PurgeAhead(s, c);
  }

  lemma UpdateKeeps(s: Shared)
    requires Inv(s) && Enabled(s, Update)
    ensures Inv(Do(s, Update))
  {
    var t := Do(s, Update);
    var r := s.reading.value;
    forall c | c in t.indices.Values ensures Routed(s, c) && r.control != Purge(c) {
      var i :| i in t.indices && t.indices[i] == c;
      if i in s.indices && s.indices[i] == c {
        assert c in s.indices.Values;
      }
    }
    assert forall c: Channel :: PurgeAhead(t, c) ==> PurgeAhead(s, c);
    assert forall c: Channel :: PurgeAhead(s, c) && r.control != Purge(c) ==> PurgeAhead(t, c);
  }

  lemma StepKeeps(s: Shared, a: Action)
    requires Inv(s) && Enabled(s, a)
    ensures Inv(Do(s, a)) && s.purged <= Do(s, a).purged
  {
    hide Inv;
    match a
    case Register(key) => RegisterKeeps(s, key);
    case Remove(key) => RemoveKeeps(s, key);
    case SendPurge(_) => SendKeeps(s, a);
    case SendIndex(_) => SendKeeps(s, a);
    case ReadEntry => ReadKeeps(s);
    case Update => UpdateKeeps(s);
  }

  lemma {:induction false} RunKeeps(s: Shared, actions: seq<Action>)
    requires Inv(s) && ValidRun(s, actions)
    ensures Inv(Run(s, actions)) && s.purged <= Run(s, actions).purged
    decreases |actions|
  {
    hide Inv, Enabled, Do;
    if actions != [] {
      StepKeeps(s, actions[0]);
      RunKeeps(Do(s, actions[0]), actions[1..]);
    }
  }

  lemma {:induction false} RunSplit(s: Shared, before: seq<Action>, after: seq<Action>)
    requires ValidRun(s, before + after)
    ensures ValidRun(s, before) && ValidRun(Run(s, before), after)
    ensures Run(s, before + after) == Run(Run(s, before), after)
    decreases |before|
  {
    if before == [] {
      assert before + after == after;
    } else {
      assert (before + after)[1..] == before[1..] + after;
      RunSplit(Do(s, before[0]), before[1..], after);
    }
  }

  /** Purge is final: once a removed peer's purge has been applied, no later
      state of any run routes an index to its channel, whatever other threads
      register or remove meanwhile and even if its key is registered again. */
  lemma PurgeIsFinal(before: seq<Action>, after: seq<Action>, channel: Channel)
    requires ValidRun(START, before + after)
    requires ValidRun(START, before) && channel in Run(START, before).purged
    ensures forall i | i in Run(START, before + after).indices :: Run(START, before + after).indices[i] != channel
  {
    hide ValidRun, Run, Do, Enabled;
    assert Inv(START);
    RunSplit(START, before, after);
    RunKeeps(START, before);
    RunKeeps(Run(START, before), after);
    var s := Run(START, before + after);
    assert !Routed(s, channel);
    forall i | i in s.indices ensures s.indices[i] != channel {
      assert s.indices[i] in s.indices.Values;
    }
  }

  /** Messages name a key, not a channel: a bind still queued from an earlier
      actor lands on the key's new registration. Index agreement therefore
      assumes no such message is in flight. */
  lemma StaleBindReachesNewActor()
    ensures var actions := StaleSetup() + [ReadEntry, Update, ReadEntry, Update];
            && ValidRun(START, actions)
            && Run(START, actions).indices == map[7 := 1] && Run(START, actions).registry == map[1 := 1]
  {
    hide Run, ValidRun, Do, Enabled;
    StaleQueued();
    StaleApplied();
    RunJoin(START, StaleSetup(), [ReadEntry, Update, ReadEntry, Update]);
  }

  /** A peer binds an index, is removed and purged, and its key is registered again. */
  function StaleSetup(): seq<Action> {
    [Register(1), SendIndex(Bind(1, 7)), Remove(1), SendPurge(0), Register(1)]
  }

  const STALE := Shared(map[1 := 1], 2, {}, [Bind(1, 7), Purge(0)], None, map[], {})

  lemma StaleQueued()
    ensures ValidRun(START, StaleSetup()) && Run(START, StaleSetup()) == STALE
  {
    hide Apply;
    var a := StaleSetup();
    var s1 := Do(START, a[0]);
    assert s1.registry == map[1 := 0];
    var s2 := Do(s1, a[1]);
    var s3 := Do(s2, a[2]);
    assert s3.registry == map[] && s3.removing == {0};
    var s4 := Do(s3, a[3]);
    assert s4.queue == [Bind(1, 7), Purge(0)] && s4.removing == {};
    assert a[4..][1..] == [] && Do(s4, a[4]) == STALE;
    RunOne(s4, a[4..]);
    RunOne(s3, a[3..]);
    RunOne(s2, a[2..]);
    RunOne(s1, a[1..]);
    RunOne(START, a);
  }

  lemma StaleApplied()
    ensures var a := [ReadEntry, Update, ReadEntry, Update];
            && ValidRun(STALE, a) && Run(STALE, a).indices == map[7 := 1] && Run(STALE, a).registry == map[1 := 1]
  {
    var a := [ReadEntry, Update, ReadEntry, Update];
    var s1 := Do(STALE, a[0]);
    assert s1.queue == [Purge(0)];
    var s2 := Do(s1, a[1]);
    assert s2.indices == map[7 := 1];
    var s3 := Do(s2, a[2]);
    var s4 := Do(s3, a[3]);
    assert s4.indices == map[7 := 1];
    assert a[3..][1..] == [];
    RunOne(s3, a[3..]);
    RunOne(s2, a[2..]);
    RunOne(s1, a[1..]);
    RunOne(STALE, a);
  }

  lemma {:induction false} RunJoin(s: Shared, before: seq<Action>, after: seq<Action>)
    requires ValidRun(s, before) && ValidRun(Run(s, before), after)
    ensures ValidRun(s, before + after) && Run(s, before + after) == Run(Run(s, before), after)
    decreases |before|
  {
    hide Do, Enabled;
    if before == [] {
      assert before + after == after;
    } else {
      assert (before + after)[1..] == before[1..] + after;
      RunJoin(Do(s, before[0]), before[1..], after);
    }
  }

  lemma RunOne(s: Shared, actions: seq<Action>)
    requires actions != [] && Enabled(s, actions[0]) && ValidRun(Do(s, actions[0]), actions[1..])
    ensures ValidRun(s, actions) && Run(s, actions) == Run(Do(s, actions[0]), actions[1..])
  {
  }
}
