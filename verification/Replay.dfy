/** RFC 6479 sliding-window duplicate detection, as a ring of machine words.
    The ring refines the set of counters accepted so far. */
module Replay {

  const BLOCK_BITS: nat := 64
  const BLOCKS: nat := 128
  const WINDOW: nat := (BLOCKS - 1) * BLOCK_BITS

  /** Reject-After-Messages, 2^64 - 2^13 - 1. */
  const REJECT_AFTER_MESSAGES: nat := 0xFFFF_FFFF_FFFF_FFFF - 0x2000

  /** What the filter remembers, as a set: the counters accepted so far and the
      largest of them (zero when there is none). */
  datatype Window = Window(last: nat, accepted: set<nat>) {

    ghost predicate Valid() {
      && (forall c :: c in accepted ==> c <= last)
      && (last in accepted || last == 0)
      && last < REJECT_AFTER_MESSAGES
    }

    /** The counters the filter lets through: in range, not older than the
        window, and never accepted before. */
    predicate Admits(c: nat) {
      && c < REJECT_AFTER_MESSAGES
      && (c > last || last - c <= WINDOW)
      && c !in accepted
    }

    /** The filter after it was asked about `c`. */
    function After(c: nat): (w: Window)
      ensures Valid() ==> w.Valid()
      ensures accepted <= w.accepted
    {
      if Admits(c) then Window(if c > last then c else last, accepted + {c}) else this
    }
  }

  const EMPTY_WINDOW := Window(0, {})

  /** The shift amount of a bit position. */
  function Amount(k: nat): bv6
    requires k < BLOCK_BITS
  {
    k as bv6
  }

  function Number(b: bv6): nat {
    b as nat
  }

  function Shifted(b: bv6): bv64 {
    (1 as bv64) << b
  }

  function Bit(k: nat): bv64
    requires k < BLOCK_BITS
  {
    Shifted(Amount(k))
  }

  function And(x: bv64, y: bv64): bv64 {
    x & y
  }

  function Or(x: bv64, y: bv64): bv64 {
    x | y
  }

  predicate HasBit(w: bv64, k: nat)
    requires k < BLOCK_BITS
  {
    And(w, Bit(k)) != 0
  }

  function WithBit(w: bv64, k: nat): bv64
    requires k < BLOCK_BITS
  {
    Or(w, Bit(k))
  }

  lemma AmountBack(k: nat)
    requires k < BLOCK_BITS
    ensures Number(Amount(k)) == k
  {
  }

  lemma ShiftsMeet(a: bv6, b: bv6)
    ensures And(Shifted(a), Shifted(b)) != 0 <==> a == b
  {
  }

  lemma ShiftNotZero(a: bv6)
    ensures Shifted(a) != 0
  {
  }

  lemma BitNotZero(k: nat)
    requires k < BLOCK_BITS
    ensures Bit(k) != 0
  {
    hide Shifted, Amount;
    ShiftNotZero(Amount(k));
  }

  lemma BitsMeet(k: nat, j: nat)
    requires k < BLOCK_BITS && j < BLOCK_BITS
    ensures And(Bit(k), Bit(j)) != 0 <==> j == k
  {
    hide Shifted, Amount, Number, And;
    ShiftsMeet(Amount(k), Amount(j));
    AmountBack(k);
    AmountBack(j);
  }

  lemma OrKeepsOthers(w: bv64, a: bv64, b: bv64)
    requires And(a, b) == 0
    ensures And(Or(w, a), b) == And(w, b)
  {
  }

  lemma OrSets(w: bv64, b: bv64)
    ensures And(Or(w, b), b) == b
  {
  }

  lemma SetBit(w: bv64, k: nat, j: nat)
    requires k < BLOCK_BITS && j < BLOCK_BITS
    ensures HasBit(WithBit(w, k), j) <==> j == k || HasBit(w, j)
  {
    hide Bit, And, Or;
    BitsMeet(k, j);
    if j == k {
      OrSets(w, Bit(k));
      BitNotZero(k);
    } else {
      OrKeepsOthers(w, Bit(k), Bit(j));
    }
  }

  /** Two blocks that share a ring slot are a multiple of the ring size apart,
      so the 128 blocks of one window never alias. */
  lemma SlotsDoNotAlias(a: nat, b: nat)
    requires a < b < a + BLOCKS
    ensures a % BLOCKS != b % BLOCKS
  {
  }

  /** The counter recorded by bit `j` of block `b`. */
  function CounterAt(b: nat, j: nat): nat {
    b * BLOCK_BITS + j
  }

  /** Slot of block `b` holds exactly the accepted counters of that block. */
  ghost predicate SlotExact(ring: seq<bv64>, accepted: set<nat>, b: nat)
    requires |ring| == BLOCKS
  {
    forall j: nat | j < BLOCK_BITS :: HasBit(ring[b % BLOCKS], j) <==> CounterAt(b, j) in accepted
  }

  /** Every block of the window is exact; blocks below it are not represented. */
  ghost predicate Refines(ring: seq<bv64>, w: Window)
    requires |ring| == BLOCKS
  {
    forall b: nat | w.last / BLOCK_BITS < b + BLOCKS && b <= w.last / BLOCK_BITS ::
      SlotExact(ring, w.accepted, b)
  }

  class ReplayFilter {
    var last: nat
    const ring: array<bv64>
    ghost var accepted: set<nat>

    ghost function View(): Window
      reads this
    {
      Window(last, accepted)
    }

    ghost predicate Valid()
      reads this, ring
    {
      && ring.Length == BLOCKS
      && View().Valid()
      && Refines(ring[..], View())
    }

    constructor ()
      ensures Valid() && fresh(ring) && View() == EMPTY_WINDOW
    {
      last := 0;
      accepted := {};
      ring := new bv64[BLOCKS](_ => 0);
    }

    /** Zeroes the slots of the blocks entered by a jump from `from` to `to`,
        at most one full turn of the ring. */
    method ClearSlots(from: nat, to: nat)
      requires ring.Length == BLOCKS && from <= to
      modifies ring
      ensures forall b: nat | from < b <= to && to < b + BLOCKS :: ring[b % BLOCKS] == 0
      ensures forall b: nat | b <= from && to < b + BLOCKS :: ring[b % BLOCKS] == old(ring[b % BLOCKS])
    {
      var diff := if to - from < BLOCKS then to - from else BLOCKS;
      for i := 0 to diff
        invariant forall b: nat | from < b <= from + i :: ring[b % BLOCKS] == 0
        invariant forall b: nat | b <= from && from + i < b + BLOCKS :: ring[b % BLOCKS] == old(ring[b % BLOCKS])
      {
        ring[(from + 1 + i) % BLOCKS] := 0;
      }
      if diff == BLOCKS {
        forall b: nat | from < b <= to && to < b + BLOCKS
          ensures ring[b % BLOCKS] == 0
        {
          SameSlotWithinTurn(from, b);
        }
      }
    }

    /** Tests and sets the bit of a counter inside the window. */
    method Mark(counter: nat) returns (unused: bool)
      requires ring.Length == BLOCKS && Refines(ring[..], View())
      requires counter <= last && last - counter <= WINDOW
      modifies ring, this`accepted
      ensures Refines(ring[..], View())
      ensures unused <==> counter !in old(accepted)
      ensures accepted == if unused then old(accepted) + {counter} else old(accepted)
    {
      var k, slot := counter % BLOCK_BITS, (counter / BLOCK_BITS) % BLOCKS;
      BitIsMembership(ring[..], View(), counter);
      if HasBit(ring[slot], k) {
        return false;
      }
      MarkKeepsWindow(ring[..], View(), counter);
      ghost var marked := ring[..][slot := WithBit(ring[slot], k)];
      ring[slot] := WithBit(ring[slot], k);
      assert ring[..] == marked;
      accepted := accepted + {counter};
      return true;
    }

    method Validate(counter: nat) returns (ok: bool)
      requires Valid()
      modifies this, ring
      ensures Valid()
      ensures ok <==> old(View()).Admits(counter)
      ensures View() == old(View()).After(counter)
    {
      if counter >= REJECT_AFTER_MESSAGES {
        return false;
      }
      if counter > last {
        ClearSlots(last / BLOCK_BITS, counter / BLOCK_BITS);
        AdvanceKeepsWindow(old(ring[..]), ring[..], View(), counter);
        last := counter;
      } else if last - counter > WINDOW {
        return false;
      }
      ok := Mark(counter);
    }
  }

  /** A full turn of the ring starting after `from` visits the slot of any later block. */
  lemma SameSlotWithinTurn(from: nat, b: nat)
    requires from < b
    ensures exists a: nat :: from < a <= from + BLOCKS && a % BLOCKS == b % BLOCKS
  {
    var a := from + 1 + (b - from - 1) % BLOCKS;
    assert a % BLOCKS == b % BLOCKS;
  }

  /** Sliding the window forward: kept slots are unchanged and entered slots are zero. */
  lemma AdvanceKeepsWindow(before: seq<bv64>, after: seq<bv64>, w: Window, counter: nat)
    requires |before| == |after| == BLOCKS
    requires w.Valid() && Refines(before, w) && counter > w.last
    requires forall b: nat | w.last / BLOCK_BITS < b <= counter / BLOCK_BITS && counter / BLOCK_BITS < b + BLOCKS ::
               after[b % BLOCKS] == 0
    requires forall b: nat | b <= w.last / BLOCK_BITS && counter / BLOCK_BITS < b + BLOCKS ::
               after[b % BLOCKS] == before[b % BLOCKS]
    ensures Refines(after, Window(counter, w.accepted))
  {
    forall b: nat | counter / BLOCK_BITS < b + BLOCKS && b <= counter / BLOCK_BITS
      ensures SlotExact(after, w.accepted, b)
    {
      if b <= w.last / BLOCK_BITS {
        assert SlotExact(before, w.accepted, b);
      } else {
        forall j: nat | j < BLOCK_BITS
          ensures CounterAt(b, j) !in w.accepted
        {
          assert CounterAt(b, j) > w.last;
        }
      }
    }
  }

  lemma CounterSplit(b: nat, j: nat, counter: nat)
    requires j < BLOCK_BITS
    ensures CounterAt(b, j) == counter <==> b == counter / BLOCK_BITS && j == counter % BLOCK_BITS
  {
  }

  /** Inside the window, testing the ring is testing membership. */
  lemma BitIsMembership(ring: seq<bv64>, w: Window, counter: nat)
    requires |ring| == BLOCKS && Refines(ring, w)
    requires counter <= w.last && w.last - counter <= WINDOW
    ensures HasBit(ring[(counter / BLOCK_BITS) % BLOCKS], counter % BLOCK_BITS) <==> counter in w.accepted
  {
    var b := counter / BLOCK_BITS;
    CounterSplit(b, counter % BLOCK_BITS, counter);
    assert SlotExact(ring, w.accepted, b);
    assert HasBit(ring[b % BLOCKS], counter % BLOCK_BITS) <==> CounterAt(b, counter % BLOCK_BITS) in w.accepted;
  }

  /** Setting one bit records one counter and disturbs no other block of the window. */
  lemma MarkKeepsWindow(ring: seq<bv64>, w: Window, counter: nat)
    requires |ring| == BLOCKS && Refines(ring, w)
    requires counter <= w.last && w.last - counter <= WINDOW
    ensures var slot := (counter / BLOCK_BITS) % BLOCKS;
            Refines(ring[slot := WithBit(ring[slot], counter % BLOCK_BITS)], Window(w.last, w.accepted + {counter}))
  {
    var c := counter / BLOCK_BITS;
    var slot := c % BLOCKS;
    var marked := ring[slot := WithBit(ring[slot], counter % BLOCK_BITS)];
    forall b: nat | w.last / BLOCK_BITS < b + BLOCKS && b <= w.last / BLOCK_BITS
      ensures SlotExact(marked, w.accepted + {counter}, b)
    {
      assert SlotExact(ring, w.accepted, b);
      if b < c { SlotsDoNotAlias(b, c); }
      if c < b { SlotsDoNotAlias(c, b); }
      forall j: nat | j < BLOCK_BITS
        ensures CounterAt(b, j) == counter <==> b == c && j == counter % BLOCK_BITS
      {
        CounterSplit(b, j, counter);
      }
      forall j: nat | j < BLOCK_BITS
        ensures HasBit(marked[b % BLOCKS], j) <==> CounterAt(b, j) in w.accepted + {counter}
      {
        assert HasBit(ring[b % BLOCKS], j) <==> CounterAt(b, j) in w.accepted;
        SetBit(ring[slot], counter % BLOCK_BITS, j);
      }
    }
  }

  /** The window after a whole sequence of queries. */
  function Replayed(counters: seq<nat>): (w: Window)
    ensures w.Valid()
  {
    if counters == [] then EMPTY_WINDOW
    else Replayed(counters[..|counters| - 1]).After(counters[|counters| - 1])
  }

  /** The verdict on the i-th query of a sequence. */
  predicate Passed(counters: seq<nat>, i: nat)
    requires i < |counters|
  {
    Replayed(counters[..i]).Admits(counters[i])
  }

  /** A counter is remembered exactly when some earlier query let it through. */
  lemma {:induction false} RememberedIffPassed(counters: seq<nat>, c: nat)
    ensures c in Replayed(counters).accepted <==> exists i: nat :: i < |counters| && Passed(counters, i) && counters[i] == c
  {
    if counters != [] {
      var n := |counters| - 1;
      var init := counters[..n];
      RememberedIffPassed(init, c);
      forall i: nat | i < n
        ensures Passed(init, i) <==> Passed(counters, i)
      {
        assert init[..i] == counters[..i];
      }
      if c in Replayed(counters).accepted && c !in Replayed(init).accepted {
        assert Passed(counters, n);
      }
      if i: nat :| i < n && Passed(init, i) && init[i] == c {
        assert Passed(counters, i) && counters[i] == c;
      }
    }
  }

  /** In any sequence of queries no counter passes twice, and a counter that
      never passed is refused only for being out of range or behind the window. */
  lemma PassesAtMostOnce(counters: seq<nat>, i: nat, j: nat)
    requires i < j < |counters| && counters[i] == counters[j] && Passed(counters, i)
    ensures !Passed(counters, j)
  {
    var before := counters[..j];
    assert before[..i] == counters[..i];
    assert Passed(before, i) && before[i] == counters[j];
    RememberedIffPassed(before, counters[j]);
  }

  /** Exactly what is refused: counters at the message limit, more than 8128
      behind one that passed, and those that passed before. */
  lemma RefusedOnlyForCause(counters: seq<nat>, j: nat)
    requires j < |counters|
    ensures !Passed(counters, j) <==>
            || counters[j] >= 0xFFFF_FFFF_FFFF_DFFF
            || (exists i: nat :: i < j && Passed(counters, i) && counters[i] > counters[j] + 8128)
            || (exists i: nat :: i < j && Passed(counters, i) && counters[i] == counters[j])
  {
    var before := counters[..j];
    var w := Replayed(before);
    forall i: nat | i < j ensures before[i] == counters[i] && (Passed(before, i) <==> Passed(counters, i)) {
      assert before[..i] == counters[..i];
    }
    RememberedIffPassed(before, counters[j]);
    RememberedIffPassed(before, w.last);
    forall i: nat | i < j && Passed(counters, i) ensures counters[i] <= w.last {
      RememberedIffPassed(before, counters[i]);
    }
    if w.last in w.accepted {
      var i: nat :| i < |before| && Passed(before, i) && before[i] == w.last;
      assert Passed(counters, i) && counters[i] == w.last;
    }
    if counters[j] in w.accepted {
      var i: nat :| i < |before| && Passed(before, i) && before[i] == counters[j];
      assert Passed(counters, i) && counters[i] == counters[j];
    }
  }
}
