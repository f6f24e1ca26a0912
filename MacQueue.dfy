/** The transmit queue (WifiMacQueue): a bounded FIFO of items with a
    separate size counter, drop-tail admission, eager age eviction before
    every read, and several selective extraction policies. */
module MacQueue {
  import opened MacTypes

  /** Default of the MaxPacketNumber attribute. */
  const DefaultMaxSize: nat := 400

  /** Default of the MaxDelay attribute: 10 s. */
  const DefaultMaxDelay: Time := 10_000_000_000

  // ---------------------------------------------------------------------
  // Age eviction (Cleanup)
  // ---------------------------------------------------------------------

  /** The keep condition of Cleanup: an item whose age equals maxDelay is evicted. */
  predicate IsFresh(it: Item, maxDelay: Time, now: Time) {
    it.tstamp + maxDelay > now
  }

  /** The items Cleanup keeps, in queue order. */
  function Survivors(s: seq<Item>, maxDelay: Time, now: Time): (r: seq<Item>)
    ensures |r| <= |s|
    ensures forall i :: 0 <= i < |r| ==> IsFresh(r[i], maxDelay, now)
    decreases |s|
  {
    if s == [] then []
    else
      var rest := Survivors(s[..|s| - 1], maxDelay, now);
      if IsFresh(s[|s| - 1], maxDelay, now) then rest + [s[|s| - 1]] else rest
  }

  /** The items Cleanup drops, in queue order. */
  function Expired(s: seq<Item>, maxDelay: Time, now: Time): (r: seq<Item>)
    ensures |r| <= |s|
    ensures forall i :: 0 <= i < |r| ==> !IsFresh(r[i], maxDelay, now)
    decreases |s|
  {
    if s == [] then []
    else
      var rest := Expired(s[..|s| - 1], maxDelay, now);
      if IsFresh(s[|s| - 1], maxDelay, now) then rest else rest + [s[|s| - 1]]
  }

  /** Cleanup keeps survivors in their original relative order: it acts on a
      concatenation piece by piece. */
  lemma {:induction false} SurvivorsAppend(a: seq<Item>, b: seq<Item>, maxDelay: Time, now: Time)
    ensures Survivors(a + b, maxDelay, now) == Survivors(a, maxDelay, now) + Survivors(b, maxDelay, now)
    decreases |b|
  {
    if b == [] {
      assert a + b == a;
    } else {
      SurvivorsAppend(a, b[..|b| - 1], maxDelay, now);
      assert (a + b)[..|a + b| - 1] == a + b[..|b| - 1];
      assert (a + b)[|a + b| - 1] == b[|b| - 1];
    }
  }

  /** An item survives exactly when it was queued and is fresh: no fresh item is
      removed and no expired item is kept. */
  lemma {:induction false} SurvivorsMembership(s: seq<Item>, x: Item, maxDelay: Time, now: Time)
    ensures x in Survivors(s, maxDelay, now) <==> x in s && IsFresh(x, maxDelay, now)
    decreases |s|
  {
    if s != [] {
      var init := s[..|s| - 1];
      SurvivorsMembership(init, x, maxDelay, now);
      assert s == init + [s[|s| - 1]];
    }
  }

  /** Cleanup removes exactly the expired items: survivors and expired items
      together are the queue, and the size drops by the number expired. */
  lemma {:induction false} SurvivorsPartition(s: seq<Item>, maxDelay: Time, now: Time)
    ensures multiset(Survivors(s, maxDelay, now)) + multiset(Expired(s, maxDelay, now)) == multiset(s)
    ensures |Survivors(s, maxDelay, now)| + |Expired(s, maxDelay, now)| == |s|
    decreases |s|
  {
    if s != [] {
      var init := s[..|s| - 1];
      SurvivorsPartition(init, maxDelay, now);
      assert s == init + [s[|s| - 1]];
    }
  }

  /** A queue whose items are all fresh is left as it is. */
  lemma {:induction false} SurvivorsOfFresh(s: seq<Item>, maxDelay: Time, now: Time)
    requires forall i :: 0 <= i < |s| ==> IsFresh(s[i], maxDelay, now)
    ensures Survivors(s, maxDelay, now) == s
    decreases |s|
  {
    if s != [] {
      var init := s[..|s| - 1];
      SurvivorsOfFresh(init, maxDelay, now);
      assert s == init + [s[|s| - 1]];
    }
  }

  /** A later cleanup subsumes an earlier one. */
  lemma {:induction false} SurvivorsLater(s: seq<Item>, maxDelay: Time, t1: Time, t2: Time)
    requires t1 <= t2
    ensures Survivors(Survivors(s, maxDelay, t1), maxDelay, t2) == Survivors(s, maxDelay, t2)
    decreases |s|
  {
    if s != [] {
      var init := s[..|s| - 1];
      var last := s[|s| - 1];
      SurvivorsLater(init, maxDelay, t1, t2);
      var once := Survivors(init, maxDelay, t1);
      if IsFresh(last, maxDelay, t1) {
        SurvivorsAppend(once, [last], maxDelay, t2);
        assert [last][..0] == [];
      }
    }
  }

  /** Eviction is idempotent: a second read at the same instant sees the same queue. */
  lemma CleanupIdempotent(s: seq<Item>, maxDelay: Time, now: Time)
    ensures Survivors(Survivors(s, maxDelay, now), maxDelay, now) == Survivors(s, maxDelay, now)
  {
    SurvivorsLater(s, maxDelay, now, now);
  }

  /** An item whose age is exactly maxDelay is evicted. */
  lemma ExactAgeEvicted(it: Item, maxDelay: Time)
    ensures Survivors([it], maxDelay, it.tstamp + maxDelay) == []
  {
    assert [it][..0] == [];
  }

  // ---------------------------------------------------------------------
  // Admission (Enqueue, PushFront)
  // ---------------------------------------------------------------------

  /** Drop-tail admission on the cleaned queue `c`: a full queue (size equal to
      the maximum) is left unchanged, otherwise `it` goes to the tail, or to the
      head when `front` holds. */
  function Admit(c: seq<Item>, maxSize: nat, it: Item, front: bool): (r: seq<Item>)
    ensures |c| == maxSize ==> r == c
    ensures |c| != maxSize ==> |r| == |c| + 1 && multiset(r) == multiset(c) + multiset{it}
    ensures |c| != maxSize && front ==> r[0] == it && r[1..] == c
    ensures |c| != maxSize && !front ==> r[|c|] == it && r[..|c|] == c
    ensures |c| <= maxSize ==> |r| <= maxSize
  {
    if |c| == maxSize then c
    else if front then [it] + c
    else c + [it]
  }

  /** The queue after a run of arrivals, each enqueued (with its cleanup) at its
      own time stamp. */
  function EnqueueRun(c: seq<Item>, maxSize: nat, maxDelay: Time, arrivals: seq<Item>): seq<Item>
    decreases |arrivals|
  {
    if arrivals == [] then c
    else
      var it := arrivals[0];
      EnqueueRun(Admit(Survivors(c, maxDelay, it.tstamp), maxSize, it, false), maxSize, maxDelay, arrivals[1..])
  }

  /** For any sequence of enqueues, the size never exceeds the capacity, as long
      as it did not already (the capacity test is an equality). */
  lemma {:induction false} EnqueueRunBounded(c: seq<Item>, maxSize: nat, maxDelay: Time, arrivals: seq<Item>)
    requires |c| <= maxSize
    ensures |EnqueueRun(c, maxSize, maxDelay, arrivals)| <= maxSize
    decreases |arrivals|
  {
    if arrivals != [] {
      var it := arrivals[0];
      var next := Admit(Survivors(c, maxDelay, it.tstamp), maxSize, it, false);
      EnqueueRunBounded(next, maxSize, maxDelay, arrivals[1..]);
    }
  }

  /** With the capacity lowered below the current size, the equality test never
      fires and an enqueue grows the queue past the capacity. */
  lemma LoweredCapacityNotEnforced(c: seq<Item>, maxSize: nat, it: Item)
    requires |c| > maxSize
    ensures |Admit(c, maxSize, it, false)| == |c| + 1 > maxSize + 1
  {
  }

  // ---------------------------------------------------------------------
  // Selection
  // ---------------------------------------------------------------------

  /** The matching rules of the selective scans. */
  datatype Selector =
    | ToAnyOf(dests: seq<Mac48Address>)                                  // DequeueByAddresses
    | ByTidAndAddress(tid: nat, kind: AddressType, dest: Mac48Address)    // *ByTidAndAddress
    | FirstAvailable(blocked: set<(Mac48Address, nat)>)                  // *FirstAvailable
    | SamePacket(packet: Packet)                                          // Remove

  predicate Selects(sel: Selector, it: Item)
    // a per-TID scan only ever takes QoS data addressed as asked
    ensures sel.ByTidAndAddress? && Selects(sel, it) ==>
              it.hdr.kind == QosData && it.hdr.qosTid == sel.tid && AddressFor(sel.kind, it.hdr) == sel.dest
    // the first-available scan never withholds a frame that is not QoS data
    ensures sel.FirstAvailable? && it.hdr.kind != QosData ==> Selects(sel, it)
    // removal matches on packet identity, whatever the header
    ensures sel.SamePacket? ==> (Selects(sel, it) <==> it.packet.uid == sel.packet.uid)
  {
    match sel
    case ToAnyOf(dests) => it.hdr.addr1 in dests
    case ByTidAndAddress(tid, kind, dest) =>
      it.hdr.kind == QosData && AddressFor(kind, it.hdr) == dest && it.hdr.qosTid == tid
    case FirstAvailable(blocked) =>
      it.hdr.kind != QosData || (it.hdr.addr1, it.hdr.qosTid) !in blocked
    case SamePacket(p) => it.packet.uid == p.uid
  }

  /** The position of the first item, in queue order, that `sel` selects. */
  function FirstWhere(s: seq<Item>, sel: Selector): (r: Option<nat>)
    ensures r.Some? ==> r.value < |s| && Selects(sel, s[r.value])
    ensures r.Some? ==> forall j :: 0 <= j < r.value ==> !Selects(sel, s[j])
    ensures r.None? <==> forall j :: 0 <= j < |s| ==> !Selects(sel, s[j])
  {
    if s == [] then None
    else if Selects(sel, s[0]) then Some(0)
    else match FirstWhere(s[1..], sel)
      case None => None
      case Some(k) => Some(k + 1)
  }

  /** The number of items `sel` selects. */
  function CountWhere(s: seq<Item>, sel: Selector): (n: nat)
    ensures n <= |s|
    ensures n == 0 <==> forall j :: 0 <= j < |s| ==> !Selects(sel, s[j])
    decreases |s|
  {
    if s == [] then 0
    else CountWhere(s[..|s| - 1], sel) + (if Selects(sel, s[|s| - 1]) then 1 else 0)
  }

  /** The queue without its k-th item: exactly one item removed, the others in order. */
  function RemoveAt(s: seq<Item>, k: nat): (r: seq<Item>)
    requires k < |s|
    ensures |r| == |s| - 1
    ensures multiset(r) + multiset{s[k]} == multiset(s)
    ensures forall i :: 0 <= i < k ==> r[i] == s[i]
    ensures forall i :: k <= i < |r| ==> r[i] == s[i + 1]
  {
    assert s == s[..k] + [s[k]] + s[k + 1..];
    s[..k] + s[k + 1..]
  }

  /** Broadcast and management frames at the head bypass the round-robin choice. */
  predicate HeadBypasses(it: Item) {
    it.hdr.addr1 == Broadcast || it.hdr.kind == Management
  }

  /** The item DequeueByAddresses takes from the cleaned, non-empty queue `c`. */
  function AddressPick(c: seq<Item>, dests: seq<Mac48Address>): (k: nat)
    requires c != []
    ensures k < |c|
    ensures HeadBypasses(c[0]) ==> k == 0
    ensures !HeadBypasses(c[0]) && (exists j :: 0 <= j < |c| && c[j].hdr.addr1 in dests) ==>
              c[k].hdr.addr1 in dests && forall j :: 0 <= j < k ==> c[j].hdr.addr1 !in dests
    ensures (forall j :: 0 <= j < |c| ==> c[j].hdr.addr1 !in dests) ==> k == 0
  {
    if HeadBypasses(c[0]) then 0
    else match FirstWhere(c, ToAnyOf(dests))
      case Some(k) => k
      case None => 0
  }

  /** Round-robin fairness: when a frame for an active destination is queued, a
      frame for an inactive destination is never chosen ahead of it, however much
      older it is (unless the head is broadcast or management). */
  lemma RoundRobinPrefersActive(c: seq<Item>, dests: seq<Mac48Address>, a: nat, b: nat)
    requires a < |c| && b < |c|
    requires c[a].hdr.addr1 in dests && c[b].hdr.addr1 !in dests
    requires !HeadBypasses(c[0])
    ensures AddressPick(c, dests) != b
    ensures AddressPick(c, dests) <= a
  {
  }

  /** The fallback as written: with no frame for an active destination queued,
      the head goes, even when frames for other destinations wait behind it. */
  lemma FallbackTakesHead(c: seq<Item>, dests: seq<Mac48Address>)
    requires c != []
    requires forall j :: 0 <= j < |c| ==> c[j].hdr.addr1 !in dests
    ensures AddressPick(c, dests) == 0
  {
  }

  /** The scan of the selective operations, one item at a time. */
  method FindFirst(s: seq<Item>, sel: Selector) returns (r: Option<nat>)
    ensures r == FirstWhere(s, sel)
  {
    var i := 0;
    while i < |s|
      invariant 0 <= i <= |s|
      invariant forall j :: 0 <= j < i ==> !Selects(sel, s[j])
    {
      if Selects(sel, s[i]) {
        return Some(i);
      }
      i := i + 1;
    }
    return None;
  }

  // ---------------------------------------------------------------------
  // The queue object
  // ---------------------------------------------------------------------

  class WifiMacQueue {
    var items: seq<Item>   // m_queue
    var size: nat          // m_size
    var maxSize: nat       // m_maxSize
    var maxDelay: Time     // m_maxDelay

    /** The size counter always equals the number of live items. */
    ghost predicate Valid()
      reads this
    {
      size == |items|
    }

    constructor ()
      ensures Valid() && items == []
      ensures maxSize == DefaultMaxSize && maxDelay == DefaultMaxDelay
    {
      items := [];
      size := 0;
      maxSize := DefaultMaxSize;
      maxDelay := DefaultMaxDelay;
    }

    method SetMaxSize(m: nat)
      requires Valid()
      modifies this
      ensures Valid() && maxSize == m
      ensures items == old(items) && maxDelay == old(maxDelay)
    {
      maxSize := m;
    }

    method SetMaxDelay(d: Time)
      requires Valid()
      modifies this
      ensures Valid() && maxDelay == d
      ensures items == old(items) && maxSize == old(maxSize)
    {
      maxDelay := d;
    }

    /** Drops every item that is not fresh at `now`, keeping the rest in order. */
    method Cleanup(now: Time)
      requires Valid()
      modifies this
      ensures Valid()
      ensures items == Survivors(old(items), maxDelay, now)
      ensures maxSize == old(maxSize) && maxDelay == old(maxDelay)
    {
      if items == [] {
        return;
      }
      ghost var s := items;
      var n := 0;
      var i := 0;
      while i < |items|
        invariant 0 <= i <= |items|
        invariant |items| + n == |s|
        invariant items[..i] == Survivors(s[..i + n], maxDelay, now)
        invariant items[i..] == s[i + n..]
        invariant size == |s| && maxSize == old(maxSize) && maxDelay == old(maxDelay)
        decreases |items| - i
      {
        assert s[..i + n + 1][..i + n] == s[..i + n];
        assert s[i + n] == items[i];
        if items[i].tstamp + maxDelay > now {
          assert items[..i + 1] == items[..i] + [items[i]];
          i := i + 1;
        } else {
          ghost var before := items;
          items := items[..i] + items[i + 1..];
          assert items[..i] == before[..i];
          assert items[i..] == before[i + 1..];
          n := n + 1;
        }
      }
      assert s[..|s|] == s;
      size := size - n;
    }

    /** Drop-tail admission at the tail, stamped with `now`. */
    method Enqueue(packet: Packet, hdr: WifiMacHeader, now: Time)
      requires Valid()
      modifies this
      ensures Valid()
      ensures items == Admit(Survivors(old(items), maxDelay, now), maxSize, Item(packet, hdr, now), false)
      ensures maxSize == old(maxSize) && maxDelay == old(maxDelay)
    {
      Cleanup(now);
      if size == maxSize {
        return;
      }
      items := items + [Item(packet, hdr, now)];
      size := size + 1;
    }

    /** Drop-tail admission at the head, stamped with `now`. */
    method PushFront(packet: Packet, hdr: WifiMacHeader, now: Time)
      requires Valid()
      modifies this
      ensures Valid()
      ensures items == Admit(Survivors(old(items), maxDelay, now), maxSize, Item(packet, hdr, now), true)
      ensures maxSize == old(maxSize) && maxDelay == old(maxDelay)
    {
      Cleanup(now);
      if size == maxSize {
        return;
      }
      items := [Item(packet, hdr, now)] + items;
      size := size + 1;
    }

    /** FIFO removal of the head after cleanup; None when nothing survives. */
    method Dequeue(now: Time) returns (r: Option<Item>)
      requires Valid()
      modifies this
      ensures Valid()
      ensures var c := Survivors(old(items), old(maxDelay), now);
              if c == [] then r == None && items == []
              else r == Some(c[0]) && items == c[1..]
      ensures maxSize == old(maxSize) && maxDelay == old(maxDelay)
    {
      Cleanup(now);
      if items != [] {
        var i := items[0];
        items := items[1..];
        size := size - 1;
        return Some(i);
      }
      return None;
    }

    /** Round-robin removal: a broadcast or management head goes first; otherwise
        the first item addressed to one of `dests`; otherwise the head. The
        roster argument `clients` is not used. */
    method DequeueByAddresses(dests: seq<Mac48Address>, clients: seq<Mac48Address>, now: Time)
      returns (r: Option<Item>)
      requires Valid()
      modifies this
      ensures Valid()
      ensures var c := Survivors(old(items), old(maxDelay), now);
              if c == [] then r == None && items == []
              else var k := AddressPick(c, dests); r == Some(c[k]) && items == RemoveAt(c, k)
      ensures maxSize == old(maxSize) && maxDelay == old(maxDelay)
    {
      Cleanup(now);
      if items == [] {
        return None;
      }
      var head := items[0];
      if head.hdr.addr1 == Broadcast || head.hdr.kind == Management {
        items := items[1..];
        size := size - 1;
        return Some(head);
      }
      var m := FindFirst(items, ToAnyOf(dests));
      match m
      case Some(k) =>
        r := Some(items[k]);
        items := RemoveAt(items, k);
        size := size - 1;
      case None =>
        items := items[1..];
        size := size - 1;
        r := Some(head);
    }

    /** The head after cleanup, left in place. */
    method Peek(now: Time) returns (r: Option<Item>)
      requires Valid()
      modifies this
      ensures Valid()
      ensures items == Survivors(old(items), old(maxDelay), now)
      ensures r == if items == [] then None else Some(items[0])
      ensures maxSize == old(maxSize) && maxDelay == old(maxDelay)
    {
      Cleanup(now);
      if items != [] {
        return Some(items[0]);
      }
      return None;
    }

    /** Removes the first QoS-data item for flow (tid, dest) after cleanup. */
    method DequeueByTidAndAddress(tid: nat, kind: AddressType, dest: Mac48Address, now: Time)
      returns (r: Option<Item>)
      requires Valid()
      modifies this
      ensures Valid()
      ensures var c := Survivors(old(items), old(maxDelay), now);
              match FirstWhere(c, ByTidAndAddress(tid, kind, dest))
              case None => r == None && items == c
              case Some(k) => r == Some(c[k]) && items == RemoveAt(c, k)
      ensures maxSize == old(maxSize) && maxDelay == old(maxDelay)
    {
      Cleanup(now);
      r := None;
      if items != [] {
        var m := FindFirst(items, ByTidAndAddress(tid, kind, dest));
        if m.Some? {
          r := Some(items[m.value]);
          items := RemoveAt(items, m.value);
          size := size - 1;
        }
      }
    }

    /** The item DequeueByTidAndAddress would remove, left in place. */
    method PeekByTidAndAddress(tid: nat, kind: AddressType, dest: Mac48Address, now: Time)
      returns (r: Option<Item>)
      requires Valid()
      modifies this
      ensures Valid()
      ensures items == Survivors(old(items), old(maxDelay), now)
      ensures match FirstWhere(items, ByTidAndAddress(tid, kind, dest))
              case None => r == None
              case Some(k) => r == Some(items[k])
      ensures maxSize == old(maxSize) && maxDelay == old(maxDelay)
    {
      Cleanup(now);
      r := None;
      if items != [] {
        var m := FindFirst(items, ByTidAndAddress(tid, kind, dest));
        if m.Some? {
          r := Some(items[m.value]);
        }
      }
    }

    /** The number of QoS-data items of flow (tid, addr) after cleanup. */
    method GetNPacketsByTidAndAddress(tid: nat, kind: AddressType, addr: Mac48Address, now: Time)
      returns (n: nat)
      requires Valid()
      modifies this
      ensures Valid()
      ensures items == Survivors(old(items), old(maxDelay), now)
      ensures n == CountWhere(items, ByTidAndAddress(tid, kind, addr))
      ensures maxSize == old(maxSize) && maxDelay == old(maxDelay)
    {
      Cleanup(now);
      n := 0;
      var i := 0;
      while i < |items|
        invariant 0 <= i <= |items|
        invariant n == CountWhere(items[..i], ByTidAndAddress(tid, kind, addr))
      {
        assert items[..i + 1][..i] == items[..i];
        if AddressFor(kind, items[i].hdr) == addr {
          if items[i].hdr.kind == QosData && items[i].hdr.qosTid == tid {
            n := n + 1;
          }
        }
        i := i + 1;
      }
      assert items[..|items|] == items;
    }

    /** Removes the first item that is not QoS data or whose (addr1, tid) is not
        blocked, after cleanup. */
    method DequeueFirstAvailable(blocked: set<(Mac48Address, nat)>, now: Time) returns (r: Option<Item>)
      requires Valid()
      modifies this
      ensures Valid()
      ensures var c := Survivors(old(items), old(maxDelay), now);
              match FirstWhere(c, FirstAvailable(blocked))
              case None => r == None && items == c
              case Some(k) => r == Some(c[k]) && items == RemoveAt(c, k)
      ensures maxSize == old(maxSize) && maxDelay == old(maxDelay)
    {
      Cleanup(now);
      r := None;
      var m := FindFirst(items, FirstAvailable(blocked));
      if m.Some? {
        r := Some(items[m.value]);
        items := RemoveAt(items, m.value);
        size := size - 1;
      }
    }

    /** The item DequeueFirstAvailable would remove, left in place. */
    method PeekFirstAvailable(blocked: set<(Mac48Address, nat)>, now: Time) returns (r: Option<Item>)
      requires Valid()
      modifies this
      ensures Valid()
      ensures items == Survivors(old(items), old(maxDelay), now)
      ensures match FirstWhere(items, FirstAvailable(blocked))
              case None => r == None
              case Some(k) => r == Some(items[k])
      ensures maxSize == old(maxSize) && maxDelay == old(maxDelay)
    {
      Cleanup(now);
      r := None;
      var m := FindFirst(items, FirstAvailable(blocked));
      if m.Some? {
        r := Some(items[m.value]);
      }
    }

    /** Removes the first item holding packet `p`, without cleanup. */
    method Remove(p: Packet) returns (found: bool)
      requires Valid()
      modifies this
      ensures Valid()
      ensures match FirstWhere(old(items), SamePacket(p))
              case None => !found && items == old(items)
              case Some(k) => found && items == RemoveAt(old(items), k)
      ensures maxSize == old(maxSize) && maxDelay == old(maxDelay)
    {
      var m := FindFirst(items, SamePacket(p));
      if m.Some? {
        items := RemoveAt(items, m.value);
        size := size - 1;
        return true;
      }
      return false;
    }

    /** Empties the queue. */
    method Flush()
      requires Valid()
      modifies this
      ensures Valid() && items == [] && size == 0
      ensures maxSize == old(maxSize) && maxDelay == old(maxDelay)
    {
      items := [];
      size := 0;
    }

    /** Whether nothing survives cleanup at `now`. */
    method IsEmpty(now: Time) returns (empty: bool)
      requires Valid()
      modifies this
      ensures Valid()
      ensures items == Survivors(old(items), old(maxDelay), now)
      ensures empty <==> items == []
      ensures maxSize == old(maxSize) && maxDelay == old(maxDelay)
    {
      Cleanup(now);
      return items == [];
    }

    /** The size counter, without cleanup: expired items still count. */
    method GetSize() returns (n: nat)
      requires Valid()
      ensures n == |items|
    {
      return size;
    }
  }

  // ---------------------------------------------------------------------
  // Scenarios
  // ---------------------------------------------------------------------

  /** Three frames to A, B, A leave a FIFO dequeue in insertion order. */
  method FifoScenario(a: WifiMacHeader, b: WifiMacHeader, p1: Packet, p2: Packet, p3: Packet, now: Time)
    returns (r1: Option<Item>, r2: Option<Item>, r3: Option<Item>)
    ensures r1 == Some(Item(p1, a, now)) && r2 == Some(Item(p2, b, now)) && r3 == Some(Item(p3, a, now))
  {
    var i1, i2, i3 := Item(p1, a, now), Item(p2, b, now), Item(p3, a, now);
    var q := new WifiMacQueue();
    q.SetMaxSize(10);
    q.Enqueue(p1, a, now);
    assert q.items == [i1];
    SurvivorsOfFresh([i1], DefaultMaxDelay, now);
    q.Enqueue(p2, b, now);
    assert q.items == [i1, i2];
    SurvivorsOfFresh([i1, i2], DefaultMaxDelay, now);
    q.Enqueue(p3, a, now);
    assert q.items == [i1, i2, i3];
    SurvivorsOfFresh([i1, i2, i3], DefaultMaxDelay, now);
    r1 := q.Dequeue(now);
    assert q.items == [i2, i3];
    SurvivorsOfFresh([i2, i3], DefaultMaxDelay, now);
    r2 := q.Dequeue(now);
    assert q.items == [i3];
    r3 := q.Dequeue(now);
  }

  /** An item left longer than the maximum delay is gone when IsEmpty looks. */
  method ExpiryScenario(h: WifiMacHeader, p: Packet, now: Time) returns (empty: bool, sizeBefore: nat)
    ensures sizeBefore == 1 && empty
  {
    var q := new WifiMacQueue();
    q.Enqueue(p, h, now);
    sizeBefore := q.GetSize();
    empty := q.IsEmpty(now + DefaultMaxDelay);
  }
}
