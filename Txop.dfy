/** The channel-access coordinator (DcaTxop): it owns the frame in flight,
    its fragment index, the contention state, and the round-robin roster of
    destinations; each notification from the access arbiter or the low MAC
    is a named transition. Collaborators appear as parameters: the station
    manager's answers (StationManager), the random stream (rng), the next
    sequence number and the current time; calls into the arbiter, the low
    MAC and the upper layer are returned as Events. */
module Txop {
  import opened MacTypes
  import opened MacQueue

  /** numClients: roster entries in one round-robin window. */
  const NumClients: nat := 30

  /** A round-robin window is rebuilt once at least this many milliseconds have passed. */
  const EpochMillis: int := 2400

  function Min(a: int, b: int): int {
    if a < b then a else b
  }

  // ---------------------------------------------------------------------
  // Contention state (DcfState, held as an abstract value)
  // ---------------------------------------------------------------------

  datatype DcfState = DcfState(cwMin: nat, cwMax: nat, cw: nat, backoffSlots: nat, accessRequested: bool)

  predicate CwInRange(d: DcfState) {
    d.cwMin <= d.cw <= d.cwMax
  }

  /** ResetCw: back to the minimum window; nothing else changes. */
  function ResetCw(d: DcfState): (r: DcfState)
    ensures r.cw == d.cwMin
    ensures r.(cw := d.cw) == d
    ensures d.cwMin <= d.cwMax ==> CwInRange(r)
  {
    d.(cw := d.cwMin)
  }

  /** UpdateFailedCw: the next window of the series 2^k - 1, capped at the
      maximum (IEEE 802.11-2012, 9.3.3); nothing else changes. */
  function UpdateFailedCw(d: DcfState): (r: DcfState)
    ensures r.(cw := d.cw) == d
    ensures r.cw <= d.cwMax
    ensures d.cw <= d.cwMax ==> d.cw <= r.cw
    ensures CwInRange(d) ==> CwInRange(r)
  {
    var doubled := 2 * (d.cw + 1) - 1;
    d.(cw := if doubled < d.cwMax then doubled else d.cwMax)
  }

  function Pow2(n: nat): nat {
    if n == 0 then 1 else 2 * Pow2(n - 1)
  }

  /** The contention state after `n` consecutive failures. */
  function FailedCwTimes(d: DcfState, n: nat): DcfState {
    if n == 0 then d else UpdateFailedCw(FailedCwTimes(d, n - 1))
  }

  /** After a reset and n failures the window is 2^n (cwMin + 1) - 1, capped at cwMax. */
  lemma {:induction false} CwAfterFailures(d: DcfState, n: nat)
    requires d.cwMin <= d.cwMax
    ensures FailedCwTimes(ResetCw(d), n).cw == Min(Pow2(n) * (d.cwMin + 1) - 1, d.cwMax)
  {
    if n > 0 {
      CwAfterFailures(d, n - 1);
      var prev := FailedCwTimes(ResetCw(d), n - 1);
      FailedCwFrame(ResetCw(d), n - 1);
      var x := Pow2(n - 1) * (d.cwMin + 1);
      DoubleProduct(Pow2(n - 1), d.cwMin + 1);
      if x - 1 < d.cwMax {
        assert prev.cw == x - 1;
      } else {
        assert prev.cw == d.cwMax;
      }
    }
  }

  lemma DoubleProduct(y: nat, m: nat)
    ensures (2 * y) * m == 2 * (y * m)
  {
  }

  /** The random stream: GetNext (0, w) yields a number in [0, w]. */
  ghost predicate ValidRng(rng: nat -> nat) {
    forall w: nat :: rng(w) <= w
  }

  /** StartBackoffNow with a draw in [0, current window]; nothing else changes. */
  function DrawBackoff(d: DcfState, rng: nat -> nat): (r: DcfState)
    requires ValidRng(rng)
    ensures r.backoffSlots <= r.cw
    ensures r.(backoffSlots := d.backoffSlots) == d
  {
    d.(backoffSlots := rng(d.cw))
  }

  // ---------------------------------------------------------------------
  // Collaborators and transmissions
  // ---------------------------------------------------------------------

  /** What the low MAC is asked to send: the whole packet or one fragment of it. */
  datatype Payload = Whole(packet: Packet) | Fragment(packet: Packet, offset: nat, size: nat)

  /** MacLowTransmissionParameters: RTS, ACK, and the size of the next
      fragment when transmissions are chained. */
  datatype TxParams = TxParams(rts: bool, ack: bool, nextData: Option<nat>)

  datatype TxRequest = TxRequest(payload: Payload, hdr: WifiMacHeader, params: TxParams)

  /** The station manager's answers at the time of a call, for a header and a
      packet (and a fragment number). */
  datatype StationManager = StationManager(
    needRts: (WifiMacHeader, Payload) -> bool,
    needFragmentation: (WifiMacHeader, Packet) -> bool,
    isLastFragment: (WifiMacHeader, Packet, nat) -> bool,
    fragmentSize: (WifiMacHeader, Packet, nat) -> nat,
    fragmentOffset: (WifiMacHeader, Packet, nat) -> nat,
    needRtsRetransmission: (WifiMacHeader, Packet) -> bool,
    needDataRetransmission: (WifiMacHeader, Packet) -> bool)

  /** Calls the coordinator makes into its collaborators. */
  datatype Event =
    | RequestAccess                              // DcfManager::RequestAccess
    | StartTransmission(tx: TxRequest)           // MacLow::StartTransmission
    | TxOk(hdr: WifiMacHeader)                   // the success callback
    | TxFailed(hdr: WifiMacHeader)               // the failure callback
    | ReportFinalRtsFailed(hdr: WifiMacHeader)   // to the station manager
    | ReportFinalDataFailed(hdr: WifiMacHeader)  // to the station manager

  /** GetFragmentPacket: the header of fragment `n` and the slice it carries. */
  function FragmentFrame(p: Packet, h: WifiMacHeader, n: nat, sm: StationManager): (f: (WifiMacHeader, Payload))
    // only the fragment number and the more-fragments flag of the header change
    ensures f.0.(fragment := h.fragment, moreFragments := h.moreFragments) == h
    ensures f.0.fragment == n && (f.0.moreFragments <==> !sm.isLastFragment(h, p, n))
    // the slice of `p` the station manager assigns to fragment `n`
    ensures f.1.Fragment? && f.1.packet == p
    ensures f.1.offset == sm.fragmentOffset(h, p, n) && f.1.size == sm.fragmentSize(h, p, n)
  {
    (h.(fragment := n, moreFragments := !sm.isLastFragment(h, p, n)),
     Fragment(p, sm.fragmentOffset(h, p, n), sm.fragmentSize(h, p, n)))
  }

  /** The transmission an access grant starts for frame `p` with header `h` at fragment `n`. */
  function GrantTx(p: Packet, h: WifiMacHeader, n: nat, sm: StationManager): (t: TxRequest)
    ensures IsGroup(h.addr1) ==> t == TxRequest(Whole(p), h, TxParams(false, false, None))
    ensures !IsGroup(h.addr1) ==> t.params.ack
    ensures t.params.nextData.Some? <==>
              !IsGroup(h.addr1) && sm.needFragmentation(h, p) && !sm.isLastFragment(h, p, n)
    ensures t.params.nextData.Some? ==> t.params.nextData.value == sm.fragmentSize(h, p, n + 1)
    ensures !IsGroup(h.addr1) && sm.needFragmentation(h, p) ==>
              && t.payload == Fragment(p, sm.fragmentOffset(h, p, n), sm.fragmentSize(h, p, n))
              && t.hdr == h.(fragment := n, moreFragments := !sm.isLastFragment(h, p, n))
              && (t.params.rts <==> sm.needRts(t.hdr, t.payload))
    ensures !IsGroup(h.addr1) && !sm.needFragmentation(h, p) ==>
              t.payload == Whole(p) && t.hdr == h && (t.params.rts <==> sm.needRts(h, Whole(p)))
  {
    if IsGroup(h.addr1) then
      TxRequest(Whole(p), h, TxParams(false, false, None))
    else if sm.needFragmentation(h, p) then
      var (fh, frag) := FragmentFrame(p, h, n, sm);
      var next := if sm.isLastFragment(h, p, n) then None else Some(sm.fragmentSize(h, p, n + 1));
      TxRequest(frag, fh, TxParams(sm.needRts(fh, frag), true, next))
    else
      TxRequest(Whole(p), h, TxParams(sm.needRts(h, Whole(p)), true, None))
  }

  /** The transmission StartNext hands over for fragment `n` (already advanced). */
  function NextFragmentTx(p: Packet, h: WifiMacHeader, n: nat, sm: StationManager): (t: TxRequest)
    ensures !t.params.rts && t.params.ack
    ensures t.params.nextData.Some? <==> !sm.isLastFragment(h, p, n)
    ensures t.params.nextData.Some? ==> t.params.nextData.value == sm.fragmentSize(h, p, n + 1)
    ensures t.payload == Fragment(p, sm.fragmentOffset(h, p, n), sm.fragmentSize(h, p, n))
    ensures t.hdr == h.(fragment := n, moreFragments := !sm.isLastFragment(h, p, n))
  {
    var (fh, frag) := FragmentFrame(p, h, n, sm);
    var next := if sm.isLastFragment(h, p, n) then None else Some(sm.fragmentSize(h, p, n + 1));
    TxRequest(frag, fh, TxParams(false, true, next))
  }

  /** The header of a freshly dequeued frame: next sequence number, fragment 0,
      no more fragments, no retry. */
  function Stamped(h: WifiMacHeader, sequence: nat): (r: WifiMacHeader)
    // kind, addresses and TID are the queued header's
    ensures r.(sequence := h.sequence, fragment := h.fragment, moreFragments := h.moreFragments, retry := h.retry) == h
    ensures r.sequence == sequence && r.fragment == 0 && !r.moreFragments && !r.retry
  {
    h.(sequence := sequence, fragment := 0, moreFragments := false, retry := false)
  }

  // ---------------------------------------------------------------------
  // Transitions of the frame in flight
  // ---------------------------------------------------------------------

  /** The frame in flight with its header, and the contention state. */
  datatype Attempt = Attempt(current: Option<Packet>, hdr: WifiMacHeader, dcf: DcfState)

  /** The state after a transition and the calls it made, in order. */
  datatype Outcome = Outcome(next: Attempt, events: seq<Event>)

  datatype Miss = CtsMissed | AckMissed

  function FinalFailureReport(m: Miss, h: WifiMacHeader): Event {
    match m
    case CtsMissed => ReportFinalRtsFailed(h)
    case AckMissed => ReportFinalDataFailed(h)
  }

  /** MissedCts / MissedAck before the access check: give up (report, fail,
      clear the frame, reset the window) or keep the frame with a grown window
      (and the retry flag for a missed ACK); then draw a new backoff. */
  function AfterMiss(a: Attempt, m: Miss, retransmit: bool, rng: nat -> nat): (o: Outcome)
    requires ValidRng(rng)
    ensures !retransmit ==> o.next.current == None && o.next.hdr == a.hdr && o.next.dcf.cw == a.dcf.cwMin
                            && o.events == [FinalFailureReport(m, a.hdr), TxFailed(a.hdr)]
    ensures retransmit ==> o.next.current == a.current && o.events == []
                           && o.next.dcf.cw == UpdateFailedCw(a.dcf).cw
                           && o.next.hdr == (if m == AckMissed then a.hdr.(retry := true) else a.hdr)
    ensures o.next.dcf.backoffSlots <= o.next.dcf.cw
    ensures o.next.dcf.(cw := a.dcf.cw, backoffSlots := a.dcf.backoffSlots) == a.dcf
    ensures CwInRange(a.dcf) ==> CwInRange(o.next.dcf)
  {
    if !retransmit then
      Outcome(Attempt(None, a.hdr, DrawBackoff(ResetCw(a.dcf), rng)), [FinalFailureReport(m, a.hdr), TxFailed(a.hdr)])
    else
      var h := if m == AckMissed then a.hdr.(retry := true) else a.hdr;
      Outcome(Attempt(a.current, h, DrawBackoff(UpdateFailedCw(a.dcf), rng)), [])
  }

  /** GotAck for an unfragmented frame or its last fragment, before the access
      check: success reported, frame cleared, window reset, new backoff. */
  function AfterAck(a: Attempt, rng: nat -> nat): (o: Outcome)
    requires ValidRng(rng)
    ensures o.next.current == None && o.next.hdr == a.hdr && o.events == [TxOk(a.hdr)]
    ensures o.next.dcf.cw == a.dcf.cwMin && o.next.dcf.backoffSlots <= o.next.dcf.cw
    ensures o.next.dcf.(cw := a.dcf.cw, backoffSlots := a.dcf.backoffSlots) == a.dcf
  {
    Outcome(Attempt(None, a.hdr, DrawBackoff(ResetCw(a.dcf), rng)), [TxOk(a.hdr)])
  }

  /** EndTxNoAck before the access check: frame cleared, window reset, new backoff, no callback. */
  function AfterNoAck(a: Attempt, rng: nat -> nat): (o: Outcome)
    requires ValidRng(rng)
    ensures o.next.current == None && o.next.hdr == a.hdr && o.events == []
    ensures o.next.dcf.cw == a.dcf.cwMin && o.next.dcf.backoffSlots <= o.next.dcf.cw
    ensures o.next.dcf.(cw := a.dcf.cw, backoffSlots := a.dcf.backoffSlots) == a.dcf
  {
    Outcome(Attempt(None, a.hdr, DrawBackoff(ResetCw(a.dcf), rng)), [])
  }

  /** A collision before the access check: new backoff from the unchanged
      window; frame and window untouched. */
  function AfterCollision(a: Attempt, rng: nat -> nat): (o: Outcome)
    requires ValidRng(rng)
    ensures o.next.current == a.current && o.next.hdr == a.hdr && o.events == []
    ensures o.next.dcf.backoffSlots <= a.dcf.cw
    ensures o.next.dcf.(backoffSlots := a.dcf.backoffSlots) == a.dcf
  {
    Outcome(a.(dcf := DrawBackoff(a.dcf, rng)), [])
  }

  /** RequestAccess when `wanted`: the request flag is set and the call recorded. */
  function RequestIf(o: Outcome, wanted: bool): Outcome {
    if wanted then Outcome(o.next.(dcf := o.next.dcf.(accessRequested := true)), o.events + [RequestAccess])
    else o
  }

  /** StartAccessIfNeeded asks for access: nothing in flight, work queued, no request outstanding. */
  predicate StartWanted(current: Option<Packet>, queued: seq<Item>, requested: bool)
    // the start test is the restart test with nothing in flight
    ensures StartWanted(current, queued, requested) <==> current.None? && RestartWanted(current, queued, requested)
  {
    current.None? && queued != [] && !requested
  }

  /** RestartAccessIfNeeded asks for access: something in flight or queued, no request outstanding. */
  predicate RestartWanted(current: Option<Packet>, queued: seq<Item>, requested: bool) {
    (current.Some? || queued != []) && !requested
  }

  /** The queue after RestartAccessIfNeeded's test: IsEmpty, and so Cleanup,
      runs only when nothing is in flight. */
  function CheckedQueue(current: Option<Packet>, items: seq<Item>, maxDelay: Time, now: Time): (r: seq<Item>)
    ensures current.Some? ==> r == items
    ensures current.None? ==> |r| <= |items| && forall i :: 0 <= i < |r| ==> IsFresh(r[i], maxDelay, now)
    // a second check at the same instant changes nothing
    ensures current.None? ==> Survivors(r, maxDelay, now) == r
  {
    if current.Some? then items
    else
      CleanupIdempotent(items, maxDelay, now);
      Survivors(items, maxDelay, now)
  }

  /** Successive missed CTS or ACK notifications with the station manager's
      retransmission answers. */
  function MissRun(a: Attempt, m: Miss, answers: seq<bool>, rng: nat -> nat): Outcome
    requires ValidRng(rng)
    decreases |answers|
  {
    if answers == [] then Outcome(a, [])
    else
      var o := AfterMiss(a, m, answers[0], rng);
      var rest := MissRun(o.next, m, answers[1..], rng);
      Outcome(rest.next, o.events + rest.events)
  }

  /** While retransmission is allowed the frame stays in flight, nothing is
      reported, and the window grows once per failure (never reset mid-retry). */
  lemma {:induction false} RetriesKeepFrame(a: Attempt, m: Miss, answers: seq<bool>, rng: nat -> nat)
    requires ValidRng(rng)
    requires forall i :: 0 <= i < |answers| ==> answers[i]
    ensures MissRun(a, m, answers, rng).events == []
    ensures MissRun(a, m, answers, rng).next.current == a.current
    ensures MissRun(a, m, answers, rng).next.dcf.cw == FailedCwTimes(a.dcf, |answers|).cw
    ensures MissRun(a, m, answers, rng).next.hdr ==
              if m == AckMissed && |answers| > 0 then a.hdr.(retry := true) else a.hdr
    decreases |answers|
  {
    if answers != [] {
      var o := AfterMiss(a, m, true, rng);
      RetriesKeepFrame(o.next, m, answers[1..], rng);
      FailedCwShift(a.dcf, o.next.dcf, |answers| - 1);
    }
  }

  /** Failures applied to states that differ only in backoff and request flag give the same window. */
  lemma {:induction false} FailedCwShift(d: DcfState, e: DcfState, n: nat)
    requires e.cw == UpdateFailedCw(d).cw && e.cwMin == d.cwMin && e.cwMax == d.cwMax
    ensures FailedCwTimes(e, n).cw == FailedCwTimes(d, n + 1).cw
    ensures FailedCwTimes(e, n).cwMax == d.cwMax
  {
    if n > 0 {
      FailedCwShift(d, e, n - 1);
      FailedCwFrame(e, n - 1);
      FailedCwFrame(d, n);
    }
  }

  lemma {:induction false} FailedCwFrame(d: DcfState, n: nat)
    ensures FailedCwTimes(d, n).cwMin == d.cwMin && FailedCwTimes(d, n).cwMax == d.cwMax
  {
    if n > 0 {
      FailedCwFrame(d, n - 1);
    }
  }

  /** Retry exhaustion: n allowed retransmissions followed by a refusal end
      with exactly one failure report and one failure callback, the frame
      cleared and the window back at its minimum. */
  lemma {:induction false} RetryExhaustion(a: Attempt, m: Miss, n: nat, rng: nat -> nat)
    requires ValidRng(rng) && a.current.Some?
    ensures var h := if m == AckMissed && n > 0 then a.hdr.(retry := true) else a.hdr;
            var o := MissRun(a, m, seq(n, i => true) + [false], rng);
            o.events == [FinalFailureReport(m, h), TxFailed(h)]
            && o.next.current == None && o.next.dcf.cw == a.dcf.cwMin
    decreases n
  {
    var answers := seq(n, i => true) + [false];
    if n > 0 {
      var o := AfterMiss(a, m, true, rng);
      assert answers[0];
      assert answers[1..] == seq(n - 1, i => true) + [false];
      RetryExhaustion(o.next, m, n - 1, rng);
    } else {
      assert answers[1..] == [];
    }
  }

  // ---------------------------------------------------------------------
  // The destination roster and its round-robin window
  // ---------------------------------------------------------------------

  predicate NoDuplicates(s: seq<Mac48Address>) {
    forall i, j :: 0 <= i < j < |s| ==> s[i] != s[j]
  }

  /** The roster lists distinct unicast-or-multicast destinations, never broadcast. */
  predicate RosterValid(s: seq<Mac48Address>) {
    NoDuplicates(s) && Broadcast !in s
  }

  /** The roster after an AP queues a frame for `a`: appended when new and not broadcast. */
  function RosterAdd(clients: seq<Mac48Address>, a: Mac48Address): (r: seq<Mac48Address>)
    ensures |clients| <= |r| <= |clients| + 1 && r[..|clients|] == clients
    ensures forall x :: x in r <==> x in clients || (x == a && a != Broadcast)
    ensures RosterValid(clients) ==> RosterValid(r)
  {
    if a in clients || a == Broadcast then clients else clients + [a]
  }

  /** The roster built from the destinations of the frames queued, in order. */
  function RosterOf(dests: seq<Mac48Address>): seq<Mac48Address>
    decreases |dests|
  {
    if dests == [] then [] else RosterAdd(RosterOf(dests[..|dests| - 1]), dests[|dests| - 1])
  }

  /** The position where `x` first occurs in `s`. */
  function FirstSeen(s: seq<Mac48Address>, x: Mac48Address): (k: nat)
    requires x in s
    ensures k < |s| && s[k] == x && x !in s[..k]
    decreases |s|
  {
    var init := s[..|s| - 1];
    if x in init then FirstSeen(init, x) else |s| - 1
  }

  /** The roster holds each non-broadcast destination seen exactly once, in
      order of first appearance. */
  lemma {:induction false} RosterFirstSeenOrder(dests: seq<Mac48Address>)
    ensures RosterValid(RosterOf(dests))
    ensures forall x :: x in RosterOf(dests) <==> x in dests && x != Broadcast
    ensures forall i, j :: 0 <= i < j < |RosterOf(dests)| ==>
              RosterOf(dests)[i] in dests && RosterOf(dests)[j] in dests &&
              FirstSeen(dests, RosterOf(dests)[i]) < FirstSeen(dests, RosterOf(dests)[j])
    decreases |dests|
  {
    if dests != [] {
      var init := dests[..|dests| - 1];
      var a := dests[|dests| - 1];
      assert dests == init + [a];
      RosterFirstSeenOrder(init);
      var r0 := RosterOf(init);
      var r := RosterOf(dests);
      forall x | x in init
        ensures FirstSeen(dests, x) == FirstSeen(init, x)
      {
      }
      if !(a in r0 || a == Broadcast) {
        assert a !in init;
        assert FirstSeen(dests, a) == |dests| - 1;
        forall i, j | 0 <= i < j < |r|
          ensures r[i] in dests && r[j] in dests && FirstSeen(dests, r[i]) < FirstSeen(dests, r[j])
        {
          if j < |r0| {
            assert r[i] == r0[i] && r[j] == r0[j];
          } else {
            assert r[i] == r0[i] && r[j] == a;
          }
        }
      }
    }
  }

  /** The roster cursor schedI: an iterator into the roster, or its end. An
      end iterator stays at the end when the roster grows. */
  datatype Cursor = At(index: nat) | End

  predicate CursorValid(c: Cursor, clients: seq<Mac48Address>) {
    c.At? ==> c.index < |clients|
  }

  /** Where a window starts: the cursor, or the roster's beginning when the cursor is at the end. */
  function WindowStart(c: Cursor): nat {
    if c.At? then c.index else 0
  }

  datatype Window = Window(active: seq<Mac48Address>, next: Cursor)

  /** A window rebuild: up to `n` consecutive roster entries from the (wrapped)
      cursor, and the cursor past them. */
  function RosterWindow(clients: seq<Mac48Address>, c: Cursor, n: nat): (w: Window)
    requires CursorValid(c, clients)
    ensures CursorValid(w.next, clients)
    ensures |w.active| == Min(n, |clients| - WindowStart(c))
    ensures w.active == clients[WindowStart(c)..WindowStart(c) + |w.active|]
    ensures w.next == if WindowStart(c) + |w.active| < |clients| then At(WindowStart(c) + |w.active|) else End
  {
    var start := WindowStart(c);
    var stop := if start + n < |clients| then start + n else |clients|;
    Window(clients[start..stop], if stop < |clients| then At(stop) else End)
  }

  /** The cursor's position in the roster, the end counting as |clients|. */
  function Pos(c: Cursor, clients: seq<Mac48Address>): nat {
    if c.At? then c.index else |clients|
  }

  /** The window-filling loop of an access grant. */
  method FillWindow(clients: seq<Mac48Address>, c: Cursor, n: nat) returns (w: Window)
    requires CursorValid(c, clients)
    ensures w == RosterWindow(clients, c, n)
  {
    var cursor := c;
    if cursor == End {
      cursor := if |clients| > 0 then At(0) else End;
    }
    var start := WindowStart(c);
    var active: seq<Mac48Address> := [];
    var count := 0;
    while cursor != End && count < n
      invariant CursorValid(cursor, clients)
      invariant count <= n
      invariant Pos(cursor, clients) == start + count <= |clients|
      invariant active == clients[start..start + count]
      decreases n - count
    {
      active := active + [clients[cursor.index]];
      cursor := if cursor.index + 1 < |clients| then At(cursor.index + 1) else End;
      count := count + 1;
    }
    return Window(active, cursor);
  }

  /** The window of the k-th rebuild over a fixed roster, the cursor starting at the end. */
  function Epoch(clients: seq<Mac48Address>, n: nat, k: nat): (w: Window)
    ensures CursorValid(w.next, clients)
  {
    if k == 0 then RosterWindow(clients, End, n)
    else RosterWindow(clients, Epoch(clients, n, k - 1).next, n)
  }

  /** The k-th rebuild covers roster entries k*n up to (k+1)*n. */
  lemma {:induction false} EpochCovers(clients: seq<Mac48Address>, n: nat, k: nat)
    requires n > 0 && k * n < |clients|
    ensures Epoch(clients, n, k).active == clients[k * n..Min(k * n + n, |clients|)]
    ensures Epoch(clients, n, k).next == if k * n + n < |clients| then At(k * n + n) else End
  {
    if k > 0 {
      assert (k - 1) * n + n == k * n;
      EpochCovers(clients, n, k - 1);
    }
  }

  lemma DivisionBounds(i: nat, n: nat)
    requires n > 0
    ensures (i / n) * n <= i < (i / n) * n + n
  {
  }

  lemma InSlice(clients: seq<Mac48Address>, active: seq<Mac48Address>, m: nat, n: nat, i: nat)
    requires m <= i < m + n && i < |clients|
    requires active == clients[m..Min(m + n, |clients|)]
    ensures clients[i] in active
  {
    assert active[i - m] == clients[i];
  }

  /** Round-robin fairness over a fixed roster: every destination is in the
      window of rebuild i / numClients, so within ceil(|roster| / numClients)
      epochs every destination has been active. */
  lemma RoundRobinCoversRoster(clients: seq<Mac48Address>, n: nat, i: nat)
    requires n > 0 && i < |clients|
    ensures clients[i] in Epoch(clients, n, i / n).active
  {
    DivisionBounds(i, n);
    CoveredAt(clients, n, i / n, i);
  }

  /** Roster entry i lies in the window of every rebuild k with k*n <= i < (k+1)*n. */
  lemma CoveredAt(clients: seq<Mac48Address>, n: nat, k: nat, i: nat)
    requires n > 0 && k * n <= i < k * n + n && i < |clients|
    ensures clients[i] in Epoch(clients, n, k).active
  {
    EpochCovers(clients, n, k);
    InSlice(clients, Epoch(clients, n, k).active, k * n, n, i);
  }

  // ---------------------------------------------------------------------
  // The coordinator object
  // ---------------------------------------------------------------------

  /** The round-robin state: roster, cursor, active window, epoch start, epoch count. */
  datatype Sched = Sched(clients: seq<Mac48Address>, cursor: Cursor, active: seq<Mac48Address>, time: Time, counter: nat)

  /** The round-robin state after an access grant that dequeues at `now`: the
      window is rebuilt only when a whole epoch has passed since the last rebuild. */
  function Reschedule(s: Sched, now: Time, n: nat): (r: Sched)
    requires CursorValid(s.cursor, s.clients)
    ensures r.clients == s.clients && CursorValid(r.cursor, r.clients)
    // within an epoch nothing changes
    ensures Millis(now) - Millis(s.time) < EpochMillis ==> r == s
    // after an epoch: the next (at most n) roster entries from the cursor, restamped
    ensures Millis(now) - Millis(s.time) >= EpochMillis ==>
              && r.time == now && r.counter == s.counter + 1 && |r.active| <= n
              && WindowStart(s.cursor) + |r.active| <= |s.clients|
              && r.active == s.clients[WindowStart(s.cursor)..WindowStart(s.cursor) + |r.active|]
  {
    if Millis(now) - Millis(s.time) >= EpochMillis then
      var w := RosterWindow(s.clients, s.cursor, n);
      s.(cursor := w.next, active := w.active, time := now, counter := s.counter + 1)
    else s
  }

  const InitialHeader: WifiMacHeader := WifiMacHeader(Data, 0, 0, 0, 0, 0, 0, false, false)

  class DcaTxop {
    const queue: WifiMacQueue                  // m_queue
    const address: Mac48Address                // m_low->GetAddress ()
    const bssid: Mac48Address                  // m_low->GetBssid ()
    const numClients: nat                      // numClients
    var dcf: DcfState                          // m_dcf
    var currentPacket: Option<Packet>          // m_currentPacket
    var currentHdr: WifiMacHeader              // m_currentHdr
    var fragmentNumber: nat                    // m_fragmentNumber
    var clients: seq<Mac48Address>             // m_clients
    var schedI: Cursor                         // schedI
    var activeClients: seq<Mac48Address>       // active_clients
    var schedTime: Time                        // schedTime
    var counter: nat                           // counter

    ghost predicate Valid()
      reads this, queue
    {
      queue.Valid() && RosterValid(clients) && CursorValid(schedI, clients) && CwInRange(dcf)
    }

    ghost function InFlight(): Attempt
      reads this
    {
      Attempt(currentPacket, currentHdr, dcf)
    }

    ghost function Scheduler(): Sched
      reads this
    {
      Sched(clients, schedI, activeClients, schedTime, counter)
    }

    /** This coordinator serves an access point (its BSSID is its own address). */
    predicate IsAp() {
      bssid == address
    }

    constructor (address: Mac48Address, bssid: Mac48Address, cwMin: nat, cwMax: nat)
      requires cwMin <= cwMax
      ensures Valid() && fresh(queue)
      ensures this.address == address && this.bssid == bssid && numClients == NumClients
      ensures queue.items == [] && currentPacket == None
      ensures queue.maxSize == DefaultMaxSize && queue.maxDelay == DefaultMaxDelay
      ensures Scheduler() == Sched([], End, [], 0, 0)
      ensures dcf == DcfState(cwMin, cwMax, cwMin, 0, false)
    {
      queue := new WifiMacQueue();
      this.address := address;
      this.bssid := bssid;
      numClients := NumClients;
      dcf := DcfState(cwMin, cwMax, cwMin, 0, false);
      currentPacket := None;
      currentHdr := InitialHeader;
      fragmentNumber := 0;
      clients := [];
      schedI := End;
      activeClients := [];
      schedTime := 0;
      counter := 0;
    }

    /** DoInitialize: the window starts at its minimum with a fresh backoff. */
    method Initialize(rng: nat -> nat)
      requires Valid() && ValidRng(rng)
      modifies this`dcf
      ensures Valid()
      ensures dcf == DrawBackoff(ResetCw(old(dcf)), rng) && dcf.cw == dcf.cwMin
    {
      dcf := ResetCw(dcf);
      dcf := DrawBackoff(dcf, rng);
    }

    /** DcfManager::RequestAccess: the request is recorded and flagged. */
    method RequestAccessNow() returns (events: seq<Event>)
      modifies this`dcf
      ensures dcf == old(dcf).(accessRequested := true) && events == [RequestAccess]
    {
      dcf := dcf.(accessRequested := true);
      events := [RequestAccess];
    }

    /** Requests access when nothing is in flight, work is queued and no request is outstanding. */
    method StartAccessIfNeeded(now: Time) returns (events: seq<Event>)
      requires Valid()
      modifies this`dcf, queue
      ensures Valid()
      ensures queue.items == CheckedQueue(currentPacket, old(queue.items), old(queue.maxDelay), now)
      ensures events == if StartWanted(currentPacket, queue.items, old(dcf.accessRequested)) then [RequestAccess] else []
      ensures dcf == old(dcf).(accessRequested := old(dcf.accessRequested) || events != [])
      ensures queue.maxSize == old(queue.maxSize) && queue.maxDelay == old(queue.maxDelay)
    {
      events := [];
      if currentPacket == None {
        var empty := queue.IsEmpty(now);
        if !empty && !dcf.accessRequested {
          events := RequestAccessNow();
        }
      }
    }

    /** Requests access when something is in flight or queued and no request is outstanding. */
    method RestartAccessIfNeeded(now: Time) returns (events: seq<Event>)
      requires Valid()
      modifies this`dcf, queue
      ensures Valid()
      ensures queue.items == CheckedQueue(currentPacket, old(queue.items), old(queue.maxDelay), now)
      ensures events == if RestartWanted(currentPacket, queue.items, old(dcf.accessRequested)) then [RequestAccess] else []
      ensures dcf == old(dcf).(accessRequested := old(dcf.accessRequested) || events != [])
      ensures queue.maxSize == old(queue.maxSize) && queue.maxDelay == old(queue.maxDelay)
    {
      events := [];
      var pending := currentPacket.Some?;
      if !pending {
        var empty := queue.IsEmpty(now);
        pending := !empty;
      }
      if pending && !dcf.accessRequested {
        events := RequestAccessNow();
      }
    }

    /** Whether there is work: queued frames (after cleanup) or a frame in flight. */
    method NeedsAccess(now: Time) returns (b: bool)
      requires Valid()
      modifies queue
      ensures Valid()
      ensures queue.items == Survivors(old(queue.items), old(queue.maxDelay), now)
      ensures b <==> queue.items != [] || currentPacket.Some?
      ensures queue.maxSize == old(queue.maxSize) && queue.maxDelay == old(queue.maxDelay)
    {
      var empty := queue.IsEmpty(now);
      b := !empty || currentPacket.Some?;
    }

    /** Upper-layer admission: an access point records a new, non-broadcast
        destination in its roster; the frame is enqueued and access requested if needed. */
    method Queue(packet: Packet, hdr: WifiMacHeader, now: Time) returns (events: seq<Event>)
      requires Valid()
      modifies this`clients, this`dcf, queue
      ensures Valid()
      ensures clients == if IsAp() then RosterAdd(old(clients), hdr.addr1) else old(clients)
      ensures var e := Admit(Survivors(old(queue.items), old(queue.maxDelay), now), old(queue.maxSize), Item(packet, hdr, now), false);
              queue.items == CheckedQueue(currentPacket, e, old(queue.maxDelay), now)
      ensures events == if StartWanted(currentPacket, queue.items, old(dcf.accessRequested)) then [RequestAccess] else []
      ensures dcf == old(dcf).(accessRequested := old(dcf.accessRequested) || events != [])
      ensures queue.maxSize == old(queue.maxSize) && queue.maxDelay == old(queue.maxDelay)
    {
      if bssid == address {
        var found := ContainsAddress(clients, hdr.addr1);
        if !found && hdr.addr1 != Broadcast {
          clients := clients + [hdr.addr1];
        }
      }
      queue.Enqueue(packet, hdr, now);
      events := StartAccessIfNeeded(now);
    }

    /** Rebuilds the round-robin window at `now`. */
    method RebuildWindow(now: Time)
      requires Valid()
      modifies this`schedI, this`activeClients, this`schedTime, this`counter
      ensures Valid()
      ensures var w := RosterWindow(clients, old(schedI), numClients);
              Scheduler() == old(Scheduler()).(cursor := w.next, active := w.active, time := now, counter := old(counter) + 1)
    {
      schedTime := now;
      activeClients := [];
      counter := counter + 1;
      var w := FillWindow(clients, schedI, numClients);
      activeClients := w.active;
      schedI := w.next;
    }

    /** The dequeue of an access grant from a queue already cleaned at `now`:
        an access point rebuilds its window once an epoch has passed and takes
        the first frame for an active destination, a station takes the head;
        the frame becomes the one in flight, with a fresh header. */
    method DequeueNext(now: Time, sequence: nat)
      requires Valid() && queue.items != []
      requires Survivors(queue.items, queue.maxDelay, now) == queue.items
      modifies this`currentPacket, this`currentHdr, this`fragmentNumber, this`schedI,
               this`activeClients, this`schedTime, this`counter, queue
      ensures Valid()
      ensures var c := old(queue.items);
              var sch := if IsAp() then Reschedule(old(Scheduler()), now, numClients) else old(Scheduler());
              var k := if IsAp() then AddressPick(c, sch.active) else 0;
              && Scheduler() == sch && k < |c| && queue.items == RemoveAt(c, k)
              && currentPacket == Some(c[k].packet) && currentHdr == Stamped(c[k].hdr, sequence)
              && fragmentNumber == 0
      ensures queue.maxSize == old(queue.maxSize) && queue.maxDelay == old(queue.maxDelay)
    {
      var it := TakeFrame(now);
      currentPacket := Some(it.packet);
      currentHdr := Stamped(it.hdr, sequence);
      fragmentNumber := 0;
    }

    /** The selection part of DequeueNext. */
    method TakeFrame(now: Time) returns (it: Item)
      requires Valid() && queue.items != []
      requires Survivors(queue.items, queue.maxDelay, now) == queue.items
      modifies this`schedI, this`activeClients, this`schedTime, this`counter, queue
      ensures Valid()
      ensures var c := old(queue.items);
              var sch := if IsAp() then Reschedule(old(Scheduler()), now, numClients) else old(Scheduler());
              var k := if IsAp() then AddressPick(c, sch.active) else 0;
              && Scheduler() == sch && k < |c| && it == c[k] && queue.items == RemoveAt(c, k)
      ensures queue.maxSize == old(queue.maxSize) && queue.maxDelay == old(queue.maxDelay)
    {
      ghost var c := queue.items;
      var picked: Option<Item>;
      if bssid == address {
        if Millis(now) - Millis(schedTime) >= EpochMillis {
          RebuildWindow(now);
        }
        picked := queue.DequeueByAddresses(activeClients, clients, now);
      } else {
        picked := queue.Dequeue(now);
        assert c[1..] == RemoveAt(c, 0);
      }
      it := picked.value;
    }

    /** The arbiter grants access: with nothing in flight, pick a frame (round
        robin on an access point, FIFO otherwise) and stamp its header; then
        start transmitting the frame in flight. */
    method NotifyAccessGranted(now: Time, sequence: nat, sm: StationManager) returns (events: seq<Event>)
      requires Valid()
      modifies this`dcf, this`currentPacket, this`currentHdr, this`fragmentNumber, this`schedI,
               this`activeClients, this`schedTime, this`counter, queue
      ensures Valid()
      // the grant consumes the outstanding request
      ensures dcf == old(dcf).(accessRequested := false)
      ensures old(currentPacket).Some? ==>
                && queue.items == old(queue.items) && Scheduler() == old(Scheduler())
                && currentPacket == old(currentPacket) && currentHdr == old(currentHdr)
                && fragmentNumber == old(fragmentNumber)
                && events == [StartTransmission(GrantTx(currentPacket.value, currentHdr, fragmentNumber, sm))]
      ensures var c := Survivors(old(queue.items), old(queue.maxDelay), now);
              old(currentPacket).None? && c == [] ==>
                && queue.items == [] && Scheduler() == old(Scheduler())
                && currentPacket == old(currentPacket) && currentHdr == old(currentHdr)
                && fragmentNumber == old(fragmentNumber)
                && events == []
      ensures var c := Survivors(old(queue.items), old(queue.maxDelay), now);
              old(currentPacket).None? && c != [] ==>
                var sch := if IsAp() then Reschedule(old(Scheduler()), now, numClients) else old(Scheduler());
                var k := if IsAp() then AddressPick(c, sch.active) else 0;
                && Scheduler() == sch && queue.items == RemoveAt(c, k)
                && currentPacket == Some(c[k].packet) && currentHdr == Stamped(c[k].hdr, sequence)
                && fragmentNumber == 0
                && events == [StartTransmission(GrantTx(c[k].packet, currentHdr, 0, sm))]
      ensures queue.maxSize == old(queue.maxSize) && queue.maxDelay == old(queue.maxDelay)
    {
      dcf := dcf.(accessRequested := false);
      if currentPacket.Some? {
        return [StartTransmission(GrantTx(currentPacket.value, currentHdr, fragmentNumber, sm))];
      }
      var empty := queue.IsEmpty(now);
      if empty {
        return [];
      }
      CleanupIdempotent(old(queue.items), queue.maxDelay, now);
      DequeueNext(now, sequence);
      events := [StartTransmission(GrantTx(currentPacket.value, currentHdr, 0, sm))];
    }

    /** An internal collision is handled as a collision. */
    method NotifyInternalCollision(rng: nat -> nat, now: Time) returns (events: seq<Event>)
      requires Valid() && ValidRng(rng)
      modifies this`dcf, queue
      ensures Valid()
      ensures var o := AfterCollision(old(InFlight()), rng);
              queue.items == CheckedQueue(currentPacket, old(queue.items), old(queue.maxDelay), now)
              && var f := RequestIf(o, RestartWanted(o.next.current, queue.items, o.next.dcf.accessRequested));
              InFlight() == f.next && events == f.events
      ensures queue.maxSize == old(queue.maxSize) && queue.maxDelay == old(queue.maxDelay)
    {
      events := NotifyCollision(rng, now);
    }

    /** A collision: new backoff from the current window, then access requested if needed. */
    method NotifyCollision(rng: nat -> nat, now: Time) returns (events: seq<Event>)
      requires Valid() && ValidRng(rng)
      modifies this`dcf, queue
      ensures Valid()
      ensures var o := AfterCollision(old(InFlight()), rng);
              queue.items == CheckedQueue(currentPacket, old(queue.items), old(queue.maxDelay), now)
              && var f := RequestIf(o, RestartWanted(o.next.current, queue.items, o.next.dcf.accessRequested));
              InFlight() == f.next && events == f.events
      ensures queue.maxSize == old(queue.maxSize) && queue.maxDelay == old(queue.maxDelay)
    {
      dcf := DrawBackoff(dcf, rng);
      events := RestartAccessIfNeeded(now);
    }

    /** A channel switch discards every queued frame and the frame in flight. */
    method NotifyChannelSwitching()
      requires Valid()
      modifies this`currentPacket, queue
      ensures Valid()
      ensures queue.items == [] && currentPacket == None
      ensures queue.maxSize == old(queue.maxSize) && queue.maxDelay == old(queue.maxDelay)
    {
      queue.Flush();
      currentPacket := None;
    }

    /** The RTS went unanswered. */
    method MissedCts(sm: StationManager, rng: nat -> nat, now: Time) returns (events: seq<Event>)
      requires Valid() && ValidRng(rng) && currentPacket.Some?
      modifies this`currentPacket, this`dcf, queue
      ensures Valid()
      ensures var o := AfterMiss(old(InFlight()), CtsMissed, sm.needRtsRetransmission(old(currentHdr), old(currentPacket).value), rng);
              queue.items == CheckedQueue(o.next.current, old(queue.items), old(queue.maxDelay), now)
              && var f := RequestIf(o, RestartWanted(o.next.current, queue.items, o.next.dcf.accessRequested));
              InFlight() == f.next && events == f.events
      ensures queue.maxSize == old(queue.maxSize) && queue.maxDelay == old(queue.maxDelay)
    {
      if !sm.needRtsRetransmission(currentHdr, currentPacket.value) {
        events := [ReportFinalRtsFailed(currentHdr), TxFailed(currentHdr)];
        currentPacket := None;
        dcf := ResetCw(dcf);
      } else {
        events := [];
        dcf := UpdateFailedCw(dcf);
      }
      dcf := DrawBackoff(dcf, rng);
      var more := RestartAccessIfNeeded(now);
      events := events + more;
    }

    /** The ACK arrived: the frame (or its last fragment) is done; for an
        earlier fragment nothing happens. */
    method GotAck(sm: StationManager, rng: nat -> nat, now: Time) returns (events: seq<Event>)
      requires Valid() && ValidRng(rng) && currentPacket.Some?
      modifies this`currentPacket, this`dcf, queue
      ensures Valid()
      ensures var p, h := old(currentPacket).value, old(currentHdr);
              var done := !sm.needFragmentation(h, p) || sm.isLastFragment(h, p, fragmentNumber);
              if done then
                var o := AfterAck(old(InFlight()), rng);
                queue.items == Survivors(old(queue.items), old(queue.maxDelay), now)
                && var f := RequestIf(o, RestartWanted(None, queue.items, o.next.dcf.accessRequested));
                InFlight() == f.next && events == f.events
              else
                queue.items == old(queue.items) && InFlight() == old(InFlight()) && events == []
      ensures queue.maxSize == old(queue.maxSize) && queue.maxDelay == old(queue.maxDelay)
    {
      if !sm.needFragmentation(currentHdr, currentPacket.value)
         || sm.isLastFragment(currentHdr, currentPacket.value, fragmentNumber) {
        events := [TxOk(currentHdr)];
        currentPacket := None;
        dcf := ResetCw(dcf);
        dcf := DrawBackoff(dcf, rng);
        var more := RestartAccessIfNeeded(now);
        events := events + more;
      } else {
        events := [];
      }
    }

    /** The ACK went missing. */
    method MissedAck(sm: StationManager, rng: nat -> nat, now: Time) returns (events: seq<Event>)
      requires Valid() && ValidRng(rng) && currentPacket.Some?
      modifies this`currentPacket, this`currentHdr, this`dcf, queue
      ensures Valid()
      ensures var o := AfterMiss(old(InFlight()), AckMissed, sm.needDataRetransmission(old(currentHdr), old(currentPacket).value), rng);
              queue.items == CheckedQueue(o.next.current, old(queue.items), old(queue.maxDelay), now)
              && var f := RequestIf(o, RestartWanted(o.next.current, queue.items, o.next.dcf.accessRequested));
              InFlight() == f.next && events == f.events
      ensures queue.maxSize == old(queue.maxSize) && queue.maxDelay == old(queue.maxDelay)
    {
      if !sm.needDataRetransmission(currentHdr, currentPacket.value) {
        events := [ReportFinalDataFailed(currentHdr), TxFailed(currentHdr)];
        currentPacket := None;
        dcf := ResetCw(dcf);
      } else {
        events := [];
        currentHdr := currentHdr.(retry := true);
        dcf := UpdateFailedCw(dcf);
      }
      dcf := DrawBackoff(dcf, rng);
      var more := RestartAccessIfNeeded(now);
      events := events + more;
    }

    /** NextFragment: advance the fragment index. */
    method NextFragment()
      modifies this`fragmentNumber
      ensures fragmentNumber == old(fragmentNumber) + 1
    {
      fragmentNumber := fragmentNumber + 1;
    }

    /** The low MAC asks for the next fragment: advance and send it without RTS. */
    method StartNext(sm: StationManager) returns (events: seq<Event>)
      requires currentPacket.Some?
      modifies this`fragmentNumber
      ensures fragmentNumber == old(fragmentNumber) + 1
      ensures events == [StartTransmission(NextFragmentTx(currentPacket.value, currentHdr, fragmentNumber, sm))]
    {
      NextFragment();
      events := [StartTransmission(NextFragmentTx(currentPacket.value, currentHdr, fragmentNumber, sm))];
    }

    /** A higher-priority queue took the medium: nothing to do, the backoff continues. */
    method Cancel()
      ensures InFlight() == old(InFlight()) && Scheduler() == old(Scheduler())
    {
    }

    /** A transmission that needed no ACK ended: frame cleared, window reset,
        new backoff, access requested if work is queued. */
    method EndTxNoAck(rng: nat -> nat, now: Time) returns (events: seq<Event>)
      requires Valid() && ValidRng(rng)
      modifies this`currentPacket, this`dcf, queue
      ensures Valid()
      ensures var o := AfterNoAck(old(InFlight()), rng);
              queue.items == Survivors(old(queue.items), old(queue.maxDelay), now)
              && var f := RequestIf(o, StartWanted(None, queue.items, o.next.dcf.accessRequested));
              InFlight() == f.next && events == f.events
      ensures queue.maxSize == old(queue.maxSize) && queue.maxDelay == old(queue.maxDelay)
    {
      currentPacket := None;
      dcf := ResetCw(dcf);
      dcf := DrawBackoff(dcf, rng);
      events := StartAccessIfNeeded(now);
    }
  }

  // ---------------------------------------------------------------------
  // Scenario
  // ---------------------------------------------------------------------

  /** A station queues two frames at the same instant: only the first asks for
      access; the grant sends it and consumes the request, so the ACK of the
      first frame asks again for the one still queued. */
  method QueuedBehindAckScenario(h1: WifiMacHeader, h2: WifiMacHeader, p1: Packet, p2: Packet,
                                 now: Time, sequence: nat, rng: nat -> nat)
    returns (queued1: seq<Event>, queued2: seq<Event>, granted: seq<Event>, acked: seq<Event>)
    requires ValidRng(rng)
    ensures queued1 == [RequestAccess] && queued2 == []
    ensures granted == [StartTransmission(TxRequest(Whole(p1), Stamped(h1, sequence),
                                                    TxParams(false, !IsGroup(h1.addr1), None)))]
    ensures acked == [TxOk(Stamped(h1, sequence)), RequestAccess]
  {
    var t := new DcaTxop(1, 2, 15, 1023);
    queued1, queued2 := QueueTwoFrames(t, h1, h2, p1, p2, now);
    granted, acked := GrantThenAck(t, h1, p1, Item(p2, h2, now), now, sequence, rng);
  }

  /** The first half of QueuedBehindAckScenario: two frames queued by an idle station. */
  method QueueTwoFrames(t: DcaTxop, h1: WifiMacHeader, h2: WifiMacHeader, p1: Packet, p2: Packet, now: Time)
    returns (queued1: seq<Event>, queued2: seq<Event>)
    requires t.Valid() && !t.IsAp() && t.currentPacket == None && t.queue.items == []
    requires !t.dcf.accessRequested && t.queue.maxSize == DefaultMaxSize && t.queue.maxDelay == DefaultMaxDelay
    modifies t, t.queue
    ensures t.Valid() && t.currentPacket == None && t.dcf.accessRequested
    ensures t.queue.items == [Item(p1, h1, now), Item(p2, h2, now)] && t.queue.maxDelay == DefaultMaxDelay
    ensures queued1 == [RequestAccess] && queued2 == []
  {
    var i1, i2 := Item(p1, h1, now), Item(p2, h2, now);
    queued1 := t.Queue(p1, h1, now);
    assert t.queue.items == [i1];
    SurvivorsOfFresh([i1], DefaultMaxDelay, now);
    queued2 := t.Queue(p2, h2, now);
    assert t.queue.items == [i1, i2];
  }

  /** A station manager that never fragments, never asks for RTS and never
      allows a retransmission. */
  const PlainManager: StationManager :=
    StationManager((h, f) => false, (h, p) => false, (h, p, n) => true,
                   (h, p, n) => 0, (h, p, n) => 0, (h, p) => false, (h, p) => false)

  /** The second half of QueuedBehindAckScenario: the grant sends the head, its
      ACK asks for access again for the frame behind it. */
  method GrantThenAck(t: DcaTxop, h1: WifiMacHeader, p1: Packet, i2: Item, now: Time, sequence: nat, rng: nat -> nat)
    returns (granted: seq<Event>, acked: seq<Event>)
    requires ValidRng(rng)
    requires t.Valid() && !t.IsAp() && t.currentPacket == None && t.dcf.accessRequested
    requires t.queue.items == [Item(p1, h1, now), i2] && i2.tstamp == now && t.queue.maxDelay == DefaultMaxDelay
    modifies t, t.queue
    ensures granted == [StartTransmission(TxRequest(Whole(p1), Stamped(h1, sequence),
                                                    TxParams(false, !IsGroup(h1.addr1), None)))]
    ensures acked == [TxOk(Stamped(h1, sequence)), RequestAccess]
  {
    granted := GrantHead(t, h1, p1, i2, now, sequence);
    acked := AckHead(t, h1, p1, i2, now, sequence, rng);
  }

  /** The grant to a station with two fresh frames queued. */
  method GrantHead(t: DcaTxop, h1: WifiMacHeader, p1: Packet, i2: Item, now: Time, sequence: nat)
    returns (granted: seq<Event>)
    requires t.Valid() && !t.IsAp() && t.currentPacket == None && t.dcf.accessRequested
    requires t.queue.items == [Item(p1, h1, now), i2] && i2.tstamp == now && t.queue.maxDelay == DefaultMaxDelay
    modifies t, t.queue
    ensures t.Valid() && t.queue.items == [i2] && t.queue.maxDelay == DefaultMaxDelay && !t.dcf.accessRequested
    ensures t.currentPacket == Some(p1) && t.currentHdr == Stamped(h1, sequence) && t.fragmentNumber == 0
    ensures granted == [StartTransmission(TxRequest(Whole(p1), Stamped(h1, sequence),
                                                    TxParams(false, !IsGroup(h1.addr1), None)))]
  {
    SurvivorsOfFresh(t.queue.items, DefaultMaxDelay, now);
    granted := t.NotifyAccessGranted(now, sequence, PlainManager);
  }

  /** The ACK of the frame in flight, with one fresh frame queued behind it. */
  method AckHead(t: DcaTxop, h1: WifiMacHeader, p1: Packet, i2: Item, now: Time, sequence: nat, rng: nat -> nat)
    returns (acked: seq<Event>)
    requires ValidRng(rng)
    requires t.Valid() && t.queue.items == [i2] && i2.tstamp == now && t.queue.maxDelay == DefaultMaxDelay
    requires !t.dcf.accessRequested && t.currentPacket == Some(p1) && t.currentHdr == Stamped(h1, sequence)
    modifies t, t.queue
    ensures acked == [TxOk(Stamped(h1, sequence)), RequestAccess]
  {
    SurvivorsOfFresh([i2], DefaultMaxDelay, now);
    acked := t.GotAck(PlainManager, rng, now);
  }
}
