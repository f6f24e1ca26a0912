# Wi-Fi MAC transmit path: queue and channel-access coordinator

This project models the two logic-bearing pieces of a single-interface
IEEE 802.11 MAC transmit path in an ns-3 based simulator, and proves
properties of the model in Dafny.

- **`WifiMacQueue`** is the transmit queue (`MacQueue.dfy`). It is a bounded
  FIFO of items. Each item is a packet, its MAC header and the time it was
  queued. Admission is drop-tail. Expired items are evicted on every read
  path. The queue also offers several selective extractions: plain FIFO; a
  round-robin pick among the "active" destinations; QoS flow (TID and
  address) matching; the first item whose flow is not blocked; and removal
  of a packet by identity. It is a class over a `seq<Item>`, with the
  `m_size` counter kept as a separate field. The invariant `size == |items|`
  is its `Valid()` predicate. Each method is proved against a pure function
  of the old contents (`Survivors`, `Admit`, `FirstWhere`, `AddressPick`,
  `RemoveAt`, `CountWhere`).
- **`DcaTxop`** is the channel-access coordinator (`Txop.dfy`), a
  Distributed Coordination Function transmitter (IEEE 802.11-2012, clause
  9.3, with fragmentation as in clause 9.5). It owns:
  - the frame in flight and its header;
  - the fragment index;
  - an access point's roster of destinations, with its round-robin cursor,
    active window and epoch time;
  - the contention window.

  Every callback is a method of the class, and its `ensures` ties the new
  state and the calls it made to a pure transition function (`AfterMiss`,
  `AfterAck`, `AfterNoAck`, `AfterCollision`, `GrantTx`, `RosterWindow`,
  `Reschedule`). The lemmas about those functions carry the protocol's
  promises: the window after n failures, retry exhaustion, first-seen order
  of the roster, and round-robin coverage.
- `MacTypes.dfy` holds the shared values: 48-bit addresses with the group
  bit, the header fields the core touches, packets and queue items.

Collaborators appear as parameters:
- **Simulator time** is `now`, an integer number of nanoseconds.
  `GetMilliSeconds` truncates toward zero.
- **The station manager** is a `StationManager` value holding its answers:
  RTS, fragmentation, last fragment, fragment size and offset, and whether
  an RTS or data retransmission is still allowed.
- **The random stream** is `rng: nat -> nat`, with `rng(w) <= w`.
- **The next sequence number** is a parameter.
- **Calls into the arbiter, the low MAC, the upper layer and the station
  manager** are returned as a sequence of `Event`s, in the order they are
  made. Each `RequestAccess` also sets the contention state's
  access-requested flag. An access grant clears that flag before
  `NotifyAccessGranted` runs (dca-txop.cc:56-59 forwards the grant from the
  contention-state object), and the model clears it on entry.

The contention window is an abstract value (`DcfState`). `ResetCw` returns it
to `cwMin`. `UpdateFailedCw` moves it to the next value of the series
2^k (cwMin + 1) - 1, capped at `cwMax`, as clause 9.3.3 of IEEE 802.11-2012
prescribes. The code of the contention-state object is not part of this
model.

Reproduced as the code has them:
- The round-robin window is rebuilt only when at least 2400 ms have passed
  since the previous rebuild.
- With no queued frame for an active destination (in particular, before the
  first rebuild), the round-robin pick takes the head of the queue.
- The roster argument of `DequeueByAddresses` is unused.
- An item whose age equals the maximum delay exactly is evicted.
- The capacity test is an equality, so a capacity lowered below the current
  size is not enforced.
- `GetSize` does not clean up, whereas `IsEmpty` does.
- In the access checks, `IsEmpty` (and so the cleanup) runs only when no
  frame is in flight, because of C++ short-circuit evaluation.
- The roster cursor is a list iterator, and an end iterator stays at the end
  when the roster grows. The model keeps it as `Cursor = At(i) | End` for
  that reason.

## Model

| member | source | states |
|---|---|---|
| MacTypes.AddressFor | wifi-mac-queue.cc:331-346 | the header address selected by ADDR1/ADDR2/ADDR3; ADDR4 (unhandled) yields the zero address |
| MacTypes.ContainsAddress | dca-txop.cc:270-278 | the roster scan finds `a` exactly when `a` is in the list |
| MacQueue.Survivors | wifi-mac-queue.cc:116-139 | the items kept by cleanup are no more than the queue held and each satisfies `tstamp + maxDelay > now` |
| MacQueue.Expired | wifi-mac-queue.cc:116-139 | the items cleanup drops are all stale |
| MacQueue.SurvivorsAppend | wifi-mac-queue.cc:116-139 | cleanup acts item by item, so survivors keep their relative order |
| MacQueue.SurvivorsMembership | wifi-mac-queue.cc:127 | an item survives iff it was queued and is fresh: no fresh item is removed |
| MacQueue.SurvivorsPartition | wifi-mac-queue.cc:126-136 | survivors and dropped items partition the queue (as multisets), so the size drops by exactly the number removed |
| MacQueue.SurvivorsOfFresh | wifi-mac-queue.cc:116-139 | a queue of fresh items is left unchanged |
| MacQueue.SurvivorsLater | wifi-mac-queue.cc:116-139 | a later cleanup subsumes an earlier one |
| MacQueue.CleanupIdempotent | wifi-mac-queue.cc:116-139 | cleaning twice at the same instant equals cleaning once |
| MacQueue.ExactAgeEvicted | wifi-mac-queue.cc:127 | an item whose age equals maxDelay exactly is evicted |
| MacQueue.Admit | wifi-mac-queue.cc:100-113 | drop-tail: a full queue is unchanged; otherwise exactly the new item is added, at the tail or the head, the rest in order; the bound `|c| <= max` is kept |
| MacQueue.EnqueueRunBounded | wifi-mac-queue.cc:100-113 | any sequence of enqueues (each with its cleanup) keeps the size within the capacity |
| MacQueue.LoweredCapacityNotEnforced | wifi-mac-queue.cc:76-79 | once the capacity is lowered below the size, the equality test admits more items |
| MacQueue.Selects | wifi-mac-queue.cc:259-432 | a per-TID scan takes only QoS data with that TID and the requested address; the first-available scan never withholds a non-QoS frame; removal matches the packet's identity whatever the header |
| MacQueue.FirstWhere | wifi-mac-queue.cc:267-281 | the position of the first selected item in queue order, or none iff no item is selected |
| MacQueue.CountWhere | wifi-mac-queue.cc:388-398 | the count is at most the queue length and is zero iff no item matches |
| MacQueue.RemoveAt | wifi-mac-queue.cc:195-196 | exactly the k-th item is removed and the others keep their order |
| MacQueue.AddressPick | wifi-mac-queue.cc:163-210 | a broadcast or management head is taken first; otherwise the first item addressed to an active destination; otherwise the head |
| MacQueue.RoundRobinPrefersActive | wifi-mac-queue.cc:186-203 | a frame for an inactive destination is never taken while one for an active destination is queued, and the pick is no later than any active frame |
| MacQueue.FallbackTakesHead | wifi-mac-queue.cc:204-210 | with no frame for an active destination (e.g. an empty active list) the head is taken |
| MacQueue.FindFirst | wifi-mac-queue.cc:267-281 | the scan loop finds the first selected item, as FirstWhere |
| MacQueue.WifiMacQueue.constructor | wifi-mac-queue.cc:64-68 | an empty queue with the default capacity (400) and delay (10 s) |
| MacQueue.WifiMacQueue.SetMaxSize | wifi-mac-queue.cc:76-79 | only the capacity changes |
| MacQueue.WifiMacQueue.SetMaxDelay | wifi-mac-queue.cc:82-85 | only the maximum delay changes |
| MacQueue.WifiMacQueue.Cleanup | wifi-mac-queue.cc:116-139 | the in-place erase loop leaves exactly the survivors, and the size counter matches |
| MacQueue.WifiMacQueue.Enqueue | wifi-mac-queue.cc:100-113 | after cleanup, drop-tail admission of the item stamped with `now` at the tail |
| MacQueue.WifiMacQueue.PushFront | wifi-mac-queue.cc:365-377 | after cleanup, drop-tail admission of the item stamped with `now` at the head |
| MacQueue.WifiMacQueue.Dequeue | wifi-mac-queue.cc:141-156 | after cleanup, the head is removed and returned; an empty queue returns none |
| MacQueue.WifiMacQueue.DequeueByAddresses | wifi-mac-queue.cc:158-244 | after cleanup, exactly the AddressPick item is removed and returned; the roster argument plays no part |
| MacQueue.WifiMacQueue.Peek | wifi-mac-queue.cc:246-256 | after cleanup, the head is returned and the queue is not shortened |
| MacQueue.WifiMacQueue.DequeueByTidAndAddress | wifi-mac-queue.cc:259-284 | after cleanup, the first QoS-data item of the flow is removed and returned; no match removes nothing |
| MacQueue.WifiMacQueue.PeekByTidAndAddress | wifi-mac-queue.cc:287-308 | after cleanup, the item DequeueByTidAndAddress would take, left in place |
| MacQueue.WifiMacQueue.GetNPacketsByTidAndAddress | wifi-mac-queue.cc:380-400 | after cleanup, the number of QoS-data items of the flow |
| MacQueue.WifiMacQueue.DequeueFirstAvailable | wifi-mac-queue.cc:403-422 | after cleanup, the first item that is not QoS data or whose flow is not blocked is removed and returned |
| MacQueue.WifiMacQueue.PeekFirstAvailable | wifi-mac-queue.cc:425-440 | after cleanup, the item DequeueFirstAvailable would take, left in place |
| MacQueue.WifiMacQueue.Remove | wifi-mac-queue.cc:349-362 | the first item holding the packet is removed (true), otherwise nothing changes (false); no cleanup |
| MacQueue.WifiMacQueue.Flush | wifi-mac-queue.cc:324-328 | the queue is empty and the size is 0 |
| MacQueue.WifiMacQueue.IsEmpty | wifi-mac-queue.cc:311-315 | cleans up and answers whether nothing survives |
| MacQueue.WifiMacQueue.GetSize | wifi-mac-queue.cc:318-321 | the size counter without cleanup, so expired items still count |
| MacQueue.FifoScenario | wifi-mac-queue.cc:100-156 | three frames enqueued at one instant come out in insertion order |
| MacQueue.ExpiryScenario | wifi-mac-queue.cc:311-321 | an expired item still counts in GetSize but IsEmpty reports the queue empty |
| Txop.ResetCw | dca-txop.cc:591 | the window returns to cwMin; nothing else changes |
| Txop.UpdateFailedCw | dca-txop.cc:595 | the window grows, never beyond cwMax, stays within [cwMin, cwMax]; nothing else changes |
| Txop.CwAfterFailures | dca-txop.cc:591-595 | after a reset and n failures the window is min(2^n (cwMin + 1) - 1, cwMax), under the growth rule assumed for UpdateFailedCw |
| Txop.DrawBackoff | dca-txop.cc:558 | the backoff drawn lies in [0, current window]; nothing else changes |
| Txop.GrantTx | dca-txop.cc:478-543 | group frames: RTS, ACK and next-data disabled, whole frame; unicast: ACK on; fragmenting sends fragment n with next-data iff not last (sized as fragment n+1); RTS as the station manager answers |
| Txop.NextFragmentTx | dca-txop.cc:655-676 | the next fragment is sent with ACK, without RTS, with next-data iff it is not the last; its header is the frame's with fragment number n and more-fragments iff not last; it carries the station manager's offset and size for fragment n |
| Txop.FragmentFrame | dca-txop.cc:406-425 | fragment n's header differs from the frame's only in the fragment number (n) and the more-fragments flag (set iff n is not the last); the payload is the slice of the packet at the station manager's offset and size for n |
| Txop.Stamped | dca-txop.cc:472-477 | a dequeued frame's header keeps kind, addresses and TID, takes the next sequence number, fragment 0, no more fragments, no retry |
| Txop.StartWanted | dca-txop.cc:298-319 | StartAccessIfNeeded's test is RestartAccessIfNeeded's with nothing in flight |
| Txop.CheckedQueue | dca-txop.cc:298-307 | with a frame in flight the restart test does not touch the queue; otherwise it leaves only fresh items, and a second cleanup at the same instant changes nothing |
| Txop.Reschedule | dca-txop.cc:451-465 | within 2400 ms of the last rebuild the round-robin state is unchanged; after that the window is the next roster entries from the cursor (at most numClients), the rebuild time is now and the counter grows by one; the roster is never changed and the cursor stays valid |
| Txop.AfterMiss | dca-txop.cc:577-599 | refused retransmission: final failure report and failure callback with the header, frame cleared, window reset; allowed: frame kept, window updated, retry flag set for a missed ACK; a new backoff either way |
| Txop.AfterAck | dca-txop.cc:601-620 | success callback with the header, frame cleared, window reset, new backoff |
| Txop.AfterNoAck | dca-txop.cc:711-718 | frame cleared, window reset, new backoff, no callback |
| Txop.AfterCollision | dca-txop.cc:553-559 | new backoff within the current window; window and frame untouched |
| Txop.RetriesKeepFrame | dca-txop.cc:577-653 | while retransmission is allowed the frame stays, nothing is reported, and the window grows once per failure (no reset mid-retry) |
| Txop.FailedCwShift | dca-txop.cc:595 | successive failures compose: n more failures after one give n + 1 |
| Txop.FailedCwFrame | dca-txop.cc:595 | failures never change cwMin or cwMax |
| Txop.RetryExhaustion | dca-txop.cc:577-653 | n allowed retries then a refusal yield exactly one final report and one failure callback, frame cleared, window at cwMin |
| Txop.RosterAdd | dca-txop.cc:267-283 | the roster gains the destination iff it is new and not broadcast, as a suffix; validity (distinct, no broadcast) is kept |
| Txop.FirstSeen | dca-txop.cc:267-283 | the index of a destination's first occurrence |
| Txop.RosterFirstSeenOrder | dca-txop.cc:267-283 | the roster built by queueing holds each non-broadcast destination once, in order of first appearance |
| Txop.RosterWindow | dca-txop.cc:456-464 | up to numClients consecutive roster entries from the cursor (wrapped to the start when at the end); the cursor moves past them, to the end when the roster is exhausted |
| Txop.FillWindow | dca-txop.cc:458-464 | the window-filling loop computes RosterWindow |
| Txop.Epoch | dca-txop.cc:451-464 | the cursor after each rebuild stays valid |
| Txop.EpochCovers | dca-txop.cc:451-464 | rebuild k covers roster entries k·n up to (k+1)·n |
| Txop.RoundRobinCoversRoster | dca-txop.cc:451-464 | every destination appears in the window of rebuild i / numClients |
| Txop.CoveredAt | dca-txop.cc:451-464 | roster entry i is in the window of rebuild k whenever k·n <= i < (k+1)·n |
| Txop.DcaTxop.constructor | dca-txop.cc:143-157 | empty queue with the default capacity (400) and delay (10 s), no frame in flight, empty roster with the cursor at its end, numClients 30, schedTime 0 |
| Txop.DcaTxop.Initialize | dca-txop.cc:338-344 | the window starts at cwMin with a fresh backoff |
| Txop.DcaTxop.RequestAccessNow | dca-txop.cc:305 | the access request is made and flagged |
| Txop.DcaTxop.StartAccessIfNeeded | dca-txop.cc:310-319 | access is requested iff nothing is in flight, the queue is non-empty after cleanup and no request is outstanding |
| Txop.DcaTxop.RestartAccessIfNeeded | dca-txop.cc:298-307 | access is requested iff a frame is in flight or the queue is non-empty, and no request is outstanding; the queue is cleaned only when nothing is in flight |
| Txop.DcaTxop.NeedsAccess | dca-txop.cc:428-432 | true iff a frame survives cleanup or one is in flight |
| Txop.DcaTxop.Queue | dca-txop.cc:259-287 | an access point adds the destination to its roster (RosterAdd); the frame is enqueued and access started if needed |
| Txop.DcaTxop.RebuildWindow | dca-txop.cc:453-464 | schedTime becomes now, the counter grows by one, the window and cursor become RosterWindow's |
| Txop.DcaTxop.TakeFrame | dca-txop.cc:445-470 | an access point rebuilds the window when 2400 ms have passed and takes AddressPick's item; a station takes the head |
| Txop.DcaTxop.DequeueNext | dca-txop.cc:445-477 | the frame taken becomes the frame in flight with the next sequence number, fragment 0, no more fragments, no retry, fragment index 0 |
| Txop.DcaTxop.NotifyAccessGranted | dca-txop.cc:434-544 | the outstanding access request is consumed; with a frame in flight, it is transmitted as GrantTx says; with none and an empty queue, nothing else happens; otherwise a frame is dequeued (a frame is always found), stamped and transmitted |
| Txop.DcaTxop.NotifyInternalCollision | dca-txop.cc:547-551 | handled as a collision |
| Txop.DcaTxop.NotifyCollision | dca-txop.cc:553-560 | new backoff from the unchanged window, frame kept, access re-requested if needed |
| Txop.DcaTxop.NotifyChannelSwitching | dca-txop.cc:563-568 | the queue is flushed and the frame in flight cleared |
| Txop.DcaTxop.MissedCts | dca-txop.cc:577-599 | AfterMiss for a missed CTS with the RTS-retransmission answer, then the restart check |
| Txop.DcaTxop.GotAck | dca-txop.cc:601-625 | unfragmented or last fragment: AfterAck then the restart check; an earlier fragment changes nothing |
| Txop.DcaTxop.MissedAck | dca-txop.cc:627-653 | AfterMiss for a missed ACK with the data-retransmission answer, then the restart check |
| Txop.DcaTxop.NextFragment | dca-txop.cc:369-373 | the fragment index grows by one |
| Txop.DcaTxop.StartNext | dca-txop.cc:655-676 | the fragment index advances and that fragment is sent as NextFragmentTx says |
| Txop.DcaTxop.Cancel | dca-txop.cc:679-708 | the frame in flight, contention state and round-robin state are unchanged |
| Txop.DcaTxop.EndTxNoAck | dca-txop.cc:711-719 | AfterNoAck, then access started if work is queued |
| Txop.QueuedBehindAckScenario | dca-txop.cc:259-625 | a station queueing two frames requests access once; the grant sends the first (stamped, whole, ACK iff unicast); its ACK reports success and requests access again for the second |
| Txop.QueueTwoFrames | dca-txop.cc:259-319 | two frames queued by an idle station: one access request, both frames queued in order |
| Txop.GrantThenAck | dca-txop.cc:434-625 | the grant sends the head frame and consumes the request; its ACK requests access for the frame behind it |
| Txop.GrantHead | dca-txop.cc:434-544 | a grant to a station with two fresh frames queued sends the head whole and stamped, consumes the request and leaves the second frame queued |
| Txop.AckHead | dca-txop.cc:601-625 | the ACK of the frame in flight, with a frame queued behind it and no request outstanding, reports success and requests access |

## Left out

- Logging: the `NS_LOG_*` macros and the console output lines. They have no effect on state.
- `GotCts` only logs, so it has no member.
- Object lifecycle and wiring are not modelled: `GetTypeId`, `DoDispose`, the destructor, `SetManager`, `SetLow`, `SetWifiRemoteStationManager`, the callback setters, `GetQueue`, `AssignStreams`, and the listener objects. The low MAC's address and BSSID are fixed when the coordinator is built.
- `SetMinCw`, `SetMaxCw`, `SetAifsn` and their getters are not modelled. They forward to the contention-state object, whose code is not part of this model.
- The callback null checks are not modelled: the success and failure callbacks are always recorded as events.
- The station manager's side effects are not modelled (`PrepareForQueue`, and its handling of the final-failure reports). Those reports appear only as events.
- The arbiter may grant access synchronously from inside `RequestAccess`. That re-entrant grant is not modelled; the request only sets the flag and records the call.
- Fragment bytes are not modelled: `CreateFragment` is represented by the fragment's offset and size.
- The override-duration parameter of the transmission is not modelled; it is always disabled.
- Packet identity, a pointer comparison in `Remove`, is modelled by the packet's `uid`: `Selects` compares uids.
- Integer widths are not modelled. These are the 32-bit `m_size`, the maximum size, the fragment number, the 8-bit QoS TID (`qosTid` is a `nat`) and the 16-bit sequence number that the 12-bit header field holds. Counts are unbounded integers.
- Txop.UpdateFailedCw / Txop.CwAfterFailures: the growth rule min(2 (cw + 1) - 1, cwMax) is assumed from clause 9.3.3 of IEEE 802.11-2012. The contention-state code is not part of this model, so these two, `FailedCwShift` and the window `RetryExhaustion` reaches before its reset state consequences of that assumption. Resets to cwMin (`ResetCw`) are the code's own.
- The access-requested flag is cleared only by a grant, as the contention-state object does before forwarding it. Whatever else that object or the arbiter does to the flag (for instance on an internal collision) is not part of this model.
- `DequeueFirstAvailable`'s blocked-destination oracle is modelled as a set of (address, TID) pairs.
- `Txop.DcaTxop.Initialize`: does not model the base-class initialisation that follows the backoff draw.
- The applications, the helper and the scenario programs are not modelled. They are network clients and servers, configuration and tracing, with no queue or channel-access logic.
