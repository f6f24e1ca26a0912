/** Values shared by the transmit queue and the channel-access coordinator:
    48-bit MAC addresses, the parts of an 802.11 MAC header that the core
    reads or writes, packets and queue items. */
module MacTypes {

  datatype Option<T> = None | Some(value: T)

  /** A 48-bit IEEE 802 MAC address; the first octet is the most significant. */
  newtype Mac48Address = x: int | 0 <= x < 0x1_0000_0000_0000

  /** ff:ff:ff:ff:ff:ff */
  const Broadcast: Mac48Address := 0xffff_ffff_ffff

  /** The individual/group bit: the least significant bit of the first octet. */
  predicate IsGroup(a: Mac48Address) {
    (a as int / 0x100_0000_0000) % 2 == 1
  }

  /** Simulated time in nanoseconds (the simulator's default resolution). */
  type Time = int

  /** Time::GetMilliSeconds: the integer conversion truncates toward zero. */
  function Millis(t: Time): int {
    if t >= 0 then t / 1_000_000 else -((-t) / 1_000_000)
  }

  /** The frame classes the core distinguishes (type and subtype bits). */
  datatype FrameKind = Management | Control | Data | QosData

  /** The header fields the core reads or writes. */
  datatype WifiMacHeader = WifiMacHeader(
    kind: FrameKind,
    addr1: Mac48Address,
    addr2: Mac48Address,
    addr3: Mac48Address,
    qosTid: nat,
    sequence: nat,
    fragment: nat,
    moreFragments: bool,
    retry: bool)

  /** Which header address a per-flow lookup compares (WifiMacHeader::AddressType). */
  datatype AddressType = Addr1 | Addr2 | Addr3 | Addr4

  /** GetAddressForPacket: the address selected by `kind`; ADDR4 is not handled
      and yields the all-zero address. */
  function AddressFor(kind: AddressType, h: WifiMacHeader): (a: Mac48Address)
    ensures kind == Addr1 ==> a == h.addr1
    ensures kind == Addr2 ==> a == h.addr2
    ensures kind == Addr3 ==> a == h.addr3
    ensures kind == Addr4 ==> a == 0
  {
    match kind
    case Addr1 => h.addr1
    case Addr2 => h.addr2
    case Addr3 => h.addr3
    case Addr4 => 0
  }

  /** A packet is opaque to the core; `uid` stands for its identity (the pointer). */
  datatype Packet = Packet(uid: nat, size: nat)

  /** WifiMacQueue::Item: a packet, its header and the time it was queued. */
  datatype Item = Item(packet: Packet, hdr: WifiMacHeader, tstamp: Time)

  /** Linear scan of an address list, as the roster lookup in DcaTxop::Queue does. */
  method ContainsAddress(list: seq<Mac48Address>, a: Mac48Address) returns (found: bool)
    ensures found <==> a in list
  {
    var i := 0;
    while i < |list|
      invariant 0 <= i <= |list|
      invariant a !in list[..i]
    {
      if list[i] == a {
        return true;
      }
      i := i + 1;
    }
    return false;
  }
}
