/** The device identity sent at check-in: macAddressString, the hardware
    address of the first non-loopback interface with at least six address
    bytes, written as six upper-case hex pairs joined by ':'. The interface
    list is an input (None when it cannot be read). */
module Identity {
  import opened Wrappers

  newtype byte = x: int | 0 <= x < 256

  datatype Iface = Iface(loopback: bool, hw: seq<byte>)

  const HexDigits: string := "0123456789ABCDEF"

  /** fmt's %02X of one byte. */
  function Hex2(b: byte): (s: string)
    ensures |s| == 2
  {
    [HexDigits[b / 16], HexDigits[b % 16]]
  }

  /** The hex pairs of `bs` joined by ':'. */
  function JoinHex(bs: seq<byte>): (s: string)
    requires |bs| >= 1
    ensures |s| == 3 * |bs| - 1
  {
    if |bs| == 1 then Hex2(bs[0]) else Hex2(bs[0]) + ":" + JoinHex(bs[1..])
  }

  /** "%02X:%02X:%02X:%02X:%02X:%02X" of the first six bytes. */
  function FormatMac(a: seq<byte>): (s: string)
    requires |a| >= 6
    ensures |s| == 17
  {
    JoinHex(a[..6])
  }

  predicate Usable(i: Iface)
  {
    !i.loopback && |i.hw| >= 6
  }

  function FirstMac(ifaces: seq<Iface>): string
  {
    if ifaces == [] then ""
    else if Usable(ifaces[0]) then FormatMac(ifaces[0].hw)
    else FirstMac(ifaces[1..])
  }

  /** macAddressString: "" when the interfaces cannot be listed or none is
      usable. */
  function MacAddressString(ifaces: Option<seq<Iface>>): string
  {
    match ifaces
    case None => ""
    case Some(list) => FirstMac(list)
  }

  /** The address comes from the first usable interface, and it is "" only
      when there is none. */
  lemma {:induction false} MacFromFirstUsable(ifaces: seq<Iface>, i: int)
    requires 0 <= i < |ifaces| && Usable(ifaces[i])
    requires forall k :: 0 <= k < i ==> !Usable(ifaces[k])
    ensures MacAddressString(Some(ifaces)) == FormatMac(ifaces[i].hw)
  {
    if i > 0 {
      MacFromFirstUsable(ifaces[1..], i - 1);
    }
  }

  lemma {:induction false} NoUsableNoMac(ifaces: seq<Iface>)
    requires forall k :: 0 <= k < |ifaces| ==> !Usable(ifaces[k])
    ensures MacAddressString(Some(ifaces)) == ""
  {
    if ifaces != [] {
      NoUsableNoMac(ifaces[1..]);
    }
  }

  /** The value of one upper-case hex digit. */
  function HexValue(c: char): Option<byte>
  {
    if '0' <= c <= '9' then Some((c as int - '0' as int) as byte)
    else if 'A' <= c <= 'F' then Some((c as int - 'A' as int + 10) as byte)
    else None
  }

  function ParseHex2(s: string): Option<byte>
    requires |s| == 2
  {
    match (HexValue(s[0]), HexValue(s[1]))
    case (Some(hi), Some(lo)) => Some((hi as int * 16 + lo as int) as byte)
    case _ => None
  }

  /** Reads ':'-separated hex pairs. */
  function ParseHexList(s: string): Option<seq<byte>>
    decreases |s|
  {
    if |s| < 2 then None
    else match ParseHex2(s[..2])
      case None => None
      case Some(b) =>
        if |s| == 2 then Some([b])
        else if s[2] != ':' then None
        else match ParseHexList(s[3..])
          case None => None
          case Some(rest) => Some([b] + rest)
  }

  /** Reads an address written as FormatMac writes it. */
  function ParseMac(s: string): Option<seq<byte>>
  {
    if |s| != 17 then None else ParseHexList(s)
  }

  lemma HexRoundTrip(b: byte)
    ensures ParseHex2(Hex2(b)) == Some(b)
  {
    var hi := b / 16;
    var lo := b % 16;
    assert HexDigits[hi] == if hi < 10 then ('0' as int + hi as int) as char else ('A' as int + hi as int - 10) as char;
    assert HexDigits[lo] == if lo < 10 then ('0' as int + lo as int) as char else ('A' as int + lo as int - 10) as char;
  }

  lemma {:induction false} JoinHexRoundTrip(bs: seq<byte>)
    requires |bs| >= 1
    ensures ParseHexList(JoinHex(bs)) == Some(bs)
  {
    var s := JoinHex(bs);
    HexRoundTrip(bs[0]);
    assert s[..2] == Hex2(bs[0]);
    if |bs| == 1 {
      assert [bs[0]] == bs;
    } else {
      assert s[2] == ':';
      assert s[3..] == JoinHex(bs[1..]);
      JoinHexRoundTrip(bs[1..]);
      assert [bs[0]] + bs[1..] == bs;
    }
  }

  /** The formatted address reads back as the six bytes it was made from,
      so distinct interfaces give distinct check-in identities. */
  lemma MacRoundTrip(a: seq<byte>)
    requires |a| >= 6
    ensures ParseMac(FormatMac(a)) == Some(a[..6])
  {
    JoinHexRoundTrip(a[..6]);
  }
}
