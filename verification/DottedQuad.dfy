/**
 * The printers of IPv4 addresses (relay_client.c, port_net.c) and what becomes of
 * their output in `inet_aton`.
 */
module DottedQuad {
  import opened AddressGrammar
  import opened Bits
  import opened CText
  import opened InetAton

  /** "%i.%i.%i.%i" of four bytes. */
  function Quad(b: seq<byte>): string
    requires |b| == 4
  {
    Decimal(b[0]) + ("." + (Decimal(b[1]) + ("." + (Decimal(b[2]) + ("." + Decimal(b[3]))))))
  }

  /** The printed text as an address text of four plain decimals. */
  lemma {:induction false} QuadAsText(b: seq<byte>, tail: string) returns (a: AddressText)
    requires |b| == 4 && EndsAddress(tail)
    ensures a.WellFormed() && a.Text() == Quad(b) + tail
    ensures a.Values() == [b[0], b[1], b[2], b[3]]
  {
    hide Decimal, Magnitude;
    var m0 := DecimalIsNumeral(b[0]);
    var m1 := DecimalIsNumeral(b[1]);
    var m2 := DecimalIsNumeral(b[2]);
    var m3 := DecimalIsNumeral(b[3]);
    var a3 := AddressText([m3], tail);
    assert a3.Values() == [b[3] as nat];
    var a2 := Prepend(m2, a3);
    var a1 := Prepend(m1, a2);
    a := Prepend(m0, a1);
    Reassociate(Decimal(b[0]), Decimal(b[1]), Decimal(b[2]), Decimal(b[3]), tail);
  }

  lemma Reassociate(d0: string, d1: string, d2: string, d3: string, tail: string)
    ensures d0 + ("." + (d1 + ("." + (d2 + ("." + (d3 + tail))))))
         == d0 + ("." + (d1 + ("." + (d2 + ("." + d3))))) + tail
  {
  }

  lemma {:induction false} SumOfBytes(ns: seq<nat>, b: seq<byte>)
    requires |b| == 4 && |ns| == 4 && forall k | 0 <= k < 4 :: ns[k] == b[k]
    ensures InRange(ns) && WeightedSum(ns) == WordOf(b)
  {
    RangeByCount(ns);
    SumIsWord(ns);
  }

  /**
   * Parsing a printed address, alone or before white space or a NUL, gives the address back:
   * no printed number is taken for octal or hexadecimal, and each stops at its dot.
   */
  lemma {:induction false} ParseOfQuad(b: seq<byte>, tail: string)
    requires |b| == 4 && EndsAddress(tail)
    ensures Parse(Quad(b) + tail) == Some(WordOf(b))
  {
    hide Quad, NumbersFrom, InRange, WeightedSum, WordOf;
    var a := QuadAsText(b, tail);
    NumbersOfText(Quad(b) + tail, "", a);
    SumOfBytes(a.Values(), b);
  }

  /** What a program sees that parses s and prints the result. */
  function Canonical(s: string): Option<string> {
    var v := Parse(s);
    if v.None? then None else Some(Quad(NetworkBytes(v.value)))
  }

  lemma {:induction false} ParsedIsWord(s: string)
    requires Parse(s).Some?
    ensures Parse(s).value < WORD
  {
    hide NumbersFrom;
    SumIsWord(Numbers(s).value);
  }

  /**
   * For every accepted text, in whatever notation, printing and parsing again keeps
   * the value, and a second round changes nothing.
   */
  lemma {:induction false} CanonicalForm(s: string)
    requires Parse(s).Some?
    ensures Parse(Canonical(s).value) == Parse(s)
    ensures Canonical(Canonical(s).value) == Canonical(s)
  {
    hide Parse, Quad, NetworkBytes, WordOf;
    var v := Parse(s).value;
    ParsedIsWord(s);
    WordOfBytes(v);
    ParseOfQuad(NetworkBytes(v), "");
    assert Quad(NetworkBytes(v)) + "" == Quad(NetworkBytes(v));
  }

  /** The broadcast address wish_send_advertizement asks for. */
  lemma {:induction false} AllOnesQuad()
    ensures Parse("255.255.255.255") == Some(ULONG_MAX)
  {
    hide Parse;
    var b: seq<byte> := [255, 255, 255, 255];
    ParseOfQuad(b, "");
    assert Decimal(255) == Decimal(25) + "5" == "255";
    assert Quad(b) + "" == "255.255.255.255";
  }

  /** A lone decimal is read back, except 4294967295, which cannot be told from strtoul's overflow value. */
  lemma {:induction false} ParseOfDecimal(n: nat)
    requires n <= ULONG_MAX
    ensures Parse(Decimal(n)) == if n == ULONG_MAX then None else Some(n)
  {
    hide NumbersFrom, Strtoul, Magnitude, Decimal;
    var m := DecimalIsNumeral(n);
    var a := AddressText([m], "");
    assert a.Values() == [n];
    NumbersOfText(Decimal(n), "", a);
    RangeByCount([n]);
    SumIsWord([n]);
  }

  /** A printed address has 7 to 15 characters, so with its NUL it fits a 16-byte buffer. */
  lemma {:induction false} QuadFits(b: seq<byte>)
    requires |b| == 4
    ensures 7 <= |Quad(b)| <= 15
    ensures |Quad(b)| == 15 <==> b[0] >= 100 && b[1] >= 100 && b[2] >= 100 && b[3] >= 100
  {
    hide Decimal;
    DecimalLengthOfByte(b[0]);
    DecimalLengthOfByte(b[1]);
    DecimalLengthOfByte(b[2]);
    DecimalLengthOfByte(b[3]);
  }

  /** sprintf into a text buffer, then inet_aton into s_addr, as both connection openers do. */
  method AddressToSockaddr(e: Endian, ip: seq<byte>, size: nat, addr: InAddr) returns (ok: bool)
    requires |ip| == 4 && size >= 16
    modifies addr
    ensures ok && Memory(e, addr.sAddr) == ip
  {
    hide Quad, Parse, NetworkBytes, WordOf, Memory;
    var ipStr := Snprintf(Quad(ip), size);
    QuadFits(ip);
    ParseOfQuad(ip, "");
    assert ipStr + "" == ipStr;
    BytesOfWord(ip);
    ok := InetAton.InetAton(e, ipStr, addr);
  }

  /** NetworkConfig_Ipv4Byte(ip, k): byte k of a host-order address, 0 the least significant. */
  function Ipv4Byte(ip: nat, k: nat): byte
    requires k < 4
  {
    NetworkBytes(ip)[3 - k]
  }

  /** wish_get_host_ip_str: the text left in the caller's buffer of addrStrLen bytes. */
  function HostIpStr(settings: Option<nat>, addrStrLen: nat): string {
    match settings
    case Some(ip) =>
      Snprintf(Quad([Ipv4Byte(ip, 3), Ipv4Byte(ip, 2), Ipv4Byte(ip, 1), Ipv4Byte(ip, 0)]), addrStrLen)
    case None => Snprintf("127.0.0.1", addrStrLen)
  }

  /** The text is complete exactly when the buffer holds it with its NUL, and then it parses back to the host address. */
  lemma {:induction false} HostIpParsesBack(ip: nat, addrStrLen: nat)
    requires ip < WORD
    ensures HostIpStr(Some(ip), addrStrLen) == Quad(NetworkBytes(ip)) <==> |Quad(NetworkBytes(ip))| < addrStrLen
    ensures addrStrLen >= 16 ==> Parse(HostIpStr(Some(ip), addrStrLen)) == Some(ip)
  {
    hide Quad, Parse, WordOf;
    var b := NetworkBytes(ip);
    assert [Ipv4Byte(ip, 3), Ipv4Byte(ip, 2), Ipv4Byte(ip, 1), Ipv4Byte(ip, 0)] == b;
    WordOfBytes(ip);
    QuadFits(b);
    ParseOfQuad(b, "");
    assert Quad(b) + "" == Quad(b);
  }

  /** Without settings the text is the loopback address, complete exactly when the buffer has ten bytes, and parses to it. */
  lemma {:induction false} HostIpFallback(addrStrLen: nat)
    ensures HostIpStr(None, addrStrLen) == Quad([127, 0, 0, 1]) <==> addrStrLen >= 10
    ensures addrStrLen >= 10 ==> Parse(HostIpStr(None, addrStrLen)) == Some(WordOf([127, 0, 0, 1]))
  {
    hide Parse, WordOf;
    var b: seq<byte> := [127, 0, 0, 1];
    assert Decimal(127) == Decimal(12) + "7" == "127";
    assert Quad(b) == "127.0.0.1";
    assert Quad(b) + "" == Quad(b);
    ParseOfQuad(b, "");
  }

  /** A buffer one byte shorter cuts some addresses into the text of a different one. */
  lemma {:induction false} ShorterBufferMisleads()
    ensures HostIpStr(Some(ULONG_MAX), 15) == "255.255.255.25"
    ensures Parse("255.255.255.25") == Some(ULONG_MAX - 230)
  {
    hide Parse;
    var b: seq<byte> := [255, 255, 255, 255];
    assert NetworkBytes(ULONG_MAX) == b;
    assert Decimal(255) == Decimal(25) + "5" == "255" && Decimal(25) == "25";
    assert Quad(b) == "255.255.255.255";
    assert Quad(b)[..14] == "255.255.255.25";
    assert Quad([255, 255, 255, 25]) + "" == "255.255.255.25";
    ParseOfQuad([255, 255, 255, 25], "");
  }

  /** read_wish_local_discovery: the sender's s_addr copied byte by byte through a union. */
  function DiscoveredAddress(e: Endian, sAddr: nat): (ip: seq<byte>)
    ensures |ip| == 4
  {
    Memory(e, sAddr)
  }

  /** An address discovered on the network and then opened reaches the socket with the same four bytes in memory. */
  method OpenDiscovered(e: Endian, sender: nat, addr: InAddr) returns (ok: bool)
    modifies addr
    ensures ok && Memory(e, addr.sAddr) == Memory(e, sender)
  {
    ok := AddressToSockaddr(e, DiscoveredAddress(e, sender), 20, addr);
  }

  // ----- The address of a relay's second connect

  /** htons: the two bytes swapped on a little-endian machine. */
  function Htons(e: Endian, v: nat): (w: nat)
    requires v < 0x1_0000
    ensures w < 0x1_0000
  {
    if e == Big then v else v % 0x100 * 0x100 + v / 0x100
  }

  /** The s_addr of the retry, for what the vendor's helper made of the relay's address: htons takes 16 bits of it. */
  function RetryWord(e: Endian, value: nat): (w: nat)
    ensures w < WORD
  {
    Htons(e, value % 0x1_0000)
  }

  lemma {:induction false} RetryBytes(e: Endian, value: nat)
    ensures var hi, lo := value / 0x100 % 0x100, value % 0x100;
            Memory(e, RetryWord(e, value)) == if e == Big then [0, 0, hi, lo] else [hi, lo, 0, 0]
  {
    var hi, lo := value / 0x100 % 0x100, value % 0x100;
    assert value % 0x1_0000 == hi * 0x100 + lo;
    if e == Big {
      BytesOfWord([0, 0, hi, lo]);
    } else {
      LowByte(hi, lo);
      BytesOfWord([0, 0, lo, hi]);
    }
  }

  /**
   * Whatever the helper returns, two of the four bytes of the retry's address are zero; so it is
   * the relay's own exactly when that one has these two zero bytes and the helper's low half holds the
   * other two. A helper that returns the address as a word hits it for 0.0.0.0 alone on a
   * little-endian machine.
   */
  lemma {:induction false} RelayRetryExact(e: Endian, ip: seq<byte>, value: nat)
    requires |ip| == 4
    ensures Memory(e, RetryWord(e, value)) == ip <==>
            if e == Big then ip[0] == ip[1] == 0 && value % 0x1_0000 == WordOf(ip)
            else ip[2] == ip[3] == 0 && value % 0x1_0000 == WordOf([0, 0, ip[0], ip[1]])
    ensures e == Little && value == WordOf(ip) ==>
            (Memory(e, RetryWord(e, value)) == ip <==> ip == [0, 0, 0, 0])
  {
    hide Memory, RetryWord;
    var hi, lo := value / 0x100 % 0x100, value % 0x100;
    RetryBytes(e, value);
    assert value % 0x1_0000 == hi * 0x100 + lo;
    if value == WordOf(ip) {
      BytesOfWord(ip);
    }
  }
}
