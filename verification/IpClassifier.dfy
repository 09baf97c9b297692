/** The address classifier: IPv4 and IPv6 ranges, and agreement across the IPv4 embeddings. */
module IpClassifier {
  import opened Text
  import opened Wrappers
  import opened Ipv4Text
  import opened Ipv6Text
  import opened Ipv6Render
  import opened Ipv6Exact

  datatype Reason =
    | Public | ThisNetwork | PrivateRfc1918 | Loopback | Cgnat | CloudMetadata | LinkLocal
    | IetfProtocol | Documentation | RelayAnycast | Benchmarking | Multicast | Reserved
    | Unspecified | UniqueLocal | SixToFour(inner: Reason) | Unparseable

  datatype Verdict = Verdict(blocked: bool, reason: Reason)

  const ALLOWED := Verdict(false, Public)

  function Block(reason: Reason): Verdict { Verdict(true, reason) }

  predicate IsOctets(o: seq<nat>) {
    |o| == 4 && o[0] <= 255 && o[1] <= 255 && o[2] <= 255 && o[3] <= 255
  }

  function ClassifyIpv4(o: seq<nat>): Verdict
    requires IsOctets(o)
  {
    var a, b, c, d := o[0], o[1], o[2], o[3];
    if a == 0 then Block(ThisNetwork)
    else if a == 10 then Block(PrivateRfc1918)
    else if a == 127 then Block(Loopback)
    else if a == 100 && 64 <= b <= 127 then Block(Cgnat)
    else if a == 169 && b == 254 then Block(if c == 169 && d == 254 then CloudMetadata else LinkLocal)
    else if a == 172 && 16 <= b <= 31 then Block(PrivateRfc1918)
    else if a == 192 && b == 0 && c == 0 then Block(IetfProtocol)
    else if a == 192 && b == 0 && c == 2 then Block(Documentation)
    else if a == 192 && b == 88 && c == 99 then Block(RelayAnycast)
    else if a == 192 && b == 168 then Block(PrivateRfc1918)
    else if a == 198 && (b == 18 || b == 19) then Block(Benchmarking)
    else if a == 198 && b == 51 && c == 100 then Block(Documentation)
    else if a == 203 && b == 0 && c == 113 then Block(Documentation)
    else if 224 <= a <= 239 then Block(Multicast)
    else if a >= 240 then Block(Reserved)
    else ALLOWED
  }

  // ---- IPv4 as ranges of 32-bit values ---------------------------------------------------

  datatype Addr = Addr(a: nat, b: nat, c: nat, d: nat)

  function AddrOf(o: seq<nat>): Addr
    requires IsOctets(o)
  {
    Addr(o[0], o[1], o[2], o[3])
  }

  predicate IsAddr(x: Addr) { x.a <= 255 && x.b <= 255 && x.c <= 255 && x.d <= 255 }

  function Number(x: Addr): nat {
    ((x.a * 256 + x.b) * 256 + x.c) * 256 + x.d
  }

  // Order of addresses, octet by octet.
  predicate AtMost(x: Addr, y: Addr) {
    x.a < y.a || (x.a == y.a && (x.b < y.b || (x.b == y.b && (x.c < y.c || (x.c == y.c && x.d <= y.d)))))
  }

  // It is the order of the 32-bit numbers.
  lemma AtMostIsNumeric(x: Addr, y: Addr)
    requires IsAddr(x) && IsAddr(y)
    ensures AtMost(x, y) <==> Number(x) <= Number(y)
  {
    var x1, y1 := x.a * 256 + x.b, y.a * 256 + y.b;
    var x2, y2 := x1 * 256 + x.c, y1 * 256 + y.c;
    assert x1 < y1 <==> x.a < y.a || (x.a == y.a && x.b < y.b);
    assert x2 < y2 <==> x1 < y1 || (x1 == y1 && x.c < y.c);
  }

  // A block, from its first to its last address.
  datatype Range = Range(first: Addr, last: Addr, reason: Reason)

  predicate Contains(range: Range, x: Addr) {
    AtMost(range.first, x) && AtMost(x, range.last)
  }

  // The blocks the classifier refuses, in order of precedence.
  const ROWS := 16

  function Row(i: nat): Range
    requires i < ROWS
  {
    match i
    case 0 => Range(Addr(0, 0, 0, 0), Addr(0, 255, 255, 255), ThisNetwork)  // /8
    case 1 => Range(Addr(10, 0, 0, 0), Addr(10, 255, 255, 255), PrivateRfc1918)  // /8
    case 2 => Range(Addr(127, 0, 0, 0), Addr(127, 255, 255, 255), Loopback)  // /8
    case 3 => Range(Addr(100, 64, 0, 0), Addr(100, 127, 255, 255), Cgnat)  // /10
    case 4 => Range(Addr(169, 254, 169, 254), Addr(169, 254, 169, 254), CloudMetadata)  // /32
    case 5 => Range(Addr(169, 254, 0, 0), Addr(169, 254, 255, 255), LinkLocal)  // /16
    case 6 => Range(Addr(172, 16, 0, 0), Addr(172, 31, 255, 255), PrivateRfc1918)  // /12
    case 7 => Range(Addr(192, 0, 0, 0), Addr(192, 0, 0, 255), IetfProtocol)  // /24
    case 8 => Range(Addr(192, 0, 2, 0), Addr(192, 0, 2, 255), Documentation)  // /24
    case 9 => Range(Addr(192, 88, 99, 0), Addr(192, 88, 99, 255), RelayAnycast)  // /24
    case 10 => Range(Addr(192, 168, 0, 0), Addr(192, 168, 255, 255), PrivateRfc1918)  // /16
    case 11 => Range(Addr(198, 18, 0, 0), Addr(198, 19, 255, 255), Benchmarking)  // /15
    case 12 => Range(Addr(198, 51, 100, 0), Addr(198, 51, 100, 255), Documentation)  // /24
    case 13 => Range(Addr(203, 0, 113, 0), Addr(203, 0, 113, 255), Documentation)  // /24
    case 14 => Range(Addr(224, 0, 0, 0), Addr(239, 255, 255, 255), Multicast)  // /4
    case _ => Range(Addr(240, 0, 0, 0), Addr(255, 255, 255, 255), Reserved)  // /4
  }

  predicate Listed(x: Addr) {
    exists i: nat :: i < ROWS && Contains(Row(i), x)
  }

  // The verdict of the first block from row i on that contains the address.
  function LookupFrom(i: nat, x: Addr): Verdict
    requires i <= ROWS
    decreases ROWS - i
  {
    if i == ROWS then ALLOWED
    else if Contains(Row(i), x) then Block(Row(i).reason)
    else LookupFrom(i + 1, x)
  }

  // The first row that contains the address.
  function FirstRow(i: nat, x: Addr): (n: nat)
    requires i <= ROWS
    ensures i <= n <= ROWS && (n < ROWS ==> Contains(Row(n), x))
    ensures forall k | i <= k < n :: !Contains(Row(k), x)
    ensures LookupFrom(i, x) == if n == ROWS then ALLOWED else Block(Row(n).reason)
    decreases ROWS - i
  {
    if i == ROWS || Contains(Row(i), x) then i else FirstRow(i + 1, x)
  }

  lemma Rows0To7(o: seq<nat>)
    requires IsOctets(o)
    ensures Contains(Row(0), AddrOf(o)) <==> o[0] == 0
    ensures Contains(Row(1), AddrOf(o)) <==> o[0] == 10
    ensures Contains(Row(2), AddrOf(o)) <==> o[0] == 127
    ensures Contains(Row(3), AddrOf(o)) <==> o[0] == 100 && 64 <= o[1] <= 127
    ensures Contains(Row(4), AddrOf(o)) <==> o[0] == 169 && o[1] == 254 && o[2] == 169 && o[3] == 254
    ensures Contains(Row(5), AddrOf(o)) <==> o[0] == 169 && o[1] == 254
    ensures Contains(Row(6), AddrOf(o)) <==> o[0] == 172 && 16 <= o[1] <= 31
    ensures Contains(Row(7), AddrOf(o)) <==> o[0] == 192 && o[1] == 0 && o[2] == 0
  {
  }

  lemma Rows8To15(o: seq<nat>)
    requires IsOctets(o)
    ensures Contains(Row(8), AddrOf(o)) <==> o[0] == 192 && o[1] == 0 && o[2] == 2
    ensures Contains(Row(9), AddrOf(o)) <==> o[0] == 192 && o[1] == 88 && o[2] == 99
    ensures Contains(Row(10), AddrOf(o)) <==> o[0] == 192 && o[1] == 168
    ensures Contains(Row(11), AddrOf(o)) <==> o[0] == 198 && (o[1] == 18 || o[1] == 19)
    ensures Contains(Row(12), AddrOf(o)) <==> o[0] == 198 && o[1] == 51 && o[2] == 100
    ensures Contains(Row(13), AddrOf(o)) <==> o[0] == 203 && o[1] == 0 && o[2] == 113
    ensures Contains(Row(14), AddrOf(o)) <==> 224 <= o[0] <= 239
    ensures Contains(Row(15), AddrOf(o)) <==> o[0] >= 240
  {
  }

  // The classifier is a lookup of the address in the table: it blocks exactly the listed blocks,
  // each with its own reason.
  lemma Ipv4IsTableLookup(o: seq<nat>)
    requires IsOctets(o)
    ensures ClassifyIpv4(o) == LookupFrom(0, AddrOf(o))
    ensures ClassifyIpv4(o).blocked <==> Listed(AddrOf(o))
  {
    var n := FirstRow(0, AddrOf(o));
    Rows0To7(o);
    Rows8To15(o);
  }

  // ---- IPv6 ------------------------------------------------------------------------------

  // Groups lo up to hi are zero.
  predicate ZeroRun(groups: seq<nat>, lo: nat, hi: nat)
    requires lo <= hi <= |groups|
  {
    forall i | lo <= i < hi :: groups[i] == 0
  }

  function Unpack(hi: nat, lo: nat): (o: seq<nat>)
    ensures IsOctets(o)
  {
    [hi / 256 % 256, hi % 256, lo / 256 % 256, lo % 256]
  }

  function EmbeddedIpv4(groups: seq<nat>): seq<nat>
    requires |groups| == 8
  {
    Unpack(groups[6], groups[7])
  }

  function ClassifyIpv6(groups: seq<nat>): Verdict
    requires IsAddress(groups)
  {
    if ZeroRun(groups, 0, 8) then Block(Unspecified)
    else if ZeroRun(groups, 0, 7) && groups[7] == 1 then Block(Loopback)
    else if (ZeroRun(groups, 0, 5) && groups[5] == 0xffff) || ZeroRun(groups, 0, 6) then
      ClassifyIpv4(EmbeddedIpv4(groups))
    else if groups[0] == 0x64 && groups[1] == 0xff9b && ZeroRun(groups, 2, 6) then
      ClassifyIpv4(EmbeddedIpv4(groups))
    else if groups[0] == 0x2002 && ClassifyIpv4(Unpack(groups[1], groups[2])).blocked then
      Block(SixToFour(ClassifyIpv4(Unpack(groups[1], groups[2])).reason))
    else if groups[0] / 0x200 == 0x7e then Block(UniqueLocal)  // & 0xfe00 is 0xfc00
    else if groups[0] / 0x40 == 0x3fa then Block(LinkLocal)  // & 0xffc0 is 0xfe80
    else if groups[0] / 0x100 == 0xff then Block(Multicast)  // & 0xff00 is 0xff00
    else if groups[0] == 0x2001 && groups[1] / 0x10 == 0xdb then Block(Documentation)  // & 0xfff0 is 0x0db0
    else ALLOWED
  }

  method ClassifyAddress(address: string) returns (verdict: Verdict)
    ensures verdict == VerdictOf(address)
  {
    var v4 := ParseIpv4(address);
    if v4.Some? {
      Ipv4Octets(address);
      return ClassifyIpv4(v4.value);
    }
    var v6 := ParseIpv6(address);
    if v6.Some? {
      Ipv6Groups(address);
      return ClassifyIpv6(v6.value);
    }
    verdict := Block(Unparseable);
  }

  lemma Ipv4Octets(text: string)
    ensures var o := Ipv4Of(text); o.Some? ==> IsOctets(o.value)
  {
    var o := Ipv4Of(text);
    if o.Some? {
      assert forall i | 0 <= i < 4 :: o.value[i] in o.value;
      assert o.value[0] <= 255 && o.value[1] <= 255 && o.value[2] <= 255 && o.value[3] <= 255;
    }
  }

  lemma Ipv6Groups(text: string)
    ensures var g := Ipv6Of(text); g.Some? ==> IsAddress(g.value)
  {
    var g := Ipv6Of(text);
    if g.Some? {
      ParsedIffAddress(g.value);
    }
  }

  function VerdictOf(address: string): Verdict {
    var v4, v6 := Ipv4Of(address), Ipv6Of(address);
    if v4.Some? then Ipv4Octets(address); ClassifyIpv4(v4.value)
    else if v6.Some? then Ipv6Groups(address); ClassifyIpv6(v6.value)
    else Block(Unparseable)
  }

  // ---- The four embeddings of an IPv4 address --------------------------------------------

  lemma UnpackPack(o: seq<nat>)
    requires IsOctets(o)
    ensures Unpack(Pack(o)[0], Pack(o)[1]) == o
    ensures Pack(o)[0] < 0x10000 && Pack(o)[1] < 0x10000
  {
  }

  lemma PackUnpack(hi: nat, lo: nat)
    requires hi < 0x10000 && lo < 0x10000
    ensures IsOctets(Unpack(hi, lo)) && Pack(Unpack(hi, lo)) == [hi, lo]
  {
  }

  // Section 2.5.5.2 of RFC 4291: ::ffff:0:0/96.
  predicate Mapped(groups: seq<nat>, o: seq<nat>)
    requires IsAddress(groups) && IsOctets(o)
  {
    groups == [0, 0, 0, 0, 0, 0xffff] + Pack(o)
  }

  // Section 2.5.5.1 of RFC 4291: ::/96.
  predicate Compatible(groups: seq<nat>, o: seq<nat>)
    requires IsAddress(groups) && IsOctets(o)
  {
    groups == [0, 0, 0, 0, 0, 0] + Pack(o)
  }

  // Section 2.1 of RFC 6052: 64:ff9b::/96.
  predicate Translated(groups: seq<nat>, o: seq<nat>)
    requires IsAddress(groups) && IsOctets(o)
  {
    groups == [0x64, 0xff9b, 0, 0, 0, 0] + Pack(o)
  }

  // Section 2 of RFC 3056: 2002::/16, whatever the last five groups.
  predicate Relayed(groups: seq<nat>, o: seq<nat>)
    requires IsAddress(groups) && IsOctets(o)
  {
    groups[0] == 0x2002 && groups[1..3] == Pack(o)
  }

  predicate Carries(groups: seq<nat>, o: seq<nat>)
    requires IsAddress(groups) && IsOctets(o)
  {
    Mapped(groups, o) || Compatible(groups, o) || Translated(groups, o) || Relayed(groups, o)
  }

  lemma MappedVerdict(groups: seq<nat>, o: seq<nat>)
    requires IsAddress(groups) && IsOctets(o) && Mapped(groups, o)
    ensures ClassifyIpv6(groups) == ClassifyIpv4(o)
  {
    UnpackPack(o);
    assert groups[5] == 0xffff && groups[6] == Pack(o)[0] && groups[7] == Pack(o)[1];
    assert ZeroRun(groups, 0, 5);
    assert EmbeddedIpv4(groups) == o;
  }

  lemma CompatibleVerdict(groups: seq<nat>, o: seq<nat>)
    requires IsAddress(groups) && IsOctets(o) && Compatible(groups, o)
    ensures ClassifyIpv6(groups).blocked <==> ClassifyIpv4(o).blocked
  {
    UnpackPack(o);
    assert groups[6] == Pack(o)[0] && groups[7] == Pack(o)[1];
    assert EmbeddedIpv4(groups) == o;
    assert ZeroRun(groups, 0, 6);
  }

  lemma TranslatedVerdict(groups: seq<nat>, o: seq<nat>)
    requires IsAddress(groups) && IsOctets(o) && Translated(groups, o)
    ensures ClassifyIpv6(groups) == ClassifyIpv4(o)
  {
    UnpackPack(o);
    assert groups[0] == 0x64 && groups[1] == 0xff9b;
    assert groups[6] == Pack(o)[0] && groups[7] == Pack(o)[1];
    assert EmbeddedIpv4(groups) == o;
  }

  lemma RelayedVerdict(groups: seq<nat>, o: seq<nat>)
    requires IsAddress(groups) && IsOctets(o) && Relayed(groups, o)
    ensures ClassifyIpv6(groups).blocked <==> ClassifyIpv4(o).blocked
  {
    UnpackPack(o);
    assert groups[1..3][0] == groups[1] && groups[1..3][1] == groups[2];
    assert Unpack(groups[1], groups[2]) == o;
  }

  // Whichever way an IPv4 address is embedded, it is blocked iff it is blocked bare.
  lemma EmbeddingKeepsVerdict(groups: seq<nat>, o: seq<nat>)
    requires IsAddress(groups) && IsOctets(o) && Carries(groups, o)
    ensures ClassifyIpv6(groups).blocked <==> ClassifyIpv4(o).blocked
  {
    if Mapped(groups, o) {
      MappedVerdict(groups, o);
    } else if Compatible(groups, o) {
      CompatibleVerdict(groups, o);
    } else if Translated(groups, o) {
      TranslatedVerdict(groups, o);
    } else {
      RelayedVerdict(groups, o);
    }
  }

  // ---- IPv6 as address blocks ------------------------------------------------------------

  function Pow2(n: nat): (p: nat)
    ensures p > 0
  {
    if n == 0 then 1 else 2 * Pow2(n - 1)
  }

  // Weight of the lowest bit of a group that lies inside a prefix with bits bits left.
  function Unit(bits: int): (u: nat)
    ensures u > 0
  {
    if bits >= 16 then 1 else if bits <= 0 then 0x10000 else Pow2(16 - bits)
  }

  // The first len bits of the address are those of the prefix.
  predicate HasPrefix(groups: seq<nat>, prefix: seq<nat>, len: nat)
    requires |groups| == |prefix|
  {
    forall i | 0 <= i < |groups| :: groups[i] / Unit(len - 16 * i) == prefix[i] / Unit(len - 16 * i)
  }

  // The blocks refused on their own account. The last is 2001:db0::/28: the classifier's comment
  // speaks of 2001:db8::/32, but its mask leaves twelve bits of the second group.
  predicate ListedIpv6(groups: seq<nat>)
    requires IsAddress(groups)
  {
    || HasPrefix(groups, [0, 0, 0, 0, 0, 0, 0, 0], 128)
    || HasPrefix(groups, [0, 0, 0, 0, 0, 0, 0, 1], 128)
    || HasPrefix(groups, [0xfc00, 0, 0, 0, 0, 0, 0, 0], 7)
    || HasPrefix(groups, [0xfe80, 0, 0, 0, 0, 0, 0, 0], 10)
    || HasPrefix(groups, [0xff00, 0, 0, 0, 0, 0, 0, 0], 8)
    || HasPrefix(groups, [0x2001, 0x0db0, 0, 0, 0, 0, 0, 0], 28)
  }

  lemma WholePrefix(groups: seq<nat>, prefix: seq<nat>)
    requires |groups| == |prefix| == 8
    ensures HasPrefix(groups, prefix, 128) <==> groups == prefix
  {
    forall i | 0 <= i < 8
      ensures groups[i] / Unit(128 - 16 * i) == groups[i] && prefix[i] / Unit(128 - 16 * i) == prefix[i]
    {
      assert Unit(128 - 16 * i) == 1;
    }
  }

  lemma ShortPrefix(groups: seq<nat>, p: nat, len: nat, unit: nat)
    requires IsAddress(groups) && 0 < len < 16 && unit == Pow2(16 - len)
    ensures HasPrefix(groups, [p, 0, 0, 0, 0, 0, 0, 0], len) <==> groups[0] / unit == p / unit
  {
    assert Unit(len - 16 * 0) == unit;
    assert forall i | 1 <= i < 8 :: Unit(len - 16 * i) == 0x10000 && groups[i] / 0x10000 == 0;
  }

  lemma DocumentationPrefix(groups: seq<nat>)
    requires IsAddress(groups)
    ensures HasPrefix(groups, [0x2001, 0x0db0, 0, 0, 0, 0, 0, 0], 28)
       <==> groups[0] == 0x2001 && groups[1] / 16 == 0xdb
  {
    assert Unit(28 - 16 * 0) == 1;
    assert Pow2(4) == 16;
    assert Unit(28 - 16 * 1) == 16;
    assert forall i | 2 <= i < 8 :: Unit(28 - 16 * i) == 0x10000 && groups[i] / 0x10000 == 0;
  }

  lemma Units()
    ensures Pow2(9) == 0x200 && Pow2(6) == 0x40 && Pow2(8) == 0x100
  {
    assert Pow2(4) == 16;
    assert Pow2(6) == 64;
    assert Pow2(8) == 256;
  }

  lemma ListedIpv6Tests(groups: seq<nat>)
    requires IsAddress(groups)
    ensures ListedIpv6(groups) <==>
              || ZeroRun(groups, 0, 8)
              || (ZeroRun(groups, 0, 7) && groups[7] == 1)
              || groups[0] / 0x200 == 0x7e
              || groups[0] / 0x40 == 0x3fa
              || groups[0] / 0x100 == 0xff
              || (groups[0] == 0x2001 && groups[1] / 0x10 == 0xdb)
  {
    SingleAddressTests(groups);
    ShortBlockTests(groups);
    DocumentationPrefix(groups);
  }

  lemma SingleAddressTests(groups: seq<nat>)
    requires IsAddress(groups)
    ensures HasPrefix(groups, [0, 0, 0, 0, 0, 0, 0, 0], 128) <==> ZeroRun(groups, 0, 8)
    ensures HasPrefix(groups, [0, 0, 0, 0, 0, 0, 0, 1], 128) <==> ZeroRun(groups, 0, 7) && groups[7] == 1
  {
    WholePrefix(groups, [0, 0, 0, 0, 0, 0, 0, 0]);
    WholePrefix(groups, [0, 0, 0, 0, 0, 0, 0, 1]);
    assert groups == [0, 0, 0, 0, 0, 0, 0, 0] <==> ZeroRun(groups, 0, 8);
    assert groups == [0, 0, 0, 0, 0, 0, 0, 1] <==> ZeroRun(groups, 0, 7) && groups[7] == 1;
  }

  lemma ShortBlockTests(groups: seq<nat>)
    requires IsAddress(groups)
    ensures HasPrefix(groups, [0xfc00, 0, 0, 0, 0, 0, 0, 0], 7) <==> groups[0] / 0x200 == 0x7e
    ensures HasPrefix(groups, [0xfe80, 0, 0, 0, 0, 0, 0, 0], 10) <==> groups[0] / 0x40 == 0x3fa
    ensures HasPrefix(groups, [0xff00, 0, 0, 0, 0, 0, 0, 0], 8) <==> groups[0] / 0x100 == 0xff
  {
    Units();
    ShortPrefix(groups, 0xfc00, 7, 0x200);
    ShortPrefix(groups, 0xfe80, 10, 0x40);
    ShortPrefix(groups, 0xff00, 8, 0x100);
  }

  // An IPv6 address is blocked iff it lies in a listed block or carries a blocked IPv4 address.
  lemma Ipv6BlockedExactly(groups: seq<nat>)
    requires IsAddress(groups)
    ensures ClassifyIpv6(groups).blocked
       <==> ListedIpv6(groups) || exists o :: IsOctets(o) && Carries(groups, o) && ClassifyIpv4(o).blocked
  {
    ListedIpv6Tests(groups);
    if ListedIpv6(groups) {
      assert ClassifyIpv6(groups).blocked;
    } else if o :| IsOctets(o) && Carries(groups, o) && ClassifyIpv4(o).blocked {
      EmbeddingKeepsVerdict(groups, o);
    } else if ClassifyIpv6(groups).blocked {
      var o := CarriedBy(groups);
      EmbeddingKeepsVerdict(groups, o);
    }
  }

  lemma CarriedBy(groups: seq<nat>) returns (o: seq<nat>)
    requires IsAddress(groups) && ClassifyIpv6(groups).blocked && !ListedIpv6(groups)
    ensures IsOctets(o) && Carries(groups, o)
  {
    ListedIpv6Tests(groups);
    if groups[0] == 0x2002 {
      o := Unpack(groups[1], groups[2]);
      PackUnpack(groups[1], groups[2]);
      assert groups[1..3] == [groups[1], groups[2]];
    } else {
      o := EmbeddedIpv4(groups);
      PackUnpack(groups[6], groups[7]);
      if groups[0] == 0x64 {
        assert groups == [0x64, 0xff9b, 0, 0, 0, 0] + [groups[6], groups[7]];
      } else if groups[5] == 0xffff {
        assert groups == [0, 0, 0, 0, 0, 0xffff] + [groups[6], groups[7]];
      } else {
        assert groups == [0, 0, 0, 0, 0, 0] + [groups[6], groups[7]];
      }
    }
  }

  // Each listed block has its own reason.
  lemma SingleAddressReasons(groups: seq<nat>)
    requires IsAddress(groups)
    ensures HasPrefix(groups, [0, 0, 0, 0, 0, 0, 0, 0], 128) ==> ClassifyIpv6(groups) == Block(Unspecified)
    ensures HasPrefix(groups, [0, 0, 0, 0, 0, 0, 0, 1], 128) ==> ClassifyIpv6(groups) == Block(Loopback)
  {
    WholePrefix(groups, [0, 0, 0, 0, 0, 0, 0, 0]);
    WholePrefix(groups, [0, 0, 0, 0, 0, 0, 0, 1]);
  }

  lemma ShortBlockReasons(groups: seq<nat>)
    requires IsAddress(groups)
    ensures HasPrefix(groups, [0xfc00, 0, 0, 0, 0, 0, 0, 0], 7) ==> ClassifyIpv6(groups) == Block(UniqueLocal)
    ensures HasPrefix(groups, [0xfe80, 0, 0, 0, 0, 0, 0, 0], 10) ==> ClassifyIpv6(groups) == Block(LinkLocal)
    ensures HasPrefix(groups, [0xff00, 0, 0, 0, 0, 0, 0, 0], 8) ==> ClassifyIpv6(groups) == Block(Multicast)
  {
    Units();
    ShortPrefix(groups, 0xfc00, 7, 0x200);
    ShortPrefix(groups, 0xfe80, 10, 0x40);
    ShortPrefix(groups, 0xff00, 8, 0x100);
  }

  lemma DocumentationReason(groups: seq<nat>)
    requires IsAddress(groups)
    ensures HasPrefix(groups, [0x2001, 0x0db0, 0, 0, 0, 0, 0, 0], 28) ==> ClassifyIpv6(groups) == Block(Documentation)
  {
    DocumentationPrefix(groups);
  }

  // Otherwise an address in one of the three /96 blocks has the verdict, reason included, of the one it
  // carries.
  lemma CarriedVerdict(groups: seq<nat>, o: seq<nat>)
    requires IsAddress(groups) && IsOctets(o)
    requires Mapped(groups, o) || Compatible(groups, o) || Translated(groups, o)
    requires groups != [0, 0, 0, 0, 0, 0, 0, 0] && groups != [0, 0, 0, 0, 0, 0, 0, 1]
    ensures ClassifyIpv6(groups) == ClassifyIpv4(o)
  {
    if Mapped(groups, o) {
      MappedVerdict(groups, o);
    } else if Translated(groups, o) {
      TranslatedVerdict(groups, o);
    } else {
      UnpackPack(o);
      assert groups[6] == Pack(o)[0] && groups[7] == Pack(o)[1];
      assert EmbeddedIpv4(groups) == o && ZeroRun(groups, 0, 6);
      assert groups == [0, 0, 0, 0, 0, 0, groups[6], groups[7]];
    }
  }

  // A 6to4 address is blocked for the reason of the address it carries.
  lemma RelayedReason(groups: seq<nat>, o: seq<nat>)
    requires IsAddress(groups) && IsOctets(o) && Relayed(groups, o) && ClassifyIpv4(o).blocked
    ensures ClassifyIpv6(groups) == Block(SixToFour(ClassifyIpv4(o).reason))
  {
    UnpackPack(o);
    assert groups[1..3][0] == groups[1] && groups[1..3][1] == groups[2];
    assert Unpack(groups[1], groups[2]) == o;
  }

  // ---- From text to verdict --------------------------------------------------------------

  lemma QuadHasNoColon(text: string)
    ensures Ipv4Of(text).Some? ==> Free(text, ':')
  {
    if Ipv4Of(text).Some? {
      QuadParts(Split(text, '.'));
      JoinSplit(text, '.');
      JoinFree(Split(text, '.'), '.', ':');
    }
  }

  lemma QuadVerdict(parts: seq<string>, o: seq<nat>)
    requires IsQuad(parts, o)
    ensures IsOctets(o) && VerdictOf(Join(parts, '.')) == ClassifyIpv4(o)
  {
    Ipv4TextIffQuad(Join(parts, '.'), o);
    Ipv4Octets(Join(parts, '.'));
  }

  lemma RenderingVerdict(r: Rendering, bracketed: bool, zone: Option<string>, left: string, right: string)
    requires Wellformed(r) && Blank(left) && Blank(right)
    requires zone.Some? && !bracketed ==> zone.value == "" || !IsSpace(zone.value[|zone.value| - 1])
    ensures IsAddress(Meaning(r))
    ensures VerdictOf(left + Wrap(TextOf(r), bracketed, zone) + right) == ClassifyIpv6(Meaning(r))
  {
    MeaningIsAddress(r);
    ParseRendering(r);
    var text := TextOf(r);
    WrappingIsIgnored(text, bracketed, zone, left, right);
    assert ':' in text;
    var wrapped := Wrap(text, bracketed, zone);
    assert ':' in wrapped;
    QuadHasNoColon(left + wrapped + right);
  }

  // The same IPv4 address is refused or let through alike however it is written: any dotted quad,
  // any rendering of any of its four embeddings, bracketed or not, with or without a zone.
  lemma EverySpellingAgrees(parts: seq<string>, o: seq<nat>, r: Rendering,
                            bracketed: bool, zone: Option<string>, left: string, right: string)
    requires IsQuad(parts, o) && IsOctets(o)
    requires Wellformed(r) && IsAddress(Meaning(r)) && Carries(Meaning(r), o)
    requires Blank(left) && Blank(right)
    requires zone.Some? && !bracketed ==> zone.value == "" || !IsSpace(zone.value[|zone.value| - 1])
    ensures VerdictOf(left + Wrap(TextOf(r), bracketed, zone) + right).blocked
       <==> VerdictOf(Join(parts, '.')).blocked
  {
    QuadVerdict(parts, o);
    RenderingVerdict(r, bracketed, zone, left, right);
    EmbeddingKeepsVerdict(Meaning(r), o);
  }
}
