/** Dotted-quad text and its octets. */
module Ipv4Text {
  import opened Text
  import opened Wrappers

  predicate IsDigit(c: char) { '0' <= c <= '9' }

  // One to three decimal digits.
  predicate IsOctetText(s: string) {
    1 <= |s| <= 3 && forall c | c in s :: IsDigit(c)
  }

  function Decimal(s: string): nat
    requires forall c | c in s :: IsDigit(c)
  {
    if s == "" then 0
    else
      assert IsDigit(s[|s| - 1]);
      Decimal(s[..|s| - 1]) * 10 + (s[|s| - 1] as int - '0' as int)
  }

  function OctetOf(part: string): Option<nat> {
    if IsOctetText(part) && Decimal(part) <= 255 then Some(Decimal(part)) else None
  }

  predicate AllOctets(parts: seq<string>) {
    forall p | p in parts :: OctetOf(p).Some?
  }

  function Octets(parts: seq<string>): (octets: seq<nat>)
    requires AllOctets(parts)
    ensures |octets| == |parts| && forall i | 0 <= i < |parts| :: OctetOf(parts[i]) == Some(octets[i])
    ensures forall o | o in octets :: o <= 255
  {
    seq(|parts|, i requires 0 <= i < |parts| => assert parts[i] in parts; OctetOf(parts[i]).value)
  }

  function Ipv4Of(value: string): Option<seq<nat>> {
    var parts := Split(value, '.');
    if |parts| == 4 && AllOctets(parts) then Some(Octets(parts)) else None
  }

  // Reads a list of parts; stops at the first bad one.
  method ReadOctets(parts: seq<string>) returns (octets: Option<seq<nat>>)
    ensures octets == if AllOctets(parts) then Some(Octets(parts)) else None
  {
    var read: seq<nat> := [];
    for i := 0 to |parts|
      invariant |read| == i
      invariant forall j | 0 <= j < i :: OctetOf(parts[j]) == Some(read[j])
    {
      if !IsOctetText(parts[i]) {
        assert OctetOf(parts[i]).None? && parts[i] in parts;
        return None;
      }
      var n := Decimal(parts[i]);
      if n > 255 {
        assert OctetOf(parts[i]).None? && parts[i] in parts;
        return None;
      }
      read := read + [n];
    }
    assert AllOctets(parts);
    assert read == Octets(parts);
    octets := Some(read);
  }

  method ParseIpv4(value: string) returns (octets: Option<seq<nat>>)
    ensures octets == Ipv4Of(value)
  {
    var parts := Split(value, '.');
    if |parts| != 4 { return None; }
    octets := ReadOctets(parts);
  }

  // The texts of an address: four parts of the right values, however many leading zeros.
  ghost predicate IsQuad(parts: seq<string>, octets: seq<nat>) {
    |parts| == 4 && AllOctets(parts) && Octets(parts) == octets
  }

  lemma OctetTextIsPlain(s: string)
    requires IsOctetText(s)
    ensures Free(s, '.') && Free(s, ':') && Free(s, '%') && s != ""
  {
  }

  lemma QuadParts(parts: seq<string>)
    requires AllOctets(parts)
    ensures AllFree(parts, '.') && AllFree(parts, ':')
  {
    forall p | p in parts ensures Free(p, '.') && Free(p, ':') {
      assert OctetOf(p).Some?;
      OctetTextIsPlain(p);
    }
  }

  // Exactly the quads parse, each to its octets.
  lemma Ipv4TextIffQuad(value: string, octets: seq<nat>)
    ensures Ipv4Of(value) == Some(octets)
       <==> exists parts :: IsQuad(parts, octets) && value == Join(parts, '.')
  {
    JoinSplit(value, '.');
    if Ipv4Of(value) == Some(octets) {
      assert IsQuad(Split(value, '.'), octets);
    }
    if parts :| IsQuad(parts, octets) && value == Join(parts, '.') {
      QuadParts(parts);
      SplitJoin(parts, '.');
    }
  }

  // The usual printer, without leading zeros.
  function Digit(n: nat): char
    requires n < 10
  {
    '0' + n as char
  }

  function PrintOctet(n: nat): (s: string)
    requires n <= 255
  {
    if n < 10 then [Digit(n)]
    else if n < 100 then [Digit(n / 10), Digit(n % 10)]
    else [Digit(n / 100), Digit(n / 10 % 10), Digit(n % 10)]
  }

  lemma DecimalNext(s: string, n: nat)
    requires n < 10 && forall c | c in s :: IsDigit(c)
    ensures forall c | c in s + [Digit(n)] :: IsDigit(c)
    ensures Decimal(s + [Digit(n)]) == Decimal(s) * 10 + n
  {
    assert (s + [Digit(n)])[..|s|] == s;
  }

  lemma DecimalOfThree(a: nat, b: nat, c: nat)
    requires a < 10 && b < 10 && c < 10
    ensures Decimal([Digit(a)]) == a && Decimal([Digit(a), Digit(b)]) == a * 10 + b
    ensures Decimal([Digit(a), Digit(b), Digit(c)]) == a * 100 + b * 10 + c
  {
    DecimalNext("", a);
    DecimalNext([Digit(a)], b);
    DecimalNext([Digit(a), Digit(b)], c);
    assert "" + [Digit(a)] == [Digit(a)] && [Digit(a)] + [Digit(b)] == [Digit(a), Digit(b)];
    assert [Digit(a), Digit(b)] + [Digit(c)] == [Digit(a), Digit(b), Digit(c)];
  }

  lemma PrintedOctet(n: nat)
    requires n <= 255
    ensures OctetOf(PrintOctet(n)) == Some(n)
  {
    if n < 10 {
      DecimalOfThree(n, 0, 0);
    } else if n < 100 {
      DecimalOfThree(n / 10, n % 10, 0);
    } else {
      DecimalOfThree(n / 100, n / 10 % 10, n % 10);
      assert n / 10 == n / 100 * 10 + n / 10 % 10;
    }
  }
}
