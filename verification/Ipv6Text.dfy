/** IPv6 text (section 2.2 of RFC 4291): the parser and every rendering it undoes. */
module Ipv6Text {
  import opened Text
  import opened Wrappers
  import opened Ipv4Text

  predicate IsHex(c: char) {
    '0' <= c <= '9' || 'a' <= c <= 'f' || 'A' <= c <= 'F'
  }

  function HexDigit(c: char): (n: nat)
    requires IsHex(c)
    ensures n < 16
  {
    if '0' <= c <= '9' then c as int - '0' as int
    else if 'a' <= c <= 'f' then c as int - 'a' as int + 10
    else c as int - 'A' as int + 10
  }

  function Hex(s: string): nat
    requires forall c | c in s :: IsHex(c)
  {
    if s == "" then 0
    else
      assert IsHex(s[|s| - 1]);
      Hex(s[..|s| - 1]) * 16 + HexDigit(s[|s| - 1])
  }

  // One to four hexadecimal digits.
  predicate IsGroupText(s: string) {
    1 <= |s| <= 4 && forall c | c in s :: IsHex(c)
  }

  predicate AllGroups(parts: seq<string>) {
    forall p | p in parts :: IsGroupText(p)
  }

  function Values(parts: seq<string>): (groups: seq<nat>)
    requires AllGroups(parts)
    ensures |groups| == |parts| && forall i | 0 <= i < |parts| :: IsGroupText(parts[i]) && groups[i] == Hex(parts[i])
  {
    seq(|parts|, i requires 0 <= i < |parts| => assert parts[i] in parts; Hex(parts[i]))
  }

  function Zeros(n: nat): (z: seq<nat>)
    ensures |z| == n && forall i | 0 <= i < n :: z[i] == 0
  {
    seq(n, _ => 0)
  }

  predicate NoDouble(s: string) {
    forall i | 0 <= i < |s| - 1 :: !(s[i] == ':' && s[i + 1] == ':')
  }

  // Position of the first "::", or |s| when there is none.
  function FirstDouble(s: string): (i: nat)
    ensures i <= |s|
    ensures i < |s| ==> i + 1 < |s| && s[i] == ':' && s[i + 1] == ':' && NoDouble(s[..i + 1])
    ensures i == |s| <==> NoDouble(s)
  {
    if |s| < 2 then |s|
    else if s[0] == ':' && s[1] == ':' then 0
    else
      var i := FirstDouble(s[1..]) + 1;
      assert forall k | 1 <= k < |s| :: s[k] == s[1..][k - 1];
      i
  }

  // Position of the last c.
  function LastIndex(s: string, c: char): (i: nat)
    requires c in s
    ensures i < |s| && s[i] == c && Free(s[i + 1..], c)
  {
    if s[|s| - 1] == c then |s| - 1 else LastIndex(s[..|s| - 1], c)
  }

  function NonEmpty(parts: seq<string>): seq<string> {
    if parts == [] then []
    else (if parts[0] == "" then [] else [parts[0]]) + NonEmpty(parts[1..])
  }

  // Text without a dotted quad, to eight groups.
  function ParseGroups(text: string): Option<seq<nat>> {
    var dc := FirstDouble(text);
    if dc == |text| then
      var parts := Split(text, ':');
      if AllGroups(parts) && |parts| == 8 then Some(Values(parts)) else None
    else if FirstDouble(text[dc + 1..]) < |text[dc + 1..]| then None
    else
      Expand(NonEmpty(Split(text[..dc], ':')), NonEmpty(Split(text[dc + 2..], ':')))
  }

  function Expand(head: seq<string>, rest: seq<string>): Option<seq<nat>> {
    if AllGroups(head) && AllGroups(rest) && |head| + |rest| <= 8
    then Some(Values(head) + Zeros(8 - |head| - |rest|) + Values(rest))
    else None
  }

  function ApplyTail(groups: seq<nat>, tail: seq<nat>): Option<seq<nat>> {
    if |groups| != 8 then None
    else if |tail| == 2 then Some(groups[6 := tail[0]][7 := tail[1]])
    else Some(groups)
  }

  function Pack(octets: seq<nat>): (groups: seq<nat>)
    requires |octets| == 4
    ensures |groups| == 2
  {
    [octets[0] * 256 + octets[1], octets[2] * 256 + octets[3]]
  }

  // An address without brackets or zone.
  function ParseBare(text: string): Option<seq<nat>> {
    if ':' !in text then None
    else
      var last := LastIndex(text, ':');
      var maybeV4 := text[last + 1..];
      if '.' in maybeV4 then
        var octets := Ipv4Of(maybeV4);
        var groups := ParseGroups(text[..last + 1] + "0:0");
        if octets.None? || groups.None? then None else ApplyTail(groups.value, Pack(octets.value))
      else ParseGroups(text)
  }

  function Unbracket(text: string): string {
    if |text| >= 2 && text[0] == '[' && text[|text| - 1] == ']' then text[1..|text| - 1] else text
  }

  function DropZone(text: string): string { text[..FirstIndex(text, '%')] }

  function Ipv6Of(value: string): Option<seq<nat>> {
    ParseBare(DropZone(Unbracket(Trim(value))))
  }

  // ---- The parser's loops ----------------------------------------------------------------

  method ReadGroups(parts: seq<string>) returns (nums: Option<seq<nat>>)
    ensures nums == if AllGroups(parts) then Some(Values(parts)) else None
  {
    var read: seq<nat> := [];
    for i := 0 to |parts|
      invariant |read| == i
      invariant forall j | 0 <= j < i :: IsGroupText(parts[j]) && read[j] == Hex(parts[j])
    {
      if !IsGroupText(parts[i]) {
        assert parts[i] in parts;
        return None;
      }
      read := read + [Hex(parts[i])];
    }
    assert AllGroups(parts);
    assert read == Values(parts);
    nums := Some(read);
  }

  method ReadElided(text: string, dc: nat) returns (groups: Option<seq<nat>>)
    requires dc == FirstDouble(text) < |text|
    ensures groups == ParseGroups(text)
  {
    if FirstDouble(text[dc + 1..]) < |text[dc + 1..]| { return None; }
    var head, rest := NonEmpty(Split(text[..dc], ':')), NonEmpty(Split(text[dc + 2..], ':'));
    var headNums := ReadGroups(head);
    if headNums.None? { return None; }
    var restNums := ReadGroups(rest);
    if restNums.None? { return None; }
    var missing := 8 - (|headNums.value| + |restNums.value|);
    if missing < 0 { return None; }
    groups := Some(headNums.value + Zeros(missing) + restNums.value);
  }

  method ReadPlain(text: string) returns (groups: Option<seq<nat>>)
    ensures groups == ParseGroups(text)
  {
    var dc := FirstDouble(text);
    if dc < |text| {
      groups := ReadElided(text, dc);
    } else {
      var nums := ReadGroups(Split(text, ':'));
      if nums.None? || |nums.value| != 8 { return None; }
      groups := nums;
    }
  }

  lemma ParsedLength(text: string)
    ensures ParseGroups(text).Some? ==> |ParseGroups(text).value| == 8
  {
  }

  method ParseIpv6(value: string) returns (groups: Option<seq<nat>>)
    ensures groups == Ipv6Of(value)
  {
    var text := Unbracket(Trim(value));
    text := DropZone(text);
    if ':' !in text { return None; }
    var tail: seq<nat> := [];
    var last := LastIndex(text, ':');
    var maybeV4 := text[last + 1..];
    if '.' in maybeV4 {
      var octets := ParseIpv4(maybeV4);
      if octets.None? { return None; }
      tail := Pack(octets.value);
      text := text[..last + 1] + "0:0";
    }
    groups := ReadPlain(text);
    ParsedLength(text);
    if groups.Some? {
      groups := ApplyTail(groups.value, tail);
    }
  }
}
