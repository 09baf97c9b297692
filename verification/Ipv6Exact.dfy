/** The converse: whatever the IPv6 parser accepts is one of the renderings, and wrappers change nothing. */
module Ipv6Exact {
  import opened Text
  import opened Wrappers
  import opened Ipv4Text
  import opened Ipv6Text
  import opened Ipv6Render

  // ---- Recovering the pieces of one side of a "::" ---------------------------------------

  // Without "::" and without a final colon, only the first piece can be empty.
  lemma {:induction false} OnlyFirstPieceEmpty(s: string)
    requires NoDouble(s) && (s == "" || s[|s| - 1] != ':')
    ensures var parts := Split(s, ':');
            && (forall p | p in parts[1..] :: p != "")
            && (parts[0] == "" <==> s == "" || s[0] == ':')
  {
    if s != "" {
      var t := s[1..];
      assert forall i | 0 <= i < |t| :: t[i] == s[i + 1];
      OnlyFirstPieceEmpty(t);
      var rest := Split(t, ':');
      if s[0] == ':' {
        assert ([""] + rest)[1..] == rest;
        assert forall p | p in rest :: p == rest[0] || p in rest[1..];
      } else {
        assert ([[s[0]] + rest[0]] + rest[1..])[1..] == rest[1..];
      }
    }
  }

  lemma NoPieces()
    ensures Split("", ':') == [""] && NonEmpty([""]) == [] && Join([], ':') == ""
  {
    assert NonEmpty([""]) == [] + NonEmpty([""][1..]);
  }

  lemma NoDoubleSlice(s: string, i: nat, j: nat)
    requires i <= j <= |s| && NoDouble(s)
    ensures NoDouble(s[i..j])
  {
    assert forall k {:trigger s[i..j][k]} | 0 <= k < j - i :: s[i..j][k] == s[i + k];
  }

  lemma CleanPieces(s: string)
    requires NoDouble(s) && s != "" && s[0] != ':' && s[|s| - 1] != ':'
    ensures var parts := NonEmpty(Split(s, ':')); parts != [] && s == Join(parts, ':')
  {
    OnlyFirstPieceEmpty(s);
    NonEmptyTail(Split(s, ':'));
    JoinSplit(s, ':');
  }

  lemma NonEmptyTail(parts: seq<string>)
    requires parts != [] && parts[0] != "" && forall p | p in parts[1..] :: p != ""
    ensures NonEmpty(parts) == parts
  {
    assert forall p | p in parts :: p == parts[0] || p in parts[1..];
    NonEmptySolid(parts);
  }

  // The part of a text before its "::" is its pieces joined, with at most one colon in front.
  lemma HeadPieces(s: string) returns (stray: bool)
    requires NoDouble(s) && (s == "" || s[|s| - 1] != ':')
    ensures var parts := NonEmpty(Split(s, ':'));
            s == Colon(stray) + Join(parts, ':') && (stray ==> parts != [])
  {
    stray := s != "" && s[0] == ':';
    NoPieces();
    if stray {
      var t := s[1..];
      assert s == "" + [':'] + t;
      SplitAppend("", ':', t);
      NonEmptyAppend([""], Split(t, ':'));
      NoDoubleSlice(s, 1, |s|);
      CleanPieces(t);
      assert NonEmpty(Split(s, ':')) == NonEmpty(Split(t, ':'));
      assert s == ":" + t;
    } else if s != "" {
      CleanPieces(s);
      assert "" + s == s;
    }
  }

  // And the part after it, with at most one colon behind.
  lemma RestPieces(s: string) returns (stray: bool)
    requires NoDouble(s) && (s == "" || s[0] != ':')
    ensures var parts := NonEmpty(Split(s, ':'));
            s == Join(parts, ':') + Colon(stray) && (stray ==> parts != [])
    ensures stray <==> s != "" && s[|s| - 1] == ':'
  {
    stray := s != "" && s[|s| - 1] == ':';
    NoPieces();
    if stray {
      var t := s[..|s| - 1];
      assert s == t + [':'] + "";
      SplitAppend(t, ':', "");
      NonEmptyAppend(Split(t, ':'), [""]);
      NoDoubleSlice(s, 0, |s| - 1);
      assert t[|t| - 1] == s[|s| - 2];
      CleanPieces(t);
      assert NonEmpty(Split(s, ':')) == NonEmpty(Split(t, ':'));
      assert s == t + ":";
    } else if s != "" {
      CleanPieces(s);
      assert s + "" == s;
    }
  }

  // ---- Accepted text without a quad ------------------------------------------------------

  lemma FullIsRendering(text: string) returns (r: Rendering)
    requires NoDouble(text) && ParseGroups(text).Some?
    ensures r == Rendering(false, [], Split(text, ':'), None, false, false)
    ensures Wellformed(r) && TextOf(r) == text
  {
    JoinSplit(text, ':');
    r := Rendering(false, [], Split(text, ':'), None, false, false);
    FullText(r);
  }

  lemma SidesOfDouble(text: string)
    requires !NoDouble(text) && NoDouble(text[FirstDouble(text) + 1..])
    ensures var dc := FirstDouble(text); var h, t := text[..dc], text[dc + 2..];
            && text == h + "::" + t
            && NoDouble(h) && (h == "" || h[|h| - 1] != ':')
            && NoDouble(t) && (t == "" || t[0] != ':')
  {
    var dc := FirstDouble(text);
    var left, right := text[..dc + 1], text[dc + 1..];
    NoDoubleSlice(left, 0, dc);
    assert left[0..dc] == text[..dc];
    assert dc > 0 ==> left[dc - 1] == text[dc - 1] && left[dc] == ':';
    NoDoubleSlice(right, 1, |right|);
    assert right[1..|right|] == text[dc + 2..];
    assert right[0] == ':';
    assert |right| > 1 ==> right[1] == text[dc + 2..][0];
  }

  // What acceptance says of the two sides.
  lemma AcceptedSides(text: string)
    requires !NoDouble(text) && ParseGroups(text).Some?
    ensures var dc := FirstDouble(text);
            && NoDouble(text[dc + 1..])
            && Expand(NonEmpty(Split(text[..dc], ':')), NonEmpty(Split(text[dc + 2..], ':'))).Some?
  {
  }

  lemma ElidedIsRendering(text: string) returns (r: Rendering)
    requires !NoDouble(text) && ParseGroups(text).Some?
    ensures Wellformed(r) && TextOf(r) == text && r.elided && r.quad.None?
    ensures r.strayLast ==> text[|text| - 1] == ':'
    ensures r.rest == NonEmpty(Split(text[FirstDouble(text) + 2..], ':'))
  {
    AcceptedSides(text);
    SidesOfDouble(text);
    var dc := FirstDouble(text);
    r := Assemble(text[..dc], text[dc + 2..]);
    assert r.strayLast ==> text[|text| - 1] == text[dc + 2..][|text| - dc - 3];
  }

  lemma ElidedText(r: Rendering, h: string, t: string)
    requires r.elided && r.quad.None?
    requires h == Colon(r.strayFirst) + Join(r.head, ':') && t == Join(r.rest, ':') + Colon(r.strayLast)
    ensures TextOf(r) == h + "::" + t
  {
    assert r.rest + [] == r.rest;
    assert Front(r) == h + "::";
  }

  lemma FullText(r: Rendering)
    requires !r.elided && !r.strayFirst && !r.strayLast && r.quad.None?
    ensures TextOf(r) == Join(r.rest, ':')
  {
    assert r.rest + [] == r.rest;
  }

  lemma Assemble(h: string, t: string) returns (r: Rendering)
    requires NoDouble(h) && (h == "" || h[|h| - 1] != ':')
    requires NoDouble(t) && (t == "" || t[0] != ':')
    requires Expand(NonEmpty(Split(h, ':')), NonEmpty(Split(t, ':'))).Some?
    ensures Wellformed(r) && TextOf(r) == h + "::" + t && r.elided && r.quad.None?
    ensures r.strayLast ==> t != "" && t[|t| - 1] == ':'
    ensures r.rest == NonEmpty(Split(t, ':'))
  {
    var first := HeadPieces(h);
    var last := RestPieces(t);
    r := Rendering(true, NonEmpty(Split(h, ':')), NonEmpty(Split(t, ':')), None, first, last);
    ElidedText(r, h, t);
  }

  lemma PlainIsRendering(text: string) returns (r: Rendering)
    requires ParseGroups(text).Some?
    ensures Wellformed(r) && TextOf(r) == text && r.quad.None?
  {
    if NoDouble(text) {
      r := FullIsRendering(text);
    } else {
      r := ElidedIsRendering(text);
    }
  }

  // ---- Accepted text with a quad ---------------------------------------------------------

  lemma EndsInZeroPair(s: string, lead: string)
    requires s == lead + "0:0" && (lead == "" || lead[|lead| - 1] == ':')
    ensures exists parts :: Split(s, ':') == parts + ["0", "0"]
  {
    var pair := ["0", "0"];
    SplitAppend("0", ':', "0");
    SplitWithoutSeparator("0", ':');
    assert "0" + [':'] + "0" == "0:0";
    assert Split("0:0", ':') == pair;
    if lead == "" {
      assert s == "0:0";
      assert Split(s, ':') == [] + pair;
    } else {
      var x := lead[..|lead| - 1];
      assert s == x + [':'] + "0:0";
      SplitAppend(x, ':', "0:0");
      assert Split(s, ':') == Split(x, ':') + pair;
    }
  }

  lemma NonEmptyZeroPair(parts: seq<string>)
    ensures NonEmpty(parts + ["0", "0"]) == NonEmpty(parts) + ["0", "0"]
  {
    NonEmptyAppend(parts, ["0", "0"]);
    NonEmptySolid(["0", "0"]);
  }

  lemma DoubleBeforePair(lead: string)
    requires lead != "" && lead[|lead| - 1] == ':' && !NoDouble(lead + "0:0")
    ensures FirstDouble(lead + "0:0") + 2 <= |lead|
  {
    var text := lead + "0:0";
    assert forall i | |lead| <= i < |text| :: text[i] == "0:0"[i - |lead|];
  }

  lemma PairAfter(lead: string, n: nat)
    requires lead != "" && lead[|lead| - 1] == ':' && n <= |lead|
    ensures exists parts :: NonEmpty(Split((lead + "0:0")[n..], ':')) == parts + ["0", "0"]
  {
    var rest := lead[n..];
    assert (lead + "0:0")[n..] == rest + "0:0";
    assert rest == "" || rest[|rest| - 1] == lead[|lead| - 1];
    EndsInZeroPair(rest + "0:0", rest);
    var parts :| Split(rest + "0:0", ':') == parts + ["0", "0"];
    NonEmptyZeroPair(parts);
  }

  lemma BlankedEndsInZeroPair(lead: string) returns (r: Rendering)
    requires lead != "" && lead[|lead| - 1] == ':' && ParseGroups(lead + "0:0").Some?
    ensures Wellformed(r) && TextOf(r) == lead + "0:0" && r.quad.None? && !r.strayLast
    ensures exists rest :: r.rest == rest + ["0", "0"]
  {
    var text := lead + "0:0";
    assert text[|text| - 1] == '0';
    if NoDouble(text) {
      r := FullIsRendering(text);
      EndsInZeroPair(text, lead);
    } else {
      r := ElidedIsRendering(text);
      DoubleBeforePair(lead);
      PairAfter(lead, FirstDouble(text) + 2);
    }
  }

  lemma QuadIsRendering(lead: string, quad: string) returns (r: Rendering)
    requires lead != "" && lead[|lead| - 1] == ':' && ParseGroups(lead + "0:0").Some?
    requires Ipv4Of(quad).Some?
    ensures Wellformed(r) && TextOf(r) == lead + quad
  {
    var b := BlankedEndsInZeroPair(lead);
    var rest :| b.rest == rest + ["0", "0"];
    var parts := Split(quad, '.');
    JoinSplit(quad, '.');
    r := b.(rest := rest, quad := Some(parts));
    assert forall p | p in rest :: p in b.rest;
    assert Blanked(r) == b;
    TextAroundQuad(r);
    TextAroundBlank(r);
    assert Lead(r) == lead by {
      assert Lead(r) == (Lead(r) + "0:0")[..|lead|];
      assert lead == (lead + "0:0")[..|lead|];
    }
  }

  lemma AcceptedIsRendering(text: string) returns (r: Rendering)
    requires ParseBare(text).Some?
    ensures Wellformed(r) && TextOf(r) == text
  {
    var last := LastIndex(text, ':');
    var lead, tail := text[..last + 1], text[last + 1..];
    assert text == lead + tail;
    if '.' in tail {
      r := QuadIsRendering(lead, tail);
    } else {
      r := PlainIsRendering(text);
    }
  }

  // The parser accepts exactly the wellformed renderings, each with its meaning.
  lemma AcceptsExactlyRenderings(text: string, groups: seq<nat>)
    ensures ParseBare(text) == Some(groups)
       <==> exists r :: Wellformed(r) && TextOf(r) == text && Meaning(r) == groups
  {
    if ParseBare(text) == Some(groups) {
      var r := AcceptedIsRendering(text);
      ParseRendering(r);
      assert Wellformed(r) && TextOf(r) == text && Meaning(r) == groups;
    }
    if r :| Wellformed(r) && TextOf(r) == text && Meaning(r) == groups {
      ParseRendering(r);
    }
  }

  // ---- Brackets, zones and surrounding white space ---------------------------------------

  predicate Plain(s: string) {
    forall c | c in s :: IsHex(c) || c == ':' || c == '.'
  }

  lemma {:induction false} JoinPlain(parts: seq<string>, sep: char)
    requires (forall p | p in parts :: Plain(p)) && (sep == ':' || sep == '.')
    ensures Plain(Join(parts, sep))
  {
    if parts != [] {
      assert parts[0] in parts;
      assert forall p | p in parts[1..] :: p in parts;
      JoinPlain(parts[1..], sep);
    }
  }

  lemma GroupsArePlain(parts: seq<string>)
    requires AllGroups(parts)
    ensures forall p | p in parts :: Plain(p)
  {
    forall p | p in parts ensures Plain(p) {
      assert IsGroupText(p);
    }
  }

  lemma OctetsArePlain(parts: seq<string>)
    requires AllOctets(parts)
    ensures forall p | p in parts :: Plain(p)
  {
    forall p | p in parts ensures Plain(p) {
      assert OctetOf(p).Some?;
      forall c | c in p ensures IsHex(c) {
        assert IsDigit(c);
      }
    }
  }

  lemma RenderingIsPlain(r: Rendering)
    requires Wellformed(r)
    ensures Plain(TextOf(r)) && TextOf(r) != ""
  {
    GroupsArePlain(r.head);
    GroupsArePlain(r.rest);
    JoinPlain(r.head, ':');
    var quad := if r.quad.Some? then [Quad(r)] else [];
    if r.quad.Some? {
      OctetsArePlain(r.quad.value);
      JoinPlain(r.quad.value, '.');
    } else {
      PlainTextHasNoDot(r);
    }
    JoinPlain(r.rest + quad, ':');
    if r.quad.Some? {
      TextAroundQuad(r);
      LeadEndsWithColon(r);
    }
  }

  function Wrap(bare: string, bracketed: bool, zone: Option<string>): string {
    var inner := bare + if zone.Some? then "%" + zone.value else "";
    if bracketed then "[" + inner + "]" else inner
  }

  lemma ZoneIsDropped(bare: string, zone: Option<string>)
    requires Free(bare, '%')
    ensures DropZone(bare + if zone.Some? then "%" + zone.value else "") == bare
  {
    if zone.Some? {
      FirstIndexAppend(bare, '%', zone.value);
      assert bare + ['%'] + zone.value == bare + ("%" + zone.value);
      assert (bare + ("%" + zone.value))[..|bare|] == bare;
    } else {
      assert bare + "" == bare;
    }
  }

  lemma WrapIsUndone(bare: string, bracketed: bool, zone: Option<string>)
    requires Plain(bare) && bare != ""
    requires zone.Some? && !bracketed ==> zone.value == "" || !IsSpace(zone.value[|zone.value| - 1])
    ensures Trimmed(Wrap(bare, bracketed, zone))
    ensures Unbracket(Wrap(bare, bracketed, zone)) == bare + if zone.Some? then "%" + zone.value else ""
  {
    var inner := bare + if zone.Some? then "%" + zone.value else "";
    var wrapped := Wrap(bare, bracketed, zone);
    assert bare[0] in bare && bare[|bare| - 1] in bare;
    if bracketed {
      assert wrapped[1..|wrapped| - 1] == inner;
    } else {
      assert wrapped[0] == bare[0];
      if zone.Some? {
        assert wrapped[|wrapped| - 1] == ("%" + zone.value)[|zone.value|];
      }
    }
  }

  // An address parses the same inside brackets, with a zone index, and padded with white space.
  lemma WrappingIsIgnored(bare: string, bracketed: bool, zone: Option<string>, left: string, right: string)
    requires ParseBare(bare).Some? && Blank(left) && Blank(right)
    requires zone.Some? && !bracketed ==> zone.value == "" || !IsSpace(zone.value[|zone.value| - 1])
    ensures Ipv6Of(left + Wrap(bare, bracketed, zone) + right) == ParseBare(bare)
  {
    var r := AcceptedIsRendering(bare);
    RenderingIsPlain(r);
    assert bare != "";
    AllWrappingIsUndone(bare, bracketed, zone, left, right);
  }

  lemma AllWrappingIsUndone(bare: string, bracketed: bool, zone: Option<string>, left: string, right: string)
    requires Plain(bare) && bare != "" && Blank(left) && Blank(right)
    requires zone.Some? && !bracketed ==> zone.value == "" || !IsSpace(zone.value[|zone.value| - 1])
    ensures DropZone(Unbracket(Trim(left + Wrap(bare, bracketed, zone) + right))) == bare
  {
    WrapIsUndone(bare, bracketed, zone);
    TrimPadded(left, Wrap(bare, bracketed, zone), right);
    ZoneIsDropped(bare, zone);
  }

  // A zone outside brackets does not end in white space, which would be trimmed.
  predicate ZoneOk(bracketed: bool, zone: Option<string>) {
    zone.Some? && !bracketed ==> zone.value == "" || !IsSpace(zone.value[|zone.value| - 1])
  }

  predicate Writes(value: string, left: string, right: string, r: Rendering, bracketed: bool, zone: Option<string>) {
    && Blank(left) && Blank(right) && Wellformed(r) && ZoneOk(bracketed, zone)
    && value == left + Wrap(TextOf(r), bracketed, zone) + right
  }

  // How a text comes apart on the way to its bare address.
  lemma Unwrapped(text: string) returns (bracketed: bool, zone: Option<string>)
    requires Trimmed(text)
    ensures text == Wrap(DropZone(Unbracket(text)), bracketed, zone) && ZoneOk(bracketed, zone)
  {
    bracketed := |text| >= 2 && text[0] == '[' && text[|text| - 1] == ']';
    zone := ZoneOf(Unbracket(text));
    if bracketed {
      Rebracketed(text);
    } else if zone.Some? && zone.value != "" {
      assert zone.value[|zone.value| - 1] == text[|text| - 1];
    }
  }

  lemma Rebracketed(text: string)
    requires |text| >= 2 && text[0] == '[' && text[|text| - 1] == ']'
    ensures text == "[" + Unbracket(text) + "]"
  {
  }

  lemma ZoneOf(inner: string) returns (zone: Option<string>)
    ensures inner == DropZone(inner) + if zone.Some? then "%" + zone.value else ""
    ensures zone.Some? ==> |zone.value| <= |inner| && zone.value == inner[|inner| - |zone.value|..]
  {
    var i := FirstIndex(inner, '%');
    if i < |inner| {
      zone := Some(inner[i + 1..]);
      assert inner == inner[..i] + [inner[i]] + inner[i + 1..];
      assert inner[..i] + ("%" + inner[i + 1..]) == inner[..i] + ['%'] + inner[i + 1..];
    } else {
      zone := None;
      assert inner[..i] + "" == inner;
    }
  }

  // The whole parser accepts exactly the wellformed renderings in any such wrapping, each with its
  // meaning.
  lemma WholeTextIff(value: string, groups: seq<nat>)
    ensures Ipv6Of(value) == Some(groups)
       <==> exists left, right, r, bracketed, zone ::
              Writes(value, left, right, r, bracketed, zone) && Meaning(r) == groups
  {
    if Ipv6Of(value) == Some(groups) {
      var left, right := TrimSpec(value);
      var bracketed, zone := Unwrapped(Trim(value));
      AcceptsExactlyRenderings(DropZone(Unbracket(Trim(value))), groups);
      var r :| Wellformed(r) && TextOf(r) == DropZone(Unbracket(Trim(value))) && Meaning(r) == groups;
      assert Writes(value, left, right, r, bracketed, zone);
    }
    if left, right, r, bracketed, zone :| Writes(value, left, right, r, bracketed, zone) && Meaning(r) == groups {
      ParseRendering(r);
      WrappingIsIgnored(TextOf(r), bracketed, zone, left, right);
    }
  }

  // ---- Every address, every placement of "::" --------------------------------------------

  predicate Small(groups: seq<nat>) {
    forall i | 0 <= i < |groups| :: groups[i] < 0x10000
  }

  predicate IsAddress(groups: seq<nat>) {
    |groups| == 8 && Small(groups)
  }

  lemma HexBound(s: string)
    requires IsGroupText(s)
    ensures Hex(s) < 0x10000
  {
    var n := |s|;
    assert s[..0] == "";
    assert Hex(s[..1]) < 16 by { assert s[..1][..0] == ""; }
    if n > 1 {
      assert s[..2][..1] == s[..1];
      assert Hex(s[..2]) < 256;
    }
    if n > 2 {
      assert s[..3][..2] == s[..2];
      assert Hex(s[..3]) < 4096;
    }
    if n > 3 {
      assert s[..4][..3] == s[..3];
      assert s[..4] == s;
    }
    assert s[..n] == s;
  }

  lemma ValuesAreSmall(parts: seq<string>)
    requires AllGroups(parts)
    ensures Small(Values(parts))
  {
    forall i | 0 <= i < |parts| ensures Values(parts)[i] < 0x10000 {
      HexBound(parts[i]);
    }
  }

  lemma MeaningIsAddress(r: Rendering)
    requires Wellformed(r)
    ensures IsAddress(Meaning(r))
  {
    ValuesAreSmall(r.head);
    ValuesAreSmall(r.rest);
    if r.quad.Some? {
      var o := Octets(r.quad.value);
      assert o[0] in o && o[1] in o && o[2] in o && o[3] in o;
    }
  }

  function HexChar(n: nat): (c: char)
    requires n < 16
    ensures IsHex(c) && HexDigit(c) == n
  {
    if n < 10 then '0' + n as char else 'a' + (n - 10) as char
  }

  function PrintGroup(n: nat): (s: string)
    requires n < 0x10000
    ensures IsGroupText(s)
  {
    [HexChar(n / 4096), HexChar(n / 256 % 16), HexChar(n / 16 % 16), HexChar(n % 16)]
  }

  lemma PrintedGroup(n: nat)
    requires n < 0x10000
    ensures Hex(PrintGroup(n)) == n
  {
    HexOfFour(HexChar(n / 4096), HexChar(n / 256 % 16), HexChar(n / 16 % 16), HexChar(n % 16));
    Nibbles(n);
  }

  lemma Nibbles(n: nat)
    ensures n / 4096 * 4096 + n / 256 % 16 * 256 + n / 16 % 16 * 16 + n % 16 == n
  {
    var a, b, c := n / 16, n / 256, n / 4096;
    assert n == 16 * a + n % 16;
    assert a == 16 * b + a % 16;
    assert b == 16 * c + b % 16;
  }

  lemma HexNext(s: string, c: char)
    requires IsHex(c) && forall d | d in s :: IsHex(d)
    ensures forall d | d in s + [c] :: IsHex(d)
    ensures Hex(s + [c]) == Hex(s) * 16 + HexDigit(c)
  {
    assert (s + [c])[..|s|] == s;
  }

  lemma HexOfFour(a: char, b: char, c: char, d: char)
    requires IsHex(a) && IsHex(b) && IsHex(c) && IsHex(d)
    ensures Hex([a, b, c, d]) == HexDigit(a) * 4096 + HexDigit(b) * 256 + HexDigit(c) * 16 + HexDigit(d)
  {
    HexNext("", a);
    HexNext([a], b);
    HexNext([a, b], c);
    HexNext([a, b, c], d);
    assert "" + [a] == [a] && [a] + [b] == [a, b] && [a, b] + [c] == [a, b, c] && [a, b, c] + [d] == [a, b, c, d];
  }

  function PrintGroups(groups: seq<nat>): (parts: seq<string>)
    requires Small(groups)
    ensures AllGroups(parts) && |parts| == |groups|
  {
    seq(|groups|, i requires 0 <= i < |groups| => PrintGroup(groups[i]))
  }

  lemma PrintedGroups(groups: seq<nat>)
    requires Small(groups)
    ensures Values(PrintGroups(groups)) == groups
  {
    forall i | 0 <= i < |groups| ensures Values(PrintGroups(groups))[i] == groups[i] {
      PrintedGroup(groups[i]);
    }
  }

  function PrintQuad(hi: nat, lo: nat): (parts: seq<string>)
    requires hi < 0x10000 && lo < 0x10000
  {
    [PrintOctet(hi / 256), PrintOctet(hi % 256), PrintOctet(lo / 256), PrintOctet(lo % 256)]
  }

  lemma PrintedQuad(hi: nat, lo: nat)
    requires hi < 0x10000 && lo < 0x10000
    ensures AllOctets(PrintQuad(hi, lo)) && Pack(Octets(PrintQuad(hi, lo))) == [hi, lo]
  {
    PrintedOctet(hi / 256);
    PrintedOctet(hi % 256);
    PrintedOctet(lo / 256);
    PrintedOctet(lo % 256);
    var parts := PrintQuad(hi, lo);
    assert forall p | p in parts :: p == parts[0] || p == parts[1] || p == parts[2] || p == parts[3];
    var o := Octets(parts);
    assert o[0] == hi / 256 && o[1] == hi % 256 && o[2] == lo / 256 && o[3] == lo % 256;
  }

  // The groups printed with "::" for those from i to j (none when i == j), and optionally with the
  // last two as a dotted quad.
  function Print(groups: seq<nat>, i: nat, j: nat, dotted: bool): Rendering
    requires IsAddress(groups) && i <= j <= (if dotted then 6 else 8) && (i == j ==> i == 0)
  {
    var end := if dotted then 6 else 8;
    Rendering(i < j, PrintGroups(groups[..i]), PrintGroups(groups[j..end]),
              if dotted then Some(PrintQuad(groups[6], groups[7])) else None, false, false)
  }

  lemma CutAddress(groups: seq<nat>, i: nat, j: nat, end: nat)
    requires i <= j <= end <= |groups| && forall k | i <= k < j :: groups[k] == 0
    ensures groups[..i] + Zeros(j - i) + groups[j..end] + groups[end..] == groups
  {
    assert groups[i..j] == Zeros(j - i);
    assert groups[..i] + groups[i..j] == groups[..j];
    assert groups[..j] + groups[j..end] == groups[..end];
    assert groups[..end] + groups[end..] == groups;
  }

  lemma PrintIsLegal(groups: seq<nat>, i: nat, j: nat, dotted: bool)
    requires IsAddress(groups) && i <= j <= (if dotted then 6 else 8) && (i == j ==> i == 0)
    ensures Legal(Print(groups, i, j, dotted)) && 8 - Written(Print(groups, i, j, dotted)) == j - i
  {
    PrintedQuad(groups[6], groups[7]);
  }

  lemma PrintMeaning(groups: seq<nat>, i: nat, j: nat, dotted: bool)
    requires IsAddress(groups) && i <= j <= (if dotted then 6 else 8) && (i == j ==> i == 0)
    requires forall k | i <= k < j :: groups[k] == 0
    requires Legal(Print(groups, i, j, dotted)) && 8 - Written(Print(groups, i, j, dotted)) == j - i
    ensures Meaning(Print(groups, i, j, dotted)) == groups
  {
    var r, end := Print(groups, i, j, dotted), if dotted then 6 else 8;
    PrintedGroups(groups[..i]);
    PrintedGroups(groups[j..end]);
    CutAddress(groups, i, j, end);
    TailMeaning(groups, i, j, dotted);
    MeaningParts(r);
  }

  lemma MeaningParts(r: Rendering)
    requires Wellformed(r)
    ensures Meaning(r) == Values(r.head) + Zeros(8 - Written(r)) + Values(r.rest)
                          + if r.quad.Some? then Pack(Octets(r.quad.value)) else []
  {
  }

  lemma TailMeaning(groups: seq<nat>, i: nat, j: nat, dotted: bool)
    requires IsAddress(groups) && i <= j <= (if dotted then 6 else 8) && (i == j ==> i == 0)
    requires Wellformed(Print(groups, i, j, dotted))
    ensures var r, end := Print(groups, i, j, dotted), if dotted then 6 else 8;
            groups[end..] == if r.quad.Some? then Pack(Octets(r.quad.value)) else []
  {
    if dotted {
      PrintedQuad(groups[6], groups[7]);
      assert groups[6..] == [groups[6], groups[7]];
    }
  }

  // Any address can be written in full or with "::" for any run of zero groups, with or without a
  // dotted tail; each is legal and parses back to the address.
  lemma ParsePrint(groups: seq<nat>, i: nat, j: nat, dotted: bool)
    requires IsAddress(groups) && i <= j <= (if dotted then 6 else 8) && (i == j ==> i == 0)
    requires forall k | i <= k < j :: groups[k] == 0
    ensures Legal(Print(groups, i, j, dotted))
    ensures ParseBare(TextOf(Print(groups, i, j, dotted))) == Some(groups)
  {
    PrintIsLegal(groups, i, j, dotted);
    PrintMeaning(groups, i, j, dotted);
    ParseRendering(Print(groups, i, j, dotted));
  }

  // Parsing is onto the 8-tuples of 16-bit groups, and into them.
  lemma ParsedIffAddress(groups: seq<nat>)
    ensures (exists text :: ParseBare(text) == Some(groups)) <==> IsAddress(groups)
  {
    if text :| ParseBare(text) == Some(groups) {
      var r := AcceptedIsRendering(text);
      ParseRendering(r);
      MeaningIsAddress(r);
    }
    if IsAddress(groups) {
      ParsePrint(groups, 0, 0, false);
    }
  }
}
