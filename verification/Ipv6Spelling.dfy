/** Addresses digit by digit: what every spelling of an address parses to, in any letter case. */
module Ipv6Spelling {
  import opened Text
  import opened Wrappers
  import opened Ipv4Text
  import opened Ipv6Text
  import opened Ipv6Render
  import opened Ipv6Exact
  import opened IpClassifier

  // ---- Digits ----------------------------------------------------------------------------

  predicate NamesHex(c: char, k: nat) {
    k < 16 && (c == "0123456789abcdef"[k] || c == "0123456789ABCDEF"[k])
  }

  predicate NamesDecimal(c: char, k: nat) {
    k < 10 && c == "0123456789"[k]
  }

  lemma HexNamed(c: char, k: nat)
    ensures NamesHex(c, k) <==> IsHex(c) && HexDigit(c) == k
  {
    if k < 16 {
      assert "0123456789abcdef"[k] == if k < 10 then '0' + k as char else 'a' + (k - 10) as char;
      assert "0123456789ABCDEF"[k] == if k < 10 then '0' + k as char else 'A' + (k - 10) as char;
    }
  }

  function DigitValue(c: char): nat
    requires IsDigit(c)
  {
    c as int - '0' as int
  }

  lemma DecimalNamed(c: char, k: nat)
    ensures NamesDecimal(c, k) <==> IsDigit(c) && c as int - '0' as int == k
  {
    if k < 10 {
      assert "0123456789"[k] == '0' + k as char;
    }
  }

  // The number that digits name in a base, the last digit counting units.
  function Base(b: nat, ks: seq<nat>): nat {
    if ks == [] then 0 else Base(b, ks[..|ks| - 1]) * b + ks[|ks| - 1]
  }

  predicate SpellsHex(s: string, ks: seq<nat>) {
    |s| == |ks| && forall i | 0 <= i < |s| :: NamesHex(s[i], ks[i])
  }

  predicate SpellsDecimal(s: string, ks: seq<nat>) {
    |s| == |ks| && forall i | 0 <= i < |s| :: NamesDecimal(s[i], ks[i])
  }

  // One to four hexadecimal digits, each in either case, that name n.
  ghost predicate SpellsGroup(s: string, n: nat) {
    exists ks :: 1 <= |ks| <= 4 && SpellsHex(s, ks) && Base(16, ks) == n
  }

  // One to three decimal digits that name n, which is at most 255.
  ghost predicate SpellsOctet(s: string, n: nat) {
    n <= 255 && exists ks :: 1 <= |ks| <= 3 && SpellsDecimal(s, ks) && Base(10, ks) == n
  }

  lemma {:induction false} HexIsBase(s: string, ks: seq<nat>)
    requires SpellsHex(s, ks)
    ensures (forall c | c in s :: IsHex(c)) && Hex(s) == Base(16, ks)
    decreases |s|
  {
    if s != "" {
      var n := |s| - 1;
      HexNamed(s[n], ks[n]);
      HexIsBase(s[..n], ks[..n]);
      assert forall c | c in s :: c in s[..n] || c == s[n];
    }
  }

  lemma {:induction false} DecimalIsBase(s: string, ks: seq<nat>)
    requires SpellsDecimal(s, ks)
    ensures (forall c | c in s :: IsDigit(c)) && Decimal(s) == Base(10, ks)
    decreases |s|
  {
    if s != "" {
      var n := |s| - 1;
      DecimalNamed(s[n], ks[n]);
      DecimalIsBase(s[..n], ks[..n]);
      assert forall c | c in s :: c in s[..n] || c == s[n];
    }
  }

  // A group is read exactly from its spellings.
  lemma GroupTextIff(s: string, n: nat)
    ensures IsGroupText(s) && Hex(s) == n <==> SpellsGroup(s, n)
  {
    if IsGroupText(s) {
      var ks: seq<nat> := seq(|s|, i requires 0 <= i < |s| => assert s[i] in s; HexDigit(s[i]));
      forall i | 0 <= i < |s| ensures NamesHex(s[i], ks[i]) {
        assert s[i] in s;
        HexNamed(s[i], ks[i]);
      }
      assert SpellsHex(s, ks);
      HexIsBase(s, ks);
    }
    if SpellsGroup(s, n) {
      var ks :| 1 <= |ks| <= 4 && SpellsHex(s, ks) && Base(16, ks) == n;
      HexIsBase(s, ks);
    }
  }

  // So is an octet.
  lemma OctetTextIff(s: string, n: nat)
    ensures OctetOf(s) == Some(n) <==> SpellsOctet(s, n)
  {
    if IsOctetText(s) {
      var ks: seq<nat> := seq(|s|, i requires 0 <= i < |s| => assert s[i] in s; DigitValue(s[i]));
      forall i | 0 <= i < |s| ensures NamesDecimal(s[i], ks[i]) {
        assert s[i] in s;
        DecimalNamed(s[i], ks[i]);
      }
      assert SpellsDecimal(s, ks);
      DecimalIsBase(s, ks);
    }
    if SpellsOctet(s, n) {
      var ks :| 1 <= |ks| <= 3 && SpellsDecimal(s, ks) && Base(10, ks) == n;
      DecimalIsBase(s, ks);
    }
  }

  // ---- Addresses -------------------------------------------------------------------------

  ghost predicate SpellGroups(parts: seq<string>, ns: seq<nat>) {
    |parts| == |ns| && forall i | 0 <= i < |ns| :: SpellsGroup(parts[i], ns[i])
  }

  ghost predicate SpellOctets(parts: seq<string>, ns: seq<nat>) {
    |parts| == |ns| == 4 && forall i | 0 <= i < 4 :: SpellsOctet(parts[i], ns[i])
  }

  lemma SpelledGroups(parts: seq<string>, ns: seq<nat>)
    requires SpellGroups(parts, ns)
    ensures AllGroups(parts) && Values(parts) == ns
  {
    forall i | 0 <= i < |parts| ensures IsGroupText(parts[i]) && Hex(parts[i]) == ns[i] {
      GroupTextIff(parts[i], ns[i]);
    }
  }

  lemma SpelledOctets(parts: seq<string>, ns: seq<nat>)
    requires SpellOctets(parts, ns)
    ensures IsQuad(parts, ns) && IsOctets(ns)
  {
    forall i | 0 <= i < 4 ensures OctetOf(parts[i]) == Some(ns[i]) {
      OctetTextIff(parts[i], ns[i]);
    }
  }

  // A dotted quad parses to the octets it spells.
  lemma ParseDotted(quad: seq<string>, o: seq<nat>)
    requires SpellOctets(quad, o)
    ensures Ipv4Of(quad[0] + "." + quad[1] + "." + quad[2] + "." + quad[3]) == Some(o)
  {
    SpelledOctets(quad, o);
    Ipv4TextIffQuad(Join(quad, '.'), o);
    JoinFour(quad);
  }

  lemma JoinFour(parts: seq<string>)
    requires |parts| == 4
    ensures Join(parts, '.') == parts[0] + "." + parts[1] + "." + parts[2] + "." + parts[3]
  {
    assert parts[1..][1..] == parts[2..] && parts[2..][1..] == parts[3..];
    assert Join(parts[3..], '.') == parts[3];
    assert Join(parts[2..], '.') == parts[2] + "." + parts[3];
  }

  lemma ParseWhole(r: Rendering)
    requires Wellformed(r)
    ensures Ipv6Of(TextOf(r)) == Some(Meaning(r))
  {
    ParseRendering(r);
    ParseBareText(TextOf(r));
  }

  lemma ParseBareText(text: string)
    requires ParseBare(text).Some?
    ensures Ipv6Of(text) == ParseBare(text)
  {
    WrappingIsIgnored(text, false, None, "", "");
    BareWrap(text);
  }

  lemma BareWrap(text: string)
    ensures "" + Wrap(text, false, None) + "" == text
  {
  }

  predicate AllZero(zeros: seq<nat>) {
    forall i | 0 <= i < |zeros| :: zeros[i] == 0
  }

  lemma MeaningSpelled(r: Rendering, hs: seq<nat>, rs: seq<nat>, zeros: seq<nat>)
    requires Wellformed(r) && SpellGroups(r.head, hs) && SpellGroups(r.rest, rs)
    requires AllZero(zeros) && |zeros| == 8 - Written(r)
    ensures Meaning(r) == hs + zeros + rs + if r.quad.Some? then Pack(Octets(r.quad.value)) else []
  {
    SpelledGroups(r.head, hs);
    SpelledGroups(r.rest, rs);
    assert Zeros(8 - Written(r)) == zeros;
  }

  // The text of an address with a "::", and of one without.
  lemma ElidedTextIs(head: seq<string>, rest: seq<string>, quad: Option<seq<string>>)
    ensures var more := if quad.Some? then [Join(quad.value, '.')] else [];
            TextOf(Rendering(true, head, rest, quad, false, false)) == Join(head, ':') + "::" + Join(rest + more, ':')
  {
  }

  lemma FullTextIs(rest: seq<string>, quad: Option<seq<string>>)
    ensures var more := if quad.Some? then [Join(quad.value, '.')] else [];
            TextOf(Rendering(false, [], rest, quad, false, false)) == Join(rest + more, ':')
  {
  }

  // Eight groups.
  lemma ParseEight(parts: seq<string>, ns: seq<nat>)
    requires SpellGroups(parts, ns) && |ns| == 8
    ensures Ipv6Of(Join(parts, ':')) == Some(ns)
  {
    SpelledGroups(parts, ns);
    var r := Rendering(false, [], parts, None, false, false);
    ParseWhole(r);
    MeaningSpelled(r, [], ns, []);
    FullTextIs(parts, None);
    assert parts + [] == parts;
    assert [] + [] + ns + [] == ns;
  }

  // Groups around a "::", which stands for as many zeros as are missing.
  lemma ParseShort(head: seq<string>, hs: seq<nat>, rest: seq<string>, rs: seq<nat>, zeros: seq<nat>)
    requires SpellGroups(head, hs) && SpellGroups(rest, rs) && AllZero(zeros) && |hs| + |zeros| + |rs| == 8
    ensures Ipv6Of(Join(head, ':') + "::" + Join(rest, ':')) == Some(hs + zeros + rs)
  {
    SpelledGroups(head, hs);
    SpelledGroups(rest, rs);
    var r := Rendering(true, head, rest, None, false, false);
    ParseWhole(r);
    MeaningSpelled(r, hs, rs, zeros);
    ElidedTextIs(head, rest, None);
    assert rest + [] == rest;
    assert hs + zeros + rs + [] == hs + zeros + rs;
  }

  // Groups around a "::", the last two of them written as four octets.
  lemma ParseShortDotted(
      head: seq<string>, hs: seq<nat>, rest: seq<string>, rs: seq<nat>, zeros: seq<nat>, quad: seq<string>, o: seq<nat>)
    requires SpellGroups(head, hs) && SpellGroups(rest, rs) && SpellOctets(quad, o)
    requires AllZero(zeros) && |hs| + |zeros| + |rs| == 6
    ensures Ipv6Of(Join(head, ':') + "::" + Join(rest + [Join(quad, '.')], ':'))
         == Some(hs + zeros + rs + [o[0] * 256 + o[1], o[2] * 256 + o[3]])
  {
    SpelledGroups(head, hs);
    SpelledGroups(rest, rs);
    SpelledOctets(quad, o);
    var r := Rendering(true, head, rest, Some(quad), false, false);
    ParseWhole(r);
    MeaningSpelled(r, hs, rs, zeros);
    ElidedTextIs(head, rest, Some(quad));
  }

  // Six groups, then four octets.
  lemma ParseSixDotted(rest: seq<string>, rs: seq<nat>, quad: seq<string>, o: seq<nat>)
    requires SpellGroups(rest, rs) && |rs| == 6 && SpellOctets(quad, o)
    ensures Ipv6Of(Join(rest + [Join(quad, '.')], ':')) == Some(rs + [o[0] * 256 + o[1], o[2] * 256 + o[3]])
  {
    SpelledGroups(rest, rs);
    SpelledOctets(quad, o);
    var r := Rendering(false, [], rest, Some(quad), false, false);
    ParseWhole(r);
    MeaningSpelled(r, [], rs, []);
    FullTextIs(rest, Some(quad));
    assert [] + [] + rs == rs;
  }

  // ---- Verdicts --------------------------------------------------------------------------

  // "::ffff:" in either case before a dotted quad makes no difference to the verdict.
  lemma MappedTextVerdict(mark: string, quad: seq<string>, o: seq<nat>)
    requires SpellsGroup(mark, 0xffff) && SpellOctets(quad, o)
    ensures VerdictOf("::" + mark + ":" + Join(quad, '.')) == VerdictOf(Join(quad, '.')) == ClassifyIpv4(o)
  {
    SpelledOctets(quad, o);
    QuadVerdict(quad, o);
    MappedGroups(mark, quad, o);
    var text := "::" + mark + ":" + Join(quad, '.');
    Ipv6Groups(text);
    QuadHasNoColon(text);
    MappedVerdict(Ipv6Of(text).value, o);
  }

  lemma MappedGroups(mark: string, quad: seq<string>, o: seq<nat>)
    requires SpellsGroup(mark, 0xffff) && SpellOctets(quad, o) && IsOctets(o)
    ensures Ipv6Of("::" + mark + ":" + Join(quad, '.')) == Some([0, 0, 0, 0, 0, 0xffff] + Pack(o))
  {
    MappedText(mark, quad);
    DottedAfterOne([mark], [0xffff], quad, o);
    assert [0, 0, 0, 0, 0] + [0xffff] == [0, 0, 0, 0, 0, 0xffff];
  }

  lemma OneSpelled(rest: seq<string>, rs: seq<nat>)
    requires |rest| == |rs| == 1 && SpellsGroup(rest[0], rs[0])
    ensures SpellGroups(rest, rs) && SpellGroups([], [])
  {
  }

  lemma FiveZeros(zeros: seq<nat>)
    requires zeros == [0, 0, 0, 0, 0]
    ensures AllZero(zeros)
  {
  }

  lemma DottedAfterOne(rest: seq<string>, rs: seq<nat>, quad: seq<string>, o: seq<nat>)
    requires |rest| == |rs| == 1 && SpellsGroup(rest[0], rs[0]) && SpellOctets(quad, o) && IsOctets(o)
    ensures Ipv6Of(Join([], ':') + "::" + Join(rest + [Join(quad, '.')], ':')) == Some([0, 0, 0, 0, 0] + rs + Pack(o))
  {
    var zeros: seq<nat> := [0, 0, 0, 0, 0];
    OneSpelled(rest, rs);
    FiveZeros(zeros);
    ParseShortDotted([], [], rest, rs, zeros, quad, o);
    assert [] + zeros + rs == zeros + rs;
  }

  lemma MappedText(mark: string, quad: seq<string>)
    ensures "::" + mark + ":" + Join(quad, '.') == Join([], ':') + "::" + Join([mark] + [Join(quad, '.')], ':')
  {
    assert ([mark] + [Join(quad, '.')])[1..] == [Join(quad, '.')];
  }

  // What is neither a dotted quad nor an IPv6 address is refused.
  lemma UnreadableIsRefused(text: string)
    requires Ipv4Of(text).None? && Ipv6Of(text).None?
    ensures VerdictOf(text) == Verdict(true, Unparseable)
  {
  }
}
