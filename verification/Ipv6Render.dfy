/** The texts of an IPv6 address, and the proof that the parser accepts exactly those. */
module Ipv6Render {
  import opened Text
  import opened Wrappers
  import opened Ipv4Text
  import opened Ipv6Text

  // One way to write an address. The two stray flags are single colons the parser tolerates at the
  // outer ends of an elided address; section 2.2 of RFC 4291 has neither.
  datatype Rendering = Rendering(
    elided: bool, head: seq<string>, rest: seq<string>, quad: Option<seq<string>>,
    strayFirst: bool, strayLast: bool)

  function Written(r: Rendering): nat {
    |r.head| + |r.rest| + if r.quad.Some? then 2 else 0
  }

  predicate Wellformed(r: Rendering) {
    && AllGroups(r.head) && AllGroups(r.rest)
    && (r.quad.Some? ==> |r.quad.value| == 4 && AllOctets(r.quad.value))
    && (if r.elided then Written(r) <= 8 else Written(r) == 8 && r.head == [])
    && (r.strayFirst ==> r.elided && r.head != [])
    && (r.strayLast ==> r.elided && r.rest != [] && r.quad.None?)
  }

  // The renderings of section 2.2 of RFC 4291: "::" stands for at least one group.
  predicate Legal(r: Rendering) {
    Wellformed(r) && !r.strayFirst && !r.strayLast && (r.elided ==> Written(r) < 8)
  }

  function Quad(r: Rendering): string
    requires r.quad.Some?
  {
    Join(r.quad.value, '.')
  }

  function Colon(b: bool): string { if b then ":" else "" }

  // Up to and including the "::".
  function Front(r: Rendering): string {
    Colon(r.strayFirst) + if r.elided then Join(r.head, ':') + "::" else ""
  }

  function TextOf(r: Rendering): string {
    Front(r) + Join(r.rest + (if r.quad.Some? then [Quad(r)] else []), ':') + Colon(r.strayLast)
  }

  function Meaning(r: Rendering): seq<nat>
    requires Wellformed(r)
  {
    Values(r.head) + Zeros(8 - Written(r)) + Values(r.rest)
    + if r.quad.Some? then Pack(Octets(r.quad.value)) else []
  }

  // ---- Colons ----------------------------------------------------------------------------

  // Neither starts nor ends with a colon.
  predicate Clean(s: string) {
    s == "" || (s[0] != ':' && s[|s| - 1] != ':')
  }

  predicate Solid(parts: seq<string>) {
    forall p | p in parts :: p != "" && Free(p, ':')
  }

  lemma GroupsAreSolid(parts: seq<string>)
    requires AllGroups(parts)
    ensures Solid(parts) && AllFree(parts, ':') && AllFree(parts, '.')
  {
    forall p | p in parts ensures p != "" && Free(p, ':') && Free(p, '.') {
      assert IsGroupText(p);
    }
  }

  lemma {:induction false} JoinShape(parts: seq<string>)
    requires Solid(parts)
    ensures var s := Join(parts, ':'); NoDouble(s) && Clean(s) && (s == "" <==> parts == [])
  {
    if parts != [] {
      var p := parts[0];
      assert p in parts;
      assert forall i | 0 <= i < |p| :: p[i] in p;
      if |parts| > 1 {
        JoinShape(parts[1..]);
        var t := Join(parts[1..], ':');
        var s := p + [':'] + t;
        assert forall i | |p| < i < |s| :: s[i] == t[i - |p| - 1];
      }
    }
  }

  lemma {:induction false} FirstDoubleAt(h: string, t: string)
    requires NoDouble(h) && (h == "" || h[|h| - 1] != ':')
    requires NoDouble(t) && (t == "" || t[0] != ':')
    ensures var s := h + "::" + t; FirstDouble(s) == |h| && NoDouble(s[|h| + 1..])
  {
    var s := h + "::" + t;
    if h == "" {
      assert s[1..] == ":" + t;
    } else {
      assert s[1..] == h[1..] + "::" + t;
      assert forall i | 0 <= i < |h[1..]| :: h[1..][i] == h[i + 1];
      FirstDoubleAt(h[1..], t);
      assert s[|h| + 1..] == s[1..][|h|..];
      assert !(s[0] == ':' && s[1] == ':') by {
        assert s[0] == h[0] && (|h| > 1 ==> s[1] == h[1]);
      }
    }
  }

  lemma {:induction false} NonEmptyAppend(a: seq<string>, b: seq<string>)
    ensures NonEmpty(a + b) == NonEmpty(a) + NonEmpty(b)
    decreases |a|
  {
    if a == [] {
      assert a + b == b;
    } else {
      assert (a + b)[1..] == a[1..] + b;
      NonEmptyAppend(a[1..], b);
    }
  }

  lemma {:induction false} NonEmptySolid(parts: seq<string>)
    requires forall p | p in parts :: p != ""
    ensures NonEmpty(parts) == parts
    decreases |parts|
  {
    if parts != [] {
      assert parts[0] in parts;
      assert forall p | p in parts[1..] :: p in parts;
      NonEmptySolid(parts[1..]);
    }
  }

  // The pieces of joined groups, stray outer colons or not.
  lemma PiecesOfJoin(parts: seq<string>, first: bool, last: bool)
    requires Solid(parts)
    ensures NonEmpty(Split(Colon(first) + Join(parts, ':') + Colon(last), ':')) == parts
  {
    var s := Join(parts, ':');
    assert NonEmpty(Split(s, ':')) == parts by {
      if parts == [] {
        assert Split("", ':') == [""];
      } else {
        SplitJoin(parts, ':');
        NonEmptySolid(parts);
      }
    }
    assert NonEmpty([""]) == [];
    assert Split("", ':') == [""];
    var t := s + Colon(last);
    if last {
      SplitAppend(s, ':', "");
      assert s + [':'] + "" == t;
      NonEmptyAppend(Split(s, ':'), [""]);
    } else {
      assert t == s;
    }
    assert Colon(first) + s + Colon(last) == Colon(first) + t;
    if first {
      SplitAppend("", ':', t);
      assert "" + [':'] + t == ":" + t;
      NonEmptyAppend([""], Split(t, ':'));
    } else {
      assert Colon(first) + t == t;
    }
  }

  // ---- Every rendering parses to what it means --------------------------------------------

  function LeftHalf(r: Rendering): string { Colon(r.strayFirst) + Join(r.head, ':') }

  function RightHalf(r: Rendering): string { Join(r.rest, ':') + Colon(r.strayLast) }

  lemma Halves(r: Rendering)
    requires Wellformed(r) && r.elided && r.quad.None?
    ensures TextOf(r) == LeftHalf(r) + "::" + RightHalf(r)
    ensures FirstDouble(TextOf(r)) == |LeftHalf(r)| && NoDouble(TextOf(r)[|LeftHalf(r)| + 1..])
  {
    GroupsAreSolid(r.head);
    GroupsAreSolid(r.rest);
    JoinShape(r.head);
    JoinShape(r.rest);
    assert r.rest + [] == r.rest;
    assert TextOf(r) == LeftHalf(r) + "::" + RightHalf(r);
    FirstDoubleAt(LeftHalf(r), RightHalf(r));
  }

  lemma ParseElided(r: Rendering)
    requires Wellformed(r) && r.elided && r.quad.None?
    ensures ParseGroups(TextOf(r)) == Expand(r.head, r.rest)
  {
    var s, n := TextOf(r), |LeftHalf(r)|;
    Halves(r);
    assert s[..n] == LeftHalf(r) && s[n + 2..] == RightHalf(r);
    PiecesOfHalves(r);
  }

  lemma PiecesOfHalves(r: Rendering)
    requires Wellformed(r) && r.elided && r.quad.None?
    ensures NonEmpty(Split(LeftHalf(r), ':')) == r.head && NonEmpty(Split(RightHalf(r), ':')) == r.rest
  {
    GroupsAreSolid(r.head);
    GroupsAreSolid(r.rest);
    PiecesOfJoin(r.head, r.strayFirst, false);
    PiecesOfJoin(r.rest, false, r.strayLast);
    assert LeftHalf(r) + "" == LeftHalf(r) && "" + Join(r.rest, ':') + Colon(r.strayLast) == RightHalf(r);
  }

  lemma ParseFull(parts: seq<string>)
    requires AllGroups(parts) && |parts| == 8
    ensures ParseGroups(Join(parts, ':')) == Some(Values(parts))
  {
    GroupsAreSolid(parts);
    JoinShape(parts);
    SplitJoin(parts, ':');
  }

  lemma ParsePlain(r: Rendering)
    requires Wellformed(r) && r.quad.None?
    ensures ParseGroups(TextOf(r)) == Some(Meaning(r))
  {
    var zeros := Zeros(8 - Written(r));
    assert Meaning(r) == Values(r.head) + zeros + Values(r.rest);
    if r.elided {
      ParseElided(r);
    } else {
      ParseFull(r.rest);
      assert r.rest + [] == r.rest;
      assert TextOf(r) == Join(r.rest, ':');
      assert zeros == [] && Values(r.head) == [];
      assert [] + [] + Values(r.rest) == Values(r.rest);
    }
  }

  // Everything before the dotted quad.
  function Lead(r: Rendering): string {
    Front(r) + if r.rest == [] then "" else Join(r.rest, ':') + ":"
  }

  // The same address with the quad written as two zero groups.
  function Blanked(r: Rendering): Rendering {
    r.(rest := r.rest + ["0", "0"], quad := None)
  }

  lemma ZeroGroup()
    ensures IsGroupText("0") && Hex("0") == 0
  {
    assert "0"[..0] == "";
  }

  lemma BlankedWellformed(r: Rendering)
    requires Wellformed(r) && r.quad.Some?
    ensures Wellformed(Blanked(r))
    ensures Meaning(Blanked(r)) == Values(r.head) + Zeros(8 - Written(r)) + Values(r.rest) + [0, 0]
  {
    ZeroGroup();
    assert Values(r.rest + ["0", "0"]) == Values(r.rest) + [0, 0];
  }

  lemma JoinLast(parts: seq<string>, more: seq<string>)
    requires more != []
    ensures Join(parts + more, ':') == (if parts == [] then "" else Join(parts, ':') + ":") + Join(more, ':')
  {
    if parts == [] {
      assert parts + more == more;
    } else {
      JoinAppend(parts, more, ':');
    }
  }

  lemma JoinZeroPair(parts: seq<string>)
    ensures Join(parts + ["0", "0"], ':') == (if parts == [] then "" else Join(parts, ':') + ":") + "0:0"
  {
    var pair := ["0", "0"];
    JoinLast(parts, pair);
    assert pair[1..] == ["0"];
    assert Join(pair, ':') == "0" + [':'] + Join(pair[1..], ':');
  }

  lemma TextAroundQuad(r: Rendering)
    requires r.quad.Some? && !r.strayLast
    ensures TextOf(r) == Lead(r) + Quad(r)
  {
    JoinLast(r.rest, [Quad(r)]);
  }

  lemma TextAroundBlank(r: Rendering)
    requires r.quad.Some? && !r.strayLast
    ensures TextOf(Blanked(r)) == Lead(r) + "0:0"
  {
    JoinZeroPair(r.rest);
    assert r.rest + ["0", "0"] + [] == r.rest + ["0", "0"];
  }

  lemma {:induction false} LastIndexAppend(a: string, c: char, b: string)
    requires Free(b, c)
    ensures LastIndex(a + [c] + b, c) == |a|
    decreases |b|
  {
    var s := a + [c] + b;
    assert s[|a|] == c;
    if b != "" {
      assert s[..|s| - 1] == a + [c] + b[..|b| - 1];
      assert b[|b| - 1] in b;
      LastIndexAppend(a, c, b[..|b| - 1]);
    }
  }

  lemma LeadEndsWithColon(r: Rendering)
    requires Wellformed(r) && r.quad.Some?
    ensures Lead(r) != "" && Lead(r)[|Lead(r)| - 1] == ':'
  {
  }

  lemma QuadText(q: seq<string>)
    requires |q| == 4 && AllOctets(q)
    ensures Free(Join(q, '.'), ':') && '.' in Join(q, '.')
    ensures Ipv4Of(Join(q, '.')) == Some(Octets(q))
  {
    QuadParts(q);
    JoinFree(q, '.', ':');
    SplitJoin(q, '.');
    assert Join(q, '.') == q[0] + ['.'] + Join(q[1..], '.');
  }

  // What the parser does with text that ends in a dotted quad.
  lemma ParseAroundQuad(lead: string, quad: string)
    requires lead != "" && lead[|lead| - 1] == ':' && Free(quad, ':') && '.' in quad
    ensures ParseBare(lead + quad)
         == var octets, groups := Ipv4Of(quad), ParseGroups(lead + "0:0");
            if octets.None? || groups.None? then None else ApplyTail(groups.value, Pack(octets.value))
  {
    var n := |lead| - 1;
    var text := lead + quad;
    assert lead == lead[..n] + [':'];
    assert text == lead[..n] + [':'] + quad;
    LastIndexAppend(lead[..n], ':', quad);
    assert text[n] == ':';
    assert text[n + 1..] == quad && text[..n + 1] == lead;
  }

  lemma ApplyTailToBlanked(r: Rendering)
    requires Wellformed(r) && r.quad.Some?
    ensures Wellformed(Blanked(r))
    ensures ApplyTail(Meaning(Blanked(r)), Pack(Octets(r.quad.value))) == Some(Meaning(r))
  {
    BlankedWellformed(r);
    var tail := Pack(Octets(r.quad.value));
    var front := Values(r.head) + Zeros(8 - Written(r)) + Values(r.rest);
    assert |front| == 6;
    assert (front + [0, 0])[6 := tail[0]][7 := tail[1]] == front + tail;
  }

  lemma ParseQuad(r: Rendering)
    requires Wellformed(r) && r.quad.Some?
    ensures ParseBare(TextOf(r)) == Some(Meaning(r))
  {
    TextAroundQuad(r);
    TextAroundBlank(r);
    LeadEndsWithColon(r);
    QuadText(r.quad.value);
    ParseAroundQuad(Lead(r), Quad(r));
    ApplyTailToBlanked(r);
    ParsePlain(Blanked(r));
  }

  lemma PlainTextHasNoDot(r: Rendering)
    requires Wellformed(r) && r.quad.None?
    ensures Free(TextOf(r), '.') && ':' in TextOf(r)
  {
    GroupsAreSolid(r.head);
    GroupsAreSolid(r.rest);
    JoinFree(r.head, ':', '.');
    JoinFree(r.rest, ':', '.');
    assert r.rest + [] == r.rest;
    if !r.elided {
      assert Join(r.rest, ':') == r.rest[0] + [':'] + Join(r.rest[1..], ':');
    }
  }

  lemma ParseRendering(r: Rendering)
    requires Wellformed(r)
    ensures ParseBare(TextOf(r)) == Some(Meaning(r))
  {
    if r.quad.Some? {
      ParseQuad(r);
    } else {
      PlainTextHasNoDot(r);
      ParsePlain(r);
    }
  }

  // All renderings of one address parse alike, and renderings of different addresses do not.
  lemma RenderingsAgree(r1: Rendering, r2: Rendering)
    requires Wellformed(r1) && Wellformed(r2)
    ensures ParseBare(TextOf(r1)) == ParseBare(TextOf(r2)) <==> Meaning(r1) == Meaning(r2)
    ensures TextOf(r1) == TextOf(r2) ==> Meaning(r1) == Meaning(r2)
  {
    ParseRendering(r1);
    ParseRendering(r2);
  }
}
