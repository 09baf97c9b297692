/** String primitives shared by the parsers: split, join, search and trim. */
module Text {

  predicate Free(s: string, c: char) {
    c !in s
  }

  predicate AllFree(parts: seq<string>, c: char) {
    forall p | p in parts :: Free(p, c)
  }

  // Pieces of s between occurrences of sep; never empty.
  function Split(s: string, sep: char): (parts: seq<string>)
    ensures |parts| >= 1
  {
    if s == [] then [""]
    else
      var rest := Split(s[1..], sep);
      if s[0] == sep then [""] + rest else [[s[0]] + rest[0]] + rest[1..]
  }

  function Join(parts: seq<string>, sep: char): string {
    if |parts| == 0 then ""
    else if |parts| == 1 then parts[0]
    else parts[0] + [sep] + Join(parts[1..], sep)
  }

  lemma {:induction false} SplitWithoutSeparator(s: string, sep: char)
    requires Free(s, sep)
    ensures Split(s, sep) == [s]
  {
    if s != [] {
      SplitWithoutSeparator(s[1..], sep);
      assert [s[0]] + s[1..] == s;
    }
  }

  lemma {:induction false} SplitAppend(a: string, sep: char, b: string)
    ensures Split(a + [sep] + b, sep) == Split(a, sep) + Split(b, sep)
  {
    var s := a + [sep] + b;
    if a == [] {
      assert s[1..] == b;
    } else {
      assert s[1..] == a[1..] + [sep] + b;
      SplitAppend(a[1..], sep, b);
    }
  }

  lemma {:induction false} SplitJoin(parts: seq<string>, sep: char)
    requires |parts| >= 1 && AllFree(parts, sep)
    ensures Split(Join(parts, sep), sep) == parts
  {
    SplitWithoutSeparator(parts[0], sep);
    if |parts| > 1 {
      SplitAppend(parts[0], sep, Join(parts[1..], sep));
      SplitJoin(parts[1..], sep);
    }
  }

  lemma {:induction false} JoinSplit(s: string, sep: char)
    ensures Join(Split(s, sep), sep) == s
    ensures AllFree(Split(s, sep), sep)
  {
    if s != [] {
      JoinSplit(s[1..], sep);
      var rest := Split(s[1..], sep);
      if s[0] == sep {
        assert ([""] + rest)[1..] == rest;
        assert Join([""] + rest, sep) == "" + [sep] + Join(rest, sep);
      } else {
        JoinLonger(s[0], rest, sep);
        assert rest[0] in rest;
      }
    }
  }

  lemma JoinLonger(c: char, parts: seq<string>, sep: char)
    requires parts != []
    ensures Join([[c] + parts[0]] + parts[1..], sep) == [c] + Join(parts, sep)
  {
    var longer := [[c] + parts[0]] + parts[1..];
    assert longer[1..] == parts[1..];
    if |parts| > 1 {
      var tail := Join(parts[1..], sep);
      assert [c] + parts[0] + [sep] + tail == [c] + (parts[0] + [sep] + tail);
    }
  }

  lemma {:induction false} JoinAppend(a: seq<string>, b: seq<string>, sep: char)
    requires |a| >= 1 && |b| >= 1
    ensures Join(a + b, sep) == Join(a, sep) + [sep] + Join(b, sep)
  {
    assert (a + b)[1..] == a[1..] + b;
    if |a| > 1 {
      JoinAppend(a[1..], b, sep);
    } else {
      assert a + b == [a[0]] + b;
      assert a[1..] + b == b;
    }
  }

  // A character other than the separator occurs in the joined text iff it occurs in a part.
  lemma {:induction false} JoinMember(parts: seq<string>, sep: char, c: char)
    requires c != sep
    ensures c in Join(parts, sep) <==> exists i | 0 <= i < |parts| :: c in parts[i]
  {
    if |parts| > 1 {
      JoinMember(parts[1..], sep, c);
      if c in Join(parts[1..], sep) {
        var i :| 0 <= i < |parts[1..]| && c in parts[1..][i];
        assert c in parts[i + 1];
      }
      if i :| 0 <= i < |parts| && c in parts[i] && i > 0 {
        assert c in parts[1..][i - 1];
      }
    }
  }

  lemma {:induction false} JoinFree(parts: seq<string>, sep: char, c: char)
    requires c != sep && AllFree(parts, c)
    ensures Free(Join(parts, sep), c)
  {
    if parts != [] {
      assert Free(parts[0], c);
      JoinFree(parts[1..], sep, c);
    }
  }

  // Position of the first c, or |s| when there is none.
  function FirstIndex(s: string, c: char): (i: nat)
    ensures i <= |s| && Free(s[..i], c)
    ensures i < |s| ==> s[i] == c
    ensures i == |s| <==> Free(s, c)
  {
    if s == [] || s[0] == c then 0
    else
      var i := 1 + FirstIndex(s[1..], c);
      assert s[..i] == [s[0]] + s[1..][..i - 1];
      i
  }

  lemma {:induction false} FirstIndexAppend(a: string, c: char, b: string)
    requires Free(a, c)
    ensures FirstIndex(a + [c] + b, c) == |a|
  {
    if a != [] {
      assert (a + [c] + b)[1..] == a[1..] + [c] + b;
      FirstIndexAppend(a[1..], c, b);
    }
  }

  // The first piece is what stands before the first separator.
  lemma {:induction false} FirstPiece(s: string, sep: char)
    ensures Split(s, sep)[0] == s[..FirstIndex(s, sep)]
  {
    if s != "" && s[0] != sep {
      FirstPiece(s[1..], sep);
      var i := FirstIndex(s[1..], sep);
      assert FirstIndex(s, sep) == i + 1;
      assert s[..i + 1] == [s[0]] + s[1..][..i];
    }
  }

  // White space as removed by the trim of ECMAScript strings.
  predicate IsSpace(c: char) {
    var n := c as int;
    9 <= n <= 13 || n == 32 || n == 0xa0 || n == 0x1680 || 0x2000 <= n <= 0x200a
    || n == 0x2028 || n == 0x2029 || n == 0x202f || n == 0x205f || n == 0x3000 || n == 0xfeff
  }

  predicate Blank(s: string) {
    forall c | c in s :: IsSpace(c)
  }

  predicate Trimmed(s: string) {
    s == "" || (!IsSpace(s[0]) && !IsSpace(s[|s| - 1]))
  }

  function TrimLeft(s: string): string {
    if s != [] && IsSpace(s[0]) then TrimLeft(s[1..]) else s
  }

  function TrimRight(s: string): string {
    if s != [] && IsSpace(s[|s| - 1]) then TrimRight(s[..|s| - 1]) else s
  }

  function Trim(s: string): string {
    TrimRight(TrimLeft(s))
  }

  lemma {:induction false} TrimLeftShape(s: string) returns (pad: string)
    ensures s == pad + TrimLeft(s) && Blank(pad)
    ensures TrimLeft(s) == "" || !IsSpace(TrimLeft(s)[0])
  {
    if s != [] && IsSpace(s[0]) {
      var p := TrimLeftShape(s[1..]);
      pad := [s[0]] + p;
    } else {
      pad := "";
    }
  }

  lemma {:induction false} TrimRightShape(s: string) returns (pad: string)
    ensures s == TrimRight(s) + pad && Blank(pad)
    ensures TrimRight(s) == "" || !IsSpace(TrimRight(s)[|TrimRight(s)| - 1])
  {
    if s != [] && IsSpace(s[|s| - 1]) {
      var p := TrimRightShape(s[..|s| - 1]);
      pad := p + [s[|s| - 1]];
    } else {
      pad := "";
    }
  }

  // Trimming removes white space only, and leaves none at the ends.
  lemma TrimSpec(s: string) returns (left: string, right: string)
    ensures s == left + Trim(s) + right && Blank(left) && Blank(right)
    ensures Trimmed(Trim(s))
  {
    left := TrimLeftShape(s);
    right := TrimRightShape(TrimLeft(s));
  }

  lemma TrimMember(s: string, c: char)
    ensures c in Trim(s) ==> c in s
  {
    var left, right := TrimSpec(s);
  }

  lemma {:induction false} TrimLeftPad(pad: string, s: string)
    requires Blank(pad)
    ensures TrimLeft(pad + s) == TrimLeft(s)
  {
    if pad == [] {
      assert pad + s == s;
    } else {
      assert (pad + s)[1..] == pad[1..] + s;
      TrimLeftPad(pad[1..], s);
    }
  }

  lemma {:induction false} TrimRightPad(s: string, pad: string)
    requires Blank(pad)
    ensures TrimRight(s + pad) == TrimRight(s)
  {
    if pad == [] {
      assert s + pad == s;
    } else {
      assert (s + pad)[..|s + pad| - 1] == s + pad[..|pad| - 1];
      TrimRightPad(s, pad[..|pad| - 1]);
    }
  }

  // Padding a trimmed string with white space and trimming gives it back.
  lemma TrimPadded(left: string, s: string, right: string)
    requires Blank(left) && Blank(right) && Trimmed(s)
    ensures Trim(left + s + right) == s
  {
    assert left + s + right == left + (s + right);
    TrimLeftPad(left, s + right);
    if s == [] {
      assert s + right == right + [];
      TrimLeftPad(right, []);
    } else {
      assert TrimLeft(s + right) == s + right;
      TrimRightPad(s, right);
    }
  }

  lemma TrimTrimmed(s: string)
    requires Trimmed(s)
    ensures Trim(s) == s
  {
    TrimPadded("", s, "");
    assert "" + s + "" == s;
  }

  function LowerChar(c: char): char {
    if 'A' <= c <= 'Z' then ((c as int) + 32) as char else c
  }

  function Lower(s: string): (t: string)
    ensures |t| == |s| && forall i | 0 <= i < |s| :: t[i] == LowerChar(s[i])
  {
    seq(|s|, i requires 0 <= i < |s| => LowerChar(s[i]))
  }

  // The capitals become their small letters, and nothing else changes.
  lemma LowerLetters(s: string, i: nat, k: nat)
    requires i < |s| && k < 26
    ensures |Lower(s)| == |s|
    ensures s[i] == "ABCDEFGHIJKLMNOPQRSTUVWXYZ"[k] ==> Lower(s)[i] == "abcdefghijklmnopqrstuvwxyz"[k]
    ensures s[i] < 'A' || s[i] > 'Z' ==> Lower(s)[i] == s[i]
  {
    if k < 13 {
      assert "ABCDEFGHIJKLM"[k] == "ABCDEFGHIJKLMNOPQRSTUVWXYZ"[k];
      assert "ABCDEFGHIJKLM"[k] == 'A' + k as char;
    } else {
      assert "NOPQRSTUVWXYZ"[k - 13] == 'A' + k as char;
    }
  }

  // The white space that ECMAScript strings are trimmed of, one by one.
  lemma Spaces(c: char)
    ensures IsSpace(c) <==>
              c in "\t\n\r \U{b}\U{c}\U{a0}\U{1680}\U{2028}\U{2029}\U{202f}\U{205f}\U{3000}\U{feff}"
              || '\U{2000}' <= c <= '\U{200a}'
  {
  }
}
