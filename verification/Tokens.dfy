/** Splitting text into tokens, as Go's strings.Fields does for the flow descriptions of
    pkg/dataplane/vpp/sdf_parser.go. Text is any sequence of bytes, read as UTF-8 where Go does. */
module Tokens {
  import opened Bytes

  const BLANK: byte := 32

  /** Length of the white-space character that s starts with, zero if it starts with none: the
      ASCII ones and the UTF-8 forms of the others that unicode.IsSpace accepts. */
  function SpaceLen(s: gostring): (n: nat)
    ensures n <= |s|
  {
    if s == [] then 0
    else if 9 <= s[0] <= 13 || s[0] == BLANK then 1
    else if |s| >= 2 && s[0] == 0xC2 && (s[1] == 0x85 || s[1] == 0xA0) then 2
    else if |s| >= 3 && WideSpace(s[0], s[1], s[2]) then 3
    else 0
  }

  predicate WideSpace(a: byte, b: byte, c: byte) {
    || (a == 0xE1 && b == 0x9A && c == 0x80)
    || (a == 0xE2 && b == 0x80 && (0x80 <= c <= 0x8A || c == 0xA8 || c == 0xA9 || c == 0xAF))
    || (a == 0xE2 && b == 0x81 && c == 0x9F)
    || (a == 0xE3 && b == 0x80 && c == 0x80)
  }

  /** No white space begins in the first n bytes. */
  predicate Solid(s: gostring, n: nat) {
    n <= |s| && forall i :: 0 <= i < n ==> SpaceLen(s[i..]) == 0
  }

  /** A non-empty text without white space. */
  predicate IsToken(s: gostring) {
    s != [] && Solid(s, |s|)
  }

  /** Length of the longest prefix in which no white space begins. */
  function TokenLen(s: gostring): (n: nat)
    ensures Solid(s, n) && (n < |s| ==> SpaceLen(s[n..]) > 0)
  {
    if s == [] || SpaceLen(s) > 0 then
      assert s[0..] == s;
      0
    else
      SolidStep(s, TokenLen(s[1..]));
      assert s[1..][TokenLen(s[1..])..] == s[1 + TokenLen(s[1..])..];
      1 + TokenLen(s[1..])
  }

  lemma SolidStep(s: gostring, n: nat)
    requires s != [] && SpaceLen(s) == 0 && n <= |s[1..]|
    ensures Solid(s[1..], n) <==> Solid(s, 1 + n)
  {
    assert s[0..] == s;
    assert forall i :: 0 <= i <= |s[1..]| ==> s[1..][i..] == s[1 + i..];
    if Solid(s[1..], n) {
      forall i | 0 <= i < 1 + n ensures SpaceLen(s[i..]) == 0 {
        assert i > 0 ==> s[1..][i - 1..] == s[i..];
      }
    }
  }

  function Fields(s: gostring): seq<gostring>
    decreases |s|
  {
    if s == [] then []
    else if SpaceLen(s) > 0 then Fields(s[SpaceLen(s)..])
    else
      FirstIsSolid(s);
      [s[..TokenLen(s)]] + Fields(s[TokenLen(s)..])
  }

  lemma FirstIsSolid(s: gostring)
    requires s != [] && SpaceLen(s) == 0
    ensures TokenLen(s) > 0
  {
  }

  predicate AllTokens(ts: seq<gostring>) {
    forall i :: 0 <= i < |ts| ==> IsToken(ts[i])
  }

  function Join(ts: seq<gostring>): gostring {
    if ts == [] then [] else if |ts| == 1 then ts[0] else ts[0] + [BLANK] + Join(ts[1..])
  }

  /** What a text starts with, it starts with after more is appended. */
  lemma SpaceOfPrefix(t: gostring, s: gostring)
    requires t <= s && SpaceLen(t) > 0
    ensures SpaceLen(s) == SpaceLen(t)
  {
  }

  lemma {:induction false} FieldsAreTokens(s: gostring)
    ensures AllTokens(Fields(s))
    decreases |s|
  {
    if s != [] {
      if SpaceLen(s) > 0 {
        FieldsAreTokens(s[SpaceLen(s)..]);
      } else {
        FirstIsSolid(s);
        FieldsAreTokens(s[TokenLen(s)..]);
        SolidPrefix(s, TokenLen(s));
      }
    }
  }

  lemma SolidPrefix(s: gostring, n: nat)
    requires Solid(s, n)
    ensures Solid(s[..n], n)
  {
    forall i | 0 <= i < n ensures SpaceLen(s[..n][i..]) == 0 {
      assert s[..n][i..] <= s[i..];
      if SpaceLen(s[..n][i..]) > 0 {
        SpaceOfPrefix(s[..n][i..], s[i..]);
      }
    }
  }

  lemma {:induction false} TokenLenIs(s: gostring, n: nat)
    requires Solid(s, n) && (n < |s| ==> SpaceLen(s[n..]) > 0)
    ensures TokenLen(s) == n
  {
    if n == 0 {
      assert s[0..] == s;
    } else {
      assert s[0..] == s && SpaceLen(s) == 0;
      SolidStep(s, n - 1);
      assert s[1..][n - 1..] == s[n..];
      TokenLenIs(s[1..], n - 1);
    }
  }

  /** White space behind a token does not make its last bytes white space: continuation bytes
      start no white space. */
  lemma SolidBefore(t: gostring, rest: gostring, i: nat)
    requires i < |t| && SpaceLen(t[i..]) == 0 && (rest != [] ==> SpaceLen(rest) > 0)
    ensures SpaceLen((t + rest)[i..]) == 0
  {
    var u, v := t[i..], (t + rest)[i..];
    assert v == u + rest;
    assert v[0] == u[0] && (|u| > 1 ==> v[1] == u[1]) && (|u| > 2 ==> v[2] == u[2]);
    assert |u| == 1 && |v| > 1 ==> v[1] == rest[0];
    assert |u| == 2 && |v| > 2 ==> v[2] == rest[0];
  }

  lemma FieldsFirst(t: gostring, rest: gostring)
    requires IsToken(t) && (rest != [] ==> SpaceLen(rest) > 0)
    ensures Fields(t + rest) == [t] + Fields(rest)
  {
    var s := t + rest;
    forall i | 0 <= i < |t| ensures SpaceLen(s[i..]) == 0 {
      SolidBefore(t, rest, i);
    }
    assert s[0..] == s && s[|t|..] == rest && s[..|t|] == t;
    TokenLenIs(s, |t|);
  }

  /** Plain characters are no white space. */
  lemma PlainToken(s: gostring)
    requires s != [] && forall i :: 0 <= i < |s| ==> 33 <= s[i] <= 126
    ensures IsToken(s)
  {
    forall i | 0 <= i < |s| ensures SpaceLen(s[i..]) == 0 {
      assert s[i..][0] == s[i];
    }
  }

  /** Splitting undoes joining. */
  lemma {:induction false} FieldsOfJoin(ts: seq<gostring>)
    requires AllTokens(ts)
    ensures Fields(Join(ts)) == ts
  {
    if |ts| == 1 {
      FieldsFirst(ts[0], []);
      assert ts[0] + [] == ts[0] && ts == [ts[0]];
    } else if |ts| > 1 {
      FieldsOfJoin(ts[1..]);
      FieldsBehind(ts[0], Join(ts[1..]));
      assert ts == [ts[0]] + ts[1..];
    }
  }

  lemma FieldsBehind(t: gostring, rest: gostring)
    requires IsToken(t)
    ensures Fields(t + [BLANK] + rest) == [t] + Fields(rest)
  {
    var spaced := [BLANK] + rest;
    assert spaced[1..] == rest && t + [BLANK] + rest == t + spaced;
    FieldsFirst(t, spaced);
  }

  // ----- white space -----

  /** The characters with the Unicode property White_Space. */
  predicate WhiteSpace(c: nat) {
    || 9 <= c <= 13 || c == 0x20 || c == 0x85 || c == 0xA0 || c == 0x1680 || 0x2000 <= c <= 0x200A
    || c == 0x2028 || c == 0x2029 || c == 0x202F || c == 0x205F || c == 0x3000
  }

  /** The UTF-8 form of a character of the basic plane. */
  function Utf8(c: nat): seq<byte>
    requires c < 0x1_0000
  {
    if c < 0x80 then [c]
    else if c < 0x800 then [0xC0 + c / 0x40, 0x80 + c % 0x40]
    else [0xE0 + c / 0x1000, 0x80 + c / 0x40 % 0x40, 0x80 + c % 0x40]
  }

  /** Text starts with white space if and only if it starts with the UTF-8 form of a white-space
      character, and that is what is skipped. */
  lemma SpacesExactly(s: gostring, n: nat)
    requires n > 0
    ensures SpaceLen(s) == n <==> exists c: nat :: c < 0x1_0000 && WhiteSpace(c) && Utf8(c) <= s && |Utf8(c)| == n
  {
    if SpaceLen(s) == n {
      var c := SpaceAt(s);
    }
    if c: nat :| c < 0x1_0000 && WhiteSpace(c) && Utf8(c) <= s && |Utf8(c)| == n {
      SpaceForms(c);
      SpaceOfPrefix(Utf8(c), s);
    }
  }

  lemma SpaceForms(c: nat)
    requires c < 0x1_0000 && WhiteSpace(c)
    ensures SpaceLen(Utf8(c)) == |Utf8(c)|
  {
    if 0x2000 <= c <= 0x200A {
      assert c / 0x1000 == 2 && c / 0x40 == 0x80 && c % 0x40 == c - 0x2000;
    }
  }

  lemma SpaceAt(s: gostring) returns (c: nat)
    requires SpaceLen(s) > 0
    ensures c < 0x1_0000 && WhiteSpace(c) && Utf8(c) <= s && |Utf8(c)| == SpaceLen(s)
  {
    if SpaceLen(s) == 1 {
      c := s[0];
    } else if SpaceLen(s) == 2 {
      c := s[1];
      assert c / 0x40 == 2;
    } else {
      c := WideCode(s[0], s[1], s[2]);
      WideForm(s[0], s[1], s[2]);
    }
  }

  /** The character of a three-byte form. */
  function WideCode(a: byte, b: byte, c: byte): int {
    (a as int - 0xE0) * 0x1000 + (b as int - 0x80) * 0x40 + (c as int - 0x80)
  }

  lemma WideForm(a: byte, b: byte, c: byte)
    requires WideSpace(a, b, c)
    ensures var u := WideCode(a, b, c);
            0x800 <= u < 0x1_0000 && WhiteSpace(u) && Utf8(u) == [a, b, c]
  {
    Base64(a - 0xE0, b - 0x80, c - 0x80);
    if a == 0xE1 {
      assert WideCode(a, b, c) == 0x1680;
    } else if a == 0xE3 {
      assert WideCode(a, b, c) == 0x3000;
    } else if b == 0x81 {
      assert WideCode(a, b, c) == 0x205F;
    } else {
      assert WideCode(a, b, c) == 0x2000 + (c - 0x80);
    }
  }

  lemma Base64(x: nat, y: nat, z: nat)
    requires y < 0x40 && z < 0x40
    ensures var u := x * 0x1000 + y * 0x40 + z;
            u / 0x1000 == x && u / 0x40 % 0x40 == y && u % 0x40 == z
  {
    var u := x * 0x1000 + y * 0x40 + z;
    LowDigit(u, x * 0x40 + y, z);
    LowDigit(u / 0x40, x, y);
    assert u / 0x1000 == u / 0x40 / 0x40;
  }

  lemma LowDigit(u: nat, q: nat, d: nat)
    requires u == q * 0x40 + d && d < 0x40
    ensures u / 0x40 == q && u % 0x40 == d
  {
  }

  /** White space, any amount of it. */
  predicate IsGap(w: gostring)
    decreases |w|
  {
    w == [] || (SpaceLen(w) > 0 && IsGap(w[SpaceLen(w)..]))
  }

  lemma {:induction false} GapSkipped(w: gostring, rest: gostring)
    requires IsGap(w)
    ensures Fields(w + rest) == Fields(rest)
    decreases |w|
  {
    if w == [] {
      assert w + rest == rest;
    } else {
      SpaceOfPrefix(w, w + rest);
      assert (w + rest)[SpaceLen(w)..] == w[SpaceLen(w)..] + rest;
      GapSkipped(w[SpaceLen(w)..], rest);
    }
  }

  /** Tokens, each with the white space behind it. */
  function Spaced(ts: seq<gostring>, gaps: seq<gostring>): gostring
    requires |ts| == |gaps|
  {
    if ts == [] then [] else ts[0] + gaps[0] + Spaced(ts[1..], gaps[1..])
  }

  /** Splitting finds the tokens again, however much white space of whatever kind is before,
      between and behind them. */
  lemma {:induction false} FieldsOfSpaced(front: gostring, ts: seq<gostring>, gaps: seq<gostring>)
    requires AllTokens(ts) && |ts| == |gaps| && IsGap(front)
    requires forall i :: 0 <= i < |gaps| ==> IsGap(gaps[i]) && (i < |gaps| - 1 ==> gaps[i] != [])
    ensures Fields(front + Spaced(ts, gaps)) == ts
    decreases |ts|
  {
    GapSkipped(front, Spaced(ts, gaps));
    if ts != [] {
      FieldsOfSpaced(gaps[0], ts[1..], gaps[1..]);
      FieldsOfOne(ts[0], gaps[0], Spaced(ts[1..], gaps[1..]));
      assert ts == [ts[0]] + ts[1..];
    }
  }

  lemma FieldsOfOne(t: gostring, gap: gostring, more: gostring)
    requires IsToken(t) && IsGap(gap) && (gap == [] ==> more == [])
    ensures Fields(t + gap + more) == [t] + Fields(gap + more)
  {
    Associate(t, gap, more);
    if gap != [] {
      SpaceOfPrefix(gap, gap + more);
    }
    FieldsFirst(t, gap + more);
  }
}
