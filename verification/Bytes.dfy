/** Fixed-width integers and the big-endian encodings of Go's encoding/binary. */
module Bytes {

  type byte = x: int | 0 <= x < 0x100
  type u16 = x: int | 0 <= x < 0x1_0000
  type u24 = x: int | 0 <= x < 0x100_0000
  type u32 = x: int | 0 <= x < 0x1_0000_0000
  type u64 = x: int | 0 <= x < 0x1_0000_0000_0000_0000

  /** Go strings and byte slices are both sequences of bytes. */
  type gostring = seq<byte>

  datatype Option<+T> = None | Some(value: T)

  function BE16(v: u16): (s: seq<byte>)
    ensures |s| == 2
  {
    [v / 0x100, v % 0x100]
  }

  function BE24(v: u24): (s: seq<byte>)
    ensures |s| == 3
  {
    [v / 0x1_0000, v / 0x100 % 0x100, v % 0x100]
  }

  function BE32(v: u32): (s: seq<byte>)
    ensures |s| == 4
  {
    BE16(v / 0x1_0000) + BE16(v % 0x1_0000)
  }

  function BE64(v: u64): (s: seq<byte>)
    ensures |s| == 8
  {
    BE32(v / 0x1_0000_0000) + BE32(v % 0x1_0000_0000)
  }

  function U16(s: seq<byte>): u16
    requires |s| >= 2
  {
    s[0] as int * 0x100 + s[1]
  }

  function U24(s: seq<byte>): u24
    requires |s| >= 3
  {
    s[0] as int * 0x1_0000 + s[1] as int * 0x100 + s[2]
  }

  function U32(s: seq<byte>): u32
    requires |s| >= 4
  {
    U16(s) * 0x1_0000 + U16(s[2..])
  }

  function U64(s: seq<byte>): u64
    requires |s| >= 8
  {
    U32(s) * 0x1_0000_0000 + U32(s[4..])
  }

  /** Decoding undoes encoding, whatever bytes follow, and encoding undoes decoding. */
  lemma Codec16(v: u16, s: seq<byte>)
    ensures U16(BE16(v) + s) == v
    ensures |s| >= 2 ==> BE16(U16(s)) == s[..2]
  {
  }

  lemma Codec24(v: u24, s: seq<byte>)
    ensures U24(BE24(v) + s) == v
    ensures |s| >= 3 ==> BE24(U24(s)) == s[..3]
  {
    var t := BE24(v) + s;
    assert t[0] == v / 0x1_0000 && t[1] == v / 0x100 % 0x100 && t[2] == v % 0x100;
    ThreeBytes(v);
    if |s| >= 3 {
      FromThreeBytes(s[0], s[1], s[2]);
    }
  }

  lemma ThreeBytes(v: u24)
    ensures v / 0x1_0000 * 0x1_0000 + v / 0x100 % 0x100 * 0x100 + v % 0x100 == v
  {
    var w := v / 0x100;
    assert v == w * 0x100 + v % 0x100;
    assert w == w / 0x100 * 0x100 + w % 0x100;
    assert w / 0x100 == v / 0x1_0000;
  }

  lemma FromThreeBytes(a: byte, b: byte, c: byte)
    ensures var w := a as int * 0x1_0000 + b as int * 0x100 + c;
            w / 0x1_0000 == a && w / 0x100 % 0x100 == b && w % 0x100 == c
  {
    var w := a as int * 0x1_0000 + b as int * 0x100 + c;
    assert w / 0x100 == a as int * 0x100 + b;
  }

  lemma Associate<T>(x: seq<T>, y: seq<T>, z: seq<T>)
    ensures x + (y + z) == x + y + z
  {
  }

  lemma Codec32(v: u32, s: seq<byte>)
    ensures U32(BE32(v) + s) == v
    ensures |s| >= 4 ==> BE32(U32(s)) == s[..4]
  {
    Decode32(v, s);
    if |s| >= 4 {
      Encode32(s);
    }
  }

  lemma Decode32(v: u32, s: seq<byte>)
    ensures U32(BE32(v) + s) == v
  {
    var hi, lo := BE16(v / 0x1_0000), BE16(v % 0x1_0000);
    assert BE32(v) + s == hi + (lo + s);
    assert (hi + (lo + s))[2..] == lo + s;
    Codec16(v / 0x1_0000, lo + s);
    Codec16(v % 0x1_0000, s);
  }

  lemma Encode32(s: seq<byte>)
    requires |s| >= 4
    ensures BE32(U32(s)) == s[..4]
  {
    Codec16(0, s);
    Codec16(0, s[2..]);
    Halves16(U16(s), U16(s[2..]));
    assert s[..4] == s[..2] + s[2..][..2];
  }

  lemma Halves16(hi: u16, lo: u16)
    ensures var v := hi * 0x1_0000 + lo;
            v / 0x1_0000 == hi && v % 0x1_0000 == lo
  {
  }

  lemma Codec64(v: u64, s: seq<byte>)
    ensures U64(BE64(v) + s) == v
    ensures |s| >= 8 ==> BE64(U64(s)) == s[..8]
  {
    Decode64(v, s);
    if |s| >= 8 {
      Encode64(s);
    }
  }

  lemma Decode64(v: u64, s: seq<byte>)
    ensures U64(BE64(v) + s) == v
  {
    var hi, lo := BE32(v / 0x1_0000_0000), BE32(v % 0x1_0000_0000);
    assert BE64(v) + s == hi + (lo + s);
    assert (hi + (lo + s))[4..] == lo + s;
    Codec32(v / 0x1_0000_0000, lo + s);
    Codec32(v % 0x1_0000_0000, s);
  }

  lemma Encode64(s: seq<byte>)
    requires |s| >= 8
    ensures BE64(U64(s)) == s[..8]
  {
    Codec32(0, s);
    Codec32(0, s[4..]);
    Halves(U32(s), U32(s[4..]));
    assert s[..8] == s[..4] + s[4..][..4];
  }

  lemma Halves(hi: u32, lo: u32)
    ensures var v := hi * 0x1_0000_0000 + lo;
            v / 0x1_0000_0000 == hi && v % 0x1_0000_0000 == lo
  {
  }
}
