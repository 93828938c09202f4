/** The PFCP message header (pkg/protocol/header.go), section 7.2.2 of TS 29.244. */
module Headers {
  import opened Bytes
  import opened InformationElements

  /** The value of a header. mp and s are the message-priority and SEID-present flags. */
  datatype Header = Header(
    version: byte, followOn: bool, mp: bool, s: bool, typ: byte,
    length: u16, seid: u64, seqNum: u32, priority: byte)

  const ZERO_HEADER := Header(0, false, false, false, 0, 0, 0, 0, 0)

  function HeaderLen(h: Header): nat {
    if h.s then 16 else 8
  }

  function Bit(b: bool, v: byte): byte {
    if b then v else 0
  }

  /** Shifts drop what leaves the byte: version keeps 3 bits, sequence number 24, priority 4. */
  function Flags(h: Header): byte {
    h.version as int * 32 % 0x100 + Bit(h.followOn, 4) + Bit(h.mp, 2) + Bit(h.s, 1)
  }

  function SeqBytes(h: Header): (b: seq<byte>)
    ensures |b| == 4
  {
    [h.seqNum / 0x1_0000 % 0x100, h.seqNum / 0x100 % 0x100, h.seqNum % 0x100,
     if h.mp then h.priority as int * 16 % 0x100 else 0]
  }

  function EncodeHeader(h: Header): (b: seq<byte>)
    ensures |b| == HeaderLen(h)
  {
    [Flags(h), h.typ] + BE16(h.length) + (if h.s then BE64(h.seid) else []) + SeqBytes(h)
  }

  /** The header left in the receiver h, and whether decoding succeeded. Fields that the
      bytes do not carry keep the receiver's values. */
  function DecodeHeader(h: Header, data: seq<byte>): (Header, bool) {
    if |data| < 8 then (h, false) else
    var flags := data[0];
    var h1 := h.(version := flags / 32, followOn := flags / 4 % 2 == 1, mp := flags / 2 % 2 == 1,
                 s := flags % 2 == 1, typ := data[1], length := U16(data[2..]));
    if h1.s && |data| < 16 then (h1, false) else
    var at := if h1.s then 12 else 4;
    var h2 := if h1.s then h1.(seid := U64(data[4..])) else h1;
    var h3 := h2.(seqNum := U24(data[at..]));
    (if h3.mp then h3.(priority := data[at + 3] / 16) else h3, true)
  }

  /** Headers whose fields all survive encoding. */
  predicate Representable(h: Header) {
    && h.version < 8
    && h.seqNum < 0x100_0000
    && h.priority < 16
    && (!h.mp ==> h.priority == 0)
    && (!h.s ==> h.seid == 0)
  }

  /** What decoding recovers from an encoded header, whatever follows it. */
  function Recovered(h: Header): Header {
    h.(version := h.version % 8, seqNum := h.seqNum % 0x100_0000,
       priority := if h.mp then h.priority % 16 else 0, seid := if h.s then h.seid else 0)
  }

  lemma RecoveredExactly(h: Header)
    ensures Recovered(h) == h <==> Representable(h)
  {
  }

  lemma EncodedHeaderDecodes(h: Header, tail: seq<byte>)
    ensures DecodeHeader(ZERO_HEADER, EncodeHeader(h) + tail) == (Recovered(h), true)
  {
    var data := EncodeHeader(h) + tail;
    FlagBits(h);
    var at := if h.s then 12 else 4;
    assert data[0] == Flags(h) && data[1] == h.typ;
    assert data[2..][0] == BE16(h.length)[0] && data[2..][1] == BE16(h.length)[1];
    if h.s {
      assert data[4..] == BE64(h.seid) + (SeqBytes(h) + tail);
      Codec64(h.seid, SeqBytes(h) + tail);
    }
    assert data[at..] == SeqBytes(h) + tail;
    assert data[at + 3] == SeqBytes(h)[3];
    SeqNumBytes(h.seqNum);
    assert U24(data[at..]) == h.seqNum % 0x100_0000;
    NibbleUp(h.priority);
  }

  /** Decoding an encoded header, whatever follows it, gives the header back exactly when
      the header is representable. */
  lemma HeaderRoundTrip(h: Header, tail: seq<byte>)
    ensures DecodeHeader(ZERO_HEADER, EncodeHeader(h) + tail) == (h, true) <==> Representable(h)
  {
    EncodedHeaderDecodes(h, tail);
  }

  lemma SeqNumBytes(v: u32)
    ensures v / 0x1_0000 % 0x100 * 0x1_0000 + v / 0x100 % 0x100 * 0x100 + v % 0x100 == v % 0x100_0000
  {
    var v1 := v / 0x100;
    var v2 := v1 / 0x100;
    TwoBytesDown(v);
    var low := v2 % 0x100 * 0x1_0000 + v1 % 0x100 * 0x100 + v % 0x100;
    assert v == v1 * 0x100 + v % 0x100 && v1 == v2 * 0x100 + v1 % 0x100 && v2 == v2 / 0x100 * 0x100 + v2 % 0x100;
    LowBits(v, v2 / 0x100, low);
  }

  lemma TwoBytesDown(v: nat)
    ensures v / 0x100 / 0x100 == v / 0x1_0000
  {
  }

  lemma LowBits(v: nat, q: nat, low: nat)
    requires v == q * 0x100_0000 + low && low < 0x100_0000
    ensures v % 0x100_0000 == low
  {
  }

  lemma NibbleUp(p: byte)
    ensures p as int * 16 % 0x100 / 16 == p % 16
  {
    var q, r := p / 16, p % 16;
    assert p as int * 16 == 0x100 * q + 16 * r;
    assert p as int * 16 % 0x100 == 16 * r;
  }

  /** The flag byte keeps each flag apart. */
  lemma FlagBits(h: Header)
    ensures Flags(h) / 32 == h.version % 8
    ensures Flags(h) / 4 % 2 == 1 <==> h.followOn
    ensures Flags(h) / 2 % 2 == 1 <==> h.mp
    ensures Flags(h) % 2 == 1 <==> h.s
  {
    var v := h.version % 8;
    VersionBits(h.version);
    Apart(v, if h.followOn then 1 else 0, if h.mp then 1 else 0, if h.s then 1 else 0);
  }

  lemma VersionBits(version: byte)
    ensures version as int * 32 % 0x100 == 32 * (version % 8)
  {
    assert version as int * 32 == version / 8 * 0x100 + 32 * (version % 8);
  }

  lemma Apart(v: nat, f: nat, m: nat, s: nat)
    requires v < 8 && f <= 1 && m <= 1 && s <= 1
    ensures var x := 32 * v + 4 * f + 2 * m + s;
            x / 32 == v && x / 4 % 2 == f && x / 2 % 2 == m && x % 2 == s
  {
    var x := 32 * v + 4 * f + 2 * m + s;
    assert x / 4 == 8 * v + f && x / 2 == 16 * v + 2 * f + m;
  }

  class MessageHeader {
    var Version: byte
    var FollowOn: bool
    var MessagePriority: bool
    var SEIDPresent: bool
    var MessageType: byte
    var MessageLength: u16
    var SEID: u64
    var SequenceNumber: u32
    var Priority: byte

    function View(): Header
      reads this
    {
      Header(Version, FollowOn, MessagePriority, SEIDPresent, MessageType, MessageLength,
             SEID, SequenceNumber, Priority)
    }

    constructor (h: Header)
      ensures View() == h
    {
      Version, FollowOn, MessagePriority, SEIDPresent := h.version, h.followOn, h.mp, h.s;
      MessageType, MessageLength, SEID := h.typ, h.length, h.seid;
      SequenceNumber, Priority := h.seqNum, h.priority;
    }

    method Marshal() returns (buf: array<byte>)
      ensures fresh(buf) && buf[..] == EncodeHeader(View())
    {
      buf := new byte[if SEIDPresent then 16 else 8];
      PutFront(buf);
      ghost var front := buf[..4];
      if SEIDPresent {
        Copy(buf, 4, BE64(SEID));
        ghost var seid := buf[4..12];
        PutSequence(buf, 12);
        assert buf[..4] == front && buf[4..12] == seid && buf[12..] == SeqBytes(View());
        assert buf[..] == buf[..4] + buf[4..12] + buf[12..];
      } else {
        PutSequence(buf, 4);
        assert buf[..4] == front && buf[4..] == SeqBytes(View());
        assert buf[..] == buf[..4] + buf[4..];
      }
    }

    /** Flags, type and length. */
    method PutFront(buf: array<byte>)
      requires buf.Length >= 8
      modifies buf
      ensures buf[..4] == [Flags(View()), MessageType] + BE16(MessageLength)
    {
      var flags: byte := Version as int * 32 % 0x100;
      if FollowOn {
        flags := flags + 4;
      }
      if MessagePriority {
        flags := flags + 2;
      }
      if SEIDPresent {
        flags := flags + 1;
      }
      buf[0] := flags;
      buf[1] := MessageType;
      PutUint16(buf, 2, MessageLength);
      assert buf[..4] == buf[..2] + buf[2..4] && buf[..2] == [flags, MessageType];
    }

    method PutSequence(buf: array<byte>, at: nat)
      requires at + 4 <= buf.Length
      modifies buf
      ensures buf[at..at + 4] == SeqBytes(View())
      ensures forall i :: 0 <= i < buf.Length && !(at <= i < at + 4) ==> buf[i] == old(buf[i])
    {
      buf[at] := SequenceNumber / 0x1_0000 % 0x100;
      buf[at + 1] := SequenceNumber / 0x100 % 0x100;
      buf[at + 2] := SequenceNumber % 0x100;
      buf[at + 3] := if MessagePriority then Priority as int * 16 % 0x100 else 0;
    }

    method Unmarshal(data: seq<byte>) returns (ok: bool)
      modifies this
      ensures (View(), ok) == DecodeHeader(old(View()), data)
    {
      if |data| < 8 {
        return false;
      }
      var flags := data[0];
      Version := flags / 32;
      FollowOn := flags / 4 % 2 == 1;
      MessagePriority := flags / 2 % 2 == 1;
      SEIDPresent := flags % 2 == 1;
      MessageType := data[1];
      MessageLength := U16(data[2..]);
      if SEIDPresent {
        if |data| < 16 {
          return false;
        }
        SEID := U64(data[4..]);
        SequenceNumber := U24(data[12..]);
        if MessagePriority {
          Priority := data[15] / 16;
        }
      } else {
        SequenceNumber := U24(data[4..]);
        if MessagePriority {
          Priority := data[7] / 16;
        }
      }
      ok := true;
    }

    method Len() returns (n: nat)
      ensures n == |EncodeHeader(View())|
    {
      n := if SEIDPresent then 16 else 8;
    }
  }
}
