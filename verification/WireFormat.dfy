/** What is on the wire, byte by byte: elements, headers and whole messages of
    pkg/protocol/ie.go, pkg/protocol/header.go and pkg/protocol/messages.go, with the numbers of
    pkg/protocol/constants.go written out. */
module WireFormat {
  import opened Bytes
  import opened InformationElements
  import opened Headers
  import opened Messages

  // ----- numbers -----

  /** The number that bytes spell, most significant byte first. */
  function BigEndian(s: seq<byte>): nat {
    if s == [] then 0 else BigEndian(s[..|s| - 1]) * 0x100 + s[|s| - 1]
  }

  lemma BigEndian2(s: seq<byte>)
    requires |s| == 2
    ensures BigEndian(s) == s[0] as int * 0x100 + s[1]
  {
    assert s[..1][..0] == [] && s[..1][0] == s[0];
    assert BigEndian(s[..1]) == s[0];
  }

  lemma BigEndian3(s: seq<byte>)
    requires |s| == 3
    ensures BigEndian(s) == s[0] as int * 0x1_0000 + s[1] as int * 0x100 + s[2]
  {
    BigEndian2(s[..2]);
  }

  lemma BigEndian4(s: seq<byte>)
    requires |s| == 4
    ensures BigEndian(s) == BigEndian(s[..2]) * 0x1_0000 + BigEndian(s[2..])
  {
    BigEndian2(s[..2]);
    BigEndian3(s[..3]);
    BigEndian2(s[2..]);
    assert s[..3][2] == s[2];
  }

  lemma BigEndian8(s: seq<byte>)
    requires |s| == 8
    ensures BigEndian(s) == BigEndian(s[..4]) * 0x1_0000_0000 + BigEndian(s[4..])
  {
    Shift(s, 4);
  }

  /** Digits in front count for more. */
  lemma {:induction false} Shift(s: seq<byte>, k: nat)
    requires k <= |s|
    ensures BigEndian(s) == BigEndian(s[..k]) * Power(|s| - k) + BigEndian(s[k..])
    decreases |s| - k
  {
    if k < |s| {
      var n := |s| - 1;
      Shift(s[..n], k);
      assert s[..n][..k] == s[..k] && s[..n][k..] == s[k..][..|s[k..]| - 1] && s[k..][|s[k..]| - 1] == s[n];
      Carries(BigEndian(s[..k]), Power(n - k), BigEndian(s[..n][k..]), s[n]);
    } else {
      assert s[..k] == s;
    }
  }

  function Power(n: nat): nat {
    if n == 0 then 1 else 0x100 * Power(n - 1)
  }

  lemma Carries(hi: nat, power: nat, lo: nat, d: nat)
    ensures (hi * power + lo) * 0x100 + d == hi * (0x100 * power) + (lo * 0x100 + d)
  {
  }

  /** The integers of encoding/binary are the numbers their bytes spell. */
  lemma IntegersSpelled(a: u16, b: u24, c: u32, d: u64)
    ensures BigEndian(BE16(a)) == a && BigEndian(BE24(b)) == b && BigEndian(BE32(c)) == c && BigEndian(BE64(d)) == d
  {
    Spelled16(a);
    BigEndian3(BE24(b));
    ThreeBytes(b);
    Spelled32(c);
    Spelled64(d);
  }

  lemma Spelled16(v: u16)
    ensures BigEndian(BE16(v)) == v
  {
    BigEndian2(BE16(v));
  }

  lemma Spelled32(v: u32)
    ensures BigEndian(BE32(v)) == v
  {
    var hi, lo := BE16(v / 0x1_0000), BE16(v % 0x1_0000);
    assert (hi + lo)[..2] == hi && (hi + lo)[2..] == lo;
    BigEndian4(BE32(v));
    Spelled16(v / 0x1_0000);
    Spelled16(v % 0x1_0000);
  }

  lemma Spelled64(v: u64)
    ensures BigEndian(BE64(v)) == v
  {
    var hi, lo := BE32(v / 0x1_0000_0000), BE32(v % 0x1_0000_0000);
    assert (hi + lo)[..4] == hi && (hi + lo)[4..] == lo;
    BigEndian8(BE64(v));
    Spelled32(v / 0x1_0000_0000);
    Spelled32(v % 0x1_0000_0000);
  }

  /** Reading integers finds the numbers their bytes spell, whatever follows. */
  lemma IntegersRead(s: seq<byte>)
    ensures |s| >= 2 ==> U16(s) == BigEndian(s[..2])
    ensures |s| >= 4 ==> U32(s) == BigEndian(s[..4])
  {
    if |s| >= 2 {
      BigEndian2(s[..2]);
    }
    if |s| >= 4 {
      BigEndian4(s[..4]);
      assert s[..4][..2] == s[..2] && s[..4][2..] == s[2..][..2];
      BigEndian2(s[..2]);
      BigEndian2(s[2..][..2]);
    }
  }

  // ----- elements -----

  /** Type, length and, for types from 32768 up, an enterprise number that the length includes;
      then the value. The length field has the low 16 bits. */
  lemma ElementLayout(ie: IE)
    ensures var e := EncodeIE(ie);
            && BigEndian(e[..2]) == ie.typ
            && BigEndian(e[2..4]) == (|e| - 4) % 0x1_0000
            && (if ie.typ >= 32768 then |e| == 6 + |ie.value| && BigEndian(e[4..6]) == ie.enterprise && e[6..] == ie.value
                else |e| == 4 + |ie.value| && e[4..] == ie.value)
  {
    var e := EncodeIE(ie);
    EncodedFields(ie);
    BigEndian2(e[..2]);
    BigEndian2(e[2..4]);
    if ie.typ >= 32768 {
      BigEndian2(e[4..6]);
    }
  }

  lemma PlainElement(typ: u16, value: seq<byte>)
    requires typ < 256 && |value| < 256
    ensures EncodeIE(IE(typ, 0, value)) == [0, typ, 0, |value|] + value
  {
  }

  /** One byte: Cause, Source Interface, Destination Interface, Apply Action. */
  lemma ByteElements(v: byte)
    ensures EncodeIE(NewCause(v)) == [0, 19, 0, 1, v]
    ensures EncodeIE(NewSourceInterface(v)) == [0, 20, 0, 1, v]
    ensures EncodeIE(NewDestinationInterface(v)) == [0, 42, 0, 1, v]
    ensures EncodeIE(NewApplyAction(v)) == [0, 44, 0, 1, v]
  {
  }

  /** Numbers: PDR ID, FAR ID, QER ID, URR ID, Precedence, Recovery Time Stamp. */
  lemma NumberElements(a: u16, v: u32)
    ensures EncodeIE(NewPdrId(a)) == [0, 56, 0, 2] + BE16(a) && BigEndian(BE16(a)) == a
    ensures EncodeIE(NewFarId(v)) == [0, 108, 0, 4] + BE32(v) && BigEndian(BE32(v)) == v
    ensures EncodeIE(IE(QER_ID, 0, BE32(v))) == [0, 109, 0, 4] + BE32(v)
    ensures EncodeIE(IE(URR_ID, 0, BE32(v))) == [0, 81, 0, 4] + BE32(v)
    ensures EncodeIE(NewPrecedence(v)) == [0, 29, 0, 4] + BE32(v)
    ensures EncodeIE(NewRecoveryTimeStamp(v)) == [0, 96, 0, 4] + BE32(v)
  {
    Spelled16(a);
    Spelled32(v);
    PlainElement(56, BE16(a));
    PlainElement(108, BE32(v));
    PlainElement(109, BE32(v));
    PlainElement(81, BE32(v));
    PlainElement(29, BE32(v));
    PlainElement(96, BE32(v));
  }

  /** Texts: Node ID behind a zero byte, Application ID as it is. */
  lemma TextElements(text: gostring)
    requires |text| < 255
    ensures EncodeIE(NewNodeID(text)) == [0, 60, 0, |text| + 1, 0] + text
    ensures EncodeIE(NewApplicationId(text)) == [0, 24, 0, |text|] + text
  {
    PlainElement(60, [0] + text);
    assert [0, 60, 0, |text| + 1] + ([0] + text) == [0, 60, 0, |text| + 1, 0] + text;
    PlainElement(24, text);
  }

  /** Groups: the types of the four kinds of rules, of their detection information and of their
      forwarding parameters. */
  lemma GroupTypes()
    ensures CREATE_PDR == 1 && PDI == 2 && CREATE_FAR == 3 && FORWARDING_PARAMETERS == 4
    ensures CREATE_URR == 6 && CREATE_QER == 7
    ensures UE_IP_ADDRESS == 93 && SDF_FILTER == 23 && NETWORK_INSTANCE == 22
  {
  }

  /** The identifier getters: the number that the first bytes spell, zero if there are too few. */
  lemma IdentifiersRead(ie: IE)
    ensures ie.typ == 56 ==> GetPdrId(ie) == if |ie.value| >= 2 then BigEndian(ie.value[..2]) else 0
    ensures ie.typ == 108 ==> GetFarId(ie) == if |ie.value| >= 4 then BigEndian(ie.value[..4]) else 0
  {
    IntegersRead(ie.value);
  }

  // ----- headers -----

  /** Version in the top three bits, then two unused ones, follow-on, message priority and
      SEID-present; type; length; SEID if present; 24-bit number; priority in the top half of
      the last byte. */
  lemma HeaderLayout(h: Header)
    ensures var e, at := EncodeHeader(h), if h.s then 12 else 4;
            && |e| == at + 4
            && e[0] == h.version % 8 * 32 + (if h.followOn then 4 else 0) + (if h.mp then 2 else 0) + (if h.s then 1 else 0)
            && e[1] == h.typ && BigEndian(e[2..4]) == h.length
            && (h.s ==> BigEndian(e[4..12]) == h.seid)
            && BigEndian(e[at..at + 3]) == h.seqNum % 0x100_0000
            && e[at + 3] == if h.mp then h.priority % 16 * 16 else 0
  {
    var e, at := EncodeHeader(h), if h.s then 12 else 4;
    VersionBits(h.version);
    assert e[2..4] == BE16(h.length);
    Spelled16(h.length);
    if h.s {
      assert e[4..12] == BE64(h.seid);
      Spelled64(h.seid);
    }
    assert e[at..at + 3] == SeqBytes(h)[..3] && e[at + 3] == SeqBytes(h)[3];
    BigEndian3(e[at..at + 3]);
    SeqNumBytes(h.seqNum);
    Nibble(h.priority);
  }

  lemma Nibble(p: byte)
    ensures p as int * 16 % 0x100 == p % 16 * 16
  {
    assert p as int * 16 == 0x100 * (p / 16) + 16 * (p % 16);
  }

  /** What the bytes do not carry, a receiver keeps. */
  lemma ReceiverKeeps(receiver: Header, h: Header, tail: seq<byte>)
    ensures DecodeHeader(receiver, EncodeHeader(h) + tail)
            == (Recovered(h).(seid := if h.s then h.seid else receiver.seid,
                              priority := if h.mp then h.priority % 16 else receiver.priority), true)
  {
    EncodedHeaderDecodes(h, tail);
    SameButReceiver(receiver, EncodeHeader(h) + tail);
  }

  lemma SameButReceiver(receiver: Header, data: seq<byte>)
    requires DecodeHeader(ZERO_HEADER, data).1
    ensures var h := DecodeHeader(ZERO_HEADER, data).0;
            DecodeHeader(receiver, data)
            == (h.(seid := if h.s then h.seid else receiver.seid, priority := if h.mp then h.priority else receiver.priority), true)
  {
  }

  // ----- messages -----

  lemma NodeFront(typ: byte, length: u16, s: u24)
    ensures EncodeHeader(NodeHeader(typ, s).(length := length)) == [0x20, typ] + BE16(length) + BE24(s) + [0]
  {
    SeqAs24(NodeHeader(typ, s), s);
  }

  lemma SessionFront(typ: byte, length: u16, s: u24, seid: u64)
    ensures EncodeHeader(SessionHeader(typ, s, seid).(length := length))
            == [0x21, typ] + BE16(length) + BE64(seid) + BE24(s) + [0]
  {
    var h := SessionHeader(typ, s, seid).(length := length);
    SeqAs24(h, s);
    Associate([0x21, typ] + BE16(length) + BE64(seid), BE24(s), [0]);
  }

  lemma SeqAs24(h: Header, s: u24)
    requires h.seqNum == s && !h.mp
    ensures SeqBytes(h) == BE24(s) + [0]
  {
    assert s / 0x1_0000 % 0x100 == s / 0x1_0000;
  }

  lemma OneElement(e: IE)
    ensures EncodeIEs([e]) == EncodeIE(e)
  {
    assert EncodeIEs([e]) == EncodeIE(e) + EncodeIEs([]);
  }

  lemma TwoElements(e: IE, f: IE)
    ensures EncodeIEs([e, f]) == EncodeIE(e) + EncodeIE(f)
  {
    assert [e, f][1..] == [f];
    OneElement(f);
  }

  /** A short message about nodes. */
  lemma NodeMessage(m: Msg, typ: byte, s: u24, body: seq<byte>)
    requires m.h == NodeHeader(typ, s) && EncodeIEs(m.ies) == body && |body| < 256
    ensures EncodeMessage(m) == [0x20, typ, 0, |body|] + BE24(s) + [0] + body
  {
    ShortNodeFront(typ, |body|, s);
    assert Sized(m).h == NodeHeader(typ, s).(length := |body|);
  }

  lemma ShortNodeFront(typ: byte, n: byte, s: u24)
    ensures EncodeHeader(NodeHeader(typ, s).(length := n)) == [0x20, typ, 0, n] + BE24(s) + [0]
  {
    NodeFront(typ, n, s);
    ShortLength(0x20, typ, n);
  }

  lemma ShortLength(flags: byte, typ: byte, n: byte)
    ensures [flags, typ] + BE16(n) == [flags, typ, 0, n]
  {
  }

  lemma ShortSessionFront(typ: byte, n: byte, s: u24, seid: u64)
    ensures EncodeHeader(SessionHeader(typ, s, seid).(length := n)) == [0x21, typ, 0, n] + BE64(seid) + BE24(s) + [0]
  {
    SessionFront(typ, n, s, seid);
    ShortLength(0x21, typ, n);
  }

  /** Heartbeats, as they are sent. */
  lemma HeartbeatBytes(s: u24, ts: u32)
    ensures EncodeMessage(NewHeartbeatRequest(s, ts)) == [0x20, 1, 0, 8] + BE24(s) + [0] + ([0, 96, 0, 4] + BE32(ts))
    ensures EncodeMessage(NewHeartbeatResponse(s, ts)) == [0x20, 2, 0, 8] + BE24(s) + [0] + ([0, 96, 0, 4] + BE32(ts))
  {
    NumberElements(0, ts);
    OneElement(NewRecoveryTimeStamp(ts));
    NodeMessage(NewHeartbeatRequest(s, ts), 1, s, [0, 96, 0, 4] + BE32(ts));
    NodeMessage(NewHeartbeatResponse(s, ts), 2, s, [0, 96, 0, 4] + BE32(ts));
  }

  /** An association setup request. */
  lemma SetupRequestBytes(s: u24, nodeID: gostring, ts: u32)
    requires |nodeID| < 200
    ensures var body := [0, 60, 0, |nodeID| + 1, 0] + nodeID + ([0, 96, 0, 4] + BE32(ts));
            EncodeMessage(NewAssociationSetupRequest(s, nodeID, ts)) == [0x20, 5, 0, |body|] + BE24(s) + [0] + body
  {
    NumberElements(0, ts);
    TextElements(nodeID);
    TwoElements(NewNodeID(nodeID), NewRecoveryTimeStamp(ts));
    var body := [0, 60, 0, |nodeID| + 1, 0] + nodeID + ([0, 96, 0, 4] + BE32(ts));
    NodeMessage(NewAssociationSetupRequest(s, nodeID, ts), 5, s, body);
  }

  /** The answer to it. */
  lemma SetupResponseBytes(s: u24, nodeID: gostring, cause: byte, ts: u32)
    requires |nodeID| < 200
    ensures var body := [0, 60, 0, |nodeID| + 1, 0] + nodeID + ([0, 19, 0, 1, cause] + ([0, 96, 0, 4] + BE32(ts)));
            EncodeMessage(NewAssociationSetupResponse(s, nodeID, cause, ts)) == [0x20, 6, 0, |body|] + BE24(s) + [0] + body
  {
    var id, c, t := NewNodeID(nodeID), NewCause(cause), NewRecoveryTimeStamp(ts);
    NumberElements(0, ts);
    TextElements(nodeID);
    ByteElements(cause);
    TwoElements(c, t);
    assert [id, c, t][1..] == [c, t];
    var body := [0, 60, 0, |nodeID| + 1, 0] + nodeID + ([0, 19, 0, 1, cause] + ([0, 96, 0, 4] + BE32(ts)));
    NodeMessage(NewAssociationSetupResponse(s, nodeID, cause, ts), 6, s, body);
  }

  /** The answer to an association release request. */
  lemma ReleaseResponseBytes(s: u24, nodeID: gostring, cause: byte)
    requires |nodeID| < 200
    ensures var body := [0, 60, 0, |nodeID| + 1, 0] + nodeID + [0, 19, 0, 1, cause];
            EncodeMessage(NewAssociationReleaseResponse(s, nodeID, cause)) == [0x20, 10, 0, |body|] + BE24(s) + [0] + body
  {
    TextElements(nodeID);
    ByteElements(cause);
    TwoElements(NewNodeID(nodeID), NewCause(cause));
    var body := [0, 60, 0, |nodeID| + 1, 0] + nodeID + [0, 19, 0, 1, cause];
    NodeMessage(NewAssociationReleaseResponse(s, nodeID, cause), 10, s, body);
  }

  /** An establishment request: the groups in the order PDR, FAR, QER, URR behind a session header. */
  lemma EstablishmentRequestBytes(s: u24, seid: u64, pdrs: seq<IE>, fars: seq<IE>, qers: seq<IE>, urrs: seq<IE>)
    ensures var body := EncodeIEs(pdrs) + EncodeIEs(fars) + EncodeIEs(qers) + EncodeIEs(urrs);
            EncodeMessage(NewSessionEstablishmentRequest(s, seid, pdrs, fars, qers, urrs))
            == [0x21, 50] + BE16(|body| % 0x1_0000) + BE64(seid) + BE24(s) + [0] + body
  {
    EncodeAppend(pdrs, fars);
    EncodeAppend(pdrs + fars, qers);
    EncodeAppend(pdrs + fars + qers, urrs);
    SessionFront(50, |EncodeIEs(pdrs + fars + qers + urrs)| % 0x1_0000, s, seid);
  }

  /** A short message about a session. */
  lemma SessionMessage(m: Msg, typ: byte, s: u24, seid: u64, body: seq<byte>)
    requires m.h == SessionHeader(typ, s, seid) && EncodeIEs(m.ies) == body && |body| < 256
    ensures EncodeMessage(m) == [0x21, typ, 0, |body|] + BE64(seid) + BE24(s) + [0] + body
  {
    ShortSessionFront(typ, |body|, s, seid);
    assert Sized(m).h == SessionHeader(typ, s, seid).(length := |body|);
  }

  /** The answer to it: cause, then the local SEID behind a flag byte in an element of type 2. */
  lemma EstablishmentResponseBytes(s: u24, seid: u64, cause: byte, local: u64)
    ensures EncodeMessage(NewSessionEstablishmentResponse(s, seid, cause, local))
            == [0x21, 51, 0, 18] + BE64(seid) + BE24(s) + [0] + ([0, 19, 0, 1, cause] + ([0, 2, 0, 9] + ([2] + BE64(local))))
  {
    var f := IE(PDI, 0, [0x02] + BE64(local));
    ByteElements(cause);
    PlainElement(2, [2] + BE64(local));
    TwoElements(NewCause(cause), f);
    var body := [0, 19, 0, 1, cause] + ([0, 2, 0, 9] + ([2] + BE64(local)));
    SessionMessage(NewSessionEstablishmentResponse(s, seid, cause, local), 51, s, seid, body);
  }

  /** Modification and deletion. */
  lemma OtherSessionBytes(s: u24, seid: u64, cause: byte)
    ensures EncodeMessage(NewSessionModificationResponse(s, seid))
            == [0x21, 53, 0, 5] + BE64(seid) + BE24(s) + [0] + [0, 19, 0, 1, 1]
    ensures EncodeMessage(NewSessionDeletionRequest(s, seid)) == [0x21, 54, 0, 0] + BE64(seid) + BE24(s) + [0]
    ensures EncodeMessage(NewSessionDeletionResponse(s, seid, cause))
            == [0x21, 55, 0, 5] + BE64(seid) + BE24(s) + [0] + [0, 19, 0, 1, cause]
  {
    ByteElements(1);
    ByteElements(cause);
    OneElement(NewCause(1));
    OneElement(NewCause(cause));
    SessionMessage(NewSessionModificationResponse(s, seid), 53, s, seid, [0, 19, 0, 1, 1]);
    SessionMessage(NewSessionDeletionRequest(s, seid), 54, s, seid, []);
    SessionMessage(NewSessionDeletionResponse(s, seid, cause), 55, s, seid, [0, 19, 0, 1, cause]);
    var front := [0x21, 54, 0, 0] + BE64(seid) + BE24(s) + [0];
    assert front + [] == front;
  }
}
