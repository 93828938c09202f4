/** PFCP messages (pkg/protocol/messages.go): codec, lookup and the message constructors. */
module Messages {
  import opened Bytes
  import opened InformationElements
  import opened Headers

  const HEARTBEAT_REQUEST: byte := 1
  const HEARTBEAT_RESPONSE: byte := 2
  const ASSOCIATION_SETUP_REQUEST: byte := 5
  const ASSOCIATION_SETUP_RESPONSE: byte := 6
  const ASSOCIATION_RELEASE_REQUEST: byte := 9
  const ASSOCIATION_RELEASE_RESPONSE: byte := 10
  const SESSION_ESTABLISHMENT_REQUEST: byte := 50
  const SESSION_ESTABLISHMENT_RESPONSE: byte := 51
  const SESSION_MODIFICATION_REQUEST: byte := 52
  const SESSION_MODIFICATION_RESPONSE: byte := 53
  const SESSION_DELETION_REQUEST: byte := 54
  const SESSION_DELETION_RESPONSE: byte := 55
  const SESSION_REPORT_REQUEST: byte := 56

  datatype Msg = Msg(h: Header, ies: seq<IE>)

  /** Marshal overwrites the length field with the low 16 bits of the element bytes. */
  function Sized(m: Msg): Msg {
    m.(h := m.h.(length := |EncodeIEs(m.ies)| % 0x1_0000))
  }

  function EncodeMessage(m: Msg): seq<byte> {
    EncodeHeader(Sized(m).h) + EncodeIEs(m.ies)
  }

  datatype MsgResult = Decoded(m: Msg) | Rejected | Crashed

  /** Decoding of the first n bytes of a receive buffer. The slice that takes the element
      bytes is bounded by the buffer, not by n. */
  function DecodeMessage(buf: seq<byte>, n: nat): MsgResult
    requires n <= |buf|
  {
    var (h, ok) := DecodeHeader(ZERO_HEADER, buf[..n]);
    if !ok then Rejected
    else if HeaderLen(h) + h.length > |buf| then Crashed
    else
      match ParseIEs(buf[HeaderLen(h)..HeaderLen(h) + h.length])
      case AllParsed(ies) => Decoded(Msg(h, ies))
      case SomeMalformed => Rejected
      case SomePanics => Crashed
  }

  /** Messages that survive the wire. */
  predicate Transmissible(m: Msg) {
    Representable(m.h) && AllCanonical(m.ies) && |EncodeIEs(m.ies)| <= MAX_INPUT
  }

  /** Decoding of a header and the element bytes behind it, cut to the announced length. */
  function DecodeBody(h: Header, body: seq<byte>): MsgResult
    requires h.length <= |body|
  {
    match ParseIEs(body[..h.length])
    case AllParsed(ies) => Decoded(Msg(h, ies))
    case SomeMalformed => Rejected
    case SomePanics => Crashed
  }

  lemma FramedDecodes(front: seq<byte>, body: seq<byte>, tail: seq<byte>, h: Header)
    requires DecodeHeader(ZERO_HEADER, front + body) == (h, true)
    requires |front| == HeaderLen(h) && h.length <= |body|
    ensures DecodeMessage(front + body + tail, |front + body|) == DecodeBody(h, body)
  {
    Middle(front, body, tail, h.length);
  }

  lemma Middle(front: seq<byte>, body: seq<byte>, tail: seq<byte>, k: nat)
    requires k <= |body|
    ensures (front + body + tail)[..|front + body|] == front + body
    ensures (front + body + tail)[|front|..|front| + k] == body[..k]
  {
  }

  /** Marshal followed by Unmarshal, with any stale bytes left in the receive buffer, gives
      back the message with its length field set, exactly when the message is transmissible. */
  lemma MessageRoundTrip(m: Msg, tail: seq<byte>)
    ensures DecodeMessage(EncodeMessage(m) + tail, |EncodeMessage(m)|) == Decoded(Sized(m))
            <==> Transmissible(m)
  {
    var h, body := Sized(m).h, EncodeIEs(m.ies);
    EncodedHeaderDecodes(h, body);
    FramedDecodes(EncodeHeader(h), body, tail, Recovered(h));
    BodyDecodes(h, m.ies);
  }

  lemma BodyDecodes(h: Header, ies: seq<IE>)
    requires h.length == |EncodeIEs(ies)| % 0x1_0000
    ensures DecodeBody(Recovered(h), EncodeIEs(ies)) == Decoded(Msg(h, ies)) <==>
            Representable(h) && AllCanonical(ies) && |EncodeIEs(ies)| <= MAX_INPUT
  {
    var body := EncodeIEs(ies);
    var cut := body[..h.length];
    RecoveredExactly(h);
    ParsesExactly(cut, ies);
    assert cut == body <==> |body| <= MAX_INPUT;
  }

  /** Marshalling twice gives the same bytes, although it changes the length field. */
  lemma MarshalStable(m: Msg)
    ensures EncodeMessage(Sized(m)) == EncodeMessage(m)
    ensures Sized(Sized(m)) == Sized(m)
  {
  }

  /** On a datagram that holds all the bytes its length field announces, stale buffer
      contents are irrelevant and decoding cannot crash. */
  lemma StaleBytesIgnored(data: seq<byte>, tail: seq<byte>, tail': seq<byte>)
    requires |data| <= MAX_INPUT
    requires var (h, ok) := DecodeHeader(ZERO_HEADER, data);
             ok ==> HeaderLen(h) + h.length <= |data|
    ensures DecodeMessage(data + tail, |data|) == DecodeMessage(data + tail', |data|)
    ensures !DecodeMessage(data + tail, |data|).Crashed?
  {
    var (h, ok) := DecodeHeader(ZERO_HEADER, data);
    assert (data + tail)[..|data|] == data == (data + tail')[..|data|];
    if ok {
      var from, upTo := HeaderLen(h), HeaderLen(h) + h.length;
      CutInFront(data, tail, from, upTo);
      CutInFront(data, tail', from, upTo);
      NeverPanics(data[from..upTo]);
    }
  }

  lemma CutInFront(data: seq<byte>, tail: seq<byte>, from: nat, upTo: nat)
    requires from <= upTo <= |data|
    ensures (data + tail)[from..upTo] == data[from..upTo]
  {
  }

  /** Decoding crashes exactly when the announced length runs past the receive buffer. */
  lemma CrashesExactly(buf: seq<byte>, n: nat)
    requires n <= |buf| <= MAX_INPUT
    ensures DecodeMessage(buf, n).Crashed? <==>
            var (h, ok) := DecodeHeader(ZERO_HEADER, buf[..n]);
            ok && HeaderLen(h) + h.length > |buf|
  {
    var (h, ok) := DecodeHeader(ZERO_HEADER, buf[..n]);
    if ok && HeaderLen(h) + h.length <= |buf| {
      NeverPanics(buf[HeaderLen(h)..HeaderLen(h) + h.length]);
    }
  }

  /** A datagram that is shorter than it announces is completed from the stale bytes of the
      65535-byte receive buffer: it decodes to the elements that its own bytes and the stale
      ones behind them encode, whatever datagram those came from, and to nothing else. It
      crashes if and only if what it announces does not fit in the buffer. */
  lemma TruncatedDatagramReadsStaleBytes(h: Header, part: seq<byte>, stale: seq<byte>, ies: seq<IE>)
    requires Representable(h) && |part| < h.length
    requires |EncodeHeader(h)| + |part| + |stale| == MAX_INPUT
    ensures var datagram := EncodeHeader(h) + part;
            var r := DecodeMessage(datagram + stale, |datagram|);
            && (r.Crashed? <==> HeaderLen(h) + h.length > MAX_INPUT)
            && (r == Decoded(Msg(h, ies)) <==>
                  HeaderLen(h) + h.length <= MAX_INPUT && AllCanonical(ies)
                  && EncodeIEs(ies) == part + stale[..h.length - |part|])
  {
    RepresentableDecodes(h, part);
    DecodesWhatFollows(h, EncodeHeader(h), part, stale);
    if h.length <= |part| + |stale| {
      var cut := part + stale[..h.length - |part|];
      ParsesExactly(cut, ies);
      NeverPanics(cut);
    }
  }

  lemma DecodesWhatFollows(h: Header, front: seq<byte>, part: seq<byte>, stale: seq<byte>)
    requires |front| == HeaderLen(h) && |part| < h.length && DecodeHeader(ZERO_HEADER, front + part) == (h, true)
    ensures DecodeMessage(front + part + stale, |front + part|) ==
            if h.length > |part| + |stale| then Crashed
            else match ParseIEs(part + stale[..h.length - |part|])
                 case AllParsed(ies) => Decoded(Msg(h, ies))
                 case SomeMalformed => Rejected
                 case SomePanics => Crashed
  {
    BufferSlices(front, part, stale, h.length);
  }

  lemma RepresentableDecodes(h: Header, part: seq<byte>)
    requires Representable(h)
    ensures DecodeHeader(ZERO_HEADER, EncodeHeader(h) + part) == (h, true)
  {
    EncodedHeaderDecodes(h, part);
    RecoveredExactly(h);
  }

  lemma BufferSlices(front: seq<byte>, part: seq<byte>, stale: seq<byte>, k: nat)
    requires |part| < k
    ensures (front + part + stale)[..|front + part|] == front + part
    ensures k <= |part| + |stale| ==> (front + part + stale)[|front|..|front| + k] == part + stale[..k - |part|]
  {
  }

  // ----- lookup -----

  function FindIE(ies: seq<IE>, typ: u16): (r: Option<IE>)
    ensures r.Some? ==> r.value in ies && r.value.typ == typ
    ensures r.None? <==> forall i :: 0 <= i < |ies| ==> ies[i].typ != typ
  {
    if ies == [] then None
    else if ies[0].typ == typ then Some(ies[0])
    else FindIE(ies[1..], typ)
  }

  /** Position i has the first element of the type. */
  ghost predicate FirstAt(ies: seq<IE>, typ: u16, i: nat) {
    i < |ies| && ies[i].typ == typ && forall j :: 0 <= j < i ==> ies[j].typ != typ
  }

  lemma {:induction false} FindsFirst(ies: seq<IE>, typ: u16, i: nat)
    requires FirstAt(ies, typ, i)
    ensures FindIE(ies, typ) == Some(ies[i])
  {
    if i > 0 {
      FindsFirst(ies[1..], typ, i - 1);
    }
  }

  lemma {:induction false} FirstFound(ies: seq<IE>, typ: u16) returns (i: nat)
    requires FindIE(ies, typ).Some?
    ensures FirstAt(ies, typ, i)
  {
    if ies[0].typ == typ {
      i := 0;
    } else {
      i := FirstFound(ies[1..], typ);
      i := i + 1;
      forall j | 0 <= j < i ensures ies[j].typ != typ {
        assert j > 0 ==> ies[j] == ies[1..][j - 1];
      }
    }
  }

  function FindAllIEs(ies: seq<IE>, typ: u16): seq<IE> {
    if ies == [] then []
    else if ies[0].typ == typ then [ies[0]] + FindAllIEs(ies[1..], typ)
    else FindAllIEs(ies[1..], typ)
  }

  lemma {:induction false} FindAllAppend(a: seq<IE>, b: seq<IE>, typ: u16)
    ensures FindAllIEs(a + b, typ) == FindAllIEs(a, typ) + FindAllIEs(b, typ)
  {
    if a == [] {
      assert a + b == b;
    } else {
      FindAllAppend(a[1..], b, typ);
      assert (a + b)[0] == a[0] && (a + b)[1..] == a[1..] + b;
    }
  }

  lemma {:induction false} FindAllOfOneType(ies: seq<IE>, t: u16, typ: u16)
    requires forall i :: 0 <= i < |ies| ==> ies[i].typ == t
    ensures FindAllIEs(ies, typ) == if t == typ then ies else []
  {
    if ies != [] {
      FindAllOfOneType(ies[1..], t, typ);
    }
  }

  // ----- constructors -----

  function NodeHeader(typ: byte, seqNum: u32): Header {
    Header(1, false, false, false, typ, 0, 0, seqNum, 0)
  }

  function SessionHeader(typ: byte, seqNum: u32, seid: u64): Header {
    Header(1, false, false, true, typ, 0, seid, seqNum, 0)
  }

  function NewHeartbeatRequest(seqNum: u32, ts: u32): Msg {
    Msg(NodeHeader(HEARTBEAT_REQUEST, seqNum), [NewRecoveryTimeStamp(ts)])
  }

  function NewHeartbeatResponse(seqNum: u32, ts: u32): Msg {
    Msg(NodeHeader(HEARTBEAT_RESPONSE, seqNum), [NewRecoveryTimeStamp(ts)])
  }

  function NewAssociationSetupRequest(seqNum: u32, nodeID: gostring, ts: u32): Msg {
    Msg(NodeHeader(ASSOCIATION_SETUP_REQUEST, seqNum), [NewNodeID(nodeID), NewRecoveryTimeStamp(ts)])
  }

  function NewAssociationSetupResponse(seqNum: u32, nodeID: gostring, cause: byte, ts: u32): Msg {
    Msg(NodeHeader(ASSOCIATION_SETUP_RESPONSE, seqNum),
        [NewNodeID(nodeID), NewCause(cause), NewRecoveryTimeStamp(ts)])
  }

  function NewAssociationReleaseResponse(seqNum: u32, nodeID: gostring, cause: byte): Msg {
    Msg(NodeHeader(ASSOCIATION_RELEASE_RESPONSE, seqNum), [NewNodeID(nodeID), NewCause(cause)])
  }

  function NewSessionEstablishmentRequest(seqNum: u32, seid: u64, pdrs: seq<IE>, fars: seq<IE>,
                                          qers: seq<IE>, urrs: seq<IE>): Msg {
    Msg(SessionHeader(SESSION_ESTABLISHMENT_REQUEST, seqNum, seid), pdrs + fars + qers + urrs)
  }

  /** The F-SEID is carried in an element of type PDI: a flag byte and the local SEID. */
  function NewSessionEstablishmentResponse(seqNum: u32, seid: u64, cause: byte, localSEID: u64): Msg {
    Msg(SessionHeader(SESSION_ESTABLISHMENT_RESPONSE, seqNum, seid),
        [NewCause(cause), IE(PDI, 0, [0x02] + BE64(localSEID))])
  }

  function NewSessionModificationResponse(seqNum: u32, seid: u64): Msg {
    Msg(SessionHeader(SESSION_MODIFICATION_RESPONSE, seqNum, seid), [NewCause(REQUEST_ACCEPTED)])
  }

  function NewSessionDeletionRequest(seqNum: u32, seid: u64): Msg {
    Msg(SessionHeader(SESSION_DELETION_REQUEST, seqNum, seid), [])
  }

  function NewSessionDeletionResponse(seqNum: u32, seid: u64, cause: byte): Msg {
    Msg(SessionHeader(SESSION_DELETION_RESPONSE, seqNum, seid), [NewCause(cause)])
  }

  /** The accept test of CreateSession, DeleteSession and establishAssociation. */
  predicate Accepts(m: Msg) {
    FindIE(m.ies, CAUSE).Some? && GetCause(FindIE(m.ies, CAUSE).value) == Some(REQUEST_ACCEPTED)
  }

  /** The first element of type 19 (Cause) has a first byte, and it is 1 (Request accepted). */
  ghost predicate Accepting(m: Msg) {
    exists i: nat :: FirstAt(m.ies, 19, i) && |m.ies[i].value| >= 1 && m.ies[i].value[0] == 1
  }

  lemma AcceptsExactly(m: Msg)
    ensures Accepts(m) <==> Accepting(m)
  {
    if Accepts(m) {
      var i := FirstFound(m.ies, CAUSE);
      FindsFirst(m.ies, CAUSE, i);
    }
    if i: nat :| FirstAt(m.ies, 19, i) && |m.ies[i].value| >= 1 && m.ies[i].value[0] == 1 {
      FindsFirst(m.ies, CAUSE, i);
    }
  }

  /** The SEID in the F-SEID payload of an establishment response. */
  function FseidOf(m: Msg): Option<u64> {
    var ie := FindIE(m.ies, PDI);
    if ie.None? || |ie.value.value| < 9 then None else Some(U64(ie.value.value[1..]))
  }

  /** The establishment response does carry the SEID the user plane chose. */
  lemma FseidCarried(seqNum: u32, seid: u64, cause: byte, localSEID: u64)
    ensures FseidOf(NewSessionEstablishmentResponse(seqNum, seid, cause, localSEID)) == Some(localSEID)
  {
    var ies := NewSessionEstablishmentResponse(seqNum, seid, cause, localSEID).ies;
    assert ies[1..][0] == ies[1];
    assert FindIE(ies, PDI) == FindIE(ies[1..], PDI) == Some(ies[1]);
    assert ies[1].value[1..] == BE64(localSEID) + [];
    Codec64(localSEID, []);
  }

  // ----- the imperative code -----

  class Message {
    const Header: MessageHeader
    var IEs: seq<IE>

    function View(): Msg
      reads this, Header
    {
      Msg(Header.View(), IEs)
    }

    constructor (m: Msg)
      ensures View() == m && fresh(Header)
    {
      Header := new MessageHeader(m.h);
      IEs := m.ies;
    }

    method Marshal() returns (data: seq<byte>)
      modifies Header`MessageLength
      ensures data == EncodeMessage(old(View()))
      ensures View() == Sized(old(View()))
    {
      var headerBuf := Header.Marshal();
      var iesBuf: seq<byte> := [];
      for i := 0 to |IEs|
        invariant iesBuf == EncodeIEs(IEs[..i])
        invariant View() == old(View())
      {
        var ieBuf := MarshalIE(IEs[i]);
        EncodeAppend(IEs[..i], [IEs[i]]);
        assert IEs[..i + 1] == IEs[..i] + [IEs[i]];
        assert EncodeIEs([IEs[i]]) == EncodeIE(IEs[i]) + EncodeIEs([]);
        iesBuf := iesBuf + ieBuf[..];
      }
      assert IEs[..|IEs|] == IEs;
      Header.MessageLength := |iesBuf| % 0x1_0000;
      headerBuf := Header.Marshal();
      data := headerBuf[..] + iesBuf;
    }

    /** Decodes buf[..n] into a receiver that starts as the zero message. */
    method Unmarshal(buf: seq<byte>, n: nat) returns (r: MsgResult)
      requires n <= |buf|
      requires View() == Msg(ZERO_HEADER, [])
      modifies this, Header
      ensures r == DecodeMessage(buf, n)
      ensures r.Decoded? ==> View() == r.m
    {
      var ok := Header.Unmarshal(buf[..n]);
      if !ok {
        return Rejected;
      }
      var headerLen := Header.Len();
      if headerLen + Header.MessageLength > |buf| {
        return Crashed;
      }
      var ies := UnmarshalIEs(buf[headerLen..headerLen + Header.MessageLength]);
      match ies
      case AllParsed(_) => r := Decoded(Msg(Header.View(), IEs));
      case SomeMalformed => r := Rejected;
      case SomePanics => r := Crashed;
    }

    method UnmarshalIEs(iesData: seq<byte>) returns (r: IEsResult)
      requires IEs == []
      modifies this`IEs
      ensures r == ParseIEs(iesData)
      ensures r.AllParsed? ==> IEs == r.ies
    {
      ParseFromEnds(iesData, IEs);
      ghost var whole := ParseIEs(iesData);
      var offset := 0;
      while offset < |iesData|
        invariant 0 <= offset <= |iesData|
        invariant ParseFrom(iesData, offset, IEs) == whole
        decreases |iesData| - offset
      {
        var n, failed := UnmarshalNext(iesData, offset);
        if failed.Some? {
          return failed.value;
        }
        offset := offset + n;
      }
      ParseFromEnds(iesData, IEs);
      r := AllParsed(IEs);
    }

    /** One turn of the loop: the next element is appended, or the whole result is known. */
    method UnmarshalNext(iesData: seq<byte>, offset: nat) returns (n: nat, failed: Option<IEsResult>)
      requires offset < |iesData|
      modifies this`IEs
      ensures match failed
              case Some(r) => !r.AllParsed? && r == ParseFrom(iesData, offset, old(IEs))
              case None => 0 < n <= |iesData| - offset
                           && ParseFrom(iesData, offset + n, IEs) == ParseFrom(iesData, offset, old(IEs))
    {
      ParseFromStep(iesData, offset, IEs);
      var one := UnmarshalIE(iesData[offset..]);
      if !one.Parsed? {
        return 0, Some(if one.Panics? then SomePanics else SomeMalformed);
      }
      IEs := IEs + [one.ie];
      n, failed := one.n, None;
    }

    method Find(typ: u16) returns (r: Option<IE>)
      ensures r == FindIE(IEs, typ)
      ensures forall i: nat :: FirstAt(IEs, typ, i) ==> r == Some(IEs[i])
    {
      forall i: nat | FirstAt(IEs, typ, i) ensures FindIE(IEs, typ) == Some(IEs[i]) {
        FindsFirst(IEs, typ, i);
      }
      for i := 0 to |IEs|
        invariant FindIE(IEs, typ) == FindIE(IEs[i..], typ)
      {
        assert IEs[i..][1..] == IEs[i + 1..];
        if IEs[i].typ == typ {
          return Some(IEs[i]);
        }
      }
      r := None;
    }

    method FindAll(typ: u16) returns (r: seq<IE>)
      ensures r == FindAllIEs(IEs, typ)
    {
      r := [];
      for i := 0 to |IEs|
        invariant FindAllIEs(IEs, typ) == r + FindAllIEs(IEs[i..], typ)
      {
        assert IEs[i..][1..] == IEs[i + 1..];
        if IEs[i].typ == typ {
          r := r + [IEs[i]];
        }
      }
    }
  }
}
