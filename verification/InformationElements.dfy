/** Information elements (pkg/protocol/ie.go): the type-length-value codec, grouped
    elements, and the typed constructors. */
module InformationElements {
  import opened Bytes

  const CREATE_PDR: u16 := 1
  const PDI: u16 := 2
  const CREATE_FAR: u16 := 3
  const FORWARDING_PARAMETERS: u16 := 4
  const CREATE_URR: u16 := 6
  const CREATE_QER: u16 := 7
  const CAUSE: u16 := 19
  const SOURCE_INTERFACE: u16 := 20
  const NETWORK_INSTANCE: u16 := 22
  const SDF_FILTER: u16 := 23
  const APPLICATION_ID: u16 := 24
  const PRECEDENCE: u16 := 29
  const DESTINATION_INTERFACE: u16 := 42
  const APPLY_ACTION: u16 := 44
  const PDR_ID: u16 := 56
  const NODE_ID: u16 := 60
  const URR_ID: u16 := 81
  const UE_IP_ADDRESS: u16 := 93
  const RECOVERY_TIME_STAMP: u16 := 96
  const FAR_ID: u16 := 108
  const QER_ID: u16 := 109

  const REQUEST_ACCEPTED: byte := 1

  /** Largest slice the receive loop can hand to the decoder. */
  const MAX_INPUT: nat := 65535

  datatype IE = IE(typ: u16, enterprise: u16, value: seq<byte>)

  /** Vendor types (top bit set) carry a two-byte enterprise identifier. */
  predicate IsVendor(typ: u16) {
    typ >= 0x8000
  }

  function BodyLength(ie: IE): nat {
    |ie.value| + if IsVendor(ie.typ) then 2 else 0
  }

  /** The bytes of one element. The length field is the low 16 bits of the body length. */
  function EncodeIE(ie: IE): (s: seq<byte>)
    ensures |s| == 4 + BodyLength(ie)
  {
    BE16(ie.typ) + BE16(BodyLength(ie) % 0x1_0000)
    + (if IsVendor(ie.typ) then BE16(ie.enterprise) else []) + ie.value
  }

  function EncodeIEs(ies: seq<IE>): seq<byte> {
    if ies == [] then [] else EncodeIE(ies[0]) + EncodeIEs(ies[1..])
  }

  /** Panics is a Go run-time panic: a slice expression whose bounds are out of order. */
  datatype IEResult = Parsed(ie: IE, n: nat) | Malformed | Panics
  datatype IEsResult = AllParsed(ies: seq<IE>) | SomeMalformed | SomePanics

  /** Decodes the element at the front of data. The upper slice bound is computed in
      16 bits, so it wraps when the length field exceeds 65531. */
  function DecodeIE(data: seq<byte>): (r: IEResult)
    ensures r.Parsed? ==> 4 <= r.n <= |data|
  {
    if |data| < 4 then Malformed else
    var typ, length := U16(data), U16(data[2..]);
    if |data| < 4 + length then Malformed
    else if IsVendor(typ) && length < 2 then Malformed
    else
      var from := if IsVendor(typ) then 6 else 4;
      var upTo := (4 + length) % 0x1_0000;
      if upTo < from then Panics
      else Parsed(IE(typ, if IsVendor(typ) then U16(data[4..]) else 0, data[from..upTo]), 4 + length)
  }

  function ParseIEs(data: seq<byte>): IEsResult
    decreases |data|
  {
    if data == [] then AllParsed([]) else
    match DecodeIE(data)
    case Malformed => SomeMalformed
    case Panics => SomePanics
    case Parsed(ie, n) => Prepend([ie], ParseIEs(data[n..]))
  }

  function Prepend(ies: seq<IE>, r: IEsResult): IEsResult {
    if r.AllParsed? then AllParsed(ies + r.ies) else r
  }

  /** What the decoding loop has left to do: ies are done, the bytes from offset on are not. */
  function ParseFrom(data: seq<byte>, offset: nat, ies: seq<IE>): IEsResult
    requires offset <= |data|
  {
    Prepend(ies, ParseIEs(data[offset..]))
  }

  lemma ParseFromEnds(data: seq<byte>, ies: seq<IE>)
    ensures ParseFrom(data, 0, []) == ParseIEs(data)
    ensures ParseFrom(data, |data|, ies) == AllParsed(ies)
  {
    assert data[0..] == data && ies + [] == ies;
    var r := ParseIEs(data);
    if r.AllParsed? {
      assert [] + r.ies == r.ies;
    }
  }

  /** One turn of the loop. */
  lemma ParseFromStep(data: seq<byte>, offset: nat, ies: seq<IE>)
    requires offset < |data|
    ensures match DecodeIE(data[offset..])
            case Malformed => ParseFrom(data, offset, ies) == SomeMalformed
            case Panics => ParseFrom(data, offset, ies) == SomePanics
            case Parsed(ie, n) => ParseFrom(data, offset, ies) == ParseFrom(data, offset + n, ies + [ie])
  {
    var one := DecodeIE(data[offset..]);
    if one.Parsed? {
      assert data[offset..][one.n..] == data[offset + one.n..];
      PrependStep(ies, one.ie, ParseIEs(data[offset + one.n..]));
    }
  }

  lemma PrependStep(ies: seq<IE>, ie: IE, r: IEsResult)
    ensures Prepend(ies, Prepend([ie], r)) == Prepend(ies + [ie], r)
  {
    if r.AllParsed? {
      assert ies + ([ie] + r.ies) == ies + [ie] + r.ies;
    }
  }

  /** An element that can come out of the decoder. */
  predicate Canonical(ie: IE) {
    !IsVendor(ie.typ) ==> ie.enterprise == 0
  }

  predicate AllCanonical(ies: seq<IE>) {
    forall i :: 0 <= i < |ies| ==> Canonical(ies[i])
  }

  // ----- one element -----

  /** The decoder panics exactly on a complete element whose length field is above 65531. */
  lemma PanicsExactly(data: seq<byte>)
    ensures DecodeIE(data).Panics? <==> |data| >= 4 && 65532 <= U16(data[2..]) <= |data| - 4
    ensures |data| <= MAX_INPUT ==> !DecodeIE(data).Panics?
  {
  }

  /** Decoding one element inverts encoding it, in both directions, on every input the
      receive loop can deliver. */
  lemma DecodesExactly(data: seq<byte>, ie: IE, n: nat)
    requires |data| <= MAX_INPUT
    ensures DecodeIE(data) == Parsed(ie, n) <==>
            Canonical(ie) && n == |EncodeIE(ie)| <= |data| && data[..n] == EncodeIE(ie)
  {
    if Canonical(ie) && n == |EncodeIE(ie)| <= |data| && data[..n] == EncodeIE(ie) {
      EncodedDecodes(data, ie);
    }
    if DecodeIE(data) == Parsed(ie, n) {
      DecodedEncodes(data, ie, n);
    }
  }

  lemma EncodedDecodes(data: seq<byte>, ie: IE)
    requires |data| <= MAX_INPUT && Canonical(ie)
    requires |EncodeIE(ie)| <= |data| && data[..|EncodeIE(ie)|] == EncodeIE(ie)
    ensures DecodeIE(data) == Parsed(ie, |EncodeIE(ie)|)
  {
    var e := EncodeIE(ie);
    EncodedFields(ie);
    SamePrefix(data, e);
    DecodeFields(data, ie, BodyLength(ie));
  }

  lemma SamePrefix(data: seq<byte>, e: seq<byte>)
    requires 4 <= |e| <= |data| && data[..|e|] == e
    ensures U16(data) == e[0] as int * 0x100 + e[1] && U16(data[2..]) == e[2] as int * 0x100 + e[3]
    ensures data[4..|e|] == e[4..]
    ensures |e| >= 6 ==> U16(data[4..]) == e[4] as int * 0x100 + e[5] && data[6..|e|] == e[6..]
  {
    assert forall i :: 0 <= i < |e| ==> data[i] == data[..|e|][i];
  }

  lemma DecodeFields(data: seq<byte>, ie: IE, n: nat)
    requires Canonical(ie) && 4 + n <= |data| <= MAX_INPUT
    requires U16(data) == ie.typ && U16(data[2..]) == n
    requires if IsVendor(ie.typ) then n >= 2 && U16(data[4..]) == ie.enterprise && data[6..4 + n] == ie.value
             else data[4..4 + n] == ie.value
    ensures DecodeIE(data) == Parsed(ie, 4 + n)
  {
  }

  lemma EncodedFields(ie: IE)
    ensures var e := EncodeIE(ie);
            && e[0] as int * 0x100 + e[1] == ie.typ
            && e[2] as int * 0x100 + e[3] == BodyLength(ie) % 0x1_0000
            && (if IsVendor(ie.typ) then e[4] as int * 0x100 + e[5] == ie.enterprise && e[6..] == ie.value
                else e[4..] == ie.value)
  {
    var e, l := EncodeIE(ie), BE16(BodyLength(ie) % 0x1_0000);
    assert e[0] == BE16(ie.typ)[0] && e[1] == BE16(ie.typ)[1] && e[2] == l[0] && e[3] == l[1];
    if IsVendor(ie.typ) {
      assert e[4] == BE16(ie.enterprise)[0] && e[5] == BE16(ie.enterprise)[1];
      assert e[6..] == ie.value;
    } else {
      assert e[4..] == ie.value;
    }
  }

  lemma DecodedEncodes(data: seq<byte>, ie: IE, n: nat)
    requires |data| <= MAX_INPUT && DecodeIE(data) == Parsed(ie, n)
    ensures Canonical(ie) && n == |EncodeIE(ie)| <= |data| && data[..n] == EncodeIE(ie)
  {
    var from := if IsVendor(ie.typ) then 6 else 4;
    DecodedFields(data, ie, n, from);
    FieldsEncode(data, ie, n, from);
  }

  lemma FieldsEncode(data: seq<byte>, ie: IE, n: nat, from: nat)
    requires from == (if IsVendor(ie.typ) then 6 else 4) && from <= n <= |data| && ie.value == data[from..n]
    requires ie.typ == U16(data) && U16(data[2..]) == n - 4 == BodyLength(ie)
    requires if from == 6 then ie.enterprise == U16(data[4..]) else ie.enterprise == 0
    ensures Canonical(ie) && n == |EncodeIE(ie)| && data[..n] == EncodeIE(ie)
  {
    Rebuilt(data, from, n);
    assert BodyLength(ie) % 0x1_0000 == n - 4;
  }

  lemma DecodedFields(data: seq<byte>, ie: IE, n: nat, from: nat)
    requires |data| <= MAX_INPUT && DecodeIE(data) == Parsed(ie, n) && from == if IsVendor(ie.typ) then 6 else 4
    ensures from <= n <= |data| && ie.value == data[from..n] && BodyLength(ie) == n - 4
    ensures ie.typ == U16(data) && U16(data[2..]) == n - 4
    ensures if from == 6 then ie.enterprise == U16(data[4..]) else ie.enterprise == 0
  {
  }

  /** The first n bytes, field by field. */
  lemma Rebuilt(data: seq<byte>, from: nat, n: nat)
    requires (from == 4 || from == 6) && from <= n <= |data|
    ensures data[..n] == BE16(U16(data)) + BE16(U16(data[2..])) + (if from == 6 then BE16(U16(data[4..])) else []) + data[from..n]
  {
    var s := data[..n];
    Codec16(0, data);
    Codec16(0, data[2..]);
    Pieces(s, from);
    assert s[..2] == data[..2] && s[2..4] == data[2..][..2] && s[from..] == data[from..n];
    if from == 6 {
      Codec16(0, data[4..]);
      assert s[4..6] == data[4..][..2];
    }
  }

  // ----- lists of elements -----

  /** Lists of canonical elements and byte strings of at most 65535 bytes correspond one
      to one: parsing yields a list exactly when the bytes are that list's encoding. */
  lemma {:induction false} ParsesExactly(data: seq<byte>, ies: seq<IE>)
    requires |data| <= MAX_INPUT
    ensures ParseIEs(data) == AllParsed(ies) <==> AllCanonical(ies) && EncodeIEs(ies) == data
    decreases |data|
  {
    if data != [] && ies != [] {
      var n := |EncodeIE(ies[0])|;
      ParsesOne(data, ies);
      EncodesOne(data, ies);
      if n <= |data| {
        ParsesExactly(data[n..], ies[1..]);
      }
    }
  }

  /** A list is parsed if its first element is decoded and the rest parsed behind it. */
  lemma ParsesOne(data: seq<byte>, ies: seq<IE>)
    requires data != [] && ies != [] && |data| <= MAX_INPUT
    ensures var n := |EncodeIE(ies[0])|;
            ParseIEs(data) == AllParsed(ies) <==>
            && Canonical(ies[0]) && n <= |data| && data[..n] == EncodeIE(ies[0])
            && ParseIEs(data[n..]) == AllParsed(ies[1..])
  {
    var n := |EncodeIE(ies[0])|;
    DecodesExactly(data, ies[0], n);
    assert ies == [ies[0]] + ies[1..];
    var r := DecodeIE(data);
    if r.Parsed? {
      DecodesExactly(data, r.ie, r.n);
      if ParseIEs(data) == AllParsed(ies) {
        assert ies[0] == r.ie && ies[1..] == ParseIEs(data[r.n..]).ies;
      }
    }
  }

  lemma EncodesOne(data: seq<byte>, ies: seq<IE>)
    requires ies != []
    ensures var n := |EncodeIE(ies[0])|;
            EncodeIEs(ies) == data <==> n <= |data| && data[..n] == EncodeIE(ies[0]) && EncodeIEs(ies[1..]) == data[n..]
    ensures AllCanonical(ies) <==> Canonical(ies[0]) && AllCanonical(ies[1..])
  {
    var n := |EncodeIE(ies[0])|;
    assert ies == [ies[0]] + ies[1..];
    assert EncodeIEs(ies)[..n] == EncodeIE(ies[0]) && EncodeIEs(ies)[n..] == EncodeIEs(ies[1..]);
    if n <= |data| {
      assert data == data[..n] + data[n..];
    }
  }

  lemma {:induction false} NeverPanics(data: seq<byte>)
    requires |data| <= MAX_INPUT
    ensures !ParseIEs(data).SomePanics?
    decreases |data|
  {
    if data != [] {
      PanicsExactly(data);
      var r := DecodeIE(data);
      if r.Parsed? {
        NeverPanics(data[r.n..]);
      }
    }
  }

  lemma {:induction false} EncodeAppend(a: seq<IE>, b: seq<IE>)
    ensures EncodeIEs(a + b) == EncodeIEs(a) + EncodeIEs(b)
  {
    if a == [] {
      assert a + b == b;
    } else {
      EncodeAppend(a[1..], b);
      assert (a + b)[0] == a[0] && (a + b)[1..] == a[1..] + b;
      Associate(EncodeIE(a[0]), EncodeIEs(a[1..]), EncodeIEs(b));
    }
  }

  /** Every element of a list is no longer than the list's encoding. */
  lemma {:induction false} ElementFits(ies: seq<IE>, i: nat)
    requires i < |ies|
    ensures 4 + BodyLength(ies[i]) <= |EncodeIEs(ies)|
  {
    if i > 0 {
      ElementFits(ies[1..], i - 1);
    }
  }

  lemma {:induction false} AtLeastFourEach(ies: seq<IE>)
    ensures 4 * |ies| <= |EncodeIEs(ies)|
  {
    if ies != [] {
      AtLeastFourEach(ies[1..]);
    }
  }

  /** What a group on the wire parses to: never a panic, and, if it parses, canonical
      elements of at least four bytes each that encode to the very bytes parsed. */
  lemma ParsedGroup(data: seq<byte>)
    requires |data| <= MAX_INPUT
    ensures !ParseIEs(data).SomePanics?
    ensures ParseIEs(data).AllParsed? ==>
              var ies := ParseIEs(data).ies;
              AllCanonical(ies) && EncodeIEs(ies) == data && 4 * |ies| <= |data|
  {
    NeverPanics(data);
    if ParseIEs(data).AllParsed? {
      ParsesExactly(data, ParseIEs(data).ies);
      AtLeastFourEach(ParseIEs(data).ies);
    }
  }

  // ----- the imperative code -----

  method MarshalIE(ie: IE) returns (buf: array<byte>)
    ensures fresh(buf) && buf[..] == EncodeIE(ie)
  {
    var hasEnterpriseID := IsVendor(ie.typ);
    var length := |ie.value|;
    if hasEnterpriseID {
      length := length + 2;
    }
    buf := new byte[4 + length];
    PutUint16(buf, 0, ie.typ);
    PutUint16(buf, 2, length % 0x1_0000);
    if hasEnterpriseID {
      PutUint16(buf, 4, ie.enterprise);
      Copy(buf, 6, ie.value);
      Pieces(buf[..], 6);
    } else {
      Copy(buf, 4, ie.value);
      Pieces(buf[..], 4);
    }
  }

  lemma Pieces(s: seq<byte>, k: nat)
    requires 4 <= k <= |s|
    ensures s == s[..2] + s[2..4] + s[4..k] + s[k..]
  {
  }

  method PutUint16(buf: array<byte>, at: nat, v: u16)
    requires at + 2 <= buf.Length
    modifies buf
    ensures buf[at..at + 2] == BE16(v)
    ensures forall i :: 0 <= i < buf.Length && !(at <= i < at + 2) ==> buf[i] == old(buf[i])
  {
    buf[at], buf[at + 1] := v / 0x100, v % 0x100;
  }

  method Copy(buf: array<byte>, at: nat, src: seq<byte>)
    requires at + |src| <= buf.Length
    modifies buf
    ensures buf[at..at + |src|] == src
    ensures forall i :: 0 <= i < buf.Length && !(at <= i < at + |src|) ==> buf[i] == old(buf[i])
  {
    for k := 0 to |src|
      invariant buf[at..at + k] == src[..k]
      invariant forall i :: 0 <= i < buf.Length && !(at <= i < at + k) ==> buf[i] == old(buf[i])
    {
      buf[at + k] := src[k];
      assert buf[at..at + (k + 1)] == buf[at..at + k] + [src[k]];
    }
  }

  /** Fills in an element from the front of data, copying its value into a new buffer. */
  method UnmarshalIE(data: seq<byte>) returns (r: IEResult)
    ensures r == DecodeIE(data)
  {
    if |data| < 4 {
      return Malformed;
    }
    var ie := IE(U16(data), 0, []);
    var length: nat := U16(data[2..]);
    if |data| < 4 + length {
      return Malformed;
    }
    var from := 4;
    if IsVendor(ie.typ) {
      if length < 2 {
        return Malformed;
      }
      ie := ie.(enterprise := U16(data[4..]));
      from := 6;
    }
    var upTo := (4 + length) % 0x1_0000;
    if upTo < from {
      return Panics;
    }
    var value := new byte[4 + length - from];
    Copy(value, 0, data[from..upTo]);
    ie := ie.(value := value[..]);
    r := Parsed(ie, 4 + length);
  }

  method NewGroupedIE(typ: u16, children: seq<IE>) returns (ie: IE)
    ensures ie == IE(typ, 0, EncodeIEs(children))
    ensures AllCanonical(children) && |ie.value| <= MAX_INPUT
            ==> ParseIEs(ie.value) == AllParsed(children)
  {
    var value: seq<byte> := [];
    for i := 0 to |children|
      invariant value == EncodeIEs(children[..i])
    {
      var childData := MarshalIE(children[i]);
      EncodeAppend(children[..i], [children[i]]);
      assert children[..i + 1] == children[..i] + [children[i]];
      assert EncodeIEs([children[i]]) == EncodeIE(children[i]) + EncodeIEs([]);
      value := value + childData[..];
    }
    assert children[..|children|] == children;
    if |value| <= MAX_INPUT {
      ParsesExactly(value, children);
    }
    ie := IE(typ, 0, value);
  }

  method ParseGroupedIE(data: seq<byte>) returns (r: IEsResult)
    ensures r == ParseIEs(data)
  {
    var ies: seq<IE> := [];
    ParseFromEnds(data, ies);
    ghost var whole := ParseIEs(data);
    var offset := 0;
    while offset < |data|
      invariant 0 <= offset <= |data|
      invariant ParseFrom(data, offset, ies) == whole
      decreases |data| - offset
    {
      ParseFromStep(data, offset, ies);
      var one := UnmarshalIE(data[offset..]);
      if !one.Parsed? {
        return if one.Panics? then SomePanics else SomeMalformed;
      }
      ies := ies + [one.ie];
      offset := offset + one.n;
    }
    ParseFromEnds(data, ies);
    r := AllParsed(ies);
  }

  // ----- typed elements -----

  function NewCause(cause: byte): IE { IE(CAUSE, 0, [cause]) }
  function NewNodeID(nodeID: gostring): IE { IE(NODE_ID, 0, [0] + nodeID) }
  function NewRecoveryTimeStamp(ts: u32): IE { IE(RECOVERY_TIME_STAMP, 0, BE32(ts)) }
  function NewSourceInterface(iface: byte): IE { IE(SOURCE_INTERFACE, 0, [iface]) }
  function NewDestinationInterface(iface: byte): IE { IE(DESTINATION_INTERFACE, 0, [iface]) }
  function NewApplyAction(action: byte): IE { IE(APPLY_ACTION, 0, [action]) }
  function NewPdrId(id: u16): IE { IE(PDR_ID, 0, BE16(id)) }
  function NewFarId(id: u32): IE { IE(FAR_ID, 0, BE32(id)) }
  function NewPrecedence(p: u32): IE { IE(PRECEDENCE, 0, BE32(p)) }
  function NewApplicationId(app: gostring): IE { IE(APPLICATION_ID, 0, app) }
  function NewGroup(typ: u16, children: seq<IE>): IE { IE(typ, 0, EncodeIEs(children)) }

  /** Flow description present, a spare byte, a 16-bit length, the text. */
  function NewSdfFilter(flow: gostring): IE {
    IE(SDF_FILTER, 0, [0x01, 0] + BE16(|flow| % 0x1_0000) + flow)
  }

  /** net.IP.To4: the four-byte form, if there is one. */
  function To4(ip: seq<byte>): Option<seq<byte>> {
    if |ip| == 4 then Some(ip)
    else if |ip| == 16 && ip[..12] == [0, 0, 0, 0, 0, 0, 0, 0, 0, 0, 0xff, 0xff] then Some(ip[12..])
    else None
  }

  /** Flag byte and address; an address of unusual length leaves sixteen zero bytes. */
  function NewUeIpAddress(ip: seq<byte>): IE {
    match To4(ip)
    case Some(v4) => IE(UE_IP_ADDRESS, 0, [0x02] + v4)
    case None => IE(UE_IP_ADDRESS, 0, [0x01] + if |ip| == 16 then ip else seq(16, _ => 0))
  }

  function GetCause(ie: IE): Option<byte> {
    if ie.typ != CAUSE || |ie.value| < 1 then None else Some(ie.value[0])
  }

  /** The identifier getters yield zero when the element is too short; the callers
      ignore the error that comes with it. */
  function GetPdrId(ie: IE): u16 {
    if ie.typ != PDR_ID || |ie.value| < 2 then 0 else U16(ie.value)
  }

  function GetFarId(ie: IE): u32 {
    if ie.typ != FAR_ID || |ie.value| < 4 then 0 else U32(ie.value)
  }
}
