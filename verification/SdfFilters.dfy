/** The SDF Filter element (pkg/dataplane/vpp/sdf_parser.go, parseSDFFilter), section 8.2.5
    of TS 29.244: flag byte, spare byte, then each flagged field in turn. */
module SdfFilters {
  import opened Bytes
  import opened FlowDescriptions

  predicate Flagged(flags: byte, bit: byte)
    requires bit > 0
  {
    flags / bit % 2 == 1
  }

  /** The byte strings of the fields, empty when the flag is clear. The flow field starts
      with its own two-byte length. */
  datatype Parts = Parts(flags: byte, spare: byte, flow: seq<byte>, tos: seq<byte>,
                         spi: seq<byte>, fl: seq<byte>, id: seq<byte>)

  predicate WellSized(p: Parts) {
    && (if Flagged(p.flags, 1) then |p.flow| >= 2 && |p.flow| == 2 + U16(p.flow) else p.flow == [])
    && |p.tos| == Width(p.flags, 2, 2)
    && |p.spi| == Width(p.flags, 4, 4)
    && |p.fl| == Width(p.flags, 8, 3)
    && |p.id| == Width(p.flags, 16, 4)
  }

  function Width(flags: byte, bit: byte, width: nat): nat
    requires bit > 0
  {
    if Flagged(flags, bit) then width else 0
  }

  function Glue(p: Parts): seq<byte> {
    [p.flags, p.spare] + p.flow + p.tos + p.spi + p.fl + p.id
  }

  /** Width of the flow field: its length is itself read from the bytes. */
  function FlowWidth(v: seq<byte>): Option<nat>
    requires |v| >= 2
  {
    if !Flagged(v[0], 1) then Some(0) else if |v| < 4 then None else Some(2 + U16(v[2..]))
  }

  /** Where the flow field and the four numeric fields end. */
  datatype Ends = Ends(a: nat, b: nat, c: nat, d: nat, e: nat)

  function EndsFrom(flags: byte, a: nat): (x: Ends)
    ensures a == x.a <= x.b <= x.c <= x.d <= x.e
    ensures x.b - x.a == Width(flags, 2, 2) && x.c - x.b == Width(flags, 4, 4)
    ensures x.d - x.c == Width(flags, 8, 3) && x.e - x.d == Width(flags, 16, 4)
  {
    var b := a + Width(flags, 2, 2);
    var c := b + Width(flags, 4, 4);
    var d := c + Width(flags, 8, 3);
    Ends(a, b, c, d, d + Width(flags, 16, 4))
  }

  /** The parts at the front of v, if v is long enough. */
  function Cut(v: seq<byte>): Option<Parts> {
    if |v| < 2 || FlowWidth(v).None? then None else
    var x := EndsFrom(v[0], 2 + FlowWidth(v).value);
    if |v| < x.e then None
    else Some(Parts(v[0], v[1], v[2..x.a], v[x.a..x.b], v[x.b..x.c], v[x.c..x.d], v[x.d..x.e]))
  }

  /** Cutting succeeds exactly on the texts that start with glued parts, and finds them. */
  lemma CutsExactly(v: seq<byte>, p: Parts)
    ensures Cut(v) == Some(p) <==> WellSized(p) && Glue(p) <= v
  {
    if WellSized(p) && Glue(p) <= v {
      GluedCuts(v, p);
    }
    if Cut(v) == Some(p) {
      CutGlues(v, p);
    }
  }

  lemma Peel(x: seq<byte>, y: seq<byte>, v: seq<byte>)
    requires x + y <= v
    ensures x <= v && v[|x|..|x| + |y|] == y
  {
    assert v[..|x| + |y|] == x + y;
    assert v[..|x|] == v[..|x| + |y|][..|x|];
    assert v[|x|..|x| + |y|] == v[..|x| + |y|][|x|..];
  }

  lemma GluedCuts(v: seq<byte>, p: Parts)
    requires WellSized(p) && Glue(p) <= v
    ensures Cut(v) == Some(p)
  {
    var g0 := [p.flags, p.spare];
    var g1 := g0 + p.flow;
    var g2 := g1 + p.tos;
    var g3 := g2 + p.spi;
    var g4 := g3 + p.fl;
    Peel(g4, p.id, v);
    Peel(g3, p.fl, v);
    Peel(g2, p.spi, v);
    Peel(g1, p.tos, v);
    Peel(g0, p.flow, v);
    assert v[0] == v[..2][0] && v[1] == v[..2][1];
    if Flagged(p.flags, 1) {
      assert v[2..][0] == v[2..2 + |p.flow|][0] && v[2..][1] == v[2..2 + |p.flow|][1];
    }
  }

  lemma CutGlues(v: seq<byte>, p: Parts)
    requires Cut(v) == Some(p)
    ensures WellSized(p) && Glue(p) <= v
  {
    CutSizes(v, p);
    Chop(v, EndsFrom(v[0], 2 + FlowWidth(v).value));
  }

  lemma Chop(v: seq<byte>, x: Ends)
    requires 2 <= x.a <= x.b <= x.c <= x.d <= x.e <= |v|
    ensures [v[0], v[1]] + v[2..x.a] + v[x.a..x.b] + v[x.b..x.c] + v[x.c..x.d] + v[x.d..x.e] == v[..x.e]
  {
    assert [v[0], v[1]] + v[2..x.a] == v[..x.a];
    assert v[..x.a] + v[x.a..x.b] == v[..x.b];
    assert v[..x.b] + v[x.b..x.c] == v[..x.c];
    assert v[..x.c] + v[x.c..x.d] == v[..x.d];
  }

  lemma CutSizes(v: seq<byte>, p: Parts)
    requires Cut(v) == Some(p)
    ensures WellSized(p)
  {
    if Flagged(v[0], 1) {
      assert v[2..][0] == p.flow[0] && v[2..][1] == p.flow[1];
    }
  }

  // ----- meaning -----

  /** A filter with the numeric fields read from their bytes. A flow label keeps its low
      20 bits. */
  function WithNumbers(base: Sdf, tos: seq<byte>, spi: seq<byte>, fl: seq<byte>, id: seq<byte>): Sdf
    requires (|tos| == 0 || |tos| == 2) && (|spi| == 0 || |spi| == 4)
    requires (|fl| == 0 || |fl| == 3) && (|id| == 0 || |id| == 4)
  {
    base.(tos := if tos == [] then 0 else U16(tos),
          spi := if spi == [] then 0 else U32(spi),
          flowLabel := if fl == [] then 0 else U24(fl) % 0x10_0000,
          filterId := if id == [] then 0 else U32(id))
  }

  /** The numeric fields on top of the filter the flow text denotes. */
  function Meaning(p: Parts): Option<Sdf>
    requires WellSized(p)
  {
    match if p.flow == [] then Some(EMPTY_SDF) else ParseFlow(p.flow[2..])
    case None => None
    case Some(base) => Some(WithNumbers(base, p.tos, p.spi, p.fl, p.id))
  }

  function DecodeSdf(v: seq<byte>): Option<Sdf> {
    match Cut(v)
    case None => None
    case Some(p) => CutSizes(v, p); Meaning(p)
  }

  // ----- reference encoder -----

  datatype SdfIE = SdfIE(flow: Option<gostring>, tos: Option<u16>, spi: Option<u32>,
                         fl: Option<u24>, id: Option<u32>)

  predicate Encodable(f: SdfIE) {
    f.flow.Some? ==> |f.flow.value| < 0x1_0000
  }

  function FlagByte(f: SdfIE): byte {
    (if f.flow.Some? then 1 else 0) + (if f.tos.Some? then 2 else 0) + (if f.spi.Some? then 4 else 0)
    + (if f.fl.Some? then 8 else 0) + (if f.id.Some? then 16 else 0)
  }

  function PartsOf(f: SdfIE, spare: byte): Parts
    requires Encodable(f)
  {
    Parts(FlagByte(f), spare,
          if f.flow.Some? then BE16(|f.flow.value|) + f.flow.value else [],
          if f.tos.Some? then BE16(f.tos.value) else [],
          if f.spi.Some? then BE32(f.spi.value) else [],
          if f.fl.Some? then BE24(f.fl.value) else [],
          if f.id.Some? then BE32(f.id.value) else [])
  }

  lemma FlagsApart(f: SdfIE)
    ensures Flagged(FlagByte(f), 1) <==> f.flow.Some?
    ensures Flagged(FlagByte(f), 2) <==> f.tos.Some?
    ensures Flagged(FlagByte(f), 4) <==> f.spi.Some?
    ensures Flagged(FlagByte(f), 8) <==> f.fl.Some?
    ensures Flagged(FlagByte(f), 16) <==> f.id.Some?
  {
  }

  /** For every combination of fields, whatever follows: decoding finds each field, and
      fails only if the flow text does not parse. */
  lemma SdfRoundTrip(f: SdfIE, spare: byte, tail: seq<byte>)
    requires Encodable(f)
    ensures var base := if f.flow.Some? then ParseFlow(f.flow.value) else Some(EMPTY_SDF);
            DecodeSdf(Glue(PartsOf(f, spare)) + tail) ==
            if base.None? then None else
            Some(base.value.(tos := if f.tos.Some? then f.tos.value else 0,
                             spi := if f.spi.Some? then f.spi.value else 0,
                             flowLabel := if f.fl.Some? then f.fl.value % 0x10_0000 else 0,
                             filterId := if f.id.Some? then f.id.value else 0))
  {
    var p := PartsOf(f, spare);
    FlagsApart(f);
    PartsMean(f, spare);
    GluedCuts(Glue(p) + tail, p);
  }

  /** The bytes of an element, field by field: a bit per field in the first byte, a spare byte,
      the flow text behind its length, two bytes, four, three, four. */
  lemma SdfLayout(f: SdfIE, spare: byte)
    requires Encodable(f)
    ensures Glue(PartsOf(f, spare)) ==
            [(if f.flow.Some? then 0x01 else 0) + (if f.tos.Some? then 0x02 else 0) + (if f.spi.Some? then 0x04 else 0)
             + (if f.fl.Some? then 0x08 else 0) + (if f.id.Some? then 0x10 else 0), spare]
            + (if f.flow.Some? then [|f.flow.value| / 0x100, |f.flow.value| % 0x100] + f.flow.value else [])
            + (if f.tos.Some? then [f.tos.value / 0x100, f.tos.value % 0x100] else [])
            + (if f.spi.Some? then BE32(f.spi.value) else [])
            + (if f.fl.Some? then BE24(f.fl.value) else [])
            + (if f.id.Some? then BE32(f.id.value) else [])
  {
  }

  lemma PartsMean(f: SdfIE, spare: byte)
    requires Encodable(f)
    ensures var p := PartsOf(f, spare);
            && WellSized(p)
            && (f.flow.Some? ==> p.flow[2..] == f.flow.value)
            && (f.tos.Some? ==> U16(p.tos) == f.tos.value) && (f.spi.Some? ==> U32(p.spi) == f.spi.value)
            && (f.fl.Some? ==> U24(p.fl) == f.fl.value) && (f.id.Some? ==> U32(p.id) == f.id.value)
  {
    FlagsApart(f);
    if f.spi.Some? { Whole32(f.spi.value); }
    if f.id.Some? { Whole32(f.id.value); }
    if f.fl.Some? {
      Codec24(f.fl.value, []);
      assert BE24(f.fl.value) + [] == BE24(f.fl.value);
    }
  }

  lemma Whole32(v: u32)
    ensures U32(BE32(v)) == v
  {
    Codec32(v, []);
    assert BE32(v) + [] == BE32(v);
  }

  /** Decoding succeeds exactly when the bytes hold every flagged field and any flow text
      parses; bytes beyond the last field are ignored. */
  lemma DecodesExactly(v: seq<byte>)
    ensures DecodeSdf(v).Some? <==>
            exists p :: WellSized(p) && Glue(p) <= v && (p.flow != [] ==> ParseFlow(p.flow[2..]).Some?)
  {
    if DecodeSdf(v).Some? {
      CutGlues(v, Cut(v).value);
    }
    if p :| WellSized(p) && Glue(p) <= v && (p.flow != [] ==> ParseFlow(p.flow[2..]).Some?) {
      GluedCuts(v, p);
    }
  }

  // ----- the imperative code -----

  method ParseSDFFilter(v: seq<byte>) returns (r: Option<Sdf>)
    ensures r == DecodeSdf(v)
  {
    if |v| < 2 {
      return None;
    }
    var flags := v[0];
    var offset := 2;
    var sdf := EMPTY_SDF;
    if Flagged(flags, 1) {
      if |v| < offset + 2 {
        return None;
      }
      var fdLen: nat := U16(v[offset..]);
      offset := offset + 2;
      if |v| < offset + fdLen {
        return None;
      }
      var parsed := ParseFlowDescription(v[offset..offset + fdLen]);
      assert v[2..4 + fdLen][2..] == v[4..4 + fdLen];
      offset := offset + fdLen;
      if parsed.None? {
        return None;
      }
      sdf := parsed.value;
    }
    r := ParseNumbers(v, flags, offset, sdf);
  }

  /** The fields after the flow description. */
  method ParseNumbers(v: seq<byte>, flags: byte, start: nat, base: Sdf) returns (r: Option<Sdf>)
    requires start <= |v|
    requires base.tos == 0 && base.spi == 0 && base.flowLabel == 0 && base.filterId == 0
    ensures var x := EndsFrom(flags, start);
            r == if |v| < x.e then None
                 else Some(WithNumbers(base, v[x.a..x.b], v[x.b..x.c], v[x.c..x.d], v[x.d..x.e]))
  {
    var offset := start;
    var sdf := base;
    if Flagged(flags, 2) {
      if |v| < offset + 2 {
        return None;
      }
      sdf := sdf.(tos := U16(v[offset..offset + 2]));
      offset := offset + 2;
    }
    if Flagged(flags, 4) {
      if |v| < offset + 4 {
        return None;
      }
      sdf := sdf.(spi := U32(v[offset..offset + 4]));
      offset := offset + 4;
    }
    if Flagged(flags, 8) {
      if |v| < offset + 3 {
        return None;
      }
      sdf := sdf.(flowLabel := U24(v[offset..offset + 3]) % 0x10_0000);
      offset := offset + 3;
    }
    if Flagged(flags, 16) {
      if |v| < offset + 4 {
        return None;
      }
      sdf := sdf.(filterId := U32(v[offset..offset + 4]));
      offset := offset + 4;
    }
    r := Some(sdf);
  }
}
