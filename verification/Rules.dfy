/** Packet detection and forwarding action rules: how the control plane marshals them
    (pkg/cp/cp.go) and how the user plane reads them back (pkg/up/handlers.go). */
module Rules {
  import opened Bytes
  import opened InformationElements
  import opened Messages

  // ----- control-plane rules -----

  datatype CpPdi = CpPdi(sourceInterface: byte, networkInstance: gostring, ueIp: Option<seq<byte>>,
                         sdf: gostring, appId: gostring)
  datatype CpPdr = CpPdr(id: u16, precedence: u32, pdi: Option<CpPdi>, farId: u32,
                         qerIds: seq<u32>, urrIds: seq<u32>)
  datatype ForwardingParams = ForwardingParams(destinationInterface: byte, networkInstance: gostring)
  datatype CpFar = CpFar(id: u32, applyAction: byte, forwarding: Option<ForwardingParams>)

  /** Quality and usage rules are reduced to their identifiers: nothing else is marshalled. */
  datatype CpRules = CpRules(pdrs: seq<CpPdr>, fars: seq<CpFar>, qers: seq<u32>, urrs: seq<u32>)

  function PdiIEs(p: CpPdi): seq<IE> {
    [NewSourceInterface(p.sourceInterface)]
    + (if p.ueIp.Some? then [NewUeIpAddress(p.ueIp.value)] else [])
    + (if p.sdf != [] then [NewSdfFilter(p.sdf)] else [])
    + (if p.appId != [] then [NewApplicationId(p.appId)] else [])
  }

  function IdIEs(typ: u16, ids: seq<u32>): (ies: seq<IE>)
    ensures |ies| == |ids|
    ensures forall i :: 0 <= i < |ies| ==> ies[i] == IE(typ, 0, BE32(ids[i]))
  {
    seq(|ids|, i requires 0 <= i < |ids| => IE(typ, 0, BE32(ids[i])))
  }

  function PdrIEs(p: CpPdr): seq<IE> {
    [NewPdrId(p.id), NewPrecedence(p.precedence)]
    + (if p.pdi.Some? then [NewGroup(PDI, PdiIEs(p.pdi.value))] else [])
    + [NewFarId(p.farId)]
    + IdIEs(QER_ID, p.qerIds) + IdIEs(URR_ID, p.urrIds)
  }

  function FarIEs(f: CpFar): seq<IE> {
    [NewFarId(f.id), NewApplyAction(f.applyAction)]
    + if f.forwarding.Some?
      then [NewGroup(FORWARDING_PARAMETERS, [NewDestinationInterface(f.forwarding.value.destinationInterface)])]
      else []
  }

  function CreatePdrs(pdrs: seq<CpPdr>): (ies: seq<IE>)
    ensures |ies| == |pdrs|
    ensures forall i :: 0 <= i < |ies| ==> ies[i] == NewGroup(CREATE_PDR, PdrIEs(pdrs[i]))
  {
    seq(|pdrs|, i requires 0 <= i < |pdrs| => NewGroup(CREATE_PDR, PdrIEs(pdrs[i])))
  }

  function CreateFars(fars: seq<CpFar>): (ies: seq<IE>)
    ensures |ies| == |fars|
    ensures forall i :: 0 <= i < |ies| ==> ies[i] == NewGroup(CREATE_FAR, FarIEs(fars[i]))
  {
    seq(|fars|, i requires 0 <= i < |fars| => NewGroup(CREATE_FAR, FarIEs(fars[i])))
  }

  /** One group per quality or usage rule, holding its identifier. */
  function CreateIds(group: u16, typ: u16, ids: seq<u32>): (ies: seq<IE>)
    ensures |ies| == |ids|
    ensures forall i :: 0 <= i < |ies| ==> ies[i] == NewGroup(group, [IE(typ, 0, BE32(ids[i]))])
  {
    seq(|ids|, i requires 0 <= i < |ids| => NewGroup(group, [IE(typ, 0, BE32(ids[i]))]))
  }

  /** The request CreateSession sends: header SEID zero. */
  function EstablishmentRequest(seqNum: u32, r: CpRules): Msg {
    NewSessionEstablishmentRequest(seqNum, 0, CreatePdrs(r.pdrs), CreateFars(r.fars),
                                   CreateIds(CREATE_QER, QER_ID, r.qers),
                                   CreateIds(CREATE_URR, URR_ID, r.urrs))
  }

  /** The control plane's rule tables: the last rule with an identifier wins. */
  function CpPdrMap(pdrs: seq<CpPdr>): map<u16, CpPdr> {
    if pdrs == [] then map[] else CpPdrMap(pdrs[..|pdrs| - 1])[pdrs[|pdrs| - 1].id := pdrs[|pdrs| - 1]]
  }

  function CpFarMap(fars: seq<CpFar>): map<u32, CpFar> {
    if fars == [] then map[] else CpFarMap(fars[..|fars| - 1])[fars[|fars| - 1].id := fars[|fars| - 1]]
  }

  // ----- user-plane rules -----

  datatype UpPdi = UpPdi(sourceInterface: byte, sdf: seq<byte>, ueIp: gostring,
                         networkInstance: gostring, appId: gostring)
  datatype UpPdr = UpPdr(id: u16, precedence: u32, farId: u32, pdi: UpPdi)
  datatype UpFar = UpFar(id: u32, applyAction: byte)

  const ZERO_PDI := UpPdi(0, [], [], [], [])
  const ZERO_PDR := UpPdr(0, 0, 0, ZERO_PDI)
  const ZERO_FAR := UpFar(0, 0)

  /** Effect of one element inside a PDI group. */
  function ReadPdiIE(p: UpPdi, ie: IE): UpPdi {
    if ie.typ == SOURCE_INTERFACE then
      if |ie.value| > 0 then p.(sourceInterface := ie.value[0]) else p
    else if ie.typ == SDF_FILTER then p.(sdf := ie.value)
    else if ie.typ == UE_IP_ADDRESS then p.(ueIp := ie.value)
    else if ie.typ == NETWORK_INSTANCE then p.(networkInstance := ie.value)
    else if ie.typ == APPLICATION_ID then p.(appId := ie.value)
    else p
  }

  function ReadPdi(p: UpPdi, ies: seq<IE>): UpPdi {
    if ies == [] then p else ReadPdiIE(ReadPdi(p, ies[..|ies| - 1]), ies[|ies| - 1])
  }

  /** The elements of a group; a group that does not parse counts as empty. */
  function Children(value: seq<byte>): seq<IE> {
    match ParseIEs(value) case AllParsed(ies) => ies case _ => []
  }

  /** Effect of one element inside a Create PDR group. Precedence is read as zero. */
  function ReadPdrIE(p: UpPdr, ie: IE): UpPdr {
    if ie.typ == PDR_ID then p.(id := GetPdrId(ie))
    else if ie.typ == PRECEDENCE then p.(precedence := 0)
    else if ie.typ == FAR_ID then p.(farId := GetFarId(ie))
    else if ie.typ == PDI then p.(pdi := ReadPdi(p.pdi, Children(ie.value)))
    else p
  }

  function ReadPdr(p: UpPdr, ies: seq<IE>): UpPdr {
    if ies == [] then p else ReadPdrIE(ReadPdr(p, ies[..|ies| - 1]), ies[|ies| - 1])
  }

  function ReadFarIE(f: UpFar, ie: IE): UpFar {
    if ie.typ == FAR_ID then f.(id := GetFarId(ie))
    else if ie.typ == APPLY_ACTION then if |ie.value| > 0 then f.(applyAction := ie.value[0]) else f
    else f
  }

  function ReadFar(f: UpFar, ies: seq<IE>): UpFar {
    if ies == [] then f else ReadFarIE(ReadFar(f, ies[..|ies| - 1]), ies[|ies| - 1])
  }

  /** The rules a list of groups describes, in order; groups that do not parse are skipped. */
  function ReadPdrs(groups: seq<IE>): seq<UpPdr> {
    if groups == [] then [] else
    ReadPdrs(groups[..|groups| - 1]) +
    match ParseIEs(groups[|groups| - 1].value)
    case AllParsed(ies) => [ReadPdr(ZERO_PDR, ies)]
    case _ => []
  }

  function ReadFars(groups: seq<IE>): seq<UpFar> {
    if groups == [] then [] else
    ReadFars(groups[..|groups| - 1]) +
    match ParseIEs(groups[|groups| - 1].value)
    case AllParsed(ies) => [ReadFar(ZERO_FAR, ies)]
    case _ => []
  }

  function PdrsOf(m: Msg): seq<UpPdr> { ReadPdrs(FindAllIEs(m.ies, CREATE_PDR)) }
  function FarsOf(m: Msg): seq<UpFar> { ReadFars(FindAllIEs(m.ies, CREATE_FAR)) }

  function PdrTable(pdrs: seq<UpPdr>): map<u16, UpPdr> {
    if pdrs == [] then map[] else PdrTable(pdrs[..|pdrs| - 1])[pdrs[|pdrs| - 1].id := pdrs[|pdrs| - 1]]
  }

  function FarTable(fars: seq<UpFar>): map<u32, UpFar> {
    if fars == [] then map[] else FarTable(fars[..|fars| - 1])[fars[|fars| - 1].id := fars[|fars| - 1]]
  }

  // ----- what the user plane is meant to see of a control-plane rule -----

  /** The network instance is lost. */
  function ProjectPdi(p: CpPdi): UpPdi {
    UpPdi(p.sourceInterface, if p.sdf == [] then [] else FilterBytes(p.sdf),
          if p.ueIp.None? then [] else AddressBytes(p.ueIp.value), [], p.appId)
  }

  /** A flow text on the wire: flags, spare byte, 16-bit length, text. */
  function FilterBytes(text: gostring): seq<byte> {
    [1, 0, |text| / 0x100 % 0x100, |text| % 0x100] + text
  }

  /** An IPv4-mapped IPv6 address, section 2.5.5.2 of RFC 4291. */
  predicate Mapped(ip: seq<byte>) {
    |ip| == 16 && (forall i :: 0 <= i < 10 ==> ip[i] == 0) && ip[10] == ip[11] == 0xff
  }

  /** An address on the wire: a flag, then four bytes for IPv4 or sixteen for IPv6. What is no
      address at all becomes the IPv6 address zero. */
  function AddressBytes(ip: seq<byte>): seq<byte> {
    if |ip| == 4 then [2] + ip
    else if Mapped(ip) then [2] + ip[12..]
    else if |ip| == 16 then [1] + ip
    else [1] + seq(16, _ => 0)
  }

  /** What the user plane holds determines the address, among addresses of one length. */
  lemma AddressRecovered(ip: seq<byte>, ip': seq<byte>)
    requires |ip| == |ip'| && (|ip| == 4 || |ip| == 16) && AddressBytes(ip) == AddressBytes(ip')
    ensures ip == ip'
  {
    var n := |AddressBytes(ip)|;
    assert AddressBytes(ip)[1..] == AddressBytes(ip')[1..];
    if |ip| == 4 {
      assert AddressBytes(ip)[1..] == ip && AddressBytes(ip')[1..] == ip';
    } else if Mapped(ip) {
      assert AddressBytes(ip)[1..] == ip[12..] && AddressBytes(ip')[1..] == ip'[12..];
      assert forall i :: 12 <= i < 16 ==> ip[i] == ip[12..][i - 12] == ip'[12..][i - 12] == ip'[i];
    } else {
      assert AddressBytes(ip)[1..] == ip && AddressBytes(ip')[1..] == ip';
    }
  }

  lemma ElementsAsWritten(text: gostring, ip: seq<byte>)
    ensures NewSdfFilter(text).value == FilterBytes(text) && NewUeIpAddress(ip).value == AddressBytes(ip)
  {
    FilterAsWritten(text);
    AddressAsWritten(ip);
  }

  lemma FilterAsWritten(text: gostring)
    ensures NewSdfFilter(text).value == FilterBytes(text)
  {
    var n := |text|;
    assert n % 0x1_0000 / 0x100 == n / 0x100 % 0x100 && n % 0x1_0000 % 0x100 == n % 0x100 by {
      LowBytes(n);
    }
    assert BE16(n % 0x1_0000) == [n / 0x100 % 0x100, n % 0x100];
  }

  lemma LowBytes(n: nat)
    ensures n % 0x1_0000 / 0x100 == n / 0x100 % 0x100 && n % 0x1_0000 % 0x100 == n % 0x100
  {
    var q, m := n / 0x1_0000, n % 0x1_0000;
    assert n == q * 0x1_0000 + m;
    assert n / 0x100 == q * 0x100 + m / 0x100;
  }

  lemma AddressAsWritten(ip: seq<byte>)
    ensures NewUeIpAddress(ip).value == AddressBytes(ip)
  {
    var zeros: seq<byte> := [0, 0, 0, 0, 0, 0, 0, 0, 0, 0, 0xff, 0xff];
    if |ip| == 16 {
      assert Mapped(ip) <==> ip[..12] == zeros by {
        if Mapped(ip) {
          assert forall i :: 0 <= i < 12 ==> ip[..12][i] == zeros[i];
        }
        if ip[..12] == zeros {
          assert forall i :: 0 <= i < 12 ==> ip[i] == ip[..12][i];
        }
      }
    }
  }

  /** Precedence becomes zero; network instance and rule references other than the FAR are lost. */
  function ProjectPdr(p: CpPdr): UpPdr {
    UpPdr(p.id, 0, p.farId, if p.pdi.Some? then ProjectPdi(p.pdi.value) else ZERO_PDI)
  }

  function ProjectFar(f: CpFar): UpFar {
    UpFar(f.id, f.applyAction)
  }

  // ----- end-to-end agreement -----

  /** Whatever fits in one datagram: the rule tables the user plane builds from the decoded
      request are the projections of the control plane's own tables, duplicates included. */
  lemma RuleAgreement(seqNum: u32, r: CpRules)
    requires |EncodeIEs(EstablishmentRequest(seqNum, r).ies)| <= MAX_INPUT
    ensures var m := EstablishmentRequest(seqNum, r);
            && PdrTable(PdrsOf(m)) == (map k | k in CpPdrMap(r.pdrs) :: ProjectPdr(CpPdrMap(r.pdrs)[k]))
            && FarTable(FarsOf(m)) == (map k | k in CpFarMap(r.fars) :: ProjectFar(CpFarMap(r.fars)[k]))
  {
    var m := EstablishmentRequest(seqNum, r);
    FindRuleGroups(seqNum, r);
    var pdrs, fars := CreatePdrs(r.pdrs), CreateFars(r.fars);
    forall i | 0 <= i < |pdrs| ensures |pdrs[i].value| <= MAX_INPUT {
      assert m.ies[i] == pdrs[i];
      ElementFits(m.ies, i);
    }
    forall i | 0 <= i < |fars| ensures |fars[i].value| <= MAX_INPUT {
      assert m.ies[|pdrs| + i] == fars[i];
      ElementFits(m.ies, |pdrs| + i);
    }
    PdrTablesAgree(r.pdrs);
    FarTablesAgree(r.fars);
  }

  /** The groups of each kind are found again among the elements of the request. */
  lemma FindRuleGroups(seqNum: u32, r: CpRules)
    ensures var m := EstablishmentRequest(seqNum, r);
            && FindAllIEs(m.ies, CREATE_PDR) == CreatePdrs(r.pdrs)
            && FindAllIEs(m.ies, CREATE_FAR) == CreateFars(r.fars)
            && FindIE(m.ies, CAUSE) == None
  {
    var a, b := CreatePdrs(r.pdrs), CreateFars(r.fars);
    var c, d := CreateIds(CREATE_QER, QER_ID, r.qers), CreateIds(CREATE_URR, URR_ID, r.urrs);
    FindGroups(a, b, c, d, CREATE_PDR);
    FindGroups(a, b, c, d, CREATE_FAR);
    var ies := a + b + c + d;
    assert forall i :: 0 <= i < |ies| ==> ies[i].typ != CAUSE;
  }

  lemma FindGroups(a: seq<IE>, b: seq<IE>, c: seq<IE>, d: seq<IE>, typ: u16)
    requires forall i :: 0 <= i < |a| ==> a[i].typ == CREATE_PDR
    requires forall i :: 0 <= i < |b| ==> b[i].typ == CREATE_FAR
    requires forall i :: 0 <= i < |c| ==> c[i].typ == CREATE_QER
    requires forall i :: 0 <= i < |d| ==> d[i].typ == CREATE_URR
    ensures typ == CREATE_PDR ==> FindAllIEs(a + b + c + d, typ) == a
    ensures typ == CREATE_FAR ==> FindAllIEs(a + b + c + d, typ) == b
  {
    FindAllAppend(a + b + c, d, typ);
    FindAllAppend(a + b, c, typ);
    FindAllAppend(a, b, typ);
    FindAllOfOneType(a, CREATE_PDR, typ);
    FindAllOfOneType(b, CREATE_FAR, typ);
    FindAllOfOneType(c, CREATE_QER, typ);
    FindAllOfOneType(d, CREATE_URR, typ);
  }

  lemma {:induction false} PdrTablesAgree(pdrs: seq<CpPdr>)
    requires forall i :: 0 <= i < |pdrs| ==> |CreatePdrs(pdrs)[i].value| <= MAX_INPUT
    ensures PdrTable(ReadPdrs(CreatePdrs(pdrs)))
            == (map k | k in CpPdrMap(pdrs) :: ProjectPdr(CpPdrMap(pdrs)[k]))
  {
    if pdrs != [] {
      var n := |pdrs| - 1;
      var init := pdrs[..n];
      forall i | 0 <= i < n ensures |CreatePdrs(init)[i].value| <= MAX_INPUT {
        assert CreatePdrs(init)[i] == CreatePdrs(pdrs)[i];
      }
      PdrTablesAgree(init);
      ReadLastPdr(pdrs);
      PdrTableGrows(ReadPdrs(CreatePdrs(init)), ProjectPdr(pdrs[n]));
      PdrMapGrows(pdrs);
    }
  }

  lemma PdrTableGrows(pdrs: seq<UpPdr>, pdr: UpPdr)
    ensures PdrTable(pdrs + [pdr]) == PdrTable(pdrs)[pdr.id := pdr]
  {
    assert (pdrs + [pdr])[..|pdrs|] == pdrs;
  }

  lemma FarTableGrows(fars: seq<UpFar>, far: UpFar)
    ensures FarTable(fars + [far]) == FarTable(fars)[far.id := far]
  {
    assert (fars + [far])[..|fars|] == fars;
  }

  lemma PdrMapGrows(pdrs: seq<CpPdr>)
    requires pdrs != []
    ensures var last, before := pdrs[|pdrs| - 1], CpPdrMap(pdrs[..|pdrs| - 1]);
            (map k | k in CpPdrMap(pdrs) :: ProjectPdr(CpPdrMap(pdrs)[k]))
            == (map k | k in before :: ProjectPdr(before[k]))[last.id := ProjectPdr(last)]
  {
  }

  lemma FarMapGrows(fars: seq<CpFar>)
    requires fars != []
    ensures var last, before := fars[|fars| - 1], CpFarMap(fars[..|fars| - 1]);
            (map k | k in CpFarMap(fars) :: ProjectFar(CpFarMap(fars)[k]))
            == (map k | k in before :: ProjectFar(before[k]))[last.id := ProjectFar(last)]
  {
  }

  /** What the next group adds to the rules. */
  lemma PdrsGrow(groups: seq<IE>, i: nat)
    requires i < |groups|
    ensures var parsed := ParseIEs(groups[i].value);
            ReadPdrs(groups[..i + 1]) == ReadPdrs(groups[..i]) + if parsed.AllParsed? then [ReadPdr(ZERO_PDR, parsed.ies)] else []
  {
    assert groups[..i + 1][..i] == groups[..i];
  }

  lemma FarsGrow(groups: seq<IE>, i: nat)
    requires i < |groups|
    ensures var parsed := ParseIEs(groups[i].value);
            ReadFars(groups[..i + 1]) == ReadFars(groups[..i]) + if parsed.AllParsed? then [ReadFar(ZERO_FAR, parsed.ies)] else []
  {
    assert groups[..i + 1][..i] == groups[..i];
  }

  lemma ReadLastPdr(pdrs: seq<CpPdr>)
    requires pdrs != [] && |CreatePdrs(pdrs)[|pdrs| - 1].value| <= MAX_INPUT
    ensures ReadPdrs(CreatePdrs(pdrs))
            == ReadPdrs(CreatePdrs(pdrs[..|pdrs| - 1])) + [ProjectPdr(pdrs[|pdrs| - 1])]
  {
    var n := |pdrs| - 1;
    assert CreatePdrs(pdrs)[..n] == CreatePdrs(pdrs[..n]);
    PdrRoundTrip(pdrs[n]);
  }

  lemma {:induction false} FarTablesAgree(fars: seq<CpFar>)
    requires forall i :: 0 <= i < |fars| ==> |CreateFars(fars)[i].value| <= MAX_INPUT
    ensures FarTable(ReadFars(CreateFars(fars)))
            == (map k | k in CpFarMap(fars) :: ProjectFar(CpFarMap(fars)[k]))
  {
    if fars != [] {
      var n := |fars| - 1;
      var init := fars[..n];
      forall i | 0 <= i < n ensures |CreateFars(init)[i].value| <= MAX_INPUT {
        assert CreateFars(init)[i] == CreateFars(fars)[i];
      }
      FarTablesAgree(init);
      ReadLastFar(fars);
      FarTableGrows(ReadFars(CreateFars(init)), ProjectFar(fars[n]));
      FarMapGrows(fars);
    }
  }

  lemma ReadLastFar(fars: seq<CpFar>)
    requires fars != [] && |CreateFars(fars)[|fars| - 1].value| <= MAX_INPUT
    ensures ReadFars(CreateFars(fars))
            == ReadFars(CreateFars(fars[..|fars| - 1])) + [ProjectFar(fars[|fars| - 1])]
  {
    var n := |fars| - 1;
    assert CreateFars(fars)[..n] == CreateFars(fars[..n]);
    FarRoundTrip(fars[n]);
  }

  /** One detection rule through both levels of grouping. */
  lemma PdrRoundTrip(p: CpPdr)
    requires |EncodeIEs(PdrIEs(p))| <= MAX_INPUT
    ensures ParseIEs(EncodeIEs(PdrIEs(p))) == AllParsed(PdrIEs(p))
    ensures ReadPdr(ZERO_PDR, PdrIEs(p)) == ProjectPdr(p)
  {
    ParsesExactly(EncodeIEs(PdrIEs(p)), PdrIEs(p));
    if p.pdi.Some? {
      assert PdrIEs(p)[2] == NewGroup(PDI, PdiIEs(p.pdi.value));
      ElementFits(PdrIEs(p), 2);
      PdiRoundTrip(p.pdi.value);
    }
    ReadPdrElements(p);
  }

  lemma ReadPdrElements(p: CpPdr)
    requires p.pdi.Some? ==> ReadPdi(ZERO_PDI, Children(EncodeIEs(PdiIEs(p.pdi.value)))) == ProjectPdi(p.pdi.value)
    ensures ReadPdr(ZERO_PDR, PdrIEs(p)) == ProjectPdr(p)
  {
    var front := [NewPdrId(p.id), NewPrecedence(p.precedence)]
      + (if p.pdi.Some? then [NewGroup(PDI, PdiIEs(p.pdi.value))] else []);
    var ids := IdIEs(QER_ID, p.qerIds) + IdIEs(URR_ID, p.urrIds);
    var far := NewFarId(p.farId);
    assert PdrIEs(p) == front + [far] + ids;
    ReadFront(p, front);
    assert (front + [far])[..|front|] == front;
    Codec32(p.farId, []);
    assert BE32(p.farId) + [] == BE32(p.farId);
    SkipIds(front + [far], ids);
  }

  lemma ReadFront(p: CpPdr, front: seq<IE>)
    requires front == [NewPdrId(p.id), NewPrecedence(p.precedence)]
      + (if p.pdi.Some? then [NewGroup(PDI, PdiIEs(p.pdi.value))] else [])
    requires p.pdi.Some? ==> ReadPdi(ZERO_PDI, Children(EncodeIEs(PdiIEs(p.pdi.value)))) == ProjectPdi(p.pdi.value)
    ensures ReadPdr(ZERO_PDR, front) == ProjectPdr(p).(farId := 0)
  {
    var two := [NewPdrId(p.id), NewPrecedence(p.precedence)];
    assert two[..1] == [NewPdrId(p.id)] && two[..1][..0] == [];
    Codec16(p.id, []);
    assert BE16(p.id) + [] == BE16(p.id);
    assert ReadPdr(ZERO_PDR, two[..1]) == ZERO_PDR.(id := p.id);
    assert ReadPdr(ZERO_PDR, two) == ZERO_PDR.(id := p.id);
    if p.pdi.Some? {
      assert front[..2] == two;
    } else {
      assert front == two;
    }
  }

  lemma {:induction false} SkipIds(ies: seq<IE>, ids: seq<IE>)
    requires forall i :: 0 <= i < |ids| ==> ids[i].typ == QER_ID || ids[i].typ == URR_ID
    ensures ReadPdr(ZERO_PDR, ies + ids) == ReadPdr(ZERO_PDR, ies)
  {
    if ids == [] {
      assert ies + ids == ies;
    } else {
      var n := |ids| - 1;
      SkipIds(ies, ids[..n]);
      assert (ies + ids)[..|ies + ids| - 1] == ies + ids[..n];
    }
  }

  lemma PdiRoundTrip(p: CpPdi)
    requires |EncodeIEs(PdiIEs(p))| <= MAX_INPUT
    ensures ReadPdi(ZERO_PDI, Children(EncodeIEs(PdiIEs(p)))) == ProjectPdi(p)
  {
    ParsesExactly(EncodeIEs(PdiIEs(p)), PdiIEs(p));
    ReadPdiElements(p);
  }

  lemma ReadPdiElements(p: CpPdi)
    ensures ReadPdi(ZERO_PDI, PdiIEs(p)) == ProjectPdi(p)
  {
    var s := [NewSourceInterface(p.sourceInterface)];
    var u := if p.ueIp.Some? then [NewUeIpAddress(p.ueIp.value)] else [];
    var f := if p.sdf != [] then [NewSdfFilter(p.sdf)] else [];
    var a := if p.appId != [] then [NewApplicationId(p.appId)] else [];
    ElementsAsWritten(p.sdf, if p.ueIp.Some? then p.ueIp.value else []);
    ReadSource(p.sourceInterface);
    ReadAddress(s, u, p);
    ReadFilter(s + u, f, p);
    ReadApplication(s + u + f, a, p);
  }

  lemma ReadSource(iface: byte)
    ensures ReadPdi(ZERO_PDI, [NewSourceInterface(iface)]) == ZERO_PDI.(sourceInterface := iface)
  {
    assert [NewSourceInterface(iface)][..0] == [];
  }

  lemma ReadAddress(ies: seq<IE>, more: seq<IE>, p: CpPdi)
    requires more == (if p.ueIp.Some? then [NewUeIpAddress(p.ueIp.value)] else []) && ReadPdi(ZERO_PDI, ies).ueIp == []
    requires p.ueIp.Some? ==> NewUeIpAddress(p.ueIp.value).value == AddressBytes(p.ueIp.value)
    ensures ReadPdi(ZERO_PDI, ies + more) == ReadPdi(ZERO_PDI, ies).(ueIp := ProjectPdi(p).ueIp)
  {
    AppendOptional(ies, more);
  }

  lemma ReadFilter(ies: seq<IE>, more: seq<IE>, p: CpPdi)
    requires more == (if p.sdf != [] then [NewSdfFilter(p.sdf)] else []) && ReadPdi(ZERO_PDI, ies).sdf == []
    requires NewSdfFilter(p.sdf).value == FilterBytes(p.sdf)
    ensures ReadPdi(ZERO_PDI, ies + more) == ReadPdi(ZERO_PDI, ies).(sdf := ProjectPdi(p).sdf)
  {
    AppendOptional(ies, more);
  }

  lemma ReadApplication(ies: seq<IE>, more: seq<IE>, p: CpPdi)
    requires more == (if p.appId != [] then [NewApplicationId(p.appId)] else []) && ReadPdi(ZERO_PDI, ies).appId == []
    ensures ReadPdi(ZERO_PDI, ies + more) == ReadPdi(ZERO_PDI, ies).(appId := p.appId)
  {
    AppendOptional(ies, more);
  }

  lemma AppendOptional(ies: seq<IE>, more: seq<IE>)
    requires |more| <= 1
    ensures ReadPdi(ZERO_PDI, ies + more)
            == if more == [] then ReadPdi(ZERO_PDI, ies) else ReadPdiIE(ReadPdi(ZERO_PDI, ies), more[0])
  {
    if more == [] {
      assert ies + more == ies;
    } else {
      assert (ies + more)[..|ies|] == ies;
    }
  }

  lemma FarRoundTrip(f: CpFar)
    requires |EncodeIEs(FarIEs(f))| <= MAX_INPUT
    ensures ParseIEs(EncodeIEs(FarIEs(f))) == AllParsed(FarIEs(f))
    ensures ReadFar(ZERO_FAR, FarIEs(f)) == ProjectFar(f)
  {
    var ies := FarIEs(f);
    ParsesExactly(EncodeIEs(ies), ies);
    var two := [NewFarId(f.id), NewApplyAction(f.applyAction)];
    Codec32(f.id, []);
    assert BE32(f.id) + [] == BE32(f.id);
    assert two[..1] == [NewFarId(f.id)] && two[..1][..0] == [];
    assert ReadFar(ZERO_FAR, two[..1]) == UpFar(f.id, 0);
    assert ReadFar(ZERO_FAR, two) == ProjectFar(f);
    if f.forwarding.Some? {
      assert ies[..2] == two;
    } else {
      assert ies == two;
    }
  }
}
