/** What the rule tables of both planes hold, in terms of the lists and messages they are made
    from (pkg/cp/cp.go, pkg/up/handlers.go), for every list and every message. */
module RuleTables {
  import opened Bytes
  import opened InformationElements
  import opened Messages
  import opened Rules
  import opened WireFormat

  // ----- the control plane's tables -----

  /** Position i has the last rule with the identifier. */
  ghost predicate LastPdrAt(pdrs: seq<CpPdr>, id: u16, i: nat) {
    i < |pdrs| && pdrs[i].id == id && forall j :: i < j < |pdrs| ==> pdrs[j].id != id
  }

  ghost predicate LastFarAt(fars: seq<CpFar>, id: u32, i: nat) {
    i < |fars| && fars[i].id == id && forall j :: i < j < |fars| ==> fars[j].id != id
  }

  /** Every identifier of the list is a key, and its value the last rule with it. */
  ghost predicate HoldsPdrs(table: map<u16, CpPdr>, pdrs: seq<CpPdr>) {
    && (forall i :: 0 <= i < |pdrs| ==> pdrs[i].id in table)
    && (forall id :: id in table ==> exists i: nat :: LastPdrAt(pdrs, id, i) && table[id] == pdrs[i])
  }

  ghost predicate HoldsFars(table: map<u32, CpFar>, fars: seq<CpFar>) {
    && (forall i :: 0 <= i < |fars| ==> fars[i].id in table)
    && (forall id :: id in table ==> exists i: nat :: LastFarAt(fars, id, i) && table[id] == fars[i])
  }

  lemma {:induction false} CpPdrMapHolds(pdrs: seq<CpPdr>)
    ensures HoldsPdrs(CpPdrMap(pdrs), pdrs)
  {
    if pdrs != [] {
      var n := |pdrs| - 1;
      CpPdrMapHolds(pdrs[..n]);
      assert pdrs == pdrs[..n] + [pdrs[n]];
      OnePdrMore(CpPdrMap(pdrs[..n]), pdrs[..n], pdrs[n]);
    }
  }

  lemma OnePdrMore(table: map<u16, CpPdr>, pdrs: seq<CpPdr>, pdr: CpPdr)
    requires HoldsPdrs(table, pdrs)
    ensures HoldsPdrs(table[pdr.id := pdr], pdrs + [pdr])
  {
    var more, table' := pdrs + [pdr], table[pdr.id := pdr];
    forall id | id in table' ensures exists i: nat :: LastPdrAt(more, id, i) && table'[id] == more[i] {
      if id == pdr.id {
        assert LastPdrAt(more, id, |pdrs|);
      } else {
        var i: nat :| LastPdrAt(pdrs, id, i) && table[id] == pdrs[i];
        assert LastPdrAt(more, id, i);
      }
    }
  }

  lemma {:induction false} CpFarMapHolds(fars: seq<CpFar>)
    ensures HoldsFars(CpFarMap(fars), fars)
  {
    if fars != [] {
      var n := |fars| - 1;
      CpFarMapHolds(fars[..n]);
      assert fars == fars[..n] + [fars[n]];
      OneFarMore(CpFarMap(fars[..n]), fars[..n], fars[n]);
    }
  }

  lemma OneFarMore(table: map<u32, CpFar>, fars: seq<CpFar>, far: CpFar)
    requires HoldsFars(table, fars)
    ensures HoldsFars(table[far.id := far], fars + [far])
  {
    var more, table' := fars + [far], table[far.id := far];
    forall id | id in table' ensures exists i: nat :: LastFarAt(more, id, i) && table'[id] == more[i] {
      if id == far.id {
        assert LastFarAt(more, id, |fars|);
      } else {
        var i: nat :| LastFarAt(fars, id, i) && table[id] == fars[i];
        assert LastFarAt(more, id, i);
      }
    }
  }

  // ----- the user plane's tables -----

  /** Element i is a Create PDR group that parses, to a rule with the identifier. */
  ghost predicate PdrGroupAt(ies: seq<IE>, id: u16, i: nat) {
    && i < |ies| && ies[i].typ == 1 && ParseIEs(ies[i].value).AllParsed?
    && ReadPdr(ZERO_PDR, ParseIEs(ies[i].value).ies).id == id
  }

  ghost predicate FarGroupAt(ies: seq<IE>, id: u32, i: nat) {
    && i < |ies| && ies[i].typ == 3 && ParseIEs(ies[i].value).AllParsed?
    && ReadFar(ZERO_FAR, ParseIEs(ies[i].value).ies).id == id
  }

  ghost predicate LastPdrGroupAt(ies: seq<IE>, id: u16, i: nat) {
    PdrGroupAt(ies, id, i) && forall j: nat :: j > i ==> !PdrGroupAt(ies, id, j)
  }

  ghost predicate LastFarGroupAt(ies: seq<IE>, id: u32, i: nat) {
    FarGroupAt(ies, id, i) && forall j: nat :: j > i ==> !FarGroupAt(ies, id, j)
  }

  /** For any message: an identifier is in the table if and only if some Create PDR group parses
      to a rule with it, and the table has the rule of the last such group. */
  lemma PdrTableExactly(m: Msg, id: u16)
    ensures id in PdrTable(PdrsOf(m)) <==> exists i: nat :: PdrGroupAt(m.ies, id, i)
    ensures forall i: nat :: LastPdrGroupAt(m.ies, id, i) ==>
              id in PdrTable(PdrsOf(m)) && PdrTable(PdrsOf(m))[id] == ReadPdr(ZERO_PDR, ParseIEs(m.ies[i].value).ies)
  {
    if exists i: nat :: PdrGroupAt(m.ies, id, i) {
      var i: nat :| PdrGroupAt(m.ies, id, i);
      i := LastPdrGroup(m.ies, id, i);
      PdrsWith(m.ies, id, i);
    } else {
      PdrsWithout(m.ies, id);
    }
    forall i: nat | LastPdrGroupAt(m.ies, id, i)
      ensures id in PdrTable(PdrsOf(m)) && PdrTable(PdrsOf(m))[id] == ReadPdr(ZERO_PDR, ParseIEs(m.ies[i].value).ies)
    {
      PdrsWith(m.ies, id, i);
    }
  }

  lemma {:induction false} LastPdrGroup(ies: seq<IE>, id: u16, i: nat) returns (k: nat)
    requires PdrGroupAt(ies, id, i)
    ensures LastPdrGroupAt(ies, id, k)
    decreases |ies| - i
  {
    k := i;
    if j: nat :| j > i && PdrGroupAt(ies, id, j) {
      k := LastPdrGroup(ies, id, j);
    }
  }

  function PdrsIn(ies: seq<IE>): map<u16, UpPdr> {
    PdrTable(ReadPdrs(FindAllIEs(ies, CREATE_PDR)))
  }

  /** One more element: a group that parses sets its rule, anything else changes nothing. */
  lemma PdrsInGrow(ies: seq<IE>, ie: IE)
    ensures var parsed := ParseIEs(ie.value);
            PdrsIn(ies + [ie]) == if ie.typ == 1 && parsed.AllParsed? then
              var pdr := ReadPdr(ZERO_PDR, parsed.ies); PdrsIn(ies)[pdr.id := pdr] else PdrsIn(ies)
  {
    FindAllAppend(ies, [ie], CREATE_PDR);
    FindAllOfOneType([ie], ie.typ, CREATE_PDR);
    var groups := FindAllIEs(ies, CREATE_PDR);
    if ie.typ == 1 {
      PdrsGrow(groups + [ie], |groups|);
      assert (groups + [ie])[..|groups|] == groups && (groups + [ie])[..|groups| + 1] == groups + [ie];
      if ParseIEs(ie.value).AllParsed? {
        PdrTableGrows(ReadPdrs(groups), ReadPdr(ZERO_PDR, ParseIEs(ie.value).ies));
      } else {
        assert ReadPdrs(groups) + [] == ReadPdrs(groups);
      }
    } else {
      assert groups + [] == groups;
    }
  }

  lemma {:induction false} PdrsWithout(ies: seq<IE>, id: u16)
    requires forall i: nat :: !PdrGroupAt(ies, id, i)
    ensures id !in PdrsIn(ies)
  {
    if ies != [] {
      var n := |ies| - 1;
      forall i: nat ensures !PdrGroupAt(ies[..n], id, i) {
        assert !PdrGroupAt(ies, id, i);
      }
      PdrsWithout(ies[..n], id);
      assert !PdrGroupAt(ies, id, n) && ies == ies[..n] + [ies[n]];
      PdrsInGrow(ies[..n], ies[n]);
    }
  }

  lemma {:induction false} PdrsWith(ies: seq<IE>, id: u16, i: nat)
    requires LastPdrGroupAt(ies, id, i)
    ensures id in PdrsIn(ies) && PdrsIn(ies)[id] == ReadPdr(ZERO_PDR, ParseIEs(ies[i].value).ies)
  {
    var n := |ies| - 1;
    assert ies == ies[..n] + [ies[n]];
    PdrsInGrow(ies[..n], ies[n]);
    if i < n {
      forall j: nat | j > i ensures !PdrGroupAt(ies[..n], id, j) {
        assert !PdrGroupAt(ies, id, j);
      }
      assert PdrGroupAt(ies[..n], id, i) && !PdrGroupAt(ies, id, n);
      PdrsWith(ies[..n], id, i);
    }
  }

  /** The same for Create FAR groups. */
  lemma FarTableExactly(m: Msg, id: u32)
    ensures id in FarTable(FarsOf(m)) <==> exists i: nat :: FarGroupAt(m.ies, id, i)
    ensures forall i: nat :: LastFarGroupAt(m.ies, id, i) ==>
              id in FarTable(FarsOf(m)) && FarTable(FarsOf(m))[id] == ReadFar(ZERO_FAR, ParseIEs(m.ies[i].value).ies)
  {
    if exists i: nat :: FarGroupAt(m.ies, id, i) {
      var i: nat :| FarGroupAt(m.ies, id, i);
      i := LastFarGroup(m.ies, id, i);
      FarsWith(m.ies, id, i);
    } else {
      FarsWithout(m.ies, id);
    }
    forall i: nat | LastFarGroupAt(m.ies, id, i)
      ensures id in FarTable(FarsOf(m)) && FarTable(FarsOf(m))[id] == ReadFar(ZERO_FAR, ParseIEs(m.ies[i].value).ies)
    {
      FarsWith(m.ies, id, i);
    }
  }

  lemma {:induction false} LastFarGroup(ies: seq<IE>, id: u32, i: nat) returns (k: nat)
    requires FarGroupAt(ies, id, i)
    ensures LastFarGroupAt(ies, id, k)
    decreases |ies| - i
  {
    k := i;
    if j: nat :| j > i && FarGroupAt(ies, id, j) {
      k := LastFarGroup(ies, id, j);
    }
  }

  function FarsIn(ies: seq<IE>): map<u32, UpFar> {
    FarTable(ReadFars(FindAllIEs(ies, CREATE_FAR)))
  }

  lemma FarsInGrow(ies: seq<IE>, ie: IE)
    ensures var parsed := ParseIEs(ie.value);
            FarsIn(ies + [ie]) == if ie.typ == 3 && parsed.AllParsed? then
              var far := ReadFar(ZERO_FAR, parsed.ies); FarsIn(ies)[far.id := far] else FarsIn(ies)
  {
    FindAllAppend(ies, [ie], CREATE_FAR);
    FindAllOfOneType([ie], ie.typ, CREATE_FAR);
    var groups := FindAllIEs(ies, CREATE_FAR);
    if ie.typ == 3 {
      FarsGrow(groups + [ie], |groups|);
      assert (groups + [ie])[..|groups|] == groups && (groups + [ie])[..|groups| + 1] == groups + [ie];
      if ParseIEs(ie.value).AllParsed? {
        FarTableGrows(ReadFars(groups), ReadFar(ZERO_FAR, ParseIEs(ie.value).ies));
      } else {
        assert ReadFars(groups) + [] == ReadFars(groups);
      }
    } else {
      assert groups + [] == groups;
    }
  }

  lemma {:induction false} FarsWithout(ies: seq<IE>, id: u32)
    requires forall i: nat :: !FarGroupAt(ies, id, i)
    ensures id !in FarsIn(ies)
  {
    if ies != [] {
      var n := |ies| - 1;
      forall i: nat ensures !FarGroupAt(ies[..n], id, i) {
        assert !FarGroupAt(ies, id, i);
      }
      FarsWithout(ies[..n], id);
      assert !FarGroupAt(ies, id, n) && ies == ies[..n] + [ies[n]];
      FarsInGrow(ies[..n], ies[n]);
    }
  }

  lemma {:induction false} FarsWith(ies: seq<IE>, id: u32, i: nat)
    requires LastFarGroupAt(ies, id, i)
    ensures id in FarsIn(ies) && FarsIn(ies)[id] == ReadFar(ZERO_FAR, ParseIEs(ies[i].value).ies)
  {
    var n := |ies| - 1;
    assert ies == ies[..n] + [ies[n]];
    FarsInGrow(ies[..n], ies[n]);
    if i < n {
      forall j: nat | j > i ensures !FarGroupAt(ies[..n], id, j) {
        assert !FarGroupAt(ies, id, j);
      }
      assert FarGroupAt(ies[..n], id, i) && !FarGroupAt(ies, id, n);
      FarsWith(ies[..n], id, i);
    }
  }

  // ----- the fields of one rule -----

  ghost predicate LastAt(ies: seq<IE>, typ: u16, i: nat) {
    i < |ies| && ies[i].typ == typ && forall j :: i < j < |ies| ==> ies[j].typ != typ
  }

  ghost predicate NoneOf(ies: seq<IE>, typ: u16) {
    forall i :: 0 <= i < |ies| ==> ies[i].typ != typ
  }

  /** The last element of the type has this value, or there is none and the value is empty. */
  ghost predicate LastValue(ies: seq<IE>, typ: u16, value: seq<byte>) {
    (NoneOf(ies, typ) && value == []) || exists i: nat :: LastAt(ies, typ, i) && ies[i].value == value
  }

  lemma LastValueGrows(ies: seq<IE>, ie: IE, typ: u16, value: seq<byte>)
    requires LastValue(ies, typ, value)
    ensures LastValue(ies + [ie], typ, if ie.typ == typ then ie.value else value)
  {
    var ies' := ies + [ie];
    if ie.typ == typ {
      assert LastAt(ies', typ, |ies|);
    } else if !NoneOf(ies, typ) {
      var i: nat :| LastAt(ies, typ, i) && ies[i].value == value;
      assert LastAt(ies', typ, i);
    }
  }

  /** Detection information from any elements: the last SDF Filter, UE IP Address, Network Instance
      and Application ID count, whatever else there is. */
  lemma {:induction false} PdiFields(ies: seq<IE>)
    ensures var pdi := ReadPdi(ZERO_PDI, ies);
            && LastValue(ies, 23, pdi.sdf) && LastValue(ies, 93, pdi.ueIp)
            && LastValue(ies, 22, pdi.networkInstance) && LastValue(ies, 24, pdi.appId)
  {
    if ies != [] {
      var n := |ies| - 1;
      PdiFields(ies[..n]);
      var pdi := ReadPdi(ZERO_PDI, ies[..n]);
      assert ies == ies[..n] + [ies[n]];
      LastValueGrows(ies[..n], ies[n], 23, pdi.sdf);
      LastValueGrows(ies[..n], ies[n], 93, pdi.ueIp);
      LastValueGrows(ies[..n], ies[n], 22, pdi.networkInstance);
      LastValueGrows(ies[..n], ies[n], 24, pdi.appId);
    }
  }

  /** The last Source Interface that has a byte counts; without one the interface is zero. */
  ghost predicate LastByte(ies: seq<IE>, typ: u16, b: byte) {
    || (b == 0 && forall i :: 0 <= i < |ies| && ies[i].typ == typ ==> ies[i].value == [])
    || exists i: nat :: LastByteAt(ies, typ, i) && ies[i].value[0] == b
  }

  ghost predicate LastByteAt(ies: seq<IE>, typ: u16, i: nat) {
    && i < |ies| && ies[i].typ == typ && ies[i].value != []
    && forall j :: i < j < |ies| && ies[j].typ == typ ==> ies[j].value == []
  }

  lemma LastByteGrows(ies: seq<IE>, ie: IE, typ: u16, b: byte)
    requires LastByte(ies, typ, b)
    ensures LastByte(ies + [ie], typ, if ie.typ == typ && ie.value != [] then ie.value[0] else b)
  {
    var ies' := ies + [ie];
    if ie.typ == typ && ie.value != [] {
      assert LastByteAt(ies', typ, |ies|);
    } else if i: nat :| LastByteAt(ies, typ, i) && ies[i].value[0] == b {
      assert LastByteAt(ies', typ, i);
    }
  }

  lemma {:induction false} InterfaceRead(ies: seq<IE>)
    ensures LastByte(ies, 20, ReadPdi(ZERO_PDI, ies).sourceInterface)
  {
    if ies != [] {
      var n := |ies| - 1;
      InterfaceRead(ies[..n]);
      assert ies == ies[..n] + [ies[n]];
      LastByteGrows(ies[..n], ies[n], 20, ReadPdi(ZERO_PDI, ies[..n]).sourceInterface);
    }
  }

  /** The elements of all PDI groups that parse, in order. */
  function Detection(ies: seq<IE>): seq<IE> {
    if ies == [] then [] else
    Detection(ies[..|ies| - 1]) +
    if ies[|ies| - 1].typ == 2 && ParseIEs(ies[|ies| - 1].value).AllParsed? then ParseIEs(ies[|ies| - 1].value).ies else []
  }

  lemma {:induction false} ReadPdiAppend(p: UpPdi, a: seq<IE>, b: seq<IE>)
    ensures ReadPdi(p, a + b) == ReadPdi(ReadPdi(p, a), b)
  {
    if b == [] {
      assert a + b == a;
    } else {
      var n := |b| - 1;
      assert (a + b)[..|a + b| - 1] == a + b[..n];
      ReadPdiAppend(p, a, b[..n]);
    }
  }

  /** What a value begins with, as a number of w bytes; zero when it is shorter. */
  function Leading(value: seq<byte>, w: nat): nat {
    if |value| >= w then BigEndian(value[..w]) else 0
  }

  /** The last element of the type begins with this number, or there is none and it is zero. */
  ghost predicate LastNumber(ies: seq<IE>, typ: u16, w: nat, v: nat) {
    (NoneOf(ies, typ) && v == 0) || exists i: nat :: LastAt(ies, typ, i) && Leading(ies[i].value, w) == v
  }

  lemma LastNumberGrows(ies: seq<IE>, ie: IE, typ: u16, w: nat, v: nat)
    requires LastNumber(ies, typ, w, v)
    ensures LastNumber(ies + [ie], typ, w, if ie.typ == typ then Leading(ie.value, w) else v)
  {
    var ies' := ies + [ie];
    if ie.typ == typ {
      assert LastAt(ies', typ, |ies|);
    } else if !NoneOf(ies, typ) {
      var i: nat :| LastAt(ies, typ, i) && Leading(ies[i].value, w) == v;
      assert LastAt(ies', typ, i);
    }
  }

  /** A detection rule from any elements: the identifiers of the last PDR ID and FAR ID elements,
      precedence zero, and detection information from all PDI groups. */
  lemma PdrFields(ies: seq<IE>)
    ensures var pdr := ReadPdr(ZERO_PDR, ies);
            && pdr.precedence == 0 && pdr.pdi == ReadPdi(ZERO_PDI, Detection(ies))
            && LastNumber(ies, 56, 2, pdr.id) && LastNumber(ies, 108, 4, pdr.farId)
  {
    IdentifiersOfPdr(ies);
    DetectionOfPdr(ies);
  }

  lemma {:induction false} IdentifiersOfPdr(ies: seq<IE>)
    ensures LastNumber(ies, 56, 2, ReadPdr(ZERO_PDR, ies).id)
    ensures LastNumber(ies, 108, 4, ReadPdr(ZERO_PDR, ies).farId)
  {
    if ies != [] {
      var n := |ies| - 1;
      IdentifiersOfPdr(ies[..n]);
      var pdr := ReadPdr(ZERO_PDR, ies[..n]);
      OnePdrElement(pdr, ies[n]);
      LastNumberGrows(ies[..n], ies[n], 56, 2, pdr.id);
      LastNumberGrows(ies[..n], ies[n], 108, 4, pdr.farId);
      assert ies[..n] + [ies[n]] == ies;
    }
  }

  lemma {:induction false} DetectionOfPdr(ies: seq<IE>)
    ensures ReadPdr(ZERO_PDR, ies).precedence == 0
    ensures ReadPdr(ZERO_PDR, ies).pdi == ReadPdi(ZERO_PDI, Detection(ies))
  {
    if ies != [] {
      var n := |ies| - 1;
      DetectionOfPdr(ies[..n]);
      OnePdrElement(ReadPdr(ZERO_PDR, ies[..n]), ies[n]);
      var more := if ies[n].typ == 2 then Children(ies[n].value) else [];
      assert Detection(ies) == Detection(ies[..n]) + more;
      ReadPdiAppend(ZERO_PDI, Detection(ies[..n]), more);
    }
  }

  lemma OnePdrElement(pdr: UpPdr, ie: IE)
    ensures ReadPdrIE(pdr, ie).id == if ie.typ == 56 then Leading(ie.value, 2) else pdr.id
    ensures ReadPdrIE(pdr, ie).farId == if ie.typ == 108 then Leading(ie.value, 4) else pdr.farId
    ensures ReadPdrIE(pdr, ie).precedence == if ie.typ == 29 then 0 else pdr.precedence
    ensures ReadPdrIE(pdr, ie).pdi == ReadPdi(pdr.pdi, if ie.typ == 2 then Children(ie.value) else [])
  {
    IdentifiersRead(ie);
  }

  /** An action rule from any elements. */
  lemma {:induction false} FarFields(ies: seq<IE>)
    ensures var far := ReadFar(ZERO_FAR, ies);
            LastByte(ies, 44, far.applyAction) && LastNumber(ies, 108, 4, far.id)
  {
    if ies != [] {
      var n := |ies| - 1;
      FarFields(ies[..n]);
      IdentifiersRead(ies[n]);
      var far := ReadFar(ZERO_FAR, ies[..n]);
      assert ies == ies[..n] + [ies[n]];
      LastByteGrows(ies[..n], ies[n], 44, far.applyAction);
      LastNumberGrows(ies[..n], ies[n], 108, 4, far.id);
    }
  }

  // ----- what is sent but never read -----

  /** The elements of one type spell these numbers, in this order. */
  ghost predicate SpellIds(ies: seq<IE>, typ: u16, ids: seq<u32>) {
    && |FindAllIEs(ies, typ)| == |ids|
    && forall i :: 0 <= i < |ids| ==> |FindAllIEs(ies, typ)[i].value| == 4 && BigEndian(FindAllIEs(ies, typ)[i].value) == ids[i]
  }

  lemma IdsSpelled(ies: seq<IE>, typ: u16, t: u16, ids: seq<u32>)
    requires FindAllIEs(ies, typ) == IdIEs(t, ids)
    ensures SpellIds(ies, typ, ids)
  {
    forall i | 0 <= i < |ids| ensures BigEndian(IdIEs(t, ids)[i].value) == ids[i] {
      Spelled32(ids[i]);
    }
  }

  /** The group of a detection rule carries its precedence and the identifiers of its quality and
      usage rules. */
  lemma DetectionRuleSent(p: CpPdr)
    requires |EncodeIEs(PdrIEs(p))| <= MAX_INPUT
    ensures ParseIEs(NewGroup(CREATE_PDR, PdrIEs(p)).value).AllParsed?
    ensures var ies := ParseIEs(NewGroup(CREATE_PDR, PdrIEs(p)).value).ies;
            SpellIds(ies, 29, [p.precedence]) && SpellIds(ies, 109, p.qerIds) && SpellIds(ies, 81, p.urrIds)
  {
    ParsesExactly(EncodeIEs(PdrIEs(p)), PdrIEs(p));
    NumbersSent(p);
  }

  lemma NumbersSent(p: CpPdr)
    ensures SpellIds(PdrIEs(p), 29, [p.precedence])
    ensures SpellIds(PdrIEs(p), 109, p.qerIds)
    ensures SpellIds(PdrIEs(p), 81, p.urrIds)
  {
    var a := [NewPdrId(p.id)];
    var b := IdIEs(PRECEDENCE, [p.precedence]);
    var c := if p.pdi.Some? then [NewGroup(PDI, PdiIEs(p.pdi.value))] else [];
    var d, e, f := [NewFarId(p.farId)], IdIEs(QER_ID, p.qerIds), IdIEs(URR_ID, p.urrIds);
    PdrParts(p, a, b, c, d, e, f);
    PickOut(a, b, c, d, e, f, 29);
    PickOut(a, b, c, d, e, f, 109);
    PickOut(a, b, c, d, e, f, 81);
    IdsSpelled(PdrIEs(p), 29, PRECEDENCE, [p.precedence]);
    IdsSpelled(PdrIEs(p), 109, QER_ID, p.qerIds);
    IdsSpelled(PdrIEs(p), 81, URR_ID, p.urrIds);
  }

  lemma PdrParts(p: CpPdr, a: seq<IE>, b: seq<IE>, c: seq<IE>, d: seq<IE>, e: seq<IE>, f: seq<IE>)
    requires a == [NewPdrId(p.id)] && b == IdIEs(PRECEDENCE, [p.precedence])
    requires c == if p.pdi.Some? then [NewGroup(PDI, PdiIEs(p.pdi.value))] else []
    requires d == [NewFarId(p.farId)] && e == IdIEs(QER_ID, p.qerIds) && f == IdIEs(URR_ID, p.urrIds)
    ensures PdrIEs(p) == a + b + c + d + e + f
  {
    assert b == [NewPrecedence(p.precedence)];
    assert a + b == [NewPdrId(p.id), NewPrecedence(p.precedence)];
  }

  ghost predicate AllOf(ies: seq<IE>, typ: u16) {
    forall i :: 0 <= i < |ies| ==> ies[i].typ == typ
  }

  lemma PickOut(a: seq<IE>, b: seq<IE>, c: seq<IE>, d: seq<IE>, e: seq<IE>, f: seq<IE>, typ: u16)
    requires AllOf(a, 56) && AllOf(b, 29) && AllOf(c, 2) && AllOf(d, 108) && AllOf(e, 109) && AllOf(f, 81)
    ensures typ == 29 ==> FindAllIEs(a + b + c + d + e + f, typ) == b
    ensures typ == 109 ==> FindAllIEs(a + b + c + d + e + f, typ) == e
    ensures typ == 81 ==> FindAllIEs(a + b + c + d + e + f, typ) == f
  {
    FindAllAppend(a + b + c + d + e, f, typ);
    FindAllAppend(a + b + c + d, e, typ);
    FindAllAppend(a + b + c, d, typ);
    FindAllAppend(a + b, c, typ);
    FindAllAppend(a, b, typ);
    FindAllOfOneType(a, 56, typ);
    FindAllOfOneType(b, 29, typ);
    FindAllOfOneType(c, 2, typ);
    FindAllOfOneType(d, 108, typ);
    FindAllOfOneType(e, 109, typ);
    FindAllOfOneType(f, 81, typ);
  }

  /** An address on the wire: flag 2 and four bytes for an IPv4 address, also when it is given as
      an IPv4-mapped IPv6 address; flag 1 and sixteen bytes for any other IPv6 address. */
  lemma AddressElement(ip: seq<byte>)
    ensures |ip| == 4 ==> EncodeIE(NewUeIpAddress(ip)) == [0, 93, 0, 5, 2] + ip
    ensures |ip| == 16 && Mapped(ip) ==> EncodeIE(NewUeIpAddress(ip)) == [0, 93, 0, 5, 2] + ip[12..]
    ensures |ip| == 16 && !Mapped(ip) ==> EncodeIE(NewUeIpAddress(ip)) == [0, 93, 0, 17, 1] + ip
  {
    AddressAsWritten(ip);
    PlainElement(93, AddressBytes(ip));
    if |ip| == 4 {
      assert [0, 93, 0, 5] + ([2] + ip) == [0, 93, 0, 5, 2] + ip;
    } else if |ip| == 16 && Mapped(ip) {
      assert [0, 93, 0, 5] + ([2] + ip[12..]) == [0, 93, 0, 5, 2] + ip[12..];
    } else if |ip| == 16 {
      assert [0, 93, 0, 17] + ([1] + ip) == [0, 93, 0, 17, 1] + ip;
    }
  }

  /** The group of an action rule carries its destination interface. */
  lemma ActionRuleSent(f: CpFar)
    requires |EncodeIEs(FarIEs(f))| <= MAX_INPUT
    ensures ParseIEs(NewGroup(CREATE_FAR, FarIEs(f)).value) == AllParsed(FarIEs(f))
    ensures f.forwarding.None? ==> NoneOf(FarIEs(f), 4)
    ensures f.forwarding.Some? ==>
              LastAt(FarIEs(f), 4, 2) && FarIEs(f)[2].value == [0, 42, 0, 1, f.forwarding.value.destinationInterface]
  {
    FarRoundTrip(f);
    if f.forwarding.Some? {
      var d := f.forwarding.value.destinationInterface;
      ByteElements(d);
      OneElement(NewDestinationInterface(d));
    }
  }

  /** The groups of quality and usage rules: types 7 and 6, each with one identifier, of types 109
      and 81. */
  lemma IdRulesSent(ids: seq<u32>, i: nat)
    requires i < |ids|
    ensures CreateIds(CREATE_QER, QER_ID, ids)[i] == IE(7, 0, [0, 109, 0, 4] + BE32(ids[i]))
    ensures CreateIds(CREATE_URR, URR_ID, ids)[i] == IE(6, 0, [0, 81, 0, 4] + BE32(ids[i]))
    ensures BigEndian(BE32(ids[i])) == ids[i]
  {
    NumberElements(0, ids[i]);
    OneElement(IE(QER_ID, 0, BE32(ids[i])));
    OneElement(IE(URR_ID, 0, BE32(ids[i])));
  }
}
