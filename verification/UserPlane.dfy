/** The user plane: SEID allocation, session handlers (pkg/up/up.go, pkg/up/handlers.go) and
    the mock dataplane whose tables mirror its sessions (pkg/dataplane/mock/mock.go). */
module UserPlane {
  import opened Bytes
  import opened InformationElements
  import opened Messages
  import opened Rules

  datatype UpSession = UpSession(localSeid: u64, remoteSeid: u64,
                                 pdrs: map<u16, UpPdr>, fars: map<u32, UpFar>)
  datatype Tables = Tables(pdrs: map<u64, map<u16, UpPdr>>, fars: map<u64, map<u32, UpFar>>)
  datatype UpState = UpState(sessions: map<u64, UpSession>, dp: Tables)

  const EMPTY_UP := UpState(map[], Tables(map[], map[]))

  // ----- least free identifier -----

  /** The first number from i upwards outside keys. */
  function FirstFree(keys: set<u64>, i: nat): (r: nat)
    ensures i <= r <= i + |keys|
    ensures r < 0x1_0000_0000_0000_0000 ==> r !in keys
    decreases |keys|
  {
    if i < 0x1_0000_0000_0000_0000 && i in keys then FirstFree(keys - {i}, i + 1) else i
  }

  lemma {:induction false} FirstFreeIsLeast(keys: set<u64>, i: nat, j: u64)
    requires i <= j < FirstFree(keys, i)
    ensures j in keys
    decreases |keys|
  {
    if j != i {
      FirstFreeIsLeast(keys - {i}, i + 1, j);
    }
  }

  predicate HasRoom(sessions: map<u64, UpSession>) {
    |sessions.Keys| + 1 < 0x1_0000_0000_0000_0000
  }

  function LeastFree(sessions: map<u64, UpSession>): (seid: u64)
    requires HasRoom(sessions)
    ensures 1 <= seid <= |sessions.Keys| + 1 && seid !in sessions
    ensures forall j: u64 :: 1 <= j < seid ==> j in sessions
  {
    forall j: u64 | 1 <= j < FirstFree(sessions.Keys, 1) ensures j in sessions {
      FirstFreeIsLeast(sessions.Keys, 1, j);
    }
    FirstFree(sessions.Keys, 1)
  }

  // ----- dataplane tables -----

  function PdrsAt(dp: Tables, seid: u64): map<u16, UpPdr> {
    if seid in dp.pdrs then dp.pdrs[seid] else map[]
  }

  function FarsAt(dp: Tables, seid: u64): map<u32, UpFar> {
    if seid in dp.fars then dp.fars[seid] else map[]
  }

  function WithPdr(dp: Tables, seid: u64, pdr: UpPdr): Tables {
    dp.(pdrs := dp.pdrs[seid := PdrsAt(dp, seid)[pdr.id := pdr]])
  }

  function WithFar(dp: Tables, seid: u64, far: UpFar): Tables {
    dp.(fars := dp.fars[seid := FarsAt(dp, seid)[far.id := far]])
  }

  function WithPdrs(dp: Tables, seid: u64, pdrs: seq<UpPdr>): Tables {
    if pdrs == [] then dp else WithPdr(WithPdrs(dp, seid, pdrs[..|pdrs| - 1]), seid, pdrs[|pdrs| - 1])
  }

  function WithFars(dp: Tables, seid: u64, fars: seq<UpFar>): Tables {
    if fars == [] then dp else WithFar(WithFars(dp, seid, fars[..|fars| - 1]), seid, fars[|fars| - 1])
  }

  function Without(dp: Tables, seid: u64): Tables {
    Tables(dp.pdrs - {seid}, dp.fars - {seid})
  }

  // ----- handlers -----

  function SessionFor(seid: u64, m: Msg): UpSession {
    UpSession(seid, m.h.seid, PdrTable(PdrsOf(m)), FarTable(FarsOf(m)))
  }

  function Establish(up: UpState, m: Msg): UpState
    requires HasRoom(up.sessions)
  {
    var seid := LeastFree(up.sessions);
    UpState(up.sessions[seid := SessionFor(seid, m)],
            WithFars(WithPdrs(up.dp, seid, PdrsOf(m)), seid, FarsOf(m)))
  }

  function Delete(up: UpState, seid: u64): UpState {
    UpState(up.sessions - {seid}, Without(up.dp, seid))
  }

  // ----- the dataplane mirrors the sessions -----

  /** For a live SEID the dataplane holds the session's tables; for any other, nothing. */
  ghost predicate Mirrors(up: UpState) {
    && (forall seid :: seid in up.sessions ==>
          PdrsAt(up.dp, seid) == up.sessions[seid].pdrs && FarsAt(up.dp, seid) == up.sessions[seid].fars)
    && (forall seid :: seid in up.dp.pdrs || seid in up.dp.fars ==> seid in up.sessions)
  }

  /** Session keys are positive and equal to the session's own SEID. */
  ghost predicate KeysOk(up: UpState) {
    forall seid :: seid in up.sessions ==> seid >= 1 && up.sessions[seid].localSeid == seid
  }

  lemma {:induction false} InstalledPdrs(dp: Tables, seid: u64, pdrs: seq<UpPdr>)
    requires seid !in dp.pdrs
    ensures var dp' := WithPdrs(dp, seid, pdrs);
            && dp'.fars == dp.fars
            && PdrsAt(dp', seid) == PdrTable(pdrs)
            && dp'.pdrs - {seid} == dp.pdrs
  {
    if pdrs != [] {
      InstalledPdrs(dp, seid, pdrs[..|pdrs| - 1]);
    }
  }

  lemma {:induction false} InstalledFars(dp: Tables, seid: u64, fars: seq<UpFar>)
    requires seid !in dp.fars
    ensures var dp' := WithFars(dp, seid, fars);
            && dp'.pdrs == dp.pdrs
            && FarsAt(dp', seid) == FarTable(fars)
            && dp'.fars - {seid} == dp.fars
  {
    if fars != [] {
      InstalledFars(dp, seid, fars[..|fars| - 1]);
    }
  }

  lemma EstablishMirrors(up: UpState, m: Msg)
    requires Mirrors(up) && KeysOk(up) && HasRoom(up.sessions)
    ensures Mirrors(Establish(up, m)) && KeysOk(Establish(up, m))
  {
    var seid := LeastFree(up.sessions);
    var dp1 := WithPdrs(up.dp, seid, PdrsOf(m));
    InstalledPdrs(up.dp, seid, PdrsOf(m));
    InstalledFars(dp1, seid, FarsOf(m));
    var up' := Establish(up, m);
    forall k | k in up'.sessions && k != seid
      ensures PdrsAt(up'.dp, k) == up.sessions[k].pdrs && FarsAt(up'.dp, k) == up.sessions[k].fars
    {
      SameElsewhere(up.dp.pdrs, up'.dp.pdrs, seid, k);
      SameElsewhere(up.dp.fars, up'.dp.fars, seid, k);
    }
    forall k | (k in up'.dp.pdrs || k in up'.dp.fars) && k != seid
      ensures k in up.sessions
    {
      SameElsewhere(up.dp.pdrs, up'.dp.pdrs, seid, k);
      SameElsewhere(up.dp.fars, up'.dp.fars, seid, k);
    }
  }

  lemma SameElsewhere<V>(t: map<u64, V>, t': map<u64, V>, seid: u64, k: u64)
    requires t' - {seid} == t && k != seid
    ensures k in t' <==> k in t
    ensures k in t ==> t'[k] == t[k]
  {
    assert k in t' - {seid} <==> k in t';
  }

  lemma DeleteMirrors(up: UpState, seid: u64)
    requires Mirrors(up) && KeysOk(up)
    ensures Mirrors(Delete(up, seid)) && KeysOk(Delete(up, seid))
  {
  }

  /** What the receive loop may hand to the session handlers. */
  datatype Op = EstablishOp(m: Msg) | DeleteOp(seid: u64)

  /** The state after a run of handlers; an establishment that finds no free SEID is not run. */
  function After(up: UpState, ops: seq<Op>): UpState {
    if ops == [] then up else
    var before := After(up, ops[..|ops| - 1]);
    match ops[|ops| - 1]
    case DeleteOp(seid) => Delete(before, seid)
    case EstablishOp(m) => if HasRoom(before.sessions) then Establish(before, m) else before
  }

  /** The requests that made the sessions in use, whatever the dataplane. */
  function MakersAfter(live: map<u64, Msg>, ops: seq<Op>): map<u64, Msg> {
    if ops == [] then live else
    var before := MakersAfter(live, ops[..|ops| - 1]);
    match ops[|ops| - 1]
    case DeleteOp(seid) => before - {seid}
    case EstablishOp(m) =>
      if HasRoom(SessionsOf(before)) then before[LeastFree(SessionsOf(before)) := m] else before
  }

  function SessionsOf(live: map<u64, Msg>): map<u64, UpSession> {
    map k | k in live :: SessionFor(k, live[k])
  }

  lemma {:induction false} SessionsOfMakers(ops: seq<Op>)
    ensures After(EMPTY_UP, ops).sessions == SessionsOf(MakersAfter(map[], ops))
  {
    if ops != [] {
      SessionsOfMakers(ops[..|ops| - 1]);
    }
  }

  /** User plane and dataplane agree at every handler boundary of every run, whatever the
      requests carry. */
  lemma {:induction false} MirrorsAlways(ops: seq<Op>)
    ensures Mirrors(After(EMPTY_UP, ops)) && KeysOk(After(EMPTY_UP, ops))
  {
    if ops != [] {
      MirrorsAlways(ops[..|ops| - 1]);
      var before := After(EMPTY_UP, ops[..|ops| - 1]);
      match ops[|ops| - 1]
      case DeleteOp(seid) => DeleteMirrors(before, seid);
      case EstablishOp(m) => if HasRoom(before.sessions) { EstablishMirrors(before, m); }
    }
  }

  /** Deleting the SEID an establishment chose undoes it, in both tables. */
  lemma DeleteUndoesEstablish(up: UpState, m: Msg)
    requires Mirrors(up) && HasRoom(up.sessions)
    ensures Delete(Establish(up, m), LeastFree(up.sessions)) == up
  {
    var seid := LeastFree(up.sessions);
    var dp1 := WithPdrs(up.dp, seid, PdrsOf(m));
    InstalledPdrs(up.dp, seid, PdrsOf(m));
    InstalledFars(dp1, seid, FarsOf(m));
    SetThenDrop(up.sessions, seid, SessionFor(seid, m));
    var up' := Delete(Establish(up, m), seid);
    assert up'.dp.pdrs == up.dp.pdrs && up'.dp.fars == up.dp.fars;
  }

  lemma SetThenDrop<V>(t: map<u64, V>, k: u64, v: V)
    requires k !in t
    ensures t[k := v] - {k} == t
  {
  }

  /** SEID zero is never a session key, so deleting it changes nothing. */
  lemma DeleteZero(up: UpState)
    requires Mirrors(up) && KeysOk(up)
    ensures Delete(up, 0) == up
  {
    assert 0 !in up.sessions && 0 !in up.dp.pdrs && 0 !in up.dp.fars;
    assert up.sessions - {0} == up.sessions;
    assert up.dp.pdrs - {0} == up.dp.pdrs && up.dp.fars - {0} == up.dp.fars;
  }

  /** A deletion request that is processed twice removes the next session as well: the
      freed SEID is the least free one again. */
  lemma RepeatedDeletionHitsSuccessor(up: UpState, m: Msg, m': Msg)
    requires Mirrors(up) && HasRoom(up.sessions)
    ensures var seid := LeastFree(up.sessions);
            var again := Establish(Delete(Establish(up, m), seid), m');
            && again.sessions == up.sessions[seid := SessionFor(seid, m')]
            && Delete(again, seid) == up
  {
    DeleteUndoesEstablish(up, m);
    DeleteUndoesEstablish(up, m');
  }

  // ----- the imperative code -----

  class MockDataplane {
    var pdrs: map<u64, map<u16, UpPdr>>
    var fars: map<u64, map<u32, UpFar>>

    function View(): Tables
      reads this
    {
      Tables(pdrs, fars)
    }

    constructor ()
      ensures View() == Tables(map[], map[])
    {
      pdrs, fars := map[], map[];
    }

    method InstallPDR(seid: u64, pdr: UpPdr)
      modifies this
      ensures View() == WithPdr(old(View()), seid, pdr)
    {
      if seid !in pdrs {
        var empty: map<u16, UpPdr> := map[];
        pdrs := pdrs[seid := empty];
      }
      var table := pdrs[seid];
      table := table[pdr.id := pdr];
      pdrs := pdrs[seid := table];
    }

    method InstallFAR(seid: u64, far: UpFar)
      modifies this
      ensures View() == WithFar(old(View()), seid, far)
    {
      if seid !in fars {
        var empty: map<u32, UpFar> := map[];
        fars := fars[seid := empty];
      }
      var table := fars[seid];
      table := table[far.id := far];
      fars := fars[seid := table];
    }

    method DeleteSession(seid: u64)
      modifies this
      ensures View() == Without(old(View()), seid)
    {
      pdrs := pdrs - {seid};
      fars := fars - {seid};
    }
  }

  method ReadPdiGroup(start: UpPdi, ies: seq<IE>) returns (pdi: UpPdi)
    ensures pdi == ReadPdi(start, ies)
  {
    pdi := start;
    for i := 0 to |ies|
      invariant pdi == ReadPdi(start, ies[..i])
    {
      assert ies[..i + 1][..i] == ies[..i];
      var ie := ies[i];
      if ie.typ == SOURCE_INTERFACE {
        if |ie.value| > 0 {
          pdi := pdi.(sourceInterface := ie.value[0]);
        }
      } else if ie.typ == SDF_FILTER {
        pdi := pdi.(sdf := ie.value);
      } else if ie.typ == UE_IP_ADDRESS {
        pdi := pdi.(ueIp := ie.value);
      } else if ie.typ == NETWORK_INSTANCE {
        pdi := pdi.(networkInstance := ie.value);
      } else if ie.typ == APPLICATION_ID {
        pdi := pdi.(appId := ie.value);
      }
    }
    assert ies[..|ies|] == ies;
  }

  method ReadPdrGroup(ies: seq<IE>) returns (pdr: UpPdr)
    ensures pdr == ReadPdr(ZERO_PDR, ies)
  {
    pdr := ZERO_PDR;
    for i := 0 to |ies|
      invariant pdr == ReadPdr(ZERO_PDR, ies[..i])
    {
      assert ies[..i + 1][..i] == ies[..i];
      var ie := ies[i];
      if ie.typ == PDR_ID {
        pdr := pdr.(id := GetPdrId(ie));
      } else if ie.typ == PRECEDENCE {
        pdr := pdr.(precedence := 0);
      } else if ie.typ == FAR_ID {
        pdr := pdr.(farId := GetFarId(ie));
      } else if ie.typ == PDI {
        var parsed := ParseGroupedIE(ie.value);
        var pdi := ReadPdiGroup(pdr.pdi, if parsed.AllParsed? then parsed.ies else []);
        pdr := pdr.(pdi := pdi);
      }
    }
    assert ies[..|ies|] == ies;
  }

  method ReadFarGroup(ies: seq<IE>) returns (far: UpFar)
    ensures far == ReadFar(ZERO_FAR, ies)
  {
    far := ZERO_FAR;
    for i := 0 to |ies|
      invariant far == ReadFar(ZERO_FAR, ies[..i])
    {
      assert ies[..i + 1][..i] == ies[..i];
      var ie := ies[i];
      if ie.typ == FAR_ID {
        far := far.(id := GetFarId(ie));
      } else if ie.typ == APPLY_ACTION {
        if |ie.value| > 0 {
          far := far.(applyAction := ie.value[0]);
        }
      }
    }
    assert ies[..|ies|] == ies;
  }

  /** What the next group adds to the rule table and to the dataplane. */
  lemma PdrGroupRead(dp: Tables, seid: u64, groups: seq<IE>, i: nat)
    requires i < |groups|
    ensures var parsed, done := ParseIEs(groups[i].value), ReadPdrs(groups[..i]);
            if parsed.AllParsed? then
              var pdr := ReadPdr(ZERO_PDR, parsed.ies);
              && PdrTable(ReadPdrs(groups[..i + 1])) == PdrTable(done)[pdr.id := pdr]
              && WithPdrs(dp, seid, ReadPdrs(groups[..i + 1])) == WithPdr(WithPdrs(dp, seid, done), seid, pdr)
            else ReadPdrs(groups[..i + 1]) == done
  {
    var parsed, done := ParseIEs(groups[i].value), ReadPdrs(groups[..i]);
    PdrsGrow(groups, i);
    if parsed.AllParsed? {
      var pdr := ReadPdr(ZERO_PDR, parsed.ies);
      PdrTableGrows(done, pdr);
      assert (done + [pdr])[..|done|] == done;
    }
  }

  /** What the next group adds to the rule table and to the dataplane. */
  lemma FarGroupRead(dp: Tables, seid: u64, groups: seq<IE>, i: nat)
    requires i < |groups|
    ensures var parsed, done := ParseIEs(groups[i].value), ReadFars(groups[..i]);
            if parsed.AllParsed? then
              var far := ReadFar(ZERO_FAR, parsed.ies);
              && FarTable(ReadFars(groups[..i + 1])) == FarTable(done)[far.id := far]
              && WithFars(dp, seid, ReadFars(groups[..i + 1])) == WithFar(WithFars(dp, seid, done), seid, far)
            else ReadFars(groups[..i + 1]) == done
  {
    var parsed, done := ParseIEs(groups[i].value), ReadFars(groups[..i]);
    FarsGrow(groups, i);
    if parsed.AllParsed? {
      var far := ReadFar(ZERO_FAR, parsed.ies);
      FarTableGrows(done, far);
      assert (done + [far])[..|done|] == done;
    }
  }

  /** The search of allocSEID, with its 64-bit counter: the least positive SEID not in use or, if
      there is none, zero. It ends if some SEID is free. */
  method AllocSEID(sessions: map<u64, UpSession>) returns (seid: u64)
    requires |sessions.Keys| < 0x1_0000_0000_0000_0000
    ensures seid !in sessions && forall j: u64 :: 1 <= j && (seid == 0 || j < seid) ==> j in sessions
    ensures HasRoom(sessions) ==> seid == LeastFree(sessions)
  {
    seid := 1;
    ghost var left, steps := sessions.Keys, 0;
    while seid in sessions.Keys
      invariant left <= sessions.Keys && steps + |left| == |sessions.Keys|
      invariant 0 <= steps <= 0xFFFF_FFFF_FFFF_FFFF && seid == if steps == 0xFFFF_FFFF_FFFF_FFFF then 0 else 1 + steps
      invariant forall j: u64 :: j in sessions.Keys ==> j in left || 1 <= j <= steps
      invariant forall j: u64 :: 1 <= j <= steps ==> j in sessions.Keys
      decreases |left|
    {
      left, steps := left - {seid}, steps + 1;
      seid := if seid == 0xFFFF_FFFF_FFFF_FFFF then 0 else seid + 1;
    }
  }

  class UPFunction {
    var sessions: map<u64, UpSession>
    const dataplane: MockDataplane

    function View(): UpState
      reads this, dataplane
    {
      UpState(sessions, dataplane.View())
    }

    constructor ()
      ensures View() == EMPTY_UP && fresh(dataplane)
    {
      sessions := map[];
      dataplane := new MockDataplane();
    }

    method HandleSessionEstablishmentRequest(msg: Message) returns (resp: Msg)
      requires HasRoom(sessions)
      modifies this`sessions, dataplane
      ensures View() == Establish(old(View()), msg.View())
      ensures var h := msg.View().h;
              resp == NewSessionEstablishmentResponse(h.seqNum, h.seid, REQUEST_ACCEPTED, LeastFree(old(sessions)))
    {
      var seid := AllocSEID(sessions);
      var pdrs := InstallPdrs(msg, seid);
      var fars := InstallFars(msg, seid);
      sessions := sessions[seid := UpSession(seid, msg.Header.SEID, pdrs, fars)];
      resp := NewSessionEstablishmentResponse(msg.Header.SequenceNumber, msg.Header.SEID, REQUEST_ACCEPTED, seid);
    }

    method InstallPdrs(msg: Message, seid: u64) returns (table: map<u16, UpPdr>)
      modifies dataplane
      ensures table == PdrTable(PdrsOf(msg.View()))
      ensures dataplane.View() == WithPdrs(old(dataplane.View()), seid, PdrsOf(msg.View()))
    {
      table := map[];
      var groups := msg.FindAll(CREATE_PDR);
      for i := 0 to |groups|
        invariant table == PdrTable(ReadPdrs(groups[..i]))
        invariant dataplane.View() == WithPdrs(old(dataplane.View()), seid, ReadPdrs(groups[..i]))
      {
        PdrGroupRead(old(dataplane.View()), seid, groups, i);
        var parsed := ParseGroupedIE(groups[i].value);
        if parsed.AllParsed? {
          var pdr := ReadPdrGroup(parsed.ies);
          table := table[pdr.id := pdr];
          dataplane.InstallPDR(seid, pdr);
        }
      }
      assert groups[..|groups|] == groups;
    }

    method InstallFars(msg: Message, seid: u64) returns (table: map<u32, UpFar>)
      modifies dataplane
      ensures table == FarTable(FarsOf(msg.View()))
      ensures dataplane.View() == WithFars(old(dataplane.View()), seid, FarsOf(msg.View()))
    {
      table := map[];
      var groups := msg.FindAll(CREATE_FAR);
      for i := 0 to |groups|
        invariant table == FarTable(ReadFars(groups[..i]))
        invariant dataplane.View() == WithFars(old(dataplane.View()), seid, ReadFars(groups[..i]))
      {
        FarGroupRead(old(dataplane.View()), seid, groups, i);
        var parsed := ParseGroupedIE(groups[i].value);
        if parsed.AllParsed? {
          var far := ReadFarGroup(parsed.ies);
          table := table[far.id := far];
          dataplane.InstallFAR(seid, far);
        }
      }
      assert groups[..|groups|] == groups;
    }

    method HandleSessionDeletionRequest(msg: Message) returns (resp: Msg)
      modifies this`sessions, dataplane
      ensures View() == Delete(old(View()), msg.View().h.seid)
      ensures var h := msg.View().h;
              resp == NewSessionDeletionResponse(h.seqNum, h.seid, REQUEST_ACCEPTED)
    {
      var seid := msg.Header.SEID;
      sessions := sessions - {seid};
      dataplane.DeleteSession(seid);
      resp := NewSessionDeletionResponse(msg.Header.SequenceNumber, msg.Header.SEID, REQUEST_ACCEPTED);
    }
  }
}
