/** The control plane as one caller drives it (pkg/cp/cp.go, pkg/cp/handlers.go,
    pkg/cp/northbound.go): marshalling loops, session calls, association handlers and the
    in-memory store. The steps of concurrent callers are in the Network module. */
module ControlPlane {
  import opened Bytes
  import opened InformationElements
  import opened Messages
  import opened Rules
  import opened RuleTables
  import opened Network

  // ----- marshalling -----

  method MarshalPdi(p: CpPdi) returns (ie: IE)
    ensures ie == NewGroup(PDI, PdiIEs(p))
  {
    var ies := [NewSourceInterface(p.sourceInterface)];
    if p.ueIp.Some? {
      ies := ies + [NewUeIpAddress(p.ueIp.value)];
    }
    if p.sdf != [] {
      ies := ies + [NewSdfFilter(p.sdf)];
    }
    if p.appId != [] {
      ies := ies + [NewApplicationId(p.appId)];
    }
    assert ies == PdiIEs(p);
    ie := NewGroupedIE(PDI, ies);
  }

  method AppendIds(start: seq<IE>, typ: u16, ids: seq<u32>) returns (ies: seq<IE>)
    ensures ies == start + IdIEs(typ, ids)
  {
    ies := start;
    for i := 0 to |ids|
      invariant ies == start + IdIEs(typ, ids)[..i]
    {
      ies := ies + [IE(typ, 0, BE32(ids[i]))];
    }
  }

  method MarshalPDRs(pdrs: seq<CpPdr>) returns (ies: seq<IE>)
    ensures ies == CreatePdrs(pdrs)
    ensures forall i :: 0 <= i < |pdrs| && |ies[i].value| <= MAX_INPUT ==>
              exists children :: ParseIEs(ies[i].value) == AllParsed(children)
                && ReadPdr(ZERO_PDR, children) == ProjectPdr(pdrs[i])
  {
    ies := [];
    for i := 0 to |pdrs|
      invariant |ies| == i && forall j :: 0 <= j < i ==> ies[j] == NewGroup(CREATE_PDR, PdrIEs(pdrs[j]))
    {
      var p := pdrs[i];
      var children := [NewPdrId(p.id), NewPrecedence(p.precedence)];
      if p.pdi.Some? {
        var pdi := MarshalPdi(p.pdi.value);
        children := children + [pdi];
      }
      children := children + [NewFarId(p.farId)];
      children := AppendIds(children, QER_ID, p.qerIds);
      children := AppendIds(children, URR_ID, p.urrIds);
      assert children == PdrIEs(p);
      var createPDR := NewGroupedIE(CREATE_PDR, children);
      ies := ies + [createPDR];
    }
    forall i | 0 <= i < |pdrs| && |ies[i].value| <= MAX_INPUT
      ensures exists children :: ParseIEs(ies[i].value) == AllParsed(children)
                && ReadPdr(ZERO_PDR, children) == ProjectPdr(pdrs[i])
    {
      PdrRoundTrip(pdrs[i]);
    }
  }

  method MarshalFARs(fars: seq<CpFar>) returns (ies: seq<IE>)
    ensures ies == CreateFars(fars)
    ensures forall i :: 0 <= i < |fars| && |ies[i].value| <= MAX_INPUT ==>
              exists children :: ParseIEs(ies[i].value) == AllParsed(children)
                && ReadFar(ZERO_FAR, children) == ProjectFar(fars[i])
  {
    ies := [];
    for i := 0 to |fars|
      invariant |ies| == i && forall j :: 0 <= j < i ==> ies[j] == NewGroup(CREATE_FAR, FarIEs(fars[j]))
    {
      var f := fars[i];
      var children := [NewFarId(f.id), NewApplyAction(f.applyAction)];
      if f.forwarding.Some? {
        var fp := NewGroupedIE(FORWARDING_PARAMETERS, [NewDestinationInterface(f.forwarding.value.destinationInterface)]);
        children := children + [fp];
      }
      assert children == FarIEs(f);
      var createFAR := NewGroupedIE(CREATE_FAR, children);
      ies := ies + [createFAR];
    }
    forall i | 0 <= i < |fars| && |ies[i].value| <= MAX_INPUT
      ensures exists children :: ParseIEs(ies[i].value) == AllParsed(children)
                && ReadFar(ZERO_FAR, children) == ProjectFar(fars[i])
    {
      FarRoundTrip(fars[i]);
    }
  }

  /** marshalQERs and marshalURRs: a group per rule with its identifier alone. */
  method MarshalIds(group: u16, typ: u16, ids: seq<u32>) returns (ies: seq<IE>)
    ensures ies == CreateIds(group, typ, ids)
  {
    ies := [];
    for i := 0 to |ids|
      invariant |ies| == i && forall j :: 0 <= j < i ==> ies[j] == NewGroup(group, [IE(typ, 0, BE32(ids[j]))])
    {
      var ie := NewGroupedIE(group, [IE(typ, 0, BE32(ids[i]))]);
      ies := ies + [ie];
    }
  }

  // ----- store -----

  class MemoryStore {
    var sessions: map<u64, CpSession>

    constructor ()
      ensures sessions == map[]
    {
      sessions := map[];
    }

    method StoreSession(seid: u64, session: CpSession)
      modifies this
      ensures sessions == old(sessions)[seid := session]
    {
      sessions := sessions[seid := session];
    }

    method GetSession(seid: u64) returns (session: Option<CpSession>)
      ensures session == if seid in sessions then Some(sessions[seid]) else None
    {
      session := if seid in sessions then Some(sessions[seid]) else None;
    }

    method DeleteSession(seid: u64)
      modifies this
      ensures sessions == old(sessions) - {seid}
    {
      sessions := sessions - {seid};
    }

    /** Every stored SEID, once, in no particular order. */
    method ListSessions() returns (seids: seq<u64>)
      ensures |seids| == |sessions.Keys|
      ensures forall k :: k in seids <==> k in sessions
    {
      seids := [];
      var left := sessions.Keys;
      while left != {}
        invariant left <= sessions.Keys && |seids| + |left| == |sessions.Keys|
        invariant forall k :: k in seids <==> k in sessions.Keys && k !in left
        decreases |left|
      {
        var k :| k in left;
        seids := seids + [k];
        left := left - {k};
      }
    }
  }

  // ----- session calls -----

  /** The call record of the step system for a finished create or delete. */
  function Finished(job: Job, seid: u64, reply: Msg): Call {
    Call(job, 0, 0, seid, 0, RequestMsg(job, 0), 0, 0, None, Some(Got(0, reply, Tag(0, 0, Answering(0)))), Returned)
  }

  /** What SendRequest is given. */
  datatype Sending = Sending(msg: Msg, dst: Addr, maxRetries: int)

  lemma CreateCommitted(cp: CpState, nodeId: gostring, rules: CpRules, seid: u64, reply: Msg, session: CpSession)
    requires !cp.byFseid
    requires session == CpSession(seid, reply.h.seid, nodeId, CpPdrMap(rules.pdrs), CpFarMap(rules.fars))
    ensures var c := Finished(Create(nodeId, rules), seid, reply);
            CommitCall(ApplyCall(cp, c), c)
            == cp.(sessions := cp.sessions[seid := session], store := cp.store[seid := session])
  {
  }

  class CPFunction {
    var associations: map<gostring, Addr>
    var sessions: map<u64, CpSession>
    var nextSEID: u64
    ghost var allocs: nat
    const store: MemoryStore
    const nodeID: gostring
    const recoveryTS: u32
    const n1: int

    ghost function View(): CpState
      reads this, store
    {
      CpState(sessions, store.sessions, nextSEID, allocs, associations, nodeID, recoveryTS, n1, false, [])
    }

    constructor (nodeID: gostring, recoveryTS: u32, n1: int)
      ensures View() == CpState(map[], map[], 1, 0, map[], nodeID, recoveryTS, n1, false, []) && fresh(store)
    {
      associations, sessions, nextSEID, allocs := map[], map[], 1, 0;
      this.nodeID, this.recoveryTS, this.n1 := nodeID, recoveryTS, n1;
      store := new MemoryStore();
    }

    method AllocSEID() returns (seid: u64)
      modifies this`nextSEID, this`allocs
      ensures seid == old(nextSEID) && View() == Allocating(old(View()))
    {
      seid := nextSEID;
      nextSEID := (nextSEID as int + 1) % 0x1_0000_0000_0000_0000;
      allocs := allocs + 1;
    }

    /** reply is what SendRequest returns, None standing for any of its errors; request is
        what it is given. A failed call leaves table and store alone; a successful one puts the
        same session in both: the two updates of the step system. */
    method CreateSession(nodeId: gostring, rules: CpRules, reply: Option<Msg>)
      returns (request: Option<Sending>, result: Option<u64>)
      modifies this`sessions, this`nextSEID, this`allocs, store
      ensures request.Some? <==> nodeId in old(associations)
      ensures request.Some? ==> request.value == Sending(EstablishmentRequest(0, rules), associations[nodeId], n1)
      ensures result.Some? <==> request.Some? && reply.Some? && Accepting(reply.value)
      ensures request.None? ==> View() == old(View())
      ensures request.Some? && result.None? ==> View() == Allocating(old(View()))
      ensures result.Some? ==>
                && result.value == old(nextSEID) && result.value in sessions
                && var session := sessions[result.value];
                && session.nodeId == nodeId && session.localSeid == result.value
                && session.remoteSeid == reply.value.h.seid
                && HoldsPdrs(session.pdrs, rules.pdrs) && HoldsFars(session.fars, rules.fars)
                && sessions == old(sessions)[result.value := session]
                && store.sessions == old(store.sessions)[result.value := session]
      ensures result.Some? ==>
                var c := Finished(Create(nodeId, rules), old(nextSEID), reply.value);
                View() == CommitCall(ApplyCall(Allocating(old(View())), c), c)
    {
      if nodeId !in associations {
        return None, None;
      }
      var seid := AllocSEID();
      var req := MarshalRules(rules);
      request, result := Some(Sending(req, associations[nodeId], n1)), None;
      if reply.None? {
        return;
      }
      var accepted := CauseAccepts(reply.value);
      if !accepted {
        return;
      }
      KeepSession(seid, nodeId, rules, reply.value);
      result := Some(seid);
    }

    method KeepSession(seid: u64, nodeId: gostring, rules: CpRules, resp: Msg)
      modifies this`sessions, store
      ensures seid in sessions
      ensures sessions == old(sessions)[seid := sessions[seid]]
      ensures store.sessions == old(store.sessions)[seid := sessions[seid]]
      ensures sessions[seid].nodeId == nodeId && sessions[seid].localSeid == seid
      ensures sessions[seid].remoteSeid == resp.h.seid
      ensures HoldsPdrs(sessions[seid].pdrs, rules.pdrs) && HoldsFars(sessions[seid].fars, rules.fars)
      ensures var c := Finished(Create(nodeId, rules), seid, resp);
              View() == CommitCall(ApplyCall(old(View()), c), c)
    {
      var session := NewSession(seid, resp.h.seid, nodeId, rules);
      sessions := sessions[seid := session];
      store.StoreSession(seid, session);
      CreateCommitted(old(View()), nodeId, rules, seid, resp, session);
    }

    method CauseAccepts(resp: Msg) returns (accepted: bool)
      ensures accepted <==> Accepting(resp)
    {
      AcceptsExactly(resp);
      var causeIE := FindIE(resp.ies, CAUSE);
      if causeIE.None? {
        return false;
      }
      var cause := GetCause(causeIE.value);
      accepted := cause.Some? && cause.value == REQUEST_ACCEPTED;
    }

    method MarshalRules(rules: CpRules) returns (req: Msg)
      ensures req == EstablishmentRequest(0, rules)
    {
      var createPDRs := MarshalPDRs(rules.pdrs);
      var createFARs := MarshalFARs(rules.fars);
      var createQERs := MarshalIds(CREATE_QER, QER_ID, rules.qers);
      var createURRs := MarshalIds(CREATE_URR, URR_ID, rules.urrs);
      req := NewSessionEstablishmentRequest(0, 0, createPDRs, createFARs, createQERs, createURRs);
    }

    method NewSession(seid: u64, remote: u64, nodeId: gostring, rules: CpRules) returns (session: CpSession)
      ensures session == CpSession(seid, remote, nodeId, CpPdrMap(rules.pdrs), CpFarMap(rules.fars))
      ensures HoldsPdrs(session.pdrs, rules.pdrs) && HoldsFars(session.fars, rules.fars)
    {
      var pdrs := PdrsById(rules.pdrs);
      var fars := FarsById(rules.fars);
      session := CpSession(seid, remote, nodeId, pdrs, fars);
    }

    method PdrsById(pdrs: seq<CpPdr>) returns (table: map<u16, CpPdr>)
      ensures table == CpPdrMap(pdrs) && HoldsPdrs(table, pdrs)
    {
      CpPdrMapHolds(pdrs);
      table := map[];
      for i := 0 to |pdrs|
        invariant table == CpPdrMap(pdrs[..i])
      {
        assert pdrs[..i + 1][..i] == pdrs[..i];
        table := table[pdrs[i].id := pdrs[i]];
      }
      assert pdrs[..|pdrs|] == pdrs;
    }

    method FarsById(fars: seq<CpFar>) returns (table: map<u32, CpFar>)
      ensures table == CpFarMap(fars) && HoldsFars(table, fars)
    {
      CpFarMapHolds(fars);
      table := map[];
      for i := 0 to |fars|
        invariant table == CpFarMap(fars[..i])
      {
        assert fars[..i + 1][..i] == fars[..i];
        table := table[fars[i].id := fars[i]];
      }
      assert fars[..|fars|] == fars;
    }

    /** A deletion whose reply carries no usable Cause reads it as zero, and fails. */
    method DeleteSession(seid: u64, reply: Option<Msg>) returns (request: Option<Sending>, ok: bool)
      modifies this`sessions, store
      ensures request.Some? <==> seid in old(sessions) && old(sessions)[seid].nodeId in associations
      ensures request.Some? ==>
                var session := old(sessions)[seid];
                request.value == Sending(NewSessionDeletionRequest(0, session.remoteSeid), associations[session.nodeId], n1)
      ensures ok <==> request.Some? && reply.Some? && Accepting(reply.value)
      ensures ok ==> sessions == old(sessions) - {seid} && store.sessions == old(store.sessions) - {seid}
      ensures !ok ==> View() == old(View())
      ensures ok ==>
                var c := Finished(Remove(seid, old(sessions)[seid].remoteSeid), 0, reply.value);
                View() == CommitCall(ApplyCall(old(View()), c), c)
    {
      if seid !in sessions {
        return None, false;
      }
      var session := sessions[seid];
      if session.nodeId !in associations {
        return None, false;
      }
      var req := NewSessionDeletionRequest(0, session.remoteSeid);
      request, ok := Some(Sending(req, associations[session.nodeId], n1)), false;
      if reply.None? {
        return;
      }
      AcceptsExactly(reply.value);
      var causeIE := FindIE(reply.value.ies, CAUSE);
      if causeIE.None? {
        return;
      }
      var cause := GetCause(causeIE.value);
      if (if cause.Some? then cause.value else 0) != REQUEST_ACCEPTED {
        return;
      }
      sessions := sessions - {seid};
      store.DeleteSession(seid);
      ok := true;
    }

    // ----- association handlers -----

    /** Both handlers skip the first byte of the Node ID value, and panic if there is none: the
        first one only once it has found a time stamp too. */
    method HandleAssociationSetupRequest(g: Got) returns (resp: Option<Msg>, panicked: bool)
      requires g.msg.h.typ == ASSOCIATION_SETUP_REQUEST
      modifies this`associations
      ensures Handle(CP(old(View())), g) == if panicked then Panicked else Effect(CP(View()), resp)
      ensures panicked ==> View() == old(View())
      ensures panicked <==> FindIE(g.msg.ies, NODE_ID).Some? && FindIE(g.msg.ies, NODE_ID).value.value == []
                            && FindIE(g.msg.ies, RECOVERY_TIME_STAMP).Some?
    {
      resp, panicked := None, false;
      var nodeIDIE := FindIE(g.msg.ies, NODE_ID);
      if nodeIDIE.None? {
        return;
      }
      if FindIE(g.msg.ies, RECOVERY_TIME_STAMP).None? {
        return;
      }
      if |nodeIDIE.value.value| < 1 {
        return None, true;
      }
      associations := associations[nodeIDIE.value.value[1..] := g.src];
      resp := Some(NewAssociationSetupResponse(g.msg.h.seqNum, nodeID, REQUEST_ACCEPTED, recoveryTS));
    }

    method HandleAssociationReleaseRequest(g: Got) returns (resp: Option<Msg>, panicked: bool)
      requires g.msg.h.typ == ASSOCIATION_RELEASE_REQUEST
      modifies this`associations
      ensures Handle(CP(old(View())), g) == if panicked then Panicked else Effect(CP(View()), resp)
      ensures panicked ==> View() == old(View())
      ensures panicked <==> FindIE(g.msg.ies, NODE_ID).Some? && FindIE(g.msg.ies, NODE_ID).value.value == []
    {
      resp, panicked := None, false;
      var nodeIDIE := FindIE(g.msg.ies, NODE_ID);
      if nodeIDIE.None? {
        return;
      }
      if |nodeIDIE.value.value| < 1 {
        return None, true;
      }
      associations := associations - {nodeIDIE.value.value[1..]};
      resp := Some(NewAssociationReleaseResponse(g.msg.h.seqNum, nodeID, REQUEST_ACCEPTED));
    }
  }
}
