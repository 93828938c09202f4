/** What the receive loop's handlers do with any message (pkg/cp/handlers.go, pkg/up/handlers.go):
    which types are handled, which state changes, and what the answer says. */
module Handlers {
  import opened Bytes
  import opened InformationElements
  import opened Messages
  import opened Rules
  import opened RuleTables
  import opened WireFormat
  import opened UserPlane
  import opened Network

  /** The message types each side has registered. */
  lemma HandledTypes(role: Role, g: Got)
    requires role.UP? ==> HasRoom(role.up.sessions)
    ensures role.UP? ==> (Handle(role, g).NotHandled? <==> g.msg.h.typ !in {1, 50, 52, 54})
    ensures role.CP? ==> (Handle(role, g).NotHandled? <==> g.msg.h.typ !in {1, 5, 9, 56})
  {
  }

  // ----- associations -----

  /** The first Node ID is element i and names this node: its value without the first byte. */
  ghost predicate Names(m: Msg, i: nat, name: gostring) {
    FirstAt(m.ies, 60, i) && |m.ies[i].value| >= 1 && m.ies[i].value[1..] == name
  }

  ghost predicate Stamps(m: Msg) {
    exists i :: 0 <= i < |m.ies| && m.ies[i].typ == 96
  }

  /** The two tables agree on every name but this one. */
  ghost predicate SameBut(assocs: map<gostring, Addr>, assocs': map<gostring, Addr>, name: gostring) {
    && (forall other :: other != name ==> (other in assocs <==> other in assocs'))
    && (forall other :: other != name && other in assocs && other in assocs' ==> assocs[other] == assocs'[other])
  }

  /** The handler ran, changed associations only, and sent this answer. */
  ghost predicate Associated(cp: CpState, e: Effect, typ: byte, g: Got) {
    && e.Effect? && e.role.CP? && e.role.cp == cp.(assocs := e.role.cp.assocs)
    && e.reply.Some? && Replies(e.reply.value, typ, g) && Accepting(e.reply.value)
    && Names(e.reply.value, 0, cp.nodeId)
  }

  /** An answer of the given type with the request's number, from version 1 of the protocol. */
  ghost predicate Replies(m: Msg, typ: byte, g: Got) {
    m.h.typ == typ && m.h.seqNum == g.msg.h.seqNum && m.h.version == 1 && !m.h.mp
  }

  /** Association setup: exactly the name in the request leads to its sender afterwards. */
  lemma SetupAssociates(cp: CpState, g: Got, i: nat, name: gostring)
    requires g.msg.h.typ == 5 && Names(g.msg, i, name) && Stamps(g.msg)
    ensures var e := Handle(CP(cp), g);
            && Associated(cp, e, 6, g) && name in e.role.cp.assocs && e.role.cp.assocs[name] == g.src
            && SameBut(cp.assocs, e.role.cp.assocs, name)
            && LastNumber(e.reply.value.ies, 96, 4, cp.ts)
  {
    FindsFirst(g.msg.ies, 60, i);
    SetupAnswer(g.msg.h.seqNum, cp.nodeId, cp.ts);
  }

  lemma SetupAnswer(s: u32, id: gostring, ts: u32)
    ensures var m := NewAssociationSetupResponse(s, id, 1, ts);
            Accepting(m) && Names(m, 0, id) && LastNumber(m.ies, 96, 4, ts)
  {
    var m := NewAssociationSetupResponse(s, id, 1, ts);
    assert FirstAt(m.ies, 19, 1) && FirstAt(m.ies, 60, 0);
    assert m.ies[0].value[1..] == id;
    Spelled32(ts);
    assert BE32(ts)[..4] == BE32(ts);
    assert LastAt(m.ies, 96, 2) && Leading(m.ies[2].value, 4) == ts;
  }

  /** Association release: exactly the name in the request is gone afterwards. */
  lemma ReleaseDissociates(cp: CpState, g: Got, i: nat, name: gostring)
    requires g.msg.h.typ == 9 && Names(g.msg, i, name)
    ensures var e := Handle(CP(cp), g);
            && Associated(cp, e, 10, g) && name !in e.role.cp.assocs && SameBut(cp.assocs, e.role.cp.assocs, name)
  {
    FindsFirst(g.msg.ies, 60, i);
    var m := NewAssociationReleaseResponse(g.msg.h.seqNum, cp.nodeId, 1);
    assert FirstAt(m.ies, 19, 1) && FirstAt(m.ies, 60, 0);
    assert m.ies[0].value[1..] == cp.nodeId;
  }

  /** Without a Node ID, and for setup without a time stamp too, a request changes nothing and gets
      no answer; with an empty Node ID its handler panics; any other request has its effect. */
  lemma NeglectedExactly(cp: CpState, g: Got)
    requires g.msg.h.typ == 5 || g.msg.h.typ == 9
    ensures var e := Handle(CP(cp), g);
            var complete := !NoneOf(g.msg.ies, 60) && (g.msg.h.typ == 5 ==> Stamps(g.msg));
            && (!complete <==> e == Effect(CP(cp), None))
            && (e.Panicked? <==> complete && exists i: nat :: FirstAt(g.msg.ies, 60, i) && g.msg.ies[i].value == [])
            && (e.Effect? && e.reply.Some? <==> complete && exists i: nat :: FirstAt(g.msg.ies, 60, i) && g.msg.ies[i].value != [])
  {
    if FindIE(g.msg.ies, 60).Some? {
      var i := FirstFound(g.msg.ies, 60);
      FindsFirst(g.msg.ies, 60, i);
      forall j: nat | FirstAt(g.msg.ies, 60, j) ensures j == i {
        assert !(j < i) && !(i < j);
      }
    }
  }

  /** The user plane's own request associates the name it gives with the address it came from, and
      a release of that name undoes it. */
  lemma SetupThenRelease(cp: CpState, s: u32, s': u32, name: gostring, ts: u32, src: Addr, src': Addr, tag: Tag)
    ensures var e := Handle(CP(cp), Got(src, NewAssociationSetupRequest(s, name, ts), tag));
            && e.Effect? && e.role.CP? && e.role.cp == cp.(assocs := cp.assocs[name := src])
            && var e' := Handle(e.role, Got(src', Msg(NodeHeader(9, s'), [NewNodeID(name)]), tag));
            && e'.Effect? && e'.role == CP(cp.(assocs := cp.assocs - {name}))
  {
    var m, m' := NewAssociationSetupRequest(s, name, ts), Msg(NodeHeader(9, s'), [NewNodeID(name)]);
    assert FirstAt(m.ies, 60, 0) && FirstAt(m'.ies, 60, 0) && m.ies[1].typ == 96;
    FindsFirst(m.ies, 60, 0);
    FindsFirst(m'.ies, 60, 0);
    assert m.ies[0].value[1..] == name && m'.ies[0].value[1..] == name;
    assert cp.assocs[name := src] - {name} == cp.assocs - {name};
  }

  // ----- sessions and heartbeats -----

  /** The answer carries the SEID of the request's header. */
  ghost predicate Echoes(e: Effect, typ: byte, g: Got) {
    && e.Effect? && e.reply.Some? && Replies(e.reply.value, typ, g)
    && e.reply.value.h.s && e.reply.value.h.seid == g.msg.h.seid && Accepting(e.reply.value)
  }

  /** Session requests are always accepted. Establishment adds one session, under a SEID that was
      free and is announced in the answer; deletion removes the one session it names, if there is
      one; modification changes nothing. */
  lemma SessionRequests(role: Role, g: Got)
    requires role.UP? && HasRoom(role.up.sessions)
    ensures var e := Handle(role, g);
            && (g.msg.h.typ == 50 ==>
                  && Echoes(e, 51, g) && e.role.UP? && FseidOf(e.reply.value).Some?
                  && Added(role.up, e.role.up, FseidOf(e.reply.value).value, g.msg))
            && (g.msg.h.typ == 52 ==> Echoes(e, 53, g) && e.role == role)
            && (g.msg.h.typ == 54 ==> Echoes(e, 55, g) && e.role.UP? && Removed(role.up, e.role.up, g.msg.h.seid))
  {
    var h := g.msg.h;
    if h.typ == 50 {
      var seid := LeastFree(role.up.sessions);
      FseidCarried(h.seqNum, h.seid, 1, seid);
      assert FirstAt(NewSessionEstablishmentResponse(h.seqNum, h.seid, 1, seid).ies, 19, 0);
    } else if h.typ == 52 {
      assert FirstAt(NewSessionModificationResponse(h.seqNum, h.seid).ies, 19, 0);
    } else if h.typ == 54 {
      assert FirstAt(NewSessionDeletionResponse(h.seqNum, h.seid, 1).ies, 19, 0);
    }
  }

  /** One session more, under its own SEID, with the header SEID of the request as remote SEID and
      the rules of the request; the others as they were. */
  ghost predicate Added(up: UpState, up': UpState, seid: u64, m: Msg) {
    && seid !in up.sessions && seid >= 1 && (forall j: u64 :: 1 <= j < seid ==> j in up.sessions)
    && up'.sessions.Keys == up.sessions.Keys + {seid}
    && (forall k :: k in up.sessions ==> up'.sessions[k] == up.sessions[k])
    && up'.sessions[seid].localSeid == seid && up'.sessions[seid].remoteSeid == m.h.seid
    && up'.sessions[seid].pdrs == PdrTable(PdrsOf(m)) && up'.sessions[seid].fars == FarTable(FarsOf(m))
  }

  ghost predicate Removed(up: UpState, up': UpState, seid: u64) {
    && up'.sessions.Keys == up.sessions.Keys - {seid}
    && (forall k :: k in up'.sessions ==> up'.sessions[k] == up.sessions[k])
    && seid !in up'.dp.pdrs && seid !in up'.dp.fars
  }

  /** A heartbeat changes nothing and is answered with the node's own recovery time stamp. */
  lemma HeartbeatAnswered(role: Role, g: Got)
    requires g.msg.h.typ == 1
    ensures var e := Handle(role, g);
            && e.Effect? && e.role == role && e.reply.Some? && Replies(e.reply.value, 2, g)
            && LastNumber(e.reply.value.ies, 96, 4, if role.CP? then role.cp.ts else role.upNodeTs)
  {
    var ts := if role.CP? then role.cp.ts else role.upNodeTs;
    var m := NewHeartbeatResponse(g.msg.h.seqNum, ts);
    Spelled32(ts);
    assert BE32(ts)[..4] == BE32(ts);
    assert LastAt(m.ies, 96, 0) && Leading(m.ies[0].value, 4) == ts;
  }
}
