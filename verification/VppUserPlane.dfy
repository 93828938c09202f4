/** The user plane's session handlers (pkg/up/handlers.go) with VPP as the dataplane
    (pkg/dataplane/vpp/vpp.go), over any run of requests. */
module VppUserPlane {
  import opened Bytes
  import opened InformationElements
  import opened Messages
  import opened Rules
  import opened UserPlane
  import opened VppDataplane

  /** VPP has a session for every user-plane session with a detection rule, and for no other, and
      its tables are the session's. */
  ghost predicate VppMirrors(sessions: map<u64, UpSession>, vpp: map<u64, VppSession>) {
    && (forall k :: k in vpp <==> k in sessions && sessions[k].pdrs != map[])
    && (forall k :: k in vpp ==> vpp[k].pdrs == sessions[k].pdrs && vpp[k].fars == sessions[k].fars)
  }

  /** VPP holds the tables that the mock dataplane would hold after the same requests, except
      those of sessions without a detection rule. */
  lemma SameAsMock(ops: seq<Op>, vpp: map<u64, VppSession>, k: u64)
    requires VppMirrors(SessionsOf(MakersAfter(map[], ops)), vpp)
    ensures var dp := After(EMPTY_UP, ops).dp;
            && (k in vpp <==> PdrsAt(dp, k) != map[])
            && (k in vpp ==> vpp[k].pdrs == PdrsAt(dp, k) && vpp[k].fars == FarsAt(dp, k))
  {
    MirrorsAlways(ops);
    SessionsOfMakers(ops);
  }

  /** A marked rule is one of the request that made its session, the same request has an action
      rule it refers to that forwards, and VPP has granted every registration of the rule. */
  ghost predicate MarksMean(live: map<u64, Msg>, vpp: map<u64, VppSession>, requests: seq<Punt>, replies: seq<bool>) {
    forall k, id :: k in live && k in vpp && id in vpp[k].punted ==>
      var pdrs := PdrTable(PdrsOf(live[k]));
      id in pdrs && SomeForwards(FarsOf(live[k]), pdrs[id].farId) && FullyPunted(requests, replies, pdrs[id])
  }

  /** VPP's sessions after the detection rules of a request. */
  function WithTable(vpp: map<u64, VppSession>, seid: u64, table: map<u16, UpPdr>): map<u64, VppSession> {
    if table == map[] then vpp else vpp[seid := VppSession(table, map[], {})]
  }

  /** VPP's sessions after one more rule. */
  function WithRule(vpp: map<u64, VppSession>, seid: u64, pdr: UpPdr): map<u64, VppSession> {
    vpp[seid := if seid in vpp then vpp[seid].(pdrs := vpp[seid].pdrs[pdr.id := pdr])
                else VppSession(map[pdr.id := pdr], map[], {})]
  }

  lemma NextTable(vpp: map<u64, VppSession>, seid: u64, table: map<u16, UpPdr>, pdr: UpPdr)
    requires seid !in vpp
    ensures WithRule(WithTable(vpp, seid, table), seid, pdr) == WithTable(vpp, seid, table[pdr.id := pdr])
  {
    assert pdr.id in table[pdr.id := pdr];
    assert table == map[] ==> table[pdr.id := pdr] == map[pdr.id := pdr];
  }

  /** Action rules change their own session, but for its detection rules. */
  ghost predicate OnlyFars(vpp: map<u64, VppSession>, vpp': map<u64, VppSession>, seid: u64) {
    && vpp'.Keys == vpp.Keys
    && (forall k :: k in vpp' && k != seid ==> vpp'[k] == vpp[k])
    && (seid in vpp' ==> vpp'[seid].pdrs == vpp[seid].pdrs)
  }

  /** The state after some action rules of a request. */
  ghost predicate FarsDone(vpp: map<u64, VppSession>, vpp': map<u64, VppSession>, installed: map<u64, seq<UpFar>>,
                           installed': map<u64, seq<UpFar>>, seid: u64, fars: seq<UpFar>) {
    && OnlyFars(vpp, vpp', seid) && installed' == Extended(installed, seid, fars)
    && (seid in vpp' && vpp[seid].fars == map[] ==> vpp'[seid].fars == FarTable(fars))
  }

  lemma FarsStart(vpp: map<u64, VppSession>, installed: map<u64, seq<UpFar>>, seid: u64)
    ensures FarsDone(vpp, vpp, installed, installed, seid, [])
  {
    ExtendedNone(installed, seid);
  }

  lemma FarsStep(vpp: map<u64, VppSession>, vpp': map<u64, VppSession>, vpp'': map<u64, VppSession>, installed: map<u64, seq<UpFar>>,
                 installed': map<u64, seq<UpFar>>, installed'': map<u64, seq<UpFar>>, seid: u64, fars: seq<UpFar>, far: UpFar)
    requires FarsDone(vpp, vpp', installed, installed', seid, fars) && OnlyFars(vpp', vpp'', seid)
    requires installed'' == Extended(installed', seid, [far])
    requires seid in vpp'' ==> vpp''[seid].fars == vpp'[seid].fars[far.id := far]
    ensures FarsDone(vpp, vpp'', installed, installed'', seid, fars + [far])
  {
    ExtendedStep(installed, seid, fars, far);
    assert (fars + [far])[..|fars|] == fars;
  }

  lemma MirrorsAfterEstablish(sessions: map<u64, UpSession>, vpp: map<u64, VppSession>, vpp': map<u64, VppSession>,
                              seid: u64, session: UpSession)
    requires VppMirrors(sessions, vpp) && seid !in sessions
    requires OnlyFars(WithTable(vpp, seid, session.pdrs), vpp', seid)
    requires seid in vpp' ==> vpp'[seid].fars == session.fars
    ensures VppMirrors(sessions[seid := session], vpp')
  {
    var sessions', between := sessions[seid := session], WithTable(vpp, seid, session.pdrs);
    forall k
      ensures k in vpp' <==> k in sessions' && sessions'[k].pdrs != map[]
      ensures k in vpp' ==> vpp'[k].pdrs == sessions'[k].pdrs && vpp'[k].fars == sessions'[k].fars
    {
      assert k in vpp' <==> k in vpp'.Keys;
      assert k in between <==> k in between.Keys;
    }
  }

  lemma OthersStay(vpp: map<u64, VppSession>, vpp': map<u64, VppSession>, seid: u64, table: map<u16, UpPdr>)
    requires seid !in vpp && OnlyFars(WithTable(vpp, seid, table), vpp', seid)
    ensures forall k :: k in vpp ==> k in vpp' && vpp'[k] == vpp[k]
    ensures forall k :: k in vpp' && k != seid ==> k in vpp && vpp'[k] == vpp[k]
    ensures seid in vpp' ==> vpp'[seid].pdrs == table
  {
    forall k | k in vpp' ensures k == seid || k in vpp {
      assert k in WithTable(vpp, seid, table).Keys && k in vpp'.Keys;
    }
    forall k | k in vpp ensures k in vpp' && vpp'[k] == vpp[k] {
      assert k in WithTable(vpp, seid, table).Keys && k in vpp'.Keys;
    }
  }

  // What VPP's tables and the record of installed action rules say of the requests.

  ghost predicate Agrees(live: map<u64, Msg>, vpp: map<u64, VppSession>, installed: map<u64, seq<UpFar>>) {
    forall k :: k in live && k in vpp ==>
      k in installed && installed[k] == FarsOf(live[k]) && vpp[k].pdrs == PdrTable(PdrsOf(live[k]))
  }

  function Extended(installed: map<u64, seq<UpFar>>, seid: u64, fars: seq<UpFar>): map<u64, seq<UpFar>> {
    if seid in installed then installed[seid := installed[seid] + fars] else installed
  }

  lemma ExtendedStep(installed: map<u64, seq<UpFar>>, seid: u64, fars: seq<UpFar>, far: UpFar)
    ensures Extended(Extended(installed, seid, fars), seid, [far]) == Extended(installed, seid, fars + [far])
  {
    if seid in installed {
      Bytes.Associate(installed[seid], fars, [far]);
    }
  }

  lemma ExtendedNone(installed: map<u64, seq<UpFar>>, seid: u64)
    ensures Extended(installed, seid, []) == installed
  {
    if seid in installed {
      assert installed[seid] + [] == installed[seid];
    }
  }

  /** Sessions other than the new one are as they were. */
  lemma AgreesStill(live: map<u64, Msg>, vpp: map<u64, VppSession>, vpp': map<u64, VppSession>,
                    installed: map<u64, seq<UpFar>>, installed': map<u64, seq<UpFar>>, seid: u64)
    requires Agrees(live, vpp, installed) && seid !in live
    requires forall k :: k in vpp' && k != seid ==> k in vpp && vpp'[k] == vpp[k]
    requires forall k :: k in installed && k != seid ==> k in installed' && installed'[k] == installed[k]
    ensures Agrees(live, vpp', installed')
  {
  }

  lemma AgreesAfter(live: map<u64, Msg>, vpp: map<u64, VppSession>, installed: map<u64, seq<UpFar>>, seid: u64, m: Msg)
    requires Agrees(live, vpp, installed)
    requires seid in vpp ==> seid in installed && installed[seid] == FarsOf(m) && vpp[seid].pdrs == PdrTable(PdrsOf(m))
    ensures Agrees(live[seid := m], vpp, installed)
  {
  }

  /** VPP's tables and record before and after the rules of a request, under a SEID not in use. */
  ghost predicate Installing(vpp: map<u64, VppSession>, vpp': map<u64, VppSession>, installed: map<u64, seq<UpFar>>,
                             installed': map<u64, seq<UpFar>>, seid: u64, m: Msg) {
    && seid !in vpp && OnlyFars(WithTable(vpp, seid, PdrTable(PdrsOf(m))), vpp', seid)
    && (forall k :: k in installed && k != seid ==> k in installed' && installed'[k] == installed[k])
  }

  lemma InstallingAgrees(live: map<u64, Msg>, vpp: map<u64, VppSession>, vpp': map<u64, VppSession>,
                         installed: map<u64, seq<UpFar>>, installed': map<u64, seq<UpFar>>, seid: u64, m: Msg)
    requires Agrees(live, vpp, installed) && seid !in live && Installing(vpp, vpp', installed, installed', seid, m)
    ensures Agrees(live, vpp', installed')
    ensures forall k :: k in vpp ==> k in vpp' && vpp'[k] == vpp[k]
    ensures (seid in vpp' ==> seid in installed' && installed'[seid] == FarsOf(m)) ==> Agrees(live[seid := m], vpp', installed')
  {
    OthersStay(vpp, vpp', seid, PdrTable(PdrsOf(m)));
    AgreesStill(live, vpp, vpp', installed, installed', seid);
    if seid in vpp' ==> seid in installed' && installed'[seid] == FarsOf(m) {
      AgreesAfter(live, vpp', installed', seid, m);
    }
  }

  lemma SessionsGrow(live: map<u64, Msg>, seid: u64, m: Msg)
    ensures SessionsOf(live[seid := m]) == SessionsOf(live)[seid := SessionFor(seid, m)]
  {
    var grown := SessionsOf(live)[seid := SessionFor(seid, m)];
    assert SessionsOf(live[seid := m]).Keys == grown.Keys;
  }

  lemma SessionsShrink(live: map<u64, Msg>, seid: u64)
    ensures SessionsOf(live - {seid}) == SessionsOf(live) - {seid}
  {
    assert SessionsOf(live - {seid}).Keys == (SessionsOf(live) - {seid}).Keys;
  }

  class UPFunction {
    var sessions: map<u64, UpSession>
    const vpp: Vpp
    /** The request that made each session. */
    ghost var live: map<u64, Msg>

    ghost predicate Sound()
      reads this, vpp
    {
      sessions == SessionsOf(live) && Agrees(live, vpp.sessions, vpp.installed)
    }

    ghost predicate Valid()
      reads this, vpp
    {
      vpp.Valid() && VppMirrors(sessions, vpp.sessions) && Sound()
    }

    constructor (replies: seq<bool>)
      ensures Valid() && live == map[] && sessions == map[] && fresh(vpp) && vpp.replies == replies && vpp.requests == []
    {
      sessions, live := map[], map[];
      vpp := new Vpp(replies);
    }

    /** The detection rules of a request, under a SEID that VPP does not know. */
    method InstallPdrs(msg: Message, seid: u64) returns (table: map<u16, UpPdr>)
      requires vpp.Valid() && seid !in vpp.sessions
      modifies vpp
      ensures vpp.Valid() && vpp.requests == old(vpp.requests) && table == PdrTable(PdrsOf(msg.View()))
      ensures vpp.sessions == WithTable(old(vpp.sessions), seid, table)
      ensures vpp.installed == if table == map[] then old(vpp.installed) else old(vpp.installed)[seid := []]
    {
      table := map[];
      var groups := msg.FindAll(CREATE_PDR);
      for i := 0 to |groups|
        invariant vpp.Valid() && vpp.requests == old(vpp.requests)
        invariant table == PdrTable(ReadPdrs(groups[..i]))
        invariant vpp.sessions == WithTable(old(vpp.sessions), seid, table)
        invariant vpp.installed == if table == map[] then old(vpp.installed) else old(vpp.installed)[seid := []]
      {
        PdrGroupRead(Tables(map[], map[]), seid, groups, i);
        var parsed := ParseGroupedIE(groups[i].value);
        if parsed.AllParsed? {
          var pdr := ReadPdrGroup(parsed.ies);
          NextTable(old(vpp.sessions), seid, table, pdr);
          table := table[pdr.id := pdr];
          vpp.InstallPDR(seid, pdr);
        }
      }
      assert groups[..|groups|] == groups;
    }

    /** One action rule, whether VPP grants its registrations or not. */
    method InstallFar(seid: u64, far: UpFar) returns (hung: bool)
      requires vpp.Valid()
      modifies vpp
      ensures vpp.Justified() && old(vpp.requests) <= vpp.requests && OnlyFars(old(vpp.sessions), vpp.sessions, seid)
      ensures vpp.installed == Extended(old(vpp.installed), seid, [far])
      ensures seid in vpp.sessions ==> vpp.sessions[seid].fars == old(vpp.sessions)[seid].fars[far.id := far]
      ensures if hung then |vpp.requests| == |vpp.replies| + 1 else vpp.Valid()
    {
      assert seid in vpp.installed <==> seid in vpp.sessions;
      var st := vpp.InstallFAR(seid, far);
      hung := st.Hung?;
    }

    /** The action rules of a request. Failures are ignored; hung: VPP has not answered. */
    method InstallFars(msg: Message, seid: u64) returns (table: map<u32, UpFar>, hung: bool)
      requires vpp.Valid()
      modifies vpp
      ensures vpp.Justified() && old(vpp.requests) <= vpp.requests
      ensures exists fars :: FarsDone(old(vpp.sessions), vpp.sessions, old(vpp.installed), vpp.installed, seid, fars)
      ensures hung ==> |vpp.requests| == |vpp.replies| + 1
      ensures !hung ==> vpp.Valid() && table == FarTable(FarsOf(msg.View()))
                        && FarsDone(old(vpp.sessions), vpp.sessions, old(vpp.installed), vpp.installed, seid, FarsOf(msg.View()))
    {
      table := map[];
      FarsStart(vpp.sessions, vpp.installed, seid);
      var groups := msg.FindAll(CREATE_FAR);
      for i := 0 to |groups|
        invariant vpp.Valid() && old(vpp.requests) <= vpp.requests
        invariant table == FarTable(ReadFars(groups[..i]))
        invariant FarsDone(old(vpp.sessions), vpp.sessions, old(vpp.installed), vpp.installed, seid, ReadFars(groups[..i]))
      {
        FarGroupRead(Tables(map[], map[]), seid, groups, i);
        FarsGrow(groups, i);
        var parsed := ParseGroupedIE(groups[i].value);
        if parsed.AllParsed? {
          var far := ReadFarGroup(parsed.ies);
          ghost var before, log := vpp.sessions, vpp.installed;
          table := table[far.id := far];
          hung := InstallFar(seid, far);
          FarsStep(old(vpp.sessions), before, vpp.sessions, old(vpp.installed), log, vpp.installed, seid, ReadFars(groups[..i]), far);
          if hung {
            return;
          }
        }
      }
      assert groups[..|groups|] == groups;
      hung := false;
    }

    method InstallTables(msg: Message, seid: u64) returns (pdrs: map<u16, UpPdr>, fars: map<u32, UpFar>, hung: bool)
      requires vpp.Valid() && seid !in vpp.sessions
      modifies vpp
      ensures vpp.Justified() && old(vpp.requests) <= vpp.requests
      ensures Installing(old(vpp.sessions), vpp.sessions, old(vpp.installed), vpp.installed, seid, msg.View())
      ensures hung ==> |vpp.requests| == |vpp.replies| + 1
      ensures !hung ==> vpp.Valid() && pdrs == PdrTable(PdrsOf(msg.View())) && fars == FarTable(FarsOf(msg.View()))
      ensures !hung && seid in vpp.sessions ==>
                vpp.sessions[seid].fars == fars && seid in vpp.installed && vpp.installed[seid] == FarsOf(msg.View())
    {
      pdrs := InstallPdrs(msg, seid);
      ghost var between := vpp.installed;
      assert seid !in old(vpp.installed);
      fars, hung := InstallFars(msg, seid);
      assert forall fars: seq<UpFar> :: seid in between ==> between[seid] + fars == fars;
    }

    /** The rules of a request, under a SEID not in use; None: VPP has not answered. */
    method InstallRules(msg: Message, seid: u64) returns (session: Option<UpSession>)
      requires Valid() && seid !in sessions
      modifies vpp
      ensures vpp.Justified() && old(vpp.requests) <= vpp.requests
      ensures session.None? ==> |vpp.requests| == |vpp.replies| + 1
      ensures session.Some? ==> session.value == SessionFor(seid, msg.View()) && vpp.Valid()
                                && VppMirrors(sessions[seid := session.value], vpp.sessions)
                                && Agrees(live[seid := msg.View()], vpp.sessions, vpp.installed)
      ensures session.None? ==> Agrees(live, vpp.sessions, vpp.installed)
      ensures forall k :: k in old(vpp.sessions) ==> k in vpp.sessions && vpp.sessions[k] == old(vpp.sessions)[k]
    {
      assert seid !in vpp.sessions && seid !in live;
      var pdrs, fars, hung := InstallTables(msg, seid);
      InstallingAgrees(live, old(vpp.sessions), vpp.sessions, old(vpp.installed), vpp.installed, seid, msg.View());
      if hung {
        return None;
      }
      session := Some(UpSession(seid, msg.Header.SEID, pdrs, fars));
      MirrorsAfterEstablish(sessions, old(vpp.sessions), vpp.sessions, seid, session.value);
    }

    /** No response: VPP has not answered, and the handler still waits. */
    method HandleSessionEstablishmentRequest(msg: Message) returns (resp: Option<Msg>)
      requires Valid() && HasRoom(sessions)
      modifies this`sessions, this`live, vpp
      ensures vpp.Justified() && Sound() && old(vpp.requests) <= vpp.requests
      ensures resp.Some? ==>
                var seid, h := LeastFree(old(sessions)), msg.View().h;
                && Valid() && live == old(live)[seid := msg.View()]
                && resp.value == NewSessionEstablishmentResponse(h.seqNum, h.seid, REQUEST_ACCEPTED, seid)
      ensures resp.None? ==> live == old(live) && |vpp.requests| == |vpp.replies| + 1
      ensures forall k :: k in old(vpp.sessions) ==> k in vpp.sessions && vpp.sessions[k] == old(vpp.sessions)[k]
    {
      var seid := AllocSEID(sessions);
      var session := InstallRules(msg, seid);
      if session.None? {
        return None;
      }
      SessionsGrow(live, seid, msg.View());
      sessions, live := sessions[seid := session.value], live[seid := msg.View()];
      resp := Some(NewSessionEstablishmentResponse(msg.Header.SequenceNumber, msg.Header.SEID, REQUEST_ACCEPTED, seid));
    }

    /** VPP's complaint about a session it does not know is ignored. */
    method HandleSessionDeletionRequest(seid: u64)
      requires Valid()
      modifies this`sessions, this`live, vpp
      ensures Valid() && live == old(live) - {seid} && vpp.requests == old(vpp.requests)
    {
      SessionsShrink(live, seid);
      sessions, live := sessions - {seid}, live - {seid};
      var _ := vpp.DeleteSession(seid);
    }

    lemma MarksHaveMeaning()
      requires vpp.Justified() && Sound()
      ensures MarksMean(live, vpp.sessions, vpp.requests, vpp.replies)
    {
      assert forall k :: k in vpp.sessions ==>
               MarksOk(vpp.sessions[k], vpp.installed[k], vpp.requests, vpp.replies);
    }

    /** Any run of requests, until VPP fails to answer: the sessions are those of the requests served
        so far, whatever VPP replied, and VPP's tables mirror them; and in the end, still waiting
        or not, every mark means what it should. */
    method Serve(ops: seq<Op>) returns (served: nat)
      requires Valid()
      modifies this`sessions, this`live, vpp
      ensures served <= |ops| && live == MakersAfter(old(live), ops[..served]) && sessions == SessionsOf(live)
      ensures MarksMean(live, vpp.sessions, vpp.requests, vpp.replies) && old(vpp.requests) <= vpp.requests
      ensures served == |ops| ==> Valid()
      ensures served < |ops| ==> ops[served].EstablishOp? && |vpp.requests| == |vpp.replies| + 1
    {
      for i := 0 to |ops|
        invariant Valid() && old(vpp.requests) <= vpp.requests
        invariant live == MakersAfter(old(live), ops[..i])
      {
        assert ops[..i + 1][..i] == ops[..i];
        match ops[i]
        case DeleteOp(seid) =>
          HandleSessionDeletionRequest(seid);
        case EstablishOp(m) =>
          if |sessions.Keys| + 1 < 0x1_0000_0000_0000_0000 {
            var msg := new Message(m);
            var resp := HandleSessionEstablishmentRequest(msg);
            if resp.None? {
              MarksHaveMeaning();
              return i;
            }
          }
      }
      MarksHaveMeaning();
      served := |ops|;
      assert ops[..|ops|] == ops;
    }
  }
}
