/** Runs in which an expected property fails: one control plane at address 0, one user plane at
    address 1. */
module Failures {
  import opened Bytes
  import opened InformationElements
  import opened Messages
  import opened Rules
  import opened Transports
  import opened UserPlane
  import opened Network
  import opened LocalInvariants
  import opened Provenance
  import opened CpTables
  import opened Deletions
  import opened Witnesses

  const NO_RULES := CpRules([], [], [], [])

  // ----- sizes -----

  lemma {:induction false} ShortElements(ies: seq<IE>)
    requires forall i :: 0 <= i < |ies| ==> BodyLength(ies[i]) <= 100
    ensures |EncodeIEs(ies)| <= 104 * |ies|
  {
    if ies != [] {
      ShortElements(ies[1..]);
    }
  }

  lemma ShortMessage(m: Msg)
    requires |m.ies| <= 3 && forall i :: 0 <= i < |m.ies| ==> BodyLength(m.ies[i]) <= 100
    ensures Sendable(m, true)
  {
    ShortElements(m.ies);
  }

  lemma NoRulesRequest(s: u32)
    ensures RequestMsg(Create([], NO_RULES), s).ies == [] && Sendable(RequestMsg(Create([], NO_RULES), s), true)
  {
    ShortMessage(RequestMsg(Create([], NO_RULES), s));
  }

  // ----- the two nodes -----

  /** Both nodes are idle, the user plane is associated and has few sessions. */
  ghost predicate Ready(s: State) {
    && Reachable(s) && s.nodes.Keys == {0, 1}
    && s.nodes[0].role.CP? && s.nodes[1].role.UP? && Quiescent(s.nodes[0]) && Quiescent(s.nodes[1])
    && [] in s.nodes[0].role.cp.assocs && s.nodes[0].role.cp.assocs[[]] == 1
    && |s.nodes[1].role.up.sessions.Keys| < 100
  }

  function Cp(s: State): CpState
    requires 0 in s.nodes && s.nodes[0].role.CP?
  {
    s.nodes[0].role.cp
  }

  function FreshCp(byFseid: bool, n1: int): CpState {
    CpState(map[], map[], 1, 0, map[], [], 0, n1, byFseid, [])
  }

  const FRESH_UP := UP(EMPTY_UP, [], [], 0, [], 0)

  function Blank(role: Role): Node {
    Node(1, 0, map[], [], Idle, Counts(0, 0, 0, 0), role)
  }

  function Blanks(byFseid: bool, n1: int): State {
    State(map[0 := Blank(CP(FreshCp(byFseid, n1))), 1 := Blank(FRESH_UP)], multiset{}, false)
  }

  lemma BlanksReached(byFseid: bool, n1: int)
    ensures Reachable(Blanks(byFseid, n1))
  {
    ReachInit(Blanks(byFseid, n1));
  }

  lemma BeginsAssociate(byFseid: bool, n1: int) returns (s: State)
    ensures Reachable(s) && s.net == multiset{} && !s.duplicating
    ensures s.nodes == map[0 := Blank(CP(FreshCp(byFseid, n1))),
                           1 := Blank(FRESH_UP).(calls := [NewCall(Associate([], 0), 0, 3)])]
  {
    BlanksReached(byFseid, n1);
    var s0 := Blanks(byFseid, n1);
    s := Go(s0, 1, BeginAssociate);
    assert s.nodes[1].calls == [NewCall(Associate([], 0), 0, 3)];
  }

  /** The association is set up. */
  lemma Starts(byFseid: bool, n1: int) returns (s: State)
    ensures Ready(s) && s.net == multiset{} && !s.duplicating
    ensures s.nodes[0].role == CP(FreshCp(byFseid, n1).(assocs := map[[] := 1]))
    ensures s.nodes[0].calls == [] && s.nodes[0].seqNum == 1 && s.nodes[0].drawn == 0
    ensures s.nodes[1].role == FRESH_UP
  {
    var s1 := BeginsAssociate(byFseid, n1);
    var m := NewAssociationSetupResponse(1, [], REQUEST_ACCEPTED, 0);
    SetupMessages();
    SetupHandled(byFseid, n1);
    s := Exchange(s1, 1, 0, 0, m);
    assert s.nodes.Keys == {0, 1};
  }

  lemma SetupMessages()
    ensures Sendable(RequestMsg(Associate([], 0), 1), true)
    ensures Sendable(NewAssociationSetupResponse(1, [], REQUEST_ACCEPTED, 0), true)
  {
    ShortMessage(RequestMsg(Associate([], 0), 1));
    ShortMessage(NewAssociationSetupResponse(1, [], REQUEST_ACCEPTED, 0));
  }

  lemma SetupHandled(byFseid: bool, n1: int)
    ensures var g := Got(1, Sized(RequestMsg(Associate([], 0), 1)), Tag(1, 0, Asking));
            Handle(CP(FreshCp(byFseid, n1)), g)
            == Effect(CP(FreshCp(byFseid, n1).(assocs := map[[] := 1])),
                      Some(NewAssociationSetupResponse(1, [], REQUEST_ACCEPTED, 0)))
  {
    var ies := RequestMsg(Associate([], 0), 1).ies;
    assert ies[1..][0] == ies[1];
    assert FindIE(ies, NODE_ID) == Some(ies[0]);
    assert FindIE(ies, RECOVERY_TIME_STAMP) == FindIE(ies[1..], RECOVERY_TIME_STAMP) == Some(ies[1]);
    assert ies[0].value[1..] == [];
    assert FreshCp(byFseid, n1).assocs[[] := 1] == map[[] := 1];
  }

  // ----- creating -----

  /** A create call that was accepted and has returned. */
  ghost predicate CreateReturned(c: Call, q: nat, n: Node, seid: u64, up: UpState, entry: nat)
    requires HasRoom(up.sessions)
  {
    && c.job == Create([], NO_RULES) && c.dst == 1 && c.seid == seid && c.pc.Returned? && c.chan.None?
    && c.k == n.drawn && c.msg == RequestMsg(c.job, n.seqNum)
    && AcceptedCall(c) && c.answer.value.tag == Tag(0, q, Answering(entry))
    && FseidOf(c.answer.value.msg) == Some(LeastFree(up.sessions))
  }

  lemma EstablishmentAccepts(s: u32, local: u64)
    ensures var m := NewSessionEstablishmentResponse(s, 0, REQUEST_ACCEPTED, local);
            Sendable(m, true) && Accepts(Sized(m)) && FseidOf(Sized(m)) == Some(local)
  {
    var m := NewSessionEstablishmentResponse(s, 0, REQUEST_ACCEPTED, local);
    ShortMessage(m);
    FseidCarried(s, 0, REQUEST_ACCEPTED, local);
    assert FindIE(m.ies, CAUSE) == Some(m.ies[0]);
  }

  /** A create call up to the point where it can draw a number. */
  lemma BeginsCreate(s: State) returns (s': State)
    requires Ready(s)
    ensures Ready(s') && s'.net == s.net && s'.duplicating == s.duplicating && s'.nodes[1] == s.nodes[1]
    ensures var n, cp := s.nodes[0], Cp(s);
            s'.nodes[0] == n.(calls := n.calls + [NewCall(Create([], NO_RULES), 1, cp.n1).(seid := cp.nextSeid, pc := Allocated)],
                              role := CP(cp.(nextSeid := NextSeid(cp.nextSeid), allocs := cp.allocs + 1)))
  {
    var s1 := Go(s, 0, BeginCreate([], NO_RULES));
    s' := Go(s1, 0, Alloc(|s.nodes[0].calls|));
    AppendReplace(s.nodes[0].calls, s1.nodes[0].calls[|s.nodes[0].calls|], s'.nodes[0].calls[|s.nodes[0].calls|]);
  }

  lemma AppendReplace<T>(s: seq<T>, x: T, y: T)
    ensures (s + [x])[|s| := y] == s + [y]
  {
  }

  /** The user plane has one more session, made for the request with this tag. */
  ghost predicate Gains(role: Role, role': Role, tag: Tag) {
    && role.UP? && role'.UP? && HasRoom(role.up.sessions) && role'.dels == role.dels
    && var seid := LeastFree(role.up.sessions);
    && role'.up.sessions.Keys == role.up.sessions.Keys + {seid}
    && |role'.log| == |role.log| + 1 && role'.log[..|role.log|] == role.log
    && role'.log[|role.log|].seid == seid && role'.log[|role.log|].tag == tag
  }

  lemma HandleGains(role: Role, g: Got)
    requires role.UP? && HasRoom(role.up.sessions) && g.msg.h.typ == SESSION_ESTABLISHMENT_REQUEST
    ensures var e, seid := Handle(role, g), LeastFree(role.up.sessions);
            && e.Effect? && e.reply == Some(NewSessionEstablishmentResponse(g.msg.h.seqNum, g.msg.h.seid, REQUEST_ACCEPTED, seid))
            && Gains(role, e.role, g.tag) && |e.role.up.sessions.Keys| == |role.up.sessions.Keys| + 1
  {
  }

  lemma Creates(s: State) returns (s': State)
    requires Ready(s) && |s.nodes[1].role.up.sessions.Keys| < 50
    ensures Ready(s') && s'.net == s.net && s'.duplicating == s.duplicating
    ensures var n, n' := s.nodes[0], s'.nodes[0];
            var cp, up, q := Cp(s), s.nodes[1].role.up, |n.calls|;
            && n'.role == CP(cp.(nextSeid := NextSeid(cp.nextSeid), allocs := cp.allocs + 1))
            && |n'.calls| == q + 1 && n'.calls[..q] == n.calls
            && CreateReturned(n'.calls[q], q, n, cp.nextSeid, up, |s.nodes[1].role.log|)
            && n'.drawn == n.drawn + 1 && n'.seqNum == NextSeq(n.seqNum)
    ensures Gains(s.nodes[1].role, s'.nodes[1].role, Tag(0, |s.nodes[0].calls|, Asking))
  {
    var n, role := s.nodes[0], s.nodes[1].role;
    var q, seid := |n.calls|, LeastFree(role.up.sessions);
    var s1 := BeginsCreate(s);
    var m := NewSessionEstablishmentResponse(n.seqNum, 0, REQUEST_ACCEPTED, seid);
    NoRulesRequest(n.seqNum);
    EstablishmentAccepts(n.seqNum, seid);
    HandleGains(role, Question(0, s1.nodes[0], q));
    assert s1.nodes[0].calls[q] == NewCall(Create([], NO_RULES), 1, Cp(s).n1).(seid := Cp(s).nextSeid, pc := Allocated);
    s' := Exchange(s1, 0, 1, q, m);
  }

  // ----- updating the tables -----

  lemma Applies(s: State, q: nat) returns (s': State)
    requires Ready(s) && q < |s.nodes[0].calls|
    requires var c := s.nodes[0].calls[q]; c.pc.Returned? && AcceptedCall(c) && (c.job.Create? || c.job.Remove?)
    ensures Ready(s') && s'.net == s.net && s'.duplicating == s.duplicating && s'.nodes[1] == s.nodes[1]
    ensures var n := s.nodes[0];
            s'.nodes[0] == n.(calls := n.calls[q := n.calls[q].(pc := Applied)], role := CP(ApplyCall(Cp(s), n.calls[q])))
  {
    s' := Go(s, 0, Apply(q));
  }

  lemma Commits(s: State, q: nat) returns (s': State)
    requires Ready(s) && q < |s.nodes[0].calls|
    requires var c := s.nodes[0].calls[q]; c.pc.Applied? && AcceptedCall(c) && (c.job.Create? || c.job.Remove?)
    ensures Ready(s') && s'.net == s.net && s'.duplicating == s.duplicating && s'.nodes[1] == s.nodes[1]
    ensures var n := s.nodes[0];
            s'.nodes[0] == n.(calls := n.calls[q := n.calls[q].(pc := Done)],
                              role := CP(CommitCall(Cp(s), n.calls[q]).(commits := Cp(s).commits + [q])))
  {
    s' := Go(s, 0, Commit(q));
  }

  // ----- deleting -----

  lemma BeginsRemove(s: State, k: u64) returns (s': State)
    requires Ready(s) && k in Cp(s).sessions
    ensures Ready(s') && s'.net == s.net && s'.duplicating == s.duplicating && s'.nodes[1] == s.nodes[1]
    ensures var n := s.nodes[0];
            s'.nodes[0] == n.(calls := n.calls + [NewCall(Remove(k, Cp(s).sessions[k].remoteSeid), 1, Cp(s).n1)])
  {
    s' := Go(s, 0, BeginRemove(k, 1));
  }

  lemma DeletionAccepts(s: u32, seid: u64)
    ensures var m := NewSessionDeletionResponse(s, seid, REQUEST_ACCEPTED); Sendable(m, true) && Accepts(Sized(m))
    ensures Sendable(NewSessionDeletionRequest(s, seid), true)
  {
    ShortMessage(NewSessionDeletionResponse(s, seid, REQUEST_ACCEPTED));
    ShortMessage(NewSessionDeletionRequest(s, seid));
  }

  /** Deletion call r is made, processed and answered. */
  lemma Removes(s: State, r: nat) returns (s': State)
    requires Ready(s) && r < |s.nodes[0].calls|
    requires var c := s.nodes[0].calls[r]; c.job.Remove? && c.dst == 1 && c.pc.Started? && c.chan.None?
    ensures Ready(s') && s'.net == s.net && s'.duplicating == s.duplicating
    ensures var n, n' := s.nodes[0], s'.nodes[0];
            && n'.role == n.role && n'.drawn == n.drawn + 1 && |n'.calls| == |n.calls|
            && (forall i :: 0 <= i < |n.calls| && i != r ==> n'.calls[i] == n.calls[i])
            && n'.calls[r].job == n.calls[r].job && n'.calls[r].pc.Returned? && AcceptedCall(n'.calls[r])
            && n'.calls[r].dst == 1
    ensures var role, seid := s.nodes[1].role, s.nodes[0].calls[r].job.remote;
            s'.nodes[1].role == role.(up := Delete(role.up, seid),
              dels := role.dels + [Deletion(seid, Tag(0, r, Asking), Occupant(role.up, role.log, seid))])
  {
    var n := s.nodes[0];
    var seid := n.calls[r].job.remote;
    var m := NewSessionDeletionResponse(n.seqNum, seid, REQUEST_ACCEPTED);
    DeletionAccepts(n.seqNum, seid);
    DeletionHandled(s.nodes[1].role, Question(0, n, r), seid);
    s' := Exchange(s, 0, 1, r, m);
    NoMore(s.nodes[1].role.up, seid);
  }

  lemma DeletionHandled(role: Role, g: Got, seid: u64)
    requires role.UP? && g.msg.h.typ == SESSION_DELETION_REQUEST && g.msg.h.seid == seid
    ensures Handle(role, g) ==
            Effect(role.(up := Delete(role.up, seid), dels := role.dels + [Deletion(seid, g.tag, Occupant(role.up, role.log, seid))]),
                   Some(NewSessionDeletionResponse(g.msg.h.seqNum, seid, REQUEST_ACCEPTED)))
  {
  }

  lemma NoMore(up: UpState, seid: u64)
    ensures |Delete(up, seid).sessions.Keys| <= |up.sessions.Keys|
  {
    assert Delete(up, seid).sessions.Keys == up.sessions.Keys - {seid};
  }

  // ----- a deletion between the two updates of its create call -----

  /** The session is in the table but not in the store; its deletion has started. */
  lemma DeletesEarly() returns (s: State)
    ensures Ready(s) && !Cp(s).byFseid && Cp(s).allocs == 1 && |s.nodes[0].calls| == 2
    ensures Cp(s).sessions.Keys == {1} && Cp(s).store == map[]
    ensures var c := s.nodes[0].calls[0]; c.job.Create? && c.seid == 1 && c.pc.Applied? && AcceptedCall(c)
    ensures var c := s.nodes[0].calls[1]; c.job.Remove? && c.job.target == 1 && c.dst == 1 && c.pc.Started? && c.chan.None?
  {
    var s0 := Starts(false, 1);
    var s1 := Creates(s0);
    var s2 := Applies(s1, 0);
    s := BeginsRemove(s2, 1);
  }

  /** The deletion has updated the table. */
  lemma DroppedEarly() returns (s: State)
    ensures Ready(s) && !Cp(s).byFseid && Cp(s).allocs == 1 && |s.nodes[0].calls| == 2
    ensures Cp(s).sessions == map[]
    ensures var c := s.nodes[0].calls[0]; c.job.Create? && c.seid == 1 && c.pc.Applied? && AcceptedCall(c)
    ensures var c := s.nodes[0].calls[1]; c.job.Remove? && c.job.target == 1 && c.pc.Applied? && AcceptedCall(c)
  {
    var s0 := DeletesEarly();
    var s1 := Removes(s0, 1);
    assert s1.nodes[0].calls[0] == s0.nodes[0].calls[0];
    s := Applies(s1, 1);
    assert Cp(s).sessions.Keys == {};
  }

  /** The deletion has updated the store. */
  lemma ErasedEarly() returns (s: State)
    ensures Ready(s) && !Cp(s).byFseid && Cp(s).allocs == 1 && |s.nodes[0].calls| == 2
    ensures Cp(s).sessions == map[] && s.nodes[0].calls[1].pc.Done?
    ensures var c := s.nodes[0].calls[0]; c.job.Create? && c.seid == 1 && c.pc.Applied? && AcceptedCall(c)
  {
    var s0 := DroppedEarly();
    s := Commits(s0, 1);
  }

  /** A run of the code as it is written after which no call is between its two updates, and yet
      the store has a session that the table has lost. */
  lemma EarlyDeletionLeaks() returns (s: State)
    ensures Reachable(s) && 0 in s.nodes && s.nodes[0].role.CP?
    ensures !Cp(s).byFseid && SeidsLeft(Cp(s)) && NoneBetween(s.nodes[0])
    ensures 1 in Cp(s).store && 1 !in Cp(s).sessions
  {
    var s0 := ErasedEarly();
    s := Commits(s0, 0);
  }

  // ----- two deletions of one session, by the F-SEID -----

  /** Call 0 was answered with F-SEID 1. */
  ghost predicate FirstCreate(c: Call) {
    && c.job.Create? && c.seid == 1 && c.dst == 1 && AcceptedCall(c)
    && c.answer.value.tag == Tag(0, 0, Answering(0)) && FseidOf(c.answer.value.msg) == Some(1)
  }

  ghost predicate OneSession(role: Role) {
    role.UP? && |role.log| == 1 && role.log[0].seid == 1 && role.dels == [] && role.up.sessions.Keys == {1}
  }

  lemma FirstGain(role: Role, tag: Tag)
    requires Gains(FRESH_UP, role, tag)
    ensures OneSession(role) && LeastFree(EMPTY_UP.sessions) == 1
  {
    assert EMPTY_UP.sessions.Keys == {};
  }

  lemma FirstCall(n: Node, c: Call, log: seq<Creation>)
    requires log == [] && n.calls == [] && HasRoom(EMPTY_UP.sessions)
    requires CreateReturned(c, 0, n, 1, EMPTY_UP, |log|) && LeastFree(EMPTY_UP.sessions) == 1
    ensures FirstCreate(c) && c.pc.Returned?
  {
  }

  lemma CreatesFirst() returns (s: State)
    ensures Ready(s) && Cp(s).byFseid && Cp(s).allocs == 1 && Cp(s).nextSeid == 2 && |s.nodes[0].calls| == 1
    ensures s.nodes[0].drawn == 1 && FirstCreate(s.nodes[0].calls[0]) && s.nodes[0].calls[0].pc.Returned?
    ensures OneSession(s.nodes[1].role)
  {
    var s0 := Starts(true, 1);
    s := Creates(s0);
    FirstGain(s.nodes[1].role, Tag(0, 0, Asking));
    FirstCall(s0.nodes[0], s.nodes[0].calls[0], s0.nodes[1].role.log);
  }

  /** A session is created and returned. */
  lemma CreatesByFseid() returns (s: State)
    ensures Ready(s) && Cp(s).byFseid && Cp(s).allocs == 1 && Cp(s).nextSeid == 2 && |s.nodes[0].calls| == 1
    ensures s.nodes[0].drawn == 1 && 1 in Cp(s).sessions && Cp(s).sessions[1].remoteSeid == 1
    ensures FirstCreate(s.nodes[0].calls[0]) && s.nodes[0].calls[0].pc.Done?
    ensures OneSession(s.nodes[1].role)
  {
    var s0 := CreatesFirst();
    var s1 := Applies(s0, 0);
    s := Commits(s1, 0);
  }

  /** Two of its deletions are started. */
  lemma DeletesTwice() returns (s: State)
    ensures Ready(s) && Cp(s).byFseid && Cp(s).allocs == 1 && Cp(s).nextSeid == 2 && |s.nodes[0].calls| == 3
    ensures s.nodes[0].drawn == 1 && FirstCreate(s.nodes[0].calls[0]) && OneSession(s.nodes[1].role)
    ensures forall r :: r == 1 || r == 2 ==>
              var c := s.nodes[0].calls[r];
              c.job == Remove(1, 1) && c.dst == 1 && c.pc.Started? && c.chan.None?
  {
    var s0 := CreatesByFseid();
    var s1 := BeginsRemove(s0, 1);
    s := BeginsRemove(s1, 1);
  }

  /** The first deletion is processed. */
  lemma DeletesFirst() returns (s: State)
    ensures Ready(s) && Cp(s).byFseid && Cp(s).allocs == 1 && Cp(s).nextSeid == 2 && |s.nodes[0].calls| == 3
    ensures s.nodes[0].drawn == 2 && FirstCreate(s.nodes[0].calls[0])
    ensures var c := s.nodes[0].calls[1]; c.job == Remove(1, 1) && c.dst == 1
    ensures var c := s.nodes[0].calls[2]; c.job == Remove(1, 1) && c.dst == 1 && c.pc.Started? && c.chan.None?
    ensures var role := s.nodes[1].role;
            && |role.log| == 1 && role.dels == [Deletion(1, Tag(0, 1, Asking), Some(0))] && role.up.sessions == map[]
  {
    var s0 := DeletesTwice();
    var role := s0.nodes[1].role;
    assert role.log[..0] == [] && Occupant(role.up, role.log, 1) == Some(0);
    s := Removes(s0, 1);
    assert s.nodes[1].role.up.sessions == map[];
    assert s.nodes[0].calls[0] == s0.nodes[0].calls[0] && s.nodes[0].calls[2] == s0.nodes[0].calls[2];
  }

  /** The SEID is given to another session. */
  lemma ReusesSeid() returns (s: State)
    ensures Ready(s) && Cp(s).byFseid && Cp(s).allocs == 2 && s.nodes[0].drawn == 3 && OneMeant(s.nodes[0].calls)
    ensures s.nodes[0].calls[2].pc.Started? && s.nodes[0].calls[2].chan.None?
    ensures var role := s.nodes[1].role;
            && |role.log| == 2 && role.log[1].seid == 1 && role.log[1].tag == Tag(0, 3, Asking)
            && role.dels == [Deletion(1, Tag(0, 1, Asking), Some(0))] && 1 in role.up.sessions
  {
    var s0 := DeletesFirst();
    s := Creates(s0);
    assert forall i :: 0 <= i < 3 ==> s.nodes[0].calls[i] == s.nodes[0].calls[..3][i] == s0.nodes[0].calls[i];
  }

  /** The second deletion is processed. */
  lemma DeletesReused() returns (s: State)
    ensures Ready(s) && Cp(s).byFseid && Cp(s).allocs == 2 && |s.nodes[0].calls| == 4 && s.nodes[0].drawn == 4
    ensures OneMeant(s.nodes[0].calls)
    ensures |s.nodes[1].role.log| == 2
    ensures s.nodes[1].role.dels == [Deletion(1, Tag(0, 1, Asking), Some(0)), Deletion(1, Tag(0, 2, Asking), Some(1))]
  {
    var s0 := ReusesSeid();
    var role := s0.nodes[1].role;
    assert Occupant(role.up, role.log, 1) == Some(1);
    s := Removes(s0, 2);
    assert s.nodes[0].calls[0] == s0.nodes[0].calls[0] && s.nodes[0].calls[1] == s0.nodes[0].calls[1]
        && s.nodes[0].calls[3] == s0.nodes[0].calls[3];
  }

  /** Session 1 was created by call 0, which was told of entry 0; calls 1 and 2 delete it. */
  ghost predicate OneMeant(calls: seq<Call>) {
    && |calls| == 4
    && calls[0].job.Create? && calls[0].seid == 1 && calls[0].dst == 1 && AcceptedCall(calls[0])
    && calls[0].answer.value.tag == Tag(0, 0, Answering(0))
    && calls[1].job == calls[2].job == Remove(1, 1) && calls[1].dst == calls[2].dst == 1
    && calls[3].job.Create? && calls[3].seid == 2 && calls[3].dst == 1
  }

  lemma NotMeantForSecond(nodes: map<Addr, Node>, d: Deletion)
    requires 0 in nodes && OneMeant(nodes[0].calls) && d.tag == Tag(0, 2, Asking)
    ensures !MeantFor(nodes, 1, d, 1)
  {
  }

  /** A run, by the F-SEID, in which each deletion request is processed once and the second one
      removes the session of another create call. */
  lemma DeletionHitsAnother() returns (s: State)
    ensures Reachable(s) && 1 in s.nodes && s.nodes[1].role.UP? && Orderly(s.nodes)
    ensures var dels, log := s.nodes[1].role.dels, s.nodes[1].role.log;
            && |dels| == 2 && dels[0].tag != dels[1].tag && dels[1].hit == Some(1) && |log| == 2
            && !MeantFor(s.nodes, 1, dels[1], 1) && !AllHitOwn(s.nodes, 1, dels)
  {
    s := DeletesReused();
    CallsOrderly(s);
    NotMeantForSecond(s.nodes, s.nodes[1].role.dels[1]);
    assert !HitsOwn(s.nodes, 1, s.nodes[1].role.dels[1]);
  }

  lemma CallsOrderly(s: State)
    requires Ready(s) && Cp(s).byFseid && SeidsLeft(Cp(s)) && s.nodes[0].drawn <= SEQ_SPAN
    requires forall i :: 0 <= i < |s.nodes[0].calls| ==> s.nodes[0].calls[i].dst == 1
    ensures Orderly(s.nodes)
  {
    ReachInv(s);
    var n := s.nodes[0];
    assert NodeOk(s.nodes, 0, n);
    forall p | 0 <= p < |n.calls| && n.calls[p].job.Create? && AcceptedCall(n.calls[p]) ensures NumberIsOwn(n, p) {
      assert CallOk(n.calls[p], n.drawn);
      OwnUntilWrap(n, p);
    }
    assert OrderlyNode(n);
  }

  // ----- the number of an earlier request -----

  lemma Retransmits(s: State, a: Addr, q: nat) returns (s': State)
    requires Reachable(s) && a in s.nodes && q < |s.nodes[a].calls|
    requires var c := s.nodes[a].calls[q]; c.pc.Waiting? && c.attempts + 1 < c.limit && Sendable(c.msg, true)
    ensures var n := s.nodes[a];
            && Becomes(s, s', a, n.(calls := n.calls[q := n.calls[q].(attempts := n.calls[q].attempts + 1, sends := n.calls[q].sends + 1)]))
            && s'.net == s.net + multiset{RequestDgram(a, q, n.calls[q])}
  {
    s' := Go(s, a, Timer(q, true));
  }

  /** Call 0 waits, with number 1. */
  ghost predicate FirstWaits(n: Node) {
    && n.role.CP? && n.rx.Idle? && n.pending == map[1 := 0] && n.drawn == 1 && n.seqNum == 2 && |n.calls| == 1
    && [] in n.role.cp.assocs && n.role.cp.assocs[[]] == 1
    && var c := n.calls[0];
    && c.pc.Waiting? && c.chan.None? && c.dst == 1 && c.job == Create([], NO_RULES) && c.msg == RequestMsg(c.job, 1)
  }

  /** A create request is transmitted twice. */
  lemma AsksTwice() returns (s: State, d: Dgram)
    ensures Reachable(s) && s.nodes.Keys == {0, 1} && FirstWaits(s.nodes[0])
    ensures Quiescent(s.nodes[1]) && s.nodes[1].role == FRESH_UP
    ensures IsQuestion(d, 1) && s.net == multiset{d, d} && s.nodes[0].calls[0].k == 0
  {
    var s0 := Starts(false, 2);
    var s1 := BeginsCreate(s0);
    NoRulesRequest(1);
    var s2 := Asks(s1, 0, 0);
    d := RequestDgram(0, 0, s2.nodes[0].calls[0]);
    s := Retransmits(s2, 0, 0);
    assert s1.nodes[0].pending[1 := 0] == map[1 := 0];
  }

  /** The request of call 0, with number x. */
  ghost predicate IsQuestion(d: Dgram, x: u32) {
    d.src == 0 && d.dst == 1 && d.tag == Tag(0, 0, Asking) && d.msg == Sized(RequestMsg(Create([], NO_RULES), x))
  }

  /** An accepting answer to call 0, with number x. */
  ghost predicate IsReply(d: Dgram, x: u32, entry: nat) {
    d.src == 1 && d.dst == 0 && d.tag == Tag(0, 0, Answering(entry)) && d.msg.h.seqNum == x && Accepts(d.msg)
  }

  /** A request of call 0 is served; its answer goes to node 0. */
  lemma ServesCreate(s: State, d: Dgram, x: u32) returns (s': State, d': Dgram)
    requires Reachable(s) && s.nodes.Keys == {0, 1} && Quiescent(s.nodes[1]) && s.nodes[1].role.UP?
    requires |s.nodes[1].role.up.sessions.Keys| < 50 && IsQuestion(d, x) && d in s.net
    ensures Reachable(s') && s'.nodes.Keys == {0, 1} && s'.nodes[0] == s.nodes[0] && Quiescent(s'.nodes[1])
    ensures Gains(s.nodes[1].role, s'.nodes[1].role, Tag(0, 0, Asking))
    ensures |s'.nodes[1].role.up.sessions.Keys| == |s.nodes[1].role.up.sessions.Keys| + 1
    ensures s'.net == s.net - multiset{d} + multiset{d'} && IsReply(d', x, |s.nodes[1].role.log|)
  {
    var role := s.nodes[1].role;
    var g, seid := Got(0, d.msg, d.tag), LeastFree(role.up.sessions);
    var m := NewSessionEstablishmentResponse(x, 0, REQUEST_ACCEPTED, seid);
    QuestionHandled(role, d, x);
    d' := ReplyDgram(1, role, g, m);
    s' := Serves(s, 1, d, m);
  }

  lemma QuestionHandled(role: Role, d: Dgram, x: u32)
    requires role.UP? && HasRoom(role.up.sessions) && IsQuestion(d, x)
    ensures var m := NewSessionEstablishmentResponse(x, 0, REQUEST_ACCEPTED, LeastFree(role.up.sessions));
            Sendable(m, true) && IsReply(ReplyDgram(1, role, Got(0, d.msg, d.tag), m), x, |role.log|)
    ensures var e := Handle(role, Got(0, d.msg, d.tag));
            && e.Effect? && e.reply == Some(NewSessionEstablishmentResponse(x, 0, REQUEST_ACCEPTED, LeastFree(role.up.sessions)))
            && Gains(role, e.role, d.tag) && |e.role.up.sessions.Keys| == |role.up.sessions.Keys| + 1
  {
    EstablishmentAccepts(x, LeastFree(role.up.sessions));
    HandleGains(role, Got(0, d.msg, d.tag));
  }

  /** The first copy is served, and its answer ends the call. */
  lemma ServesFirst() returns (s: State, d: Dgram)
    ensures Reachable(s) && s.nodes.Keys == {0, 1} && s.nodes[0].role.CP? && s.nodes[1].role.UP?
    ensures Quiescent(s.nodes[0]) && Quiescent(s.nodes[1]) && s.net == multiset{d} && IsQuestion(d, 1)
    ensures [] in Cp(s).assocs && Cp(s).assocs[[]] == 1
    ensures s.nodes[0].drawn == 1 && |s.nodes[0].calls| == 1 && s.nodes[0].calls[0].k == 0
    ensures |s.nodes[1].role.up.sessions.Keys| == 1 && |s.nodes[1].role.log| == 1
    ensures s.nodes[1].role.log[0].tag == Tag(0, 0, Asking)
  {
    var s0;
    s0, d := AsksTwice();
    assert |s0.nodes[1].role.up.sessions.Keys| == 0;
    var s1, d1 := ServesCreate(s0, d, 1);
    assert s1.net == multiset{d, d1};
    s := FirstAnswered(s1, d, d1);
  }

  lemma FirstAnswered(s: State, d: Dgram, d': Dgram) returns (s': State)
    requires Reachable(s) && s.nodes.Keys == {0, 1} && FirstWaits(s.nodes[0]) && s.nodes[0].calls[0].k == 0
    requires s.net == multiset{d, d'} && IsReply(d', 1, 0)
    ensures Reachable(s') && s'.nodes.Keys == {0, 1} && s'.nodes[0].role == s.nodes[0].role && s'.nodes[1] == s.nodes[1]
    ensures Quiescent(s'.nodes[0]) && s'.net == multiset{d}
    ensures s'.nodes[0].drawn == 1 && |s'.nodes[0].calls| == 1 && s'.nodes[0].calls[0].k == 0
  {
    s' := IsAnswered(s, 0, d', 0);
    assert s'.net == multiset{d} && map[1 := 0] - {1} == map[];
  }

  /** An answer of call 0 is in transit that nobody waits for; no request but call 0's has been served. */
  ghost predicate Stale(s: State, d: Dgram) {
    && Ready(s) && s.net == multiset{d} && IsReply(d, 1, 1)
    && |s.nodes[0].calls| == s.nodes[0].drawn >= 1 && s.nodes[0].calls[0].k == 0
    && forall j :: 0 <= j < |s.nodes[1].role.log| ==> s.nodes[1].role.log[j].tag == Tag(0, 0, Asking)
  }

  /** The second copy is served too. */
  lemma LeavesStale() returns (s: State, d: Dgram)
    ensures Stale(s, d) && s.nodes[0].drawn == 1
  {
    var s0, ask := ServesFirst();
    s, d := ServesCreate(s0, ask, 1);
    assert s.net == multiset{d};
    var log0, log := s0.nodes[1].role.log, s.nodes[1].role.log;
    assert log[0] == log[..1][0] == log0[0];
  }

  /** A heartbeat that is not sent uses up a number. */
  lemma Fails(s: State, d: Dgram) returns (s': State)
    requires Stale(s, d)
    ensures Stale(s', d) && s'.nodes[0].drawn == s.nodes[0].drawn + 1
  {
    var n, q := s.nodes[0], |s.nodes[0].calls|;
    var s1 := Go(s, 0, BeginHeartbeat(1));
    s' := FailsCall(s1, q);
  }

  lemma FailsCall(s: State, q: nat) returns (s': State)
    requires Ready(s) && q < |s.nodes[0].calls| && s.nodes[0].calls[q].job.Heartbeat? && s.nodes[0].calls[q].pc.Started?
    ensures Ready(s') && s'.net == s.net && s'.nodes[1] == s.nodes[1]
    ensures s'.nodes[0].drawn == s.nodes[0].drawn + 1 && |s'.nodes[0].calls| == |s.nodes[0].calls|
    ensures q > 0 ==> s'.nodes[0].calls[0] == s.nodes[0].calls[0]
  {
    var s1 := Draws(s, 0, q);
    var s2 := Registers(s1, 0, q);
    var s3 := Sends(s2, 0, q, false);
    s' := Leaves(s3, 0, q);
    ReachNumber(s', 0);
    var key := s.nodes[0].seqNum;
    assert map[][key := q] - {key} == map[];
  }

  lemma ReachNumber(s: State, a: Addr)
    requires Reachable(s) && a in s.nodes
    ensures s.nodes[a].seqNum == SeqOf(s.nodes[a].drawn)
  {
    ReachInv(s);
    assert NodeOk(s.nodes, a, s.nodes[a]);
  }

  lemma {:induction false} FailsOften(s: State, d: Dgram, drawn: nat) returns (s': State)
    requires Stale(s, d) && s.nodes[0].drawn <= drawn
    ensures Stale(s', d) && s'.nodes[0].drawn == drawn
    decreases drawn - s.nodes[0].drawn
  {
    s' := s;
    if s.nodes[0].drawn < drawn {
      var s1 := Fails(s, d);
      s' := FailsOften(s1, d, drawn);
    }
  }

  /** A run of the code as it is written in which a create call accepts the answer to a request
      made 0xFFFFFF draws earlier, although the user plane has made no session for it. */
  lemma FalseAcceptance() returns (s: State, q: nat)
    ensures Reachable(s) && s.nodes.Keys == {0, 1} && s.nodes[1].role.UP? && 0 < q < |s.nodes[0].calls|
    ensures var c := s.nodes[0].calls[q];
            && c.job.Create? && AcceptedCall(c) && c.answer.value.tag.call == 0
            && c.k == s.nodes[0].calls[0].k + SEQ_SPAN
    ensures forall j :: 0 <= j < |s.nodes[1].role.log| ==> s.nodes[1].role.log[j].tag != Tag(0, q, Asking)
  {
    var s0, d := LeavesStale();
    var s1 := FailsOften(s0, d, SEQ_SPAN);
    s, q := AcceptsStale(s1, d);
  }

  lemma AcceptsStale(s: State, d: Dgram) returns (s': State, q: nat)
    requires Stale(s, d) && s.nodes[0].drawn == SEQ_SPAN
    ensures Reachable(s') && s'.nodes.Keys == {0, 1} && s'.nodes[1] == s.nodes[1] && 0 < q < |s'.nodes[0].calls|
    ensures var c := s'.nodes[0].calls[q];
            && c.job.Create? && AcceptedCall(c) && c.answer.value.tag.call == 0 && c.k == SEQ_SPAN
            && s'.nodes[0].calls[0] == s.nodes[0].calls[0]
  {
    q := |s.nodes[0].calls|;
    ReachNumber(s, 0);
    var s1 := BeginsCreate(s);
    NoRulesRequest(1);
    var s2 := Asks(s1, 0, q);
    s' := IsAnswered(s2, 0, d, q);
  }
}
