/** The invariant of Provenance holds initially and is kept by every step. */
module InvariantSteps {
  import opened Bytes
  import opened InformationElements
  import opened Messages
  import opened Rules
  import opened Transports
  import opened UserPlane
  import opened Network
  import opened LocalInvariants
  import opened Provenance

  lemma InitInv(s: State)
    requires Init(s)
    ensures Inv(s)
  {
    forall a | a in s.nodes ensures NodeOk(s.nodes, a, s.nodes[a]) {
      assert FreshNode(s.nodes[a]);
    }
  }

  lemma OneExtends(nodes: map<Addr, Node>, a: Addr, n': Node)
    requires a in nodes && Extends(nodes[a], n')
    ensures AllExtend(nodes, nodes[a := n'])
  {
  }

  lemma StepExtends(s: State, s': State, a: Addr, act: Action)
    requires Inv(s) && StepAt(s, s', a, act)
    ensures AllExtend(s.nodes, s'.nodes)
  {
    assert NodeOk(s.nodes, a, s.nodes[a]);
    NextExtends(s.nodes[a], act);
    OneExtends(s.nodes, a, Next(s.nodes[a], act));
  }

  // ----- messages held by the node that moves -----

  /** Decoding a datagram in transit recovers what was marshalled, whatever the buffer held. */
  lemma ReceiveDecodes(nodes: map<Addr, Node>, d: Dgram, stale: seq<byte>)
    requires DgramOk(nodes, d) && |d.payload| + |stale| == MAX_INPUT
    ensures DecodeMessage(d.payload + stale, |d.payload|) == Decoded(d.msg)
  {
    MessageRoundTrip(d.msg, stale);
  }

  lemma CallGotsOk(nodes: map<Addr, Node>, a: Addr, n: Node, act: Action)
    requires LocalOk(n) && GotsOk(nodes, a, n) && Enabled(n, act) && IsCallAction(act)
    ensures GotsOk(nodes, a, Next(n, act))
  {
    var c := n.calls[act.q];
    CallKeepsGots(n, c, act);
    ReplacedCallGotsOk(nodes, a, n, NextCall(n, act.q, c, act), act.q);
  }

  lemma CallKeepsGots(n: Node, c: Call, act: Action)
    requires IsCallAction(act) && CanCall(n, c, act)
    ensures var c' := CallAfter(n, c, act);
            && (c'.chan.Some? ==> c'.chan == c.chan)
            && (c'.answer.Some? ==> c'.answer == c.answer || c'.answer == c.chan)
  {
  }

  lemma ReplacedCallGotsOk(nodes: map<Addr, Node>, a: Addr, n: Node, n': Node, q: nat)
    requires GotsOk(nodes, a, n) && q < |n.calls| && n'.rx == n.rx && |n'.calls| == |n.calls|
    requires forall r :: 0 <= r < |n.calls| && r != q ==> n'.calls[r] == n.calls[r]
    requires n'.calls[q].chan.Some? ==> n'.calls[q].chan == n.calls[q].chan
    requires n'.calls[q].answer.Some? ==> n'.calls[q].answer == n.calls[q].answer || n'.calls[q].answer == n.calls[q].chan
    ensures GotsOk(nodes, a, n')
  {
  }

  lemma OtherGotsOk(nodes: map<Addr, Node>, a: Addr, n: Node, act: Action)
    requires LocalOk(n) && GotsOk(nodes, a, n) && Enabled(n, act) && !IsCallAction(act)
    requires act.Receive? ==> DgramOk(nodes, act.d) && act.d.dst == a
    ensures GotsOk(nodes, a, Next(n, act))
  {
    if IsBeginAction(act) {
      var n' := Next(n, act);
      assert forall r :: 0 <= r < |n.calls| ==> n'.calls[r] == n.calls[r];
    } else {
      match act
      case Receive(d, stale) => ReceiveDecodes(nodes, d, stale);
      case Lookup =>
      case Hand =>
        var n' := NextHand(n);
        assert forall r :: 0 <= r < |n.calls| && r != n.rx.call ==> n'.calls[r] == n.calls[r];
        assert n'.calls[n.rx.call].answer == n.calls[n.rx.call].answer;
      case Dispatch(_) => DispatchOk(n);
    }
  }

  // ----- remote SEIDs -----

  lemma CallRemotesStayZero(nodes: map<Addr, Node>, a: Addr, n: Node, act: Action)
    requires a in nodes && nodes[a] == n && AllLocal(nodes)
    requires LocalOk(n) && GotsOk(nodes, a, n) && RemotesZero(n) && Enabled(n, act) && IsCallAction(act)
    ensures RemotesZero(Next(n, act))
  {
    var c := n.calls[act.q];
    assert CallOk(c, n.drawn);
    CallStepNumbers(n, c, act);
    if act.Apply? && !n.role.cp.byFseid {
      AnswerSeidZero(nodes, a, n, act.q);
    }
    RoleRemotes(n, c, act);
    ReplaceRemotes(n, act.q, CallAfter(n, c, act), Next(n, act));
  }

  /** Answers echo the header SEID of a request of the same node, and those are zero. */
  lemma AnswerSeidZero(nodes: map<Addr, Node>, a: Addr, n: Node, q: nat)
    requires a in nodes && nodes[a] == n && GotsOk(nodes, a, n) && RemotesZero(n)
    requires AllLocal(nodes)
    requires n.role.CP? && !n.role.cp.byFseid && q < |n.calls| && AcceptedCall(n.calls[q])
    ensures n.calls[q].answer.value.msg.h.seid == 0
  {
    var g := n.calls[q].answer.value;
    assert GotOk(nodes, a, g);
    AcceptedIsAnswer(nodes, a, g);
    RequestSeidZero(n, g.tag.call);
  }

  lemma RequestSeidZero(n: Node, r: nat)
    requires LocalOk(n) && RemotesZero(n) && n.role.CP? && !n.role.cp.byFseid
    requires r < |n.calls| && Numbered(n.calls[r])
    ensures n.calls[r].msg.h.seid == 0
  {
    assert CallOk(n.calls[r], n.drawn);
  }

  /** An accepting message is no request, and answers a call of the node it reached. */
  lemma AcceptedIsAnswer(nodes: map<Addr, Node>, a: Addr, g: Got)
    requires GotOk(nodes, a, g) && Accepts(g.msg)
    requires AllLocal(nodes)
    ensures g.tag.kind.Answering? && g.tag.node == a
  {
    var o := nodes[g.tag.node].calls[g.tag.call];
    assert LocalOk(nodes[g.tag.node]) && CallOk(o, nodes[g.tag.node].drawn);
    RequestShape(o.job, SeqOf(o.k));
  }

  /** What an accepting message that reached call q is: an answer to a call of the same node
      with the same number, sent by the peer which that call addressed. */
  lemma AcceptedOrigin(nodes: map<Addr, Node>, a: Addr, q: nat)
    requires AllLocal(nodes)
    requires a in nodes && GotsOk(nodes, a, nodes[a]) && q < |nodes[a].calls| && AcceptedCall(nodes[a].calls[q])
    ensures var g, calls := nodes[a].calls[q].answer.value, nodes[a].calls;
            && g.tag.node == a && g.tag.kind.Answering? && g.tag.call < |calls| && Numbered(calls[g.tag.call])
            && Numbered(calls[q]) && calls[g.tag.call].msg.h.seqNum == calls[q].msg.h.seqNum
            && g.src == calls[g.tag.call].dst
            && Answers(nodes, g.src, calls[g.tag.call].msg, g.msg, g.tag)
  {
    var n := nodes[a];
    var g := n.calls[q].answer.value;
    assert GotOk(nodes, a, g) && LocalOk(n) && CallOk(n.calls[q], n.drawn);
    AcceptedIsAnswer(nodes, a, g);
  }

  /** With a number of its own, call q accepts only the answer to its own request. */
  lemma OwnAnswer(nodes: map<Addr, Node>, a: Addr, q: nat)
    requires AllLocal(nodes)
    requires a in nodes && GotsOk(nodes, a, nodes[a]) && q < |nodes[a].calls| && AcceptedCall(nodes[a].calls[q])
    requires NumberIsOwn(nodes[a], q)
    ensures var c := nodes[a].calls[q];
            var g := c.answer.value;
            && g.tag.node == a && g.tag.call == q && g.tag.kind.Answering? && g.src == c.dst
            && Answers(nodes, c.dst, c.msg, g.msg, g.tag)
  {
    AcceptedOrigin(nodes, a, q);
  }

  lemma RoleRemotes(n: Node, c: Call, act: Action)
    requires RemotesZero(n) && IsCallAction(act) && CanCall(n, c, act)
    requires act.Apply? && !n.role.cp.byFseid ==> c.answer.value.msg.h.seid == 0
    ensures var role := RoleAfter(n.role, c, act);
            && (role.CP? <==> n.role.CP?)
            && (role.CP? ==> role.cp.byFseid == n.role.cp.byFseid)
            && (role.CP? && !role.cp.byFseid ==>
                  (forall k :: k in role.cp.sessions ==> role.cp.sessions[k].remoteSeid == 0))
  {
  }

  lemma ReplaceRemotes(n: Node, q: nat, c': Call, n': Node)
    requires RemotesZero(n) && q < |n.calls| && n'.calls == n.calls[q := c'] && c'.job == n.calls[q].job
    requires n'.role.CP? <==> n.role.CP?
    requires n'.role.CP? ==> n'.role.cp.byFseid == n.role.cp.byFseid
    requires n'.role.CP? && !n'.role.cp.byFseid ==>
               forall k :: k in n'.role.cp.sessions ==> n'.role.cp.sessions[k].remoteSeid == 0
    ensures RemotesZero(n')
  {
  }

  lemma DispatchRemotesStayZero(n: Node)
    requires LocalOk(n) && RemotesZero(n) && CanDispatch(n)
    ensures RemotesZero(NextDispatch(n))
  {
    DispatchOk(n);
    HandleKeepsCp(n.role, n.rx.got);
  }

  lemma RemotesStayZero(nodes: map<Addr, Node>, a: Addr, n: Node, act: Action)
    requires a in nodes && nodes[a] == n && AllLocal(nodes)
    requires LocalOk(n) && GotsOk(nodes, a, n) && RemotesZero(n) && Enabled(n, act)
    ensures RemotesZero(Next(n, act))
  {
    if IsCallAction(act) {
      CallRemotesStayZero(nodes, a, n, act);
    } else if IsBeginAction(act) {
      BeginRemotes(n, act);
    } else if act.Dispatch? {
      DispatchRemotesStayZero(n);
    } else if act.Receive? {
      ReceiveOk(n, act.d, act.stale);
    }
  }

  lemma BeginRemotes(n: Node, act: Action)
    requires RemotesZero(n) && Enabled(n, act) && IsBeginAction(act)
    ensures RemotesZero(n.(calls := n.calls + [CallBegun(n.role, act)]))
  {
    var calls' := n.calls + [CallBegun(n.role, act)];
    assert forall r :: 0 <= r < |n.calls| ==> calls'[r] == n.calls[r];
    assert act.BeginRemove? && !n.role.cp.byFseid ==> n.role.cp.sessions[act.target].remoteSeid == 0;
  }

  // ----- user plane -----

  /** The message a user plane handles is the request its tag names. */
  lemma HandledIsRequest(nodes: map<Addr, Node>, a: Addr, g: Got)
    requires AllLocal(nodes)
    requires GotOk(nodes, a, g)
    requires g.msg.h.typ == SESSION_ESTABLISHMENT_REQUEST || g.msg.h.typ == SESSION_DELETION_REQUEST
             || g.msg.h.typ == HEARTBEAT_REQUEST || g.msg.h.typ == SESSION_MODIFICATION_REQUEST
             || g.msg.h.typ == ASSOCIATION_SETUP_REQUEST || g.msg.h.typ == ASSOCIATION_RELEASE_REQUEST
             || g.msg.h.typ == SESSION_REPORT_REQUEST
    ensures g.tag.kind.Asking?
    ensures g.msg.h.typ == SESSION_ESTABLISHMENT_REQUEST ==> nodes[g.tag.node].calls[g.tag.call].job.Create?
    ensures g.msg.h.typ == SESSION_DELETION_REQUEST ==> nodes[g.tag.node].calls[g.tag.call].job.Remove?
    ensures NodeLevel(g.msg.h.typ) || g.msg.h.typ == SESSION_ESTABLISHMENT_REQUEST ==> g.msg.h.seid == 0
  {
    var c := nodes[g.tag.node].calls[g.tag.call];
    assert LocalOk(nodes[g.tag.node]) && CallOk(c, nodes[g.tag.node].drawn);
    RequestShape(c.job, SeqOf(c.k));
  }

  /** The session made from a received establishment request is a good log entry. */
  lemma NewEntryOk(nodes: map<Addr, Node>, a: Addr, g: Got, seid: u64)
    requires AllLocal(nodes)
    requires GotOk(nodes, a, g) && g.msg.h.typ == SESSION_ESTABLISHMENT_REQUEST && seid >= 1
    ensures EntryOk(nodes, a, Creation(seid, SessionFor(seid, g.msg), g.tag))
  {
    HandledIsRequest(nodes, a, g);
    var c := nodes[g.tag.node].calls[g.tag.call];
    assert g.msg == Sized(c.msg);
    assert PdrsOf(g.msg) == PdrsOf(c.msg) && FarsOf(g.msg) == FarsOf(c.msg);
  }

  lemma LastForAppend(log: seq<Creation>, e: Creation, k: u64)
    ensures LastFor(log + [e], k) == if k == e.seid then Some(|log|) else LastFor(log, k)
  {
    assert (log + [e])[..|log|] == log;
  }

  /** A new session under a free SEID: earlier entries with the SEID stay gone. */
  lemma FateAfterCreation(up: UpState, log: seq<Creation>, dels: seq<Deletion>, up': UpState, e: Creation, j: nat)
    requires e.seid !in up.sessions && up'.sessions == up.sessions[e.seid := e.session]
    requires j < |log| ==> FateOk(up, log, dels, j)
    requires j == |log| ==> forall i: nat :: !HitBy(dels, j, i)
    requires j <= |log|
    ensures FateOk(up', log + [e], dels, j)
  {
    var k := (log + [e])[j].seid;
    LastForAppend(log, e, k);
  }

  lemma CurrentAfterCreation(up: UpState, log: seq<Creation>, up': UpState, e: Creation)
    requires Current(up, log) && up'.sessions == up.sessions[e.seid := e.session]
    ensures Current(up', log + [e])
  {
    forall k | k in up'.sessions
      ensures LastFor(log + [e], k).Some? && up'.sessions[k] == (log + [e])[LastFor(log + [e], k).value].session
    {
      LastForAppend(log, e, k);
    }
  }

  lemma LogGrows(nodes: map<Addr, Node>, a: Addr, up: UpState, log: seq<Creation>, dels: seq<Deletion>, up': UpState, e: Creation)
    requires UpOk(nodes, a, up, log, dels) && e.seid !in up.sessions
    requires up'.sessions == up.sessions[e.seid := e.session]
    requires Mirrors(up') && KeysOk(up') && EntryOk(nodes, a, e)
    ensures UpOk(nodes, a, up', log + [e], dels)
  {
    var log' := log + [e];
    CurrentAfterCreation(up, log, up', e);
    forall i | 0 <= i < |dels| ensures DelOk(nodes, a, log', dels[i]) {
      assert DelOk(nodes, a, log, dels[i]);
    }
    forall j: nat | j < |log'| ensures FateOk(up', log', dels, j) {
      assert j == |log| ==> forall i: nat :: !HitBy(dels, j, i) by {
        assert forall i :: 0 <= i < |dels| ==> DelOk(nodes, a, log, dels[i]);
      }
      FateAfterCreation(up, log, dels, up', e, j);
    }
  }

  lemma EstablishKeepsUp(nodes: map<Addr, Node>, a: Addr, up: UpState, log: seq<Creation>, dels: seq<Deletion>, g: Got)
    requires AllLocal(nodes)
    requires UpOk(nodes, a, up, log, dels) && GotOk(nodes, a, g) && HasRoom(up.sessions)
    requires g.msg.h.typ == SESSION_ESTABLISHMENT_REQUEST
    ensures var seid := LeastFree(up.sessions);
            UpOk(nodes, a, Establish(up, g.msg), log + [Creation(seid, SessionFor(seid, g.msg), g.tag)], dels)
  {
    EstablishMirrors(up, g.msg);
    var seid := LeastFree(up.sessions);
    NewEntryOk(nodes, a, g, seid);
    LogGrows(nodes, a, up, log, dels, Establish(up, g.msg), Creation(seid, SessionFor(seid, g.msg), g.tag));
  }

  /** A deletion ends the session in use under its SEID and no other. */
  lemma FateAfterDeletion(up: UpState, log: seq<Creation>, dels: seq<Deletion>, up': UpState, d: Deletion, j: nat)
    requires j < |log| && FateOk(up, log, dels, j)
    requires up'.sessions == up.sessions - {d.seid} && d.hit == Occupant(up, log, d.seid)
    ensures FateOk(up', log, dels + [d], j)
  {
    var dels' := dels + [d];
    assert forall i: nat :: i < |dels| ==> (HitBy(dels', j, i) <==> HitBy(dels, j, i));
    assert HitBy(dels', j, |dels|) <==> d.hit == Some(j);
    if log[j].seid == d.seid {
      assert !Alive(up', log, j);
      assert Alive(up, log, j) <==> HitBy(dels', j, |dels|);
      if !Alive(up, log, j) {
        var i: nat :| HitBy(dels, j, i);
        assert HitBy(dels', j, i);
      }
    } else {
      assert Alive(up', log, j) <==> Alive(up, log, j);
    }
  }

  lemma DeleteKeepsUp(nodes: map<Addr, Node>, a: Addr, up: UpState, log: seq<Creation>, dels: seq<Deletion>, g: Got)
    requires AllLocal(nodes)
    requires UpOk(nodes, a, up, log, dels) && GotOk(nodes, a, g)
    requires g.msg.h.typ == SESSION_DELETION_REQUEST
    ensures var seid := g.msg.h.seid;
            UpOk(nodes, a, Delete(up, seid), log, dels + [Deletion(seid, g.tag, Occupant(up, log, seid))])
  {
    var seid := g.msg.h.seid;
    var d := Deletion(seid, g.tag, Occupant(up, log, seid));
    DeleteMirrors(up, seid);
    NewDelOk(nodes, a, up, log, g);
    forall i | 0 <= i < |dels + [d]| ensures DelOk(nodes, a, log, (dels + [d])[i]) {
      assert i < |dels| ==> DelOk(nodes, a, log, dels[i]);
    }
    forall j: nat | j < |log| ensures FateOk(Delete(up, seid), log, dels + [d], j) {
      FateAfterDeletion(up, log, dels, Delete(up, seid), d, j);
    }
  }

  lemma NewDelOk(nodes: map<Addr, Node>, a: Addr, up: UpState, log: seq<Creation>, g: Got)
    requires AllLocal(nodes)
    requires GotOk(nodes, a, g) && g.msg.h.typ == SESSION_DELETION_REQUEST
    ensures DelOk(nodes, a, log, Deletion(g.msg.h.seid, g.tag, Occupant(up, log, g.msg.h.seid)))
  {
    HandledIsRequest(nodes, a, g);
    var c := nodes[g.tag.node].calls[g.tag.call];
    assert LocalOk(nodes[g.tag.node]) && CallOk(c, nodes[g.tag.node].drawn);
  }

  /** Any other message leaves the user plane as it is. */
  lemma OtherHandlersKeepUp(role: Role, g: Got)
    requires role.UP? && g.msg.h.typ != SESSION_ESTABLISHMENT_REQUEST && g.msg.h.typ != SESSION_DELETION_REQUEST
    ensures var e := Handle(role, g); e.Effect? ==> e.role == role
  {
  }

  lemma DispatchKeepsUp(nodes: map<Addr, Node>, a: Addr, n: Node)
    requires AllLocal(nodes)
    requires n.role.UP? && UpOk(nodes, a, n.role.up, n.role.log, n.role.dels)
    requires CanDispatch(n) && GotOk(nodes, a, n.rx.got)
    ensures var n' := NextDispatch(n); n'.role.UP? && UpOk(nodes, a, n'.role.up, n'.role.log, n'.role.dels)
  {
    HandleKeepsUp(nodes, a, n.role, n.rx.got);
  }

  lemma HandleKeepsUp(nodes: map<Addr, Node>, a: Addr, role: Role, g: Got)
    requires AllLocal(nodes)
    requires role.UP? && UpOk(nodes, a, role.up, role.log, role.dels)
    requires GotOk(nodes, a, g) && HasRoom(role.up.sessions)
    ensures var e := Handle(role, g);
            e.Effect? ==> e.role.UP? && UpOk(nodes, a, e.role.up, e.role.log, e.role.dels)
  {
    if g.msg.h.typ == SESSION_ESTABLISHMENT_REQUEST {
      EstablishKeepsUp(nodes, a, role.up, role.log, role.dels, g);
    } else if g.msg.h.typ == SESSION_DELETION_REQUEST {
      DeleteKeepsUp(nodes, a, role.up, role.log, role.dels, g);
    } else {
      OtherHandlersKeepUp(role, g);
    }
  }

  lemma UpKept(nodes: map<Addr, Node>, a: Addr, n: Node, act: Action)
    requires AllLocal(nodes)
    requires NodeOk(nodes, a, n) && n.role.UP? && Enabled(n, act)
    ensures var n' := Next(n, act); n'.role.UP? && UpOk(nodes, a, n'.role.up, n'.role.log, n'.role.dels)
  {
    if act.Dispatch? {
      DispatchKeepsUp(nodes, a, n);
    } else if act.Receive? {
      ReceiveOk(n, act.d, act.stale);
    }
  }

  // ----- datagrams -----

  lemma RequestSound(nodes: map<Addr, Node>, a: Addr, q: nat, ok: bool)
    requires a in nodes && LocalOk(nodes[a])
    requires q < |nodes[a].calls| && Numbered(nodes[a].calls[q]) && Sendable(nodes[a].calls[q].msg, ok)
    ensures DgramOk(nodes, RequestDgram(a, q, nodes[a].calls[q]))
  {
    var c := nodes[a].calls[q];
    assert CallOk(c, nodes[a].drawn);
    SeqAdvances(c.k);
    RequestTransmissible(c.job, SeqOf(c.k), ok);
    MarshalStable(c.msg);
  }

  lemma ReplySound(nodes: map<Addr, Node>, nodes': map<Addr, Node>, a: Addr, ok: bool)
    requires a in nodes && AllLocal(nodes) && GotsOk(nodes, a, nodes[a])
    requires Enabled(nodes[a], Dispatch(ok)) && nodes' == nodes[a := NextDispatch(nodes[a])]
    requires AllExtend(nodes, nodes')
    ensures forall d :: d in Emits(nodes[a], a, Dispatch(ok)) ==> DgramOk(nodes', d)
  {
    var n, g := nodes[a], nodes[a].rx.got;
    var e := Handle(n.role, g);
    if e.Effect? && e.reply.Some? && Sendable(e.reply.value, ok) {
      ReplyOk(nodes, nodes', a, n.role, g, ok);
    }
  }

  lemma ReplyOk(nodes: map<Addr, Node>, nodes': map<Addr, Node>, a: Addr, role: Role, g: Got, ok: bool)
    requires AllLocal(nodes) && AllExtend(nodes, nodes') && GotOk(nodes, a, g) && a in nodes'
    requires role.UP? ==> HasRoom(role.up.sessions)
    requires var e := Handle(role, g); e.Effect? && e.reply.Some? && Sendable(e.reply.value, ok) && nodes'[a].role == e.role
    ensures DgramOk(nodes', ReplyDgram(a, role, g, Handle(role, g).reply.value))
  {
    var m := Handle(role, g).reply.value;
    var d := ReplyDgram(a, role, g, m);
    HandledIsRequest(nodes, a, g);
    ReplyTransmissible(role, g, ok);
    MarshalStable(m);
    var c, c' := nodes[g.tag.node].calls[g.tag.call], nodes'[g.tag.node].calls[g.tag.call];
    assert Extends(nodes[g.tag.node], nodes'[g.tag.node]) && SameCall(c, c');
    if c.msg.h.typ == SESSION_ESTABLISHMENT_REQUEST {
      EstablishReplyLogged(role, g);
    }
    assert From(nodes', a, g.src, Sized(m), d.tag);
  }

  /** The handler answers an establishment request with the SEID it has logged. */
  lemma EstablishReplyLogged(role: Role, g: Got)
    requires role.UP? ==> HasRoom(role.up.sessions)
    requires g.msg.h.typ == SESSION_ESTABLISHMENT_REQUEST && g.msg.h.seid == 0
    requires var e := Handle(role, g); e.Effect? && e.reply.Some?
    ensures var e := Handle(role, g);
            var d := ReplyDgram(0, role, g, e.reply.value);
            role.UP? && e.role.UP? && (g.tag.kind.Asking? ==>
              Logged(e.role.log, d.tag.kind.entry, d.tag, g.msg.h.seqNum, d.msg))
  {
  }

  lemma RequestEmittedOk(nodes: map<Addr, Node>, nodes': map<Addr, Node>, a: Addr, act: Action)
    requires a in nodes && LocalOk(nodes[a]) && AllExtend(nodes, nodes')
    requires Enabled(nodes[a], act) && (act.Send? || act.Timer?)
    ensures forall d :: d in Emits(nodes[a], a, act) ==> DgramOk(nodes', d)
  {
    if Sendable(nodes[a].calls[act.q].msg, act.ok) {
      RequestSound(nodes, a, act.q, act.ok);
      var d := RequestDgram(a, act.q, nodes[a].calls[act.q]);
      SoundStays(nodes, nodes', d.src, d.dst, d.msg, d.tag);
    }
  }

  lemma EmittedOk(s: State, s': State, a: Addr, act: Action)
    requires Inv(s) && StepAt(s, s', a, act) && AllExtend(s.nodes, s'.nodes)
    ensures forall d :: d in Emits(s.nodes[a], a, act) ==> DgramOk(s'.nodes, d)
  {
    assert NodeOk(s.nodes, a, s.nodes[a]);
    if act.Dispatch? {
      LocalEverywhere(s.nodes);
      ReplySound(s.nodes, s'.nodes, a, act.ok);
    } else if act.Send? || act.Timer? {
      RequestEmittedOk(s.nodes, s'.nodes, a, act);
    }
  }

  // ----- the whole invariant -----

  lemma MoverOk(s: State, s': State, a: Addr, act: Action)
    requires Inv(s) && StepAt(s, s', a, act) && AllExtend(s.nodes, s'.nodes)
    ensures NodeOk(s'.nodes, a, s'.nodes[a])
  {
    var n, n' := s.nodes[a], s'.nodes[a];
    assert NodeOk(s.nodes, a, n);
    LocalEverywhere(s.nodes);
    LocalStep(n, act);
    RemotesStayZero(s.nodes, a, n, act);
    if IsCallAction(act) {
      CallGotsOk(s.nodes, a, n, act);
    } else {
      assert act.Receive? ==> DgramOk(s.nodes, act.d);
      OtherGotsOk(s.nodes, a, n, act);
    }
    GotsStay(s.nodes, s'.nodes, a, n');
    if n.role.UP? {
      UpKept(s.nodes, a, n, act);
      UpStays(s.nodes, s'.nodes, a, n'.role.up, n'.role.log, n'.role.dels);
    }
  }

  lemma OthersOk(s: State, s': State, a: Addr, b: Addr)
    requires Inv(s) && AllExtend(s.nodes, s'.nodes)
    requires b in s.nodes && b != a && b in s'.nodes && s'.nodes[b] == s.nodes[b]
    ensures NodeOk(s'.nodes, b, s'.nodes[b])
  {
    var n := s.nodes[b];
    assert NodeOk(s.nodes, b, n);
    GotsStay(s.nodes, s'.nodes, b, n);
    if n.role.UP? {
      UpStays(s.nodes, s'.nodes, b, n.role.up, n.role.log, n.role.dels);
    }
  }

  lemma NetKept(s: State, s': State, a: Addr, act: Action)
    requires Inv(s) && StepAt(s, s', a, act) && AllExtend(s.nodes, s'.nodes)
    ensures forall d :: d in s'.net ==> DgramOk(s'.nodes, d)
  {
    EmittedOk(s, s', a, act);
    forall d | d in s'.net ensures DgramOk(s'.nodes, d) {
      if d !in Emits(s.nodes[a], a, act) {
        assert d in s.net && DgramOk(s.nodes, d);
        SoundStays(s.nodes, s'.nodes, d.src, d.dst, d.msg, d.tag);
      }
    }
  }

  lemma StepAtKeepsInv(s: State, s': State, a: Addr, act: Action)
    requires Inv(s) && StepAt(s, s', a, act)
    ensures Inv(s') && AllExtend(s.nodes, s'.nodes)
  {
    StepExtends(s, s', a, act);
    MoverOk(s, s', a, act);
    forall b | b in s'.nodes ensures NodeOk(s'.nodes, b, s'.nodes[b]) {
      if b != a {
        OthersOk(s, s', a, b);
      }
    }
    NetKept(s, s', a, act);
  }

  lemma SelfExtends(nodes: map<Addr, Node>)
    ensures AllExtend(nodes, nodes)
  {
  }

  lemma FewerDgramsKeepInv(nodes: map<Addr, Node>, net: multiset<Dgram>, net': multiset<Dgram>, duplicating: bool)
    requires Inv(State(nodes, net, duplicating)) && forall e :: e in net' ==> e in net
    ensures Inv(State(nodes, net', duplicating))
  {
  }

  lemma WeatherKeepsInv(s: State, s': State, d: Dgram)
    requires Inv(s) && Weathers(s, s', d)
    ensures Inv(s') && AllExtend(s.nodes, s'.nodes)
  {
    SelfExtends(s.nodes);
    forall e | e in s'.net ensures e in s.net {
    }
    FewerDgramsKeepInv(s.nodes, s.net, s'.net, s.duplicating);
  }

  lemma StepKeepsInv(s: State, s': State)
    requires Inv(s) && Step(s, s')
    ensures Inv(s') && AllExtend(s.nodes, s'.nodes)
  {
    if d :| Weathers(s, s', d) {
      WeatherKeepsInv(s, s', d);
    } else {
      var a, act :| StepAt(s, s', a, act);
      StepAtKeepsInv(s, s', a, act);
    }
  }

  /** The invariant holds in every state of every run. */
  lemma {:induction false} RunInv(run: seq<State>, i: nat)
    requires Run(run) && i < |run|
    ensures Inv(run[i])
  {
    if i == 0 {
      InitInv(run[0]);
    } else {
      RunInv(run, i - 1);
      assert StepOf(run, i - 1);
      StepKeepsInv(run[i - 1], run[i]);
    }
  }
}
