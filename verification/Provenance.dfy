/** What every step keeps true across nodes: each message in transit or in a node is some
    call's request or an answer to it, and every user-plane session goes back to a request. */
module Provenance {
  import opened Bytes
  import opened InformationElements
  import opened Messages
  import opened Rules
  import opened UserPlane
  import opened Network
  import opened LocalInvariants

  // ----- steps only add -----

  ghost predicate SameCall(c: Call, c': Call) {
    && c'.job == c.job && c'.dst == c.dst && c'.limit == c.limit && c'.sends >= c.sends
    && (Numbered(c) ==> Numbered(c') && c'.k == c.k && c'.msg == c.msg)
  }

  ghost predicate Extends(n: Node, n': Node) {
    && |n.calls| <= |n'.calls|
    && (forall q :: 0 <= q < |n.calls| ==> SameCall(n.calls[q], n'.calls[q]))
    && (n.role.CP? <==> n'.role.CP?)
    && (n.role.CP? ==> n'.role.cp.byFseid == n.role.cp.byFseid)
    && (n.role.UP? ==> n.role.log <= n'.role.log && n.role.dels <= n'.role.dels)
  }

  ghost predicate AllExtend(nodes: map<Addr, Node>, nodes': map<Addr, Node>) {
    nodes.Keys == nodes'.Keys && forall a :: a in nodes ==> Extends(nodes[a], nodes'[a])
  }

  lemma NextExtends(n: Node, act: Action)
    requires LocalOk(n) && Enabled(n, act)
    ensures Extends(n, Next(n, act))
  {
    if IsCallAction(act) {
      CallExtends(n, act);
    } else if act.Hand? {
      assert CallOk(n.calls[n.rx.call], n.drawn);
    } else if act.Dispatch? {
      DispatchExtends(n);
    } else if act.Receive? {
      ReceiveOk(n, act.d, act.stale);
    }
  }

  lemma CallExtends(n: Node, act: Action)
    requires LocalOk(n) && Enabled(n, act) && IsCallAction(act)
    ensures Extends(n, Next(n, act))
  {
    var c := n.calls[act.q];
    assert CallOk(c, n.drawn);
    CallStepNumbers(n, c, act);
    ReplaceExtends(n, act.q, CallAfter(n, c, act), Next(n, act));
  }

  lemma ReplaceExtends(n: Node, q: nat, c': Call, n': Node)
    requires q < |n.calls| && n'.calls == n.calls[q := c'] && SameCall(n.calls[q], c')
    requires n.role.CP? <==> n'.role.CP?
    requires n.role.CP? ==> n'.role.cp.byFseid == n.role.cp.byFseid
    requires n.role.UP? ==> n'.role == n.role
    ensures Extends(n, n')
  {
  }

  lemma DispatchExtends(n: Node)
    requires LocalOk(n) && CanDispatch(n)
    ensures Extends(n, NextDispatch(n))
  {
    DispatchOk(n);
  }

  // ----- provenance -----

  /** The log entry records the session that this answer announces. */
  ghost predicate Logged(log: seq<Creation>, i: nat, tag: Tag, s: u32, m: Msg) {
    i < |log| && log[i].tag == tag.(kind := Asking)
    && m == Sized(NewSessionEstablishmentResponse(s, 0, REQUEST_ACCEPTED, log[i].seid))
  }

  /** m, sent by src, is the answer its handler gives to the request. */
  ghost predicate Answers(nodes: map<Addr, Node>, src: Addr, request: Msg, m: Msg, tag: Tag)
    requires tag.kind.Answering?
  {
    && m.h.seqNum == request.h.seqNum
    && m.h.seid == request.h.seid
    && m.h.typ == request.h.typ + 1
    && (request.h.typ == SESSION_ESTABLISHMENT_REQUEST ==>
          src in nodes && nodes[src].role.UP?
          && Logged(nodes[src].role.log, tag.kind.entry, tag, request.h.seqNum, m))
  }

  /** A message from src to dst is what its tag says. */
  ghost predicate From(nodes: map<Addr, Node>, src: Addr, dst: Addr, m: Msg, tag: Tag) {
    tag.node in nodes && tag.call < |nodes[tag.node].calls| &&
    var c := nodes[tag.node].calls[tag.call];
    Numbered(c) &&
    match tag.kind
    case Asking => src == tag.node && dst == c.dst && m == Sized(c.msg)
    case Answering(_) => dst == tag.node && src == c.dst && Answers(nodes, src, c.msg, m, tag)
  }

  ghost predicate Sound(nodes: map<Addr, Node>, src: Addr, dst: Addr, m: Msg, tag: Tag) {
    Transmissible(m) && Sized(m) == m && From(nodes, src, dst, m, tag)
  }

  ghost predicate GotOk(nodes: map<Addr, Node>, a: Addr, g: Got) {
    Sound(nodes, g.src, a, g.msg, g.tag)
  }

  ghost predicate DgramOk(nodes: map<Addr, Node>, d: Dgram) {
    d.payload == EncodeMessage(d.msg) && |d.payload| <= MAX_DATAGRAM && Sound(nodes, d.src, d.dst, d.msg, d.tag)
  }

  ghost predicate GotsOk(nodes: map<Addr, Node>, a: Addr, n: Node) {
    && (!n.rx.Idle? ==> GotOk(nodes, a, n.rx.got))
    && (forall q :: 0 <= q < |n.calls| && n.calls[q].chan.Some? ==> GotOk(nodes, a, n.calls[q].chan.value))
    && (forall q :: 0 <= q < |n.calls| && n.calls[q].answer.Some? ==> GotOk(nodes, a, n.calls[q].answer.value))
  }

  /** A control plane that goes by the header never learns a remote SEID other than zero. */
  ghost predicate RemotesZero(n: Node) {
    && (n.role.CP? && !n.role.cp.byFseid ==>
          forall k :: k in n.role.cp.sessions ==> n.role.cp.sessions[k].remoteSeid == 0)
    && (forall q :: 0 <= q < |n.calls| && n.calls[q].job.Remove? ==>
          n.role.CP? && (!n.role.cp.byFseid ==> n.calls[q].job.remote == 0))
  }

  /** A logged session was made by the establishment request of its tag. */
  ghost predicate EntryOk(nodes: map<Addr, Node>, a: Addr, e: Creation) {
    && e.tag.kind.Asking? && e.tag.node in nodes && e.tag.call < |nodes[e.tag.node].calls|
    && var c := nodes[e.tag.node].calls[e.tag.call];
    && Numbered(c) && c.job.Create? && c.dst == a
    && |EncodeIEs(c.msg.ies)| <= MAX_INPUT
    && e.seid >= 1 && e.session == SessionFor(e.seid, c.msg)
  }

  /** A processed deletion was asked for by the deletion request of its tag. */
  ghost predicate DelOk(nodes: map<Addr, Node>, a: Addr, log: seq<Creation>, d: Deletion) {
    && d.tag.kind.Asking? && d.tag.node in nodes && d.tag.call < |nodes[d.tag.node].calls|
    && var c := nodes[d.tag.node].calls[d.tag.call];
    && Numbered(c) && c.job.Remove? && c.dst == a && c.job.remote == d.seid
    && (d.hit.Some? ==> d.hit.value < |log| && log[d.hit.value].seid == d.seid)
  }

  ghost predicate HitBy(dels: seq<Deletion>, j: nat, i: nat) {
    i < |dels| && dels[i].hit == Some(j)
  }

  /** The session of entry j is in use. */
  ghost predicate Alive(up: UpState, log: seq<Creation>, j: nat) {
    j < |log| && Occupant(up, log, log[j].seid) == Some(j)
  }

  /** The sessions in use are the latest entries with their SEIDs. */
  ghost predicate Current(up: UpState, log: seq<Creation>) {
    forall k :: k in up.sessions ==>
      LastFor(log, k).Some? && up.sessions[k] == log[LastFor(log, k).value].session
  }

  /** An entry is in use or was hit by one deletion, not both. */
  ghost predicate FateOk(up: UpState, log: seq<Creation>, dels: seq<Deletion>, j: nat) {
    && (Alive(up, log, j) <==> forall i: nat :: !HitBy(dels, j, i))
    && (forall i: nat, i': nat :: HitBy(dels, j, i) && HitBy(dels, j, i') ==> i == i')
  }

  ghost predicate UpOk(nodes: map<Addr, Node>, a: Addr, up: UpState, log: seq<Creation>, dels: seq<Deletion>) {
    && Mirrors(up) && KeysOk(up) && Current(up, log)
    && (forall i :: 0 <= i < |log| ==> EntryOk(nodes, a, log[i]))
    && (forall i :: 0 <= i < |dels| ==> DelOk(nodes, a, log, dels[i]))
    && (forall j: nat :: j < |log| ==> FateOk(up, log, dels, j))
  }

  ghost predicate NodeOk(nodes: map<Addr, Node>, a: Addr, n: Node) {
    && LocalOk(n) && GotsOk(nodes, a, n) && RemotesZero(n)
    && (n.role.UP? ==> UpOk(nodes, a, n.role.up, n.role.log, n.role.dels))
  }

  ghost predicate AllNodesOk(nodes: map<Addr, Node>) {
    forall a {:trigger NodeOk(nodes, a, nodes[a])} :: a in nodes ==> NodeOk(nodes, a, nodes[a])
  }

  ghost predicate AllLocal(nodes: map<Addr, Node>) {
    forall a {:trigger LocalOk(nodes[a])} :: a in nodes ==> LocalOk(nodes[a])
  }

  lemma LocalEverywhere(nodes: map<Addr, Node>)
    requires AllNodesOk(nodes)
    ensures AllLocal(nodes)
  {
    forall a | a in nodes ensures LocalOk(nodes[a]) {
      assert NodeOk(nodes, a, nodes[a]);
    }
  }

  ghost predicate Inv(s: State) {
    && AllNodesOk(s.nodes)
    && (forall d {:trigger DgramOk(s.nodes, d)} :: d in s.net ==> DgramOk(s.nodes, d))
  }

  // ----- provenance survives steps -----

  lemma SoundStays(nodes: map<Addr, Node>, nodes': map<Addr, Node>, src: Addr, dst: Addr, m: Msg, tag: Tag)
    requires AllExtend(nodes, nodes') && Sound(nodes, src, dst, m, tag)
    ensures Sound(nodes', src, dst, m, tag)
  {
    var c, c' := nodes[tag.node].calls[tag.call], nodes'[tag.node].calls[tag.call];
    assert SameCall(c, c');
    if tag.kind.Answering? && c.msg.h.typ == SESSION_ESTABLISHMENT_REQUEST {
      assert Extends(nodes[src], nodes'[src]);
    }
  }

  lemma GotsStay(nodes: map<Addr, Node>, nodes': map<Addr, Node>, a: Addr, n: Node)
    requires AllExtend(nodes, nodes') && GotsOk(nodes, a, n)
    ensures GotsOk(nodes', a, n)
  {
    if !n.rx.Idle? {
      var g := n.rx.got;
      SoundStays(nodes, nodes', g.src, a, g.msg, g.tag);
    }
    forall q | 0 <= q < |n.calls| && n.calls[q].chan.Some? ensures GotOk(nodes', a, n.calls[q].chan.value) {
      var g := n.calls[q].chan.value;
      SoundStays(nodes, nodes', g.src, a, g.msg, g.tag);
    }
    forall q | 0 <= q < |n.calls| && n.calls[q].answer.Some? ensures GotOk(nodes', a, n.calls[q].answer.value) {
      var g := n.calls[q].answer.value;
      SoundStays(nodes, nodes', g.src, a, g.msg, g.tag);
    }
  }

  lemma UpStays(nodes: map<Addr, Node>, nodes': map<Addr, Node>, a: Addr, up: UpState, log: seq<Creation>, dels: seq<Deletion>)
    requires AllExtend(nodes, nodes') && UpOk(nodes, a, up, log, dels)
    ensures UpOk(nodes', a, up, log, dels)
  {
    forall i | 0 <= i < |log| ensures EntryOk(nodes', a, log[i]) {
      var t := log[i].tag;
      assert EntryOk(nodes, a, log[i]);
      assert SameCall(nodes[t.node].calls[t.call], nodes'[t.node].calls[t.call]);
    }
    forall i | 0 <= i < |dels| ensures DelOk(nodes', a, log, dels[i]) {
      var t := dels[i].tag;
      assert DelOk(nodes, a, log, dels[i]);
      assert SameCall(nodes[t.node].calls[t.call], nodes'[t.node].calls[t.call]);
    }
  }

  // ----- what can be sent -----

  lemma RequestTransmissible(job: Job, s: u32, ok: bool)
    requires s < 0x100_0000 && Sendable(RequestMsg(job, s), ok)
    ensures Transmissible(Sized(RequestMsg(job, s)))
  {
  }

  /** Messages about nodes carry no SEID, messages about sessions do. */
  predicate NodeLevel(typ: byte) {
    typ == HEARTBEAT_REQUEST || typ == ASSOCIATION_SETUP_REQUEST || typ == ASSOCIATION_RELEASE_REQUEST
  }

  lemma ReplyTransmissible(role: Role, g: Got, ok: bool)
    requires role.UP? && g.msg.h.typ == SESSION_ESTABLISHMENT_REQUEST ==> HasRoom(role.up.sessions)
    requires g.msg.h.seqNum < 0x100_0000
    requires var e := Handle(role, g); e.Effect? && e.reply.Some? && Sendable(e.reply.value, ok)
    ensures var m := Handle(role, g).reply.value;
            && Transmissible(Sized(m)) && m.h.seqNum == g.msg.h.seqNum && m.h.typ == g.msg.h.typ + 1
            && m.h.seid == if NodeLevel(g.msg.h.typ) then 0 else g.msg.h.seid
  {
  }

  /** A request never carries a Cause, and its type is even-odd paired with its answer's. */
  lemma RequestShape(job: Job, s: u32)
    ensures FindIE(RequestMsg(job, s).ies, CAUSE).None?
    ensures RequestMsg(job, s).h.typ == match job
              case Create(_, _) => SESSION_ESTABLISHMENT_REQUEST
              case Remove(_, _) => SESSION_DELETION_REQUEST
              case Heartbeat(_) => HEARTBEAT_REQUEST
              case Associate(_, _) => ASSOCIATION_SETUP_REQUEST
  {
    if job.Create? {
      FindRuleGroups(s, job.rules);
    }
  }
}
