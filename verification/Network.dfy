/** Control-plane and user-plane nodes on a datagram network, as a step system. Every region
    the Go code runs under a lock, and every channel or socket operation, is one step; timers,
    losses, send failures and shutdown happen at any time. Several control planes and user
    planes may be present. Handlers run inside the single receive loop of their node. */
module Network {
  import opened Bytes
  import opened InformationElements
  import opened Messages
  import opened Rules
  import opened Transports
  import opened UserPlane

  type Addr = nat

  /** The largest UDP payload; longer writes fail. */
  const MAX_DATAGRAM: nat := 65527

  /** Where a message comes from: the call that sent the request, and whether this is the
      request itself or an answer to it; the answer to an establishment request also has the
      place of its session in the log. Bookkeeping only: no step looks at it. */
  datatype Kind = Asking | Answering(entry: nat)
  datatype Tag = Tag(node: Addr, call: nat, kind: Kind)

  /** Only payload, src and dst are visible to the nodes; msg is what was marshalled. */
  datatype Dgram = Dgram(src: Addr, dst: Addr, payload: seq<byte>, tag: Tag, msg: Msg)

  /** A decoded message with the address it came from. */
  datatype Got = Got(src: Addr, msg: Msg, tag: Tag)

  // ----- calls in progress -----

  datatype Job =
    | Create(nodeId: gostring, rules: CpRules)
    | Remove(target: u64, remote: u64)
    | Heartbeat(ts: u32)
    | Associate(upId: gostring, upTs: u32)

  /** Started .. Allocated precede SendRequest, Drawn .. Leaving are inside it, Returned has
      its result, Applied has updated the session table, Done the store too. */
  datatype Pc = Started | Allocated | Drawn | Registered | Waiting | Leaving | Returned | Applied | Done | Failed

  datatype Call = Call(job: Job, dst: Addr, limit: int, seid: u64, k: nat, msg: Msg,
                       attempts: nat, sends: nat, chan: Option<Got>, answer: Option<Got>, pc: Pc)

  function RequestMsg(job: Job, s: u32): (m: Msg)
    ensures m.h.seqNum == s
    ensures m.h.seid == if job.Remove? then job.remote else 0
  {
    match job
    case Create(_, rules) => EstablishmentRequest(s, rules)
    case Remove(_, remote) => NewSessionDeletionRequest(s, remote)
    case Heartbeat(ts) => NewHeartbeatRequest(s, ts)
    case Associate(id, ts) => NewAssociationSetupRequest(s, id, ts)
  }

  /** A number has been drawn for the call. */
  predicate Numbered(c: Call) {
    !c.pc.Started? && !c.pc.Allocated?
  }

  /** The call owns a key of the pending table. */
  predicate Live(c: Call) {
    c.pc.Registered? || c.pc.Waiting? || c.pc.Leaving?
  }

  predicate InFlight(c: Call) {
    c.pc.Drawn? || Live(c)
  }

  function NewCall(job: Job, dst: Addr, limit: int): Call {
    Call(job, dst, limit, 0, 0, RequestMsg(job, 0), 0, 0, None, None, Started)
  }

  // ----- nodes -----

  datatype CpSession = CpSession(localSeid: u64, remoteSeid: u64, nodeId: gostring,
                                 pdrs: map<u16, CpPdr>, fars: map<u32, CpFar>)

  /** byFseid is false in the code, which takes the remote SEID of a session from the header of
      the response; where it is true, the remote SEID is the one in the F-SEID payload. commits
      lists the calls that have updated the store, in order; no step looks at it. */
  datatype CpState = CpState(sessions: map<u64, CpSession>, store: map<u64, CpSession>, nextSeid: u64,
                             allocs: nat, assocs: map<gostring, Addr>, nodeId: gostring, ts: u32, n1: int,
                             byFseid: bool, commits: seq<nat>)

  /** A session the user plane created, and the request that made it do so. */
  datatype Creation = Creation(seid: u64, session: UpSession, tag: Tag)

  /** A deletion the user plane processed, and the log entry of the session it removed, if any. */
  datatype Deletion = Deletion(seid: u64, tag: Tag, hit: Option<nat>)

  /** log and dels record what the handlers did; no step looks at them. */
  datatype Role =
    | CP(cp: CpState)
    | UP(up: UpState, log: seq<Creation>, dels: seq<Deletion>, cpAddr: Addr, upNodeId: gostring, upNodeTs: u32)

  /** The latest log entry with this SEID. */
  function LastFor(log: seq<Creation>, seid: u64): (r: Option<nat>)
    ensures r.Some? ==> r.value < |log| && log[r.value].seid == seid
  {
    if log == [] then None
    else if log[|log| - 1].seid == seid then Some(|log| - 1)
    else LastFor(log[..|log| - 1], seid)
  }

  /** The log entry of the session in use under this SEID. */
  function Occupant(up: UpState, log: seq<Creation>, seid: u64): Option<nat> {
    if seid in up.sessions then LastFor(log, seid) else None
  }

  /** The receive loop: idle, holding a decoded message, or past the pending lookup. */
  datatype Rx = Idle | Held(got: Got) | ForWaiter(call: nat, got: Got) | ForHandler(got: Got)

  datatype Counts = Counts(received: nat, handed: nat, handled: nat, dropped: nat)

  datatype Node = Node(seqNum: u32, drawn: nat, pending: map<u32, nat>, calls: seq<Call>,
                       rx: Rx, counts: Counts, role: Role)

  // ----- control-plane table updates -----

  /** The SEID counter has 64 bits. */
  function NextSeid(seid: u64): u64 {
    if seid == 0xFFFF_FFFF_FFFF_FFFF then 0 else seid + 1
  }

  function Allocating(cp: CpState): CpState {
    cp.(nextSeid := NextSeid(cp.nextSeid), allocs := cp.allocs + 1)
  }

  function RemoteOf(byFseid: bool, m: Msg): u64 {
    if !byFseid then m.h.seid else match FseidOf(m) case Some(seid) => seid case None => 0
  }

  function SessionMade(byFseid: bool, c: Call): CpSession
    requires c.job.Create? && c.answer.Some?
  {
    CpSession(c.seid, RemoteOf(byFseid, c.answer.value.msg), c.job.nodeId,
              CpPdrMap(c.job.rules.pdrs), CpFarMap(c.job.rules.fars))
  }

  function ApplyCall(cp: CpState, c: Call): CpState
    requires c.answer.Some? && (c.job.Create? || c.job.Remove?)
  {
    if c.job.Create? then cp.(sessions := cp.sessions[c.seid := SessionMade(cp.byFseid, c)])
    else cp.(sessions := cp.sessions - {c.job.target})
  }

  function CommitCall(cp: CpState, c: Call): CpState
    requires c.answer.Some? && (c.job.Create? || c.job.Remove?)
  {
    if c.job.Create? then cp.(store := cp.store[c.seid := SessionMade(cp.byFseid, c)])
    else cp.(store := cp.store - {c.job.target})
  }

  // ----- handlers -----

  /** The state of the node after its handler for the message, and the answer it sends. Panicked
      is a Go run-time panic: a slice expression whose bounds are out of order. */
  datatype Effect = NotHandled | Panicked | Effect(role: Role, reply: Option<Msg>)

  function Handle(role: Role, g: Got): Effect
    requires role.UP? && g.msg.h.typ == SESSION_ESTABLISHMENT_REQUEST ==> HasRoom(role.up.sessions)
  {
    var h := g.msg.h;
    match role
    case UP(up, log, dels, _, _, ts) =>
      if h.typ == SESSION_ESTABLISHMENT_REQUEST then
        var seid := LeastFree(up.sessions);
        var log' := log + [Creation(seid, SessionFor(seid, g.msg), g.tag)];
        Effect(role.(up := Establish(up, g.msg), log := log'),
               Some(NewSessionEstablishmentResponse(h.seqNum, h.seid, REQUEST_ACCEPTED, seid)))
      else if h.typ == SESSION_MODIFICATION_REQUEST then
        Effect(role, Some(NewSessionModificationResponse(h.seqNum, h.seid)))
      else if h.typ == SESSION_DELETION_REQUEST then
        var dels' := dels + [Deletion(h.seid, g.tag, Occupant(up, log, h.seid))];
        Effect(role.(up := Delete(up, h.seid), dels := dels'),
               Some(NewSessionDeletionResponse(h.seqNum, h.seid, REQUEST_ACCEPTED)))
      else if h.typ == HEARTBEAT_REQUEST then
        Effect(role, Some(NewHeartbeatResponse(h.seqNum, ts)))
      else NotHandled
    case CP(cp) =>
      if h.typ == ASSOCIATION_SETUP_REQUEST then
        var id := FindIE(g.msg.ies, NODE_ID);
        if id.None? || FindIE(g.msg.ies, RECOVERY_TIME_STAMP).None? then Effect(role, None)
        else if id.value.value == [] then Panicked
        else Effect(CP(cp.(assocs := cp.assocs[id.value.value[1..] := g.src])),
                    Some(NewAssociationSetupResponse(h.seqNum, cp.nodeId, REQUEST_ACCEPTED, cp.ts)))
      else if h.typ == ASSOCIATION_RELEASE_REQUEST then
        var id := FindIE(g.msg.ies, NODE_ID);
        if id.None? then Effect(role, None)
        else if id.value.value == [] then Panicked
        else Effect(CP(cp.(assocs := cp.assocs - {id.value.value[1..]})),
                    Some(NewAssociationReleaseResponse(h.seqNum, cp.nodeId, REQUEST_ACCEPTED)))
      else if h.typ == HEARTBEAT_REQUEST then
        Effect(role, Some(NewHeartbeatResponse(h.seqNum, cp.ts)))
      else if h.typ == SESSION_REPORT_REQUEST then Effect(role, None)
      else NotHandled
  }

  // ----- steps -----

  datatype Action =
    | BeginCreate(nodeId: gostring, rules: CpRules)
    | BeginRemove(target: u64, peer: Addr)
    | BeginHeartbeat(peer: Addr)
    | BeginAssociate
    | Alloc(q: nat)
    | Draw(q: nat)
    | Register(q: nat)
    | Send(q: nat, ok: bool)
    | Timer(q: nat, ok: bool)
    | Take(q: nat)
    | Close(q: nat)
    | Leave(q: nat)
    | Reject(q: nat)
    | Apply(q: nat)
    | Commit(q: nat)
    | Receive(d: Dgram, stale: seq<byte>)
    | Lookup
    | Hand
    | Dispatch(ok: bool)

  predicate IsCallAction(act: Action) {
    act.Alloc? || act.Draw? || act.Register? || act.Send? || act.Timer? || act.Take? || act.Close?
    || act.Leave? || act.Reject? || act.Apply? || act.Commit?
  }

  predicate AcceptedCall(c: Call) {
    c.answer.Some? && Accepts(c.answer.value.msg)
  }

  ghost predicate CanCall(n: Node, c: Call, act: Action)
    requires IsCallAction(act)
  {
    match act
    case Alloc(_) => c.pc.Started? && c.job.Create? && n.role.CP?
    case Draw(_) => c.pc.Allocated? || (c.pc.Started? && !c.job.Create?)
    case Register(_) => c.pc.Drawn?
    case Send(_, _) => c.pc.Registered?
    case Timer(_, _) => c.pc.Waiting?
    case Take(_) => c.pc.Waiting? && c.chan.Some?
    case Close(_) => c.pc.Waiting?
    case Leave(_) => c.pc.Leaving?
    case Reject(_) => c.pc.Returned? && (c.job.Create? || c.job.Remove?) && !AcceptedCall(c)
    case Apply(_) => c.pc.Returned? && (c.job.Create? || c.job.Remove?) && AcceptedCall(c) && n.role.CP?
    case Commit(_) => c.pc.Applied? && AcceptedCall(c) && (c.job.Create? || c.job.Remove?) && n.role.CP?
  }

  /** A node whose handler panics does not move on. */
  predicate CanDispatch(n: Node) {
    n.rx.ForHandler? && (n.role.UP? ==> HasRoom(n.role.up.sessions)) && !Handle(n.role, n.rx.got).Panicked?
  }

  /** The address of a deletion or a control-plane heartbeat is read from the associations apart
      from the rest, so by then it may be any. */
  ghost predicate Enabled(n: Node, act: Action) {
    if IsCallAction(act) then act.q < |n.calls| && CanCall(n, n.calls[act.q], act)
    else match act
      case BeginCreate(id, _) => n.role.CP? && id in n.role.cp.assocs
      case BeginRemove(target, _) => n.role.CP? && target in n.role.cp.sessions
      case BeginHeartbeat(peer) => n.role.UP? ==> peer == n.role.cpAddr
      case BeginAssociate => n.role.UP?
      case Receive(d, stale) => n.rx.Idle? && |d.payload| + |stale| == MAX_INPUT
      case Lookup => n.rx.Held?
      case Hand => n.rx.ForWaiter? && n.rx.call < |n.calls|
      case Dispatch(_) => CanDispatch(n)
      case _ => false
  }

  /** A transmission attempt succeeds only if the datagram is small enough. */
  predicate Sendable(m: Msg, ok: bool) {
    ok && |EncodeMessage(m)| <= MAX_DATAGRAM
  }

  /** The call's own record after its step. */
  function CallAfter(n: Node, c: Call, act: Action): Call
    requires IsCallAction(act) && (act.Alloc? ==> n.role.CP?)
  {
    match act
    case Alloc(_) => c.(seid := n.role.cp.nextSeid, pc := Allocated)
    case Draw(_) => c.(k := n.drawn, msg := RequestMsg(c.job, n.seqNum), pc := Drawn)
    case Register(_) => c.(pc := Registered)
    case Send(_, ok) => if Sendable(c.msg, ok) then c.(sends := 1, pc := Waiting) else c.(pc := Leaving)
    case Timer(_, ok) =>
      var c1 := c.(attempts := c.attempts + 1);
      if c1.attempts >= c.limit || !Sendable(c.msg, ok) then c1.(pc := Leaving) else c1.(sends := c.sends + 1)
    case Take(_) => c.(chan := None, answer := c.chan, pc := Leaving)
    case Close(_) => c.(pc := Leaving)
    case Leave(_) => c.(pc := Returned)
    case Reject(_) => c.(pc := Failed)
    case Apply(_) => c.(pc := Applied)
    case Commit(_) => c.(pc := Done)
  }

  function PendingAfter(pending: map<u32, nat>, q: nat, c: Call, act: Action): map<u32, nat> {
    if act.Register? then pending[c.msg.h.seqNum := q]
    else if act.Leave? then pending - {c.msg.h.seqNum}
    else pending
  }

  function RoleAfter(role: Role, c: Call, act: Action): Role
    requires act.Alloc? || act.Apply? || act.Commit? ==> role.CP?
    requires act.Apply? || act.Commit? ==> AcceptedCall(c) && (c.job.Create? || c.job.Remove?)
  {
    match act
    case Alloc(_) => CP(Allocating(role.cp))
    case Apply(_) => CP(ApplyCall(role.cp, c))
    case Commit(q) => CP(CommitCall(role.cp, c).(commits := role.cp.commits + [q]))
    case _ => role
  }

  function NextCall(n: Node, q: nat, c: Call, act: Action): Node
    requires q < |n.calls| && IsCallAction(act)
    requires act.Alloc? || act.Apply? || act.Commit? ==> n.role.CP?
    requires act.Apply? || act.Commit? ==> AcceptedCall(c) && (c.job.Create? || c.job.Remove?)
    requires n.seqNum < 0xFFFF_FFFF
  {
    n.(calls := n.calls[q := CallAfter(n, c, act)],
       pending := PendingAfter(n.pending, q, c, act),
       role := RoleAfter(n.role, c, act),
       seqNum := if act.Draw? then NextSeq(n.seqNum) else n.seqNum,
       drawn := if act.Draw? then n.drawn + 1 else n.drawn)
  }

  predicate IsBeginAction(act: Action) {
    act.BeginCreate? || act.BeginRemove? || act.BeginHeartbeat? || act.BeginAssociate?
  }

  /** The call a begin action adds: address, limit and request contents are fixed here. */
  function CallBegun(role: Role, act: Action): Call
    requires IsBeginAction(act)
    requires act.BeginCreate? ==> role.CP? && act.nodeId in role.cp.assocs
    requires act.BeginRemove? ==> role.CP? && act.target in role.cp.sessions
    requires act.BeginAssociate? ==> role.UP?
  {
    match act
    case BeginCreate(id, rules) => NewCall(Create(id, rules), role.cp.assocs[id], role.cp.n1)
    case BeginRemove(target, peer) => NewCall(Remove(target, role.cp.sessions[target].remoteSeid), peer, role.cp.n1)
    case BeginHeartbeat(peer) => NewCall(Heartbeat(if role.CP? then role.cp.ts else role.upNodeTs), peer, 3)
    case BeginAssociate => NewCall(Associate(role.upNodeId, role.upNodeTs), role.cpAddr, 3)
  }

  function NextReceive(n: Node, d: Dgram, stale: seq<byte>): Node {
    match DecodeMessage(d.payload + stale, |d.payload|)
    case Decoded(m) => n.(rx := Held(Got(d.src, m, d.tag)), counts := n.counts.(received := n.counts.received + 1))
    case _ => n
  }

  function NextLookup(n: Node): Node
    requires n.rx.Held?
  {
    var g := n.rx.got;
    n.(rx := if g.msg.h.seqNum in n.pending then ForWaiter(n.pending[g.msg.h.seqNum], g) else ForHandler(g))
  }

  /** Non-blocking delivery into the waiter's one-slot channel. */
  function NextHand(n: Node): Node
    requires n.rx.ForWaiter? && n.rx.call < |n.calls|
  {
    var c := n.calls[n.rx.call];
    if c.chan.None? then
      n.(calls := n.calls[n.rx.call := c.(chan := Some(n.rx.got))],
         rx := Idle, counts := n.counts.(handed := n.counts.handed + 1))
    else n.(rx := Idle, counts := n.counts.(dropped := n.counts.dropped + 1))
  }

  function NextDispatch(n: Node): Node
    requires CanDispatch(n)
  {
    match Handle(n.role, n.rx.got)
    case NotHandled => n.(rx := Idle, counts := n.counts.(dropped := n.counts.dropped + 1))
    case Effect(role, _) => n.(role := role, rx := Idle, counts := n.counts.(handled := n.counts.handled + 1))
  }

  function Next(n: Node, act: Action): Node
    requires Enabled(n, act)
    requires n.seqNum < 0xFFFF_FFFF
  {
    if IsCallAction(act) then NextCall(n, act.q, n.calls[act.q], act)
    else if IsBeginAction(act) then n.(calls := n.calls + [CallBegun(n.role, act)])
    else match act
      case Receive(d, stale) => NextReceive(n, d, stale)
      case Lookup => NextLookup(n)
      case Hand => NextHand(n)
      case Dispatch(_) => NextDispatch(n)
  }

  /** The datagrams a step puts on the network: none or one. */
  function Emits(n: Node, a: Addr, act: Action): multiset<Dgram>
    requires Enabled(n, act)
  {
    match act
    case Send(q, ok) =>
      if Sendable(n.calls[q].msg, ok) then multiset{RequestDgram(a, q, n.calls[q])} else multiset{}
    case Timer(q, ok) =>
      var c := n.calls[q];
      if c.attempts + 1 < c.limit && Sendable(c.msg, ok) then multiset{RequestDgram(a, q, c)} else multiset{}
    case Dispatch(ok) =>
      (match Handle(n.role, n.rx.got)
       case Effect(_, Some(m)) =>
         if Sendable(m, ok) then multiset{ReplyDgram(a, n.role, n.rx.got, m)} else multiset{}
       case _ => multiset{})
    case _ => multiset{}
  }

  function RequestDgram(a: Addr, q: nat, c: Call): Dgram {
    Dgram(a, c.dst, EncodeMessage(c.msg), Tag(a, q, Asking), Sized(c.msg))
  }

  function ReplyDgram(a: Addr, role: Role, g: Got, m: Msg): Dgram {
    var entry := if role.UP? then |role.log| else 0;
    Dgram(a, g.src, EncodeMessage(m), g.tag.(kind := Answering(entry)), Sized(m))
  }

  // ----- runs -----

  /** net holds the datagrams in transit; duplicating says whether the network may copy them. */
  datatype State = State(nodes: map<Addr, Node>, net: multiset<Dgram>, duplicating: bool)

  ghost predicate StepAt(s: State, s': State, a: Addr, act: Action) {
    && a in s.nodes
    && s.nodes[a].seqNum < 0xFFFF_FFFF
    && Enabled(s.nodes[a], act)
    && (act.Receive? ==> act.d in s.net && act.d.dst == a)
    && s'.nodes == s.nodes[a := Next(s.nodes[a], act)]
    && s'.net == (if act.Receive? then s.net - multiset{act.d} else s.net) + Emits(s.nodes[a], a, act)
    && s'.duplicating == s.duplicating
  }

  /** The network loses the datagram or, if it may, copies it. */
  ghost predicate Weathers(s: State, s': State, d: Dgram) {
    && d in s.net && s'.nodes == s.nodes && s'.duplicating == s.duplicating
    && (s'.net == s.net - multiset{d} || (s.duplicating && s'.net == s.net + multiset{d}))
  }

  ghost predicate Step(s: State, s': State) {
    (exists d :: Weathers(s, s', d)) || (exists a, act :: StepAt(s, s', a, act))
  }

  ghost predicate Moves(n: Node, n': Node, act: Action) {
    n.seqNum < 0xFFFF_FFFF && Enabled(n, act) && n' == Next(n, act)
  }

  /** A step moves one node, if any. */
  lemma NodeAfterStep(s: State, s': State, a: Addr)
    requires Step(s, s') && a in s'.nodes
    ensures a in s.nodes
    ensures s'.nodes[a] == s.nodes[a] || exists act :: Moves(s.nodes[a], s'.nodes[a], act)
  {
    if !(exists d :: Weathers(s, s', d)) {
      var b, act :| StepAt(s, s', b, act);
      assert a == b ==> Moves(s.nodes[a], s'.nodes[a], act);
    }
  }

  ghost predicate FreshNode(n: Node) {
    && n.seqNum == 1 && n.drawn == 0 && n.pending == map[] && n.calls == []
    && n.rx == Idle && n.counts == Counts(0, 0, 0, 0)
    && (n.role.CP? ==> var cp := n.role.cp;
          cp.sessions == map[] && cp.store == map[] && cp.nextSeid == 1 && cp.allocs == 0 && cp.assocs == map[]
          && cp.commits == [])
    && (n.role.UP? ==> n.role.up == EMPTY_UP && n.role.log == [] && n.role.dels == [])
  }

  ghost predicate Init(s: State) {
    s.net == multiset{} && forall a :: a in s.nodes ==> FreshNode(s.nodes[a])
  }

  ghost predicate StepOf(run: seq<State>, i: nat) {
    i + 1 < |run| && Step(run[i], run[i + 1])
  }

  ghost predicate Run(run: seq<State>) {
    && |run| > 0 && Init(run[0])
    && forall i: nat :: i + 1 < |run| ==> StepOf(run, i)
  }
}
