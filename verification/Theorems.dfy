/** The main results, each about every state of every run of the network. */
module Theorems {
  import opened Bytes
  import opened InformationElements
  import opened Messages
  import opened Rules
  import opened RuleTables
  import opened Transports
  import opened UserPlane
  import opened Network
  import opened LocalInvariants
  import opened Provenance
  import opened InvariantSteps
  import opened CpTables
  import opened CpOrder
  import opened Duplication
  import opened Deletions

  ghost predicate MayMove(n: Node, n': Node) {
    n' == n || exists act :: Moves(n, n', act)
  }

  /** How a node got from one state of a run to the next. */
  lemma RunMove(run: seq<State>, i: nat, a: Addr)
    requires Run(run) && 0 < i < |run| && a in run[i].nodes
    ensures a in run[i - 1].nodes && LocalOk(run[i - 1].nodes[a])
    ensures MayMove(run[i - 1].nodes[a], run[i].nodes[a])
  {
    assert StepOf(run, i - 1);
    NodeAfterStep(run[i - 1], run[i], a);
    RunInv(run, i - 1);
    assert NodeOk(run[i - 1].nodes, a, run[i - 1].nodes[a]);
  }

  lemma RunExtends(run: seq<State>, i: nat)
    requires Run(run) && 0 < i < |run|
    ensures Inv(run[i - 1]) && Inv(run[i]) && AllExtend(run[i - 1].nodes, run[i].nodes)
  {
    RunInv(run, i - 1);
    RunInv(run, i);
    assert StepOf(run, i - 1);
    StepKeepsInv(run[i - 1], run[i]);
  }

  // ----- pending table -----

  /** Fewer than 0xFFFFFF numbers are drawn during the life of any request of the first i states. */
  ghost predicate ShortLived(run: seq<State>, i: nat)
    requires i < |run|
  {
    forall j, b {:trigger ShortLives(run[j].nodes[b])} :: 0 <= j < i && b in run[j].nodes ==> ShortLives(run[j].nodes[b])
  }

  /** In every run in which fewer than 0xFFFFFF numbers are drawn during any request's life,
      the pending table of every node is exactly the table of its registered requests. */
  lemma {:induction false} PendingTableSafety(run: seq<State>, i: nat, a: Addr)
    requires Run(run) && i < |run| && a in run[i].nodes && ShortLived(run, i)
    ensures Owned(run[i].nodes[a])
  {
    if i == 0 {
      assert FreshNode(run[0].nodes[a]);
    } else {
      RunMove(run, i, a);
      PendingTableSafety(run, i - 1, a);
      assert ShortLives(run[i - 1].nodes[a]);
      OwnedAfter(run[i - 1].nodes[a], run[i].nodes[a]);
    }
  }

  lemma OwnedAfter(n: Node, n': Node)
    requires LocalOk(n) && Owned(n) && ShortLives(n) && MayMove(n, n')
    ensures Owned(n')
  {
    ShortLivesDoNotClash(n);
    if n' != n {
      var act :| Moves(n, n', act);
      OwnedStep(n, act);
    }
  }

  /** Registration keeps ownership exactly when no registered request holds the same number;
      otherwise the newcomer takes over the other's key. */
  lemma RegistrationKeepsOwnership(n: Node, q: nat)
    requires LocalOk(n) && Owned(n) && Enabled(n, Register(q))
    ensures Owned(Next(n, Register(q))) <==>
            forall r :: 0 <= r < |n.calls| && Live(n.calls[r]) ==> n.calls[r].msg.h.seqNum != n.calls[q].msg.h.seqNum
  {
    RegisteredOwners(n, Next(n, Register(q)), q);
  }

  lemma RegisteredOwners(n: Node, n': Node, q: nat)
    requires Owned(n) && q < |n.calls| && n.calls[q].pc.Drawn?
    requires n'.calls == n.calls[q := n.calls[q].(pc := Registered)] && n'.pending == n.pending[n.calls[q].msg.h.seqNum := q]
    ensures Owned(n') <==>
            forall r :: 0 <= r < |n.calls| && Live(n.calls[r]) ==> n.calls[r].msg.h.seqNum != n.calls[q].msg.h.seqNum
  {
    var key := n.calls[q].msg.h.seqNum;
    if r :| 0 <= r < |n.calls| && Live(n.calls[r]) && n.calls[r].msg.h.seqNum == key {
      assert n'.calls[r] == n.calls[r] && n'.pending[key] == q != r;
    } else {
      forall s | s in n'.pending ensures n'.pending[s] < |n'.calls| && Live(n'.calls[n'.pending[s]]) {
        if s != key {
          assert Live(n.calls[n.pending[s]]);
        }
      }
    }
  }

  /** A waiter's channel and answer hold only messages with the waiter's own number, and
      every message received so far was handed to a waiter, handled or dropped, just once. */
  lemma MessagesAccountedFor(run: seq<State>, i: nat, a: Addr)
    requires Run(run) && i < |run| && a in run[i].nodes
    ensures var n := run[i].nodes[a];
            && n.counts.received == n.counts.handed + n.counts.handled + n.counts.dropped + (if n.rx.Idle? then 0 else 1)
            && (forall q :: 0 <= q < |n.calls| && n.calls[q].chan.Some? ==>
                  n.calls[q].chan.value.msg.h.seqNum == n.calls[q].msg.h.seqNum)
            && (forall q :: 0 <= q < |n.calls| && n.calls[q].answer.Some? ==>
                  n.calls[q].answer.value.msg.h.seqNum == n.calls[q].msg.h.seqNum)
            && (forall q :: 0 <= q < |n.calls| ==> n.calls[q].sends <= Max(1, n.calls[q].limit))
  {
    RunInv(run, i);
    assert NodeOk(run[i].nodes, a, run[i].nodes[a]);
    AccountsOf(run[i].nodes[a]);
  }

  lemma AccountsOf(n: Node)
    requires LocalOk(n)
    ensures forall q :: 0 <= q < |n.calls| ==> n.calls[q].sends <= Max(1, n.calls[q].limit)
    ensures forall q :: 0 <= q < |n.calls| && n.calls[q].chan.Some? ==>
              n.calls[q].chan.value.msg.h.seqNum == n.calls[q].msg.h.seqNum
    ensures forall q :: 0 <= q < |n.calls| && n.calls[q].answer.Some? ==>
              n.calls[q].answer.value.msg.h.seqNum == n.calls[q].msg.h.seqNum
  {
    forall q | 0 <= q < |n.calls|
      ensures n.calls[q].sends <= Max(1, n.calls[q].limit)
      ensures n.calls[q].chan.Some? ==> n.calls[q].chan.value.msg.h.seqNum == n.calls[q].msg.h.seqNum
      ensures n.calls[q].answer.Some? ==> n.calls[q].answer.value.msg.h.seqNum == n.calls[q].msg.h.seqNum
    {
      assert CallOk(n.calls[q], n.drawn);
    }
  }

  /** A call consumes one message: its answer, once set, never changes. */
  lemma {:induction false} AnswerIsFinal(run: seq<State>, i: nat, j: nat, a: Addr, q: nat)
    requires Run(run) && i <= j < |run| && a in run[i].nodes && q < |run[i].nodes[a].calls|
    requires run[i].nodes[a].calls[q].answer.Some?
    ensures a in run[j].nodes && q < |run[j].nodes[a].calls|
    ensures run[j].nodes[a].calls[q].answer == run[i].nodes[a].calls[q].answer
    decreases j - i
  {
    if i < j {
      AnswerIsFinal(run, i, j - 1, a, q);
      RunExtends(run, j);
      RunMove(run, j, a);
      AnswerStays(run[j - 1].nodes[a], run[j].nodes[a], q);
    }
  }

  lemma AnswerStays(n: Node, n': Node, q: nat)
    requires LocalOk(n) && q < |n.calls| && n.calls[q].answer.Some? && MayMove(n, n')
    ensures q < |n'.calls| && n'.calls[q].answer == n.calls[q].answer
  {
    if n' != n {
      var act :| Moves(n, n', act);
      StepShape(n, act);
      assert CallOk(n.calls[q], n.drawn);
      if IsCallAction(act) && act.q == q {
        AnsweredStays(n, n.calls[q], act);
      }
    }
  }

  lemma AnsweredStays(n: Node, c: Call, act: Action)
    requires CallOk(c, n.drawn) && IsCallAction(act) && CanCall(n, c, act) && c.answer.Some?
    ensures CallAfter(n, c, act).answer == c.answer
  {
  }

  /** No handler ever panics: Node IDs in transit are never empty. */
  lemma HandlersNeverPanic(run: seq<State>, i: nat, a: Addr)
    requires Run(run) && i < |run| && a in run[i].nodes && run[i].nodes[a].rx.ForHandler?
    requires run[i].nodes[a].role.UP? ==> HasRoom(run[i].nodes[a].role.up.sessions)
    ensures !Handle(run[i].nodes[a].role, run[i].nodes[a].rx.got).Panicked?
  {
    RunInv(run, i);
    LocalEverywhere(run[i].nodes);
    assert NodeOk(run[i].nodes, a, run[i].nodes[a]);
    HandlesWithoutPanic(run[i].nodes, a, run[i].nodes[a].role, run[i].nodes[a].rx.got);
  }

  lemma HandlesWithoutPanic(nodes: map<Addr, Node>, a: Addr, role: Role, g: Got)
    requires AllLocal(nodes) && GotOk(nodes, a, g) && (role.UP? ==> HasRoom(role.up.sessions))
    ensures !Handle(role, g).Panicked?
  {
    if g.msg.h.typ == ASSOCIATION_SETUP_REQUEST || g.msg.h.typ == ASSOCIATION_RELEASE_REQUEST {
      HandledIsRequest(nodes, a, g);
      NodeIdPresent(nodes, a, g);
    }
  }

  lemma NodeIdPresent(nodes: map<Addr, Node>, a: Addr, g: Got)
    requires AllLocal(nodes) && GotOk(nodes, a, g) && g.tag.kind.Asking?
    requires g.msg.h.typ == ASSOCIATION_SETUP_REQUEST || g.msg.h.typ == ASSOCIATION_RELEASE_REQUEST
    ensures FindIE(g.msg.ies, NODE_ID).Some? && FindIE(g.msg.ies, NODE_ID).value.value != []
  {
    var c := nodes[g.tag.node].calls[g.tag.call];
    assert LocalOk(nodes[g.tag.node]) && CallOk(c, nodes[g.tag.node].drawn);
    RequestShape(c.job, SeqOf(c.k));
    assert c.job.Associate? && g.msg.ies == [NewNodeID(c.job.upId), NewRecoveryTimeStamp(c.job.upTs)];
  }

  // ----- no false acceptance -----

  /** Whatever call q accepted is an answer to a call of the same node with the same number, and
      comes from the peer which that call addressed. Dispatch looks at the number alone;
      requests carry no Cause, and answers echo the number of their request. */
  lemma AcceptedAnswerOrigin(run: seq<State>, i: nat, a: Addr, q: nat)
    requires Run(run) && i < |run| && a in run[i].nodes
    requires q < |run[i].nodes[a].calls| && AcceptedCall(run[i].nodes[a].calls[q])
    ensures var calls := run[i].nodes[a].calls;
            var g := calls[q].answer.value;
            && g.tag.node == a && g.tag.kind.Answering? && g.tag.call < |calls| && Numbered(calls[g.tag.call])
            && calls[g.tag.call].msg.h.seqNum == calls[q].msg.h.seqNum
            && g.src == calls[g.tag.call].dst
            && Answers(run[i].nodes, g.src, calls[g.tag.call].msg, g.msg, g.tag)
  {
    RunInv(run, i);
    LocalEverywhere(run[i].nodes);
    assert NodeOk(run[i].nodes, a, run[i].nodes[a]);
    AcceptedOrigin(run[i].nodes, a, q);
  }

  /** So an accepting message that reached call q answers q's own request, if no other request
      of the node had q's number. */
  lemma NoFalseAcceptance(run: seq<State>, i: nat, a: Addr, q: nat)
    requires Run(run) && i < |run| && a in run[i].nodes
    requires q < |run[i].nodes[a].calls| && AcceptedCall(run[i].nodes[a].calls[q])
    requires NumberIsOwn(run[i].nodes[a], q)
    ensures var c := run[i].nodes[a].calls[q];
            var g := c.answer.value;
            && g.tag.node == a && g.tag.call == q && g.tag.kind.Answering? && g.src == c.dst
            && Answers(run[i].nodes, c.dst, c.msg, g.msg, g.tag)
  {
    AcceptedAnswerOrigin(run, i, a, q);
  }

  // ----- agreement of control plane, user plane and dataplane -----

  /** What agreement means: the user-plane session and the dataplane tables under its SEID
      are the projections of the control plane's rules. */
  ghost predicate Twin(up: UpState, seid: u64, pdrs: map<u16, CpPdr>, fars: map<u32, CpFar>) {
    && seid in up.sessions
    && up.sessions[seid].pdrs == (map k | k in pdrs :: ProjectPdr(pdrs[k]))
    && up.sessions[seid].fars == (map k | k in fars :: ProjectFar(fars[k]))
    && PdrsAt(up.dp, seid) == up.sessions[seid].pdrs
    && FarsAt(up.dp, seid) == up.sessions[seid].fars
  }

  /** All control planes take the remote SEID from the header, as the code does. */
  ghost predicate AsWritten(nodes: map<Addr, Node>) {
    forall a {:trigger nodes[a].role.cp} :: a in nodes && nodes[a].role.CP? ==> !nodes[a].role.cp.byFseid
  }

  /** Then no deletion ever removes a session. */
  lemma WrittenAlive(nodes: map<Addr, Node>, b: Addr, j: nat)
    requires AllNodesOk(nodes) && AsWritten(nodes) && b in nodes && nodes[b].role.UP? && j < |nodes[b].role.log|
    ensures Alive(nodes[b].role.up, nodes[b].role.log, j)
  {
    var role := nodes[b].role;
    assert NodeOk(nodes, b, nodes[b]) && FateOk(role.up, role.log, role.dels, j);
    forall i: nat ensures !HitBy(role.dels, j, i) {
      if i < |role.dels| {
        WrittenMisses(nodes, b, i);
      }
    }
  }

  lemma WrittenMisses(nodes: map<Addr, Node>, b: Addr, i: nat)
    requires AllNodesOk(nodes) && AsWritten(nodes) && b in nodes && nodes[b].role.UP? && i < |nodes[b].role.dels|
    ensures nodes[b].role.dels[i].hit.None?
  {
    var d, log := nodes[b].role.dels[i], nodes[b].role.log;
    assert NodeOk(nodes, b, nodes[b]) && DelOk(nodes, b, log, d);
    assert NodeOk(nodes, d.tag.node, nodes[d.tag.node]);
    HitHasSeid(nodes, b, d);
    assert RemotesZero(nodes[d.tag.node]) && d.seid == 0;
  }

  lemma HitHasSeid(nodes: map<Addr, Node>, b: Addr, d: Deletion)
    requires b in nodes && nodes[b].role.UP? && NodeOk(nodes, b, nodes[b]) && DelOk(nodes, b, nodes[b].role.log, d)
    ensures d.hit.Some? ==> d.seid >= 1
  {
    if d.hit.Some? {
      assert EntryOk(nodes, b, nodes[b].role.log[d.hit.value]);
    }
  }

  /** Entry e of the log at b is the session made for create call q of node a: it was made by q's
      request, q's answer came with it, and while it is in use its tables agree with q's rules. */
  ghost predicate TwinAt(nodes: map<Addr, Node>, a: Addr, q: nat, b: Addr, e: nat) {
    && a in nodes && q < |nodes[a].calls| && nodes[a].calls[q].job.Create? && AcceptedCall(nodes[a].calls[q])
    && b in nodes && nodes[b].role.UP? && e < |nodes[b].role.log|
    && var c, log := nodes[a].calls[q], nodes[b].role.log;
    && c.dst == b && c.answer.value.tag == Tag(a, q, Answering(e)) && log[e].tag == Tag(a, q, Asking)
    && FseidOf(c.answer.value.msg) == Some(log[e].seid)
    && (Alive(nodes[b].role.up, log, e) ==>
          Twin(nodes[b].role.up, log[e].seid, CpPdrMap(c.job.rules.pdrs), CpFarMap(c.job.rules.fars)))
  }

  /** If CreateSession takes its accepting branch and its number is its own, then the peer
      has logged a session made for this very call, its SEID is the F-SEID of the response, and
      its tables, in the user plane and in the dataplane, agree with the call's rules. As the
      code is written, the session is still in use. */
  lemma AcceptedCreateAgrees(run: seq<State>, i: nat, a: Addr, q: nat) returns (e: nat)
    requires Run(run) && i < |run| && a in run[i].nodes
    requires q < |run[i].nodes[a].calls| && AcceptedCall(run[i].nodes[a].calls[q])
    requires NumberIsOwn(run[i].nodes[a], q) && run[i].nodes[a].calls[q].job.Create?
    ensures TwinAt(run[i].nodes, a, q, run[i].nodes[a].calls[q].dst, e)
    ensures var role := run[i].nodes[run[i].nodes[a].calls[q].dst].role;
            AsWritten(run[i].nodes) ==> Alive(role.up, role.log, e)
  {
    NoFalseAcceptance(run, i, a, q);
    RunInv(run, i);
    var nodes := run[i].nodes;
    var c := nodes[a].calls[q];
    e := c.answer.value.tag.kind.entry;
    assert NodeOk(nodes, a, nodes[a]);
    AcceptedCreateLogged(nodes, a, q, c.dst, e);
    AnsweredIsTwin(nodes, a, q, c.dst, e);
    if AsWritten(nodes) {
      WrittenAlive(nodes, c.dst, e);
    }
  }

  lemma AnsweredIsTwin(nodes: map<Addr, Node>, a: Addr, q: nat, b: Addr, e: nat)
    requires AllNodesOk(nodes) && a in nodes && q < |nodes[a].calls| && AcceptedCall(nodes[a].calls[q])
    requires nodes[a].calls[q].job.Create? && nodes[a].calls[q].dst == b && b in nodes && nodes[b].role.UP?
    requires nodes[a].calls[q].answer.value.tag == Tag(a, q, Answering(e))
    requires Logged(nodes[b].role.log, e, Tag(a, q, Asking), nodes[a].calls[q].msg.h.seqNum, nodes[a].calls[q].answer.value.msg)
    ensures TwinAt(nodes, a, q, b, e)
  {
    var log := nodes[b].role.log;
    FseidCarried(nodes[a].calls[q].msg.h.seqNum, 0, REQUEST_ACCEPTED, log[e].seid);
    if Alive(nodes[b].role.up, log, e) {
      EntryIsTwin(nodes, b, e);
    }
  }

  /** A session in use agrees with the rules of the call that asked for it. */
  lemma EntryIsTwin(nodes: map<Addr, Node>, b: Addr, e: nat)
    requires AllNodesOk(nodes) && b in nodes && nodes[b].role.UP? && Alive(nodes[b].role.up, nodes[b].role.log, e)
    ensures var entry := nodes[b].role.log[e];
            && entry.tag.node in nodes && entry.tag.call < |nodes[entry.tag.node].calls|
            && var c := nodes[entry.tag.node].calls[entry.tag.call];
            && c.job.Create?
            && Twin(nodes[b].role.up, entry.seid, CpPdrMap(c.job.rules.pdrs), CpFarMap(c.job.rules.fars))
  {
    var entry := nodes[b].role.log[e];
    assert NodeOk(nodes, b, nodes[b]) && EntryOk(nodes, b, entry);
    var n := nodes[entry.tag.node];
    assert NodeOk(nodes, entry.tag.node, n);
    var c := n.calls[entry.tag.call];
    assert CallOk(c, n.drawn);
    RuleAgreement(SeqOf(c.k), c.job.rules);
  }

  /** Different calls have different twins, and twins in use at one peer different SEIDs. */
  lemma TwinsDiffer(run: seq<State>, i: nat, a: Addr, q: nat, a': Addr, q': nat, b: Addr, e: nat, e': nat)
    requires Run(run) && i < |run| && (a, q) != (a', q')
    requires TwinAt(run[i].nodes, a, q, b, e) && TwinAt(run[i].nodes, a', q', b, e')
    ensures e != e'
    ensures var role := run[i].nodes[b].role;
            Alive(role.up, role.log, e) && Alive(role.up, role.log, e') ==> role.log[e].seid != role.log[e'].seid
  {
  }

  // ----- control-plane tables -----

  lemma {:induction false} RunTables(run: seq<State>, i: nat, a: Addr)
    requires Run(run) && i < |run| && a in run[i].nodes
    ensures CpInv(run[i].nodes[a])
  {
    if i == 0 {
      assert FreshNode(run[0].nodes[a]);
      FreshCpInv(run[0].nodes[a]);
    } else {
      RunMove(run, i, a);
      RunTables(run, i - 1, a);
      TablesAfter(run[i - 1].nodes[a], run[i].nodes[a]);
    }
  }

  lemma TablesAfter(n: Node, n': Node)
    requires LocalOk(n) && CpInv(n) && MayMove(n, n')
    ensures CpInv(n')
  {
    if n' != n {
      var act :| Moves(n, n', act);
      StepShape(n, act);
      CpInvStep(n, n', act);
    }
  }

  /** Over every interleaving of create and delete calls, until the SEID counter wraps: session
      keys are positive, below the next SEID and the sessions' own; the table holds exactly the
      sessions created and not deleted; and whenever no call is between its two updates the
      store has every session of the table. */
  lemma ControlPlaneTables(run: seq<State>, i: nat, a: Addr, k: u64)
    requires Run(run) && i < |run| && a in run[i].nodes
    requires run[i].nodes[a].role.CP? && SeidsLeft(run[i].nodes[a].role.cp)
    ensures var n := run[i].nodes[a];
            var cp := n.role.cp;
            && (k in cp.sessions ==> 1 <= k < cp.nextSeid && cp.sessions[k].localSeid == k)
            && (k in cp.sessions <==> WasCreated(n.calls, k) && !WasDropped(n.calls, k))
            && (NoneBetween(n) && k in cp.sessions ==> k in cp.store && cp.store[k] == cp.sessions[k])
  {
    RunTables(run, i, a);
    var n := run[i].nodes[a];
    assert KeyOk(n.calls, n.role.cp, k);
    if k in n.role.cp.sessions {
      KeysOfTable(n, k);
    }
    if NoneBetween(n) {
      StoreCovers(n, k);
    }
  }

  /** Whenever no call is between its two updates, table and store are equal if and only if there
      is no session whose deletions, one at least, all updated the store before its create call
      did; and the store then has exactly those sessions beyond the table's. */
  lemma StoreAgreesExactly(run: seq<State>, i: nat, a: Addr)
    requires Run(run) && i < |run| && a in run[i].nodes
    requires run[i].nodes[a].role.CP? && SeidsLeft(run[i].nodes[a].role.cp) && NoneBetween(run[i].nodes[a])
    ensures var n := run[i].nodes[a];
            && (forall k :: k in n.role.cp.store && k !in n.role.cp.sessions <==> Leaked(n, k))
            && (n.role.cp.sessions == n.role.cp.store <==> forall k :: !Leaked(n, k))
  {
    RunTables(run, i, a);
    var n := run[i].nodes[a];
    forall k
      ensures k in n.role.cp.store && k !in n.role.cp.sessions <==> Leaked(n, k)
      ensures k in n.role.cp.sessions ==> k in n.role.cp.store && n.role.cp.store[k] == n.role.cp.sessions[k]
    {
      LeaksExactly(n, k);
      StoreCovers(n, k);
    }
  }

  /** A deletion that the step starts is for a SEID the control plane has returned. */
  ghost predicate Patient(n: Node, n': Node) {
    (|n'.calls| == |n.calls| + 1 && n'.calls[|n.calls|].job.Remove?) ==>
      WasReturned(n.calls, n'.calls[|n.calls|].job.target)
  }

  ghost predicate PatientAt(run: seq<State>, j: nat, a: Addr) {
    j + 1 < |run| && a in run[j].nodes && a in run[j + 1].nodes ==> Patient(run[j].nodes[a], run[j + 1].nodes[a])
  }

  ghost predicate AlwaysPatient(run: seq<State>, i: nat, a: Addr) {
    forall j: nat :: j < i ==> PatientAt(run, j, a)
  }

  /** A condition that callers can see to: if they delete only SEIDs that CreateSession has
      returned, then table and store are equal whenever no call is between its two updates. */
  lemma StoreAgrees(run: seq<State>, i: nat, a: Addr)
    requires Run(run) && i < |run| && a in run[i].nodes && AlwaysPatient(run, i, a)
    requires run[i].nodes[a].role.CP? && SeidsLeft(run[i].nodes[a].role.cp) && NoneBetween(run[i].nodes[a])
    ensures run[i].nodes[a].role.cp.sessions == run[i].nodes[a].role.cp.store
  {
    RunTables(run, i, a);
    RunPatient(run, i, a);
    var n := run[i].nodes[a];
    var cp := n.role.cp;
    forall k
      ensures k in cp.sessions <==> k in cp.store
      ensures k in cp.sessions ==> cp.store[k] == cp.sessions[k]
    {
      assert KeyPatient(n.calls, cp, k);
      StoreCovers(n, k);
    }
  }

  lemma {:induction false} RunPatient(run: seq<State>, i: nat, a: Addr)
    requires Run(run) && i < |run| && a in run[i].nodes && AlwaysPatient(run, i, a)
    ensures CpPatient(run[i].nodes[a])
  {
    if i == 0 {
      assert FreshNode(run[0].nodes[a]);
    } else {
      RunMove(run, i, a);
      RunTables(run, i - 1, a);
      RunPatient(run, i - 1, a);
      assert PatientAt(run, i - 1, a);
      PatientAfter(run[i - 1].nodes[a], run[i].nodes[a]);
    }
  }

  lemma PatientAfter(n: Node, n': Node)
    requires LocalOk(n) && CpOk(n) && CpPatient(n) && Patient(n, n') && MayMove(n, n')
    ensures CpPatient(n')
  {
    if n' != n {
      var act :| Moves(n, n', act);
      if act.BeginRemove? {
        PatientMove(n, act);
      }
      PatientStep(n, act);
    }
  }

  lemma PatientMove(n: Node, act: Action)
    requires LocalOk(n) && Enabled(n, act) && Patient(n, Next(n, act)) && act.BeginRemove?
    ensures WasReturned(n.calls, act.target)
  {
  }

  /** Every session in a control plane's table is that of its create call and has a twin at the peer
      which that call addressed, until the SEID counter wraps, if create calls have numbers of
      their own: while the twin is in use, its tables agree with those of the session. */
  lemma SessionsHaveTwins(run: seq<State>, i: nat, a: Addr, k: u64) returns (q: nat, e: nat)
    requires Run(run) && i < |run| && a in run[i].nodes && run[i].nodes[a].role.CP?
    requires SeidsLeft(run[i].nodes[a].role.cp) && k in run[i].nodes[a].role.cp.sessions
    requires forall q :: 0 <= q < |run[i].nodes[a].calls| && AcceptedCall(run[i].nodes[a].calls[q])
               ==> NumberIsOwn(run[i].nodes[a], q)
    ensures var n := run[i].nodes[a];
            && q < |n.calls| && n.calls[q].seid == k && TwinAt(run[i].nodes, a, q, n.calls[q].dst, e)
            && var session, role := n.role.cp.sessions[k], run[i].nodes[n.calls[q].dst].role;
            && KeptFor(n.role.cp.byFseid, session, n.calls[q])
            && (Alive(role.up, role.log, e) ==> Twin(role.up, role.log[e].seid, session.pdrs, session.fars))
    ensures var role := run[i].nodes[run[i].nodes[a].calls[q].dst].role;
            AsWritten(run[i].nodes) ==> Alive(role.up, role.log, e)
  {
    RunTables(run, i, a);
    var n := run[i].nodes[a];
    assert KeyOk(n.calls, n.role.cp, k);
    q :| MadeBy(n.role.cp.byFseid, n.calls, k, n.role.cp.sessions[k], q);
    RunInv(run, i);
    assert NodeOk(run[i].nodes, a, n) && CallOk(n.calls[q], n.drawn);
    e := AcceptedCreateAgrees(run, i, a, q);
    FieldsOfSession(n.role.cp.byFseid, n.role.cp.sessions[k], n.calls[q]);
  }

  /** The session of create call c: the SEID the call allocated, the remote SEID of its answer,
      the node the call was for, and its rules by identifier. */
  ghost predicate KeptFor(byFseid: bool, session: CpSession, c: Call) {
    && c.job.Create? && c.answer.Some?
    && session.localSeid == c.seid && session.nodeId == c.job.nodeId
    && (if byFseid then FseidOf(c.answer.value.msg).Some? ==> FseidOf(c.answer.value.msg).value == session.remoteSeid
        else session.remoteSeid == c.answer.value.msg.h.seid)
    && HoldsPdrs(session.pdrs, c.job.rules.pdrs) && HoldsFars(session.fars, c.job.rules.fars)
  }

  lemma FieldsOfSession(byFseid: bool, session: CpSession, c: Call)
    requires c.job.Create? && c.answer.Some? && session == SessionMade(byFseid, c)
    ensures session.pdrs == CpPdrMap(c.job.rules.pdrs) && session.fars == CpFarMap(c.job.rules.fars)
    ensures KeptFor(byFseid, session, c)
  {
    CpPdrMapHolds(c.job.rules.pdrs);
    CpFarMapHolds(c.job.rules.fars);
  }

  // ----- how calls begin -----

  /** CreateSession begins one call, with the rules it is given, for the address associated with
      the node it is given, to be sent up to RetransmitN1 times; nothing else changes. */
  lemma CreateBegins(n: Node, id: gostring, rules: CpRules)
    requires LocalOk(n) && Enabled(n, BeginCreate(id, rules))
    ensures var n' := Next(n, BeginCreate(id, rules));
            && |n'.calls| == |n.calls| + 1 && n' == n.(calls := n.calls + [n'.calls[|n.calls|]])
            && var c := n'.calls[|n.calls|];
            && c.job == Create(id, rules) && c.dst == n.role.cp.assocs[id] && c.limit == n.role.cp.n1
            && c.sends == 0 && c.chan.None? && c.answer.None?
  {
    StepShape(n, BeginCreate(id, rules));
    assert BegunBy(n.role, Next(n, BeginCreate(id, rules)).calls[|n.calls|], BeginCreate(id, rules));
  }

  /** Every call of a node was begun in an earlier state, with the address, limit and contents
      that state prescribes: a creation goes to the address associated with its node then. */
  lemma {:induction false} CallWasBegun(run: seq<State>, i: nat, a: Addr, q: nat) returns (j: nat, act: Action)
    requires Run(run) && i < |run| && a in run[i].nodes && q < |run[i].nodes[a].calls|
    ensures j < i && a in run[j].nodes && |run[j].nodes[a].calls| == q
    ensures BegunBy(run[j].nodes[a].role, run[i].nodes[a].calls[q], act)
  {
    StartsEmpty(run, a);
    if i > 0 {
      RunMove(run, i, a);
      if q < |run[i - 1].nodes[a].calls| {
        j, act := CallWasBegun(run, i - 1, a, q);
        BeginsStay(run[i - 1].nodes[a], run[i].nodes[a], q);
      } else {
        j := i - 1;
        act := BegunNow(run[j].nodes[a], run[i].nodes[a], q);
      }
    }
  }

  lemma StartsEmpty(run: seq<State>, a: Addr)
    requires Run(run)
    ensures a in run[0].nodes ==> run[0].nodes[a].calls == []
  {
    assert a in run[0].nodes ==> FreshNode(run[0].nodes[a]);
  }

  lemma BeginsStay(n: Node, n': Node, q: nat)
    requires LocalOk(n) && MayMove(n, n') && q < |n.calls| && q < |n'.calls|
    ensures var c, c' := n.calls[q], n'.calls[q];
            c'.job == c.job && c'.dst == c.dst && c'.limit == c.limit
  {
    if n' != n {
      var act :| Moves(n, n', act);
      StepShape(n, act);
      if IsCallAction(act) && act.q == q {
        assert CallOk(n.calls[q], n.drawn);
        CallStepNumbers(n, n.calls[q], act);
      }
    }
  }

  lemma BegunNow(n: Node, n': Node, q: nat) returns (act: Action)
    requires LocalOk(n) && MayMove(n, n') && |n.calls| <= q < |n'.calls|
    ensures |n.calls| == q && BegunBy(n.role, n'.calls[q], act)
  {
    act :| Moves(n, n', act);
    StepShape(n, act);
    assert BegunBy(n.role, n'.calls[q], act);
  }

  /** The limit of a session call is RetransmitN1, that of any other call three. */
  lemma {:induction false} LimitsOfCalls(run: seq<State>, i: nat, a: Addr, q: nat)
    requires Run(run) && i < |run| && a in run[i].nodes && q < |run[i].nodes[a].calls|
    ensures var n := run[i].nodes[a];
            var c := n.calls[q];
            if c.job.Create? || c.job.Remove? then n.role.CP? && c.limit == n.role.cp.n1 else c.limit == 3
  {
    var j, _ := CallWasBegun(run, i, a, q);
    SettingsStay(run, j, i, a);
  }

  lemma {:induction false} SettingsStay(run: seq<State>, j: nat, i: nat, a: Addr)
    requires Run(run) && j <= i < |run| && a in run[i].nodes && a in run[j].nodes
    ensures var role, role' := run[j].nodes[a].role, run[i].nodes[a].role;
            (role.CP? <==> role'.CP?) && (role.CP? ==> role'.cp.n1 == role.cp.n1)
    decreases i - j
  {
    if j < i {
      RunMove(run, i, a);
      SettingsStay(run, j, i - 1, a);
      SettingsAfter(run[i - 1].nodes[a], run[i].nodes[a]);
    }
  }

  lemma SettingsAfter(n: Node, n': Node)
    requires LocalOk(n) && MayMove(n, n')
    ensures (n.role.CP? <==> n'.role.CP?) && (n.role.CP? ==> n'.role.cp.n1 == n.role.cp.n1)
  {
    if n' != n {
      var act :| Moves(n, n', act);
      StepShape(n, act);
    }
  }

  // ----- bounded duplication -----

  /** Over a network that loses and reorders but does not copy, one create call of a control plane
      makes every user plane together create at most max(1, RetransmitN1) sessions: none elsewhere
      than at its destination, all with the same tables. No other call makes any. */
  lemma BoundedDuplication(run: seq<State>, i: nat, a: Addr, q: nat, b: Addr)
    requires Run(run) && i < |run| && !run[i].duplicating
    requires a in run[i].nodes && q < |run[i].nodes[a].calls|
    requires b in run[i].nodes && run[i].nodes[b].role.UP?
    ensures run[i].nodes[a].calls[q].job.Create? ==> run[i].nodes[a].role.CP?
    ensures var c, log, tag := run[i].nodes[a].calls[q], run[i].nodes[b].role.log, Tag(a, q, Asking);
            && |EntriesFor(log, tag)| <= (if b == c.dst && c.job.Create? then Max(1, run[i].nodes[a].role.cp.n1) else 0)
            && (forall j, k :: 0 <= j < |log| && 0 <= k < |log| && log[j].tag == log[k].tag == tag ==>
                  log[j].session.pdrs == log[k].session.pdrs && log[j].session.fars == log[k].session.fars)
            && (forall j: nat :: j < |log| && log[j].tag == tag && Alive(run[i].nodes[b].role.up, log, j) ==>
                  c.job.Create? && Twin(run[i].nodes[b].role.up, log[j].seid, CpPdrMap(c.job.rules.pdrs), CpFarMap(c.job.rules.fars)))
  {
    RunInv(run, i);
    var nodes := run[i].nodes;
    var log, tag := nodes[b].role.log, Tag(a, q, Asking);
    LimitsOfCalls(run, i, a, q);
    FewMade(run, i, a, q, b);
    MadeForCounts(log, tag);
    forall j | 0 <= j < |log| && log[j].tag == tag
      ensures log[j].session.pdrs == PdrTable(PdrsOf(nodes[a].calls[q].msg))
      ensures log[j].session.fars == FarTable(FarsOf(nodes[a].calls[q].msg))
    {
      assert NodeOk(nodes, b, nodes[b]) && EntryOk(nodes, b, log[j]);
    }
    forall j: nat | j < |log| && log[j].tag == tag && Alive(nodes[b].role.up, log, j)
      ensures nodes[a].calls[q].job.Create?
      ensures var rules := nodes[a].calls[q].job.rules;
              Twin(nodes[b].role.up, log[j].seid, CpPdrMap(rules.pdrs), CpFarMap(rules.fars))
    {
      EntryIsTwin(nodes, b, j);
    }
  }

  lemma FewMade(run: seq<State>, i: nat, a: Addr, q: nat, b: Addr)
    requires Run(run) && i < |run| && !run[i].duplicating
    requires a in run[i].nodes && q < |run[i].nodes[a].calls|
    requires b in run[i].nodes && run[i].nodes[b].role.UP?
    ensures var c := run[i].nodes[a].calls[q];
            MadeFor(run[i].nodes[b].role.log, Tag(a, q, Asking)) <= if b == c.dst && c.job.Create? then Max(1, c.limit) else 0
  {
    RunInv(run, i);
    RunCopies(run, i);
    var nodes := run[i].nodes;
    var c, log := nodes[a].calls[q], nodes[b].role.log;
    assert NodeOk(nodes, a, nodes[a]) && CallOk(c, nodes[a].drawn) && CopiesOk(run[i], a, q);
    if b != c.dst || !c.job.Create? || !Numbered(c) {
      forall j | 0 <= j < |log| ensures log[j].tag != Tag(a, q, Asking) {
        assert NodeOk(nodes, b, nodes[b]) && EntryOk(nodes, b, log[j]);
      }
      MadeForNone(log, Tag(a, q, Asking));
    }
  }

  // ----- SEIDs as the code passes them -----

  /** As the code is written, every header SEID in transit is zero and every remote SEID a
      control plane has stored is zero, while zero is no user-plane session's key. */
  lemma HeaderSeidsAreZero(run: seq<State>, i: nat)
    requires Run(run) && i < |run| && AsWritten(run[i].nodes)
    ensures forall d :: d in run[i].net ==> d.msg.h.seid == 0
    ensures forall a, k :: a in run[i].nodes && run[i].nodes[a].role.CP? && k in run[i].nodes[a].role.cp.sessions
              ==> run[i].nodes[a].role.cp.sessions[k].remoteSeid == 0
    ensures forall a :: a in run[i].nodes && run[i].nodes[a].role.UP? ==> 0 !in run[i].nodes[a].role.up.sessions
  {
    RunInv(run, i);
    forall a | a in run[i].nodes
      ensures run[i].nodes[a].role.CP? ==>
                (forall k :: k in run[i].nodes[a].role.cp.sessions ==> run[i].nodes[a].role.cp.sessions[k].remoteSeid == 0)
      ensures run[i].nodes[a].role.UP? ==> 0 !in run[i].nodes[a].role.up.sessions
    {
      assert NodeOk(run[i].nodes, a, run[i].nodes[a]);
    }
    forall d | d in run[i].net ensures d.msg.h.seid == 0 {
      DgramSeidZero(run[i], d);
    }
  }

  lemma DgramSeidZero(s: State, d: Dgram)
    requires Inv(s) && AsWritten(s.nodes) && d in s.net
    ensures d.msg.h.seid == 0
  {
    assert DgramOk(s.nodes, d);
    var n := s.nodes[d.tag.node];
    assert NodeOk(s.nodes, d.tag.node, n) && CallOk(n.calls[d.tag.call], n.drawn);
    assert n.calls[d.tag.call].job.Remove? ==> n.role.CP? && !n.role.cp.byFseid;
  }

  /** So no step ever removes or alters a user-plane session or its dataplane tables:
      deletions from the control plane leave them as they are. */
  lemma UserPlaneOnlyGrows(run: seq<State>, i: nat, a: Addr, k: u64)
    requires Run(run) && 0 < i < |run| && AsWritten(run[i].nodes)
    requires a in run[i - 1].nodes && run[i - 1].nodes[a].role.UP? && k in run[i - 1].nodes[a].role.up.sessions
    ensures a in run[i].nodes && run[i].nodes[a].role.UP?
    ensures var up, up' := run[i - 1].nodes[a].role.up, run[i].nodes[a].role.up;
            && k in up'.sessions && up'.sessions[k] == up.sessions[k]
            && PdrsAt(up'.dp, k) == PdrsAt(up.dp, k) && FarsAt(up'.dp, k) == FarsAt(up.dp, k)
  {
    RunExtends(run, i);
    SessionStays(run[i - 1].nodes, run[i].nodes, a, k);
  }

  lemma SessionStays(nodes: map<Addr, Node>, nodes': map<Addr, Node>, a: Addr, k: u64)
    requires AllExtend(nodes, nodes') && a in nodes && nodes[a].role.UP? && k in nodes[a].role.up.sessions
    requires AllNodesOk(nodes) && AllNodesOk(nodes') && AsWritten(nodes')
    ensures nodes'[a].role.UP?
    ensures var up, up' := nodes[a].role.up, nodes'[a].role.up;
            && k in up'.sessions && up'.sessions[k] == up.sessions[k]
            && PdrsAt(up'.dp, k) == PdrsAt(up.dp, k) && FarsAt(up'.dp, k) == FarsAt(up.dp, k)
  {
    assert Extends(nodes[a], nodes'[a]) && NodeOk(nodes, a, nodes[a]) && NodeOk(nodes', a, nodes'[a]);
    var log, log' := nodes[a].role.log, nodes'[a].role.log;
    var j := LastFor(log, k).value;
    assert log'[j] == log[j];
    WrittenAlive(nodes', a, j);
  }

  // ----- deletions by the F-SEID -----

  lemma {:induction false} RunGone(run: seq<State>, i: nat)
    requires Run(run) && i < |run|
    ensures AllGoneOk(run[i].nodes)
  {
    if i == 0 {
      InitGone(run[0]);
    } else {
      RunGone(run, i - 1);
      RunGoneNext(run, i);
    }
  }

  lemma InitGone(s: State)
    requires Init(s)
    ensures AllGoneOk(s.nodes)
  {
    forall b | b in s.nodes && s.nodes[b].role.UP? ensures GoneOk(s.nodes, b, s.nodes[b].role.dels) {
      assert FreshNode(s.nodes[b]);
    }
  }

  lemma RunGoneNext(run: seq<State>, i: nat)
    requires Run(run) && 0 < i < |run| && AllGoneOk(run[i - 1].nodes)
    ensures AllGoneOk(run[i].nodes)
  {
    RunExtends(run, i);
    AllTables(run, i - 1);
    AllTables(run, i);
    assert StepOf(run, i - 1);
    GoneNext(run[i - 1], run[i]);
  }

  lemma AllTables(run: seq<State>, i: nat)
    requires Run(run) && i < |run|
    ensures AllCpInv(run[i].nodes)
  {
    forall a | a in run[i].nodes ensures CpInv(run[i].nodes[a]) {
      RunTables(run, i, a);
    }
  }

  lemma GoneNext(s: State, s': State)
    requires Inv(s) && Inv(s') && AllExtend(s.nodes, s'.nodes) && Step(s, s') && AllGoneOk(s.nodes)
    requires AllCpInv(s.nodes) && AllCpInv(s'.nodes)
    ensures AllGoneOk(s'.nodes)
  {
    if d :| Weathers(s, s', d) {
    } else {
      var x, act :| StepAt(s, s', x, act);
      assert CpInv(s.nodes[x]) && CpInv(s'.nodes[x]);
      GoneStepAll(s, s', x, act);
    }
  }

  lemma GoneStepAll(s: State, s': State, x: Addr, act: Action)
    requires Inv(s) && Inv(s') && AllExtend(s.nodes, s'.nodes) && StepAt(s, s', x, act) && AllGoneOk(s.nodes)
    requires CpInv(s.nodes[x]) && CpInv(s'.nodes[x])
    ensures AllGoneOk(s'.nodes)
  {
    forall b | b in s'.nodes && s'.nodes[b].role.UP? ensures GoneOk(s'.nodes, b, s'.nodes[b].role.dels) {
      assert Extends(s.nodes[b], s'.nodes[b]);
      GoneStep(s, s', x, act, b);
    }
  }

  /** Were the remote SEID taken from the F-SEID payload: in every orderly run, deletions remove
      only the session they are meant for if and only if a deletion of a session of which one
      was processed before always finds its SEID free. And then the user plane has lost exactly
      the sessions of which a deletion was processed. */
  lemma DeletionAgreement(run: seq<State>, i: nat, b: Addr)
    requires Run(run) && i < |run| && b in run[i].nodes && run[i].nodes[b].role.UP? && Orderly(run[i].nodes)
    ensures AllHitOwn(run[i].nodes, b, run[i].nodes[b].role.dels) <==> RepeatsMiss(run[i].nodes, run[i].nodes[b].role.dels)
    ensures RepeatsMiss(run[i].nodes, run[i].nodes[b].role.dels) ==>
              forall j: nat :: j < |run[i].nodes[b].role.log| ==>
                (Alive(run[i].nodes[b].role.up, run[i].nodes[b].role.log, j) <==> !Undone(run[i].nodes, b, j))
  {
    RunInv(run, i);
    RunGone(run, i);
    AllTables(run, i);
    DeletionsExactly(run[i].nodes, b);
  }

  /** No two processed deletions are of the same session. */
  ghost predicate NoRepeats(nodes: map<Addr, Node>, dels: seq<Deletion>) {
    forall i, i' :: 0 <= i' < i < |dels| ==> !SameSession(nodes, dels[i'], dels[i])
  }

  /** In particular, where each session's deletion is processed at most once, it removes exactly
      the session that the create call was told of, and no other session is ever removed. */
  lemma DeletionsOnce(run: seq<State>, i: nat, b: Addr)
    requires Run(run) && i < |run| && b in run[i].nodes && run[i].nodes[b].role.UP? && Orderly(run[i].nodes)
    requires NoRepeats(run[i].nodes, run[i].nodes[b].role.dels)
    ensures AllHitOwn(run[i].nodes, b, run[i].nodes[b].role.dels)
    ensures forall j: nat :: j < |run[i].nodes[b].role.log| ==>
              (Alive(run[i].nodes[b].role.up, run[i].nodes[b].role.log, j) <==> !Undone(run[i].nodes, b, j))
  {
    DeletionAgreement(run, i, b);
  }
}
