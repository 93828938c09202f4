/** The order in which calls update the store, and what a deletion knows of the create call of
    its session (pkg/cp/cp.go), over every interleaving of create and delete calls. */
module CpOrder {
  import opened Bytes
  import opened Network
  import opened LocalInvariants
  import opened CpTables

  // ----- the store is what the commits make of it -----

  /** commits lists the calls that are done, once each. */
  ghost predicate CommitsOk(calls: seq<Call>, commits: seq<nat>) {
    && (forall i :: 0 <= i < |commits| ==> commits[i] < |calls| && calls[commits[i]].pc.Done?)
    && (forall q: nat :: q < |calls| && calls[q].pc.Done? ==> q in commits)
    && (forall i, j :: 0 <= i < j < |commits| ==> commits[i] != commits[j])
  }

  /** The i-th commit put k into the store, and no later one took it out. */
  ghost predicate StoredAt(calls: seq<Call>, commits: seq<nat>, k: u64, i: nat) {
    && i < |commits| && CreatedBy(calls, k, commits[i])
    && forall j :: i < j < |commits| ==> !RemovalOf(calls, k, commits[j])
  }

  ghost predicate StoreOk(calls: seq<Call>, cp: CpState, k: u64) {
    k in cp.store <==> exists i: nat :: StoredAt(calls, cp.commits, k, i)
  }

  ghost predicate OrderOk(n: Node) {
    n.role.CP? ==> CommitsOk(n.calls, n.role.cp.commits) && forall k :: StoreOk(n.calls, n.role.cp, k)
  }

  /** Done calls stay as they are, and only a commit makes a call done. */
  ghost predicate SameDone(calls: seq<Call>, calls': seq<Call>) {
    && |calls| <= |calls'|
    && (forall q :: 0 <= q < |calls| && calls[q].pc.Done? ==>
          calls'[q].pc.Done? && calls'[q].job == calls[q].job && calls'[q].seid == calls[q].seid)
    && (forall q :: 0 <= q < |calls'| && calls'[q].pc.Done? ==> q < |calls| && calls[q].pc.Done?)
  }

  lemma SameDoneOrder(calls: seq<Call>, calls': seq<Call>, cp: CpState, cp': CpState, k: u64)
    requires SameDone(calls, calls') && CommitsOk(calls, cp.commits)
    requires cp'.commits == cp.commits && cp'.store == cp.store
    ensures CommitsOk(calls', cp.commits)
    ensures StoreOk(calls, cp, k) ==> StoreOk(calls', cp', k)
  {
    forall i: nat ensures StoredAt(calls, cp.commits, k, i) <==> StoredAt(calls', cp.commits, k, i) {
    }
  }

  lemma CommitOrder(calls: seq<Call>, calls': seq<Call>, cp: CpState, cp': CpState, q: nat, k: u64)
    requires q < |calls| && calls[q].pc.Applied? && calls[q].answer.Some? && (calls[q].job.Create? || calls[q].job.Remove?)
    requires calls' == calls[q := calls[q].(pc := Done)] && CommitsOk(calls, cp.commits) && StoreOk(calls, cp, k)
    requires cp'.commits == cp.commits + [q] && cp'.store == CommitCall(cp, calls[q]).store
    ensures StoreOk(calls', cp', k)
  {
    var last := |cp.commits|;
    forall i: nat | i < last
      ensures StoredAt(calls', cp'.commits, k, i) <==> StoredAt(calls, cp.commits, k, i) && !RemovalOf(calls, k, q)
    {
      StoredAfter(calls, calls', cp.commits, q, k, i);
    }
    assert StoredAt(calls', cp'.commits, k, last) <==> calls[q].job.Create? && calls[q].seid == k;
    if KeyOf(calls[q]) == k {
      if calls[q].job.Create? {
        assert StoredAt(calls', cp'.commits, k, last);
      } else {
        assert RemovalOf(calls, k, q);
        forall i: nat ensures !StoredAt(calls', cp'.commits, k, i) {
        }
      }
    } else {
      assert !RemovalOf(calls, k, q);
    }
  }

  lemma StoredAfter(calls: seq<Call>, calls': seq<Call>, commits: seq<nat>, q: nat, k: u64, i: nat)
    requires q < |calls| && calls[q].pc.Applied? && i < |commits| && CommitsOk(calls, commits)
    requires calls' == calls[q := calls[q].(pc := Done)]
    ensures StoredAt(calls', commits + [q], k, i) <==> StoredAt(calls, commits, k, i) && !RemovalOf(calls, k, q)
  {
    var commits' := commits + [q];
    assert commits[i] != q && commits'[i] == commits[i] && calls'[commits[i]] == calls[commits[i]];
    assert CreatedBy(calls', k, commits[i]) <==> CreatedBy(calls, k, commits[i]);
    forall j | i < j < |commits'| ensures RemovalOf(calls', k, commits'[j]) <==> RemovalOf(calls, k, commits'[j]) {
    }
    if StoredAt(calls', commits', k, i) {
      assert commits'[|commits|] == q && !RemovalOf(calls', k, commits'[|commits|]);
      forall j | i < j < |commits| ensures !RemovalOf(calls, k, commits[j]) {
        assert commits'[j] == commits[j];
      }
    }
  }

  lemma CommitKeepsCommits(calls: seq<Call>, commits: seq<nat>, q: nat)
    requires q < |calls| && calls[q].pc.Applied? && CommitsOk(calls, commits)
    ensures CommitsOk(calls[q := calls[q].(pc := Done)], commits + [q])
  {
    var calls', commits' := calls[q := calls[q].(pc := Done)], commits + [q];
    forall r: nat | r < |calls'| && calls'[r].pc.Done? ensures r in commits' {
      if r == q {
        assert commits'[|commits|] == q;
      } else {
        assert r in commits;
      }
    }
  }

  lemma StaysDone(n: Node, n': Node, act: Action)
    requires Shaped(n, n', act) && n.role.CP? && !act.Commit?
    ensures SameDone(n.calls, n'.calls)
    ensures n'.role.CP? && n'.role.cp.commits == n.role.cp.commits && n'.role.cp.store == n.role.cp.store
  {
    if IsCallAction(act) {
      CallStaysDone(n, n.calls[act.q], act);
    }
  }

  lemma CallStaysDone(n: Node, c: Call, act: Action)
    requires IsCallAction(act) && CanCall(n, c, act) && n.role.CP? && !act.Commit?
    ensures !c.pc.Done? && !CallAfter(n, c, act).pc.Done?
    ensures var role' := RoleAfter(n.role, c, act);
            role'.CP? && role'.cp.commits == n.role.cp.commits && role'.cp.store == n.role.cp.store
  {
  }

  lemma CommitShape(n: Node, n': Node, q: nat)
    requires Shaped(n, n', Commit(q)) && n.role.CP?
    ensures q < |n.calls|
    ensures var c := n.calls[q];
            && c.pc.Applied? && c.answer.Some? && (c.job.Create? || c.job.Remove?)
            && n'.calls == n.calls[q := c.(pc := Done)] && n'.role.CP?
            && n'.role.cp.commits == n.role.cp.commits + [q]
            && n'.role.cp.store == CommitCall(n.role.cp, c).store
  {
  }

  /** Every step keeps the store what the commits make of it. */
  lemma OrderStep(n: Node, act: Action)
    requires LocalOk(n) && OrderOk(n) && Enabled(n, act)
    ensures OrderOk(Next(n, act))
  {
    StepShape(n, act);
    OrderShaped(n, Next(n, act), act);
  }

  lemma OrderShaped(n: Node, n': Node, act: Action)
    requires OrderOk(n) && Shaped(n, n', act)
    ensures OrderOk(n')
  {
    StaysCp(n, n', act);
    if n.role.CP? {
      var cp := n.role.cp;
      if act.Commit? {
        CommitShape(n, n', act.q);
        CommitKeepsCommits(n.calls, cp.commits, act.q);
      } else {
        StaysDone(n, n', act);
        SameDoneOrder(n.calls, n'.calls, cp, n'.role.cp, 0);
      }
      forall k ensures StoreOk(n'.calls, n'.role.cp, k) {
        if act.Commit? {
          CommitOrder(n.calls, n'.calls, cp, n'.role.cp, act.q, k);
        } else {
          SameDoneOrder(n.calls, n'.calls, cp, n'.role.cp, k);
        }
      }
    }
  }

  // ----- when the store keeps a deleted session -----

  ghost predicate Before(commits: seq<nat>, r: nat, q: nat) {
    exists i, j :: 0 <= i < j < |commits| && commits[i] == r && commits[j] == q
  }

  /** A deletion of k is done, and every deletion of k that is done updated the store before the
      create call of k did. */
  ghost predicate Leaked(n: Node, k: u64)
    requires n.role.CP?
  {
    && WasErased(n.calls, k)
    && exists q: nat :: CreatedBy(n.calls, k, q) && CommittedLast(n.calls, n.role.cp.commits, k, q)
  }

  ghost predicate CommittedLast(calls: seq<Call>, commits: seq<nat>, k: u64, q: nat) {
    && q < |calls| && calls[q].pc.Done?
    && forall r: nat :: RemovalOf(calls, k, r) && calls[r].pc.Done? ==> Before(commits, r, q)
  }

  /** With no call between its two updates, the store keeps a session that the table has lost
      if and only if the create call updated the store after every deletion of it. */
  lemma LeaksExactly(n: Node, k: u64)
    requires CpOk(n) && OrderOk(n) && n.role.CP? && SeidsLeft(n.role.cp) && NoneBetween(n)
    ensures k in n.role.cp.store && k !in n.role.cp.sessions <==> Leaked(n, k)
  {
    var calls, cp := n.calls, n.role.cp;
    assert KeyOk(calls, cp, k) && StoreOk(calls, cp, k);
    StoreCovers(n, k);
    if k in cp.store && k !in cp.sessions {
      var i: nat :| StoredAt(calls, cp.commits, k, i);
      StoredIsLast(calls, cp.commits, k, i);
    }
    if Leaked(n, k) {
      var q: nat :| CreatedBy(calls, k, q) && CommittedLast(calls, cp.commits, k, q);
      LastIsStored(calls, cp.commits, k, q);
      assert WasDropped(calls, k);
    }
  }

  lemma StoredIsLast(calls: seq<Call>, commits: seq<nat>, k: u64, i: nat)
    requires CommitsOk(calls, commits) && StoredAt(calls, commits, k, i)
    ensures CommittedLast(calls, commits, k, commits[i])
  {
    forall r: nat | RemovalOf(calls, k, r) && calls[r].pc.Done? ensures Before(commits, r, commits[i]) {
      var j :| 0 <= j < |commits| && commits[j] == r;
      assert j < i;
    }
  }

  lemma LastIsStored(calls: seq<Call>, commits: seq<nat>, k: u64, q: nat)
    requires CommitsOk(calls, commits) && CreatedBy(calls, k, q) && CommittedLast(calls, commits, k, q)
    ensures exists i: nat :: StoredAt(calls, commits, k, i)
  {
    assert q in commits;
    var i: nat :| i < |commits| && commits[i] == q;
    forall j | i < j < |commits| ensures !RemovalOf(calls, k, commits[j]) {
      assert !Before(commits, commits[j], q);
    }
    assert StoredAt(calls, commits, k, i);
  }

  // ----- what a deletion knows of its create call -----

  /** p is the create call of the session that call r deletes, and r carries the remote SEID the
      control plane took from p's answer. */
  ghost predicate Undoes(byFseid: bool, calls: seq<Call>, r: nat, p: nat) {
    && r < |calls| && calls[r].job.Remove? && CreatedBy(calls, calls[r].job.target, p)
    && AcceptedCall(calls[p]) && calls[r].job.remote == RemoteOf(byFseid, calls[p].answer.value.msg)
  }

  ghost predicate RemovalsOk(n: Node) {
    n.role.CP? && SeidsLeft(n.role.cp) ==>
      forall r: nat :: r < |n.calls| && n.calls[r].job.Remove? ==>
        exists p: nat :: Undoes(n.role.cp.byFseid, n.calls, r, p)
  }

  /** A call that has updated the table keeps its answer. */
  ghost predicate SameUpdated(c: Call, c': Call) {
    Updated(c') && c'.job == c.job && c'.seid == c.seid && c'.answer == c.answer && c'.dst == c.dst && c'.k == c.k
  }

  lemma UpdatedStays(n: Node, n': Node, act: Action, p: nat)
    requires Shaped(n, n', act) && p < |n.calls| && Updated(n.calls[p])
    ensures p < |n'.calls| && SameUpdated(n.calls[p], n'.calls[p])
  {
    if IsCallAction(act) && act.q == p {
      CallUpdatedStays(n, n.calls[p], act);
    }
  }

  lemma CallUpdatedStays(n: Node, c: Call, act: Action)
    requires IsCallAction(act) && CanCall(n, c, act) && Updated(c)
    ensures SameUpdated(c, CallAfter(n, c, act))
  {
  }

  /** Every step keeps: a deletion carries what its create call's answer said. */
  lemma RemovalsStep(n: Node, act: Action)
    requires LocalOk(n) && CpOk(n) && RemovalsOk(n) && Enabled(n, act)
    ensures RemovalsOk(Next(n, act))
  {
    StepShape(n, act);
    RemovalsShaped(n, Next(n, act), act);
  }

  lemma RemovalsShaped(n: Node, n': Node, act: Action)
    requires LocalOk(n) && CpOk(n) && RemovalsOk(n) && Shaped(n, n', act)
    ensures RemovalsOk(n')
  {
    StaysCp(n, n', act);
    if n'.role.CP? && SeidsLeft(n'.role.cp) {
      forall r: nat | r < |n'.calls| && n'.calls[r].job.Remove?
        ensures exists p: nat :: Undoes(n'.role.cp.byFseid, n'.calls, r, p)
      {
        if r < |n.calls| {
          JobsStay(n, n', act, r);
          var p: nat :| Undoes(n.role.cp.byFseid, n.calls, r, p);
          UpdatedStays(n, n', act, p);
          assert Undoes(n'.role.cp.byFseid, n'.calls, r, p);
        } else {
          var p := BegunUndoes(n, n', act, r);
        }
      }
    }
  }

  lemma BegunUndoes(n: Node, n': Node, act: Action, r: nat) returns (p: nat)
    requires LocalOk(n) && CpOk(n) && Shaped(n, n', act) && n.role.CP? && n'.role.CP? && SeidsLeft(n.role.cp)
    requires |n.calls| <= r < |n'.calls| && n'.calls[r].job.Remove?
    ensures Undoes(n.role.cp.byFseid, n'.calls, r, p)
  {
    var k, cp := n'.calls[r].job.target, n.role.cp;
    assert !IsCallAction(act);
    assert BegunBy(n.role, n'.calls[r], act);
    assert KeyOk(n.calls, cp, k);
    p :| MadeBy(cp.byFseid, n.calls, k, cp.sessions[k], p);
    assert CallOk(n.calls[p], n.drawn);
    UpdatedStays(n, n', act, p);
  }

  // ----- all of it -----

  ghost predicate CpInv(n: Node) {
    CpOk(n) && OrderOk(n) && RemovalsOk(n)
  }

  ghost predicate AllCpInv(nodes: map<Addr, Node>) {
    forall a {:trigger CpInv(nodes[a])} :: a in nodes ==> CpInv(nodes[a])
  }

  lemma CpInvStep(n: Node, n': Node, act: Action)
    requires LocalOk(n) && CpInv(n) && Shaped(n, n', act)
    ensures CpInv(n')
  {
    CpShaped(n, n', act);
    OrderShaped(n, n', act);
    RemovalsShaped(n, n', act);
  }

  lemma FreshCpInv(n: Node)
    requires FreshNode(n)
    ensures CpInv(n)
  {
  }
}
