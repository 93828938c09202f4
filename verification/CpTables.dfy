/** The control plane's session table and its northbound store (pkg/cp/cp.go,
    pkg/cp/northbound.go) over every interleaving of create and delete calls. */
module CpTables {
  import opened Bytes
  import opened Network
  import opened LocalInvariants

  predicate HasSeid(c: Call) {
    c.job.Create? && !c.pc.Started?
  }

  /** The call has updated the session table, and perhaps the store. */
  predicate Updated(c: Call) {
    c.pc.Applied? || c.pc.Done?
  }

  ghost predicate SeidsOk(calls: seq<Call>, cp: CpState) {
    && cp.nextSeid == 1 + cp.allocs
    && (forall q :: 0 <= q < |calls| && HasSeid(calls[q]) ==> 1 <= calls[q].seid < cp.nextSeid)
    && (forall q, r :: 0 <= q < r < |calls| && HasSeid(calls[q]) && HasSeid(calls[r]) ==> calls[q].seid != calls[r].seid)
    && (forall q :: 0 <= q < |calls| && Updated(calls[q]) ==> calls[q].answer.Some?)
  }

  // ----- what the calls have done to a key -----

  ghost predicate CreatedBy(calls: seq<Call>, k: u64, q: nat) {
    q < |calls| && calls[q].job.Create? && calls[q].seid == k && Updated(calls[q])
  }

  ghost predicate RemovalOf(calls: seq<Call>, k: u64, q: nat) {
    q < |calls| && calls[q].job.Remove? && calls[q].job.target == k
  }

  ghost predicate WasCreated(calls: seq<Call>, k: u64) {
    exists q: nat :: CreatedBy(calls, k, q)
  }

  /** The create call has updated the store too, and returned the SEID to its caller. */
  ghost predicate WasReturned(calls: seq<Call>, k: u64) {
    exists q: nat :: CreatedBy(calls, k, q) && calls[q].pc.Done?
  }

  ghost predicate WasTargeted(calls: seq<Call>, k: u64) {
    exists q: nat :: RemovalOf(calls, k, q)
  }

  /** A deletion has updated the session table. */
  ghost predicate WasDropped(calls: seq<Call>, k: u64) {
    exists q: nat :: RemovalOf(calls, k, q) && Updated(calls[q])
  }

  /** A deletion has updated the store too. */
  ghost predicate WasErased(calls: seq<Call>, k: u64) {
    exists q: nat :: RemovalOf(calls, k, q) && calls[q].pc.Done?
  }

  /** q is the create call whose session is stored under k. */
  ghost predicate MadeBy(byFseid: bool, calls: seq<Call>, k: u64, session: CpSession, q: nat) {
    CreatedBy(calls, k, q) && calls[q].answer.Some? && session == SessionMade(byFseid, calls[q])
  }

  // ----- the invariant -----

  /** The table holds exactly the sessions created and not deleted. The store holds what was
      returned and not erased; what else it holds was returned at some time. */
  ghost predicate KeyOk(calls: seq<Call>, cp: CpState, k: u64) {
    && (WasTargeted(calls, k) ==> WasCreated(calls, k))
    && (k in cp.sessions <==> WasCreated(calls, k) && !WasDropped(calls, k))
    && (k in cp.sessions ==> exists q: nat :: MadeBy(cp.byFseid, calls, k, cp.sessions[k], q))
    && (k in cp.store ==> exists q: nat :: MadeBy(cp.byFseid, calls, k, cp.store[k], q) && calls[q].pc.Done?)
    && (WasReturned(calls, k) && !WasErased(calls, k) ==> k in cp.store)
  }

  /** If deletions are started only on SEIDs that were returned, erasing is final. */
  ghost predicate KeyPatient(calls: seq<Call>, cp: CpState, k: u64) {
    && (WasTargeted(calls, k) ==> WasReturned(calls, k))
    && (WasErased(calls, k) ==> k !in cp.store)
  }

  ghost predicate TablesOk(calls: seq<Call>, cp: CpState) {
    SeidsOk(calls, cp) && forall k :: KeyOk(calls, cp, k)
  }

  ghost predicate TablesPatient(calls: seq<Call>, cp: CpState) {
    forall k :: KeyPatient(calls, cp, k)
  }

  /** Until the SEID counter wraps at 64 bits. */
  predicate SeidsLeft(cp: CpState) {
    cp.allocs + 1 < 0x1_0000_0000_0000_0000
  }

  ghost predicate CpOk(n: Node) {
    n.role.CP? && SeidsLeft(n.role.cp) ==> TablesOk(n.calls, n.role.cp)
  }

  ghost predicate CpPatient(n: Node) {
    n.role.CP? && SeidsLeft(n.role.cp) ==> TablesPatient(n.calls, n.role.cp)
  }

  /** A SEID has one creator. */
  lemma OneCreator(calls: seq<Call>, cp: CpState, k: u64, q: nat, r: nat)
    requires SeidsOk(calls, cp) && q < |calls| && r < |calls|
    requires HasSeid(calls[q]) && HasSeid(calls[r]) && calls[q].seid == calls[r].seid == k
    ensures q == r
  {
  }

  // ----- steps that do not concern a key -----

  /** As far as k is concerned, c' stands where c did. */
  ghost predicate SameFor(c: Call, c': Call, k: u64) {
    && c'.job == c.job
    && (c.job.Create? && c.seid == k && Updated(c) ==> c'.seid == k && c'.pc == c.pc && c'.answer == c.answer)
    && (c'.job.Create? && c'.seid == k && Updated(c') ==> c.seid == k && c'.pc == c.pc)
    && (c.job.Remove? && c.job.target == k ==> (c'.pc.Applied? <==> c.pc.Applied?) && (c'.pc.Done? <==> c.pc.Done?))
  }

  ghost predicate AllSameFor(calls: seq<Call>, calls': seq<Call>, k: u64) {
    && |calls| <= |calls'|
    && (forall q :: 0 <= q < |calls| ==> SameFor(calls[q], calls'[q], k))
    && (forall q :: |calls| <= q < |calls'| ==> calls'[q].pc.Started?)
  }

  ghost predicate SameEntries(cp: CpState, cp': CpState, k: u64) {
    && cp'.byFseid == cp.byFseid
    && (k in cp'.sessions <==> k in cp.sessions) && (k in cp.sessions ==> cp'.sessions[k] == cp.sessions[k])
    && (k in cp'.store <==> k in cp.store) && (k in cp.store ==> cp'.store[k] == cp.store[k])
  }

  ghost predicate Quiet(calls: seq<Call>, calls': seq<Call>, cp: CpState, cp': CpState, k: u64) {
    AllSameFor(calls, calls', k) && SameEntries(cp, cp', k)
  }

  lemma CreationsSame(calls: seq<Call>, calls': seq<Call>, k: u64)
    requires AllSameFor(calls, calls', k)
    ensures forall q: nat :: CreatedBy(calls', k, q) <==> CreatedBy(calls, k, q)
    ensures forall q: nat :: CreatedBy(calls, k, q) ==> calls'[q].pc == calls[q].pc && calls'[q].answer == calls[q].answer
  {
    forall q: nat
      ensures CreatedBy(calls', k, q) <==> CreatedBy(calls, k, q)
      ensures CreatedBy(calls, k, q) ==> calls'[q].pc == calls[q].pc && calls'[q].answer == calls[q].answer
    {
      if q < |calls| {
        assert SameFor(calls[q], calls'[q], k);
      }
    }
  }

  lemma RemovalsSame(calls: seq<Call>, calls': seq<Call>, k: u64)
    requires AllSameFor(calls, calls', k)
    ensures forall q: nat :: RemovalOf(calls, k, q) ==> RemovalOf(calls', k, q)
    ensures forall q: nat :: RemovalOf(calls', k, q) && Updated(calls'[q]) ==> RemovalOf(calls, k, q)
    ensures forall q: nat :: RemovalOf(calls, k, q) ==>
              (calls'[q].pc.Applied? <==> calls[q].pc.Applied?) && (calls'[q].pc.Done? <==> calls[q].pc.Done?)
  {
    forall q: nat
      ensures RemovalOf(calls, k, q) ==> RemovalOf(calls', k, q)
      ensures RemovalOf(calls', k, q) && Updated(calls'[q]) ==> RemovalOf(calls, k, q)
      ensures RemovalOf(calls, k, q) ==>
                (calls'[q].pc.Applied? <==> calls[q].pc.Applied?) && (calls'[q].pc.Done? <==> calls[q].pc.Done?)
    {
      if q < |calls| {
        assert SameFor(calls[q], calls'[q], k);
      }
    }
  }

  lemma FactsSame(calls: seq<Call>, calls': seq<Call>, k: u64)
    requires AllSameFor(calls, calls', k)
    ensures WasCreated(calls', k) <==> WasCreated(calls, k)
    ensures WasReturned(calls', k) <==> WasReturned(calls, k)
    ensures WasDropped(calls', k) <==> WasDropped(calls, k)
    ensures WasErased(calls', k) <==> WasErased(calls, k)
  {
    CreationsSame(calls, calls', k);
    RemovalsSame(calls, calls', k);
  }

  lemma MakerStays(byFseid: bool, calls: seq<Call>, calls': seq<Call>, k: u64, session: CpSession, q: nat)
    requires AllSameFor(calls, calls', k) && MadeBy(byFseid, calls, k, session, q)
    ensures MadeBy(byFseid, calls', k, session, q) && calls'[q].pc == calls[q].pc
  {
    assert SameFor(calls[q], calls'[q], k);
  }

  lemma KeyStays(calls: seq<Call>, calls': seq<Call>, cp: CpState, cp': CpState, k: u64)
    requires Quiet(calls, calls', cp, cp', k) && KeyOk(calls, cp, k)
    requires WasTargeted(calls', k) ==> WasTargeted(calls, k) || WasCreated(calls, k)
    ensures KeyOk(calls', cp', k)
  {
    FactsSame(calls, calls', k);
    if k in cp.sessions {
      var q: nat :| MadeBy(cp.byFseid, calls, k, cp.sessions[k], q);
      MakerStays(cp.byFseid, calls, calls', k, cp.sessions[k], q);
    }
    if k in cp.store {
      var q: nat :| MadeBy(cp.byFseid, calls, k, cp.store[k], q) && calls[q].pc.Done?;
      MakerStays(cp.byFseid, calls, calls', k, cp.store[k], q);
    }
  }

  // ----- the steps that do -----

  /** Call q moves from Returned to Applied, or from Applied to Done. */
  ghost predicate CallMoves(calls: seq<Call>, calls': seq<Call>, q: nat) {
    && q < |calls| && calls[q].answer.Some? && (calls[q].job.Create? || calls[q].job.Remove?)
    && (calls[q].pc.Returned? || calls[q].pc.Applied?)
    && calls' == calls[q := calls[q].(pc := if calls[q].pc.Returned? then Applied else Done)]
  }

  function Moved(cp: CpState, c: Call): CpState
    requires c.answer.Some? && (c.job.Create? || c.job.Remove?)
  {
    if c.pc.Returned? then ApplyCall(cp, c) else CommitCall(cp, c)
  }

  function KeyOf(c: Call): u64 {
    if c.job.Remove? then c.job.target else c.seid
  }

  lemma MovedElsewhere(calls: seq<Call>, calls': seq<Call>, q: nat, cp: CpState, k: u64)
    requires CallMoves(calls, calls', q) && k != KeyOf(calls[q])
    ensures Quiet(calls, calls', cp, Moved(cp, calls[q]), k)
  {
  }

  /** A create call moves no deletion. */
  lemma CreateKeepsRemovals(calls: seq<Call>, calls': seq<Call>, q: nat, k: u64)
    requires CallMoves(calls, calls', q) && calls[q].job.Create?
    ensures WasTargeted(calls', k) <==> WasTargeted(calls, k)
    ensures WasDropped(calls', k) <==> WasDropped(calls, k)
    ensures WasErased(calls', k) <==> WasErased(calls, k)
  {
    assert forall r: nat :: RemovalOf(calls', k, r) <==> RemovalOf(calls, k, r);
    assert forall r: nat :: RemovalOf(calls, k, r) ==> calls'[r] == calls[r];
  }

  lemma RemoveKeepsCreations(calls: seq<Call>, calls': seq<Call>, q: nat, k: u64)
    requires CallMoves(calls, calls', q) && calls[q].job.Remove?
    ensures WasCreated(calls', k) <==> WasCreated(calls, k)
    ensures WasReturned(calls', k) <==> WasReturned(calls, k)
    ensures forall r: nat :: CreatedBy(calls, k, r) ==> calls'[r] == calls[r]
    ensures WasTargeted(calls', k) <==> WasTargeted(calls, k)
  {
    assert forall r: nat :: CreatedBy(calls', k, r) <==> CreatedBy(calls, k, r);
    assert forall r: nat :: CreatedBy(calls, k, r) ==> calls'[r] == calls[r];
    assert forall r: nat :: RemovalOf(calls', k, r) <==> RemovalOf(calls, k, r);
  }

  /** Before its table update a create call's key has no past; before its store update it
      has not been returned. */
  lemma NoPast(calls: seq<Call>, cp: CpState, q: nat)
    requires SeidsOk(calls, cp) && q < |calls| && HasSeid(calls[q]) && !calls[q].pc.Done?
    ensures !calls[q].pc.Applied? ==> !WasCreated(calls, calls[q].seid)
    ensures !WasReturned(calls, calls[q].seid)
  {
    forall r: nat | CreatedBy(calls, calls[q].seid, r) ensures r == q {
      OneCreator(calls, cp, calls[q].seid, q, r);
    }
  }

  lemma CreateMoves(calls: seq<Call>, calls': seq<Call>, q: nat, cp: CpState)
    requires CallMoves(calls, calls', q) && SeidsOk(calls, cp) && calls[q].job.Create?
    requires KeyOk(calls, cp, calls[q].seid)
    ensures KeyOk(calls', Moved(cp, calls[q]), calls[q].seid)
  {
    var key := calls[q].seid;
    NoPast(calls, cp, q);
    CreateKeepsRemovals(calls, calls', q, key);
    assert MadeBy(cp.byFseid, calls', key, SessionMade(cp.byFseid, calls[q]), q);
    forall r: nat | CreatedBy(calls', key, r) ensures r == q {
      OneCreator(calls, cp, key, q, r);
    }
    if calls[q].pc.Applied? {
      assert CreatedBy(calls, key, q);
      if key in cp.sessions {
        var r: nat :| MadeBy(cp.byFseid, calls, key, cp.sessions[key], r);
        OneCreator(calls, cp, key, q, r);
      }
    }
  }

  lemma RemoveMoves(calls: seq<Call>, calls': seq<Call>, q: nat, cp: CpState)
    requires CallMoves(calls, calls', q) && calls[q].job.Remove? && KeyOk(calls, cp, calls[q].job.target)
    ensures KeyOk(calls', Moved(cp, calls[q]), calls[q].job.target)
  {
    var key, cp' := calls[q].job.target, Moved(cp, calls[q]);
    RemoveKeepsCreations(calls, calls', q, key);
    assert RemovalOf(calls, key, q) && RemovalOf(calls', key, q);
    assert forall r: nat :: r != q && RemovalOf(calls, key, r) ==> RemovalOf(calls', key, r) && calls'[r] == calls[r];
    if key in cp'.store {
      var r: nat :| MadeBy(cp.byFseid, calls, key, cp.store[key], r) && calls[r].pc.Done?;
      assert MadeBy(cp.byFseid, calls', key, cp.store[key], r);
    }
  }

  lemma PatientMoves(calls: seq<Call>, calls': seq<Call>, q: nat, cp: CpState)
    requires CallMoves(calls, calls', q) && SeidsOk(calls, cp)
    requires KeyPatient(calls, cp, KeyOf(calls[q]))
    ensures KeyPatient(calls', Moved(cp, calls[q]), KeyOf(calls[q]))
  {
    var key := KeyOf(calls[q]);
    if calls[q].job.Create? {
      NoPast(calls, cp, q);
      CreateKeepsRemovals(calls, calls', q, key);
    } else {
      RemoveKeepsCreations(calls, calls', q, key);
      assert forall r: nat :: r != q && RemovalOf(calls', key, r) ==> RemovalOf(calls, key, r) && calls'[r] == calls[r];
    }
  }

  // ----- every step -----

  /** The step is the table or store update of a call on k. */
  ghost predicate Writes(n: Node, act: Action, k: u64) {
    (act.Apply? || act.Commit?) && act.q < |n.calls| && KeyOf(n.calls[act.q]) == k
  }

  /** Every other step leaves k alone. */
  lemma QuietStep(n: Node, n': Node, act: Action, k: u64)
    requires Shaped(n, n', act) && n.role.CP? && !Writes(n, act, k)
    ensures n'.role.CP? && Quiet(n.calls, n'.calls, n.role.cp, n'.role.cp, k)
  {
    if act.Apply? || act.Commit? {
      MoveShape(n, n', act);
      MovedElsewhere(n.calls, n'.calls, act.q, n.role.cp, k);
    } else if IsCallAction(act) {
      QuietCall(n, n.calls[act.q], act);
    }
  }

  lemma QuietCall(n: Node, c: Call, act: Action)
    requires IsCallAction(act) && CanCall(n, c, act) && n.role.CP? && !act.Apply? && !act.Commit?
    ensures !Updated(c) && !Updated(CallAfter(n, c, act)) && CallAfter(n, c, act).job == c.job
    ensures var role' := RoleAfter(n.role, c, act);
            role'.CP? && role'.cp.byFseid == n.role.cp.byFseid && role'.cp.commits == n.role.cp.commits
            && role'.cp.sessions == n.role.cp.sessions && role'.cp.store == n.role.cp.store
  {
  }

  lemma MoveShape(n: Node, n': Node, act: Action)
    requires Shaped(n, n', act) && n.role.CP? && (act.Apply? || act.Commit?)
    ensures CallMoves(n.calls, n'.calls, act.q)
    ensures n'.role.CP? && n'.role.cp.(commits := n.role.cp.commits) == Moved(n.role.cp, n.calls[act.q])
  {
  }

  lemma JobsStay(n: Node, n': Node, act: Action, q: nat)
    requires Shaped(n, n', act) && q < |n.calls|
    ensures q < |n'.calls| && n'.calls[q].job == n.calls[q].job
  {
  }

  /** Only the start of a deletion gives a key a new deletion, and the table has the key then. */
  lemma TargetsStep(n: Node, n': Node, act: Action, k: u64)
    requires Shaped(n, n', act) && WasTargeted(n'.calls, k)
    ensures WasTargeted(n.calls, k) || (act.BeginRemove? && act.target == k && n.role.CP? && k in n.role.cp.sessions)
  {
    var q: nat :| RemovalOf(n'.calls, k, q);
    if q < |n.calls| {
      JobsStay(n, n', act, q);
      assert RemovalOf(n.calls, k, q);
    } else {
      assert BegunBy(n.role, n'.calls[q], act);
    }
  }

  lemma SeidsReplace(calls: seq<Call>, q: nat, c': Call, cp: CpState, cp': CpState)
    requires SeidsOk(calls, cp) && q < |calls| && c'.job == calls[q].job
    requires cp'.nextSeid == 1 + cp'.allocs && cp.nextSeid <= cp'.nextSeid
    requires Updated(c') ==> c'.answer.Some?
    requires HasSeid(c') ==> if HasSeid(calls[q]) then c'.seid == calls[q].seid
                             else c'.seid == cp.nextSeid < cp'.nextSeid
    ensures SeidsOk(calls[q := c'], cp')
  {
  }

  lemma SeidsStep(n: Node, n': Node, act: Action)
    requires LocalOk(n) && Shaped(n, n', act) && n.role.CP? && n'.role.CP?
    requires SeidsOk(n.calls, n.role.cp) && SeidsLeft(n'.role.cp)
    ensures SeidsOk(n'.calls, n'.role.cp)
  {
    if IsCallAction(act) {
      var c := n.calls[act.q];
      assert CallOk(c, n.drawn);
      SeidsCall(n, c, act);
      SeidsReplace(n.calls, act.q, CallAfter(n, c, act), n.role.cp, n'.role.cp);
    }
  }

  lemma SeidsCall(n: Node, c: Call, act: Action)
    requires IsCallAction(act) && CanCall(n, c, act) && n.role.CP? && CallOk(c, n.drawn)
    requires n.role.cp.nextSeid == 1 + n.role.cp.allocs
    requires SeidsLeft(RoleAfter(n.role, c, act).cp)
    ensures var c', cp' := CallAfter(n, c, act), RoleAfter(n.role, c, act).cp;
            && c'.job == c.job
            && cp'.nextSeid == 1 + cp'.allocs && n.role.cp.nextSeid <= cp'.nextSeid
            && (Updated(c') ==> c'.answer.Some?)
            && (HasSeid(c') ==> if HasSeid(c) then c'.seid == c.seid else c'.seid == n.role.cp.nextSeid < cp'.nextSeid)
  {
  }

  /** Roles do not change, and the SEID counter does not go back. */
  lemma StaysCp(n: Node, n': Node, act: Action)
    requires Shaped(n, n', act)
    ensures n.role.CP? <==> n'.role.CP?
    ensures n.role.CP? ==> n'.role.cp.byFseid == n.role.cp.byFseid
    ensures n.role.CP? && SeidsLeft(n'.role.cp) ==> SeidsLeft(n.role.cp)
  {
  }

  /** Every step keeps the tables in order until the SEID counter wraps. */
  lemma CpStep(n: Node, act: Action)
    requires LocalOk(n) && CpOk(n) && Enabled(n, act)
    ensures CpOk(Next(n, act))
  {
    StepShape(n, act);
    CpShaped(n, Next(n, act), act);
  }

  lemma CpShaped(n: Node, n': Node, act: Action)
    requires LocalOk(n) && CpOk(n) && Shaped(n, n', act)
    ensures CpOk(n')
  {
    StaysCp(n, n', act);
    if n'.role.CP? && SeidsLeft(n'.role.cp) {
      SeidsStep(n, n', act);
      forall k ensures KeyOk(n'.calls, n'.role.cp, k) {
        KeyStep(n, n', act, k);
      }
    }
  }

  lemma KeyStep(n: Node, n': Node, act: Action, k: u64)
    requires Shaped(n, n', act) && n.role.CP? && SeidsOk(n.calls, n.role.cp) && KeyOk(n.calls, n.role.cp, k)
    ensures n'.role.CP? && KeyOk(n'.calls, n'.role.cp, k)
  {
    if Writes(n, act, k) {
      MoveShape(n, n', act);
      if n.calls[act.q].job.Create? {
        CreateMoves(n.calls, n'.calls, act.q, n.role.cp);
      } else {
        RemoveMoves(n.calls, n'.calls, act.q, n.role.cp);
      }
    } else {
      QuietStep(n, n', act, k);
      if WasTargeted(n'.calls, k) {
        TargetsStep(n, n', act, k);
      }
      KeyStays(n.calls, n'.calls, n.role.cp, n'.role.cp, k);
    }
  }

  /** Every step but the start of a deletion on a SEID not yet returned keeps erasing final. */
  lemma PatientStep(n: Node, act: Action)
    requires LocalOk(n) && CpOk(n) && CpPatient(n) && Enabled(n, act)
    requires act.BeginRemove? ==> WasReturned(n.calls, act.target)
    ensures CpPatient(Next(n, act))
  {
    StepShape(n, act);
    PatientShaped(n, Next(n, act), act);
  }

  lemma PatientShaped(n: Node, n': Node, act: Action)
    requires CpOk(n) && CpPatient(n) && Shaped(n, n', act)
    requires act.BeginRemove? ==> WasReturned(n.calls, act.target)
    ensures CpPatient(n')
  {
    StaysCp(n, n', act);
    if n'.role.CP? && SeidsLeft(n'.role.cp) {
      forall k ensures KeyPatient(n'.calls, n'.role.cp, k) {
        assert KeyPatient(n.calls, n.role.cp, k);
        PatientKeyStep(n, n', act, k);
      }
    }
  }

  lemma PatientKeyStep(n: Node, n': Node, act: Action, k: u64)
    requires Shaped(n, n', act) && n.role.CP? && SeidsOk(n.calls, n.role.cp) && KeyPatient(n.calls, n.role.cp, k)
    requires act.BeginRemove? ==> WasReturned(n.calls, act.target)
    ensures n'.role.CP? && KeyPatient(n'.calls, n'.role.cp, k)
  {
    if Writes(n, act, k) {
      MoveShape(n, n', act);
      PatientMoves(n.calls, n'.calls, act.q, n.role.cp);
    } else {
      QuietStep(n, n', act, k);
      FactsSame(n.calls, n'.calls, k);
      if WasTargeted(n'.calls, k) {
        TargetsStep(n, n', act, k);
      }
    }
  }

  // ----- what it means -----

  ghost predicate NoneBetween(n: Node) {
    forall q :: 0 <= q < |n.calls| ==> !n.calls[q].pc.Applied?
  }

  /** Every key is positive, below the next SEID, and its session's own. */
  lemma KeysOfTable(n: Node, k: u64)
    requires CpOk(n) && n.role.CP? && SeidsLeft(n.role.cp) && k in n.role.cp.sessions
    ensures 1 <= k < n.role.cp.nextSeid && n.role.cp.sessions[k].localSeid == k
  {
    var cp := n.role.cp;
    assert KeyOk(n.calls, cp, k);
    var q: nat :| MadeBy(cp.byFseid, n.calls, k, cp.sessions[k], q);
    assert HasSeid(n.calls[q]);
  }

  /** With no call between its two updates, the store has every session of the table, and
      what it has beyond them was deleted. */
  lemma StoreCovers(n: Node, k: u64)
    requires CpOk(n) && n.role.CP? && SeidsLeft(n.role.cp) && NoneBetween(n)
    ensures k in n.role.cp.sessions ==> k in n.role.cp.store && n.role.cp.store[k] == n.role.cp.sessions[k]
    ensures k in n.role.cp.store && k !in n.role.cp.sessions ==> WasErased(n.calls, k)
  {
    var cp := n.role.cp;
    assert KeyOk(n.calls, cp, k);
    if k in cp.sessions {
      var q: nat :| MadeBy(cp.byFseid, n.calls, k, cp.sessions[k], q);
      assert CreatedBy(n.calls, k, q) && n.calls[q].pc.Done?;
      assert !WasErased(n.calls, k) by {
        assert !WasDropped(n.calls, k);
      }
      var r: nat :| MadeBy(cp.byFseid, n.calls, k, cp.store[k], r) && n.calls[r].pc.Done?;
      OneCreator(n.calls, cp, k, q, r);
    } else if k in cp.store {
      var r: nat :| MadeBy(cp.byFseid, n.calls, k, cp.store[k], r) && n.calls[r].pc.Done?;
      assert WasCreated(n.calls, k);
      var d: nat :| RemovalOf(n.calls, k, d) && Updated(n.calls[d]);
      assert n.calls[d].pc.Done?;
    }
  }

  /** Only an accepted call writes the session table or the store, each in its own step. */
  lemma OnlyAcceptedCallsWrite(n: Node, act: Action)
    requires LocalOk(n) && Enabled(n, act) && n.role.CP?
    ensures Next(n, act).role.CP?
    ensures Next(n, act).role.cp.sessions != n.role.cp.sessions ==> act.Apply? && AcceptedCall(n.calls[act.q])
    ensures Next(n, act).role.cp.store != n.role.cp.store ==> act.Commit? && AcceptedCall(n.calls[act.q])
  {
    StepShape(n, act);
    WritesShaped(n, Next(n, act), act);
  }

  lemma WritesShaped(n: Node, n': Node, act: Action)
    requires Shaped(n, n', act) && n.role.CP?
    ensures n'.role.CP?
    ensures n'.role.cp.sessions != n.role.cp.sessions ==> act.Apply? && act.q < |n.calls| && AcceptedCall(n.calls[act.q])
    ensures n'.role.cp.store != n.role.cp.store ==> act.Commit? && act.q < |n.calls| && AcceptedCall(n.calls[act.q])
  {
    if IsCallAction(act) && !act.Apply? && !act.Commit? {
      QuietCall(n, n.calls[act.q], act);
    }
  }
}
