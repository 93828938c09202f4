/** Which sessions deletions remove, for control planes that take the remote SEID from the F-SEID
    payload of the establishment response (pkg/cp/cp.go, pkg/up/handlers.go). */
module Deletions {
  import opened Bytes
  import opened InformationElements
  import opened Messages
  import opened UserPlane
  import opened Network
  import opened LocalInvariants
  import opened Provenance
  import opened InvariantSteps
  import opened CpTables
  import opened CpOrder

  // ----- the session a deletion is meant for -----

  /** Deletion d, processed at b, is for the session that create call p was told of by b: the one
      of log entry j. */
  ghost predicate MeantBy(nodes: map<Addr, Node>, b: Addr, d: Deletion, j: nat, p: nat) {
    d.tag.node in nodes && nodes[d.tag.node].role.CP? &&
    var n := nodes[d.tag.node];
    && n.role.cp.byFseid && SeidsLeft(n.role.cp)
    && Undoes(true, n.calls, d.tag.call, p)
    && n.calls[p].dst == b && n.calls[p].answer.value.tag == Tag(d.tag.node, p, Answering(j))
  }

  ghost predicate MeantFor(nodes: map<Addr, Node>, b: Addr, d: Deletion, j: nat) {
    exists p: nat :: MeantBy(nodes, b, d, j, p)
  }

  /** Two deletions of the same session of the same control plane. */
  ghost predicate SameSession(nodes: map<Addr, Node>, d: Deletion, d': Deletion) {
    && d.tag.node == d'.tag.node && d.tag.node in nodes
    && var calls := nodes[d.tag.node].calls;
    && d.tag.call < |calls| && d'.tag.call < |calls| && calls[d.tag.call].job.Remove? && calls[d'.tag.call].job.Remove?
    && calls[d.tag.call].job.target == calls[d'.tag.call].job.target
  }

  // ----- once a deletion is processed, its session is gone -----

  ghost predicate GoneOk(nodes: map<Addr, Node>, b: Addr, dels: seq<Deletion>) {
    forall i: nat, j: nat {:trigger GoneBy(dels, j, i)} :: i < |dels| && MeantFor(nodes, b, dels[i], j) ==> GoneBy(dels, j, i)
  }

  ghost predicate GoneBy(dels: seq<Deletion>, j: nat, i: nat) {
    exists h: nat :: h <= i && HitBy(dels, j, h)
  }

  ghost predicate AllGoneOk(nodes: map<Addr, Node>) {
    forall b {:trigger GoneOk(nodes, b, nodes[b].role.dels)} ::
      b in nodes && nodes[b].role.UP? ==> GoneOk(nodes, b, nodes[b].role.dels)
  }

  /** The create call of a session is the same before and after a step. */
  lemma UndoneSame(n: Node, n': Node, act: Action, r: nat, p: nat)
    requires CpInv(n) && CpInv(n') && Shaped(n, n', act) && n.role.CP? && n'.role.CP?
    requires r < |n.calls| && n'.role.cp.byFseid && SeidsLeft(n'.role.cp) && Undoes(true, n'.calls, r, p)
    ensures n.role.cp.byFseid && SeidsLeft(n.role.cp) && Undoes(true, n.calls, r, p)
    ensures n'.calls[p].answer == n.calls[p].answer && n'.calls[p].dst == n.calls[p].dst
  {
    StaysCp(n, n', act);
    JobsStay(n, n', act, r);
    var o: nat :| Undoes(n.role.cp.byFseid, n.calls, r, o);
    UpdatedStays(n, n', act, o);
    OneUndone(n.calls, n'.calls, n'.role.cp, r, o, p);
  }

  lemma OneUndone(calls: seq<Call>, calls': seq<Call>, cp': CpState, r: nat, o: nat, p: nat)
    requires SeidsOk(calls', cp') && Undoes(true, calls, r, o) && Undoes(true, calls', r, p)
    requires calls'[r].job == calls[r].job && o < |calls'| && SameUpdated(calls[o], calls'[o])
    ensures o == p
  {
    OneCreator(calls', cp', calls[r].job.target, o, p);
  }

  lemma MeantSame(nodes: map<Addr, Node>, nodes': map<Addr, Node>, x: Addr, act: Action, b: Addr, d: Deletion, j: nat)
    requires x in nodes && x in nodes' && nodes' == nodes[x := nodes'[x]] && Shaped(nodes[x], nodes'[x], act)
    requires CpInv(nodes[x]) && CpInv(nodes'[x])
    requires d.tag.node in nodes && d.tag.call < |nodes[d.tag.node].calls|
    requires MeantFor(nodes', b, d, j)
    ensures MeantFor(nodes, b, d, j)
  {
    var p: nat :| MeantBy(nodes', b, d, j, p);
    if d.tag.node == x {
      StaysCp(nodes[x], nodes'[x], act);
      UndoneSame(nodes[x], nodes'[x], act, d.tag.call, p);
    }
    assert MeantBy(nodes, b, d, j, p);
  }

  /** The deletion carries the SEID of the entry it is meant for. */
  lemma MeantSeid(nodes: map<Addr, Node>, b: Addr, log: seq<Creation>, d: Deletion, j: nat, p: nat)
    requires AllNodesOk(nodes)
    requires MeantBy(nodes, b, d, j, p) && b in nodes && nodes[b].role.UP? && log == nodes[b].role.log
    requires DelOk(nodes, b, log, d)
    ensures j < |log| && log[j].seid == d.seid && log[j].tag == Tag(d.tag.node, p, Asking)
  {
    var n := nodes[d.tag.node];
    var c := n.calls[p];
    var g := c.answer.value;
    assert NodeOk(nodes, d.tag.node, n);
    assert GotOk(nodes, d.tag.node, g) && CallOk(c, n.drawn);
    AcceptedCreateLogged(nodes, d.tag.node, p, b, j);
    FseidCarried(c.msg.h.seqNum, 0, REQUEST_ACCEPTED, log[j].seid);
  }

  /** The answer that call p of node a accepted is entry j of the log at its destination b. */
  lemma AcceptedCreateLogged(nodes: map<Addr, Node>, a: Addr, p: nat, b: Addr, j: nat)
    requires a in nodes && NodeOk(nodes, a, nodes[a]) && p < |nodes[a].calls| && AcceptedCall(nodes[a].calls[p])
    requires nodes[a].calls[p].job.Create? && nodes[a].calls[p].dst == b
    requires nodes[a].calls[p].answer.value.tag == Tag(a, p, Answering(j))
    ensures var c := nodes[a].calls[p];
            b in nodes && nodes[b].role.UP? && Logged(nodes[b].role.log, j, Tag(a, p, Asking), c.msg.h.seqNum, c.answer.value.msg)
  {
    var c := nodes[a].calls[p];
    assert GotOk(nodes, a, c.answer.value) && CallOk(c, nodes[a].drawn);
    RequestShape(c.job, c.msg.h.seqNum);
  }

  /** A step adds at most one deletion, and its SEID is free then. */
  lemma DelsStep(n: Node, act: Action)
    requires LocalOk(n) && Enabled(n, act) && n.role.UP?
    ensures var role' := Next(n, act).role;
            && role'.UP? && |n.role.dels| <= |role'.dels| <= |n.role.dels| + 1 && n.role.dels <= role'.dels
            && (|role'.dels| > |n.role.dels| ==> role'.dels[|n.role.dels|].seid !in role'.up.sessions)
  {
    if act.Dispatch? {
      HandleDels(n.role, n.rx.got);
    } else if act.Receive? {
      ReceiveOk(n, act.d, act.stale);
    }
  }

  lemma HandleDels(role: Role, g: Got)
    requires role.UP? && HasRoom(role.up.sessions)
    ensures var e := Handle(role, g);
            e.Effect? ==>
              (&& e.role.UP? && |role.dels| <= |e.role.dels| <= |role.dels| + 1 && role.dels <= e.role.dels
               && (|e.role.dels| > |role.dels| ==> e.role.dels[|role.dels|].seid !in e.role.up.sessions))
  {
  }

  lemma GoneStays(dels: seq<Deletion>, dels': seq<Deletion>, j: nat, i: nat)
    requires dels <= dels' && GoneBy(dels, j, i)
    ensures GoneBy(dels', j, i)
  {
    var h: nat :| h <= i && HitBy(dels, j, h);
    assert HitBy(dels', j, h);
  }

  /** The deletion processed last has ended the session it was meant for, or found it ended. */
  lemma LastGone(nodes: map<Addr, Node>, b: Addr, j: nat)
    requires AllNodesOk(nodes)
    requires b in nodes && nodes[b].role.UP? && nodes[b].role.dels != []
    requires var dels := nodes[b].role.dels;
             dels[|dels| - 1].seid !in nodes[b].role.up.sessions && MeantFor(nodes, b, dels[|dels| - 1], j)
    ensures GoneBy(nodes[b].role.dels, j, |nodes[b].role.dels| - 1)
  {
    var role := nodes[b].role;
    var d := role.dels[|role.dels| - 1];
    assert NodeOk(nodes, b, nodes[b]);
    assert DelOk(nodes, b, role.log, d);
    var p: nat :| MeantBy(nodes, b, d, j, p);
    MeantSeid(nodes, b, role.log, d, j, p);
    assert FateOk(role.up, role.log, role.dels, j) && !Alive(role.up, role.log, j);
    var h: nat :| HitBy(role.dels, j, h);
  }

  lemma GoneStep(s: State, s': State, x: Addr, act: Action, b: Addr)
    requires Inv(s) && Inv(s') && StepAt(s, s', x, act) && AllGoneOk(s.nodes)
    requires CpInv(s.nodes[x]) && CpInv(s'.nodes[x])
    requires b in s.nodes && s.nodes[b].role.UP? && b in s'.nodes && s'.nodes[b].role.UP?
    ensures GoneOk(s'.nodes, b, s'.nodes[b].role.dels)
  {
    assert NodeOk(s.nodes, x, s.nodes[x]) && NodeOk(s.nodes, b, s.nodes[b]);
    StepShape(s.nodes[x], act);
    if b == x {
      DelsStep(s.nodes[x], act);
    }
    GoneAfter(s.nodes, s'.nodes, x, act, b);
  }

  /** A step that leaves the deletions at b as they are, or adds one whose SEID is free then. */
  ghost predicate DelsGrow(nodes: map<Addr, Node>, nodes': map<Addr, Node>, b: Addr) {
    && b in nodes && b in nodes' && nodes[b].role.UP? && nodes'[b].role.UP?
    && var dels, dels' := nodes[b].role.dels, nodes'[b].role.dels;
    && dels <= dels' && |dels'| <= |dels| + 1
    && (|dels'| > |dels| ==> dels'[|dels|].seid !in nodes'[b].role.up.sessions)
  }

  /** A step of node x, as far as the deletions at b are concerned. */
  ghost predicate DelsStepped(nodes: map<Addr, Node>, nodes': map<Addr, Node>, x: Addr, act: Action, b: Addr) {
    && AllNodesOk(nodes) && AllNodesOk(nodes') && DelsGrow(nodes, nodes', b)
    && x in nodes && x in nodes' && nodes' == nodes[x := nodes'[x]] && Shaped(nodes[x], nodes'[x], act)
    && CpInv(nodes[x]) && CpInv(nodes'[x])
  }

  lemma GoneAfter(nodes: map<Addr, Node>, nodes': map<Addr, Node>, x: Addr, act: Action, b: Addr)
    requires DelsStepped(nodes, nodes', x, act, b) && GoneOk(nodes, b, nodes[b].role.dels)
    ensures GoneOk(nodes', b, nodes'[b].role.dels)
  {
    var dels' := nodes'[b].role.dels;
    forall i: nat, j: nat | i < |dels'| && MeantFor(nodes', b, dels'[i], j) ensures GoneBy(dels', j, i) {
      if i < |nodes[b].role.dels| {
        EarlierGone(nodes, nodes', x, act, b, i, j);
      } else {
        LastGone(nodes', b, j);
      }
    }
  }

  lemma EarlierGone(nodes: map<Addr, Node>, nodes': map<Addr, Node>, x: Addr, act: Action, b: Addr, i: nat, j: nat)
    requires DelsStepped(nodes, nodes', x, act, b) && GoneOk(nodes, b, nodes[b].role.dels)
    requires i < |nodes[b].role.dels| && MeantFor(nodes', b, nodes'[b].role.dels[i], j)
    ensures GoneBy(nodes'[b].role.dels, j, i)
  {
    assert NodeOk(nodes, b, nodes[b]) && nodes'[b].role.dels[i] == nodes[b].role.dels[i];
    OldGone(nodes, nodes', x, act, b, i, j);
    GoneStays(nodes[b].role.dels, nodes'[b].role.dels, j, i);
  }

  lemma OldGone(nodes: map<Addr, Node>, nodes': map<Addr, Node>, x: Addr, act: Action, b: Addr, i: nat, j: nat)
    requires b in nodes && NodeOk(nodes, b, nodes[b])
    requires x in nodes && x in nodes' && nodes' == nodes[x := nodes'[x]] && Shaped(nodes[x], nodes'[x], act)
    requires CpInv(nodes[x]) && CpInv(nodes'[x])
    requires nodes[b].role.UP? && GoneOk(nodes, b, nodes[b].role.dels)
    requires i < |nodes[b].role.dels| && MeantFor(nodes', b, nodes[b].role.dels[i], j)
    ensures GoneBy(nodes[b].role.dels, j, i)
  {
    var d := nodes[b].role.dels[i];
    assert DelOk(nodes, b, nodes[b].role.log, d);
    MeantSame(nodes, nodes', x, act, b, d, j);
  }

  // ----- which deletions remove which sessions -----

  /** The conditions under which deletions can be told apart: control planes that go by the F-SEID
      and have SEIDs left, create calls with numbers of their own, and deletions addressed to
      where the session was created. */
  ghost predicate Orderly(nodes: map<Addr, Node>) {
    forall a {:trigger OrderlyNode(nodes[a])} :: a in nodes && nodes[a].role.CP? ==> OrderlyNode(nodes[a])
  }

  ghost predicate OrderlyNode(n: Node)
    requires n.role.CP?
  {
    && n.role.cp.byFseid && SeidsLeft(n.role.cp)
    && (forall p :: 0 <= p < |n.calls| && n.calls[p].job.Create? && AcceptedCall(n.calls[p]) ==> NumberIsOwn(n, p))
    && (forall r: nat, p: nat :: Undoes(true, n.calls, r, p) ==> n.calls[r].dst == n.calls[p].dst)
  }

  ghost predicate AllOk(nodes: map<Addr, Node>) {
    && AllNodesOk(nodes) && AllCpInv(nodes) && AllGoneOk(nodes)
  }

  lemma MeantExists(nodes: map<Addr, Node>, b: Addr, d: Deletion) returns (j: nat)
    requires AllOk(nodes) && Orderly(nodes) && b in nodes && nodes[b].role.UP? && d in nodes[b].role.dels
    ensures MeantFor(nodes, b, d, j)
  {
    assert NodeOk(nodes, b, nodes[b]) && DelOk(nodes, b, nodes[b].role.log, d);
    var a := d.tag.node;
    var n := nodes[a];
    assert NodeOk(nodes, a, n) && CpInv(n) && OrderlyNode(n);
    var p: nat :| Undoes(true, n.calls, d.tag.call, p);
    LocalEverywhere(nodes);
    OwnAnswer(nodes, a, p);
    j := n.calls[p].answer.value.tag.kind.entry;
    assert MeantBy(nodes, b, d, j, p);
  }

  /** Deletions are meant for the same entry if and only if they are of the same session. */
  lemma MeantSameEntry(nodes: map<Addr, Node>, b: Addr, d: Deletion, d': Deletion, j: nat, j': nat)
    requires AllOk(nodes) && b in nodes && nodes[b].role.UP? && d in nodes[b].role.dels && d' in nodes[b].role.dels
    requires MeantFor(nodes, b, d, j) && MeantFor(nodes, b, d', j')
    ensures j == j' <==> SameSession(nodes, d, d')
  {
    var log := nodes[b].role.log;
    assert NodeOk(nodes, b, nodes[b]) && DelOk(nodes, b, log, d) && DelOk(nodes, b, log, d');
    var p: nat :| MeantBy(nodes, b, d, j, p);
    var p': nat :| MeantBy(nodes, b, d', j', p');
    MeantSeid(nodes, b, log, d, j, p);
    MeantSeid(nodes, b, log, d', j', p');
    if SameSession(nodes, d, d') {
      var n := nodes[d.tag.node];
      assert CpInv(n);
      OneCreator(n.calls, n.role.cp, n.calls[d.tag.call].job.target, p, p');
    }
  }

  /** A deletion that removes a session removes the one it is meant for. */
  ghost predicate HitsOwn(nodes: map<Addr, Node>, b: Addr, d: Deletion) {
    d.hit.Some? ==> MeantFor(nodes, b, d, d.hit.value)
  }

  ghost predicate AllHitOwn(nodes: map<Addr, Node>, b: Addr, dels: seq<Deletion>) {
    forall i :: 0 <= i < |dels| ==> HitsOwn(nodes, b, dels[i])
  }

  /** A deletion of a session of which one was processed before finds its SEID free. */
  ghost predicate RepeatsMiss(nodes: map<Addr, Node>, dels: seq<Deletion>) {
    forall i, i' :: 0 <= i' < i < |dels| && SameSession(nodes, dels[i'], dels[i]) ==> dels[i].hit.None?
  }

  // The same on numbers: the i-th deletion is meant for entry meant[i] and hits entry hits[i].

  ghost predicate OwnHit(hits: seq<Option<nat>>, meant: seq<nat>, i: int)
    requires |hits| == |meant| && 0 <= i < |hits|
  {
    hits[i].Some? ==> hits[i].value == meant[i]
  }

  /** An entry is hit once, and by the time a deletion is processed its entry has been hit. */
  ghost predicate HitsOk(hits: seq<Option<nat>>, meant: seq<nat>) {
    && |hits| == |meant|
    && (forall i, i' :: 0 <= i' < i < |hits| && hits[i].Some? ==> hits[i'] != hits[i])
    && (forall i :: 0 <= i < |hits| ==> HitUpTo(hits, meant[i], i))
  }

  ghost predicate HitUpTo(hits: seq<Option<nat>>, j: nat, i: int) {
    0 <= i < |hits| && exists h :: 0 <= h <= i && hits[h] == Some(j)
  }

  ghost predicate RepeatsAreNone(hits: seq<Option<nat>>, meant: seq<nat>)
    requires |hits| == |meant|
  {
    forall i, i' :: 0 <= i' < i < |hits| && meant[i'] == meant[i] ==> hits[i].None?
  }

  lemma {:induction false} NoRepeatHitsOwn(hits: seq<Option<nat>>, meant: seq<nat>, i: nat)
    requires HitsOk(hits, meant) && RepeatsAreNone(hits, meant) && i < |hits|
    ensures OwnHit(hits, meant, i)
  {
    assert HitUpTo(hits, meant[i], i);
    var h :| 0 <= h <= i && hits[h] == Some(meant[i]);
    if h < i {
      NoRepeatHitsOwn(hits, meant, h);
    }
  }

  lemma OwnHitsExactly(hits: seq<Option<nat>>, meant: seq<nat>)
    requires HitsOk(hits, meant)
    ensures (forall i :: 0 <= i < |hits| ==> OwnHit(hits, meant, i)) <==> RepeatsAreNone(hits, meant)
  {
    if RepeatsAreNone(hits, meant) {
      forall i | 0 <= i < |hits| ensures OwnHit(hits, meant, i) {
        NoRepeatHitsOwn(hits, meant, i);
      }
    }
    if forall i :: 0 <= i < |hits| ==> OwnHit(hits, meant, i) {
      forall i, i' | 0 <= i' < i < |hits| && meant[i'] == meant[i] ensures hits[i].None? {
        assert HitUpTo(hits, meant[i'], i');
        var h :| 0 <= h <= i' && hits[h] == Some(meant[i']);
        assert OwnHit(hits, meant, i) && hits[h] != hits[i];
      }
    }
  }

  function Hits(dels: seq<Deletion>): (hits: seq<Option<nat>>)
    ensures |hits| == |dels| && forall i :: 0 <= i < |dels| ==> hits[i] == dels[i].hit
  {
    seq(|dels|, i requires 0 <= i < |dels| => dels[i].hit)
  }

  /** What the deletions processed at b are meant for. */
  ghost predicate Meanings(nodes: map<Addr, Node>, b: Addr, dels: seq<Deletion>, meant: seq<nat>) {
    |meant| == |dels| && forall i :: 0 <= i < |dels| ==> MeantFor(nodes, b, dels[i], meant[i])
  }

  ghost predicate HasMeaning(nodes: map<Addr, Node>, b: Addr, d: Deletion) {
    exists j: nat :: MeantFor(nodes, b, d, j)
  }

  ghost function Pick(nodes: map<Addr, Node>, b: Addr, d: Deletion): (j: nat)
    requires HasMeaning(nodes, b, d)
    ensures MeantFor(nodes, b, d, j)
  {
    var j: nat :| MeantFor(nodes, b, d, j);
    j
  }

  lemma FindMeanings(nodes: map<Addr, Node>, b: Addr, dels: seq<Deletion>) returns (meant: seq<nat>)
    requires forall i :: 0 <= i < |dels| ==> HasMeaning(nodes, b, dels[i])
    ensures Meanings(nodes, b, dels, meant)
  {
    meant := seq(|dels|, i requires 0 <= i < |dels| => Pick(nodes, b, dels[i]));
  }

  lemma MeaningsHit(nodes: map<Addr, Node>, b: Addr, meant: seq<nat>)
    requires AllOk(nodes) && b in nodes && nodes[b].role.UP? && Meanings(nodes, b, nodes[b].role.dels, meant)
    ensures HitsOk(Hits(nodes[b].role.dels), meant)
  {
    var dels := nodes[b].role.dels;
    var hits := Hits(dels);
    assert GoneOk(nodes, b, dels) && NodeOk(nodes, b, nodes[b]);
    forall i, i' | 0 <= i' < i < |hits| && hits[i].Some? ensures hits[i'] != hits[i] {
      HitOnce(nodes, b, i, i');
    }
    forall i | 0 <= i < |hits| ensures HitUpTo(hits, meant[i], i) {
      assert GoneBy(dels, meant[i], i);
      var h: nat :| h <= i && HitBy(dels, meant[i], h);
      assert hits[h] == Some(meant[i]);
    }
  }

  lemma HitOnce(nodes: map<Addr, Node>, b: Addr, i: nat, i': nat)
    requires b in nodes && nodes[b].role.UP? && NodeOk(nodes, b, nodes[b])
    requires i' < i < |nodes[b].role.dels| && nodes[b].role.dels[i].hit.Some?
    ensures nodes[b].role.dels[i'].hit != nodes[b].role.dels[i].hit
  {
    var role := nodes[b].role;
    assert DelOk(nodes, b, role.log, role.dels[i]);
    var j := role.dels[i].hit.value;
    assert FateOk(role.up, role.log, role.dels, j) && HitBy(role.dels, j, i);
    assert !HitBy(role.dels, j, i');
  }

  lemma MeaningsSame(nodes: map<Addr, Node>, b: Addr, meant: seq<nat>)
    requires AllOk(nodes) && b in nodes && nodes[b].role.UP? && Meanings(nodes, b, nodes[b].role.dels, meant)
    ensures var dels := nodes[b].role.dels;
            && (RepeatsMiss(nodes, dels) <==> RepeatsAreNone(Hits(dels), meant))
            && (forall i :: 0 <= i < |dels| ==> (HitsOwn(nodes, b, dels[i]) <==> OwnHit(Hits(dels), meant, i)))
            && (forall i, j: nat :: 0 <= i < |dels| ==> (MeantFor(nodes, b, dels[i], j) <==> meant[i] == j))
  {
    var dels := nodes[b].role.dels;
    forall i, i' | 0 <= i' <= i < |dels| ensures SameSession(nodes, dels[i'], dels[i]) <==> meant[i'] == meant[i] {
      MeantSameEntry(nodes, b, dels[i'], dels[i], meant[i'], meant[i]);
    }
    forall i, j: nat | 0 <= i < |dels| ensures MeantFor(nodes, b, dels[i], j) <==> meant[i] == j {
      if MeantFor(nodes, b, dels[i], j) {
        assert SameSession(nodes, dels[i], dels[i]);
        MeantSameEntry(nodes, b, dels[i], dels[i], meant[i], j);
      }
    }
  }

  /** Deletions remove only the sessions they are meant for if and only if repeated ones find
      their SEID free; and then the sessions in use are those that no processed deletion was
      meant for. */
  lemma DeletionsExactly(nodes: map<Addr, Node>, b: Addr)
    requires AllOk(nodes) && Orderly(nodes) && b in nodes && nodes[b].role.UP?
    ensures AllHitOwn(nodes, b, nodes[b].role.dels) <==> RepeatsMiss(nodes, nodes[b].role.dels)
    ensures RepeatsMiss(nodes, nodes[b].role.dels) ==>
              forall j: nat :: j < |nodes[b].role.log| ==>
                (Alive(nodes[b].role.up, nodes[b].role.log, j) <==> !Undone(nodes, b, j))
  {
    var dels := nodes[b].role.dels;
    forall i | 0 <= i < |dels| ensures HasMeaning(nodes, b, dels[i]) {
      var j := MeantExists(nodes, b, dels[i]);
    }
    var meant := FindMeanings(nodes, b, dels);
    MeaningsHit(nodes, b, meant);
    MeaningsSame(nodes, b, meant);
    OwnHitsExactly(Hits(dels), meant);
    if RepeatsMiss(nodes, dels) {
      AllAliveExactly(nodes, b);
    }
  }

  lemma AllAliveExactly(nodes: map<Addr, Node>, b: Addr)
    requires AllOk(nodes) && b in nodes && nodes[b].role.UP? && AllHitOwn(nodes, b, nodes[b].role.dels)
    ensures forall j: nat :: j < |nodes[b].role.log| ==>
              (Alive(nodes[b].role.up, nodes[b].role.log, j) <==> !Undone(nodes, b, j))
  {
    assert NodeOk(nodes, b, nodes[b]) && GoneOk(nodes, b, nodes[b].role.dels);
    forall j: nat | j < |nodes[b].role.log|
      ensures Alive(nodes[b].role.up, nodes[b].role.log, j) <==> !Undone(nodes, b, j)
    {
      AliveExactly(nodes, b, j);
    }
  }

  /** A deletion meant for entry j has been processed. */
  ghost predicate Undone(nodes: map<Addr, Node>, b: Addr, j: nat)
    requires b in nodes && nodes[b].role.UP?
  {
    exists i :: 0 <= i < |nodes[b].role.dels| && MeantFor(nodes, b, nodes[b].role.dels[i], j)
  }

  lemma AliveExactly(nodes: map<Addr, Node>, b: Addr, j: nat)
    requires b in nodes && nodes[b].role.UP? && j < |nodes[b].role.log|
    requires FateOk(nodes[b].role.up, nodes[b].role.log, nodes[b].role.dels, j)
    requires GoneOk(nodes, b, nodes[b].role.dels) && AllHitOwn(nodes, b, nodes[b].role.dels)
    ensures Alive(nodes[b].role.up, nodes[b].role.log, j) <==> !Undone(nodes, b, j)
  {
    var role := nodes[b].role;
    if !Alive(role.up, role.log, j) {
      var h: nat :| HitBy(role.dels, j, h);
      assert HitsOwn(nodes, b, role.dels[h]);
    }
    if i :| 0 <= i < |role.dels| && MeantFor(nodes, b, role.dels[i], j) {
      assert GoneBy(role.dels, j, i);
      var h: nat :| h <= i && HitBy(role.dels, j, h);
    }
  }
}
