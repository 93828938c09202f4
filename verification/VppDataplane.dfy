/** The VPP dataplane (pkg/dataplane/vpp/vpp.go): which punt registrations a detection rule
    asks for, and which rules count as punted. VPP itself is a list of replies. */
module VppDataplane {
  import opened Bytes
  import opened InformationElements
  import opened Rules
  import opened Tokens
  import opened FlowDescriptions
  import opened SdfFilters

  datatype Family = IP4 | IP6
  datatype Punt = L4(family: Family, protocol: byte, port: u16) | IpProto(family: Family, protocol: byte)

  /** Hung: the call is waiting for a reply that has not come. */
  datatype Status = Good | Failed | Hung

  // ----- compiling a rule -----

  const L2_FILTERS: set<gostring> :=
    {Ascii("ARP"), Ascii("PPPOE_DISCOVERY"), Ascii("PPPOE_SESSION"), Ascii("LLDP"), Ascii("DOT1Q"), Ascii("IPV6")}

  function PuntFamily(f: Sdf): Family {
    if f.family == 1 then IP6 else IP4
  }

  /** TCP, UDP or SCTP with a port. */
  predicate Ported(f: Sdf) {
    (f.protocol == 6 || f.protocol == 17 || f.protocol == 132) && (f.portStart > 0 || f.portEnd > 0)
  }

  /** One registration per port from a to b, ascending. */
  function PortRange(family: Family, protocol: byte, a: u16, b: u16): seq<Punt> {
    if a > b then [] else seq(b - a + 1, i requires 0 <= i < b - a + 1 => L4(family, protocol, a + i))
  }

  /** NoPlan: an error before anything is asked for. Endless: the 16-bit port variable
      never exceeds the last port 65535. */
  datatype Plan = NoPlan | Layer2 | Finite(punts: seq<Punt>) | Endless(family: Family, protocol: byte, first: u16)

  function PlanFor(f: Sdf): Plan {
    if !Ported(f) then Finite([IpProto(PuntFamily(f), f.protocol)])
    else if f.portEnd == 0xFFFF then Endless(PuntFamily(f), f.protocol, f.portStart)
    else Finite(PortRange(PuntFamily(f), f.protocol, f.portStart, f.portEnd))
  }

  function PlanOf(pdr: UpPdr): Plan {
    if pdr.pdi.appId != [] then
      if pdr.pdi.appId in L2_FILTERS then Layer2 else NoPlan
    else if pdr.pdi.sdf == [] then NoPlan
    else match DecodeSdf(pdr.pdi.sdf) case None => NoPlan case Some(f) => PlanFor(f)
  }

  /** From the control plane's flow text to the exact registrations: the text of a TCP, UDP
      or SCTP flow to ports a..b compiles, through the SDF element and the rule the user
      plane decodes, to one registration per port in ascending order. */
  lemma FlowCompiles(p: CpPdr, action: gostring, direction: gostring, protocol: gostring, proto: byte,
                     src: gostring, dst: gostring, ports: gostring, a: u16, b: u16)
    requires IsToken(action) && IsToken(direction) && IsToken(src) && IsToken(dst) && IsToken(protocol) && IsToken(ports)
    requires || (Spells(protocol, Ascii("tcp")) && proto == 6)
             || (Spells(protocol, Ascii("udp")) && proto == 17)
             || (IsDecimal(protocol, proto) && proto in {6, 17, 132})
    requires PortsText(ports, a, b) && (a > 0 || b > 0)
    requires p.pdi.Some? && p.pdi.value.appId == []
    requires p.pdi.value.sdf == PrintFlow(action, direction, protocol, src, dst, Some(ports))
    requires |p.pdi.value.sdf| < 0x1_0000
    ensures var family := if 58 in src || 58 in dst then IP6 else IP4;
            PlanOf(ProjectPdr(p)) ==
            if b == 0xFFFF then Endless(family, proto, a)
            else if a > b then Finite([])
            else Finite(seq(b - a + 1, i requires 0 <= i < b - a + 1 => L4(family, proto, a + i)))
  {
    FlowRoundTrip(action, direction, protocol, proto, src, dst, Some(ports), Ports(a, b));
    TextPlan(p);
  }

  /** The text of any other flow, or of one without ports, compiles to one registration of its
      protocol. */
  lemma ProtocolFlowCompiles(p: CpPdr, action: gostring, direction: gostring, protocol: gostring, proto: byte,
                             src: gostring, dst: gostring, ports: Option<gostring>, a: u16, b: u16)
    requires IsToken(action) && IsToken(direction) && IsToken(src) && IsToken(dst) && IsToken(protocol)
    requires NamesProtocol(protocol, proto)
    requires if ports.Some? then IsToken(ports.value) && PortsText(ports.value, a, b) else a == b == 0
    requires proto !in {6, 17, 132} || a == b == 0
    requires p.pdi.Some? && p.pdi.value.appId == []
    requires p.pdi.value.sdf == PrintFlow(action, direction, protocol, src, dst, ports)
    requires |p.pdi.value.sdf| < 0x1_0000
    ensures PlanOf(ProjectPdr(p)) == Finite([IpProto(if 58 in src || 58 in dst then IP6 else IP4, proto)])
  {
    FlowRoundTrip(action, direction, protocol, proto, src, dst, ports, Ports(a, b));
    TextPlan(p);
  }

  /** A rule with an application ID is a layer-2 rule if and only if the ID is one of six. */
  lemma ApplicationCompiles(p: CpPdr)
    requires p.pdi.Some? && p.pdi.value.appId != []
    ensures PlanOf(ProjectPdr(p)) ==
            if p.pdi.value.appId in [Ascii("ARP"), Ascii("PPPOE_DISCOVERY"), Ascii("PPPOE_SESSION"), Ascii("LLDP"),
                                     Ascii("DOT1Q"), Ascii("IPV6")] then Layer2 else NoPlan
  {
  }

  /** A rule with a flow text has no plan if and only if the text describes no filter; a rule with
      neither has none. */
  lemma NoPlanExactly(p: CpPdr)
    requires p.pdi.Some? ==> p.pdi.value.appId == [] && |p.pdi.value.sdf| < 0x1_0000
    ensures PlanOf(ProjectPdr(p)).NoPlan? <==> p.pdi.None? || forall f :: !Describes(p.pdi.value.sdf, f)
  {
    if p.pdi.Some? {
      var text := p.pdi.value.sdf;
      forall f ensures ParseFlow(text) == Some(f) <==> Describes(text, f) {
        FlowExactly(text, f);
      }
      if text == [] {
        assert Fields(text) == [];
      } else {
        TextPlan(p);
      }
    }
  }

  lemma TextPlan(p: CpPdr)
    requires p.pdi.Some? && p.pdi.value.appId == [] && |p.pdi.value.sdf| < 0x1_0000
    ensures PlanOf(ProjectPdr(p)) ==
            match ParseFlow(p.pdi.value.sdf) case None => NoPlan case Some(f) => PlanFor(f)
  {
    var text := p.pdi.value.sdf;
    SdfElementDecodes(text);
    FilterAsWritten(text);
    if text == [] {
      assert Fields(text) == [];
    }
  }

  /** The element NewSDFFilterIE builds decodes to the filter of its text. */
  lemma SdfElementDecodes(text: gostring)
    requires |text| < 0x1_0000
    ensures DecodeSdf(NewSdfFilter(text).value) == ParseFlow(text)
  {
    var f := SdfIE(Some(text), None, None, None, None);
    SdfRoundTrip(f, 0, []);
    FlowHasNoNumbers(text);
    FlowOnly(text);
  }

  lemma FlowOnly(text: gostring)
    requires |text| < 0x1_0000
    ensures Glue(PartsOf(SdfIE(Some(text), None, None, None, None), 0)) + [] == NewSdfFilter(text).value
  {
    GlueFlowOnly(BE16(|text|) + text);
    Bytes.Associate([0x01, 0], BE16(|text|), text);
    assert FlagByte(SdfIE(Some(text), None, None, None, None)) == 1;
  }

  lemma GlueFlowOnly(flow: seq<byte>)
    ensures Glue(Parts(1, 0, flow, [], [], [], [])) + [] == [0x01, 0] + flow
  {
    var g := [0x01, 0] + flow;
    assert g + [] == g;
  }

  // ----- sessions -----

  datatype VppSession = VppSession(pdrs: map<u16, UpPdr>, fars: map<u32, UpFar>, punted: set<u16>)

  /** The second lowest bit of the apply action. */
  predicate Forwards(far: UpFar) {
    far.applyAction / 2 % 2 == 1
  }

  /** Apply actions 4h + 2 and 4h + 3 have the bit, 4h and 4h + 1 do not. */
  lemma ForwardBit(far: UpFar)
    ensures Forwards(far) <==> far.applyAction % 4 >= 2
  {
    var h := far.applyAction / 4;
    assert far.applyAction == 4 * h + far.applyAction % 4;
    assert far.applyAction / 2 == 2 * h + far.applyAction % 4 / 2;
  }

  /** The registration was asked for and granted. */
  ghost predicate Granted(requests: seq<Punt>, replies: seq<bool>, p: Punt) {
    exists i :: 0 <= i < |requests| && i < |replies| && requests[i] == p && replies[i]
  }

  /** All the rule asks for was granted. */
  ghost predicate FullyPunted(requests: seq<Punt>, replies: seq<bool>, pdr: UpPdr) {
    match PlanOf(pdr)
    case Layer2 => true
    case Finite(punts) => forall i :: 0 <= i < |punts| ==> Granted(requests, replies, punts[i])
    case _ => false
  }

  ghost predicate SomeForwards(fars: seq<UpFar>, id: u32) {
    exists i :: 0 <= i < |fars| && fars[i].id == id && fars[i].applyAction % 4 >= 2
  }

  /** A marked rule is in the table, a forwarding action rule it refers to was installed in
      the session, and its whole punt set was granted. */
  ghost predicate MarksOk(s: VppSession, fars: seq<UpFar>, requests: seq<Punt>, replies: seq<bool>) {
    forall id :: id in s.punted ==>
      id in s.pdrs && SomeForwards(fars, s.pdrs[id].farId) && FullyPunted(requests, replies, s.pdrs[id])
  }

  lemma GrantedStays(requests: seq<Punt>, requests': seq<Punt>, replies: seq<bool>, p: Punt)
    requires requests <= requests' && Granted(requests, replies, p)
    ensures Granted(requests', replies, p)
  {
    var i :| 0 <= i < |requests| && i < |replies| && requests[i] == p && replies[i];
    assert requests'[i] == p;
  }

  lemma FullyPuntedStays(requests: seq<Punt>, requests': seq<Punt>, replies: seq<bool>, pdr: UpPdr)
    requires requests <= requests' && FullyPunted(requests, replies, pdr)
    ensures FullyPunted(requests', replies, pdr)
  {
    if PlanOf(pdr).Finite? {
      var punts := PlanOf(pdr).punts;
      forall i | 0 <= i < |punts| ensures Granted(requests', replies, punts[i]) {
        GrantedStays(requests, requests', replies, punts[i]);
      }
    }
  }

  lemma MarksStay(s: VppSession, fars: seq<UpFar>, fars': seq<UpFar>, requests: seq<Punt>, requests': seq<Punt>, replies: seq<bool>)
    requires MarksOk(s, fars, requests, replies) && requests <= requests' && fars <= fars'
    ensures MarksOk(s, fars', requests', replies)
  {
    forall id | id in s.punted
      ensures SomeForwards(fars', s.pdrs[id].farId) && FullyPunted(requests', replies, s.pdrs[id])
    {
      var i :| 0 <= i < |fars| && fars[i].id == s.pdrs[id].farId && fars[i].applyAction % 4 >= 2;
      assert fars'[i] == fars[i];
      FullyPuntedStays(requests, requests', replies, s.pdrs[id]);
    }
  }

  /** The detection rules that refer to the action rule. */
  function Referring(pdrs: map<u16, UpPdr>, farId: u32): set<u16> {
    set id | id in pdrs && pdrs[id].farId == farId
  }

  /** Replacing a rule keeps marks justified if and only if the rule is not marked, or the marks
      hold of the new rule too. */
  lemma ReplacedMark(s: VppSession, pdr: UpPdr, fars: seq<UpFar>, requests: seq<Punt>, replies: seq<bool>)
    requires MarksOk(s, fars, requests, replies)
    ensures MarksOk(s.(pdrs := s.pdrs[pdr.id := pdr]), fars, requests, replies) <==>
            (pdr.id in s.punted ==> SomeForwards(fars, pdr.farId) && FullyPunted(requests, replies, pdr))
  {
  }

  function Marked(s: VppSession, id: u16): VppSession {
    s.(punted := s.punted + {id})
  }

  /** Marks have been added, for referring rules only, and for all of those that are not left. */
  ghost predicate Progress(first: VppSession, now: VppSession, left: set<u16>, farId: u32) {
    && now == first.(punted := now.punted) && left <= first.pdrs.Keys
    && first.punted <= now.punted <= first.punted + Referring(first.pdrs, farId)
    && Referring(first.pdrs, farId) - left <= now.punted
  }

  lemma ProgressOn(first: VppSession, now: VppSession, left: set<u16>, id: u16, farId: u32)
    requires Progress(first, now, left, farId) && id in left
    ensures if now.pdrs[id].farId == farId then Progress(first, Marked(now, id), left - {id}, farId)
            else Progress(first, now, left - {id}, farId)
  {
  }

  /** How carrying out a plan can end: what was asked for, and what was granted. */
  ghost predicate Outcome(plan: Plan, before: seq<Punt>, after: seq<Punt>, replies: seq<bool>, st: Status) {
    && before <= after && |after| <= |replies| + 1
    && (st.Hung? <==> |after| == |replies| + 1)
    && (forall i :: |before| <= i < |after| - 1 ==> replies[i])
    && (st.Good? ==> forall i :: |before| <= i < |after| ==> replies[i])
    && match plan
       case NoPlan => st.Failed? && after == before
       case Layer2 => st.Good? && after == before
       case Finite(punts) =>
         && after <= before + punts
         && (st.Good? ==> after == before + punts)
         && (st.Failed? ==> |after| > |before| && !replies[|after| - 1])
       case Endless(family, protocol, first) =>
         && !st.Good?
         && after == before + Successive(family, protocol, first, |after| - |before|)
         && (st.Failed? ==> |after| > |before| && !replies[|after| - 1])
  }

  lemma GoodIsFullyPunted(pdr: UpPdr, before: seq<Punt>, after: seq<Punt>, replies: seq<bool>)
    requires Outcome(PlanOf(pdr), before, after, replies, Good)
    ensures FullyPunted(after, replies, pdr)
  {
    if PlanOf(pdr).Finite? {
      var punts := PlanOf(pdr).punts;
      forall i | 0 <= i < |punts| ensures Granted(after, replies, punts[i]) {
        assert after[|before| + i] == punts[i];
      }
    }
  }

  /** The first k ports from a, in 16-bit arithmetic. */
  function Successive(family: Family, protocol: byte, a: u16, k: nat): seq<Punt> {
    seq(k, i requires 0 <= i < k => L4(family, protocol, (a + i) % 0x1_0000))
  }

  /** Each port is one more than the one before, and zero follows 65535. */
  lemma SuccessivePorts(family: Family, protocol: byte, a: u16, k: nat, i: nat)
    requires i < k
    ensures var punts := Successive(family, protocol, a, k);
            && |punts| == k && punts[i].L4? && punts[i].family == family && punts[i].protocol == protocol
            && (i == 0 ==> punts[i].port == a)
            && (i > 0 ==> punts[i - 1].L4? && punts[i].port == if punts[i - 1].port == 65535 then 0 else punts[i - 1].port + 1)
  {
    if i > 0 {
      PortAdvances(a + i - 1);
    }
  }

  lemma SuccessiveStep(family: Family, protocol: byte, a: u16, k: nat)
    ensures Successive(family, protocol, a, k + 1)
            == Successive(family, protocol, a, k) + [L4(family, protocol, (a + k) % 0x1_0000)]
  {
  }

  /** Below 65535 nothing wraps: successive ports are a range. */
  lemma SuccessiveIsRange(family: Family, protocol: byte, a: u16, b: u16, k: nat)
    requires b < 0xFFFF && k <= |PortRange(family, protocol, a, b)|
    ensures Successive(family, protocol, a, k) == PortRange(family, protocol, a, b)[..k]
  {
  }

  lemma PortAdvances(x: nat)
    ensures (x % 0x1_0000 + 1) % 0x1_0000 == (x + 1) % 0x1_0000
  {
  }

  class Vpp {
    var sessions: map<u64, VppSession>
    /** Every registration asked for, in order; the i-th reply answers the i-th request. */
    var requests: seq<Punt>
    const replies: seq<bool>
    /** The action rules installed in each session, in order. */
    ghost var installed: map<u64, seq<UpFar>>

    /** Every request has been answered. */
    ghost predicate Valid()
      reads this
    {
      |requests| <= |replies| && Justified()
    }

    /** Every mark is justified. */
    ghost predicate Justified()
      reads this
    {
      && installed.Keys == sessions.Keys
      && (forall seid, id :: seid in sessions && id in sessions[seid].pdrs ==> sessions[seid].pdrs[id].id == id)
      && (forall seid {:trigger MarksOk(sessions[seid], installed[seid], requests, replies)} :: seid in sessions ==>
            MarksOk(sessions[seid], installed[seid], requests, replies))
    }

    constructor (replies: seq<bool>)
      ensures Valid() && sessions == map[] && requests == [] && this.replies == replies
    {
      sessions, requests, installed, this.replies := map[], [], map[], replies;
    }

    method InstallPDR(seid: u64, pdr: UpPdr)
      requires Valid()
      modifies this`sessions, this`installed
      ensures sessions == old(sessions)[seid :=
                if seid in old(sessions) then old(sessions)[seid].(pdrs := old(sessions)[seid].pdrs[pdr.id := pdr])
                else VppSession(map[pdr.id := pdr], map[], {})]
      ensures installed == if seid in old(sessions) then old(installed) else old(installed)[seid := []]
      ensures Valid() <==> (seid in old(sessions) && pdr.id in old(sessions)[seid].punted ==>
                              SomeForwards(old(installed)[seid], pdr.farId) && FullyPunted(requests, replies, pdr))
    {
      if seid !in sessions {
        sessions := sessions[seid := VppSession(map[], map[], {})];
        installed := installed[seid := []];
      }
      var s := sessions[seid];
      sessions := sessions[seid := s.(pdrs := s.pdrs[pdr.id := pdr])];
      ReplacedMark(s, pdr, installed[seid], requests, replies);
    }

    method DeleteSession(seid: u64) returns (st: Status)
      requires Valid()
      modifies this`sessions, this`installed
      ensures Valid()
      ensures sessions == old(sessions) - {seid} && installed == old(installed) - {seid}
      ensures st == if seid in old(sessions) then Good else Failed
    {
      if seid !in sessions {
        assert sessions - {seid} == sessions && installed - {seid} == installed;
        return Failed;
      }
      sessions := sessions - {seid};
      installed := installed - {seid};
      st := Good;
    }

    method SetPunt(p: Punt) returns (st: Status)
      requires |requests| <= |replies|
      modifies this`requests
      ensures requests == old(requests) + [p]
      ensures st.Hung? <==> |requests| > |replies|
      ensures st.Good? <==> |requests| <= |replies| && replies[|requests| - 1]
    {
      requests := requests + [p];
      if |requests| > |replies| {
        return Hung;
      }
      st := if replies[|requests| - 1] then Good else Failed;
    }

    /** The port loop, with its 16-bit port variable: asks for successive ports, wrapping,
        until one is refused or unanswered; ends well only if the last port is below 65535. */
    method PuntPorts(family: Family, protocol: byte, a: u16, b: u16) returns (st: Status)
      requires |requests| <= |replies|
      modifies this`requests
      ensures old(requests) <= requests && |requests| <= |replies| + 1
      ensures requests == old(requests) + Successive(family, protocol, a, |requests| - |old(requests)|)
      ensures forall i :: |old(requests)| <= i < |requests| - 1 ==> replies[i]
      ensures b < 0xFFFF ==> |requests| - |old(requests)| <= |PortRange(family, protocol, a, b)|
      ensures st.Good? ==> b < 0xFFFF && |requests| - |old(requests)| == |PortRange(family, protocol, a, b)|
      ensures st.Good? ==> |requests| <= |replies| && (forall i :: |old(requests)| <= i < |requests| ==> replies[i])
      ensures st.Failed? ==> |old(requests)| < |requests| <= |replies| && !replies[|requests| - 1]
      ensures st.Hung? ==> |requests| == |replies| + 1
    {
      var port: int := a;
      ghost var k := 0;
      while port <= b
        invariant k >= 0 && |requests| == |old(requests)| + k && |requests| <= |replies|
        invariant requests == old(requests) + Successive(family, protocol, a, k)
        invariant 0 <= port < 0x1_0000 && port == (a + k) % 0x1_0000
        invariant b < 0xFFFF ==> port == a + k && k <= |PortRange(family, protocol, a, b)|
        invariant forall i :: |old(requests)| <= i < |requests| ==> replies[i]
        decreases |replies| - |requests|
      {
        SuccessiveStep(family, protocol, a, k);
        Bytes.Associate(old(requests), Successive(family, protocol, a, k), [L4(family, protocol, port)]);
        st := SetPunt(L4(family, protocol, port));
        if !st.Good? {
          return;
        }
        PortAdvances(a + k);
        port := (port + 1) % 0x1_0000;
        k := k + 1;
      }
      st := Good;
    }

    /** Asks for what the filter needs. */
    method PuntFilter(f: Sdf) returns (st: Status)
      requires |requests| <= |replies|
      modifies this`requests
      ensures Outcome(PlanFor(f), old(requests), requests, replies, st)
    {
      if Ported(f) {
        st := PuntPorts(PuntFamily(f), f.protocol, f.portStart, f.portEnd);
        if f.portEnd < 0xFFFF {
          SuccessiveIsRange(PuntFamily(f), f.protocol, f.portStart, f.portEnd, |requests| - |old(requests)|);
        }
      } else {
        st := SetPunt(IpProto(PuntFamily(f), f.protocol));
      }
    }

    /** A marked rule is left alone; otherwise its plan is carried out, and the rule is marked
        exactly when that ends well. */
    method ConfigurePuntForPDR(seid: u64, pdr: UpPdr) returns (st: Status)
      requires |requests| <= |replies| && seid in sessions
      modifies this`sessions, this`requests
      ensures pdr.id in old(sessions)[seid].punted ==> st.Good? && requests == old(requests) && sessions == old(sessions)
      ensures pdr.id !in old(sessions)[seid].punted ==> Outcome(PlanOf(pdr), old(requests), requests, replies, st)
      ensures sessions == if st.Good? then old(sessions)[seid := Marked(old(sessions)[seid], pdr.id)] else old(sessions)
    {
      if pdr.id in sessions[seid].punted {
        assert Marked(sessions[seid], pdr.id) == sessions[seid];
        return Good;
      }
      if pdr.pdi.appId != [] {
        if pdr.pdi.appId !in L2_FILTERS {
          return Failed;
        }
        sessions := sessions[seid := Marked(sessions[seid], pdr.id)];
        return Good;
      }
      if |pdr.pdi.sdf| == 0 {
        return Failed;
      }
      var filter := ParseSDFFilter(pdr.pdi.sdf);
      if filter.None? {
        return Failed;
      }
      st := PuntFilter(filter.value);
      if st.Good? {
        sessions := sessions[seid := Marked(sessions[seid], pdr.id)];
      }
    }

    /** Installs the rule and punts, in any order, the detection rules that refer to it. */
    method InstallFAR(seid: u64, far: UpFar) returns (st: Status)
      requires Valid()
      modifies this
      ensures Justified() && (!st.Hung? ==> Valid()) && (st.Hung? ==> |requests| == |replies| + 1)
      ensures old(requests) <= requests
      ensures seid !in old(sessions) ==> st.Failed? && requests == old(requests)
      ensures installed == if seid in old(sessions) then old(installed)[seid := old(installed)[seid] + [far]] else old(installed)
      ensures sessions.Keys == old(sessions).Keys
      ensures forall k :: k in sessions && k != seid ==> sessions[k] == old(sessions)[k]
      ensures seid in sessions ==>
                sessions[seid].pdrs == old(sessions)[seid].pdrs
                && sessions[seid].fars == old(sessions)[seid].fars[far.id := far]
                && old(sessions)[seid].punted <= sessions[seid].punted
      ensures seid in sessions && far.applyAction % 4 < 2 ==>
                st.Good? && requests == old(requests) && sessions[seid].punted == old(sessions)[seid].punted
      ensures seid in sessions ==>
                forall id :: id in sessions[seid].punted && id !in old(sessions)[seid].punted ==>
                  id in sessions[seid].pdrs && sessions[seid].pdrs[id].farId == far.id
      ensures st.Good? && far.applyAction % 4 >= 2 ==>
                forall id :: id in sessions[seid].pdrs && sessions[seid].pdrs[id].farId == far.id ==> id in sessions[seid].punted
    {
      ForwardBit(far);
      if seid !in sessions {
        return Failed;
      }
      sessions := sessions[seid := sessions[seid].(fars := sessions[seid].fars[far.id := far])];
      ghost var log := installed[seid];
      installed := installed[seid := log + [far]];
      MarksStay(old(sessions)[seid], log, log + [far], requests, requests, replies);
      if !Forwards(far) {
        return Good;
      }
      assert installed[seid][|log|] == far;
      st := PuntReferring(seid, far);
    }

    method PuntReferring(seid: u64, far: UpFar) returns (st: Status)
      requires Valid() && seid in sessions && SomeForwards(installed[seid], far.id)
      modifies this`sessions, this`requests
      ensures Justified() && (!st.Hung? ==> Valid()) && (st.Hung? ==> |requests| == |replies| + 1)
      ensures old(requests) <= requests && seid in sessions
      ensures sessions == old(sessions)[seid := old(sessions)[seid].(punted := sessions[seid].punted)]
      ensures old(sessions)[seid].punted <= sessions[seid].punted
      ensures sessions[seid].punted <= old(sessions)[seid].punted + Referring(old(sessions)[seid].pdrs, far.id)
      ensures st.Good? ==> Referring(old(sessions)[seid].pdrs, far.id) <= sessions[seid].punted
    {
      var left := sessions[seid].pdrs.Keys;
      ghost var first := sessions[seid];
      while left != {}
        invariant Valid() && old(requests) <= requests
        invariant seid in sessions && sessions == old(sessions)[seid := sessions[seid]]
        invariant Progress(first, sessions[seid], left, far.id)
        decreases |left|
      {
        var id :| id in left;
        left := left - {id};
        ProgressOn(first, sessions[seid], left + {id}, id, far.id);
        if sessions[seid].pdrs[id].farId == far.id {
          st := PuntOne(seid, id, far);
          if !st.Good? {
            return;
          }
        }
      }
      st := Good;
    }

    /** Carrying out one rule's plan keeps every mark justified. */
    method PuntOne(seid: u64, id: u16, far: UpFar) returns (st: Status)
      requires Valid() && seid in sessions && id in sessions[seid].pdrs
      requires sessions[seid].pdrs[id].farId == far.id && SomeForwards(installed[seid], far.id)
      modifies this`sessions, this`requests
      ensures Justified() && (!st.Hung? ==> Valid()) && (st.Hung? ==> |requests| == |replies| + 1)
      ensures old(requests) <= requests
      ensures sessions == if st.Good? then old(sessions)[seid := Marked(old(sessions)[seid], id)] else old(sessions)
    {
      ghost var before := requests;
      st := ConfigurePuntForPDR(seid, sessions[seid].pdrs[id]);
      forall k | k in old(sessions) ensures MarksOk(old(sessions)[k], installed[k], requests, replies) {
        MarksStay(old(sessions)[k], installed[k], installed[k], before, requests, replies);
      }
      if st.Good? && id !in old(sessions)[seid].punted {
        GoodIsFullyPunted(sessions[seid].pdrs[id], before, requests, replies);
      }
    }
  }
}
