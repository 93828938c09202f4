/** The transport (pkg/protocol/transport.go): sequence numbers, the pending table, the
    retransmission loop and dispatch, as one goroutine sees them. Interleavings are in the
    Network module. */
module Transports {
  import opened Bytes
  import opened Headers
  import opened InformationElements
  import opened Messages

  const SEQ_SPAN: nat := 0xFFFFFF

  /** The k-th sequence number drawn from a new transport. */
  function SeqOf(k: nat): u32 {
    1 + k % SEQ_SPAN
  }

  function NextSeq(s: u32): u32
    requires s < 0xFFFF_FFFF
  {
    if s + 1 > 0xFFFFFF then 1 else s + 1
  }

  /** Numbers start at 1 and go up by one, except that 1 follows 0xFFFFFF. */
  lemma SeqAdvances(k: nat)
    ensures SeqOf(0) == 1 && SeqOf(k + 1) == if SeqOf(k) == 0xFFFFFF then 1 else SeqOf(k) + 1
    ensures NextSeq(SeqOf(k)) == SeqOf(k + 1)
    ensures 1 <= SeqOf(k) <= 0xFFFFFF
  {
    var q, r := k / SEQ_SPAN, k % SEQ_SPAN;
    assert k == q * SEQ_SPAN + r;
    if r + 1 < SEQ_SPAN {
      ModUnique(k + 1, q, r + 1);
    } else {
      ModUnique(k + 1, q + 1, 0);
    }
  }

  lemma ModUnique(n: nat, q: nat, r: nat)
    requires n == q * SEQ_SPAN + r && r < SEQ_SPAN
    ensures n % SEQ_SPAN == r
  {
  }

  /** Draws less than 0xFFFFFF apart have different numbers. */
  lemma SeqDistinct(i: nat, j: nat)
    requires i < j < i + SEQ_SPAN
    ensures SeqOf(i) != SeqOf(j)
  {
    var q, r := i / SEQ_SPAN, i % SEQ_SPAN;
    assert i == q * SEQ_SPAN + r;
    if r + (j - i) < SEQ_SPAN {
      ModUnique(j, q, r + (j - i));
    } else {
      ModUnique(j, q + 1, r + (j - i) - SEQ_SPAN);
    }
  }

  /** Numbers recur with period 0xFFFFFF. */
  lemma SeqRecurs(k: nat)
    ensures SeqOf(k + SEQ_SPAN) == SeqOf(k)
  {
    var q, r := k / SEQ_SPAN, k % SEQ_SPAN;
    assert k == q * SEQ_SPAN + r;
    ModUnique(k + SEQ_SPAN, q + 1, r);
  }

  function Max(a: int, b: int): int {
    if a >= b then a else b
  }

  /** What the select statement of SendRequest observes. */
  datatype Event = ContextDone | ResponseReady(m: Msg) | TimerFires(sendOk: bool)

  datatype Outcome = Replied(m: Msg) | TransportClosed | MaxRetriesExceeded | SendFailed | StillWaiting

  /** How waiting ends after the given number of attempts, and how many retransmissions it takes. */
  function Awaited(events: seq<Event>, attempts: nat, maxRetries: int): (Outcome, nat) {
    if events == [] then (StillWaiting, 0) else
    match events[0]
    case ContextDone => (TransportClosed, 0)
    case ResponseReady(m) => (Replied(m), 0)
    case TimerFires(sendOk) =>
      if attempts + 1 >= maxRetries then (MaxRetriesExceeded, 0)
      else if !sendOk then (SendFailed, 0)
      else
        var (outcome, n) := Awaited(events[1..], attempts + 1, maxRetries);
        (outcome, n + 1)
  }

  /** Every one of the first i events is a timer followed by a retransmission. */
  ghost predicate OnlyTimers(events: seq<Event>, i: nat) {
    i <= |events| && forall j :: 0 <= j < i ==> events[j] == TimerFires(true)
  }

  /** The event that decides, in closed form: after i retransmissions, all within the limit,
      the next event is the response, the shutdown, or a timer that meets the limit or a
      failing socket; or there is no next event. */
  ghost predicate Decides(events: seq<Event>, i: nat, attempts: nat, maxRetries: int, outcome: Outcome) {
    && OnlyTimers(events, i) && (i > 0 ==> attempts + i < maxRetries)
    && match outcome
       case Replied(m) => i < |events| && events[i] == ResponseReady(m)
       case TransportClosed => i < |events| && events[i] == ContextDone
       case MaxRetriesExceeded => i < |events| && events[i].TimerFires? && attempts + i + 1 >= maxRetries
       case SendFailed => i < |events| && events[i] == TimerFires(false) && attempts + i + 1 < maxRetries
       case StillWaiting => i == |events|
  }

  lemma {:induction false} AwaitedExactly(events: seq<Event>, attempts: nat, maxRetries: int, outcome: Outcome, i: nat)
    ensures Awaited(events, attempts, maxRetries) == (outcome, i) <==> Decides(events, i, attempts, maxRetries, outcome)
    decreases |events|
  {
    if events != [] && events[0] == TimerFires(true) && attempts + 1 < maxRetries && i > 0 {
      AwaitedExactly(events[1..], attempts + 1, maxRetries, outcome, i - 1);
      TimersTail(events, i);
    } else if i > 0 && OnlyTimers(events, i) {
      assert events[0] == TimerFires(true);
    }
  }

  lemma TimersTail(events: seq<Event>, i: nat)
    requires events != [] && events[0] == TimerFires(true) && i > 0
    ensures OnlyTimers(events, i) <==> OnlyTimers(events[1..], i - 1)
  {
    if OnlyTimers(events[1..], i - 1) {
      forall j | 0 <= j < i ensures events[j] == TimerFires(true) {
        assert j > 0 ==> events[1..][j - 1] == events[j];
      }
    }
  }

  /** A reply after i retransmissions, or giving up: within the limit, and giving up only
      after the full number of transmissions. */
  lemma AwaitedBound(events: seq<Event>, maxRetries: int)
    ensures var (outcome, i) := Awaited(events, 0, maxRetries);
            && 1 + i <= Max(1, maxRetries)
            && (outcome.MaxRetriesExceeded? ==> 1 + i == Max(1, maxRetries))
  {
    var (outcome, i) := Awaited(events, 0, maxRetries);
    AwaitedExactly(events, 0, maxRetries, outcome, i);
  }

  /** The datagram decodes to the message, whatever stale bytes are behind it in the buffer. */
  ghost predicate Receives(datagram: seq<byte>, tail: seq<byte>, m: Msg) {
    DecodeMessage(datagram + tail, |datagram|) == Decoded(m)
  }

  lemma ReceivedAsSent(m: Msg, sent: seq<seq<byte>>)
    requires forall i :: 0 <= i < |sent| ==> sent[i] == EncodeMessage(m)
    ensures forall i :: 0 <= i < |sent| ==> sent[i] == EncodeMessage(Sized(m))
    ensures forall i, tail :: 0 <= i < |sent| && Transmissible(Sized(m)) ==> Receives(sent[i], tail, Sized(m))
  {
    MarshalStable(m);
    forall i, tail | 0 <= i < |sent| && Transmissible(Sized(m)) ensures Receives(sent[i], tail, Sized(m)) {
      MessageRoundTrip(Sized(m), tail);
    }
  }

  datatype Fate = Handed(seqNum: u32) | Handled(typ: byte) | Dropped

  class PendingRequest {
    /** The one-slot response channel. */
    var respChan: Option<Msg>

    constructor ()
      ensures respChan == None
    {
      respChan := None;
    }
  }

  class Transport {
    var handlers: set<byte>
    var pending: map<u32, PendingRequest>
    var seqNum: u32
    ghost var drawn: nat

    ghost predicate Valid()
      reads this
    {
      seqNum == SeqOf(drawn)
    }

    constructor ()
      ensures Valid() && drawn == 0 && pending == map[] && handlers == {}
    {
      handlers, pending, seqNum, drawn := {}, map[], 1, 0;
    }

    method RegisterHandler(msgType: byte)
      modifies this`handlers
      ensures handlers == old(handlers) + {msgType}
    {
      handlers := handlers + {msgType};
    }

    method NextSeqNum() returns (s: u32)
      requires Valid()
      modifies this`seqNum, this`drawn
      ensures Valid() && drawn == old(drawn) + 1
      ensures s == SeqOf(old(drawn))
    {
      SeqAdvances(drawn);
      s := seqNum;
      seqNum := seqNum + 1;
      if seqNum > 0xFFFFFF {
        seqNum := 1;
      }
      drawn := drawn + 1;
    }

    /** Registers under a new number, transmits, and unregisters on every way out. */
    method SendRequest(msg: Message, firstSendOk: bool, events: seq<Event>, maxRetries: int)
      returns (outcome: Outcome, sent: seq<seq<byte>>)
      requires Valid()
      modifies this`seqNum, this`drawn, this`pending, msg.Header
      ensures Valid() && drawn == old(drawn) + 1
      ensures msg.Header.View() == old(msg.Header.View()).(
                seqNum := SeqOf(old(drawn)), length := |EncodeIEs(old(msg.IEs))| % 0x1_0000)
      ensures msg.IEs == old(msg.IEs)
      ensures forall i :: 0 <= i < |sent| ==> sent[i] == EncodeMessage(msg.View())
      ensures forall i, tail :: 0 <= i < |sent| && Transmissible(msg.View()) ==>
                Receives(sent[i], tail, msg.View())
      ensures if firstSendOk then (outcome, |sent| - 1) == Awaited(events, 0, maxRetries)
              else (outcome, sent) == (SendFailed, [])
      ensures |sent| <= Max(1, maxRetries)
      ensures outcome.MaxRetriesExceeded? ==> |sent| == Max(1, maxRetries)
      ensures var key := SeqOf(old(drawn));
              if outcome.StillWaiting? then
                key in pending && fresh(pending[key]) && pending == old(pending)[key := pending[key]]
              else pending == old(pending) - {key}
    {
      var key := NextSeqNum();
      msg.Header.SequenceNumber := key;
      var req := new PendingRequest();
      pending := pending[key := req];
      ghost var stamped := msg.View();
      outcome, sent := Transmit(msg, firstSendOk, events, maxRetries);
      ReceivedAsSent(stamped, sent);
      if !outcome.StillWaiting? {
        pending := pending - {key};
      }
    }

    /** Transmits, then retransmits on every timer event until the limit. The events are
        whatever the environment produces; sent lists the datagrams written. */
    method Transmit(msg: Message, firstSendOk: bool, events: seq<Event>, maxRetries: int)
      returns (outcome: Outcome, sent: seq<seq<byte>>)
      modifies msg.Header`MessageLength
      ensures msg.View() == Sized(old(msg.View()))
      ensures forall i :: 0 <= i < |sent| ==> sent[i] == EncodeMessage(old(msg.View()))
      ensures if firstSendOk then (outcome, |sent| - 1) == Awaited(events, 0, maxRetries)
              else (outcome, sent) == (SendFailed, [])
      ensures |sent| <= Max(1, maxRetries)
      ensures outcome.MaxRetriesExceeded? ==> |sent| == Max(1, maxRetries)
    {
      ghost var stamped := msg.View();
      AwaitedBound(events, maxRetries);
      var data := msg.Marshal();
      if !firstSendOk {
        return SendFailed, [];
      }
      sent := [data];
      MarshalStable(stamped);
      var attempts := 0;
      for i := 0 to |events|
        invariant |sent| == attempts + 1
        invariant Awaited(events, 0, maxRetries)
                  == (Awaited(events[i..], attempts, maxRetries).0, attempts + Awaited(events[i..], attempts, maxRetries).1)
        invariant msg.View() == Sized(stamped)
        invariant forall j :: 0 <= j < |sent| ==> sent[j] == EncodeMessage(stamped)
      {
        assert events[i..][1..] == events[i + 1..];
        match events[i]
        case ContextDone =>
          return TransportClosed, sent;
        case ResponseReady(m) =>
          return Replied(m), sent;
        case TimerFires(sendOk) =>
          attempts := attempts + 1;
          if attempts >= maxRetries {
            return MaxRetriesExceeded, sent;
          }
          data := msg.Marshal();
          if !sendOk {
            return SendFailed, sent;
          }
          sent := sent + [data];
      }
      outcome := StillWaiting;
    }

    /** A received message is handed to the waiter for its number, or handled, or dropped. */
    method HandleMessage(msg: Msg) returns (fate: Fate)
      modifies pending.Values
      ensures fate.Handed? <==> msg.h.seqNum in pending && old(pending[msg.h.seqNum].respChan) == None
      ensures fate.Handed? ==> fate.seqNum == msg.h.seqNum && pending[msg.h.seqNum].respChan == Some(msg)
      ensures fate.Handled? <==> msg.h.seqNum !in pending && msg.h.typ in handlers
      ensures fate.Handled? ==> fate.typ == msg.h.typ
      ensures forall r :: (r in pending.Values && !(fate.Handed? && r == pending[msg.h.seqNum])
                           ==> r.respChan == old(r.respChan))
    {
      if msg.h.seqNum in pending {
        var p := pending[msg.h.seqNum];
        if p.respChan.None? {
          p.respChan := Some(msg);
          return Handed(msg.h.seqNum);
        }
        return Dropped;
      }
      if msg.h.typ in handlers {
        return Handled(msg.h.typ);
      }
      fate := Dropped;
    }
  }
}
