/** Flow descriptions (pkg/dataplane/vpp/sdf_parser.go, parseFlowDescription and
    parsePortRange): the text parser, against a printer. Text is any sequence of
    bytes, read as UTF-8 where Go does. */
module FlowDescriptions {
  import opened Bytes
  import opened Tokens

  function Ascii(s: string): gostring {
    seq(|s|, i requires 0 <= i < |s| => s[i] as int % 0x100)
  }

  const DASH: byte := 45
  const COLON: byte := 58

  // ----- decimal numbers -----

  predicate IsDigit(b: byte) {
    48 <= b <= 57
  }

  predicate AllDigits(s: gostring) {
    forall i :: 0 <= i < |s| ==> IsDigit(s[i])
  }

  function DecimalValue(s: gostring): nat
    requires AllDigits(s)
  {
    if s == [] then 0 else 10 * DecimalValue(s[..|s| - 1]) + (s[|s| - 1] - 48)
  }

  /** strconv.ParseUint in base ten, for values up to max. */
  function ParseUint(s: gostring, max: nat): (r: Option<nat>)
    ensures r.Some? ==> r.value <= max
  {
    if s != [] && AllDigits(s) && DecimalValue(s) <= max then Some(DecimalValue(s)) else None
  }

  function PrintUint(n: nat): (s: gostring)
    ensures s != [] && AllDigits(s)
  {
    if n < 10 then [48 + n] else PrintUint(n / 10) + [48 + n % 10]
  }

  lemma {:induction false} PrintedParses(n: nat)
    ensures DecimalValue(PrintUint(n)) == n
  {
    if n >= 10 {
      PrintedParses(n / 10);
      var init := PrintUint(n / 10);
      assert PrintUint(n)[..|init|] == init;
    } else {
      assert PrintUint(n)[..0] == [];
    }
  }

  // ----- protocols -----

  function Lower(b: byte): byte {
    if 65 <= b <= 90 then b + 32 else b
  }

  /** strings.ToLower, as far as the result is ASCII: besides the capital letters only U+0130
      becomes a letter of a protocol name. Other characters stand for themselves. */
  function ToLower(s: gostring): gostring {
    if s == [] then []
    else if |s| >= 2 && s[0] == 0xC4 && s[1] == 0xB0 then [105] + ToLower(s[2..])
    else [Lower(s[0])] + ToLower(s[1..])
  }

  /** Name in any case, or decimal number below 256. */
  function ProtocolOf(token: gostring): Option<byte> {
    var t := ToLower(token);
    if t == Ascii("tcp") then Some(6)
    else if t == Ascii("udp") then Some(17)
    else if t == Ascii("icmp") then Some(1)
    else if t == Ascii("icmpv6") then Some(58)
    else if t == Ascii("ip") then Some(0)
    else match ParseUint(token, 255) case Some(v) => Some(v) case None => None
  }

  /** A token with the letters of a name, each in either case. Go also lowers U+0130 to i. */
  predicate Spells(token: gostring, name: gostring)
    decreases |token|
  {
    if name == [] then token == []
    else if token == [] then false
    else
      || (InEitherCase(token[0], name[0]) && Spells(token[1..], name[1..]))
      || (name[0] == 105 && |token| >= 2 && token[0] == 0xC4 && token[1] == 0xB0 && Spells(token[2..], name[1..]))
  }

  predicate InEitherCase(b: byte, letter: byte) {
    b == letter || (97 <= letter <= 122 && b == letter - 32)
  }

  /** A non-empty text of decimal digits with this value. */
  predicate IsDecimal(s: gostring, v: nat) {
    s != [] && AllDigits(s) && DecimalValue(s) == v
  }

  /** The protocol a token stands for. */
  predicate NamesProtocol(token: gostring, p: byte) {
    || (Spells(token, Ascii("tcp")) && p == 6)
    || (Spells(token, Ascii("udp")) && p == 17)
    || (Spells(token, Ascii("icmp")) && p == 1)
    || (Spells(token, Ascii("icmpv6")) && p == 58)
    || (Spells(token, Ascii("ip")) && p == 0)
    || IsDecimal(token, p)
  }

  lemma {:induction false} SpellsExactly(token: gostring, name: gostring)
    requires forall i :: 0 <= i < |name| ==> name[i] < 128 && !(65 <= name[i] <= 90)
    ensures Spells(token, name) <==> ToLower(token) == name
    decreases |token|
  {
    if token != [] && name != [] {
      SpellsExactly(token[1..], name[1..]);
      assert name == [name[0]] + name[1..];
      if |token| >= 2 {
        SpellsExactly(token[2..], name[1..]);
      }
    }
  }

  lemma NamesAreLower()
    ensures Ascii("tcp") == [116, 99, 112] && Ascii("udp") == [117, 100, 112] && Ascii("icmp") == [105, 99, 109, 112]
    ensures Ascii("icmpv6") == [105, 99, 109, 112, 118, 54] && Ascii("ip") == [105, 112]
  {
  }

  /** Names in any case have their numbers; any other token is accepted exactly when it is a
      decimal number below 256. */
  lemma ProtocolExactly(token: gostring, p: byte)
    ensures ProtocolOf(token) == Some(p) <==> NamesProtocol(token, p)
  {
    NamesAreLower();
    SpellsExactly(token, Ascii("tcp"));
    SpellsExactly(token, Ascii("udp"));
    SpellsExactly(token, Ascii("icmp"));
    SpellsExactly(token, Ascii("icmpv6"));
    SpellsExactly(token, Ascii("ip"));
    if token != [] && AllDigits(token) {
      assert IsDigit(token[0]) && ToLower(token)[0] == token[0];
    }
  }

  lemma NumberedProtocol(p: byte)
    ensures IsToken(PrintUint(p)) && ProtocolOf(PrintUint(p)) == Some(p)
  {
    PrintedParses(p);
    PrintedIsToken(p);
    ProtocolExactly(PrintUint(p), p);
  }

  // ----- ports -----

  function FirstDash(s: gostring): (n: nat)
    requires DASH in s
    ensures n < |s| && s[n] == DASH && DASH !in s[..n]
  {
    if s[0] == DASH then 0 else 1 + FirstDash(s[1..])
  }

  lemma {:induction false} FirstDashIs(s: gostring, n: nat)
    requires n < |s| && s[n] == DASH && DASH !in s[..n]
    ensures DASH in s && FirstDash(s) == n
  {
    if n > 0 {
      assert s[..n][0] == s[0] && s[..n][1..] == s[1..][..n - 1];
      FirstDashIs(s[1..], n - 1);
    }
  }

  /** strings.Split at dashes. */
  function SplitDash(s: gostring): (parts: seq<gostring>)
    ensures parts != []
    decreases |s|
  {
    if DASH !in s then [s] else [s[..FirstDash(s)]] + SplitDash(s[FirstDash(s) + 1..])
  }

  datatype Ports = Ports(start: u16, end: u16)

  function PortsOf(s: gostring): Option<Ports> {
    if DASH in s then
      var parts := SplitDash(s);
      if |parts| != 2 then None else
      var start, end := ParseUint(parts[0], 0xFFFF), ParseUint(parts[1], 0xFFFF);
      if start.None? || end.None? then None else Some(Ports(start.value, end.value))
    else
      match ParseUint(s, 0xFFFF) case Some(v) => Some(Ports(v, v)) case None => None
  }

  function PrintRange(p: Ports): gostring {
    PrintUint(p.start) + [DASH] + PrintUint(p.end)
  }

  lemma SplitPrinted(a: gostring, b: gostring)
    requires DASH !in a && DASH !in b
    ensures SplitDash(a + [DASH] + b) == [a, b]
  {
    var s := a + [DASH] + b;
    assert s[|a|] == DASH;
    assert s[..|a|] == a;
    FirstDashIs(s, |a|);
    assert s[..|a|] == a && s[|a| + 1..] == b;
  }

  /** One number for both ports, or two numbers with a dash between them. */
  ghost predicate PortsText(s: gostring, a: nat, b: nat) {
    || (IsDecimal(s, a) && a == b)
    || exists n :: 0 <= n < |s| && s[n] == 45 && IsDecimal(s[..n], a) && IsDecimal(s[n + 1..], b)
  }

  /** A text of ports is accepted exactly in these two forms, with numbers below 65536. */
  lemma PortsExactly(s: gostring, p: Ports)
    ensures PortsOf(s) == Some(p) <==> PortsText(s, p.start, p.end)
  {
    DashIsNoDigit(s);
    if DASH in s {
      if PortsOf(s) == Some(p) {
        RangeIsText(s, p);
      }
      if n :| 0 <= n < |s| && s[n] == 45 && IsDecimal(s[..n], p.start) && IsDecimal(s[n + 1..], p.end) {
        TextIsRange(s, n);
      }
    }
  }

  lemma RangeIsText(s: gostring, p: Ports)
    requires DASH in s && PortsOf(s) == Some(p)
    ensures var n := FirstDash(s); IsDecimal(s[..n], p.start) && IsDecimal(s[n + 1..], p.end)
  {
    var n := FirstDash(s);
    var rest := SplitDash(s[n + 1..]);
    assert SplitDash(s) == [s[..n]] + rest;
    assert |rest| == 1 && rest == [s[n + 1..]];
  }

  lemma TextIsRange(s: gostring, n: nat)
    requires n < |s| && s[n] == DASH && AllDigits(s[..n]) && AllDigits(s[n + 1..])
    ensures SplitDash(s) == [s[..n], s[n + 1..]]
  {
    assert s == s[..n] + [DASH] + s[n + 1..];
    DashIsNoDigit(s[..n]);
    DashIsNoDigit(s[n + 1..]);
    SplitPrinted(s[..n], s[n + 1..]);
  }

  lemma DashIsNoDigit(s: gostring)
    ensures AllDigits(s) ==> DASH !in s
  {
  }

  lemma PrintedIsToken(n: nat)
    ensures IsToken(PrintUint(n)) && DASH !in PrintUint(n)
  {
    var s := PrintUint(n);
    assert forall i :: 0 <= i < |s| ==> IsDigit(s[i]);
    PlainToken(s);
  }

  /** A range prints to a token that parses to the range; so does a single port. */
  lemma PortsRoundTrip(p: Ports)
    ensures IsToken(PrintRange(p)) && PortsOf(PrintRange(p)) == Some(p)
    ensures IsToken(PrintUint(p.start)) && PortsOf(PrintUint(p.start)) == Some(Ports(p.start, p.start))
  {
    PrintedParses(p.start);
    PrintedParses(p.end);
    PrintedIsToken(p.start);
    PrintedIsToken(p.end);
    SplitPrinted(PrintUint(p.start), PrintUint(p.end));
    RangeIsToken(PrintUint(p.start), PrintUint(p.end));
  }

  lemma RangeIsToken(a: gostring, b: gostring)
    requires AllDigits(a) && AllDigits(b)
    ensures IsToken(a + [DASH] + b) && DASH in a + [DASH] + b
  {
    var s := a + [DASH] + b;
    assert s[|a|] == DASH;
    assert forall i :: 0 <= i < |s| ==> 33 <= s[i] <= 126;
    PlainToken(s);
  }

  // ----- whole descriptions -----

  datatype Sdf = Sdf(flow: gostring, action: gostring, direction: gostring, protocol: byte,
                     src: gostring, dst: gostring, portStart: u16, portEnd: u16, family: byte,
                     tos: u16, spi: u32, flowLabel: u32, filterId: u32)

  const EMPTY_SDF := Sdf([], [], [], 0, [], [], 0, 0, 0, 0, 0, 0, 0)

  function FamilyOf(src: gostring, dst: gostring): byte {
    if COLON in src || COLON in dst then 1 else 0
  }

  /** The filter a list of tokens denotes: action, direction, protocol, "from", source, "to",
      destination, optionally ports; more tokens are ignored. */
  function FilterOf(text: gostring, ts: seq<gostring>): Option<Sdf> {
    if |ts| < 7 then None else
    var protocol := ProtocolOf(ts[2]);
    if protocol.None? || ts[3] != Ascii("from") || ts[5] != Ascii("to") then None else
    var ports := if |ts| > 7 then PortsOf(ts[7]) else Some(Ports(0, 0));
    if ports.None? then None else
    Some(EMPTY_SDF.(flow := text, action := ts[0], direction := ts[1], protocol := protocol.value,
                    src := ts[4], dst := ts[6], family := FamilyOf(ts[4], ts[6]),
                    portStart := ports.value.start, portEnd := ports.value.end))
  }

  function ParseFlow(text: gostring): Option<Sdf> {
    FilterOf(text, Fields(text))
  }

  /** What it means that a text describes a filter: seven tokens or more, a protocol in the third
      place, "from" and "to" in the fourth and sixth, ports in the eighth if there is one. */
  ghost predicate Describes(text: gostring, f: Sdf) {
    var ts := Fields(text);
    && |ts| >= 7
    && ts[3] == [102, 114, 111, 109] && ts[5] == [116, 111]
    && NamesProtocol(ts[2], f.protocol)
    && (if |ts| > 7 then PortsText(ts[7], f.portStart, f.portEnd) else f.portStart == f.portEnd == 0)
    && f.flow == text && f.action == ts[0] && f.direction == ts[1] && f.src == ts[4] && f.dst == ts[6]
    && f.family == (if 58 in ts[4] || 58 in ts[6] then 1 else 0)
    && f.tos == 0 && f.spi == 0 && f.flowLabel == 0 && f.filterId == 0
  }

  /** A text is parsed to the filter it describes, and rejected exactly when it describes none. */
  lemma FlowExactly(text: gostring, f: Sdf)
    ensures ParseFlow(text) == Some(f) <==> Describes(text, f)
  {
    var ts := Fields(text);
    assert Ascii("from") == [102, 114, 111, 109] && Ascii("to") == [116, 111];
    if |ts| >= 7 {
      ProtocolExactly(ts[2], f.protocol);
      if |ts| > 7 {
        PortsExactly(ts[7], Ports(f.portStart, f.portEnd));
      }
    }
  }

  lemma FlowHasNoNumbers(text: gostring)
    ensures ParseFlow(text).Some? ==>
              var f := ParseFlow(text).value; f.tos == 0 && f.spi == 0 && f.flowLabel == 0 && f.filterId == 0
  {
  }

  /** The description of the given parts, protocol and ports as the given tokens. */
  function PrintFlow(action: gostring, direction: gostring, protocol: gostring, src: gostring,
                     dst: gostring, ports: Option<gostring>): gostring {
    Join([action, direction, protocol, Ascii("from"), src, Ascii("to"), dst]
         + if ports.Some? then [ports.value] else [])
  }

  /** Parsing a printed description recovers every part. */
  lemma FlowRoundTrip(action: gostring, direction: gostring, protocol: gostring, p: byte,
                      src: gostring, dst: gostring, ports: Option<gostring>, r: Ports)
    requires IsToken(action) && IsToken(direction) && IsToken(src) && IsToken(dst)
    requires IsToken(protocol) && NamesProtocol(protocol, p)
    requires match ports case None => r == Ports(0, 0) case Some(t) => IsToken(t) && PortsText(t, r.start, r.end)
    ensures var text := PrintFlow(action, direction, protocol, src, dst, ports);
            ParseFlow(text) == Some(Sdf(text, action, direction, p, src, dst, r.start, r.end,
                                        if 58 in src || 58 in dst then 1 else 0, 0, 0, 0, 0))
  {
    var ts := [action, direction, protocol, Ascii("from"), src, Ascii("to"), dst]
              + if ports.Some? then [ports.value] else [];
    Keywords();
    FieldsOfJoin(ts);
    ProtocolExactly(protocol, p);
    if ports.Some? {
      PortsExactly(ports.value, r);
    }
  }

  lemma Keywords()
    ensures IsToken(Ascii("from")) && IsToken(Ascii("to"))
  {
    var f, t := Ascii("from"), Ascii("to");
    assert f == [102, 114, 111, 109] && t == [116, 111];
    PlainToken(f);
    PlainToken(t);
  }

  /** The canonical text of a filter. */
  function Canonical(f: Sdf): gostring {
    PrintFlow(f.action, f.direction, PrintUint(f.protocol), f.src, f.dst,
              Some(PrintRange(Ports(f.portStart, f.portEnd))))
  }

  /** Every accepted text has a canonical text with the same meaning. */
  lemma CanonicalText(text: gostring)
    requires ParseFlow(text).Some?
    ensures var f := ParseFlow(text).value;
            ParseFlow(Canonical(f)) == Some(f.(flow := Canonical(f)))
  {
    var f := ParseFlow(text).value;
    FieldsAreTokens(text);
    NumberedProtocol(f.protocol);
    ProtocolExactly(PrintUint(f.protocol), f.protocol);
    PortsRoundTrip(Ports(f.portStart, f.portEnd));
    PortsExactly(PrintRange(Ports(f.portStart, f.portEnd)), Ports(f.portStart, f.portEnd));
    FlowRoundTrip(f.action, f.direction, PrintUint(f.protocol), f.protocol, f.src, f.dst,
                  Some(PrintRange(Ports(f.portStart, f.portEnd))), Ports(f.portStart, f.portEnd));
  }

  /** Apart from the stored text, the result depends on the tokens alone: white space and
      anything after the eighth token do not matter. */
  lemma OnlyTokensMatter(text: gostring, text': gostring)
    requires var ts, ts' := Fields(text), Fields(text');
             (|ts| == |ts'| || (|ts| >= 8 && |ts'| >= 8)) && (forall i :: 0 <= i < |ts| && i < 8 ==> ts[i] == ts'[i])
    ensures ParseFlow(text).Some? <==> ParseFlow(text').Some?
    ensures ParseFlow(text).Some? ==> ParseFlow(text').value == ParseFlow(text).value.(flow := text')
  {
  }

  // ----- the imperative code -----

  method ParsePortRange(portRange: gostring, sdf: Sdf) returns (r: Option<Sdf>)
    ensures r == match PortsOf(portRange)
                 case Some(p) => Some(sdf.(portStart := p.start, portEnd := p.end))
                 case None => None
    ensures r.Some? ==> PortsText(portRange, r.value.portStart, r.value.portEnd)
    ensures r.None? ==> forall p: Ports :: !PortsText(portRange, p.start, p.end)
  {
    forall p: Ports ensures PortsOf(portRange) == Some(p) <==> PortsText(portRange, p.start, p.end) {
      PortsExactly(portRange, p);
    }
    if DASH in portRange {
      var ports := SplitDash(portRange);
      if |ports| != 2 {
        return None;
      }
      var start := ParseUint(ports[0], 0xFFFF);
      if start.None? {
        return None;
      }
      var end := ParseUint(ports[1], 0xFFFF);
      if end.None? {
        return None;
      }
      r := Some(sdf.(portStart := start.value, portEnd := end.value));
    } else {
      var port := ParseUint(portRange, 0xFFFF);
      if port.None? {
        return None;
      }
      r := Some(sdf.(portStart := port.value, portEnd := port.value));
    }
  }

  method ParseFlowDescription(flowDesc: gostring) returns (r: Option<Sdf>)
    ensures r == ParseFlow(flowDesc)
    ensures r.Some? ==> Describes(flowDesc, r.value)
    ensures r.None? ==> forall f :: !Describes(flowDesc, f)
  {
    forall f ensures ParseFlow(flowDesc) == Some(f) <==> Describes(flowDesc, f) {
      FlowExactly(flowDesc, f);
    }
    var parts := Fields(flowDesc);
    if |parts| < 7 {
      return None;
    }
    var sdf := EMPTY_SDF.(flow := flowDesc, action := parts[0], direction := parts[1]);
    var protocol := ProtocolOf(parts[2]);
    if protocol.None? {
      return None;
    }
    sdf := sdf.(protocol := protocol.value);
    if parts[3] != Ascii("from") {
      return None;
    }
    sdf := sdf.(src := parts[4]);
    if parts[5] != Ascii("to") {
      return None;
    }
    sdf := sdf.(dst := parts[6]);
    sdf := sdf.(family := if COLON in sdf.src || COLON in sdf.dst then 1 else 0);
    if |parts| > 7 {
      r := ParsePortRange(parts[7], sdf);
      return;
    }
    r := Some(sdf);
  }
}
