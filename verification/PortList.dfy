/** The `--ports` list (src/config.rs, `PortList`). */
module PortList {
  import opened Bytes
  import opened Decimal
  import opened Sequences

  const COMMA: char := ','

  // ---------------------------------------------------------------- specification

  /** Unicode White_Space. */
  predicate IsWhitespace(c: char) {
    var n := c as int;
    9 <= n <= 13 || n == 0x20 || n == 0x85 || n == 0xA0 || n == 0x1680 || 0x2000 <= n <= 0x200A
    || n == 0x2028 || n == 0x2029 || n == 0x202F || n == 0x205F || n == 0x3000
  }

  function Trim(s: string): string
    decreases |s|
  {
    if s != [] && IsWhitespace(s[0]) then Trim(s[1..])
    else if s != [] && IsWhitespace(s[|s| - 1]) then Trim(s[..|s| - 1])
    else s
  }

  function Text(s: seq<byte>): string {
    seq(|s|, i requires 0 <= i < |s| => s[i] as char)
  }

  function PortOf(part: string): (p: Option<u16>)
    ensures p != Some(0)
  {
    var port := ParseU16(Ascii(Trim(part)));
    if port == Some(0) then None else port
  }

  /** The ports of the parts, each where it first occurs. */
  function PortsOf(parts: seq<string>): Option<seq<u16>> {
    if parts == [] then Some([])
    else
      var before, port := PortsOf(parts[..|parts| - 1]), PortOf(parts[|parts| - 1]);
      if before.None? || port.None? then None
      else if port.value in before.value then before
      else Some(before.value + [port.value])
  }

  function Parsed(s: string): Option<seq<u16>> {
    PortsOf(Split(s, COMMA))
  }

  function Printed(ports: seq<u16>): seq<string> {
    seq(|ports|, i requires 0 <= i < |ports| => Text(Digits(ports[i])))
  }

  function Display(ports: seq<u16>): string {
    Join(Printed(ports), COMMA)
  }

  predicate ValidPorts(ports: seq<u16>) {
    && ports != []
    && (forall i :: 0 <= i < |ports| ==> ports[i] != 0)
    && (forall i, j :: 0 <= i < j < |ports| ==> ports[i] != ports[j])
  }

  // ---------------------------------------------------------------- the parser

  method Parse(s: string) returns (r: Option<seq<u16>>)
    ensures r == Parsed(s)
  {
    var ports: seq<u16> := [];
    var seen: set<u16> := {};
    var parts := Split(s, COMMA);
    for i := 0 to |parts|
      invariant PortsOf(parts[..i]) == Some(ports)
      invariant forall p :: p in seen <==> p in ports
    {
      var upTo := parts[..i + 1];
      assert upTo[..|upTo| - 1] == parts[..i];
      var port := ParseU16(Ascii(Trim(parts[i])));
      if port.None? || port.value == 0 {
        BadPart(parts, i + 1);
        return None;
      }
      if port.value !in seen {
        seen := seen + {port.value};
        ports := ports + [port.value];
      }
    }
    assert parts[..|parts|] == parts;
    PortsValid(parts);
    if ports == [] {
      assert false;
      return None;
    }
    return Some(ports);
  }

  /** One bad part refuses the whole list. */
  lemma {:induction false} BadPart(parts: seq<string>, n: nat)
    requires n <= |parts| && PortsOf(parts[..n]) == None
    ensures PortsOf(parts) == None
    decreases |parts|
  {
    if n == |parts| {
      assert parts[..n] == parts;
    } else {
      var front := parts[..|parts| - 1];
      assert front[..n] == parts[..n];
      BadPart(front, n);
    }
  }

  // ---------------------------------------------------------------- what parsing yields

  ghost predicate Named(parts: seq<string>, p: u16) {
    exists k :: 0 <= k < |parts| && PortOf(parts[k]) == Some(p)
  }

  /** A list parses exactly when every part is a port, and then has exactly the parts' ports, each once. */
  lemma {:induction false} PortsValid(parts: seq<string>)
    ensures PortsOf(parts).Some? <==> forall k :: 0 <= k < |parts| ==> PortOf(parts[k]).Some?
    ensures PortsOf(parts).Some? && parts != [] ==> ValidPorts(PortsOf(parts).value)
    ensures PortsOf(parts).Some? ==> forall p: u16 :: p in PortsOf(parts).value <==> Named(parts, p)
    decreases |parts|
  {
    hide PortOf, Named;
    if parts == [] {
      NoneNamed();
    } else {
      var n := |parts| - 1;
      PortsValid(parts[..n]);
      assert forall k :: 0 <= k < n ==> parts[..n][k] == parts[k];
      LastNamed(parts);
    }
  }

  lemma NoneNamed()
    ensures forall p: u16 :: !Named([], p)
  {
  }

  lemma LastNamed(parts: seq<string>)
    requires parts != []
    ensures forall p: u16 :: Named(parts, p) <==>
              Named(parts[..|parts| - 1], p) || PortOf(parts[|parts| - 1]) == Some(p)
  {
    hide PortOf;
    var n := |parts| - 1;
    assert forall k :: 0 <= k < n ==> parts[..n][k] == parts[k];
  }

  // ---------------------------------------------------------------- printing and parsing

  lemma PrintedPort(p: u16)
    ensures COMMA !in Text(Digits(p))
    ensures PortOf(Text(Digits(p))) == if p == 0 then None else Some(p)
  {
    var s := Text(Digits(p));
    assert forall i :: 0 <= i < |s| ==> IsDigit(Digits(p)[i]) && s[i] == Digits(p)[i] as char;
    assert Trim(s) == s;
    assert Ascii(s) == Digits(p);
    PrintedParses(p);
  }

  lemma {:induction false} PrintedPorts(ports: seq<u16>)
    requires (forall i :: 0 <= i < |ports| ==> ports[i] != 0)
             && (forall i, j :: 0 <= i < j < |ports| ==> ports[i] != ports[j])
    ensures PortsOf(Printed(ports)) == Some(ports)
  {
    hide PortOf, Text, Digits;
    if ports != [] {
      var n := |ports| - 1;
      PrintedPorts(ports[..n]);
      PrintedPort(ports[n]);
      PortsOfLast(Printed(ports[..n]), Text(Digits(ports[n])));
      hide PortsOf;
      assert Printed(ports) == Printed(ports[..n]) + [Text(Digits(ports[n]))];
      assert ports[..n] + [ports[n]] == ports;
    }
  }

  lemma PortsOfLast(parts: seq<string>, part: string)
    ensures
      var before, port := PortsOf(parts), PortOf(part);
      PortsOf(parts + [part]) ==
        if before.None? || port.None? then None
        else if port.value in before.value then before
        else Some(before.value + [port.value])
  {
    hide PortOf;
    assert (parts + [part])[..|parts|] == parts;
  }

  /** A list of ports survives printing and parsing exactly when it is one that parsing can yield. */
  lemma DisplayParses(ports: seq<u16>)
    ensures Parsed(Display(ports)) == Some(ports) <==> ValidPorts(ports)
  {
    if ValidPorts(ports) {
      forall k | 0 <= k < |ports|
        ensures COMMA !in Printed(ports)[k]
      {
        PrintedPort(ports[k]);
      }
      SplitJoined(Printed(ports), COMMA);
      PrintedPorts(ports);
    } else {
      PortsValid(Split(Display(ports), COMMA));
    }
  }

  /** Whatever parses is printed as a list that parses to the same ports. */
  lemma ParsedIsCanonical(s: string)
    requires Parsed(s).Some?
    ensures ValidPorts(Parsed(s).value) && Parsed(Display(Parsed(s).value)) == Parsed(s)
  {
    PortsValid(Split(s, COMMA));
    DisplayParses(Parsed(s).value);
  }
}
