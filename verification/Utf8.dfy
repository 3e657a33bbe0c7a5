/** Well-formed UTF-8, as Rust's `str::from_utf8` accepts it (section 4 of RFC 3629). */
module Utf8 {
  import opened Bytes

  predicate Continues(b: byte) {
    0x80 <= b <= 0xBF
  }

  /** Length of the well-formed character at the front of `s`, or 0 if there is none. */
  function CharLen(s: seq<byte>): (n: nat)
    ensures n <= |s|
  {
    if |s| >= 1 && s[0] < 0x80 then 1
    else if |s| >= 2 && 0xC2 <= s[0] <= 0xDF && Continues(s[1]) then 2
    else if |s| >= 3 && 0xE0 <= s[0] <= 0xEF && Continues(s[1]) && Continues(s[2])
            && (s[0] == 0xE0 ==> s[1] >= 0xA0) && (s[0] == 0xED ==> s[1] <= 0x9F) then 3
    else if |s| >= 4 && 0xF0 <= s[0] <= 0xF4 && Continues(s[1]) && Continues(s[2]) && Continues(s[3])
            && (s[0] == 0xF0 ==> s[1] >= 0x90) && (s[0] == 0xF4 ==> s[1] <= 0x8F) then 4
    else 0
  }

  predicate Valid(s: seq<byte>)
    decreases |s|
  {
    s == [] || (CharLen(s) > 0 && Valid(s[CharLen(s)..]))
  }

  // ---------------------------------------------------------------- what is well-formed

  /** Section 3 of RFC 3629: a code point other than a surrogate. */
  predicate IsScalar(c: nat) {
    c < 0xD800 || 0xE000 <= c < 0x11_0000
  }

  function EncodeScalar(c: nat): (s: seq<byte>)
    requires IsScalar(c)
    ensures 1 <= |s| <= 4
  {
    if c < 0x80 then [c]
    else if c < 0x800 then [0xC0 + c / 0x40, 0x80 + c % 0x40]
    else if c < 0x1_0000 then [0xE0 + c / 0x1000, 0x80 + c / 0x40 % 0x40, 0x80 + c % 0x40]
    else [0xF0 + c / 0x4_0000, 0x80 + c / 0x1000 % 0x40, 0x80 + c / 0x40 % 0x40, 0x80 + c % 0x40]
  }

  predicate AllScalars(cs: seq<nat>) {
    forall k :: 0 <= k < |cs| ==> IsScalar(cs[k])
  }

  function EncodeAll(cs: seq<nat>): seq<byte>
    requires AllScalars(cs)
  {
    if cs == [] then [] else EncodeScalar(cs[0]) + EncodeAll(cs[1..])
  }

  lemma ScalarRead(c: nat, rest: seq<byte>)
    requires IsScalar(c)
    ensures CharLen(EncodeScalar(c) + rest) == |EncodeScalar(c)|
  {
    if c < 0x800 {
      ShortRead(c, EncodeScalar(c) + rest);
    } else if c < 0x1_0000 {
      ThreeRead(c, EncodeScalar(c) + rest);
    } else {
      FourRead(c, EncodeScalar(c) + rest);
    }
  }

  lemma ShortRead(c: nat, s: seq<byte>)
    requires c < 0x800 && EncodeScalar(c) <= s
    ensures CharLen(s) == |EncodeScalar(c)|
  {
  }

  lemma ThreeRead(c: nat, s: seq<byte>)
    requires 0x800 <= c < 0x1_0000 && IsScalar(c) && EncodeScalar(c) <= s
    ensures CharLen(s) == 3
  {
    var a, b := c / 0x1000, c / 0x40 % 0x40;
    assert a * 0x40 + b == c / 0x40;
    assert s[0] == 0xE0 + a && s[1] == 0x80 + b;
  }

  lemma FourRead(c: nat, s: seq<byte>)
    requires 0x1_0000 <= c && IsScalar(c) && EncodeScalar(c) <= s
    ensures CharLen(s) == 4
  {
    var a, b := c / 0x4_0000, c / 0x1000 % 0x40;
    assert a * 0x40 + b == c / 0x1000;
    assert s[0] == 0xF0 + a && s[1] == 0x80 + b;
  }

  /** The character at the front, put together from the payload bits of its bytes. */
  function FirstScalar(s: seq<byte>): int
    requires CharLen(s) > 0
  {
    var n := CharLen(s);
    if n == 1 then s[0]
    else if n == 2 then Joined([s[0] - 0xC0, s[1] - 0x80])
    else if n == 3 then Joined([s[0] - 0xE0, s[1] - 0x80, s[2] - 0x80])
    else Joined([s[0] - 0xF0, s[1] - 0x80, s[2] - 0x80, s[3] - 0x80])
  }

  /** Groups of six bits, the highest first. */
  function Joined(groups: seq<int>): int {
    if groups == [] then 0 else Joined(groups[..|groups| - 1]) * 0x40 + groups[|groups| - 1]
  }

  lemma JoinedTwo(a: nat, b: nat)
    requires b < 0x40
    ensures Joined([a, b]) == a * 0x40 + b && Joined([a, b]) / 0x40 == a && Joined([a, b]) % 0x40 == b
  {
    assert [a, b][..1] == [a] && [a][..0] == [];
    assert Joined([a]) == Joined([]) * 0x40 + a;
  }

  lemma JoinedThree(a: nat, b: nat, c: nat)
    requires b < 0x40 && c < 0x40
    ensures
      var n := Joined([a, b, c]);
      n == a * 0x1000 + b * 0x40 + c && n / 0x1000 == a && n / 0x40 % 0x40 == b && n % 0x40 == c
  {
    JoinedTwo(a, b);
    assert [a, b, c][..2] == [a, b];
    assert Joined([a, b, c]) == Joined([a, b]) * 0x40 + c;
  }

  lemma JoinedFour(a: nat, b: nat, c: nat, d: nat)
    requires b < 0x40 && c < 0x40 && d < 0x40
    ensures
      var n := Joined([a, b, c, d]);
      && n == a * 0x4_0000 + b * 0x1000 + c * 0x40 + d
      && n / 0x4_0000 == a && n / 0x1000 % 0x40 == b && n / 0x40 % 0x40 == c && n % 0x40 == d
  {
    JoinedThree(a, b, c);
    assert [a, b, c, d][..3] == [a, b, c];
    assert Joined([a, b, c, d]) == Joined([a, b, c]) * 0x40 + d;
  }

  lemma FirstScalarEncoded(s: seq<byte>)
    requires CharLen(s) > 0
    ensures FirstScalar(s) >= 0 && IsScalar(FirstScalar(s)) && EncodeScalar(FirstScalar(s)) == s[..CharLen(s)]
  {
    var n := CharLen(s);
    assert 1 <= n <= 4;
    hide *;
    if n == 1 {
      OneEncoded(s);
    } else if n == 2 {
      TwoEncoded(s);
    } else if n == 3 {
      ThreeEncoded(s);
    } else {
      FourEncoded(s);
    }
  }

  lemma OneEncoded(s: seq<byte>)
    requires CharLen(s) == 1
    ensures FirstScalar(s) >= 0 && IsScalar(FirstScalar(s)) && EncodeScalar(FirstScalar(s)) == s[..1]
  {
  }

  lemma TwoEncoded(s: seq<byte>)
    requires CharLen(s) == 2
    ensures FirstScalar(s) >= 0 && IsScalar(FirstScalar(s)) && EncodeScalar(FirstScalar(s)) == s[..2]
  {
    hide Joined;
    JoinedTwo(s[0] - 0xC0, s[1] - 0x80);
  }

  lemma ThreeEncoded(s: seq<byte>)
    requires CharLen(s) == 3
    ensures FirstScalar(s) >= 0 && IsScalar(FirstScalar(s)) && EncodeScalar(FirstScalar(s)) == s[..3]
  {
    hide Joined;
    JoinedThree(s[0] - 0xE0, s[1] - 0x80, s[2] - 0x80);
  }

  lemma FourEncoded(s: seq<byte>)
    requires CharLen(s) == 4
    ensures FirstScalar(s) >= 0 && IsScalar(FirstScalar(s)) && EncodeScalar(FirstScalar(s)) == s[..4]
  {
    hide Joined;
    JoinedFour(s[0] - 0xF0, s[1] - 0x80, s[2] - 0x80, s[3] - 0x80);
  }

  lemma {:induction false} EncodedIsValid(cs: seq<nat>)
    requires AllScalars(cs)
    ensures Valid(EncodeAll(cs))
  {
    if cs != [] {
      var rest := EncodeAll(cs[1..]);
      ScalarRead(cs[0], rest);
      assert (EncodeScalar(cs[0]) + rest)[|EncodeScalar(cs[0])|..] == rest;
      EncodedIsValid(cs[1..]);
    }
  }

  lemma {:induction false} ValidIsEncoded(s: seq<byte>) returns (cs: seq<nat>)
    requires Valid(s)
    ensures AllScalars(cs) && EncodeAll(cs) == s
    decreases |s|
  {
    if s == [] {
      cs := [];
    } else {
      FirstScalarEncoded(s);
      var rest := ValidIsEncoded(s[CharLen(s)..]);
      cs := [FirstScalar(s)] + rest;
      assert cs[1..] == rest;
      assert s == s[..CharLen(s)] + s[CharLen(s)..];
    }
  }

  /** A byte string is accepted exactly when it is the concatenated encodings of scalar values. */
  lemma ValidExactly(s: seq<byte>)
    ensures Valid(s) <==> exists cs :: AllScalars(cs) && EncodeAll(cs) == s
  {
    if Valid(s) {
      var cs := ValidIsEncoded(s);
    }
    forall cs | AllScalars(cs) && EncodeAll(cs) == s
      ensures Valid(s)
    {
      EncodedIsValid(cs);
    }
  }
}
