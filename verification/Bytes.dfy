/** Bytes, fixed-width integers in network byte order, and a few sequence helpers. */
module Bytes {

  datatype Option<+T> = None | Some(value: T)

  type byte = x: int | 0 <= x < 0x100
  type u16 = x: int | 0 <= x < 0x1_0000
  type u32 = x: int | 0 <= x < 0x1_0000_0000

  const U32_MAX: u32 := 0xFFFF_FFFF

  function Be16At(p: seq<byte>, i: nat): u16
    requires i + 2 <= |p|
  {
    p[i] as int * 0x100 + p[i + 1]
  }

  function Be32At(p: seq<byte>, i: nat): u32
    requires i + 4 <= |p|
  {
    p[i] as int * 0x100_0000 + p[i + 1] as int * 0x1_0000 + p[i + 2] as int * 0x100 + p[i + 3]
  }

  function PutBe16(v: u16): (r: seq<byte>)
    ensures |r| == 2 && Be16At(r, 0) == v
  {
    [v / 0x100, v % 0x100]
  }

  function PutBe32(v: u32): (r: seq<byte>)
    ensures |r| == 4 && Be32At(r, 0) == v
  {
    var high := v / 0x100;
    var higher := high / 0x100;
    [higher / 0x100, higher % 0x100, high % 0x100, v % 0x100]
  }

  /** Two 4-byte fields with the same value hold the same bytes. */
  lemma Be32Injective(p: seq<byte>, q: seq<byte>, i: nat)
    requires i + 4 <= |p| && i + 4 <= |q|
    requires Be32At(p, i) == Be32At(q, i)
    ensures p[i] == q[i] && p[i + 1] == q[i + 1] && p[i + 2] == q[i + 2] && p[i + 3] == q[i + 3]
  {
  }

  function Min(a: nat, b: nat): nat {
    if a <= b then a else b
  }

  function Max(a: nat, b: nat): nat {
    if a <= b then b else a
  }

  function Clamp(x: nat, lo: nat, hi: nat): nat
    requires lo <= hi
  {
    if x < lo then lo else if x > hi then hi else x
  }

  /** `s` lies in `p` at `pos`. */
  ghost predicate Holds(p: seq<byte>, pos: nat, s: seq<byte>) {
    pos + |s| <= |p| && p[pos..pos + |s|] == s
  }

  lemma HoldsSplit(p: seq<byte>, pos: nat, a: seq<byte>, b: seq<byte>)
    requires Holds(p, pos, a + b)
    ensures Holds(p, pos, a) && Holds(p, pos + |a|, b)
  {
    var s := p[pos..pos + |a + b|];
    assert s[..|a|] == a && s[|a|..] == b;
    assert p[pos..pos + |a|] == s[..|a|];
    assert p[pos + |a|..pos + |a| + |b|] == s[|a|..];
  }

  lemma HoldsPrefix(s: seq<byte>, rest: seq<byte>)
    ensures Holds(s + rest, 0, s)
  {
  }

  lemma HoldsAt(p: seq<byte>, pos: nat, s: seq<byte>, i: nat)
    requires Holds(p, pos, s) && i < |s|
    ensures p[pos + i] == s[i]
  {
    assert p[pos..pos + |s|][i] == s[i];
  }

  lemma HoldsBe16(p: seq<byte>, pos: nat, v: u16)
    requires Holds(p, pos, PutBe16(v))
    ensures Be16At(p, pos) == v
  {
    HoldsAt(p, pos, PutBe16(v), 0);
    HoldsAt(p, pos, PutBe16(v), 1);
  }

  lemma HoldsBe32(p: seq<byte>, pos: nat, v: u32)
    requires Holds(p, pos, PutBe32(v))
    ensures Be32At(p, pos) == v
  {
    var s := PutBe32(v);
    HoldsAt(p, pos, s, 0);
    HoldsAt(p, pos, s, 1);
    HoldsAt(p, pos, s, 2);
    HoldsAt(p, pos, s, 3);
    assert Be32At(s, 0) == v;
  }

  /** Where `b` first occurs, or the length. */
  function IndexOf(s: seq<byte>, b: byte): (i: nat)
    ensures i <= |s| && (i < |s| ==> s[i] == b)
    ensures forall j :: 0 <= j < i ==> s[j] != b
  {
    if s == [] || s[0] == b then 0 else 1 + IndexOf(s[1..], b)
  }

  lemma IndexOfFirst(a: seq<byte>, b: byte, c: seq<byte>)
    requires b !in a
    ensures IndexOf(a + [b] + c, b) == |a|
    ensures IndexOf(a, b) == |a|
  {
    var s := a + [b] + c;
    assert s[|a|] == b;
    assert forall j :: 0 <= j < |a| ==> s[j] == a[j];
  }

  /** Where `b` last occurs. */
  function LastIndexOf(s: seq<byte>, b: byte): (r: Option<nat>)
    ensures r.Some? ==> r.value < |s| && s[r.value] == b && b !in s[r.value + 1..]
    ensures r.None? ==> b !in s
  {
    if s == [] then None
    else if s[|s| - 1] == b then Some(|s| - 1)
    else
      var r := LastIndexOf(s[..|s| - 1], b);
      assert s == s[..|s| - 1] + [s[|s| - 1]];
      assert r.Some? ==> s[r.value + 1..] == s[..|s| - 1][r.value + 1..] + [s[|s| - 1]];
      r
  }

  lemma {:induction false} LastIndexOfLast(a: seq<byte>, b: byte, c: seq<byte>)
    requires b !in c
    ensures LastIndexOf(a + [b] + c, b) == Some(|a|)
    decreases |c|
  {
    var s := a + [b] + c;
    if c == [] {
      assert s[|s| - 1] == b;
    } else {
      var n := |c| - 1;
      assert s[|s| - 1] == c[n] != b;
      assert s[..|s| - 1] == a + [b] + c[..n];
      LastIndexOfLast(a, b, c[..n]);
    }
  }

  /** The characters as bytes; those beyond ASCII are not told apart. */
  function Ascii(s: string): seq<byte> {
    seq(|s|, i requires 0 <= i < |s| => if (s[i] as int) < 0x80 then s[i] as int else 0xFF)
  }

  /** A set of at least `n` elements has a subset of exactly `n`. */
  lemma {:induction false} SubsetOfSize<T>(s: set<T>, n: nat) returns (t: set<T>)
    requires n <= |s|
    ensures t <= s && |t| == n
  {
    if n == 0 {
      t := {};
    } else {
      var x :| x in s;
      var u := SubsetOfSize(s - {x}, n - 1);
      t := u + {x};
    }
  }
}
