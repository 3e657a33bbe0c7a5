/** Splitting and joining sequences, and regrouping concatenations. */
module Sequences {

  /** The stretches between separators. */
  function Split<T(==)>(s: seq<T>, sep: T): (parts: seq<seq<T>>)
    ensures parts != []
  {
    if s == [] then [[]]
    else
      var rest := Split(s[1..], sep);
      if s[0] == sep then [[]] + rest else [[s[0]] + rest[0]] + rest[1..]
  }

  function Join<T>(parts: seq<seq<T>>, sep: T): seq<T> {
    if parts == [] then [] else if |parts| == 1 then parts[0] else parts[0] + [sep] + Join(parts[1..], sep)
  }

  /** Every part with a separator before it. */
  function Led<T>(parts: seq<seq<T>>, sep: T): seq<T> {
    if parts == [] then [] else [sep] + parts[0] + Led(parts[1..], sep)
  }

  lemma {:induction false} JoinIsLed<T>(first: seq<T>, parts: seq<seq<T>>, sep: T)
    ensures Join([first] + parts, sep) == first + Led(parts, sep)
    decreases |parts|
  {
    if parts == [] {
      assert first + Led(parts, sep) == first;
    } else {
      assert ([first] + parts)[1..] == parts == [parts[0]] + parts[1..];
      JoinIsLed(parts[0], parts[1..], sep);
      assert first + [sep] + (parts[0] + Led(parts[1..], sep)) == first + ([sep] + parts[0] + Led(parts[1..], sep));
    }
  }

  lemma {:induction false} SplitOne<T>(s: seq<T>, sep: T)
    requires sep !in s
    ensures Split(s, sep) == [s]
  {
    if s != [] {
      assert s == [s[0]] + s[1..];
      SplitOne(s[1..], sep);
    }
  }

  lemma {:induction false} SplitAt<T>(a: seq<T>, b: seq<T>, sep: T)
    ensures Split(a + [sep] + b, sep) == Split(a, sep) + Split(b, sep)
    decreases |a|
  {
    if a == [] {
      SplitCons(sep, b, sep);
      assert a + [sep] + b == [sep] + b;
    } else {
      hide Split;
      SplitAt(a[1..], b, sep);
      SplitCons(a[0], a[1..], sep);
      SplitCons(a[0], a[1..] + [sep] + b, sep);
      HeadAndRest(a, [sep] + b);
      Regroup(a, [sep], b);
      Regroup(a[1..], [sep], b);
      HeadAppended(a[0], Split(a[1..], sep), Split(b, sep));
    }
  }

  lemma HeadAndRest<T>(a: seq<T>, b: seq<T>)
    requires a != []
    ensures a == [a[0]] + a[1..] && a + b == [a[0]] + (a[1..] + b)
  {
  }

  lemma HeadAppended<T>(x: T, parts: seq<seq<T>>, more: seq<seq<T>>)
    requires parts != []
    ensures [[x] + (parts + more)[0]] + (parts + more)[1..] == ([[x] + parts[0]] + parts[1..]) + more
    ensures [[]] + (parts + more) == ([[]] + parts) + more
  {
  }

  lemma SplitCons<T>(x: T, s: seq<T>, sep: T)
    ensures Split([x] + s, sep) ==
            if x == sep then [[]] + Split(s, sep) else [[x] + Split(s, sep)[0]] + Split(s, sep)[1..]
  {
    assert ([x] + s)[1..] == s;
  }

  lemma {:induction false} SplitJoined<T>(parts: seq<seq<T>>, sep: T)
    requires parts != [] && forall k :: 0 <= k < |parts| ==> sep !in parts[k]
    ensures Split(Join(parts, sep), sep) == parts
    decreases |parts|
  {
    SplitOne(parts[0], sep);
    if |parts| > 1 {
      SplitAt(parts[0], Join(parts[1..], sep), sep);
      SplitJoined(parts[1..], sep);
    }
  }

  lemma {:induction false} JoinSplit<T>(s: seq<T>, sep: T)
    ensures Join(Split(s, sep), sep) == s
  {
    if s != [] {
      var rest := Split(s[1..], sep);
      JoinSplit(s[1..], sep);
      if s[0] == sep {
        assert ([[]] + rest)[1..] == rest;
        assert Join([[]] + rest, sep) == [] + [sep] + Join(rest, sep);
      } else {
        JoinHead(s[0], rest, sep);
      }
    }
  }

  lemma JoinHead<T>(x: T, parts: seq<seq<T>>, sep: T)
    requires parts != []
    ensures Join([[x] + parts[0]] + parts[1..], sep) == [x] + Join(parts, sep)
  {
    assert ([[x] + parts[0]] + parts[1..])[1..] == parts[1..];
  }

  /** The last piece is empty exactly when the text is, or ends with the separator. */
  lemma {:induction false} LastPiece<T>(s: seq<T>, sep: T)
    ensures Split(s, sep)[|Split(s, sep)| - 1] == [] <==> s == [] || s[|s| - 1] == sep
  {
    if s != [] {
      LastPiece(s[1..], sep);
      assert s[1..] != [] ==> s[1..][|s| - 2] == s[|s| - 1];
    }
  }

  /** Every element other than a separator is in some part. */
  lemma {:induction false} SplitKeeps<T>(s: seq<T>, sep: T, i: nat)
    requires i < |s| && s[i] != sep
    ensures exists k :: 0 <= k < |Split(s, sep)| && s[i] in Split(s, sep)[k]
  {
    var rest := Split(s[1..], sep);
    var parts := Split(s, sep);
    if i == 0 {
      assert parts[0][0] == s[0];
      assert s[i] in parts[0];
    } else {
      SplitKeeps(s[1..], sep, i - 1);
      var k :| 0 <= k < |rest| && s[i] in rest[k];
      if s[0] == sep {
        assert parts[k + 1] == rest[k];
      } else if k > 0 {
        assert parts[k] == rest[k];
      } else {
        assert parts[0] == [s[0]] + rest[0];
      }
    }
  }

  lemma MoveOne<T>(a: seq<T>, x: T, b: seq<T>)
    ensures a + ([x] + b) == (a + [x]) + b
  {
  }

  lemma Regroup<T>(a: seq<T>, b: seq<T>, c: seq<T>)
    ensures a + b + c == a + (b + c)
  {
  }
}
