/** The command line of the systemd unit and how systemd reads it back (src/service/linux.rs). */
module SystemdQuoting {
  import opened Bytes
  import opened Sequences

  const QUOTE: char := '"'
  const BACKSLASH: char := '\\'

  // ---------------------------------------------------------------- writing

  predicate IsAsciiAlphanumeric(c: char) {
    'a' <= c <= 'z' || 'A' <= c <= 'Z' || '0' <= c <= '9'
  }

  /** Characters that need no quoting. */
  predicate IsPlain(c: char) {
    IsAsciiAlphanumeric(c) || c in "@_+=:,./-"
  }

  predicate Plain(s: string) {
    s != [] && forall c :: c in s ==> IsPlain(c)
  }

  function Doubled(s: string, c: char): string {
    if s == [] then [] else (if s[0] == c then [c, c] else [s[0]]) + Doubled(s[1..], c)
  }

  function EscapedChar(c: char): string {
    if c == QUOTE || c == BACKSLASH then [BACKSLASH, c] else [c]
  }

  /** Text as it stands between double quotes. */
  function Escaped(s: string): string {
    if s == [] then [] else EscapedChar(s[0]) + Escaped(s[1..])
  }

  /** Both expansions disarmed. */
  function Disarmed(arg: string): string {
    Doubled(Doubled(arg, '%'), '$')
  }

  function Quoted(arg: string): string {
    if Plain(Disarmed(arg)) then Disarmed(arg) else [QUOTE] + Escaped(Disarmed(arg)) + [QUOTE]
  }

  method QuoteArg(arg: string) returns (quoted: string)
    ensures quoted == Quoted(arg)
  {
    var escaped := Doubled(Doubled(arg, '%'), '$');
    if escaped != [] && forall c :: c in escaped ==> IsPlain(c) {
      return escaped;
    }
    quoted := [QUOTE];
    for i := 0 to |escaped|
      invariant quoted + Escaped(escaped[i..]) == [QUOTE] + Escaped(escaped)
    {
      var ch := escaped[i];
      EscapedTurn(quoted, escaped, i);
      if ch == QUOTE {
        quoted := quoted + [BACKSLASH, QUOTE];
      } else if ch == BACKSLASH {
        quoted := quoted + [BACKSLASH, BACKSLASH];
      } else {
        quoted := quoted + [ch];
      }
    }
    quoted := quoted + [QUOTE];
  }

  /** One turn of the escaping loop. */
  lemma EscapedTurn(front: string, s: string, i: nat)
    requires i < |s|
    ensures front + EscapedChar(s[i]) + Escaped(s[i + 1..]) == front + Escaped(s[i..])
  {
    EscapedHead(s[i], s[i + 1..]);
    assert s[i..] == [s[i]] + s[i + 1..];
    hide Escaped;
    Regroup(front, EscapedChar(s[i]), Escaped(s[i + 1..]));
  }

  function AllQuoted(args: seq<string>): seq<string> {
    seq(|args|, k requires 0 <= k < |args| => Quoted(args[k]))
  }

  function Command(program: string, args: seq<string>): string {
    Join([program] + AllQuoted(args), ' ')
  }

  // ---------------------------------------------------------------- reading

  /** Splitting a line into words. A quote may be closed and the word go on; a quote left open is an error. */
  datatype Reader =
    | Between(words: seq<string>)
    | InWord(words: seq<string>, word: string)
    | InQuotes(words: seq<string>, word: string, quote: char)
    | AfterBackslash(words: seq<string>, word: string, inside: Option<char>)
    | Bad

  function Unescape(c: char): Option<char> {
    if c == QUOTE || c == BACKSLASH || c == '\'' then Some(c)
    else if c == 'n' then Some('\n')
    else if c == 't' then Some('\t')
    else if c == 's' then Some(' ')
    else None
  }

  predicate IsBlank(c: char) {
    c == ' ' || c == '\t'
  }

  function Read(r: Reader, c: char): Reader {
    match r
    case Bad => Bad
    case Between(words) =>
      if IsBlank(c) then r
      else if c == QUOTE || c == '\'' then InQuotes(words, [], c)
      else if c == BACKSLASH then AfterBackslash(words, [], None)
      else if c == ';' then Bad
      else InWord(words, [c])
    case InWord(words, word) =>
      if IsBlank(c) then Between(words + [word])
      else if c == QUOTE || c == '\'' then InQuotes(words, word, c)
      else if c == BACKSLASH then AfterBackslash(words, word, None)
      else InWord(words, word + [c])
    case InQuotes(words, word, quote) =>
      if c == quote then InWord(words, word)
      else if c == BACKSLASH then AfterBackslash(words, word, Some(quote))
      else InQuotes(words, word + [c], quote)
    case AfterBackslash(words, word, inside) =>
      match Unescape(c)
      case None => Bad
      case Some(u) => if inside.Some? then InQuotes(words, word + [u], inside.value) else InWord(words, word + [u])
  }

  function Finish(r: Reader): Option<seq<string>> {
    match r
    case Between(words) => Some(words)
    case InWord(words, word) => Some(words + [word])
    case _ => None
  }

  /** The words of the first line; `breaks` are the characters that end a line. */
  function ReadLine(r: Reader, text: string, breaks: set<char>): Option<seq<string>>
    decreases |text|
  {
    if text == [] || text[0] in breaks then Finish(r) else ReadLine(Read(r, text[0]), text[1..], breaks)
  }

  /** A doubled character stands for itself; a single one would start an expansion. */
  function Undoubled(s: string, c: char): Option<string> {
    if s == [] then Some([])
    else if s[0] != c then
      var rest := Undoubled(s[1..], c); if rest.None? then None else Some([s[0]] + rest.value)
    else if |s| >= 2 && s[1] == c then
      var rest := Undoubled(s[2..], c); if rest.None? then None else Some([c] + rest.value)
    else None
  }

  /** A word after its specifiers (%) and then its variables ($) are expanded, when nothing but literals results. */
  function Literal(word: string): Option<string> {
    match Undoubled(word, '%')
    case None => None
    case Some(s) => Undoubled(s, '$')
  }

  function Literals(words: seq<string>): Option<seq<string>> {
    if words == [] then Some([])
    else
      var first, rest := Literal(words[0]), Literals(words[1..]);
      if first.None? || rest.None? then None else Some([first.value] + rest.value)
  }

  /** The arguments systemd passes for the command that `text` starts with. */
  function Arguments(text: string, breaks: set<char>): Option<seq<string>> {
    match ReadLine(Between([]), text, breaks)
    case None => None
    case Some(words) => Literals(words)
  }

  // ---------------------------------------------------------------- the expansions undo the doubling

  lemma {:induction false} DoublingUndone(s: string, c: char)
    ensures Undoubled(Doubled(s, c), c) == Some(s)
  {
    if s != [] {
      DoublingUndone(s[1..], c);
      var rest := Doubled(s[1..], c);
      if s[0] == c {
        assert Doubled(s, c)[2..] == rest;
      } else {
        assert Doubled(s, c)[1..] == rest;
      }
      assert [s[0]] + s[1..] == s;
    }
  }

  lemma {:induction false} DoublingConcat(a: string, b: string, c: char)
    ensures Doubled(a + b, c) == Doubled(a, c) + Doubled(b, c)
  {
    if a == [] {
      assert a + b == b;
    } else {
      assert (a + b)[1..] == a[1..] + b;
      DoublingConcat(a[1..], b, c);
    }
  }

  lemma {:induction false} DoublingsCommute(s: string, c: char, d: char)
    requires c != d
    ensures Doubled(Doubled(s, c), d) == Doubled(Doubled(s, d), c)
  {
    if s != [] {
      DoublingsCommute(s[1..], c, d);
      DoublingConcat(if s[0] == c then [c, c] else [s[0]], Doubled(s[1..], c), d);
      DoublingConcat(if s[0] == d then [d, d] else [s[0]], Doubled(s[1..], d), c);
      assert Doubled([s[0]], c) == if s[0] == c then [c, c] else [s[0]];
      assert Doubled([s[0]], d) == if s[0] == d then [d, d] else [s[0]];
      assert [c, c][1..] == [c] && [d, d][1..] == [d];
    }
  }

  lemma DisarmingUndone(arg: string)
    ensures Literal(Disarmed(arg)) == Some(arg)
  {
    DoublingsCommute(arg, '%', '$');
    DoublingUndone(Doubled(arg, '$'), '%');
    DoublingUndone(arg, '$');
  }

  // ---------------------------------------------------------------- reading what was written

  predicate Unbroken(s: string, breaks: set<char>) {
    forall c :: c in s ==> c !in breaks
  }

  lemma {:induction false} DoublingUnbroken(s: string, c: char, breaks: set<char>)
    requires c !in breaks
    ensures Unbroken(Doubled(s, c), breaks) <==> Unbroken(s, breaks)
  {
    if s != [] {
      DoublingUnbroken(s[1..], c, breaks);
      assert s == [s[0]] + s[1..];
    }
  }

  lemma ReadOne(r: Reader, c: char, text: string, breaks: set<char>)
    requires c !in breaks
    ensures ReadLine(r, [c] + text, breaks) == ReadLine(Read(r, c), text, breaks)
  {
    assert ([c] + text)[1..] == text;
  }

  lemma ReadStops(r: Reader, text: string, breaks: set<char>)
    requires text != [] && text[0] in breaks
    ensures ReadLine(r, text, breaks) == Finish(r)
  {
  }

  /** A plain word is read as it stands. */
  lemma {:induction false} PlainRead(words: seq<string>, word: string, s: string, rest: string, breaks: set<char>)
    requires (forall c :: c in s ==> IsPlain(c)) && Unbroken(s, breaks)
    ensures ReadLine(InWord(words, word), s + rest, breaks) == ReadLine(InWord(words, word + s), rest, breaks)
    decreases |s|
  {
    hide ReadLine;
    if s == [] {
      assert s + rest == rest && word + s == word;
    } else {
      assert IsPlain(s[0]) && s[0] in s;
      assert s + rest == [s[0]] + (s[1..] + rest) && (word + [s[0]]) + s[1..] == word + s;
      ReadOne(InWord(words, word), s[0], s[1..] + rest, breaks);
      PlainRead(words, word + [s[0]], s[1..], rest, breaks);
    }
  }

  /** Inside double quotes, escaped text is read as what it escapes. */
  lemma {:induction false} EscapedRead(words: seq<string>, word: string, s: string, rest: string, breaks: set<char>)
    requires Unbroken(s, breaks) && BACKSLASH !in breaks
    ensures ReadLine(InQuotes(words, word, QUOTE), Escaped(s) + rest, breaks) ==
              ReadLine(InQuotes(words, word + s, QUOTE), rest, breaks)
    decreases |s|
  {
    hide ReadLine;
    if s == [] {
      assert Escaped(s) + rest == rest && word + s == word;
    } else {
      EscapedOne(words, word, s, rest, breaks);
      assert (word + [s[0]]) + s[1..] == word + s;
      EscapedRead(words, word + [s[0]], s[1..], rest, breaks);
    }
  }

  lemma EscapedOne(words: seq<string>, word: string, s: string, rest: string, breaks: set<char>)
    requires s != [] && s[0] !in breaks && BACKSLASH !in breaks
    ensures ReadLine(InQuotes(words, word, QUOTE), Escaped(s) + rest, breaks)
         == ReadLine(InQuotes(words, word + [s[0]], QUOTE), Escaped(s[1..]) + rest, breaks)
  {
    EscapedSplit(s, rest);
    hide ReadLine, Escaped;
    var r, tail := InQuotes(words, word, QUOTE), Escaped(s[1..]) + rest;
    if s[0] == QUOTE || s[0] == BACKSLASH {
      Regroup([BACKSLASH], [s[0]], tail);
      ReadOne(r, BACKSLASH, [s[0]] + tail, breaks);
      ReadOne(AfterBackslash(words, word, Some(QUOTE)), s[0], tail, breaks);
    } else {
      ReadOne(r, s[0], tail, breaks);
    }
  }

  lemma EscapedSplit(s: string, rest: string)
    requires s != []
    ensures Escaped(s) + rest == EscapedChar(s[0]) + (Escaped(s[1..]) + rest)
  {
    Regroup(EscapedChar(s[0]), Escaped(s[1..]), rest);
  }

  lemma {:induction false} EscapedConcat(a: string, b: string)
    ensures Escaped(a + b) == Escaped(a) + Escaped(b)
    decreases |a|
  {
    if a == [] {
      assert a + b == b;
    } else {
      EscapedConcat(a[1..], b);
      EscapedHead(a[0], a[1..]);
      EscapedHead(a[0], a[1..] + b);
      hide Escaped;
      assert a == [a[0]] + a[1..] && a + b == [a[0]] + (a[1..] + b);
      Regroup(EscapedChar(a[0]), Escaped(a[1..]), Escaped(b));
    }
  }

  lemma EscapedHead(c: char, s: string)
    ensures Escaped([c] + s) == EscapedChar(c) + Escaped(s)
  {
    assert ([c] + s)[1..] == s;
  }

  /** Line breaks are none of the characters with a meaning of their own. */
  predicate OnlyBreaks(breaks: set<char>) {
    '\n' in breaks && forall c :: c in breaks ==>
          !IsPlain(c) && c != QUOTE && c != BACKSLASH && c != '%' && c != '$' && !IsBlank(c)
  }

  /** A quoted argument on one line is read as one word. */
  lemma ArgRead(words: seq<string>, arg: string, rest: string, breaks: set<char>)
    requires Unbroken(arg, breaks) && OnlyBreaks(breaks)
    ensures ReadLine(Between(words), Quoted(arg) + rest, breaks) == ReadLine(InWord(words, Disarmed(arg)), rest, breaks)
  {
    hide Disarmed, ReadLine, Escaped, Unbroken, IsPlain, OnlyBreaks;
    DisarmedUnbroken(arg, breaks);
    if Plain(Disarmed(arg)) {
      WordRead(words, Disarmed(arg), rest, breaks);
    } else {
      BetweenQuotesRead(words, Disarmed(arg), rest, breaks);
    }
  }

  lemma BetweenQuotesRead(words: seq<string>, s: string, rest: string, breaks: set<char>)
    requires Unbroken(s, breaks) && OnlyBreaks(breaks)
    ensures ReadLine(Between(words), [QUOTE] + Escaped(s) + [QUOTE] + rest, breaks) ==
              ReadLine(InWord(words, s), rest, breaks)
  {
    hide ReadLine, Escaped, Unbroken, IsPlain;
    var tail := [QUOTE] + rest;
    Regroup([QUOTE] + Escaped(s), [QUOTE], rest);
    Regroup([QUOTE], Escaped(s), tail);
    ReadOne(Between(words), QUOTE, Escaped(s) + tail, breaks);
    EscapedRead(words, [], s, tail, breaks);
    assert [] + s == s;
    ReadOne(InQuotes(words, s, QUOTE), QUOTE, rest, breaks);
  }

  lemma DisarmedUnbroken(arg: string, breaks: set<char>)
    requires OnlyBreaks(breaks)
    ensures Unbroken(Disarmed(arg), breaks) <==> Unbroken(arg, breaks)
  {
    DoublingUnbroken(arg, '%', breaks);
    DoublingUnbroken(Doubled(arg, '%'), '$', breaks);
  }

  lemma WordRead(words: seq<string>, s: string, rest: string, breaks: set<char>)
    requires Plain(s) && Unbroken(s, breaks)
    ensures ReadLine(Between(words), s + rest, breaks) == ReadLine(InWord(words, s), rest, breaks)
  {
    hide ReadLine;
    assert s[0] in s && IsPlain(s[0]);
    assert s + rest == [s[0]] + (s[1..] + rest) && [s[0]] + s[1..] == s;
    ReadOne(Between(words), s[0], s[1..] + rest, breaks);
    PlainRead(words, [s[0]], s[1..], rest, breaks);
  }

  /** The text up to the first line break. */
  lemma {:induction false} FirstBreak(s: string, breaks: set<char>) returns (n: nat)
    requires !Unbroken(s, breaks)
    ensures n < |s| && s[n] in breaks && Unbroken(s[..n], breaks)
  {
    if s[0] in breaks {
      n := 0;
    } else {
      assert s == [s[0]] + s[1..];
      n := FirstBreak(s[1..], breaks);
      assert s[..n + 1] == [s[0]] + s[1..][..n];
      n := n + 1;
    }
  }

  /** A quoted argument that contains a line break is cut inside its quotes. */
  lemma BrokenArgRead(words: seq<string>, arg: string, rest: string, breaks: set<char>)
    requires !Unbroken(arg, breaks) && OnlyBreaks(breaks)
    ensures ReadLine(Between(words), Quoted(arg) + rest, breaks) == None
  {
    var s := Disarmed(arg);
    DisarmedUnbroken(arg, breaks);
    var n := FirstBreak(s, breaks);
    assert !Plain(s) by {
      assert !IsPlain(s[n]) && s[n] in s;
    }
    BreakStays(s, n, breaks);
    hide Disarmed, ReadLine, Escaped, IsPlain, Unbroken;
    var tail := Escaped(s[n..]) + [QUOTE] + rest;
    CutInQuotes(QUOTE, Escaped(s[..n]), Escaped(s[n..]), rest);
    ReadOne(Between(words), QUOTE, Escaped(s[..n]) + tail, breaks);
    EscapedRead(words, [], s[..n], tail, breaks);
    ReadStops(InQuotes(words, [] + s[..n], QUOTE), tail, breaks);
  }

  lemma CutInQuotes(q: char, a: string, b: string, rest: string)
    ensures [q] + (a + b) + [q] + rest == [q] + (a + (b + [q] + rest))
  {
  }

  lemma BreakStays(s: string, n: nat, breaks: set<char>)
    requires n < |s| && s[n] in breaks && OnlyBreaks(breaks)
    ensures Escaped(s) == Escaped(s[..n]) + Escaped(s[n..])
    ensures |Escaped(s[n..])| > 0 && Escaped(s[n..])[0] == s[n]
  {
    EscapedConcat(s[..n], s[n..]);
    assert s == s[..n] + s[n..] && s[n..][0] == s[n];
  }

  function AllDisarmed(args: seq<string>): seq<string> {
    if args == [] then [] else [Disarmed(args[0])] + AllDisarmed(args[1..])
  }

  predicate AllUnbroken(args: seq<string>, breaks: set<char>) {
    forall k :: 0 <= k < |args| ==> Unbroken(args[k], breaks)
  }

  lemma {:induction false} ArgsRead(words: seq<string>, word: string, args: seq<string>, rest: string,
                                    breaks: set<char>)
    requires OnlyBreaks(breaks)
    ensures ReadLine(InWord(words, word), Led(AllQuoted(args), ' ') + ("\n" + rest), breaks) ==
            if AllUnbroken(args, breaks) then Some(words + [word] + AllDisarmed(args)) else None
    decreases |args|
  {
    hide Quoted, Disarmed, Unbroken, ReadLine, OnlyBreaks;
    if args == [] {
      NoArgsRead(words, word, rest, breaks);
    } else {
      var tail := Led(AllQuoted(args[1..]), ' ') + ("\n" + rest);
      assert AllQuoted(args)[1..] == AllQuoted(args[1..]);
      assert Led(AllQuoted(args), ' ') + ("\n" + rest) == " " + (Quoted(args[0]) + tail);
      BlankRead(words, word, Quoted(args[0]) + tail, breaks);
      if Unbroken(args[0], breaks) {
        ArgRead(words + [word], args[0], tail, breaks);
        ArgsRead(words + [word], Disarmed(args[0]), args[1..], rest, breaks);
        assert words + [word] + [Disarmed(args[0])] + AllDisarmed(args[1..]) == words + [word] + AllDisarmed(args);
        assert AllUnbroken(args, breaks) <==> AllUnbroken(args[1..], breaks) by {
          assert forall k :: 1 <= k < |args| ==> args[k] == args[1..][k - 1];
        }
      } else {
        BrokenArgRead(words + [word], args[0], tail, breaks);
      }
    }
  }

  lemma NoArgsRead(words: seq<string>, word: string, rest: string, breaks: set<char>)
    requires OnlyBreaks(breaks)
    ensures ReadLine(InWord(words, word), Led(AllQuoted([]), ' ') + ("\n" + rest), breaks) ==
              Some(words + [word] + AllDisarmed([]))
  {
    assert Led(AllQuoted([]), ' ') + ("\n" + rest) == "\n" + rest;
    assert words + [word] + [] == words + [word];
    ReadStops(InWord(words, word), "\n" + rest, breaks);
  }

  lemma BlankRead(words: seq<string>, word: string, rest: string, breaks: set<char>)
    requires OnlyBreaks(breaks)
    ensures ReadLine(InWord(words, word), " " + rest, breaks) == ReadLine(Between(words + [word]), rest, breaks)
  {
    assert IsBlank(' ');
    ReadOne(InWord(words, word), ' ', rest, breaks);
  }

  lemma {:induction false} LiteralsUndo(args: seq<string>)
    ensures Literals(AllDisarmed(args)) == Some(args)
  {
    hide Literal, Disarmed;
    if args != [] {
      DisarmingUndone(args[0]);
      LiteralsUndo(args[1..]);
      assert [args[0]] + args[1..] == args;
    }
  }

  /** In a unit file, systemd gets back the program and its arguments exactly when no argument has a line break. */
  lemma CommandReadBack(program: string, args: seq<string>, rest: string, breaks: set<char>)
    requires Plain(program) && program[0] == '/' && OnlyBreaks(breaks)
    ensures Arguments(Command(program, args) + "\n" + rest, breaks) == Some([program] + args) <==>
              AllUnbroken(args, breaks)
  {
    hide ReadLine, Disarmed, Literals, Literal;
    var tail := Led(AllQuoted(args), ' ') + ("\n" + rest);
    JoinIsLed(program, AllQuoted(args), ' ');
    assert Command(program, args) + "\n" + rest == program + tail;
    assert Unbroken(program, breaks) by {
      assert forall c :: c in program ==> IsPlain(c);
    }
    hide OnlyBreaks, Unbroken;
    WordRead([], program, tail, breaks);
    ArgsRead([], program, args, rest, breaks);
    PlainIsDisarmed(program);
    assert ([program] + args)[1..] == args;
    assert [] + [program] + AllDisarmed(args) == AllDisarmed([program] + args);
    LiteralsUndo([program] + args);
  }

  lemma {:induction false} PlainUndoubled(s: string, c: char)
    requires (forall x :: x in s ==> IsPlain(x)) && !IsPlain(c)
    ensures Doubled(s, c) == s
  {
    if s != [] {
      assert s == [s[0]] + s[1..];
      PlainUndoubled(s[1..], c);
    }
  }

  lemma PlainIsDisarmed(s: string)
    requires Plain(s)
    ensures Disarmed(s) == s
  {
    PlainUndoubled(s, '%');
    PlainUndoubled(s, '$');
  }
}
