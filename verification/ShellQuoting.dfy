/** The command lines of the launchd wrapper script and how the shell splits them (src/service/macos.rs). */
module ShellQuoting {
  import opened Bytes
  import opened Sequences
  import SystemdQuoting

  const APOSTROPHE: char := '\''
  const BACKSLASH: char := '\\'

  // ---------------------------------------------------------------- writing

  predicate IsPlain(c: char) {
    SystemdQuoting.IsPlain(c) || c == '%'
  }

  predicate Plain(s: string) {
    s != [] && forall c :: c in s ==> IsPlain(c)
  }

  /** Every apostrophe leaves the quotes, stands escaped, and enters them again. */
  function Escaped(s: string): string {
    if s == [] then [] else (if s[0] == APOSTROPHE then "'\\''" else [s[0]]) + Escaped(s[1..])
  }

  function Quoted(arg: string): string {
    if Plain(arg) then arg else "'" + Escaped(arg) + "'"
  }

  function AllQuoted(args: seq<string>): seq<string> {
    seq(|args|, k requires 0 <= k < |args| => Quoted(args[k]))
  }

  function Command(program: string, args: seq<string>): string {
    Join([program] + AllQuoted(args), ' ')
  }

  // ---------------------------------------------------------------- reading

  /** Splitting a simple command into words. `Active` is a character the shell would give a meaning of its own. */
  datatype Reader =
    | Between(words: seq<string>)
    | InWord(words: seq<string>, word: string)
    | InQuotes(words: seq<string>, word: string)
    | AfterBackslash(words: seq<string>, word: string)
    | Active

  predicate IsBlank(c: char) {
    c == ' ' || c == '\t'
  }

  function Read(r: Reader, c: char): Reader {
    match r
    case Active => Active
    case Between(words) =>
      if IsBlank(c) then r
      else if c == APOSTROPHE then InQuotes(words, [])
      else if c == BACKSLASH then AfterBackslash(words, [])
      else if IsPlain(c) then InWord(words, [c])
      else Active
    case InWord(words, word) =>
      if IsBlank(c) then Between(words + [word])
      else if c == APOSTROPHE then InQuotes(words, word)
      else if c == BACKSLASH then AfterBackslash(words, word)
      else if IsPlain(c) then InWord(words, word + [c])
      else Active
    case InQuotes(words, word) => if c == APOSTROPHE then InWord(words, word) else InQuotes(words, word + [c])
    case AfterBackslash(words, word) => if c == '\n' then Active else InWord(words, word + [c])
  }

  function ReadAll(r: Reader, text: string): Reader
    decreases |text|
  {
    if text == [] then r else ReadAll(Read(r, text[0]), text[1..])
  }

  /** The words of a command that ends here; None when a quote is open or something would not be literal. */
  function Finish(r: Reader): Option<seq<string>> {
    match r
    case Between(words) => Some(words)
    case InWord(words, word) => Some(words + [word])
    case _ => None
  }

  function Arguments(text: string): Option<seq<string>> {
    Finish(ReadAll(Between([]), text))
  }

  // ---------------------------------------------------------------- reading what was written

  lemma {:induction false} ReadConcat(r: Reader, a: string, b: string)
    ensures ReadAll(r, a + b) == ReadAll(ReadAll(r, a), b)
    decreases |a|
  {
    if a == [] {
      assert a + b == b;
    } else {
      assert (a + b)[0] == a[0] && (a + b)[1..] == a[1..] + b;
      ReadConcat(Read(r, a[0]), a[1..], b);
    }
  }

  lemma {:induction false} PlainRead(words: seq<string>, word: string, s: string)
    requires forall c :: c in s ==> IsPlain(c)
    ensures ReadAll(InWord(words, word), s) == InWord(words, word + s)
    decreases |s|
  {
    if s == [] {
      assert word + s == word;
    } else {
      assert IsPlain(s[0]) && s[0] in s && (word + [s[0]]) + s[1..] == word + s;
      PlainRead(words, word + [s[0]], s[1..]);
    }
  }

  lemma EscapedApostrophe(words: seq<string>, word: string)
    ensures ReadAll(InQuotes(words, word), "'\\''") == InQuotes(words, word + "'")
  {
    assert ReadAll(InQuotes(words, word), "'") == InWord(words, word);
    assert ReadAll(InWord(words, word), "\\") == AfterBackslash(words, word);
    assert ReadAll(AfterBackslash(words, word), "'") == InWord(words, word + "'");
    assert ReadAll(InWord(words, word + "'"), "'") == InQuotes(words, word + "'");
    ReadConcat(InQuotes(words, word), "'", "\\");
    ReadConcat(InQuotes(words, word), "'" + "\\", "'");
    ReadConcat(InQuotes(words, word), "'" + "\\" + "'", "'");
    assert "'" + "\\" + "'" + "'" == "'\\''";
  }

  lemma {:induction false} EscapedRead(words: seq<string>, word: string, s: string)
    ensures ReadAll(InQuotes(words, word), Escaped(s)) == InQuotes(words, word + s)
    decreases |s|
  {
    if s == [] {
      assert word + s == word;
    } else {
      EscapedOne(words, word, s[0]);
      hide ReadAll;
      var first := if s[0] == APOSTROPHE then "'\\''" else [s[0]];
      ReadConcat(InQuotes(words, word), first, Escaped(s[1..]));
      EscapedRead(words, word + [s[0]], s[1..]);
      assert (word + [s[0]]) + s[1..] == word + s;
    }
  }

  lemma EscapedOne(words: seq<string>, word: string, c: char)
    ensures ReadAll(InQuotes(words, word), if c == APOSTROPHE then "'\\''" else [c]) == InQuotes(words, word + [c])
  {
    if c == APOSTROPHE {
      EscapedApostrophe(words, word);
    } else {
      assert [c][1..] == [];
    }
  }

  /** Any argument at all, quoted, is read as one word. */
  lemma ArgRead(words: seq<string>, arg: string)
    ensures ReadAll(Between(words), Quoted(arg)) == InWord(words, arg)
  {
    if Plain(arg) {
      assert IsPlain(arg[0]) && arg[0] in arg && [arg[0]] + arg[1..] == arg;
      PlainRead(words, [arg[0]], arg[1..]);
    } else {
      assert ReadAll(Between(words), "'") == InQuotes(words, []);
      assert ReadAll(InQuotes(words, arg), "'") == InWord(words, arg);
      EscapedRead(words, [], arg);
      assert [] + arg == arg;
      hide ReadAll;
      ReadConcat(Between(words), "'", Escaped(arg));
      ReadConcat(Between(words), "'" + Escaped(arg), "'");
    }
  }

  lemma {:induction false} ArgsRead(words: seq<string>, word: string, args: seq<string>)
    ensures Finish(ReadAll(InWord(words, word), Led(AllQuoted(args), ' '))) == Some(words + [word] + args)
    decreases |args|
  {
    if args == [] {
      assert words + [word] + args == words + [word];
    } else {
      BlankRead(words, word);
      assert AllQuoted(args)[1..] == AllQuoted(args[1..]);
      hide ReadAll, Quoted, Finish, Read;
      ReadConcat(InWord(words, word), " ", Quoted(args[0]));
      ArgRead(words + [word], args[0]);
      ReadConcat(InWord(words, word), " " + Quoted(args[0]), Led(AllQuoted(args[1..]), ' '));
      ArgsRead(words + [word], args[0], args[1..]);
      Reassemble(words + [word], args);
    }
  }

  lemma Reassemble(words: seq<string>, args: seq<string>)
    requires args != []
    ensures words + [args[0]] + args[1..] == words + args
  {
  }

  lemma BlankRead(words: seq<string>, word: string)
    ensures ReadAll(InWord(words, word), " ") == Between(words + [word])
  {
  }

  /** The shell gets back the program and its arguments, whatever the arguments contain. */
  lemma CommandReadBack(program: string, args: seq<string>)
    requires Plain(program) && program[0] == '/'
    ensures Arguments(Command(program, args)) == Some([program] + args)
  {
    ArgRead([], program);
    JoinIsLed(program, AllQuoted(args), ' ');
    hide ReadAll, Plain, Finish, IsPlain, Read, Escaped;
    ReadConcat(Between([]), program, Led(AllQuoted(args), ' '));
    ArgsRead([], program, args);
    assert [] + [program] + args == [program] + args;
  }

  /** Different argument lists give different command lines. */
  lemma CommandsDiffer(program: string, a: seq<string>, b: seq<string>)
    requires Plain(program) && program[0] == '/' && Command(program, a) == Command(program, b)
    ensures a == b
  {
    CommandReadBack(program, a);
    CommandReadBack(program, b);
    assert a == ([program] + a)[1..] == ([program] + b)[1..] == b;
  }
}
