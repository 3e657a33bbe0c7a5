/** Referencing the anchor from the main pf ruleset (src/firewall/pf.rs, `main_ruleset_with_anchor_references`). */
module PfConf {
  import opened PortList
  import opened Sequences

  const NEWLINE: char := '\n'
  const RDR_ANCHOR: string := "rdr-anchor \"trans_proxy\""
  const ANCHOR: string := "anchor \"trans_proxy\""

  // ---------------------------------------------------------------- specification

  function WithoutReturn(piece: string): string {
    if piece != [] && piece[|piece| - 1] == '\r' then piece[..|piece| - 1] else piece
  }

  /** The pieces between line feeds; a final line feed ends the last line instead of beginning another. */
  function Pieces(conf: string): seq<string> {
    var parts := Split(conf, NEWLINE);
    if parts[|parts| - 1] == [] then parts[..|parts| - 1] else parts
  }

  predicate HasLine(conf: string, line: string) {
    exists k :: 0 <= k < |Pieces(conf)| && Trim(WithoutReturn(Pieces(conf)[k])) == line
  }

  function Appended(conf: string, line: string): string {
    (if conf != [] && conf[|conf| - 1] != NEWLINE then conf + [NEWLINE] else conf) + line + [NEWLINE]
  }

  function WithReference(conf: string, line: string): string {
    if HasLine(conf, line) then conf else Appended(conf, line)
  }

  function MainRuleset(base: string): string {
    WithReference(WithReference(base, RDR_ANCHOR), ANCHOR)
  }

  method HasPfConfLine(conf: string, line: string) returns (found: bool)
    ensures found <==> HasLine(conf, line)
  {
    var lines := Pieces(conf);
    for i := 0 to |lines|
      invariant forall k :: 0 <= k < i ==> Trim(WithoutReturn(lines[k])) != line
    {
      if Trim(WithoutReturn(lines[i])) == line {
        return true;
      }
    }
    return false;
  }

  method MainRulesetWithAnchorReferences(base: string) returns (fullConf: string)
    ensures fullConf == MainRuleset(base)
  {
    fullConf := base;
    var found := HasPfConfLine(fullConf, RDR_ANCHOR);
    if !found {
      fullConf := AppendPfConfLine(fullConf, RDR_ANCHOR);
    }
    found := HasPfConfLine(fullConf, ANCHOR);
    if !found {
      fullConf := AppendPfConfLine(fullConf, ANCHOR);
    }
  }

  method AppendPfConfLine(conf: string, line: string) returns (r: string)
    ensures r == Appended(conf, line)
  {
    r := conf;
    if r != [] && r[|r| - 1] != NEWLINE {
      r := r + [NEWLINE];
    }
    r := r + line;
    r := r + [NEWLINE];
  }

  // ---------------------------------------------------------------- lines of an appended text

  /** A line and its end make one piece and an empty one. */
  lemma LineSplit(line: string)
    requires NEWLINE !in line
    ensures Split(line + [NEWLINE], NEWLINE) == [line, []]
  {
    SplitOne(line, NEWLINE);
    SplitAt(line, [], NEWLINE);
    assert line + [NEWLINE] + [] == line + [NEWLINE];
  }

  /** What a text and a line after a line feed come to. */
  lemma LineAfter(front: string, line: string)
    requires NEWLINE !in line
    ensures Pieces(front + [NEWLINE] + (line + [NEWLINE])) == Split(front, NEWLINE) + [line]
  {
    LineSplit(line);
    SplitAt(front, line + [NEWLINE], NEWLINE);
    hide Split;
    assert (Split(front, NEWLINE) + [line, []])[..|Split(front, NEWLINE)| + 1] == Split(front, NEWLINE) + [line];
  }

  /** Pieces of a text whose last line is ended. */
  lemma EndedPieces(front: string)
    ensures Pieces(front + [NEWLINE]) == Split(front, NEWLINE)
  {
    SplitAt(front, [], NEWLINE);
    assert front + [NEWLINE] + [] == front + [NEWLINE];
    assert (Split(front, NEWLINE) + [[]])[..|Split(front, NEWLINE)|] == Split(front, NEWLINE);
  }

  lemma PiecesAppended(conf: string, line: string)
    requires NEWLINE !in line && line != []
    ensures Pieces(Appended(conf, line)) == Pieces(conf) + [line]
  {
    if conf == [] {
      LineSplit(line);
      assert Appended(conf, line) == line + [NEWLINE];
    } else if conf[|conf| - 1] == NEWLINE {
      hide Split, Pieces;
      var front := conf[..|conf| - 1];
      assert conf == front + [NEWLINE];
      Regroup(conf, line, [NEWLINE]);
      LineAfter(front, line);
      EndedPieces(front);
    } else {
      LastPiece(conf, NEWLINE);
      LineAfter(conf, line);
      hide Split;
      Regroup(conf + [NEWLINE], line, [NEWLINE]);
    }
  }

  /** A line that trimming leaves as it is. */
  predicate Bare(line: string) {
    NEWLINE !in line && line != [] && Trim(WithoutReturn(line)) == line
  }

  lemma HasLineAppended(conf: string, line: string, other: string)
    requires Bare(line)
    ensures HasLine(Appended(conf, line), other) <==> HasLine(conf, other) || line == other
  {
    hide Trim, Appended, Pieces;
    PiecesAppended(conf, line);
    var before, after := Pieces(conf), Pieces(Appended(conf, line));
    assert after[|before|] == line && forall k :: 0 <= k < |before| ==> after[k] == before[k];
  }

  lemma ReferencesAreBare()
    ensures Bare(RDR_ANCHOR) && Bare(ANCHOR)
  {
    BareWhenPrintable(RDR_ANCHOR);
    BareWhenPrintable(ANCHOR);
  }

  lemma BareWhenPrintable(line: string)
    requires line != [] && !IsWhitespace(line[0]) && !IsWhitespace(line[|line| - 1]) && NEWLINE !in line
    ensures Bare(line)
  {
  }

  // ---------------------------------------------------------------- what the result is

  /** The ruleset keeps the base in front, has both references and no other new line, is the base itself when
      nothing is missing, and referencing again changes nothing. */
  lemma ReferencesAdded(base: string)
    ensures
      var r := MainRuleset(base);
      && base <= r
      && HasLine(r, RDR_ANCHOR) && HasLine(r, ANCHOR)
      && (forall other :: HasLine(r, other) <==> HasLine(base, other) || other == RDR_ANCHOR || other == ANCHOR)
      && (r == base <==> HasLine(base, RDR_ANCHOR) && HasLine(base, ANCHOR))
      && MainRuleset(r) == r
  {
    ReferencesAreBare();
    hide HasLine, Bare;
    var mid := WithReference(base, RDR_ANCHOR);
    forall other
      ensures HasLine(mid, other) <==> HasLine(base, other) || other == RDR_ANCHOR
    {
      HasLineAppended(base, RDR_ANCHOR, other);
    }
    forall other
      ensures HasLine(MainRuleset(base), other) <==> HasLine(mid, other) || other == ANCHOR
    {
      HasLineAppended(mid, ANCHOR, other);
    }
  }
}
