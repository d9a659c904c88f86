/**
  The editor's comment toggle (Ctrl-/, `toggleComment` in editor/static/editor/js/main.js):
  every line of every selection is commented or uncommented with the comment syntax of the
  editor's mode. The document is an array of lines, changed in place one line at a time.
 */
module Comments {
  import opened Strings

  /** A comment marker put in front of a line, or a pair wrapped around it. */
  datatype CommentSyntax = LineComment(symbol: string) | BlockComment(open: string, close: string)

  /**
    The comment syntax of an editor mode; modes not in the table use `//`. Only CSS and XML
    wrap the line, and every syntax of the table toggles back (see the round-trip lemmas).
   */
  function SyntaxForMode(mode: string): (syntax: CommentSyntax)
    ensures syntax.BlockComment? <==> mode == "css" || mode == "xml"
    ensures WellFormed(syntax)
  {
    if mode == "python" then LineComment("#")
    else if mode == "clike" || mode == "javascript" then LineComment("//")
    else if mode == "css" then BlockComment("/*", "*/")
    else if mode == "xml" then BlockComment("<!--", "-->")
    else LineComment("//")
  }

  /** Whether the toggle treats `line` as commented and removes the comment. */
  predicate IsCommented(syntax: CommentSyntax, line: string) {
    var trimmed := Trim(line);
    match syntax
    case LineComment(symbol) => StartsWith(trimmed, symbol)
    case BlockComment(open, close) => StartsWith(trimmed, open) && EndsWith(trimmed, close)
  }

  /**
    The new text of one line. With a well-formed syntax, a line that was not commented
    comes out commented, so the next toggle removes the comment again.
   */
  function ToggleLine(syntax: CommentSyntax, line: string): (r: string)
    ensures WellFormed(syntax) && !IsCommented(syntax, line) ==> IsCommented(syntax, r)
  {
    match syntax
    case LineComment(symbol) =>
      if IsCommented(syntax, line) then Trim(ReplaceFirst(line, symbol, ""))
      else
        if Solid(symbol) then CommentedLineStartsWithMarker(symbol, line); symbol + " " + line
        else symbol + " " + line
    case BlockComment(open, close) =>
      if IsCommented(syntax, line) then ReplaceFirst(ReplaceFirst(line, open, ""), close, "")
      else
        if Solid(open) && Solid(close) then WrappedLineIsCommented(open, close, line); open + " " + line + " " + close
        else open + " " + line + " " + close
  }

  /** A marker that neither starts nor ends with a space. */
  predicate Solid(s: string) {
    s != [] && !IsSpace(s[0]) && !IsSpace(s[|s| - 1])
  }

  /** Markers for which toggling twice gives the line back (see the round-trip lemmas). */
  predicate WellFormed(syntax: CommentSyntax) {
    match syntax
    case LineComment(symbol) => Solid(symbol)
    case BlockComment(open, close) => Solid(open) && Solid(close) && ' ' !in close
  }

  /** No marker that starts with a non-space character begins among the leading spaces. */
  lemma NoMarkerInLead(symbol: string, line: string, j: nat)
    requires symbol != [] && !IsSpace(symbol[0])
    requires j < TextStart(line)
    ensures !OccursAt(line, symbol, j)
  {
    assert IsSpace(line[j]);
    if j + |symbol| <= |line| {
      assert line[j..j + |symbol|][0] == line[j];
    }
  }

  /**
    When the trimmed line starts with a marker that does not start with a space, the first
    occurrence of the marker is right after the leading spaces.
   */
  lemma LeadingMarkerFound(symbol: string, line: string)
    requires symbol != [] && !IsSpace(symbol[0])
    requires StartsWith(Trim(line), symbol)
    ensures IndexOf(line, symbol) == Some(TextStart(line))
  {
    var a := TextStart(line);
    assert line[a..a + |symbol|] == Trim(line)[..|symbol|];
    forall j: nat | j < a ensures !OccursAt(line, symbol, j) {
      NoMarkerInLead(symbol, line, j);
    }
    FirstOccurrence(line, symbol, a);
  }

  /** What follows the first `n` characters of `line[a..b]`, up to the end of the line. */
  lemma CutAfterLead(line: string, a: nat, b: nat, n: nat)
    requires a + n <= b <= |line|
    ensures line[a + n..] == line[a..b][n..] + line[b..]
  {
  }

  /** Removing the leading marker leaves the leading spaces, the rest of the text and the trailing spaces. */
  lemma RemoveLeadingMarker(symbol: string, line: string)
    requires symbol != [] && !IsSpace(symbol[0])
    requires StartsWith(Trim(line), symbol)
    ensures var a, b := TextStart(line), TextEnd(line);
      ReplaceFirst(line, symbol, "") == line[..a] + Trim(line)[|symbol|..] + line[b..]
  {
    var a, b := TextStart(line), TextEnd(line);
    LeadingMarkerFound(symbol, line);
    RemoveAt(line, symbol, a);
    CutAfterLead(line, a, b, |symbol|);
  }

  /**
    Uncommenting a line whose trimmed text starts with the marker removes that leading
    marker, and the spaces around what is left.
   */
  lemma UncommentStripsMarker(symbol: string, line: string)
    requires symbol != [] && !IsSpace(symbol[0])
    requires StartsWith(Trim(line), symbol)
    ensures ToggleLine(LineComment(symbol), line) == Trim(Trim(line)[|symbol|..])
  {
    TrimSplits(line);
    RemoveLeadingMarker(symbol, line);
    TrimIgnoresPadding(line[..TextStart(line)], Trim(line)[|symbol|..], line[TextEnd(line)..]);
  }

  /** A line commented with a solid marker is seen as commented, the marker at its start. */
  lemma CommentedLineStartsWithMarker(symbol: string, line: string)
    requires Solid(symbol)
    ensures IsCommented(LineComment(symbol), symbol + " " + line)
  {
    var c := symbol + " " + line;
    assert c[0] == symbol[0];
    assert TextStart(c) == 0;
    assert c[|symbol| - 1] == symbol[|symbol| - 1];
    assert TextEnd(c) >= |symbol|;
    assert Trim(c)[..|symbol|] == c[..|symbol|] == symbol;
  }

  /** Toggling a line commented with a solid marker gives back the line, trimmed. */
  lemma UncommentCommentedLine(symbol: string, line: string)
    requires Solid(symbol)
    ensures ToggleLine(LineComment(symbol), symbol + " " + line) == Trim(line)
  {
    CommentedLineStartsWithMarker(symbol, line);
    assert symbol + " " + line == symbol + (" " + line);
    RemoveFrontMarker(symbol, " " + line);
    TrimAfterSpace(line);
  }

  /** Removing the first occurrence of a marker put in front of some text leaves the text. */
  lemma RemoveFrontMarker(marker: string, rest: string)
    ensures ReplaceFirst(marker + rest, marker, "") == rest
  {
    var c := marker + rest;
    assert c[..|marker|] == marker;
    RemovePrefix(c, marker);
    assert c[|marker|..] == rest;
  }

  /** Commenting an uncommented line and toggling again gives back the line, trimmed. */
  lemma LineCommentRoundTrip(symbol: string, line: string)
    requires Solid(symbol)
    requires !IsCommented(LineComment(symbol), line)
    ensures ToggleLine(LineComment(symbol), ToggleLine(LineComment(symbol), line)) == Trim(line)
  {
    assert ToggleLine(LineComment(symbol), line) == symbol + " " + line;
    UncommentCommentedLine(symbol, line);
  }

  /** In `" " + line + " " + close`, the first `close` is the one at the end. */
  lemma CloseMarkerOnlyAtEnd(line: string, close: string)
    requires close != [] && ' ' !in close && !Contains(line, close)
    ensures IndexOf(" " + line + " " + close, close) == Some(|line| + 2)
  {
    var x := " " + line + " " + close;
    assert x[|line| + 2..] == close;
    forall j: nat | j < |line| + 2 ensures !OccursAt(x, close, j) {
      NoCloseBeforeEnd(line, close, j);
    }
    FirstOccurrence(x, close, |line| + 2);
  }

  /** One position of `CloseMarkerOnlyAtEnd`: no `close` starts before the final one. */
  lemma NoCloseBeforeEnd(line: string, close: string, j: nat)
    requires close != [] && ' ' !in close && !Contains(line, close)
    requires j < |line| + 2
    ensures !OccursAt(" " + line + " " + close, close, j)
  {
    var x := " " + line + " " + close;
    if j + |close| <= |x| {
      if j == 0 || j == |line| + 1 {
        assert x[j] == ' ';
        assert x[j..j + |close|][0] == x[j];
        assert close[0] in close;
      } else if j + |close| <= |line| + 1 {
        assert x[j..j + |close|] == line[j - 1..j - 1 + |close|];
        assert !OccursAt(line, close, j - 1);
      } else {
        var m := |line| + 1 - j;
        assert x[j..j + |close|][m] == x[|line| + 1];
        assert x[|line| + 1] == ' ';
        assert close[m] in close;
      }
    }
  }

  /** Text that starts and ends with solid markers has no spaces to trim. */
  lemma SolidEndsUntrimmed(w: string, open: string, close: string)
    requires Solid(open) && Solid(close)
    requires StartsWith(w, open) && EndsWith(w, close)
    ensures Trim(w) == w
  {
    assert w[0] == open[0] && w[|w| - 1] == close[|close| - 1];
    assert Trimmed(w);
    assert [] + w + [] == w;
    TrimOfPadded([], w, []);
  }

  /** A line wrapped with solid markers is seen as commented, the opening marker at its start. */
  lemma WrappedLineIsCommented(open: string, close: string, line: string)
    requires Solid(open) && Solid(close)
    ensures IsCommented(BlockComment(open, close), open + " " + line + " " + close)
    ensures IndexOf(open + " " + line + " " + close, open) == Some(0)
  {
    var w := open + " " + line + " " + close;
    assert w[..|open|] == open;
    assert w[|w| - |close|..] == close;
    SolidEndsUntrimmed(w, open, close);
    PrefixFoundFirst(w, open);
  }

  /** Removing the closing marker from a line wrapped on the right. */
  lemma DropClose(close: string, line: string)
    requires close != [] && ' ' !in close && !Contains(line, close)
    ensures ReplaceFirst(" " + line + " " + close, close, "") == " " + line + " "
  {
    var inner := " " + line + " " + close;
    CloseMarkerOnlyAtEnd(line, close);
    RemoveAt(inner, close, |line| + 2);
    assert inner[..|line| + 2] + inner[|line| + 2 + |close|..] == " " + line + " ";
  }

  /** Removing the first opening and then the first closing marker from a wrapped line. */
  lemma UnwrapWrapped(open: string, close: string, line: string)
    requires open != [] && close != [] && ' ' !in close && !Contains(line, close)
    ensures ReplaceFirst(ReplaceFirst(open + " " + line + " " + close, open, ""), close, "") == " " + line + " "
  {
    var inner := " " + line + " " + close;
    assert open + " " + line + " " + close == open + inner;
    RemoveFrontMarker(open, inner);
    DropClose(close, line);
  }

  /**
    Wrapping an unwrapped line in a block comment and toggling again gives back the line with
    one space on each side, provided the line does not itself contain the closing marker.
   */
  lemma BlockCommentRoundTrip(open: string, close: string, line: string)
    requires WellFormed(BlockComment(open, close))
    requires !IsCommented(BlockComment(open, close), line)
    requires !Contains(line, close)
    ensures var syntax := BlockComment(open, close);
      ToggleLine(syntax, ToggleLine(syntax, line)) == " " + line + " "
  {
    var syntax := BlockComment(open, close);
    var w := open + " " + line + " " + close;
    assert ToggleLine(syntax, line) == w;
    WrappedLineIsCommented(open, close, line);
    UnwrapWrapped(open, close, line);
  }

  /** The per-line transform of a comment syntax. */
  function LineToggle(syntax: CommentSyntax): string -> string {
    line => ToggleLine(syntax, line)
  }

  /** A selection covers the lines `fromLine` to `toLine`, both included. */
  datatype Selection = Selection(fromLine: nat, toLine: nat)

  predicate Covers(sel: Selection, i: int) {
    sel.fromLine <= i <= sel.toLine
  }

  /** The document after applying `toggle` to the lines of one selection. */
  function ToggleRange(doc: seq<string>, toggle: string -> string, sel: Selection): (r: seq<string>)
    ensures |r| == |doc|
  {
    seq(|doc|, i requires 0 <= i < |doc| => if Covers(sel, i) then toggle(doc[i]) else doc[i])
  }

  /** The document after applying `toggle` to the selections in order. */
  function ToggleSelections(doc: seq<string>, toggle: string -> string, sels: seq<Selection>): (r: seq<string>)
    ensures |r| == |doc|
  {
    if sels == [] then doc
    else ToggleRange(ToggleSelections(doc, toggle, sels[..|sels| - 1]), toggle, sels[|sels| - 1])
  }

  /** Lines that no selection covers are left as they are. */
  lemma {:induction false} UncoveredLinesKept(doc: seq<string>, toggle: string -> string, sels: seq<Selection>, i: nat)
    requires i < |doc|
    requires forall sel <- sels :: !Covers(sel, i)
    ensures ToggleSelections(doc, toggle, sels)[i] == doc[i]
  {
    if sels != [] {
      assert sels[|sels| - 1] in sels;
      UncoveredLinesKept(doc, toggle, sels[..|sels| - 1], i);
    }
  }

  /** A line that exactly one selection covers is toggled exactly once. */
  lemma {:induction false} CoveredOnceToggledOnce(doc: seq<string>, toggle: string -> string, sels: seq<Selection>,
                                                   k: nat, i: nat)
    requires i < |doc| && k < |sels| && Covers(sels[k], i)
    requires forall j :: 0 <= j < |sels| && j != k ==> !Covers(sels[j], i)
    ensures ToggleSelections(doc, toggle, sels)[i] == toggle(doc[i])
  {
    var init := sels[..|sels| - 1];
    if k == |sels| - 1 {
      UncoveredLinesKept(doc, toggle, init, i);
    } else {
      CoveredOnceToggledOnce(doc, toggle, init, k, i);
    }
  }

  /** The inner loop of Ctrl-/: replaces each line of one selection by its toggled text, in place. */
  method ToggleLines(doc: array<string>, toggle: string -> string, sel: Selection)
    requires sel.toLine < doc.Length
    modifies doc
    ensures doc[..] == ToggleRange(old(doc[..]), toggle, sel)
  {
    var i := sel.fromLine;
    while i <= sel.toLine
      invariant sel.fromLine <= i && (i <= sel.toLine + 1 || i == sel.fromLine)
      invariant forall j :: 0 <= j < doc.Length ==>
        doc[j] == if sel.fromLine <= j < i then toggle(old(doc[j])) else old(doc[j])
    {
      doc[i] := toggle(doc[i]);
      i := i + 1;
    }
  }

  /**
    Ctrl-/: toggles, selection by selection, each line the selection covers with the comment
    syntax of the editor's mode. Selections lie within the document, as the editor guarantees.
   */
  method ToggleComment(doc: array<string>, mode: string, selections: seq<Selection>)
    requires forall sel <- selections :: sel.toLine < doc.Length
    modifies doc
    ensures doc[..] == ToggleSelections(old(doc[..]), LineToggle(SyntaxForMode(mode)), selections)
  {
    var toggle := LineToggle(SyntaxForMode(mode));
    var k := 0;
    while k < |selections|
      invariant k <= |selections|
      invariant doc[..] == ToggleSelections(old(doc[..]), toggle, selections[..k])
    {
      assert selections[k] in selections;
      ToggleLines(doc, toggle, selections[k]);
      assert selections[..k + 1][..k] == selections[..k];
      k := k + 1;
    }
    assert selections[..k] == selections;
  }
}
