/**
  What the terminal's handlers guarantee, proved about the step functions of module Terminal
  (and so about the methods of `TerminalSession`, which perform exactly those steps).
 */
module TerminalProperties {
  import opened Strings
  import opened Terminal

  // ---------------------------------------------------------------- keystrokes

  /** Unless the socket is open and the terminal waits for input, a key changes nothing. */
  lemma KeyIgnoredUnlessWaiting(s: Session, key: string)
    requires !AcceptsKeys(s)
    ensures KeyDownStep(s, key) == s
  {
  }

  /** A printable key is appended to the input buffer and echoed to the output; nothing is sent. */
  lemma PrintableKeyEchoed(s: Session, key: string)
    requires AcceptsKeys(s) && |key| == 1
    ensures KeyDownStep(s, key) == s.(buffer := s.buffer + key, output := s.output + key)
  {
  }

  /**
    Backspace on an empty buffer changes nothing; otherwise it removes the last buffered
    character and the last character of the output, and nothing else.
   */
  lemma BackspaceRemovesOne(s: Session)
    requires AcceptsKeys(s)
    ensures s.buffer == [] ==> KeyDownStep(s, "Backspace") == s
    ensures s.buffer != [] ==>
      var r := KeyDownStep(s, "Backspace");
      && r.buffer + [s.buffer[|s.buffer| - 1]] == s.buffer
      && r.output == DropLast(s.output)
      && r == s.(buffer := r.buffer, output := r.output)
  {
  }

  /** Backspace right after a printable key takes it back completely. */
  lemma BackspaceUndoesKey(s: Session, c: char)
    requires AcceptsKeys(s)
    ensures KeyDownStep(KeyDownStep(s, [c]), "Backspace") == s
  {
    var t := KeyDownStep(s, [c]);
    assert t.buffer[..|t.buffer| - 1] == s.buffer;
    assert DropLast(t.output) == s.output;
  }

  /**
    Enter sends exactly one `input` frame holding the buffer and a newline, empties the
    buffer, stops waiting and echoes the newline.
   */
  lemma EnterSendsBuffer(s: Session)
    requires AcceptsKeys(s)
    ensures var r := KeyDownStep(s, "Enter");
      && r.sent == s.sent + [Input(s.buffer + "\n")]
      && r.buffer == [] && !r.waiting && r.output == s.output + "\n"
      && r == s.(sent := r.sent, buffer := r.buffer, waiting := r.waiting, output := r.output)
  {
  }

  /** Keys whose name is longer than one character, other than Enter and Backspace, do nothing. */
  lemma NamedKeysIgnored(s: Session, key: string)
    requires |key| != 1 && key != "Enter" && key != "Backspace"
    ensures KeyDownStep(s, key) == s
  {
  }

  /** Typing the characters of `text` one key at a time. */
  function TypeText(s: Session, text: string): Session
    decreases |text|
  {
    if text == [] then s else TypeText(KeyDownStep(s, [text[0]]), text[1..])
  }

  /** Typed text lands, in order, in both the buffer and the output, and nothing is sent. */
  lemma {:induction false} TypedTextEchoed(s: Session, text: string)
    requires AcceptsKeys(s)
    ensures TypeText(s, text) == s.(buffer := s.buffer + text, output := s.output + text)
    decreases |text|
  {
    if text != [] {
      var t := KeyDownStep(s, [text[0]]);
      TypedTextEchoed(t, text[1..]);
      assert [text[0]] + text[1..] == text;
      assert s.buffer + [text[0]] + text[1..] == s.buffer + text;
      assert s.output + [text[0]] + text[1..] == s.output + text;
    }
  }

  /**
    A line typed at an empty prompt and confirmed with Enter is sent as one `input` frame
    holding exactly that line and a newline, and the output shows it followed by a newline.
   */
  lemma TypedLineSent(s: Session, text: string)
    requires AcceptsKeys(s) && s.buffer == []
    ensures var r := KeyDownStep(TypeText(s, text), "Enter");
      && r.sent == s.sent + [Input(text + "\n")]
      && r.output == s.output + text + "\n"
      && r.buffer == [] && !r.waiting
  {
    TypedTextEchoed(s, text);
    assert s.buffer + text == text;
  }

  /** Frames are sent from the keyboard only while the terminal accepts keys, and only `input` frames. */
  lemma KeysSendOnlyInput(s: Session, key: string)
    ensures var r := KeyDownStep(s, key);
      r.sent == s.sent || (AcceptsKeys(s) && r.sent == s.sent + [Input(s.buffer + "\n")])
  {
  }

  // ---------------------------------------------------------------- output chunks

  /** A line ending in CR LF also ends in LF, so the second test of the handler never decides. */
  lemma CrLfEndsWithLf(text: string)
    requires EndsWith(text, "\r\n")
    ensures EndsWith(text, "\n")
  {
    assert text[|text| - 1..] == text[|text| - 2..][1..];
  }

  /**
    A non-empty chunk is appended verbatim; afterwards the terminal waits for input exactly
    when it already did or the chunk does not end in a newline. Nothing else changes.
   */
  lemma ChunkAppendedAndWaiting(s: Session, text: string)
    requires text != []
    ensures var r := MessageStep(s, Inbound(Some(text), None));
      && r.output == s.output + text
      && (r.waiting <==> s.waiting || !EndsWith(text, "\n"))
      && r == s.(output := r.output, waiting := r.waiting)
  {
    if EndsWith(text, "\r\n") {
      CrLfEndsWithLf(text);
    }
  }

  /** An empty chunk, a missing one and an unknown event all leave the state as it is. */
  lemma EmptyFrameIgnored(s: Session, text: Option<string>, event: Option<string>)
    requires text == None || text == Some("")
    requires event != Some("finished")
    ensures MessageStep(s, Inbound(text, event)) == s
  {
  }

  // ---------------------------------------------------------------- the finished event

  lemma ContainsAt(s: string, t: string, i: nat)
    requires OccursAt(s, t, i)
    ensures Contains(s, t)
  {
  }

  /** Text that ends with the status line shows the status marker. */
  lemma StatusLineShowsMarker(prefix: string)
    ensures Contains(prefix + FinishedLine, FinishedMarker)
  {
    var s := prefix + FinishedLine;
    var i := |prefix| + 4;
    assert s[i..i + |FinishedMarker|] == FinishedMarker;
    ContainsAt(s, FinishedMarker, i);
  }

  /**
    After a `finished` event the output shows the status marker, the status line was
    appended only if the marker was absent, the socket is asked to close, and an open socket
    is closing.
   */
  lemma FinishedShowsStatus(s: Session, text: Option<string>)
    ensures var before := MessageStep(s, Inbound(text, None));
      var r := MessageStep(s, Inbound(text, Some("finished")));
      && Contains(r.output, FinishedMarker)
      && r.output == (if Contains(before.output, FinishedMarker) then before.output
                      else before.output + FinishedLine)
      && r.closeCalls == s.closeCalls + 1
      && (s.socket == Open ==> r.socket == Closing)
  {
    var before := MessageStep(s, Inbound(text, None));
    if !Contains(before.output, FinishedMarker) {
      StatusLineShowsMarker(before.output);
    }
  }

  /** A second `finished` event adds nothing to the output. */
  lemma FinishedStatusOnce(s: Session)
    ensures var fin := Inbound(None, Some("finished"));
      MessageStep(MessageStep(s, fin), fin).output == MessageStep(s, fin).output
  {
    FinishedShowsStatus(s, None);
  }

  /**
    Once `finished` has closed an open socket, neither a key nor the Run/Stop button sends
    anything on it: no `input` or `stop` frame follows the end of a run.
   */
  lemma NothingSentAfterFinished(s: Session, text: Option<string>, key: string, lang: string, code: string)
    requires s.socket == Open
    ensures var r := MessageStep(s, Inbound(text, Some("finished")));
      && KeyDownStep(r, key).sent == r.sent
      && ClickRunStep(r, lang, code).sent == r.sent
  {
  }

  // ---------------------------------------------------------------- run and stop

  /** While a run is executing on an open socket, the button sends exactly one `stop` frame. */
  lemma ClickStops(s: Session, lang: string, code: string)
    requires s.executing && s.socket == Open
    ensures ClickRunStep(s, lang, code) == s.(sent := s.sent + [Stop])
  {
  }

  /** The button sends `stop` only while executing on an open socket. */
  lemma StopOnlyWhileExecuting(s: Session, lang: string, code: string)
    requires ClickRunStep(s, lang, code).sent != s.sent
    ensures s.executing && s.socket == Open
  {
  }

  /** Otherwise the web preview language or code made of whitespace only changes nothing. */
  lemma ClickWithoutRun(s: Session, lang: string, code: string)
    requires !(s.executing && s.socket == Open)
    requires lang == "web" || AllSpace(code)
    ensures ClickRunStep(s, lang, code) == s
  {
    TrimEmptyIffAllSpace(code);
  }

  /**
    Otherwise a run starts: an open or connecting socket is closed first, a new socket is
    connecting, the page is executing, the output shows the connecting line, and neither
    the buffer nor the waiting flag is reset. Nothing is sent yet.
   */
  lemma ClickStartsRun(s: Session, lang: string, code: string)
    requires !(s.executing && s.socket == Open)
    requires lang != "web" && !AllSpace(code)
    ensures var r := ClickRunStep(s, lang, code);
      && r.socket == Connecting && r.executing
      && r.output == ConnectingLine
      && r.sent == s.sent
      && r.closeCalls == s.closeCalls + (if s.socket == Open || s.socket == Connecting then 1 else 0)
      && r.buffer == s.buffer && r.waiting == s.waiting
      && r.language == lang && r.code == code
  {
    TrimEmptyIffAllSpace(code);
  }

  /**
    A run that starts and connects sends exactly one `run` frame with the language and code
    of the click, and the output shows only the executing line.
   */
  lemma RunThenOpen(s: Session, lang: string, code: string)
    requires !(s.executing && s.socket == Open)
    requires lang != "web" && !AllSpace(code)
    ensures var r := OpenStep(ClickRunStep(s, lang, code));
      && r.sent == s.sent + [Run(lang, code)]
      && r.output == ExecutingLine
      && r.socket == Open && r.executing
  {
    ClickStartsRun(s, lang, code);
  }

  // ---------------------------------------------------------------- close and error

  /**
    The close event ends execution and the wait for input, whatever the state before; the
    input buffer and the output are left as they are.
   */
  lemma CloseEndsRun(s: Session)
    ensures var r := CloseEventStep(s);
      && !r.executing && !r.waiting && r.socket == Closed && !AcceptsKeys(r)
      && r.buffer == s.buffer && r.output == s.output && r.sent == s.sent
  {
  }

  /** The error event only appends the error line. */
  lemma ErrorOnlyReports(s: Session)
    ensures var r := ErrorStep(s);
      && EndsWith(r.output, ErrorLine) && r.output[..|s.output|] == s.output
      && r == s.(output := r.output)
  {
    var r := ErrorStep(s);
    assert r.output[|r.output| - |ErrorLine|..] == ErrorLine;
  }

  // ---------------------------------------------------------------- the invariant

  /** Every handler keeps `Inv` when the socket delivers its events in the order it may. */
  lemma HandlersKeepInv(s: Session, key: string, lang: string, code: string, frame: Inbound)
    requires Inv(s)
    ensures Inv(KeyDownStep(s, key)) && Inv(ClickRunStep(s, lang, code))
    ensures Inv(ErrorStep(s)) && Inv(ClearStep(s)) && Inv(CloseEventStep(s))
    ensures s.socket == Connecting ==> Inv(OpenStep(s))
    ensures s.socket == Open ==> Inv(MessageStep(s, frame))
  {
  }

  // ---------------------------------------------------------------- the input buffer survives a run

  /**
    Characters typed but not sent when a run ends stay in the buffer: after the close event,
    a new run, its open event and a prompt, the next Enter sends them in front of what is
    typed at the new prompt.
   */
  lemma StaleInputPrefixesNextLine(s: Session, typed: string, lang: string, code: string,
                                   prompt: string, text: string)
    requires AcceptsKeys(s) && s.buffer == []
    requires lang != "web" && !AllSpace(code)
    requires prompt != [] && !EndsWith(prompt, "\n")
    ensures
      var ended := CloseEventStep(TypeText(s, typed));
      var waiting := MessageStep(OpenStep(ClickRunStep(ended, lang, code)), Inbound(Some(prompt), None));
      var r := KeyDownStep(TypeText(waiting, text), "Enter");
      |r.sent| > 0 && r.sent[|r.sent| - 1] == Input(typed + text + "\n")
  {
    TypedTextEchoed(s, typed);
    var ended := CloseEventStep(TypeText(s, typed));
    assert ended.buffer == typed;
    RunThenOpen(ended, lang, code);
    ClickStartsRun(ended, lang, code);
    var started := OpenStep(ClickRunStep(ended, lang, code));
    ChunkAppendedAndWaiting(started, prompt);
    var waiting := MessageStep(started, Inbound(Some(prompt), None));
    assert AcceptsKeys(waiting) && waiting.buffer == typed;
    TypedTextEchoed(waiting, text);
  }
}
