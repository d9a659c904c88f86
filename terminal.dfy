/**
  The interactive execution session of the browser editor (editor/static/editor/js/main.js).

  The page keeps a handful of globals: the current WebSocket, the input buffer, the
  "executing" flag, the text of the output area and its `waiting-for-input` class. Each
  event handler (the terminal's keydown, the Run/Stop button, the socket's open, message,
  close and error callbacks) changes them step by step and may send a JSON frame.

  `Session` is the value of that state; the `...Step` functions say what each handler does
  to it, and the class `TerminalSession` holds the state in fields whose methods are proved
  to perform exactly those steps. Properties of the steps are in module TerminalProperties.
 */
module Terminal {
  import opened Strings

  /** The `readyState` of the current socket; `NoSocket` before the first run. */
  datatype ReadyState = NoSocket | Connecting | Open | Closing | Closed

  /** The frames the page sends, one JSON object each, tagged by `action`. */
  datatype Outbound = Run(language: string, code: string) | Stop | Input(data: string)

  /** An inbound frame, already parsed: its optional `output` and `event` fields. */
  datatype Inbound = Inbound(output: Option<string>, event: Option<string>)

  /**
    The page's session state. `language` and `code` are the values the callbacks of the
    current socket captured when it was created; `sent` lists every frame sent, oldest
    first; `closeCalls` counts the calls of `socket.close()`.
   */
  datatype Session = Session(
    output: string,
    waiting: bool,
    buffer: string,
    executing: bool,
    socket: ReadyState,
    language: string,
    code: string,
    sent: seq<Outbound>,
    closeCalls: nat)

  const ConnectingLine: string := "\U{1F680} Connecting to execution server...\n"
  const ExecutingLine: string := "\U{26A1} Executing code...\n\n"
  const FinishedMarker: string := "Process finished successfully"
  const FinishedLine: string := "\n\n\U{2705} " + FinishedMarker
  const ErrorLine: string := "\n\n\U{274C} WebSocket connection error."

  /** A socket that has not yet delivered its close event. */
  predicate Live(r: ReadyState) {
    r == Connecting || r == Open || r == Closing
  }

  /**
    What every handler keeps: the page is executing exactly while the current socket is
    live, and it only waits for input while executing.
   */
  predicate Inv(s: Session) {
    && (s.executing <==> Live(s.socket))
    && (s.waiting ==> s.executing)
  }

  /** The state when the page has loaded: no socket, nothing buffered, nothing sent. */
  function Initial(output: string): (s: Session)
    ensures Inv(s) && s.socket == NoSocket && s.sent == [] && s.buffer == []
  {
    Session(output, false, "", false, NoSocket, "", "", [], 0)
  }

  /** The terminal reacts to keys only while the socket is open and it waits for input. */
  predicate AcceptsKeys(s: Session) {
    s.socket == Open && s.waiting
  }

  /** The terminal's keydown handler. */
  function KeyDownStep(s: Session, key: string): Session {
    if !AcceptsKeys(s) then s
    else if key == "Enter" then
      s.(output := s.output + "\n", sent := s.sent + [Input(s.buffer + "\n")],
         buffer := "", waiting := false)
    else if key == "Backspace" then
      if |s.buffer| > 0 then s.(buffer := s.buffer[..|s.buffer| - 1], output := DropLast(s.output))
      else s
    else if |key| == 1 then s.(buffer := s.buffer + key, output := s.output + key)
    else s
  }

  /** `socket.close()`: an open or connecting socket starts closing; otherwise nothing happens. */
  function CloseStep(s: Session): Session {
    s.(socket := if s.socket == Open || s.socket == Connecting then Closing else s.socket,
       closeCalls := s.closeCalls + 1)
  }

  /** `runWithWebSocket(language, code)` up to the creation of the new socket. */
  function StartRunStep(s: Session, language: string, code: string): Session {
    s.(output := ConnectingLine, executing := true, socket := Connecting,
       language := language, code := code)
  }

  /** The Run/Stop button, with the selected language and the editor's text. */
  function ClickRunStep(s: Session, language: string, code: string): Session {
    if s.executing && s.socket == Open then s.(sent := s.sent + [Stop])
    else if language == "web" then s
    else if Trim(code) == "" then s
    else
      var s' := if s.socket == Open || s.socket == Connecting then CloseStep(s) else s;
      StartRunStep(s', language, code)
  }

  /** The socket's open callback. */
  function OpenStep(s: Session): Session {
    s.(socket := Open, sent := s.sent + [Run(s.language, s.code)], output := ExecutingLine)
  }

  /** A non-empty `output` chunk: shown verbatim; no trailing newline means the process waits. */
  function ChunkStep(s: Session, text: string): Session {
    s.(output := s.output + text,
       waiting := if !EndsWith(text, "\n") && !EndsWith(text, "\r\n") then true else s.waiting)
  }

  /** The `finished` event: the status line unless already shown, then `socket.close()`. */
  function FinishStep(s: Session): Session {
    var shown := if Contains(s.output, FinishedMarker) then s.output else s.output + FinishedLine;
    CloseStep(s.(output := shown))
  }

  /** The socket's message callback. */
  function MessageStep(s: Session, frame: Inbound): Session {
    var s' := if frame.output.Some? && frame.output.value != "" then ChunkStep(s, frame.output.value) else s;
    if frame.event == Some("finished") then FinishStep(s') else s'
  }

  /** The socket's close callback. */
  function CloseEventStep(s: Session): Session {
    s.(executing := false, waiting := false, socket := Closed)
  }

  /** The socket's error callback. */
  function ErrorStep(s: Session): Session {
    s.(output := s.output + ErrorLine)
  }

  /** The Clear button of the output area. */
  function ClearStep(s: Session): Session {
    s.(output := "")
  }

  /**
    The session state held in place and updated by the event handlers. `output`, `waiting`,
    `buffer`, `executing` and `socket` are the page's globals (the output area's text and
    class, `currentInputBuffer`, `isExecuting`, the current socket). `language` and `code`
    are the values the current socket's callbacks captured when it was created. `sent` and
    `closeCalls` are logs of the handlers' effects on the socket.
   */
  class TerminalSession {
    var output: string
    var waiting: bool
    var buffer: string
    var executing: bool
    var socket: ReadyState
    var language: string
    var code: string
    var sent: seq<Outbound>
    var closeCalls: nat

    ghost function State(): Session
      reads this
    {
      Session(output, waiting, buffer, executing, socket, language, code, sent, closeCalls)
    }

    ghost predicate Valid()
      reads this
    {
      Inv(State())
    }

    constructor (initialOutput: string)
      ensures Valid() && State() == Initial(initialOutput)
    {
      output, waiting, buffer, executing := initialOutput, false, "", false;
      socket, language, code, sent, closeCalls := NoSocket, "", "", [], 0;
    }

    method KeyDown(key: string)
      requires Valid()
      modifies this
      ensures Valid() && State() == KeyDownStep(old(State()), key)
    {
      if socket == Open && waiting {
        if key == "Enter" {
          output := output + "\n";
          sent := sent + [Input(buffer + "\n")];
          buffer := "";
          waiting := false;
        } else if key == "Backspace" {
          if |buffer| > 0 {
            buffer := buffer[..|buffer| - 1];
            output := DropLast(output);
          }
        } else if |key| == 1 {
          buffer := buffer + key;
          output := output + key;
        }
      }
    }

    method CloseSocket()
      requires Valid()
      modifies this
      ensures Valid() && State() == CloseStep(old(State()))
    {
      if socket == Open || socket == Connecting {
        socket := Closing;
      }
      closeCalls := closeCalls + 1;
    }

    method RunWithWebSocket(lang: string, source: string)
      modifies this
      ensures Valid() && State() == StartRunStep(old(State()), lang, source)
    {
      output := ConnectingLine;
      executing := true;
      socket := Connecting;
      language, code := lang, source;
    }

    method ClickRun(lang: string, source: string)
      requires Valid()
      modifies this
      ensures Valid() && State() == ClickRunStep(old(State()), lang, source)
    {
      if executing && socket == Open {
        sent := sent + [Stop];
        return;
      }
      if lang == "web" {
        return;
      }
      if Trim(source) == "" {
        return;
      }
      if socket == Open || socket == Connecting {
        CloseSocket();
      }
      RunWithWebSocket(lang, source);
    }

    method OnOpen()
      requires Valid() && socket == Connecting
      modifies this
      ensures Valid() && State() == OpenStep(old(State()))
    {
      socket := Open;
      sent := sent + [Run(language, code)];
      output := ExecutingLine;
    }

    method OnMessage(frame: Inbound)
      requires Valid() && socket == Open
      modifies this
      ensures Valid() && State() == MessageStep(old(State()), frame)
    {
      if frame.output.Some? && frame.output.value != "" {
        var text := frame.output.value;
        output := output + text;
        if !EndsWith(text, "\n") && !EndsWith(text, "\r\n") {
          waiting := true;
        }
      }
      if frame.event == Some("finished") {
        if !Contains(output, FinishedMarker) {
          output := output + FinishedLine;
        }
        CloseSocket();
      }
    }

    method OnClose()
      requires Valid() && Live(socket)
      modifies this
      ensures Valid() && State() == CloseEventStep(old(State()))
    {
      executing := false;
      socket := Closed;
      waiting := false;
    }

    method OnError()
      requires Valid() && Live(socket)
      modifies this
      ensures Valid() && State() == ErrorStep(old(State()))
    {
      output := output + ErrorLine;
    }

    method ClearOutput()
      requires Valid()
      modifies this
      ensures Valid() && State() == ClearStep(old(State()))
    {
      output := "";
    }
  }
}
