/**
 * The key handler of the terminal: an input line, the list of submitted
 * lines and a cursor into that list, updated one key event at a time.
 * `Step` is the specification of one event; `LineEditor` is the handler
 * with its state held in fields, as the closure holds it.
 */
module LineEditing {
  import opened Display
  import Commands

  /** A key event after key-code decoding: the four keys with a meaning, and everything else. */
  datatype KeyEvent =
    | Enter
    | Backspace
    | Up
    | Down
    | Char(key: string, alt: bool, ctrl: bool, meta: bool)

  /** The closure state: the line being typed, the submitted lines, the history cursor. */
  datatype EditorState = EditorState(line: string, history: seq<string>, index: int)

  /** The cursor points into the history or one past its end, at the line being typed. */
  predicate WellFormed(s: EditorState) {
    0 <= s.index <= |s.history|
  }

  /** The state a mount starts from. */
  const Initial := EditorState("", [], 0)

  /** The state after an event and what the event writes to the display. */
  datatype Outcome = Outcome(state: EditorState, effects: seq<Effect>)

  /**
   * One key event. Enter submits whatever was typed, blank or not; Backspace
   * drops one character; Up and Down move the cursor through the history,
   * clamped at both ends; any other key is typed unless alt, ctrl or meta is
   * held. The history changes only on Enter, and only at its end.
   */
  function Step(s: EditorState, ev: KeyEvent): (o: Outcome)
    requires WellFormed(s)
    ensures WellFormed(o.state)
    ensures o.state.history == s.history + (if ev.Enter? then [s.line] else [])
  {
    match ev
    case Enter => Submit(s)
    case Backspace => Erase(s)
    case Up => Previous(s)
    case Down => Next(s)
    case Char(key, alt, ctrl, meta) =>
      if !alt && !ctrl && !meta then Typed(s, key) else Outcome(s, [])
  }

  function Submit(s: EditorState): Outcome {
    Outcome(EditorState("", s.history + [s.line], |s.history| + 1),
            [NewLine] + Commands.HandleCommand(s.line))
  }

  function Erase(s: EditorState): Outcome {
    if |s.line| > 0 then Outcome(s.(line := s.line[..|s.line| - 1]), [EraseChar])
    else Outcome(s, [])
  }

  function Previous(s: EditorState): Outcome
    requires WellFormed(s)
  {
    if s.index > 0 then
      var entry := s.history[s.index - 1];
      Outcome(s.(index := s.index - 1, line := entry), ClearCurrentLine() + [Write(entry)])
    else Outcome(s, [])
  }

  function Next(s: EditorState): Outcome
    requires WellFormed(s)
  {
    if s.index < |s.history| - 1 then
      var entry := s.history[s.index + 1];
      Outcome(s.(index := s.index + 1, line := entry), ClearCurrentLine() + [Write(entry)])
    else Outcome(s.(index := |s.history|, line := ""), ClearCurrentLine())
  }

  function Typed(s: EditorState, key: string): Outcome {
    Outcome(s.(line := s.line + key), [Write(key)])
  }

  /** A sequence of key events, one after another; the history only grows, at its end. */
  function Run(s: EditorState, events: seq<KeyEvent>): (o: Outcome)
    requires WellFormed(s)
    ensures WellFormed(o.state)
    ensures s.history <= o.state.history
    decreases |events|
  {
    if events == [] then Outcome(s, [])
    else
      var first := Step(s, events[0]);
      var rest := Run(first.state, events[1..]);
      Outcome(rest.state, first.effects + rest.effects)
  }

  /** The onKey handler, with the closure variables as fields and the display as an output log. */
  class LineEditor {
    var currentLine: string
    var history: seq<string>
    var historyIndex: int
    var display: seq<Effect>

    ghost predicate Valid()
      reads this`currentLine, this`history, this`historyIndex
    {
      WellFormed(State())
    }

    function State(): EditorState
      reads this`currentLine, this`history, this`historyIndex
    {
      EditorState(currentLine, history, historyIndex)
    }

    /** A fresh mount: empty line, empty history, cursor at 0, and the first prompt on the display. */
    constructor ()
      ensures Valid()
      ensures State() == Initial && display == [Prompt]
    {
      currentLine := "";
      history := [];
      historyIndex := 0;
      display := [Prompt];
    }

    /** term.write and term.writeln: the display only ever grows by what is written. */
    method Emit(effects: seq<Effect>)
      modifies this`display
      ensures display == old(display) + effects
    {
      display := display + effects;
    }

    /** Dispatches one key event on its key code, then on the modifier flags. */
    method OnKey(ev: KeyEvent)
      requires Valid()
      modifies this
      ensures Valid()
      ensures State() == Step(old(State()), ev).state
      ensures display == old(display) + Step(old(State()), ev).effects
    {
      match ev
      case Enter => SubmitLine();
      case Backspace => EraseLast();
      case Up => HistoryPrevious();
      case Down => HistoryNext();
      case Char(key, alt, ctrl, meta) =>
        if !alt && !ctrl && !meta {
          Type(key);
        }
    }

    /** Enter: the typed line is dispatched and recorded, blank or not, and the line is reset. */
    method SubmitLine()
      requires Valid()
      modifies this
      ensures Valid()
      ensures history == old(history) + [old(currentLine)]
      ensures historyIndex == |history| && currentLine == ""
      ensures State() == Submit(old(State())).state
      ensures display == old(display) + Submit(old(State())).effects
    {
      Emit([NewLine] + Commands.HandleCommand(currentLine));
      history := history + [currentLine];
      historyIndex := |history|;
      currentLine := "";
    }

    /** Backspace: the last character goes, if there is one; otherwise nothing happens. */
    method EraseLast()
      requires Valid()
      modifies this
      ensures Valid()
      ensures history == old(history) && historyIndex == old(historyIndex)
      ensures old(currentLine) == [] ==> currentLine == [] && display == old(display)
      ensures old(currentLine) != [] ==>
                currentLine + [old(currentLine)[|old(currentLine)| - 1]] == old(currentLine)
                && display == old(display) + [EraseChar]
    {
      if |currentLine| > 0 {
        currentLine := currentLine[..|currentLine| - 1];
        Emit([EraseChar]);
      }
    }

    /** Up: one entry back, unless the cursor is already at the oldest one. */
    method HistoryPrevious()
      requires Valid()
      modifies this
      ensures Valid()
      ensures history == old(history)
      ensures old(historyIndex) == 0 ==> unchanged(this)
      ensures old(historyIndex) > 0 ==>
                historyIndex == old(historyIndex) - 1 && currentLine == history[historyIndex]
                && display == old(display) + ClearCurrentLine() + [Write(currentLine)]
    {
      if historyIndex > 0 {
        historyIndex := historyIndex - 1;
        Emit(ClearCurrentLine());
        currentLine := history[historyIndex];
        Emit([Write(currentLine)]);
      }
    }

    /** Down: one entry forward, or back to an empty line past the newest entry. */
    method HistoryNext()
      requires Valid()
      modifies this
      ensures Valid()
      ensures history == old(history)
      ensures old(historyIndex) < |history| - 1 ==>
                historyIndex == old(historyIndex) + 1 && currentLine == history[historyIndex]
                && display == old(display) + ClearCurrentLine() + [Write(currentLine)]
      ensures old(historyIndex) >= |history| - 1 ==>
                historyIndex == |history| && currentLine == ""
                && display == old(display) + ClearCurrentLine()
    {
      Emit(ClearCurrentLine());
      if historyIndex < |history| - 1 {
        historyIndex := historyIndex + 1;
        currentLine := history[historyIndex];
        Emit([Write(currentLine)]);
      } else {
        historyIndex := |history|;
        currentLine := "";
      }
    }

    /** A key typed without alt, ctrl or meta: its text is appended and echoed. */
    method Type(key: string)
      requires Valid()
      modifies this
      ensures Valid()
      ensures currentLine == old(currentLine) + key
      ensures history == old(history) && historyIndex == old(historyIndex)
      ensures display == old(display) + [Write(key)]
    {
      currentLine := currentLine + key;
      Emit([Write(key)]);
    }
  }
}
