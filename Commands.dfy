/**
 * What the terminal writes, as abstract display events. Escape sequences
 * and colours are not represented: the coloured `$ ` prompt is `Prompt`,
 * the "return and erase to end of line" sequence is `EraseLine`.
 */
module Display {

  datatype Effect =
    | Write(text: string)      // term.write
    | WriteLine(text: string)  // term.writeln
    | NewLine                  // term.write of a carriage return and line feed
    | EraseChar                // backspace, space, backspace: blanks the last character shown
    | ClearDisplay             // term.clear
    | EraseLine                // carriage return, then erase to end of line
    | Prompt                   // the coloured `$ ` prompt
    | WriteDate                // one line holding the local date and time

  /** clearCurrentLine: erase the displayed input line and redraw the prompt. */
  function ClearCurrentLine(): seq<Effect> {
    [EraseLine, Prompt]
  }
}

/** handleCommand: the classification of a submitted line and its output. */
module Commands {
  import opened JsText
  import opened Display

  datatype CommandResult =
    | Help
    | Clear
    | Echo(payload: string)
    | Date
    | NotFound(message: string)
    | Silent

  /** `command.trim().toLowerCase()`: the form every branch is matched against. */
  function Normalize(command: string): string {
    Lower(Trim(command))
  }

  /**
   * Which branch of handleCommand a line takes. The keyword tests look at
   * the normalised line; the echo payload and the not-found message are
   * built from the line as it was typed.
   */
  function Dispatch(command: string): CommandResult {
    var cmd := Normalize(command);
    if cmd == "help" then Help
    else if cmd == "clear" then Clear
    else if StartsWith(cmd, "echo ") then Echo(Slice(command, 5))
    else if cmd == "date" then Date
    else if cmd != "" then NotFound("Command not found: " + command)
    else Silent
  }

  /** The display events of one branch, before the closing prompt. */
  function Output(r: CommandResult): seq<Effect> {
    match r
    case Help =>
      [ WriteLine("\r\nAvailable commands:"),
        WriteLine("  help     - Show this help message"),
        WriteLine("  clear    - Clear the terminal"),
        WriteLine("  echo     - Echo a message"),
        WriteLine("  date     - Show current date and time\n") ]
    case Clear => [ClearDisplay]
    case Echo(payload) => [WriteLine(payload)]
    case Date => [WriteDate]
    case NotFound(message) => [WriteLine(message)]
    case Silent => []
  }

  /** Everything handleCommand writes for `command`. */
  function HandleCommand(command: string): seq<Effect> {
    Output(Dispatch(command)) + [Prompt]
  }

  /** The normalised line is empty exactly when the line is all white space. */
  lemma NormalizeEmpty(command: string)
    ensures |Normalize(command)| <= |command|
    ensures Normalize(command) == [] <==> AllWhiteSpace(command)
  {
    TrimCore(command);
  }

  /** A line produces no output, only the prompt, exactly when it is blank. */
  lemma SilentIffBlank(command: string)
    ensures Dispatch(command) == Silent <==> AllWhiteSpace(command)
  {
    NormalizeEmpty(command);
  }

  /** The echo payload is the typed line from its sixth character on, untrimmed and in its own case. */
  lemma EchoPayloadIsSuffix(command: string)
    ensures Dispatch(command).Echo? ==>
              |command| >= 5 && Dispatch(command).payload == command[5..]
  {
    NormalizeEmpty(command);
  }

  /** A line matching nothing is reported with its text as typed, and it is never blank. */
  lemma NotFoundQuotesLine(command: string)
    ensures Dispatch(command).NotFound? ==>
              Dispatch(command).message == "Command not found: " + command
              && !AllWhiteSpace(command)
  {
    NormalizeEmpty(command);
  }

  /** Whatever the branch, handleCommand ends with exactly one prompt. */
  lemma OnePromptLast(command: string)
    ensures var effects := HandleCommand(command);
            |effects| > 0 && effects[|effects| - 1] == Prompt
            && forall i | 0 <= i < |effects| - 1 :: effects[i] != Prompt
  {
    var out := Output(Dispatch(command));
    assert Prompt !in out;
    assert forall i | 0 <= i < |out| :: (out + [Prompt])[i] == out[i];
  }

  /** Only `clear`, in any case and with any surrounding white space, clears the display. */
  lemma ClearOnlyForClear(command: string)
    ensures ClearDisplay in HandleCommand(command) <==> Normalize(command) == "clear"
  {
    var out := Output(Dispatch(command));
    assert ClearDisplay in out <==> Dispatch(command) == Clear;
    assert HandleCommand(command) == out + [Prompt];
  }

  /** The keywords are matched whatever their case and whatever white space surrounds them. */
  lemma KeywordIgnoresCaseAndSpace(a: string, word: string, b: string)
    requires AllWhiteSpace(a) && AllWhiteSpace(b)
    requires Lower(word) in {"help", "clear", "date"}
    ensures Dispatch(a + word + b) ==
              if Lower(word) == "help" then Help
              else if Lower(word) == "clear" then Clear
              else Date
  {
    assert !IsWhiteSpace(word[0]) && !IsWhiteSpace(word[|word| - 1]) by {
      assert LowerChar(word[0]) == Lower(word)[0];
      assert LowerChar(word[|word| - 1]) == Lower(word)[|word| - 1];
    }
    TrimSplit(a, word, b);
  }

  /** The echo test wins whenever it holds: no earlier keyword starts with `echo `. */
  lemma DispatchEchoBranch(command: string)
    requires StartsWith(Normalize(command), "echo ")
    ensures Dispatch(command) == Echo(Slice(command, 5))
  {
    var cmd := Normalize(command);
    assert |cmd| >= 5;
    assert |"help"| == 4 && cmd[0] == "echo "[0] == 'e';
    assert cmd != "help" && cmd != "clear";
  }

  /**
   * A line is reported as not found exactly when it is not blank, is none of
   * the keywords once normalised, and does not start with `echo `.
   */
  lemma NotFoundIffUnmatched(command: string)
    ensures Dispatch(command).NotFound? <==>
              !AllWhiteSpace(command)
              && Normalize(command) !in {"help", "clear", "date"}
              && !StartsWith(Normalize(command), "echo ")
  {
    NormalizeEmpty(command);
    if StartsWith(Normalize(command), "echo ") {
      DispatchEchoBranch(command);
    }
  }

  /** The normalised form of a line is its trimmed core, lower-cased. */
  lemma NormalizeSplit(a: string, m: string, b: string)
    requires AllWhiteSpace(a) && AllWhiteSpace(b) && IsTrimmed(m)
    ensures Normalize(a + m + b) == Lower(m)
  {
    TrimSplit(a, m, b);
  }

  lemma EchoLineNormalizes(keyword: string, payload: string)
    requires |keyword| == 5 && Lower(keyword) == "echo "
    requires !AllWhiteSpace(payload)
    ensures StartsWith(Normalize(keyword + payload), "echo ")
  {
    var body := TrimEnd(payload);
    TrimEndPrefix(payload);
    var tail := payload[|body|..];
    assert payload == body + tail;
    assert LowerChar(keyword[0]) == Lower(keyword)[0] == 'e';
    var core := keyword + body;
    assert keyword + payload == [] + core + tail;
    NormalizeSplit([], core, tail);
    var cmd := Lower(core);
    assert cmd[..5] == Lower(keyword) by {
      forall i | 0 <= i < 5 ensures cmd[i] == Lower(keyword)[i] {
        assert core[i] == keyword[i];
      }
    }
  }

  /**
   * A line that starts with `echo ` in any case and has something besides
   * white space after it echoes everything after those five characters,
   * trailing white space and case included.
   */
  lemma EchoKeepsPayload(keyword: string, payload: string)
    requires |keyword| == 5 && Lower(keyword) == "echo "
    requires !AllWhiteSpace(payload)
    ensures Dispatch(keyword + payload) == Echo(payload)
  {
    EchoLineNormalizes(keyword, payload);
    DispatchEchoBranch(keyword + payload);
    assert (keyword + payload)[5..] == payload;
  }

  /**
   * Indentation before `echo ` stays in the line that is sliced, so the
   * payload starts that many characters early: `  echo hi` echoes `o hi`.
   */
  lemma IndentedEchoShiftsPayload(indent: string, keyword: string, payload: string)
    requires AllWhiteSpace(indent) && |indent| <= 5
    requires |keyword| == 5 && Lower(keyword) == "echo "
    requires !AllWhiteSpace(payload)
    ensures Dispatch(indent + keyword + payload) == Echo((keyword + payload)[5 - |indent|..])
  {
    var line := indent + keyword + payload;
    assert StartsWith(Normalize(line), "echo ") by {
      assert line == indent + (keyword + payload);
      TrimIgnoresIndent(indent, keyword + payload);
      EchoLineNormalizes(keyword, payload);
    }
    DispatchEchoBranch(line);
    assert line[5..] == (keyword + payload)[5 - |indent|..];
  }

  /**
   * The example of the quirk above, written out: `  echo hi` echoes `o hi`.
   * The three pieces are parameters fixed by the precondition so that the
   * proof works on the pieces rather than on one long literal;
   * `IndentedEchoLiteral` states it for the literal line.
   */
  lemma IndentedEchoExample(indent: string, keyword: string, payload: string)
    requires indent == "  " && keyword == "echo " && payload == "hi"
    ensures Dispatch(indent + keyword + payload) == Echo("o hi")
  {
    var rest := (keyword + payload)[3..];
    assert Dispatch(indent + keyword + payload) == Echo(rest) by {
      assert !IsWhiteSpace(payload[0]);
      IndentedEchoShiftsPayload(indent, keyword, payload);
    }
    assert rest == "o hi" by {
      assert |rest| == 4;
      assert rest[0] == 'o' && rest[1] == ' ' && rest[2] == 'h' && rest[3] == 'i';
    }
  }

  /** `  echo hi` echoes `o hi`. */
  lemma IndentedEchoLiteral()
    ensures Dispatch("  echo hi") == Echo("o hi")
  {
    IndentedEchoExample("  ", "echo ", "hi");
    assert "  " + "echo " + "hi" == "  echo hi";
  }

  /**
   * `echo` with nothing but white space after it is trimmed to `echo`,
   * which matches no branch: the line is reported as not found.
   */
  lemma BareEchoIsNotFound(a: string, keyword: string, b: string)
    requires AllWhiteSpace(a) && AllWhiteSpace(b)
    requires Lower(keyword) == "echo"
    ensures Dispatch(a + keyword + b) == NotFound("Command not found: " + (a + keyword + b))
  {
    assert LowerChar(keyword[0]) == Lower(keyword)[0] == 'e';
    assert LowerChar(keyword[3]) == Lower(keyword)[3] == 'o';
    NormalizeSplit(a, keyword, b);
    NotFoundIffUnmatched(a + keyword + b);
    NotFoundQuotesLine(a + keyword + b);
  }
}
