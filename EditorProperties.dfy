/**
 * What sequences of key events do to the editor state: typing accumulates,
 * Up and Down walk the history with clamping, Enter records every line.
 */
module EditorProperties {
  import opened Display
  import opened LineEditing
  import JsText
  import Commands

  /** The same event `n` times. */
  function Repeat(ev: KeyEvent, n: nat): (r: seq<KeyEvent>)
    ensures |r| == n && forall i | 0 <= i < n :: r[i] == ev
  {
    if n == 0 then [] else [ev] + Repeat(ev, n - 1)
  }

  /** Keys typed with no modifier held. */
  function Keys(keys: seq<string>): (r: seq<KeyEvent>)
    ensures |r| == |keys|
  {
    if keys == [] then [] else [Char(keys[0], false, false, false)] + Keys(keys[1..])
  }

  function Concat(keys: seq<string>): string {
    if keys == [] then "" else keys[0] + Concat(keys[1..])
  }

  /** Running two sequences of events one after the other is running their concatenation. */
  lemma {:induction false} RunConcat(s: EditorState, a: seq<KeyEvent>, b: seq<KeyEvent>)
    requires WellFormed(s)
    ensures var first := Run(s, a);
            var second := Run(first.state, b);
            Run(s, a + b) == Outcome(second.state, first.effects + second.effects)
    decreases |a|
  {
    if a != [] {
      assert (a + b)[0] == a[0] && (a + b)[1..] == a[1..] + b;
      var next := Step(s, a[0]).state;
      RunConcat(next, a[1..], b);
      var first := Run(next, a[1..]);
      var second := Run(first.state, b);
      assert Step(s, a[0]).effects + first.effects + second.effects
          == Step(s, a[0]).effects + (first.effects + second.effects);
    } else {
      assert a + b == b;
    }
  }

  /** Running a non-empty sequence of events is running its first event, then the rest. */
  lemma RunFirst(s: EditorState, events: seq<KeyEvent>)
    requires WellFormed(s) && events != []
    ensures var next := Step(s, events[0]);
            var rest := Run(next.state, events[1..]);
            Run(s, events) == Outcome(rest.state, next.effects + rest.effects)
  {
  }

  /** How many of `events` are Enter. */
  function EnterCount(events: seq<KeyEvent>): nat {
    if events == [] then 0 else (if events[0].Enter? then 1 else 0) + EnterCount(events[1..])
  }

  /**
   * The history grows by exactly one entry per Enter and by nothing else;
   * what was in it stays, in place.
   */
  lemma {:induction false} HistoryGrowsByEnter(s: EditorState, events: seq<KeyEvent>)
    requires WellFormed(s)
    ensures var h := Run(s, events).state.history;
            |h| == |s.history| + EnterCount(events) && h[..|s.history|] == s.history
    decreases |events|
  {
    if events != [] {
      RunFirst(s, events);
      HistoryGrowsByEnter(Step(s, events[0]).state, events[1..]);
    }
  }

  /** Each key echoed once, in order. */
  function Echoes(keys: seq<string>): (r: seq<Effect>)
    ensures |r| == |keys|
  {
    if keys == [] then [] else [Write(keys[0])] + Echoes(keys[1..])
  }

  /**
   * Keys typed without modifiers append their text to the line, each echoed
   * as it comes, and leave the history and its cursor alone.
   */
  lemma {:induction false} TypingAppends(s: EditorState, keys: seq<string>)
    requires WellFormed(s)
    ensures Run(s, Keys(keys)) == Outcome(s.(line := s.line + Concat(keys)), Echoes(keys))
    decreases |keys|
  {
    if keys == [] {
      assert s.line + Concat(keys) == s.line;
    } else {
      var events := Keys(keys);
      assert events[0] == Char(keys[0], false, false, false) && events[1..] == Keys(keys[1..]);
      RunFirst(s, events);
      var next := Step(s, events[0]);
      assert next == Outcome(s.(line := s.line + keys[0]), [Write(keys[0])]);
      TypingAppends(next.state, keys[1..]);
      var rest := Run(next.state, events[1..]);
      assert rest.state.line == s.line + Concat(keys) by {
        assert s.line + keys[0] + Concat(keys[1..]) == s.line + (keys[0] + Concat(keys[1..]));
      }
      assert next.effects + rest.effects == Echoes(keys);
    }
  }

  /** Keys typed with alt, ctrl or meta held change nothing and write nothing. */
  lemma {:induction false} ModifiedKeysIgnored(s: EditorState, events: seq<KeyEvent>)
    requires WellFormed(s)
    requires forall i | 0 <= i < |events| :: events[i].Char? && (events[i].alt || events[i].ctrl || events[i].meta)
    ensures Run(s, events) == Outcome(s, [])
  {
    if events != [] {
      ModifiedKeysIgnored(s, events[1..]);
    }
  }

  /** A typed character and a Backspace cancel out, on the line and on the history. */
  lemma TypeThenErase(s: EditorState, c: char)
    requires WellFormed(s)
    ensures Run(s, [Char([c], false, false, false), Backspace]).state == s
  {
    var events := [Char([c], false, false, false), Backspace];
    var typed := Step(s, events[0]).state;
    assert typed.line[..|typed.line| - 1] == s.line;
    assert events[1..] == [Backspace] && [Backspace][1..] == [];
    assert Run(typed, [Backspace]).state == Step(typed, Backspace).state;
  }

  /** Repeating an event `k` times is one event followed by `k - 1` repeats. */
  lemma RepeatFirst(s: EditorState, ev: KeyEvent, k: nat)
    requires WellFormed(s) && k > 0
    ensures var next := Step(s, ev);
            var rest := Run(next.state, Repeat(ev, k - 1));
            Run(s, Repeat(ev, k)) == Outcome(rest.state, next.effects + rest.effects)
  {
    var evs := Repeat(ev, k);
    assert evs[0] == ev && evs[1..] == Repeat(ev, k - 1);
  }

  /** At the oldest entry, or with an empty history, Up changes nothing and writes nothing. */
  lemma {:induction false} UpAtOldestIsNoOp(s: EditorState, k: nat)
    requires WellFormed(s) && s.index == 0
    ensures Run(s, Repeat(Up, k)) == Outcome(s, [])
    decreases k
  {
    if k > 0 {
      RepeatFirst(s, Up, k);
      assert Step(s, Up) == Outcome(s, []);
      UpAtOldestIsNoOp(s, k - 1);
    }
  }

  /**
   * `k` presses of Up move the cursor back `k` entries, stopping at the
   * oldest one, and load the entry under the cursor.
   */
  lemma {:induction false} UpWalksBack(s: EditorState, k: nat)
    requires WellFormed(s) && s.index > 0 && k > 0
    ensures var j := if s.index >= k then s.index - k else 0;
            Run(s, Repeat(Up, k)).state == s.(index := j, line := s.history[j])
    decreases k
  {
    RepeatFirst(s, Up, k);
    var next := Step(s, Up).state;
    assert next == s.(index := s.index - 1, line := s.history[s.index - 1]);
    assert Run(s, Repeat(Up, k)).state == Run(next, Repeat(Up, k - 1)).state;
    if k == 1 {
      assert Repeat(Up, 0) == [];
      assert Run(next, []).state == next;
    } else if next.index == 0 {
      UpAtOldestIsNoOp(next, k - 1);
      assert s.index < k;
    } else {
      UpWalksBack(next, k - 1);
      assert next.index >= k - 1 <==> s.index >= k;
    }
  }

  /** `k` presses of Down move the cursor forward `k` entries while one is left to load. */
  lemma {:induction false} DownWalksForward(s: EditorState, k: nat)
    requires WellFormed(s)
    requires s.index + k < |s.history|
    ensures Run(s, Repeat(Down, k)).state ==
              if k == 0 then s else s.(index := s.index + k, line := s.history[s.index + k])
    decreases k
  {
    if k > 0 {
      RepeatFirst(s, Down, k);
      var next := Step(s, Down).state;
      assert next == s.(index := s.index + 1, line := s.history[s.index + 1]);
      DownWalksForward(next, k - 1);
    }
  }

  /**
   * Enough presses of Down always end on an empty line one past the newest
   * entry, never beyond it, whatever the cursor and the line were.
   */
  lemma {:induction false} DownReachesLive(s: EditorState, n: nat)
    requires WellFormed(s)
    requires n >= 1 && n >= |s.history| - s.index
    ensures Run(s, Repeat(Down, n)).state == EditorState("", s.history, |s.history|)
    decreases n
  {
    RepeatFirst(s, Down, n);
    var next := Step(s, Down).state;
    if n > 1 {
      DownReachesLive(next, n - 1);
    } else {
      assert Repeat(Down, 0) == [];
    }
  }

  /**
   * Walking `k` entries back and `k` forward from the line being typed
   * returns to the end of the history with an empty line: the text typed
   * before the first Up is not restored.
   */
  lemma BrowseAndReturn(s: EditorState, k: nat)
    requires WellFormed(s) && s.index == |s.history|
    requires 1 <= k <= |s.history|
    ensures Run(s, Repeat(Up, k) + Repeat(Down, k)).state == EditorState("", s.history, |s.history|)
  {
    RunConcat(s, Repeat(Up, k), Repeat(Down, k));
    UpWalksBack(s, k);
    DownReachesLive(Run(s, Repeat(Up, k)).state, k);
  }

  /** Enter on its own: the line goes to the end of the history and the cursor past it. */
  lemma SubmitState(s: EditorState)
    requires WellFormed(s)
    ensures Run(s, [Enter]).state == EditorState("", s.history + [s.line], |s.history| + 1)
  {
    assert [Enter][1..] == [];
  }

  /** Submitting `line` by typing it one character at a time, then Enter. */
  function Submission(line: string): seq<KeyEvent> {
    Keys(Characters(line)) + [Enter]
  }

  function Characters(line: string): (r: seq<string>)
    ensures |r| == |line|
  {
    if line == [] then [] else [[line[0]]] + Characters(line[1..])
  }

  lemma {:induction false} ConcatCharacters(line: string)
    ensures Concat(Characters(line)) == line
  {
    if line != [] {
      ConcatCharacters(line[1..]);
    }
  }

  /** Submitting each of `lines` in turn. */
  function Session(lines: seq<string>): seq<KeyEvent> {
    if lines == [] then [] else Session(lines[..|lines| - 1]) + Submission(lines[|lines| - 1])
  }

  /**
   * After a session that submits `lines` from a fresh mount, the history is
   * exactly those lines, verbatim and in order, blank ones included; the
   * cursor is past the newest one and the line is empty.
   */
  lemma {:induction false} SessionRecordsLines(lines: seq<string>)
    ensures Run(Initial, Session(lines)).state == EditorState("", lines, |lines|)
  {
    if lines != [] {
      var earlier := lines[..|lines| - 1];
      var last := lines[|lines| - 1];
      assert earlier + [last] == lines;
      var mid := EditorState("", earlier, |earlier|);
      assert Run(Initial, Session(lines)).state == Run(mid, Submission(last)).state by {
        SessionRecordsLines(earlier);
        RunConcat(Initial, Session(earlier), Submission(last));
      }
      var typed := mid.(line := last);
      assert Run(mid, Keys(Characters(last))).state == typed by {
        TypingAppends(mid, Characters(last));
        ConcatCharacters(last);
      }
      assert Run(mid, Submission(last)).state == Run(typed, [Enter]).state by {
        RunConcat(mid, Keys(Characters(last)), [Enter]);
      }
      SubmitState(typed);
    }
  }

  /**
   * Enter on a blank line still records it in the history and moves the
   * cursor past it; handleCommand then writes nothing but the prompt.
   */
  lemma BlankLineRecorded(s: EditorState)
    requires WellFormed(s) && JsText.AllWhiteSpace(s.line)
    ensures Step(s, Enter) ==
              Outcome(EditorState("", s.history + [s.line], |s.history| + 1), [NewLine, Prompt])
  {
    Commands.SilentIffBlank(s.line);
  }
}
