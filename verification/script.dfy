/** The dialogue-script parser (`parse_script`, app/main.py:22-30).

    A script is split into lines; each line is stripped and matched against
    the line grammar `^\s*([ABC]):\s*(.+)$`. Matching lines become turns, in
    input order; every other line is dropped without complaint. A script in
    which no line matches is rejected.

    The example lemmas take their literal input as a parameter pinned by a
    `requires` (`requires line == "A :x"`) rather than writing the literal
    inside the `ensures`: a literal argument lets the verifier unfold the
    recursive definitions over it eagerly, which is costly. */
module Script {
  import opened Wrappers
  import opened Text
  import opened Selection

  /** The three speaker tags the grammar admits. */
  datatype Tag = A | B | C

  function TagChar(t: Tag): char {
    match t
    case A => 'A'
    case B => 'B'
    case C => 'C'
  }

  /** The tag as the parser reports it (regular-expression group 1). */
  function TagName(t: Tag): string {
    [TagChar(t)]
  }

  /** The character class `[ABC]`. */
  function TagOf(c: char): (r: Option<Tag>)
    ensures r.None? <==> c != 'A' && c != 'B' && c != 'C'
    ensures r.Some? ==> TagChar(r.value) == c
  {
    if c == 'A' then Some(A)
    else if c == 'B' then Some(B)
    else if c == 'C' then Some(C)
    else None
  }

  /** One parsed line: the speaker tag and the utterance (group 2). */
  datatype Turn = Turn(speaker: Tag, text: string)

  /** What every utterance the parser produces looks like: non-empty, no
      whitespace at either end, and no `\n` (which `.` does not match). */
  predicate WellFormedText(text: string) {
    text != [] && IsStripped(text) && '\n' !in text
  }

  /** The pattern `^\s*([ABC]):\s*(.+)$` applied to a stripped string `s`.
      There the leading `\s*` matches nothing, the greedy `\s*` after the
      colon takes the whole whitespace run, and `(.+)$` takes the rest, which
      must be non-empty and free of `\n`: no backtracking can find another
      match, because a non-empty stripped string ends with a non-space. */
  function MatchStripped(s: string): (m: Option<Turn>)
    requires IsStripped(s)
    ensures m.Some? ==> WellFormedText(m.value.text)
  {
    if |s| >= 2 && TagOf(s[0]).Some? && s[1] == ':' then
      var text := TrimStart(s[2..]);
      if text != [] && '\n' !in text then
        assert text[|text| - 1] == s[|s| - 1];
        Some(Turn(TagOf(s[0]).value, text))
      else None
    else None
  }

  /** One line of the script: stripped, then matched. */
  function MatchLine(line: string): (m: Option<Turn>)
    ensures m.Some? ==> WellFormedText(m.value.text)
  {
    MatchStripped(Strip(line))
  }

  /** A declarative reading of the grammar on a stripped line `s`: the tag
      letter, a colon, a (possibly empty) whitespace run, then the utterance,
      which starts with a non-space character and holds no `\n`. */
  predicate IsTurnLine(s: string, t: Turn) {
    && |s| >= 2 + |t.text|
    && s[0] == TagChar(t.speaker)
    && s[1] == ':'
    && SpaceBetween(s, 2, |s| - |t.text|)
    && s[|s| - |t.text|..] == t.text
    && t.text != []
    && !IsSpace(t.text[0])
    && '\n' !in t.text
  }

  lemma TurnLineMatches(s: string, t: Turn)
    requires IsStripped(s) && IsTurnLine(s, t)
    ensures MatchStripped(s) == Some(t)
  {
    var rest := s[2..];
    var k := |rest| - |t.text|;
    assert forall j :: 0 <= j < |rest| ==> rest[j] == s[j + 2];
    assert rest[k..] == t.text;
    TrimStartAt(rest, k);
    assert TrimStart(s[2..]) == t.text;
    assert TagOf(s[0]) == Some(t.speaker) by {
      match t.speaker
      case A => assert s[0] == 'A';
      case B => assert s[0] == 'B';
      case C => assert s[0] == 'C';
    }
  }

  lemma MatchIsTurnLine(s: string, t: Turn)
    requires IsStripped(s) && MatchStripped(s) == Some(t)
    ensures IsTurnLine(s, t)
  {
    var rest := s[2..];
    var text := TrimStart(rest);
    assert forall j :: 2 <= j < |s| ==> s[j] == rest[j - 2];
    assert s[|s| - |text|..] == text;
  }

  /** A line yields turn `t` exactly when its stripped form has the shape
      tag, colon, whitespace, utterance. */
  lemma MatchLineShape(line: string, t: Turn)
    ensures MatchLine(line) == Some(t) <==> IsTurnLine(Strip(line), t)
  {
    var s := Strip(line);
    if IsTurnLine(s, t) {
      TurnLineMatches(s, t);
    }
    if MatchLine(line) == Some(t) {
      MatchIsTurnLine(s, t);
    }
  }

  /** The acceptance condition in plain terms: the tag letter, immediately
      followed by a colon, and something other than whitespace somewhere
      after the colon. */
  predicate HasTurnShape(s: string) {
    && |s| >= 2
    && (s[0] == 'A' || s[0] == 'B' || s[0] == 'C')
    && s[1] == ':'
    && exists k :: 2 <= k < |s| && !IsSpace(s[k])
  }

  lemma AcceptedStripped(s: string)
    requires IsStripped(s) && NoLineBreak(s)
    ensures MatchStripped(s).Some? <==> HasTurnShape(s)
  {
    if |s| >= 2 && (s[0] == 'A' || s[0] == 'B' || s[0] == 'C') && s[1] == ':' {
      var rest := s[2..];
      var text := TrimStart(rest);
      var d := |s| - |text|;
      assert forall j :: 0 <= j < |text| ==> text[j] == s[d + j];
      assert '\n' !in text by {
        forall j | 0 <= j < |text| ensures text[j] != '\n' {
          assert !IsLineBreak(s[d + j]);
        }
      }
      if text != [] {
        assert 2 <= d < |s| && !IsSpace(s[d]);
      }
    }
  }

  lemma StripKeepsNoLineBreak(line: string)
    requires NoLineBreak(line)
    ensures NoLineBreak(Strip(line))
  {
    var s := Strip(line);
    StripSurrounds(line);
    var lead :| Surrounds(line, s, lead);
    assert forall j :: 0 <= j < |s| ==> s[j] == line[lead + j];
  }

  /** For a line without line boundaries (every line `SplitLines` yields),
      the grammar accepts it exactly when its stripped form starts with `A`,
      `B` or `C`, immediately followed by `:`, with something other than
      whitespace after the colon. */
  lemma AcceptedLine(line: string)
    requires NoLineBreak(line)
    ensures MatchLine(line).Some? <==> HasTurnShape(Strip(line))
  {
    StripKeepsNoLineBreak(line);
    AcceptedStripped(Strip(line));
  }

  /** A turn written back as a line: tag, colon, space, utterance. */
  function FormatTurn(t: Turn): string {
    TagName(t.speaker) + ": " + t.text
  }

  /** Tag, colon, a whitespace run and a well-formed utterance form a turn
      line. */
  lemma TaggedIsTurnLine(t: Turn, gap: string)
    requires WellFormedText(t.text) && AllSpace(gap)
    ensures IsStripped(TagName(t.speaker) + ":" + gap + t.text)
    ensures IsTurnLine(TagName(t.speaker) + ":" + gap + t.text, t)
  {
    var s := TagName(t.speaker) + ":" + gap + t.text;
    assert s[0] == TagChar(t.speaker);
    assert s[|s| - 1] == t.text[|t.text| - 1];
    assert forall j :: 2 <= j < 2 + |gap| ==> s[j] == gap[j - 2];
    assert s[|s| - |t.text|..] == t.text;
  }

  /** Any tag, colon, whitespace run and well-formed utterance, padded with
      any whitespace, parses back to that turn. */
  lemma PaddedTurnParses(t: Turn, gap: string, before: string, after: string, line: string)
    requires WellFormedText(t.text) && AllSpace(gap) && AllSpace(before) && AllSpace(after)
    requires line == before + (TagName(t.speaker) + ":" + gap + t.text) + after
    ensures MatchLine(line) == Some(t)
  {
    var s := TagName(t.speaker) + ":" + gap + t.text;
    TaggedIsTurnLine(t, gap);
    PaddedSurrounds(before, s, after);
    StripUnique(line, s, |before|);
    MatchLineShape(line, t);
  }

  /** Formatting a turn and parsing the line gives the turn back. */
  lemma FormatTurnRoundTrip(t: Turn)
    requires WellFormedText(t.text)
    ensures MatchLine(FormatTurn(t)) == Some(t)
  {
    var line := FormatTurn(t);
    assert line == "" + (TagName(t.speaker) + ":" + " " + t.text) + "" by {
      assert TagName(t.speaker) + ": " == TagName(t.speaker) + ":" + " ";
    }
    PaddedTurnParses(t, " ", "", "", line);
  }

  /** A stripped line that does not start with a tag letter immediately
      followed by a colon is rejected. */
  lemma NoTagRejected(s: string)
    requires IsStripped(s)
    requires !(|s| >= 2 && TagOf(s[0]).Some? && s[1] == ':')
    ensures MatchLine(s) == None
  {
    StripStripped(s);
  }

  /** A space before the colon is rejected. */
  lemma SpaceBeforeColonRejected(line: string)
    requires line == "A :x"
    ensures MatchLine(line) == None
  {
    NoTagRejected(line);
  }

  /** Tags are upper-case. */
  lemma LowerCaseTagRejected(line: string)
    requires line == "a: x"
    ensures MatchLine(line) == None
  {
    NoTagRejected(line);
  }

  /** The tag is one letter. */
  lemma LongTagRejected(line: string)
    requires line == "AB: x"
    ensures MatchLine(line) == None
  {
    NoTagRejected(line);
  }

  /** Only `A`, `B` and `C` are tags. */
  lemma UnknownTagRejected(line: string)
    requires line == "D: hi"
    ensures MatchLine(line) == None
  {
    NoTagRejected(line);
  }

  /** Whitespace around an utterance-less line does not rescue it. */
  lemma EmptyUtteranceRejected(line: string)
    requires line == "  A:   "
    ensures MatchLine(line) == None
  {
    PaddedSurrounds("  ", "A:", "   ");
    assert line == "  " + "A:" + "   ";
    StripUnique(line, "A:", 2);
    assert "A:"[2..] == [];
  }

  /** Only the first colon separates tag from utterance. */
  lemma ColonInUtterance(line: string)
    requires line == "A:B: x"
    ensures MatchLine(line) == Some(Turn(A, "B: x"))
  {
    PaddedTurnParses(Turn(A, "B: x"), "", "", "", line);
  }

  /** The turns of the matching lines, in line order. */
  function ParseLines(lines: seq<string>): (turns: seq<Turn>)
    ensures |turns| <= |lines|
    ensures forall k :: 0 <= k < |turns| ==> WellFormedText(turns[k].text)
  {
    KeepPreserves(lines, MatchLine, (t: Turn) => WellFormedText(t.text));
    Keep(lines, MatchLine)
  }

  /** Parsing keeps exactly the matching lines, in their original order:
      one turn per matching line, none for any other line. */
  lemma ParseLinesSelects(lines: seq<string>) returns (idx: seq<int>)
    ensures Selects(lines, MatchLine, ParseLines(lines), idx)
  {
    idx := KeepSelects(lines, MatchLine);
  }

  /** Parsing distributes over concatenation of line sequences: the turns
      of a script are those of its first part followed by those of the rest. */
  lemma ParseLinesAppend(a: seq<string>, b: seq<string>)
    ensures ParseLines(a + b) == ParseLines(a) + ParseLines(b)
  {
    KeepAppend(a, b, MatchLine);
  }

  /** A line the grammar rejects contributes nothing, wherever it stands. */
  lemma RejectedLineIgnored(a: seq<string>, line: string, b: seq<string>)
    requires MatchLine(line).None?
    ensures ParseLines(a + [line] + b) == ParseLines(a + b)
  {
    KeepAppend(a + [line], b, MatchLine);
    KeepAppend(a, [line], MatchLine);
    KeepAppend(a, b, MatchLine);
  }

  /** No turn comes out exactly when no line matches. */
  lemma ParseLinesEmpty(lines: seq<string>)
    ensures ParseLines(lines) == [] <==> forall i :: 0 <= i < |lines| ==> MatchLine(lines[i]).None?
  {
    KeepEmpty(lines, MatchLine);
  }

  /** The `ValueError` message raised when no line matches. */
  const NoDialogueMessage: string :=
    "El guion debe tener l\U{ED}neas que empiecen con 'A:' o 'B:' (y opcional 'C:')."

  /** The lines of a script; an absent script reads as the empty one. No
      line holds a line break, and there are none only for an absent or
      empty script. */
  function ScriptLines(text: Option<string>): (lines: seq<string>)
    ensures forall k :: 0 <= k < |lines| ==> NoLineBreak(lines[k])
    ensures lines == [] <==> text == None || text == Some("")
  {
    SplitLines(text.GetOr(""))
  }

  /** `parse_script`: the turns of the matching lines, or the error message
      when there are none. */
  function ParseScript(text: Option<string>): (r: Result<seq<Turn>, string>)
    ensures r.Failure? <==>
      forall i :: 0 <= i < |ScriptLines(text)| ==> MatchLine(ScriptLines(text)[i]).None?
    ensures r.Failure? ==> r.error == NoDialogueMessage
    ensures r.Success? ==> 1 <= |r.value| <= |ScriptLines(text)|
    ensures r.Success? ==>
      forall k :: 0 <= k < |r.value| ==> WellFormedText(r.value[k].text)
  {
    var lines := ScriptLines(text);
    ParseLinesEmpty(lines);
    var turns := ParseLines(lines);
    if turns == [] then Failure(NoDialogueMessage) else Success(turns)
  }

  /** The successful result of `ParseScript` lists the turns of exactly the
      matching lines, in order. */
  lemma ParseScriptSelects(text: Option<string>) returns (idx: seq<int>)
    requires ParseScript(text).Success?
    ensures Selects(ScriptLines(text), MatchLine, ParseScript(text).value, idx)
  {
    idx := ParseLinesSelects(ScriptLines(text));
  }

  /** An empty or missing script has no line at all and is rejected. */
  lemma EmptyScriptRejected(text: Option<string>)
    requires text == None || text == Some("")
    ensures ParseScript(text) == Failure(NoDialogueMessage)
  {
  }

  /** The lines of a script written back from turns, one per turn. */
  function FormatLines(turns: seq<Turn>): (lines: seq<string>)
    ensures |lines| == |turns|
  {
    seq(|turns|, k requires 0 <= k < |turns| => FormatTurn(turns[k]))
  }

  /** A script written back from turns. */
  function FormatScript(turns: seq<Turn>): string {
    JoinLines(FormatLines(turns))
  }

  lemma FormatTurnNoBreak(t: Turn)
    requires NoLineBreak(t.text)
    ensures NoLineBreak(FormatTurn(t))
  {
    var line := FormatTurn(t);
    assert forall j :: 3 <= j < |line| ==> line[j] == t.text[j - 3];
  }

  /** Splitting a formatted script gives back its lines. */
  lemma FormatScriptLines(turns: seq<Turn>)
    requires |turns| >= 1
    requires forall k :: 0 <= k < |turns| ==> NoLineBreak(turns[k].text)
    ensures ScriptLines(Some(FormatScript(turns))) == FormatLines(turns)
  {
    var lines := FormatLines(turns);
    forall k | 0 <= k < |lines| ensures NoLineBreak(lines[k]) {
      FormatTurnNoBreak(turns[k]);
    }
    SplitJoin(lines);
  }

  /** Writing turns out as a script and parsing it gives the turns back,
      provided every utterance is well formed and holds no line boundary. */
  lemma ParseFormatRoundTrip(turns: seq<Turn>)
    requires |turns| >= 1
    requires forall k :: 0 <= k < |turns| ==> WellFormedText(turns[k].text) && NoLineBreak(turns[k].text)
    ensures ParseScript(Some(FormatScript(turns))) == Success(turns)
  {
    var lines := FormatLines(turns);
    FormatScriptLines(turns);
    forall k | 0 <= k < |lines| ensures MatchLine(lines[k]) == Some(turns[k]) {
      FormatTurnRoundTrip(turns[k]);
    }
    KeepAll(lines, MatchLine, turns);
    assert ParseLines(lines) == turns;
  }

  lemma TwoLineFormat(script: string, turns: seq<Turn>)
    requires script == "A: Hello\nB: Hi there"
    requires turns == [Turn(A, "Hello"), Turn(B, "Hi there")]
    ensures FormatScript(turns) == script
  {
    var lines := FormatLines(turns);
    assert lines[0] == "A: Hello" && lines[1] == "B: Hi there";
    assert JoinLines(lines) == lines[0] + "\n" + JoinLines(lines[1..]);
    assert JoinLines(lines[1..]) == lines[1];
  }

  lemma TwoLineTexts(turns: seq<Turn>)
    requires turns == [Turn(A, "Hello"), Turn(B, "Hi there")]
    ensures forall k :: 0 <= k < |turns| ==> WellFormedText(turns[k].text) && NoLineBreak(turns[k].text)
  {
    assert WellFormedText(turns[0].text) && NoLineBreak(turns[0].text);
    assert WellFormedText(turns[1].text) && NoLineBreak(turns[1].text);
  }

  /** The two-line dialogue `A: Hello` / `B: Hi there` parses to the two
      turns, in order. */
  lemma TwoLineScript(script: string, turns: seq<Turn>)
    requires script == "A: Hello\nB: Hi there"
    requires turns == [Turn(A, "Hello"), Turn(B, "Hi there")]
    ensures ParseScript(Some(script)) == Success(turns)
  {
    TwoLineFormat(script, turns);
    TwoLineTexts(turns);
    ParseFormatRoundTrip(turns);
  }

  /** A script whose only line carries an unsupported tag is rejected. */
  lemma UnsupportedTagScript(script: string)
    requires script == "D: hi"
    ensures ParseScript(Some(script)) == Failure(NoDialogueMessage)
  {
    SplitSingleLine(script);
    UnknownTagRejected(script);
  }
}
