/**
 Giving a `.env` text a fresh password: the line that sets it is replaced, or one is appended, and what the
 reader finds afterwards.
 */
module GrafanaPassword {
  import opened Wrappers
  import opened Text
  import opened Dotenv

  const PASSWORD_KEY: string := "GRAFANA_PASSWORD"
  const PUBLICLY_KNOWN_PREFIX: string := "CHANGEME"

  predicate IsPubliclyKnown(value: string) {
    value == "" || value == "admin" || StartsWith(value, PUBLICLY_KNOWN_PREFIX)
  }

  /** `rstrip("\r\n")`. */
  function Content(line: string): string {
    if line == [] || line[|line| - 1] !in ['\r', '\n'] then line else Content(line[..|line| - 1])
  }

  lemma {:induction false} ContentIsAPrefix(line: string)
    ensures |Content(line)| <= |line| && Content(line) == line[..|Content(line)|]
    ensures Content(line) != [] ==> Content(line)[|Content(line)| - 1] !in ['\r', '\n']
    ensures forall i | |Content(line)| <= i < |line| :: line[i] in ['\r', '\n']
  {
    if line != [] && line[|line| - 1] in ['\r', '\n'] {
      ContentIsAPrefix(line[..|line| - 1]);
    }
  }

  function Ending(line: string): string {
    ContentIsAPrefix(line);
    line[|Content(line)|..]
  }

  function NewLine(value: string): string {
    PASSWORD_KEY + "=" + value
  }

  function WithPassword(text: string, assignment: Option<Assignment>, value: string): string
    requires assignment.Some? ==> assignment.value.lineIndex < |Lines(text)|
  {
    if assignment.None? then
      var separator := if text == "" || text[|text| - 1] == '\n' then "" else "\n";
      text + separator + NewLine(value) + "\n"
    else
      var lines, index := Lines(text), assignment.value.lineIndex;
      Concat(lines[index := NewLine(value) + Ending(lines[index])])
  }

  /** What `secrets.token_hex` gives. */
  predicate IsHex(value: string) {
    value != [] && forall i | 0 <= i < |value| :: '0' <= value[i] <= '9' || 'a' <= value[i] <= 'f'
  }

  // ---------------------------------------------------------------- the new line

  lemma NewLineIsSolid(value: string)
    requires IsHex(value)
    ensures NoBreak(NewLine(value))
    ensures |NewLine(value)| == 17 + |value| && NewLine(value)[0] == 'G'
    ensures !IsSpace(NewLine(value)[|NewLine(value)| - 1])
  {
    var line := NewLine(value);
    assert line[..17] == "GRAFANA_PASSWORD=" && line[17..] == value;
    forall i | 0 <= i < |line| ensures !IsBreak(line[i]) {
      assert i < 17 ==> line[i] == line[..17][i];
      assert i >= 17 ==> line[i] == value[i - 17];
    }
  }

  lemma SplitAtTheFirstEquals(rest: string)
    ensures SplitAssignment(PASSWORD_KEY + "=" + rest) == Some((PASSWORD_KEY, rest))
  {
    KeyIsPlain(PASSWORD_KEY);
    SplitAfterAKey(PASSWORD_KEY, rest);
  }

  lemma KeyIsPlain(key: string)
    requires key == PASSWORD_KEY
    ensures |key| == 16 && key[0] == 'G' && '=' !in key && ':' !in key && Strip(key) == key
  {
    StripAfter(key, []);
    assert key + [] == key;
  }

  lemma SplitAfterAKey(key: string, rest: string)
    requires key != [] && key[0] != 'e' && '=' !in key && ':' !in key && Strip(key) == key
    ensures SplitAssignment(key + "=" + rest) == Some((key, rest))
  {
    hide Find, Strip, LStrip;
    var after := "=" + rest;
    var line := key + after;
    assert line == key + "=" + rest;
    assert line[0] == key[0] && line[..|key|] == key && line[|key| + 1..] == rest;
    FindAfter(key, after, '=');
    FindAfter(key, after, ':');
    FirstIsFound(after);
  }

  lemma FirstIsFound(s: string)
    requires s != [] && s[0] == '='
    ensures Find(s, '=') == 0 && (Find(s, ':') == -1 || Find(s, ':') > 0)
  {
  }

  /** The new line gives the password key its value and whatever the line goes on with, and no other key anything. */
  lemma NewLineAssigns(value: string, after: string, key: string)
    requires IsHex(value)
    ensures RawOf(NewLine(value) + after, key) == if key == PASSWORD_KEY then Some(value + RStrip(after)) else None
  {
    hide LStrip, RStrip, SplitAssignment;
    NewLineIsSolid(value);
    StripAfter(NewLine(value), after);
    var stripped := NewLine(value) + RStrip(after);
    assert stripped == PASSWORD_KEY + "=" + (value + RStrip(after));
    assert stripped[0] == 'G';
    SplitAtTheFirstEquals(value + RStrip(after));
  }

  // ---------------------------------------------------------------- a hexadecimal value, and what may follow it

  /** A line after which nothing is left to read: blank, or an indented comment. */
  ghost predicate Harmless(line: string) {
    Blank(line) || (line != [] && IsSpace(line[0]) && LStrip(line) != [] && LStrip(line)[0] == '#')
  }

  lemma {:induction false} CutLeavesBlank(s: string)
    ensures Blank(CutComment(s)) <==> Harmless(s)
  {
    if |s| >= 2 {
      BlankFromTheFirst(s);
      if IsSpace(s[0]) && s[1] == '#' {
        assert LStrip(s) == LStrip(s[1..]) == s[1..];
      } else {
        CutLeavesBlank(s[1..]);
        BlankFromTheFirst(CutComment(s));
        assert CutComment(s)[1..] == CutComment(s[1..]);
        LStripSplits(s);
        LStripSplits(s[1..]);
      }
    }
  }

  lemma {:induction false} CutAfterHex(value: string, after: string)
    requires IsHex(value)
    ensures CutComment(value + after) == value + CutComment(after)
  {
    var whole := value + after;
    assert !IsSpace(whole[0]) && whole[1..] == value[1..] + after;
    if |value| == 1 {
      assert value[1..] + after == after;
    } else {
      CutAfterHex(value[1..], after);
    }
  }

  lemma HarmlessWithoutItsEnd(line: string)
    ensures Harmless(RStrip(line)) <==> Harmless(line)
  {
    RStripSplits(line);
    var stripped, blank := RStrip(line), line[|RStrip(line)|..];
    assert line == stripped + blank;
    if stripped != [] {
      assert !Blank(stripped);
      LStripSplits(stripped);
      LStripThen(stripped, blank);
    }
  }

  /** A hexadecimal value followed by the next line reads as that value exactly when the next line is harmless. */
  lemma GluedValue(value: string, next: string)
    requires IsHex(value)
    ensures DotenvValue(value + RStrip(next)) == Success(value) <==> Harmless(next)
  {
    hide LStrip, RStrip, CutComment, Harmless;
    var after := RStrip(next);
    StripAfter(value, after);
    RStripSplits(next);
    RStripOfStripped(after);
    CutAfterHex(value, after);
    var cut := CutComment(after);
    StripAfter(value, cut);
    RStripSplits(cut);
    CutLeavesBlank(after);
    HarmlessWithoutItsEnd(next);
    assert value + RStrip(cut) == value <==> RStrip(cut) == [];
    assert '$' !in value;
    assert value + [] == value;
  }

  lemma RStripOfStripped(s: string)
    requires s != [] ==> !IsSpace(s[|s| - 1])
    ensures RStrip(s) == s
  {
  }

  lemma HexReads(value: string)
    requires IsHex(value)
    ensures DotenvValue(value) == Success(value)
  {
    GluedValue(value, []);
    assert value + RStrip([]) == value;
  }

  lemma HarmlessAssignsNothing(line: string, key: string)
    requires Harmless(line)
    ensures RawOf(line, key).None?
  {
    LStripSplits(line);
    if !Blank(line) {
      RStripSplits(LStrip(line));
    }
  }

  // ---------------------------------------------------------------- lines with one replaced

  lemma ContentHasNoBreak(line: string)
    requires EndsBefore(line, []) && Ending(line) != []
    ensures NoBreak(Content(line))
  {
    assert line + [] == line && line[..|line|] == line;
    FirstLineStands(line);
    ContentIsAPrefix(line);
    var content := Content(line);
    forall i | 0 <= i < |content| ensures !IsBreak(content[i]) {
      assert content[i] == line[i] && i < |line| - 1;
      assert IsBreak(line[i]) ==> i == |content| - 1;
    }
  }

  /** The new line ends where the old one did, if that had an ending to pass on. */
  lemma NewLineEnds(line: string, value: string, next: string)
    requires IsHex(value) && EndsBefore(line, []) && EndsBefore(line, next) && Ending(line) != []
    ensures EndsBefore(NewLine(value) + Ending(line), next)
  {
    hide LineEnd;
    ContentHasNoBreak(line);
    ContentIsAPrefix(line);
    NewLineIsSolid(value);
    var after := Ending(line) + next;
    assert line + next == Content(line) + after;
    LineEndAfter(Content(line), after);
    assert NewLine(value) + Ending(line) + next == NewLine(value) + after;
    LineEndAfter(NewLine(value), after);
  }

  /** Lines with a stretch of them replaced by one that ends where the stretch did. */
  lemma ReplacedIsSplit(lines: seq<string>, from: nat, to: nat, line: string)
    requires IsSplit(lines) && from < to <= |lines|
    requires line != [] && line[0] != '\n' && EndsBefore(line, [])
    requires to < |lines| ==> EndsBefore(line, lines[to])
    ensures IsSplit(lines[..from] + [line] + lines[to..])
  {
    hide LineEnd;
    var replaced := lines[..from] + [line] + lines[to..];
    assert forall i | 0 <= i < from :: replaced[i] == lines[i];
    assert replaced[from] == line;
    assert forall i | from < i < |replaced| :: replaced[i] == lines[i - from - 1 + to];
    if from > 0 {
      assert EndsBefore(lines[from - 1], lines[from]);
      EndsBeforeAnyOther(lines[from - 1], lines[from], line);
    }
  }

  lemma GluedLineEnds(value: string, line: string, next: string)
    requires IsHex(value) && EndsBefore(line, next)
    ensures EndsBefore(NewLine(value) + line, next)
  {
    NewLineIsSolid(value);
    assert NewLine(value) + line + next == NewLine(value) + (line + next);
    LineEndAfter(NewLine(value), line + next);
  }

  /** The lines of the text with `index` replaced: one for one where the line's break is passed on or not
      needed; otherwise the new line swallows the next. */
  ghost function LinesReplaced(lines: seq<string>, index: nat, value: string): seq<string>
    requires index < |lines|
  {
    if Ending(lines[index]) != [] || index == |lines| - 1 then
      lines[..index] + [NewLine(value) + Ending(lines[index])] + lines[index + 1..]
    else
      lines[..index] + [NewLine(value) + lines[index + 1]] + lines[index + 2..]
  }

  lemma ReplacedLines(text: string, index: nat, value: string)
    requires IsHex(value) && index < |Lines(text)|
    ensures Lines(Concat(Lines(text)[index := NewLine(value) + Ending(Lines(text)[index])]))
            == LinesReplaced(Lines(text), index, value)
  {
    hide LineEnd, Lines;
    var lines := Lines(text);
    LinesAreSplit(text);
    NewLineIsSolid(value);
    var line := NewLine(value) + Ending(lines[index]);
    var replaced := LinesReplaced(lines, index, value);
    assert lines[index := line] == lines[..index] + [line] + lines[index + 1..];
    if Ending(lines[index]) != [] {
      NewLineEnds(lines[index], value, []);
      if index < |lines| - 1 {
        NewLineEnds(lines[index], value, lines[index + 1]);
      }
      ReplacedIsSplit(lines, index, index + 1, line);
    } else if index == |lines| - 1 {
      LineWithoutBreak(NewLine(value));
      assert NewLine(value) + [] == NewLine(value);
      ReplacedIsSplit(lines, index, index + 1, line);
    } else {
      var next := lines[index + 1];
      GluedLineEnds(value, next, []);
      if index < |lines| - 2 {
        GluedLineEnds(value, next, lines[index + 2]);
      }
      ReplacedIsSplit(lines, index, index + 2, NewLine(value) + next);
      assert line == NewLine(value);
      GluedIsTheSameText(lines, index, line);
    }
    SplitLinesAreFound(replaced);
  }

  lemma GluedIsTheSameText(lines: seq<string>, index: nat, line: string)
    requires index < |lines| - 1
    ensures Concat(lines[index := line]) == Concat(lines[..index] + [line + lines[index + 1]] + lines[index + 2..])
  {
    var before, next, after := lines[..index], lines[index + 1], lines[index + 2..];
    assert lines[index := line] == before + ([line, next] + after);
    assert before + [line + next] + after == before + ([line + next] + after);
    ConcatOfParts(before, [line, next] + after);
    ConcatOfParts(before, [line + next] + after);
    ConcatOfParts([line, next], after);
    ConcatOfParts([line + next], after);
    assert [line, next][1..] == [next] && [next][1..] == [] && [line + next][1..] == [];
  }

  // ---------------------------------------------------------------- what is read afterwards

  /** The raw values of lines one of which, at `index`, is looked at by itself. */
  lemma RawsAround(before: seq<string>, line: string, after: seq<string>, key: string)
    ensures Raws(before + [line] + after, key) == Raws(before, key) + Raws([line], key) + Raws(after, key)
  {
    RawsOfParts(before + [line], after, key);
    RawsOfParts(before, [line], key);
  }

  lemma RawsOfOne(line: string, key: string)
    ensures Raws([line], key) == if RawOf(line, key).Some? then [RawOf(line, key).value] else []
  {
    assert [line][..0] == [];
  }

  /** The line's break is passed on, or there is nothing after it that could be harmed. */
  ghost predicate KeepsItsBreak(lines: seq<string>, index: nat)
    requires index < |lines|
  {
    Ending(lines[index]) != [] || index == |lines| - 1 || Harmless(lines[index + 1])
  }

  /** The raw value the rewritten line gives the password key. */
  ghost function NewRaw(lines: seq<string>, index: nat, value: string): string
    requires index < |lines|
  {
    if Ending(lines[index]) != [] || index == |lines| - 1 then value else value + RStrip(lines[index + 1])
  }

  lemma EndingIsBlank(line: string)
    ensures Blank(Ending(line))
  {
    ContentIsAPrefix(line);
  }

  lemma RawsOfReplaced(lines: seq<string>, index: nat, value: string, key: string)
    requires IsHex(value) && index < |lines| && RawOf(lines[index], PASSWORD_KEY).Some?
    ensures key == PASSWORD_KEY && Raws(lines[index + 1..], key) == [] ==>
      Raws(LinesReplaced(lines, index, value), key) == Raws(lines[..index], key) + [NewRaw(lines, index, value)]
    ensures key != PASSWORD_KEY && KeepsItsBreak(lines, index) ==>
      Raws(LinesReplaced(lines, index, value), key) == Raws(lines, key)
  {
    hide RawOf, Raws, RStrip, Harmless;
    var kept := Ending(lines[index]) != [] || index == |lines| - 1;
    var next := if kept then Ending(lines[index]) else lines[index + 1];
    var after := lines[if kept then index + 1 else index + 2..];
    var line := NewLine(value) + next;
    RawsAround(lines[..index], line, after, key);
    RawsOfOne(line, key);
    NewLineAssigns(value, next, key);
    if kept {
      EndingIsBlank(lines[index]);
      RStripSplits(next);
      assert value + RStrip(next) == value;
    } else {
      assert lines[index + 1..] == [next] + after;
      RawsOfParts([next], after, key);
      RawsOfOne(next, key);
    }
    if key != PASSWORD_KEY && KeepsItsBreak(lines, index) {
      assert lines == lines[..index] + [lines[index]] + lines[index + 1..];
      RawsAround(lines[..index], lines[index], lines[index + 1..], key);
      RawsOfOne(lines[index], key);
      OneKeyALine(lines[index], PASSWORD_KEY, key);
      if !kept {
        HarmlessAssignsNothing(next, key);
      }
    }
  }

  lemma OneKeyALine(line: string, key: string, other: string)
    requires RawOf(line, key).Some? && other != key
    ensures RawOf(line, other).None?
  {
  }

  // ---------------------------------------------------------------- the key appended

  /** A line feed at the end of a text adds an empty line at most; no key reads differently. */
  lemma LineFeedAssignsNothing(text: string, key: string)
    requires text != ""
    ensures Raws(Lines(text + "\n"), key) == Raws(Lines(text), key)
  {
    hide LineEnd, Lines, RawOf, Raws;
    var lines := Lines(text);
    LinesAreSplit(text);
    var before, last := lines[..|lines| - 1], lines[|lines| - 1];
    assert lines == before + [last];
    if EndsBefore(last, "\n") {
      WithALineFeed(lines);
      RawsOfParts(lines, ["\n"], key);
      RawsOfOne("\n", key);
      assert Harmless("\n");
      HarmlessAssignsNothing("\n", key);
    } else {
      LongerLastLine(lines);
      RawsOfParts(before, [last], key);
      RawsOfParts(before, [last + "\n"], key);
      RawsOfOne(last, key);
      RawsOfOne(last + "\n", key);
      SameRaw(last, key);
    }
  }

  lemma SameRaw(line: string, key: string)
    ensures RawOf(line + "\n", key) == RawOf(line, key)
  {
    StripIgnoresTheEnd(line, "\n");
  }

  lemma WithALineFeed(lines: seq<string>)
    requires IsSplit(lines) && lines != [] && EndsBefore(lines[|lines| - 1], "\n")
    ensures Lines(Concat(lines) + "\n") == lines + ["\n"]
  {
    hide LineEnd, Lines;
    LineFeedIsALine();
    LinesWithOneMore(lines, "\n");
  }

  lemma LineFeedIsALine()
    ensures EndsBefore("\n", [])
  {
    assert "\n" + [] == "\n";
  }

  lemma LongerLastLine(lines: seq<string>)
    requires IsSplit(lines) && lines != [] && !EndsBefore(lines[|lines| - 1], "\n")
    ensures Lines(Concat(lines) + "\n") == lines[..|lines| - 1] + [lines[|lines| - 1] + "\n"]
  {
    hide LineEnd, Lines, IsSplit, EndsBefore, Concat;
    var before, last := lines[..|lines| - 1], lines[|lines| - 1];
    LastOfSplit(lines);
    TakesTheLineFeed(last);
    if before != [] {
      NotEmpty(last);
      OnlyTheNextCharacterMatters(lines[|lines| - 2], last, last + "\n");
    }
    LinesWithOneMore(before, last + "\n");
    assert lines == before + [last];
    ConcatOfParts(before, [last]);
    ConcatOfOne(last);
    assert Concat(before) + (last + "\n") == Concat(before) + last + "\n";
  }

  lemma NotEmpty(line: string)
    requires EndsBefore(line, [])
    ensures line != []
  {
  }

  lemma LastOfSplit(lines: seq<string>)
    requires IsSplit(lines) && lines != []
    ensures IsSplit(lines[..|lines| - 1]) && EndsBefore(lines[|lines| - 1], [])
    ensures 1 < |lines| ==> lines[|lines| - 2] != [] && EndsBefore(lines[|lines| - 2], lines[|lines| - 1])
  {
    hide LineEnd;
    assert 1 < |lines| ==> EndsBefore(lines[|lines| - 2], lines[|lines| - 1]);
  }

  /** After a line feed, or nothing, the appended line stands by itself. */
  lemma AppendedLines(text: string, value: string)
    requires IsHex(value) && (text == "" || text[|text| - 1] == '\n')
    ensures Lines(text + NewLine(value) + "\n") == Lines(text) + [NewLine(value) + "\n"]
  {
    hide LineEnd, Lines, IsSplit, EndsBefore, Concat, NoBreak;
    var lines, line := Lines(text), NewLine(value) + "\n";
    LinesAreSplit(text);
    LineFeedIsALine();
    GluedLineEnds(value, "\n", []);
    NewLineIsSolid(value);
    if lines != [] {
      LastOfSplit(lines);
      LastLineEndsTheText(lines);
      LineFeedEnds(lines[|lines| - 1], line);
    }
    LinesWithOneMore(lines, line);
    assert text + NewLine(value) + "\n" == text + line;
  }

  lemma LastLineEndsTheText(lines: seq<string>)
    requires IsSplit(lines) && lines != []
    ensures Concat(lines) != [] && lines[|lines| - 1] != []
    ensures Concat(lines)[|Concat(lines)| - 1] == lines[|lines| - 1][|lines[|lines| - 1]| - 1]
  {
    hide LineEnd;
    var last := lines[|lines| - 1];
    assert lines == lines[..|lines| - 1] + [last] && EndsBefore(last, []);
    ConcatOfParts(lines[..|lines| - 1], [last]);
    ConcatOfOne(last);
  }

  lemma RawsOfAppended(text: string, value: string, key: string)
    requires IsHex(value)
    ensures Raws(Lines(WithPassword(text, None, value)), key)
            == Raws(Lines(text), key) + if key == PASSWORD_KEY then [value] else []
  {
    hide Lines, RawOf, Raws;
    var separator := if text == "" || text[|text| - 1] == '\n' then "" else "\n";
    var ended := text + separator;
    if separator != "" {
      LineFeedAssignsNothing(text, key);
    } else {
      assert ended == text;
    }
    AppendedLines(ended, value);
    RawsOfParts(Lines(ended), [NewLine(value) + "\n"], key);
    RawsOfOne(NewLine(value) + "\n", key);
    NewLineAssigns(value, "\n", key);
    EndingIsStripped(value);
  }

  lemma EndingIsStripped(value: string)
    ensures value + RStrip("\n") == value
  {
    RStripSplits("\n");
  }

  // ---------------------------------------------------------------- reading back

  /** Every other key reads as before, whether it is a value, nothing or a refusal. */
  ghost predicate OthersReadAsBefore(text: string, rewritten: string) {
    forall key | key != PASSWORD_KEY :: ValueRead(Read(rewritten, key)) == ValueRead(Read(text, key))
  }

  ghost predicate PasswordReads(text: string, value: string) {
    ValueRead(Read(text, PASSWORD_KEY)) == Success(Some(value))
  }

  /** With nothing assigned before, the appended password reads back, always. */
  lemma AppendingReadsBack(text: string, value: string)
    requires IsHex(value) && Read(text, PASSWORD_KEY) == Success(None)
    ensures PasswordReads(WithPassword(text, None, value), value)
    ensures OthersReadAsBefore(text, WithPassword(text, None, value))
  {
    hide Lines, RawOf, Raws, DotenvValue, ClosingQuote, Read, WithPassword;
    var rewritten := WithPassword(text, None, value);
    ReadingIsOfTheRaws(text, PASSWORD_KEY);
    ReadingIsOfTheRaws(rewritten, PASSWORD_KEY);
    RawsOfAppended(text, value, PASSWORD_KEY);
    NothingWasAssigned(Raws(Lines(text), PASSWORD_KEY));
    assert [] + [value] == [value];
    LastOfClosed([], value, value);
    forall key | key != PASSWORD_KEY ensures ValueRead(Read(rewritten, key)) == ValueRead(Read(text, key)) {
      RawsOfAppended(text, value, key);
      assert Raws(Lines(text), key) + [] == Raws(Lines(text), key);
      ReadingIsOfTheRaws(text, key);
      ReadingIsOfTheRaws(rewritten, key);
    }
  }

  lemma NothingWasAssigned(raws: seq<string>)
    ensures Outcome(raws) == Success(None) ==> raws == []
  {
  }

  /** A hexadecimal value after values without open quotes is what the key reads as; a value glued to more text
      is so exactly when that text reads as nothing. */
  lemma LastOfClosed(raws: seq<string>, raw: string, value: string)
    requires AllClosed(raws) && IsHex(value) && |value| <= |raw| && raw[..|value|] == value
    ensures Outcome(raws + [raw]) == Success(Some(value)) <==> DotenvValue(raw) == Success(value)
    ensures raw == value ==> DotenvValue(raw) == Success(value)
  {
    hide DotenvValue, Strip;
    OneMoreClosed(raws, raw);
    Unquoted(raw, value);
    if raw == value {
      HexReads(value);
    }
  }

  lemma Unquoted(raw: string, value: string)
    requires IsHex(value) && |value| <= |raw| && raw[..|value|] == value
    ensures ClosingQuote(Strip(raw)) == Success(None)
  {
    hide RStrip;
    assert raw == value + raw[|value|..] && raw[0] == value[0];
    StripAfter(value, raw[|value|..]);
  }

  lemma ReplacingReadsThePassword(text: string, index: nat, value: string)
    requires IsHex(value) && index < |Lines(text)| && RawOf(Lines(text)[index], PASSWORD_KEY).Some?
    requires AllClosed(Raws(Lines(text), PASSWORD_KEY)) && Raws(Lines(text)[index + 1..], PASSWORD_KEY) == []
    ensures var lines := Lines(text);
            Outcome(Raws(LinesReplaced(lines, index, value), PASSWORD_KEY)) == Success(Some(value))
            <==> KeepsItsBreak(lines, index)
  {
    hide Lines, RawOf, Raws, DotenvValue, Harmless, AllClosed, Outcome, RStrip;
    var lines := Lines(text);
    var before := Raws(lines[..index], PASSWORD_KEY);
    RawsOfReplaced(lines, index, value, PASSWORD_KEY);
    assert lines == lines[..index] + lines[index..];
    RawsOfParts(lines[..index], lines[index..], PASSWORD_KEY);
    ClosedBefore(before, Raws(lines[index..], PASSWORD_KEY));
    LastOfClosed(before, NewRaw(lines, index, value), value);
    if Ending(lines[index]) == [] && index < |lines| - 1 {
      GluedValue(value, lines[index + 1]);
    }
  }

  lemma ClosedBefore(before: seq<string>, after: seq<string>)
    requires AllClosed(before + after)
    ensures AllClosed(before)
  {
    assert forall i | 0 <= i < |before| :: (before + after)[i] == before[i];
  }

  /** Rewriting and reading agree: afterwards the password key has exactly the new value and every other key
      reads as before, if and only if the replaced line's break is passed on or not needed. Only a line ended
      by something other than a carriage return or line feed, with more than a blank line or an indented
      comment after it, breaks the agreement. */
  lemma RewritingReadsBack(text: string, assignment: Option<Assignment>, value: string)
    requires IsHex(value) && Read(text, PASSWORD_KEY) == Success(assignment)
    ensures assignment.Some? ==> assignment.value.lineIndex < |Lines(text)|
    ensures var rewritten := WithPassword(text, assignment, value);
            (PasswordReads(rewritten, value) && OthersReadAsBefore(text, rewritten))
            <==> (assignment.None? || KeepsItsBreak(Lines(text), assignment.value.lineIndex))
  {
    hide Lines, RawOf, Raws, DotenvValue, ClosingQuote, Read, Harmless, Outcome, LinesReplaced, KeepsItsBreak, Ending;
    ReadingIsOfTheRaws(text, PASSWORD_KEY);
    if assignment.None? {
      AppendingReadsBack(text, value);
    } else {
      var lines, index := Lines(text), assignment.value.lineIndex;
      var rewritten := WithPassword(text, assignment, value);
      ReplacedLines(text, index, value);
      ReadingIsOfTheRaws(rewritten, PASSWORD_KEY);
      ValuesAreClosed(Raws(lines, PASSWORD_KEY));
      ReplacingReadsThePassword(text, index, value);
      if KeepsItsBreak(lines, index) {
        forall key | key != PASSWORD_KEY ensures ValueRead(Read(rewritten, key)) == ValueRead(Read(text, key)) {
          RawsOfReplaced(lines, index, value, key);
          ReadingIsOfTheRaws(text, key);
          ReadingIsOfTheRaws(rewritten, key);
        }
      }
    }
  }

  lemma ValuesAreClosed(raws: seq<string>)
    ensures Outcome(raws).Success? ==> AllClosed(raws)
  {
  }

  /** Every byte outside the replaced line's content stays, its ending among them. */
  lemma OtherBytesStay(text: string, index: nat, value: string)
    requires index < |Lines(text)|
    ensures var lines := Lines(text);
            var (before, after) := (Concat(lines[..index]), Concat(lines[index + 1..]));
            && text == before + (Content(lines[index]) + Ending(lines[index])) + after
            && WithPassword(text, Some(Assignment(index, "")), value)
               == before + (NewLine(value) + Ending(lines[index])) + after
  {
    hide Lines, Content, Concat;
    var lines := Lines(text);
    LinesAreSplit(text);
    ContentIsAPrefix(lines[index]);
    assert lines[index] == Content(lines[index]) + Ending(lines[index]);
    ConcatAround(lines, index, lines[index]);
    ConcatAround(lines, index, NewLine(value) + Ending(lines[index]));
    assert lines[index := lines[index]] == lines;
  }

  /** The lines afterwards are the old ones with that line's content replaced, exactly when its break is passed
      on or it is the last. */
  lemma OnlyThatLineChanges(text: string, index: nat, value: string)
    requires IsHex(value) && index < |Lines(text)|
    ensures var lines := Lines(text);
            Lines(WithPassword(text, Some(Assignment(index, "")), value))
            == lines[index := NewLine(value) + Ending(lines[index])]
            <==> Ending(lines[index]) != [] || index == |lines| - 1
  {
    hide Lines, Content, Concat, Ending;
    var lines := Lines(text);
    ReplacedLines(text, index, value);
    var line := NewLine(value) + Ending(lines[index]);
    assert lines[index := line] == lines[..index] + [line] + lines[index + 1..];
  }

  lemma ConcatAround(lines: seq<string>, index: nat, line: string)
    requires index < |lines|
    ensures Concat(lines[index := line]) == Concat(lines[..index]) + line + Concat(lines[index + 1..])
  {
    hide Concat;
    assert lines[index := line] == lines[..index] + ([line] + lines[index + 1..]);
    ConcatOfParts(lines[..index], [line] + lines[index + 1..]);
    ConcatOfParts([line], lines[index + 1..]);
    ConcatOfOne(line);
  }

  // ---------------------------------------------------------------- texts with ordinary line breaks

  /** Lines break only at line feeds and carriage returns. */
  ghost predicate OnlyOrdinaryBreaks(text: string) {
    forall i | 0 <= i < |text| && IsBreak(text[i]) :: text[i] in ['\r', '\n']
  }

  /** A line with another one behind it ends with a break. */
  lemma LineBeforeAnotherBreaks(line: string, next: string)
    requires EndsBefore(line, []) && EndsBefore(line, next) && next != []
    ensures IsBreak(line[|line| - 1])
  {
    assert line + [] == line && line[..|line|] == line;
    FirstLineStands(line);
    if NoBreak(line) {
      LineEndAfter(line, next);
    } else {
      var i :| 0 <= i < |line| && IsBreak(line[i]);
      assert i == |line| - 1 || line[i + 1] == '\n';
    }
  }

  lemma {:induction false} CharactersOfALine(lines: seq<string>, index: nat, c: char)
    requires index < |lines| && c in lines[index]
    ensures c in Concat(lines)
  {
    if index > 0 {
      CharactersOfALine(lines[1..], index - 1, c);
    }
  }

  lemma OrdinaryEndingsAreKept(text: string, index: nat)
    requires OnlyOrdinaryBreaks(text) && index < |Lines(text)|
    ensures KeepsItsBreak(Lines(text), index) && (index < |Lines(text)| - 1 ==> Ending(Lines(text)[index]) != [])
  {
    hide LineEnd, Lines, Concat;
    var lines := Lines(text);
    LinesAreSplit(text);
    if index < |lines| - 1 {
      var line := lines[index];
      assert EndsBefore(line, []) && EndsBefore(line, lines[index + 1]) && EndsBefore(lines[index + 1], []);
      LineBeforeAnotherBreaks(line, lines[index + 1]);
      CharactersOfALine(lines, index, line[|line| - 1]);
      ContentIsAPrefix(line);
    }
  }

  /** So for a text that breaks lines only at line feeds and carriage returns, rewriting always reads back, and no
      other line changes. */
  lemma OrdinaryTextsReadBack(text: string, assignment: Option<Assignment>, value: string)
    requires IsHex(value) && Read(text, PASSWORD_KEY) == Success(assignment) && OnlyOrdinaryBreaks(text)
    ensures assignment.Some? ==> assignment.value.lineIndex < |Lines(text)|
    ensures var rewritten := WithPassword(text, assignment, value);
            PasswordReads(rewritten, value) && OthersReadAsBefore(text, rewritten)
    ensures assignment.Some? ==>
              var (lines, index) := (Lines(text), assignment.value.lineIndex);
              Lines(WithPassword(text, assignment, value)) == lines[index := NewLine(value) + Ending(lines[index])]
  {
    hide Lines, Read, WithPassword, Ending, KeepsItsBreak, PasswordReads, OthersReadAsBefore, OnlyOrdinaryBreaks;
    RewritingReadsBack(text, assignment, value);
    if assignment.Some? {
      OrdinaryEndingsAreKept(text, assignment.value.lineIndex);
      OnlyThatLineChanges(text, assignment.value.lineIndex, value);
      TheValueDoesNotMatter(text, assignment.value, value);
    }
  }

  /** Which value was read plays no part in rewriting. */
  lemma TheValueDoesNotMatter(text: string, assignment: Assignment, value: string)
    requires assignment.lineIndex < |Lines(text)|
    ensures WithPassword(text, Some(assignment), value) == WithPassword(text, Some(Assignment(assignment.lineIndex, "")), value)
  {
  }

  // ---------------------------------------------------------------- the password to apply

  datatype Password = Password(value: string, isFresh: bool)

  /** The password to apply and the text of the file afterwards. */
  function PasswordToApply(text: string, token: string): Result<(Password, string), DotenvError> {
    var reading := Read(text, PASSWORD_KEY);
    if reading.Failure? then Failure(reading.error)
    else
      var assignment := reading.value;
      var current := if assignment.Some? then assignment.value.value else "";
      if !IsPubliclyKnown(current) then Success((Password(current, false), text))
      else
        ReadingIsOfTheRaws(text, PASSWORD_KEY);
        Success((Password(token, true), WithPassword(text, assignment, token)))
  }

  lemma HexIsNotPubliclyKnown(value: string)
    requires 6 <= |value| && IsHex(value)
    ensures !IsPubliclyKnown(value)
  {
    assert PUBLICLY_KNOWN_PREFIX[0] == 'C' && "admin"[2] == 'm';
    assert value[0] != 'C' && value[2] != 'm';
    assert |value| >= 8 ==> value[..8][0] == value[0];
  }

  /** A text that already sets a password of its own is left alone, one that sets none or a publicly known one
      gets the fresh value, and a refusal writes nothing. Run again, on the text it left, the command finds its
      own password and changes nothing more. */
  lemma SecondRunChangesNothing(text: string, token: string, nextToken: string)
    requires 6 <= |token| && IsHex(token) && PasswordToApply(text, token).Success?
    ensures var reading := Read(text, PASSWORD_KEY);
            var (password, rewritten) := PasswordToApply(text, token).value;
            && reading.Success?
            && (password.isFresh <==> reading.value.None? || IsPubliclyKnown(reading.value.value.value))
            && (!password.isFresh ==> rewritten == text)
            && (reading.value.Some? ==> reading.value.value.lineIndex < |Lines(text)|)
            && !IsPubliclyKnown(password.value)
            && (!password.isFresh || reading.value.None? || KeepsItsBreak(Lines(text), reading.value.value.lineIndex) ==>
              && PasswordToApply(rewritten, nextToken) == Success((Password(password.value, false), rewritten))
              && OthersReadAsBefore(text, rewritten))
  {
    hide Lines, RawOf, Raws, Read, WithPassword, IsPubliclyKnown, KeepsItsBreak;
    HexIsNotPubliclyKnown(token);
    ReadingIsOfTheRaws(text, PASSWORD_KEY);
    EmptyIsPubliclyKnown();
    RewritingReadsBack(text, Read(text, PASSWORD_KEY).value, token);
  }

  lemma EmptyIsPubliclyKnown()
    ensures IsPubliclyKnown("")
  {
  }

  lemma WitnessLines()
    ensures IsSplit([PASSWORD_KEY + "=\U{85}", "x\n"])
  {
    hide LineEnd;
    var line, end, next := PASSWORD_KEY + "=", "\U{85}", "x\n";
    assert NoBreak(line) && NoBreak("x");
    assert line + end + [] == line + end && line + end + next == line + (end + next);
    assert next + [] == "x" + "\n";
    LineEndAfter(line, end);
    LineEndAfter(line, end + next);
    LineEndAfter("x", "\n");
    OneBreak(end, next);
    var first := PASSWORD_KEY + "=\U{85}";
    assert first == line + end && first + [] == line + end && first + next == line + (end + next);
    assert EndsBefore(first, []) && EndsBefore(first, next) && EndsBefore(next, []);
  }

  lemma OneBreak(end: string, next: string)
    requires end == "\U{85}"
    ensures LineEnd(end) == LineEnd(end + next) == LineEnd("\n") == 1
  {
  }

  /** The first of the witness's two lines gives the password key nothing at all, the second assigns nothing. */
  lemma WitnessRaws()
    ensures RawOf(PASSWORD_KEY + "=\U{85}", PASSWORD_KEY) == Some("")
    ensures DotenvValue("") == Success("") && ClosingQuote(Strip("")) == Success(None)
    ensures Ending(PASSWORD_KEY + "=\U{85}") == []
  {
    var line := PASSWORD_KEY + "=\U{85}";
    WitnessIsStripped();
    SplitAtTheFirstEquals("");
    assert PASSWORD_KEY + "=" + "" == PASSWORD_KEY + "=";
    StrippedLineAssigns(line, PASSWORD_KEY + "=");
    assert line[|line| - 1] == '\U{85}';
  }

  lemma StrippedLineAssigns(line: string, stripped: string)
    requires Strip(line) == stripped && stripped != [] && stripped[0] != '#'
    requires SplitAssignment(stripped) == Some((PASSWORD_KEY, ""))
    ensures RawOf(line, PASSWORD_KEY) == Some("")
  {
    hide Strip, SplitAssignment;
  }

  lemma WitnessIsStripped()
    ensures Strip(PASSWORD_KEY + "=\U{85}") == PASSWORD_KEY + "="
  {
    hide RStrip, LStrip;
    var line := PASSWORD_KEY + "=";
    StripAfter(line, "\U{85}");
    RStripSplits("\U{85}");
    assert line + "\U{85}" == PASSWORD_KEY + "=\U{85}" && line + [] == line;
  }

  lemma WitnessAssignsNothing()
    ensures RawOf("x\n", PASSWORD_KEY) == None && !Harmless("x\n")
  {
    StripAfter("x", "\n");
    RStripSplits("\n");
    assert "x\n" == "x" + "\n" && "x" + [] == "x";
  }

  /** A next-line character after the password is not passed on: what is on the line below is taken for part
      of the password. */
  lemma OtherBreaksSwallowTheNextLine()
    ensures var text := PASSWORD_KEY + "=\U{85}" + "x\n";
            && Read(text, PASSWORD_KEY) == Success(Some(Assignment(0, "")))
            && !PasswordReads(WithPassword(text, Some(Assignment(0, "")), "ab"), "ab")
  {
    hide LineEnd, Lines, RawOf, DotenvValue, Outcome, Harmless, Ending, ClosingQuote, Strip;
    var first, next := PASSWORD_KEY + "=\U{85}", "x\n";
    var text, lines := first + next, [first, next];
    WitnessLines();
    SplitLinesAreFound(lines);
    assert lines[1..] == [next];
    ConcatOfOne(next);
    assert Concat(lines) == text && text == PASSWORD_KEY + "=\U{85}" + "x\n";
    WitnessRaws();
    WitnessAssignsNothing();
    assert lines[..1] == [first] && [first][..0] == [] && lines[0 + 1..] == [next] && [next][..0] == [];
    assert LastRaw([first], PASSWORD_KEY) == Success(Some((0, "")));
    assert LastRaw(lines, PASSWORD_KEY) == Success(Some((0, "")));
    WitnessIsOverwritten(text, first, next);
  }

  lemma WitnessIsOverwritten(text: string, first: string, next: string)
    requires Lines(text) == [first, next] && Ending(first) == [] && !Harmless(next)
    requires RawOf(first, PASSWORD_KEY) == Some("") && RawOf(next, PASSWORD_KEY) == None
    requires ClosingQuote(Strip("")) == Success(None)
    ensures !PasswordReads(WithPassword(text, Some(Assignment(0, "")), "ab"), "ab")
  {
    hide Lines, RawOf, Raws, DotenvValue, Outcome, Harmless, Ending, ClosingQuote, Strip, Read, LinesReplaced;
    var lines := Lines(text);
    RawsOfOne(first, PASSWORD_KEY);
    RawsOfOne(next, PASSWORD_KEY);
    RawsOfParts([first], [next], PASSWORD_KEY);
    assert lines == [first] + [next] && lines[0 + 1..] == [next];
    ReplacingReadsThePassword(text, 0, "ab");
    ReplacedLines(text, 0, "ab");
    ReadingIsOfTheRaws(WithPassword(text, Some(Assignment(0, "")), "ab"), PASSWORD_KEY);
  }
}
