/** Reading one key of a `.env` text the way Docker Compose does, as far as the subset goes. */
module Dotenv {
  import opened Wrappers
  import opened Text

  datatype DotenvError = UnclosedQuote | TextAfterQuote | BackslashEscape | Interpolation

  datatype Assignment = Assignment(lineIndex: nat, value: string)

  const EXPORT: string := "export "

  predicate StartsWith(s: string, prefix: string) {
    |prefix| <= |s| && s[..|prefix|] == prefix
  }

  /** Key and raw value, split at the first of `=` and `:`; nothing for a line with neither. */
  function SplitAssignment(stripped: string): Option<(string, string)> {
    var line := if StartsWith(stripped, EXPORT) then LStrip(stripped[|EXPORT|..]) else stripped;
    var equals, colon := Find(line, '='), Find(line, ':');
    if equals == -1 && colon == -1 then None
    else
      var at := if equals != -1 && (colon == -1 || equals < colon) then equals else colon;
      Some((Strip(line[..at]), line[at + 1..]))
  }

  /** Where an opening quote closes, nothing for an unquoted value. */
  function ClosingQuote(raw: string): (closing: Result<Option<nat>, DotenvError>)
    ensures closing.Success? && closing.value.Some? ==> 1 <= closing.value.value < |raw|
    ensures closing.Failure? ==> closing.error == UnclosedQuote
  {
    if raw == [] || raw[0] !in ['"', '\''] then Success(None)
    else
      var closing := Find(raw[1..], raw[0]);
      if closing == -1 then Failure(UnclosedQuote) else Success(Some(closing + 1))
  }

  function Uninterpolated(value: string): Result<string, DotenvError> {
    if '$' in value then Failure(Interpolation) else Success(value)
  }

  /** The text before the first `#` that has white space in front of it, that white space dropped too. */
  function CutComment(s: string): string {
    if |s| < 2 then s
    else if IsSpace(s[0]) && s[1] == '#' then []
    else [s[0]] + CutComment(s[1..])
  }

  function DotenvValue(unstripped: string): Result<string, DotenvError> {
    var raw := Strip(unstripped);
    var closing := ClosingQuote(raw);
    if closing.Failure? then Failure(closing.error)
    else if closing.value.Some? then
      var trailing := Strip(raw[closing.value.value + 1..]);
      var inner := raw[1..closing.value.value];
      if trailing != [] && trailing[0] != '#' then Failure(TextAfterQuote)
      else if raw[0] == '\'' then Success(inner)
      else if '\\' in inner then Failure(BackslashEscape)
      else Uninterpolated(inner)
    else Uninterpolated(Strip(CutComment(raw)))
  }

  /** The raw value a line gives a key, if it assigns that key. */
  function RawOf(line: string, key: string): Option<string> {
    var stripped := Strip(line);
    if stripped == [] || stripped[0] == '#' then None
    else
      var assignment := SplitAssignment(stripped);
      if assignment.Some? && assignment.value.0 == key then Some(assignment.value.1) else None
  }

  /** The last line that assigns the key; a quote left open anywhere on the way is refused. */
  function LastRaw(lines: seq<string>, key: string): (last: Result<Option<(nat, string)>, DotenvError>)
    ensures last.Success? && last.value.Some? ==> last.value.value.0 < |lines|
  {
    if lines == [] then Success(None)
    else
      var before, raw := LastRaw(lines[..|lines| - 1], key), RawOf(lines[|lines| - 1], key);
      if before.Failure? || raw.None? then before
      else if ClosingQuote(Strip(raw.value)).Failure? then Failure(UnclosedQuote)
      else Success(Some((|lines| - 1, raw.value)))
  }

  function Read(text: string, key: string): Result<Option<Assignment>, DotenvError> {
    var last := LastRaw(Lines(text), key);
    if last.Failure? then Failure(last.error)
    else if last.value.None? then Success(None)
    else
      var value := DotenvValue(last.value.value.1);
      if value.Failure? then Failure(value.error) else Success(Some(Assignment(last.value.value.0, value.value)))
  }

  method EffectiveAssignment(text: string, key: string) returns (assignment: Result<Option<Assignment>, DotenvError>)
    ensures assignment == Read(text, key)
  {
    hide Lines, Strip, SplitAssignment, ClosingQuote, DotenvValue;
    var lines := Lines(text);
    var last: Option<(nat, string)> := None;
    for index := 0 to |lines|
      invariant LastRaw(lines[..index], key) == Success(last)
    {
      assert lines[..index + 1][..index] == lines[..index];
      var line := lines[index];
      var stripped := Strip(line);
      if stripped == [] || stripped[0] == '#' {
        continue;
      }
      var split := SplitAssignment(stripped);
      if split.Some? && split.value.0 == key {
        var raw := split.value.1;
        var closing := ClosingQuote(Strip(raw));
        if closing.Failure? {
          FailureStays(lines, index + 1, key);
          return Failure(closing.error);
        }
        last := Some((index, raw));
      }
    }
    assert lines[..|lines|] == lines;
    if last.None? {
      return Success(None);
    }
    var value := DotenvValue(last.value.1);
    if value.Failure? {
      return Failure(value.error);
    }
    assignment := Success(Some(Assignment(last.value.0, value.value)));
  }

  lemma {:induction false} FailureStays(lines: seq<string>, upTo: nat, key: string)
    requires upTo <= |lines| && LastRaw(lines[..upTo], key).Failure?
    ensures LastRaw(lines, key) == LastRaw(lines[..upTo], key)
  {
    if upTo == |lines| {
      assert lines[..upTo] == lines;
    } else {
      assert lines[..|lines| - 1][..upTo] == lines[..upTo];
      FailureStays(lines[..|lines| - 1], upTo, key);
    }
  }

  // ---------------------------------------------------------------- what reading depends on

  /** The raw values a key is given, line after line. */
  function Raws(lines: seq<string>, key: string): seq<string> {
    if lines == [] then []
    else
      var before, raw := Raws(lines[..|lines| - 1], key), RawOf(lines[|lines| - 1], key);
      if raw.Some? then before + [raw.value] else before
  }

  ghost predicate AllClosed(raws: seq<string>) {
    forall i | 0 <= i < |raws| :: ClosingQuote(Strip(raws[i])).Success?
  }

  /** What a key reads as, given all that is assigned to it: the last value, unless a quote is left open. */
  ghost function Outcome(raws: seq<string>): Result<Option<string>, DotenvError> {
    if !AllClosed(raws) then Failure(UnclosedQuote)
    else if raws == [] then Success(None)
    else
      var value := DotenvValue(raws[|raws| - 1]);
      if value.Failure? then Failure(value.error) else Success(Some(value.value))
  }

  /** A reading without the line it was found in. */
  function ValueRead(reading: Result<Option<Assignment>, DotenvError>): Result<Option<string>, DotenvError> {
    if reading.Failure? then Failure(reading.error)
    else if reading.value.None? then Success(None)
    else Success(Some(reading.value.value.value))
  }

  lemma {:induction false} RawsOfParts(a: seq<string>, b: seq<string>, key: string)
    ensures Raws(a + b, key) == Raws(a, key) + Raws(b, key)
  {
    if b == [] {
      assert a + b == a;
    } else {
      assert (a + b)[..|a + b| - 1] == a + b[..|b| - 1];
      RawsOfParts(a, b[..|b| - 1], key);
    }
  }

  lemma OneMoreClosed(raws: seq<string>, raw: string)
    ensures AllClosed(raws + [raw]) <==> AllClosed(raws) && ClosingQuote(Strip(raw)).Success?
  {
    var more := raws + [raw];
    assert more[|raws|] == raw;
    assert forall i | 0 <= i < |raws| :: more[i] == raws[i];
  }

  lemma {:induction false} LastRawIsOfTheRaws(lines: seq<string>, key: string)
    ensures var (last, raws) := (LastRaw(lines, key), Raws(lines, key));
            && (last.Failure? <==> !AllClosed(raws)) && (last.Failure? ==> last.error == UnclosedQuote)
            && (last.Success? && last.value.None? ==> raws == [])
            && (last.Success? && last.value.Some? ==> raws != [] && last.value.value.1 == raws[|raws| - 1])
  {
    if lines != [] {
      hide RawOf, ClosingQuote, AllClosed, Strip;
      var line, rest := lines[|lines| - 1], lines[..|lines| - 1];
      LastRawIsOfTheRaws(rest, key);
      if RawOf(line, key).Some? {
        OneMoreClosed(Raws(rest, key), RawOf(line, key).value);
      }
    }
  }

  lemma RawsUpTo(lines: seq<string>, from: nat, key: string)
    requires from < |lines| && RawOf(lines[|lines| - 1], key).None?
    ensures Raws(lines[from..], key) == Raws(lines[..|lines| - 1][from..], key)
  {
    assert lines[from..][..|lines| - from - 1] == lines[..|lines| - 1][from..];
  }

  /** The line that is named assigns the key, and no later one does. */
  lemma {:induction false} LastRawIsTheLast(lines: seq<string>, key: string)
    ensures var last := LastRaw(lines, key);
            last.Success? && last.value.Some? ==>
              && RawOf(lines[last.value.value.0], key) == Some(last.value.value.1)
              && Raws(lines[last.value.value.0 + 1..], key) == []
  {
    if lines != [] {
      hide RawOf, ClosingQuote, Strip;
      var line, rest := lines[|lines| - 1], lines[..|lines| - 1];
      LastRawIsTheLast(rest, key);
      var last := LastRaw(lines, key);
      if last.Success? && last.value.Some? {
        var index := last.value.value.0;
        if RawOf(line, key).Some? {
          assert lines[index + 1..] == [];
        } else {
          assert lines[index] == rest[index];
          RawsUpTo(lines, index + 1, key);
        }
      }
    }
  }

  /** Only what is assigned to the key matters to its value, last assignment first; and the line that is named
      assigns the key, with no later one doing so. */
  lemma ReadingIsOfTheRaws(text: string, key: string)
    ensures ValueRead(Read(text, key)) == Outcome(Raws(Lines(text), key))
    ensures var reading := Read(text, key);
            reading.Success? && reading.value.Some? ==>
              var index := reading.value.value.lineIndex;
              && index < |Lines(text)| && RawOf(Lines(text)[index], key).Some?
              && Raws(Lines(text)[index + 1..], key) == []
  {
    hide RawOf, ClosingQuote, DotenvValue;
    LastRawIsOfTheRaws(Lines(text), key);
    LastRawIsTheLast(Lines(text), key);
  }

  // ---------------------------------------------------------------- quoted values

  /** A quoted value is read whole, white space and `#` in it included, if only a comment follows the closing
      quote. Between single quotes everything is literal; between double quotes `\` and `$` are refused. */
  lemma QuotedReads(quote: char, value: string, trailing: string)
    requires quote in ['"', '\''] && quote !in value
    ensures DotenvValue([quote] + value + [quote] + trailing) ==
            if Strip(trailing) != [] && Strip(trailing)[0] != '#' then Failure(TextAfterQuote)
            else if quote == '\'' then Success(value)
            else if '\\' in value then Failure(BackslashEscape)
            else Uninterpolated(value)
  {
    hide Find, IsSpace, LStrip, RStrip;
    var quoted, after := [quote] + value + [quote], RStrip(trailing);
    var raw := quoted + after;
    QuotesAreSolid(quoted, trailing, quote);
    assert raw[1..] == value + ([quote] + after);
    FindAfter(value, [quote] + after, quote);
    FindAtOnce(quote, after);
    assert ClosingQuote(raw) == Success(Some(|value| + 1));
    assert raw[1..|value| + 1] == value && raw[|value| + 2..] == after;
    RStripSplits(trailing);
    StripIgnoresTheEnd(after, trailing[|after|..]);
    assert trailing == after + trailing[|after|..];
  }

  lemma QuotesAreSolid(quoted: string, trailing: string, quote: char)
    requires quote in ['"', '\''] && quoted != [] && quoted[0] == quote == quoted[|quoted| - 1]
    ensures Strip(quoted + trailing) == quoted + RStrip(trailing)
  {
    StripAfter(quoted, trailing);
  }

  lemma FindAtOnce(c: char, after: string)
    ensures Find([c] + after, c) == 0
  {
  }

  // ---------------------------------------------------------------- unquoted values

  /** A value that reads as it stands: trimmed, without an opening quote, and without a `#` behind white space. */
  ghost predicate IsPlain(value: string) {
    && value != [] && !IsSpace(value[0]) && !IsSpace(value[|value| - 1])
    && value[0] !in ['"', '\''] && HasNoComment(value)
  }

  ghost predicate HasNoComment(s: string) {
    forall i | 0 <= i < |s| - 1 :: !(IsSpace(s[i]) && s[i + 1] == '#')
  }

  /** What follows a text without comment, not ending blank, is cut by itself. */
  lemma {:induction false} CutAfterAValue(value: string, after: string)
    requires value != [] && !IsSpace(value[|value| - 1]) && HasNoComment(value)
    ensures CutComment(value + after) == value + CutComment(after)
  {
    hide IsSpace;
    var whole := value + after;
    assert whole[1..] == value[1..] + after && whole[0] == value[0];
    if |value| == 1 {
      assert whole[1..] == after && [value[0]] == value;
    } else {
      assert whole[1] == value[1];
      CutAfterAValue(value[1..], after);
      assert [value[0]] + (value[1..] + CutComment(after)) == value + CutComment(after);
    }
  }

  lemma CutAtTheComment(value: string, blank: string, comment: string)
    requires value != [] && !IsSpace(value[|value| - 1]) && HasNoComment(value)
    requires Blank(blank) && (blank == [] ==> comment == []) && (comment != [] ==> comment[0] == '#')
    ensures CutComment(value + blank + comment) == value + (if comment == [] then blank else blank[..|blank| - 1])
  {
    hide CutComment, HasNoComment;
    assert value + blank + comment == value + (blank + comment);
    CutAfterAValue(value, blank + comment);
    CutInTheBlank(blank, comment);
  }

  lemma {:induction false} CutInTheBlank(blank: string, comment: string)
    requires Blank(blank) && (blank == [] ==> comment == []) && (comment != [] ==> comment[0] == '#')
    ensures CutComment(blank + comment) == if comment == [] then blank else blank[..|blank| - 1]
  {
    var whole := blank + comment;
    if comment == [] {
      assert whole == blank;
      NothingToCut(blank);
    } else if |blank| == 1 {
      assert whole[0] == blank[0] && whole[1] == comment[0];
    } else {
      assert whole[1..] == blank[1..] + comment && whole[1] == blank[1] && blank[1] != '#';
      CutInTheBlank(blank[1..], comment);
      assert blank[..|blank| - 1] == [blank[0]] + blank[1..][..|blank| - 2];
    }
  }

  lemma {:induction false} NothingToCut(s: string)
    requires forall i | 0 <= i < |s| - 1 :: !(IsSpace(s[i]) && s[i + 1] == '#')
    ensures CutComment(s) == s
  {
    if |s| >= 2 {
      NothingToCut(s[1..]);
      assert [s[0]] + s[1..] == s;
    }
  }

  /** An unquoted value reads as it stands, white space and a comment behind it left out; a `$` in it is refused. */
  lemma UnquotedReads(value: string, blank: string, comment: string)
    requires IsPlain(value) && Blank(blank) && (blank == [] ==> comment == []) && (comment != [] ==> comment[0] == '#')
    ensures DotenvValue(value + blank + comment) == if '$' in value then Failure(Interpolation) else Success(value)
  {
    hide IsSpace, LStrip, RStrip, CutComment;
    var whole := value + blank + comment;
    var after := RStrip(blank + comment);
    assert whole == value + (blank + comment);
    StripAfter(value, blank + comment);
    StripOfComment(blank, comment);
    if comment == [] {
      assert value + [] + [] == value;
      CutAtTheComment(value, [], []);
      StripAfter(value, []);
    } else {
      RStripSplits(comment);
      assert value + after == value + blank + RStrip(comment);
      CutAtTheComment(value, blank, RStrip(comment));
      StripAfter(value, blank[..|blank| - 1]);
      BlankIsStripped(blank[..|blank| - 1]);
    }
    BlankIsStripped([]);
    assert value + [] == value;
    NoQuote(value + after);
  }

  lemma NoQuote(raw: string)
    requires raw != [] && raw[0] !in ['"', '\'']
    ensures ClosingQuote(raw) == Success(None)
  {
  }

  lemma BlankIsStripped(s: string)
    requires Blank(s)
    ensures RStrip(s) == []
  {
    RStripSplits(s);
  }

  lemma StripOfComment(blank: string, comment: string)
    requires Blank(blank) && (comment != [] ==> comment[0] == '#')
    ensures RStrip(blank + comment) == if comment == [] then [] else blank + RStrip(comment)
    ensures comment != [] ==> RStrip(comment) != [] && RStrip(comment)[0] == '#'
  {
    if comment == [] {
      assert blank + comment == blank;
      BlankIsStripped(blank);
    } else {
      RStripSplits(comment);
      assert !IsSpace(comment[0]) && RStrip(comment) != [];
      var kept := RStrip(comment);
      var rest := comment[|kept|..];
      assert blank + comment == (blank + kept) + rest && comment == kept + rest;
      RStripDrops(blank + kept, rest);
      assert (blank + kept)[|blank + kept| - 1] == kept[|kept| - 1];
    }
  }

  /** With no value in front of it a comment is read as the value, white space before it or not: an assignment
      reads as empty exactly when nothing but white space follows the separator. */
  lemma CommentForAValueIsRead(blank: string, comment: string)
    requires Blank(blank) && (comment != [] ==> comment[0] == '#')
    ensures DotenvValue(blank + comment) == Success("") <==> comment == ""
    ensures comment != [] ==>
              DotenvValue(blank + comment) == Failure(Interpolation)
              || (DotenvValue(blank + comment).Success? && DotenvValue(blank + comment).value != []
                  && DotenvValue(blank + comment).value[0] == '#')
  {
    StripBefore(blank, comment);
    if comment != [] {
      StripKeepsTheFirst(comment);
      NoQuote(Strip(comment));
      StripKeepsTheFirst(CutComment(Strip(comment)));
    }
    hide Strip, CutComment, ClosingQuote;
    assert comment == [] ==> blank + comment == blank;
    EmptyReads();
  }

  lemma EmptyReads()
    ensures Strip([]) == [] && CutComment([]) == [] && ClosingQuote([]) == Success(None)
  {
  }

  lemma StripKeepsTheFirst(s: string)
    requires s != [] && s[0] == '#'
    ensures Strip(s) != [] && Strip(s)[0] == '#'
    ensures CutComment(s) != [] && CutComment(s)[0] == '#'
  {
    RStripSplits(s);
  }

  lemma {:induction false} StripBefore(blank: string, value: string)
    requires Blank(blank)
    ensures Strip(blank + value) == Strip(value)
  {
    hide IsSpace;
    if blank == [] {
      assert blank + value == value;
    } else {
      assert (blank + value)[1..] == blank[1..] + value;
      StripBefore(blank[1..], value);
    }
  }

  // ---------------------------------------------------------------- keys

  /** A line is split at its first `=` or `:`, whichever comes first, and its key is trimmed. */
  lemma SplitsAtTheFirstSeparator(key: string, separator: char, rest: string)
    requires separator in ['=', ':'] && '=' !in key && ':' !in key && !StartsWith(key + [separator] + rest, "export ")
    ensures SplitAssignment(key + [separator] + rest) == Some((Strip(key), rest))
  {
    hide Find, Strip, LStrip;
    var after := [separator] + rest;
    var line := key + after;
    assert line == key + [separator] + rest;
    assert line[..|key|] == key && line[|key| + 1..] == rest;
    FindAfter(key, after, '=');
    FindAfter(key, after, ':');
    SeparatorIsFound(separator, rest);
  }

  lemma SeparatorIsFound(separator: char, rest: string)
    requires separator in ['=', ':']
    ensures var after := [separator] + rest;
            var other := if separator == '=' then ':' else '=';
            Find(after, separator) == 0 && (Find(after, other) == -1 || Find(after, other) > 0)
  {
  }

  /** A line with neither assigns nothing. */
  lemma WithoutSeparatorNothing(line: string)
    requires '=' !in line && ':' !in line && !StartsWith(line, "export ")
    ensures SplitAssignment(line) == None
  {
    FindAfter(line, [], '=');
    FindAfter(line, [], ':');
    assert line + [] == line;
  }

  /** An `export` in front of an assignment is skipped, once. */
  lemma ExportIsSkipped(line: string)
    requires !StartsWith(LStrip(line), "export ")
    ensures SplitAssignment("export " + line) == SplitAssignment(LStrip(line))
  {
    hide Find, LStrip, Strip;
    assert ("export " + line)[..7] == "export " && ("export " + line)[7..] == line;
  }

  /** Blank lines and comments assign nothing. */
  lemma CommentsAssignNothing(line: string, key: string)
    requires Strip(line) == [] || Strip(line)[0] == '#'
    ensures RawOf(line, key) == None
  {
  }
}
