/** The string operations the `.env` reader is built from: white space, lines with their ends, and searches. */
module Text {
  /** White space as Python's `str.isspace` and the pattern `\s` know it. */
  predicate IsSpace(c: char) {
    || '\t' <= c <= '\r' || '\U{1C}' <= c <= ' ' || c == '\U{85}' || c == '\U{A0}' || c == '\U{1680}'
    || '\U{2000}' <= c <= '\U{200A}' || c == '\U{2028}' || c == '\U{2029}' || c == '\U{202F}' || c == '\U{205F}'
    || c == '\U{3000}'
  }

  /** What `str.splitlines` breaks a line at; a carriage return with a line feed is one break. */
  predicate IsBreak(c: char) {
    '\n' <= c <= '\r' || '\U{1C}' <= c <= '\U{1E}' || c == '\U{85}' || c == '\U{2028}' || c == '\U{2029}'
  }

  /** The two classes, character by character. */
  lemma SpacesAndBreaks(c: char)
    ensures IsSpace(c) <==>
              c in ['\t', '\n', '\U{0B}', '\U{0C}', '\r', '\U{1C}', '\U{1D}', '\U{1E}', '\U{1F}', ' ', '\U{85}', '\U{A0}', '\U{1680}',
                    '\U{2000}', '\U{2001}', '\U{2002}', '\U{2003}', '\U{2004}', '\U{2005}', '\U{2006}', '\U{2007}', '\U{2008}',
                    '\U{2009}', '\U{200A}', '\U{2028}', '\U{2029}', '\U{202F}', '\U{205F}', '\U{3000}']
    ensures IsBreak(c) <==>
              c in ['\n', '\U{0B}', '\U{0C}', '\r', '\U{1C}', '\U{1D}', '\U{1E}', '\U{85}', '\U{2028}', '\U{2029}']
  {
  }

  predicate Blank(s: string) {
    forall i | 0 <= i < |s| :: IsSpace(s[i])
  }

  function LStrip(s: string): string {
    if s == [] || !IsSpace(s[0]) then s else LStrip(s[1..])
  }

  function RStrip(s: string): string {
    if s == [] || !IsSpace(s[|s| - 1]) then s else RStrip(s[..|s| - 1])
  }

  function Strip(s: string): string {
    RStrip(LStrip(s))
  }

  function Find(s: string, c: char): (index: int)
    ensures -1 <= index < |s|
  {
    if s == [] then -1
    else if s[0] == c then 0
    else
      var index := Find(s[1..], c);
      if index == -1 then -1 else index + 1
  }

  lemma {:induction false} FindAfter(before: string, after: string, c: char)
    requires c !in before
    ensures Find(before + after, c) == if Find(after, c) == -1 then -1 else |before| + Find(after, c)
  {
    if before == [] {
      assert before + after == after;
    } else {
      assert (before + after)[1..] == before[1..] + after;
      FindAfter(before[1..], after, c);
    }
  }

  // ---------------------------------------------------------------- white space

  lemma {:induction false} RStripDrops(s: string, blank: string)
    requires Blank(blank)
    ensures RStrip(s + blank) == RStrip(s)
  {
    if blank != [] {
      var rest := blank[..|blank| - 1];
      assert (s + blank)[..|s + blank| - 1] == s + rest;
      RStripDrops(s, rest);
    } else {
      assert s + blank == s;
    }
  }

  lemma {:induction false} RStripSplits(s: string)
    ensures |RStrip(s)| <= |s| && RStrip(s) == s[..|RStrip(s)|] && Blank(s[|RStrip(s)|..])
    ensures RStrip(s) != [] ==> !IsSpace(RStrip(s)[|RStrip(s)| - 1])
    ensures RStrip(s) == [] <==> Blank(s)
  {
    if s != [] && IsSpace(s[|s| - 1]) {
      RStripSplits(s[..|s| - 1]);
      var stripped := RStrip(s);
      assert s[..|s| - 1][|stripped|..] == s[|stripped|..|s| - 1];
      forall i | |stripped| <= i < |s| ensures IsSpace(s[i]) {
        if i < |s| - 1 {
          assert s[i] == s[..|s| - 1][|stripped|..][i - |stripped|];
        }
      }
    } else if s != [] {
      assert s[..|s|] == s;
    }
  }

  lemma BlankFromTheFirst(s: string)
    requires s != []
    ensures Blank(s) <==> IsSpace(s[0]) && Blank(s[1..])
  {
    if IsSpace(s[0]) && Blank(s[1..]) {
      forall i | 0 <= i < |s| ensures IsSpace(s[i]) {
        if i > 0 {
          assert s[i] == s[1..][i - 1];
        }
      }
    }
  }

  lemma {:induction false} LStripSplits(s: string)
    ensures LStrip(s) != [] ==> !IsSpace(LStrip(s)[0])
    ensures LStrip(s) == [] <==> Blank(s)
  {
    if s != [] {
      BlankFromTheFirst(s);
      if IsSpace(s[0]) {
        LStripSplits(s[1..]);
      }
    }
  }

  lemma {:induction false} LStripThen(s: string, after: string)
    requires !Blank(s)
    ensures LStrip(s + after) == LStrip(s) + after
  {
    if IsSpace(s[0]) {
      assert (s + after)[1..] == s[1..] + after;
      LStripThen(s[1..], after);
    }
  }

  /** White space at the end of a line, its break among it, does not matter to what `strip` leaves. */
  lemma StripIgnoresTheEnd(s: string, blank: string)
    requires Blank(blank)
    ensures Strip(s + blank) == Strip(s)
  {
    if Blank(s) {
      LStripSplits(s);
      LStripSplits(s + blank);
    } else {
      LStripThen(s, blank);
      RStripDrops(LStrip(s), blank);
    }
  }

  lemma {:induction false} RStripAfter(solid: string, s: string)
    requires solid != [] && !IsSpace(solid[|solid| - 1])
    ensures RStrip(solid + s) == solid + RStrip(s)
  {
    if s != [] && IsSpace(s[|s| - 1]) {
      assert (solid + s)[..|solid + s| - 1] == solid + s[..|s| - 1];
      RStripAfter(solid, s[..|s| - 1]);
    } else if s == [] {
      assert solid + s == solid;
    }
  }

  /** A text that begins with neither end of a word blank keeps that word whole. */
  lemma StripAfter(solid: string, s: string)
    requires solid != [] && !IsSpace(solid[0]) && !IsSpace(solid[|solid| - 1])
    ensures Strip(solid + s) == solid + RStrip(s)
  {
    RStripAfter(solid, s);
  }

  // ---------------------------------------------------------------- lines

  /** How long the first line is, its break included. */
  function LineEnd(text: string): (n: nat)
    requires text != []
    ensures 0 < n <= |text|
  {
    if text[0] == '\r' && |text| > 1 && text[1] == '\n' then 2
    else if IsBreak(text[0]) || |text| == 1 then 1
    else 1 + LineEnd(text[1..])
  }

  /** `text.splitlines(keepends=True)`. */
  function Lines(text: string): seq<string> {
    if text == [] then [] else [text[..LineEnd(text)]] + Lines(text[LineEnd(text)..])
  }

  function Concat(lines: seq<string>): string {
    if lines == [] then [] else lines[0] + Concat(lines[1..])
  }

  /** A line that ends where `next` begins. */
  ghost predicate EndsBefore(line: string, next: string) {
    line != [] && LineEnd(line + next) == |line|
  }

  /** Lines as a text would be split into them. */
  ghost predicate IsSplit(lines: seq<string>) {
    && (forall i | 0 <= i < |lines| :: EndsBefore(lines[i], []))
    && (forall i | 0 <= i < |lines| - 1 :: EndsBefore(lines[i], lines[i + 1]))
  }

  ghost predicate NoBreak(s: string) {
    forall i | 0 <= i < |s| :: !IsBreak(s[i])
  }

  lemma {:induction false} LineEndAfter(content: string, after: string)
    requires NoBreak(content) && after != []
    ensures LineEnd(content + after) == |content| + LineEnd(after)
  {
    if content == [] {
      assert content + after == after;
    } else {
      assert (content + after)[1..] == content[1..] + after;
      LineEndAfter(content[1..], after);
    }
  }

  lemma {:induction false} LineWithoutBreak(content: string)
    requires NoBreak(content) && content != []
    ensures LineEnd(content) == |content|
  {
    if |content| > 1 {
      LineWithoutBreak(content[1..]);
    }
  }

  /** A line's end is found in the line itself: only one character more is looked at. */
  lemma {:induction false} FirstLineStands(text: string)
    requires text != []
    ensures EndsBefore(text[..LineEnd(text)], [])
    ensures forall i | 0 <= i < LineEnd(text) - 1 :: IsBreak(text[i]) ==> text[i] == '\r' && i == LineEnd(text) - 2 && text[i + 1] == '\n'
  {
    var line := text[..LineEnd(text)];
    assert line + [] == line;
    if !IsBreak(text[0]) && |text| > 1 {
      FirstLineStands(text[1..]);
      assert text[1..][..LineEnd(text[1..])] + [] == line[1..];
      forall i | 0 <= i < LineEnd(text) - 1 && IsBreak(text[i])
        ensures text[i] == '\r' && i == LineEnd(text) - 2 && text[i + 1] == '\n'
      {
        assert text[i] == text[1..][i - 1];
      }
    }
  }

  lemma {:induction false} OnlyTheNextCharacterMatters(line: string, a: string, b: string)
    requires line != [] && a != [] && b != [] && a[0] == b[0]
    ensures EndsBefore(line, a) <==> EndsBefore(line, b)
  {
    if |line| > 1 && !IsBreak(line[0]) {
      assert (line + a)[1..] == line[1..] + a && (line + b)[1..] == line[1..] + b;
      OnlyTheNextCharacterMatters(line[1..], a, b);
    } else if |line| == 1 && !IsBreak(line[0]) {
      assert (line + a)[1..] == a && (line + b)[1..] == b;
    }
  }

  /** Splitting and joining undo each other, and what splitting gives is split already. */
  lemma {:induction false} LinesAreSplit(text: string)
    ensures Concat(Lines(text)) == text && IsSplit(Lines(text))
  {
    if text != [] {
      var n := LineEnd(text);
      var line, rest := text[..n], text[n..];
      LinesAreSplit(rest);
      FirstLineStands(text);
      assert line + rest == text;
      assert Lines(text)[1..] == Lines(rest);
      if rest != [] {
        assert Lines(rest)[0] == rest[..LineEnd(rest)];
        OnlyTheNextCharacterMatters(line, rest, Lines(rest)[0]);
      }
    }
  }

  lemma {:induction false} SplitLinesAreFound(lines: seq<string>)
    requires IsSplit(lines)
    ensures Lines(Concat(lines)) == lines
  {
    if lines != [] {
      var line, rest := lines[0], lines[1..];
      SplitLinesAreFound(rest);
      if rest == [] {
        assert line + [] == line;
      } else {
        assert rest[0] == lines[1] && EndsBefore(rest[0], []);
        OnlyTheNextCharacterMatters(line, lines[1], Concat(rest));
      }
      assert LineEnd(Concat(lines)) == |line|;
      assert Concat(lines)[..|line|] == line && Concat(lines)[|line|..] == Concat(rest);
    }
  }

  lemma {:induction false} ConcatOfParts(a: seq<string>, b: seq<string>)
    ensures Concat(a + b) == Concat(a) + Concat(b)
  {
    if a == [] {
      assert a + b == b;
    } else {
      assert (a + b)[1..] == a[1..] + b;
      ConcatOfParts(a[1..], b);
    }
  }

  /** A line that ends before some text ends before any other that does not begin with a line feed. */
  lemma {:induction false} EndsBeforeAnyOther(line: string, a: string, b: string)
    requires a != [] && b != [] && b[0] != '\n' && EndsBefore(line, a)
    ensures EndsBefore(line, b)
  {
    if |line| > 1 && !IsBreak(line[0]) {
      assert (line + a)[1..] == line[1..] + a && (line + b)[1..] == line[1..] + b;
      EndsBeforeAnyOther(line[1..], a, b);
    }
  }

  /** A line that ends with a line feed ends before anything. */
  lemma {:induction false} LineFeedEnds(line: string, b: string)
    requires EndsBefore(line, []) && line[|line| - 1] == '\n' && b != []
    ensures EndsBefore(line, b)
  {
    assert line + [] == line;
    if |line| > 1 && !IsBreak(line[0]) {
      assert (line + b)[1..] == line[1..] + b && line[1..] + [] == line[1..];
      LineFeedEnds(line[1..], b);
    }
  }

  /** A line that does not end before a line feed takes it up. */
  lemma {:induction false} TakesTheLineFeed(line: string)
    requires EndsBefore(line, []) && !EndsBefore(line, "\n")
    ensures EndsBefore(line + "\n", [])
  {
    assert line + [] == line && (line + "\n") + [] == line + "\n";
    if |line| > 1 && !IsBreak(line[0]) {
      assert (line + "\n")[1..] == line[1..] + "\n" && line[1..] + [] == line[1..];
      assert (line[1..] + "\n") + [] == line[1..] + "\n";
      TakesTheLineFeed(line[1..]);
    }
  }

  /** A line more is found at the end if the last one ends before it. */
  lemma LinesWithOneMore(lines: seq<string>, line: string)
    requires IsSplit(lines) && EndsBefore(line, [])
    requires lines != [] ==> EndsBefore(lines[|lines| - 1], line)
    ensures Lines(Concat(lines) + line) == lines + [line]
  {
    hide LineEnd, Lines, EndsBefore;
    var more := lines + [line];
    forall i | 0 <= i < |more| ensures EndsBefore(more[i], []) && (i < |lines| ==> EndsBefore(more[i], more[i + 1])) {
      if i < |lines| {
        assert more[i] == lines[i] && more[i + 1] == if i < |lines| - 1 then lines[i + 1] else line;
      }
    }
    SplitLinesAreFound(more);
    ConcatOfParts(lines, [line]);
    ConcatOfOne(line);
  }

  lemma ConcatOfOne(line: string)
    ensures Concat([line]) == line
  {
    assert [line][1..] == [];
  }
}
