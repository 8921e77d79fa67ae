/** Title and snippet normal forms. */
module Render {
  import opened Text

  const ELLIPSIS: char := '\U{2026}'
  const TITLE_CHARS: nat := 200
  const FIRST_LINE_CHARS: nat := 80
  const SNIPPET_CHARS: nat := 160

  function TruncateChars(s: string, max: nat): string {
    if |s| <= max then s else s[..max] + [ELLIPSIS]
  }

  /** How a submitted title is stored. */
  function SaveTitle(text: string): string {
    TruncateChars(Trim(text), TITLE_CHARS)
  }

  /** A line loses one carriage return before its line feed. */
  function StripCr(s: string): string {
    if s != "" && s[|s| - 1] == '\r' then s[..|s| - 1] else s
  }

  function Lines(s: string): seq<string> {
    if s == "" then []
    else
      var i := IndexOf(s, '\n');
      if i == |s| then [s] else [StripCr(s[..i])] + Lines(s[i + 1..])
  }

  /** The title shown for a record, and whether it is the placeholder. */
  function DisplayTitle(title: string, content: string, untitled: string): (string, bool) {
    var t := Trim(title);
    if t != "" then (TruncateChars(t, TITLE_CHARS), false)
    else
      var lines := Lines(content);
      var first := if lines == [] then "" else Trim(lines[0]);
      if first != "" then (TruncateChars(first, FIRST_LINE_CHARS), false) else (untitled, true)
  }

  /** The trimmed lines that are not empty. */
  function Kept(lines: seq<string>): seq<string> {
    if lines == [] then []
    else if Trim(lines[0]) != "" then [Trim(lines[0])] + Kept(lines[1..])
    else Kept(lines[1..])
  }

  const DOT: string := " \U{B7} "

  function Join(parts: seq<string>): string {
    if parts == [] then ""
    else if |parts| == 1 then parts[0]
    else parts[0] + DOT + Join(parts[1..])
  }

  /** The preview before it is cut. */
  function OneLine(content: string): string {
    Join(Kept(Lines(content)))
  }

  function Snippet(content: string): string {
    TruncateChars(OneLine(content), SNIPPET_CHARS)
  }

  // ----- Normal forms -----

  lemma {:induction false} TruncateIdempotent(s: string, max: nat)
    ensures TruncateChars(TruncateChars(s, max), max) == TruncateChars(s, max)
    ensures |TruncateChars(s, max)| <= max + 1
  {
    if |s| > max {
      assert (s[..max] + [ELLIPSIS])[..max] == s[..max];
    }
  }

  lemma {:induction false} NoTitleIsEmpty()
    ensures SaveTitle("") == ""
  {
    TightIsTrimmed("");
  }

  lemma {:induction false} TruncateTight(s: string, max: nat)
    requires Tight(s) && max > 0
    ensures Tight(TruncateChars(s, max))
  {
  }

  /** Storing a stored title changes nothing, and it has at most 201 characters. */
  lemma {:induction false} SaveTitleIdempotent(text: string)
    ensures SaveTitle(SaveTitle(text)) == SaveTitle(text)
    ensures |SaveTitle(text)| <= 201
    ensures Tight(SaveTitle(text))
  {
    TrimIsTight(text);
    TruncateTight(Trim(text), TITLE_CHARS);
    TightIsTrimmed(SaveTitle(text));
    TruncateIdempotent(Trim(text), TITLE_CHARS);
  }

  /** A stored title that is not empty is shown as it is, whatever the content. */
  lemma {:induction false} StoredTitleIsShown(text: string, content: string, untitled: string)
    requires SaveTitle(text) != ""
    ensures DisplayTitle(SaveTitle(text), content, untitled) == (SaveTitle(text), false)
  {
    SaveTitleIdempotent(text);
    TightIsTrimmed(SaveTitle(text));
  }

  /** The placeholder appears exactly when neither the title nor the first line has
      a character that is not white space. */
  lemma {:induction false} PlaceholderExactly(text: string, content: string, untitled: string)
    ensures DisplayTitle(SaveTitle(text), content, untitled).1 <==>
              Trim(text) == "" && Trim(content[..IndexOf(content, '\n')]) == ""
  {
    FirstLine(content);
    SaveTitleIdempotent(text);
    TightIsTrimmed(SaveTitle(text));
  }

  lemma {:induction false} StrippedHasNoFeed(s: string)
    requires '\n' !in s
    ensures '\n' !in StripCr(s)
  {
  }

  lemma {:induction false} LinesHaveNoFeed(s: string)
    ensures forall l :: l in Lines(s) ==> '\n' !in l
    decreases |s|
  {
    if s != "" {
      var i := IndexOf(s, '\n');
      if i < |s| {
        assert '\n' !in s[..i];
        StrippedHasNoFeed(s[..i]);
        LinesHaveNoFeed(s[i + 1..]);
        assert Lines(s) == [StripCr(s[..i])] + Lines(s[i + 1..]);
      } else {
        assert Lines(s) == [s] && '\n' !in s;
      }
    }
  }

  /** A part of the preview: not empty, tight, on one line. */
  predicate Clean(s: string) {
    s != "" && Tight(s) && '\n' !in s
  }

  lemma {:induction false} TrimIsPart(s: string)
    ensures forall c :: c in Trim(s) ==> c in s
  {
  }

  lemma {:induction false} KeptAreClean(lines: seq<string>)
    requires forall l :: l in lines ==> '\n' !in l
    ensures forall l :: l in Kept(lines) ==> Clean(l)
    decreases |lines|
  {
    if lines != [] {
      assert lines[0] in lines;
      TrimIsTight(lines[0]);
      TrimIsPart(lines[0]);
      forall l | l in lines[1..] ensures '\n' !in l {
        assert l in lines;
      }
      KeptAreClean(lines[1..]);
    }
  }

  lemma {:induction false} JoinIsClean(parts: seq<string>)
    requires forall l :: l in parts ==> Clean(l)
    ensures parts != [] ==> Clean(Join(parts))
    decreases |parts|
  {
    if |parts| > 1 {
      assert parts[0] in parts;
      forall l | l in parts[1..] ensures Clean(l) {
        assert l in parts;
      }
      JoinIsClean(parts[1..]);
      var j := Join(parts);
      assert j == parts[0] + DOT + Join(parts[1..]);
      assert j[0] == parts[0][0] && j[|j| - 1] == Join(parts[1..])[|Join(parts[1..])| - 1];
    } else if |parts| == 1 {
      assert parts[0] in parts;
    }
  }

  /** A clean string is its own one-line preview, up to its length. */
  lemma {:induction false} SnippetOfClean(s: string)
    requires s == "" || Clean(s)
    ensures Snippet(s) == TruncateChars(s, SNIPPET_CHARS)
  {
    if s != "" {
      IndexOfAbsent(s, '\n');
      TightIsTrimmed(s);
      assert Lines(s) == [s];
      assert Kept([s]) == [s];
    }
  }

  // ----- Line by line -----

  lemma {:induction false} StripThenTrim(s: string)
    ensures Trim(StripCr(s)) == Trim(s)
  {
    if StripCr(s) != s {
      assert s == StripCr(s) + ['\r'];
      TrimSnoc(StripCr(s), '\r');
    }
  }

  lemma {:induction false} LinesNext(line: string, rest: string)
    requires '\n' !in line
    ensures Lines(line + ['\n'] + rest) == [StripCr(line)] + Lines(rest)
    ensures Lines(line) == if line == "" then [] else [line]
  {
    var s := line + ['\n'] + rest;
    IndexOfAppend(line, '\n', rest);
    IndexOfAbsent(line, '\n');
    assert s[..|line|] == line && s[|line| + 1..] == rest;
  }

  lemma {:induction false} OneLineEmpty(content: string)
    ensures OneLine(content) == "" <==> Kept(Lines(content)) == []
  {
    LinesHaveNoFeed(content);
    KeptAreClean(Lines(content));
    JoinIsClean(Kept(Lines(content)));
  }

  /** The preview of one line is the line, trimmed; a line before other text is put in front of
      that text's preview, with a dot between them when neither is empty. */
  lemma {:induction false} OneLineNext(line: string, rest: string)
    requires '\n' !in line
    ensures OneLine(line) == Trim(line)
    ensures OneLine(line + ['\n'] + rest)
            == if Trim(line) == "" then OneLine(rest)
               else if OneLine(rest) == "" then Trim(line)
               else Trim(line) + " \U{B7} " + OneLine(rest)
  {
    LinesNext(line, rest);
    StripThenTrim(line);
    OneLineEmpty(rest);
    var lines, first := Lines(rest), StripCr(line);
    assert ([first] + lines)[0] == first && ([first] + lines)[1..] == lines;
    assert Kept([first] + lines) == (if Trim(line) == "" then [] else [Trim(line)]) + Kept(lines);
    if Trim(line) != "" {
      assert ([Trim(line)] + Kept(lines))[1..] == Kept(lines);
    }
    if line != "" {
      assert Kept([line]) == if Trim(line) == "" then [] else [Trim(line)];
    }
  }

  /** The preview is cut at 160 characters. */
  lemma {:induction false} SnippetCut(content: string)
    ensures Snippet(content) == if |OneLine(content)| <= 160 then OneLine(content)
                                else OneLine(content)[..160] + ['\U{2026}']
  {
  }

  /** The first line, trimmed, is what is before the first line feed, trimmed. */
  lemma {:induction false} FirstLine(content: string)
    ensures Trim(content[..IndexOf(content, '\n')]) == if content == "" then "" else Trim(Lines(content)[0])
  {
    var i := IndexOf(content, '\n');
    if content == "" {
      TightIsTrimmed("");
    } else if i == |content| {
      assert content[..i] == content;
    } else {
      LinesNext(content[..i], content[i + 1..]);
      SplitsAt(content, i);
      StripThenTrim(content[..i]);
    }
  }

  lemma {:induction false} FirstLineShown(content: string, untitled: string)
    ensures var line := Trim(content[..IndexOf(content, '\n')]);
            DisplayTitle("", content, untitled) ==
              if line != "" then (if |line| <= 80 then line else line[..80] + ['\U{2026}'], false)
              else (untitled, true)
  {
    FirstLine(content);
  }

  /** The title shown for a saved record: the submitted one, trimmed and cut at 200 characters,
      else the first line, trimmed and cut at 80, else the placeholder. */
  lemma {:induction false} ShownTitle(text: string, content: string, untitled: string)
    ensures var title := Trim(text);
            var line := Trim(content[..IndexOf(content, '\n')]);
            DisplayTitle(SaveTitle(text), content, untitled) ==
              if title != "" then (if |title| <= 200 then title else title[..200] + ['\U{2026}'], false)
              else if line != "" then (if |line| <= 80 then line else line[..80] + ['\U{2026}'], false)
              else (untitled, true)
  {
    if Trim(text) != "" {
      StoredTitleIsShown(text, content, untitled);
    } else {
      FirstLineShown(content, untitled);
    }
  }

  lemma {:induction false} TruncatedIsClean(s: string, max: nat)
    requires Clean(s) && max > 0
    ensures Clean(TruncateChars(s, max))
  {
    TruncateTight(s, max);
  }

  lemma {:induction false} SnippetIsClean(content: string)
    ensures Snippet(content) == "" || Clean(Snippet(content))
  {
    LinesHaveNoFeed(content);
    KeptAreClean(Lines(content));
    JoinIsClean(Kept(Lines(content)));
    if OneLine(content) != "" {
      TruncatedIsClean(OneLine(content), SNIPPET_CHARS);
    }
  }

  /** The preview of a preview is itself; it has no line feed and at most 161 characters. */
  lemma {:induction false} SnippetStable(content: string)
    ensures Snippet(Snippet(content)) == Snippet(content)
    ensures '\n' !in Snippet(content)
    ensures |Snippet(content)| <= 161
  {
    SnippetIsClean(content);
    SnippetOfClean(Snippet(content));
    TruncateIdempotent(OneLine(content), SNIPPET_CHARS);
  }
}
