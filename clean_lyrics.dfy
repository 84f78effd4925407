/**
 * The lyric sanitiser `cleanLyricsForSuno` of the music-composition flow:
 * split on newlines, trim every line, drop section headers, drop
 * parenthesised production notes, drop empty lines, join with newlines.
 */
module CleanLyrics {
  import opened Text
  import opened Filters

  /**
   * `/^(Verse|Chorus|Intro|Outro|Bridge|Final Chorus)/i`: a case-insensitive
   * PREFIX test, so "Introduction" and "Chorusline" are headers too. Without
   * the `u` flag only ASCII letters fold onto the letters of these labels.
   */
  predicate IsHeader(line: string)
    ensures IsHeader(line) ==> |line| >= 5
  {
    || StartsWithIgnoringCase(line, "Verse")
    || StartsWithIgnoringCase(line, "Chorus")
    || StartsWithIgnoringCase(line, "Intro")
    || StartsWithIgnoringCase(line, "Outro")
    || StartsWithIgnoringCase(line, "Bridge")
    || StartsWithIgnoringCase(line, "Final Chorus")
  }

  /**
   * `/^\(.*\)$/`: an opening and a closing parenthesis (so at least two
   * characters) with no line terminator between them, since `.` does not
   * match one. A note is already trimmed and is a single line.
   */
  predicate IsProductionNote(line: string)
    ensures IsProductionNote(line) ==> IsTrimmed(line) && '\n' !in line
  {
    && |line| >= 2
    && line[0] == '('
    && line[|line| - 1] == ')'
    && forall k :: 1 <= k < |line| - 1 ==> !IsLineTerminator(line[k])
  }

  /** The header test ignores ASCII case: a line and its lower-cased form are headers alike. */
  lemma HeaderIgnoresCase(line: string)
    ensures IsHeader(ToLower(line)) <==> IsHeader(line)
  {
    StartsWithIgnoringCaseLower(line, "Verse");
    StartsWithIgnoringCaseLower(line, "Chorus");
    StartsWithIgnoringCaseLower(line, "Intro");
    StartsWithIgnoringCaseLower(line, "Outro");
    StartsWithIgnoringCaseLower(line, "Bridge");
    StartsWithIgnoringCaseLower(line, "Final Chorus");
  }

  /** The header test looks at a prefix only: whatever follows a header, the line stays a header. */
  lemma HeaderExtended(line: string, more: string)
    requires IsHeader(line)
    ensures IsHeader(line + more)
  {
    forall name | StartsWithIgnoringCase(line, name)
      ensures StartsWithIgnoringCase(line + more, name)
    {
      StartsWithExtended(line, name, more);
    }
  }

  predicate NotHeader(line: string) { !IsHeader(line) }

  predicate NotProductionNote(line: string) { !IsProductionNote(line) }

  predicate NonEmpty(line: string) { |line| > 0 }

  /** A trimmed line survives the sanitiser when it passes all three filters. */
  predicate Keep(line: string) {
    line != [] && !IsHeader(line) && !IsProductionNote(line)
  }

  /** `line => line.trim()` mapped over the lines. */
  function TrimAll(lines: seq<string>): (r: seq<string>)
    ensures |r| == |lines|
    ensures forall k :: 0 <= k < |lines| ==> r[k] == Trim(lines[k])
  {
    seq(|lines|, k requires 0 <= k < |lines| => Trim(lines[k]))
  }

  /** The lines that reach the final `join`, filtered in the source's order of the three filters. */
  function SanitisedLines(rawLyrics: string): seq<string> {
    var trimmed := TrimAll(Split(rawLyrics, '\n'));
    Filter(NonEmpty, Filter(NotProductionNote, Filter(NotHeader, trimmed)))
  }

  /**
   * `cleanLyricsForSuno`: the output is empty exactly when no line survives,
   * and it never starts or ends with white space.
   */
  function CleanLyricsForSuno(rawLyrics: string): (r: string)
    ensures r == "" <==> SanitisedLines(rawLyrics) == []
    ensures IsTrimmed(r)
  {
    if rawLyrics == "" then
      assert Split(rawLyrics, '\n') == [""];
      assert TrimAll([""]) == [""];
      ""
    else
      var lines := SanitisedLines(rawLyrics);
      SanitisedLineShape(rawLyrics);
      JoinTrimmed(lines, '\n');
      Join(lines, '\n')
  }

  /** Trimming lines that are already trimmed changes nothing. */
  lemma TrimAllTrimmed(lines: seq<string>)
    requires forall line :: line in lines ==> IsTrimmed(line)
    ensures TrimAll(lines) == lines
  {
    forall k | 0 <= k < |lines| ensures TrimAll(lines)[k] == lines[k] {
      assert lines[k] in lines;
      TrimOfTrimmed(lines[k]);
    }
  }

  /** The three filters are one filter by `Keep`. */
  lemma SanitisedLinesAreKeptLines(rawLyrics: string)
    ensures SanitisedLines(rawLyrics) == Filter(Keep, TrimAll(Split(rawLyrics, '\n')))
  {
    var trimmed := TrimAll(Split(rawLyrics, '\n'));
    var notes := (line: string) => NotHeader(line) && NotProductionNote(line);
    FilterFilter(NotProductionNote, NotHeader, notes, trimmed);
    FilterFilter(NonEmpty, notes, Keep, trimmed);
  }

  /**
   * The lines of the output are exactly the trimmed input lines that pass
   * all three filters: a line of the output is such a line, and such a line
   * reaches the output. The order is that of the input (FilterConcat).
   */
  lemma SanitisedLineMembership(rawLyrics: string, line: string)
    ensures line in SanitisedLines(rawLyrics) <==> Keep(line) && line in TrimAll(Split(rawLyrics, '\n'))
  {
    SanitisedLinesAreKeptLines(rawLyrics);
  }

  /** Every sanitised line is non-empty, trimmed, not a header, not a note, and has no newline. */
  lemma SanitisedLineShape(rawLyrics: string)
    ensures forall line :: line in SanitisedLines(rawLyrics) ==> Keep(line) && IsTrimmed(line) && '\n' !in line
  {
    forall line | line in SanitisedLines(rawLyrics)
      ensures Keep(line) && IsTrimmed(line) && '\n' !in line
    {
      SanitisedLineMembership(rawLyrics, line);
      var pieces := Split(rawLyrics, '\n');
      var k :| 0 <= k < |pieces| && TrimAll(pieces)[k] == line;
      assert pieces[k] in pieces;
    }
  }

  /** The lines of a non-empty output are exactly the sanitised lines: splitting undoes the final join. */
  lemma CleanLines(rawLyrics: string)
    ensures CleanLyricsForSuno(rawLyrics) != "" ==>
      Split(CleanLyricsForSuno(rawLyrics), '\n') == SanitisedLines(rawLyrics)
  {
    var lines := SanitisedLines(rawLyrics);
    if lines != [] {
      assert rawLyrics != "";
      assert CleanLyricsForSuno(rawLyrics) == Join(lines, '\n');
      SanitisedLineShape(rawLyrics);
      SplitJoin(lines, '\n');
    }
  }

  /** No line of a non-empty output is empty. */
  lemma CleanHasNoEmptyLine(rawLyrics: string)
    requires CleanLyricsForSuno(rawLyrics) != ""
    ensures forall line :: line in Split(CleanLyricsForSuno(rawLyrics), '\n') ==> line != ""
  {
    CleanLines(rawLyrics);
    SanitisedLineShape(rawLyrics);
  }

  /** Sanitising twice is sanitising once. */
  lemma CleanIdempotent(rawLyrics: string)
    ensures CleanLyricsForSuno(CleanLyricsForSuno(rawLyrics)) == CleanLyricsForSuno(rawLyrics)
  {
    var lines := SanitisedLines(rawLyrics);
    if lines != [] {
      assert CleanLyricsForSuno(rawLyrics) == Join(lines, '\n');
      SanitisedLineShape(rawLyrics);
      CleanOfKeptLines(lines);
    }
  }

  /** Joining lines that would all survive gives a text that sanitises to itself. */
  lemma CleanOfKeptLines(lines: seq<string>)
    requires lines != []
    requires forall line :: line in lines ==> Keep(line) && IsTrimmed(line) && '\n' !in line
    ensures CleanLyricsForSuno(Join(lines, '\n')) == Join(lines, '\n')
  {
    JoinTrimmed(lines, '\n');
    SanitisedLinesOfJoin(lines);
  }

  /** The lines that survive in a join of surviving lines are those lines. */
  lemma SanitisedLinesOfJoin(lines: seq<string>)
    requires lines != []
    requires forall line :: line in lines ==> Keep(line) && IsTrimmed(line) && '\n' !in line
    ensures SanitisedLines(Join(lines, '\n')) == lines
  {
    SplitJoin(lines, '\n');
    TrimAllTrimmed(lines);
    SanitisedLinesAreKeptLines(Join(lines, '\n'));
    FilterAll(Keep, lines);
  }

  /** The output is empty exactly when every trimmed input line fails a filter. */
  lemma CleanEmptyIff(rawLyrics: string)
    ensures CleanLyricsForSuno(rawLyrics) == "" <==>
      forall line :: line in TrimAll(Split(rawLyrics, '\n')) ==> !Keep(line)
  {
    CleanLines(rawLyrics);
    SanitisedLinesAreKeptLines(rawLyrics);
    var kept := Filter(Keep, TrimAll(Split(rawLyrics, '\n')));
    if kept != [] {
      assert kept[0] in kept;
    }
  }

  /** The three lines of `header + "\n" + note + "\n"`. */
  lemma {:induction false} ThreeLines(header: string, note: string)
    requires '\n' !in header && '\n' !in note
    ensures Split(header + "\n" + note + "\n", '\n') == [header, note, ""]
  {
    assert header + "\n" + note + "\n" == header + ['\n'] + (note + ['\n'] + "");
    SplitAtSeparator(header, '\n', note + ['\n'] + "");
    SplitAtSeparator(note, '\n', "");
    SplitNoSeparator("", '\n');
  }

  /** A text none of whose lines survives trimming and the filters sanitises to the empty string. */
  lemma CleanEmptyWhenNoneKept(raw: string, lines: seq<string>)
    requires Split(raw, '\n') == lines
    requires forall k :: 0 <= k < |lines| ==> !Keep(Trim(lines[k]))
    ensures CleanLyricsForSuno(raw) == ""
  {
    NoneKeptAfterTrim(lines);
    CleanEmptyIff(raw);
  }

  /** A header line, a note line and an empty line: none survives trimming and the filters. */
  lemma NoneOfThreeKept(header: string, note: string)
    requires IsHeader(Trim(header)) && IsProductionNote(Trim(note))
    ensures forall k :: 0 <= k < 3 ==> !Keep(Trim([header, note, ""][k]))
  {
    TrimEmpty();
  }

  /** When no line survives once trimmed, no trimmed line is kept. */
  lemma NoneKeptAfterTrim(lines: seq<string>)
    requires forall k :: 0 <= k < |lines| ==> !Keep(Trim(lines[k]))
    ensures forall line :: line in TrimAll(lines) ==> !Keep(line)
  {
  }

  /** A header line, a newline, a note line and a final newline sanitise to the empty string. */
  lemma MarkersOnlyCleanToEmpty(header: string, note: string)
    requires '\n' !in header && '\n' !in note
    requires IsHeader(Trim(header)) && IsProductionNote(Trim(note))
    ensures CleanLyricsForSuno(header + "\n" + note + "\n") == ""
  {
    ThreeLines(header, note);
    NoneOfThreeKept(header, note);
    CleanEmptyWhenNoneKept(header + "\n" + note + "\n", [header, note, ""]);
  }

  /** "Verse 1" is a header and "(Soft Piano)" a note, so "Verse 1\n(Soft Piano)\n" is refused by the flow. */
  lemma SoftPianoExample()
    ensures IsHeader(Trim("Verse 1")) && IsProductionNote(Trim("(Soft Piano)"))
  {
    VerseOneIsHeader();
    SoftPianoIsNote();
  }

  lemma VerseOneIsHeader()
    ensures IsHeader(Trim("Verse 1"))
  {
    VerseOneLine();
    TrimOfTrimmed("Verse 1");
  }

  lemma VerseOneLine()
    ensures IsTrimmed("Verse 1") && IsHeader("Verse 1")
  {
    assert "Verse 1"[..5] == "Verse";
  }

  lemma SoftPianoIsNote()
    ensures IsProductionNote(Trim("(Soft Piano)"))
  {
    SoftPianoLine();
    TrimOfTrimmed("(Soft Piano)");
  }

  lemma SoftPianoLine()
    ensures IsTrimmed("(Soft Piano)") && IsProductionNote("(Soft Piano)")
  {
  }

  /** The header test is a prefix test: "Introduction" is dropped. */
  lemma IntroductionIsHeader()
    ensures !Keep("Introduction")
  {
    assert StartsWithIgnoringCase("Introduction", "Intro");
  }

  /** Headers match in any letter case. */
  lemma UpperCaseHeader()
    ensures !Keep("CHORUS 2")
  {
    assert StartsWithIgnoringCase("CHORUS 2", "Chorus");
  }

  /** A lone opening parenthesis is not a production note and is kept. */
  lemma LoneParenthesisKept()
    ensures Keep("(")
  {
  }

  /** A parenthesised line with a carriage return inside is not matched by `.*` and is kept. */
  lemma NoteWithCarriageReturnKept()
    ensures Keep("(a\rb)")
  {
    assert !IsProductionNote("(a\rb)") by {
      assert IsLineTerminator("(a\rb)"[2]);
    }
  }

  /** The empty input gives the empty output. */
  lemma CleanEmpty()
    ensures CleanLyricsForSuno("") == ""
  {
  }
}
