// What any text parses to, and what a poll block looks like, in terms of its characters and lines.
module PollReading {
  import opened Common
  import opened Text
  import opened Poll

  // ---- Characters, lines and occurrences ----------------------------------------

  /** The white space and line terminators of sections 12.2 and 12.3 of ECMA-262. */
  const WHITE_SPACE := "\t\n\U{000B}\U{000C}\r \U{00A0}\U{1680}\U{2000}\U{2001}\U{2002}\U{2003}\U{2004}\U{2005}" +
    "\U{2006}\U{2007}\U{2008}\U{2009}\U{200A}\U{2028}\U{2029}\U{202F}\U{205F}\U{3000}\U{FEFF}"

  lemma SpaceExactly(c: char)
    ensures IsSpace(c) <==> c in WHITE_SPACE
  {
    assert WHITE_SPACE[0] == '\t' && WHITE_SPACE[1] == '\n' && WHITE_SPACE[2] == '\U{000B}'
        && WHITE_SPACE[3] == '\U{000C}' && WHITE_SPACE[4] == '\r' && WHITE_SPACE[5] == ' '
        && WHITE_SPACE[6] == '\U{00A0}' && WHITE_SPACE[7] == '\U{1680}';
    assert forall i :: 8 <= i <= 18 ==> WHITE_SPACE[i] as int == 0x2000 + i - 8;
  }

  /** Trimming takes white space off both ends and nothing else. */
  lemma TrimExactly(s: string) returns (front: string, back: string)
    ensures s == front + Trim(s) + back
    ensures forall c :: c in front || c in back ==> IsSpace(c)
    ensures Trim(s) != "" ==> !IsSpace(Trim(s)[0]) && !IsSpace(Trim(s)[|Trim(s)| - 1])
  {
    var rest;
    front, rest := TrimStartTakes(s);
    back := TrimEndTakes(rest);
    if Trim(s) != "" {
      assert rest[0] == Trim(s)[0];
    }
  }

  lemma {:induction false} TrimStartTakes(s: string) returns (front: string, rest: string)
    ensures rest == TrimStart(s) && s == front + rest && Blank(front) && (rest != [] ==> !IsSpace(rest[0]))
  {
    front, rest := [], s;
    if s != [] && IsSpace(s[0]) {
      front, rest := TrimStartTakes(s[1..]);
      front := [s[0]] + front;
    }
  }

  lemma {:induction false} TrimEndTakes(s: string) returns (back: string)
    ensures s == TrimEnd(s) + back && Blank(back) && (TrimEnd(s) != [] ==> !IsSpace(TrimEnd(s)[|TrimEnd(s)| - 1]))
  {
    back := [];
    if s != [] && IsSpace(s[|s| - 1]) {
      back := TrimEndTakes(s[..|s| - 1]);
      back := back + [s[|s| - 1]];
    }
  }

  /** The lines of a text hold no newline, and joined they are the text. */
  lemma {:induction false} LinesExactly(s: string)
    ensures Join(Lines(s)) == s && forall i :: 0 <= i < |Lines(s)| ==> '\n' !in Lines(s)[i]
  {
    if s != [] {
      LinesExactly(s[1..]);
      var rest := Lines(s[1..]);
      assert s == [s[0]] + s[1..];
      if s[0] == NEWLINE {
        assert Lines(s)[1..] == rest;
      } else if |rest| > 1 {
        assert Lines(s)[1..] == rest[1..];
      }
    }
  }

  /** Joining puts one newline between two lines. */
  lemma JoinsWithNewline(first: string, second: string, more: seq<string>)
    ensures Join([]) == "" && Join([first]) == first
    ensures Join([first, second] + more) == first + "\n" + Join([second] + more)
  {
    assert ([first, second] + more)[1..] == [second] + more;
  }

  lemma OccursExactly(s: string, p: string, i: int)
    ensures OccursAt(s, p, i) <==> 0 <= i <= |s| - |p| && s[i..i + |p|] == p
  {
    if 0 <= i <= |s| - |p| {
      var slice := s[i..i + |p|];
      assert forall k :: 0 <= k < |p| ==> slice[k] == s[i + k];
    }
  }

  // ---- Which stretch of a text is the block ---------------------------------------

  /** An opening tag at `i`, and a closing tag at `j` behind it. */
  predicate Tagged(content: string, i: int, j: int) {
    && 0 <= i && i + 6 <= j <= |content| - 7
    && content[i..i + 6] == "[POLL]" && content[j..j + 7] == "[/POLL]"
  }

  lemma TaggedOccurs(content: string, i: int, j: int)
    ensures Tagged(content, i, j) <==> OccursAt(content, OPEN, i) && OccursAt(content, CLOSE, j) && i + |OPEN| <= j
  {
    OccursExactly(content, OPEN, i);
    OccursExactly(content, CLOSE, j);
  }

  /** The block is the leftmost pair of tags, and of those the shortest; there is none only if no pair is. */
  lemma TagsExactly(content: string)
    ensures Tags(content).None? ==> forall i, j :: !Tagged(content, i, j)
    ensures Tags(content).Some? ==>
        var (p, q) := Tags(content).value;
        Tagged(content, p, q) && forall i, j :: Tagged(content, i, j) ==> p < i || (p == i && q <= j)
  {
    IndexOfFirst(content, OPEN, 0);
    var open := IndexOf(content, OPEN, 0);
    if open.Some? {
      IndexOfFirst(content, CLOSE, open.value + |OPEN|);
    }
    if Tags(content).Some? {
      TaggedOccurs(content, Tags(content).value.0, Tags(content).value.1);
    }
    forall i, j | Tagged(content, i, j)
      ensures Tags(content).Some?
      ensures var (p, q) := Tags(content).value; p < i || (p == i && q <= j)
    {
      TaggedOccurs(content, i, j);
    }
  }

  // ---- What its lines say -----------------------------------------------------------

  /** Line by line: what is left of the line, and the option on it. */
  lemma LineByLine(line: string, more: seq<string>)
    ensures TrimmedLines([line] + more) == (if Trim(line) == "" then [] else [Trim(line)]) + TrimmedLines(more)
    ensures !("- " <= line) ==> BulletOptions([line] + more) == BulletOptions(more)
    ensures "- " <= line ==>
        var option := Trim(line[2..]);
        BulletOptions([line] + more) == (if option == "" then [] else [option]) + BulletOptions(more)
    ensures TrimmedLines([]) == [] && BulletOptions([]) == []
  {
    assert ([line] + more)[1..] == more;
  }

  /** Non-empty and without white space at its ends. */
  predicate Visible(s: string) {
    s != "" && !IsSpace(s[0]) && !IsSpace(s[|s| - 1])
  }

  lemma {:induction false} TrimmedLinesVisible(lines: seq<string>)
    ensures forall i :: 0 <= i < |TrimmedLines(lines)| ==> Visible(TrimmedLines(lines)[i])
  {
    if lines != [] {
      TrimmedLinesVisible(lines[1..]);
      var front, back := TrimExactly(lines[0]);
    }
  }

  lemma {:induction false} BulletOptionsVisible(lines: seq<string>)
    ensures forall i :: 0 <= i < |BulletOptions(lines)| ==> Visible(BulletOptions(lines)[i])
  {
    if lines != [] {
      BulletOptionsVisible(lines[1..]);
      if BULLET <= lines[0] {
        var front, back := TrimExactly(lines[0][2..]);
      }
    }
  }

  /** Whatever the text, a poll read from it has a question that is no bullet line and two to eight options. */
  lemma ParsedIsPoll(content: string)
    requires ParseSpec(content).Some?
    ensures var poll := ParseSpec(content).value;
      && Visible(poll.question) && !("- " <= poll.question)
      && 2 <= |poll.options| <= 8
      && forall i :: 0 <= i < |poll.options| ==> Visible(poll.options[i])
  {
    var (p, q) := Tags(content).value;
    ParseBetween(content, p, q);
    var lines := TrimmedLines(Lines(content[p + |OPEN|..q]));
    TrimmedLinesVisible(Lines(content[p + |OPEN|..q]));
    BulletOptionsVisible(lines[1..]);
  }

  /**
   * The tags cut the text in three. There is a poll exactly when the visible lines between them start with a
   * question and at least two options follow; of more than eight options the first eight count.
   */
  lemma ParsesExactly(content: string)
    ensures Tags(content).None? ==> ParseSpec(content).None?
    ensures Tags(content).Some? ==>
        var (p, q) := Tags(content).value;
        var lines := TrimmedLines(Lines(content[p + 6..q]));
        && (ParseSpec(content).Some? <==>
              lines != [] && !("- " <= lines[0]) && |BulletOptions(lines[1..])| >= 2)
        && (ParseSpec(content).Some? ==>
              var poll, options := ParseSpec(content).value, BulletOptions(lines[1..]);
              && poll.question == lines[0]
              && poll.options == (if |options| <= 8 then options else options[..8])
              && poll.before == Trim(content[..p]) && poll.after == Trim(content[q + 7..]))
  {
    if Tags(content).Some? {
      ParseBetween(content, Tags(content).value.0, Tags(content).value.1);
    }
  }

  // ---- What is inserted ---------------------------------------------------------------

  /** The lines of a block: the opening tag, the question, the options behind bullets, the closing tag. */
  lemma BlockLines(question: string, options: seq<string>)
    requires OneLine(question) && forall i :: 0 <= i < |options| ==> OneLine(options[i])
    ensures var lines := Lines(FormatPollBlock(question, options));
      && |lines| == |options| + 3
      && lines[0] == "[POLL]" && lines[1] == question && lines[|options| + 2] == "[/POLL]"
      && forall i :: 0 <= i < |options| ==> lines[i + 2] == "- " + options[i]
  {
    var lines := [OPEN, question] + Bulleted(options) + [CLOSE];
    BulletedLines(options);
    forall i | 0 <= i < |lines| ensures OneLine(lines[i]) {
      if 2 <= i < |options| + 2 {
        assert lines[i] == BULLET + options[i - 2];
      }
    }
    SplitJoin(lines);
  }

  /** The block goes behind an empty line, unless the draft is all white space. */
  lemma InsertsBehindDraft(draft: string, question: string, options: seq<string>)
    ensures InsertPoll(draft, question, options)
        == draft + (if forall i :: 0 <= i < |draft| ==> IsSpace(draft[i]) then "" else "\n\n")
           + FormatPollBlock(question, options)
  {
    TrimEmptyIffBlank(draft);
  }
}
