// apps/web/lib/poll.ts: the inline poll block, its parser and the vote tally.
module Text {
  import opened Common

  const NEWLINE := '\n'

  /** The characters JavaScript's `trim` strips. */
  predicate IsSpace(c: char) {
    || '\U{0009}' <= c <= '\U{000D}' || c == ' ' || c == '\U{00A0}' || c == '\U{1680}'
    || '\U{2000}' <= c <= '\U{200A}' || c == '\U{2028}' || c == '\U{2029}' || c == '\U{202F}'
    || c == '\U{205F}' || c == '\U{3000}' || c == '\U{FEFF}'
  }

  function TrimStart(s: string): string {
    if s != [] && IsSpace(s[0]) then TrimStart(s[1..]) else s
  }

  function TrimEnd(s: string): string {
    if s != [] && IsSpace(s[|s| - 1]) then TrimEnd(s[..|s| - 1]) else s
  }

  function Trim(s: string): string {
    TrimEnd(TrimStart(s))
  }

  predicate Blank(s: string) {
    forall i :: 0 <= i < |s| ==> IsSpace(s[i])
  }

  /** Nothing to trim: empty, or a non-space at both ends. */
  predicate Trimmed(s: string) {
    s == [] || (!IsSpace(s[0]) && !IsSpace(s[|s| - 1]))
  }

  lemma TrimOfTrimmed(s: string)
    requires Trimmed(s)
    ensures Trim(s) == s
  {
  }

  lemma {:induction false} TrimEndEmptyIffBlank(s: string)
    ensures TrimEnd(s) == "" <==> Blank(s)
  {
    if s != [] && IsSpace(s[|s| - 1]) {
      TrimEndEmptyIffBlank(s[..|s| - 1]);
    }
  }

  lemma {:induction false} TrimEmptyIffBlank(s: string)
    ensures Trim(s) == "" <==> Blank(s)
  {
    if s != [] && IsSpace(s[0]) {
      TrimEmptyIffBlank(s[1..]);
      assert Blank(s) <==> Blank(s[1..]) by {
        assert forall i :: 0 < i < |s| ==> s[i] == s[1..][i - 1];
      }
    } else {
      TrimEndEmptyIffBlank(s);
    }
  }

  lemma {:induction false} TrimEndOfBlankTail(s: string, t: string)
    requires Blank(t)
    ensures TrimEnd(s + t) == TrimEnd(s)
    decreases |t|
  {
    if t == [] {
      assert s + t == s;
    } else {
      var u := t[..|t| - 1];
      assert (s + t)[..|s + t| - 1] == s + u && (s + t)[|s + t| - 1] == t[|t| - 1];
      TrimEndOfBlankTail(s, u);
    }
  }

  lemma {:induction false} TrimStartAppend(s: string, t: string)
    requires !Blank(s)
    ensures TrimStart(s + t) == TrimStart(s) + t
    decreases |s|
  {
    if IsSpace(s[0]) {
      assert (s + t)[1..] == s[1..] + t;
      assert !Blank(s[1..]) by {
        assert forall i :: 0 < i < |s| ==> s[i] == s[1..][i - 1];
      }
      TrimStartAppend(s[1..], t);
    }
  }

  lemma BlankAppend(s: string, t: string)
    ensures Blank(s + t) <==> Blank(s) && Blank(t)
  {
    assert (s + t)[..|s|] == s && (s + t)[|s|..] == t;
    if Blank(s + t) {
      forall i | 0 <= i < |s| ensures IsSpace(s[i]) { assert s[i] == (s + t)[i]; }
      forall i | 0 <= i < |t| ensures IsSpace(t[i]) { assert t[i] == (s + t)[|s| + i]; }
    }
  }

  /** Blank text at the end is trimmed away. */
  lemma TrimDropsBlankTail(s: string, t: string)
    requires Blank(t)
    ensures Trim(s + t) == Trim(s)
  {
    if Blank(s) {
      BlankAppend(s, t);
      TrimEmptyIffBlank(s);
      TrimEmptyIffBlank(s + t);
    } else {
      TrimStartAppend(s, t);
      TrimEndOfBlankTail(TrimStart(s), t);
    }
  }

  lemma {:induction false} TrimEndKeepsFront(s: string, t: string)
    requires !Blank(t)
    ensures TrimEnd(s + t) == s + TrimEnd(t) && TrimEnd(t) != ""
    decreases |t|
  {
    TrimEndEmptyIffBlank(t);
    if IsSpace(t[|t| - 1]) {
      var u := t[..|t| - 1];
      assert (s + t)[..|s + t| - 1] == s + u;
      TrimEndKeepsFront(s, u);
    }
  }

  lemma {:induction false} TrimEndShrinks(s: string)
    ensures |TrimEnd(s)| <= |s|
  {
    if s != [] && IsSpace(s[|s| - 1]) {
      TrimEndShrinks(s[..|s| - 1]);
    }
  }

  /** Visible text at the end shows in the trimmed result. */
  lemma TrimSeesTail(s: string, t: string)
    requires !Blank(t)
    ensures Trim(s + t) != Trim(s)
  {
    BlankAppend(s, t);
    TrimEmptyIffBlank(s);
    TrimEmptyIffBlank(s + t);
    if !Blank(s) {
      TrimStartAppend(s, t);
      TrimEndKeepsFront(TrimStart(s), t);
      TrimEndShrinks(TrimStart(s));
    }
  }

  predicate OccursAt(s: string, p: string, i: int) {
    0 <= i <= |s| - |p| && forall k :: 0 <= k < |p| ==> s[i + k] == p[k]
  }

  predicate Contains(s: string, p: string) {
    exists i :: 0 <= i <= |s| && OccursAt(s, p, i)
  }

  /** `indexOf`: the first occurrence at or after `from`. */
  function IndexOf(s: string, p: string, from: nat): (r: Option<nat>)
    ensures r.Some? ==> from <= r.value <= |s| - |p|
    decreases |s| - from
  {
    if from + |p| > |s| then None
    else if OccursAt(s, p, from) then Some(from)
    else IndexOf(s, p, from + 1)
  }

  lemma {:induction false} IndexOfFirst(s: string, p: string, from: nat)
    ensures var r := IndexOf(s, p, from);
      && (r.Some? ==> from <= r.value && OccursAt(s, p, r.value))
      && (r.Some? ==> forall j :: from <= j < r.value ==> !OccursAt(s, p, j))
      && (r.None? ==> forall j :: from <= j ==> !OccursAt(s, p, j))
    decreases |s| - from
  {
    if from + |p| <= |s| && !OccursAt(s, p, from) {
      IndexOfFirst(s, p, from + 1);
    }
  }

  lemma IndexOfIs(s: string, p: string, from: nat, i: nat)
    requires from <= i && OccursAt(s, p, i) && forall j :: from <= j < i ==> !OccursAt(s, p, j)
    ensures IndexOf(s, p, from) == Some(i)
  {
    IndexOfFirst(s, p, from);
  }

  lemma OccursIndex(s: string, p: string, i: int, k: int)
    requires OccursAt(s, p, i) && 0 <= k < |p|
    ensures s[i + k] == p[k]
  {
  }

  /** An occurrence inside a stretch of text is an occurrence in that stretch, and the other way round. */
  lemma OccursInside(s: string, p: string, a: int, b: int, i: int)
    requires 0 <= a <= i && i + |p| <= b <= |s|
    ensures OccursAt(s, p, i) <==> OccursAt(s[a..b], p, i - a)
  {
    forall k | 0 <= k < |p| ensures s[a..b][i - a + k] == p[k] <==> s[i + k] == p[k] {
    }
  }

  /** `split("\n")`. */
  function Lines(s: string): (r: seq<string>)
    ensures r != []
  {
    if s == [] then [""]
    else if s[0] == NEWLINE then [""] + Lines(s[1..])
    else
      var rest := Lines(s[1..]);
      [[s[0]] + rest[0]] + rest[1..]
  }

  /** `join("\n")`. */
  function Join(lines: seq<string>): string {
    if lines == [] then ""
    else if |lines| == 1 then lines[0]
    else lines[0] + [NEWLINE] + Join(lines[1..])
  }

  predicate OneLine(s: string) {
    NEWLINE !in s
  }

  lemma {:induction false} LinesOfOne(s: string)
    requires OneLine(s)
    ensures Lines(s) == [s]
  {
    if s != [] {
      LinesOfOne(s[1..]);
      assert [s[0]] + s[1..] == s;
    }
  }

  lemma {:induction false} LinesOfFirst(s: string, t: string)
    requires OneLine(s)
    ensures Lines(s + [NEWLINE] + t) == [s] + Lines(t)
    decreases |s|
  {
    var u := s + [NEWLINE] + t;
    if s == [] {
      assert u[1..] == t;
    } else {
      assert u[1..] == s[1..] + [NEWLINE] + t;
      LinesOfFirst(s[1..], t);
      assert [s[0]] + s[1..] == s;
    }
  }

  /** Splitting undoes joining for newline-free lines. */
  lemma {:induction false} SplitJoin(lines: seq<string>)
    requires lines != [] && forall i :: 0 <= i < |lines| ==> OneLine(lines[i])
    ensures Lines(Join(lines)) == lines
    decreases |lines|
  {
    if |lines| == 1 {
      LinesOfOne(lines[0]);
    } else {
      SplitJoin(lines[1..]);
      LinesOfFirst(lines[0], Join(lines[1..]));
    }
  }

  /** A newline-free pattern found in joined lines lies within one of them. */
  lemma {:induction false} JoinHasOnly(lines: seq<string>, p: string, i: int)
    requires p != [] && OneLine(p) && OccursAt(Join(lines), p, i)
    ensures exists k :: 0 <= k < |lines| && Contains(lines[k], p)
    decreases |lines|
  {
    var s := Join(lines);
    if |lines| == 1 {
      assert OccursAt(lines[0], p, i);
    } else {
      var first, rest := lines[0], Join(lines[1..]);
      assert s[|first|] == NEWLINE;
      if i <= |first| < i + |p| {
        OccursIndex(s, p, i, |first| - i);
        assert false;
      } else if i < |first| {
        OccursInside(s, p, 0, |first|, i);
        assert s[0..|first|] == first;
        assert OccursAt(first, p, i);
      } else {
        OccursInside(s, p, |first| + 1, |s|, i);
        assert s[|first| + 1..|s|] == rest;
        JoinHasOnly(lines[1..], p, i - |first| - 1);
        var k :| 0 <= k < |lines[1..]| && Contains(lines[1..][k], p);
        assert lines[k + 1] == lines[1..][k];
      }
    }
  }

  lemma OccursLater(front: string, s: string, p: string, i: int)
    requires OccursAt(s, p, i)
    ensures OccursAt(front + s, p, |front| + i)
  {
    assert (front + s)[|front|..|front + s|] == s;
    OccursInside(front + s, p, |front|, |front + s|, |front| + i);
  }

  lemma OccursBefore(s: string, tail: string, p: string, i: int)
    requires OccursAt(s, p, i)
    ensures OccursAt(s + tail, p, i)
  {
    assert (s + tail)[0..|s|] == s;
    OccursInside(s + tail, p, 0, |s|, i);
  }

  /** The first occurrence in `s` is the first one in `front + s` from `|front|` on. */
  lemma FoundBehind(front: string, s: string, p: string, k: nat)
    requires OccursAt(s, p, k) && forall j :: OccursAt(s, p, j) ==> j >= k
    ensures IndexOf(front + s, p, |front|) == Some(|front| + k)
  {
    var all := front + s;
    assert all[|front|..|all|] == s;
    OccursLater(front, s, p, k);
    forall j | |front| <= j < |front| + k ensures !OccursAt(all, p, j) {
      if OccursAt(all, p, j) {
        OccursInside(all, p, |front|, |all|, j);
      }
    }
    IndexOfIs(all, p, |front|, |front| + k);
  }

  lemma FoundNoLater(s: string, p: string, from: nat, i: int)
    requires from <= i && OccursAt(s, p, i)
    ensures IndexOf(s, p, from).Some? && IndexOf(s, p, from).value <= i
  {
    IndexOfFirst(s, p, from);
  }

  /** A pattern in one of the lines is in the joined text. */
  lemma {:induction false} JoinContains(lines: seq<string>, p: string, k: nat) returns (i: int)
    requires k < |lines| && Contains(lines[k], p)
    ensures OccursAt(Join(lines), p, i)
    decreases |lines|
  {
    if k == 0 {
      i :| 0 <= i <= |lines[0]| && OccursAt(lines[0], p, i);
      if |lines| > 1 {
        OccursBefore(lines[0], [NEWLINE] + Join(lines[1..]), p, i);
        assert lines[0] + ([NEWLINE] + Join(lines[1..])) == Join(lines);
      }
    } else {
      i := JoinContains(lines[1..], p, k - 1);
      OccursLater(lines[0] + [NEWLINE], Join(lines[1..]), p, i);
      i := |lines[0]| + 1 + i;
    }
  }
}

module Poll {
  import opened Common
  import opened Text

  const OPEN := "[POLL]"
  const CLOSE := "[/POLL]"
  const BULLET := "- "
  const MAX_POLL_OPTIONS: nat := 8
  const MIN_POLL_OPTIONS: nat := 2

  datatype ParsedPoll = ParsedPoll(question: string, options: seq<string>, before: string, after: string)

  function Bulleted(options: seq<string>): seq<string> {
    if options == [] then [] else [BULLET + options[0]] + Bulleted(options[1..])
  }

  function FormatPollBlock(question: string, options: seq<string>): string {
    Join([OPEN, question] + Bulleted(options) + [CLOSE])
  }

  /** The composer's insertion: a blank draft gets no spacer. */
  function InsertPoll(draft: string, question: string, options: seq<string>): string {
    draft + Spacer(draft) + FormatPollBlock(question, options)
  }

  /** `split("\n").map(trim).filter(Boolean)`. */
  function TrimmedLines(lines: seq<string>): seq<string> {
    if lines == [] then []
    else (if Trim(lines[0]) == "" then [] else [Trim(lines[0])]) + TrimmedLines(lines[1..])
  }

  /** The non-empty options on the bullet lines, without a cap. */
  function BulletOptions(lines: seq<string>): seq<string> {
    if lines == [] then []
    else
      (if BULLET <= lines[0] && Trim(lines[0][2..]) != "" then [Trim(lines[0][2..])] else [])
      + BulletOptions(lines[1..])
  }

  function Capped(options: seq<string>): seq<string> {
    if |options| <= MAX_POLL_OPTIONS then options else options[..MAX_POLL_OPTIONS]
  }

  /** What the trimmed, non-empty lines between the tags say, if they make a poll. */
  function PollOfLines(lines: seq<string>): Option<(string, seq<string>)> {
    if lines == [] || BULLET <= lines[0] then None
    else
      var options := Capped(BulletOptions(lines[1..]));
      if |options| < MIN_POLL_OPTIONS then None else Some((lines[0], options))
  }

  /** What the text between the tags says, with the text around it. */
  function PollOf(before: string, middle: string, after: string): Option<ParsedPoll> {
    var body := PollOfLines(TrimmedLines(Lines(middle)));
    if body.None? then None else Some(ParsedPoll(body.value.0, body.value.1, Trim(before), Trim(after)))
  }

  /** The lazy regular expression: the first opening tag and the first closing tag behind it. */
  function Tags(content: string): (r: Option<(nat, nat)>)
    ensures r.Some? ==> r.value.0 + |OPEN| <= r.value.1 <= |content| - |CLOSE|
  {
    var open := IndexOf(content, OPEN, 0);
    if open.None? then None
    else
      var close := IndexOf(content, CLOSE, open.value + |OPEN|);
      if close.None? then None else Some((open.value, close.value))
  }

  function ParseSpec(content: string): Option<ParsedPoll> {
    match Tags(content)
    case None => None
    case Some((p, q)) => PollOf(content[..p], content[p + |OPEN|..q], content[q + |CLOSE|..])
  }

  method ParsePollBlock(content: string) returns (r: Option<ParsedPoll>)
    ensures r == ParseSpec(content)
  {
    var open := IndexOf(content, OPEN, 0);
    if open.None? { return None; }
    var close := IndexOf(content, CLOSE, open.value + |OPEN|);
    if close.None? { return None; }
    var p, q := open.value, close.value;
    ParseBetween(content, p, q);
    r := ParseBlock(content[..p], content[p + |OPEN|..q], content[q + |CLOSE|..]);
  }

  method ParseBlock(before: string, middle: string, after: string) returns (r: Option<ParsedPoll>)
    ensures r == PollOf(before, middle, after)
  {
    var body := ParseLines(TrimmedLines(Lines(middle)));
    if body.None? { return None; }
    r := Some(ParsedPoll(body.value.0, body.value.1, Trim(before), Trim(after)));
  }

  method ParseLines(lines: seq<string>) returns (r: Option<(string, seq<string>)>)
    ensures r == PollOfLines(lines)
  {
    if lines == [] || BULLET <= lines[0] { return None; }
    var options := CollectOptions(lines[1..]);
    if |options| < MIN_POLL_OPTIONS { return None; }
    r := Some((lines[0], options));
  }

  /** The option loop with its early exit. */
  method CollectOptions(lines: seq<string>) returns (options: seq<string>)
    ensures options == Capped(BulletOptions(lines))
  {
    options := [];
    for i := 0 to |lines|
      invariant |options| < MAX_POLL_OPTIONS && options == BulletOptions(lines[..i])
    {
      var line := lines[i];
      BulletOptionsStep(lines, i);
      if !(BULLET <= line) { continue; }
      var option := Trim(line[2..]);
      if option != "" {
        options := options + [option];
      }
      if |options| == MAX_POLL_OPTIONS {
        CappedEarly(lines, i + 1);
        return;
      }
    }
    assert lines[..|lines|] == lines;
  }

  lemma BulletOptionsStep(lines: seq<string>, i: nat)
    requires i < |lines|
    ensures BulletOptions(lines[..i + 1]) == BulletOptions(lines[..i])
        + if BULLET <= lines[i] && Trim(lines[i][2..]) != "" then [Trim(lines[i][2..])] else []
  {
    assert lines[..i + 1] == lines[..i] + [lines[i]] && [lines[i]][1..] == [];
    BulletOptionsAppend(lines[..i], [lines[i]]);
  }

  lemma CappedEarly(lines: seq<string>, i: nat)
    requires i <= |lines| && |BulletOptions(lines[..i])| == MAX_POLL_OPTIONS
    ensures Capped(BulletOptions(lines)) == BulletOptions(lines[..i])
  {
    assert lines == lines[..i] + lines[i..];
    BulletOptionsAppend(lines[..i], lines[i..]);
  }

  lemma {:induction false} BulletOptionsAppend(a: seq<string>, b: seq<string>)
    ensures BulletOptions(a + b) == BulletOptions(a) + BulletOptions(b)
  {
    if a == [] {
      assert a + b == b;
    } else {
      assert (a + b)[1..] == a[1..] + b;
      BulletOptionsAppend(a[1..], b);
    }
  }

  // ---- Round trip -------------------------------------------------------------

  /** A question or option as the composer passes it on: from a one-line input, trimmed and not empty. */
  ghost predicate Clean(s: string) {
    s != "" && Trimmed(s) && OneLine(s)
  }

  ghost predicate CleanPoll(question: string, options: seq<string>) {
    && Clean(question) && 2 <= |options| <= 8
    && forall i :: 0 <= i < |options| ==> Clean(options[i])
  }

  /** Neither the question nor an option holds a closing tag. */
  ghost predicate CloseFree(question: string, options: seq<string>) {
    !Contains(question, CLOSE) && forall i :: 0 <= i < |options| ==> !Contains(options[i], CLOSE)
  }

  /** The text between the tags, and its lines. */
  function MiddleLines(question: string, options: seq<string>): seq<string> {
    ["", question] + Bulleted(options) + [""]
  }

  function Middle(question: string, options: seq<string>): string {
    Join(MiddleLines(question, options))
  }

  lemma BulletLine(option: string)
    requires Clean(option)
    ensures var line := BULLET + option; OneLine(line) && Trim(line) == line && BULLET <= line && line[2..] == option
  {
    var line := BULLET + option;
    TrimOfTrimmed(line);
    assert |BULLET| == 2 && line[2..] == option;
  }

  /** The bullet itself is no part of a closing tag. */
  lemma BulletClose(option: string)
    ensures Contains(BULLET + option, CLOSE) <==> Contains(option, CLOSE)
  {
    var line := BULLET + option;
    assert |BULLET| == 2 && line[2..|line|] == option;
    if Contains(option, CLOSE) {
      var i :| 0 <= i <= |option| && OccursAt(option, CLOSE, i);
      OccursLater(BULLET, option, CLOSE, i);
    }
    if Contains(line, CLOSE) {
      var i :| 0 <= i <= |line| && OccursAt(line, CLOSE, i);
      OccursIndex(line, CLOSE, i, 0);
      assert CLOSE[0] == '[';
      OccursInside(line, CLOSE, 2, |line|, i);
      assert OccursAt(option, CLOSE, i - 2);
    }
  }

  lemma {:induction false} BulletedLines(options: seq<string>)
    ensures |Bulleted(options)| == |options|
    ensures forall i :: 0 <= i < |options| ==> Bulleted(options)[i] == BULLET + options[i]
  {
    if options != [] {
      BulletedLines(options[1..]);
    }
  }

  lemma {:induction false} BulletsTrim(options: seq<string>)
    requires forall i :: 0 <= i < |options| ==> Clean(options[i])
    ensures TrimmedLines(Bulleted(options) + [""]) == Bulleted(options)
  {
    if options == [] {
      assert Bulleted(options) + [""] == [""];
      assert [""][1..] == [];
      TrimOfTrimmed("");
    } else {
      BulletsTrim(options[1..]);
      BulletLine(options[0]);
      var all := Bulleted(options) + [""];
      assert all[0] == BULLET + options[0] && all[1..] == Bulleted(options[1..]) + [""];
    }
  }

  lemma {:induction false} BulletsParse(options: seq<string>)
    requires forall i :: 0 <= i < |options| ==> Clean(options[i])
    ensures BulletOptions(Bulleted(options)) == options
  {
    if options != [] {
      BulletsParse(options[1..]);
      BulletLine(options[0]);
      TrimOfTrimmed(options[0]);
      var all := Bulleted(options);
      assert all[0] == BULLET + options[0] && all[1..] == Bulleted(options[1..]);
    }
  }

  lemma MiddleLinesAreLines(question: string, options: seq<string>)
    requires CleanPoll(question, options)
    ensures var lines := MiddleLines(question, options); forall i :: 0 <= i < |lines| ==> OneLine(lines[i])
  {
    var lines := MiddleLines(question, options);
    BulletedLines(options);
    forall i | 0 <= i < |lines| ensures OneLine(lines[i]) {
      if 2 <= i < |lines| - 1 {
        BulletLine(options[i - 2]);
        assert lines[i] == Bulleted(options)[i - 2];
      }
    }
  }

  lemma MiddleLinesCloseFree(question: string, options: seq<string>)
    requires CloseFree(question, options)
    ensures var lines := MiddleLines(question, options); forall i :: 0 <= i < |lines| ==> !Contains(lines[i], CLOSE)
  {
    var lines := MiddleLines(question, options);
    BulletedLines(options);
    forall i | 0 <= i < |lines| ensures !Contains(lines[i], CLOSE) {
      if 2 <= i < |lines| - 1 {
        BulletClose(options[i - 2]);
        assert lines[i] == Bulleted(options)[i - 2];
      }
    }
  }

  /** A closing tag in the question or an option shows between the tags. */
  lemma MiddleHoldsClose(question: string, options: seq<string>) returns (j: int)
    requires !CloseFree(question, options)
    ensures OccursAt(Middle(question, options), CLOSE, j)
  {
    var lines := MiddleLines(question, options);
    if Contains(question, CLOSE) {
      assert lines[1] == question;
      j := JoinContains(lines, CLOSE, 1);
    } else {
      var i :| 0 <= i < |options| && Contains(options[i], CLOSE);
      BulletedLines(options);
      BulletClose(options[i]);
      assert lines[i + 2] == Bulleted(options)[i];
      j := JoinContains(lines, CLOSE, i + 2);
    }
  }

  /** The middle parses back into the question and the options. */
  lemma MiddleParses(question: string, options: seq<string>)
    requires CleanPoll(question, options)
    ensures PollOfLines(TrimmedLines(Lines(Middle(question, options))))
         == if BULLET <= question then None else Some((question, options))
  {
    var bullets := Bulleted(options);
    var lines := MiddleLines(question, options);
    MiddleLinesAreLines(question, options);
    SplitJoin(lines);
    TrimOfTrimmed(question);
    TrimOfTrimmed("");
    BulletsTrim(options);
    BulletsParse(options);
    assert lines[1..][1..] == bullets + [""] && lines[1..][0] == question;
    assert TrimmedLines(lines[1..]) == [question] + bullets;
    assert TrimmedLines(lines) == [question] + bullets;
    assert ([question] + bullets)[1..] == bullets;
  }

  lemma {:induction false} JoinSnoc(lines: seq<string>, last: string)
    requires lines != []
    ensures Join(lines + [last]) == Join(lines) + [NEWLINE] + last
    decreases |lines|
  {
    if |lines| > 1 {
      assert (lines + [last])[1..] == lines[1..] + [last];
      JoinSnoc(lines[1..], last);
    }
  }

  lemma FormatIsTagged(question: string, options: seq<string>)
    ensures FormatPollBlock(question, options) == OPEN + Middle(question, options) + CLOSE
    ensures Middle(question, options) != "" && Middle(question, options)[0] == NEWLINE
    ensures Middle(question, options)[|Middle(question, options)| - 1] == NEWLINE
  {
    var rest := [question] + Bulleted(options);
    assert [OPEN, question] + Bulleted(options) == [OPEN] + rest;
    assert ["", question] + Bulleted(options) == [""] + rest;
    JoinSnoc([OPEN] + rest, CLOSE);
    JoinSnoc([""] + rest, "");
    assert ([OPEN] + rest)[1..] == rest && ([""] + rest)[1..] == rest;
    assert Join([OPEN] + rest) == OPEN + [NEWLINE] + Join(rest);
    assert Join([""] + rest) == [NEWLINE] + Join(rest);
  }

  /** The closing tag is not met before the block's own. */
  lemma MiddleHasNoClose(question: string, options: seq<string>, j: int)
    requires CloseFree(question, options)
    requires OccursAt(Middle(question, options) + CLOSE, CLOSE, j)
    ensures j >= |Middle(question, options)|
  {
    var m := Middle(question, options);
    FormatIsTagged(question, options);
    if j < |m| {
      if j + |CLOSE| > |m| {
        OccursIndex(m + CLOSE, CLOSE, j, |m| - 1 - j);
      } else {
        OccursInside(m + CLOSE, CLOSE, 0, |m|, j);
        assert (m + CLOSE)[0..|m|] == m;
        MiddleLinesCloseFree(question, options);
        JoinHasOnly(MiddleLines(question, options), CLOSE, j);
      }
    }
  }

  function Spacer(draft: string): string {
    if Trim(draft) == "" then "" else "\n\n"
  }

  lemma InsertPollParts(draft: string, question: string, options: seq<string>)
    ensures InsertPoll(draft, question, options) == draft + Spacer(draft) + OPEN + Middle(question, options) + CLOSE
  {
    FormatIsTagged(question, options);
    var m := Middle(question, options);
    assert draft + Spacer(draft) + (OPEN + m + CLOSE) == draft + Spacer(draft) + OPEN + m + CLOSE;
  }

  /** With no opening tag in the draft, the block's own tag is the first one. */
  lemma OwnTagIsFirst(draft: string, rest: string, j: int)
    requires !Contains(draft, OPEN) && OccursAt(draft + Spacer(draft) + OPEN + rest, OPEN, j)
    ensures j >= |draft + Spacer(draft)|
  {
    var s := draft + Spacer(draft) + OPEN + rest;
    TrimEmptyIffBlank(draft);
    if j < |draft + Spacer(draft)| {
      OccursIndex(s, OPEN, j, 0);
      if j + |OPEN| <= |draft| {
        assert s[0..|draft|] == draft;
        OccursInside(s, OPEN, 0, |draft|, j);
      } else if j < |draft| && Spacer(draft) != "" {
        assert s[|draft|] == NEWLINE;
        OccursIndex(s, OPEN, j, |draft| - j);
      }
    }
  }

  lemma OpenFound(front: string, draft: string, rest: string)
    requires !Contains(draft, OPEN) && front == draft + Spacer(draft)
    ensures IndexOf(front + OPEN + rest, OPEN, 0) == Some(|front|)
  {
    var content := front + OPEN + rest;
    forall j | 0 <= j < |front| ensures !OccursAt(content, OPEN, j) {
      if OccursAt(content, OPEN, j) {
        OwnTagIsFirst(draft, rest, j);
      }
    }
    assert content[|front|..|front| + |OPEN|] == OPEN;
    IndexOfIs(content, OPEN, 0, |front|);
  }

  lemma CloseFoundIn(front: string, m: string)
    requires forall j :: OccursAt(m + CLOSE, CLOSE, j) ==> j >= |m|
    ensures IndexOf(front + m + CLOSE, CLOSE, |front|) == Some(|front| + |m|)
  {
    assert front + m + CLOSE == front + (m + CLOSE);
    OccursLater(m, CLOSE, CLOSE, 0);
    FoundBehind(front, m + CLOSE, CLOSE, |m|);
  }

  lemma FirstCloseIsOwn(question: string, options: seq<string>, m: string)
    requires CloseFree(question, options) && m == Middle(question, options)
    ensures forall j :: OccursAt(m + CLOSE, CLOSE, j) ==> j >= |m|
  {
    forall j | OccursAt(m + CLOSE, CLOSE, j) ensures j >= |m| {
      MiddleHasNoClose(question, options, j);
    }
  }

  /** A draft's own opening tag comes first. */
  lemma DraftTagIsFirst(draft: string, block: string) returns (at: nat)
    requires Contains(draft, OPEN)
    ensures IndexOf(draft + block, OPEN, 0) == Some(at)
    ensures at < |draft| && draft[at] == '['
  {
    IndexOfFirst(draft + block, OPEN, 0);
    var i :| 0 <= i <= |draft| && OccursAt(draft, OPEN, i);
    OccursBefore(draft, block, OPEN, i);
    at := IndexOf(draft + block, OPEN, 0).value;
    OccursIndex(draft + block, OPEN, at, 0);
    assert OPEN[0] == '[';
  }

  lemma BracketIsVisible(draft: string, at: nat)
    requires at < |draft| && draft[at] == '['
    ensures Trim(draft[..at]) != Trim(draft)
  {
    assert !IsSpace(draft[at..][0]);
    assert draft == draft[..at] + draft[at..];
    TrimSeesTail(draft[..at], draft[at..]);
  }

  lemma {:induction false} BeforeIsCut(content: string, p: nat)
    requires Tags(content).Some? ==> Tags(content).value.0 == p
    ensures var r := ParseSpec(content); r.Some? ==> r.value.before == Trim(content[..p])
  {
  }

  /** A draft with its own opening tag is cut there. */
  lemma EarlierTagWins(draft: string, question: string, options: seq<string>)
    requires Contains(draft, OPEN)
    ensures var r := ParseSpec(InsertPoll(draft, question, options)); r.Some? ==> r.value.before != Trim(draft)
  {
    var block := Spacer(draft) + FormatPollBlock(question, options);
    assert InsertPoll(draft, question, options) == draft + block;
    var at := DraftTagIsFirst(draft, block);
    BeforeIsCut(draft + block, at);
    assert (draft + block)[..at] == draft[..at];
    BracketIsVisible(draft, at);
  }

  lemma {:induction false} ParseBetween(content: string, p: nat, q: nat)
    requires Tags(content) == Some((p, q))
    ensures ParseSpec(content) == PollOf(content[..p], content[p + |OPEN|..q], content[q + |CLOSE|..])
  {
  }

  lemma {:induction false} ParseWithParts(before: string, m: string)
    requires Tags(before + OPEN + m + CLOSE) == Some((|before|, |before + OPEN + m|))
    ensures ParseSpec(before + OPEN + m + CLOSE) == PollOf(before, m, "")
  {
    var content := before + OPEN + m + CLOSE;
    ParseBetween(content, |before|, |before + OPEN + m|);
    assert content[..|before|] == before;
    assert content[|before| + |OPEN|..|before + OPEN + m|] == m;
    assert content[|before + OPEN + m| + |CLOSE|..] == "";
  }

  /** Without a tag of the draft's own, and without a closing one inside, the block's tags are the ones found. */
  lemma {:induction false} OwnTagsFound(draft: string, front: string, question: string, options: seq<string>, m: string)
    requires CloseFree(question, options) && !Contains(draft, OPEN)
    requires front == draft + Spacer(draft) && m == Middle(question, options)
    ensures Tags(front + OPEN + m + CLOSE) == Some((|front|, |front + OPEN + m|))
  {
    assert front + OPEN + (m + CLOSE) == front + OPEN + m + CLOSE;
    OpenFound(front, draft, m + CLOSE);
    FirstCloseIsOwn(question, options, m);
    CloseFoundIn(front + OPEN, m);
  }

  lemma {:induction false} TaglessDraftParses(draft: string, question: string, options: seq<string>)
    requires CleanPoll(question, options) && CloseFree(question, options) && !Contains(draft, OPEN)
    ensures ParseSpec(InsertPoll(draft, question, options))
         == if BULLET <= question then None else Some(ParsedPoll(question, options, Trim(draft), ""))
  {
    var front, m := draft + Spacer(draft), Middle(question, options);
    InsertPollParts(draft, question, options);
    OwnTagsFound(draft, front, question, options, m);
    ParseWithParts(front, m);
    MiddlePoll(draft, question, options);
  }

  lemma MiddlePoll(draft: string, question: string, options: seq<string>)
    requires CleanPoll(question, options)
    ensures PollOf(draft + Spacer(draft), Middle(question, options), "")
         == if BULLET <= question then None else Some(ParsedPoll(question, options, Trim(draft), ""))
  {
    MiddleParses(question, options);
    TrimDropsBlankTail(draft, Spacer(draft));
    TrimOfTrimmed("");
  }

  /** Text behind the poll that ends in a bracket is reported. */
  lemma {:induction false} TailIsReported(before: string, middle: string, content: string, k: nat)
    requires k < |content| && content[|content| - 1] == ']'
    ensures var r := PollOf(before, middle, content[k..]); r.Some? ==> r.value.after != ""
  {
    var after := content[k..];
    assert !IsSpace(after[|after| - 1]);
    TrimEmptyIffBlank(after);
  }

  lemma {:induction false} CutAt(content: string, p: nat, q: nat)
    requires Tags(content) == Some((p, q))
    requires q + |CLOSE| < |content| && content[|content| - 1] == ']'
    ensures var r := ParseSpec(content); r.Some? ==> r.value.after != ""
  {
    ParseBetween(content, p, q);
    TailIsReported(content[..p], content[p + |OPEN|..q], content, q + |CLOSE|);
  }

  /** A block that holds a closing tag of its own is cut at the first one. */
  lemma {:induction false} InnerCloseCuts(front: string, m: string, j: int)
    requires IndexOf(front + OPEN + m + CLOSE, OPEN, 0) == Some(|front|) && OccursAt(m, CLOSE, j)
    ensures var r := ParseSpec(front + OPEN + m + CLOSE); r.Some? ==> r.value.after != ""
  {
    var content, from := front + OPEN + m + CLOSE, |front + OPEN|;
    OccursLater(front + OPEN, m, CLOSE, j);
    OccursBefore(front + OPEN + m, CLOSE, CLOSE, from + j);
    FoundNoLater(content, CLOSE, from, from + j);
    assert content[|content| - 1] == CLOSE[|CLOSE| - 1];
    CutAt(content, |front|, IndexOf(content, CLOSE, from).value);
  }

  /** A closing tag in the question or an option ends the block there and leaves text behind it. */
  lemma {:induction false} EarlierCloseWins(draft: string, question: string, options: seq<string>)
    requires !CloseFree(question, options) && !Contains(draft, OPEN)
    ensures var r := ParseSpec(InsertPoll(draft, question, options)); r.Some? ==> r.value.after != ""
  {
    var front, m := draft + Spacer(draft), Middle(question, options);
    InsertPollParts(draft, question, options);
    assert front + OPEN + (m + CLOSE) == front + OPEN + m + CLOSE;
    OpenFound(front, draft, m + CLOSE);
    var j := MiddleHoldsClose(question, options);
    InnerCloseCuts(front, m, j);
  }

  /**
   * Round trip: parsing a draft with a freshly inserted poll gives back the question, the options in order,
   * the trimmed draft before it and nothing after it, exactly when the draft has no opening tag of its
   * own, the question does not read as an option line, and neither question nor options hold a closing tag.
   */
  lemma RoundTrip(draft: string, question: string, options: seq<string>)
    requires CleanPoll(question, options)
    ensures ParseSpec(InsertPoll(draft, question, options)) == Some(ParsedPoll(question, options, Trim(draft), ""))
        <==> !Contains(draft, OPEN) && !(BULLET <= question) && CloseFree(question, options)
  {
    if Contains(draft, OPEN) {
      EarlierTagWins(draft, question, options);
    } else if !CloseFree(question, options) {
      EarlierCloseWins(draft, question, options);
    } else {
      TaglessDraftParses(draft, question, options);
    }
  }
}
