/**
 * The language-model service (app/services/ai_service.py): the summary
 * prompt, the parser that splits the model's answer into a summary and at
 * most five tags, the tag-only request, and the rule that every failing
 * call becomes a failure value instead of an exception.  The chat
 * completion itself is a parameter: a function from the prompt to what the
 * model answered or the error it raised.
 */
module Ai {
  import opened Wrappers
  import opened Text

  const SummaryMarker: string := "요약:"
  const TagMarker: string := "태그:"

  /** The summary used when the answer has no usable summary line. */
  const NoSummary: string := "요약을 생성할 수 없습니다."

  /** The tag returned when tag generation fails. */
  const FallbackTag: string := "일반"

  /** Most tags kept. */
  const MaxTags: nat := 5

  /** Longest content put into a summary prompt. */
  const MaxPromptContent: nat := 4000

  datatype Usage = Usage(promptTokens: int, completionTokens: int, totalTokens: int)

  /** What a chat completion request gives: the answer text, or the error it raised. */
  datatype Completion = Completed(text: string, usage: Usage) | Raised(message: string)

  /** The model behind the service. */
  type Model = string -> Completion

  /** The parser's result. */
  datatype Parsed = Parsed(summary: string, tags: seq<string>)

  /** What `summarize_content` returns. */
  datatype SummaryResult =
    | Summarized(summary: string, tags: seq<string>, tokenUsed: int)
    | SummaryFailed(error: string)

  /** What `generate_response` returns. */
  datatype GenerationResult =
    | Generated(response: string, usage: Usage)
    | GenerationFailed(error: string)

  predicate IsBracket(c: char)
  {
    c == '[' || c == ']'
  }

  /** Tags as the parser hands them out: non-empty, stripped, without commas. */
  predicate CleanTag(t: string)
  {
    t != "" && !IsSpace(t[0]) && !IsSpace(t[|t| - 1]) && ',' !in t
  }

  predicate AllClean(tags: seq<string>)
  {
    forall i :: 0 <= i < |tags| ==> CleanTag(tags[i])
  }

  /** Stripping keeps only characters that were there. */
  lemma {:induction false} StripKeeps(s: string, c: char)
    requires c !in s
    ensures c !in Strip(s)
  {
    var l := TrimLeft(s, IsSpace);
    var r := TrimRight(l, IsSpace);
    StripIsTrims(s);
    assert l == s[|s| - |l|..];
    assert r == l[..|r|];
  }

  /** A clean tag is its own strip. */
  lemma {:induction false} CleanIsStripped(t: string)
    requires CleanTag(t)
    ensures Strip(t) == t
  {
  }

  /** Stripping twice is stripping once. */
  lemma {:induction false} StripIdempotent(s: string)
    ensures Strip(Strip(s)) == Strip(s)
  {
    var r := Strip(s);
    assert r == [] || (!IsSpace(r[0]) && !IsSpace(r[|r| - 1]));
  }

  /** `[tag.strip() for tag in parts if tag.strip()]`. */
  function CleanTags(parts: seq<string>): (tags: seq<string>)
    requires forall i :: 0 <= i < |parts| ==> ',' !in parts[i]
    ensures |tags| <= |parts|
    ensures AllClean(tags)
  {
    if parts == [] then []
    else
      var t := Strip(parts[0]);
      var rest := CleanTags(parts[1..]);
      StrippedPieceClean(parts[0]);
      if t == "" then rest else PrependClean(t, rest); [t] + rest
  }

  /** A stripped piece without commas is empty or a clean tag. */
  lemma {:induction false} StrippedPieceClean(p: string)
    requires ',' !in p
    ensures Strip(p) == "" || CleanTag(Strip(p))
  {
    StripKeeps(p, ',');
  }

  lemma {:induction false} PrependClean(t: string, rest: seq<string>)
    requires CleanTag(t) && AllClean(rest)
    ensures AllClean([t] + rest)
  {
    assert forall i :: 0 < i <= |rest| ==> ([t] + rest)[i] == rest[i - 1];
  }

  /** Pieces that are already clean tags pass through unchanged. */
  lemma {:induction false} CleanTagsOfClean(parts: seq<string>)
    requires AllClean(parts)
    ensures CleanTags(parts) == parts
    decreases |parts|
  {
    if parts != [] {
      CleanIsStripped(parts[0]);
      CleanTagsOfClean(parts[1..]);
      assert [parts[0]] + parts[1..] == parts;
    }
  }

  /** The summary a `요약:` line gives: every marker removed, then stripped. */
  function SummaryOfLine(line: string): (s: string)
    ensures s == "" || (!IsSpace(s[0]) && !IsSpace(s[|s| - 1]))
  {
    Strip(RemoveAll(line, SummaryMarker))
  }

  /**
   * The tags a `태그:` line gives: every marker removed, stripped, square
   * brackets stripped from both ends, split on commas, each piece
   * stripped and the empty ones dropped.
   */
  function TagsOfLine(line: string): (tags: seq<string>)
    ensures AllClean(tags)
  {
    var text := Trim(Strip(RemoveAll(line, TagMarker)), IsBracket);
    CleanTags(Split(text, ','))
  }

  /** One pass of the parser's loop: a marked line replaces what it marks. */
  function Step(st: Parsed, line: string): (next: Parsed)
  {
    StepStripped(st, Strip(line))
  }

  /** The same pass, on the stripped line. */
  function StepStripped(st: Parsed, l: string): (next: Parsed)
  {
    if StartsWith(l, SummaryMarker) then Parsed(SummaryOfLine(l), st.tags)
    else if StartsWith(l, TagMarker) then Parsed(st.summary, TagsOfLine(l))
    else st
  }

  /** The parser's state after reading `lines` in order, from no summary and no tags. */
  function Scan(lines: seq<string>): (st: Parsed)
    ensures AllClean(st.tags)
    decreases |lines|
  {
    if lines == [] then Parsed("", [])
    else Step(Scan(lines[..|lines| - 1]), lines[|lines| - 1])
  }

  /** The lines the parser reads: the stripped answer split at line feeds. */
  function Lines(response: string): (lines: seq<string>)
    ensures |lines| >= 1
    ensures forall i :: 0 <= i < |lines| ==> '\n' !in lines[i]
    ensures Join(lines, "\n") == Strip(response)
  {
    JoinSplit(Strip(response), '\n');
    Split(Strip(response), '\n')
  }

  /** After the loop: the default summary when none was found, and the first five tags. */
  function Finish(st: Parsed): (p: Parsed)
    ensures st.summary != "" ==> p.summary == st.summary
    ensures st.summary == "" ==> p.summary == NoSummary
    ensures |p.tags| == (if |st.tags| <= MaxTags then |st.tags| else MaxTags)
    ensures p.tags == st.tags[..|p.tags|]
    ensures AllClean(st.tags) ==> AllClean(p.tags)
  {
    Parsed(if st.summary != "" then st.summary else NoSummary,
           if |st.tags| <= MaxTags then st.tags else st.tags[..MaxTags])
  }

  /** `_parse_ai_response` as a function of the answer text. */
  function Parse(response: string): (p: Parsed)
    ensures p.summary != ""
    ensures |p.tags| <= MaxTags && AllClean(p.tags)
  {
    Finish(Scan(Lines(response)))
  }

  /**
   * `_parse_ai_response`: read the stripped answer line by line; a line
   * starting with `요약:` sets the summary, one starting with `태그:` sets
   * the tags; keep the first five tags and fall back to the default
   * summary when none was found.
   */
  method ParseAiResponse(response: string) returns (summary: string, tags: seq<string>)
    ensures Parsed(summary, tags) == Parse(response)
    ensures summary != "" && |tags| <= MaxTags && AllClean(tags)
  {
    var lines := Lines(response);
    summary, tags := "", [];
    var i := 0;
    assert lines[..0] == [];
    while i < |lines|
      invariant 0 <= i <= |lines|
      invariant Parsed(summary, tags) == Scan(lines[..i])
    {
      ghost var before := Parsed(summary, tags);
      summary, tags := ReadLine(summary, tags, lines[i]);
      ScanNext(lines, i, before, Parsed(summary, tags));
      i := i + 1;
    }
    assert lines[..|lines|] == lines;
    summary, tags := Settle(summary, tags);
  }

  /** After the loop: fall back to the default summary and keep the first five tags. */
  method Settle(summary: string, tags: seq<string>) returns (summary': string, tags': seq<string>)
    ensures Parsed(summary', tags') == Finish(Parsed(summary, tags))
  {
    summary', tags' := summary, tags;
    if summary == "" {
      summary' := NoSummary;
    }
    if |tags| > MaxTags {
      tags' := tags[..MaxTags];
    }
  }

  /** The body of the parser's loop: strip the line and take what it marks. */
  method ReadLine(summary: string, tags: seq<string>, text: string) returns (summary': string, tags': seq<string>)
    ensures Parsed(summary', tags') == Step(Parsed(summary, tags), text)
  {
    summary', tags' := summary, tags;
    var line := Strip(text);
    if StartsWith(line, SummaryMarker) {
      summary' := SummaryOfLine(line);
    } else if StartsWith(line, TagMarker) {
      tags' := TagsOfLine(line);
    }
    StepIs(Parsed(summary, tags), line, Parsed(summary', tags'));
  }

  /** The three cases of a step. */
  lemma {:induction false} StepIs(st: Parsed, l: string, next: Parsed)
    requires if StartsWith(l, SummaryMarker) then next == Parsed(SummaryOfLine(l), st.tags)
      else if StartsWith(l, TagMarker) then next == Parsed(st.summary, TagsOfLine(l))
      else next == st
    ensures next == StepStripped(st, l)
  {
  }

  /** The state after a step on the next stripped line is the state after one more line. */
  lemma {:induction false} ScanNext(lines: seq<string>, i: nat, before: Parsed, next: Parsed)
    requires i < |lines| && before == Scan(lines[..i])
    requires next == Step(before, lines[i])
    ensures next == Scan(lines[..i + 1])
  {
    ScanOneMore(lines, i);
  }

  /** Reading one more line is one more step. */
  lemma {:induction false} ScanOneMore(lines: seq<string>, i: nat)
    requires i < |lines|
    ensures Scan(lines[..i + 1]) == Step(Scan(lines[..i]), lines[i])
  {
    assert lines[..i + 1][..i] == lines[..i];
  }

  /** The summary comes from the last line starting with `요약:`. */
  lemma {:induction false} LastSummaryLineWins(lines: seq<string>, j: nat)
    requires j < |lines| && StartsWith(Strip(lines[j]), SummaryMarker)
    requires forall k :: j < k < |lines| ==> !StartsWith(Strip(lines[k]), SummaryMarker)
    ensures Scan(lines).summary == SummaryOfLine(Strip(lines[j]))
    decreases |lines|
  {
    var init, last := lines[..|lines| - 1], lines[|lines| - 1];
    StepSummary(Scan(init), last);
    if j < |lines| - 1 {
      assert init[j] == lines[j];
      LastSummaryLineWins(init, j);
    }
  }

  /** How one line changes the summary: only a `요약:` line does. */
  lemma {:induction false} StepSummary(st: Parsed, line: string)
    ensures StartsWith(Strip(line), SummaryMarker) ==> Step(st, line).summary == SummaryOfLine(Strip(line))
    ensures !StartsWith(Strip(line), SummaryMarker) ==> Step(st, line).summary == st.summary
  {
  }

  /** Without a line starting with `요약:` the summary is the default one. */
  lemma {:induction false} NoSummaryLine(lines: seq<string>)
    requires forall k :: 0 <= k < |lines| ==> !StartsWith(Strip(lines[k]), SummaryMarker)
    ensures Scan(lines).summary == ""
    decreases |lines|
  {
    if lines != [] {
      StepSummary(Scan(lines[..|lines| - 1]), lines[|lines| - 1]);
      NoSummaryLine(lines[..|lines| - 1]);
    }
  }

  /**
   * The tags come from the last line starting with `태그:`; lines starting
   * with `요약:` after it do not touch them.
   */
  lemma {:induction false} LastTagLineWins(lines: seq<string>, j: nat)
    requires j < |lines| && StartsWith(Strip(lines[j]), TagMarker)
    requires forall k :: j < k < |lines| ==> !StartsWith(Strip(lines[k]), TagMarker)
    ensures Scan(lines).tags == TagsOfLine(Strip(lines[j]))
    decreases |lines|
  {
    var init, last := lines[..|lines| - 1], lines[|lines| - 1];
    StepTags(Scan(init), last);
    if j < |lines| - 1 {
      assert init[j] == lines[j];
      LastTagLineWins(init, j);
    }
  }

  /** How one line changes the tags: only a `태그:` line does. */
  lemma {:induction false} StepTags(st: Parsed, line: string)
    ensures StartsWith(Strip(line), TagMarker) ==> Step(st, line).tags == TagsOfLine(Strip(line))
    ensures !StartsWith(Strip(line), TagMarker) ==> Step(st, line).tags == st.tags
  {
    var l := Strip(line);
    if StartsWith(l, TagMarker) {
      assert l[0] == TagMarker[0] != SummaryMarker[0];
    }
  }

  /** Without a line starting with `태그:` there are no tags. */
  lemma {:induction false} NoTagLine(lines: seq<string>)
    requires forall k :: 0 <= k < |lines| ==> !StartsWith(Strip(lines[k]), TagMarker)
    ensures Scan(lines).tags == []
    decreases |lines|
  {
    if lines != [] {
      StepTags(Scan(lines[..|lines| - 1]), lines[|lines| - 1]);
      NoTagLine(lines[..|lines| - 1]);
    }
  }

  /** An answer without a line starting with `요약:` gets the default summary. */
  lemma {:induction false} ParseDefaultSummary(response: string)
    requires var lines := Lines(response);
      forall k :: 0 <= k < |lines| ==> !StartsWith(Strip(lines[k]), SummaryMarker)
    ensures Parse(response).summary == NoSummary
  {
    NoSummaryLine(Lines(response));
  }

  /**
   * The summary of an answer is what follows the marker on its last line
   * starting with `요약:`, or the default summary when that is empty.
   */
  lemma {:induction false} ParseSummaryLine(response: string, j: nat)
    requires var lines := Lines(response);
      && j < |lines| && StartsWith(Strip(lines[j]), SummaryMarker)
      && forall k :: j < k < |lines| ==> !StartsWith(Strip(lines[k]), SummaryMarker)
    ensures var found := SummaryOfLine(Strip(Lines(response)[j]));
      Parse(response).summary == (if found == "" then NoSummary else found)
  {
    LastSummaryLineWins(Lines(response), j);
  }

  /** An answer without a line starting with `태그:` has no tags. */
  lemma {:induction false} ParseNoTags(response: string)
    requires var lines := Lines(response);
      forall k :: 0 <= k < |lines| ==> !StartsWith(Strip(lines[k]), TagMarker)
    ensures Parse(response).tags == []
  {
    NoTagLine(Lines(response));
  }

  /** The tags of an answer are the first five of those on its last line starting with `태그:`. */
  lemma {:induction false} ParseTagLine(response: string, j: nat)
    requires var lines := Lines(response);
      && j < |lines| && StartsWith(Strip(lines[j]), TagMarker)
      && forall k :: j < k < |lines| ==> !StartsWith(Strip(lines[k]), TagMarker)
    ensures var found := TagsOfLine(Strip(Lines(response)[j]));
      Parse(response).tags == found[..if |found| <= MaxTags then |found| else MaxTags]
  {
    LastTagLineWins(Lines(response), j);
  }

  /** The answer in the format the summary prompt asks for. */
  function FormatAnswer(summary: string, tags: seq<string>): string
  {
    SummaryMarker + " " + summary + "\n" + TagMarker + " [" + Join(tags, ", ") + "]"
  }

  /** A summary the format can carry: one stripped non-empty line without the marker. */
  ghost predicate FormattableSummary(summary: string)
  {
    summary != "" && !IsSpace(summary[0]) && !IsSpace(summary[|summary| - 1])
    && '\n' !in summary && !Occurs(summary, SummaryMarker)
  }

  /** Tags the format can carry: at most five clean tags without line breaks or brackets. */
  ghost predicate FormattableTags(tags: seq<string>)
  {
    && |tags| <= MaxTags && AllClean(tags)
    && (forall i :: 0 <= i < |tags| ==> '\n' !in tags[i] && '[' !in tags[i] && ']' !in tags[i])
    && !Occurs(Join(tags, ", "), TagMarker)
  }

  /** Each tag after a space. */
  function Prefixed(tags: seq<string>): (parts: seq<string>)
    ensures |parts| == |tags|
    ensures forall i :: 0 <= i < |tags| ==> parts[i] == " " + tags[i]
  {
    seq(|tags|, i requires 0 <= i < |tags| => " " + tags[i])
  }

  /** The pieces `"a, b, c".split(',')` gives: the first tag, then each later one after a space. */
  function Spaced(tags: seq<string>): (parts: seq<string>)
    requires tags != []
  {
    [tags[0]] + Prefixed(tags[1..])
  }

  lemma {:induction false} JoinSpaced(tags: seq<string>)
    requires tags != []
    ensures Join(tags, ", ") == Join(Spaced(tags), ",")
    decreases |tags|
  {
    if |tags| > 1 {
      var rest := tags[1..];
      JoinSpaced(rest);
      assert Prefixed(rest) == [" " + rest[0]] + Prefixed(rest[1..]);
      assert Spaced(tags)[1..] == Prefixed(rest);
      JoinExtendFirst(" ", Spaced(rest), ",");
    }
  }

  /** Cleaning a list of pieces cleans its first piece, then the rest. */
  lemma {:induction false} CleanTagsCons(parts: seq<string>)
    requires parts != [] && forall i :: 0 <= i < |parts| ==> ',' !in parts[i]
    ensures Strip(parts[0]) == "" ==> CleanTags(parts) == CleanTags(parts[1..])
    ensures Strip(parts[0]) != "" ==> CleanTags(parts) == [Strip(parts[0])] + CleanTags(parts[1..])
  {
  }

  /** Tags after a space carry no comma. */
  lemma {:induction false} PrefixedCommaFree(tags: seq<string>)
    requires AllClean(tags)
    ensures forall i :: 0 <= i < |tags| ==> ',' !in Prefixed(tags)[i]
  {
    forall i | 0 <= i < |tags|
      ensures ',' !in Prefixed(tags)[i]
    {
      assert CleanTag(tags[i]);
      assert Prefixed(tags)[i] == " " + tags[i];
    }
  }

  lemma {:induction false} CleanTagsPrefixed(tags: seq<string>)
    requires AllClean(tags)
    ensures forall i :: 0 <= i < |tags| ==> ',' !in Prefixed(tags)[i]
    ensures CleanTags(Prefixed(tags)) == tags
    decreases |tags|
  {
    PrefixedCommaFree(tags);
    if tags != [] {
      var parts := Prefixed(tags);
      assert CleanTag(tags[0]);
      StripLeadingSpace(tags[0]);
      assert Strip(parts[0]) == tags[0];
      CleanTagsCons(parts);
      assert parts[1..] == Prefixed(tags[1..]);
      CleanTagsPrefixed(tags[1..]);
      assert [tags[0]] + tags[1..] == tags;
    }
  }

  lemma {:induction false} CleanTagsSpaced(tags: seq<string>)
    requires tags != [] && AllClean(tags)
    ensures forall i :: 0 <= i < |Spaced(tags)| ==> ',' !in Spaced(tags)[i]
    ensures CleanTags(Spaced(tags)) == tags
  {
    var parts := Spaced(tags);
    assert CleanTag(tags[0]);
    CleanIsStripped(tags[0]);
    CleanTagsPrefixed(tags[1..]);
    assert parts[1..] == Prefixed(tags[1..]);
    assert forall i :: 0 <= i < |parts| ==> ',' !in parts[i] by {
      assert forall i :: 1 <= i < |parts| ==> parts[i] == Prefixed(tags[1..])[i - 1];
    }
    CleanTagsCons(parts);
    assert [tags[0]] + tags[1..] == tags;
  }

  /**
   * An answer in the requested format gives back exactly the summary and
   * the tags it was written from.
   */
  lemma {:induction false} ParseFormatted(summary: string, tags: seq<string>)
    requires FormattableSummary(summary) && FormattableTags(tags)
    ensures Parse(FormatAnswer(summary, tags)) == Parsed(summary, tags)
  {
    FormattedLines(summary, tags);
    ScanFormatted(summary, tags);
  }

  lemma {:induction false} ScanFormatted(summary: string, tags: seq<string>)
    requires FormattableSummary(summary) && FormattableTags(tags)
    ensures Scan([SummaryMarker + " " + summary, TagMarker + " [" + Join(tags, ", ") + "]"])
      == Parsed(summary, tags)
  {
    var line1 := SummaryMarker + " " + summary;
    var line2 := TagMarker + " [" + Join(tags, ", ") + "]";
    ScanTwo(line1, line2);
    assert Step(Parsed("", []), line1) == Parsed(summary, []) by {
      SummaryLine(summary);
    }
    assert Step(Parsed(summary, []), line2) == Parsed(summary, tags) by {
      FormattedTags(tags);
    }
  }

  lemma {:induction false} ScanTwo(line1: string, line2: string)
    ensures Scan([line1, line2]) == Step(Step(Parsed("", []), line1), line2)
  {
    var lines := [line1, line2];
    ScanOneMore(lines, 0);
    ScanOneMore(lines, 1);
    assert lines[..0] == [] && lines[..2] == lines;
  }

  /** A formatted answer has two lines: the summary line and the tag line. */
  lemma {:induction false} FormattedLines(summary: string, tags: seq<string>)
    requires FormattableSummary(summary) && FormattableTags(tags)
    ensures Lines(FormatAnswer(summary, tags))
      == [SummaryMarker + " " + summary, TagMarker + " [" + Join(tags, ", ") + "]"]
  {
    var line1 := SummaryMarker + " " + summary;
    var line2 := TagMarker + " [" + Join(tags, ", ") + "]";
    FormattedStripped(summary, tags);
    assert FormatAnswer(summary, tags) == line1 + "\n" + line2;
    assert '\n' !in line1;
    assert '\n' !in line2 by {
      JoinAvoids(tags, ", ", '\n');
    }
    SplitAfterHead(line1, '\n', line2);
    SplitNoSeparator(line2, '\n');
  }

  lemma {:induction false} FormattedStripped(summary: string, tags: seq<string>)
    ensures Strip(FormatAnswer(summary, tags)) == FormatAnswer(summary, tags)
  {
    var answer := FormatAnswer(summary, tags);
    assert !IsSpace(answer[0]) by {
      assert answer[0] == '요';
    }
    assert !IsSpace(answer[|answer| - 1]) by {
      assert answer[|answer| - 1] == ']';
    }
    StripUnchanged(answer);
  }

  /** The tag line of a formatted answer gives the tags and leaves the summary alone. */
  lemma {:induction false} FormattedTags(tags: seq<string>)
    requires FormattableTags(tags)
    ensures var line := TagMarker + " [" + Join(tags, ", ") + "]";
      && Strip(line) == line && !StartsWith(line, SummaryMarker) && StartsWith(line, TagMarker)
      && TagsOfLine(line) == tags
  {
    var joined := Join(tags, ", ");
    var line := TagMarker + " [" + joined + "]";
    JoinAvoids(tags, ", ", '[');
    JoinAvoids(tags, ", ", ']');
    TagLine(joined);
    assert TagsOfLine(line) == CleanTags(Split(joined, ',')) == tags by {
      SplitJoinedTags(tags);
    }
  }

  /** Splitting `", ".join(tags)` on commas and cleaning the pieces gives back clean tags. */
  lemma {:induction false} SplitJoinedTags(tags: seq<string>)
    requires AllClean(tags)
    ensures CleanTags(Split(Join(tags, ", "), ',')) == tags
  {
    if tags == [] {
      assert Split(Join(tags, ", "), ',') == [""];
    } else {
      JoinSpaced(tags);
      CleanTagsSpaced(tags);
      SplitJoin(Spaced(tags), ',');
    }
  }

  /** The summary line of a formatted answer gives the summary. */
  lemma {:induction false} SummaryLine(summary: string)
    requires FormattableSummary(summary)
    ensures var line := SummaryMarker + " " + summary;
      Strip(line) == line && StartsWith(line, SummaryMarker) && SummaryOfLine(line) == summary
  {
    SummaryMarkerRemoved(summary);
    SummaryLineStripped(summary);
    StripLeadingSpace(summary);
  }

  lemma {:induction false} SummaryMarkerRemoved(summary: string)
    requires FormattableSummary(summary)
    ensures RemoveAll(SummaryMarker + " " + summary, SummaryMarker) == " " + summary
  {
    var line := SummaryMarker + " " + summary;
    AbsentWrapped(" ", summary, [], SummaryMarker);
    assert " " + summary + [] == line[|SummaryMarker|..];
    RemoveLeading(line, SummaryMarker);
  }

  lemma {:induction false} SummaryLineStripped(summary: string)
    requires FormattableSummary(summary)
    ensures Strip(SummaryMarker + " " + summary) == SummaryMarker + " " + summary
  {
    var line := SummaryMarker + " " + summary;
    assert !IsSpace(line[0]) by {
      assert line[0] == '요';
    }
    assert !IsSpace(line[|line| - 1]) by {
      assert line[|line| - 1] == summary[|summary| - 1];
    }
    StripUnchanged(line);
  }

  /** The tag line of a formatted answer gives the joined tags, brackets removed. */
  lemma {:induction false} TagLine(joined: string)
    requires !Occurs(joined, TagMarker) && '[' !in joined && ']' !in joined
    ensures var line := TagMarker + " [" + joined + "]";
      Strip(line) == line && StartsWith(line, TagMarker) && !StartsWith(line, SummaryMarker)
      && Trim(Strip(RemoveAll(line, TagMarker)), IsBracket) == joined
  {
    TagMarkerRemoved(joined);
    TagLineStripped(joined);
    assert (TagMarker + " [" + joined + "]")[0] != SummaryMarker[0];
    StripLeadingSpace("[" + joined + "]");
    BracketsTrimmed(joined);
  }

  lemma {:induction false} TagMarkerRemoved(joined: string)
    requires !Occurs(joined, TagMarker)
    ensures RemoveAll(TagMarker + " [" + joined + "]", TagMarker) == " " + ("[" + joined + "]")
  {
    var line := TagMarker + " [" + joined + "]";
    AbsentWrapped(" [", joined, "]", TagMarker);
    assert " [" + joined + "]" == line[|TagMarker|..] == " " + ("[" + joined + "]");
    RemoveLeading(line, TagMarker);
  }

  lemma {:induction false} TagLineStripped(joined: string)
    ensures Strip(TagMarker + " [" + joined + "]") == TagMarker + " [" + joined + "]"
  {
    var line := TagMarker + " [" + joined + "]";
    assert !IsSpace(line[0]) by {
      assert line[0] == '태';
    }
    assert !IsSpace(line[|line| - 1]) by {
      assert line[|line| - 1] == ']';
    }
    StripUnchanged(line);
  }

  lemma {:induction false} BracketsTrimmed(joined: string)
    requires '[' !in joined && ']' !in joined
    ensures Trim("[" + joined + "]", IsBracket) == joined
  {
    LeftBracketTrimmed(joined);
    RightBracketTrimmed(joined);
  }

  lemma {:induction false} LeftBracketTrimmed(joined: string)
    requires '[' !in joined && ']' !in joined
    ensures TrimLeft("[" + joined + "]", IsBracket) == (if joined == [] then [] else joined + "]")
  {
    var b := "[" + joined + "]";
    var inner := joined + "]";
    assert b[1..] == inner;
    assert TrimLeft(b, IsBracket) == TrimLeft(inner, IsBracket);
    if joined == [] {
      assert inner[1..] == [];
    } else {
      assert inner[0] == joined[0] && !IsBracket(joined[0]);
    }
  }

  lemma {:induction false} RightBracketTrimmed(joined: string)
    requires '[' !in joined && ']' !in joined
    ensures TrimRight(joined + "]", IsBracket) == joined
  {
    var inner := joined + "]";
    assert inner[..|inner| - 1] == joined;
    assert TrimRight(inner, IsBracket) == TrimRight(joined, IsBracket);
    if joined != [] {
      assert !IsBracket(joined[|joined| - 1]);
    }
  }

  /**
   * `_create_summary_prompt`: the head naming title and URL, the content
   * verbatim, then the request for the `요약:`/`태그:` answer format.
   */
  function SummaryPrompt(title: string, content: string, url: string): (p: string)
    ensures StartsWith(p, SummaryPromptHead(title, url))
    ensures OccursAt(p, content, |SummaryPromptHead(title, url)|)
    ensures |p| == |SummaryPromptHead(title, url)| + |content| + |SummaryPromptTail|
    ensures p[|p| - |SummaryPromptTail|..] == SummaryPromptTail
  {
    var head := SummaryPromptHead(title, url);
    var p := head + content + SummaryPromptTail;
    assert p[|head|..|head| + |content|] == content;
    p
  }

  /** The fixed instruction that opens the summary prompt, up to the title. */
  const SummaryPromptIntro: string := "\n다음 웹 컨텐츠를 분석하여 한국어로 요약하고 태그를 생성해주세요.\n\n제목: "

  /** The head of the summary prompt: the instruction, then the title and the URL on labelled lines. */
  function SummaryPromptHead(title: string, url: string): (h: string)
    ensures StartsWith(h, SummaryPromptIntro)
    ensures OccursAt(h, title, |SummaryPromptIntro|)
    ensures OccursAt(h, url, |SummaryPromptIntro| + |title| + 6)
    ensures |h| == |SummaryPromptIntro| + |title| + |url| + 11
  {
    var h := SummaryPromptIntro + title + "\nURL: " + url + "\n내용:\n";
    assert h[|SummaryPromptIntro|..|SummaryPromptIntro| + |title|] == title;
    var k := |SummaryPromptIntro| + |title| + 6;
    assert h[k..k + |url|] == url;
    h
  }

  /** The requests of the summary prompt, up to the example answer. */
  const FormatRequest: string :=
    "\n\n요청사항:\n1. 핵심 내용을 3-4문장으로 간결하게 요약\n2. 관련 키워드/태그 5개 이하 추출 (한국어)\n"
    + "3. 아래 형식으로 응답:\n\n"

  /** The placeholders of the example answer the summary prompt shows. */
  const ExampleSummary: string := "[여기에 요약 내용]"
  const ExampleTags: seq<string> := ["태그1", "태그2", "태그3", "태그4", "태그5"]

  /** The cautions that close the summary prompt. */
  const Cautions: string := "\n\n주의사항:\n- 정확한 정보만 포함\n- 광고성 내용 제외\n- 객관적 관점 유지\n"

  /** Everything after the content: the requests, the example answer and the cautions. */
  const SummaryPromptTail: string := FormatRequest + FormatAnswer(ExampleSummary, ExampleTags) + Cautions

  /**
   * The example answer in the summary prompt is written in the format the
   * parser reads back: a formattable summary and five formattable tags,
   * so `ParseFormatted` applies to an answer that follows it.
   */
  lemma {:induction false} SummaryPromptShowsFormat()
    ensures OccursAt(SummaryPromptTail, FormatAnswer(ExampleSummary, ExampleTags), |FormatRequest|)
    ensures FormattableSummary(ExampleSummary) && FormattableTags(ExampleTags)
  {
    var example := FormatAnswer(ExampleSummary, ExampleTags);
    assert SummaryPromptTail[|FormatRequest|..|FormatRequest| + |example|] == example;
    ExampleSummaryFormattable();
    ExampleTagsFormattable();
  }

  lemma {:induction false} ExampleSummaryFormattable()
    ensures FormattableSummary(ExampleSummary)
  {
    forall k | 0 <= k <= |ExampleSummary| - |SummaryMarker|
      ensures !OccursAt(ExampleSummary, SummaryMarker, k)
    {
      assert ExampleSummary[k + 2] != SummaryMarker[2];
    }
  }

  lemma {:induction false} ExampleTagsFormattable()
    ensures FormattableTags(ExampleTags)
  {
    var tags := ExampleTags;
    forall i | 0 <= i < |tags|
      ensures CleanTag(tags[i]) && ':' !in tags[i]
      ensures '\n' !in tags[i] && '[' !in tags[i] && ']' !in tags[i]
    {
      assert tags[i] == "태그" + [tags[i][2]] && '0' <= tags[i][2] <= '9';
    }
    assert AllClean(tags);
    NoTagMarkerInJoin(tags);
  }

  /** Tags without a colon joined by `", "` hold no `태그:`. */
  lemma {:induction false} NoTagMarkerInJoin(tags: seq<string>)
    requires forall i :: 0 <= i < |tags| ==> ':' !in tags[i]
    ensures !Occurs(Join(tags, ", "), TagMarker)
  {
    var joined := Join(tags, ", ");
    JoinAvoids(tags, ", ", ':');
    forall k | 0 <= k <= |joined| - |TagMarker|
      ensures !OccursAt(joined, TagMarker, k)
    {
      assert joined[k + 2] in joined;
    }
  }

  /**
   * `summarize_content`: prompt with the first 4000 characters of the
   * content, parse the answer; an error becomes a failure carrying
   * `"AI 요약 실패: "` and the error's text.
   */
  function SummarizeContent(content: string, title: string, url: string, model: Model): (r: SummaryResult)
    ensures var answer := model(SummaryPrompt(title, Take(content, MaxPromptContent), url));
      && (r.Summarized? <==> answer.Completed?)
      && (r.Summarized? ==> Parsed(r.summary, r.tags) == Parse(answer.text) && r.tokenUsed == answer.usage.totalTokens)
      && (r.SummaryFailed? ==> r.error == "AI 요약 실패: " + answer.message)
  {
    match model(SummaryPrompt(title, Take(content, MaxPromptContent), url))
    case Completed(text, usage) =>
      var p := Parse(text);
      Summarized(p.summary, p.tags, usage.totalTokens)
    case Raised(message) => SummaryFailed("AI 요약 실패: " + message)
  }

  /** Contents that agree on their first 4000 characters are summarised alike. */
  lemma {:induction false} SummaryUsesOnlyPrefix(c1: string, c2: string, title: string, url: string, model: Model)
    requires Take(c1, MaxPromptContent) == Take(c2, MaxPromptContent)
    ensures SummarizeContent(c1, title, url, model) == SummarizeContent(c2, title, url, model)
  {
  }

  /** `generate_response`: the answer and its token usage, or the error as a failure. */
  function GenerateResponse(prompt: string, model: Model): (r: GenerationResult)
    ensures r.Generated? <==> model(prompt).Completed?
    ensures r.Generated? ==> r.response == model(prompt).text && r.usage == model(prompt).usage
    ensures r.GenerationFailed? ==> r.error == model(prompt).message
  {
    match model(prompt)
    case Completed(text, usage) => Generated(text, usage)
    case Raised(message) => GenerationFailed(message)
  }

  /** The fixed request that closes the tags prompt. */
  const TagsRequest: string := "\n\n위 내용과 관련된 한국어 키워드 5개를 생성해주세요.\n형식: 키워드1, 키워드2, 키워드3, 키워드4, 키워드5\n"

  /** The prompt of `generate_tags_only`: title and summary on their own labelled lines, then the request. */
  function TagsPrompt(title: string, summary: string): (prompt: string)
    ensures StartsWith(prompt, "\n제목: " + title + "\n요약: " + summary)
    ensures |prompt| == |title| + |summary| + |TagsRequest| + 10
    ensures prompt[|prompt| - |TagsRequest|..] == TagsRequest
  {
    "\n제목: " + title + "\n요약: " + summary + TagsRequest
  }

  /** `[tag.strip() for tag in parts]`. */
  function StripAll(parts: seq<string>): (r: seq<string>)
    ensures |r| == |parts|
    ensures forall i :: 0 <= i < |r| ==> r[i] == Strip(parts[i])
  {
    seq(|parts|, i requires 0 <= i < |parts| => Strip(parts[i]))
  }

  /** Stripped comma-free pieces are comma-free and stripped. */
  lemma {:induction false} StrippedPieces(parts: seq<string>)
    requires forall i :: 0 <= i < |parts| ==> ',' !in parts[i]
    ensures forall i :: 0 <= i < |parts| ==> ',' !in StripAll(parts)[i] && Strip(StripAll(parts)[i]) == StripAll(parts)[i]
  {
    forall i | 0 <= i < |parts|
      ensures ',' !in StripAll(parts)[i] && Strip(StripAll(parts)[i]) == StripAll(parts)[i]
    {
      StripKeeps(parts[i], ',');
      StripIdempotent(parts[i]);
    }
  }

  /**
   * `generate_tags_only`: the stripped answer split on commas, each piece
   * stripped (empty pieces are kept), first five; `["일반"]` on failure.
   */
  function GenerateTagsOnly(title: string, summary: string, model: Model): (tags: seq<string>)
    ensures 1 <= |tags| <= MaxTags
    ensures forall i :: 0 <= i < |tags| ==> ',' !in tags[i] && Strip(tags[i]) == tags[i]
    ensures model(TagsPrompt(title, summary)).Raised? ==> tags == [FallbackTag]
    ensures model(TagsPrompt(title, summary)).Completed? ==>
      var pieces := Split(Strip(model(TagsPrompt(title, summary)).text), ',');
      && |tags| == (if |pieces| <= MaxTags then |pieces| else MaxTags)
      && forall i :: 0 <= i < |tags| ==> tags[i] == Strip(pieces[i])
  {
    match model(TagsPrompt(title, summary))
    case Completed(text, _) =>
      var stripped := StripAll(Split(Strip(text), ','));
      StrippedPieces(Split(Strip(text), ','));
      if |stripped| <= MaxTags then stripped else stripped[..MaxTags]
    case Raised(_) => [FallbackTag]
  }

  /**
   * An answer in the requested format, one to five clean tags joined by
   * `", "`, gives back exactly those tags.
   */
  lemma {:induction false} GenerateTagsOnlyRoundTrip(title: string, summary: string, model: Model,
                                                     tags: seq<string>, usage: Usage)
    requires 1 <= |tags| <= MaxTags && AllClean(tags)
    requires model(TagsPrompt(title, summary)) == Completed(Join(tags, ", "), usage)
    ensures GenerateTagsOnly(title, summary, model) == tags
  {
    var text := Join(tags, ", ");
    JoinedTagsStripped(tags);
    JoinSpaced(tags);
    CleanTagsSpaced(tags);
    SplitJoin(Spaced(tags), ',');
    StripSpaced(tags);
  }

  /** Clean tags joined by `", "` have nothing to strip. */
  lemma {:induction false} JoinedTagsStripped(tags: seq<string>)
    requires tags != [] && AllClean(tags)
    ensures Strip(Join(tags, ", ")) == Join(tags, ", ")
  {
    var text := Join(tags, ", ");
    var last := tags[|tags| - 1];
    assert CleanTag(tags[0]) && CleanTag(last);
    JoinEndsWith(tags, ", ");
    assert text[0] == tags[0][0];
    assert text[|text| - 1] == last[|last| - 1];
    StripUnchanged(text);
  }

  /** Stripping the pieces of clean tags joined by `", "` gives back the tags. */
  lemma {:induction false} StripSpaced(tags: seq<string>)
    requires tags != [] && AllClean(tags)
    ensures StripAll(Spaced(tags)) == tags
  {
    var parts := Spaced(tags);
    forall i | 0 <= i < |tags|
      ensures Strip(parts[i]) == tags[i]
    {
      assert CleanTag(tags[i]);
      CleanIsStripped(tags[i]);
      if i == 0 {
        StripUnchanged(tags[0]);
      } else {
        assert parts[i] == " " + tags[i];
        StripLeadingSpace(tags[i]);
      }
    }
  }
}
