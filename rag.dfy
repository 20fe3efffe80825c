/**
 * The question-answering pipeline (app/services/rag_service.py): retrieve
 * the user's most similar contents, pack them into a context under a
 * character budget, prompt the model with context and question, and
 * report the answer with its sources and a confidence figure.
 */
module Rag {
  import opened Wrappers
  import opened Text
  import opened Embedding
  import opened Vectors
  import opened Ai

  /** Character budget of the context (block lengths only, separators not counted). */
  const MaxContextLength: nat := 3000

  /** What separates two blocks of the context. */
  const BlockSeparator: string := "\n---\n"

  /** Retrieval parameters of `ask_question`. */
  const SearchLimit: nat := 5
  const SearchThreshold: real := 0.4

  const NoContentAnswer: string := "죄송합니다. 질문과 관련된 저장된 내용을 찾을 수 없습니다. 더 많은 컨텐츠를 저장해보세요."
  const GenerationFailedAnswer: string := "답변 생성 중 오류가 발생했습니다."
  const ErrorAnswer: string := "죄송합니다. 답변 생성 중 오류가 발생했습니다."

  /** One cited source of an answer. */
  datatype Source = Source(contentId: int, title: string, similarityScore: real)

  /** What `ask_question` returns. */
  datatype Response = Response(answer: string, sources: seq<Source>, confidence: real)

  /** The context block of one retrieved content. */
  function Block(c: SearchResult): (b: string)
    ensures StartsWith(b, "제목: " + c.title + "\n요약: " + c.summary + "\n태그: ")
    ensures |b| == |c.title| + |c.summary| + |Join(c.tags, ", ")| + 15
  {
    "제목: " + c.title + "\n요약: " + c.summary + "\n태그: " + Join(c.tags, ", ") + "\n"
  }

  /** The blocks of `contents`, in order. */
  function Blocks(contents: seq<SearchResult>): (bs: seq<string>)
    ensures |bs| == |contents|
    ensures forall i :: 0 <= i < |bs| ==> bs[i] == Block(contents[i])
  {
    seq(|contents|, i requires 0 <= i < |contents| => Block(contents[i]))
  }

  /**
   * The blocks `_build_context` keeps once `used` characters are spent:
   * take blocks in order while the running total stays within the budget,
   * and stop at the first that would exceed it.
   */
  function Packed(contents: seq<SearchResult>, used: nat): (blocks: seq<string>)
    ensures |blocks| <= |contents|
    ensures blocks == [] <==> contents == [] || used + |Block(contents[0])| > MaxContextLength
    decreases |contents|
  {
    if contents == [] || used + |Block(contents[0])| > MaxContextLength then []
    else [Block(contents[0])] + Packed(contents[1..], used + |Block(contents[0])|)
  }

  /** How many blocks `Packed` keeps. */
  function FitCount(contents: seq<SearchResult>, used: nat): (k: nat)
    ensures k <= |contents|
    decreases |contents|
  {
    if contents == [] || used + |Block(contents[0])| > MaxContextLength then 0
    else 1 + FitCount(contents[1..], used + |Block(contents[0])|)
  }

  /**
   * `_build_context`: append blocks while the running length stays within
   * 3000 characters, stop at the first one that does not fit, and join the
   * kept blocks with `"\n---\n"`.
   */
  method BuildContext(contents: seq<SearchResult>) returns (context: string)
    ensures context == Join(Packed(contents, 0), BlockSeparator)
  {
    var parts: seq<string> := [];
    var current: nat := 0;
    var i := 0;
    while i < |contents|
      invariant 0 <= i <= |contents|
      invariant Packed(contents, 0) == parts + Packed(contents[i..], current)
    {
      var text := Block(contents[i]);
      if current + |text| > MaxContextLength {
        assert Packed(contents[i..], current) == [];
        break;
      }
      assert contents[i..][1..] == contents[i + 1..];
      parts := parts + [text];
      current := current + |text|;
      i := i + 1;
    }
    if i == |contents| {
      assert contents[i..] == [];
    }
    assert parts + [] == parts;
    context := Join(parts, BlockSeparator);
  }

  /** The kept blocks are the blocks of a prefix of the contents, in order. */
  lemma {:induction false} PackedIsPrefix(contents: seq<SearchResult>, used: nat)
    ensures Packed(contents, used) == Blocks(contents[..FitCount(contents, used)])
    decreases |contents|
  {
    if contents != [] && used + |Block(contents[0])| <= MaxContextLength {
      var rest := contents[1..];
      var k := FitCount(rest, used + |Block(contents[0])|);
      PackedIsPrefix(rest, used + |Block(contents[0])|);
      assert contents[..k + 1] == [contents[0]] + rest[..k];
    }
  }

  /** Within budget: the kept blocks never bring the running total over 3000. */
  lemma {:induction false} PackedWithinBudget(contents: seq<SearchResult>, used: nat)
    requires used <= MaxContextLength
    ensures used + TotalLength(Packed(contents, used)) <= MaxContextLength
    decreases |contents|
  {
    if contents != [] && used + |Block(contents[0])| <= MaxContextLength {
      var p := Packed(contents, used);
      PackedWithinBudget(contents[1..], used + |Block(contents[0])|);
      assert p[1..] == Packed(contents[1..], used + |Block(contents[0])|);
    }
  }

  /**
   * No skipping: when some block is left out, the first one left out
   * would have overflowed the budget after the kept ones.
   */
  lemma {:induction false} PackedStopsAtOverflow(contents: seq<SearchResult>, used: nat)
    requires FitCount(contents, used) < |contents|
    ensures var k := FitCount(contents, used);
      used + TotalLength(Packed(contents, used)) + |Block(contents[k])| > MaxContextLength
    decreases |contents|
  {
    if used + |Block(contents[0])| <= MaxContextLength {
      var p := Packed(contents, used);
      PackedStopsAtOverflow(contents[1..], used + |Block(contents[0])|);
      assert p[1..] == Packed(contents[1..], used + |Block(contents[0])|);
    }
  }

  /** When the whole list fits, every block is kept. */
  lemma {:induction false} PackedAllWhenFits(contents: seq<SearchResult>, used: nat)
    requires used + TotalLength(Blocks(contents)) <= MaxContextLength
    ensures Packed(contents, used) == Blocks(contents)
    decreases |contents|
  {
    if contents != [] {
      var bs := Blocks(contents);
      assert bs[1..] == Blocks(contents[1..]);
      PackedAllWhenFits(contents[1..], used + |Block(contents[0])|);
    }
  }

  /** The context is empty for no contents or when the first block alone is over budget. */
  lemma {:induction false} EmptyContext(contents: seq<SearchResult>)
    requires contents == [] || |Block(contents[0])| > MaxContextLength
    ensures Join(Packed(contents, 0), BlockSeparator) == ""
  {
  }

  /**
   * The context is at most 3000 characters plus five for each separator
   * between its k blocks.
   */
  lemma {:induction false} ContextLength(contents: seq<SearchResult>)
    ensures var k := |Packed(contents, 0)|;
      k >= 1 ==> |Join(Packed(contents, 0), BlockSeparator)| <= MaxContextLength + |BlockSeparator| * (k - 1)
  {
    var p := Packed(contents, 0);
    PackedWithinBudget(contents, 0);
    if |p| >= 1 {
      JoinLength(p, BlockSeparator);
    }
  }

  const PromptHead: string :=
    "당신은 사용자의 개인 지식 어시스턴트입니다. 아래 제공된 컨텍스트를 바탕으로 질문에 답변해주세요.\n\n**컨텍스트:**\n"
  const QuestionLabel: string := "\n\n**질문:** "
  const PromptTail: string :=
    "\n\n**답변 가이드라인:**\n1. 제공된 컨텍스트만을 사용하여 답변하세요\n2. 컨텍스트에 없는 정보는 추측하지 마세요\n"
    + "3. 답변이 불확실하다면 솔직히 말하세요\n4. 가능한 구체적이고 유용한 답변을 제공하세요\n5. 한국어로 답변하세요\n\n**답변:**"

  /** `_create_rag_prompt`: the context and the question, verbatim, at fixed places in a fixed frame. */
  function RagPrompt(question: string, context: string): (p: string)
    ensures StartsWith(p, PromptHead)
    ensures OccursAt(p, context, |PromptHead|)
    ensures OccursAt(p, QuestionLabel, |PromptHead| + |context|)
    ensures OccursAt(p, question, |PromptHead| + |context| + |QuestionLabel|)
    ensures |p| == |PromptHead| + |context| + |QuestionLabel| + |question| + |PromptTail|
    ensures p[|p| - |PromptTail|..] == PromptTail
  {
    PromptParts(PromptHead, context, QuestionLabel, question, PromptTail);
    PromptHead + context + QuestionLabel + question + PromptTail
  }

  /** Where each of five concatenated strings sits in the whole. */
  lemma {:induction false} PromptParts(a: string, b: string, c: string, d: string, e: string)
    ensures var p := a + b + c + d + e;
      && StartsWith(p, a)
      && OccursAt(p, b, |a|)
      && OccursAt(p, c, |a| + |b|)
      && OccursAt(p, d, |a| + |b| + |c|)
      && |p| == |a| + |b| + |c| + |d| + |e|
      && p[|p| - |e|..] == e
  {
    var p := a + b + c + d + e;
    assert p[|a|..|a| + |b|] == b;
    assert p[|a| + |b|..|a| + |b| + |c|] == c;
    assert p[|a| + |b| + |c|..|a| + |b| + |c| + |d|] == d;
  }

  function MinReal(a: real, b: real): (m: real)
    ensures m <= a && m <= b && (m == a || m == b)
  {
    if a <= b then a else b
  }

  /** Sum of the similarity scores. */
  function ScoreSum(contents: seq<SearchResult>): real
  {
    if contents == [] then 0.0 else contents[0].similarityScore + ScoreSum(contents[1..])
  }

  /**
   * `_calculate_confidence`: 0.0 without contents, otherwise the average
   * score plus 0.1 per content (at most 0.3), capped at 1.0.
   */
  function Confidence(contents: seq<SearchResult>): (c: real)
    ensures contents == [] ==> c == 0.0
    ensures c <= 1.0
  {
    if contents == [] then 0.0
    else
      var n := |contents| as real;
      MinReal(ScoreSum(contents) / n + MinReal(0.1 * n, 0.3), 1.0)
  }

  lemma {:induction false} ScoreSumNonNegative(contents: seq<SearchResult>)
    requires forall i :: 0 <= i < |contents| ==> contents[i].similarityScore >= 0.0
    ensures ScoreSum(contents) >= 0.0
    decreases |contents|
  {
    if contents != [] {
      ScoreSumNonNegative(contents[1..]);
    }
  }

  /** With non-negative scores the confidence is non-negative. */
  lemma {:induction false} ConfidenceNonNegative(contents: seq<SearchResult>)
    requires forall i :: 0 <= i < |contents| ==> contents[i].similarityScore >= 0.0
    ensures Confidence(contents) >= 0.0
  {
    if contents != [] {
      ScoreSumNonNegative(contents);
      var n := |contents| as real;
      assert ScoreSum(contents) / n >= 0.0;
    }
  }

  /** Changing one score changes the sum by the difference. */
  lemma {:induction false} ScoreSumUpdate(contents: seq<SearchResult>, i: nat, score: real)
    requires i < |contents|
    ensures ScoreSum(contents[i := contents[i].(similarityScore := score)])
      == ScoreSum(contents) - contents[i].similarityScore + score
    decreases |contents|
  {
    var updated := contents[i := contents[i].(similarityScore := score)];
    if i > 0 {
      assert updated[1..] == contents[1..][i - 1 := contents[i].(similarityScore := score)];
      ScoreSumUpdate(contents[1..], i - 1, score);
    } else {
      assert updated[1..] == contents[1..];
    }
  }

  /** Raising one score never lowers the confidence. */
  lemma {:induction false} ConfidenceMonotone(contents: seq<SearchResult>, i: nat, score: real)
    requires i < |contents| && score >= contents[i].similarityScore
    ensures Confidence(contents[i := contents[i].(similarityScore := score)]) >= Confidence(contents)
  {
    var updated := contents[i := contents[i].(similarityScore := score)];
    ScoreSumUpdate(contents, i, score);
    var n := |contents| as real;
    DivideMonotone(ScoreSum(contents), ScoreSum(updated), n);
  }

  lemma {:induction false} DivideMonotone(a: real, b: real, n: real)
    requires a <= b && n > 0.0
    ensures a / n <= b / n
  {
    assert b / n - a / n == (b - a) / n;
  }

  /** With every score equal to `s`, the confidence is `min(s + min(0.1·n, 0.3), 1.0)`. */
  lemma {:induction false} ConfidenceUniform(contents: seq<SearchResult>, s: real)
    requires contents != []
    requires forall i :: 0 <= i < |contents| ==> contents[i].similarityScore == s
    ensures var n := |contents| as real;
      Confidence(contents) == MinReal(s + MinReal(0.1 * n, 0.3), 1.0)
  {
    UniformSum(contents, s);
    var n := |contents| as real;
    assert ScoreSum(contents) / n == s;
  }

  lemma {:induction false} UniformSum(contents: seq<SearchResult>, s: real)
    requires forall i :: 0 <= i < |contents| ==> contents[i].similarityScore == s
    ensures ScoreSum(contents) == |contents| as real * s
    decreases |contents|
  {
    if contents != [] {
      UniformSum(contents[1..], s);
    }
  }

  /** The sources of an answer: content id, title and score of each retrieved content, in order. */
  function Sources(contents: seq<SearchResult>): (sources: seq<Source>)
    ensures |sources| == |contents|
    ensures forall i :: 0 <= i < |sources| ==>
      sources[i] == Source(contents[i].contentId, contents[i].title, contents[i].similarityScore)
  {
    seq(|contents|, i requires 0 <= i < |contents| =>
      Source(contents[i].contentId, contents[i].title, contents[i].similarityScore))
  }

  /**
   * What `ask_question` answers for the retrieved `contents`: the fixed
   * no-content reply when nothing was retrieved; the fixed failure reply
   * when generation fails; otherwise the model's answer, one source per
   * retrieved content and the confidence.
   */
  function Respond(question: string, contents: seq<SearchResult>, model: Model): (r: Response)
    ensures contents == [] ==> r == Response(NoContentAnswer, [], 0.0)
    ensures contents != [] ==>
      var generated := GenerateResponse(RagPrompt(question, Join(Packed(contents, 0), BlockSeparator)), model);
      && (generated.GenerationFailed? ==> r == Response(GenerationFailedAnswer, [], 0.0))
      && (generated.Generated? ==>
            r == Response(generated.response, Sources(contents), Confidence(contents)))
  {
    if contents == [] then Response(NoContentAnswer, [], 0.0)
    else
      var prompt := RagPrompt(question, Join(Packed(contents, 0), BlockSeparator));
      match GenerateResponse(prompt, model)
      case GenerationFailed(_) => Response(GenerationFailedAnswer, [], 0.0)
      case Generated(text, _) => Response(text, Sources(contents), Confidence(contents))
  }

  /**
   * A reply cites no sources exactly when it carries no confidence from
   * retrieval: then the confidence is 0; a reply with sources cites every
   * retrieved content; the confidence never exceeds 1.
   */
  lemma {:induction false} ResponseShape(question: string, contents: seq<SearchResult>, model: Model)
    ensures var r := Respond(question, contents, model);
      && (r.sources == [] ==> r.confidence == 0.0)
      && (r.sources != [] ==> |r.sources| == |contents|)
      && r.confidence <= 1.0
  {
  }

  /** Well-ranked results give at most five sources, none scored under 0.4. */
  lemma {:induction false} RankedSources(question: string, contents: seq<SearchResult>, userId: int, model: Model)
    ensures WellRanked(contents, Some(userId), SearchLimit, SearchThreshold) ==>
      var r := Respond(question, contents, model);
      && |r.sources| <= SearchLimit
      && forall i :: 0 <= i < |r.sources| ==> r.sources[i].similarityScore >= SearchThreshold
  {
  }

  /**
   * `ask_question`: search the asking user's contents (5 at most, score at
   * least 0.4), then answer from what was found.  `crashed` stands for an
   * exception raised anywhere on the way, which gives the apologetic reply.
   */
  method AskQuestion(question: string, userId: int, index: VectorService, encode: Encoder,
                     similarity: (Vector, Vector) -> real, search: Searcher,
                     model: Model, crashed: bool) returns (r: Response)
    ensures var answer := search(GenerateEmbedding(question, encode), SearchFilter(Some(userId)),
                                 SearchLimit, SearchThreshold);
      && (crashed ==> r == Response(ErrorAnswer, [], 0.0))
      && (!crashed ==> r == Respond(question, SearchResults(answer), model))
      && (answer.None? && !crashed ==> r == Response(NoContentAnswer, [], 0.0))
    ensures var query := GenerateEmbedding(question, encode);
      var answer := search(query, SearchFilter(Some(userId)), SearchLimit, SearchThreshold);
      answer.Some? && IsRankedAnswer(index.points, query, similarity, SearchFilter(Some(userId)),
                                     SearchLimit, SearchThreshold, answer.value) ==>
        && |r.sources| <= SearchLimit
        && forall i :: 0 <= i < |r.sources| ==> r.sources[i].similarityScore >= SearchThreshold
  {
    var contents := index.SearchSimilarContents(question, Some(userId), SearchLimit, SearchThreshold,
                                                encode, similarity, search);
    ghost var answer := search(GenerateEmbedding(question, encode), SearchFilter(Some(userId)),
                               SearchLimit, SearchThreshold);
    assert contents == SearchResults(answer);
    RankedSources(question, contents, userId, model);
    if crashed {
      return Response(ErrorAnswer, [], 0.0);
    }
    r := Reply(question, contents, model);
  }

  /** The reply of `ask_question` once the contents are retrieved. */
  method Reply(question: string, contents: seq<SearchResult>, model: Model) returns (r: Response)
    ensures r == Respond(question, contents, model)
  {
    if contents == [] {
      return Response(NoContentAnswer, [], 0.0);
    }
    var context := BuildContext(contents);
    var prompt := RagPrompt(question, context);
    var generated := GenerateResponse(prompt, model);
    if generated.GenerationFailed? {
      return Response(GenerationFailedAnswer, [], 0.0);
    }
    r := Response(generated.response, Sources(contents), Confidence(contents));
  }
}
