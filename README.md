# SmartCurator retrieval and curation core, in Dafny

SmartCurator stores web pages and notes for a user, summarises and tags
them with a language model, indexes them as sentence embeddings in a vector
database, and answers questions from them. This project models the five
services that make up that pipeline and proves properties of each:

- **`rag.dfy` (module `Rag`)** models `app/services/rag_service.py`.
  - `AskQuestion` is the orchestration: retrieve, then reply in one of four ways (no content, generation failed, exception, answer).
  - `BuildContext` is the context packer, a loop with a `break` under a 3000-character budget.
  - `RagPrompt` builds the prompt.
  - `Confidence` is the confidence heuristic.
- **`ai.dfy` (module `Ai`)** models `app/services/ai_service.py`.
  - `ParseAiResponse` is the line-oriented parser of the model's answer. It is a loop, proved against the function `Parse`.
  - Also modelled: the summary prompt, the truncation to 4000 characters, the tag-only post-processing, and the rule that every failing model call becomes a failure value.
- **`embedding.dfy` (module `Embedding`)** models `app/services/embedding_service.py`.
  - Text normalisation: strip, CR/LF to space, collapse whitespace runs, cut to 1000 characters.
  - The all-zero 768-dimensional fallback vector.
- **`vector.dfy` (module `Vectors`)** models `app/services/vector_service.py`.
  - The class `VectorService` holds the index as a map from point id to point.
  - It stores points, searches with an owner-or-public filter, and deletes a content's points.
- **`content.dfy` (module `Contents`)** models `app/services/content_service.py`.
  - The class `ContentService` holds the `contents` table as a sequence of rows in insertion order.
  - Operations: creation, the processing status machine (pending → processing → completed or failed), owner-only update and delete, and the per-user, newest-first, paged listing.
- **`text.dfy` (module `Text`)** holds the Python `str` operations the services use: `strip`, `lstrip`/`rstrip` with a character set, `split(sep)`, `split()`, `join`, `replace`, `startswith` and slicing. It also proves the laws that relate them.
- **`wrappers.dfy`** holds the `Option` and `Result` types.

External systems become parameters, each a function value:

- The OpenAI chat completion is an `Ai.Model`, from the prompt to `Completed(text, usage)` or `Raised(message)`.
- The sentence encoder is an `Embedding.Encoder`, which returns `None` when encoding raises.
- The vector index's search is a `Vectors.Searcher`, from query vector, filter, limit and threshold to an `Option<seq<Hit>>`, where `None` means the index raised. The ghost predicate `Vectors.IsRankedAnswer` states what a correct answer is.
- The answer of the index to the lookup by content id before a deletion is an `Option<seq<PointId>>` argument. The ghost predicate `Vectors.IsContentLookup` states what a correct answer is.
- The scraper is a `Contents.Scraper`.
- New point ids (UUIDs) and the insertion timestamp are arguments.

Floating-point scores are modelled as `real`.

## Model

| member | source | states |
|---|---|---|
| Text.Strip | app/services/embedding_service.py:68 | `str.strip()`: the result is empty exactly when the text is all whitespace; otherwise it neither starts nor ends with whitespace; a text without whitespace at its ends is unchanged |
| Text.Take | app/services/ai_service.py:30 | `s[:n]`: a prefix of `s` of length `min(|s|, n)` |
| Text.Trim | app/services/ai_service.py:175 | `s.strip(chars)`: never longer; empty exactly when every character is dropped; otherwise it neither starts nor ends with a dropped character; unchanged when neither end is dropped |
| Text.Split | app/services/ai_service.py:164 | `s.split(sep)` gives at least one piece, and no piece contains the separator |
| Text.JoinSplit | app/services/ai_service.py:164 | joining the pieces of `s.split(sep)` with `sep` gives back `s` |
| Text.SplitJoin | app/services/ai_service.py:176 | splitting the join of separator-free pieces gives back exactly those pieces |
| Text.JoinLength | app/services/rag_service.py:83 | a joined string is as long as its parts plus one separator between each two parts |
| Text.Join | app/services/rag_service.py:83 | `sep.join(parts)` is `""` for no parts and starts with the first part |
| Text.JoinEndsWith | app/services/rag_service.py:83 | `sep.join(parts)` ends with the last part |
| Text.RemoveAll | app/services/ai_service.py:170 | `s.replace(pat, "")` is never longer than `s` and holds only characters of `s` |
| Text.RemoveAbsent | app/services/ai_service.py:170 | `s.replace(pat, "")` is `s` when `pat` does not occur in `s` |
| Text.ReplaceChar | app/services/embedding_service.py:69 | `s.replace(a, b)` for one character: same length, each `a` becomes `b`, every other character stays |
| Text.Words | app/services/embedding_service.py:70 | every word of `s.split()` is non-empty and holds no whitespace |
| Text.WordsStrip | app/services/embedding_service.py:68-70 | stripping first does not change what `split()` returns |
| Text.WordsReplaceSpace | app/services/embedding_service.py:69-70 | replacing a whitespace character by `' '` does not change what `split()` returns |
| Text.WordsOfJoin | app/services/embedding_service.py:70 | `' '.join(words).split()` gives back the words |
| Text.JoinWordsCollapsed | app/services/embedding_service.py:70 | `' '.join(s.split())` holds only `' '` as whitespace, never two in a row, and none at either end |
| Text.NormalizedNoLonger | app/services/embedding_service.py:70 | `' '.join(s.split())` is never longer than `s` |
| Embedding.Normalized | app/services/embedding_service.py:70 | `' '.join(text.split())` has only single spaces between words and none at the ends, is never longer than `text`, and has the same words as `text`; idempotence is `NormalizedIdempotent` |
| Embedding.ZeroVector | app/services/embedding_service.py:19 | the fallback vector has 768 entries, all `0.0` |
| Embedding.Preprocess | app/services/embedding_service.py:63-76 | the result is at most 1000 characters long; it has no CR or LF, no whitespace other than `' '`, no two spaces in a row and no leading space; it is `""` for empty or whitespace-only text |
| Embedding.PreprocessIsTakeOfNormalized | app/services/embedding_service.py:68-75 | the result is the first 1000 characters of the text's words joined by single spaces |
| Embedding.NormalizedIdempotent | app/services/embedding_service.py:70 | normalising whitespace twice gives the same as normalising once |
| Embedding.PreprocessIdempotentWhenShort | app/services/embedding_service.py:63-76 | when the normalised text fits in 1000 characters, preprocessing the result again changes nothing |
| Embedding.PreprocessAgainDropsTrailingSpace | app/services/embedding_service.py:73-74 | when the cut at 1000 characters leaves a trailing space, preprocessing again gives a strictly shorter text, so preprocessing is not idempotent |
| Embedding.GenerateEmbedding | app/services/embedding_service.py:16-28 | the zero vector for blank text and when the encoder raises; otherwise the encoder's vector for the preprocessed text |
| Embedding.GenerateBatchEmbeddings | app/services/embedding_service.py:30-42 | one vector per text, in input order (none for no texts); all zero vectors when the batch raises, otherwise each text's encoding |
| Embedding.BatchAgreesWithSingle | app/services/embedding_service.py:16-42 | a successful batch gives a non-blank text the same vector as encoding it alone |
| Ai.CleanTags | app/services/ai_service.py:176 | from comma-free pieces: no more tags than pieces, each non-empty, comma-free and without whitespace at either end |
| Ai.CleanTagsOfClean | app/services/ai_service.py:176 | cleaning tags that are already clean gives them back unchanged |
| Ai.SummaryOfLine | app/services/ai_service.py:171 | the summary taken from a line is empty or has no whitespace at either end |
| Ai.TagsOfLine | app/services/ai_service.py:173-176 | every tag taken from a `태그:` line is non-empty, comma-free and stripped |
| Ai.Scan | app/services/ai_service.py:165-176 | the tags held at any point of the loop are clean |
| Ai.Finish | app/services/ai_service.py:178-181 | the summary found is kept when non-empty and replaced by `"요약을 생성할 수 없습니다."` when empty; the tags kept are the first `min(5, n)` of the `n` found |
| Ai.Parse | app/services/ai_service.py:161-181 | the parsed summary is non-empty; at most five tags, each non-empty, comma-free and stripped |
| Ai.Lines | app/services/ai_service.py:163 | at least one line, none holding a line feed, and joining them with `"\n"` gives back the stripped answer |
| Ai.ParseDefaultSummary | app/services/ai_service.py:163-179 | an answer with no line starting with `요약:` gets the default summary |
| Ai.ParseSummaryLine | app/services/ai_service.py:163-179 | the summary is what follows `요약:` on the last such line, or the default summary when that is empty |
| Ai.ParseNoTags | app/services/ai_service.py:163-180 | an answer with no line starting with `태그:` has no tags |
| Ai.ParseTagLine | app/services/ai_service.py:163-180 | the tags are the first five of those on the last line starting with `태그:` |
| Ai.ParseAiResponse | app/services/ai_service.py:161-181 | the loop over lines returns exactly `Parse(response)`: a non-empty summary and at most five clean tags |
| Ai.Settle | app/services/ai_service.py:178-180 | after the loop, the step-by-step fallback to the default summary and the cut to five tags give exactly `Finish` |
| Ai.ReadLine | app/services/ai_service.py:169-176 | one pass of the loop is one `Step` of the parser's state |
| Ai.LastSummaryLineWins | app/services/ai_service.py:168-171 | the summary comes from the last line that starts with `요약:` after stripping |
| Ai.NoSummaryLine | app/services/ai_service.py:165-171 | without a `요약:` line the loop leaves the summary empty, so the default is used |
| Ai.NoTagLine | app/services/ai_service.py:165-175 | without a `태그:` line the loop leaves the tags empty |
| Ai.LastTagLineWins | app/services/ai_service.py:168-176 | the tags come from the last line that starts with `태그:`; later `요약:` lines do not touch them |
| Ai.StepSummary | app/services/ai_service.py:170-171 | only a line starting with `요약:` changes the summary |
| Ai.StepTags | app/services/ai_service.py:170-176 | only a line starting with `태그:` changes the tags; a `요약:` line never does |
| Ai.SummaryLine | app/services/ai_service.py:170-171 | the line `요약: <summary>` is recognised and gives back the summary |
| Ai.TagLine | app/services/ai_service.py:172-175 | the line `태그: [<tags>]` is recognised as a tag line, not a summary line, and gives back the text between the brackets |
| Ai.BracketsTrimmed | app/services/ai_service.py:175 | `strip('[]')` of a bracketed text with no brackets inside gives the inner text |
| Ai.SplitJoinedTags | app/services/ai_service.py:176 | splitting `", ".join(tags)` on commas and cleaning the pieces gives back clean tags |
| Ai.FormattedLines | app/services/ai_service.py:164 | an answer in the requested format splits into its summary line and its tag line |
| Ai.FormattedTags | app/services/ai_service.py:172-176 | the tag line of a formatted answer gives back exactly the tags |
| Ai.ParseFormatted | app/services/ai_service.py:161-181 | an answer written in the format the prompt asks for parses back to the summary and tags it was written from |
| Ai.SummaryPrompt | app/services/ai_service.py:137-159 | the prompt starts with the head naming title and URL, holds the content verbatim right after it, and ends with the fixed requests, example answer and cautions; its length is the sum of the three |
| Ai.SummaryPromptHead | app/services/ai_service.py:139-144 | the head is the fixed instruction, then the title after `제목: ` and the URL after `URL: `, each verbatim at a fixed offset |
| Ai.SummaryPromptShowsFormat | app/services/ai_service.py:150-153 | the example answer the prompt shows is `FormatAnswer` of a formattable summary and five formattable tags, the format `ParseFormatted` reads back |
| Ai.SummarizeContent | app/services/ai_service.py:26-88 | success exactly when the model answers; the summary and tags are then `Parse` of the answer, with its total tokens; otherwise a failure carrying `"AI 요약 실패: "` and the error |
| Ai.SummaryUsesOnlyPrefix | app/services/ai_service.py:30 | contents that agree on their first 4000 characters give the same result |
| Ai.GenerateResponse | app/services/ai_service.py:90-135 | success exactly when the model answers, with its text and usage; otherwise a failure with the error |
| Ai.StripAll | app/services/ai_service.py:218 | every piece stripped, one result per piece |
| Ai.GenerateTagsOnly | app/services/ai_service.py:190-223 | exactly `["일반"]` when the model raises; otherwise the first `min(5, n)` of the `n` comma-separated pieces of the stripped answer, each stripped; always between one and five entries, each comma-free and stripped |
| Ai.TagsPrompt | app/services/ai_service.py:192-198 | the prompt starts with the labelled title and summary lines and ends with the fixed request for five keywords |
| Ai.GenerateTagsOnlyRoundTrip | app/services/ai_service.py:216-218 | an answer that joins one to five clean tags with `", "` gives back exactly those tags |
| Ai.JoinedTagsStripped | app/services/ai_service.py:216 | clean tags joined by `", "` have nothing for `strip()` to remove |
| Ai.StripSpaced | app/services/ai_service.py:217 | stripping the comma-separated pieces of joined clean tags gives back the tags |
| Vectors.SearchText | app/services/vector_service.py:29 | title, summary and the space-joined tags, with one space between each two |
| Vectors.SearchTextWords | app/services/vector_service.py:29-32 | the encoder sees the words of the title, then of the summary, then of the tags |
| Vectors.MakePayload | app/services/vector_service.py:38-46 | the payload copies ids, owner, title, tags and visibility; the summary is a prefix of at most 200 characters (the whole summary when it fits); the search text is a prefix of at most 300 characters |
| Vectors.SearchFilter | app/services/vector_service.py:74-92 | the filter is by owner exactly when the user id is present and not 0 |
| Vectors.FilterAdmits | app/services/vector_service.py:74-92 | a truthy user id admits exactly that user's points, public or not; no user id or 0 admits exactly the public points |
| Vectors.ToResult | app/services/vector_service.py:107-114 | a result copies the payload fields and the score of its hit, unrounded |
| Vectors.SearchResults | app/services/vector_service.py:104-121 | one result per hit in the index's order; none when the index raised |
| Vectors.RankedResults | app/services/vector_service.py:96-114 | formatting a correct index answer gives at most `limit` results, none under the threshold, best first, and only the user's own when the filter is by owner |
| Vectors.PointsOfInsert | app/services/vector_service.py:35-53 | storing a point under a fresh id adds exactly that id to its content's points and changes no other content's points |
| Vectors.Without | app/services/vector_service.py:145-148 | the index keeps every point whose id was not listed, unchanged, and drops the listed ones |
| Vectors.DeleteLookupEffect | app/services/vector_service.py:136-148 | deleting what a correct lookup found keeps every point of other contents, removes at most 10 points, and removes all of the content's points when it had at most 10 |
| Vectors.DeletesAtMostBatch | app/services/vector_service.py:140-148 | deleting distinct ids removes at most as many points as there are ids |
| Vectors.DeletesAllFound | app/services/vector_service.py:136-148 | a correct lookup of a content with at most 10 points leaves none of them after the deletion |
| Vectors.KeepEffect | app/services/vector_service.py:143 | when nothing is deleted, other contents are untouched; and when the lookup correctly found nothing, the content had no points |
| Vectors.VectorService.StoreContentVector | app/services/vector_service.py:17-59 | on success the index gains exactly one new point under the fresh id, holding the embedding of the search text and the payload; a failing upsert leaves the index unchanged |
| Vectors.VectorService.SearchSimilarContents | app/services/vector_service.py:61-121 | the index is asked for the embedded query with `SearchFilter(userId)`, the limit and the threshold; one formatted result per hit of its answer, in order, `[]` when it raises; well ranked and correctly filtered whenever the answer is correct |
| Vectors.VectorService.DeleteContentVector | app/services/vector_service.py:123-152 | no change when the lookup raised, found nothing or the deletion failed; otherwise the found points are removed, with the `DeleteLookupEffect` guarantees when the lookup was correct |
| Rag.Block | app/services/rag_service.py:75 | a block starts with the title, summary and tags header, and its length is the lengths of the title, the summary and the `", "`-joined tags plus 15 |
| Rag.BuildContext | app/services/rag_service.py:69-83 | the loop returns the blocks `Packed` keeps, joined by `"\n---\n"` |
| Rag.Packed | app/services/rag_service.py:74-81 | never more blocks than contents; none exactly when there are no contents or the first block alone would pass the 3000-character budget |
| Rag.PackedIsPrefix | app/services/rag_service.py:74-80 | the kept blocks are the blocks of a prefix of the contents, in input order |
| Rag.PackedWithinBudget | app/services/rag_service.py:77-81 | the kept blocks add up to at most 3000 characters |
| Rag.PackedStopsAtOverflow | app/services/rag_service.py:77-78 | nothing is skipped: the first block left out would have taken the total past 3000 |
| Rag.PackedAllWhenFits | app/services/rag_service.py:74-81 | when all the blocks fit in the budget, all of them are kept |
| Rag.EmptyContext | app/services/rag_service.py:71-83 | the context is `""` for no contents, or when the first block alone is over budget |
| Rag.ContextLength | app/services/rag_service.py:77-83 | the context of k blocks is at most 3000 + 5·(k−1) characters, because the separators are not counted |
| Rag.RagPrompt | app/services/rag_service.py:85-101 | the prompt starts with the fixed head (the assistant instruction and the context label), then holds the context verbatim, the question label and the question verbatim, and ends with the fixed tail holding the answering guidelines and the answer cue; its length is the sum of the five |
| Rag.Confidence | app/services/rag_service.py:103-111 | `0.0` for no contents, and never above 1.0 |
| Rag.ConfidenceNonNegative | app/services/rag_service.py:108-111 | with non-negative scores the confidence is non-negative |
| Rag.ConfidenceMonotone | app/services/rag_service.py:108-111 | raising one score never lowers the confidence |
| Rag.ConfidenceUniform | app/services/rag_service.py:108-111 | with every score equal to `s`, the confidence is `min(s + min(0.1·n, 0.3), 1.0)` |
| Rag.Sources | app/services/rag_service.py:50-57 | one source per retrieved content, in order, with content id, title and score copied unchanged |
| Rag.Respond | app/services/rag_service.py:26-59 | the fixed no-content reply for no contents; the fixed failure reply with no sources and zero confidence when generation fails; otherwise the answer, one source per content and the confidence |
| Rag.ResponseShape | app/services/rag_service.py:26-59 | a reply without sources has zero confidence; a reply with sources cites every retrieved content; no confidence exceeds 1.0 |
| Rag.RankedSources | app/services/rag_service.py:26-59 | results ranked within limit 5 and threshold 0.4 give at most 5 sources, none scored under 0.4 |
| Rag.Reply | app/services/rag_service.py:26-59 | the step-by-step reply code gives exactly `Respond` |
| Rag.AskQuestion | app/services/rag_service.py:15-67 | an exception gives the apologetic reply with no sources and zero confidence; otherwise the reply is `Respond` to the index's answer for the embedded question with the asking user's filter, limit 5 and threshold 0.4, and a failing search gives the no-content reply; with a correct answer at most 5 sources, each scored at least 0.4 |
| Contents.Find | app/services/content_service.py:118-123 | a found position holds a row with that id; `None` means no row has the id |
| Contents.FindUnique | app/services/content_service.py:118-123 | with distinct keys, the row found is the only row with that id |
| Contents.ScrapeStep | app/services/content_service.py:61-73 | a failure exactly when url content with a non-empty URL fails to scrape, which marks the record failed; otherwise only the raw content and title may change; the title changes only from empty or `"웹페이지"` to the scraped title |
| Contents.SummaryStep | app/services/content_service.py:75-90 | without raw content nothing changes; success stores summary and tags and completes the record; failure marks it failed; other fields are untouched |
| Contents.ScrapeInto | app/services/content_service.py:61-73 | the step-by-step scraping code gives exactly `ScrapeStep` |
| Contents.SummarizeInto | app/services/content_service.py:75-90 | the step-by-step summarising code gives exactly `SummaryStep` |
| Contents.Process | app/services/content_service.py:56-95 | a processed record is never pending; it is failed exactly when a failure is reported |
| Contents.ProcessKeepsIdentity | app/services/content_service.py:56-95 | processing keeps id, owner, URL, type, visibility and creation time |
| Contents.ProcessTitle | app/services/content_service.py:67-68 | the title changes only when scraping succeeded and the stored title was empty or `"웹페이지"`, and then it becomes the scraped title |
| Contents.ProcessKeepsRealTitle | app/services/content_service.py:67-68 | a stored title that is neither empty nor the placeholder survives processing |
| Contents.ProcessCompleted | app/services/content_service.py:83-86 | a completed record has a non-empty summary, at most five tags and no failure |
| Contents.ProcessNothingToDo | app/services/content_service.py:58-95 | with nothing to scrape and no raw content, the record stays processing and nothing else changes |
| Contents.ProcessTextContent | app/services/content_service.py:61-90 | text content keeps its raw content and ends completed or failed |
| Contents.Apply | app/services/content_service.py:136-138 | a `None` value or an unknown name changes nothing; a value sets its attribute, for each of the eight attributes |
| Contents.ApplyAll | app/services/content_service.py:136-138 | settings that all carry `None` or an unknown name leave the record as it was |
| Contents.ApplyKeeps | app/services/content_service.py:137-138 | one setting changes only the attribute it assigns |
| Contents.ApplyAllKeeps | app/services/content_service.py:136-138 | applying all settings changes only attributes that some setting assigns; id, owner and creation time never change |
| Contents.Effective | app/services/content_service.py:137 | the settings that carry a value, in order |
| Contents.ApplyAllEffective | app/services/content_service.py:136-138 | dropping the `None` and unknown settings does not change the result |
| Contents.LastTitleWins | app/services/content_service.py:136-138 | the last title given wins |
| Contents.OwnedBy | app/services/content_service.py:111 | exactly the user's rows, with their multiplicities |
| Contents.SortNewestFirst | app/services/content_service.py:112 | a permutation sorted by creation time, newest first |
| Contents.Window | app/services/content_service.py:113-114 | the rows from position `skip` on, at most `limit` of them |
| Contents.Listing | app/services/content_service.py:107-116 | at most `limit` rows, all the user's own rows from the table, newest first |
| Contents.ListingComplete | app/services/content_service.py:109-116 | a first page large enough holds every row of the user, and no other row |
| Contents.ListingPages | app/services/content_service.py:112-114 | every row of the next page is no newer than the last row of this page |
| Contents.RemoveRow | app/services/content_service.py:154-155 | removing the row leaves no row with its key, and the keys stay distinct |
| Contents.ContentService.CreateContent | app/services/content_service.py:19-46 | 400 and no change without a URL or raw text; otherwise appends one pending record with the given fields under a fresh key |
| Contents.ContentService.ProcessContent | app/services/content_service.py:48-105 | 404 and no change for an unknown id; otherwise the row becomes `Process` of it, with a 500 carrying `"컨텐츠 처리 실패: "` and the reason exactly when processing failed |
| Contents.ContentService.UpdateContent | app/services/content_service.py:125-142 | 404 for an unknown id, 403 for another user's record, with no change in either case; otherwise the settings are applied in order and only assigned attributes change |
| Contents.ContentService.DeleteContent | app/services/content_service.py:144-156 | 404 for an unknown id, 403 for another user's record, with no change in either case; otherwise the row is removed, no row has that id any more, and the result is `true` |
| Contents.ContentService.UserContents | app/services/content_service.py:107-116 | at most `limit` of the user's own rows, newest first |

## Left out

- OpenAI calls, the sentence-transformers encoder, the Qdrant client and the scraper are not modelled; they are parameters of the operations. Their network I/O, retries and logging are not modelled.
- `calculate_similarity` (app/services/embedding_service.py:44-61) is left out. It is numpy floating-point arithmetic, and nothing in the core calls it. The similarity the index ranks by is a parameter.
- Scores and confidences are `real`, not IEEE doubles. Rounding in the average is not modelled.
- Ai.SummarizeContent, Ai.GenerateTagsOnly, Ai.GenerateResponse: the model's message content is a string. A `None` content is not modelled. It would make the parser raise in `summarize_content`, make `.strip()` raise in `generate_tags_only` (caught, giving `["일반"]`), and pass through as a successful `None` response in `generate_response`.
- The `except` branch of `_parse_ai_response` (app/services/ai_service.py:183-188) is not modelled. For a string answer nothing in the `try` block raises. For a `None` answer the branch itself raises again.
- Embedding.GenerateBatchEmbeddings: an exception of the batch encoder is modelled as "encoding some text raises". The encoder's `batch_size` has no other effect.
- Vectors.VectorService.StoreContentVector: `uuid4()` is the `freshId` argument, and the model requires it to be new to the index. The index refusing a vector whose size is not 768 is modelled by its own check. `upsertFails` stands for every other failure of the upsert. The source re-raises the exception; the model turns the raise into the `false` result and leaves the index unchanged.
- Vectors.VectorService.SearchSimilarContents: the limit, threshold, order and filter of the results are guaranteed only when the index's answer satisfies `IsRankedAnswer`. The adapter itself only formats what the index returns.
- Vectors.VectorService.DeleteContentVector: the guarantees about which points go hold only when the lookup's answer satisfies `IsContentLookup`. The zero query vector of the lookup is not modelled. A failing lookup or deletion is swallowed, as in the source, and leaves the index unchanged.
- The empty `if search_results` check (app/services/vector_service.py:143) is modelled as "nothing found, nothing deleted".
- Rag.AskQuestion: `crashed` stands for any exception raised on the way and caught at app/services/rag_service.py:61-67. Logging is not modelled.
- Contents.ContentService.ProcessContent: the intermediate commit of the `"processing"` status is not a separate observable state; only the final row is. The final row is stored whether processing succeeded or failed, as the source commits in both cases. Database errors caught by the same `except` are not modelled.
- The database session is not modelled: `commit`, `refresh`, SQL and `updated_at`. The table is a sequence of rows in insertion order, keyed by an `id` the service hands out. A sequence is used rather than a map because the listing needs an order for rows with equal timestamps.
- Contents.Listing: rows with equal `created_at` keep their table order in the model's sort (earlier rows first). SQL leaves their order unspecified, so only the newest-first property is promised.
- Contents.ContentService.UpdateContent: settings of `id`, `user_id`, `created_at`, `updated_at` and `owner`, which `hasattr` also accepts, are not modelled. `SetUnknown` stands for names the record does not have.
- `get_user_contents` takes `skip` and `limit` as natural numbers. Negative values, which SQL would reject, are not modelled.
- The source has no zero-vector guard before a search and no rounding of scores. The model follows the code in both respects.
- The Celery tasks, the HTTP routers, authentication and the frontend are not part of this model.
