# Persona-driven document analysis, modelled in Dafny

The system reads a folder of PDF documents together with a persona and a
job to be done. It does three things:

1. **Extraction.** `src/extractor.py` finds section headings in each document
   from layout cues. Each of the three largest font sizes maps to H1, H2 and
   H3. An all-caps line of fewer than ten words is H2. A line starting with
   `1.` or `IV.` is H3.
2. **Ranking.** `src/analyzer.py` scores every section against the persona
   and job and sorts the sections by score, best first. It scores in one of
   three ways:
   - keyword overlap;
   - embedding similarity;
   - a rating from a local language model.
3. **Summarizing.** `src/summarizer.py` turns each kept section into a short
   refined text. This is either its first two sentences or a summary written
   by the language model.

`main.py` joins the stages. It keeps the top five sections and writes one JSON
report, whose file name depends on the approach and scorer used.

The Dafny project follows this structure:

| file | module | contents |
|---|---|---|
| `options.dfy` | `Options` | `Option<T>` |
| `text.dfy` | `Text` | `str.strip`, `lower`, `upper`, `split` / `re.findall(r"\w+")` runs, `" ".join` |
| `extractor.dfy` | `Extractor` | `extract_sections_from_pdf` (two-pass method with loops) and its specification `ExtractSpec` |
| `records.dfy` | `Records` | the section dictionary, the summary entry, and the outside services |
| `analyzer.dfy` | `Analyzer` | the three scorers, the rating parser, the scorer choice, the stable descending sort, and `rank_sections_by_relevance` (a method that scores an array in place) |
| `summarizer.dfy` | `Summarizer` | the sentence splitter, the extractive and model summaries, and `summarize_sections` (a loop) |
| `pipeline.dfy` | `Pipeline` | the body of `main`: persona flattening, per-file extraction and tagging, ranking, top five, summaries, report, file name |

Each loop in the source becomes a `method` proved against a specification
function:
- `ExtractSections == ExtractSpec`;
- `RankSections` writes `Scored(...)` into its array and returns `Ranked(...)`;
- `SummarizeSections == Summaries`;
- `Analyze == Report`.

The lemmas state what those functions promise.

The project does not model the PDF library, the embedding model or the
language-model subprocess. Instead:
- a document is its pages of text spans, each with a text and a font size;
- the embedding similarity is an oracle function;
- each language-model call is an oracle that returns the process's standard
  output, or `None` when the call raises.

## Where the code behaves unexpectedly

The model follows the code. These behaviours are proved as lemmas:

- **Ratings run from 1 to 9, not 1 to 10.** The rating regex `([1-9]|10)`
  tries `[1-9]` first, so the answer "10" rates 1 (`Analyzer.TenRatesOne`).
  `Analyzer.ParseRating` never returns 10.
- **A title above body text gives two headings, not one.** Take "INTRODUCTION"
  at size 18 above "This is the intro text." at size 10. The code gives both
  spans as headings, the second at H2, because each of the three largest
  sizes gets a level whatever the text (`Extractor.TitleAndBody`). One would
  expect only the title to be a heading.
- **With one font size, every heading is H1.** If a document uses a single
  font size, that size is the largest and maps to H1. Every span of three or
  more characters is then an H1 heading, and the all-caps and numbering rules
  never decide anything (`Extractor.SingleSizeAllH1`).
- **A model summary can be empty.** If the model answers with only
  whitespace, the refined text is empty even when the section text is not
  (`Summarizer.JudgeSummaryMayBeEmpty`). Only the extractive summary is
  never empty for a non-empty text (`Summarizer.ExtractiveSummaryBounds`).
- **No documents gives an empty report, not an error.** A folder without
  PDFs produces a report with no sections (`Pipeline.ReportShape`).

## Model

| member | source | states |
|---|---|---|
| Extractor.ExtractSpec | src/extractor.py:10-72 | The headings of a document: the classified spans in reading order. There are never more headings than collected font sizes, that is, than spans. |
| Extractor.ExtractSections | src/extractor.py:10-72 | The two-pass loop returns exactly `ExtractSpec(pages)`. |
| Extractor.CollectFontSizes | src/extractor.py:16-25 | The first pass collects the size of every span, page by page, in span order. |
| Extractor.ClassifySpans | src/extractor.py:39-44 | The second pass yields the headings of all placed spans, in order. Page numbers start at 1. |
| Extractor.ClassifyPage | src/extractor.py:40-71 | Classifying one page appends that page's headings to those found so far. |
| Extractor.Classify | src/extractor.py:49-62 | The cascade: the size table's level, else H2 for short all-caps text, else H3 for numbered text, else none. Only the size table can give H1, and no level at all means the size is not in the table. |
| Extractor.HeadingOf | src/extractor.py:45-71 | The heading one span yields: its title is the span's stripped text, at least 3 characters, its text equals its title, and its page is the span's page. |
| Extractor.ClassifySpan | src/extractor.py:45-71 | One span gives the heading that the size table and shape rules assign, or none. |
| Extractor.MaxOfIsMax | src/extractor.py:29 | The largest of a non-empty list of sizes is at least every size in it. |
| Extractor.WithoutMembers | src/extractor.py:29 | Removing every copy of a size keeps exactly the other sizes. |
| Extractor.DistinctDescFacts | src/extractor.py:29 | `sorted(set(sizes), reverse=True)` holds the same sizes as the input, each once, in strictly decreasing order. |
| Extractor.SizeLevelByRank | src/extractor.py:29-49 | A listed size's level is H1, H2 or H3 when 0, 1 or 2 distinct sizes are larger, and none otherwise. An unlisted size has no level. |
| Extractor.ClassifyByRank | src/extractor.py:49-62 | Given the size's rank, the classification is the rank cascade: size level, then all-caps H2, then numbered H3. |
| Extractor.SpanClassification | src/extractor.py:29-62 | Every span of a document is classified by the number of distinct sizes larger than its own and by its text shape. |
| Extractor.SpanRule | src/extractor.py:45-71 | A span of 3 or more stripped characters is a heading, with that level, on its page, exactly when the cascade gives a level. Otherwise it yields none. |
| Extractor.NoSpansNoHeadings | src/extractor.py:26-27 | A document without spans has no headings. |
| Extractor.HeadingSource | src/extractor.py:45-70 | Every heading comes from a span on its page. Its title and text are that span's stripped text, at least 3 characters. Its level is the span's classification. |
| Extractor.HeadingsInReadingOrder | src/extractor.py:39-71 | Heading k comes from span `src[k]` (a page index and a span index) and is exactly what that span yields. These positions strictly increase, by page and then by span within the page, and every span that yields a heading is among them. So each classified span gives exactly one heading, in reading order. |
| Extractor.HeadingsInPageOrder | src/extractor.py:39-71 | Headings come out in non-decreasing page order. |
| Extractor.OneHeadingPerSpan | src/extractor.py:39-71 | Heading k is what visited span `r[k]` yields. The indices `r` strictly increase and take in every span that yields a heading, so no span gives two headings and none is skipped. |
| Extractor.HeadingsOfIndices | src/extractor.py:44-71 | For any visited spans, the headings are those yielded at strictly increasing span indices, and these take in every span that yields one. |
| Extractor.PresentIndices | src/extractor.py:63-71 | Keeping only the spans that yield a heading keeps them at strictly increasing indices, and drops none of them. |
| Extractor.Locate | src/extractor.py:39-44 | Visited span i is span j of page p, tagged with page number p + 1. |
| Extractor.LocateOrdered | src/extractor.py:39-44 | Spans are visited page by page, and in span order within a page. |
| Extractor.FontSizeSource | src/extractor.py:16-25 | Every collected font size is the size of some span of the document. |
| Extractor.H1Rule | src/extractor.py:29-62 | A span classified H1, whatever its text, has a size no span of the document exceeds: the shape rules give only H2 and H3. |
| Extractor.H1IsLargest | src/extractor.py:29-62 | An H1 heading comes from a span of its page whose stripped text is its title, and no span of the document is set in a larger size. |
| Extractor.SingleSizeLevel | src/extractor.py:29-36 | When every span has the same font size, no size is larger and that size maps to H1. |
| Extractor.SingleSizeHeadingIsH1 | src/extractor.py:29-53 | When every span has the same font size, every heading is H1. |
| Extractor.SingleSizeSpanIsH1 | src/extractor.py:29-53 | When every span has the same font size, every span of 3 or more stripped characters is an H1 heading. |
| Extractor.SingleSizeAllH1 | src/extractor.py:29-53 | When every span has the same font size, every heading is H1 and every span of 3 or more stripped characters is one. |
| Extractor.TitleAndBody | src/extractor.py:29-71 | A title on a larger size above body text on a smaller one gives two headings, H1 and H2, on page 1. |
| Extractor.PlacedAll | src/extractor.py:39-44 | Every span of every page is visited, tagged with its 1-based page number. |
| Extractor.PlacedFrom | src/extractor.py:39-44 | Every visited span is a span of the page it is tagged with. |
| Extractor.PlacedOrdered | src/extractor.py:39-44 | Spans are visited in non-decreasing page order. |
| Analyzer.KeywordScore | src/analyzer.py:23-31 | The keyword score is at most the size of either word set. It is 0 exactly when the two sets share no word. |
| Analyzer.TokensJoined | src/analyzer.py:25-29 | The words of `a + " " + b` are the words of `a` plus the words of `b`. |
| Analyzer.KeywordScoreByParts | src/analyzer.py:25-31 | The score counts the words shared by (title ∪ text) and (persona ∪ job). |
| Analyzer.KeywordScoreSymmetric | src/analyzer.py:25-31 | Swapping title and text, or persona and job, does not change the score. |
| Analyzer.KeywordScoreIgnoresCase | src/analyzer.py:25-29 | Upper-casing all four inputs does not change the score. |
| Analyzer.FirstRatingDigit | src/analyzer.py:65 | The match found is a digit 1-9. |
| Analyzer.ParseRating | src/analyzer.py:64-70 | Every rating is an integer between 1 and 9. |
| Analyzer.RatingIgnoresStrip | src/analyzer.py:64-65 | Stripping the output does not change the digit found. |
| Analyzer.RatingIsFirstDigit | src/analyzer.py:64-67 | The rating is the value of the first digit 1-9 in the output. |
| Analyzer.RatingWithoutDigit | src/analyzer.py:66-70 | Output without a digit 1-9, or a failed call, rates 1. |
| Analyzer.TenRatesOne | src/analyzer.py:65-67 | Output starting with "10" rates 1. |
| Analyzer.ChooseStrategy | src/analyzer.py:85-98 | The model judge is chosen exactly when the approach is "llm". Embeddings are chosen only for the method "embedding", or for "auto" with the model loaded. |
| Analyzer.MethodLabel | src/analyzer.py:85-98 | The `actual_method` is one of "llm", "embedding" and "keyword", and it is "llm" exactly for the model judge. |
| Analyzer.EmbeddingScore | src/analyzer.py:34-43 | With the model loaded, the score is the similarity of `persona + ". " + job` to `title + ". " + text`. Without it, the score is the keyword score, a whole number from 0 to the section's word count. |
| Analyzer.Score | src/analyzer.py:86-97 | A judge score lies between 1 and 9. A keyword score, or an embedding score without the model, is never negative. |
| Analyzer.Scored | src/analyzer.py:86-97 | Every section gets its `relevance_score` from the chosen scorer, and nothing else about it changes. |
| Analyzer.StrategyChoice | src/analyzer.py:85-98 | The model judge is used exactly when the approach is "llm". Otherwise "embedding" picks embeddings, "auto" picks them exactly when the model loaded, and any other method picks keywords. |
| Analyzer.MethodLabelNamesStrategy | src/analyzer.py:88-98 | The reported `actual_method` tells the three scorers apart. |
| Analyzer.ScoreRange | src/analyzer.py:23-97 | Judge scores are whole numbers 1-9. Keyword scores are whole numbers from 0 to the section's word count. |
| Analyzer.EmbeddingFallback | src/analyzer.py:34-98 | Without the embedding model, "embedding" still reports "embedding" but scores by keywords. |
| Analyzer.KeywordNeedsNoService | src/analyzer.py:23-31 | The keyword score does not depend on any outside service. |
| Analyzer.SortByScore | src/analyzer.py:100 | Sorting keeps the number of sections. Together with SortPermutes, SortDescending and SortStable it is Python's stable descending sort. |
| Analyzer.InsertByScore | src/analyzer.py:100 | One insertion step adds exactly the inserted section. |
| Analyzer.SortDescending | src/analyzer.py:100 | The sorted sections have non-increasing scores. |
| Analyzer.SortPermutes | src/analyzer.py:100 | Sorting keeps exactly the same sections, as a multiset. |
| Analyzer.SortStable | src/analyzer.py:100 | Sections with equal scores keep their input order. |
| Analyzer.TopIsBest | src/analyzer.py:100 | A section left out of the first n sorted sections scores no higher than any kept one. |
| Analyzer.RankedFacts | src/analyzer.py:100-103 | Ranked sections carry ranks 1, 2, … in order and have non-increasing scores. Apart from the rank, they are the sorted sections. |
| Analyzer.RankSections | src/analyzer.py:73-104 | Every section's score is written in place. The result is the scored sections, sorted and ranked. The reported method names the scorer chosen. |
| Analyzer.ScoreAll | src/analyzer.py:85-97 | Each array element gets its score field set by the chosen scorer. Nothing else changes. |
| Summarizer.FindBreak | src/summarizer.py:13 | Finds the first position where a space follows `.`, `!` or `?`, or reports that there is none. |
| Summarizer.Sentences | src/summarizer.py:13 | The split always yields at least one piece. |
| Summarizer.SentencesStep | src/summarizer.py:13 | The first piece ends at the first break. The whole run of spaces there is dropped. |
| Summarizer.SentencesRoundTrip | src/summarizer.py:13 | For single-spaced text, joining the pieces with one space gives the text back. |
| Summarizer.JoinAtSpace | src/summarizer.py:13-14 | The text before a space, joined by one space to pieces that rejoin the rest, is the whole text. |
| Summarizer.SentenceEnds | src/summarizer.py:13 | Every piece but the last ends with `.`, `!` or `?`. |
| Summarizer.PiecesHaveNoBreak | src/summarizer.py:13 | No piece contains a break. |
| Summarizer.JoinTakeLength | src/summarizer.py:13-14 | Joining the first n pieces is never longer than the text. |
| Summarizer.JoinTakePrefix | src/summarizer.py:13-36 | For single-spaced text, joining the first n pieces gives a prefix of the text. |
| Summarizer.ExtractiveSummary | src/summarizer.py:10-15 | A non-empty text never summarizes to the empty string. |
| Summarizer.ExtractiveSummaryBounds | src/summarizer.py:10-15 | The extractive summary of a non-empty text is non-empty and no longer than the text. |
| Summarizer.ExtractiveSummaryOneSentence | src/summarizer.py:13-15 | Text without a break summarizes to its stripped self. If it strips to nothing, it summarizes to its first 200 characters. |
| Summarizer.ExtractiveSummaryFromText | src/summarizer.py:13-15 | For single-spaced text, the summary is a contiguous slice of the text. |
| Summarizer.JudgeSummary | src/summarizer.py:34-39 | A model summary has at most 400 characters. After a failed call it is a prefix of the text of at most 200 characters. |
| Summarizer.JudgeSummaryBounds | src/summarizer.py:34-39 | A model summary has at most 400 characters and is no longer than the stripped output. After a failed call, it is the first 200 characters of the text. |
| Summarizer.JudgeSummaryMayBeEmpty | src/summarizer.py:34-37 | Whitespace-only model output gives an empty summary. |
| Summarizer.JudgeSummaryFromOutput | src/summarizer.py:34-37 | For single-spaced output, the summary is a prefix of the stripped output. |
| Summarizer.RefinedText | src/summarizer.py:51-54 | With "llm", the refined text has at most 400 characters. Otherwise it is no longer than the section text, and non-empty when that text is non-empty. |
| Summarizer.SummarizeSections | src/summarizer.py:42-62 | One entry per section, in order, with the section's document and page and its refined text. |
| Pipeline.Flatten | main.py:37-40 | A plain string is used as it is. An empty object gives the empty string, and an object with one value gives that value. |
| Pipeline.FlattenKeepsValues | main.py:37-40 | Object values without spaces can be read back from the flattened persona or job. |
| Pipeline.Basename | main.py:48 | The base name has no `/`, is no longer than the path, and follows the path's last `/`. |
| Pipeline.BasenameIsSuffix | main.py:48 | The base name is the tail of the path. |
| Pipeline.BasenameOfJoin | main.py:48 | The base name of `dir/name` is `name`. |
| Pipeline.LoadSections | main.py:44-49 | All sections are the headings of each file in file order, each tagged with its file's base name. |
| Pipeline.TagSections | main.py:47-48 | Each heading of a file is tagged with that file's base name. |
| Pipeline.GatherSource | main.py:45-49 | Every gathered section is a heading of some file, tagged with that file's document name. |
| Pipeline.AllSectionsSource | main.py:45-49 | Every loaded section is a heading extracted from some file, tagged with that file's base name. |
| Pipeline.Analyze | main.py:37-92 | The body of `main` produces exactly `Report(...)`. |
| Pipeline.ReportFromShape | main.py:51-84 | Whatever the gathered sections, the report lists the documents it is given and keeps min(5, number of sections) sections ranked 1, 2, …, with one summary per kept section on the same document and page. |
| Pipeline.ReportShape | main.py:51-84 | The report lists the base name of every input file, in file order. It keeps min(5, number of sections) sections ranked 1, 2, …, with one summary per kept section on the same document and page. |
| Pipeline.ReportFromSource | main.py:51-83 | Every reported section is one of the gathered sections, with its document, title and page, and its rank. |
| Pipeline.ReportedSource | main.py:45-83 | Every reported section is a heading extracted from one of the input files, with that file's base name and the heading's page. |
| Pipeline.TopSectionsAreBest | main.py:51-57 | A section dropped by the top-five cut scores no higher than any kept one. |
| Pipeline.TopSectionsDescending | main.py:54-57 | The kept sections have non-increasing scores. |
| Pipeline.OutputFileName | main.py:89-92 | Every report file name starts with `analysis_output_` and ends with `.json`. |
| Pipeline.OutputFileForLlm | main.py:89-92 | The file is `analysis_output_llm.json` exactly when the approach is "llm". |
| Pipeline.OutputFileNamesScorer | main.py:89-92 | For other approaches, the file name tells the three scorers apart. |
| Text.StripIdempotent | src/extractor.py:45 | Stripping twice is stripping once. |
| Text.TrimStartSuffix | src/extractor.py:45 | Removing leading whitespace keeps a suffix of the text. |
| Text.RunLengthMaximal | src/analyzer.py:28-29 | A run of characters of one class (word characters for `re.findall(r"\w+")`, spaces for the sentence split) is as long as it can be. |
| Text.StripSlice | src/extractor.py:45 | `strip()` removes only leading and trailing whitespace and keeps a contiguous slice. |
| Text.SplitJoinRoundTrip | main.py:38-40 | Joining values that have no separator and splitting again gives the values back. |

## Left out

- PDF reading with `fitz` is not modelled. A document is its pages, each a sequence of spans (text, font size) in block, line and span order. Blocks without lines are simply absent.
- Font sizes are integers. The model keeps the exact-equality lookup of `size_to_level`, but not floating-point sizes.
- The embedding model is an oracle, `similarity(a, b)`. Whether it loaded is a flag. The texts it is given (`title + ". " + text`) are modelled, but not the cosine computation.
- The language-model subprocess is an oracle returning its standard output, or `None` when the call raises. This covers a missing program, a timeout or undecodable output. The prompt wording, the model name, the timeouts and UTF-8 decoding are not modelled. Each oracle gives one answer per input, so repeated calls cannot answer differently.
- Character classes are ASCII only. This covers `\s`, `\w`, `\d`, `str.strip`, `str.split`, `lower()` and the `[A-Z]` checks. Unicode whitespace, letters and case mappings are not modelled.
- Analyzer.ScoreAll: it covers the two scoring loops of `rank_sections_by_relevance` (one for "llm", one for the other approaches) as a single loop driven by the chosen scorer.
- Analyzer.RankSections: the sorted list holds the same dictionaries as the input, so writing ranks into the sorted list also changes the caller's list. The model writes ranks only into the returned sequence. Scores, however, are written into the input array.
- Scores are real numbers, and NaN similarities are not modelled.
- Every section has all its keys. The `.get(..., "")` defaults for missing `section_title` and `text` never apply.
- Non-string values of a persona object (`str(v)`) are not modelled, nor are persona values that are neither a string nor an object.
- Command-line parsing, the input and output folders, reading the persona file, listing the PDF files, the timestamp, `makedirs`, writing the JSON and the console messages are not modelled. The file list, with each file's path and pages, is an input.
- `src/utils.py` (file listing and persona loading) and the model download script are not part of this model.
