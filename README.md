# coursegen core, modelled in Dafny

coursegen turns a book (PDF, EPUB, text) into chapters and, per chapter,
generates study artifacts with a language model: a summary, key takeaways,
a quiz and a lab. This project models the parts of it that decide
behaviour:

- **Ingest.** Text cleaning and chunking (`chunking.py`). Chapter
  segmentation (`chapterize.py`): finalising spans, deduplicating
  table-of-contents headings, building spans from TOC pages and from a
  printed TOC, page-split fallback, and the top-level dispatch.
- **Generation jobs.** The `GenerateRequest` schema. The worker that
  writes job rows (`tasks.py`). The CLI payload. The two web forms that
  post requests (`GenerationPanel`, `GenerationControls`). The pollers
  that follow a job (`useJob`, `JobStatus`) and the stage display
  (`JobTracker`).
- **Artifacts.** Markdown rendering (`render.py`). Client-side grouping
  and the latest version per type (`ArtifactTabs`, `useArtifacts`,
  `ArtifactPanel`). The quiz reducer and screens (`QuizView`, `MCQCard`).
  The lab checklist (`LabView`).
- **Utilities.** The sqlite URL rewrite (`db.py`). The retry predicate and
  constructor of the OpenAI provider. `capitalize`/`pluralize`. The
  glossary and chapter-list filters.

Code built from expressions is modelled as datatypes, functions and
lemmas. Code that mutates state is modelled as a class or as a method with
loops: the React components' state, the effect epochs, the worker's job
table, and the loops of `chapterize.py` and `render.py`.

Asynchronous work is modelled as event methods that a caller may invoke in
any order. This covers fetches that resolve or reject, and timers that
fire. Each effect run of a component is an epoch with a run number. The
run whose `alive`/`cancelled` flag is still live is recorded as
`live == Some(r)`.

Everything that is a regular expression over free text is an input
instead:

- `_clean_title`, `_chapter_number`;
- the heading candidates, the printed-TOC extraction and TOC-title
  matching;
- the calibration search for the first chapter's subtitle.

The model states what the surrounding code does with those inputs.

Modules that follow one source file each: `Chunking`, `Chapterize`,
`Schemas`, `Tasks`, `GenerationPanel`, `GenerationControls`, `Cli`,
`JobTracker`, `UseJob`, `JobStatusPanel`, `Render`, `ArtifactTabs`,
`UseArtifacts`, `ArtifactPanel`, `QuizView`, `McqCard`, `LabView`, `Db`,
`OpenAiProvider`, `Format`, `TermGlossary`, `ChapterNav`. Modules for
entities that several files share:
- `ChapterSpans`: the `ChapterSpan` record, its shape predicates and the stable sort;
- `Jobs`: the polled job snapshot;
- `GenerationRequest`: the artifact type names, the providers catalogue and the request body that the forms send;
- `Artifacts`: the artifact record and the list operations the views share.

Three modules hold general helpers:
- `Seqs`: Option/Result, filters, subsequences, set toggling;
- `Strings`: Python's `str.strip` whitespace set, ASCII case mapping, joins, regex-free run collapsing;
- `Stripping`: where `strip` cuts its argument, and that it keeps every other character.

## Model

| member | source | states |
|---|---|---|
| Chunking.RemoveNul | apps/api/app/services/ingest/chunking.py:5 | the result has no NUL characters and keeps every other character with its multiplicity; text without NUL is returned unchanged |
| Chunking.CapNewlines | apps/api/app/services/ingest/chunking.py:7 | empty iff the input is empty, and the first character is kept |
| Chunking.CapRun | apps/api/app/services/ingest/chunking.py:7 | a maximal run of `k` newlines becomes exactly two newlines when `k` is three or more and is kept as it is otherwise, and rewriting goes on after it |
| Chunking.CapOther | apps/api/app/services/ingest/chunking.py:7 | a character other than a newline is copied, and rewriting goes on after it |
| Chunking.CapKeepsOthers | apps/api/app/services/ingest/chunking.py:7 | every character other than a newline is kept, in order and with its multiplicity |
| Chunking.CapNoTriple | apps/api/app/services/ingest/chunking.py:7 | after the rewrite no three consecutive newlines remain |
| Chunking.CapFixed | apps/api/app/services/ingest/chunking.py:7 | text without a triple newline is a fixed point of the rewrite |
| Chunking.CleanText | apps/api/app/services/ingest/chunking.py:4-8 | the cleaned text has no NUL, no run of spaces/tabs, no triple newline and no leading or trailing whitespace |
| Chunking.CleanKeepsText | apps/api/app/services/ingest/chunking.py:4-8 | cleaning removes only NULs and whitespace: the non-whitespace characters of the NUL-free text all stay, in order |
| Chunking.CleanIdempotent | apps/api/app/services/ingest/chunking.py:4-8 | cleaning twice is cleaning once |
| Chunking.RFindBreak | apps/api/app/services/ingest/chunking.py:20 | `rfind("\n\n", lo, hi)`: -1 iff no paragraph break lies wholly in the window, otherwise the position of the last one |
| Chunking.Cut | apps/api/app/services/ingest/chunking.py:18-22 | the cut lies strictly after `i` and no later than `min(n, i + max_chars)` |
| Chunking.CutChoice | apps/api/app/services/ingest/chunking.py:18-22 | the cut is the window end or a paragraph break in the second half of the window with no later break inside it, and it is a break whenever the second half holds one |
| Chunking.WindowShape | apps/api/app/services/ingest/chunking.py:23 | the stripped piece is no longer than the window, has no outer whitespace, occurs in the text, and is non-empty when the window starts on a non-space |
| Chunking.NextStart | apps/api/app/services/ingest/chunking.py:26 | the next window start `max(i + 1, cut - overlap)` is always past the current one, so the loop ends |
| Chunking.ChunksStep | apps/api/app/services/ingest/chunking.py:17-26 | one turn of the loop: the chunks from `i` are the stripped window from `i` (when non-empty) followed by the chunks from `max(i + 1, cut - overlap)` |
| Chunking.ChunkStartsMatch | apps/api/app/services/ingest/chunking.py:17-26 | chunk `k` is the non-empty stripped text of the window from its start, which lies in the text and ends at that start's cut |
| Chunking.ChunkStartsOrdered | apps/api/app/services/ingest/chunking.py:17-26 | the window starts of the chunks strictly increase, so the chunks come in text order |
| Chunking.ChunksCover | apps/api/app/services/ingest/chunking.py:17-26 | with a non-negative overlap every non-whitespace character lies in the window of some chunk: no text is skipped |
| Chunking.ChunkGood | apps/api/app/services/ingest/chunking.py:23-25 | each chunk is non-empty, stripped, at most `max_chars` long and a substring of the text |
| Chunking.ChunksGood | apps/api/app/services/ingest/chunking.py:17-26 | every chunk is good, and a text starting on a non-space yields at least one chunk |
| Chunking.WalkAt | apps/api/app/services/ingest/chunking.py:17-26 | element `k` of the walk is the non-empty piece at its start, which lies in the walked range |
| Chunking.WalkOrdered | apps/api/app/services/ingest/chunking.py:17-26 | the starts of the kept pieces strictly increase |
| Chunking.WalkCovers | apps/api/app/services/ingest/chunking.py:17-26 | when each step stays inside the window it leaves, every position whose windows all have a piece lies in the window of a kept start |
| Chunking.ChunkText | apps/api/app/services/ingest/chunking.py:10-27 | the chunks are exactly the walk of the loop over the cleaned text (`Chunks`); none iff the cleaned text is empty; every chunk is non-empty, stripped, at most `max_chars` long and a substring of the cleaned text |
| Chunking.ChunkCleaned | apps/api/app/services/ingest/chunking.py:14-27 | the loop returns exactly `Chunks(t, 0, max_chars, overlap)`: each window cut, stripped, kept when non-empty, and the next window started at `max(i + 1, cut - overlap)` |
| Strings.Strip | apps/api/app/services/ingest/chunking.py:8 | Python `str.strip()`: no whitespace at either end, never longer than the input |
| Stripping.StripIsSlice | apps/api/app/services/ingest/chunking.py:8 | the stripped text is the slice of the input between a leading and a trailing run of whitespace |
| Stripping.StripKeepsOthers | apps/api/app/services/ingest/chunking.py:8 | stripping keeps every non-whitespace character, in order |
| Strings.StripKeeps | apps/api/app/services/ingest/chunking.py:8 | text without outer whitespace is unchanged by stripping |
| Strings.CollapseRuns | apps/api/app/services/ingest/chunking.py:6 | `re.sub(r"[ \t]+", " ", t)`: no two adjacent blanks remain, every remaining blank is a space, empty iff the input is, never longer |
| Strings.CollapseKeepsOthers | apps/api/app/services/ingest/chunking.py:6 | every character outside the run class is kept, in order and with its multiplicity |
| Strings.CollapseWholeRun | apps/api/app/services/ingest/chunking.py:6 | a non-empty string made only of run characters becomes a single space |
| Strings.CollapseRunThen | apps/api/app/services/ingest/chunking.py:6 | a maximal run at the front becomes one space and collapsing goes on after it |
| Strings.CollapseOther | apps/api/app/services/ingest/chunking.py:6 | a character outside the run class at the front is copied and collapsing goes on after it |
| Strings.CollapseJoin | apps/api/app/services/ingest/chunking.py:6 | collapsing two strings that do not meet inside a run is collapsing each of them |
| Strings.CollapseIdempotent | apps/api/app/services/ingest/chunking.py:6 | collapsing twice is collapsing once |
| ChapterSpans.Clamp | apps/api/app/services/ingest/chapterize.py:46-47 | `max(0, min(text_len, x))` lies in `[0, text_len]` and keeps in-range values |
| ChapterSpans.ClampMonotone | apps/api/app/services/ingest/chapterize.py:46-47 | clamping preserves order |
| ChapterSpans.SortBy | apps/api/app/services/ingest/chapterize.py:41 | the result is sorted by the key and is a permutation of the input |
| ChapterSpans.Covered | apps/api/app/services/ingest/chapterize.py:140 | the covered length is non-negative |
| Chapterize.SortedStarts | apps/api/app/services/ingest/chapterize.py:41 | spans sorted by `(start, -length)` have non-decreasing starts |
| Chapterize.ClampAll | apps/api/app/services/ingest/chapterize.py:45-47 | one clamped span per input span, each the input's range clamped to `[0, text_len]` |
| Chapterize.ClampAllSorted | apps/api/app/services/ingest/chapterize.py:41-47 | clamping keeps sorted starts sorted |
| Chapterize.MergeStep | apps/api/app/services/ingest/chapterize.py:48-56 | one merge step: an empty clamped span is skipped; an overlapping span replaces the last one only when longer; a disjoint span is appended; the result stays disjoint and non-empty |
| Chapterize.MergeStepProvenance | apps/api/app/services/ingest/chapterize.py:44-56 | after one step every merged span is inside the text and one of the clamped inputs seen so far |
| Chapterize.MergeStepDominance | apps/api/app/services/ingest/chapterize.py:50-55 | after one step every non-empty clamped input seen so far is matched by a merged span at least as long |
| Chapterize.MergeAll | apps/api/app/services/ingest/chapterize.py:44-56 | the merge loop as a fold: non-empty, pairwise disjoint spans, nothing from no input, the last merged start never past the last input start |
| Chapterize.MergeAllKeeps | apps/api/app/services/ingest/chapterize.py:44-56 | the merged spans lie inside the text, each is one of the inputs, and every non-empty input is matched by a merged span at least as long |
| Chapterize.MergeOverlaps | apps/api/app/services/ingest/chapterize.py:43-56 | the merge loop over spans sorted by start computes `MergeAll` of the clamped spans |
| Chapterize.LongSpans | apps/api/app/services/ingest/chapterize.py:59 | the filter never adds spans |
| Chapterize.LongSpansKeep | apps/api/app/services/ingest/chapterize.py:59 | exactly the spans of at least `min_chapter_chars` are kept, and disjointness is preserved |
| Chapterize.DropShort | apps/api/app/services/ingest/chapterize.py:59 | the filter loop computes `LongSpans` |
| Chapterize.TitleFor | apps/api/app/services/ingest/chapterize.py:67 | the cleaned title if non-empty, else the raw title if non-empty, else `Section i`; never empty |
| Chapterize.NumberSpans | apps/api/app/services/ingest/chapterize.py:64-69 | the numbering loop computes `Numbered`: spans numbered 1.. in order, ranges unchanged, titles non-empty |
| Chapterize.NumberedShape | apps/api/app/services/ingest/chapterize.py:64-69 | numbering keeps the count and every range, gives indices 1..n and non-empty titles, and keeps bounds, disjointness, non-emptiness and length |
| Chapterize.SurvivorsShape | apps/api/app/services/ingest/chapterize.py:40-59 | what survives sorting, merging and filtering is inside the text, non-empty, disjoint, long enough, and each the clamped range of an input span |
| Chapterize.FinalizedShape | apps/api/app/services/ingest/chapterize.py:36-69 | at least one span, in bounds, disjoint, numbered with non-empty titles; `Full Text` when there is no input or nothing survives; otherwise one span per survivor, each long enough and from an input span |
| Chapterize.FinalizeSpans | apps/api/app/services/ingest/chapterize.py:36-69 | `_finalize_spans` computes `Finalized` |
| Chapterize.FinalizedChapterList | apps/api/app/services/ingest/chapterize.py:36-69 | finalizing any spans gives a chapter list: one or more numbered, titled, disjoint spans inside the text, `Full Text` or all long enough |
| Chapterize.KeptFromInput | apps/api/app/services/ingest/chapterize.py:44-59 | a span that survives merging lies inside the text and was produced from one input span |
| Chapterize.NormTitle | apps/api/app/services/ingest/chapterize.py:81-82 | the key has single spaces only, no leading whitespace, and is empty iff the stripped title is |
| Strings.LowerKeepsOthers | apps/api/app/services/ingest/chapterize.py:82 | lower-casing commutes with dropping the whitespace |
| Chapterize.NormTitleKeepsText | apps/api/app/services/ingest/chapterize.py:81-82 | the key's non-whitespace characters are the title's, lower-cased, in order |
| Chapterize.NormTitleWords | apps/api/app/services/ingest/chapterize.py:81-82 | two titles joined by any whitespace give their keys joined by one space |
| Chapterize.KeysOfMembers | apps/api/app/services/ingest/chapterize.py:85-105 | a key is among the seen keys exactly when some entry carries it |
| Chapterize.FirstPer | apps/api/app/services/ingest/chapterize.py:85-107 | keeping the first entry per key never adds entries |
| Chapterize.KeptAtIffUnseen | apps/api/app/services/ingest/chapterize.py:87-92 | an entry is kept iff it has no key or its key was not seen before it |
| Chapterize.FirstPerStep | apps/api/app/services/ingest/chapterize.py:87-92 | one more entry is appended exactly when its key is new, and its key joins the seen keys |
| Chapterize.FirstPerSubseq | apps/api/app/services/ingest/chapterize.py:85-107 | the kept entries are an order-preserving subsequence of the input |
| Chapterize.FirstPerKeepsUnkeyed | apps/api/app/services/ingest/chapterize.py:102-106 | every entry without a key (no chapter number) is kept |
| Chapterize.FirstPerKeys | apps/api/app/services/ingest/chapterize.py:85-107 | the kept entries carry exactly the keys of the input |
| Chapterize.FirstPerDistinct | apps/api/app/services/ingest/chapterize.py:85-107 | no two kept entries share a key |
| Chapterize.DedupeByKey | apps/api/app/services/ingest/chapterize.py:85-92 | the first loop computes `FirstPer` by `(norm_title, page)` |
| Chapterize.KeepFirstPerNumber | apps/api/app/services/ingest/chapterize.py:98-107 | the second loop computes `FirstPer` by chapter number |
| Chapterize.DedupeTocHeadings | apps/api/app/services/ingest/chapterize.py:84-109 | `_dedupe_toc_headings` computes `TocDeduped` |
| Chapterize.FirstPerTitleKeysDistinct | apps/api/app/services/ingest/chapterize.py:85-92 | after the first loop no two headings share `(norm_title, page)` |
| Chapterize.TocDedupedDistinct | apps/api/app/services/ingest/chapterize.py:84-109 | the result is an order-preserving subsequence of the input with distinct `(norm_title, page)` keys |
| Chapterize.TocDedupedNumbers | apps/api/app/services/ingest/chapterize.py:94-109 | with three or more distinct chapter numbers the result has the same numbers, each once, and keeps every unnumbered heading; otherwise it keeps every `(norm_title, page)` key of the input |
| Chapterize.SubseqKeepsDistinct | apps/api/app/services/ingest/chapterize.py:98-107 | a subsequence of entries with distinct keys has distinct keys |
| Chapterize.CountLong | apps/api/app/services/ingest/chapterize.py:130-136 | at most one span per start |
| Chapterize.CutUpTo | apps/api/app/services/ingest/chapterize.py:130-136 | the spans cut from the first `k` starts number exactly the long-enough starts among them |
| Chapterize.Segment | apps/api/app/services/ingest/chapterize.py:130-136 | computes `Segmented`: one span per long-enough start, numbered 1..n, each from its start to the next start or the text end; disjoint when starts are ordered, increasing when they strictly increase, in bounds when they lie in the text |
| Chapterize.SegmentLoop | apps/api/app/services/ingest/chapterize.py:130-136 | the loop computes `Segmented`, and its spans correspond one to one, in order, to the long-enough starts |
| Chapterize.CutAppend | apps/api/app/services/ingest/chapterize.py:131-135 | a long-enough start appends its span, numbered next, and keeps the loop invariant |
| Chapterize.CutSkip | apps/api/app/services/ingest/chapterize.py:133-134 | a too-short start is skipped and keeps the loop invariant |
| Chapterize.SegmentShape | apps/api/app/services/ingest/chapterize.py:130-136 | the span shape (disjoint, increasing starts, in bounds) follows from the order of the starts |
| Chapterize.KeptStarts | apps/api/app/services/ingest/chapterize.py:117-125 | at most one start per heading |
| Chapterize.KeptStartsShape | apps/api/app/services/ingest/chapterize.py:117-125 | the kept starts strictly increase, each is a heading's title and page offset, and no heading's offset exceeds the last kept start |
| Chapterize.KeptStartsLast | apps/api/app/services/ingest/chapterize.py:119-125 | one more heading is kept exactly when its offset exceeds the last kept start |
| Chapterize.KeptStartsFacts | apps/api/app/services/ingest/chapterize.py:117-125 | the kept starts strictly increase, come from headings, dominate every heading's offset, and are page offsets |
| Chapterize.StrictStarts | apps/api/app/services/ingest/chapterize.py:117-125 | the first loop computes `KeptStarts`: strictly increasing starts, each from a heading's page offset, none exceeded by any heading |
| Chapterize.HeadingSpansFacts | apps/api/app/services/ingest/chapterize.py:117-136 | spans cut from two or more kept starts open and close at heading offsets (or the text end), lie in the text when the offsets do, and the headings have two distinct offsets |
| Chapterize.BuildSpansFromHeadings | apps/api/app/services/ingest/chapterize.py:111-136 | computes `HeadingSpans`; spans are long enough, numbered, with strictly increasing starts and disjoint; each opens at a heading's page offset with its title and closes at one or at the text end; all headings on one offset give no spans |
| Chapterize.TwoStartsTwoOffsets | apps/api/app/services/ingest/chapterize.py:117-128 | two kept starts come from two headings on pages with different offsets |
| Chapterize.HeadingOrigins | apps/api/app/services/ingest/chapterize.py:117-136 | a span cut from kept starts opens at a heading and closes at a heading or at the text end |
| Chapterize.StartsInside | apps/api/app/services/ingest/chapterize.py:117-125 | kept starts taken from offsets inside the text are ordered and inside the text |
| Chapterize.TocSpanScore | apps/api/app/services/ingest/chapterize.py:138-142 | the score is (coverage, count, -level); coverage is non-negative and at least one half iff the spans cover half the text |
| Chapterize.HalfRatio | apps/api/app/services/ingest/chapterize.py:141 | the float test `covered / text_len >= 0.5` is the integer test `2*covered >= text_len` |
| Chapterize.ValidOf | apps/api/app/services/ingest/chapterize.py:153-160 | every kept entry has a page in `1..len(page_offsets)` and a non-empty title |
| Chapterize.ValidOfMembers | apps/api/app/services/ingest/chapterize.py:153-160 | every kept entry is an input entry with its title stripped, and every input entry with a non-blank title and a page in range is kept |
| Chapterize.ValidEntries | apps/api/app/services/ingest/chapterize.py:153-160 | the loop computes `ValidOf` |
| Chapterize.LevelsOf | apps/api/app/services/ingest/chapterize.py:164 | the levels are pairwise distinct |
| Chapterize.LevelsOfMembers | apps/api/app/services/ingest/chapterize.py:164 | a level is listed iff some valid entry has it |
| Chapterize.DistinctLevels | apps/api/app/services/ingest/chapterize.py:164 | the set comprehension computes `LevelsOf` |
| Chapterize.OfLevel | apps/api/app/services/ingest/chapterize.py:167 | never more headings than entries |
| Chapterize.OfLevelMembers | apps/api/app/services/ingest/chapterize.py:167 | a `(title, page)` pair is listed iff a valid entry at that level has it |
| Chapterize.LevelHeadings | apps/api/app/services/ingest/chapterize.py:167 | the comprehension computes `OfLevel` |
| Chapterize.LevelPagesWithin | apps/api/app/services/ingest/chapterize.py:166-170 | the sorted, deduplicated headings of a level keep their pages in range |
| Chapterize.LevelSpans | apps/api/app/services/ingest/chapterize.py:166-174 | computes a level's candidate; with two or more spans it is plausible (long enough, numbered, disjoint, starting on page offsets), and in bounds when the offsets are |
| Chapterize.Scored | apps/api/app/services/ingest/chapterize.py:165-175 | at most one candidate per level, each with at least two spans |
| Chapterize.ScoredLevels | apps/api/app/services/ingest/chapterize.py:165-175 | every candidate is some level's scored spans, and every level with two or more spans has its candidate |
| Chapterize.ScoredStep | apps/api/app/services/ingest/chapterize.py:171-175 | one more level appends its scored candidate exactly when it has two or more spans |
| Chapterize.BestOfIsFirstMax | apps/api/app/services/ingest/chapterize.py:180-181 | the chosen candidate is outscored by none and strictly outscores every earlier one (the stable descending sort's first) |
| Chapterize.BestOfStep | apps/api/app/services/ingest/chapterize.py:180-181 | one more candidate becomes the best only when it scores strictly higher |
| Chapterize.ScoreLevels | apps/api/app/services/ingest/chapterize.py:165-181 | the level loop computes `Scored` with its best score and spans (`BestOf`); no candidates iff no best; every candidate is plausible, counted and in bounds when the offsets are |
| Chapterize.TocLevelCandidates | apps/api/app/services/ingest/chapterize.py:150-181 | computes `TocCandidates` with its best; no candidates iff no best |
| Chapterize.PickBestFacts | apps/api/app/services/ingest/chapterize.py:177-187 | the picked spans are the unbeaten candidate's when they cover half the text; a non-empty pick is plausible and half-covering, and in bounds when the offsets are |
| Chapterize.SpansFromTocPages | apps/api/app/services/ingest/chapterize.py:144-187 | computes `TocPageSpans`; the winner is a best-scoring candidate; a non-empty result has two or more plausible spans covering at least half the text |
| Chapterize.BisectRight | apps/api/app/services/ingest/chapterize.py:345 | `bisect_right`: every element before the result is at most `x`, every one after is greater |
| Chapterize.IsNearPageTop | apps/api/app/services/ingest/chapterize.py:382-388 | true without offsets; false before the first page; otherwise true iff the offset is within 1400 characters of its page's start |
| Chapterize.PageOf | apps/api/app/services/ingest/chapterize.py:344-347 | none iff there are no offsets or the offset precedes the first page; otherwise the page that contains the offset |
| Chapterize.PageOfIsOnlyPage | apps/api/app/services/ingest/chapterize.py:345 | the page containing an offset is unique |
| Chapterize.FrontMatter | apps/api/app/services/ingest/chapterize.py:350-352 | the count is non-negative and, when positive, maps the first printed page onto the physical page where its subtitle was found |
| Chapterize.PrintedCut | apps/api/app/services/ingest/chapterize.py:359-367 | an entry maps to a range iff its physical page exists; it starts at that page's offset and ends at the next entry's page offset, or at the text end |
| Chapterize.PrintedSpans | apps/api/app/services/ingest/chapterize.py:357-370 | the mapped spans are long enough and numbered 1..n |
| Chapterize.UsableEntries | apps/api/app/services/ingest/chapterize.py:357-370 | exactly the indices of the entries that give a long-enough span, in increasing order |
| Chapterize.PrintedSpansAreUsableEntries | apps/api/app/services/ingest/chapterize.py:357-370 | the j-th printed span is the span of the j-th usable entry |
| Chapterize.MapPrintedEntries | apps/api/app/services/ingest/chapterize.py:357-370 | the loop computes the printed-TOC spans |
| Chapterize.SpansFromPrintedToc | apps/api/app/services/ingest/chapterize.py:314-379 | computes `PrintedTocSpans`: fewer than two entries, no offsets, a subtitle shorter than 10, no match or a match before the first page give nothing; otherwise the mapped spans when at least two cover half the text |
| Chapterize.StrideFromContents | apps/api/app/services/ingest/chapterize.py:519 | `[page_offsets[i] for i in range(0, len, step)]`: exactly the offsets at `i, i + step, ...` that exist |
| Chapterize.StrideFromSorted | apps/api/app/services/ingest/chapterize.py:519 | sorted offsets give non-decreasing strided starts, none below the first |
| Chapterize.StrideFromWithin | apps/api/app/services/ingest/chapterize.py:519 | offsets inside the text give strided starts inside the text |
| Chapterize.StrideFromShape | apps/api/app/services/ingest/chapterize.py:519 | the strided starts from page 0 are ordered and inside the text when the offsets are |
| Chapterize.StrideStarts | apps/api/app/services/ingest/chapterize.py:519 | the loop computes `StrideFrom(page_offsets, step, 0)` |
| Chapterize.SplitStep | apps/api/app/services/ingest/chapterize.py:515-517 | `max(1, page_count // target_sections)` is at least 1 |
| Chapterize.AdjustStarts | apps/api/app/services/ingest/chapterize.py:520-523 | after inserting 0 and dropping a last start at or past the text end, the starts begin at 0, are drawn from the input or `0`, and stay ordered and inside the text |
| Chapterize.FallbackPageSplits | apps/api/app/services/ingest/chapterize.py:507-533 | computes `PageSplits`; fewer than 8 pages or a text shorter than 8 minimum chapters give nothing; a result has at least two long-enough `Section i` spans, disjoint and in bounds when the offsets are sorted and inside the text |
| Chapterize.CandidateStarts | apps/api/app/services/ingest/chapterize.py:599-604 | heading candidates `(offset, title)` become starts `(title, offset)` one for one |
| Chapterize.FallbackOrSectionOne | apps/api/app/services/ingest/chapterize.py:592-597 | computes `FallbackOrOne`: the finalised page splits, or the single `Section 1` span |
| Chapterize.FallbackOrOneShape | apps/api/app/services/ingest/chapterize.py:592-597 | the fallback is a chapter list, and `Section 1` when there are too few pages or too little text to split |
| Chapterize.PickShape | apps/api/app/services/ingest/chapterize.py:555-613 | whichever path wins, the result is a chapter list when the fallback is |
| Chapterize.ChapterizedShape | apps/api/app/services/ingest/chapterize.py:535-613 | `chapterize` always returns a chapter list: at least one numbered, titled, disjoint span inside the text; `Section 1`, `Full Text` or long-enough non-empty spans |
| Chapterize.ChapterizedShortText | apps/api/app/services/ingest/chapterize.py:555-558 | a text shorter than one minimum chapter, without TOC pages, is `Section 1` |
| Chapterize.ChapterizedNothingApplies | apps/api/app/services/ingest/chapterize.py:535-613 | with no TOC, title, printed-TOC or heading spans and too few pages, the result is `Section 1` |
| Chapterize.Chapterize | apps/api/app/services/ingest/chapterize.py:535-613 | `chapterize`, with the text extraction steps passed in as parameters, computes `Chapterized` |
| Schemas.Validate | apps/api/app/schemas.py:33-43 | accepted iff `chapter_index >= 1`, every output is an artifact type and difficulty/tone/length are allowed literals; a rejection names each field exactly when its check fails, in declaration order; defaults are filled in |
| Schemas.ErrorsNamed | apps/api/app/schemas.py:35-39 | each of `chapter_index`, `outputs`, `difficulty`, `tone` and `length` is named in the errors exactly when its check fails |
| Schemas.ErrorsInOrder | apps/api/app/schemas.py:33-39 | the error names are a subsequence of the fields in declaration order |
| Schemas.EmptyOutputsAndAnyTemperatureAccepted | apps/api/app/schemas.py:36-43 | an empty output list and any temperature pass validation |
| Schemas.ClientRequestValidation | apps/api/app/schemas.py:33-43 | a web form request is accepted iff its chapter, outputs and settings are valid, and is then kept verbatim |
| Tasks.Truncate | apps/api/app/workers/tasks.py:25 | `message[:512]`: a prefix of at most 512 characters, the whole message when it fits |
| Tasks.TruncateIdempotent | apps/api/app/workers/tasks.py:25 | truncating twice is truncating once |
| Tasks.ApplyUpdate | apps/api/app/workers/tasks.py:20-26 | each given field is written (the message truncated), each missing one kept, and `updated_at` set |
| Tasks.Apply | apps/api/app/workers/tasks.py:15-27 | a missing row leaves the table unchanged; otherwise only that row changes |
| Tasks.ApplyAll | apps/api/app/workers/tasks.py:15-27 | a sequence of updates never adds or removes rows |
| Tasks.ProgressWrites | apps/api/app/workers/tasks.py:33-34 | in the corrected worker, each progress callback writes status `started` with its percentage and message (as written no callback reaches the table: see Findings) |
| Tasks.ResolveJobId | apps/api/app/workers/tasks.py:31 | the queue job's id, else a non-empty payload `job_id`, else `unknown` |
| Tasks.WritesSequence | apps/api/app/workers/tasks.py:36-46 | in the corrected worker, the writes are the start write, the progress writes, then the finish or failure write |
| Tasks.ApplyAllOthers | apps/api/app/workers/tasks.py:15-27 | rows of other jobs are untouched |
| Tasks.FinalRow | apps/api/app/workers/tasks.py:36-46 | after a job of the corrected worker the row is `finished`/100/`Done`, or `failed` with the truncated `Failed: <type>: <text>` message and the last progress written |
| Tasks.JobTable.UpdateJob | apps/api/app/workers/tasks.py:15-27 | the table becomes `Apply` of the update, and the update is logged |
| Tasks.JobTable.GenerateJob | apps/api/app/workers/tasks.py:29-46 | the corrected `generate_job`: its writes are applied in order and logged; the exception is re-raised exactly when the generation raised |
| Tasks.Unexpected | apps/api/app/workers/tasks.py:40 | keyword binding: no keyword is reported iff every passed key is accepted; a reported one is passed and not accepted |
| Tasks.UnexpectedIsFirst | apps/api/app/workers/tasks.py:40 | the reported keyword is the first passed key that is not accepted |
| Tasks.PayloadHasUnexpectedProvider | apps/api/app/services/generate/engine.py:23-37 | the request's payload keys meet `generate_artifacts`' keywords first at `provider`, which it does not accept |
| Tasks.AsWrittenOutcome | apps/api/app/workers/tasks.py:12-41 | as written, the call raises TypeError on an unaccepted key; otherwise the first progress callback raises RuntimeError; only a callback-free engine ends its own way |
| Tasks.AsWrittenJobFails | apps/api/app/workers/tasks.py:29-46 | as written, every enqueued job leaves its row `failed` at progress 1 with `Failed: TypeError: ... 'provider'`, after exactly two writes |
| Tasks.CallbackRaises | apps/api/app/workers/tasks.py:33-34 | with the key renamed, a job with progress reports still ends `failed` at progress 1 with the RuntimeError, where the corrected worker ends `finished` |
| Tasks.JobTable.GenerateJobAsWritten | apps/api/app/workers/tasks.py:29-46 | `generate_job` as written: the start and final writes only, applied and logged; re-raised exactly when the as-written outcome is a raise |
| GenerationRequest.FindProvider | apps/web/components/book/GenerationPanel.tsx:72-73 | `providers.find(p => p.id === id)`: found iff some provider has the id, and then the first such |
| GenerationRequest.TruthyFirstModel | apps/web/components/book/GenerationPanel.tsx:66-67 | `prov?.models[0]` is truthy iff the provider exists with a non-empty first model |
| GenerationPanel.ToggleOrdered | apps/web/components/book/GenerationPanel.tsx:75-82 | toggling a Set in insertion order: the element's membership flips, others are unchanged, no duplicates, an added element goes last |
| GenerationPanel.ToggleTwice | apps/web/components/book/GenerationPanel.tsx:75-82 | toggling twice restores the membership, and the exact order when the element was absent |
| GenerationPanel.DeselectAll | apps/web/components/book/GenerationPanel.tsx:57-82 | toggling off the four initially selected types, in their initial order, leaves the selection empty |
| GenerationPanel.DefaultProviderId | apps/web/components/book/GenerationPanel.tsx:63 | the default provider if non-empty, else the first provider's id if non-empty, else none |
| GenerationPanel.Panel.constructor | apps/web/components/book/GenerationPanel.tsx:45-59 | the initial form: all four outputs, intermediate/tutor/medium, code on, temperature 0.3 |
| GenerationPanel.Panel.CurrentProviderModels | apps/web/components/book/GenerationPanel.tsx:72-73 | the models of the selected provider, or none |
| GenerationPanel.Panel.CanGenerate | apps/web/components/book/GenerationPanel.tsx:132 | the button is enabled iff not busy and at least one output is selected |
| GenerationPanel.Panel.ProvidersLoaded | apps/web/components/book/GenerationPanel.tsx:61-70 | a default provider id is selected with its first model when truthy; without one nothing changes |
| GenerationPanel.Panel.SelectProvider | apps/web/components/book/GenerationPanel.tsx:180-183 | selects the provider and its first model when truthy; otherwise the model is kept |
| GenerationPanel.Panel.ToggleOutput | apps/web/components/book/GenerationPanel.tsx:75-82 | the outputs become the toggled set |
| GenerationPanel.Panel.StartGenerate | apps/web/components/book/GenerationPanel.tsx:84-100 | an empty selection sends nothing and changes nothing; otherwise busy, error cleared, and the request carries the outputs in insertion order and the form fields |
| GenerationPanel.Panel.FinishGenerate | apps/web/components/book/GenerationPanel.tsx:101-107 | not busy afterwards; success hands the job id to `onJob`; failure shows the error's message or `Generation failed` |
| GenerationControls.SetFlag | apps/web/components/GenerationControls.tsx:138 | sets one output flag and leaves the others |
| GenerationControls.SelectedIsCheckedTypes | apps/web/components/GenerationControls.tsx:48 | the selected outputs are exactly the checked artifact types, in key order, without duplicates; empty iff none is checked |
| GenerationControls.ModelForProvider | apps/web/components/GenerationControls.tsx:39-43 | the provider's first model, or the empty string |
| GenerationControls.InitialModel | apps/web/components/GenerationControls.tsx:34-35 | the first model of the default provider, else of the first provider; none (the code throws) when there are no providers |
| GenerationControls.Controls.constructor | apps/web/components/GenerationControls.tsx:17-27 | the initial form: summary and takeaways checked, intermediate/tutor/medium, code on, temperature 0.3 |
| GenerationControls.Controls.CanGenerate | apps/web/components/GenerationControls.tsx:78 | enabled iff not busy and the chapter index is at least 1 |
| GenerationControls.Controls.Models | apps/web/components/GenerationControls.tsx:69 | the models of the selected provider, or none |
| GenerationControls.Controls.LoadProviders | apps/web/components/GenerationControls.tsx:29-37 | stores the catalogue and the default provider; the model is set iff an initial model exists |
| GenerationControls.Controls.Commit | apps/web/components/GenerationControls.tsx:39-43 | the provider effect: after a provider change with a catalogue loaded, the model becomes that provider's first model |
| GenerationControls.Controls.SelectProvider | apps/web/components/GenerationControls.tsx:87 | selecting a provider other than the one the effect last saw, with the catalogue loaded, resets the model to that provider's first model; otherwise the model is unchanged |
| GenerationControls.Controls.SetOutput | apps/web/components/GenerationControls.tsx:138 | the checkbox updates one flag |
| GenerationControls.Controls.StartRun | apps/web/components/GenerationControls.tsx:45-60 | busy, error cleared, and the request carries the checked outputs and the form fields, even when no output is checked |
| GenerationControls.Controls.FinishRun | apps/web/components/GenerationControls.tsx:61-66 | not busy afterwards; success hands on the job id; failure shows the message or the stringified error |
| Cli.Outputs | packages/cli/coursegen_cli/main.py:41-45 | each artifact type is present iff its flag is set, in the order summary, quiz, lab, takeaways |
| Cli.FlagsAscending | packages/cli/coursegen_cli/main.py:41-45 | the outputs the four flags append, in statement order, have strictly increasing rank, so no output appears twice |
| Cli.GeneratePayload | packages/cli/coursegen_cli/main.py:47-58 | the fields are copied, `include_code` is true, empty provider/model are omitted; the server accepts it iff the chapter is at least 1 and the settings are allowed literals |
| Cli.IngestForm | packages/cli/coursegen_cli/main.py:13-18 | a missing file fails with `File not found`; otherwise the form holds exactly the non-empty title and author |
| JobTracker.ActiveStage | apps/web/components/book/JobTracker.tsx:20-26 | a stage in -1..3; -1 iff failed, 3 iff finished |
| JobTracker.ActiveStageIsFurthest | apps/web/components/book/JobTracker.tsx:13-26 | the stage is the furthest of the status label's stage and the stage the progress reaches |
| JobTracker.StageMonotoneInProgress | apps/web/components/book/JobTracker.tsx:20-26 | for a fixed status, more progress never shows an earlier stage |
| JobTracker.ProgressOverridesLabel | apps/web/components/book/JobTracker.tsx:23-25 | a running job at 30% or more is generating; below 30% it is processing iff started, otherwise queued |
| JobTracker.StageAfterWrite | apps/web/components/book/JobTracker.tsx:20-26 | after an update that sets status and progress, the shown stage depends on that update alone |
| JobTracker.WrittenStagesNonDecreasing | apps/web/components/book/JobTracker.tsx:13-26 | along the corrected worker's writes of a successful job with non-decreasing progress reports, the shown stage never goes back once started |
| JobTracker.WrittenStagesEnds | apps/web/components/book/JobTracker.tsx:13-26 | the queued row shows Queued, the start write Processing, and the final write of a successful job Done |
| JobTracker.StageDots | apps/web/components/book/JobTracker.tsx:41-42 | a failed job has no done or active dot; a finished one has all done; no dot is both except the last |
| JobTracker.ShownMessage | apps/web/components/book/JobTracker.tsx:92-99 | the job's message when truthy, else `Generation failed` or `Waiting...` |
| UseJob.JobHook.constructor | apps/web/lib/hooks/useJob.ts:10-25 | mounting with a job id starts run 0 with its fetch in flight; without one nothing runs |
| UseJob.JobHook.Render | apps/web/lib/hooks/useJob.ts:20-49 | an unchanged id changes nothing; a new id cancels the old run, clears the timer, and starts a new run; the old job snapshot is kept |
| UseJob.JobHook.Unmount | apps/web/lib/hooks/useJob.ts:45-48 | cancels the live run and clears its timer |
| UseJob.JobHook.TimerFires | apps/web/lib/hooks/useJob.ts:27-30 | the armed timer starts the next fetch of its run |
| UseJob.JobHook.FetchSucceeds | apps/web/lib/hooks/useJob.ts:31-37 | a cancelled run changes nothing; the live run stores the job and either completes once (terminal status) or re-arms after 1200 ms |
| UseJob.JobHook.FetchFails | apps/web/lib/hooks/useJob.ts:38-41 | only the live run re-arms, after 2000 ms |
| UseJob.JobHook.Clear | apps/web/lib/hooks/useJob.ts:15-18 | job and error are cleared |
| JobStatusPanel.JobStatusView.Renders | apps/web/components/JobStatus.tsx:35 | the panel shows iff the job id is truthy |
| JobStatusPanel.JobStatusView.constructor | apps/web/components/JobStatus.tsx:11-31 | mounting with a job id starts run 0 with a tick in flight |
| JobStatusPanel.JobStatusView.Render | apps/web/components/JobStatus.tsx:11-33 | a new id clears the old run's `alive` and its timer, then starts a new run |
| JobStatusPanel.JobStatusView.TimerFires | apps/web/components/JobStatus.tsx:16-18 | a fired timer starts the next fetch |
| JobStatusPanel.JobStatusView.FetchSucceeds | apps/web/components/JobStatus.tsx:18-25 | a dead run changes nothing; the live run stores the job and calls `onFinished` on a terminal status, or re-arms after 1200 ms |
| JobStatusPanel.JobStatusView.FetchFails | apps/web/components/JobStatus.tsx:26-28 | any run, live or not, re-arms after 1500 ms |
| JobStatusPanel.JobStatusView.Unmount | apps/web/components/JobStatus.tsx:32 | clears `alive` and the live run's timer only |
| JobStatusPanel.Badge | apps/web/components/JobStatus.tsx:43 | the job's status when non-empty, else the ellipsis; never empty |
| JobStatusPanel.MessageLine | apps/web/components/JobStatus.tsx:46 | the job's message when truthy, else `Polling…` |
| JobStatusPanel.OrphanedTimer | apps/web/components/JobStatus.tsx:26-32 | a fetch that fails after unmounting leaves a 1500 ms timer armed with no live run |
| Render.Bullets | apps/api/app/services/generate/render.py:11 | one `- item` line per item, in order |
| Render.Kept | apps/api/app/services/generate/render.py:10-17 | the indices of exactly the non-empty sections, increasing |
| Render.KeptStep | apps/api/app/services/generate/render.py:10-17 | one more section adds its index iff it is non-empty |
| Render.AppendSection | apps/api/app/services/generate/render.py:28-30 | a non-empty section appends its block, an empty one nothing |
| Render.Blocks | apps/api/app/services/generate/render.py:22-30 | the blocks of exactly the non-empty sections, in order (`SectionBlocks`) |
| Render.TermLines | apps/api/app/services/generate/render.py:13 | one `- **term**: definition` line per term |
| Render.SummaryBlocks | apps/api/app/services/generate/render.py:7-17 | the list is `SummaryDoc`: the summary header with the stripped overview, then the blocks of the non-empty concept/term/pitfall/takeaway sections |
| Render.McqLines | apps/api/app/services/generate/render.py:39-43 | the lines are `McqItemLines(i, q)` |
| Render.McqItemShape | apps/api/app/services/generate/render.py:39-43 | a question's lines: its numbered heading, at most four options numbered from 1, the 1-based answer line, then the explanation line |
| Render.MultipleChoice | apps/api/app/services/generate/render.py:35-43 | the lines are `MultipleChoiceLines(mcq)`: nothing for no questions, else the heading and each question's lines numbered from 1 |
| Render.McqPartsLength | apps/api/app/services/generate/render.py:38-43 | at least three lines per question |
| Render.MultipleChoiceShape | apps/api/app/services/generate/render.py:35-43 | empty iff there are no questions; otherwise the heading first and at least three lines per question |
| Render.ShortAnswers | apps/api/app/services/generate/render.py:44-49 | the lines are `ShortAnswerLines(sa)` |
| Render.ShortPartsShape | apps/api/app/services/generate/render.py:47-49 | two lines per question: its numbered heading, then its answer |
| Render.ShortAnswerShape | apps/api/app/services/generate/render.py:44-49 | empty iff there are no questions; otherwise the heading, then per question its numbered line and its answer |
| Render.CodingChallenges | apps/api/app/services/generate/render.py:50-60 | the lines are `CodingLines(coding)`: nothing for no challenges, else the heading and per challenge its prompt and the blocks of its non-empty lists |
| Render.CodingPartsLength | apps/api/app/services/generate/render.py:53-60 | at least one line per challenge |
| Render.CodingShape | apps/api/app/services/generate/render.py:50-60 | empty iff there are no challenges; otherwise the heading first and at least one line per challenge |
| Render.LabBlocks | apps/api/app/services/generate/render.py:64-69 | the list is `LabDoc`: the lab header, the objective, then the blocks of the non-empty sections |
| Render.Finish | apps/api/app/services/generate/render.py:18 | the stripped newline join, with no outer whitespace, still starting with the title |
| Render.JoinedPrefix | apps/api/app/services/generate/render.py:18 | stripping the join keeps a prefix of the first block that starts with a non-space |
| Render.LabOpening | apps/api/app/services/generate/render.py:64-70 | the lab document starts with `# Lab`, a blank line and `## Objective` |
| Render.SummaryMarkdown | apps/api/app/services/generate/render.py:7-18 | the result is the stripped newline join of `SummaryDoc`; it has no outer whitespace and starts with `# Summary` |
| Render.TakeawaysMarkdown | apps/api/app/services/generate/render.py:20-31 | the result is the stripped newline join of `TakeawaysDoc`; it has no outer whitespace and starts with `# Key Takeaways` |
| Render.QuizMarkdown | apps/api/app/services/generate/render.py:33-61 | the result is the stripped newline join of `QuizDoc` (title, multiple-choice, short-answer and coding parts in that order); no outer whitespace, starts with `# Quiz` |
| Render.LabMarkdown | apps/api/app/services/generate/render.py:63-70 | the result is the stripped newline join of `LabDoc`; no outer whitespace, starts with the title and the objective heading |
| Render.ToMarkdown | apps/api/app/services/generate/render.py:5-72 | each known type gives the stripped join of its own document, starting with its title; any other type gives the JSON dump |
| Artifacts.OfKind | apps/web/lib/hooks/useArtifacts.ts:43 | the artifacts of one type; empty iff none has that type |
| Artifacts.OfKindCounts | apps/web/lib/hooks/useArtifacts.ts:43 | filtering keeps every artifact of the type as often as it occurs |
| Artifacts.Kinds | apps/web/components/ArtifactPanel.tsx:31-36 | the distinct types: each once, exactly the types that occur, the first artifact's type first |
| Artifacts.FirstOf | apps/web/components/ArtifactPanel.tsx:31-36 | the index of the first artifact of a type: it has that type and no earlier one does |
| Artifacts.KindsFirstSeen | apps/web/components/ArtifactPanel.tsx:31-36 | the types are listed in order of their first occurrence |
| Artifacts.SortDescSorts | apps/web/lib/hooks/useArtifacts.ts:44 | sorting gives a newest-first permutation |
| Artifacts.SortDescHead | apps/web/lib/hooks/useArtifacts.ts:44 | the stable sort's head is the first artifact of the highest version |
| Artifacts.FirstMax | apps/web/lib/hooks/useArtifacts.ts:44 | the first index of a highest version |
| Artifacts.GroupSizesSum | apps/web/components/ArtifactPanel.tsx:31-40 | the group sizes add up to the number of artifacts |
| ArtifactTabs.LatestAt | apps/web/components/artifacts/ArtifactTabs.tsx:25-34 | the first artifact of the type with the highest version, or -1 when the type is absent |
| ArtifactTabs.GetLatestByType | apps/web/components/artifacts/ArtifactTabs.tsx:25-34 | the map holds exactly the present types, each with its latest artifact; keys are in first-occurrence order |
| ArtifactTabs.LatestStep | apps/web/components/artifacts/ArtifactTabs.tsx:27-31 | one more artifact replaces the entry iff its version is strictly higher |
| ArtifactTabs.Render | apps/web/components/artifacts/ArtifactTabs.tsx:36-66 | no artifacts gives the empty message; otherwise the first artifact's type is active and each of the four tabs is disabled iff its type is absent |
| UseArtifacts.ByType | apps/web/lib/hooks/useArtifacts.ts:40-47 | none iff the type is absent; otherwise an artifact of that type with the highest version |
| UseArtifacts.ByTypeIsLatest | apps/web/lib/hooks/useArtifacts.ts:40-47 | `byType` and `getLatestByType` pick the same artifact |
| UseArtifacts.AvailableTypes | apps/web/lib/hooks/useArtifacts.ts:49-52 | exactly the types for which `byType` finds an artifact |
| UseArtifacts.ArtifactsHook.Fetch | apps/web/lib/hooks/useArtifacts.ts:11-30 | without a chapter the list is cleared; otherwise loading, error cleared, and a call in flight |
| UseArtifacts.ArtifactsHook.constructor | apps/web/lib/hooks/useArtifacts.ts:6-36 | mounting with a chapter starts the effect's signalled fetch |
| UseArtifacts.ArtifactsHook.Render | apps/web/lib/hooks/useArtifacts.ts:32-36 | the same id changes nothing; a new id aborts the previous effect's call; a new truthy id then sets loading, clears the error and starts call number `nextCall` for it as the new effect call; a new falsy id empties the list and leaves loading, error and the calls as they were |
| UseArtifacts.ArtifactsHook.Refetch | apps/web/lib/hooks/useArtifacts.ts:38 | a fetch without a signal, which nothing aborts |
| UseArtifacts.ArtifactsHook.Resolve | apps/web/lib/hooks/useArtifacts.ts:20-21 | any open call that returns data, aborted or not, stores the data, clears loading and keeps the error; the call is closed and nothing else changes |
| UseArtifacts.ArtifactsHook.Reject | apps/web/lib/hooks/useArtifacts.ts:22-27 | an aborted call leaves the error; another one shows its message or `Failed to load artifacts` |
| ArtifactPanel.PushByType | apps/web/components/ArtifactPanel.tsx:31-36 | each type's group is the filtered list, keys in first-occurrence order |
| ArtifactPanel.SortGroups | apps/web/components/ArtifactPanel.tsx:37-39 | each group is sorted newest first |
| ArtifactPanel.SortedGroup | apps/web/components/ArtifactPanel.tsx:31-40 | a sorted group is newest first, of one type, a permutation of that type's artifacts, and headed by a newest one |
| ArtifactPanel.Grouped | apps/web/components/ArtifactPanel.tsx:31-40 | groups partition the artifacts by type, newest first, sizes adding up to the list, heads of highest version |
| ArtifactPanel.TotalIsGroupSizes | apps/web/components/ArtifactPanel.tsx:31-40 | the group sizes equal the filtered counts |
| ArtifactPanel.Panel.Effect | apps/web/components/ArtifactPanel.tsx:16-29 | without a chapter nothing happens; otherwise a new live run clears the error and fetches |
| ArtifactPanel.Panel.constructor | apps/web/components/ArtifactPanel.tsx:16-29 | mounting runs the effect |
| ArtifactPanel.Panel.Render | apps/web/components/ArtifactPanel.tsx:16-29 | a changed chapter or refresh key retires the old run and, for a truthy chapter id, starts a new run recorded against that chapter; otherwise nothing changes |
| ArtifactPanel.Panel.Unmount | apps/web/components/ArtifactPanel.tsx:28 | the cleanup retires the live run |
| ArtifactPanel.Panel.Resolve | apps/web/components/ArtifactPanel.tsx:21-24 | only the live run stores data, which was then fetched for the chapter shown |
| ArtifactPanel.Panel.Reject | apps/web/components/ArtifactPanel.tsx:21-26 | only the live run stores its error |
| QuizView.Questions | apps/web/components/artifacts/quiz/QuizView.tsx:56-62 | all multiple-choice, then short-answer, then coding questions, each in its place |
| QuizView.SetSlot | apps/web/components/artifacts/quiz/QuizView.tsx:32-36 | JavaScript array assignment: in range one slot changes; past the end the array grows with holes; a negative index changes no element |
| QuizView.Reducer | apps/web/components/artifacts/quiz/QuizView.tsx:30-47 | answer writes the slot; next advances or finishes at the end; prev stops at 0; reset clears all answers |
| QuizView.ReducerKeepsRange | apps/web/components/artifacts/quiz/QuizView.tsx:30-47 | a dispatched action keeps the current question in range and the slot count fixed |
| QuizView.RunKeepsRange | apps/web/components/artifacts/quiz/QuizView.tsx:64-79 | any run of dispatched actions from the start stays in range |
| QuizView.DispatchOf | apps/web/components/artifacts/quiz/QuizView.tsx:70-79 | the view answers for the current question and resets with the question count |
| QuizView.Score | apps/web/components/artifacts/quiz/QuizView.tsx:89-98 | the number of correct answers, at most the count, all iff every slot is correct |
| QuizView.ScoreAfterAnswer | apps/web/components/artifacts/quiz/QuizView.tsx:32-36 | answering changes the score by the change of that one slot |
| QuizView.ScoreOfNulls | apps/web/components/artifacts/quiz/QuizView.tsx:44-45 | after a reset the score is 0 |
| QuizView.View | apps/web/components/artifacts/quiz/QuizView.tsx:81-167 | empty quiz message iff no questions; results with the score iff finished; otherwise Previous disabled on the first, Next disabled until answered, Finish on the last |
| McqCard.Card.constructor | apps/web/components/artifacts/quiz/MCQCard.tsx:16-18 | nothing selected, not revealed, nothing reported |
| McqCard.Card.Select | apps/web/components/artifacts/quiz/MCQCard.tsx:20-23 | selects unless revealed or disabled |
| McqCard.Card.Submit | apps/web/components/artifacts/quiz/MCQCard.tsx:25-31 | with a selection and not yet revealed: reveals, marks a wrong pick and reports correctness once; otherwise nothing |
| McqCard.Clicks | apps/web/components/artifacts/quiz/MCQCard.tsx:20-31 | any click sequence reports at most once, and the report matches the selection |
| LabView.Lab.constructor | apps/web/components/artifacts/lab/LabView.tsx:26-28 | step 0 current, nothing completed |
| LabView.Lab.ToggleStep | apps/web/components/artifacts/lab/LabView.tsx:30-37 | flips one step's completion only |
| LabView.Lab.ToggleDeliverable | apps/web/components/artifacts/lab/LabView.tsx:39-46 | flips one deliverable's completion only |
| LabView.Lab.ClickDot | apps/web/components/artifacts/lab/LabView.tsx:123-128 | toggles the step and advances only from the current, undone, non-last step |
| LabView.Lab.ClickStep | apps/web/components/artifacts/lab/LabView.tsx:159 | makes the step current |
| LabView.Lab.Completed | apps/web/components/artifacts/lab/LabView.tsx:108 | the counter never exceeds the step count |
| Db.ToAsyncUrl | apps/api/app/db.py:5-9 | a `sqlite:///` URL gets the `sqlite+aiosqlite:///` prefix with the rest kept; any other URL is unchanged |
| Db.PrefixesExclusive | apps/api/app/db.py:7 | no URL has both prefixes, so the guard's second test never decides |
| Db.ToAsyncUrlIdempotent | apps/api/app/db.py:5-9 | converting twice is converting once |
| Db.RewritesSyncUrl | apps/api/app/db.py:5-9 | a URL made of the synchronous SQLite prefix and any path becomes the async prefix followed by the same path |
| Db.DefaultUrl | apps/api/app/settings.py:6 | the default database URL `sqlite:////data/coursegen.db` becomes `sqlite+aiosqlite:////data/coursegen.db` |
| OpenAiProvider.MentionsAny | apps/api/app/services/llm/openai_provider.py:16 | true iff the message contains `error c` for some c in the range |
| OpenAiProvider.IsRetryable | apps/api/app/services/llm/openai_provider.py:8-18 | retryable iff a RuntimeError mentions neither 401 nor 403 and mentions 429 or a 5xx code |
| OpenAiProvider.MentionsOwnStatus | apps/api/app/services/llm/openai_provider.py:52 | the raised message contains `error <status>` |
| OpenAiProvider.RaisedStatusRetry | apps/api/app/services/llm/openai_provider.py:8-18 | the provider's own 401/403 errors are not retried; 429 and 5xx errors are unless the body mentions 401/403 |
| OpenAiProvider.TrimSlashes | apps/api/app/services/llm/openai_provider.py:26 | `rstrip("/")`: the longest prefix without trailing slashes |
| OpenAiProvider.NewProvider | apps/api/app/services/llm/openai_provider.py:24-28 | fails with the missing-key message iff the chosen key is missing or empty; otherwise the key chosen by `or`, and the base URL without trailing slashes |
| OpenAiProvider.TrailingSlashesIgnored | apps/api/app/services/llm/openai_provider.py:26 | extra trailing slashes on the base URL give the same provider |
| OpenAiProvider.TrimAppendedSlashes | apps/api/app/services/llm/openai_provider.py:26 | trimming ignores appended slashes |
| Format.Capitalize | apps/web/lib/format.ts:23-25 | same length; the first character upper-cased, the rest unchanged |
| Format.CapitalizeIdempotent | apps/web/lib/format.ts:23-25 | capitalising twice is capitalising once |
| Format.Pluralize | apps/web/lib/format.ts:27-29 | count 1 gives the singular; otherwise the given plural, or the singular plus `s` |
| TermGlossary.Filtered | apps/web/components/artifacts/summary/TermGlossary.tsx:21-29 | an empty search keeps all terms; otherwise exactly the terms whose term or definition contains the lower-cased search, in order and each as often as in the input |
| TermGlossary.View | apps/web/components/artifacts/summary/TermGlossary.tsx:31-64 | nothing without terms; otherwise the filtered list and the no-match message iff it is empty |
| TermGlossary.SearchIgnoresCase | apps/web/components/artifacts/summary/TermGlossary.tsx:21-29 | searches differing only in letter case give the same list |
| TermGlossary.LongerSearchNarrows | apps/web/components/artifacts/summary/TermGlossary.tsx:21-29 | extending the search never adds a term |
| ChapterNav.Filtered | apps/web/components/book/ChapterNav.tsx:25-29 | an empty search keeps all chapters; otherwise exactly those whose title contains the lower-cased search, in order and each as often as in the input |
| ChapterNav.View | apps/web/components/book/ChapterNav.tsx:25-59 | items mirror the filtered chapters, an item is active iff its index is the active one, and the not-found message iff none remain |
| ChapterNav.FilterKeepsUnique | apps/web/components/book/ChapterNav.tsx:25-29 | filtering keeps chapter indices distinct |
| ChapterNav.AtMostOneActive | apps/web/components/book/ChapterNav.tsx:51 | with distinct indices at most one item is active |

## Left out

- I/O is not modelled: HTTP requests, database sessions, the job queue, file access and `print` logging. Their results are parameters or event methods.
- The regular expressions of `chapterize.py` are inputs. The model takes their results rather than computing them: `_clean_title`, `_chapter_number`, `_heading_candidates`, `_extract_printed_toc`, `_spans_from_toc_titles`, and the subtitle pattern with its `finditer` search.
- Python floats are exact arithmetic here. The coverage tests become `2 * covered >= len`. The cut rule `cut < i + max_chars * 0.5` becomes `2 * cut < 2 * i + max_chars`. The TOC score's coverage is a `real` quotient.
- Case mapping (`lower`, `casefold`, `toUpperCase`, `toLowerCase`) is ASCII only. There is no Unicode case folding.
- `json.dumps(data, indent=2)` for unknown artifact types is the parameter `dumped`. The model states only that it is returned verbatim.
- The tenacity retry loop is not modelled (attempt count, backoff). Only the predicate it calls is.
- Chunking.ChunksCover: coverage is stated for a non-negative overlap only; with a negative overlap the loop starts the next window past the cut and the skipped text is not covered, which the source allows.
- Chunking.ChunkText: requires `max_chars >= 1`. Python's behaviour for zero or negative windows (slices with negative bounds) is not modelled.
- Chapterize.BuildSpansFromHeadings: requires every heading page to lie in `1..len(page_offsets)`. Its only caller filters entries to that range first.
- Chapterize.IsNearPageTop: requires sorted page offsets, which `bisect` presumes.
- Chapterize.Chapterize: also requires sorted page offsets.
- ChapterSpans.SortBy: a stable insertion sort that states sortedness and permutation. Python's tie order beyond the key is not stated.
- Render.ToMarkdown: the dictionaries are typed records with optional fields. `data.get(...)` of a non-list or non-string value and `int(answer_index)` conversion errors are not modelled.
- The ordering of integer-like keys in JavaScript objects, and `Object.entries` over keys other than the four outputs, are not modelled. The output flags are a record.
- OpenAiProvider.RaisedStatusRetry: the body is any string, standing for `r.text[:500]`. The truncation to 500 characters is not modelled.
- OpenAiProvider.NewProvider: the base URL is trimmed before the key check, as in the source, and the order is not observable in the model.
- The `generate` method of the OpenAI provider is out of scope, apart from the message it raises. That covers the payload construction and the JSON extraction.
- Components' JSX layout, icons, animation and styling are left out. Only the state, the handlers and the conditions that decide what is shown are modelled.
- Behaviour the source has and the model keeps as written:
  - a failing `JobStatus` fetch after cleanup arms an orphan timer;
  - `GenerationControls` posts with no outputs checked, and the schema accepts an empty list and any temperature;
  - `useJob` keeps the previous job snapshot when the id changes;
  - a `refetch` in `useArtifacts` has no abort signal, so its data is stored even after the chapter changed;
  - `QuizView` answers past the array's end leave holes;
  - `MCQCard`'s submit ignores `disabled`;
  - a message containing `error 5000` also matches the 5xx test;
  - `GenerationControls` throws when the provider list is empty; `LoadProviders` then reports `ok == false`.

## Findings

| source | as written | input that shows it | evidently intended | confidence | as-written member | corrected member |
|---|---|---|---|---|---|---|
| apps/api/app/workers/tasks.py:40 | the payload is spread into `generate_artifacts` as keywords, and the request's field `provider` is not one of its keywords (it takes `provider_name` and has no catch-all) | any enqueued generation request | the request's provider reaches the engine as `provider_name` | high; not executed | Tasks.AsWrittenJobFails | Tasks.FinalRow |
| apps/api/app/workers/tasks.py:33-34 | the synchronous progress callback hands its update to `run_until_complete` of the event loop that is already running the engine, and the engine awaits its `None` result | a request with the key renamed whose engine reports progress once | each progress report updates the job row | high; not executed | Tasks.CallbackRaises | Tasks.JobTable.GenerateJob |
