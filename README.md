# File analyzer: the two text-statistics passes

The file analyzer takes an uploaded text file and splits it into lines. It then counts
eight things: paragraphs, lines, words, characters, letters, digits, vowels and
non-vowel letters. It does this twice, and both passes live in
`controllers/file_controller.go`:

- `analyzeSimple` is one loop over the lines. It keeps eight integer counters and one
  flag, `isParaCounted`. The flag says whether the current run of non-blank lines has
  already been counted as a paragraph.
- `analyzeConcurrent` cuts the lines into chunks of 10. Each chunk is counted in its own
  goroutine, into a fresh map and with a fresh paragraph flag. The chunk maps are then
  added key by key into a shared `total` map.

This project models both passes and proves what each one computes.

- `text.dfy` (module `Text`) models `strings.TrimSpace` and `strings.Fields`.
  - Both are defined over a character classifier.
  - Their shapes are proved: what is trimmed is whitespace; the words are non-empty, hold no
    whitespace, and are the text with its whitespace removed. Their number is the number of
    word starts, counted independently, so the word count is fixed.
- `counters.dfy` (module `Counters`) is the record of eight counters.
  - It models the result map keyed by the eight counter names; an absent key reads as 0, as
    Go's map index does.
  - Merging is key-wise addition, proved commutative and associative.
  - A sum of chunk results does not depend on the order of the chunks.
  - The record invariant (`alpha == vowels + nonVowels`, and so on) survives addition.
- `analysis.dfy` (module `Analysis`) holds the specification functions.
  - They cover the per-line step, the sequential fold `Sequential`, the partition `Chunks`,
    and the chunked analysis `Chunked`, which sums the sequential analyses of the chunks.
  - The main theorem is `Agreement`. The chunked result equals the sequential result except
    for the paragraph count, which exceeds it by exactly the number of chunk boundaries
    where the last line of one chunk and the first line of the next are both non-blank.
- `file_controller.dfy` (module `FileController`) holds the loops as the program writes
  them.
  - `AnalyzeSimple` runs the line loop. Each iteration is `CountLine`, which runs the
    character loop `CountChars`.
  - `AnalyzeConcurrent` and `AnalyzeChunks` run the chunked loop, counting each chunk into a
    map with `m[k]++`-style updates and merging with `total[k] += v`.
  - Each method is proved equal to the specification function it implements.

Some properties follow from the code and are worth stating:

- For an empty document, `analyzeSimple` returns all eight keys with value 0, and
  `analyzeConcurrent` returns an empty map.
- More generally, the concurrent map holds exactly the keys whose count is positive, while
  the simple map always holds all eight.
- With one line per chunk, the concurrent paragraph count is the number of non-blank lines.
- With at most one chunk, the two passes agree on every counter: the maps read the same at
  every key, and the concurrent one omits the zero keys.
- The concurrent paragraph count is not monotone in the chunk size.
  - Smaller chunks can count fewer paragraphs than larger ones.
  - Example: `["x", "", "x", "x", "", "x"]` gives 4 paragraphs with chunks of 3 and only 3
    with chunks of 2. This is proved in `ChunkSizeNotMonotone`.
  - So a claim that paragraph counts only grow as chunks shrink does not hold for this code.
- A character counts as a digit only when it is not a letter (the `else if` at line 105).
  The model keeps that order.

## Model

| member | source | states |
|---|---|---|
| Text.LeadingSpace | controllers/file_controller.go:88 | the leading-whitespace length of a line is at most its length, and the character after it is not whitespace |
| Text.LeadingSpaceIsSpace | controllers/file_controller.go:88 | everything `TrimSpace` drops at the front is whitespace |
| Text.TrailingSpace | controllers/file_controller.go:88 | the trailing-whitespace length is at most the line's length, the character before it is not whitespace, and it stops short of a non-space first character |
| Text.TrailingSpaceIsSpace | controllers/file_controller.go:88 | everything `TrimSpace` drops at the end is whitespace |
| Text.TrimSpace | controllers/file_controller.go:88-89 | the trimmed line is no longer than the line, and is empty exactly when the line is all whitespace (the blank-line test) |
| Text.TrimSpaceShape | controllers/file_controller.go:88 | the line is whitespace, then the trimmed text, then whitespace; a non-empty trimmed text starts and ends with a non-space character |
| Text.WordLength | controllers/file_controller.go:94 | a word ends at the first whitespace character and is non-empty when the text starts with a non-space character |
| Text.WordLengthNoSpace | controllers/file_controller.go:94 | a word holds no whitespace |
| Text.Fields | controllers/file_controller.go:94-95 | there are no more words than characters, and none exactly when the text is all whitespace |
| Text.FieldsAreWords | controllers/file_controller.go:94 | every field is non-empty and holds no whitespace |
| Text.FieldsCover | controllers/file_controller.go:94 | the fields, concatenated, are the text with its whitespace removed |
| Text.FieldsCount | controllers/file_controller.go:94-95 | the number of fields, which is what `len(words)` adds to the word count, is the number of word starts: positions holding a non-whitespace character that is first or follows whitespace (`WordStarts`, counted left to right) |
| Text.UnspacedAppend | controllers/file_controller.go:94 | removing whitespace distributes over concatenation |
| Counters.FromTallyReads | controllers/file_controller.go:153-173 | the record a counter map denotes reads every key as the map does, absent keys as 0 |
| Counters.ToTally | controllers/file_controller.go:114-123 | the simple pass's result map holds all eight keys, each mapped to its counter, and denotes the record back |
| Counters.EveryKeyListed | controllers/file_controller.go:114-123 | the eight-entry map literal lists every key with its counter |
| Counters.FieldsDetermine | controllers/file_controller.go:114-123 | two records that agree on every key are equal |
| Counters.Get | controllers/file_controller.go:153 | reading a key absent from a map gives 0, as Go's map index does (definition) |
| Counters.Add | controllers/file_controller.go:183 | the merge of two results, counter by counter (definition; see `AddKeywise`) |
| Counters.Sum | controllers/file_controller.go:181-184 | the running total after merging a sequence of chunk results in order (definition; see `SumPermutation`) |
| Counters.AddKeywise | controllers/file_controller.go:182-184 | merging adds every key separately |
| Counters.AddCommutes | controllers/file_controller.go:181-184 | merging two results in either order gives the same total |
| Counters.AddAssociates | controllers/file_controller.go:181-184 | merging is associative |
| Counters.AddConsistent | controllers/file_controller.go:181-184 | the sum of two records satisfying the counter invariant satisfies it |
| Counters.SumAppend | controllers/file_controller.go:181-184 | the total of two batches of chunk results is the sum of their totals |
| Counters.SumRemove | controllers/file_controller.go:181-184 | any one chunk's result can be merged last without changing the total |
| Counters.SumPermutation | controllers/file_controller.go:181-189 | the merged total is the same for every order in which the goroutines take the mutex |
| Counters.SumConsistent | controllers/file_controller.go:181-184 | a total of invariant-respecting records respects the invariant |
| Text.IsVowel | controllers/file_controller.go:100 | a character is a vowel exactly when it is one of aeiouAEIOU, as the rune-membership test on the vowel string decides (definition; see Analysis.CharDelta) |
| Analysis.CharDelta | controllers/file_controller.go:97-107 | one character adds one to chars; a letter adds one to alpha and to vowels or non-vowels; a non-letter digit adds one to digits |
| Analysis.CharStats | controllers/file_controller.go:96-108 | the character loop counts every character, splits letters into vowels and non-vowels, and counts no more letters and digits than characters |
| Analysis.Blank | controllers/file_controller.go:89 | the test `trimmed != ""` negated: the line is all whitespace (definition; see `BlankIsEmptyTrim`) |
| Analysis.BlankIsEmptyTrim | controllers/file_controller.go:88-89 | a line is blank exactly when its trimmed text is empty |
| Analysis.LineDelta | controllers/file_controller.go:87-108 | what one line adds to the counters given the paragraph flag (definition; see `LineDeltaFacts`) |
| Analysis.LineDeltaFacts | controllers/file_controller.go:87-108 | one line adds one line, a paragraph exactly when it is non-blank and the flag is clear, one word per word start and one character per character of the trimmed line, and keeps the invariant |
| Analysis.Step | controllers/file_controller.go:86-111 | the body of the line loop: counters plus `LineDelta`, flag set to whether the line is non-blank (definition; see `BlankLineStep`, `NonBlankLineStep`) |
| Analysis.BlankLineStep | controllers/file_controller.go:87-111 | a blank line adds one line, nothing else, and clears the paragraph flag |
| Analysis.NonBlankLineStep | controllers/file_controller.go:87-108 | a non-blank line adds a line, a paragraph when the flag was clear, its words and its trimmed characters, and sets the flag |
| Analysis.StepConsistent | controllers/file_controller.go:86-111 | one line keeps the counter invariant |
| Analysis.RunFacts | controllers/file_controller.go:86-112 | the loop counts every line, leaves the flag telling whether the last line was non-blank, and keeps the invariant |
| Analysis.Run | controllers/file_controller.go:86-112 | the line loop from a given state (definition; see `RunFacts`, `RunAppend`) |
| Analysis.Sequential | controllers/file_controller.go:79-124 | `analyzeSimple`: the line loop from zero counters and a clear flag (definition; see `SequentialFacts`, `ParagraphsAreRuns`) |
| Analysis.RunMonotone | controllers/file_controller.go:86-112 | no counter ever decreases over the loop, from any state |
| Analysis.ConsumedMonotone | controllers/file_controller.go:86-112 | the counters after a prefix of the lines are at most those after any longer prefix |
| Analysis.NonBlankCountAppend | controllers/file_controller.go:89 | non-blank lines of two parts add up |
| Analysis.ParagraphsAreRuns | controllers/file_controller.go:83-111 | the paragraph count is the number of maximal runs of non-blank lines |
| Analysis.ParagraphsAreRunsUpTo | controllers/file_controller.go:83-111 | after any prefix, the paragraph count is the number of runs that start in it, and the flag says whether its last line is non-blank |
| Analysis.ParagraphsAtMostNonBlank | controllers/file_controller.go:89-93 | no more paragraphs are counted than there are non-blank lines |
| Analysis.SequentialFacts | controllers/file_controller.go:79-124 | the simple pass counts all lines, at most one paragraph per non-blank line, and satisfies the counter invariant |
| Analysis.RunAppend | controllers/file_controller.go:86-112 | running the loop over two parts in turn is running it over the whole |
| Analysis.RunShift | controllers/file_controller.go:80-83 | starting counters only shift the result; what the loop adds does not depend on them |
| Analysis.RunReset | controllers/file_controller.go:150-158 | starting with a clear flag instead of a set one adds exactly one paragraph when the first line is non-blank |
| Analysis.Chunks | controllers/file_controller.go:130-144 | the chunks concatenate back to the lines, and there are as many as the loop bound says |
| Analysis.ChunkSizes | controllers/file_controller.go:140-144 | every chunk is non-empty and at most chunk-size long, and all but the last are full |
| Analysis.ChunkCountIsCeiling | controllers/file_controller.go:132 | the number of chunks is `(numLines + chunkSize - 1) / chunkSize` |
| Analysis.ChunkAt | controllers/file_controller.go:139-144 | chunk `i` is `lines[i*chunkSize : min((i+1)*chunkSize, numLines)]`, and its start is in range |
| Analysis.ChunkFrom | controllers/file_controller.go:140-144 | the same slice, with the start as a running offset |
| Analysis.AnalyzeEach | controllers/file_controller.go:139-187 | one result per chunk |
| Analysis.AnalyzeEachAt | controllers/file_controller.go:147-178 | each chunk's result is the sequential analysis of that chunk alone |
| Analysis.Chunked | controllers/file_controller.go:129-191 | `analyzeConcurrent` with a given chunk size: the sum of the fresh-state analyses of the chunks (definition; see `Agreement`, `ChunkedFacts`) |
| Analysis.SumEachCons | controllers/file_controller.go:181-184 | the total is the first chunk's result plus the total of the rest |
| Analysis.AppendAnalysis | controllers/file_controller.go:150-158 | analysing a chunk and the rest separately counts one extra paragraph exactly when the chunk's last line and the next line are both non-blank |
| Analysis.SplitAnalysis | controllers/file_controller.go:147-184 | the sum of the chunk analyses is the whole-document analysis plus one paragraph per joined boundary |
| Analysis.Agreement | controllers/file_controller.go:79-191 | the concurrent result equals the simple result in every counter except the paragraph count, which exceeds it by the number of boundaries a paragraph runs across |
| Analysis.ChunkParagraphsAtMostNonBlank | controllers/file_controller.go:155-158 | the chunked paragraph count is at most the number of non-blank lines |
| Analysis.ChunkSumConsistent | controllers/file_controller.go:147-184 | the chunked total satisfies the counter invariant |
| Analysis.ChunkedFacts | controllers/file_controller.go:129-191 | the concurrent result satisfies the invariant, counts every line, and its paragraph count is between the simple one and the number of non-blank lines |
| Analysis.OneChunkAgrees | controllers/file_controller.go:130-132 | for a document of at most one chunk, the two passes agree on every counter (the maps read the same at every key; the concurrent one omits zero keys) |
| Analysis.SingleLine | controllers/file_controller.go:89-111 | a one-line document has one paragraph when the line is non-blank, none otherwise |
| Analysis.UnitChunksCountNonBlank | controllers/file_controller.go:150-158 | with one line per chunk, the paragraph count is the number of non-blank lines |
| Analysis.ChunkSizeNotMonotone | controllers/file_controller.go:130-150 | a six-line document gets more paragraphs with chunks of 3 than with chunks of 2 |
| FileController.RunPrefix | controllers/file_controller.go:86 | one more iteration of the line loop is one more step |
| FileController.NonBlankLine | controllers/file_controller.go:89-108 | the counters after a non-blank line's paragraph and word updates, plus its character counts, are the step's result |
| FileController.TrimmedHasWords | controllers/file_controller.go:89-94 | a non-blank trimmed line has at least one word |
| FileController.CountChar | controllers/file_controller.go:97-107 | the per-character update adds exactly `CharDelta` |
| FileController.CountChars | controllers/file_controller.go:96-108 | the character loop adds exactly the trimmed line's `CharStats` |
| FileController.CountLine | controllers/file_controller.go:87-111 | the per-line body computes exactly the specified step, counters and flag together |
| FileController.AnalyzeSimple | controllers/file_controller.go:79-124 | the simple pass returns the eight-key map of the sequential analysis |
| FileController.ReadsAsRecord | controllers/file_controller.go:189-190 | a map whose keys read as a record denotes that record, and, when every key it holds is positive, holds exactly the keys of its positive counters |
| FileController.Bump | controllers/file_controller.go:153 | `m[k] += n` on a map whose absent keys read as 0 (definition; see `BumpReads`) |
| FileController.BumpReads | controllers/file_controller.go:153 | `m[k] += n` adds `n` at `k`, makes `k` a key, and leaves every other key unchanged |
| FileController.BumpPositive | controllers/file_controller.go:153-172 | incrementing a map by a positive amount keeps every present key positive |
| FileController.CountCharInto | controllers/file_controller.go:163-173 | the per-character map update adds `CharDelta` key by key and keeps keys positive |
| FileController.CountCharsInto | controllers/file_controller.go:162-174 | the character loop over a map adds the trimmed line's `CharStats` key by key |
| FileController.CountLineInto | controllers/file_controller.go:153-177 | the per-line map update adds the line's specified counts key by key and sets the flag to whether the line is non-blank |
| FileController.HeadCounts | controllers/file_controller.go:153-161 | the line, paragraph and word increments add their record |
| FileController.BlankCounts | controllers/file_controller.go:153-177 | a blank line adds only to the line count |
| FileController.ReadsAsGrown | controllers/file_controller.go:152-178 | a map that reads as a record and grows by a delta reads as their sum |
| FileController.GrownTwice | controllers/file_controller.go:152-178 | two growth steps in turn grow by their sum |
| FileController.AnalyzeChunk | controllers/file_controller.go:149-178 | a chunk's map reads as the sequential analysis of the chunk and holds exactly the keys of its positive counters |
| FileController.Merge | controllers/file_controller.go:182-184 | merging adds every key of the chunk map into the total, and the total's keys become the union |
| FileController.MergeStep | controllers/file_controller.go:181-184 | after merging chunk `i`, the total reads as the sum of the first `i + 1` chunk results |
| FileController.AnalyzeChunks | controllers/file_controller.go:129-191 | the chunked pass returns a map denoting `Chunked`, holding exactly the positive counters' keys, and empty for an empty document |
| FileController.AnalyzeConcurrent | controllers/file_controller.go:129-191 | the concurrent pass with chunks of 10 returns the map of `Chunked(lines, 10)` |

## Left out

- `UploadFile` and `DeleteFile`: reading the multipart upload, splitting it into lines with
  `bufio.Scanner`, timing the passes, writing to and deleting from the database, and the
  JSON response are not modelled. The model starts from the sequence of lines.
- `Merge` and `AnalyzeChunks`: goroutines, `sync.WaitGroup` and `sync.Mutex` are not
  modelled. The chunks are merged in index order. `SumPermutation` proves that every other
  merge order gives the same total, so the interleaving cannot change the result.
- Unicode: `unicode.IsLetter`, `unicode.IsDigit` and `unicode.IsSpace` are not modelled as
  tables. They are the three predicates of `Text.Classifier`, and every general result holds for
  any choice of them. The example `ChunkSizeNotMonotone` assumes only that 'x' is not
  whitespace.
- Characters: strings are sequences of `char` standing for Go runes. UTF-8 decoding,
  including the replacement of invalid bytes by U+FFFD when `range` walks a string, is not
  modelled.
- Integers: counters are unbounded. Overflow of Go's `int` (64 bits on 64-bit platforms,
  32 bits on 32-bit ones) is not modelled.
- `AnalyzeChunks`: it takes the chunk size as a parameter and requires it to be positive.
  The source hard-codes 10 and has no such check. `AnalyzeConcurrent` passes 10.
