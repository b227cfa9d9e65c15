/** The two analyzers as the program runs them: a sequential loop over the
    lines with eight counters and a paragraph flag, and a chunked variant in
    which every chunk is counted into a map of its own and the maps are
    merged into a running total. Each method is proved equal to the
    corresponding function of module Analysis. */
module FileController {
  import opened Text
  import opened Counters
  import opened Analysis

  /** Lines per chunk in the concurrent analyzer. */
  const ChunkSize: nat := 10

  // ---------------------------------------------------------------------
  // Steps of the loops, stated on the specification functions

  lemma RunPrefix(cls: Classifier, lines: seq<string>, i: nat)
    requires i < |lines|
    ensures Run(cls, Start, lines[..i + 1]) == Step(cls, Run(cls, Start, lines[..i]), lines[i])
  {
    assert lines[..i + 1][..i] == lines[..i];
  }

  /** One more character of the trimmed line counted. */
  lemma CharStatsPrefix(cls: Classifier, before: Stats, t: string, j: nat)
    requires j < |t|
    ensures Add(before, CharStats(cls, t[..j + 1]))
         == Add(Add(before, CharStats(cls, t[..j])), CharDelta(cls, t[j]))
  {
    assert t[..j + 1][..j] == t[..j];
    AddAssociates(before, CharStats(cls, t[..j]), CharDelta(cls, t[j]));
  }

  /** The counters after a non-blank line: first the paragraph, line and word
      counts, then the characters of the trimmed line. */
  lemma NonBlankLine(cls: Classifier, st: State, line: string, trimmed: string, before: Stats)
    requires trimmed == TrimSpace(cls, line) && trimmed != []
    requires before == Add(st.stats, Stats(if st.inPara then 0 else 1, 1, |Fields(cls, trimmed)|, 0, 0, 0, 0, 0))
    ensures Step(cls, st, line) == State(Add(before, CharStats(cls, trimmed)), true)
  {
    AddAssociates(st.stats, Stats(if st.inPara then 0 else 1, 1, |Fields(cls, trimmed)|, 0, 0, 0, 0, 0),
                  CharStats(cls, trimmed));
  }

  /** A non-empty trimmed line holds at least one word. */
  lemma TrimmedHasWords(cls: Classifier, line: string, trimmed: string)
    requires trimmed == TrimSpace(cls, line) && trimmed != []
    ensures |Fields(cls, trimmed)| > 0
  {
    TrimSpaceShape(cls, line);
    assert !cls.isSpace(trimmed[0]);
  }

  // ---------------------------------------------------------------------
  // The sequential analyzer

  /** The body of analyzeSimple's inner loop: one character counted, and
      counted again as a letter (vowel or not) or else as a digit. */
  method CountChar(cls: Classifier, counts: Stats, c: char) returns (next: Stats)
    ensures next == Add(counts, CharDelta(cls, c))
  {
    next := counts.(chars := counts.chars + 1);
    if cls.isLetter(c) {
      next := next.(alpha := next.alpha + 1);
      if IsVowel(c) {
        next := next.(vowels := next.vowels + 1);
      } else {
        next := next.(nonVowels := next.nonVowels + 1);
      }
    } else if cls.isDigit(c) {
      next := next.(digits := next.digits + 1);
    }
  }

  /** analyzeSimple's inner loop over the trimmed line. */
  method CountChars(cls: Classifier, counts: Stats, trimmed: string) returns (next: Stats)
    ensures next == Add(counts, CharStats(cls, trimmed))
  {
    next := counts;
    assert trimmed[..0] == [];
    for j := 0 to |trimmed|
      invariant next == Add(counts, CharStats(cls, trimmed[..j]))
    {
      next := CountChar(cls, next, trimmed[j]);
      CharStatsPrefix(cls, counts, trimmed, j);
    }
    assert trimmed[..|trimmed|] == trimmed;
  }

  /** The body of analyzeSimple's loop: one line counted into the eight
      counters, with the paragraph flag carried from the previous line. */
  method CountLine(cls: Classifier, counts: Stats, isParaCounted: bool, line: string)
    returns (next: Stats, nowInPara: bool)
    ensures State(next, nowInPara) == Step(cls, State(counts, isParaCounted), line)
  {
    next, nowInPara := counts, isParaCounted;
    next := next.(lines := next.lines + 1);
    var trimmed := TrimSpace(cls, line);
    if trimmed != [] {
      if !nowInPara {
        next := next.(para := next.para + 1);
        nowInPara := true;
      }
      var words := Fields(cls, trimmed);
      next := next.(words := next.words + |words|);
      ghost var before := next;
      next := CountChars(cls, next, trimmed);
      NonBlankLine(cls, State(counts, isParaCounted), line, trimmed, before);
    } else {
      nowInPara := false;
      BlankLineStep(cls, State(counts, isParaCounted), line);
    }
  }

  /** One pass over the lines, one paragraph flag for the whole document;
      the result map holds all eight keys. */
  method AnalyzeSimple(cls: Classifier, lines: seq<string>) returns (result: Tally)
    ensures result == ToTally(Sequential(cls, lines))
  {
    var counts := Zero;
    var isParaCounted := false;
    assert lines[..0] == [];
    for i := 0 to |lines|
      invariant Run(cls, Start, lines[..i]) == State(counts, isParaCounted)
    {
      RunPrefix(cls, lines, i);
      counts, isParaCounted := CountLine(cls, counts, isParaCounted, lines[i]);
    }
    assert lines[..|lines|] == lines;
    result := map[ParaCount := counts.para, LineCount := counts.lines, WordCount := counts.words,
                  CharCount := counts.chars, AlphaCount := counts.alpha, DigitCount := counts.digits,
                  VowelCount := counts.vowels, NonVowelCount := counts.nonVowels];
  }

  // ---------------------------------------------------------------------
  // The chunked analyzer

  /** Every key of the map has a positive count: a key is added only when
      its counter is incremented. */
  predicate KeysPositive(m: Tally) {
    forall k :: k in m ==> m[k] > 0
  }

  /** Every key of the map reads as the counter it names. */
  predicate ReadsAs(m: Tally, s: Stats) {
    forall k :: Get(m, k) == Field(s, k)
  }

  /** A map that reads as a record denotes that record, and when its
      counts are positive its keys are those of the non-zero counters. */
  lemma ReadsAsRecord(m: Tally, s: Stats)
    requires ReadsAs(m, s)
    ensures FromTally(m) == s
    ensures KeysPositive(m) ==> forall k :: k in m <==> Field(s, k) > 0
  {
    FromTallyReads(m);
    FieldsDetermine(FromTally(m), s);
  }

  /** `m` is `base` with the counters of `d` added, key by key. */
  predicate Grown(base: Tally, m: Tally, d: Stats) {
    forall k :: Get(m, k) == Get(base, k) + Field(d, k)
  }

  /** `m[k] += n` (and `m[k]++`): an absent key reads as 0. */
  function Bump(m: Tally, k: Key, n: int): Tally {
    m[k := Get(m, k) + n]
  }

  /** `m[k] += n` adds `n` at `k`, adds `k` to the keys, and leaves every
      other key as it was. */
  lemma BumpReads(m: Tally, k: Key, n: int)
    ensures Bump(m, k, n).Keys == m.Keys + {k}
    ensures Get(Bump(m, k, n), k) == Get(m, k) + n
    ensures forall j :: j != k ==> Get(Bump(m, k, n), j) == Get(m, j)
  {
  }

  /** Adding a positive amount keeps every key of the map positive. */
  lemma BumpPositive(m: Tally, k: Key, n: int)
    requires KeysPositive(m) && n > 0
    ensures KeysPositive(Bump(m, k, n))
  {
  }

  /** The body of the goroutine's inner loop, on the chunk's map: every key
      grows by what the character contributes to its counter. */
  method CountCharInto(cls: Classifier, stats: Tally, c: char) returns (next: Tally)
    requires KeysPositive(stats)
    ensures Grown(stats, next, CharDelta(cls, c))
    ensures KeysPositive(next)
  {
    BumpPositive(stats, CharCount, 1);
    next := Bump(stats, CharCount, 1);
    if cls.isLetter(c) {
      BumpPositive(next, AlphaCount, 1);
      next := Bump(next, AlphaCount, 1);
      if IsVowel(c) {
        BumpPositive(next, VowelCount, 1);
        next := Bump(next, VowelCount, 1);
      } else {
        BumpPositive(next, NonVowelCount, 1);
        next := Bump(next, NonVowelCount, 1);
      }
    } else if cls.isDigit(c) {
      BumpPositive(next, DigitCount, 1);
      next := Bump(next, DigitCount, 1);
    }
    forall k ensures Get(next, k) == Get(stats, k) + Field(CharDelta(cls, c), k) {
      match k
      case ParaCount =>
      case LineCount =>
      case WordCount =>
      case CharCount =>
      case AlphaCount =>
      case DigitCount =>
      case VowelCount =>
      case NonVowelCount =>
    }
  }

  /** The goroutine's inner loop over the trimmed line. */
  method CountCharsInto(cls: Classifier, stats: Tally, trimmed: string) returns (next: Tally)
    requires KeysPositive(stats)
    ensures Grown(stats, next, CharStats(cls, trimmed))
    ensures KeysPositive(next)
  {
    next := stats;
    assert trimmed[..0] == [];
    for j := 0 to |trimmed|
      invariant Grown(stats, next, CharStats(cls, trimmed[..j]))
      invariant KeysPositive(next)
    {
      ghost var counted := next;
      next := CountCharInto(cls, next, trimmed[j]);
      GrownTwice(stats, counted, next, CharStats(cls, trimmed[..j]), CharDelta(cls, trimmed[j]));
      assert trimmed[..j + 1][..j] == trimmed[..j];
    }
    assert trimmed[..|trimmed|] == trimmed;
  }

  /** The body of the goroutine's loop: one line counted into the chunk's
      map, with the chunk's own paragraph flag. Every key grows by what the
      line contributes to its counter, and the flag ends up set exactly when
      the line is not blank. */
  method CountLineInto(cls: Classifier, stats: Tally, isParaCounted: bool, line: string)
    returns (next: Tally, nowInPara: bool)
    requires KeysPositive(stats)
    ensures Grown(stats, next, LineDelta(cls, isParaCounted, line))
    ensures nowInPara == !Blank(cls, line)
    ensures KeysPositive(next)
  {
    nowInPara := isParaCounted;
    BumpPositive(stats, LineCount, 1);
    next := Bump(stats, LineCount, 1);
    var trimmed := TrimSpace(cls, line);
    if trimmed != [] {
      if !nowInPara {
        BumpPositive(next, ParaCount, 1);
        next := Bump(next, ParaCount, 1);
        nowInPara := true;
      }
      var words := Fields(cls, trimmed);
      TrimmedHasWords(cls, line, trimmed);
      BumpPositive(next, WordCount, |words|);
      next := Bump(next, WordCount, |words|);
      ghost var head := Stats(if isParaCounted then 0 else 1, 1, |words|, 0, 0, 0, 0, 0);
      HeadCounts(stats, isParaCounted, |words|, next);
      ghost var counted := next;
      next := CountCharsInto(cls, next, trimmed);
      GrownTwice(stats, counted, next, head, CharStats(cls, trimmed));
      assert LineDelta(cls, isParaCounted, line) == Add(head, CharStats(cls, trimmed));
    } else {
      nowInPara := false;
      BlankCounts(stats, next);
    }
  }

  /** The paragraph, line and word counts of a non-blank line, added to
      their keys. */
  lemma HeadCounts(stats: Tally, inPara: bool, words: int, next: Tally)
    requires next == Bump(if inPara then Bump(stats, LineCount, 1)
                          else Bump(Bump(stats, LineCount, 1), ParaCount, 1), WordCount, words)
    ensures Grown(stats, next, Stats(if inPara then 0 else 1, 1, words, 0, 0, 0, 0, 0))
  {
    forall k ensures Get(next, k) == Get(stats, k) + Field(Stats(if inPara then 0 else 1, 1, words, 0, 0, 0, 0, 0), k) {
      match k
      case ParaCount =>
      case LineCount =>
      case WordCount =>
      case CharCount =>
      case AlphaCount =>
      case DigitCount =>
      case VowelCount =>
      case NonVowelCount =>
    }
  }

  /** A blank line adds only to its line count. */
  lemma BlankCounts(stats: Tally, next: Tally)
    requires next == Bump(stats, LineCount, 1)
    ensures Grown(stats, next, Zero.(lines := 1))
  {
    forall k ensures Get(next, k) == Get(stats, k) + Field(Zero.(lines := 1), k) {
      match k
      case ParaCount =>
      case LineCount =>
      case WordCount =>
      case CharCount =>
      case AlphaCount =>
      case DigitCount =>
      case VowelCount =>
      case NonVowelCount =>
    }
  }

  /** A map that reads as `s` and grows by `d` reads as their sum. */
  lemma ReadsAsGrown(a: Tally, b: Tally, s: Stats, d: Stats)
    requires ReadsAs(a, s) && Grown(a, b, d)
    ensures ReadsAs(b, Add(s, d))
  {
    AddKeywise(s, d);
  }

  /** Growing by `d1` and then by `d2` is growing by their sum. */
  lemma GrownTwice(a: Tally, b: Tally, c: Tally, d1: Stats, d2: Stats)
    requires Grown(a, b, d1) && Grown(b, c, d2)
    ensures Grown(a, c, Add(d1, d2))
  {
    AddKeywise(d1, d2);
  }

  /** The work of one goroutine: the lines of one chunk counted into a fresh
      map with a fresh paragraph flag. The map denotes the chunk's
      sequential analysis, and a key is present exactly when its count is
      positive. */
  method AnalyzeChunk(cls: Classifier, chunk: seq<string>) returns (stats: Tally)
    ensures ReadsAs(stats, Sequential(cls, chunk))
    ensures forall k :: k in stats <==> Field(Sequential(cls, chunk), k) > 0
  {
    stats := map[];
    var isParaCounted := false;
    assert chunk[..0] == [];
    for i := 0 to |chunk|
      invariant ReadsAs(stats, Run(cls, Start, chunk[..i]).stats)
      invariant isParaCounted == Run(cls, Start, chunk[..i]).inPara
      invariant KeysPositive(stats)
    {
      ghost var st := Run(cls, Start, chunk[..i]);
      ghost var counted := stats;
      RunPrefix(cls, chunk, i);
      stats, isParaCounted := CountLineInto(cls, stats, isParaCounted, chunk[i]);
      ReadsAsGrown(counted, stats, st.stats, LineDelta(cls, st.inPara, chunk[i]));
    }
    assert chunk[..|chunk|] == chunk;
    ReadsAsRecord(stats, Sequential(cls, chunk));
  }

  /** One chunk's map added into the total, key by key, in whatever order the
      map is traversed: every key ends up with the sum of both counts, the
      keys are those of either map, and positive counts stay positive. */
  method Merge(total: Tally, stats: Tally) returns (merged: Tally)
    ensures merged.Keys == total.Keys + stats.Keys
    ensures forall k :: Get(merged, k) == Get(total, k) + Get(stats, k)
    ensures KeysPositive(total) && KeysPositive(stats) ==> KeysPositive(merged)
  {
    merged := total;
    var pending := stats.Keys;
    while pending != {}
      invariant pending <= stats.Keys
      invariant merged.Keys == total.Keys + (stats.Keys - pending)
      invariant forall k :: Get(merged, k) == Get(total, k) + (if k in pending then 0 else Get(stats, k))
      invariant KeysPositive(total) && KeysPositive(stats) ==> KeysPositive(merged)
      decreases pending
    {
      var k :| k in pending;
      merged := merged[k := Get(merged, k) + stats[k]];
      pending := pending - {k};
    }
  }

  /** Merging the map of chunk `i` into a total that reads as the first
      `i` results gives a total that reads as the first `i + 1`. */
  lemma MergeStep(rs: seq<Stats>, i: nat, total: Tally, stats: Tally, merged: Tally)
    requires i < |rs|
    requires ReadsAs(total, Sum(rs[..i])) && ReadsAs(stats, rs[i])
    requires forall k :: Get(merged, k) == Get(total, k) + Get(stats, k)
    ensures ReadsAs(merged, Sum(rs[..i + 1]))
  {
    assert rs[..i + 1][..i] == rs[..i];
    AddKeywise(Sum(rs[..i]), rs[i]);
  }

  /** The concurrent analyzer for any number of lines per chunk: chunk `i`
      is `lines[i * chunkSize .. min((i + 1) * chunkSize, |lines|)]`, each
      chunk is counted on its own and merged into `total`. The result is
      the chunked analysis; a key is present exactly when its count is
      positive, so an empty document gives an empty map. */
  method AnalyzeChunks(cls: Classifier, lines: seq<string>, chunkSize: nat) returns (total: Tally)
    requires chunkSize > 0
    ensures FromTally(total) == Chunked(cls, lines, chunkSize)
    ensures forall k :: k in total <==> Field(Chunked(cls, lines, chunkSize), k) > 0
    ensures lines == [] ==> total == map[]
  {
    var numLines := |lines|;
    var numChunks := (numLines + chunkSize - 1) / chunkSize;
    ChunkCountIsCeiling(numLines, chunkSize);
    ghost var cs := Chunks(lines, chunkSize);
    ghost var rs := AnalyzeEach(cls, cs);
    total := map[];
    assert rs[..0] == [];

    for i := 0 to numChunks
      invariant ReadsAs(total, Sum(rs[..i]))
      invariant KeysPositive(total)
    {
      var start := i * chunkSize;
      var end := start + chunkSize;
      if end > numLines {
        end := numLines;
      }
      ChunkAt(lines, chunkSize, i);
      var stats := AnalyzeChunk(cls, lines[start..end]);
      AnalyzeEachAt(cls, cs, i);
      var merged := Merge(total, stats);
      MergeStep(rs, i, total, stats, merged);
      total := merged;
    }
    assert rs[..numChunks] == rs;
    ReadsAsRecord(total, Sum(rs));
    if lines == [] {
      assert total.Keys == {};
    }
  }

  /** analyzeConcurrent: chunks of ten lines. */
  method AnalyzeConcurrent(cls: Classifier, lines: seq<string>) returns (total: Tally)
    ensures FromTally(total) == Chunked(cls, lines, ChunkSize)
    ensures forall k :: k in total <==> Field(Chunked(cls, lines, ChunkSize), k) > 0
  {
    total := AnalyzeChunks(cls, lines, ChunkSize);
  }
}
