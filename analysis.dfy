/** The meaning of the two analyzers, as functions: the per-line
    classification both share, the sequential fold over a whole document,
    the partition into chunks and the chunked fold, and the lemmas that
    relate them. */
module Analysis {
  import opened Text
  import opened Counters

  /** A line whose trimmed text is empty, that is a line of whitespace only,
      ends the current paragraph. */
  predicate Blank(cls: Classifier, line: string) {
    AllSpace(cls, line)
  }

  /** The blank test is the emptiness of the trimmed line. */
  lemma BlankIsEmptyTrim(cls: Classifier, line: string)
    ensures Blank(cls, line) <==> TrimSpace(cls, line) == []
  {
  }

  /** What one character of a trimmed line adds: one character, and either a
      letter (vowel or not), or a digit, or nothing more. */
  function CharDelta(cls: Classifier, c: char): (d: Stats)
    ensures d.para == d.lines == d.words == 0 && d.chars == 1
    ensures d.alpha == (if cls.isLetter(c) then 1 else 0)
    ensures d.digits == (if !cls.isLetter(c) && cls.isDigit(c) then 1 else 0)
    ensures d.vowels == (if cls.isLetter(c) && IsVowel(c) then 1 else 0)
    ensures d.nonVowels == (if cls.isLetter(c) && !IsVowel(c) then 1 else 0)
  {
    if cls.isLetter(c) then
      if IsVowel(c) then Stats(0, 0, 0, 1, 1, 0, 1, 0) else Stats(0, 0, 0, 1, 1, 0, 0, 1)
    else if cls.isDigit(c) then Stats(0, 0, 0, 1, 0, 1, 0, 0)
    else Stats(0, 0, 0, 1, 0, 0, 0, 0)
  }

  /** What the characters of `s` add, taken left to right. Every character
      is counted once, and every letter is a vowel or a non-vowel. */
  function CharStats(cls: Classifier, s: string): (r: Stats)
    ensures r.para == r.lines == r.words == 0
    ensures r.chars == |s|
    ensures 0 <= r.digits && 0 <= r.vowels && 0 <= r.nonVowels
    ensures r.alpha == r.vowels + r.nonVowels
    ensures r.alpha + r.digits <= r.chars
  {
    if s == [] then Zero else Add(CharStats(cls, s[..|s| - 1]), CharDelta(cls, s[|s| - 1]))
  }

  /** The per-line classifier's state: the counters so far and whether the
      previous line was inside a paragraph. */
  datatype State = State(stats: Stats, inPara: bool)

  /** Both analyzers start every unit of work from here. */
  const Start := State(Zero, false)

  /** What one line adds, given whether a paragraph is already open. */
  function LineDelta(cls: Classifier, inPara: bool, line: string): Stats {
    if Blank(cls, line) then Zero.(lines := 1)
    else
      var trimmed := TrimSpace(cls, line);
      Add(Stats(if inPara then 0 else 1, 1, |Fields(cls, trimmed)|, 0, 0, 0, 0, 0),
          CharStats(cls, trimmed))
  }

  /** One line adds one line; a paragraph when it is not blank and none is
      open; one word per word start and one character per character of the
      trimmed line; and a record that keeps the invariant. */
  lemma LineDeltaFacts(cls: Classifier, inPara: bool, line: string)
    ensures var d := LineDelta(cls, inPara, line);
            && d.lines == 1
            && d.para == (if !inPara && !Blank(cls, line) then 1 else 0)
            && d.words == WordStarts(cls, TrimSpace(cls, line))
            && d.chars == |TrimSpace(cls, line)|
            && Consistent(d)
  {
    FieldsCount(cls, TrimSpace(cls, line));
  }

  /** The per-line classifier: add what the line contributes; afterwards the
      state is inside a paragraph exactly when the line is not blank. */
  function Step(cls: Classifier, st: State, line: string): State {
    State(Add(st.stats, LineDelta(cls, st.inPara, line)), !Blank(cls, line))
  }

  /** A blank line adds only to the line count and closes the paragraph. */
  lemma BlankLineStep(cls: Classifier, st: State, line: string)
    requires Blank(cls, line)
    ensures Step(cls, st, line) == State(st.stats.(lines := st.stats.lines + 1), false)
  {
  }

  /** A non-blank line counts as a line, opens a paragraph unless one is open
      already, adds its words and characters, and leaves a paragraph open. */
  lemma NonBlankLineStep(cls: Classifier, st: State, line: string)
    requires !Blank(cls, line)
    ensures var r := Step(cls, st, line);
            && r.inPara
            && r.stats.lines == st.stats.lines + 1
            && r.stats.para == st.stats.para + (if st.inPara then 0 else 1)
            && r.stats.words == st.stats.words + |Fields(cls, TrimSpace(cls, line))|
            && r.stats.chars == st.stats.chars + |TrimSpace(cls, line)|
  {
  }

  /** One line keeps the record's invariant. */
  lemma StepConsistent(cls: Classifier, st: State, line: string)
    requires Consistent(st.stats)
    ensures Consistent(Step(cls, st, line).stats)
  {
    var t := TrimSpace(cls, line);
    if t != [] {
      var d := LineDelta(cls, st.inPara, line);
      assert d.words <= d.chars;
    }
  }

  /** The classifier applied to every line in order, from state `st`. */
  function Run(cls: Classifier, st: State, lines: seq<string>): State {
    if lines == [] then st
    else Step(cls, Run(cls, st, lines[..|lines| - 1]), lines[|lines| - 1])
  }

  /** The sequential analyzer: one fold over the whole document with a single
      paragraph flag. */
  function Sequential(cls: Classifier, lines: seq<string>): Stats {
    Run(cls, Start, lines).stats
  }

  /** Every line is counted, blank or not; the paragraph flag reflects the
      last line; the record's invariant is kept. */
  lemma {:induction false} RunFacts(cls: Classifier, st: State, lines: seq<string>)
    ensures Run(cls, st, lines).stats.lines == st.stats.lines + |lines|
    ensures lines != [] ==> Run(cls, st, lines).inPara == !Blank(cls, lines[|lines| - 1])
    ensures Consistent(st.stats) ==> Consistent(Run(cls, st, lines).stats)
    decreases |lines|
  {
    if lines != [] {
      var prefix := lines[..|lines| - 1];
      RunFacts(cls, st, prefix);
      if Consistent(st.stats) {
        StepConsistent(cls, Run(cls, st, prefix), lines[|lines| - 1]);
      }
    }
  }

  /** No counter ever decreases as lines are consumed, from any state. */
  lemma RunMonotone(cls: Classifier, st: State, lines: seq<string>)
    ensures forall k :: Field(Run(cls, st, lines).stats, k) >= Field(st.stats, k)
  {
    var r := Run(cls, State(Zero, st.inPara), lines).stats;
    RunShift(cls, st.stats, st.inPara, lines);
    RunFacts(cls, State(Zero, st.inPara), lines);
    AddKeywise(st.stats, r);
    forall k ensures Field(r, k) >= 0 {
      match k
      case ParaCount =>
      case LineCount =>
      case WordCount =>
      case CharCount =>
      case AlphaCount =>
      case DigitCount =>
      case VowelCount =>
      case NonVowelCount =>
    }
  }

  /** The counters after a prefix of the lines are at most those after any
      longer prefix. */
  lemma ConsumedMonotone(cls: Classifier, lines: seq<string>, i: nat, j: nat)
    requires i <= j <= |lines|
    ensures forall k :: Field(Run(cls, Start, lines[..i]).stats, k) <= Field(Run(cls, Start, lines[..j]).stats, k)
  {
    assert lines[..j] == lines[..i] + lines[i..j];
    RunAppend(cls, Start, lines[..i], lines[i..j]);
    RunMonotone(cls, Run(cls, Start, lines[..i]), lines[i..j]);
  }

  // ---------------------------------------------------------------------
  // Paragraphs are the maximal runs of non-blank lines

  /** Line `i` opens a maximal run of non-blank lines. */
  predicate RunStartsAt(cls: Classifier, lines: seq<string>, i: nat)
    requires i < |lines|
  {
    !Blank(cls, lines[i]) && (i == 0 || Blank(cls, lines[i - 1]))
  }

  /** Number of maximal runs of non-blank lines that start before line `n`. */
  function RunCount(cls: Classifier, lines: seq<string>, n: nat): nat
    requires n <= |lines|
  {
    if n == 0 then 0 else RunCount(cls, lines, n - 1) + (if RunStartsAt(cls, lines, n - 1) then 1 else 0)
  }

  /** Number of non-blank lines. */
  function NonBlankCount(cls: Classifier, lines: seq<string>): nat {
    if lines == [] then 0
    else NonBlankCount(cls, lines[..|lines| - 1]) + (if Blank(cls, lines[|lines| - 1]) then 0 else 1)
  }

  lemma {:induction false} NonBlankCountAppend(cls: Classifier, a: seq<string>, b: seq<string>)
    ensures NonBlankCount(cls, a + b) == NonBlankCount(cls, a) + NonBlankCount(cls, b)
    decreases |b|
  {
    if b == [] {
      assert a + b == a;
    } else {
      assert (a + b)[..|a + b| - 1] == a + b[..|b| - 1];
      NonBlankCountAppend(cls, a, b[..|b| - 1]);
    }
  }

  /** The paragraph count of the sequential analyzer is exactly the number of
      maximal runs of consecutive non-blank lines. */
  lemma {:induction false} ParagraphsAreRuns(cls: Classifier, lines: seq<string>)
    ensures Sequential(cls, lines).para == RunCount(cls, lines, |lines|)
  {
    ParagraphsAreRunsUpTo(cls, lines, |lines|);
    assert lines[..|lines|] == lines;
  }

  lemma {:induction false} ParagraphsAreRunsUpTo(cls: Classifier, lines: seq<string>, n: nat)
    requires n <= |lines|
    ensures Run(cls, Start, lines[..n]).stats.para == RunCount(cls, lines, n)
    ensures Run(cls, Start, lines[..n]).inPara == (n > 0 && !Blank(cls, lines[n - 1]))
    decreases n
  {
    if n > 0 {
      ParagraphsAreRunsUpTo(cls, lines, n - 1);
      assert lines[..n][..n - 1] == lines[..n - 1];
    }
  }

  /** Running from any state opens at most one paragraph per non-blank line. */
  lemma {:induction false} ParagraphsAtMostNonBlank(cls: Classifier, st: State, lines: seq<string>)
    ensures Run(cls, st, lines).stats.para <= st.stats.para + NonBlankCount(cls, lines)
  {
    if lines != [] {
      ParagraphsAtMostNonBlank(cls, st, lines[..|lines| - 1]);
    }
  }

  /** The sequential analyzer's results satisfy the record's invariant, count
      every input line, blank or not, and count no more paragraphs than
      non-blank lines. */
  lemma SequentialFacts(cls: Classifier, lines: seq<string>)
    ensures Consistent(Sequential(cls, lines))
    ensures Sequential(cls, lines).lines == |lines|
    ensures Sequential(cls, lines).para <= NonBlankCount(cls, lines)
  {
    RunFacts(cls, Start, lines);
    ParagraphsAtMostNonBlank(cls, Start, lines);
  }

  // ---------------------------------------------------------------------
  // Folding a document piece by piece

  lemma {:induction false} RunAppend(cls: Classifier, st: State, a: seq<string>, b: seq<string>)
    ensures Run(cls, st, a + b) == Run(cls, Run(cls, st, a), b)
    decreases |b|
  {
    if b == [] {
      assert a + b == a;
    } else {
      assert (a + b)[..|a + b| - 1] == a + b[..|b| - 1];
      RunAppend(cls, st, a, b[..|b| - 1]);
    }
  }

  /** Counters carried in from earlier lines are only added to. */
  lemma {:induction false} RunShift(cls: Classifier, s: Stats, inPara: bool, lines: seq<string>)
    ensures Run(cls, State(s, inPara), lines)
         == var r := Run(cls, State(Zero, inPara), lines); State(Add(s, r.stats), r.inPara)
    decreases |lines|
  {
    if lines != [] {
      var prefix, last := lines[..|lines| - 1], lines[|lines| - 1];
      RunShift(cls, s, inPara, prefix);
      var r' := Run(cls, State(Zero, inPara), prefix);
      var d := LineDelta(cls, r'.inPara, last);
      assert Run(cls, State(s, inPara), lines) == State(Add(Add(s, r'.stats), d), !Blank(cls, last));
      assert Run(cls, State(Zero, inPara), lines) == State(Add(r'.stats, d), !Blank(cls, last));
      AddAssociates(s, r'.stats, d);
    }
  }

  /** Starting outside a paragraph instead of inside one costs exactly one
      extra paragraph when the first line is non-blank, and changes nothing
      else. */
  lemma {:induction false} RunReset(cls: Classifier, lines: seq<string>)
    ensures var open := Run(cls, State(Zero, true), lines).stats;
            Run(cls, Start, lines).stats
              == open.(para := open.para + (if lines != [] && !Blank(cls, lines[0]) then 1 else 0))
    decreases |lines|
  {
    if |lines| > 1 {
      var prefix, last := lines[..|lines| - 1], lines[|lines| - 1];
      var cont, anew := Run(cls, State(Zero, true), prefix), Run(cls, Start, prefix);
      RunReset(cls, prefix);
      assert prefix[0] == lines[0];
      RunFacts(cls, Start, prefix);
      RunFacts(cls, State(Zero, true), prefix);
      AddParaLeft(cont.stats, LineDelta(cls, anew.inPara, last),
                  if !Blank(cls, lines[0]) then 1 else 0, anew.stats);
    }
  }

  /** Paragraphs added on the left of a sum are paragraphs added to the sum. */
  lemma AddParaLeft(a: Stats, d: Stats, m: nat, f: Stats)
    requires f == a.(para := a.para + m)
    ensures Add(f, d) == Add(a, d).(para := Add(a, d).para + m)
  {
  }

  // ---------------------------------------------------------------------
  // Chunks

  /** The lines of every chunk, in order. */
  function Flatten(cs: seq<seq<string>>): seq<string> {
    if cs == [] then [] else cs[0] + Flatten(cs[1..])
  }

  /** The partition of `lines` into consecutive chunks of `size` lines, the
      last one possibly shorter. Concatenated, the chunks give back `lines`. */
  function Chunks(lines: seq<string>, size: nat): (cs: seq<seq<string>>)
    requires size > 0
    ensures Flatten(cs) == lines
    ensures |cs| == ChunkCount(|lines|, size)
    decreases |lines|
  {
    if lines == [] then []
    else if |lines| <= size then
      assert Flatten([lines]) == lines + [];
      [lines]
    else
      var rest := Chunks(lines[size..], size);
      var cs := [lines[..size]] + rest;
      assert cs[1..] == rest;
      assert forall i :: 1 <= i < |cs| ==> cs[i] == rest[i - 1];
      assert Flatten(cs) == lines by {
        assert lines == lines[..size] + lines[size..];
      }
      cs
  }

  /** Every chunk is non-empty and holds at most `size` lines; all but the
      last hold exactly `size`. */
  lemma {:induction false} ChunkSizes(lines: seq<string>, size: nat)
    requires size > 0
    ensures forall i :: 0 <= i < |Chunks(lines, size)| ==> 0 < |Chunks(lines, size)[i]| <= size
    ensures forall i :: 0 <= i < |Chunks(lines, size)| - 1 ==> |Chunks(lines, size)[i]| == size
    decreases |lines|
  {
    if |lines| > size {
      ChunkSizes(lines[size..], size);
      var cs := Chunks(lines, size);
      assert forall i :: 1 <= i < |cs| ==> cs[i] == Chunks(lines[size..], size)[i - 1];
    }
  }

  /** Number of chunks of at most `size` lines that `n` lines make. */
  function ChunkCount(n: nat, size: nat): nat
    requires size > 0
    decreases n
  {
    if n == 0 then 0 else if n <= size then 1 else 1 + ChunkCount(n - size, size)
  }

  /** The number of chunks is ceil(n / size), computed as the analyzer does. */
  lemma {:induction false} ChunkCountIsCeiling(n: nat, size: nat)
    requires size > 0
    ensures ChunkCount(n, size) == (n + size - 1) / size
    decreases n
  {
    if n == 0 {
      DivUnique(size - 1, size, 0, size - 1);
    } else if n <= size {
      DivUnique(n + size - 1, size, 1, n - 1);
    } else {
      ChunkCountIsCeiling(n - size, size);
      var a := n - 1;
      var q, r := a / size, a % size;
      assert a + size == size * (q + 1) + r;
      DivUnique(a + size, size, q + 1, r);
    }
  }

  lemma DivUnique(x: int, b: int, q: int, r: int)
    requires b > 0 && 0 <= r < b && x == b * q + r
    ensures x / b == q
  {
    var q' := x / b;
    Distribute(b, q, q');
    Distribute(b, q', q);
    if q > q' {
      MulAtLeast(b, q - q');
    } else if q < q' {
      MulAtLeast(b, q' - q);
    }
  }

  lemma Distribute(b: int, q: int, q': int)
    ensures b * q == b * q' + b * (q - q')
  {
  }

  lemma {:induction false} MulAtLeast(b: nat, d: nat)
    requires d >= 1
    ensures b * d >= b
    decreases d
  {
    if d > 1 {
      MulAtLeast(b, d - 1);
      assert b * d == b * (d - 1) + b;
    }
  }

  /** Chunk `i` is the slice of lines the concurrent analyzer hands to its
      i-th worker: from line `i * size` on, `size` lines or up to the end. */
  lemma ChunkAt(lines: seq<string>, size: nat, i: nat)
    requires size > 0 && i < |Chunks(lines, size)|
    ensures i * size < |lines|
    ensures Chunks(lines, size)[i]
         == lines[i * size .. if i * size + size > |lines| then |lines| else i * size + size]
  {
    ChunkFrom(lines, size, i);
    OffsetIsProduct(i, size);
  }

  /** i * size, as i additions of size. */
  function Offset(i: nat, size: nat): nat {
    if i == 0 then 0 else Offset(i - 1, size) + size
  }

  lemma {:induction false} OffsetIsProduct(i: nat, size: nat)
    ensures Offset(i, size) == i * size
  {
    if i > 0 {
      OffsetIsProduct(i - 1, size);
      MulSucc(i - 1, size);
    }
  }

  lemma {:induction false} ChunkFrom(lines: seq<string>, size: nat, i: nat)
    requires size > 0 && i < |Chunks(lines, size)|
    ensures Offset(i, size) < |lines|
    ensures Chunks(lines, size)[i]
         == lines[Offset(i, size) .. if Offset(i, size) + size > |lines| then |lines| else Offset(i, size) + size]
    decreases i
  {
    if i > 0 {
      var rest := lines[size..];
      assert Chunks(lines, size)[i] == Chunks(rest, size)[i - 1];
      ChunkFrom(rest, size, i - 1);
      assert rest[Offset(i - 1, size)..] == lines[Offset(i, size)..];
    }
  }

  lemma MulSucc(i: nat, size: nat)
    ensures (i + 1) * size == i * size + size
  {
  }

  /** The sequential analysis of each chunk, with a fresh state per chunk. */
  function AnalyzeEach(cls: Classifier, cs: seq<seq<string>>): (rs: seq<Stats>)
    ensures |rs| == |cs|
  {
    if cs == [] then [] else [Sequential(cls, cs[0])] + AnalyzeEach(cls, cs[1..])
  }

  lemma {:induction false} AnalyzeEachAt(cls: Classifier, cs: seq<seq<string>>, i: nat)
    requires i < |cs|
    ensures AnalyzeEach(cls, cs)[i] == Sequential(cls, cs[i])
    decreases i
  {
    if i > 0 {
      AnalyzeEachAt(cls, cs[1..], i - 1);
    }
  }

  /** The chunked analyzer: every chunk analyzed on its own, the partial
      results added up. */
  function Chunked(cls: Classifier, lines: seq<string>, size: nat): Stats
    requires size > 0
  {
    Sum(AnalyzeEach(cls, Chunks(lines, size)))
  }

  /** The last line of `a` and the first line of `b` are both non-blank: a
      paragraph runs across the boundary between them. */
  predicate Joined(cls: Classifier, a: seq<string>, b: seq<string>) {
    a != [] && b != [] && !Blank(cls, a[|a| - 1]) && !Blank(cls, b[0])
  }

  /** Number of boundaries between adjacent chunks that a paragraph runs across. */
  function Joins(cls: Classifier, cs: seq<seq<string>>): nat {
    if |cs| < 2 then 0 else (if Joined(cls, cs[0], cs[1]) then 1 else 0) + Joins(cls, cs[1..])
  }

  /** Adding up the analyses of a first chunk and of the remaining ones. */
  lemma SumEachCons(cls: Classifier, cs: seq<seq<string>>)
    requires cs != []
    ensures Sum(AnalyzeEach(cls, cs)) == Add(Sequential(cls, cs[0]), Sum(AnalyzeEach(cls, cs[1..])))
  {
    var head := Sequential(cls, cs[0]);
    SumAppend([head], AnalyzeEach(cls, cs[1..]));
    assert Sum([head]) == Add(Zero, head) by {
      assert [head][..0] == [];
    }
  }

  /** Analyzing two pieces of a document separately and adding the results
      agrees with analyzing the whole, except that a paragraph running from
      the last line of the first piece into the second is counted twice. */
  lemma AppendAnalysis(cls: Classifier, c: seq<string>, tail: seq<string>)
    ensures var whole := Sequential(cls, c + tail);
            Add(Sequential(cls, c), Sequential(cls, tail))
              == whole.(para := whole.para + if Joined(cls, c, tail) then 1 else 0)
  {
    var head := Run(cls, Start, c);
    var r := Run(cls, State(Zero, head.inPara), tail);
    ContinueRun(cls, c, tail);
    RestartRun(cls, c, tail);
  }

  /** Analyzing `c + tail` is analyzing `c` and then carrying on through
      `tail` with the paragraph flag `c` left behind. */
  lemma ContinueRun(cls: Classifier, c: seq<string>, tail: seq<string>)
    ensures var head := Run(cls, Start, c);
            Sequential(cls, c + tail) == Add(head.stats, Run(cls, State(Zero, head.inPara), tail).stats)
  {
    var head := Run(cls, Start, c);
    RunAppend(cls, Start, c, tail);
    RunShift(cls, head.stats, head.inPara, tail);
  }

  /** Analyzing `tail` afresh instead of after `c` counts one more paragraph
      exactly when a paragraph runs from `c` into `tail`. */
  lemma RestartRun(cls: Classifier, c: seq<string>, tail: seq<string>)
    ensures var r := Run(cls, State(Zero, Run(cls, Start, c).inPara), tail).stats;
            Sequential(cls, tail) == r.(para := r.para + if Joined(cls, c, tail) then 1 else 0)
  {
    RunFacts(cls, Start, c);
    if Run(cls, Start, c).inPara {
      RunReset(cls, tail);
    }
  }

  /** Paragraphs added on the right of a sum are paragraphs added to the sum. */
  lemma AddMorePara(a: Stats, b: Stats, t: Stats, m: nat, n: nat, sum: Stats)
    requires t == b.(para := b.para + m)
    requires sum == Add(a, t.(para := t.para + n))
    ensures sum == Add(a, b).(para := Add(a, b).para + m + n)
  {
  }

  /** The first boundary of a list of non-empty chunks is joined exactly when
      a paragraph runs from the first chunk into the rest of the document. */
  lemma JoinsCons(cls: Classifier, cs: seq<seq<string>>)
    requires cs != [] && forall i :: 0 <= i < |cs| ==> cs[i] != []
    ensures Joins(cls, cs) == (if Joined(cls, cs[0], Flatten(cs[1..])) then 1 else 0) + Joins(cls, cs[1..])
  {
    var rest := cs[1..];
    if rest != [] {
      var tail := Flatten(rest);
      assert tail == rest[0] + Flatten(rest[1..]);
      assert tail[0] == rest[0][0];
    }
  }

  /** Analyzing chunks separately and adding the results agrees with
      analyzing their concatenation, except that every paragraph running
      across a chunk boundary is counted once more. */
  lemma {:induction false} SplitAnalysis(cls: Classifier, cs: seq<seq<string>>)
    requires forall i :: 0 <= i < |cs| ==> cs[i] != []
    ensures var whole := Sequential(cls, Flatten(cs));
            Sum(AnalyzeEach(cls, cs)) == whole.(para := whole.para + Joins(cls, cs))
    decreases |cs|
  {
    if cs != [] {
      var c, rest := cs[0], cs[1..];
      var t := Sequential(cls, Flatten(rest));
      SplitAnalysis(cls, rest);
      SumEachCons(cls, cs);
      AppendAnalysis(cls, c, Flatten(rest));
      JoinsCons(cls, cs);
      AddMorePara(Sequential(cls, c), t, t, 0, Joins(cls, rest), Sum(AnalyzeEach(cls, cs)));
      assert Flatten(cs) == c + Flatten(rest);
    }
  }

  /** Number of chunk boundaries, for chunks of `size` lines, that a
      paragraph runs across. */
  function Boundaries(cls: Classifier, lines: seq<string>, size: nat): nat
    requires size > 0
  {
    Joins(cls, Chunks(lines, size))
  }

  /** The two analyzers agree on lines, words, characters, letters, digits,
      vowels and non-vowels for every chunk size; the chunked paragraph count
      exceeds the sequential one by the number of chunk boundaries that a
      paragraph runs across. */
  lemma Agreement(cls: Classifier, lines: seq<string>, size: nat)
    requires size > 0
    ensures var s := Sequential(cls, lines);
            Chunked(cls, lines, size) == s.(para := s.para + Boundaries(cls, lines, size))
  {
    ChunkSizes(lines, size);
    SplitAnalysis(cls, Chunks(lines, size));
  }

  lemma {:induction false} ChunkParagraphsAtMostNonBlank(cls: Classifier, cs: seq<seq<string>>)
    ensures Sum(AnalyzeEach(cls, cs)).para <= NonBlankCount(cls, Flatten(cs))
    decreases |cs|
  {
    if cs != [] {
      ChunkParagraphsAtMostNonBlank(cls, cs[1..]);
      SequentialFacts(cls, cs[0]);
      NonBlankCountAppend(cls, cs[0], Flatten(cs[1..]));
      SumEachCons(cls, cs);
    }
  }

  /** The chunked analyzer's results satisfy the record's invariant, count
      every line, and count at least as many paragraphs as the sequential
      analyzer but no more than there are non-blank lines. */
  lemma ChunkedFacts(cls: Classifier, lines: seq<string>, size: nat)
    requires size > 0
    ensures Consistent(Chunked(cls, lines, size))
    ensures Chunked(cls, lines, size).lines == |lines|
    ensures Sequential(cls, lines).para <= Chunked(cls, lines, size).para <= NonBlankCount(cls, lines)
  {
    var cs := Chunks(lines, size);
    Agreement(cls, lines, size);
    SequentialFacts(cls, lines);
    ChunkSumConsistent(cls, cs);
    ChunkParagraphsAtMostNonBlank(cls, cs);
  }

  lemma {:induction false} ChunkSumConsistent(cls: Classifier, cs: seq<seq<string>>)
    ensures Consistent(Sum(AnalyzeEach(cls, cs)))
    decreases |cs|
  {
    if cs != [] {
      ChunkSumConsistent(cls, cs[1..]);
      SequentialFacts(cls, cs[0]);
      SumEachCons(cls, cs);
      AddConsistent(Sequential(cls, cs[0]), Sum(AnalyzeEach(cls, cs[1..])));
    }
  }

  /** With at least as many lines per chunk as the document has, there is at
      most one chunk and the two analyzers agree exactly. */
  lemma OneChunkAgrees(cls: Classifier, lines: seq<string>, size: nat)
    requires size > 0 && |lines| <= size
    ensures Chunked(cls, lines, size) == Sequential(cls, lines)
  {
    Agreement(cls, lines, size);
    assert |Chunks(lines, size)| <= 1;
  }

  /** A document of one line has a paragraph exactly when the line is not blank. */
  lemma SingleLine(cls: Classifier, line: string)
    ensures Sequential(cls, [line]).para == if Blank(cls, line) then 0 else 1
  {
    assert [line][..0] == [];
    assert Run(cls, Start, [line]) == Step(cls, Start, line);
    if !Blank(cls, line) {
      NonBlankLineStep(cls, Start, line);
    }
  }

  /** With one line per chunk every non-blank line is a paragraph of its own. */
  lemma {:induction false} UnitChunksCountNonBlank(cls: Classifier, lines: seq<string>)
    ensures Chunked(cls, lines, 1).para == NonBlankCount(cls, lines)
    decreases |lines|
  {
    if lines != [] {
      var cs := Chunks(lines, 1);
      assert cs == [lines[..1]] + Chunks(lines[1..], 1);
      assert cs[0] == [lines[0]] && cs[1..] == Chunks(lines[1..], 1);
      UnitChunksCountNonBlank(cls, lines[1..]);
      SumEachCons(cls, cs);
      SingleLine(cls, lines[0]);
      assert lines == [lines[0]] + lines[1..];
      NonBlankCountAppend(cls, [lines[0]], lines[1..]);
      assert [lines[0]][..0] == [];
    }
  }

  /** Smaller chunks do not always count more paragraphs: in the document
      x, blank, x, x, blank, x, chunks of three lines split the middle
      paragraph and chunks of two lines do not. */
  lemma ChunkSizeNotMonotone(cls: Classifier)
    requires !cls.isSpace('x')
    ensures var lines := ["x", "", "x", "x", "", "x"];
            Chunked(cls, lines, 3).para == Chunked(cls, lines, 2).para + 1
  {
    var lines := ["x", "", "x", "x", "", "x"];
    var x, e := "x", "";
    assert !Blank(cls, x) by {
      assert x[0] == 'x';
    }
    assert Blank(cls, e);
    var half := [x, e, x];
    assert lines[..3] == half && lines[3..] == half;
    assert Chunks(lines, 3) == [half, half] by {
      assert Chunks(half, 3) == [half];
    }
    assert Joined(cls, half, half);
    assert Joins(cls, [half, half]) == 1 by {
      assert [half, half][1..] == [half];
    }
    var c1, c2, c3 := [x, e], [x, x], [e, x];
    assert lines[..2] == c1 && lines[2..] == c2 + c3 && (c2 + c3)[..2] == c2 && (c2 + c3)[2..] == c3;
    assert Chunks(lines, 2) == [c1, c2, c3] by {
      assert Chunks(c3, 2) == [c3];
      assert Chunks(c2 + c3, 2) == [c2, c3];
    }
    assert !Joined(cls, c1, c2) && !Joined(cls, c2, c3);
    assert Joins(cls, [c2, c3]) == 0 by {
      assert [c2, c3][1..] == [c3];
    }
    assert Joins(cls, [c1, c2, c3]) == 0 by {
      assert [c1, c2, c3][1..] == [c2, c3];
    }
    Agreement(cls, lines, 3);
    Agreement(cls, lines, 2);
  }
}
