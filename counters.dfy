/** The eight counters the analyzers produce, both as a record and as the
    string-keyed map the analyzers actually return, and the field-wise merge
    that combines partial results. */
module Counters {

  /** One analysis result: paragraphs, lines, words, characters, letters,
      digits, vowels and non-vowel letters. */
  datatype Stats = Stats(
    para: int, lines: int, words: int, chars: int,
    alpha: int, digits: int, vowels: int, nonVowels: int)

  const Zero := Stats(0, 0, 0, 0, 0, 0, 0, 0)

  /** The keys "para_count", "line_count", ..., "non_vowel_count" of the
      result map. */
  datatype Key = ParaCount | LineCount | WordCount | CharCount
               | AlphaCount | DigitCount | VowelCount | NonVowelCount

  /** The map[string]int an analyzer returns; a key that is absent reads as 0. */
  type Tally = map<Key, int>

  function Get(m: Tally, k: Key): int {
    if k in m then m[k] else 0
  }

  /** The counter a key names. */
  function Field(s: Stats, k: Key): int {
    match k
    case ParaCount => s.para
    case LineCount => s.lines
    case WordCount => s.words
    case CharCount => s.chars
    case AlphaCount => s.alpha
    case DigitCount => s.digits
    case VowelCount => s.vowels
    case NonVowelCount => s.nonVowels
  }

  /** The record a result map denotes, reading absent keys as 0. */
  function FromTally(m: Tally): Stats {
    Stats(Get(m, ParaCount), Get(m, LineCount), Get(m, WordCount), Get(m, CharCount),
          Get(m, AlphaCount), Get(m, DigitCount), Get(m, VowelCount), Get(m, NonVowelCount))
  }

  /** Every key of the record reads as the map does. */
  lemma FromTallyReads(m: Tally)
    ensures forall k :: Field(FromTally(m), k) == Get(m, k)
  {
    forall k ensures Field(FromTally(m), k) == Get(m, k) {
      match k
      case ParaCount =>
      case LineCount =>
      case WordCount =>
      case CharCount =>
      case AlphaCount =>
      case DigitCount =>
      case VowelCount =>
      case NonVowelCount =>
    }
  }

  /** The map with all eight keys that the sequential analyzer returns. */
  function ToTally(s: Stats): (m: Tally)
    ensures forall k :: k in m && m[k] == Field(s, k)
    ensures FromTally(m) == s
  {
    var m := map[ParaCount := s.para, LineCount := s.lines, WordCount := s.words, CharCount := s.chars,
                 AlphaCount := s.alpha, DigitCount := s.digits, VowelCount := s.vowels,
                 NonVowelCount := s.nonVowels];
    EveryKeyListed(s, m);
    m
  }

  lemma EveryKeyListed(s: Stats, m: Tally)
    requires m == map[ParaCount := s.para, LineCount := s.lines, WordCount := s.words,
                      CharCount := s.chars, AlphaCount := s.alpha, DigitCount := s.digits,
                      VowelCount := s.vowels, NonVowelCount := s.nonVowels]
    ensures forall k :: k in m && m[k] == Field(s, k)
  {
    forall k ensures k in m && m[k] == Field(s, k) {
      match k
      case ParaCount =>
      case LineCount =>
      case WordCount =>
      case CharCount =>
      case AlphaCount =>
      case DigitCount =>
      case VowelCount =>
      case NonVowelCount =>
    }
  }

  /** Two records are equal when every key reads the same. */
  lemma FieldsDetermine(a: Stats, b: Stats)
    requires forall k :: Field(a, k) == Field(b, k)
    ensures a == b
  {
    assert Field(a, ParaCount) == Field(b, ParaCount);
    assert Field(a, LineCount) == Field(b, LineCount);
    assert Field(a, WordCount) == Field(b, WordCount);
    assert Field(a, CharCount) == Field(b, CharCount);
    assert Field(a, AlphaCount) == Field(b, AlphaCount);
    assert Field(a, DigitCount) == Field(b, DigitCount);
    assert Field(a, VowelCount) == Field(b, VowelCount);
    assert Field(a, NonVowelCount) == Field(b, NonVowelCount);
  }

  /** The merge of two partial results: every key is the sum of the two. */
  function Add(a: Stats, b: Stats): Stats {
    Stats(a.para + b.para, a.lines + b.lines, a.words + b.words, a.chars + b.chars,
          a.alpha + b.alpha, a.digits + b.digits, a.vowels + b.vowels, a.nonVowels + b.nonVowels)
  }

  /** Merging adds every key separately. */
  lemma AddKeywise(a: Stats, b: Stats)
    ensures forall k :: Field(Add(a, b), k) == Field(a, k) + Field(b, k)
  {
    forall k ensures Field(Add(a, b), k) == Field(a, k) + Field(b, k) {
      match k
      case ParaCount =>
      case LineCount =>
      case WordCount =>
      case CharCount =>
      case AlphaCount =>
      case DigitCount =>
      case VowelCount =>
      case NonVowelCount =>
    }
  }

  /** Merging is commutative. */
  lemma AddCommutes(a: Stats, b: Stats)
    ensures Add(a, b) == Add(b, a)
  {
  }

  lemma AddAssociates(a: Stats, b: Stats, c: Stats)
    ensures Add(Add(a, b), c) == Add(a, Add(b, c))
  {
  }

  /** The relations every analysis result satisfies: no counter is
      negative, each letter is a vowel or a non-vowel, letters and digits are
      disjoint kinds of character, there are no more paragraphs than lines
      and no more words than characters. */
  predicate Consistent(s: Stats) {
    && 0 <= s.para && 0 <= s.words && 0 <= s.digits && 0 <= s.vowels && 0 <= s.nonVowels
    && s.alpha == s.vowels + s.nonVowels
    && s.alpha + s.digits <= s.chars
    && s.para <= s.lines
    && s.words <= s.chars
  }

  lemma AddConsistent(a: Stats, b: Stats)
    requires Consistent(a) && Consistent(b)
    ensures Consistent(Add(a, b))
  {
  }

  /** The partial results merged one after another, in sequence order. */
  function Sum(xs: seq<Stats>): Stats {
    if xs == [] then Zero else Add(Sum(xs[..|xs| - 1]), xs[|xs| - 1])
  }

  lemma {:induction false} SumAppend(xs: seq<Stats>, ys: seq<Stats>)
    ensures Sum(xs + ys) == Add(Sum(xs), Sum(ys))
    decreases |ys|
  {
    if ys == [] {
      assert xs + ys == xs;
    } else {
      var zs := xs + ys;
      var ys' := ys[..|ys| - 1];
      assert zs[..|zs| - 1] == xs + ys';
      assert zs[|zs| - 1] == ys[|ys| - 1];
      SumAppend(xs, ys');
      assert Sum(zs) == Add(Sum(xs + ys'), ys[|ys| - 1]);
      assert Sum(ys) == Add(Sum(ys'), ys[|ys| - 1]);
    }
  }

  /** Taking one partial result out of the middle and merging it last does
      not change the total. */
  lemma SumRemove(ys: seq<Stats>, j: nat)
    requires j < |ys|
    ensures Sum(ys) == Add(Sum(ys[..j] + ys[j + 1..]), ys[j])
  {
    var a, y, b := ys[..j], ys[j], ys[j + 1..];
    assert ys[..j + 1] == a + [y];
    assert ys == ys[..j + 1] + b;
    SumAppend(a + [y], b);
    SumAppend(a, [y]);
    SumAppend(a, b);
    assert Sum([y]) == Add(Zero, y) by {
      assert [y][..0] == [];
    }
    AddSwap(Sum(a), y, Sum(b));
  }

  lemma AddSwap(a: Stats, y: Stats, b: Stats)
    ensures Add(Add(a, y), b) == Add(Add(a, b), y)
  {
  }

  /** Merging is insensitive to order: any rearrangement of the partial
      results gives the same total. */
  lemma {:induction false} SumPermutation(xs: seq<Stats>, ys: seq<Stats>)
    requires multiset(xs) == multiset(ys)
    ensures Sum(xs) == Sum(ys)
    decreases |xs|
  {
    if xs == [] {
      assert |ys| == |multiset(ys)| == 0;
    } else {
      var x := xs[|xs| - 1];
      var xs' := xs[..|xs| - 1];
      assert xs == xs' + [x];
      assert x in multiset(ys);
      var j :| 0 <= j < |ys| && ys[j] == x;
      var ys' := ys[..j] + ys[j + 1..];
      assert multiset(xs') == multiset(ys') by {
        assert ys == ys[..j] + [x] + ys[j + 1..];
        assert multiset(ys') == multiset(ys) - multiset{x};
      }
      SumPermutation(xs', ys');
      SumRemove(ys, j);
    }
  }

  lemma {:induction false} SumConsistent(xs: seq<Stats>)
    requires forall i :: 0 <= i < |xs| ==> Consistent(xs[i])
    ensures Consistent(Sum(xs))
    decreases |xs|
  {
    if xs != [] {
      SumConsistent(xs[..|xs| - 1]);
    }
  }
}
