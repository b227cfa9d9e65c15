/** Character classification and the two string helpers the analyzers call:
    trimming surrounding whitespace (Go's strings.TrimSpace) and splitting a
    string into whitespace-separated fields (Go's strings.Fields).
    The Unicode tables behind letters, digits and whitespace are not modelled:
    they are the three predicates of a `Classifier`, and every result below
    holds whatever those predicates are. */
module Text {

  /** unicode.IsLetter, unicode.IsDigit and unicode.IsSpace, left abstract. */
  datatype Classifier = Classifier(isLetter: char -> bool, isDigit: char -> bool, isSpace: char -> bool)

  /** The vowel set the analyzers test letters against. */
  const Vowels: string := "aeiouAEIOU"

  predicate IsVowel(c: char) {
    c in Vowels
  }

  predicate AllSpace(cls: Classifier, s: string) {
    forall k :: 0 <= k < |s| ==> cls.isSpace(s[k])
  }

  predicate NoSpace(cls: Classifier, s: string) {
    forall k :: 0 <= k < |s| ==> !cls.isSpace(s[k])
  }

  /** Number of whitespace characters at the front of `s`. */
  function LeadingSpace(cls: Classifier, s: string): (n: nat)
    ensures n <= |s|
    ensures n < |s| ==> !cls.isSpace(s[n])
    decreases |s|
  {
    if s == [] || !cls.isSpace(s[0]) then 0 else 1 + LeadingSpace(cls, s[1..])
  }

  lemma {:induction false} LeadingSpaceIsSpace(cls: Classifier, s: string)
    ensures AllSpace(cls, s[..LeadingSpace(cls, s)])
    decreases |s|
  {
    if s != [] && cls.isSpace(s[0]) {
      LeadingSpaceIsSpace(cls, s[1..]);
      assert s[..LeadingSpace(cls, s)] == [s[0]] + s[1..][..LeadingSpace(cls, s[1..])];
    }
  }

  /** Number of whitespace characters at the back of `s`. */
  function TrailingSpace(cls: Classifier, s: string): (n: nat)
    ensures n <= |s|
    ensures n < |s| ==> !cls.isSpace(s[|s| - 1 - n])
    ensures s != [] && !cls.isSpace(s[0]) ==> n < |s|
    decreases |s|
  {
    if s == [] || !cls.isSpace(s[|s| - 1]) then 0 else 1 + TrailingSpace(cls, s[..|s| - 1])
  }

  lemma {:induction false} TrailingSpaceIsSpace(cls: Classifier, s: string)
    ensures AllSpace(cls, s[|s| - TrailingSpace(cls, s)..])
    decreases |s|
  {
    if s != [] && cls.isSpace(s[|s| - 1]) {
      var p := s[..|s| - 1];
      TrailingSpaceIsSpace(cls, p);
      assert s[|s| - TrailingSpace(cls, s)..] == p[|p| - TrailingSpace(cls, p)..] + [s[|s| - 1]];
    }
  }

  /** strings.TrimSpace: `s` with its leading and trailing whitespace
      removed; empty exactly when `s` is all whitespace. */
  function TrimSpace(cls: Classifier, s: string): (t: string)
    ensures |t| <= |s|
    ensures t == [] <==> AllSpace(cls, s)
  {
    var i := LeadingSpace(cls, s);
    LeadingSpaceIsSpace(cls, s);
    assert i == |s| ==> s[..i] == s;
    var rest := s[i..];
    assert i < |s| ==> rest[0] == s[i];
    rest[..|rest| - TrailingSpace(cls, rest)]
  }

  /** What TrimSpace removes is whitespace at either end and nothing else:
      `s` is the trimmed text between two all-whitespace pieces, and the
      trimmed text, when not empty, neither starts nor ends with whitespace. */
  lemma TrimSpaceShape(cls: Classifier, s: string)
    ensures var t := TrimSpace(cls, s);
            exists i :: 0 <= i && i + |t| <= |s| && s == s[..i] + t + s[i + |t|..]
                     && AllSpace(cls, s[..i]) && AllSpace(cls, s[i + |t|..])
    ensures var t := TrimSpace(cls, s);
            t != [] ==> !cls.isSpace(t[0]) && !cls.isSpace(t[|t| - 1])
  {
    var i := LeadingSpace(cls, s);
    var rest := s[i..];
    var n := TrailingSpace(cls, rest);
    var t := rest[..|rest| - n];
    assert t == TrimSpace(cls, s);
    assert rest == t + rest[|rest| - n..];
    assert s[i + |t|..] == rest[|rest| - n..];
    assert s == s[..i] + t + s[i + |t|..];
    if t != [] {
      assert t[0] == s[i];
      assert t[|t| - 1] == rest[|rest| - 1 - n];
    }
    LeadingSpaceIsSpace(cls, s);
    TrailingSpaceIsSpace(cls, rest);
  }

  /** Length of the run of non-whitespace characters at the front of `s`. */
  function WordLength(cls: Classifier, s: string): (n: nat)
    ensures n <= |s|
    ensures n < |s| ==> cls.isSpace(s[n])
    ensures s != [] && !cls.isSpace(s[0]) ==> n > 0
    decreases |s|
  {
    if s == [] || cls.isSpace(s[0]) then 0 else 1 + WordLength(cls, s[1..])
  }

  lemma {:induction false} WordLengthNoSpace(cls: Classifier, s: string)
    ensures NoSpace(cls, s[..WordLength(cls, s)])
    decreases |s|
  {
    if s != [] && !cls.isSpace(s[0]) {
      WordLengthNoSpace(cls, s[1..]);
      assert s[..WordLength(cls, s)] == [s[0]] + s[1..][..WordLength(cls, s[1..])];
    }
  }

  /** The characters of `s` that are not whitespace, in order. */
  function Unspaced(cls: Classifier, s: string): (r: string)
    decreases |s|
  {
    if s == [] then [] else (if cls.isSpace(s[0]) then [] else [s[0]]) + Unspaced(cls, s[1..])
  }

  /** The concatenation of a sequence of words. */
  function Concat(ws: seq<string>): string {
    if ws == [] then [] else ws[0] + Concat(ws[1..])
  }

  lemma {:induction false} UnspacedAppend(cls: Classifier, a: string, b: string)
    ensures Unspaced(cls, a + b) == Unspaced(cls, a) + Unspaced(cls, b)
    decreases |a|
  {
    if a == [] {
      assert a + b == b;
    } else {
      assert (a + b)[1..] == a[1..] + b;
      UnspacedAppend(cls, a[1..], b);
    }
  }

  lemma {:induction false} UnspacedAllSpace(cls: Classifier, s: string)
    requires AllSpace(cls, s)
    ensures Unspaced(cls, s) == []
    decreases |s|
  {
    if s != [] {
      UnspacedAllSpace(cls, s[1..]);
    }
  }

  lemma {:induction false} UnspacedNoSpace(cls: Classifier, s: string)
    requires NoSpace(cls, s)
    ensures Unspaced(cls, s) == s
    decreases |s|
  {
    if s != [] {
      UnspacedNoSpace(cls, s[1..]);
    }
  }

  /** strings.Fields: the maximal runs of non-whitespace characters of `s`;
      there are none exactly when `s` is all whitespace. */
  function Fields(cls: Classifier, s: string): (ws: seq<string>)
    ensures |ws| <= |s|
    ensures ws == [] <==> AllSpace(cls, s)
    decreases |s|
  {
    var i := LeadingSpace(cls, s);
    if i == |s| then
      LeadingSpaceIsSpace(cls, s);
      assert s[..i] == s;
      []
    else
      var r := s[i..];
      var j := WordLength(cls, r);
      assert !cls.isSpace(s[i]);
      [r[..j]] + Fields(cls, r[j..])
  }

  /** Every field is non-empty and free of whitespace. */
  lemma {:induction false} FieldsAreWords(cls: Classifier, s: string)
    ensures forall w :: w in Fields(cls, s) ==> w != [] && NoSpace(cls, w)
    decreases |s|
  {
    var i := LeadingSpace(cls, s);
    if i < |s| {
      var r := s[i..];
      var j := WordLength(cls, r);
      WordLengthNoSpace(cls, r);
      FieldsAreWords(cls, r[j..]);
      assert Fields(cls, s) == [r[..j]] + Fields(cls, r[j..]);
    }
  }

  /** The fields together hold exactly the non-whitespace characters of `s`,
      in order. */
  lemma {:induction false} FieldsCover(cls: Classifier, s: string)
    ensures Concat(Fields(cls, s)) == Unspaced(cls, s)
    decreases |s|
  {
    var i := LeadingSpace(cls, s);
    if i == |s| {
      LeadingSpaceIsSpace(cls, s);
      assert s[..i] == s;
      UnspacedAllSpace(cls, s);
    } else {
      var r := s[i..];
      var j := WordLength(cls, r);
      FieldsCover(cls, r[j..]);
      ConcatCons(r[..j], Fields(cls, r[j..]));
      UnspacedFirstWord(cls, s, i, r, j);
    }
  }

  /** The number of positions of `s` where a word begins: a non-whitespace
      character that is the first of `s` (when `afterSpace` holds) or follows
      a whitespace character. Counted left to right, independently of
      `Fields`. */
  function Starts(cls: Classifier, s: string, afterSpace: bool): nat
    decreases |s|
  {
    if s == [] then 0
    else (if afterSpace && !cls.isSpace(s[0]) then 1 else 0) + Starts(cls, s[1..], cls.isSpace(s[0]))
  }

  function WordStarts(cls: Classifier, s: string): nat {
    Starts(cls, s, true)
  }

  /** strings.Fields yields one field per word start: the fields are the
      maximal runs of non-whitespace characters, so their number is the
      word count. */
  lemma {:induction false} FieldsCount(cls: Classifier, s: string)
    ensures |Fields(cls, s)| == WordStarts(cls, s)
    decreases |s|
  {
    var i := LeadingSpace(cls, s);
    StartsSkipSpace(cls, s, true);
    if i < |s| {
      var r := s[i..];
      var j := WordLength(cls, r);
      assert !cls.isSpace(r[0]);
      StartsSkipWord(cls, r[1..]);
      assert r[1..][WordLength(cls, r[1..])..] == r[j..];
      StartsAfterWord(cls, r[j..]);
      FieldsCount(cls, r[j..]);
    }
  }

  /** Leading whitespace holds no word start. */
  lemma {:induction false} StartsSkipSpace(cls: Classifier, s: string, afterSpace: bool)
    ensures var i := LeadingSpace(cls, s);
            Starts(cls, s, afterSpace) == Starts(cls, s[i..], if i == 0 then afterSpace else true)
    decreases |s|
  {
    if s != [] && cls.isSpace(s[0]) {
      StartsSkipSpace(cls, s[1..], true);
      assert s[1..][LeadingSpace(cls, s[1..])..] == s[LeadingSpace(cls, s)..];
    }
  }

  /** Inside a word (after its first character) there is no word start. */
  lemma {:induction false} StartsSkipWord(cls: Classifier, s: string)
    ensures Starts(cls, s, false) == Starts(cls, s[WordLength(cls, s)..], false)
    decreases |s|
  {
    if s != [] && !cls.isSpace(s[0]) {
      StartsSkipWord(cls, s[1..]);
      assert s[1..][WordLength(cls, s[1..])..] == s[WordLength(cls, s)..];
    }
  }

  /** What follows a word begins with whitespace, so the flag does not matter. */
  lemma StartsAfterWord(cls: Classifier, s: string)
    requires s == [] || cls.isSpace(s[0])
    ensures Starts(cls, s, false) == Starts(cls, s, true)
  {
  }

  lemma ConcatCons(w: string, ws: seq<string>)
    ensures Concat([w] + ws) == w + Concat(ws)
  {
    assert ([w] + ws)[1..] == ws;
  }

  /** Skipping the leading whitespace and taking the first word removes no
      non-whitespace character. */
  lemma UnspacedFirstWord(cls: Classifier, s: string, i: nat, r: string, j: nat)
    requires i == LeadingSpace(cls, s) && i < |s| && r == s[i..] && j == WordLength(cls, r)
    ensures Unspaced(cls, s) == r[..j] + Unspaced(cls, r[j..])
  {
    assert s == s[..i] + r;
    assert r == r[..j] + r[j..];
    LeadingSpaceIsSpace(cls, s);
    UnspacedSkipSpace(cls, s[..i], r);
    WordLengthNoSpace(cls, r);
    UnspacedKeepWord(cls, r[..j], r[j..]);
  }

  lemma UnspacedSkipSpace(cls: Classifier, a: string, b: string)
    requires AllSpace(cls, a)
    ensures Unspaced(cls, a + b) == Unspaced(cls, b)
  {
    UnspacedAppend(cls, a, b);
    UnspacedAllSpace(cls, a);
  }

  lemma UnspacedKeepWord(cls: Classifier, w: string, b: string)
    requires NoSpace(cls, w)
    ensures Unspaced(cls, w + b) == w + Unspaced(cls, b)
  {
    UnspacedAppend(cls, w, b);
    UnspacedNoSpace(cls, w);
  }
}
