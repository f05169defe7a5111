/** Training: counting followed by the chosen smoothing strategy. */
module LanguageModel {
  import opened NGrams
  import opened Counting
  import opened Smoothing
  import opened Tokenize

  /** Two tables with the same counts have the same count sum. */
  lemma {:induction false} SumCountsSameCounts(a: seq<NGram>, b: seq<NGram>)
    requires |a| == |b|
    requires forall i :: 0 <= i < |a| ==> a[i].count == b[i].count
    ensures SumCounts(a) == SumCounts(b)
  {
    if a != [] {
      SumCountsSameCounts(a[..|a| - 1], b[..|b| - 1]);
    }
  }

  /** Smoothing only writes probabilities: a table with the same words and
      counts keeps being well formed, duplicate-free and of the same count sum. */
  lemma SameWordsAndCounts(a: seq<NGram>, b: seq<NGram>, n: nat)
    requires |a| == |b|
    requires forall i :: 0 <= i < |a| ==> a[i].words == b[i].words && a[i].count == b[i].count
    requires WellFormed(a, n) && NoDuplicateWords(a)
    ensures WellFormed(b, n) && NoDuplicateWords(b) && SumCounts(b) == SumCounts(a)
  {
    SumCountsSameCounts(a, b);
  }

  /** Builds the model of order n from the training tokens. An order below 2
      gives an empty table. Otherwise the table is the counted windows, in
      first-occurrence order, without duplicates, with counts adding up to
      the number of windows, and with every probability set by the chosen
      strategy: non-negative for Good-Turing, strictly positive for Kneser-Ney. */
  method BuildNGrams(tokens: seq<string>, n: int, smoothingType: SmoothingType) returns (ngrams: seq<NGram>)
    requires n < 2 || n - 1 <= |tokens|
    ensures n < 2 ==> ngrams == []
    ensures n >= 2 ==> |ngrams| == |Tally(Windows(tokens, n))|
    ensures n >= 2 ==> WellFormed(Tally(Windows(tokens, n)), n)
    ensures n >= 2 && |ngrams| > 0 ==> |tokens| >= n
    ensures n >= 2 && smoothingType == GoodTuring ==> forall i :: 0 <= i < |ngrams| ==>
      ngrams[i] == Tally(Windows(tokens, n))[i].(probability := GoodTuringEstimate(Tally(Windows(tokens, n)), n, i))
    ensures n >= 2 && smoothingType == KneserNey ==> forall i :: 0 <= i < |ngrams| ==>
      ngrams[i] == Tally(Windows(tokens, n))[i].(probability := KneserNeyEstimate(Tally(Windows(tokens, n)), tokens, n, i))
    ensures n >= 2 ==> WellFormed(ngrams, n) && NoDuplicateWords(ngrams)
    ensures n >= 2 ==> SumCounts(ngrams) == |tokens| - n + 1
    ensures smoothingType == GoodTuring ==> forall i :: 0 <= i < |ngrams| ==> ngrams[i].probability >= 0.0
    ensures smoothingType == KneserNey ==> forall i :: 0 <= i < |ngrams| ==> ngrams[i].probability > 0.0
  {
    if n < 2 {
      return [];
    }
    var counted := CountNGrams(tokens, n);
    TallyWindowsShape(tokens, n);
    assert |counted| > 0 ==> |Windows(tokens, n)| > 0;
    match smoothingType {
      case GoodTuring =>
        ngrams := GoodTuringSmoothing(counted, n);
      case KneserNey =>
        ngrams := KneserNeySmoothing(counted, tokens, n);
    }
    SameWordsAndCounts(counted, ngrams, n);
  }

  // ---------------------------------------------------------------------
  // Contexts of a trained table

  /** Every word of every record is one of the tokens. */
  ghost predicate WordsFromTokens(t: seq<NGram>, tokens: seq<string>)
  {
    forall i, k :: 0 <= i < |t| && 0 <= k < |t[i].words| ==> t[i].words[k] in tokens
  }

  /** Every word of every window is one of the tokens. */
  lemma WindowsFromTokens(tokens: seq<string>, n: nat)
    requires n <= |tokens| + 1
    ensures forall a, k :: 0 <= a < |Windows(tokens, n)| && 0 <= k < |Windows(tokens, n)[a]| ==>
      Windows(tokens, n)[a][k] in tokens
  {
    var ws := Windows(tokens, n);
    forall a, k | 0 <= a < |ws| && 0 <= k < |ws[a]| ensures ws[a][k] in tokens {
      assert ws[a][k] == tokens[a + k];
    }
  }

  /** Counting keeps to the words of the windows. */
  lemma TallyFromTokens(ws: seq<seq<string>>, tokens: seq<string>)
    requires forall a, k :: 0 <= a < |ws| && 0 <= k < |ws[a]| ==> ws[a][k] in tokens
    ensures WordsFromTokens(Tally(ws), tokens)
  {
    var t := Tally(ws);
    TallyCovers(ws);
    forall i, k | 0 <= i < |t| && 0 <= k < |t[i].words| ensures t[i].words[k] in tokens {
      var a :| 0 <= a < |ws| && ws[a] == t[i].words;
    }
  }

  /** The trained table is well formed, free of duplicates, and made of the
      training tokens. */
  lemma TrainedTable(tokens: seq<string>, n: nat)
    requires 2 <= n <= |tokens| + 1
    ensures WellFormed(Tally(Windows(tokens, n)), n)
    ensures NoDuplicateWords(Tally(Windows(tokens, n)))
    ensures WordsFromTokens(Tally(Windows(tokens, n)), tokens)
  {
    TallyWindowsShape(tokens, n);
    WindowsFromTokens(tokens, n);
    TallyFromTokens(Windows(tokens, n), tokens);
  }

  /** On tokens without spaces, two records share a context key exactly when
      they share their first n-1 words: Nc then counts the records that
      continue one context. */
  lemma ContextKeyIsPrefix(t: seq<NGram>, tokens: seq<string>, n: nat, i: nat, j: nat)
    requires WellFormed(t, n) && WordsFromTokens(t, tokens) && TokensSpaceFree(tokens)
    requires i < |t| && j < |t|
    ensures ContextKey(t[i].words, n) == ContextKey(t[j].words, n)
      <==> t[i].words[..n - 1] == t[j].words[..n - 1]
  {
    var p, q := t[i].words[..n - 1], t[j].words[..n - 1];
    forall k | 0 <= k < |p| ensures SpaceFree(p[k]) {
      assert p[k] == t[i].words[k] && p[k] in tokens;
    }
    forall k | 0 <= k < |q| ensures SpaceFree(q[k]) {
      assert q[k] == t[j].words[k] && q[k] in tokens;
    }
    if Join(p) == Join(q) {
      JoinInjective(p, q);
    }
  }

  /** A subset has no more elements than its superset. */
  lemma {:induction false} SubsetSize<T>(a: set<T>, b: set<T>)
    requires a <= b
    ensures |a| <= |b|
    decreases |a|
  {
    if a != {} {
      var x :| x in a;
      SubsetSize(a - {x}, b - {x});
    }
  }

  /** On tokens without spaces, the records of one context differ in their
      last word, because no two records share all their words. */
  lemma SpaceFreeDistinctContinuations(t: seq<NGram>, tokens: seq<string>, n: nat, key: string)
    requires WellFormed(t, n) && NoDuplicateWords(t)
    requires WordsFromTokens(t, tokens) && TokensSpaceFree(tokens)
    ensures DistinctContinuations(t, key, n)
  {
    forall i, j | 0 <= i < j < |t| &&
      ContextKey(t[i].words, n) == key && ContextKey(t[j].words, n) == key
      ensures t[i].words[n - 1] != t[j].words[n - 1]
    {
      ContextKeyIsPrefix(t, tokens, n, i, j);
      assert t[i].words == t[i].words[..n - 1] + [t[i].words[n - 1]];
      assert t[j].words == t[j].words[..n - 1] + [t[j].words[n - 1]];
    }
  }

  /** Every continuation is one of the tokens. */
  lemma ContinuationsAreTokens(t: seq<NGram>, tokens: seq<string>, n: nat, key: string)
    requires WellFormed(t, n) && WordsFromTokens(t, tokens)
    ensures Continuations(t, key, n) <= set x | x in tokens
  {
    forall w | w in Continuations(t, key, n) ensures w in tokens {
      var i :| 0 <= i < |t| && ContextKey(t[i].words, n) == key && t[i].words[n - 1] == w;
    }
  }

  /** On tokens without spaces, a context has at most as many records as
      there are distinct tokens. */
  lemma ContextCountAtMostVocabulary(t: seq<NGram>, tokens: seq<string>, n: nat, key: string)
    requires WellFormed(t, n) && NoDuplicateWords(t)
    requires WordsFromTokens(t, tokens) && TokensSpaceFree(tokens)
    ensures ContextCount(t, key, n) <= Vocabulary(tokens)
  {
    SpaceFreeDistinctContinuations(t, tokens, n, key);
    ContextCountContinuations(t, key, n);
    ContinuationsAreTokens(t, tokens, n, key);
    SubsetSize(Continuations(t, key, n), set x | x in tokens);
  }

  /** On tokens without spaces, every Kneser-Ney probability of the trained
      table lies in (0, 1]. */
  lemma KneserNeyTrainedInUnitInterval(tokens: seq<string>, n: nat, i: nat)
    requires 2 <= n <= |tokens| + 1 && TokensSpaceFree(tokens)
    requires i < |Tally(Windows(tokens, n))|
    ensures WellFormed(Tally(Windows(tokens, n)), n) && |tokens| > 0
    ensures 0.0 < KneserNeyEstimate(Tally(Windows(tokens, n)), tokens, n, i) <= 1.0
  {
    var t := Tally(Windows(tokens, n));
    TrainedTable(tokens, n);
    var key := ContextKey(t[i].words, n);
    assert key in ContextKeys(t, n);
    ContextCountPositive(t, key, n);
    ContextCountAtMostVocabulary(t, tokens, n, key);
    KneserNeyAtMostOne(t[i].count, ContextCount(t, key, n), Vocabulary(tokens));
  }

  /** Trained on the tokens of a text corpus, every Kneser-Ney probability
      lies in (0, 1]. */
  lemma KneserNeyOnCorpusInUnitInterval(lines: seq<string>, n: nat, i: nat)
    requires 2 <= n <= |Tokenized(lines)| + 1
    requires i < |Tally(Windows(Tokenized(lines), n))|
    ensures WellFormed(Tally(Windows(Tokenized(lines), n)), n) && |Tokenized(lines)| > 0
    ensures 0.0 < KneserNeyEstimate(Tally(Windows(Tokenized(lines), n)), Tokenized(lines), n, i) <= 1.0
  {
    TokensHaveNoSpace(lines);
    KneserNeyTrainedInUnitInterval(Tokenized(lines), n, i);
  }

  // ---------------------------------------------------------------------
  // A worked example: the corpus "<s> the cat sat </s>" with order 2

  const ExampleTokens: seq<string> := ["<s>", "the", "cat", "sat", "</s>"]

  const ExampleTable: seq<NGram> := [
    NGram(["<s>", "the"], 1, 0.0), NGram(["the", "cat"], 1, 0.0),
    NGram(["cat", "sat"], 1, 0.0), NGram(["sat", "</s>"], 1, 0.0)]

  const ExampleContextTable: map<string, int> :=
    map["<s> " := 1, "the " := 1, "cat " := 1, "sat " := 1]

  /** Its four bigrams. */
  lemma ExampleWindows()
    ensures Windows(ExampleTokens, 2) ==
      [["<s>", "the"], ["the", "cat"], ["cat", "sat"], ["sat", "</s>"]]
  {
    var tokens := ExampleTokens;
    assert tokens[0..2] == ["<s>", "the"] && tokens[1..3] == ["the", "cat"];
    assert tokens[2..4] == ["cat", "sat"] && tokens[3..5] == ["sat", "</s>"];
  }

  /** Its four bigrams, each seen once, in order. */
  lemma ExampleTally()
    ensures Tally(Windows(ExampleTokens, 2)) == ExampleTable
  {
    ExampleWindows();
    var ws := Windows(ExampleTokens, 2);
    assert "<s>" != "the" && "the" != "cat" && "cat" != "sat" && "sat" != "<s>";
    TallyOfDistinct(ws);
  }

  /** The context keys of the example's records. */
  lemma ExampleKeys()
    ensures WellFormed(ExampleTable, 2)
    ensures ContextKey(ExampleTable[0].words, 2) == "<s> "
    ensures ContextKey(ExampleTable[1].words, 2) == "the "
    ensures ContextKey(ExampleTable[2].words, 2) == "cat "
    ensures ContextKey(ExampleTable[3].words, 2) == "sat "
  {
    var t := ExampleTable;
    assert t[0].words[..1] == ["<s>"] && t[1].words[..1] == ["the"];
    assert t[2].words[..1] == ["cat"] && t[3].words[..1] == ["sat"];
    assert Join(["<s>"]) == "<s>" + " " + Join([]);
    assert Join(["the"]) == "the" + " " + Join([]);
    assert Join(["cat"]) == "cat" + " " + Join([]);
    assert Join(["sat"]) == "sat" + " " + Join([]);
  }

  /** Each of the four keys belongs to exactly one record. */
  lemma ExampleCounts(k: string)
    requires k in ExampleContextTable
    ensures WellFormed(ExampleTable, 2)
    ensures ContextCount(ExampleTable, k, 2) == 1
  {
    ExampleKeys();
    var t := ExampleTable;
    ContextCountStep(t[..3], t[3], 2, k);
    ContextCountStep(t[..2], t[2], 2, k);
    ContextCountStep(t[..1], t[1], 2, k);
    ContextCountStep(t[..0], t[0], 2, k);
    assert t[..0] + [t[0]] == t[..1] && t[..1] + [t[1]] == t[..2];
    assert t[..2] + [t[2]] == t[..3] && t[..3] + [t[3]] == t;
  }

  /** Its four contexts each continue into one record. */
  lemma ExampleContexts()
    ensures WellFormed(ExampleTable, 2)
    ensures ContextTable(ExampleTable, 2) == ExampleContextTable
  {
    ExampleKeys();
    var t := ExampleTable;
    assert ContextKeys(t, 2) == ExampleContextTable.Keys by {
      assert forall i :: 0 <= i < 4 ==> ContextKey(t[i].words, 2) in ExampleContextTable.Keys;
      assert ContextKey(t[0].words, 2) in ContextKeys(t, 2);
      assert ContextKey(t[1].words, 2) in ContextKeys(t, 2);
      assert ContextKey(t[2].words, 2) in ContextKeys(t, 2);
      assert ContextKey(t[3].words, 2) in ContextKeys(t, 2);
    }
    forall k | k in ExampleContextTable ensures ContextCount(t, k, 2) == 1 {
      ExampleCounts(k);
    }
  }

  /** Four contexts of size 1 give eachOccurrences {1: 4}. */
  lemma ExampleFrequencies()
    ensures FrequencyTable(ExampleContextTable) == map[1 := 4]
  {
    var nc := ExampleContextTable;
    assert ValuesOf(nc, nc.Keys) == {1} by { assert nc["the "] == 1; }
    assert Preimage(nc, nc.Keys, 1) == nc.Keys;
    assert |nc.Keys| == 4;
  }

  /** With Good-Turing smoothing the bigram ("the", "cat") is counted once
      and no count of 2 occurs, so the fallback E[1]/Nc gives it
      probability 4: an estimate that is not bounded by 1. */
  lemma GoodTuringExample()
    ensures WellFormed(Tally(Windows(ExampleTokens, 2)), 2)
    ensures |Tally(Windows(ExampleTokens, 2))| == 4
    ensures Tally(Windows(ExampleTokens, 2))[1] == NGram(["the", "cat"], 1, 0.0)
    ensures GoodTuringEstimate(Tally(Windows(ExampleTokens, 2)), 2, 1) == 4.0
  {
    ExampleTally();
    ExampleContexts();
    ExampleFrequencies();
    ExampleKeys();
    var t := ExampleTable;
    assert "the " in ContextKeys(t, 2);
    assert ContextTable(t, 2)["the "] == ContextCount(t, "the ", 2) == 1;
    var e := map[1 := 4];
    assert Lookup(e, 1) == 4 && Lookup(e, 2) == 0;
    assert GoodTuringProbability(1, 1, e) == 4.0;
  }
}
