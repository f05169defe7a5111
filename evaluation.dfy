/** Evaluation of a trained model on held-out tokens: the per-window test
    records with their looked-up probabilities, the sentence probability,
    and the probabilities the perplexity loop selects. */
module Evaluation {
  import opened NGrams

  /** Every model record has at least n words, so its first n can be compared. */
  predicate Covers(model: seq<NGram>, n: nat)
  {
    forall i :: 0 <= i < |model| ==> n <= |model[i].words|
  }

  /** The innermost comparison loop: how many of the first n positions of a
      and b hold equal words; all n do exactly when the first n words agree. */
  method CountMatches(a: seq<string>, b: seq<string>, n: nat) returns (matches: nat)
    requires n <= |a| && n <= |b|
    ensures matches <= n
    ensures matches == n <==> a[..n] == b[..n]
  {
    matches := 0;
    var i := 0;
    while i < n
      invariant 0 <= i <= n
      invariant matches <= i
      invariant matches == i <==> a[..i] == b[..i]
    {
      assert a[..i + 1] == a[..i] + [a[i]] && b[..i + 1] == b[..i] + [b[i]];
      if a[i] == b[i] {
        matches := matches + 1;
      }
      i := i + 1;
    }
  }

  /** Position of the first model record whose first n words are w, or |model|. */
  function FirstMatch(model: seq<NGram>, w: seq<string>, n: nat): (k: nat)
    requires Covers(model, n) && |w| == n
    ensures k <= |model|
    ensures k < |model| ==> model[k].words[..n] == w
    ensures forall j :: 0 <= j < k ==> model[j].words[..n] != w
  {
    if model == [] then 0
    else if model[0].words[..n] == w then 0
    else 1 + FirstMatch(model[1..], w, n)
  }

  /** The uniform probability given to an unseen window: 1/|model|. */
  function Fallback(model: seq<NGram>): (p: real)
    requires |model| > 0
    ensures 0.0 < p <= 1.0
  {
    1.0 / |model| as real
  }

  /** The probability a test window receives: that of the first model record
      with the same words; otherwise 1/|model|; with an empty model it keeps
      its initial 0. */
  function TestProbability(model: seq<NGram>, w: seq<string>, n: nat): real
    requires Covers(model, n) && |w| == n
  {
    var k := FirstMatch(model, w, n);
    if k < |model| then model[k].probability
    else if model == [] then 0.0
    else Fallback(model)
  }

  /** The test records for the held-out tokens: one per window, count 0. */
  ghost function TestNGrams(model: seq<NGram>, testTokens: seq<string>, n: nat): (t: seq<NGram>)
    requires n <= |testTokens| + 1 && Covers(model, n)
    ensures |t| == |testTokens| - n + 1
    ensures forall i :: 0 <= i < |t| ==> t[i].words == testTokens[i..i + n] && t[i].count == 0
  {
    var ws := Windows(testTokens, n);
    seq(|ws|, i requires 0 <= i < |ws| => NGram(ws[i], 0, TestProbability(model, ws[i], n)))
  }

  /** The scan of the model for one test record: a full match copies that
      record's probability and stops the scan; every mismatch on the way
      writes the fallback 1/|model|; an empty model leaves the record alone. */
  method ScoreTestNGram(model: seq<NGram>, record: NGram, n: nat) returns (scored: NGram)
    requires Covers(model, n) && |record.words| == n
    ensures model == [] ==> scored == record
    ensures model != [] ==> scored == record.(probability := TestProbability(model, record.words, n))
  {
    scored := record;
    var m := 0;
    while m < |model|
      invariant 0 <= m <= |model|
      invariant scored.words == record.words && scored.count == record.count
      invariant forall k :: 0 <= k < m ==> model[k].words[..n] != record.words
      invariant scored.probability == if m == 0 then record.probability else Fallback(model)
    {
      var matches := CountMatches(scored.words, model[m].words, n);
      if matches == n {
        scored := scored.(probability := model[m].probability);
        break;
      } else {
        scored := scored.(probability := 1.0 / |model| as real);
      }
      m := m + 1;
    }
  }

  /** Builds one test record per window of the held-out tokens, then scores
      each against the model. */
  method CreateTestNGrams(model: seq<NGram>, testTokens: seq<string>, n: nat) returns (testNgrams: seq<NGram>)
    requires n <= |testTokens| + 1 && Covers(model, n)
    ensures testNgrams == TestNGrams(model, testTokens, n)
  {
    ghost var ws := Windows(testTokens, n);
    testNgrams := [];
    var i := 0;
    while i < |testTokens| - (n - 1)
      invariant 0 <= i <= |ws| && |testNgrams| == i
      invariant forall j :: 0 <= j < i ==> testNgrams[j] == NGram(ws[j], 0, 0.0)
    {
      var words := ReadWindow(testTokens, i, n);
      testNgrams := testNgrams + [NGram(words, 0, 0.0)];
      i := i + 1;
    }

    var t := 0;
    while t < |testNgrams|
      invariant 0 <= t <= |testNgrams| == |ws|
      invariant forall j :: 0 <= j < t ==>
        testNgrams[j] == NGram(ws[j], 0, TestProbability(model, ws[j], n))
      invariant forall j :: t <= j < |ws| ==> testNgrams[j] == NGram(ws[j], 0, 0.0)
    {
      var scored := ScoreTestNGram(model, testNgrams[t], n);
      testNgrams := testNgrams[t := scored];
      t := t + 1;
    }
  }

  // ---------------------------------------------------------------------
  // What a test window receives

  /** A window that equals a record of a duplicate-free model of order n
      receives exactly that record's stored probability. */
  lemma TestProbabilityExact(model: seq<NGram>, w: seq<string>, n: nat, j: nat)
    requires forall i :: 0 <= i < |model| ==> |model[i].words| == n
    requires NoDuplicateWords(model)
    requires j < |model| && model[j].words == w
    ensures Covers(model, n) && |w| == n
    ensures TestProbability(model, w, n) == model[j].probability
  {
    var k := FirstMatch(model, w, n);
    assert model[j].words[..n] == model[j].words;
    assert k <= j;
    assert model[k].words[..n] == model[k].words;
  }

  /** A window that matches no record of a non-empty model receives 1/|model|,
      which is positive. */
  lemma TestProbabilityUnseen(model: seq<NGram>, w: seq<string>, n: nat)
    requires Covers(model, n) && |w| == n && |model| > 0
    requires forall j :: 0 <= j < |model| ==> model[j].words[..n] != w
    ensures TestProbability(model, w, n) == 1.0 / |model| as real > 0.0
  {
    var k := FirstMatch(model, w, n);
    assert k == |model|;
  }

  /** If every record of a non-empty model has positive probability, every
      test window receives a positive probability. */
  lemma TestProbabilityPositive(model: seq<NGram>, w: seq<string>, n: nat)
    requires Covers(model, n) && |w| == n && |model| > 0
    requires forall j :: 0 <= j < |model| ==> model[j].probability > 0.0
    ensures TestProbability(model, w, n) > 0.0
  {
    var k := FirstMatch(model, w, n);
    if k == |model| {
      assert Fallback(model) > 0.0;
    }
  }

  // ---------------------------------------------------------------------
  // Sentence probability

  /** The product of the records' probabilities, multiplied left to right. */
  function Product(recs: seq<NGram>): real
  {
    if recs == [] then 1.0 else Product(recs[..|recs| - 1]) * recs[|recs| - 1].probability
  }

  /** The sentence probability: the product of the test records' probabilities. */
  method SentenceProbability(testNgrams: seq<NGram>) returns (probability: real)
    ensures probability == Product(testNgrams)
  {
    probability := 1.0;
    var i := 0;
    while i < |testNgrams|
      invariant 0 <= i <= |testNgrams|
      invariant probability == Product(testNgrams[..i])
    {
      assert testNgrams[..i + 1][..i] == testNgrams[..i];
      probability := probability * testNgrams[i].probability;
      i := i + 1;
    }
    assert testNgrams[..i] == testNgrams;
  }

  /** Scoring a concatenation multiplies the two scores. */
  lemma {:induction false} ProductConcat(a: seq<NGram>, b: seq<NGram>)
    ensures Product(a + b) == Product(a) * Product(b)
  {
    if b == [] {
      assert a + b == a;
    } else {
      var front := b[..|b| - 1];
      ProductConcat(a, front);
      assert (a + b)[..|a + b| - 1] == a + front;
    }
  }

  /** Positive probabilities give a positive product. */
  lemma {:induction false} ProductPositive(recs: seq<NGram>)
    requires forall i :: 0 <= i < |recs| ==> recs[i].probability > 0.0
    ensures Product(recs) > 0.0
  {
    if recs != [] {
      ProductPositive(recs[..|recs| - 1]);
    }
  }

  /** Probabilities in [0, 1] give a product in [0, 1]. */
  lemma {:induction false} ProductUnitInterval(recs: seq<NGram>)
    requires forall i :: 0 <= i < |recs| ==> 0.0 <= recs[i].probability <= 1.0
    ensures 0.0 <= Product(recs) <= 1.0
  {
    if recs != [] {
      var front := recs[..|recs| - 1];
      assert forall i :: 0 <= i < |front| ==> front[i] == recs[i];
      ProductUnitInterval(front);
      var p, q := Product(front), recs[|recs| - 1].probability;
      assert Product(recs) == p * q;
      assert 0.0 <= p * q;
      assert p * q <= p * 1.0;
    }
  }

  /** One record with probability 0 makes the product 0. */
  lemma {:induction false} ProductZero(recs: seq<NGram>, k: nat)
    requires k < |recs| && recs[k].probability == 0.0
    ensures Product(recs) == 0.0
  {
    if k < |recs| - 1 {
      ProductZero(recs[..|recs| - 1], k);
    }
  }

  /** A non-empty model whose records all have positive probability gives
      every held-out token sequence a positive sentence probability. */
  lemma SentenceProbabilityPositive(model: seq<NGram>, testTokens: seq<string>, n: nat)
    requires n <= |testTokens| + 1 && Covers(model, n) && |model| > 0
    requires forall j :: 0 <= j < |model| ==> model[j].probability > 0.0
    ensures Product(TestNGrams(model, testTokens, n)) > 0.0
  {
    var tests := TestNGrams(model, testTokens, n);
    forall i | 0 <= i < |tests| ensures tests[i].probability > 0.0 {
      TestProbabilityPositive(model, tests[i].words, n);
    }
    ProductPositive(tests);
  }

  // ---------------------------------------------------------------------
  // The probability-selection loop of the perplexity computation

  /** What the perplexity loop does with one window, given whether some
      earlier window has matched: the probabilities it pushes and the new flag.
      Before any match only the first record is compared (match: its
      probability; otherwise 1/|model|). After a match, the first matching
      record's probability, or nothing. An empty model pushes nothing. */
  function WindowStep(model: seq<NGram>, w: seq<string>, n: nat, matchFound: bool): (seq<real>, bool)
    requires Covers(model, n) && |w| == n
  {
    if model == [] then ([], matchFound)
    else if !matchFound then
      if model[0].words[..n] == w then ([model[0].probability], true)
      else ([Fallback(model)], false)
    else
      var k := FirstMatch(model, w, n);
      if k < |model| then ([model[k].probability], true) else ([], true)
  }

  /** All windows of order n. */
  predicate WindowsOfOrder(ws: seq<seq<string>>, n: nat)
  {
    forall k :: 0 <= k < |ws| ==> |ws[k]| == n
  }

  /** The probabilities the perplexity loop collects over the windows ws. */
  function Selected(model: seq<NGram>, ws: seq<seq<string>>, n: nat, matchFound: bool): seq<real>
    requires Covers(model, n) && WindowsOfOrder(ws, n)
    decreases |ws|
  {
    if ws == [] then []
    else
      var step := WindowStep(model, ws[0], n, matchFound);
      step.0 + Selected(model, ws[1..], n, step.1)
  }

  /** Selecting from the windows from position i on is one step on window i
      followed by the selection from position i + 1 on. */
  lemma SelectedFrom(model: seq<NGram>, ws: seq<seq<string>>, i: nat, n: nat, matchFound: bool)
    requires Covers(model, n) && WindowsOfOrder(ws, n) && i < |ws|
    ensures WindowsOfOrder(ws[i..], n) && WindowsOfOrder(ws[i + 1..], n)
    ensures Selected(model, ws[i..], n, matchFound) ==
      WindowStep(model, ws[i], n, matchFound).0 + Selected(model, ws[i + 1..], n, WindowStep(model, ws[i], n, matchFound).1)
  {
    assert ws[i..][0] == ws[i] && ws[i..][1..] == ws[i + 1..];
  }

  /** The scan of the model for one window inside the perplexity loop: on a
      full match push the record's probability, set the flag and stop; on a
      mismatch before any window has matched push 1/|model| and stop. */
  method ScanWindow(model: seq<NGram>, words: seq<string>, n: nat, matchFound: bool)
    returns (pushed: seq<real>, found: bool)
    requires Covers(model, n) && |words| == n
    ensures (pushed, found) == WindowStep(model, words, n, matchFound)
  {
    assert words[..n] == words;
    pushed, found := [], matchFound;
    var m := 0;
    while m < |model|
      invariant 0 <= m <= |model|
      invariant pushed == [] && found == matchFound
      invariant forall k :: 0 <= k < m ==> model[k].words[..n] != words
      invariant m > 0 ==> matchFound
    {
      var matches := CountMatches(model[m].words, words, n);
      if matches == n {
        assert model[m].words[..n] == words;
        assert matchFound ==> FirstMatch(model, words, n) == m;
        assert WindowStep(model, words, n, matchFound) == ([model[m].probability], true);
        pushed := pushed + [model[m].probability];
        found := true;
        assert pushed == [model[m].probability];
        break;
      }
      if !found {
        pushed := pushed + [1.0 / |model| as real];
        assert pushed == [Fallback(model)];
        assert WindowStep(model, words, n, matchFound) == ([Fallback(model)], false) by {
          assert model[0].words[..n] != words;
        }
        break;
      }
      m := m + 1;
    }
    assert m == |model| ==> (pushed, found) == WindowStep(model, words, n, matchFound);
  }

  /** The window loop of the perplexity computation: for each held-out window
      it scans the model with the `matchFound` flag and `break`s, collecting
      the probabilities that the final power product uses. */
  method PerplexityProbabilities(model: seq<NGram>, testTokens: seq<string>, n: nat) returns (probabilities: seq<real>)
    requires n <= |testTokens| + 1 && Covers(model, n)
    ensures probabilities == Selected(model, Windows(testTokens, n), n, false)
  {
    ghost var ws := Windows(testTokens, n);
    assert WindowsOfOrder(ws, n) && ws[0..] == ws;
    probabilities := [];
    var matchFound := false;
    var i := 0;
    while i < |testTokens| - (n - 1)
      invariant 0 <= i <= |ws|
      invariant WindowsOfOrder(ws, n) && WindowsOfOrder(ws[i..], n)
      invariant probabilities + Selected(model, ws[i..], n, matchFound) == Selected(model, ws, n, false)
    {
      var words := ReadWindow(testTokens, i, n);
      assert words == ws[i];
      SelectedFrom(model, ws, i, n, matchFound);
      var pushed, found := ScanWindow(model, words, n, matchFound);
      probabilities := probabilities + pushed;
      matchFound := found;
      i := i + 1;
    }
  }

  // ---------------------------------------------------------------------
  // What the perplexity loop selects

  /** At most one probability per window. */
  lemma {:induction false} SelectedAtMostOnePerWindow(model: seq<NGram>, ws: seq<seq<string>>, n: nat, matchFound: bool)
    requires Covers(model, n) && WindowsOfOrder(ws, n)
    ensures |Selected(model, ws, n, matchFound)| <= |ws|
  {
    if ws != [] {
      var step := WindowStep(model, ws[0], n, matchFound);
      SelectedAtMostOnePerWindow(model, ws[1..], n, step.1);
    }
  }

  /** An empty model selects nothing: the scan over the model never runs. */
  lemma {:induction false} SelectedEmptyModel(ws: seq<seq<string>>, n: nat, matchFound: bool)
    requires WindowsOfOrder(ws, n)
    ensures Selected([], ws, n, matchFound) == []
  {
    if ws != [] {
      SelectedEmptyModel(ws[1..], n, matchFound);
    }
  }

  /** Every selected value is the probability of some model record or 1/|model|. */
  lemma {:induction false} SelectedValues(model: seq<NGram>, ws: seq<seq<string>>, n: nat, matchFound: bool)
    requires Covers(model, n) && WindowsOfOrder(ws, n)
    ensures forall x :: x in Selected(model, ws, n, matchFound) ==>
      (|model| > 0 && x == Fallback(model)) ||
      exists k :: 0 <= k < |model| && model[k].probability == x
  {
    if ws != [] {
      var step := WindowStep(model, ws[0], n, matchFound);
      SelectedValues(model, ws[1..], n, step.1);
      if model != [] && matchFound {
        var k := FirstMatch(model, ws[0], n);
        if k < |model| {
          assert step.0 == [model[k].probability];
        }
      }
    }
  }

  /** If no window ever equals the first record, every window gets the
      fallback 1/|model|, whatever the later records hold. */
  lemma {:induction false} SelectedNeverMatched(model: seq<NGram>, ws: seq<seq<string>>, n: nat)
    requires Covers(model, n) && WindowsOfOrder(ws, n) && |model| > 0
    requires forall k :: 0 <= k < |ws| ==> model[0].words[..n] != ws[k]
    ensures Selected(model, ws, n, false) == seq(|ws|, _ => Fallback(model))
  {
    if ws != [] {
      SelectedNeverMatched(model, ws[1..], n);
    }
  }

  /** A window that matches some record, scanned after a match or matching
      the first record, selects its test probability and sets the flag. */
  lemma StepWhenSeen(model: seq<NGram>, w: seq<string>, n: nat, matchFound: bool)
    requires Covers(model, n) && |w| == n
    requires FirstMatch(model, w, n) < |model|
    requires matchFound || FirstMatch(model, w, n) == 0
    ensures WindowStep(model, w, n, matchFound) == ([TestProbability(model, w, n)], true)
  {
  }

  /** When every window matches some record and the loop has already matched
      (or the first window is the first record), the loop selects exactly
      the probabilities the test records receive. */
  lemma {:induction false} SelectedAgreesWhenSeen(model: seq<NGram>, ws: seq<seq<string>>, n: nat, matchFound: bool)
    requires Covers(model, n) && WindowsOfOrder(ws, n)
    requires forall k :: 0 <= k < |ws| ==> FirstMatch(model, ws[k], n) < |model|
    requires matchFound || ws == [] || FirstMatch(model, ws[0], n) == 0
    ensures Selected(model, ws, n, matchFound) ==
      seq(|ws|, k requires 0 <= k < |ws| => TestProbability(model, ws[k], n))
  {
    if ws != [] {
      var tail := ws[1..];
      assert forall k :: 0 <= k < |tail| ==> tail[k] == ws[k + 1];
      SelectedAgreesWhenSeen(model, tail, n, true);
      var all := seq(|ws|, k requires 0 <= k < |ws| => TestProbability(model, ws[k], n));
      var rest := seq(|tail|, k requires 0 <= k < |tail| => TestProbability(model, tail[k], n));
      assert all == [all[0]] + rest;
      StepWhenSeen(model, ws[0], n, matchFound);
    }
  }

  /** The divergence from the test records: before any match, a window that
      equals the second record but not the first is scored 1/|model| by the
      perplexity loop, while its test record receives the second record's
      probability. */
  lemma SelectedSkipsLaterRecords(model: seq<NGram>, w: seq<string>, n: nat)
    requires Covers(model, n) && |w| == n && |model| >= 2
    requires model[0].words[..n] != w && model[1].words[..n] == w
    ensures Selected(model, [w], n, false) == [Fallback(model)]
    ensures TestProbability(model, w, n) == model[1].probability
  {
    assert [w][1..] == [];
    assert FirstMatch(model, w, n) == 1;
  }
}
