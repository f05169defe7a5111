/** The counting phase of the estimator: slide a width-n window over the
    tokens and merge equal windows into one record with a count. */
module Counting {
  import opened NGrams

  /** Position of the first record whose words equal w, or |recs| when there
      is none: the linear search that detects a duplicate window. */
  function FindWords(recs: seq<NGram>, w: seq<string>): (k: nat)
    ensures k <= |recs|
    ensures k < |recs| ==> recs[k].words == w
    ensures forall j :: 0 <= j < k ==> recs[j].words != w
  {
    if recs == [] then 0
    else if recs[0].words == w then 0
    else 1 + FindWords(recs[1..], w)
  }

  /** Counting one more window: bump the record that already holds it, or
      append a fresh record with count 1 and no probability yet. */
  function Insert(recs: seq<NGram>, w: seq<string>): seq<NGram>
  {
    var k := FindWords(recs, w);
    if k < |recs| then recs[k := recs[k].(count := recs[k].count + 1)]
    else recs + [NGram(w, 1, 0.0)]
  }

  /** The record table after counting the windows ws in order. */
  function Tally(ws: seq<seq<string>>): seq<NGram>
  {
    if ws == [] then [] else Insert(Tally(ws[..|ws| - 1]), ws[|ws| - 1])
  }

  /** How many of the windows ws equal w. */
  function Occurrences(ws: seq<seq<string>>, w: seq<string>): nat
  {
    if ws == [] then 0
    else Occurrences(ws[..|ws| - 1], w) + (if ws[|ws| - 1] == w then 1 else 0)
  }

  /** Position of the first window equal to w. */
  function FirstIndex(ws: seq<seq<string>>, w: seq<string>): (k: nat)
    requires w in ws
    ensures k < |ws| && ws[k] == w
    ensures forall j :: 0 <= j < k ==> ws[j] != w
  {
    if ws[0] == w then 0 else 1 + FirstIndex(ws[1..], w)
  }

  /** The sum of the records' counts. */
  function SumCounts(recs: seq<NGram>): int
  {
    if recs == [] then 0 else SumCounts(recs[..|recs| - 1]) + recs[|recs| - 1].count
  }

  /** Counting one more window extends the tally by one Insert. */
  lemma TallyStep(ws: seq<seq<string>>, i: nat)
    requires i < |ws|
    ensures Tally(ws[..i + 1]) == Insert(Tally(ws[..i]), ws[i])
  {
    assert ws[..i + 1][..i] == ws[..i];
  }

  /** Insert spelled out for the position the search found. */
  lemma InsertAt(recs: seq<NGram>, w: seq<string>, k: nat)
    requires k == FindWords(recs, w)
    ensures k < |recs| ==> Insert(recs, w) == recs[k := recs[k].(count := recs[k].count + 1)]
    ensures k == |recs| ==> Insert(recs, w) == recs + [NGram(w, 1, 0.0)]
  {
  }

  /** A window that no record holds is appended with count 1. */
  lemma InsertNew(recs: seq<NGram>, w: seq<string>)
    requires forall i :: 0 <= i < |recs| ==> recs[i].words != w
    ensures Insert(recs, w) == recs + [NGram(w, 1, 0.0)]
  {
    InsertAt(recs, w, FindWords(recs, w));
  }

  // ---------------------------------------------------------------------
  // The counting loop

  /** The loop of the counting phase: builds each window word by word, looks
      for an equal record, and bumps it in place or appends a new one. */
  method CountNGrams(tokens: seq<string>, n: nat) returns (ngrams: seq<NGram>)
    requires n <= |tokens| + 1
    ensures ngrams == Tally(Windows(tokens, n))
  {
    ghost var ws := Windows(tokens, n);
    ngrams := [];
    var i := 0;
    while i < |tokens| - (n - 1)
      invariant 0 <= i <= |ws|
      invariant ngrams == Tally(ws[..i])
    {
      var words := ReadWindow(tokens, i, n);
      assert words == ws[i];
      TallyStep(ws, i);
      var k := FindWords(ngrams, words);
      InsertAt(ngrams, words, k);
      if k < |ngrams| {
        ngrams := ngrams[k := ngrams[k].(count := ngrams[k].count + 1)];
      } else {
        ngrams := ngrams + [NGram(words, 1, 0.0)];
      }
      i := i + 1;
    }
    assert ws[..i] == ws;
  }

  // ---------------------------------------------------------------------
  // What counting guarantees

  /** Merging compares words only, so the table never holds two records
      with the same words. */
  lemma {:induction false} TallyDistinct(ws: seq<seq<string>>)
    ensures NoDuplicateWords(Tally(ws))
  {
    if ws != [] {
      var prev := Tally(ws[..|ws| - 1]);
      TallyDistinct(ws[..|ws| - 1]);
      var w := ws[|ws| - 1];
      var k := FindWords(prev, w);
      var next := Tally(ws);
      if k < |prev| {
        assert forall i :: 0 <= i < |next| ==> next[i].words == prev[i].words;
      } else {
        assert forall i :: 0 <= i < |prev| ==> next[i] == prev[i];
      }
    }
  }

  /** One insert step keeps every record's words and finds the inserted
      window as well as every window found before. */
  lemma InsertFinds(recs: seq<NGram>, w: seq<string>, v: seq<string>)
    requires v == w || FindWords(recs, v) < |recs|
    ensures FindWords(Insert(recs, w), v) < |Insert(recs, w)|
  {
    var k := FindWords(recs, w);
    InsertAt(recs, w, k);
    var next := Insert(recs, w);
    if v == w {
      assert next[if k < |recs| then k else |recs|].words == w;
    } else {
      var f := FindWords(recs, v);
      assert next[f].words == recs[f].words;
    }
  }

  /** The records of one insert step hold earlier words or the new window. */
  lemma InsertWords(recs: seq<NGram>, w: seq<string>, i: nat)
    requires i < |Insert(recs, w)|
    ensures (i < |recs| && Insert(recs, w)[i].words == recs[i].words) || Insert(recs, w)[i].words == w
  {
    InsertAt(recs, w, FindWords(recs, w));
  }

  /** Every record holds one of the windows, and every window has a record. */
  lemma {:induction false} TallyCovers(ws: seq<seq<string>>)
    ensures forall i :: 0 <= i < |Tally(ws)| ==> Tally(ws)[i].words in ws
    ensures forall k :: 0 <= k < |ws| ==> FindWords(Tally(ws), ws[k]) < |Tally(ws)|
  {
    if ws != [] {
      var front := ws[..|ws| - 1];
      var prev := Tally(front);
      TallyCovers(front);
      var w := ws[|ws| - 1];
      var next := Insert(prev, w);
      assert next == Tally(ws);
      forall i | 0 <= i < |next|
        ensures next[i].words in ws
      {
        InsertWords(prev, w, i);
        if i < |prev| && next[i].words == prev[i].words {
          var j :| 0 <= j < |front| && front[j] == prev[i].words;
          assert ws[j] == front[j];
        } else {
          assert ws[|ws| - 1] == w;
        }
      }
      forall m | 0 <= m < |ws|
        ensures FindWords(next, ws[m]) < |next|
      {
        if m < |ws| - 1 {
          assert ws[m] == front[m];
        }
        InsertFinds(prev, w, ws[m]);
      }
    }
  }

  /** A window occurs at least once exactly when it is one of the windows. */
  lemma {:induction false} OccurrencesPositive(ws: seq<seq<string>>, w: seq<string>)
    ensures Occurrences(ws, w) > 0 <==> w in ws
  {
    if ws != [] {
      var front := ws[..|ws| - 1];
      OccurrencesPositive(front, w);
      assert ws == front + [ws[|ws| - 1]];
    }
  }

  /** Each record's count is the number of windows equal to its words; it is
      at least 1, and no probability has been assigned yet. */
  lemma {:induction false} TallyCounts(ws: seq<seq<string>>)
    ensures forall i :: 0 <= i < |Tally(ws)| ==>
      Tally(ws)[i].count == Occurrences(ws, Tally(ws)[i].words) &&
      Tally(ws)[i].count >= 1 && Tally(ws)[i].probability == 0.0
  {
    if ws != [] {
      var front := ws[..|ws| - 1];
      var prev := Tally(front);
      TallyCounts(front);
      TallyDistinct(front);
      TallyCovers(front);
      var w := ws[|ws| - 1];
      var next := Tally(ws);
      var k := FindWords(prev, w);
      forall i | 0 <= i < |next|
        ensures next[i].count == Occurrences(ws, next[i].words)
        ensures next[i].count >= 1 && next[i].probability == 0.0
      {
        if i < |prev| {
          assert next[i].words == prev[i].words;
          if i != k {
            assert prev[i].words != w;
          }
        } else {
          assert next[i].words == w && k == |prev|;
          OccurrencesPositive(front, w);
        }
      }
    }
  }

  /** Bumping one record's count raises the sum by one. */
  lemma {:induction false} SumCountsBump(recs: seq<NGram>, k: nat)
    requires k < |recs|
    ensures SumCounts(recs[k := recs[k].(count := recs[k].count + 1)]) == SumCounts(recs) + 1
  {
    var bumped := recs[k := recs[k].(count := recs[k].count + 1)];
    var last := |recs| - 1;
    if k < last {
      assert bumped[..last] == recs[..last][k := recs[k].(count := recs[k].count + 1)];
      SumCountsBump(recs[..last], k);
    } else {
      assert bumped[..last] == recs[..last];
    }
  }

  /** Counting one window raises the sum of the counts by one. */
  lemma InsertSum(recs: seq<NGram>, w: seq<string>)
    ensures SumCounts(Insert(recs, w)) == SumCounts(recs) + 1
  {
    var k := FindWords(recs, w);
    if k < |recs| {
      SumCountsBump(recs, k);
    } else {
      assert (recs + [NGram(w, 1, 0.0)])[..|recs|] == recs;
    }
  }

  /** Count conservation: the counts add up to the number of windows. */
  lemma {:induction false} TallySum(ws: seq<seq<string>>)
    ensures SumCounts(Tally(ws)) == |ws|
  {
    if ws != [] {
      TallySum(ws[..|ws| - 1]);
      InsertSum(Tally(ws[..|ws| - 1]), ws[|ws| - 1]);
    }
  }

  /** The first occurrence of a window does not move when windows are added behind it. */
  lemma FirstIndexAppend(ws: seq<seq<string>>, x: seq<string>, v: seq<string>)
    requires v in ws
    ensures FirstIndex(ws + [x], v) == FirstIndex(ws, v)
  {
    var a, b := FirstIndex(ws + [x], v), FirstIndex(ws, v);
    assert (ws + [x])[b] == v;
    assert ws[a] == v;
  }

  /** The records' words are windows of ws, ordered by where each first occurs. */
  ghost predicate FirstOccurrenceOrder(recs: seq<NGram>, ws: seq<seq<string>>)
  {
    (forall i :: 0 <= i < |recs| ==> recs[i].words in ws) &&
    forall i, j :: 0 <= i < j < |recs| ==>
      FirstIndex(ws, recs[i].words) < FirstIndex(ws, recs[j].words)
  }

  /** A window not yet in the table has not occurred before. */
  lemma FreshWindow(ws: seq<seq<string>>, w: seq<string>)
    requires FindWords(Tally(ws), w) == |Tally(ws)|
    ensures w !in ws
  {
    TallyCovers(ws);
    forall m | 0 <= m < |ws| ensures ws[m] != w {
      assert FindWords(Tally(ws), ws[m]) < |Tally(ws)|;
    }
  }

  /** Counting one more window keeps the records in first-occurrence order. */
  lemma InsertOrder(prev: seq<NGram>, front: seq<seq<string>>, w: seq<string>)
    requires FirstOccurrenceOrder(prev, front)
    requires FindWords(prev, w) == |prev| ==> w !in front
    ensures FirstOccurrenceOrder(Insert(prev, w), front + [w])
  {
    var ws := front + [w];
    var k := FindWords(prev, w);
    InsertAt(prev, w, k);
    var next := Insert(prev, w);
    forall i | 0 <= i < |prev|
      ensures next[i].words == prev[i].words && next[i].words in ws
      ensures FirstIndex(ws, next[i].words) == FirstIndex(front, prev[i].words) < |front|
    {
      FirstIndexAppend(front, w, prev[i].words);
    }
    if k == |prev| {
      assert ws[|front|] == w;
      assert FirstIndex(ws, w) == |front|;
      assert next[|prev|].words == w;
    }
    forall i, j | 0 <= i < j < |next|
      ensures FirstIndex(ws, next[i].words) < FirstIndex(ws, next[j].words)
    {
      if j < |prev| {
        assert FirstIndex(front, prev[i].words) < FirstIndex(front, prev[j].words);
      }
    }
  }

  /** Records appear in the order in which their windows first occur. */
  lemma {:induction false} TallyOrder(ws: seq<seq<string>>)
    ensures FirstOccurrenceOrder(Tally(ws), ws)
  {
    if ws != [] {
      var front := ws[..|ws| - 1];
      var w := ws[|ws| - 1];
      TallyOrder(front);
      if FindWords(Tally(front), w) == |Tally(front)| {
        FreshWindow(front, w);
      }
      InsertOrder(Tally(front), front, w);
      assert ws == front + [w];
    }
  }

  /** When no window repeats, the table holds every window once, in order. */
  lemma {:induction false} TallyOfDistinct(ws: seq<seq<string>>)
    requires forall i, j :: 0 <= i < j < |ws| ==> ws[i] != ws[j]
    ensures |Tally(ws)| == |ws|
    ensures forall i :: 0 <= i < |ws| ==> Tally(ws)[i] == NGram(ws[i], 1, 0.0)
  {
    if ws != [] {
      var front := ws[..|ws| - 1];
      TallyOfDistinct(front);
      InsertNew(Tally(front), ws[|ws| - 1]);
    }
  }

  /** The windows of a token sequence give a well-formed table of order n
      whose counts add up to |tokens| - n + 1. */
  lemma TallyWindowsShape(tokens: seq<string>, n: nat)
    requires 2 <= n <= |tokens| + 1
    ensures WellFormed(Tally(Windows(tokens, n)), n)
    ensures NoDuplicateWords(Tally(Windows(tokens, n)))
    ensures SumCounts(Tally(Windows(tokens, n))) == |tokens| - n + 1
  {
    var ws := Windows(tokens, n);
    TallyCovers(ws);
    TallyCounts(ws);
    TallyDistinct(ws);
    TallySum(ws);
  }
}
