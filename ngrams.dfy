/** The n-gram record and the helpers every phase of the model shares. */
module NGrams {

  /** One record of the model: the n words, how often that window was seen,
      and the probability a smoothing strategy assigned to it. */
  datatype NGram = NGram(words: seq<string>, count: int, probability: real)

  /** The two smoothing strategies the estimator offers. */
  datatype SmoothingType = GoodTuring | KneserNey

  /** The contiguous width-n windows of tokens, left to right. */
  function Windows(tokens: seq<string>, n: nat): (ws: seq<seq<string>>)
    requires n <= |tokens| + 1
    ensures |ws| == |tokens| - n + 1
    ensures forall i :: 0 <= i < |ws| ==> |ws[i]| == n && ws[i] == tokens[i..i + n]
  {
    seq(|tokens| - n + 1, i requires 0 <= i < |tokens| - n + 1 => tokens[i..i + n])
  }

  /** The inner loop that copies the n words starting at position i, as both
      the counting phase and the test phase write it. */
  method ReadWindow(tokens: seq<string>, i: nat, n: nat) returns (words: seq<string>)
    requires i + n <= |tokens|
    ensures words == tokens[i..i + n]
  {
    words := [];
    var j := 0;
    while j < n
      invariant 0 <= j <= n
      invariant words == tokens[i..i + j]
    {
      words := words + [tokens[i + j]];
      j := j + 1;
    }
  }

  /** A string without a space character. */
  predicate SpaceFree(w: string)
  {
    forall i :: 0 <= i < |w| ==> w[i] != ' '
  }

  /** None of the tokens contains a space. */
  predicate TokensSpaceFree(tokens: seq<string>)
  {
    forall k :: 0 <= k < |tokens| ==> SpaceFree(tokens[k])
  }

  /** Reading a hash map through its subscript operator: a missing key reads as 0. */
  function Lookup<K>(m: map<K, int>, k: K): int
  {
    if k in m then m[k] else 0
  }

  /** A counted table of order n: every record has n words and was seen at least once. */
  predicate WellFormed(recs: seq<NGram>, n: nat)
  {
    n >= 2 && forall i :: 0 <= i < |recs| ==> |recs[i].words| == n && recs[i].count >= 1
  }

  /** No two records share a word sequence (record equality is word equality). */
  predicate NoDuplicateWords(recs: seq<NGram>)
  {
    forall i, j :: 0 <= i < j < |recs| ==> recs[i].words != recs[j].words
  }
}
