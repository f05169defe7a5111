/** The smoothing phase: the per-context table `Nc`, the frequency-of-
    frequencies table `eachOccurrences`, and the two strategies that turn a
    counted table into probabilities. Probabilities are exact rationals. */
module Smoothing {
  import opened NGrams

  // ---------------------------------------------------------------------
  // Context keys

  /** The key string the estimator builds from words: each word followed by one space. */
  function Join(ws: seq<string>): string
  {
    if ws == [] then "" else ws[0] + " " + Join(ws[1..])
  }

  /** Appending a word to the list appends that word and a space to the key. */
  lemma {:induction false} JoinAppend(ws: seq<string>, w: string)
    ensures Join(ws + [w]) == Join(ws) + w + " "
  {
    if ws != [] {
      assert (ws + [w])[1..] == ws[1..] + [w];
      JoinAppend(ws[1..], w);
    }
  }

  /** Keys are injective on words without spaces: two word lists with the
      same key are the same list. (With spaces inside words they are not:
      ["a b", "c"] and ["a", "b c"] share the key "a b c ".) */
  lemma {:induction false} JoinInjective(a: seq<string>, b: seq<string>)
    requires forall i :: 0 <= i < |a| ==> SpaceFree(a[i])
    requires forall i :: 0 <= i < |b| ==> SpaceFree(b[i])
    requires Join(a) == Join(b)
    ensures a == b
  {
    if a != [] && b != [] {
      var x, y := a[0], b[0];
      SplitAtSpace(x, y, Join(a[1..]), Join(b[1..]));
      JoinInjective(a[1..], b[1..]);
      assert a == [x] + a[1..] && b == [y] + b[1..];
    }
  }

  /** Position of the first space in s. */
  function FirstSpace(s: string): nat
    requires ' ' in s
  {
    if s[0] == ' ' then 0 else 1 + FirstSpace(s[1..])
  }

  /** In a space-free word followed by a space, the first space comes right after the word. */
  lemma {:induction false} FirstSpaceAfter(x: string, u: string)
    requires SpaceFree(x)
    ensures ' ' in x + " " + u && FirstSpace(x + " " + u) == |x|
  {
    var s := x + " " + u;
    assert s[|x|] == ' ';
    if x != [] {
      assert s[1..] == x[1..] + " " + u;
      assert s[0] == x[0] != ' ';
      FirstSpaceAfter(x[1..], u);
    }
  }

  /** A space-free word followed by a space is a prefix that splits off uniquely. */
  lemma SplitAtSpace(x: string, y: string, u: string, v: string)
    requires SpaceFree(x) && SpaceFree(y)
    requires x + " " + u == y + " " + v
    ensures x == y && u == v
  {
    var s := x + " " + u;
    FirstSpaceAfter(x, u);
    FirstSpaceAfter(y, v);
    assert x == s[..|x|] == y;
    assert u == s[|x| + 1..] == v;
  }

  /** The context key of a record of order n: its first n-1 words, joined. */
  function ContextKey(words: seq<string>, n: nat): string
    requires 1 <= n <= |words| + 1
  {
    Join(words[..n - 1])
  }

  /** The inner loop that builds a record's preceding-words key. */
  method PrecedingWords(words: seq<string>, n: nat) returns (key: string)
    requires 1 <= n <= |words| + 1
    ensures key == ContextKey(words, n)
  {
    key := "";
    var i := 0;
    while i < n - 1
      invariant 0 <= i <= n - 1
      invariant key == Join(words[..i])
    {
      JoinAppend(words[..i], words[i]);
      assert words[..i + 1] == words[..i] + [words[i]];
      key := key + words[i] + " ";
      i := i + 1;
    }
  }

  // ---------------------------------------------------------------------
  // Nc: how many records share each context key

  /** How many records of recs have context key `key`. */
  function ContextCount(recs: seq<NGram>, key: string, n: nat): (r: nat)
    requires WellFormed(recs, n)
    ensures r <= |recs|
  {
    if recs == [] then 0
    else
      ContextCount(recs[..|recs| - 1], key, n)
      + (if ContextKey(recs[|recs| - 1].words, n) == key then 1 else 0)
  }

  /** The context keys that occur in recs. */
  ghost function ContextKeys(recs: seq<NGram>, n: nat): set<string>
    requires WellFormed(recs, n)
  {
    set i | 0 <= i < |recs| :: ContextKey(recs[i].words, n)
  }

  /** The table Nc: each occurring context key mapped to its number of records. */
  ghost function ContextTable(recs: seq<NGram>, n: nat): map<string, int>
    requires WellFormed(recs, n)
  {
    map k | k in ContextKeys(recs, n) :: ContextCount(recs, k, n)
  }

  /** A key has at least one record exactly when it occurs; in particular
      every record's own context count is at least 1. */
  lemma {:induction false} ContextCountPositive(recs: seq<NGram>, key: string, n: nat)
    requires WellFormed(recs, n)
    ensures ContextCount(recs, key, n) >= 1 <==> key in ContextKeys(recs, n)
  {
    if recs != [] {
      var front := recs[..|recs| - 1];
      ContextCountPositive(front, key, n);
      var last := ContextKey(recs[|recs| - 1].words, n);
      assert last in ContextKeys(recs, n);
      if key in ContextKeys(front, n) {
        var i :| 0 <= i < |front| && ContextKey(front[i].words, n) == key;
        assert front[i] == recs[i];
      }
      if key in ContextKeys(recs, n) {
        var i :| 0 <= i < |recs| && ContextKey(recs[i].words, n) == key;
        if i < |front| {
          assert front[i] == recs[i];
        }
      }
    }
  }

  /** One more record adds its key to the occurring keys. */
  lemma ContextKeysStep(s: seq<NGram>, r: NGram, n: nat)
    requires WellFormed(s + [r], n)
    ensures WellFormed(s, n) && |r.words| == n
    ensures ContextKeys(s + [r], n) == ContextKeys(s, n) + {ContextKey(r.words, n)}
  {
    var t := s + [r];
    assert t[|s|] == r;
    assert forall i :: 0 <= i < |s| ==> s[i] == t[i];
    assert WellFormed(s, n);
    forall x | x in ContextKeys(t, n) ensures x in ContextKeys(s, n) + {ContextKey(r.words, n)} {
      var i :| 0 <= i < |t| && ContextKey(t[i].words, n) == x;
      if i < |s| {
        assert ContextKey(s[i].words, n) == x;
      }
    }
    forall x | x in ContextKeys(s, n) ensures x in ContextKeys(t, n) {
      var i :| 0 <= i < |s| && ContextKey(s[i].words, n) == x;
      assert ContextKey(t[i].words, n) == x;
    }
    assert ContextKey(t[|s|].words, n) in ContextKeys(t, n);
  }

  /** One more record adds one to its own key's count and nothing to the others. */
  lemma ContextCountStep(s: seq<NGram>, r: NGram, n: nat, x: string)
    requires WellFormed(s + [r], n)
    ensures WellFormed(s, n) && |r.words| == n
    ensures ContextCount(s + [r], x, n) == ContextCount(s, x, n) + (if ContextKey(r.words, n) == x then 1 else 0)
  {
    var t := s + [r];
    assert t[..|s|] == s && t[|s|] == r;
    assert forall i :: 0 <= i < |s| ==> s[i] == t[i];
  }

  /** A map that gains key and agrees elsewhere, with key's entry one higher,
      is the bumped map. */
  lemma MapBump(after: map<string, int>, before: map<string, int>, key: string)
    requires after.Keys == before.Keys + {key}
    requires forall x :: x in after ==> after[x] == Lookup(before, x) + (if x == key then 1 else 0)
    ensures after == before[key := Lookup(before, key) + 1]
  {
  }

  /** Counting one more record bumps its key's entry (a missing entry reads as 0). */
  lemma ContextTableStep(s: seq<NGram>, r: NGram, n: nat)
    requires WellFormed(s + [r], n)
    ensures WellFormed(s, n) && |r.words| == n
    ensures ContextTable(s + [r], n) ==
      ContextTable(s, n)[ContextKey(r.words, n) := Lookup(ContextTable(s, n), ContextKey(r.words, n)) + 1]
  {
    ContextKeysStep(s, r, n);
    var key := ContextKey(r.words, n);
    var before := ContextTable(s, n);
    var after := ContextTable(s + [r], n);
    forall x | x in after
      ensures after[x] == Lookup(before, x) + (if x == key then 1 else 0)
    {
      ContextCountStep(s, r, n, x);
      ContextCountPositive(s, x, n);
    }
    MapBump(after, before, key);
  }

  /** The step of the Nc loop, stated on the prefixes of recs it walks. */
  lemma ContextTablePrefixStep(recs: seq<NGram>, n: nat, i: nat)
    requires WellFormed(recs, n) && i < |recs|
    ensures WellFormed(recs[..i], n) && WellFormed(recs[..i + 1], n)
    ensures ContextTable(recs[..i + 1], n) ==
      ContextTable(recs[..i], n)[ContextKey(recs[i].words, n) := Lookup(ContextTable(recs[..i], n), ContextKey(recs[i].words, n)) + 1]
  {
    assert recs[..i + 1] == recs[..i] + [recs[i]];
    ContextTableStep(recs[..i], recs[i], n);
  }

  /** The loop that fills Nc, one `Nc[precedingWords]++` per record. */
  method CountContexts(ngrams: seq<NGram>, n: nat) returns (nc: map<string, int>)
    requires WellFormed(ngrams, n)
    ensures nc == ContextTable(ngrams, n)
  {
    nc := map[];
    var i := 0;
    while i < |ngrams|
      invariant 0 <= i <= |ngrams|
      invariant WellFormed(ngrams[..i], n)
      invariant nc == ContextTable(ngrams[..i], n)
    {
      var precedingWords := PrecedingWords(ngrams[i].words, n);
      ContextTablePrefixStep(ngrams, n, i);
      nc := nc[precedingWords := Lookup(nc, precedingWords) + 1];
      i := i + 1;
    }
    assert ngrams[..i] == ngrams;
  }

  /** Every record's own context is in Nc with a size of at least 1. */
  lemma RecordContext(recs: seq<NGram>, n: nat, i: nat)
    requires WellFormed(recs, n) && i < |recs|
    ensures ContextKey(recs[i].words, n) in ContextTable(recs, n)
    ensures ContextTable(recs, n)[ContextKey(recs[i].words, n)] == ContextCount(recs, ContextKey(recs[i].words, n), n) >= 1
  {
    var key := ContextKey(recs[i].words, n);
    assert key in ContextKeys(recs, n);
    ContextCountPositive(recs, key, n);
  }

  // ---------------------------------------------------------------------
  // eachOccurrences: how many context keys have each Nc value

  /** The keys among `keys` whose Nc value is c. */
  ghost function Preimage(nc: map<string, int>, keys: set<string>, c: int): set<string>
  {
    set p | p in keys && p in nc && nc[p] == c
  }

  /** The Nc values of the keys among `keys`. */
  ghost function ValuesOf(nc: map<string, int>, keys: set<string>): set<int>
  {
    set p | p in keys && p in nc :: nc[p]
  }

  /** The frequency-of-frequencies table over the keys among `keys`. */
  ghost function FrequencyOf(nc: map<string, int>, keys: set<string>): map<int, int>
  {
    map c | c in ValuesOf(nc, keys) :: |Preimage(nc, keys, c)|
  }

  /** eachOccurrences: each Nc value c mapped to the number of keys with that value. */
  ghost function FrequencyTable(nc: map<string, int>): map<int, int>
  {
    FrequencyOf(nc, nc.Keys)
  }

  /** Visiting one more key bumps the entry of its Nc value. */
  lemma FrequencyStep(nc: map<string, int>, done: set<string>, p: string)
    requires p in nc && p !in done
    ensures FrequencyOf(nc, done + {p}) ==
      FrequencyOf(nc, done)[nc[p] := Lookup(FrequencyOf(nc, done), nc[p]) + 1]
  {
    var v := nc[p];
    assert ValuesOf(nc, done + {p}) == ValuesOf(nc, done) + {v};
    assert Preimage(nc, done + {p}, v) == Preimage(nc, done, v) + {p};
    if v !in ValuesOf(nc, done) {
      assert Preimage(nc, done, v) == {};
    }
    forall c | c != v
      ensures Preimage(nc, done + {p}, c) == Preimage(nc, done, c)
    {
    }
  }

  /** Every entry of eachOccurrences is at least 1. */
  lemma FrequencyPositive(nc: map<string, int>)
    ensures forall c :: c in FrequencyTable(nc) ==> FrequencyTable(nc)[c] >= 1
  {
    forall c | c in FrequencyTable(nc)
      ensures FrequencyTable(nc)[c] >= 1
    {
      var p :| p in nc && nc[p] == c;
      assert p in Preimage(nc, nc.Keys, c);
    }
  }

  /** The loop over Nc (in the hash map's unspecified order) that fills eachOccurrences. */
  method CountFrequencies(nc: map<string, int>) returns (eachOccurrences: map<int, int>)
    ensures eachOccurrences == FrequencyTable(nc)
  {
    eachOccurrences := map[];
    var rest := nc.Keys;
    ghost var done: set<string> := {};
    while rest != {}
      invariant rest + done == nc.Keys && rest !! done
      invariant eachOccurrences == FrequencyOf(nc, done)
      decreases |rest|
    {
      var p :| p in rest;
      FrequencyStep(nc, done, p);
      if nc[p] in eachOccurrences {
        eachOccurrences := eachOccurrences[nc[p] := eachOccurrences[nc[p]] + 1];
      } else {
        eachOccurrences := eachOccurrences[nc[p] := 1];
      }
      rest := rest - {p};
      done := done + {p};
    }
  }

  // ---------------------------------------------------------------------
  // Good-Turing

  /** The Good-Turing probability of a record with `count` occurrences whose
      context has `contextSize` records: (c+1)·E[c+1]/E[c]/Nc when both E[c]
      and E[c+1] are nonzero, else E[1]/Nc, reading E = eachOccurrences with
      default 0. It is never negative, and it is zero exactly when the
      fallback applies and no context key has a single record. */
  function GoodTuringProbability(count: int, contextSize: int, eachOccurrences: map<int, int>): (p: real)
    requires count >= 1 && contextSize >= 1
    requires forall c :: c in eachOccurrences ==> eachOccurrences[c] >= 0
    ensures p >= 0.0
    ensures p == 0.0 <==>
      (Lookup(eachOccurrences, count) == 0 || Lookup(eachOccurrences, count + 1) == 0) &&
      Lookup(eachOccurrences, 1) == 0
  {
    var n := contextSize as real;
    var c := count as real;
    var c1 := c + 1.0;
    var c1Occurrences := Lookup(eachOccurrences, count + 1) as real;
    var cOccurrences := Lookup(eachOccurrences, count) as real;
    if Lookup(eachOccurrences, count) != 0 && Lookup(eachOccurrences, count + 1) != 0 then
      var cAsterisk := c1 * c1Occurrences / cOccurrences;
      assert cAsterisk > 0.0;
      cAsterisk / n
    else
      Lookup(eachOccurrences, 1) as real / n
  }

  /** The Good-Turing probability the estimator assigns to record i of recs. */
  ghost function GoodTuringEstimate(recs: seq<NGram>, n: nat, i: nat): (p: real)
    requires WellFormed(recs, n) && i < |recs|
    ensures p >= 0.0
  {
    var key := ContextKey(recs[i].words, n);
    assert key in ContextKeys(recs, n);
    ContextCountPositive(recs, key, n);
    FrequencyPositive(ContextTable(recs, n));
    GoodTuringProbability(recs[i].count, ContextCount(recs, key, n), FrequencyTable(ContextTable(recs, n)))
  }

  /** The estimate read through the tables the branch builds. */
  lemma GoodTuringEstimateFromTables(recs: seq<NGram>, n: nat, i: nat, nc: map<string, int>, e: map<int, int>)
    requires WellFormed(recs, n) && i < |recs|
    requires nc == ContextTable(recs, n) && e == FrequencyTable(nc)
    ensures ContextKey(recs[i].words, n) in nc && nc[ContextKey(recs[i].words, n)] >= 1
    ensures forall c :: c in e ==> e[c] >= 0
    ensures GoodTuringEstimate(recs, n, i) ==
      GoodTuringProbability(recs[i].count, nc[ContextKey(recs[i].words, n)], e)
  {
    RecordContext(recs, n, i);
    FrequencyPositive(nc);
  }

  /** The Good-Turing branch: build Nc and eachOccurrences, then assign each
      record its probability; words and counts are untouched. */
  method GoodTuringSmoothing(ngrams: seq<NGram>, n: nat) returns (smoothed: seq<NGram>)
    requires WellFormed(ngrams, n)
    ensures |smoothed| == |ngrams|
    ensures forall i :: 0 <= i < |ngrams| ==>
      smoothed[i] == ngrams[i].(probability := GoodTuringEstimate(ngrams, n, i))
    ensures forall i :: 0 <= i < |smoothed| ==> smoothed[i].probability >= 0.0
  {
    var nc := CountContexts(ngrams, n);
    var eachOccurrences := CountFrequencies(nc);
    smoothed := ngrams;
    var i := 0;
    while i < |smoothed|
      invariant 0 <= i <= |ngrams| == |smoothed|
      invariant forall j :: 0 <= j < i ==>
        smoothed[j] == ngrams[j].(probability := GoodTuringEstimate(ngrams, n, j))
      invariant forall j :: 0 <= j < i ==> smoothed[j].probability >= 0.0
      invariant forall j :: i <= j < |ngrams| ==> smoothed[j] == ngrams[j]
    {
      var precedingWords := PrecedingWords(smoothed[i].words, n);
      GoodTuringEstimateFromTables(ngrams, n, i, nc, eachOccurrences);
      var contextSize := nc[precedingWords];
      var probability := GoodTuringProbability(smoothed[i].count, contextSize, eachOccurrences);
      smoothed := smoothed[i := smoothed[i].(probability := probability)];
      i := i + 1;
    }
  }

  // ---------------------------------------------------------------------
  // Kneser-Ney

  /** The discount of the Kneser-Ney branch. */
  const Discount: real := 0.5

  /** The Kneser-Ney probability as the estimator computes it: with
      c = Nc + count - 1, max(count - D, 0)/c + (D·Nc/c)·(Nc/|vocabulary|).
      It is always strictly positive. */
  function KneserNeyProbability(count: int, contextSize: int, vocabulary: int): (p: real)
    requires count >= 1 && contextSize >= 1 && vocabulary >= 1
    ensures p > 0.0
  {
    var n := contextSize as real;
    var c := (contextSize + (count - 1)) as real;
    var weight := Discount * n / c;
    var continuationProbability := n / vocabulary as real;
    var discounted := if count as real - Discount < 0.0 then 0.0 else count as real - Discount;
    assert weight * continuationProbability > 0.0;
    discounted / c + weight * continuationProbability
  }

  /** The floor max(count - D, 0) never clips, because counts are at least
      1; the denominator Nc + count - 1 is at least Nc. */
  lemma KneserNeyUnclipped(count: int, contextSize: int, vocabulary: int)
    requires count >= 1 && contextSize >= 1 && vocabulary >= 1
    ensures contextSize + (count - 1) >= contextSize >= 1
    ensures KneserNeyProbability(count, contextSize, vocabulary) ==
      (count as real - Discount) / (contextSize + count - 1) as real
      + (Discount * contextSize as real / (contextSize + count - 1) as real)
        * (contextSize as real / vocabulary as real)
  {
  }

  /** A non-negative quotient whose numerator does not exceed its denominator is at most 1. */
  lemma QuotientAtMostOne(a: real, b: real)
    requires 0.0 <= a <= b && 0.0 < b
    ensures 0.0 <= a / b <= 1.0
  {
    assert b / b == 1.0;
    assert (b - a) / b >= 0.0;
    assert a / b == b / b - (b - a) / b;
  }

  /** When a context has no more records than there are distinct tokens, the
      Kneser-Ney probability is at most 1. */
  lemma KneserNeyAtMostOne(count: int, contextSize: int, vocabulary: int)
    requires count >= 1 && 1 <= contextSize <= vocabulary
    ensures KneserNeyProbability(count, contextSize, vocabulary) <= 1.0
  {
    var n := contextSize as real;
    var v := vocabulary as real;
    var c := (contextSize + (count - 1)) as real;
    var k := count as real;
    var first := (k - Discount) / c;
    var weight := Discount * n / c;
    var share := n / v;
    assert KneserNeyProbability(count, contextSize, vocabulary) == first + weight * share;
    QuotientAtMostOne(n, v);
    QuotientAtMostOne(Discount * n, c);
    assert weight * share <= weight;
    assert first + weight == (k - Discount + Discount * n) / c;
    QuotientAtMostOne(k - Discount + Discount * n, c);
  }

  /** A record seen once gets D/Nc + D·Nc/|vocabulary|: its discounted count
      is 1 - D = 0.5, not 0. */
  lemma KneserNeySingleton(contextSize: int, vocabulary: int)
    requires contextSize >= 1 && vocabulary >= 1
    ensures KneserNeyProbability(1, contextSize, vocabulary) ==
      Discount / contextSize as real + Discount * contextSize as real / vocabulary as real
  {
    var n := contextSize as real;
    var v := vocabulary as real;
    assert Discount * n / n == Discount;
  }

  /** The number of distinct tokens. */
  function Vocabulary(tokens: seq<string>): (v: nat)
    ensures |tokens| > 0 ==> v >= 1
  {
    var distinct := set t | t in tokens;
    assert |tokens| > 0 ==> tokens[0] in distinct;
    |distinct|
  }

  /** The last words of the records whose context key is key. */
  ghost function Continuations(recs: seq<NGram>, key: string, n: nat): set<string>
    requires WellFormed(recs, n)
  {
    set i | 0 <= i < |recs| && ContextKey(recs[i].words, n) == key :: recs[i].words[n - 1]
  }

  /** The records of context key differ in their last word. */
  ghost predicate DistinctContinuations(recs: seq<NGram>, key: string, n: nat)
    requires WellFormed(recs, n)
  {
    forall i, j ::
      (0 <= i < j < |recs| && ContextKey(recs[i].words, n) == key && ContextKey(recs[j].words, n) == key)
      ==> recs[i].words[n - 1] != recs[j].words[n - 1]
  }

  /** One more record adds its last word to its own context's continuations. */
  lemma ContinuationsStep(s: seq<NGram>, r: NGram, key: string, n: nat)
    requires WellFormed(s + [r], n)
    ensures WellFormed(s, n) && |r.words| == n
    ensures Continuations(s + [r], key, n) ==
      Continuations(s, key, n) + (if ContextKey(r.words, n) == key then {r.words[n - 1]} else {})
  {
    var t := s + [r];
    assert t[|s|] == r;
    assert forall i :: 0 <= i < |s| ==> s[i] == t[i];
    assert WellFormed(s, n);
    forall w | w in Continuations(t, key, n)
      ensures w in Continuations(s, key, n) || (w == r.words[n - 1] && ContextKey(r.words, n) == key)
    {
      var i :| 0 <= i < |t| && ContextKey(t[i].words, n) == key && t[i].words[n - 1] == w;
      if i < |s| {
        assert ContextKey(s[i].words, n) == key && s[i].words[n - 1] == w;
      }
    }
    forall w | w in Continuations(s, key, n) ensures w in Continuations(t, key, n) {
      var i :| 0 <= i < |s| && ContextKey(s[i].words, n) == key && s[i].words[n - 1] == w;
      assert ContextKey(t[i].words, n) == key && t[i].words[n - 1] == w;
    }
    if ContextKey(r.words, n) == key {
      assert ContextKey(t[|s|].words, n) == key && t[|s|].words[n - 1] == r.words[n - 1];
    }
  }

  /** The last record's continuation is new when continuations are distinct. */
  lemma NewContinuation(s: seq<NGram>, r: NGram, key: string, n: nat)
    requires WellFormed(s + [r], n) && DistinctContinuations(s + [r], key, n)
    requires |r.words| == n && ContextKey(r.words, n) == key
    ensures WellFormed(s, n) && DistinctContinuations(s, key, n)
    ensures r.words[n - 1] !in Continuations(s, key, n)
  {
    var t := s + [r];
    assert forall i :: 0 <= i < |s| ==> s[i] == t[i];
    assert t[|s|] == r;
    forall w | w in Continuations(s, key, n) ensures w != r.words[n - 1] {
      var i :| 0 <= i < |s| && ContextKey(s[i].words, n) == key && s[i].words[n - 1] == w;
      assert ContextKey(t[i].words, n) == key && ContextKey(t[|s|].words, n) == key;
    }
  }

  /** Dropping the last record keeps continuations distinct. */
  lemma DistinctContinuationsFront(s: seq<NGram>, r: NGram, key: string, n: nat)
    requires WellFormed(s + [r], n) && DistinctContinuations(s + [r], key, n)
    ensures WellFormed(s, n) && DistinctContinuations(s, key, n)
  {
    var t := s + [r];
    assert forall i :: 0 <= i < |s| ==> s[i] == t[i];
  }

  /** When the records of one context differ in their last word, the
      context's Nc is its number of distinct continuations. */
  lemma {:induction false} ContextCountContinuations(recs: seq<NGram>, key: string, n: nat)
    requires WellFormed(recs, n) && DistinctContinuations(recs, key, n)
    ensures ContextCount(recs, key, n) == |Continuations(recs, key, n)|
  {
    if recs != [] {
      var m := |recs| - 1;
      var front, r := recs[..m], recs[m];
      assert recs == front + [r];
      ContinuationsStep(front, r, key, n);
      ContextCountStep(front, r, n, key);
      DistinctContinuationsFront(front, r, key, n);
      ContextCountContinuations(front, key, n);
      if ContextKey(r.words, n) == key {
        NewContinuation(front, r, key, n);
      }
    }
  }

  /** The Kneser-Ney probability the estimator assigns to record i of recs
      trained on tokens. */
  ghost function KneserNeyEstimate(recs: seq<NGram>, tokens: seq<string>, n: nat, i: nat): (p: real)
    requires WellFormed(recs, n) && i < |recs| && |tokens| > 0
    ensures p > 0.0
  {
    var key := ContextKey(recs[i].words, n);
    assert key in ContextKeys(recs, n);
    ContextCountPositive(recs, key, n);
    KneserNeyProbability(recs[i].count, ContextCount(recs, key, n), Vocabulary(tokens))
  }

  /** The estimate read through the Nc table the branch builds. */
  lemma KneserNeyEstimateFromTable(recs: seq<NGram>, tokens: seq<string>, n: nat, i: nat, nc: map<string, int>)
    requires WellFormed(recs, n) && i < |recs| && |tokens| > 0
    requires nc == ContextTable(recs, n)
    ensures ContextKey(recs[i].words, n) in nc && nc[ContextKey(recs[i].words, n)] >= 1
    ensures KneserNeyEstimate(recs, tokens, n, i) ==
      KneserNeyProbability(recs[i].count, nc[ContextKey(recs[i].words, n)], Vocabulary(tokens))
  {
    RecordContext(recs, n, i);
  }

  /** The Kneser-Ney branch: build Nc, count the distinct tokens, then
      assign each record its probability; words and counts are untouched. */
  method KneserNeySmoothing(ngrams: seq<NGram>, tokens: seq<string>, n: nat) returns (smoothed: seq<NGram>)
    requires WellFormed(ngrams, n)
    requires |ngrams| > 0 ==> |tokens| > 0
    ensures |smoothed| == |ngrams|
    ensures forall i :: 0 <= i < |ngrams| ==>
      smoothed[i] == ngrams[i].(probability := KneserNeyEstimate(ngrams, tokens, n, i))
    ensures forall i :: 0 <= i < |smoothed| ==> smoothed[i].probability > 0.0
  {
    var nc := CountContexts(ngrams, n);
    var numUniqueWords := Vocabulary(tokens);
    smoothed := ngrams;
    var i := 0;
    while i < |smoothed|
      invariant 0 <= i <= |ngrams| == |smoothed|
      invariant forall j :: 0 <= j < i ==>
        smoothed[j] == ngrams[j].(probability := KneserNeyEstimate(ngrams, tokens, n, j))
      invariant forall j :: 0 <= j < i ==> smoothed[j].probability > 0.0
      invariant forall j :: i <= j < |ngrams| ==> smoothed[j] == ngrams[j]
    {
      var precedingWords := PrecedingWords(smoothed[i].words, n);
      KneserNeyEstimateFromTable(ngrams, tokens, n, i, nc);
      var contextSize := nc[precedingWords];
      var probability := KneserNeyProbability(smoothed[i].count, contextSize, numUniqueWords);
      smoothed := smoothed[i := smoothed[i].(probability := probability)];
      i := i + 1;
    }
  }
}
