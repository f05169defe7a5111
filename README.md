# N-gram language model estimator, in Dafny

This project models the core of an n-gram language-model estimator written in C++ (`main.cpp`). The model covers:

- **Tokenising.** The text-file branch turns every line into `<s>`, then the line's whitespace-separated words with punctuation removed and letters lower-cased, then `</s>`.
- **Counting.** `buildNGrams` slides a width-`n` window over the tokens. It merges equal windows into one record (words, count, probability) by a linear search, so records appear in first-occurrence order.
- **Smoothing.** One of two strategies assigns each record a probability:
  - **Good-Turing.** It uses the table `Nc` (context key to number of records) and the table `eachOccurrences` (context size to number of context keys).
  - **Kneser-Ney.** The formulas are modelled exactly as the code writes them: discount `D = 0.5`, `c = Nc + count - 1`, `lambda = D*Nc/c`, continuation `Nc/|distinct tokens|`.
- **Evaluation.**
  - `createTestNgrams` looks up each held-out window, with a `1/|model|` fallback.
  - `calculateSentenceProbability` is a product.
  - The window loop of `calculatePerplexity` decides which probabilities are collected.

Every loop the source writes is a Dafny `method` with a `while` loop. Each method is proved against a specification function: `Tally`, `ContextTable`, `FrequencyTable`, `GoodTuringEstimate`, `KneserNeyEstimate`, `TestNGrams`, `Product`, `Selected` and `Tokenized`. The properties the estimator promises are lemmas about those functions.

Modelling choices:

- **Probabilities** are exact rationals (`real`). `double` rounding is not modelled.
- **Default-zero maps.** The C++ hash maps read through `operator[]`. They are modelled as Dafny maps read with a default of 0 (`NGrams.Lookup`).
- **Context keys** are the joined strings the code builds (`w1 + " " + … + wn-1 + " "`). `Smoothing.JoinInjective` and `LanguageModel.ContextKeyIsPrefix` prove that, for space-free tokens, equal keys mean equal word prefixes. `Tokenize.TokensHaveNoSpace` proves that tokenised input is space-free.

Facts about the code as written, which the lemmas state:

- **Good-Turing estimates can exceed 1.** On the corpus `<s> the cat sat </s>` with `n = 2`, the record `(the, cat)` receives 4 (`LanguageModel.GoodTuringExample`).
- **Kneser-Ney never clips.** Because every count is at least 1, `max(count - D, 0)` never clips, so a count-1 record gets the term `0.5/c` rather than 0 (`Smoothing.KneserNeySingleton`).
- **Kneser-Ney stays in (0, 1] on space-free tokens.** This covers all tokenised input. On a table trained on space-free tokens, every Kneser-Ney estimate lies in (0, 1], because a context has at most as many records as there are distinct tokens. The bound is not claimed for tokens that contain spaces: there, different word prefixes can share a joined key, so one key can collect more records than there are distinct tokens.
- **The perplexity loop sees only the first record at first.** Until some window matches, it compares each window with the first model record only. It pushes `1/|model|` otherwise, even when a later record would match (`Evaluation.SelectedSkipsLaterRecords`).

## Model

| member | source | states |
|---|---|---|
| NGrams.Windows | main.cpp:179-183 | definition: the windows the counting loop visits, \|tokens\| - n + 1 of them, window i being the n tokens from position i |
| NGrams.Lookup | main.cpp:244-245 | definition: a map read through `operator[]`, a missing key reading as 0 |
| NGrams.ReadWindow | main.cpp:181-183 | the inner copy loop yields exactly the n tokens starting at position i |
| Counting.Insert | main.cpp:196-202 | definition: one window counted, either by a count bump of the record holding it or by a new count-1 record at the end |
| Counting.Tally | main.cpp:179-203 | definition: the table after counting the windows in order, one insert step per window |
| Counting.FindWords | main.cpp:197-198 | the duplicate search returns the first record whose words equal the window (equality is on words only), or the table length when none does |
| Counting.FirstIndex | main.cpp:196-202 | the first position of a window in the window sequence: it holds that window and no earlier position does |
| Counting.InsertNew | main.cpp:200-201 | a window no record holds is appended as a new record with count 1 and probability 0 |
| Counting.CountNGrams | main.cpp:179-203 | the counting loop produces exactly the tally of the windows of the tokens |
| Counting.TallyDistinct | main.cpp:196-202 | no two records of the tally have equal word sequences |
| Counting.TallyCovers | main.cpp:196-202 | every record's words are one of the windows, and every window has a record |
| Counting.OccurrencesPositive | main.cpp:184-199 | a window occurs a positive number of times exactly when it is among the windows |
| Counting.TallyCounts | main.cpp:184-202 | each record's count equals the number of windows equal to its words; it is at least 1, and the probability is still 0 |
| Counting.SumCountsBump | main.cpp:199 | raising one record's count in place raises the count sum by one |
| Counting.InsertSum | main.cpp:196-202 | each window adds exactly one to the sum of counts |
| Counting.TallySum | main.cpp:179-203 | the counts sum to the number of windows |
| Counting.FirstIndexAppend | main.cpp:179-203 | appending a window does not move the first occurrence of a window already seen |
| Counting.FreshWindow | main.cpp:197-201 | a window the table has no record for has not been seen before |
| Counting.InsertOrder | main.cpp:196-202 | one insert step keeps the records in first-occurrence order of their windows |
| Counting.TallyOrder | main.cpp:179-203 | records appear in the order in which their windows first occur |
| Counting.TallyOfDistinct | main.cpp:179-202 | pairwise distinct windows give one record each, in order, with count 1 |
| Counting.TallyWindowsShape | main.cpp:179-202 | for n ≥ 2, every record has n words and count ≥ 1, there are no duplicates, and the counts sum to \|tokens\| - n + 1 |
| Smoothing.Join | main.cpp:219-221 | definition: the key string, each word followed by one space |
| Smoothing.ContextKey | main.cpp:217-221 | definition: the key of a record, the join of its first n-1 words |
| Smoothing.JoinAppend | main.cpp:219-221 | appending a word to the key appends the word and one space |
| Smoothing.JoinInjective | main.cpp:219-221 | for words without spaces, equal joined keys come from equal word lists |
| Smoothing.FirstSpaceAfter | main.cpp:220 | in a key that starts with a space-free word, the first space ends that word |
| Smoothing.SplitAtSpace | main.cpp:220 | two keys that start with space-free words agree on those words and on the rest |
| Smoothing.PrecedingWords | main.cpp:217-221 | the key-building loop yields the join of the first n-1 words |
| Smoothing.ContextCount | main.cpp:214-223 | the number of records whose key is the given one, never more than the number of records |
| Smoothing.ContextTable | main.cpp:214-223 | definition: Nc as a value, each occurring key mapped to its record count |
| Smoothing.ContextCountPositive | main.cpp:214-223 | a key's record count is at least 1 exactly when the key occurs |
| Smoothing.ContextKeysStep | main.cpp:215-223 | one more record adds its own key to the set of keys |
| Smoothing.ContextTableStep | main.cpp:222 | one more record is one `Nc[key]++` on the table, with default 0 |
| Smoothing.ContextTablePrefixStep | main.cpp:215-223 | the same step, stated on the prefixes the loop walks |
| Smoothing.CountContexts | main.cpp:214-223 | the loop builds exactly Nc, each key mapped to its number of records |
| Smoothing.RecordContext | main.cpp:240 | every record's key is in Nc with a value of at least 1, so the division by Nc is safe |
| Smoothing.FrequencyTable | main.cpp:225-233 | definition: eachOccurrences as a value, each context size mapped to the number of keys that have it |
| Smoothing.FrequencyStep | main.cpp:226-233 | visiting one more key bumps the entry for its context size (inserting 1 when absent) |
| Smoothing.FrequencyPositive | main.cpp:226-233 | every entry of eachOccurrences is at least 1 |
| Smoothing.CountFrequencies | main.cpp:225-233 | the loop builds exactly eachOccurrences, each context size mapped to the number of keys that have it |
| Smoothing.GoodTuringProbability | main.cpp:240-253 | the estimate is never negative; it is 0 exactly when the fallback branch is taken and eachOccurrences[1] is 0 |
| Smoothing.GoodTuringEstimate | main.cpp:235-253 | the Good-Turing probability of a record, from its count, its Nc entry and eachOccurrences; never negative |
| Smoothing.GoodTuringEstimateFromTables | main.cpp:235-253 | the record's estimate is the Good-Turing formula on its count, its Nc entry (at least 1) and eachOccurrences (non-negative entries) |
| Smoothing.GoodTuringSmoothing | main.cpp:213-255 | every record keeps its words and count, receives its Good-Turing estimate, and that estimate is non-negative |
| Smoothing.KneserNeyProbability | main.cpp:289-303 | the Kneser-Ney formula with the constant `Discount` = 0.5 (`D` at main.cpp:290) is strictly positive |
| Smoothing.KneserNeyUnclipped | main.cpp:295-303 | c = Nc + count - 1 is at least Nc ≥ 1; the max never clips, and the probability is the closed formula |
| Smoothing.KneserNeyAtMostOne | main.cpp:289-303 | when Nc is at most the vocabulary size, the probability is at most 1 |
| Smoothing.KneserNeySingleton | main.cpp:298-303 | a count-1 record gets D/Nc + D·Nc/\|vocabulary\|, a non-zero discounted term |
| Smoothing.Vocabulary | main.cpp:279-280 | the number of distinct tokens is at least 1 for non-empty input |
| Smoothing.ContinuationsStep | main.cpp:258-267 | one more record adds its last word to its key's continuations |
| Smoothing.NewContinuation | main.cpp:258-267 | with distinct continuations, a new record's last word is new for its key |
| Smoothing.DistinctContinuationsFront | main.cpp:258-267 | distinct continuations hold for every prefix of the table |
| Smoothing.ContextCountContinuations | main.cpp:258-267 | with distinct continuations, Nc of a key is the number of distinct words that follow it |
| Smoothing.KneserNeyEstimate | main.cpp:282-304 | the Kneser-Ney probability of a record, from its count, its Nc entry and the distinct-token count; strictly positive |
| Smoothing.KneserNeyEstimateFromTable | main.cpp:282-304 | the record's estimate is the Kneser-Ney formula on its count, its Nc entry (at least 1) and the distinct-token count |
| Smoothing.KneserNeySmoothing | main.cpp:257-305 | every record keeps its words and count, receives its Kneser-Ney estimate, and that estimate is strictly positive |
| LanguageModel.SumCountsSameCounts | main.cpp:213-305 | smoothing changes no count, so the count sum is unchanged |
| LanguageModel.SameWordsAndCounts | main.cpp:213-305 | a table with the same words and counts keeps well-formedness, uniqueness and the count sum |
| LanguageModel.BuildNGrams | main.cpp:166-308 | n < 2 gives an empty result. Otherwise the result is the tally of the windows with each probability set by the chosen strategy. Every record has n words and count ≥ 1, there are no duplicates, and the counts sum to \|tokens\| - n + 1. Good-Turing probabilities are ≥ 0 and Kneser-Ney ones > 0 |
| LanguageModel.WindowsFromTokens | main.cpp:179-183 | every word of every window is a token |
| LanguageModel.TallyFromTokens | main.cpp:179-202 | every word of every counted record is a token |
| LanguageModel.TrainedTable | main.cpp:179-202 | a trained table is well formed and duplicate-free, and its words are tokens |
| LanguageModel.ContextKeyIsPrefix | main.cpp:217-221 | on a trained table over space-free tokens, two records share a key exactly when their first n-1 words agree |
| LanguageModel.SpaceFreeDistinctContinuations | main.cpp:258-267 | in a well-formed, duplicate-free table whose words are space-free tokens, records with the same key differ in their last word |
| LanguageModel.ContinuationsAreTokens | main.cpp:279-287 | in a well-formed table whose words are tokens, the words that follow a key are tokens |
| LanguageModel.ContextCountAtMostVocabulary | main.cpp:279-293 | for a well-formed, duplicate-free table whose words are space-free tokens, Nc of a key is at most the number of distinct tokens |
| LanguageModel.KneserNeyTrainedInUnitInterval | main.cpp:257-305 | on space-free tokens, every Kneser-Ney estimate of the trained table lies in (0, 1] |
| LanguageModel.KneserNeyOnCorpusInUnitInterval | main.cpp:282-304 | the same holds for every table trained on tokenised lines |
| LanguageModel.ExampleWindows | main.cpp:179-183 | the windows of `<s> the cat sat </s>` with n = 2 |
| LanguageModel.ExampleTally | main.cpp:179-202 | their tally is four records of count 1 |
| LanguageModel.ExampleKeys | main.cpp:217-221 | the four context keys are `<s> `, `the `, `cat `, `sat ` |
| LanguageModel.ExampleCounts | main.cpp:214-223 | each of those keys has one record |
| LanguageModel.ExampleContexts | main.cpp:214-223 | Nc of the example maps each of the four keys to 1 |
| LanguageModel.ExampleFrequencies | main.cpp:225-233 | eachOccurrences of the example is {1: 4} |
| LanguageModel.GoodTuringExample | main.cpp:213-255 | the Good-Turing estimate of `(the, cat)` in the example is 4, above 1 |
| Evaluation.Fallback | main.cpp:404 | the probability of an unmatched test window, 1/\|model\|, lies in (0, 1] |
| Evaluation.TestProbability | main.cpp:390-406 | definition: the first matching record's probability, else 1/\|model\|, else 0 for an empty model |
| Evaluation.TestNGrams | main.cpp:377-410 | one test record per window of the test tokens, holding that window's words and count 0 |
| Evaluation.CountMatches | main.cpp:392-397 | the match counter reaches n exactly when the first n words agree |
| Evaluation.FirstMatch | main.cpp:391-402 | the scan stops at the first model record whose words equal the window, or runs off the end |
| Evaluation.ScoreTestNGram | main.cpp:390-406 | an empty model leaves the record unchanged; otherwise the record gets its test probability |
| Evaluation.CreateTestNGrams | main.cpp:377-410 | one record per test window with count 0, each with its looked-up probability |
| Evaluation.TestProbabilityExact | main.cpp:399-401 | a window held by a duplicate-free model gets that record's probability |
| Evaluation.TestProbabilityUnseen | main.cpp:403-405 | a window no record holds gets 1/\|model\| > 0 |
| Evaluation.TestProbabilityPositive | main.cpp:390-406 | with a non-empty model of positive probabilities, every test probability is positive |
| Evaluation.Product | main.cpp:413-419 | definition: the probabilities multiplied left to right, 1 for no records |
| Evaluation.SentenceProbability | main.cpp:413-419 | the loop computes the product of the probabilities (1 for no records) |
| Evaluation.ProductConcat | main.cpp:413-419 | the product of a concatenation is the product of the products |
| Evaluation.ProductPositive | main.cpp:413-419 | positive factors give a positive product |
| Evaluation.ProductUnitInterval | main.cpp:413-419 | factors in [0, 1] give a product in [0, 1] |
| Evaluation.ProductZero | main.cpp:413-419 | one zero factor makes the product 0 |
| Evaluation.SentenceProbabilityPositive | main.cpp:377-419 | a non-empty model with positive probabilities gives a positive sentence probability |
| Evaluation.WindowStep | main.cpp:443-464 | definition: one window of the perplexity loop. Before any match only the first record is compared: its probability on a match (setting the flag), else 1/\|model\|. After a match: the first matching record's probability, or nothing |
| Evaluation.Selected | main.cpp:436-465 | definition: the probabilities collected over all windows, threading the match flag |
| Evaluation.ScanWindow | main.cpp:443-464 | the model scan for one window pushes and flags exactly what one window step prescribes |
| Evaluation.PerplexityProbabilities | main.cpp:434-465 | the loop collects exactly the selected probabilities, starting with no match found |
| Evaluation.SelectedAtMostOnePerWindow | main.cpp:436-465 | at most one probability is pushed per window |
| Evaluation.SelectedEmptyModel | main.cpp:443 | an empty model pushes nothing |
| Evaluation.SelectedValues | main.cpp:452-462 | every collected value is 1/\|model\| or some record's probability |
| Evaluation.SelectedNeverMatched | main.cpp:457-463 | if no window equals the first record, each window contributes 1/\|model\| |
| Evaluation.StepWhenSeen | main.cpp:451-456 | once a match was found, or when the first record matches, a seen window pushes its test probability |
| Evaluation.SelectedAgreesWhenSeen | main.cpp:443-456 | if every window is in the model and the first matches record 0, the collected values are the test probabilities |
| Evaluation.SelectedSkipsLaterRecords | main.cpp:443-464 | before any match, a window held only by the second record gets 1/\|model\| rather than that record's probability |
| Tokenize.IsSpace | main.cpp:144 | definition: the six white-space characters of the C locale (space, \t, \n, \v, \f, \r) that `>>` skips |
| Tokenize.IsPunct | main.cpp:146 | definition: `ispunct` in the C locale, the ASCII codes 33-47, 58-64, 91-96 and 123-126 |
| Tokenize.IsUpper | main.cpp:150 | definition: the upper-case letters A-Z that `tolower` changes in the C locale |
| Tokenize.ToLower | main.cpp:150 | definition: `tolower` in the C locale, A-Z shifted down by 32 and every other character unchanged |
| Tokenize.Words | main.cpp:137-144 | definition: the white-space-separated words of a line, in order, as repeated `>>` extraction gives them |
| Tokenize.StripPunct | main.cpp:146-147 | definition: the word with its punctuation characters removed |
| Tokenize.Lower | main.cpp:149-150 | definition: the word with each character lower-cased |
| Tokenize.Clean | main.cpp:146-152 | definition: the token pushed for one extracted word, punctuation removed and then lower-cased |
| Tokenize.WordLength | main.cpp:144 | the leading word runs up to the first white-space character |
| Tokenize.CleanAll | main.cpp:144-153 | each extracted word is cleaned, in order |
| Tokenize.LineTokens | main.cpp:141-156 | a line contributes its word count plus two tokens, starting with `StartMarker` (`<s>`, main.cpp:142) and ending with `EndMarker` (`</s>`, main.cpp:156) |
| Tokenize.Tokenized | main.cpp:135-157 | definition: the tokens of all lines, in order |
| Tokenize.AppendLine | main.cpp:137-156 | the per-line loop appends `<s>`, the cleaned words and `</s>` |
| Tokenize.PreprocessText | main.cpp:135-157 | the line loop yields exactly the tokenisation of all lines |
| Tokenize.WordsShape | main.cpp:144 | every extracted word is non-empty and free of white space |
| Tokenize.StripPunctShape | main.cpp:146-147 | punctuation removal never lengthens a word, leaves no punctuation and introduces no character; with the next three lemmas it fixes exactly which characters remain, in order |
| Tokenize.StripPunctAppend | main.cpp:146-147 | stripping a concatenation strips each part and keeps them in order |
| Tokenize.StripPunctKeeps | main.cpp:146-147 | a word without punctuation comes through unchanged |
| Tokenize.StripPunctDrops | main.cpp:146-147 | a word made only of punctuation disappears |
| Tokenize.WordsKeepCharacters | main.cpp:137-144 | the extracted words, put back together, are the line with its white space removed: no other character is lost |
| Tokenize.CleanShape | main.cpp:146-150 | a cleaned word has no punctuation and no upper-case letter, and no white space when the word had none |
| Tokenize.TokenizedLength | main.cpp:135-157 | every line contributes at least its two markers |
| Tokenize.LineTokensShape | main.cpp:141-156 | every token of a line is a marker or a cleaned word |
| Tokenize.TokenizedShape | main.cpp:135-157 | every token of the corpus is a marker or a cleaned word |
| Tokenize.TokensHaveNoSpace | main.cpp:135-157 | no token contains a space, so joined context keys split back into words |

The lemmas `Counting.TallyStep`, `Counting.InsertAt`, `Smoothing.ContextCountStep`, `Tokenize.CleanAllStep`, `Tokenize.TokenizedStep` and `Evaluation.SelectedFrom` are proof helpers: each unfolds a definition on one more element for the loop that walks it, and they state nothing beyond the definitions above.

## Left out

- LanguageModel.BuildNGrams: requires \|tokens\| ≥ n - 1 when n ≥ 2. With fewer tokens, `tokens.size() - (n - 1)` wraps around as an unsigned value, and `ngrams.reserve` at main.cpp:177 is asked for more than `max_size()`, so it throws an uncaught `std::length_error` before the loop starts. That abort is not modelled. With exactly n - 1 tokens the result is empty.
- Evaluation.CreateTestNGrams: requires \|testTokens\| ≥ n - 1. With fewer, the bound wraps around and the window loop at main.cpp:379-383 reads past the end of the tokens. It also requires `Covers(model, n)`: every model record has at least n words. A record loaded by `readModel` from a short line (main.cpp:357-360) breaks this, and main.cpp:394 then reads past that record's words. Both are undefined behaviour and are not modelled.
- Evaluation.PerplexityProbabilities: requires \|testTokens\| ≥ n - 1 and `Covers(model, n)`, for the same reasons: otherwise main.cpp:436-440 reads past the tokens, or main.cpp:447 past a short record's words.
- File input and output are not modelled: `printCorpusContents`, the file reading of `countCorpus` and `preprocessAndTokenize`, `saveModelToFile` and `readModel`. The tokeniser takes the file's lines as a sequence instead, and stream extraction is modelled as splitting on white space (`Tokenize.Words`).
- The XML branch of `preprocessAndTokenize` is not modelled: it strips tags with `std::regex`, which is library code outside the model.
- `calculateModelPerplexity` and the final `std::pow` product of `calculatePerplexity` are not modelled, because fractional powers are irrational and floating-point. Only the selection of probabilities is modelled.
- `double` rounding is not modelled; probabilities are exact rationals.
- Counts and map values are unbounded integers. The source stores them in 32-bit `int`, which could only overflow past 2^31 windows; that overflow is not modelled.
- The maps `wordCount` and `precedingWordCount` are left out: they are built but never read.
- The Kneser-Ney branch's `eachOccurrences` table is left out: it is built but never read.
- The zero entries that `operator[]` inserts into `eachOccurrences` at main.cpp:244-245 are not stored in the model. The `find(c)->second` test at main.cpp:247 reads exactly those entries and sees 0, which is the value `NGrams.Lookup` gives for a missing key, so every probability is the same.
- The quadratic cost of the `std::find` duplicate search is not modelled; only its result is.
- Menus, the interactive `main` loop and the hard-coded file paths are left out.
- The `std::cerr` diagnostic printed for n < 2 (main.cpp:169) is not modelled; in the model n < 2 just gives the empty result.
- Locale-dependent `ispunct` and `tolower` are not modelled; ASCII character classes are used.
