/** The text-file branch of the tokenizer: each line becomes a start marker,
    its whitespace-separated words with punctuation removed and letters
    lower-cased, and an end marker. Character classes are those of ASCII. */
module Tokenize {
  import opened NGrams

  /** The line's opening and closing marker tokens. */
  const StartMarker: string := "<s>"
  const EndMarker: string := "</s>"

  /** White space as stream extraction skips it: space, \t, \n, \v, \f, \r. */
  predicate IsSpace(c: char)
  {
    c == ' ' || c == '\t' || c == '\n' || c == '\U{B}' || c == '\U{C}' || c == '\r'
  }

  /** ASCII punctuation: the printable characters that are neither letters,
      digits nor space. */
  predicate IsPunct(c: char)
  {
    ('!' <= c <= '/') || (':' <= c <= '@') || ('[' <= c <= '`') || ('{' <= c <= '~')
  }

  /** The ASCII upper-case letters A-Z. */
  predicate IsUpper(c: char)
  {
    'A' <= c <= 'Z'
  }

  /** ASCII lower-casing; every other character is left alone. */
  function ToLower(c: char): char
  {
    if IsUpper(c) then (c as int + 32) as char else c
  }

  /** Length of the leading run of non-space characters of s. */
  function WordLength(s: string): (k: nat)
    ensures k <= |s|
    ensures forall i :: 0 <= i < k ==> !IsSpace(s[i])
    ensures k < |s| ==> IsSpace(s[k])
  {
    if s == [] || IsSpace(s[0]) then 0 else 1 + WordLength(s[1..])
  }

  /** The whitespace-separated words of a line, in order, as repeated
      extraction with `>>` yields them. */
  function Words(s: string): seq<string>
    decreases |s|
  {
    if s == [] then []
    else if IsSpace(s[0]) then Words(s[1..])
    else
      var k := WordLength(s);
      [s[..k]] + Words(s[k..])
  }

  /** The token with its punctuation characters removed. */
  function StripPunct(w: string): string
  {
    if w == [] then [] else (if IsPunct(w[0]) then [] else [w[0]]) + StripPunct(w[1..])
  }

  /** The token lower-cased character by character. */
  function Lower(w: string): string
  {
    seq(|w|, i requires 0 <= i < |w| => ToLower(w[i]))
  }

  /** One extracted word as it enters the token list. */
  function Clean(w: string): string
  {
    Lower(StripPunct(w))
  }

  /** Each extracted word cleaned, in order. */
  function CleanAll(ws: seq<string>): (r: seq<string>)
    ensures |r| == |ws| && forall i :: 0 <= i < |ws| ==> r[i] == Clean(ws[i])
  {
    if ws == [] then [] else CleanAll(ws[..|ws| - 1]) + [Clean(ws[|ws| - 1])]
  }

  /** Cleaning one more word appends it. */
  lemma CleanAllStep(ws: seq<string>, k: nat)
    requires k < |ws|
    ensures CleanAll(ws[..k + 1]) == CleanAll(ws[..k]) + [Clean(ws[k])]
  {
    assert ws[..k + 1][..k] == ws[..k];
  }

  /** The tokens one line contributes. */
  function LineTokens(line: string): (t: seq<string>)
    ensures |t| == |Words(line)| + 2
    ensures t[0] == StartMarker && t[|t| - 1] == EndMarker
  {
    var ws := Words(line);
    [StartMarker] + CleanAll(ws) + [EndMarker]
  }

  /** The tokens of all lines, in order. */
  function Tokenized(lines: seq<string>): seq<string>
  {
    if lines == [] then [] else Tokenized(lines[..|lines| - 1]) + LineTokens(lines[|lines| - 1])
  }

  /** One more line appends its tokens. */
  lemma TokenizedStep(lines: seq<string>, l: nat)
    requires l < |lines|
    ensures Tokenized(lines[..l + 1]) == Tokenized(lines[..l]) + LineTokens(lines[l])
  {
    assert lines[..l + 1][..l] == lines[..l];
  }

  /** The body of the per-line loop: the start marker, each extracted word
      with punctuation removed and lower-cased, then the end marker. */
  method AppendLine(tokens: seq<string>, line: string) returns (extended: seq<string>)
    ensures extended == tokens + LineTokens(line)
  {
    var words := Words(line);
    extended := tokens + [StartMarker];
    ghost var started := extended;
    var k := 0;
    while k < |words|
      invariant 0 <= k <= |words|
      invariant extended == started + CleanAll(words[..k])
    {
      var token := StripPunct(words[k]);
      token := Lower(token);
      CleanAllStep(words, k);
      extended := extended + [token];
      k := k + 1;
    }
    assert words[..k] == words;
    extended := extended + [EndMarker];
  }

  /** The text branch of the tokenizer over the lines of a corpus. */
  method PreprocessText(lines: seq<string>) returns (tokens: seq<string>)
    ensures tokens == Tokenized(lines)
  {
    tokens := [];
    var l := 0;
    while l < |lines|
      invariant 0 <= l <= |lines|
      invariant tokens == Tokenized(lines[..l])
    {
      TokenizedStep(lines, l);
      tokens := AppendLine(tokens, lines[l]);
      l := l + 1;
    }
    assert lines[..l] == lines;
  }

  // ---------------------------------------------------------------------
  // What the tokens look like

  /** Extracted words are non-empty and hold no white space. */
  lemma {:induction false} WordsShape(s: string)
    ensures forall j :: 0 <= j < |Words(s)| ==>
      |Words(s)[j]| > 0 && forall i :: 0 <= i < |Words(s)[j]| ==> !IsSpace(Words(s)[j][i])
    decreases |s|
  {
    if s != [] {
      if IsSpace(s[0]) {
        WordsShape(s[1..]);
      } else {
        var k := WordLength(s);
        WordsShape(s[k..]);
      }
    }
  }

  /** Removing punctuation never lengthens a word, leaves no punctuation, and
      introduces no character the word did not have. */
  lemma {:induction false} StripPunctShape(w: string)
    ensures |StripPunct(w)| <= |w|
    ensures forall i :: 0 <= i < |StripPunct(w)| ==>
      !IsPunct(StripPunct(w)[i]) && StripPunct(w)[i] in w
  {
    if w != [] {
      StripPunctShape(w[1..]);
    }
  }

  /** Punctuation removal works character by character: stripping a
      concatenation strips each part and keeps them in order. */
  lemma {:induction false} StripPunctAppend(a: string, b: string)
    ensures StripPunct(a + b) == StripPunct(a) + StripPunct(b)
  {
    if a == [] {
      assert a + b == b;
    } else {
      assert (a + b)[0] == a[0] && (a + b)[1..] == a[1..] + b;
      StripPunctAppend(a[1..], b);
    }
  }

  /** A word without punctuation comes through unchanged. */
  lemma {:induction false} StripPunctKeeps(w: string)
    requires forall i :: 0 <= i < |w| ==> !IsPunct(w[i])
    ensures StripPunct(w) == w
  {
    if w != [] {
      StripPunctKeeps(w[1..]);
    }
  }

  /** A word made only of punctuation disappears; with StripPunctAppend and
      StripPunctKeeps this pins down StripPunct on every word. */
  lemma {:induction false} StripPunctDrops(w: string)
    requires forall i :: 0 <= i < |w| ==> IsPunct(w[i])
    ensures StripPunct(w) == []
  {
    if w != [] {
      StripPunctDrops(w[1..]);
    }
  }

  /** The words of a line, written one after another. */
  function Concat(ws: seq<string>): string
  {
    if ws == [] then [] else ws[0] + Concat(ws[1..])
  }

  /** The characters of s that are not white space, in order. */
  function NonSpace(s: string): (r: string)
    ensures |r| <= |s|
    ensures forall i :: 0 <= i < |r| ==> !IsSpace(r[i])
  {
    if s == [] then [] else (if IsSpace(s[0]) then [] else [s[0]]) + NonSpace(s[1..])
  }

  /** Removing white space from a concatenation removes it from each part. */
  lemma {:induction false} NonSpaceAppend(a: string, b: string)
    ensures NonSpace(a + b) == NonSpace(a) + NonSpace(b)
  {
    if a == [] {
      assert a + b == b;
    } else {
      assert (a + b)[0] == a[0] && (a + b)[1..] == a[1..] + b;
      NonSpaceAppend(a[1..], b);
    }
  }

  /** A string without white space comes through unchanged. */
  lemma {:induction false} NonSpaceKeeps(w: string)
    requires forall i :: 0 <= i < |w| ==> !IsSpace(w[i])
    ensures NonSpace(w) == w
  {
    if w != [] {
      NonSpaceKeeps(w[1..]);
    }
  }

  /** Splitting a line into words loses no character other than white space:
      the words, put back together, are the line with its white space removed. */
  lemma {:induction false} WordsKeepCharacters(s: string)
    ensures Concat(Words(s)) == NonSpace(s)
    decreases |s|
  {
    if s != [] {
      if IsSpace(s[0]) {
        WordsKeepCharacters(s[1..]);
      } else {
        var k := WordLength(s);
        WordsKeepCharacters(s[k..]);
        var ws := Words(s);
        assert ws == [s[..k]] + Words(s[k..]);
        assert ws[0] == s[..k] && ws[1..] == Words(s[k..]);
        NonSpaceKeeps(s[..k]);
        NonSpaceAppend(s[..k], s[k..]);
        assert s[..k] + s[k..] == s;
      }
    }
  }

  /** A cleaned word holds no punctuation, no upper-case letter, and no white
      space when the word had none. */
  lemma CleanShape(w: string)
    ensures forall i :: 0 <= i < |Clean(w)| ==> !IsPunct(Clean(w)[i]) && !IsUpper(Clean(w)[i])
    ensures (forall i :: 0 <= i < |w| ==> !IsSpace(w[i])) ==>
      forall i :: 0 <= i < |Clean(w)| ==> !IsSpace(Clean(w)[i])
  {
    StripPunctShape(w);
  }

  /** Each line contributes its words plus the two markers. */
  lemma {:induction false} TokenizedLength(lines: seq<string>)
    ensures |Tokenized(lines)| >= 2 * |lines|
  {
    if lines != [] {
      TokenizedLength(lines[..|lines| - 1]);
    }
  }

  /** A cleaned word: no white space, no punctuation, no upper-case letter. */
  predicate CleanToken(t: string)
  {
    forall i :: 0 <= i < |t| ==> !IsSpace(t[i]) && !IsPunct(t[i]) && !IsUpper(t[i])
  }

  /** Every token one line contributes is a marker or a cleaned word. */
  lemma LineTokensShape(line: string)
    ensures forall k :: 0 <= k < |LineTokens(line)| ==>
      LineTokens(line)[k] in {StartMarker, EndMarker} || CleanToken(LineTokens(line)[k])
  {
    var ws := Words(line);
    WordsShape(line);
    var cleaned := CleanAll(ws);
    forall j | 0 <= j < |ws| ensures CleanToken(cleaned[j]) {
      CleanShape(ws[j]);
    }
    var t := LineTokens(line);
    forall k | 0 <= k < |t| ensures t[k] in {StartMarker, EndMarker} || CleanToken(t[k]) {
      if 0 < k < |t| - 1 {
        assert t[k] == cleaned[k - 1];
      }
    }
  }

  /** Every token is a marker or a cleaned word: no white space, no
      punctuation, no upper-case letter. */
  lemma {:induction false} TokenizedShape(lines: seq<string>)
    ensures forall k :: 0 <= k < |Tokenized(lines)| ==>
      Tokenized(lines)[k] in {StartMarker, EndMarker} || CleanToken(Tokenized(lines)[k])
  {
    if lines != [] {
      var front := lines[..|lines| - 1];
      TokenizedShape(front);
      LineTokensShape(lines[|lines| - 1]);
      var prev, line := Tokenized(front), LineTokens(lines[|lines| - 1]);
      var t := Tokenized(lines);
      assert t == prev + line;
      forall k | 0 <= k < |t| ensures t[k] in {StartMarker, EndMarker} || CleanToken(t[k]) {
        if k < |prev| {
          assert t[k] == prev[k];
        } else {
          assert t[k] == line[k - |prev|];
        }
      }
    }
  }

  /** No token of the tokenizer contains a space character, so the tokens
      can be joined into context keys without ambiguity. */
  lemma TokensHaveNoSpace(lines: seq<string>)
    ensures TokensSpaceFree(Tokenized(lines))
  {
    TokenizedShape(lines);
    var tokens := Tokenized(lines);
    assert SpaceFree(StartMarker) && SpaceFree(EndMarker);
    forall k | 0 <= k < |tokens| ensures SpaceFree(tokens[k]) {
      if CleanToken(tokens[k]) {
        assert forall i :: 0 <= i < |tokens[k]| ==> !IsSpace(tokens[k][i]);
      }
    }
  }
}
