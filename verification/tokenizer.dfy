/** The tokenizer (`NepaliTransliterator._tokenize`): text is cut into word,
    space and punctuation tokens. Every whitespace character and every
    punctuation character is a token of its own; the characters in between
    form words. */
module Tokenizer {
  import opened TextUtil
  import opened Tables

  datatype Token = Word(text: string) | Space(ch: char) | Punct(ch: char)

  /** The text a token stands for. */
  function Value(t: Token): string
  {
    match t
    case Word(w) => w
    case Space(c) => [c]
    case Punct(c) => [c]
  }

  /** The texts of a token list, one after the other. */
  function Concat(ts: seq<Token>): string
  {
    if ts == [] then [] else Value(ts[0]) + Concat(ts[1..])
  }

  /** `c in PUNCTUATION`. */
  predicate IsPunctuation(c: char)
  {
    c == '.' || c == ',' || c == '?' || c == '!' || c == ';' || c == ':' || c == '-'
    || c == '(' || c == ')' || c == '[' || c == ']' || c == '"' || c == '\'' || c == '…'
  }

  lemma PunctuationKeys(c: char)
    ensures IsPunctuation(c) <==> c in PUNCTUATION
  {
  }

  /** A character that belongs to a word: neither whitespace nor
      punctuation. */
  predicate IsWordChar(c: char)
  {
    !IsSpace(c) && !IsPunctuation(c)
  }

  /** The length of the run of word characters that starts `text`. */
  function WordLength(text: string): (n: nat)
    ensures n <= |text|
  {
    if text == [] || !IsWordChar(text[0]) then 0 else 1 + WordLength(text[1..])
  }

  /** WordLength counts word characters, and stops at the first character
      that is not one. */
  lemma {:induction false} WordLengthIsRun(text: string)
    ensures forall k :: 0 <= k < WordLength(text) ==> IsWordChar(text[k])
    ensures WordLength(text) < |text| ==> !IsWordChar(text[WordLength(text)])
    decreases |text|
  {
    if text != [] && IsWordChar(text[0]) {
      WordLengthIsRun(text[1..]);
      forall k | 0 <= k < WordLength(text)
        ensures IsWordChar(text[k])
      {
        if k > 0 {
          assert text[k] == text[1..][k - 1];
        }
      }
    }
  }

  /** The token list of `text`, read from the left. */
  function Tokens(text: string): seq<Token>
    decreases |text|
  {
    if text == [] then []
    else if IsSpace(text[0]) then [Space(text[0])] + Tokens(text[1..])
    else if IsPunctuation(text[0]) then [Punct(text[0])] + Tokens(text[1..])
    else
      var n := WordLength(text);
      [Word(text[..n])] + Tokens(text[n..])
  }

  // ---------------------------------------------------------------------------
  // What a tokenization is
  // ---------------------------------------------------------------------------

  /** A space token holds a whitespace character, a punctuation token a
      punctuation character, and a word token a non-empty run of word
      characters. */
  predicate WellFormed(t: Token)
  {
    match t
    case Word(w) => w != [] && forall k :: 0 <= k < |w| ==> IsWordChar(w[k])
    case Space(c) => IsSpace(c)
    case Punct(c) => IsPunctuation(c)
  }

  /** No two word tokens are neighbours: every word is as long as it can
      be. */
  predicate Maximal(ts: seq<Token>)
  {
    forall i :: 0 <= i < |ts| - 1 ==> !(ts[i].Word? && ts[i + 1].Word?)
  }

  predicate IsTokenization(ts: seq<Token>, text: string)
  {
    Concat(ts) == text && (forall i :: 0 <= i < |ts| ==> WellFormed(ts[i])) && Maximal(ts)
  }

  lemma PunctuationIsNotSpace(c: char)
    requires IsPunctuation(c)
    ensures !IsSpace(c)
  {
  }

  /** Tokens(text) is a tokenization of `text`: its token texts give back
      `text` exactly, every token is well formed, and every word is
      maximal. */
  lemma {:induction false} TokensAreTokenization(text: string)
    ensures IsTokenization(Tokens(text), text)
    decreases |text|
  {
    var ts := Tokens(text);
    if text != [] {
      var n := if IsSpace(text[0]) || IsPunctuation(text[0]) then 1 else WordLength(text);
      WordLengthIsRun(text);
      if !IsSpace(text[0]) && IsPunctuation(text[0]) {
        PunctuationIsNotSpace(text[0]);
      }
      TokensAreTokenization(text[n..]);
      var rest := Tokens(text[n..]);
      assert ts == [ts[0]] + rest;
      assert ts[1..] == rest;
      assert Value(ts[0]) == text[..n];
      assert text == text[..n] + text[n..];
      assert WellFormed(ts[0]);
      if ts[0].Word? && rest != [] {
        assert !rest[0].Word? by {
          TokensStartWith(text[n..]);
        }
      }
      forall i | 0 <= i < |ts| - 1
        ensures !(ts[i].Word? && ts[i + 1].Word?)
      {
        if i > 0 {
          assert ts[i] == rest[i - 1] && ts[i + 1] == rest[i];
        }
      }
      forall i | 0 <= i < |ts|
        ensures WellFormed(ts[i])
      {
        if i > 0 {
          assert ts[i] == rest[i - 1];
        }
      }
    }
  }

  /** The first token of a text starting with a non-word character is not a
      word. */
  lemma TokensStartWith(text: string)
    requires text != [] && !IsWordChar(text[0])
    ensures Tokens(text) != [] && !Tokens(text)[0].Word?
  {
  }

  /** A word run followed by anything that does not start with a word
      character is exactly one token long. */
  lemma {:induction false} WordLengthOfRun(w: string, rest: string)
    requires forall k :: 0 <= k < |w| ==> IsWordChar(w[k])
    requires rest == [] || !IsWordChar(rest[0])
    ensures WordLength(w + rest) == |w|
    decreases |w|
  {
    if w != [] {
      assert (w + rest)[1..] == w[1..] + rest;
      WordLengthOfRun(w[1..], rest);
    } else {
      assert w + rest == rest;
    }
  }

  /** There is only one tokenization of a text, so Tokens is the tokenizer's
      one possible result. */
  lemma {:induction false} TokenizationIsUnique(ts: seq<Token>, text: string)
    requires IsTokenization(ts, text)
    ensures ts == Tokens(text)
    decreases |text|
  {
    if ts == [] {
      assert text == [];
    } else {
      var t := ts[0];
      assert WellFormed(t);
      var v := Value(t);
      assert text == v + Concat(ts[1..]);
      assert v != [];
      assert text[..|v|] == v && text[|v|..] == Concat(ts[1..]);
      var rest := ts[1..];
      forall i | 0 <= i < |rest|
        ensures WellFormed(rest[i])
      {
        assert rest[i] == ts[i + 1];
      }
      forall i | 0 <= i < |rest| - 1
        ensures !(rest[i].Word? && rest[i + 1].Word?)
      {
        assert rest[i] == ts[i + 1] && rest[i + 1] == ts[i + 2];
      }
      assert IsTokenization(rest, text[|v|..]);
      TokenizationIsUnique(rest, text[|v|..]);
      match t
      case Space(c) => {
        assert text[0] == c;
      }
      case Punct(c) => {
        assert text[0] == c;
        PunctuationIsNotSpace(c);
      }
      case Word(w) => {
        WordTokenLength(ts, text);
      }
    }
  }

  /** The first word of a tokenization is as long as the run of word
      characters at the start of the text. */
  lemma WordTokenLength(ts: seq<Token>, text: string)
    requires IsTokenization(ts, text) && ts != [] && ts[0].Word?
    ensures text[0] == ts[0].text[0] && WordLength(text) == |ts[0].text|
  {
    var w := ts[0].text;
    assert WellFormed(ts[0]);
    var rest := ts[1..];
    var after := Concat(rest);
    assert text == w + after;
    if rest != [] {
      assert !rest[0].Word? && rest[0] == ts[1];
      assert WellFormed(rest[0]);
      assert after == Value(rest[0]) + Concat(rest[1..]);
      if rest[0].Punct? {
        PunctuationIsNotSpace(rest[0].ch);
      }
    }
    WordLengthOfRun(w, after);
  }

  // ---------------------------------------------------------------------------
  // The tokenizer loop
  // ---------------------------------------------------------------------------

  /** The word token for the pending run, if there is one. */
  function Flush(current: string): seq<Token>
  {
    if current == [] then [] else [Word(current)]
  }

  /** The token for a whitespace or punctuation character. */
  function MarkToken(c: char): Token
  {
    if IsSpace(c) then Space(c) else Punct(c)
  }

  /** The tokenizer loop read as a function: the tokens still to come when
      the loop is at `i` and `text[start..i]` is the pending run of word
      characters. */
  function Scan(text: string, start: nat, i: nat): seq<Token>
    requires start <= i <= |text|
    decreases |text| - i
  {
    if i == |text| then Flush(text[start..i])
    else if IsSpace(text[i]) || IsPunctuation(text[i]) then
      (Flush(text[start..i]) + [MarkToken(text[i])]) + Scan(text, i + 1, i + 1)
    else Scan(text, start, i + 1)
  }

  // The scan and the token list agree.

  /** A text starting with whitespace or punctuation starts with that
      character's token. */
  lemma MarkFirst(text: string)
    requires text != [] && !IsWordChar(text[0])
    ensures Tokens(text) == [MarkToken(text[0])] + Tokens(text[1..])
  {
  }

  /** A text starting with a word character starts with the run of word
      characters there. */
  lemma WordFirst(text: string)
    requires text != [] && IsWordChar(text[0])
    ensures Tokens(text) == [Word(text[..WordLength(text)])] + Tokens(text[WordLength(text)..])
  {
  }

  /** Slices of the suffix `text[i..]` are slices of `text`. */
  lemma SuffixSlices(text: string, i: nat, j: nat)
    requires i <= j <= |text|
    ensures text[i..][..j - i] == text[i..j] && text[i..][j - i..] == text[j..]
  {
  }

  /** The scan reads over word characters without emitting anything. */
  lemma {:induction false} ScanOverRun(text: string, start: nat, i: nat, j: nat)
    requires start <= i <= j <= |text|
    requires forall k :: i <= k < j ==> IsWordChar(text[k])
    ensures Scan(text, start, i) == Scan(text, start, j)
    decreases j - i
  {
    if i < j {
      ScanOverRun(text, start, i + 1, j);
    }
  }

  /** The run of word characters at `i` ends at `i + WordLength(text[i..])`. */
  lemma {:induction false} RunAt(text: string, i: nat)
    requires i <= |text|
    ensures var j := i + WordLength(text[i..]);
            && j <= |text|
            && (forall k :: i <= k < j ==> IsWordChar(text[k]))
            && (j < |text| ==> !IsWordChar(text[j]))
  {
    var rest := text[i..];
    WordLengthIsRun(rest);
    var j := i + WordLength(rest);
    forall k | i <= k < j
      ensures IsWordChar(text[k])
    {
      assert text[k] == rest[k - i];
    }
    if j < |text| {
      assert text[j] == rest[j - i];
    }
  }

  /** The scan at a whitespace or punctuation character with nothing
      pending. */
  lemma ScanMark(text: string, i: nat)
    requires i < |text| && !IsWordChar(text[i])
    ensures Scan(text, i, i) == [MarkToken(text[i])] + Scan(text, i + 1, i + 1)
  {
    assert text[i..i] == [];
  }

  /** The scan at the end of a word run. */
  lemma ScanRunEnd(text: string, i: nat, j: nat)
    requires i < j <= |text| && (j == |text| || !IsWordChar(text[j]))
    ensures j == |text| ==> Scan(text, i, j) == [Word(text[i..j])]
    ensures j < |text| ==> Scan(text, i, j) == [Word(text[i..j])] + Scan(text, j, j)
  {
    if j < |text| {
      ScanMark(text, j);
    }
  }

  /** Scanning from `i` with nothing pending gives the token list of
      `text[i..]`. */
  lemma {:induction false} ScanIsTokens(text: string, i: nat)
    requires i <= |text|
    ensures Scan(text, i, i) == Tokens(text[i..])
    decreases |text| - i
  {
    if i == |text| {
      assert text[i..i] == [] && text[i..] == [];
    } else {
      var rest := text[i..];
      assert rest[0] == text[i];
      if !IsWordChar(text[i]) {
        ScanIsTokens(text, i + 1);
        ScanMark(text, i);
        SuffixSlices(text, i, i + 1);
        MarkFirst(rest);
      } else {
        var j := i + WordLength(rest);
        RunAt(text, i);
        ScanOverRun(text, i, i, j);
        ScanRunEnd(text, i, j);
        SuffixSlices(text, i, j);
        WordFirst(rest);
        if j < |text| {
          ScanIsTokens(text, j);
        } else {
          assert text[j..] == [];
        }
      }
    }
  }

  // The loop's steps.

  /** The tokens the loop appends at a whitespace or punctuation
      character: the pending word, if any, then the character's token. */
  lemma FlushThenMark(tokens: seq<Token>, current: string, t: Token)
    ensures current != "" ==> tokens + [Word(current)] + [t] == tokens + (Flush(current) + [t])
    ensures current == "" ==> tokens + [t] == tokens + (Flush(current) + [t])
  {
  }

  /** The pending word, if any, closes the token list. */
  lemma FlushLast(tokens: seq<Token>, current: string)
    ensures current != "" ==> tokens + [Word(current)] == tokens + Flush(current)
    ensures current == "" ==> tokens == tokens + Flush(current)
  {
  }

  /** At a whitespace or punctuation character the scan emits the pending
      word and the character's token. */
  lemma MarkStep(tokens: seq<Token>, text: string, start: nat, idx: nat)
    requires start <= idx < |text| && !IsWordChar(text[idx])
    ensures tokens + Scan(text, start, idx)
            == (tokens + (Flush(text[start..idx]) + [MarkToken(text[idx])])) + Scan(text, idx + 1, idx + 1)
  {
  }

  /** At a word character the pending run grows by it. */
  lemma WordStep(text: string, start: nat, idx: nat)
    requires start <= idx < |text| && IsWordChar(text[idx])
    ensures Scan(text, start, idx) == Scan(text, start, idx + 1)
    ensures text[start..idx + 1] == text[start..idx] + [text[idx]]
  {
  }

  /** `_tokenize(text)`: one pass that collects word characters in
      `current` and flushes them as a word token at each whitespace or
      punctuation character and at the end. */
  method Tokenize(text: string) returns (tokens: seq<Token>)
    ensures tokens == Tokens(text)
  {
    tokens := [];
    var current := "";
    ghost var start := 0;
    for idx := 0 to |text|
      invariant start <= idx && current == text[start..idx]
      invariant tokens + Scan(text, start, idx) == Scan(text, 0, 0)
    {
      var ch := text[idx];
      if IsSpace(ch) || IsPunctuation(ch) {
        MarkStep(tokens, text, start, idx);
        FlushThenMark(tokens, current, MarkToken(ch));
        if current != "" {
          tokens := tokens + [Word(current)];
          current := "";
        }
        if IsSpace(ch) {
          tokens := tokens + [Space(ch)];
        } else {
          tokens := tokens + [Punct(ch)];
        }
        start := idx + 1;
      } else {
        WordStep(text, start, idx);
        current := current + [ch];
      }
    }
    FlushLast(tokens, current);
    if current != "" {
      tokens := tokens + [Word(current)];
    }
    ScanIsTokens(text, 0);
    assert text[0..] == text;
  }
}
