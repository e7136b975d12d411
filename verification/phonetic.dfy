/** The phonetic engine: one left-to-right pass over a Roman word that emits
    Devanagari consonants, matras, halants, independent vowels and
    chandrabindu, and copies what it does not recognise. */
module Phonetic {
  import opened TextUtil
  import opened Tables

  /** Endings after a bare `a` that make it a long `ा`. */
  const POSTPOSITION_TAILS: set<string> := {"ma", "ko", "ka", "ki", "lai", "le"}

  /** `s in POSTPOSITION_TAILS`, spelled out letter by letter. */
  predicate IsPostpositionTail(s: string)
  {
    if |s| == 2 then
      (s[0] == 'm' && s[1] == 'a') || (s[0] == 'l' && s[1] == 'e')
      || (s[0] == 'k' && (s[1] == 'o' || s[1] == 'a' || s[1] == 'i'))
    else |s| == 3 && s[0] == 'l' && s[1] == 'a' && s[2] == 'i'
  }

  lemma PostpositionTailIsListed(s: string)
    ensures IsPostpositionTail(s) <==> s in POSTPOSITION_TAILS
  {
    if |s| == 2 {
      assert s == [s[0], s[1]];
    } else if |s| == 3 {
      assert s == [s[0], s[1], s[2]];
    }
  }

  /** Whether the lower-cased rest of `word` from `at` on is one of
      POSTPOSITION_TAILS, read letter by letter from `word` itself. */
  predicate PostpositionTailAt(word: string, at: nat)
  {
    at <= |word|
    && if |word| - at == 2 then
         var a, b := LowerChar(word[at]), LowerChar(word[at + 1]);
         (a == 'm' && b == 'a') || (a == 'l' && b == 'e') || (a == 'k' && (b == 'o' || b == 'a' || b == 'i'))
       else
         |word| - at == 3 && LowerChar(word[at]) == 'l' && LowerChar(word[at + 1]) == 'a'
         && LowerChar(word[at + 2]) == 'i'
  }

  lemma PostpositionTailAtIsListed(word: string, at: nat)
    requires at <= |word|
    ensures PostpositionTailAt(word, at) <==> Lower(word)[at..] in POSTPOSITION_TAILS
  {
    var rest := Lower(word)[at..];
    forall q | 0 <= q < |rest|
      ensures rest[q] == LowerChar(word[at + q])
    {
      LowerAt(word, at + q);
    }
    PostpositionTailIsListed(rest);
  }

  /** Characters the engine copies before trying any pattern: digits,
      anything beyond ASCII, and brackets. */
  predicate PassesThrough(c: char)
  {
    IsDigit(c) || c as int > 127 || IsBracket(c)
  }

  /** `c in '[]{}()'`. */
  predicate IsBracket(c: char)
  {
    c == '[' || c == ']' || c == '{' || c == '}' || c == '(' || c == ')'
  }

  /** `should_nasalize(word, pos)`: an `n` between a vowel and a consonant
      other than one of `ngykh` is read as nasalization. */
  function ShouldNasalize(word: string, pos: nat): (b: bool)
    ensures b ==> 0 < pos && pos + 1 < |word|
  {
    if pos >= |word| || LowerChar(word[pos]) != 'n' then false
    else if pos == 0 || !IsVowelLetter(LowerChar(word[pos - 1])) then false
    else if pos + 1 >= |word| then false
    else
      var next := LowerChar(word[pos + 1]);
      if IsConjunctAfterN(next) then false else IsConsonantLetter(next)
  }

  /** What should_nasalize checks about the neighbours of a nasal `n`. */
  lemma NasalNeighbours(word: string, pos: nat)
    requires ShouldNasalize(word, pos)
    ensures 0 < pos && pos + 1 < |word|
    ensures LowerChar(word[pos]) == 'n' && IsVowelLetter(LowerChar(word[pos - 1]))
    ensures IsConsonantLetter(LowerChar(word[pos + 1])) && !IsConjunctAfterN(LowerChar(word[pos + 1]))
  {
  }

  /** `c in 'ngykh'`: letters with which a preceding `n` forms a conjunct. */
  predicate IsConjunctAfterN(c: char)
  {
    c == 'n' || c == 'g' || c == 'y' || c == 'k' || c == 'h'
  }

  /** The consonant and vowel tables the engine scans. */
  datatype Scheme = Scheme(consonants: seq<Entry<string>>, vowels: seq<Entry<VowelForms>>)
  {
    ghost predicate Valid()
    {
      NonEmptyPatterns(consonants) && NonEmptyPatterns(vowels)
    }
  }

  /** The transliterator's own tables. */
  const ROMAN: Scheme := Scheme(CONSONANTS, VOWELS)

  lemma RomanValid()
    ensures ROMAN.Valid()
  {
    ConsonantTableShape();
    VowelTableShape();
  }

  /** What one iteration of the engine's loop writes, and where it resumes. */
  datatype Emit = Emit(out: string, next: nat)

  /** The matra written after a consonant for vowel row `v` found at
      `vowelPos` of `word`: nothing for a bare `a` unless one of
      POSTPOSITION_TAILS is all that follows it; a short or long `i` for a
      word-final single `i` depending on the word's length; otherwise the
      row's matra. */
  function VowelSign(word: string, vowelPos: nat, v: Entry<VowelForms>): string
    requires vowelPos + |v.pattern| <= |word|
  {
    var after := vowelPos + |v.pattern|;
    if v.pattern == "a" then
      if PostpositionTailAt(word, after) then "ा" else ""
    else if v.pattern == "i" && after >= |word| then
      if |word| <= 2 then "ि" else "ी"
    else v.value.matra
  }

  /** One iteration of `transliterate_word_rules` at `pos`. */
  function Step(sc: Scheme, word: string, pos: nat): (e: Emit)
    requires sc.Valid() && pos < |word|
    ensures pos < e.next <= |word|
  {
    var c := word[pos];
    if PassesThrough(c) then Emit([c], pos + 1)
    else match MatchIn(sc.consonants, word, pos)
      case Some(cons) => AfterConsonant(sc, word, pos, cons)
      case None =>
        match MatchIn(sc.vowels, word, pos)
        case Some(v) => Emit(v.value.independent, pos + |v.pattern|)
        case None =>
          if ShouldNasalize(word, pos) then Emit(CHANDRABINDU, pos + 1) else Emit([c], pos + 1)
  }

  /** The iteration once consonant row `cons` has matched at `pos`: a
      nasal `n` becomes chandrabindu; otherwise the base is written, with
      the sign of a following vowel, or a halant when another consonant
      follows directly, or bare at the end of the word. */
  function AfterConsonant(sc: Scheme, word: string, pos: nat, cons: Entry<string>): (e: Emit)
    requires sc.Valid() && 0 < |cons.pattern| && pos + |cons.pattern| <= |word|
    ensures pos < e.next <= |word|
  {
    if cons.pattern == "n" && ShouldNasalize(word, pos) then Emit(CHANDRABINDU, pos + 1)
    else
      var next := pos + |cons.pattern|;
      if next >= |word| then Emit(cons.value, next)
      else
        match MatchIn(sc.vowels, word, next)
        case Some(v) => Emit(cons.value + VowelSign(word, next, v), next + |v.pattern|)
        case None =>
          if MatchIn(sc.consonants, word, next).Some? then Emit(cons.value + HALANT, next)
          else Emit(cons.value, next)
  }

  /** The engine's output for `word[pos..]`. */
  function RulesFrom(sc: Scheme, word: string, pos: nat): string
    requires sc.Valid()
    decreases |word| - pos
  {
    if pos >= |word| then "" else
      var e := Step(sc, word, pos);
      e.out + RulesFrom(sc, word, e.next)
  }

  /** The engine's output for a whole word. */
  function Rules(word: string): string
  {
    RomanValid();
    RulesFrom(ROMAN, word, 0)
  }

  /** The vowel sign the loop body of `transliterate_word_rules` appends
      after a consonant for vowel row `v` found at `vowelPos`. */
  method VowelMatra(word: string, vowelPos: nat, v: Entry<VowelForms>) returns (sign: string)
    requires vowelPos + |v.pattern| <= |word|
    ensures sign == VowelSign(word, vowelPos, v)
  {
    var wordLen := |word|;
    sign := "";
    if v.pattern == "a" {
      var afterA := vowelPos + |v.pattern|;
      var remaining := if afterA < wordLen then Lower(word)[afterA..] else "";
      PostpositionTailAtIsListed(word, afterA);
      if remaining in POSTPOSITION_TAILS {
        sign := "ा";
      }
      // otherwise the inherent vowel: no matra
    } else if v.pattern == "i" && vowelPos + |v.pattern| >= wordLen {
      if wordLen <= 2 {
        sign := "ि";
      } else {
        sign := "ी";
      }
    } else if v.pattern == "ai" {
      sign := v.value.matra;
    } else if v.value.matra != "" {
      sign := v.value.matra;
    }
  }

  /** The loop body of `transliterate_word_rules` once a consonant row
      `cons` has matched at `pos`. */
  method EmitConsonant(sc: Scheme, word: string, pos: nat, cons: Entry<string>) returns (out: string, next: nat)
    requires sc.Valid() && 0 < |cons.pattern| && pos + |cons.pattern| <= |word|
    ensures AfterConsonant(sc, word, pos, cons) == Emit(out, next)
  {
    var wordLen := |word|;
    var nextPos := pos + |cons.pattern|;
    if cons.pattern == "n" && ShouldNasalize(word, pos) {
      out, next := CHANDRABINDU, pos + 1;
    } else if nextPos >= wordLen {
      // a word-final consonant gets no halant
      out, next := cons.value, nextPos;
    } else {
      var vow := MatchIn(sc.vowels, word, nextPos);
      if vow.Some? {
        var sign := VowelMatra(word, nextPos, vow.value);
        out := cons.value + sign;
        next := nextPos + |vow.value.pattern|;
      } else {
        var nextCons := MatchIn(sc.consonants, word, nextPos);
        if nextCons.Some? {
          out := cons.value + HALANT;
        } else {
          out := cons.value;
        }
        next := nextPos;
      }
    }
  }

  /** One pass of the loop body of `transliterate_word_rules` at `pos`: the
      text appended to the result and the position the loop resumes at. */
  method EmitAt(sc: Scheme, word: string, pos: nat) returns (out: string, next: nat)
    requires sc.Valid() && pos < |word|
    ensures Step(sc, word, pos) == Emit(out, next)
  {
    var c := word[pos];
    if IsDigit(c) || c as int > 127 || IsBracket(c) {
      // digits, non-ASCII characters and brackets are copied
      out, next := [c], pos + 1;
    } else {
      var cons := MatchIn(sc.consonants, word, pos);
      if cons.Some? {
        out, next := EmitConsonant(sc, word, pos, cons.value);
      } else {
        var vow := MatchIn(sc.vowels, word, pos);
        if vow.Some? {
          out, next := vow.value.value.independent, pos + |vow.value.pattern|;
        } else if ShouldNasalize(word, pos) {
          out, next := CHANDRABINDU, pos + 1;
        } else {
          out, next := [c], pos + 1;
        }
      }
    }
  }

  /** `transliterate_word_rules(word)`, scanning the tables of `sc` (the
      transliterator runs it with ROMAN). Each iteration computes what the
      source appends to its result list (`out`) and where it resumes. */
  method TransliterateWordRules(sc: Scheme, word: string) returns (r: string)
    requires sc.Valid()
    ensures r == RulesFrom(sc, word, 0)
    ensures sc == ROMAN ==> r == Rules(word)
  {
    if word == "" {
      return "";
    }
    var result := "";
    var pos := 0;
    var wordLen := |word|;
    while pos < wordLen
      invariant pos <= wordLen
      invariant result + RulesFrom(sc, word, pos) == RulesFrom(sc, word, 0)
      decreases wordLen - pos
    {
      var out, next := EmitAt(sc, word, pos);
      assert Step(sc, word, pos) == Emit(out, next);
      assert (result + out) + RulesFrom(sc, word, next) == result + (out + RulesFrom(sc, word, next));
      result := result + out;
      pos := next;
    }
    r := result;
  }

  // ---------------------------------------------------------------------------
  // Properties of the engine
  // ---------------------------------------------------------------------------

  /** A digit, a non-ASCII character or a bracket is copied and the scan
      moves one character on. */
  lemma PassThroughCopied(sc: Scheme, word: string, pos: nat)
    requires sc.Valid() && pos < |word| && PassesThrough(word[pos])
    ensures Step(sc, word, pos) == Emit([word[pos]], pos + 1)
  {
  }

  /** The engine's output from `pos` is what the step at `pos` writes
      followed by the output from where that step resumes. */
  lemma RulesFromStep(sc: Scheme, word: string, pos: nat)
    requires sc.Valid() && pos < |word|
    ensures RulesFrom(sc, word, pos) == Step(sc, word, pos).out + RulesFrom(sc, word, Step(sc, word, pos).next)
  {
  }

  /** A word made only of digits, non-ASCII characters and brackets comes
      out unchanged. */
  lemma {:induction false} PassThroughWordUnchanged(sc: Scheme, word: string, pos: nat)
    requires sc.Valid() && pos <= |word|
    requires forall i :: pos <= i < |word| ==> PassesThrough(word[i])
    ensures RulesFrom(sc, word, pos) == word[pos..]
    decreases |word| - pos
  {
    if pos < |word| {
      PassThroughCopied(sc, word, pos);
      RulesFromStep(sc, word, pos);
      PassThroughWordUnchanged(sc, word, pos + 1);
      assert word[pos..] == [word[pos]] + word[pos + 1..];
    }
  }

  /** An ASCII letter at `i` starts a consonant or a vowel row. */
  ghost predicate LetterMatchesAt(sc: Scheme, word: string, i: nat)
    requires sc.Valid() && i < |word|
  {
    IsAsciiLetter(word[i]) ==> MatchIn(sc.consonants, word, i).Some? || MatchIn(sc.vowels, word, i).Some?
  }

  /** Every ASCII letter of `word` starts a consonant or a vowel row. */
  ghost predicate LettersMatch(sc: Scheme, word: string)
    requires sc.Valid()
  {
    forall i :: 0 <= i < |word| ==> LetterMatchesAt(sc, word, i)
  }

  /** Every ASCII letter starts a consonant or a vowel row of ROMAN. */
  lemma RomanLettersMatch(word: string)
    ensures ROMAN.Valid() && LettersMatch(ROMAN, word)
  {
    RomanValid();
    forall i | 0 <= i < |word|
      ensures LetterMatchesAt(ROMAN, word, i)
    {
      if IsAsciiLetter(word[i]) {
        var c := LowerChar(word[i]);
        if IsVowelLetter(c) {
          var k := VowelLetterRow(c);
          LetterRowMatches(VOWELS, word, i, k);
        } else {
          var k := ConsonantLetterRow(c);
          LetterRowMatches(CONSONANTS, word, i, k);
        }
      }
    }
  }

  lemma NoLatinAppend(a: string, b: string)
    requires NoLatin(a) && NoLatin(b)
    ensures NoLatin(a + b)
  {
  }

  lemma VowelSignNoLatin(word: string, vowelPos: nat, v: Entry<VowelForms>)
    requires vowelPos + |v.pattern| <= |word| && NoLatin(v.value.matra)
    ensures NoLatin(VowelSign(word, vowelPos, v))
  {
  }

  lemma SyllableNoLatin(sc: Scheme, word: string, vowelPos: nat, base: string, v: Entry<VowelForms>)
    requires FormsNoLatin(sc.vowels) && v in sc.vowels && NoLatin(base)
    requires vowelPos + |v.pattern| <= |word|
    ensures NoLatin(base + VowelSign(word, vowelPos, v))
  {
    var j :| 0 <= j < |sc.vowels| && sc.vowels[j] == v;
    VowelSignNoLatin(word, vowelPos, v);
    NoLatinAppend(base, VowelSign(word, vowelPos, v));
  }

  /** What a consonant row and its sequel write holds no Latin letter. */
  lemma AfterConsonantNoLatin(sc: Scheme, word: string, pos: nat, cons: Entry<string>)
    requires sc.Valid() && FormsNoLatin(sc.vowels)
    requires NoLatin(cons.value) && 0 < |cons.pattern| && pos + |cons.pattern| <= |word|
    ensures NoLatin(AfterConsonant(sc, word, pos, cons).out)
  {
    var next := pos + |cons.pattern|;
    var e := AfterConsonant(sc, word, pos, cons);
    if cons.pattern == "n" && ShouldNasalize(word, pos) {
      assert e.out == CHANDRABINDU;
    } else if next >= |word| {
      assert e.out == cons.value;
    } else if MatchIn(sc.vowels, word, next).Some? {
      var v := MatchIn(sc.vowels, word, next).value;
      SyllableNoLatin(sc, word, next, cons.value, v);
      assert e.out == cons.value + VowelSign(word, next, v);
    } else if MatchIn(sc.consonants, word, next).Some? {
      NoLatinAppend(cons.value, HALANT);
      assert e.out == cons.value + HALANT;
    } else {
      assert e.out == cons.value;
    }
  }

  /** What one step writes holds no Latin letter, when the tables write
      none and the letter at `pos`, if any, starts a row. */
  lemma StepNoLatin(sc: Scheme, word: string, pos: nat)
    requires sc.Valid() && ValuesNoLatin(sc.consonants) && FormsNoLatin(sc.vowels)
    requires pos < |word| && LetterMatchesAt(sc, word, pos)
    ensures NoLatin(Step(sc, word, pos).out)
  {
    var c := word[pos];
    var consMatch := MatchIn(sc.consonants, word, pos);
    var vowMatch := MatchIn(sc.vowels, word, pos);
    if PassesThrough(c) {
      assert Step(sc, word, pos).out == [c];
    } else if consMatch.Some? {
      assert Step(sc, word, pos) == AfterConsonant(sc, word, pos, consMatch.value);
      var k :| 0 <= k < |sc.consonants| && sc.consonants[k] == consMatch.value;
      AfterConsonantNoLatin(sc, word, pos, consMatch.value);
    } else if vowMatch.Some? {
      var j :| 0 <= j < |sc.vowels| && sc.vowels[j] == vowMatch.value;
      assert Step(sc, word, pos).out == vowMatch.value.value.independent;
    } else {
      assert !IsAsciiLetter(c);
      assert Step(sc, word, pos).out == CHANDRABINDU || Step(sc, word, pos).out == [c];
    }
  }

  lemma {:induction false} RulesFromNoLatin(sc: Scheme, word: string, pos: nat)
    requires sc.Valid() && ValuesNoLatin(sc.consonants) && FormsNoLatin(sc.vowels)
    requires LettersMatch(sc, word)
    ensures NoLatin(RulesFrom(sc, word, pos))
    decreases |word| - pos
  {
    if pos < |word| {
      var e := Step(sc, word, pos);
      StepNoLatin(sc, word, pos);
      RulesFromNoLatin(sc, word, e.next);
      NoLatinAppend(e.out, RulesFrom(sc, word, e.next));
    }
  }

  /** No Latin letter survives the engine: every letter of the input is
      consumed by some consonant or vowel row, and the tables write only
      Devanagari. */
  lemma RulesNoLatin(word: string)
    ensures NoLatin(Rules(word))
  {
    RomanLettersMatch(word);
    ConsonantTableNoLatin();
    VowelTableNoLatin();
    RulesFromNoLatin(ROMAN, word, 0);
  }

  // ---------------------------------------------------------------------------
  // Nasalization
  // ---------------------------------------------------------------------------

  /** An `n` that should_nasalize accepts, and that does not begin `nchh`,
      is matched by the single-`n` row (the rows `ng`, `ny` and `nn` need a
      following letter that should_nasalize rules out), so it is written as
      chandrabindu and the scan moves on by one character. */
  lemma NasalStep(sc: Scheme, word: string, pos: nat, k: nat)
    requires sc.Valid() && NRowsListed(sc.consonants)
    requires k < |sc.consonants| && sc.consonants[k].pattern == "n"
    requires ShouldNasalize(word, pos) && !MatchesAt("nchh", word, pos)
    ensures Step(sc, word, pos) == Emit(CHANDRABINDU, pos + 1)
  {
    NasalNeighbours(word, pos);
    assert !PassesThrough(word[pos]);
    LetterRowMatches(sc.consonants, word, pos, k);
    var m := MatchIn(sc.consonants, word, pos).value;
    MatchInMatches(sc.consonants, word, pos);
    MatchesFromLetters(m.pattern, word, pos, 0);
    var j :| 0 <= j < |sc.consonants| && sc.consonants[j] == m;
    assert m.pattern[0] == 'n';
    assert IsNRow(m);
    assert m.pattern == "n";
    assert Step(sc, word, pos) == AfterConsonant(sc, word, pos, m);
  }

  /** In the transliterator's tables, a nasal `n` outside `nchh` becomes
      chandrabindu followed by the rendering of the rest of the word. */
  lemma NasalizedN(word: string, pos: nat)
    requires ShouldNasalize(word, pos) && !MatchesAt("nchh", word, pos)
    ensures ROMAN.Valid()
    ensures Step(ROMAN, word, pos) == Emit(CHANDRABINDU, pos + 1)
  {
    RomanValid();
    ConsonantTableNRows();
    var k := ConsonantLetterRow('n');
    NasalStep(ROMAN, word, pos, k);
  }

  /** `nchh` is the first consonant row, so it wins over the nasal `n`: the
      step consumes all four letters and writes the conjunct न्छ first. */
  lemma NchhConjunct(word: string, pos: nat)
    requires pos < |word| && MatchesAt("nchh", word, pos)
    ensures ROMAN.Valid()
    ensures Step(ROMAN, word, pos) == AfterConsonant(ROMAN, word, pos, Entry("nchh", "न्छ"))
    ensures "न्छ" <= Step(ROMAN, word, pos).out && pos + 4 <= Step(ROMAN, word, pos).next
  {
    RomanValid();
    NchhMatches(word, pos);
  }

  lemma NchhMatches(word: string, pos: nat)
    requires ROMAN.Valid() && pos < |word| && MatchesAt("nchh", word, pos)
    ensures !PassesThrough(word[pos])
    ensures MatchIn(ROMAN.consonants, word, pos) == Some(Entry("nchh", "न्छ"))
  {
    assert CONSONANTS[0] == Entry("nchh", "न्छ");
    MatchesFromLetters("nchh", word, pos, 0);
    assert LowerChar(word[pos]) == 'n';
  }

  /** The engine's last resort for an unmatched character tests
      should_nasalize, but with the transliterator's tables it can never
      succeed there: an `n` always starts a consonant row. */
  lemma NasalFallbackUnreachable(word: string, pos: nat)
    requires ROMAN.Valid() && pos < |word|
    requires MatchIn(ROMAN.consonants, word, pos).None?
    ensures !ShouldNasalize(word, pos)
  {
    if ShouldNasalize(word, pos) {
      NasalNeighbours(word, pos);
      var k := ConsonantLetterRow('n');
      LetterRowMatches(CONSONANTS, word, pos, k);
    }
  }

  // ---------------------------------------------------------------------------
  // What a consonant writes
  // ---------------------------------------------------------------------------

  /** A consonant that ends the word is written as its bare base: no halant
      follows it (and a word-final `n` is never nasalized). */
  lemma FinalConsonantBare(sc: Scheme, word: string, pos: nat, cons: Entry<string>)
    requires sc.Valid() && pos < |word| && !PassesThrough(word[pos])
    requires MatchIn(sc.consonants, word, pos) == Some(cons)
    requires pos + |cons.pattern| == |word|
    ensures Step(sc, word, pos) == Emit(cons.value, |word|)
  {
    assert !(cons.pattern == "n" && ShouldNasalize(word, pos));
  }

  /** A consonant followed directly by another consonant row is written
      with a halant. */
  lemma ClusterTakesHalant(sc: Scheme, word: string, pos: nat, cons: Entry<string>)
    requires sc.Valid() && pos < |word| && !PassesThrough(word[pos])
    requires MatchIn(sc.consonants, word, pos) == Some(cons)
    requires !(cons.pattern == "n" && ShouldNasalize(word, pos))
    requires pos + |cons.pattern| < |word|
    requires MatchIn(sc.vowels, word, pos + |cons.pattern|).None?
    requires MatchIn(sc.consonants, word, pos + |cons.pattern|).Some?
    ensures Step(sc, word, pos) == Emit(cons.value + HALANT, pos + |cons.pattern|)
  {
  }

  /** A bare `a` after a consonant adds no matra, unless the rest of the
      word after it is one of the postposition tails, when it is written
      long (ा). */
  lemma BareAMatra(sc: Scheme, word: string, pos: nat, cons: Entry<string>, v: Entry<VowelForms>)
    requires sc.Valid() && pos < |word| && !PassesThrough(word[pos])
    requires MatchIn(sc.consonants, word, pos) == Some(cons)
    requires !(cons.pattern == "n" && ShouldNasalize(word, pos))
    requires pos + |cons.pattern| < |word|
    requires MatchIn(sc.vowels, word, pos + |cons.pattern|) == Some(v) && v.pattern == "a"
    ensures var after := pos + |cons.pattern| + 1;
            Step(sc, word, pos)
            == Emit(cons.value + (if PostpositionTailAt(word, after) then "ा" else ""), after)
  {
    AfterConsonantVowel(sc, word, pos, cons, v);
  }

  /** A single `i` that ends the word after a consonant is short (ि) in a
      word of at most two letters and long (ी) otherwise. */
  lemma FinalIMatra(sc: Scheme, word: string, pos: nat, cons: Entry<string>, v: Entry<VowelForms>)
    requires sc.Valid() && pos < |word| && !PassesThrough(word[pos])
    requires MatchIn(sc.consonants, word, pos) == Some(cons)
    requires !(cons.pattern == "n" && ShouldNasalize(word, pos))
    requires pos + |cons.pattern| + 1 == |word|
    requires MatchIn(sc.vowels, word, pos + |cons.pattern|) == Some(v) && v.pattern == "i"
    ensures Step(sc, word, pos) == Emit(cons.value + (if |word| <= 2 then "ि" else "ी"), |word|)
  {
    AfterConsonantVowel(sc, word, pos, cons, v);
  }

  /** A vowel that no consonant precedes is written in its independent
      form. */
  lemma OnsetVowelIndependent(sc: Scheme, word: string, pos: nat, v: Entry<VowelForms>)
    requires sc.Valid() && pos < |word| && !PassesThrough(word[pos])
    requires MatchIn(sc.consonants, word, pos).None?
    requires MatchIn(sc.vowels, word, pos) == Some(v)
    ensures Step(sc, word, pos) == Emit(v.value.independent, pos + |v.pattern|)
  {
  }

  /** AfterConsonant when a vowel row follows the consonant. */
  lemma AfterConsonantVowel(sc: Scheme, word: string, pos: nat, cons: Entry<string>, v: Entry<VowelForms>)
    requires sc.Valid() && 0 < |cons.pattern| && pos + |cons.pattern| < |word|
    requires !(cons.pattern == "n" && ShouldNasalize(word, pos))
    requires MatchIn(sc.vowels, word, pos + |cons.pattern|) == Some(v)
    ensures AfterConsonant(sc, word, pos, cons)
         == Emit(cons.value + VowelSign(word, pos + |cons.pattern|, v), pos + |cons.pattern| + |v.pattern|)
  {
  }

  // ---------------------------------------------------------------------------
  // Longest match in the transliterator's tables
  // ---------------------------------------------------------------------------

  /** match_consonant returns a longest consonant pattern that starts the
      lower-cased rest of the text, and nothing only when none does. */
  lemma ConsonantMatchIsLongest(text: string, pos: nat)
    ensures ROMAN.Valid()
    ensures var m := MatchIn(ROMAN.consonants, text, pos);
            m.Some? ==> forall e :: e in ROMAN.consonants && e.pattern <= RestLower(text, pos) ==>
                          |e.pattern| <= |m.value.pattern|
    ensures MatchIn(ROMAN.consonants, text, pos).None? <==>
              forall e :: e in ROMAN.consonants ==> !(e.pattern <= RestLower(text, pos))
  {
    RomanValid();
    ConsonantTableShape();
    MatchInIsLongest(ROMAN.consonants, text, pos);
    MatchInNone(ROMAN.consonants, text, pos);
  }

  /** match_vowel returns a longest vowel pattern that starts the
      lower-cased rest of the text, and nothing only when none does. */
  lemma VowelMatchIsLongest(text: string, pos: nat)
    ensures ROMAN.Valid()
    ensures var m := MatchIn(ROMAN.vowels, text, pos);
            m.Some? ==> forall e :: e in ROMAN.vowels && e.pattern <= RestLower(text, pos) ==>
                          |e.pattern| <= |m.value.pattern|
    ensures MatchIn(ROMAN.vowels, text, pos).None? <==>
              forall e :: e in ROMAN.vowels ==> !(e.pattern <= RestLower(text, pos))
  {
    RomanValid();
    VowelTableShape();
    MatchInIsLongest(ROMAN.vowels, text, pos);
    MatchInNone(ROMAN.vowels, text, pos);
  }
}
