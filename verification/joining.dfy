/** `should_join(word1, word2)`: whether `word2` attaches to `word1` without
    a space, and the combined form when one is known. The driver does not
    call it; it makes its own joining decision (see module Driver). */
module Joining {
  import opened TextUtil
  import opened Tables
  import opened Resolver

  /** The second half of the answer: the source returns the combined text,
      except for a compound pair, where it returns the table's flag. */
  datatype Form = Text(s: string) | Flag(b: bool)

  datatype JoinAnswer = JoinAnswer(join: bool, form: Form)

  /** A word as `should_join` compares it: lower-cased, trailing
      punctuation stripped. */
  function Bare(word: string): (r: string)
    ensures r <= Lower(word)
    ensures r == [] || r[|r| - 1] !in TRAILING_MARKS
  {
    RStrip(Lower(word), TRAILING_MARKS)
  }

  /** `w.endswith(('.', ',', '?', '!'))` */
  predicate EndsWithSentenceMark(w: string)
  {
    w != [] && (w[|w| - 1] == '.' || w[|w| - 1] == ',' || w[|w| - 1] == '?' || w[|w| - 1] == '!')
  }

  /** `w2 in ('ko', 'ki', 'ka')` */
  predicate IsGenitive(w: string)
  {
    w == "ko" || w == "ki" || w == "ka"
  }

  /** `w1.endswith(('chha', 'chhu', 'chhan'))` */
  predicate EndsLikeVerb(w: string)
  {
    EndsWith(w, "chha") || EndsWith(w, "chhu") || EndsWith(w, "chhan")
  }

  /** `should_join(word1, word2)` as written, with `dict` for WORD_DICT. */
  function ShouldJoin(dict: map<string, string>, word1: string, word2: string): (r: JoinAnswer)
    ensures (Bare(word1), Bare(word2)) in COMPOUND_PAIRS ==> r == JoinAnswer(true, Flag(true))
    ensures r.join <==>
              (Bare(word1), Bare(word2)) in COMPOUND_PAIRS
              || Bare(word1) + Bare(word2) in dict
              || (Bare(word2) in JOINING_SUFFIXES
                  && !(Bare(word2) == "ma" && Bare(word1) in MA_PRONOUN_CONTEXT)
                  && !(IsGenitive(Bare(word2)) && EndsLikeVerb(Bare(word1))))
    ensures !r.join ==> r.form == Text("")
    ensures r.form.Text? && r.form.s != "" ==>
              Bare(word1) + Bare(word2) in dict && dict[Bare(word1) + Bare(word2)] == r.form.s
  {
    var w1 := Bare(word1);
    var w2 := Bare(word2);
    if (w1, w2) in COMPOUND_PAIRS then
      CompoundFlagsTrue(w1, w2);
      JoinAnswer(true, Flag(COMPOUND_PAIRS[(w1, w2)]))
    else if w1 + w2 in dict then JoinAnswer(true, Text(dict[w1 + w2]))
    else if w2 == "ma" && (EndsWithSentenceMark(w1) || w1 in MA_PRONOUN_CONTEXT) then
      JoinAnswer(false, Text(""))
    else if IsGenitive(w2) && EndsLikeVerb(w1) then JoinAnswer(false, Text(""))
    else if w2 in JOINING_SUFFIXES then JoinAnswer(true, Text(""))
    else JoinAnswer(false, Text(""))
  }

  lemma CompoundFlagsTrue(w1: string, w2: string)
    requires (w1, w2) in COMPOUND_PAIRS
    ensures COMPOUND_PAIRS[(w1, w2)]
  {
  }

  /** The sentence-mark test in `should_join` can never succeed: the words
      were stripped of `.`, `,`, `?` and `!` (among others) just before. */
  lemma SentenceMarkCheckIsDead(word: string)
    ensures !EndsWithSentenceMark(Bare(word))
  {
  }

  /** So `ma` after a word that closes a sentence still joins to it:
      "ghar." followed by "ma" is joined as a postposition (घरमा), although
      a `ma` after a full stop is meant as the pronoun म. */
  lemma MaAfterFullStopJoins(dict: map<string, string>)
    requires "gharma" !in dict
    ensures ShouldJoin(dict, "ghar.", "ma") == JoinAnswer(true, Text(""))
  {
    GharAndMa();
  }

  lemma GharAndMa()
    ensures Lower("ghar.") == "ghar." && Bare("ghar.") == "ghar"
    ensures Bare("ma") == "ma" && "ghar" + "ma" == "gharma"
    ensures ("ghar", "ma") !in COMPOUND_PAIRS
  {
    assert Lower("ghar.") == "ghar.";
    assert Lower("ma") == "ma";
  }

  /** `should_join` with the sentence-mark test applied to the lower-cased
      first word before its punctuation is stripped, so that a `ma` after a
      word closing a sentence or a clause is kept apart as the pronoun. */
  function ShouldJoinIntended(dict: map<string, string>, word1: string, word2: string): (r: JoinAnswer)
    ensures !r.join ==> r.form == Text("")
    ensures Bare(word2) == "ma" && EndsWithSentenceMark(Lower(word1))
            && (Bare(word1), "ma") !in COMPOUND_PAIRS && Bare(word1) + "ma" !in dict
            ==> r == JoinAnswer(false, Text(""))
  {
    var w1 := Bare(word1);
    var w2 := Bare(word2);
    if (w1, w2) in COMPOUND_PAIRS then JoinAnswer(true, Flag(COMPOUND_PAIRS[(w1, w2)]))
    else if w1 + w2 in dict then JoinAnswer(true, Text(dict[w1 + w2]))
    else if w2 == "ma" && (EndsWithSentenceMark(Lower(word1)) || w1 in MA_PRONOUN_CONTEXT) then
      JoinAnswer(false, Text(""))
    else if IsGenitive(w2) && EndsLikeVerb(w1) then JoinAnswer(false, Text(""))
    else if w2 in JOINING_SUFFIXES then JoinAnswer(true, Text(""))
    else JoinAnswer(false, Text(""))
  }

  /** The corrected test keeps `ma` apart after a full stop. */
  lemma MaAfterFullStopStaysApart(dict: map<string, string>)
    requires "gharma" !in dict
    ensures ShouldJoinIntended(dict, "ghar.", "ma") == JoinAnswer(false, Text(""))
  {
    GharAndMa();
  }

  /** The correction only changes answers about a `ma` after a word ending
      in a sentence mark. */
  lemma IntendedDiffersOnlyAfterMarks(dict: map<string, string>, word1: string, word2: string)
    requires !(Bare(word2) == "ma" && EndsWithSentenceMark(Lower(word1)))
    ensures ShouldJoinIntended(dict, word1, word2) == ShouldJoin(dict, word1, word2)
  {
    SentenceMarkCheckIsDead(word1);
  }

  // ---------------------------------------------------------------------------
  // The order of the checks
  // ---------------------------------------------------------------------------

  /** A dictionary entry for the fused word decides, unless the pair is a
      compound pair. */
  lemma FusedFromDictionary(dict: map<string, string>, word1: string, word2: string)
    requires (Bare(word1), Bare(word2)) !in COMPOUND_PAIRS
    requires Bare(word1) + Bare(word2) in dict
    ensures ShouldJoin(dict, word1, word2) == JoinAnswer(true, Text(dict[Bare(word1) + Bare(word2)]))
  {
  }

  /** `ko`, `ki` and `ka` stay apart from a verb ending in chha, chhu or
      chhan, unless the fused word is known. */
  lemma GenitiveAfterVerbApart(dict: map<string, string>, word1: string, word2: string)
    requires IsGenitive(Bare(word2)) && EndsLikeVerb(Bare(word1))
    requires Bare(word1) + Bare(word2) !in dict
    ensures ShouldJoin(dict, word1, word2) == JoinAnswer(false, Text(""))
  {
    assert (Bare(word1), Bare(word2)) !in COMPOUND_PAIRS;
  }

  /** Any other postposition attaches, with no combined form given. */
  lemma SuffixAttaches(dict: map<string, string>, word1: string, word2: string)
    requires Bare(word2) in JOINING_SUFFIXES
    requires (Bare(word1), Bare(word2)) !in COMPOUND_PAIRS
    requires Bare(word1) + Bare(word2) !in dict
    requires Bare(word2) == "ma" ==> Bare(word1) !in MA_PRONOUN_CONTEXT
    requires !(IsGenitive(Bare(word2)) && EndsLikeVerb(Bare(word1)))
    ensures ShouldJoin(dict, word1, word2) == JoinAnswer(true, Text(""))
  {
  }
}
