/** The word resolver, `transliterate_word`: a chain of checks tried in a
    fixed order (the pronoun `ma`, splitting off a postposition, the verb
    `hun`, a fixed table of particles, the word dictionary) with the
    phonetic engine as the last resort. */
module Resolver {
  import opened TextUtil
  import opened Tables
  import opened Phonetic

  /** What the caller knows about the word's surroundings. An absent context
      is `Context(false, "")`. */
  datatype Context = Context(isSentenceStart: bool, prevWord: string)

  /** `COMMON_PARTICLES.get(lw)`: frequent words whose rendering overrides
      the dictionary. */
  function Particle(lw: string): Option<string>
  {
    if lw == "ma" then Some("मा")
    else if lw == "ko" then Some("को")
    else if lw == "le" then Some("ले")
    else if lw == "lai" then Some("लाई")
    else if lw == "bata" then Some("बाट")
    else if lw == "dekhi" then Some("देखि")
    else if lw == "sanga" then Some("सँग")
    else if lw == "chha" then Some("छ")
    else if lw == "chhu" then Some("छु")
    else if lw == "chhan" then Some("छन्")
    else if lw == "ho" then Some("हो")
    else if lw == "hun" then Some("हुन्")
    else if lw == "ta" then Some("त")
    else if lw == "nai" then Some("नै")
    else if lw == "ni" then Some("नि")
    else if lw == "po" then Some("पो")
    else if lw == "ra" then Some("र")
    else if lw == "ki" then Some("कि")
    else if lw == "ke" then Some("के")
    else if lw == "yo" then Some("यो")
    else if lw == "tyo" then Some("त्यो")
    else if lw == "u" then Some("ऊ")
    else if lw == "nepal" then Some("नेपाल")
    else if lw == "nepali" then Some("नेपाली")
    else if lw == "sabai" then Some("सबै")
    else if lw == "dherai" then Some("धेरै")
    else None
  }

  /** Previous words that are themselves punctuation and make `ma` the
      pronoun. */
  const MA_AFTER_MARKS: set<string> := {",", ";", "-", "..."}

  /** The characters `rstrip` removes from the previous word. */
  const TRAILING_MARKS: string := ".,?!;:"

  /** `ma` is the pronoun "I" (म) rather than the postposition "in" (मा). */
  predicate MaIsPronoun(ctx: Context)
  {
    var prev := Lower(ctx.prevWord);
    prev in MA_AFTER_MARKS || ctx.isSentenceStart
    || RStrip(prev, TRAILING_MARKS) in MA_PRONOUN_CONTEXT || EndsWith(prev, ",")
  }

  /** `hun` is "I am" (हुँ) rather than "they are" (हुन्). */
  predicate HunIsFirstPerson(ctx: Context)
  {
    var prev := Lower(ctx.prevWord);
    ctx.isSentenceStart || prev == "ma" || prev in MA_PRONOUN_CONTEXT
  }

  // ---------------------------------------------------------------------------
  // Splitting off a postposition
  // ---------------------------------------------------------------------------

  /** The suffix `s` may be split off `lw`: `lw` ends with it and at least
      two characters are left for the stem. */
  predicate Splits(lw: string, s: string)
  {
    EndsWith(lw, s) && |lw| - |s| >= 2
  }

  /** Index of the first suffix of `sfx`, from `k` on, that splits `lw`. */
  function FirstSplitFrom(sfx: seq<string>, lw: string, k: nat): (r: Option<nat>)
    requires k <= |sfx|
    ensures r.Some? ==> k <= r.value < |sfx|
    decreases |sfx| - k
  {
    if k == |sfx| then None
    else if Splits(lw, sfx[k]) then Some(k)
    else FirstSplitFrom(sfx, lw, k + 1)
  }

  /** FirstSplitFrom finds a suffix that splits `lw`, and skips only
      suffixes that do not. */
  lemma {:induction false} FirstSplitFromIsFirst(sfx: seq<string>, lw: string, k: nat)
    requires k <= |sfx|
    ensures var r := FirstSplitFrom(sfx, lw, k);
            && (r.Some? ==> Splits(lw, sfx[r.value]))
            && forall q :: k <= q < |sfx| && (r.None? || q < r.value) ==> !Splits(lw, sfx[q])
    decreases |sfx| - k
  {
    if k < |sfx| && !Splits(lw, sfx[k]) {
      FirstSplitFromIsFirst(sfx, lw, k + 1);
    }
  }

  ghost predicate LongestSuffixFirst(sfx: seq<string>)
  {
    forall i, j :: 0 <= i < j < |sfx| ==> |sfx[i]| >= |sfx[j]|
  }

  /** Lengths that never grow from one suffix to the next never grow at all. */
  lemma {:induction false} NeighboursOrdered(sfx: seq<string>)
    requires forall i :: 0 <= i < |sfx| - 1 ==> |sfx[i]| >= |sfx[i + 1]|
    ensures LongestSuffixFirst(sfx)
    decreases |sfx|
  {
    if |sfx| > 1 {
      NeighboursOrdered(sfx[1..]);
      forall j | 1 <= j < |sfx|
        ensures |sfx[0]| >= |sfx[j]|
      {
        assert |sfx[1..][0]| >= |sfx[1..][j - 1]|;
      }
      forall i, j | 0 <= i < j < |sfx|
        ensures |sfx[i]| >= |sfx[j]|
      {
        if i > 0 {
          assert |sfx[1..][i - 1]| >= |sfx[1..][j - 1]|;
        }
      }
    }
  }

  /** JOINING_SUFFIXES_BY_LENGTH lists exactly JOINING_SUFFIXES, longest
      first, and every suffix has at least two letters. */
  lemma SuffixListShape()
    ensures forall s :: s in JOINING_SUFFIXES <==> s in JOINING_SUFFIXES_BY_LENGTH
    ensures LongestSuffixFirst(JOINING_SUFFIXES_BY_LENGTH)
    ensures forall i :: 0 <= i < |JOINING_SUFFIXES_BY_LENGTH| ==> |JOINING_SUFFIXES_BY_LENGTH[i]| >= 2
  {
    SuffixSetListed();
    SuffixListInSet();
    SuffixListLengths();
    NeighboursOrdered(JOINING_SUFFIXES_BY_LENGTH);
  }

  lemma SuffixSetListed()
    ensures forall s :: s in JOINING_SUFFIXES ==> s in JOINING_SUFFIXES_BY_LENGTH
  {
  }

  lemma SuffixListInSet()
    ensures forall s :: s in JOINING_SUFFIXES_BY_LENGTH ==> s in JOINING_SUFFIXES
  {
  }

  lemma SuffixListLengths()
    ensures forall i :: 0 <= i < |JOINING_SUFFIXES_BY_LENGTH| - 1 ==>
              |JOINING_SUFFIXES_BY_LENGTH[i]| >= |JOINING_SUFFIXES_BY_LENGTH[i + 1]|
    ensures forall i :: 0 <= i < |JOINING_SUFFIXES_BY_LENGTH| ==> |JOINING_SUFFIXES_BY_LENGTH[i]| >= 2
  {
  }

  /** The postposition split off a word: the first of JOINING_SUFFIXES, in
      order of decreasing length, that the lower-cased word ends with and
      that leaves a stem of at least two characters. */
  function SplitSuffix(lw: string): (r: Option<string>)
    ensures r.Some? ==> 2 <= |r.value| <= |lw| - 2
  {
    match FirstSplitFrom(JOINING_SUFFIXES_BY_LENGTH, lw, 0)
    case None => None
    case Some(i) =>
      FirstSplitFromIsFirst(JOINING_SUFFIXES_BY_LENGTH, lw, 0);
      SuffixListLengths();
      Some(JOINING_SUFFIXES_BY_LENGTH[i])
  }

  /** The suffix split off is one of JOINING_SUFFIXES, and it splits the
      word. */
  lemma SplitSuffixSplits(lw: string)
    ensures SplitSuffix(lw).Some? ==> SplitSuffix(lw).value in JOINING_SUFFIXES && Splits(lw, SplitSuffix(lw).value)
  {
    FirstSplitFromIsFirst(JOINING_SUFFIXES_BY_LENGTH, lw, 0);
    SuffixListInSet();
  }

  /** The suffix split off is the longest one that splits the word, and
      none is split off only when none splits it. The order among suffixes
      of equal length does not matter: a word ends with at most one of
      them. */
  lemma {:induction false} SplitSuffixIsLongest(lw: string)
    ensures SplitSuffix(lw).Some? ==>
              forall s :: s in JOINING_SUFFIXES && Splits(lw, s) ==> |s| <= |SplitSuffix(lw).value|
    ensures SplitSuffix(lw).None? <==> forall s :: s in JOINING_SUFFIXES ==> !Splits(lw, s)
  {
    SuffixListShape();
    FirstSplitIsLongest(JOINING_SUFFIXES, JOINING_SUFFIXES_BY_LENGTH, lw);
  }

  /** The first suffix of a longest-first list `sfx` that splits `lw` is
      the longest of the set `S` it lists that does. */
  lemma {:induction false} FirstSplitIsLongest(S: set<string>, sfx: seq<string>, lw: string)
    requires forall s :: s in S <==> s in sfx
    requires LongestSuffixFirst(sfx)
    ensures var r := FirstSplitFrom(sfx, lw, 0);
            && (r.Some? ==> forall s :: s in S && Splits(lw, s) ==> |s| <= |sfx[r.value]|)
            && (r.None? <==> forall s :: s in S ==> !Splits(lw, s))
  {
    FirstSplitFromIsFirst(sfx, lw, 0);
    var r := FirstSplitFrom(sfx, lw, 0);
    forall s | s in S && Splits(lw, s)
      ensures r.Some? && |s| <= |sfx[r.value]|
    {
      var q :| 0 <= q < |sfx| && sfx[q] == s;
      if r.Some? && q > r.value {
        assert |sfx[r.value]| >= |sfx[q]|;
      }
    }
    if r.Some? {
      assert sfx[r.value] in S;
    }
  }

  // ---------------------------------------------------------------------------
  // The resolver
  // ---------------------------------------------------------------------------

  /** `transliterate_word(word, context)` with `dict` for WORD_DICT. */
  function TransliterateWord(dict: map<string, string>, word: string, ctx: Context): string
    decreases |word|
  {
    var lw := Lower(word);
    if word == "" then ""
    else if lw == "ma" && MaIsPronoun(ctx) then "म"
    else if |word| > 3 && lw !in dict && SplitSuffix(lw).Some? then
      var s := SplitSuffix(lw).value;
      TransliterateWord(dict, word[..|word| - |s|], ctx) + TransliterateWord(dict, s, ctx)
    else if lw == "hun" && HunIsFirstPerson(ctx) then "हुँ"
    else if Particle(lw).Some? then Particle(lw).value
    else if lw in dict then dict[lw]
    else Rules(word)
  }

  // ---------------------------------------------------------------------------
  // The order of the checks
  // ---------------------------------------------------------------------------

  /** No particle is ever split: none of them ends with a postposition that
      leaves two characters in front. */
  lemma ParticleNotSplit(lw: string)
    requires Particle(lw).Some?
    ensures SplitSuffix(lw).None?
  {
    SplitSuffixIsLongest(lw);
    forall s | s in JOINING_SUFFIXES
      ensures !Splits(lw, s)
    {
      ParticleEndings(lw, s);
    }
  }

  lemma ParticleEndings(lw: string, s: string)
    requires Particle(lw).Some? && s in JOINING_SUFFIXES
    ensures !Splits(lw, s)
  {
    SuffixCases(s);
    if |lw| >= 4 {
      LongParticles(lw);
      LongParticleEndings(lw, s);
    }
  }

  /** The members of JOINING_SUFFIXES, one by one. */
  lemma SuffixCases(s: string)
    requires s in JOINING_SUFFIXES
    ensures IsJoiningSuffix(s) && 2 <= |s|
  {
  }

  predicate IsJoiningSuffix(s: string)
  {
    s == "harulai" || s == "haruko" || s == "haruma" || s == "harule" || s == "sangai" || s == "bhanda"
    || s == "dekhi" || s == "sanga" || s == "bata" || s == "haru" || s == "lai" || s == "ko" || s == "ka"
    || s == "le" || s == "ma"
  }

  /** The particles of four letters or more. */
  lemma LongParticles(lw: string)
    requires Particle(lw).Some? && |lw| >= 4
    ensures IsLongParticle(lw)
  {
  }

  predicate IsLongParticle(lw: string)
  {
    lw == "bata" || lw == "chha" || lw == "chhu" || lw == "dekhi" || lw == "sanga" || lw == "chhan"
    || lw == "nepal" || lw == "sabai" || lw == "nepali" || lw == "dherai"
  }

  /** None of them ends with a postposition that leaves two letters. */
  lemma LongParticleEndings(lw: string, s: string)
    requires IsLongParticle(lw) && IsJoiningSuffix(s)
    ensures !Splits(lw, s)
  {
    EndsWithLastLetters(lw, s);
  }

  /** A word that ends with `p` agrees with it in its last three letters. */
  lemma EndsWithLastLetters(w: string, p: string)
    ensures EndsWith(w, p) && |p| >= 1 ==> w[|w| - 1] == p[|p| - 1]
    ensures EndsWith(w, p) && |p| >= 2 ==> w[|w| - 2] == p[|p| - 2]
    ensures EndsWith(w, p) && |p| >= 3 ==> w[|w| - 3] == p[|p| - 3]
  {
    if EndsWith(w, p) {
      var k := |w| - |p|;
      forall q | 0 <= q < |p|
        ensures w[k + q] == p[q]
      {
        assert w[k + q] == (w[..k] + p)[k + q];
      }
    }
  }

  /** `ma` is "I" (म) in a pronoun context and the postposition मा
      otherwise; the dictionary never decides. */
  lemma MaByContext(dict: map<string, string>, word: string, ctx: Context)
    requires Lower(word) == "ma"
    ensures MaIsPronoun(ctx) ==> TransliterateWord(dict, word, ctx) == "म"
    ensures !MaIsPronoun(ctx) ==> TransliterateWord(dict, word, ctx) == "मा"
  {
    assert word != "";
  }

  /** `ma` at the start of a sentence is the pronoun. */
  lemma MaAtSentenceStart(dict: map<string, string>, word: string, prev: string)
    requires Lower(word) == "ma"
    ensures TransliterateWord(dict, word, Context(true, prev)) == "म"
  {
    MaByContext(dict, word, Context(true, prev));
  }

  /** `hun` is "I am" (हुँ) at a sentence start, after `ma` or after a
      pronoun-context word, and "they are" (हुन्) otherwise. */
  lemma HunByContext(dict: map<string, string>, word: string, ctx: Context)
    requires Lower(word) == "hun"
    ensures HunIsFirstPerson(ctx) ==> TransliterateWord(dict, word, ctx) == "हुँ"
    ensures !HunIsFirstPerson(ctx) ==> TransliterateWord(dict, word, ctx) == "हुन्"
  {
    assert word != "" && |word| == 3;
  }

  /** A particle (outside the context-dependent readings of `ma` and `hun`)
      is rendered from the particle table, whatever the dictionary says. */
  lemma ParticleOverridesDictionary(dict: map<string, string>, word: string, ctx: Context)
    requires Particle(Lower(word)).Some?
    requires !(Lower(word) == "ma" && MaIsPronoun(ctx))
    requires !(Lower(word) == "hun" && HunIsFirstPerson(ctx))
    ensures TransliterateWord(dict, word, ctx) == Particle(Lower(word)).value
  {
    ParticleNotSplit(Lower(word));
    assert word != "" by {
      assert Particle("").None?;
    }
  }

  /** A dictionary word that is not a particle is rendered from the
      dictionary: being in the dictionary also protects it from splitting. */
  lemma DictionaryBeforeRules(dict: map<string, string>, word: string, ctx: Context)
    requires Particle(Lower(word)).None? && Lower(word) in dict && word != ""
    ensures TransliterateWord(dict, word, ctx) == dict[Lower(word)]
  {
    assert Lower(word) != "ma" && Lower(word) != "hun";
  }

  /** A word that is neither a particle nor in the dictionary, and that no
      postposition can be split off, is left to the phonetic engine. */
  lemma RulesAsLastResort(dict: map<string, string>, word: string, ctx: Context)
    requires Particle(Lower(word)).None? && Lower(word) !in dict
    requires |word| <= 3 || SplitSuffix(Lower(word)).None?
    ensures TransliterateWord(dict, word, ctx) == Rules(word)
  {
    assert Lower(word) != "ma" && Lower(word) != "hun";
  }

  /** A longer word outside the dictionary that ends with a postposition is
      rendered as its stem followed by the postposition, both resolved in the
      word's own context; the stem keeps the original letters. */
  lemma SplitRendersStemThenSuffix(dict: map<string, string>, word: string, ctx: Context)
    requires |word| > 3 && Lower(word) !in dict && SplitSuffix(Lower(word)).Some?
    ensures var s := SplitSuffix(Lower(word)).value;
            && s == Lower(word)[|word| - |s|..]
            && 2 <= |word| - |s| < |word|
            && TransliterateWord(dict, word, ctx)
               == TransliterateWord(dict, word[..|word| - |s|], ctx) + TransliterateWord(dict, s, ctx)
  {
    SplitSuffixSplits(Lower(word));
    assert Lower(word) != "ma";
  }

  /** Because the postposition inherits the word's context, a split-off `ma`
      at the start of a sentence is read as the pronoun म, not as मा. */
  lemma SplitMaAtSentenceStart(dict: map<string, string>, word: string, prev: string)
    requires |word| > 3 && Lower(word) !in dict && SplitSuffix(Lower(word)) == Some("ma")
    ensures TransliterateWord(dict, word, Context(true, prev))
            == TransliterateWord(dict, word[..|word| - 2], Context(true, prev)) + "म"
  {
    SplitRendersStemThenSuffix(dict, word, Context(true, prev));
    MaAtSentenceStart(dict, "ma", prev);
  }

  // ---------------------------------------------------------------------------
  // Output alphabet
  // ---------------------------------------------------------------------------

  lemma ParticlesNoLatin()
    ensures forall p :: Particle(p).Some? ==> NoLatin(Particle(p).value)
  {
  }

  /** When the dictionary writes no Latin letter, neither does the resolver:
      every branch ends in a fixed Devanagari word, a dictionary entry or
      the phonetic engine. */
  lemma {:induction false} TransliterateWordNoLatin(dict: map<string, string>, word: string, ctx: Context)
    requires forall k :: k in dict ==> NoLatin(dict[k])
    ensures NoLatin(TransliterateWord(dict, word, ctx))
    decreases |word|, 1
  {
    var lw := Lower(word);
    if word == "" {
    } else if lw == "ma" && MaIsPronoun(ctx) {
      assert TransliterateWord(dict, word, ctx) == "म";
    } else if |word| > 3 && lw !in dict && SplitSuffix(lw).Some? {
      SplitNoLatin(dict, word, ctx);
    } else if lw == "hun" && HunIsFirstPerson(ctx) {
      assert TransliterateWord(dict, word, ctx) == "हुँ";
    } else if Particle(lw).Some? {
      ParticlesNoLatin();
    } else if lw in dict {
    } else {
      RulesNoLatin(word);
    }
  }

  /** The split branch: both halves are rendered without Latin letters. */
  lemma {:induction false} SplitNoLatin(dict: map<string, string>, word: string, ctx: Context)
    requires forall k :: k in dict ==> NoLatin(dict[k])
    requires word != "" && !(Lower(word) == "ma" && MaIsPronoun(ctx))
    requires |word| > 3 && Lower(word) !in dict && SplitSuffix(Lower(word)).Some?
    ensures NoLatin(TransliterateWord(dict, word, ctx))
    decreases |word|, 0
  {
    var s := SplitSuffix(Lower(word)).value;
    var stem := TransliterateWord(dict, word[..|word| - |s|], ctx);
    var tail := TransliterateWord(dict, s, ctx);
    TransliterateWordNoLatin(dict, word[..|word| - |s|], ctx);
    TransliterateWordNoLatin(dict, s, ctx);
    NoLatinAppend(stem, tail);
    assert TransliterateWord(dict, word, ctx) == stem + tail;
  }
}
