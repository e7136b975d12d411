/** The fixed tables of the transliterator (consonant, vowel and punctuation
    patterns, the postposition and context word lists) and the two
    first-match scanners over the pattern tables. */
module Tables {
  import opened TextUtil

  datatype Option<T> = None | Some(value: T)

  const HALANT: string := "्"
  const CHANDRABINDU: string := "ँ"

  /** One row of a pattern table: a Roman pattern and what it stands for. */
  datatype Entry<V> = Entry(pattern: string, value: V)

  /** The two written forms of a vowel: standing alone and as a matra. */
  datatype VowelForms = VowelForms(independent: string, matra: string)

  // Consonant table, in the source's groups.
  const CONSONANTS_4: seq<Entry<string>> := [
    Entry("nchh", "न्छ"), Entry("cchh", "च्छ")
  ]
  const CONSONANTS_3: seq<Entry<string>> := [
    Entry("chh", "छ"), Entry("ksh", "क्ष"), Entry("gya", "ज्ञ"), Entry("gny", "ज्ञ"),
    Entry("jny", "ज्ञ"), Entry("shr", "श्र"), Entry("shw", "श्व"), Entry("tra", "त्र")
  ]
  const CONSONANTS_ASPIRATED: seq<Entry<string>> := [
    Entry("kh", "ख"), Entry("gh", "घ"), Entry("ch", "च"), Entry("jh", "झ"),
    Entry("th", "थ"), Entry("dh", "ध"), Entry("ph", "फ"), Entry("bh", "भ"),
    Entry("sh", "श"), Entry("ng", "ङ"), Entry("ny", "ञ"), Entry("xa", "छ")
  ]
  const CONSONANTS_DOUBLE: seq<Entry<string>> := [
    Entry("kk", "क्क"), Entry("gg", "ग्ग"), Entry("cc", "च्च"), Entry("jj", "ज्ज"),
    Entry("tt", "त्त"), Entry("dd", "द्द"), Entry("nn", "न्न"), Entry("pp", "प्प"),
    Entry("bb", "ब्ब"), Entry("mm", "म्म"), Entry("yy", "य्य"), Entry("rr", "र्र"),
    Entry("ll", "ल्ल"), Entry("ss", "स्स")
  ]
  const CONSONANTS_1: seq<Entry<string>> := [
    Entry("k", "क"), Entry("g", "ग"), Entry("c", "च"), Entry("j", "ज"),
    Entry("t", "त"), Entry("d", "द"), Entry("n", "न"), Entry("p", "प"),
    Entry("b", "ब"), Entry("m", "म"), Entry("y", "य"), Entry("r", "र"),
    Entry("l", "ल"), Entry("w", "व"), Entry("v", "व"), Entry("s", "स"),
    Entry("h", "ह"), Entry("q", "क"), Entry("x", "छ"), Entry("z", "ज"),
    Entry("f", "फ")
  ]
  const CONSONANTS: seq<Entry<string>> :=
    CONSONANTS_4 + CONSONANTS_3 + CONSONANTS_ASPIRATED + CONSONANTS_DOUBLE + CONSONANTS_1

  // Vowel table, in the source's groups.
  const VOWELS_3: seq<Entry<VowelForms>> := [
    Entry("aai", VowelForms("आइ", "ाइ")), Entry("aau", VowelForms("आउ", "ाउ")),
    Entry("aae", VowelForms("आए", "ाए")), Entry("aao", VowelForms("आओ", "ाओ"))
  ]
  const VOWELS_2: seq<Entry<VowelForms>> := [
    Entry("aa", VowelForms("आ", "ा")), Entry("ai", VowelForms("ऐ", "ै")),
    Entry("au", VowelForms("औ", "ौ")), Entry("ou", VowelForms("औ", "ौ")),
    Entry("ee", VowelForms("ई", "ी")), Entry("ii", VowelForms("ई", "ी")),
    Entry("oo", VowelForms("ऊ", "ू")), Entry("uu", VowelForms("ऊ", "ू")),
    Entry("ri", VowelForms("ऋ", "ृ"))
  ]
  const VOWELS_1: seq<Entry<VowelForms>> := [
    Entry("a", VowelForms("अ", "")), Entry("i", VowelForms("इ", "ि")),
    Entry("u", VowelForms("उ", "ु")), Entry("e", VowelForms("ए", "े")),
    Entry("o", VowelForms("ओ", "ो"))
  ]
  const VOWELS: seq<Entry<VowelForms>> := VOWELS_3 + VOWELS_2 + VOWELS_1

  const PUNCTUATION: map<char, string> := map[
    '.' := "।", ',' := ",", '?' := "?", '!' := "!", ';' := ";", ':' := ":",
    '-' := "-", '(' := "(", ')' := ")", '[' := "[", ']' := "]", '"' := "\"",
    '\'' := "'", '…' := "..."
  ]

  /** Postpositions that attach to the preceding word. */
  const JOINING_SUFFIXES: set<string> := {
    "ko", "ka", "lai", "le", "bata", "dekhi", "sanga", "sangai",
    "haru", "haruko", "harulai", "haruma", "harule", "bhanda", "ma"
  }

  /** JOINING_SUFFIXES listed longest first, the order in which a joined word
      is tried against them. */
  const JOINING_SUFFIXES_BY_LENGTH: seq<string> := [
    "harulai", "haruko", "haruma", "harule", "sangai", "bhanda",
    "dekhi", "sanga", "bata", "haru", "lai", "ko", "ka", "le", "ma"
  ]

  /** Words after which a following "ma" is the pronoun, by word ending. */
  const MA_AS_PRONOUN_AFTER: set<string> := {
    "ra", "tara", "ani", "athawa", "bhane", "ki", "ke",
    "chha", "chhan", "chhu", "ho", "jab", "yadi", "agar"
  }

  /** Words that never take a following postposition. */
  const NO_JOIN_WORDS: set<string> := {
    "ra", "tara", "ani", "athawa", "ki", "ke", "ho", "chha", "chhan", "chhu"
  }

  /** Word pairs that are always written together. */
  const COMPOUND_PAIRS: map<(string, string), bool> := map[
    ("kina", "bhane") := true, ("sabai", "bhanda") := true, ("kinaki", "bhane") := true
  ]

  /** Words after which "ma" is the pronoun, by whole word. */
  const MA_PRONOUN_CONTEXT: set<string> := {
    "ra", "jab", "tara", "ani", "bhane", "ki", "kinaki", "kinabhane", ","
  }

  // ---------------------------------------------------------------------------
  // Table shape
  // ---------------------------------------------------------------------------

  /** The ordering invariant of a pattern table: when pattern A is a strict
      prefix of pattern B, B comes first. */
  ghost predicate LongestFirst<V>(t: seq<Entry<V>>)
  {
    forall i, j :: 0 <= i < j < |t| ==> !(t[i].pattern < t[j].pattern)
  }

  ghost predicate NonEmptyPatterns<V>(t: seq<Entry<V>>)
  {
    forall i :: 0 <= i < |t| ==> |t[i].pattern| > 0
  }

  ghost predicate Uniform<V>(t: seq<Entry<V>>, k: nat)
  {
    forall i :: 0 <= i < |t| ==> |t[i].pattern| == k
  }

  ghost predicate AtLeast<V>(t: seq<Entry<V>>, k: nat)
  {
    forall i :: 0 <= i < |t| ==> |t[i].pattern| >= k
  }

  ghost predicate LengthsNonIncreasing<V>(t: seq<Entry<V>>)
  {
    forall i, j :: 0 <= i < j < |t| ==> |t[i].pattern| >= |t[j].pattern|
  }

  /** Appending a group of k-letter patterns to a table whose patterns are
      at least k long keeps the lengths non-increasing. */
  lemma AppendGroup<V>(t: seq<Entry<V>>, k: nat, g: seq<Entry<V>>)
    requires LengthsNonIncreasing(t) && AtLeast(t, k) && Uniform(g, k)
    ensures LengthsNonIncreasing(t + g) && AtLeast(t + g, k)
  {
    var u := t + g;
    forall i, j | 0 <= i < j < |u|
      ensures |u[i].pattern| >= |u[j].pattern|
    {
      if j < |t| {
      } else if i < |t| {
        assert u[j] == g[j - |t|];
      } else {
        assert u[i] == g[i - |t|] && u[j] == g[j - |t|];
      }
    }
  }

  /** A strict prefix is strictly shorter, so non-increasing lengths give the
      longest-first invariant. */
  lemma NonIncreasingIsLongestFirst<V>(t: seq<Entry<V>>)
    requires LengthsNonIncreasing(t)
    ensures LongestFirst(t)
  {
  }

  lemma LongConsonantGroupsUniform()
    ensures Uniform(CONSONANTS_4, 4) && Uniform(CONSONANTS_3, 3) && Uniform(CONSONANTS_ASPIRATED, 2)
  {
  }

  lemma ShortConsonantGroupsUniform()
    ensures Uniform(CONSONANTS_DOUBLE, 2) && Uniform(CONSONANTS_1, 1)
  {
  }

  /** CONSONANTS is ordered longest first and has no empty pattern. */
  lemma {:induction false} ConsonantTableShape()
    ensures LongestFirst(CONSONANTS) && NonEmptyPatterns(CONSONANTS)
  {
    LongConsonantGroupsUniform();
    ShortConsonantGroupsUniform();
    AppendGroup(CONSONANTS_4, 3, CONSONANTS_3);
    AppendGroup(CONSONANTS_4 + CONSONANTS_3, 2, CONSONANTS_ASPIRATED);
    AppendGroup(CONSONANTS_4 + CONSONANTS_3 + CONSONANTS_ASPIRATED, 2, CONSONANTS_DOUBLE);
    AppendGroup(CONSONANTS_4 + CONSONANTS_3 + CONSONANTS_ASPIRATED + CONSONANTS_DOUBLE, 1, CONSONANTS_1);
    NonIncreasingIsLongestFirst(CONSONANTS);
  }

  /** VOWELS is ordered longest first and has no empty pattern. */
  lemma {:induction false} VowelTableShape()
    ensures LongestFirst(VOWELS) && NonEmptyPatterns(VOWELS)
  {
    assert Uniform(VOWELS_3, 3) && Uniform(VOWELS_2, 2) && Uniform(VOWELS_1, 1);
    AppendGroup(VOWELS_3, 2, VOWELS_2);
    AppendGroup(VOWELS_3 + VOWELS_2, 1, VOWELS_1);
    NonIncreasingIsLongestFirst(VOWELS);
  }

  // ---------------------------------------------------------------------------
  // First-match scanning
  // ---------------------------------------------------------------------------

  /** `text[pos:].lower()` */
  function RestLower(text: string, pos: nat): (r: string)
    ensures pos <= |text| ==> |r| == |text| - pos
  {
    if pos <= |text| then Lower(text[pos..]) else []
  }

  /** Whether the letters of `p` from its `j`-th on match the lower-cased
      text at the same offsets from `pos`. */
  predicate MatchesFrom(p: string, text: string, pos: nat, j: nat)
    requires j <= |p|
    decreases |p| - j
  {
    j == |p| || (pos + j < |text| && LowerChar(text[pos + j]) == p[j] && MatchesFrom(p, text, pos, j + 1))
  }

  /** `text[pos:].lower().startswith(p)`, checked letter by letter. */
  predicate MatchesAt(p: string, text: string, pos: nat)
  {
    MatchesFrom(p, text, pos, 0)
  }

  lemma {:induction false} MatchesFromLetters(p: string, text: string, pos: nat, j: nat)
    requires j <= |p|
    ensures MatchesFrom(p, text, pos, j) <==>
              (j < |p| ==> pos + |p| <= |text|) && forall q :: j <= q < |p| ==> LowerChar(text[pos + q]) == p[q]
    decreases |p| - j
  {
    if j < |p| {
      MatchesFromLetters(p, text, pos, j + 1);
    }
  }

  /** A non-empty pattern that matches at `pos` fits in the text. */
  lemma MatchesAtFits(p: string, text: string, pos: nat)
    requires MatchesAt(p, text, pos) && p != []
    ensures pos + |p| <= |text|
  {
    MatchesFromLetters(p, text, pos, 0);
  }

  /** The letter-by-letter test is the source's `startswith` on the
      lower-cased rest of the text. */
  lemma MatchesAtIsStartsWith(p: string, text: string, pos: nat)
    ensures MatchesAt(p, text, pos) <==> p <= RestLower(text, pos)
  {
    MatchesFromLetters(p, text, pos, 0);
    var rest := RestLower(text, pos);
    if pos <= |text| {
      forall q | 0 <= q < |rest|
        ensures rest[q] == LowerChar(text[pos + q])
      {
        LowerAt(text[pos..], q);
      }
    }
  }

  /** Index of the first row, from `k` on, whose pattern matches at `pos`. */
  function FirstMatchFrom<V>(t: seq<Entry<V>>, text: string, pos: nat, k: nat): (m: Option<nat>)
    requires k <= |t|
    ensures m.Some? ==> k <= m.value < |t| && MatchesAt(t[m.value].pattern, text, pos)
    decreases |t| - k
  {
    if k == |t| then None
    else if MatchesAt(t[k].pattern, text, pos) then Some(k)
    else FirstMatchFrom(t, text, pos, k + 1)
  }

  /** FirstMatchFrom skips only rows that do not match, and returns nothing
      only when no row from `k` on matches. */
  lemma {:induction false} FirstMatchFromIsFirst<V>(t: seq<Entry<V>>, text: string, pos: nat, k: nat)
    requires k <= |t|
    ensures FirstMatchFrom(t, text, pos, k).Some? ==>
              forall q :: k <= q < FirstMatchFrom(t, text, pos, k).value ==> !MatchesAt(t[q].pattern, text, pos)
    ensures FirstMatchFrom(t, text, pos, k).None? ==>
              forall q :: k <= q < |t| ==> !MatchesAt(t[q].pattern, text, pos)
    decreases |t| - k
  {
    if k < |t| && !MatchesAt(t[k].pattern, text, pos) {
      FirstMatchFromIsFirst(t, text, pos, k + 1);
    }
  }

  /** Two prefixes of one string: the shorter is a prefix of the longer. */
  lemma PrefixesAreNested(p: string, q: string, s: string)
    requires p <= s && q <= s && |p| < |q|
    ensures p < q
  {
    assert q[..|p|] == s[..|p|] == p;
  }

  /** In a longest-first table the first match is a longest match. */
  lemma FirstMatchIsLongest<V>(t: seq<Entry<V>>, text: string, pos: nat)
    requires LongestFirst(t)
    requires FirstMatchFrom(t, text, pos, 0).Some?
    ensures forall q :: 0 <= q < |t| && MatchesAt(t[q].pattern, text, pos) ==>
      |t[q].pattern| <= |t[FirstMatchFrom(t, text, pos, 0).value].pattern|
  {
    var i := FirstMatchFrom(t, text, pos, 0).value;
    FirstMatchFromIsFirst(t, text, pos, 0);
    forall q | 0 <= q < |t| && MatchesAt(t[q].pattern, text, pos)
      ensures |t[q].pattern| <= |t[i].pattern|
    {
      if |t[q].pattern| > |t[i].pattern| {
        MatchesAtIsStartsWith(t[i].pattern, text, pos);
        MatchesAtIsStartsWith(t[q].pattern, text, pos);
        PrefixesAreNested(t[i].pattern, t[q].pattern, RestLower(text, pos));
      }
    }
  }

  /** `match_consonant` / `match_vowel` over table `t`: the first row whose
      pattern starts the lower-cased rest of `text`; `None` stands for the
      source's all-empty result. */
  function MatchIn<V>(t: seq<Entry<V>>, text: string, pos: nat): (m: Option<Entry<V>>)
    requires NonEmptyPatterns(t)
    ensures m.Some? ==> m.value in t && 0 < |m.value.pattern|
    ensures m.Some? ==> pos + |m.value.pattern| <= |text|
  {
    match FirstMatchFrom(t, text, pos, 0)
    case None => None
    case Some(i) =>
      MatchesAtFits(t[i].pattern, text, pos);
      Some(t[i])
  }

  /** The row MatchIn returns matches at `pos`. */
  lemma MatchInMatches<V>(t: seq<Entry<V>>, text: string, pos: nat)
    requires NonEmptyPatterns(t)
    ensures MatchIn(t, text, pos).Some? ==> MatchesAt(MatchIn(t, text, pos).value.pattern, text, pos)
  {
  }

  /** The row MatchIn returns starts the lower-cased rest of the text. */
  lemma MatchInPrefix<V>(t: seq<Entry<V>>, text: string, pos: nat)
    requires NonEmptyPatterns(t)
    ensures MatchIn(t, text, pos).Some? ==> MatchIn(t, text, pos).value.pattern <= RestLower(text, pos)
  {
    if MatchIn(t, text, pos).Some? {
      MatchesAtIsStartsWith(MatchIn(t, text, pos).value.pattern, text, pos);
    }
  }

  /** MatchIn returns nothing exactly when no row of `t` matches. */
  lemma MatchInNone<V>(t: seq<Entry<V>>, text: string, pos: nat)
    requires NonEmptyPatterns(t)
    ensures MatchIn(t, text, pos).None? <==> forall e :: e in t ==> !(e.pattern <= RestLower(text, pos))
  {
    FirstMatchFromIsFirst(t, text, pos, 0);
    forall e | e in t
      ensures MatchesAt(e.pattern, text, pos) <==> e.pattern <= RestLower(text, pos)
    {
      MatchesAtIsStartsWith(e.pattern, text, pos);
    }
    if MatchIn(t, text, pos).Some? {
      MatchInMatches(t, text, pos);
    }
  }

  /** In a longest-first table the row MatchIn returns is a longest match. */
  lemma MatchInIsLongest<V>(t: seq<Entry<V>>, text: string, pos: nat)
    requires NonEmptyPatterns(t) && LongestFirst(t)
    ensures MatchIn(t, text, pos).Some? ==>
              forall e :: e in t && e.pattern <= RestLower(text, pos) ==>
                |e.pattern| <= |MatchIn(t, text, pos).value.pattern|
  {
    if FirstMatchFrom(t, text, pos, 0).Some? {
      FirstMatchIsLongest(t, text, pos);
      forall e | e in t && e.pattern <= RestLower(text, pos)
        ensures |e.pattern| <= |MatchIn(t, text, pos).value.pattern|
      {
        MatchesAtIsStartsWith(e.pattern, text, pos);
        var q :| 0 <= q < |t| && t[q] == e;
      }
    }
  }

  /** `c in 'aeiou'`. */
  predicate IsVowelLetter(c: char)
  {
    c == 'a' || c == 'e' || c == 'i' || c == 'o' || c == 'u'
  }

  /** `c in 'bcdfghjklmnpqrstvwxyz'`: the lower-case Latin letters that are
      not vowels. */
  predicate IsConsonantLetter(c: char)
  {
    'a' <= c <= 'z' && !IsVowelLetter(c)
  }

  /** A row whose pattern is the single lower-cased letter at `pos`
      guarantees a match there. */
  lemma LetterRowMatches<V>(t: seq<Entry<V>>, text: string, pos: nat, k: nat)
    requires NonEmptyPatterns(t) && pos < |text| && k < |t|
    requires t[k].pattern == [LowerChar(text[pos])]
    ensures MatchIn(t, text, pos).Some?
  {
    assert MatchesFrom(t[k].pattern, text, pos, 1);
    FirstMatchFromIsFirst(t, text, pos, 0);
  }

  /** CONSONANTS_1 lists the single consonant letters in this order. */
  const SINGLE_CONSONANT_LETTERS: string := "kgcjtdnpbmyrlwvshqxzf"

  lemma SingleConsonantPatterns()
    ensures |CONSONANTS_1| == |SINGLE_CONSONANT_LETTERS|
    ensures forall i :: 0 <= i < |CONSONANTS_1| ==> CONSONANTS_1[i].pattern == [SINGLE_CONSONANT_LETTERS[i]]
  {
  }

  /** Every consonant letter has a one-letter row in CONSONANTS. */
  lemma ConsonantLetterRow(c: char) returns (k: nat)
    requires IsConsonantLetter(c)
    ensures k < |CONSONANTS| && CONSONANTS[k].pattern == [c]
  {
    SingleConsonantPatterns();
    assert c in SINGLE_CONSONANT_LETTERS;
    var i :| 0 <= i < |SINGLE_CONSONANT_LETTERS| && SINGLE_CONSONANT_LETTERS[i] == c;
    k := |CONSONANTS| - |CONSONANTS_1| + i;
    assert CONSONANTS[k] == CONSONANTS_1[i];
  }

  /** Every vowel letter has a one-letter row in VOWELS. */
  lemma VowelLetterRow(c: char) returns (k: nat)
    requires IsVowelLetter(c)
    ensures k < |VOWELS| && VOWELS[k].pattern == [c]
  {
    var letters := "aiueo";  // VOWELS_1 in table order
    assert forall i :: 0 <= i < |VOWELS_1| ==> VOWELS_1[i].pattern == [letters[i]];
    assert c in letters;
    var i :| 0 <= i < |letters| && letters[i] == c;
    k := |VOWELS| - |VOWELS_1| + i;
    assert VOWELS[k] == VOWELS_1[i];
  }

  // ---------------------------------------------------------------------------
  // Facts about particular rows
  // ---------------------------------------------------------------------------

  /** No character of `s` is a Latin letter. */
  predicate NoLatin(s: string)
  {
    forall i :: 0 <= i < |s| ==> !IsAsciiLetter(s[i])
  }

  /** Every row's Devanagari base is free of Latin letters. */
  ghost predicate ValuesNoLatin(t: seq<Entry<string>>)
  {
    forall i :: 0 <= i < |t| ==> NoLatin(t[i].value)
  }

  /** The consonant rows whose pattern begins with `n`. */
  predicate IsNRow(e: Entry<string>)
  {
    e == Entry("nchh", "न्छ") || e == Entry("ng", "ङ") || e == Entry("ny", "ञ")
    || e == Entry("nn", "न्न") || e == Entry("n", "न")
  }

  ghost predicate NRowsListed(t: seq<Entry<string>>)
  {
    forall i :: 0 <= i < |t| && 0 < |t[i].pattern| && t[i].pattern[0] == 'n' ==> IsNRow(t[i])
  }

  lemma ValuesNoLatinAppend(a: seq<Entry<string>>, b: seq<Entry<string>>)
    requires ValuesNoLatin(a) && ValuesNoLatin(b)
    ensures ValuesNoLatin(a + b)
  {
  }

  lemma NRowsListedAppend(a: seq<Entry<string>>, b: seq<Entry<string>>)
    requires NRowsListed(a) && NRowsListed(b)
    ensures NRowsListed(a + b)
  {
  }

  // The literal groups are checked a few at a time to keep each proof small.

  lemma LongConsonantGroupsNoLatin()
    ensures ValuesNoLatin(CONSONANTS_4) && ValuesNoLatin(CONSONANTS_3) && ValuesNoLatin(CONSONANTS_ASPIRATED)
  {
  }

  lemma DoubleConsonantGroupNoLatin()
    ensures ValuesNoLatin(CONSONANTS_DOUBLE)
  {
  }

  lemma SingleConsonantGroupNoLatin()
    ensures ValuesNoLatin(CONSONANTS_1)
  {
  }

  lemma LongConsonantGroupsNRows()
    ensures NRowsListed(CONSONANTS_4) && NRowsListed(CONSONANTS_3) && NRowsListed(CONSONANTS_ASPIRATED)
  {
  }

  lemma DoubleConsonantGroupNRows()
    ensures NRowsListed(CONSONANTS_DOUBLE)
  {
  }

  lemma SingleConsonantGroupNRows()
    ensures NRowsListed(CONSONANTS_1)
  {
  }

  /** Every base the consonant table writes is free of Latin letters. */
  lemma ConsonantTableNoLatin()
    ensures ValuesNoLatin(CONSONANTS)
  {
    LongConsonantGroupsNoLatin();
    DoubleConsonantGroupNoLatin();
    SingleConsonantGroupNoLatin();
    ValuesNoLatinAppend(CONSONANTS_4, CONSONANTS_3);
    ValuesNoLatinAppend(CONSONANTS_4 + CONSONANTS_3, CONSONANTS_ASPIRATED);
    ValuesNoLatinAppend(CONSONANTS_4 + CONSONANTS_3 + CONSONANTS_ASPIRATED, CONSONANTS_DOUBLE);
    ValuesNoLatinAppend(CONSONANTS_4 + CONSONANTS_3 + CONSONANTS_ASPIRATED + CONSONANTS_DOUBLE, CONSONANTS_1);
  }

  /** The only consonant rows whose pattern begins with `n` are `nchh`,
      `ng`, `ny`, `nn` and `n`. */
  lemma ConsonantTableNRows()
    ensures NRowsListed(CONSONANTS)
  {
    LongConsonantGroupsNRows();
    DoubleConsonantGroupNRows();
    SingleConsonantGroupNRows();
    NRowsListedAppend(CONSONANTS_4, CONSONANTS_3);
    NRowsListedAppend(CONSONANTS_4 + CONSONANTS_3, CONSONANTS_ASPIRATED);
    NRowsListedAppend(CONSONANTS_4 + CONSONANTS_3 + CONSONANTS_ASPIRATED, CONSONANTS_DOUBLE);
    NRowsListedAppend(CONSONANTS_4 + CONSONANTS_3 + CONSONANTS_ASPIRATED + CONSONANTS_DOUBLE, CONSONANTS_1);
  }

  /** Every row's independent form and matra are free of Latin letters. */
  ghost predicate FormsNoLatin(t: seq<Entry<VowelForms>>)
  {
    forall i :: 0 <= i < |t| ==> NoLatin(t[i].value.independent) && NoLatin(t[i].value.matra)
  }

  lemma FormsNoLatinAppend(a: seq<Entry<VowelForms>>, b: seq<Entry<VowelForms>>)
    requires FormsNoLatin(a) && FormsNoLatin(b)
    ensures FormsNoLatin(a + b)
  {
  }

  lemma LongVowelGroupsNoLatin()
    ensures FormsNoLatin(VOWELS_3) && FormsNoLatin(VOWELS_2)
  {
  }

  lemma SingleVowelGroupNoLatin()
    ensures FormsNoLatin(VOWELS_1)
  {
  }

  /** Every form the vowel table writes is free of Latin letters. */
  lemma VowelTableNoLatin()
    ensures FormsNoLatin(VOWELS)
  {
    LongVowelGroupsNoLatin();
    SingleVowelGroupNoLatin();
    FormsNoLatinAppend(VOWELS_3, VOWELS_2);
    FormsNoLatinAppend(VOWELS_3 + VOWELS_2, VOWELS_1);
  }
}
