# Nepali romanizer: a verified model of the transliterator

The repository converts Roman-script Nepali ("ma ghar ma chhu") into
Devanagari (म घरमा छु) with fixed rules and no learning at run time. This
project models its core, `transliterator.py`, in Dafny and proves properties
of the model. The core has five parts, and each is a module here:

- **Tables** (`tables.dfy`): the consonant, vowel and punctuation tables
  and the word lists. It also holds the first-match scanners
  `match_consonant` and `match_vowel`. Both tables are proved to be ordered
  longest first, so the first match is a longest match.
- **Phonetic** (`phonetic.dfy`): the engine `transliterate_word_rules`, a
  loop that writes one consonant, matra, halant, independent vowel or
  chandrabindu per step. It also holds `should_nasalize`.
  - Each loop step is specified by the function `Step`, and the whole pass
    by `RulesFrom`.
  - The method with the source's `while` loop is proved equal to them.
- **Resolver** (`resolver.dfy`): `transliterate_word`, the chain of checks
  for a word. The order is: the pronoun `ma`, splitting off a postposition,
  the verb `hun`, the fixed particles, the word dictionary, and finally the
  engine.
- **Joining** (`joining.dfy`): `should_join`, the pair rule. The driver
  does not call it.
- **Tokenizer** (`tokenizer.dfy`) and **Driver** (`driver.dfy`): the class
  `NepaliTransliterator`.
  - `_tokenize` cuts text into word, space and punctuation tokens.
  - `transliterate` walks the tokens. It joins a word with the
    postpositions that follow it after one space, maps punctuation, and
    tracks whether a sentence has just started and which word came before.
  - `_get_cached` keeps one rendering per lower-cased word in the object's
    cache.
  - The class is a Dafny `class` with a `cache` field. Its methods keep the
    source's loops and are proved equal to the functions `Tokens`, `Drive`,
    `RenderUnit` and `Cached`.

The word dictionary `WORD_DICT` is loaded from a module outside the core.
Here it is a parameter `dict: map<string, string>`; in the class it is a
constant field.

Line numbers below refer to
`nepali_romanizer/src/nepali_romanizer/transliterator.py`.

## Model

| member | source | states |
|---|---|---|
| TextUtil.LowerChar | nepali_romanizer/src/nepali_romanizer/transliterator.py:532 | `lower()` on one character: the result is never an ASCII capital, a letter stays a letter at the same place in the alphabet and a non-letter stays a non-letter, and only capitals change |
| TextUtil.LowerCharIdempotent | nepali_romanizer/src/nepali_romanizer/transliterator.py:532 | lower-casing twice is lower-casing once |
| TextUtil.RStrip | nepali_romanizer/src/nepali_romanizer/transliterator.py:542 | `rstrip(chars)` returns a prefix of the input that does not end in one of `chars`, and everything it removed is in `chars` |
| Tables.ConsonantTableShape | nepali_romanizer/src/nepali_romanizer/transliterator.py:38-105 | CONSONANTS has no empty pattern and is longest first: no pattern is listed before a longer pattern that it is a prefix of (`chh` before `ch` before `c`) |
| Tables.VowelTableShape | nepali_romanizer/src/nepali_romanizer/transliterator.py:109-133 | VOWELS has no empty pattern and is longest first (`aai` before `aa` before `a`) |
| Tables.AppendGroup | nepali_romanizer/src/nepali_romanizer/transliterator.py:38-105 | adding a group of k-letter patterns after patterns of at least k letters keeps lengths non-increasing, as the table's groups are laid out |
| Tables.NonIncreasingIsLongestFirst | nepali_romanizer/src/nepali_romanizer/transliterator.py:35 | a table whose pattern lengths never grow is ordered longest first |
| Tables.RestLower | nepali_romanizer/src/nepali_romanizer/transliterator.py:221 | `text[pos:].lower()` has the length of the rest of the text |
| Tables.MatchesFromLetters | nepali_romanizer/src/nepali_romanizer/transliterator.py:223 | the letter-by-letter prefix test holds exactly when the pattern fits and every letter equals the lower-cased text at its offset |
| Tables.MatchesAtIsStartsWith | nepali_romanizer/src/nepali_romanizer/transliterator.py:221-223 | the letter-by-letter test is `text[pos:].lower().startswith(pattern)` |
| Tables.FirstMatchFrom | nepali_romanizer/src/nepali_romanizer/transliterator.py:222-224 | the row index returned is in range and its pattern matches at `pos` |
| Tables.FirstMatchFromIsFirst | nepali_romanizer/src/nepali_romanizer/transliterator.py:222-225 | every row before the one returned does not match, and no row is returned only when no row matches |
| Tables.FirstMatchIsLongest | nepali_romanizer/src/nepali_romanizer/transliterator.py:222-224 | in a longest-first table the first matching row is a longest matching row |
| Tables.MatchIn | nepali_romanizer/src/nepali_romanizer/transliterator.py:219-233 | `match_consonant`/`match_vowel`: a returned row is a row of the table with a non-empty pattern that fits in the text |
| Tables.MatchInMatches | nepali_romanizer/src/nepali_romanizer/transliterator.py:222-224 | the returned row matches at `pos` |
| Tables.MatchInPrefix | nepali_romanizer/src/nepali_romanizer/transliterator.py:221-224 | the returned pattern starts the lower-cased rest of the text |
| Tables.MatchInNone | nepali_romanizer/src/nepali_romanizer/transliterator.py:222-225 | nothing is returned (the source's `None, None, 0`) exactly when no pattern of the table starts the lower-cased rest |
| Tables.MatchInIsLongest | nepali_romanizer/src/nepali_romanizer/transliterator.py:219-233 | in a longest-first table the returned pattern is at least as long as every pattern that starts the lower-cased rest |
| Tables.LetterRowMatches | nepali_romanizer/src/nepali_romanizer/transliterator.py:221-224 | a row whose pattern is the lower-cased letter at `pos` guarantees a match there |
| Tables.SingleConsonantPatterns | nepali_romanizer/src/nepali_romanizer/transliterator.py:84-104 | the single-consonant rows are the letters `kgcjtdnpbmyrlwvshqxzf`, in that order |
| Tables.ConsonantLetterRow | nepali_romanizer/src/nepali_romanizer/transliterator.py:84-104 | every letter `is_consonant_char` accepts has a one-letter row in CONSONANTS |
| Tables.VowelLetterRow | nepali_romanizer/src/nepali_romanizer/transliterator.py:128-132 | every letter `is_vowel_char` accepts has a one-letter row in VOWELS |
| Tables.ConsonantTableNoLatin | nepali_romanizer/src/nepali_romanizer/transliterator.py:38-105 | no Devanagari base in CONSONANTS holds a Latin letter |
| Tables.ConsonantTableNRows | nepali_romanizer/src/nepali_romanizer/transliterator.py:38-105 | the only consonant rows that begin with `n` are `nchh`, `ng`, `ny`, `nn` and `n` |
| Tables.VowelTableNoLatin | nepali_romanizer/src/nepali_romanizer/transliterator.py:109-133 | no independent form or matra in VOWELS holds a Latin letter |
| Phonetic.PostpositionTailIsListed | nepali_romanizer/src/nepali_romanizer/transliterator.py:454 | the letter-by-letter test is membership in `('ma', 'ko', 'ka', 'ki', 'lai', 'le')` |
| Phonetic.PostpositionTailAtIsListed | nepali_romanizer/src/nepali_romanizer/transliterator.py:450-454 | the test on the word is "the lower-cased rest after the `a` is one of those six endings" |
| Phonetic.ShouldNasalize | nepali_romanizer/src/nepali_romanizer/transliterator.py:304-327 | `should_nasalize` holds only strictly inside the word: a word-initial or word-final `n` is never nasalized |
| Phonetic.NasalNeighbours | nepali_romanizer/src/nepali_romanizer/transliterator.py:309-327 | when it holds, the character is `n`, the one before is a vowel, and the one after is a consonant outside `ngykh` |
| Phonetic.RomanValid | nepali_romanizer/src/nepali_romanizer/transliterator.py:38-133 | the engine's tables have no empty pattern |
| Phonetic.Step | nepali_romanizer/src/nepali_romanizer/transliterator.py:410-510 | every loop iteration moves `pos` forward by at least one and stays within the word, so the pass ends |
| Phonetic.AfterConsonant | nepali_romanizer/src/nepali_romanizer/transliterator.py:422-495 | the same progress bound for the iterations that start with a consonant |
| Phonetic.VowelMatra | nepali_romanizer/src/nepali_romanizer/transliterator.py:446-476 | the method's sign after a consonant is the one the specification `VowelSign` gives |
| Phonetic.VowelSign | nepali_romanizer/src/nepali_romanizer/transliterator.py:446-476 | the sign after a consonant: `BareAMatra`, `FinalIMatra` and `AfterConsonantVowel` state its cases |
| Phonetic.EmitConsonant | nepali_romanizer/src/nepali_romanizer/transliterator.py:422-495 | the method's output and resume position after a consonant match are those of `AfterConsonant` |
| Phonetic.EmitAt | nepali_romanizer/src/nepali_romanizer/transliterator.py:410-510 | the method's output and resume position for one iteration are those of `Step` |
| Phonetic.TransliterateWordRules | nepali_romanizer/src/nepali_romanizer/transliterator.py:390-512 | the loop writes exactly `RulesFrom(word, 0)`, the steps' outputs one after another; with the source's tables this is `Rules(word)`; the empty word gives the empty string |
| Phonetic.RulesFrom | nepali_romanizer/src/nepali_romanizer/transliterator.py:390-512 | the engine's output from `pos`: each step's output in turn until the word is used up; its behaviour is stated by `RulesFromStep`, `PassThroughWordUnchanged`, `RulesFromNoLatin` and the step lemmas below |
| Phonetic.Rules | nepali_romanizer/src/nepali_romanizer/transliterator.py:390-512 | `transliterate_word_rules(word)`: the pass from position 0 with the source's tables; the method `TransliterateWordRules` computes it and `RulesNoLatin` proves it free of Latin letters |
| Phonetic.PassThroughCopied | nepali_romanizer/src/nepali_romanizer/transliterator.py:413-417 | a digit, a character above code point 127 or a bracket is copied, and the scan moves one character on |
| Phonetic.RulesFromStep | nepali_romanizer/src/nepali_romanizer/transliterator.py:409-512 | the output from `pos` is the step's output followed by the output from where the step resumes |
| Phonetic.PassThroughWordUnchanged | nepali_romanizer/src/nepali_romanizer/transliterator.py:413-417 | a word made only of such characters comes out unchanged |
| Phonetic.RomanLettersMatch | nepali_romanizer/src/nepali_romanizer/transliterator.py:38-133 | every ASCII letter starts a consonant or a vowel row |
| Phonetic.NoLatinAppend | nepali_romanizer/src/nepali_romanizer/transliterator.py:512 | joining two pieces without Latin letters gives a piece without Latin letters |
| Phonetic.AfterConsonantNoLatin | nepali_romanizer/src/nepali_romanizer/transliterator.py:422-495 | what a consonant iteration writes holds no Latin letter |
| Phonetic.StepNoLatin | nepali_romanizer/src/nepali_romanizer/transliterator.py:410-510 | no iteration writes a Latin letter when every letter starts a row |
| Phonetic.RulesFromNoLatin | nepali_romanizer/src/nepali_romanizer/transliterator.py:409-512 | no Latin letter survives the pass from `pos` |
| Phonetic.RulesNoLatin | nepali_romanizer/src/nepali_romanizer/transliterator.py:390-512 | the engine's output for any word holds no Latin letter |
| Phonetic.NasalStep | nepali_romanizer/src/nepali_romanizer/transliterator.py:420-428 | for any tables with the same `n` rows, a nasal `n` outside `nchh` becomes chandrabindu and consumes one character |
| Phonetic.NasalizedN | nepali_romanizer/src/nepali_romanizer/transliterator.py:424-428 | with the source's tables, a nasal `n` outside `nchh` becomes chandrabindu and consumes one character |
| Phonetic.NchhConjunct | nepali_romanizer/src/nepali_romanizer/transliterator.py:420-495 | `nchh` wins over the nasal `n`: the step is the consonant step on the `nchh` row, consumes at least the four letters, and its output starts with the conjunct न्छ (what follows depends on the next letters, as for any consonant) |
| Phonetic.NchhMatches | nepali_romanizer/src/nepali_romanizer/transliterator.py:219-225 | where `nchh` starts the rest, `match_consonant` returns the `nchh` row |
| Phonetic.NasalFallbackUnreachable | nepali_romanizer/src/nepali_romanizer/transliterator.py:503-506 | the `should_nasalize` fallback for a character no consonant matches can never fire with these tables |
| Phonetic.FinalConsonantBare | nepali_romanizer/src/nepali_romanizer/transliterator.py:433-438 | a consonant that ends the word is written as its bare base, with no halant |
| Phonetic.ClusterTakesHalant | nepali_romanizer/src/nepali_romanizer/transliterator.py:481-495 | a consonant followed directly by another consonant row is written with a halant, and the scan resumes at the second consonant |
| Phonetic.BareAMatra | nepali_romanizer/src/nepali_romanizer/transliterator.py:447-461 | a bare `a` after a consonant adds `ा` exactly when the rest is one of the six postposition endings, and nothing otherwise |
| Phonetic.FinalIMatra | nepali_romanizer/src/nepali_romanizer/transliterator.py:463-470 | a word-final single `i` after a consonant is ि in a word of at most two characters and ी otherwise |
| Phonetic.OnsetVowelIndependent | nepali_romanizer/src/nepali_romanizer/transliterator.py:496-502 | a vowel no consonant precedes is written in its independent form |
| Phonetic.AfterConsonantVowel | nepali_romanizer/src/nepali_romanizer/transliterator.py:441-479 | a consonant followed by a vowel row writes the base and the vowel's sign, and the scan resumes after the vowel |
| Phonetic.ConsonantMatchIsLongest | nepali_romanizer/src/nepali_romanizer/transliterator.py:219-225 | `match_consonant` returns a longest consonant pattern that starts the lower-cased rest, and nothing only when none does |
| Phonetic.VowelMatchIsLongest | nepali_romanizer/src/nepali_romanizer/transliterator.py:227-233 | `match_vowel` returns a longest vowel pattern that starts the lower-cased rest, and nothing only when none does |
| Resolver.FirstSplitFrom | nepali_romanizer/src/nepali_romanizer/transliterator.py:557-562 | the suffix index found is in range |
| Resolver.FirstSplitFromIsFirst | nepali_romanizer/src/nepali_romanizer/transliterator.py:557-562 | the suffix found splits the word, every suffix before it does not, and none is found only when none splits |
| Resolver.NeighboursOrdered | nepali_romanizer/src/nepali_romanizer/transliterator.py:556 | a list whose neighbours never grow in length is sorted by length, longest first |
| Resolver.SuffixListShape | nepali_romanizer/src/nepali_romanizer/transliterator.py:167-176 | the list tried is exactly JOINING_SUFFIXES, longest first, and every suffix has at least two letters |
| Resolver.SuffixSetListed | nepali_romanizer/src/nepali_romanizer/transliterator.py:167-176 | every member of JOINING_SUFFIXES is on the sorted list |
| Resolver.SuffixListInSet | nepali_romanizer/src/nepali_romanizer/transliterator.py:167-176 | every entry of the sorted list is a member of JOINING_SUFFIXES |
| Resolver.SuffixListLengths | nepali_romanizer/src/nepali_romanizer/transliterator.py:556 | the sorted list's lengths never grow, and each is at least two |
| Resolver.SplitSuffix | nepali_romanizer/src/nepali_romanizer/transliterator.py:553-562 | a suffix split off has at least two letters and leaves a stem of at least two |
| Resolver.SplitSuffixSplits | nepali_romanizer/src/nepali_romanizer/transliterator.py:557-562 | the suffix split off is in JOINING_SUFFIXES and ends the lower-cased word |
| Resolver.SplitSuffixIsLongest | nepali_romanizer/src/nepali_romanizer/transliterator.py:556-562 | the suffix split off is the longest suffix that splits the word, and none is split off only when none splits it |
| Resolver.FirstSplitIsLongest | nepali_romanizer/src/nepali_romanizer/transliterator.py:556-562 | for any set listed longest first, the first suffix that splits is a longest one in the set, and there is none only when no member splits |
| Resolver.ParticleNotSplit | nepali_romanizer/src/nepali_romanizer/transliterator.py:553-606 | no common particle is ever split, so the particle table is reached for every particle |
| Resolver.ParticleEndings | nepali_romanizer/src/nepali_romanizer/transliterator.py:575-603 | no particle ends with a postposition that leaves two characters in front |
| Resolver.EndsWithLastLetters | nepali_romanizer/src/nepali_romanizer/transliterator.py:558 | a word that ends with `p` agrees with `p` on each of its last three letters |
| Resolver.MaByContext | nepali_romanizer/src/nepali_romanizer/transliterator.py:535-549 | `ma` is म in a pronoun context (sentence start, after `,` `;` `-` `...`, after a MA_PRONOUN_CONTEXT word, after a word ending in a comma) and मा otherwise; the dictionary never decides |
| Resolver.TransliterateWord | nepali_romanizer/src/nepali_romanizer/transliterator.py:518-613 | `transliterate_word`: the order of its checks is stated by `MaByContext`, `SplitRendersStemThenSuffix`, `HunByContext`, `ParticleOverridesDictionary`, `DictionaryBeforeRules` and `RulesAsLastResort`, and `TransliterateWordNoLatin` bounds its output |
| Resolver.MaIsPronoun | nepali_romanizer/src/nepali_romanizer/transliterator.py:536-549 | the pronoun context of `ma`; `MaByContext` and `MaAtSentenceStart` state what it decides |
| Resolver.MaAtSentenceStart | nepali_romanizer/src/nepali_romanizer/transliterator.py:547-549 | `ma` at a sentence start is म |
| Resolver.HunByContext | nepali_romanizer/src/nepali_romanizer/transliterator.py:568-572 | `hun` is हुँ at a sentence start, after `ma` or after a MA_PRONOUN_CONTEXT word, and हुन् otherwise |
| Resolver.HunIsFirstPerson | nepali_romanizer/src/nepali_romanizer/transliterator.py:569-572 | the first-person context of `hun`; `HunByContext` states what it decides |
| Resolver.ParticleOverridesDictionary | nepali_romanizer/src/nepali_romanizer/transliterator.py:575-610 | outside the context readings of `ma` and `hun`, a particle is rendered from the particle table whatever the dictionary says |
| Resolver.Particle | nepali_romanizer/src/nepali_romanizer/transliterator.py:576-606 | the common particles; `ParticleOverridesDictionary`, `ParticleNotSplit` and `ParticlesNoLatin` state their role |
| Resolver.DictionaryBeforeRules | nepali_romanizer/src/nepali_romanizer/transliterator.py:609-610 | a dictionary word that is not a particle is rendered from the dictionary and is never split |
| Resolver.RulesAsLastResort | nepali_romanizer/src/nepali_romanizer/transliterator.py:613 | a word that is not a particle, not in the dictionary and not split goes to the engine |
| Resolver.SplitRendersStemThenSuffix | nepali_romanizer/src/nepali_romanizer/transliterator.py:553-565 | a longer word outside the dictionary that a suffix splits is its stem (original letters, at least two) followed by the suffix, both resolved in the word's context |
| Resolver.SplitMaAtSentenceStart | nepali_romanizer/src/nepali_romanizer/transliterator.py:563-565 | a split-off `ma` at a sentence start inherits the context and is read as म |
| Resolver.ParticlesNoLatin | nepali_romanizer/src/nepali_romanizer/transliterator.py:575-603 | no particle rendering holds a Latin letter |
| Resolver.TransliterateWordNoLatin | nepali_romanizer/src/nepali_romanizer/transliterator.py:518-613 | when no dictionary entry holds a Latin letter, neither does any word's rendering |
| Resolver.SplitNoLatin | nepali_romanizer/src/nepali_romanizer/transliterator.py:553-565 | the same for the split branch: stem and suffix renderings have no Latin letter |
| Joining.Bare | nepali_romanizer/src/nepali_romanizer/transliterator.py:620-621 | the compared word is a prefix of the lower-cased word and does not end in `.,?!;:` |
| Joining.ShouldJoin | nepali_romanizer/src/nepali_romanizer/transliterator.py:615-650 | joins exactly for a compound pair, a known fused word, or a postposition outside the `ma`-pronoun and verb-genitive exceptions; a compound pair gives flag True; a combined text is the dictionary's; a refusal gives `''` |
| Joining.CompoundFlagsTrue | nepali_romanizer/src/nepali_romanizer/transliterator.py:203-207 | every COMPOUND_PAIRS flag is True |
| Joining.SentenceMarkCheckIsDead | nepali_romanizer/src/nepali_romanizer/transliterator.py:620-636 | the stripped word can never end with `.`, `,`, `?` or `!` |
| Joining.MaAfterFullStopJoins | nepali_romanizer/src/nepali_romanizer/transliterator.py:620-648 | as written, `ma` after "ghar." joins as a postposition |
| Joining.GharAndMa | nepali_romanizer/src/nepali_romanizer/transliterator.py:620-625 | what `should_join` computes from "ghar." and "ma" before deciding: the words "ghar" and "ma", not a compound pair |
| Joining.ShouldJoinIntended | nepali_romanizer/src/nepali_romanizer/transliterator.py:615-650 | with the sentence-mark test on the unstripped word, `ma` after a closing mark stays apart unless a compound pair or fused word decides |
| Joining.MaAfterFullStopStaysApart | nepali_romanizer/src/nepali_romanizer/transliterator.py:634-637 | corrected, `ma` after "ghar." stays apart |
| Joining.IntendedDiffersOnlyAfterMarks | nepali_romanizer/src/nepali_romanizer/transliterator.py:634-637 | the correction changes no answer except for `ma` after a word ending in a sentence mark |
| Joining.FusedFromDictionary | nepali_romanizer/src/nepali_romanizer/transliterator.py:629-631 | outside compound pairs, a known fused word joins and gives the dictionary's text |
| Joining.GenitiveAfterVerbApart | nepali_romanizer/src/nepali_romanizer/transliterator.py:640-643 | `ko`, `ki`, `ka` after a word ending in chha, chhu or chhan stay apart unless the fused word is known |
| Joining.SuffixAttaches | nepali_romanizer/src/nepali_romanizer/transliterator.py:646-648 | any other postposition joins with no combined text |
| Tokenizer.PunctuationKeys | nepali_romanizer/src/nepali_romanizer/transliterator.py:136-151 | the punctuation test is exactly membership among the PUNCTUATION keys |
| Tokenizer.WordLength | nepali_romanizer/src/nepali_romanizer/transliterator.py:790-791 | the run of word characters is no longer than the text |
| Tokenizer.WordLengthIsRun | nepali_romanizer/src/nepali_romanizer/transliterator.py:780-791 | the run holds only word characters and stops at the first whitespace or punctuation |
| Tokenizer.PunctuationIsNotSpace | nepali_romanizer/src/nepali_romanizer/transliterator.py:780-785 | no PUNCTUATION key is whitespace, so the order of the two tests does not matter |
| Tokenizer.TokensAreTokenization | nepali_romanizer/src/nepali_romanizer/transliterator.py:774-796 | the token values give back the text exactly; each space token is one whitespace character, each punctuation token one PUNCTUATION key, each word a non-empty run of other characters, and no two words are neighbours |
| Tokenizer.TokensStartWith | nepali_romanizer/src/nepali_romanizer/transliterator.py:780-789 | a text starting with whitespace or punctuation does not start with a word token |
| Tokenizer.WordLengthOfRun | nepali_romanizer/src/nepali_romanizer/transliterator.py:790-791 | a run of word characters followed by a non-word character is measured exactly |
| Tokenizer.TokenizationIsUnique | nepali_romanizer/src/nepali_romanizer/transliterator.py:774-796 | any token list with those properties is `Tokens(text)`: the tokenizer's result is the only tokenization |
| Tokenizer.WordTokenLength | nepali_romanizer/src/nepali_romanizer/transliterator.py:790-794 | the first word of a tokenization is the whole run of word characters at the start |
| Tokenizer.MarkFirst | nepali_romanizer/src/nepali_romanizer/transliterator.py:780-789 | a text starting with whitespace or punctuation starts with that character's token |
| Tokenizer.WordFirst | nepali_romanizer/src/nepali_romanizer/transliterator.py:790-791 | a text starting with a word character starts with its whole run as one word |
| Tokenizer.ScanOverRun | nepali_romanizer/src/nepali_romanizer/transliterator.py:790-791 | the loop emits nothing while it reads word characters |
| Tokenizer.RunAt | nepali_romanizer/src/nepali_romanizer/transliterator.py:790-791 | the run at `i` holds word characters only and ends at a non-word character or the end |
| Tokenizer.ScanMark | nepali_romanizer/src/nepali_romanizer/transliterator.py:780-789 | with nothing pending, a whitespace or punctuation character gives its token alone |
| Tokenizer.ScanRunEnd | nepali_romanizer/src/nepali_romanizer/transliterator.py:781-794 | at the end of a run the pending word is emitted |
| Tokenizer.ScanIsTokens | nepali_romanizer/src/nepali_romanizer/transliterator.py:779-796 | the loop's tokens from `i`, with nothing pending, are `Tokens(text[i..])` |
| Tokenizer.MarkStep | nepali_romanizer/src/nepali_romanizer/transliterator.py:780-789 | at whitespace or punctuation the loop appends the pending word, if any, and the character's token |
| Tokenizer.WordStep | nepali_romanizer/src/nepali_romanizer/transliterator.py:790-791 | at a word character the pending run grows by it and nothing is emitted |
| Tokenizer.Tokenize | nepali_romanizer/src/nepali_romanizer/transliterator.py:774-796 | `_tokenize` returns `Tokens(text)`, the unique tokenization of the text |
| Tokenizer.Tokens | nepali_romanizer/src/nepali_romanizer/transliterator.py:774-796 | the tokenization of a text; `TokensAreTokenization` and `TokenizationIsUnique` characterise it |
| Driver.CachedLookup | nepali_romanizer/src/nepali_romanizer/transliterator.py:798-808 | `ma` is resolved afresh and leaves the cache alone; any other word is served from its lower-cased entry if there is one and resolved and stored otherwise; the cache only grows, by that key at most, and stays keyed by lower-cased words other than `ma` |
| Driver.Cached | nepali_romanizer/src/nepali_romanizer/transliterator.py:798-808 | `_get_cached` on a given cache; `CachedLookup` and `StaleHunReading` state its behaviour |
| Driver.StaleHunReading | nepali_romanizer/src/nepali_romanizer/transliterator.py:803-808 | the cache ignores context: a stored हुँ for `hun` is returned where the resolver would give हुन् |
| Driver.Gather | nepali_romanizer/src/nepali_romanizer/transliterator.py:686-735 | the lookahead keeps the words it has, and it moves two tokens on for each word it adds |
| Driver.JoinsNext | nepali_romanizer/src/nepali_romanizer/transliterator.py:700-727 | the lookahead's test for the next word; `GatherReadsTokens`, `SuffixJoinsWithoutSpace` and `SeparateWordKeepsSpace` state its effect |
| Driver.GatherReadsTokens | nepali_romanizer/src/nepali_romanizer/transliterator.py:689-735 | each added word is the word token right after a space token, in text order, and joins the word before it |
| Driver.CommaTestIsDead | nepali_romanizer/src/nepali_romanizer/transliterator.py:719-720 | a word token never ends with a comma, so the third `ma` test never decides |
| Driver.RenderPartsKeepsCache | nepali_romanizer/src/nepali_romanizer/transliterator.py:747-751 | rendering parts keeps every cache entry and the key discipline |
| Driver.RenderUnitKeepsCache | nepali_romanizer/src/nepali_romanizer/transliterator.py:737-751 | the same for a whole unit |
| Driver.RenderUnit | nepali_romanizer/src/nepali_romanizer/transliterator.py:737-751 | the rendering of one unit; `TwoPartUnit`, `PartStep` and `RenderUnitNoLatin` state it |
| Driver.RenderParts | nepali_romanizer/src/nepali_romanizer/transliterator.py:745-751 | the parts of a unit through the cache; `PartStep` and `RenderPartsKeepsCache` state it |
| Driver.DriveKeepsCache | nepali_romanizer/src/nepali_romanizer/transliterator.py:675-770 | the same for the token loop from any point |
| Driver.TransliterateTextKeepsCache | nepali_romanizer/src/nepali_romanizer/transliterator.py:662-772 | `transliterate` keeps every cache entry, and the cache stays keyed by lower-cased words other than `ma` |
| Driver.Drive | nepali_romanizer/src/nepali_romanizer/transliterator.py:662-772 | the token loop from token `i`; `UnitStep`, `SpaceStep`, `PunctStep`, `DriveKeepsCache` and `DriveNoLatin` state it |
| Driver.Turn | nepali_romanizer/src/nepali_romanizer/transliterator.py:671-772 | one turn of the token loop; `SpaceStep` and `PunctStep` state its non-word cases |
| Driver.WordTurn | nepali_romanizer/src/nepali_romanizer/transliterator.py:675-752 | the turn at a word; `WordTurnUnit` and `WordTurnNoLatin` state it |
| Driver.TransliterateText | nepali_romanizer/src/nepali_romanizer/transliterator.py:662-772 | `transliterate`; `OneWordText`, `TransliterateTextKeepsCache` and `TransliterationHasNoLatin` state it |
| Driver.AfterAppend | nepali_romanizer/src/nepali_romanizer/transliterator.py:772 | appending a piece to `result` before the final `''.join` puts that piece in front of the rest |
| Driver.PartStep | nepali_romanizer/src/nepali_romanizer/transliterator.py:747-751 | a unit's parts are the current part through the cache, then the others with the cache it leaves |
| Driver.WordTurnUnit | nepali_romanizer/src/nepali_romanizer/transliterator.py:679-755 | the turn at a word renders the gathered unit in the current context, then goes on after the unit with the last word as previous word and no sentence start |
| Driver.UnitStep | nepali_romanizer/src/nepali_romanizer/transliterator.py:679-755 | the same for the token loop, for whatever unit the lookahead returns |
| Driver.SpaceStep | nepali_romanizer/src/nepali_romanizer/transliterator.py:757-759 | a whitespace token is copied and the state is unchanged |
| Driver.PunctStep | nepali_romanizer/src/nepali_romanizer/transliterator.py:761-768 | punctuation goes through PUNCTUATION; `.`, `?` and `!` start a sentence; the mark becomes the previous word |
| Driver.OneWordText | nepali_romanizer/src/nepali_romanizer/transliterator.py:662-772 | a one-word text is that word through the cache, at a sentence start |
| Driver.SuffixJoinsWithoutSpace | nepali_romanizer/src/nepali_romanizer/transliterator.py:686-751 | a word one space after another that joins it (any position in the text, whatever follows) opens a unit starting with both words; the space is not written: the output starts with the dictionary entry of the joined unit when there is one, and otherwise with the first word in the unit's context directly followed by the second read after the first |
| Driver.SeparateWordKeepsSpace | nepali_romanizer/src/nepali_romanizer/transliterator.py:686-772 | the converse: a word that does not join the word before it keeps the space; the first word is a unit of its own, the space is copied, and the next turn starts at the second word with the first as the previous word |
| Driver.PairUnitIsWholeTurn | nepali_romanizer/src/nepali_romanizer/transliterator.py:686-772 | when nothing joins after the pair and the pair is not a dictionary word, the turn writes exactly the two renderings and resumes after the second word, with it as the previous word |
| Driver.TwoPartUnit | nepali_romanizer/src/nepali_romanizer/transliterator.py:745-751 | a two-word unit missing from the dictionary is both words through the cache, the second in the context of the first |
| Driver.MaAfterFullStop | nepali_romanizer/src/nepali_romanizer/transliterator.py:761-768 | after `.` and a space, a lone `ma` is written । + space + म, and the cache is unchanged |
| Driver.GatherStops | nepali_romanizer/src/nepali_romanizer/transliterator.py:689-735 | the lookahead adds nothing when the next token is not a space |
| Driver.MaUnitAtSentenceStart | nepali_romanizer/src/nepali_romanizer/transliterator.py:803-804 | a lone `ma` at a sentence start is म and does not touch the cache |
| Driver.FullStopIsDanda | nepali_romanizer/src/nepali_romanizer/transliterator.py:137 | `.` is written as the danda । |
| Driver.PunctuationNoLatin | nepali_romanizer/src/nepali_romanizer/transliterator.py:136-151 | no punctuation token's rendering holds a Latin letter |
| Driver.CachedNoLatin | nepali_romanizer/src/nepali_romanizer/transliterator.py:798-808 | with a Latin-free dictionary and cache, the cached rendering and the new cache are Latin-free |
| Driver.RenderPartsNoLatin | nepali_romanizer/src/nepali_romanizer/transliterator.py:747-751 | the same for the parts of a unit |
| Driver.RenderUnitNoLatin | nepali_romanizer/src/nepali_romanizer/transliterator.py:737-751 | the same for a unit, including a fused dictionary word |
| Driver.DriveNoLatin | nepali_romanizer/src/nepali_romanizer/transliterator.py:675-770 | the same for the token loop over well-formed tokens |
| Driver.WordTurnNoLatin | nepali_romanizer/src/nepali_romanizer/transliterator.py:679-755 | the same for the turn at a word |
| Driver.TransliterationHasNoLatin | nepali_romanizer/src/nepali_romanizer/transliterator.py:662-772 | with a Latin-free dictionary and cache, the transliteration of any text has no Latin letter, and neither has the cache afterwards |
| Driver.Transliterator.constructor | nepali_romanizer/src/nepali_romanizer/transliterator.py:659-660 | a new transliterator starts with an empty cache |
| Driver.Transliterator.GetCached | nepali_romanizer/src/nepali_romanizer/transliterator.py:798-808 | `_get_cached` returns and stores what `Cached` specifies; the cache only grows and stays keyed by lower-cased words other than `ma` |
| Driver.Transliterator.Transliterate | nepali_romanizer/src/nepali_romanizer/transliterator.py:662-772 | `transliterate` returns `TransliterateText` of the text and the old cache, leaves that cache, extended, in the object, and keeps its key discipline; the empty text gives `''` |
| Driver.Transliterator.RenderTokens | nepali_romanizer/src/nepali_romanizer/transliterator.py:671-772 | the token loop returns `Drive` from the first token at a sentence start, leaves `Drive`'s cache in the object, and the cache only grows and keeps its key discipline |
| Driver.Transliterator.LookAhead | nepali_romanizer/src/nepali_romanizer/transliterator.py:686-735 | the lookahead loop returns the words and the index that `Gather` specifies |
| Driver.Transliterator.RenderWords | nepali_romanizer/src/nepali_romanizer/transliterator.py:737-751 | one unit's rendering and the new cache are those of `RenderUnit`; the cache only grows and keeps its key discipline |

## Left out

- The module-level singleton (`_instance`, `get_transliterator`, and the module function `transliterate`, lines 814-824) is not modelled. The model works on an explicit `Transliterator` object.
- `WORD_DICT` comes from a module outside the core (lines 157-160). It is a read-only parameter `dict`, with no assumption about its contents. The Latin-free results require the dictionary to be free of Latin letters.
- `str.lower` is modelled on ASCII only. Python also lower-cases characters beyond ASCII, and a few of them lower to ASCII or to more than one character. The model differs from the source for words holding such characters in these places:
  - dictionary, particle and suffix lookups in `transliterate_word`, and the joining tests of the lookahead;
  - the lookahead of `match_consonant` and `match_vowel` (lines 221 and 229) and `should_nasalize`, which lower the rest of the word. The Kelvin sign U+212A lowers to `k`, so for "tK" the source writes त् followed by the sign while the model writes त and the sign. U+0130 lowers to two characters, so for "kİ" the source consumes it as the matra of `i` and writes कि, while the model writes क and the sign;
  - the cache keys of `_get_cached` (line 800), which merge such words differently.
- `str.isdigit` is modelled on ASCII digits only. Every other digit Python accepts is above code point 127 and is copied by the same branch.
- `str.isspace` is modelled by the list of code points Python counts as whitespace. Other Unicode character classes are not modelled.
- `analyze_syllables`, `should_use_long_i` and `should_use_long_a` (lines 247-388) are not modelled, because nothing in the core calls them. VERB_SUFFIXES, VERB_STEM_ENDINGS and VERB_ENDINGS are unused constants and are left out too.
- `is_vowel_char` and `is_consonant_char` (lines 235-241) become predicates on an already lower-cased character. That is how `should_nasalize` uses them.
- The context dictionary passed to `transliterate_word` is the datatype `Context`. A missing key reads as `False` or `''`, as `context.get` does.
- The phonetic engine takes its tables as a parameter (`Scheme`). The transliterator always passes the source's tables (`ROMAN`), and the properties that depend on table contents are proved for those.
- The suffix split uses a fixed longest-first list. Python sorts a set, so suffixes of equal length come in no fixed order. The order cannot matter: a word ends with at most one suffix of a given length (`Resolver.SplitSuffixIsLongest`).
- The driver's `elif next_lower == 'ki': pass` (lines 723-725) does nothing and has no counterpart. The final `else: i += 1` (lines 769-770) handles a token type the tokenizer never produces and is not modelled.
- The sentence-start test `tval in '.?!|'` (line 763) is modelled as `.`, `?` or `!`, because `|` is not a PUNCTUATION key and never forms a punctuation token.
- The body of `transliterate` is split into four methods: `Transliterate`, `RenderTokens` (the token loop), `LookAhead` (the lookahead loop) and `RenderWords` (the rendering of one unit). Each keeps the source's statements.
- Driver.CachedLookup: the cache is not proved to be transparent, because it is not. Any context-dependent word other than `ma` (for example `hun`) keeps its first reading, as `Driver.StaleHunReading` shows.
- `should_join`'s unused `context` parameter is dropped. Its compound-pair answer, the bool True in place of a combined text, is the `Flag` case of `Joining.Form`.
- The repository's tests and data-mining scripts are not part of this model.

## Findings

| source | as written | input that shows it | evidently intended | confidence | as-written member | corrected member |
|---|---|---|---|---|---|---|
| nepali_romanizer/src/nepali_romanizer/transliterator.py:620-636 | `should_join` strips `.,?!;:` from the first word (line 620) and only then tests whether it ends with `.`, `,`, `?` or `!` (line 636), so that test never succeeds | `should_join("ghar.", "ma")` with `gharma` not in WORD_DICT returns `(True, '')`: `ma` joins as the postposition | a `ma` after a word that closes a sentence or clause stays apart as the pronoun: `(False, '')` | not executed; high that the test is dead, medium on the intended answer | Joining.MaAfterFullStopJoins | Joining.ShouldJoinIntended, Joining.MaAfterFullStopStaysApart |
