/** The text driver, class `NepaliTransliterator`: it tokenizes the text,
    gathers each word together with the postpositions that follow it after
    a single space, renders each such unit through a per-object cache of
    word renderings, and copies spaces and punctuation through. */
module Driver {
  import opened TextUtil
  import opened Tables
  import opened Phonetic
  import opened Resolver
  import opened Tokenizer

  /** A rendering together with the cache as it stands afterwards. */
  datatype Lookup = Lookup(out: string, cache: map<string, string>)

  /** A run of joined words and the index of the first token after it. */
  datatype Unit = Unit(words: seq<string>, next: nat)

  /** `later` keeps every entry of `earlier`: the cache only grows. */
  ghost predicate Extends(earlier: map<string, string>, later: map<string, string>)
  {
    forall k :: k in earlier ==> k in later && later[k] == earlier[k]
  }

  /** Cache keys are lower-cased words, and `ma` is never one of them. */
  ghost predicate KeysValid(cache: map<string, string>)
  {
    forall k :: k in cache ==> k != "ma" && Lower(k) == k
  }

  /** No value of the map holds a Latin letter. */
  ghost predicate MapNoLatin(m: map<string, string>)
  {
    forall k :: k in m ==> NoLatin(m[k])
  }

  // ---------------------------------------------------------------------------
  // The cache
  // ---------------------------------------------------------------------------

  /** `_get_cached(word, context)`: `ma` is resolved afresh every time; any
      other word is resolved once, under its lower-cased form, and later
      occurrences get the stored rendering whatever their context. */
  function Cached(dict: map<string, string>, cache: map<string, string>, word: string, ctx: Context): (r: Lookup)
  {
    var lw := Lower(word);
    if lw == "ma" then Lookup(TransliterateWord(dict, word, ctx), cache)
    else if lw in cache then Lookup(cache[lw], cache)
    else
      var v := TransliterateWord(dict, word, ctx);
      Lookup(v, cache[lw := v])
  }

  /** The cache keeps its entries and gains at most the lower-cased word;
      a word other than `ma` is rendered as stored, and a word missing from
      the cache (or `ma`) is resolved in the context given. */
  lemma {:induction false} CachedLookup(dict: map<string, string>, cache: map<string, string>, word: string, ctx: Context)
    ensures var r := Cached(dict, cache, word, ctx);
            && Extends(cache, r.cache)
            && (Lower(word) == "ma" ==> r == Lookup(TransliterateWord(dict, word, ctx), cache))
            && (Lower(word) != "ma" ==> Lower(word) in r.cache && r.out == r.cache[Lower(word)])
            && (Lower(word) in cache ==> r.out == cache[Lower(word)] || Lower(word) == "ma")
            && (Lower(word) !in cache ==> r.out == TransliterateWord(dict, word, ctx))
            && r.cache.Keys <= cache.Keys + {Lower(word)}
            && (KeysValid(cache) ==> KeysValid(r.cache))
  {
    LowerIdempotent(word);
  }

  /** The cache does not look at the context, so a context-dependent word
      other than `ma` keeps its first reading: once `hun` has been stored as
      "I am" (हुँ), a later `hun` after another subject is still हुँ where
      the resolver would give हुन्. */
  lemma {:induction false} StaleHunReading(dict: map<string, string>)
    ensures TransliterateWord(dict, "hun", Context(false, "u")) == "हुन्"
    ensures Cached(dict, map["hun" := "हुँ"], "hun", Context(false, "u")).out == "हुँ"
  {
    assert Lower("hun") == "hun";
    assert Lower("u") == "u";
    HunByContext(dict, "hun", Context(false, "u"));
  }

  // ---------------------------------------------------------------------------
  // Gathering a unit
  // ---------------------------------------------------------------------------

  /** `any(prev_lower.endswith(w) for w in MA_AS_PRONOUN_AFTER)` */
  predicate MaAsPronounAfter(pl: string)
  {
    exists w :: w in MA_AS_PRONOUN_AFTER && EndsWith(pl, w)
  }

  /** A following `ma` stays apart: the unit follows a comma, or the word
      before `ma` ends like a conjunction or verb after which `ma` is "I". */
  predicate MaBlocked(unitPrev: string, pl: string)
  {
    EndsWith(unitPrev, ",") || MaAsPronounAfter(pl) || EndsWith(pl, ",")
  }

  /** Whether `next`, one space after `last`, joins the unit. */
  predicate JoinsNext(unitPrev: string, last: string, next: string)
  {
    var pl := Lower(last);
    var nl := Lower(next);
    (pl, nl) in COMPOUND_PAIRS
    || (nl in JOINING_SUFFIXES && !(nl == "ma" && MaBlocked(unitPrev, pl)) && pl !in NO_JOIN_WORDS)
  }

  /** The lookahead: from token `j` on, take a space followed by a word as
      long as the word joins the unit. */
  function Gather(tokens: seq<Token>, unitPrev: string, words: seq<string>, j: nat): (u: Unit)
    requires words != [] && j <= |tokens|
    ensures |u.words| >= |words| && u.words[..|words|] == words
    ensures j <= u.next <= |tokens| && u.next - j == 2 * (|u.words| - |words|)
    decreases |tokens| - j
  {
    if j + 1 < |tokens| && tokens[j].Space? && tokens[j + 1].Word?
       && JoinsNext(unitPrev, words[|words| - 1], tokens[j + 1].text)
    then
      var u := Gather(tokens, unitPrev, words + [tokens[j + 1].text], j + 2);
      assert u.words[..|words|] == (u.words[..|words| + 1])[..|words|];
      u
    else Unit(words, j)
  }

  /** The `k`-th word of `ws`, gathered from token `j` on after the first
      `base` words, is the word token right after a space token, and it
      joins the word before it. */
  predicate GatheredAt(tokens: seq<Token>, unitPrev: string, ws: seq<string>, base: nat, j: nat, k: nat)
    requires 0 < base <= k < |ws| && j + 2 * (k - base) + 1 < |tokens|
  {
    && tokens[j + 2 * (k - base)].Space?
    && tokens[j + 2 * (k - base) + 1] == Word(ws[k])
    && JoinsNext(unitPrev, ws[k - 1], ws[k])
  }

  /** Every word the lookahead adds is the word token right after a space
      token, in the order of the text, and each one joins the word before
      it. */
  lemma {:induction false} GatherReadsTokens(tokens: seq<Token>, unitPrev: string, words: seq<string>, j: nat)
    returns (u: Unit)
    requires words != [] && j <= |tokens|
    ensures u == Gather(tokens, unitPrev, words, j)
    ensures forall k :: |words| <= k < |u.words| ==>
              j + 2 * (k - |words|) + 1 < |tokens| && GatheredAt(tokens, unitPrev, u.words, |words|, j, k)
    decreases |tokens| - j
  {
    u := Gather(tokens, unitPrev, words, j);
    if j + 1 < |tokens| && tokens[j].Space? && tokens[j + 1].Word?
       && JoinsNext(unitPrev, words[|words| - 1], tokens[j + 1].text)
    {
      var longer := words + [tokens[j + 1].text];
      var v := GatherReadsTokens(tokens, unitPrev, longer, j + 2);
      assert v == u;
      assert u.words[..|longer|] == longer;
      forall k | |words| <= k < |u.words|
        ensures j + 2 * (k - |words|) + 1 < |tokens| && GatheredAt(tokens, unitPrev, u.words, |words|, j, k)
      {
        if k == |words| {
          assert u.words[k] == longer[k] == tokens[j + 1].text;
          assert u.words[k - 1] == longer[k - 1] == words[|words| - 1];
        } else {
          assert GatheredAt(tokens, unitPrev, u.words, |longer|, j + 2, k);
          assert j + 2 * (k - |words|) == (j + 2) + 2 * (k - |longer|);
        }
      }
    }
  }

  /** Only a word token from a tokenized text can precede `ma`, and such a
      word holds no comma, so the driver's third test for `ma` (the
      previous word ends with a comma) never decides anything. */
  lemma {:induction false} CommaTestIsDead(w: string)
    requires forall k :: 0 <= k < |w| ==> IsWordChar(w[k])
    ensures !EndsWith(Lower(w), ",")
  {
    if w != [] {
      LowerAt(w, |w| - 1);
      assert IsWordChar(w[|w| - 1]);
      assert Lower(w)[|w| - 1] != ',';
    }
  }

  // ---------------------------------------------------------------------------
  // Rendering a unit
  // ---------------------------------------------------------------------------

  /** The context of the `k`-th part of a unit: the unit's own for the
      first, and for the others just the part before (not a sentence
      start). */
  function PartContext(ctx: Context, words: seq<string>, k: nat): Context
    requires k < |words|
  {
    if k == 0 then ctx else Context(false, words[k - 1])
  }

  /** The parts `k..` of a unit, each through the cache, with no space in
      between. */
  function RenderParts(dict: map<string, string>, cache: map<string, string>, words: seq<string>,
                       ctx: Context, k: nat): (r: Lookup)
    requires k <= |words|
    decreases |words| - k
  {
    if k == |words| then Lookup("", cache)
    else
      var part := Cached(dict, cache, words[k], PartContext(ctx, words, k));
      var rest := RenderParts(dict, part.cache, words, ctx, k + 1);
      Lookup(part.out + rest.out, rest.cache)
  }

  /** A single word goes through the cache; a joined unit is looked up as
      one word in the dictionary first, and otherwise rendered part by part. */
  function RenderUnit(dict: map<string, string>, cache: map<string, string>, words: seq<string>,
                      ctx: Context): (r: Lookup)
    requires words != []
  {
    if |words| == 1 then Cached(dict, cache, words[0], ctx)
    else if Lower(Join(words)) in dict then Lookup(dict[Lower(Join(words))], cache)
    else RenderParts(dict, cache, words, ctx, 0)
  }

  /** `PUNCTUATION.get(c, c)` */
  function PunctText(c: char): string
  {
    if c in PUNCTUATION then PUNCTUATION[c] else [c]
  }

  // ---------------------------------------------------------------------------
  // The token loop
  // ---------------------------------------------------------------------------

  /** The output for tokens `i..` when the sentence-start flag is `start` and
      the previous word is `prev`, and the cache afterwards. */
  function Drive(dict: map<string, string>, cache: map<string, string>, tokens: seq<Token>,
                 i: nat, start: bool, prev: string): (r: Lookup)
    requires i <= |tokens|
    decreases |tokens| - i, 2
  {
    if i == |tokens| then Lookup("", cache) else Turn(dict, cache, tokens, i, start, prev)
  }

  /** One turn of the token loop at token `i`, then the rest of the text: a
      word is rendered together with the words the lookahead joins to it;
      whitespace is copied; punctuation is mapped through PUNCTUATION, and
      `.`, `?` and `!` open a new sentence. */
  function Turn(dict: map<string, string>, cache: map<string, string>, tokens: seq<Token>,
                i: nat, start: bool, prev: string): (r: Lookup)
    requires i < |tokens|
    decreases |tokens| - i, 1
  {
    match tokens[i]
    case Word(_) => WordTurn(dict, cache, tokens, i, start, prev)
    case Space(c) => After([c], Drive(dict, cache, tokens, i + 1, start, prev))
    case Punct(c) => After(PunctText(c), Drive(dict, cache, tokens, i + 1, start || c == '.' || c == '?' || c == '!', [c]))
  }

  /** The turn at a word token: the unit the lookahead gathers, rendered in
      the current context, then the rest of the text after the unit, with
      the unit's last word as the previous word. */
  function WordTurn(dict: map<string, string>, cache: map<string, string>, tokens: seq<Token>,
                    i: nat, start: bool, prev: string): (r: Lookup)
    requires i < |tokens| && tokens[i].Word?
    decreases |tokens| - i, 0
  {
    var u := Gather(tokens, prev, [tokens[i].text], i + 1);
    var unit := RenderUnit(dict, cache, u.words, Context(start, prev));
    After(unit.out, Drive(dict, unit.cache, tokens, u.next, false, u.words[|u.words| - 1]))
  }

  /** `transliterate(text)` on an object whose cache is `cache`. */
  function TransliterateText(dict: map<string, string>, cache: map<string, string>, text: string): (r: Lookup)
  {
    if text == "" then Lookup("", cache) else Drive(dict, cache, Tokens(text), 0, true, "")
  }

  // ---------------------------------------------------------------------------
  // The cache only grows
  // ---------------------------------------------------------------------------

  lemma {:induction false} RenderPartsKeepsCache(dict: map<string, string>, cache: map<string, string>,
                                                 words: seq<string>, ctx: Context, k: nat)
    requires k <= |words|
    ensures Extends(cache, RenderParts(dict, cache, words, ctx, k).cache)
    ensures KeysValid(cache) ==> KeysValid(RenderParts(dict, cache, words, ctx, k).cache)
    decreases |words| - k
  {
    if k < |words| {
      var part := Cached(dict, cache, words[k], PartContext(ctx, words, k));
      CachedLookup(dict, cache, words[k], PartContext(ctx, words, k));
      RenderPartsKeepsCache(dict, part.cache, words, ctx, k + 1);
    }
  }

  lemma {:induction false} RenderUnitKeepsCache(dict: map<string, string>, cache: map<string, string>, words: seq<string>, ctx: Context)
    requires words != []
    ensures Extends(cache, RenderUnit(dict, cache, words, ctx).cache)
    ensures KeysValid(cache) ==> KeysValid(RenderUnit(dict, cache, words, ctx).cache)
  {
    if |words| == 1 {
      CachedLookup(dict, cache, words[0], ctx);
    } else if Lower(Join(words)) !in dict {
      RenderPartsKeepsCache(dict, cache, words, ctx, 0);
    }
  }

  lemma {:induction false} DriveKeepsCache(dict: map<string, string>, cache: map<string, string>, tokens: seq<Token>,
                                           i: nat, start: bool, prev: string)
    requires i <= |tokens|
    ensures Extends(cache, Drive(dict, cache, tokens, i, start, prev).cache)
    ensures KeysValid(cache) ==> KeysValid(Drive(dict, cache, tokens, i, start, prev).cache)
    decreases |tokens| - i
  {
    if i < |tokens| {
      match tokens[i]
      case Word(w) => {
        var u := Gather(tokens, prev, [w], i + 1);
        var ctx := Context(start, prev);
        UnitStep(dict, cache, tokens, i, start, prev, u.words, u.next);
        RenderUnitKeepsCache(dict, cache, u.words, ctx);
        DriveKeepsCache(dict, RenderUnit(dict, cache, u.words, ctx).cache, tokens, u.next, false, u.words[|u.words| - 1]);
      }
      case Space(c) => {
        SpaceStep(dict, cache, tokens, i, start, prev);
        DriveKeepsCache(dict, cache, tokens, i + 1, start, prev);
      }
      case Punct(c) => {
        PunctStep(dict, cache, tokens, i, start, prev);
        DriveKeepsCache(dict, cache, tokens, i + 1, start || c == '.' || c == '?' || c == '!', [c]);
      }
    }
  }

  /** Transliterating a text keeps every cache entry, and the cache stays
      keyed by lower-cased words other than `ma`. */
  lemma {:induction false} TransliterateTextKeepsCache(dict: map<string, string>, cache: map<string, string>, text: string)
    ensures Extends(cache, TransliterateText(dict, cache, text).cache)
    ensures KeysValid(cache) ==> KeysValid(TransliterateText(dict, cache, text).cache)
  {
    if text != "" {
      DriveKeepsCache(dict, cache, Tokens(text), 0, true, "");
    }
  }

  /** `s` followed by the output of `l`, with `l`'s cache. */
  function After(s: string, l: Lookup): Lookup
  {
    Lookup(s + l.out, l.cache)
  }

  lemma {:induction false} AfterEmpty(l: Lookup)
    ensures After("", l) == l
  {
    assert "" + l.out == l.out;
  }

  /** Appending a piece to the result list. */
  lemma {:induction false} AfterAppend(result: seq<string>, x: string, l: Lookup)
    ensures After(Join(result + [x]), l) == After(Join(result), After(x, l))
  {
    JoinAppend(result, x);
    assert (Join(result) + x) + l.out == Join(result) + (x + l.out);
  }

  /** One part of a joined unit. */
  lemma {:induction false} PartStep(dict: map<string, string>, cache: map<string, string>, words: seq<string>,
                 ctx: Context, k: nat)
    requires k < |words|
    ensures var part := Cached(dict, cache, words[k], PartContext(ctx, words, k));
            RenderParts(dict, cache, words, ctx, k) == After(part.out, RenderParts(dict, part.cache, words, ctx, k + 1))
  {
  }

  /** The turn at a word token renders the unit the lookahead gathers. */
  lemma {:induction false} WordTurnUnit(dict: map<string, string>, cache: map<string, string>, tokens: seq<Token>,
                                        i: nat, start: bool, prev: string)
    requires i < |tokens| && tokens[i].Word?
    ensures var u := Gather(tokens, prev, [tokens[i].text], i + 1);
            var unit := RenderUnit(dict, cache, u.words, Context(start, prev));
            WordTurn(dict, cache, tokens, i, start, prev)
            == After(unit.out, Drive(dict, unit.cache, tokens, u.next, false, u.words[|u.words| - 1]))
  {
  }

  /** A word token: its unit, then the rest of the text after the unit. */
  lemma {:induction false} UnitStep(dict: map<string, string>, cache: map<string, string>, tokens: seq<Token>,
                 i: nat, start: bool, prev: string, words: seq<string>, next: nat)
    requires i < |tokens| && tokens[i].Word?
    requires Gather(tokens, prev, [tokens[i].text], i + 1) == Unit(words, next)
    ensures words != [] && next <= |tokens|
    ensures Drive(dict, cache, tokens, i, start, prev)
            == After(RenderUnit(dict, cache, words, Context(start, prev)).out,
                     Drive(dict, RenderUnit(dict, cache, words, Context(start, prev)).cache,
                           tokens, next, false, words[|words| - 1]))
  {
    WordTurnUnit(dict, cache, tokens, i, start, prev);
  }

  /** A whitespace token is copied. */
  lemma {:induction false} SpaceStep(dict: map<string, string>, cache: map<string, string>, tokens: seq<Token>,
                  i: nat, start: bool, prev: string)
    requires i < |tokens| && tokens[i].Space?
    ensures Drive(dict, cache, tokens, i, start, prev)
            == After([tokens[i].ch], Drive(dict, cache, tokens, i + 1, start, prev))
  {
  }

  /** A punctuation token is mapped through PUNCTUATION; `.`, `?` and `!`
      open a new sentence, and the mark becomes the previous word. */
  lemma {:induction false} PunctStep(dict: map<string, string>, cache: map<string, string>, tokens: seq<Token>,
                  i: nat, start: bool, prev: string)
    requires i < |tokens| && tokens[i].Punct?
    ensures var c := tokens[i].ch;
            Drive(dict, cache, tokens, i, start, prev)
            == After(PunctText(c), Drive(dict, cache, tokens, i + 1, start || c == '.' || c == '?' || c == '!', [c]))
  {
  }

  // ---------------------------------------------------------------------------
  // What the driver promises
  // ---------------------------------------------------------------------------

  /** A one-word text is its word, resolved at the start of a sentence and
      through the cache. */
  lemma {:induction false} OneWordText(dict: map<string, string>, cache: map<string, string>, w: string)
    requires w != [] && forall k :: 0 <= k < |w| ==> IsWordChar(w[k])
    ensures TransliterateText(dict, cache, w) == Cached(dict, cache, w, Context(true, ""))
  {
    WordLengthOfRun(w, []);
    assert w + [] == w;
    assert Tokens(w) == [Word(w)] + Tokens(w[|w|..]);
    assert Tokens(w) == [Word(w)];
    var tokens := Tokens(w);
    assert Gather(tokens, "", [w], 1) == Unit([w], 1);
    var unit := RenderUnit(dict, cache, [w], Context(true, ""));
    UnitStep(dict, cache, tokens, 0, true, "", [w], 1);
    assert Drive(dict, unit.cache, tokens, 1, false, w) == Lookup("", unit.cache);
    assert unit.out + "" == unit.out;
  }

  /** A word one space after `a` that joins it opens a unit starting with
      both words, and the space between them is not written. When the
      joined unit is a dictionary word, the output starts with its entry;
      otherwise it starts with `a` rendered in the unit's context followed
      directly by `b` rendered after `a`. */
  lemma {:induction false} SuffixJoinsWithoutSpace(dict: map<string, string>, cache: map<string, string>,
                                                   tokens: seq<Token>, i: nat, start: bool, prev: string,
                                                   a: string, b: string)
    requires i + 2 < |tokens| && tokens[i] == Word(a) && tokens[i + 1].Space? && tokens[i + 2] == Word(b)
    requires JoinsNext(prev, a, b)
    ensures var u := Gather(tokens, prev, [a], i + 1);
            |u.words| >= 2 && u.words[..2] == [a, b] && i + 3 <= u.next
    ensures var u := Gather(tokens, prev, [a], i + 1);
            Lower(Join(u.words)) in dict ==>
              dict[Lower(Join(u.words))] <= Drive(dict, cache, tokens, i, start, prev).out
    ensures var u := Gather(tokens, prev, [a], i + 1);
            var first := Cached(dict, cache, a, Context(start, prev));
            var second := Cached(dict, first.cache, b, Context(false, a));
            Lower(Join(u.words)) !in dict ==>
              first.out + second.out <= Drive(dict, cache, tokens, i, start, prev).out
  {
    var u := JoinedUnit(tokens, i, prev, a, b);
    var ctx := Context(start, prev);
    UnitStep(dict, cache, tokens, i, start, prev, u.words, u.next);
    var rest := Drive(dict, RenderUnit(dict, cache, u.words, ctx).cache, tokens, u.next, false, u.words[|u.words| - 1]);
    if Lower(Join(u.words)) in dict {
      PrefixOfAfter(dict[Lower(Join(u.words))], rest);
    } else {
      PartsStartWithPair(dict, cache, u.words, ctx, rest);
    }
  }

  /** The unit the lookahead gathers from `a` when `b` joins it. */
  lemma {:induction false} JoinedUnit(tokens: seq<Token>, i: nat, prev: string, a: string, b: string) returns (u: Unit)
    requires i + 2 < |tokens| && tokens[i] == Word(a) && tokens[i + 1].Space? && tokens[i + 2] == Word(b)
    requires JoinsNext(prev, a, b)
    ensures u == Gather(tokens, prev, [a], i + 1) && u == Gather(tokens, prev, [a, b], i + 3)
    ensures |u.words| >= 2 && u.words[..2] == [a, b] && u.words[0] == a && u.words[1] == b && i + 3 <= u.next
  {
    u := Gather(tokens, prev, [a], i + 1);
    assert [a] + [tokens[i + 2].text] == [a, b];
    assert u == Gather(tokens, prev, [a, b], i + 3);
    assert u.words[..2] == [a, b];
    assert u.words[0] == u.words[..2][0] && u.words[1] == u.words[..2][1];
  }

  /** The parts of a unit of two words or more, followed by anything, start
      with the first word in the unit's context and the second after it. */
  lemma {:induction false} PartsStartWithPair(dict: map<string, string>, cache: map<string, string>,
                                              words: seq<string>, ctx: Context, rest: Lookup)
    requires |words| >= 2
    ensures var first := Cached(dict, cache, words[0], ctx);
            var second := Cached(dict, first.cache, words[1], Context(false, words[0]));
            first.out + second.out <= RenderParts(dict, cache, words, ctx, 0).out + rest.out
  {
    var first := Cached(dict, cache, words[0], ctx);
    var second := Cached(dict, first.cache, words[1], Context(false, words[0]));
    PartStep(dict, cache, words, ctx, 0);
    PartStep(dict, first.cache, words, ctx, 1);
    assert PartContext(ctx, words, 1) == Context(false, words[0]);
    var tail := RenderParts(dict, second.cache, words, ctx, 2);
    assert RenderParts(dict, cache, words, ctx, 0).out == first.out + (second.out + tail.out);
    PrefixOfAppend(first.out + second.out, tail.out + rest.out);
  }

  lemma {:induction false} PrefixOfAppend(x: string, y: string)
    ensures x <= x + y
  {
    assert (x + y)[..|x|] == x;
  }

  /** When nothing joins after `b` and the pair is not a dictionary word,
      the unit is exactly the two renderings, and the turn resumes after
      `b` with `b` as the previous word. */
  lemma {:induction false} PairUnitIsWholeTurn(dict: map<string, string>, cache: map<string, string>,
                                               tokens: seq<Token>, i: nat, start: bool, prev: string,
                                               a: string, b: string)
    requires i + 2 < |tokens| && tokens[i] == Word(a) && tokens[i + 1].Space? && tokens[i + 2] == Word(b)
    requires JoinsNext(prev, a, b)
    requires i + 3 == |tokens| || !tokens[i + 3].Space?
    requires Lower(Join([a, b])) !in dict
    ensures var first := Cached(dict, cache, a, Context(start, prev));
            var second := Cached(dict, first.cache, b, Context(false, a));
            Drive(dict, cache, tokens, i, start, prev)
            == After(first.out + second.out, Drive(dict, second.cache, tokens, i + 3, false, b))
  {
    assert Gather(tokens, prev, [a], i + 1) == Gather(tokens, prev, [a, b], i + 3);
    assert Gather(tokens, prev, [a, b], i + 3) == Unit([a, b], i + 3);
    UnitStep(dict, cache, tokens, i, start, prev, [a, b], i + 3);
    TwoPartUnit(dict, cache, a, b, Context(start, prev));
  }

  /** A word that does not join the word before it keeps the space: the
      first word is a unit of its own, the space is copied, and the next
      turn starts at the second word with the first as the previous word. */
  lemma {:induction false} SeparateWordKeepsSpace(dict: map<string, string>, cache: map<string, string>,
                                                  tokens: seq<Token>, i: nat, start: bool, prev: string,
                                                  a: string, b: string)
    requires i + 2 < |tokens| && tokens[i] == Word(a) && tokens[i + 1].Space? && tokens[i + 2] == Word(b)
    requires !JoinsNext(prev, a, b)
    ensures var first := Cached(dict, cache, a, Context(start, prev));
            Drive(dict, cache, tokens, i, start, prev)
            == After(first.out + [tokens[i + 1].ch], Drive(dict, first.cache, tokens, i + 2, false, a))
  {
    assert Gather(tokens, prev, [a], i + 1) == Unit([a], i + 1);
    UnitStep(dict, cache, tokens, i, start, prev, [a], i + 1);
    SpaceStep(dict, Cached(dict, cache, a, Context(start, prev)).cache, tokens, i + 1, false, a);
  }

  lemma {:induction false} PrefixOfAfter(s: string, l: Lookup)
    ensures s <= After(s, l).out
  {
    assert After(s, l).out[..|s|] == s;
  }

  /** A two-word unit missing from the dictionary: both words through the
      cache, the second in the context of the first. */
  lemma {:induction false} TwoPartUnit(dict: map<string, string>, cache: map<string, string>,
                                       a: string, b: string, ctx: Context)
    requires Lower(Join([a, b])) !in dict
    ensures var first := Cached(dict, cache, a, ctx);
            var second := Cached(dict, first.cache, b, Context(false, a));
            RenderUnit(dict, cache, [a, b], ctx) == Lookup(first.out + second.out, second.cache)
  {
    var first := Cached(dict, cache, a, ctx);
    var second := Cached(dict, first.cache, b, Context(false, a));
    PartStep(dict, cache, [a, b], ctx, 0);
    PartStep(dict, first.cache, [a, b], ctx, 1);
    assert RenderParts(dict, second.cache, [a, b], ctx, 2) == Lookup("", second.cache);
    assert second.out + "" == second.out;
  }

  /** A full stop opens a new sentence: it is written as the danda, and a
      `ma` standing alone after it and a space is the pronoun म. */
  lemma {:induction false} MaAfterFullStop(dict: map<string, string>, cache: map<string, string>, tokens: seq<Token>,
                        i: nat, start: bool, prev: string, w: string)
    requires i + 2 < |tokens| && tokens[i] == Punct('.') && tokens[i + 1].Space? && tokens[i + 2] == Word(w)
    requires Lower(w) == "ma"
    requires i + 3 == |tokens| || !tokens[i + 3].Space?
    ensures Drive(dict, cache, tokens, i, start, prev)
            == After("।" + [tokens[i + 1].ch] + "म", Drive(dict, cache, tokens, i + 3, false, w))
  {
    PunctStep(dict, cache, tokens, i, start, prev);
    SpaceStep(dict, cache, tokens, i + 1, true, ".");
    GatherStops(tokens, ".", [w], i + 3);
    UnitStep(dict, cache, tokens, i + 2, true, ".", [w], i + 3);
    MaUnitAtSentenceStart(dict, cache, w, ".");
    FullStopIsDanda();
    AfterThree("।", [tokens[i + 1].ch], "म", Drive(dict, cache, tokens, i + 3, false, w));
  }

  /** The lookahead adds nothing when the next token is not a space. */
  lemma {:induction false} GatherStops(tokens: seq<Token>, unitPrev: string, words: seq<string>, j: nat)
    requires words != [] && j <= |tokens|
    requires j == |tokens| || !tokens[j].Space?
    ensures Gather(tokens, unitPrev, words, j) == Unit(words, j)
  {
  }

  /** A lone `ma` at a sentence start is rendered म and leaves the cache as
      it is. */
  lemma {:induction false} MaUnitAtSentenceStart(dict: map<string, string>, cache: map<string, string>, w: string, prev: string)
    requires Lower(w) == "ma"
    ensures RenderUnit(dict, cache, [w], Context(true, prev)) == Lookup("म", cache)
  {
    MaAtSentenceStart(dict, w, prev);
  }

  lemma {:induction false} FullStopIsDanda()
    ensures PunctText('.') == "।"
  {
  }

  lemma {:induction false} AfterThree(a: string, b: string, c: string, l: Lookup)
    ensures After(a, After(b, After(c, l))) == After(a + b + c, l)
  {
    assert a + (b + (c + l.out)) == (a + b + c) + l.out;
  }

  lemma {:induction false} PunctuationNoLatin(c: char)
    requires IsPunctuation(c)
    ensures NoLatin(PunctText(c))
  {
    PunctuationKeys(c);
  }

  lemma {:induction false} CachedNoLatin(dict: map<string, string>, cache: map<string, string>, word: string, ctx: Context)
    requires MapNoLatin(dict) && MapNoLatin(cache)
    ensures NoLatin(Cached(dict, cache, word, ctx).out) && MapNoLatin(Cached(dict, cache, word, ctx).cache)
  {
    TransliterateWordNoLatin(dict, word, ctx);
  }

  lemma {:induction false} RenderPartsNoLatin(dict: map<string, string>, cache: map<string, string>,
                                              words: seq<string>, ctx: Context, k: nat)
    requires k <= |words| && MapNoLatin(dict) && MapNoLatin(cache)
    ensures NoLatin(RenderParts(dict, cache, words, ctx, k).out)
    ensures MapNoLatin(RenderParts(dict, cache, words, ctx, k).cache)
    decreases |words| - k
  {
    if k < |words| {
      var part := Cached(dict, cache, words[k], PartContext(ctx, words, k));
      CachedNoLatin(dict, cache, words[k], PartContext(ctx, words, k));
      RenderPartsNoLatin(dict, part.cache, words, ctx, k + 1);
      PartStep(dict, cache, words, ctx, k);
      NoLatinAppend(part.out, RenderParts(dict, part.cache, words, ctx, k + 1).out);
    }
  }

  lemma {:induction false} RenderUnitNoLatin(dict: map<string, string>, cache: map<string, string>,
                                             words: seq<string>, ctx: Context)
    requires words != [] && MapNoLatin(dict) && MapNoLatin(cache)
    ensures NoLatin(RenderUnit(dict, cache, words, ctx).out)
    ensures MapNoLatin(RenderUnit(dict, cache, words, ctx).cache)
  {
    if |words| == 1 {
      CachedNoLatin(dict, cache, words[0], ctx);
    } else if Lower(Join(words)) !in dict {
      RenderPartsNoLatin(dict, cache, words, ctx, 0);
    }
  }

  lemma {:induction false} DriveNoLatin(dict: map<string, string>, cache: map<string, string>, tokens: seq<Token>,
                                        i: nat, start: bool, prev: string)
    requires i <= |tokens| && MapNoLatin(dict) && MapNoLatin(cache)
    requires forall k :: 0 <= k < |tokens| ==> WellFormed(tokens[k])
    ensures NoLatin(Drive(dict, cache, tokens, i, start, prev).out)
    ensures MapNoLatin(Drive(dict, cache, tokens, i, start, prev).cache)
    decreases |tokens| - i, 1
  {
    if i < |tokens| {
      assert WellFormed(tokens[i]);
      match tokens[i]
      case Word(_) => {
        WordTurnNoLatin(dict, cache, tokens, i, start, prev);
      }
      case Space(c) => {
        SpaceStep(dict, cache, tokens, i, start, prev);
        DriveNoLatin(dict, cache, tokens, i + 1, start, prev);
        assert NoLatin([c]) by {
          assert !IsAsciiLetter(c);
        }
        NoLatinAppend([c], Drive(dict, cache, tokens, i + 1, start, prev).out);
      }
      case Punct(c) => {
        var start' := start || c == '.' || c == '?' || c == '!';
        PunctStep(dict, cache, tokens, i, start, prev);
        DriveNoLatin(dict, cache, tokens, i + 1, start', [c]);
        PunctuationNoLatin(c);
        NoLatinAppend(PunctText(c), Drive(dict, cache, tokens, i + 1, start', [c]).out);
      }
    }
  }

  lemma {:induction false} WordTurnNoLatin(dict: map<string, string>, cache: map<string, string>, tokens: seq<Token>,
                                           i: nat, start: bool, prev: string)
    requires i < |tokens| && tokens[i].Word? && MapNoLatin(dict) && MapNoLatin(cache)
    requires forall k :: 0 <= k < |tokens| ==> WellFormed(tokens[k])
    ensures NoLatin(WordTurn(dict, cache, tokens, i, start, prev).out)
    ensures MapNoLatin(WordTurn(dict, cache, tokens, i, start, prev).cache)
    decreases |tokens| - i, 0
  {
    var u := Gather(tokens, prev, [tokens[i].text], i + 1);
    var ctx := Context(start, prev);
    var unit := RenderUnit(dict, cache, u.words, ctx);
    var last := u.words[|u.words| - 1];
    WordTurnUnit(dict, cache, tokens, i, start, prev);
    RenderUnitNoLatin(dict, cache, u.words, ctx);
    DriveNoLatin(dict, unit.cache, tokens, u.next, false, last);
    NoLatinAppend(unit.out, Drive(dict, unit.cache, tokens, u.next, false, last).out);
  }

  /** When the dictionary and the cache hold Devanagari only, so does the
      transliteration of any text, and so does the cache afterwards: every
      Latin letter of the input is transliterated, and spaces and
      punctuation carry none. */
  lemma {:induction false} TransliterationHasNoLatin(dict: map<string, string>, cache: map<string, string>, text: string)
    requires MapNoLatin(dict) && MapNoLatin(cache)
    ensures NoLatin(TransliterateText(dict, cache, text).out)
    ensures MapNoLatin(TransliterateText(dict, cache, text).cache)
  {
    if text != "" {
      TokensAreTokenization(text);
      DriveNoLatin(dict, cache, Tokens(text), 0, true, "");
    }
  }

  // ---------------------------------------------------------------------------
  // The transliterator object
  // ---------------------------------------------------------------------------

  class Transliterator {
    /** WORD_DICT. */
    const dict: map<string, string>
    /** Renderings already computed, by lower-cased word. */
    var cache: map<string, string>

    /** The cache is keyed by lower-cased words other than `ma`. */
    ghost predicate Valid()
      reads this
    {
      KeysValid(cache)
    }

    constructor(dict: map<string, string>)
      ensures this.dict == dict && cache == map[]
      ensures Valid()
    {
      this.dict := dict;
      cache := map[];
    }

    method GetCached(word: string, context: Context) returns (r: string)
      requires Valid()
      modifies this
      ensures Lookup(r, cache) == Cached(dict, old(cache), word, context)
      ensures Valid() && Extends(old(cache), cache)
    {
      CachedLookup(dict, cache, word, context);
      var wordLower := Lower(word);
      if wordLower == "ma" {
        r := TransliterateWord(dict, word, context);
        return;
      }
      if wordLower !in cache {
        cache := cache[wordLower := TransliterateWord(dict, word, context)];
      }
      r := cache[wordLower];
    }

    method Transliterate(text: string) returns (r: string)
      requires Valid()
      modifies this
      ensures Lookup(r, cache) == TransliterateText(dict, old(cache), text)
      ensures Valid() && Extends(old(cache), cache)
    {
      TransliterateTextKeepsCache(dict, cache, text);
      if text == "" {
        r := "";
        return;
      }
      var tokens := Tokenize(text);
      r := RenderTokens(tokens);
    }

    /** The main loop of `transliterate`, over the tokens of the text. */
    method RenderTokens(tokens: seq<Token>) returns (r: string)
      requires Valid()
      modifies this
      ensures Lookup(r, cache) == Drive(dict, old(cache), tokens, 0, true, "")
      ensures Valid() && Extends(old(cache), cache)
    {
      DriveKeepsCache(dict, cache, tokens, 0, true, "");
      var result: seq<string> := [];
      var i := 0;
      var isSentenceStart := true;
      var prevWord := "";
      ghost var goal := Drive(dict, cache, tokens, 0, true, "");
      AfterEmpty(goal);
      while i < |tokens|
        invariant i <= |tokens| && Valid()
        invariant After(Join(result), Drive(dict, cache, tokens, i, isSentenceStart, prevWord)) == goal
        decreases |tokens| - i
      {
        match tokens[i]
        case Word(tval) => {
          var context := Context(isSentenceStart, prevWord);
          var wordsToJoin, j := LookAhead(tokens, i, prevWord);
          UnitStep(dict, cache, tokens, i, isSentenceStart, prevWord, wordsToJoin, j);
          var rendered := RenderWords(wordsToJoin, context);
          AfterAppend(result, rendered, Drive(dict, cache, tokens, j, false, wordsToJoin[|wordsToJoin| - 1]));
          result := result + [rendered];
          prevWord := wordsToJoin[|wordsToJoin| - 1];
          isSentenceStart := false;
          i := j;
        }
        case Space(tval) => {
          SpaceStep(dict, cache, tokens, i, isSentenceStart, prevWord);
          AfterAppend(result, [tval], Drive(dict, cache, tokens, i + 1, isSentenceStart, prevWord));
          result := result + [[tval]];
          i := i + 1;
        }
        case Punct(tval) => {
          PunctStep(dict, cache, tokens, i, isSentenceStart, prevWord);
          AfterAppend(result, PunctText(tval), Drive(dict, cache, tokens, i + 1,
                      isSentenceStart || tval == '.' || tval == '?' || tval == '!', [tval]));
          result := result + [PunctText(tval)];
          if tval == '.' || tval == '?' || tval == '!' {
            isSentenceStart := true;
          }
          prevWord := [tval];
          i := i + 1;
        }
      }
      assert Join(result) + "" == Join(result);
      r := Join(result);
    }

    /** The lookahead of `transliterate` for the word at token `i`: collect
        the words that follow it, each after a single space, while they
        join. */
    method LookAhead(tokens: seq<Token>, i: nat, prevWord: string) returns (wordsToJoin: seq<string>, j: nat)
      requires i < |tokens| && tokens[i].Word?
      ensures Unit(wordsToJoin, j) == Gather(tokens, prevWord, [tokens[i].text], i + 1)
    {
      wordsToJoin := [tokens[i].text];
      j := i + 1;
      while j < |tokens|
        invariant i + 1 <= j <= |tokens| && wordsToJoin != []
        invariant Gather(tokens, prevWord, wordsToJoin, j) == Gather(tokens, prevWord, [tokens[i].text], i + 1)
        decreases |tokens| - j
      {
        if tokens[j].Space? && j + 1 < |tokens| && tokens[j + 1].Word? {
          var nextWord := tokens[j + 1].text;
          var nextLower := Lower(nextWord);
          var prevLower := Lower(wordsToJoin[|wordsToJoin| - 1]);
          if (prevLower, nextLower) in COMPOUND_PAIRS {
            wordsToJoin := wordsToJoin + [nextWord];
            j := j + 2;
            continue;
          }
          if nextLower in JOINING_SUFFIXES {
            var isJoiningSuffix := true;
            if nextLower == "ma" {
              if EndsWith(prevWord, ",") {
                isJoiningSuffix := false;
              } else if MaAsPronounAfter(prevLower) {
                isJoiningSuffix := false;
              } else if EndsWith(prevLower, ",") {
                isJoiningSuffix := false;
              }
            }
            if isJoiningSuffix && prevLower !in NO_JOIN_WORDS {
              wordsToJoin := wordsToJoin + [nextWord];
              j := j + 2;
              continue;
            }
          }
        }
        assert Gather(tokens, prevWord, wordsToJoin, j) == Unit(wordsToJoin, j);
        break;
      }
    }

    /** The rendering of one unit by `transliterate`: a single word through
        the cache; joined words as one dictionary word, or else part by part
        through the cache. */
    method RenderWords(wordsToJoin: seq<string>, context: Context) returns (rendered: string)
      requires wordsToJoin != [] && Valid()
      modifies this
      ensures Lookup(rendered, cache) == RenderUnit(dict, old(cache), wordsToJoin, context)
      ensures Valid() && Extends(old(cache), cache)
    {
      RenderUnitKeepsCache(dict, cache, wordsToJoin, context);
      if |wordsToJoin| == 1 {
        rendered := GetCached(wordsToJoin[0], context);
      } else {
        var combinedLower := Lower(Join(wordsToJoin));
        if combinedLower in dict {
          rendered := dict[combinedLower];
        } else {
          ghost var unit := RenderParts(dict, cache, wordsToJoin, context, 0);
          var parts: seq<string> := [];
          AfterEmpty(unit);
          for k := 0 to |wordsToJoin|
            invariant Valid()
            invariant After(Join(parts), RenderParts(dict, cache, wordsToJoin, context, k)) == unit
          {
            var partContext := if k == 0 then context else Context(false, wordsToJoin[k - 1]);
            PartStep(dict, cache, wordsToJoin, context, k);
            var s := GetCached(wordsToJoin[k], partContext);
            AfterAppend(parts, s, RenderParts(dict, cache, wordsToJoin, context, k + 1));
            parts := parts + [s];
          }
          rendered := Join(parts);
          assert rendered + "" == rendered;
        }
      }
    }
  }
}
