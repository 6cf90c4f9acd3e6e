/**
 * Model of the word generation half of src/gameplay/typingEngine.ts: `KEYS_TO_PRACTICE`,
 * `generateWords` and `getWordGenerationOptionsByLevel`.
 *
 * `Math.random()` is an oracle `rnd`: draw number k returns `rnd(k)`, a real in [0, 1).
 */
module WordGeneration {
  import opened Wrappers

  /** `KEYS_TO_PRACTICE`: the alphabet the engine draws words from. */
  const KeysToPractice: seq<char> := "asdufghjkl;qwerty"

  /** Every word the engine generates has this many letters. */
  const WordLength: int := 4

  /** A value of `Math.random()`. */
  type Unit = r: real | 0.0 <= r < 1.0

  /** The sequence of values `Math.random()` returns, draw by draw. */
  type Oracle = nat -> Unit

  /** `Math.floor(r * n)`: for `n > 0` an index in `[0, n)`. */
  function RandomIndex(r: Unit, n: int): (i: int)
    ensures n > 0 ==> 0 <= i < n
    ensures n == 0 ==> i == 0
  {
    if n > 0 then
      ScaledBelow(r, n as real);
      (r * n as real).Floor
    else
      (r * n as real).Floor
  }

  lemma ScaledBelow(r: Unit, x: real)
    requires x > 0.0
    ensures 0.0 <= r * x < x
  {
    assert (1.0 - r) * x > 0.0;
  }

  /** The two shapes of `GenerateWordsOptions`: a fixed length or a `[minLength, maxLength)` range. */
  datatype WordLengthOption = Length(length: int) | MinMax(minLength: int, maxLength: int)

  datatype GenerateWordsOptions = GenerateWordsOptions(count: int, wordLength: WordLengthOption)

  /** Every letter of `word` is one of `keys`. */
  predicate DrawnFrom(word: string, keys: seq<char>) {
    forall m :: 0 <= m < |word| ==> word[m] in keys
  }

  predicate Distinct<T(==)>(s: seq<T>) {
    forall i, j :: 0 <= i < j < |s| ==> s[i] != s[j]
  }

  /** The first letters of the non-empty words, in order. */
  function FirstLetters(words: seq<string>): (r: seq<char>)
    ensures |r| <= |words|
  {
    if words == [] then []
    else
      var last := words[|words| - 1];
      FirstLetters(words[..|words| - 1]) + (if last == "" then [] else [last[0]])
  }

  lemma FirstLettersAppend(words: seq<string>, word: string)
    ensures FirstLetters(words + [word]) == FirstLetters(words) + (if word == "" then [] else [word[0]])
  {
    assert (words + [word])[..|words|] == words;
  }

  /** When no word is empty there is one first letter per word. */
  lemma {:induction false} FirstLettersOfNonEmpty(words: seq<string>)
    requires forall k :: 0 <= k < |words| ==> words[k] != ""
    ensures |FirstLetters(words)| == |words|
    ensures forall k :: 0 <= k < |words| ==> FirstLetters(words)[k] == words[k][0]
  {
    if words != [] {
      FirstLettersOfNonEmpty(words[..|words| - 1]);
    }
  }

  /** The number of words `generateWords` produces: `Math.min(possibleKeys.length, count)`, none if negative. */
  function WordCount(keyCount: nat, count: int): (n: nat)
    ensures n <= keyCount
    ensures count >= keyCount ==> n == keyCount
    ensures 0 <= count <= keyCount ==> n == count
  {
    if count < 0 then 0 else if count < keyCount then count else keyCount
  }

  /** Two equal elements at different positions make a count of at least two. */
  lemma CountOfRepeated<T>(s: seq<T>, i: int, j: int)
    requires 0 <= i < j < |s|
    ensures s[i] == s[j] ==> multiset(s)[s[i]] >= 2
  {
    if s[i] == s[j] {
      assert s == s[..i] + [s[i]] + s[i + 1..j] + [s[j]] + s[j + 1..];
    }
  }

  /** In a sequence without repeats every element occurs at most once. */
  lemma {:induction false} DistinctCountsAtMostOne<T>(s: seq<T>, x: T)
    requires Distinct(s)
    ensures multiset(s)[x] <= 1
  {
    if s != [] {
      assert s == [s[0]] + s[1..];
      assert s[0] !in s[1..];
      DistinctCountsAtMostOne(s[1..], x);
    }
  }

  /** Whatever fits inside a repeat-free multiset has no repeats either. */
  lemma SubMultisetOfDistinct<T>(s: seq<T>, t: seq<T>)
    requires multiset(s) <= multiset(t)
    requires Distinct(t)
    ensures Distinct(s)
  {
    forall i, j | 0 <= i < j < |s| ensures s[i] != s[j] {
      CountOfRepeated(s, i, j);
      DistinctCountsAtMostOne(t, s[i]);
    }
  }

  lemma KeysToPracticeDistinct()
    ensures |KeysToPractice| == 17
    ensures Distinct(KeysToPractice)
  {
    forall i, j | 0 <= i < j < |KeysToPractice| ensures KeysToPractice[i] != KeysToPractice[j] {
      assert KeysToPractice[i] == "asdufghjkl;qwerty"[i];
    }
  }

  /**
   * A word length the options allow: exactly `length` letters (none if negative), or
   * between `minLength` and `maxLength - 1` when that range is non-empty and non-negative.
   */
  predicate FitsLength(option: WordLengthOption, n: int) {
    match option
    case Length(length) => n == (if length < 0 then 0 else length)
    case MinMax(minLength, maxLength) => 0 <= minLength < maxLength ==> minLength <= n < maxLength
  }

  /** Every word is drawn from `keys` and has a length `option` allows. */
  predicate WellFormedWords(words: seq<string>, keys: seq<char>, option: WordLengthOption) {
    forall k :: 0 <= k < |words| ==> DrawnFrom(words[k], keys) && FitsLength(option, |words[k]|)
  }

  lemma AppendWellFormed(words: seq<string>, word: string, keys: seq<char>, option: WordLengthOption)
    requires WellFormedWords(words, keys, option)
    requires DrawnFrom(word, keys) && FitsLength(option, |word|)
    ensures WellFormedWords(words + [word], keys, option)
  {
    assert forall k :: 0 <= k < |words| ==> (words + [word])[k] == words[k];
  }

  /** With a fixed positive length every word has exactly that many letters. */
  lemma FixedLengthWords(words: seq<string>, keys: seq<char>, length: int)
    requires WellFormedWords(words, keys, Length(length))
    requires length >= 1
    ensures forall k :: 0 <= k < |words| ==> |words[k]| == length && words[k] != ""
  {
  }

  /** The word length one iteration of `generateWords` uses; a range draws it from the oracle. */
  method DrawWordLength(option: WordLengthOption, rnd: Oracle, draw: nat) returns (wordLength: int, nextDraw: nat)
    ensures option.Length? ==> wordLength == option.length && nextDraw == draw
    ensures option.MinMax? && option.minLength < option.maxLength ==>
      option.minLength <= wordLength < option.maxLength
    ensures FitsLength(option, if wordLength < 0 then 0 else wordLength)
  {
    match option {
      case Length(length) =>
        wordLength, nextDraw := length, draw;
      case MinMax(minLength, maxLength) =>
        wordLength := RandomIndex(rnd(draw), maxLength - minLength) + minLength;
        nextDraw := draw + 1;
    }
  }

  /**
   * The inner loop of `generateWords`: builds one word of `wordLength` letters. The first
   * letter is taken out of `availableFirstLetters` at a random index; the others are any keys.
   */
  method BuildWord(possibleKeys: seq<char>, availableFirstLetters: seq<char>, wordLength: int, rnd: Oracle, draw: nat)
    returns (word: string, remaining: seq<char>, nextDraw: nat)
    requires forall c :: c in availableFirstLetters ==> c in possibleKeys
    requires wordLength >= 1 ==> |availableFirstLetters| > 0
    ensures |word| == (if wordLength < 0 then 0 else wordLength)
    ensures DrawnFrom(word, possibleKeys)
    ensures forall c :: c in remaining ==> c in possibleKeys
    ensures word == "" ==> remaining == availableFirstLetters
    ensures word != "" ==> multiset(remaining) + multiset{word[0]} == multiset(availableFirstLetters)
    ensures word != "" ==> |remaining| + 1 == |availableFirstLetters|
  {
    word, remaining, nextDraw := "", availableFirstLetters, draw;
    var characterIndex := 0;
    while characterIndex < wordLength
      invariant 0 <= characterIndex
      invariant wordLength >= 0 ==> characterIndex <= wordLength
      invariant wordLength < 0 ==> characterIndex == 0
      invariant |word| == characterIndex
      invariant forall m :: 0 <= m < |word| ==> word[m] in possibleKeys
      invariant forall c :: c in remaining ==> c in possibleKeys
      invariant characterIndex == 0 ==> remaining == availableFirstLetters
      invariant characterIndex > 0 ==> multiset(remaining) + multiset{word[0]} == multiset(availableFirstLetters)
      invariant characterIndex > 0 ==> |remaining| + 1 == |availableFirstLetters|
    {
      if characterIndex == 0 {
        var i := RandomIndex(rnd(nextDraw), |remaining|);
        nextDraw := nextDraw + 1;
        var firstLetter := remaining[i];
        assert remaining == remaining[..i] + [firstLetter] + remaining[i + 1..];
        remaining := remaining[..i] + remaining[i + 1..];
        word := word + [firstLetter];
      } else {
        assert word[0] in possibleKeys;
        var i := RandomIndex(rnd(nextDraw), |possibleKeys|);
        nextDraw := nextDraw + 1;
        word := word + [possibleKeys[i]];
      }
      characterIndex := characterIndex + 1;
    }
  }

  /**
   * `generateWords`: as many words as there are keys, at most; each word's first letter
   * is drawn from the keys not yet used as a first letter and removed from them
   * (`splice`), its other letters from all keys. `warned` says whether the `console.warn`
   * about the count being cut down to the number of keys was logged.
   */
  method GenerateWords(possibleKeys: seq<char>, options: GenerateWordsOptions, rnd: Oracle)
    returns (words: seq<string>, warned: bool)
    ensures warned <==> options.count > |possibleKeys|
    ensures |words| == WordCount(|possibleKeys|, options.count)
    ensures WellFormedWords(words, possibleKeys, options.wordLength)
    ensures multiset(FirstLetters(words)) <= multiset(possibleKeys)
    ensures Distinct(possibleKeys) ==> Distinct(FirstLetters(words))
    ensures |words| == |possibleKeys| && (forall k :: 0 <= k < |words| ==> words[k] != "") ==>
      multiset(FirstLetters(words)) == multiset(possibleKeys)
    ensures Generated(possibleKeys, options, words)
  {
    var wordCount := if options.count < |possibleKeys| then options.count else |possibleKeys|;
    warned := wordCount != options.count;
    words := [];
    var availableFirstLetters := possibleKeys;
    var draw: nat := 0;
    var wordIndex := 0;
    while wordIndex < wordCount
      invariant 0 <= wordIndex
      invariant wordCount >= 0 ==> wordIndex <= wordCount
      invariant wordCount < 0 ==> wordIndex == 0
      invariant |words| == wordIndex
      invariant WellFormedWords(words, possibleKeys, options.wordLength)
      invariant multiset(FirstLetters(words)) + multiset(availableFirstLetters) == multiset(possibleKeys)
      invariant |FirstLetters(words)| + |availableFirstLetters| == |possibleKeys|
      invariant forall c :: c in availableFirstLetters ==> c in possibleKeys
    {
      var wordLength;
      wordLength, draw := DrawWordLength(options.wordLength, rnd, draw);
      var word, remaining;
      word, remaining, draw := BuildWord(possibleKeys, availableFirstLetters, wordLength, rnd, draw);
      AppendWordKeepsLetters(words, word, availableFirstLetters, remaining, possibleKeys);
      AppendWellFormed(words, word, possibleKeys, options.wordLength);
      words, availableFirstLetters := words + [word], remaining;
      wordIndex := wordIndex + 1;
    }
    if Distinct(possibleKeys) {
      SubMultisetOfDistinct(FirstLetters(words), possibleKeys);
    }
    FirstLettersExhaustKeys(words, availableFirstLetters, possibleKeys);
  }

  /** Everything `generateWords(keys, options)` promises about its result `words`. */
  predicate Generated(keys: seq<char>, options: GenerateWordsOptions, words: seq<string>) {
    && |words| == WordCount(|keys|, options.count)
    && WellFormedWords(words, keys, options.wordLength)
    && multiset(FirstLetters(words)) <= multiset(keys)
    && (Distinct(keys) ==> Distinct(FirstLetters(words)))
    && (|words| == |keys| && (forall k :: 0 <= k < |words| ==> words[k] != "") ==>
          multiset(FirstLetters(words)) == multiset(keys))
  }

  /** Appending a word whose first letter came out of the available letters keeps the letter accounting. */
  lemma AppendWordKeepsLetters(words: seq<string>, word: string, available: seq<char>, remaining: seq<char>, keys: seq<char>)
    requires multiset(FirstLetters(words)) + multiset(available) == multiset(keys)
    requires |FirstLetters(words)| + |available| == |keys|
    requires word == "" ==> remaining == available
    requires word != "" ==> multiset(remaining) + multiset{word[0]} == multiset(available)
    requires word != "" ==> |remaining| + 1 == |available|
    ensures multiset(FirstLetters(words + [word])) + multiset(remaining) == multiset(keys)
    ensures |FirstLetters(words + [word])| + |remaining| == |keys|
  {
    FirstLettersAppend(words, word);
  }

  /** Once every key has started a word, the first letters are a permutation of the keys. */
  lemma FirstLettersExhaustKeys(words: seq<string>, available: seq<char>, keys: seq<char>)
    requires multiset(FirstLetters(words)) + multiset(available) == multiset(keys)
    requires |FirstLetters(words)| + |available| == |keys|
    ensures |words| == |keys| && (forall k :: 0 <= k < |words| ==> words[k] != "") ==>
      multiset(FirstLetters(words)) == multiset(keys)
  {
    if |words| == |keys| && (forall k :: 0 <= k < |words| ==> words[k] != "") {
      FirstLettersOfNonEmpty(words);
      assert available == [];
    }
  }

  /**
   * `getWordGenerationOptionsByLevel`: a hundred four-letter words per level, so from level 1
   * on every one of up to a hundred keys, `KEYS_TO_PRACTICE` among them, starts a word.
   */
  function WordGenerationOptionsByLevel(level: int): (options: GenerateWordsOptions)
    ensures options.wordLength == Length(WordLength)
    ensures level >= 1 ==> options.count >= 100 > |KeysToPractice|
    ensures level <= 0 ==> options.count <= 0
  {
    GenerateWordsOptions(level * 100, Length(WordLength))
  }
}
