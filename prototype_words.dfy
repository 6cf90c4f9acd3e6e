/**
 * Model of the prototype `generateWords` in src/main.ts: the earlier word generator, which
 * makes exactly `count` words and draws every letter, the first included, from all keys.
 */
module PrototypeWords {
  import opened WordGeneration

  /** The prototype's own `KEYS_TO_PRACTICE`: the home row only. */
  const PrototypeKeys: seq<char> := "asdfghjkl;"

  /** What `word += possibleKeys[i]` appends: the key, or the text "undefined" past the end. */
  function KeyText(keys: seq<char>, i: int): (text: string)
    ensures 0 <= i < |keys| ==> text == [keys[i]]
    ensures !(0 <= i < |keys|) ==> text == "undefined"
  {
    if 0 <= i < |keys| then [keys[i]] else "undefined"
  }

  /** A text made of copies of "undefined", which is what a word becomes when there are no keys. */
  predicate UndefinedRun(word: string) {
    |word| % 9 == 0 && forall m :: 0 <= m < |word| ==> word[m] == "undefined"[m % 9]
  }

  /** Letter `m` of `word` is the key chosen by draw `start + m`. */
  predicate ReadsDraws(word: string, keys: seq<char>, rnd: Oracle, start: nat)
    requires |keys| > 0
  {
    forall m :: 0 <= m < |word| ==> word[m] == keys[RandomIndex(rnd(start + m), |keys|)]
  }

  lemma UndefinedRunAppend(word: string)
    requires UndefinedRun(word)
    ensures UndefinedRun(word + "undefined")
  {
    var w' := word + "undefined";
    forall m | 0 <= m < |w'| ensures w'[m] == "undefined"[m % 9] {
      if m >= |word| {
        assert (m - |word|) % 9 == m % 9;
      }
    }
  }

  /**
   * The inner loop: `wordLength` random keys. With keys every letter is one of them; with
   * none, every letter comes from the text "undefined".
   */
  method BuildWord(possibleKeys: seq<char>, wordLength: int, rnd: Oracle, draw: nat)
    returns (word: string, nextDraw: nat)
    ensures |possibleKeys| > 0 ==> |word| == (if wordLength < 0 then 0 else wordLength)
    ensures |possibleKeys| > 0 ==> DrawnFrom(word, possibleKeys)
    ensures |possibleKeys| == 0 ==> UndefinedRun(word)
    ensures |possibleKeys| == 0 ==> |word| == 9 * (if wordLength < 0 then 0 else wordLength)
    ensures |possibleKeys| > 0 ==> ReadsDraws(word, possibleKeys, rnd, draw)
    ensures nextDraw == draw + (if wordLength < 0 then 0 else wordLength)
  {
    word, nextDraw := "", draw;
    var characterIndex := 0;
    while characterIndex < wordLength
      invariant 0 <= characterIndex
      invariant wordLength >= 0 ==> characterIndex <= wordLength
      invariant wordLength < 0 ==> characterIndex == 0
      invariant |possibleKeys| > 0 ==> |word| == characterIndex
      invariant |possibleKeys| > 0 ==> DrawnFrom(word, possibleKeys)
      invariant |possibleKeys| == 0 ==> UndefinedRun(word) && |word| == 9 * characterIndex
      invariant |possibleKeys| > 0 ==> ReadsDraws(word, possibleKeys, rnd, draw)
      invariant nextDraw == draw + characterIndex
    {
      var randomIndex := RandomIndex(rnd(nextDraw), |possibleKeys|);
      nextDraw := nextDraw + 1;
      if |possibleKeys| == 0 {
        UndefinedRunAppend(word);
      }
      word := word + KeyText(possibleKeys, randomIndex);
      characterIndex := characterIndex + 1;
    }
  }

  /**
   * `generateWords` of src/main.ts: exactly `count` words (none when `count` is negative),
   * each of a length the options allow, with no limit from the number of keys and no
   * constraint on first letters.
   */
  method GenerateWords(possibleKeys: seq<char>, options: GenerateWordsOptions, rnd: Oracle)
    returns (words: seq<string>)
    ensures |words| == (if options.count < 0 then 0 else options.count)
    ensures |possibleKeys| > 0 ==> WellFormedWords(words, possibleKeys, options.wordLength)
    ensures |possibleKeys| == 0 ==> forall k :: 0 <= k < |words| ==> UndefinedRun(words[k])
    ensures |possibleKeys| > 0 && options.wordLength.Length? && options.wordLength.length >= 0 ==>
      forall k :: 0 <= k < |words| ==>
        ReadsDraws(words[k], possibleKeys, rnd, k * options.wordLength.length)
  {
    words := [];
    var draw: nat := 0;
    var wordIndex := 0;
    while wordIndex < options.count
      invariant 0 <= wordIndex
      invariant options.count >= 0 ==> wordIndex <= options.count
      invariant options.count < 0 ==> wordIndex == 0
      invariant |words| == wordIndex
      invariant |possibleKeys| > 0 ==> WellFormedWords(words, possibleKeys, options.wordLength)
      invariant |possibleKeys| == 0 ==> forall k :: 0 <= k < |words| ==> UndefinedRun(words[k])
      invariant options.wordLength.Length? && options.wordLength.length >= 0 ==>
        draw == wordIndex * options.wordLength.length
      invariant |possibleKeys| > 0 && options.wordLength.Length? && options.wordLength.length >= 0 ==>
        forall k :: 0 <= k < |words| ==>
          ReadsDraws(words[k], possibleKeys, rnd, k * options.wordLength.length)
    {
      var wordLength;
      wordLength, draw := DrawWordLength(options.wordLength, rnd, draw);
      var word;
      word, draw := BuildWord(possibleKeys, wordLength, rnd, draw);
      if |possibleKeys| > 0 {
        AppendWellFormed(words, word, possibleKeys, options.wordLength);
      }
      words := words + [word];
      wordIndex := wordIndex + 1;
    }
  }

  /**
   * Nothing keeps first letters apart: when `Math.random()` keeps returning 0, two words of
   * one letter over the prototype's keys are both "a".
   */
  method RepeatedFirstLetters() returns (words: seq<string>)
    ensures |words| == 2 && |words[0]| == 1 && |words[1]| == 1
    ensures words[0][0] == words[1][0] == 'a'
  {
    var zero: Oracle := _ => 0.0;
    words := GenerateWords(PrototypeKeys, GenerateWordsOptions(2, Length(1)), zero);
    FixedLengthWords(words, PrototypeKeys, 1);
    assert ReadsDraws(words[0], PrototypeKeys, zero, 0);
    assert ReadsDraws(words[1], PrototypeKeys, zero, 1);
  }
}
