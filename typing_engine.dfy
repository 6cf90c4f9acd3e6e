/**
 * Model of the engine closure built by `createTypingEngine` in src/gameplay/typingEngine.ts:
 * its state record, level set-up, word removal and the body of the keydown handler.
 *
 * Each handler appears twice. `Engine` has it as a method that updates the fields in the
 * order the source does. It is also a function from one `Snapshot` of those fields to the
 * next; the method's postcondition names that function, and the lemmas at the end of the
 * module are proved about it. Listeners are not called: each emitted event is appended to
 * the ghost log `events`.
 */
module TypingEngine {
  import opened Wrappers
  import opened WordGeneration
  import Strings

  datatype WordObject = WordObject(id: string, word: string)

  /** The events of `TypingEngineEvents`, each with the datum that tells it apart. */
  datatype Event =
    | InitializeLevelEvent(level: int)
    | ResetWordStateEvent
    | UpdateCurrentlyTypedWordEvent(typedWord: string)
    | TypedFullWordEvent(typedFullWordId: string)

  /** `TypingEngineState`, the record `getState` copies. */
  datatype EngineState = EngineState(
    currentLevel: int,
    currentTargetId: Option<string>,
    currentTypedWord: string,
    nextExpectedCharacter: Option<char>,
    activeWordObjects: seq<WordObject>,
    activeWordFirstLetterToIdMap: map<char, string>)

  /** The engine's fields together with the events emitted so far. */
  datatype Snapshot = Snapshot(
    currentLevel: int,
    currentTargetId: Option<string>,
    currentTypedWord: string,
    nextExpectedCharacter: Option<char>,
    activeWordObjects: seq<WordObject>,
    activeWordFirstLetterToIdMap: map<char, string>,
    events: seq<Event>)

  /** How one keydown ended: handled, ignored, logged with `console.error`, or thrown. */
  datatype KeyOutcome = Accepted | IncorrectKey | ErrorLogged(message: string) | Thrown(message: string)

  const MissingWordMessage: string := "Couldn't find active word"

  /** The state of a fresh engine, before `start`. */
  const Initial: Snapshot := Snapshot(0, None, "", None, [], map[], [])

  /* ---------------- Helpers over word objects ---------------- */

  predicate DistinctIds(ws: seq<WordObject>) {
    forall i, j :: 0 <= i < j < |ws| ==> ws[i].id != ws[j].id
  }

  /** `activeWordObjects.find(({ id }) => id === wanted)`. */
  function Find(ws: seq<WordObject>, id: string): (r: Option<WordObject>)
    ensures r.Some? ==> r.value in ws && r.value.id == id
    ensures r.None? <==> forall w :: w in ws ==> w.id != id
  {
    if ws == [] then None
    else if ws[0].id == id then Some(ws[0])
    else Find(ws[1..], id)
  }

  /** With distinct ids, the word object found for an id is the one that carries it. */
  lemma FindUnique(ws: seq<WordObject>, w: WordObject)
    requires DistinctIds(ws)
    requires w in ws
    ensures Find(ws, w.id) == Some(w)
  {
    var found := Find(ws, w.id).value;
    var i :| 0 <= i < |ws| && ws[i] == w;
    var j :| 0 <= j < |ws| && ws[j] == found;
    if i < j {
      assert ws[i].id != ws[j].id;
    } else if j < i {
      assert ws[j].id != ws[i].id;
    }
  }

  /** `activeWordObjects.filter((awo) => awo.id !== id)`. */
  function Without(ws: seq<WordObject>, id: string): (r: seq<WordObject>)
    ensures forall w :: w in r <==> w in ws && w.id != id
    ensures (forall w :: w in ws ==> w.id != id) ==> r == ws
    ensures |r| <= |ws|
  {
    if ws == [] then []
    else (if ws[0].id == id then [] else [ws[0]]) + Without(ws[1..], id)
  }

  /** Filtering keeps the ids distinct. */
  lemma {:induction false} WithoutKeepsDistinctIds(ws: seq<WordObject>, id: string)
    requires DistinctIds(ws)
    ensures DistinctIds(Without(ws, id))
  {
    if ws != [] {
      var rest := Without(ws[1..], id);
      WithoutKeepsDistinctIds(ws[1..], id);
      assert Without(ws, id) == (if ws[0].id == id then [] else [ws[0]]) + rest;
      if ws[0].id != id {
        forall w | w in rest ensures w.id != ws[0].id {
          var j :| 0 <= j < |ws[1..]| && ws[1..][j] == w;
          assert ws[0].id != ws[j + 1].id;
        }
        ConsKeepsDistinctIds(ws[0], rest);
      }
    }
  }

  /** An object whose id no other object has can go in front of a list of distinct ids. */
  lemma ConsKeepsDistinctIds(w: WordObject, rest: seq<WordObject>)
    requires DistinctIds(rest)
    requires forall v :: v in rest ==> v.id != w.id
    ensures DistinctIds([w] + rest)
  {
    var r := [w] + rest;
    forall i, j | 0 <= i < j < |r| ensures r[i].id != r[j].id {
      assert r[j] == rest[j - 1];
      if i == 0 {
        assert rest[j - 1] in rest;
      } else {
        assert r[i] == rest[i - 1];
      }
    }
  }

  function Words(batch: seq<WordObject>): (words: seq<string>)
    ensures |words| == |batch|
    ensures forall k :: 0 <= k < |batch| ==> words[k] == batch[k].word
  {
    seq(|batch|, k requires 0 <= k < |batch| => batch[k].word)
  }

  /** The first letters of the non-empty words of `batch`, in order. */
  function Initials(batch: seq<WordObject>): seq<char> {
    FirstLetters(Words(batch))
  }

  /**
   * The map after `activeWordFirstLetterToIdMap.set(word[0], id)` for each object of `batch`,
   * in order: a later word with the same first letter overwrites an earlier one. (An empty
   * word, which a level never has, would add the key `undefined`; it is skipped here.)
   */
  function SetInitials(m: map<char, string>, batch: seq<WordObject>): (r: map<char, string>)
    ensures forall c :: c in m ==> c in r
    ensures forall c :: c in r ==> c in m || c in Initials(batch)
  {
    if batch == [] then m
    else
      var last := batch[|batch| - 1];
      var before := SetInitials(m, batch[..|batch| - 1]);
      InitialsAppend(batch[..|batch| - 1], last);
      assert batch[..|batch| - 1] + [last] == batch;
      if last.word == "" then before else before[last.word[0] := last.id]
  }

  lemma SetInitialsAppend(m: map<char, string>, batch: seq<WordObject>, w: WordObject)
    ensures SetInitials(m, batch + [w]) ==
      if w.word == "" then SetInitials(m, batch) else SetInitials(m, batch)[w.word[0] := w.id]
  {
    assert (batch + [w])[..|batch|] == batch;
  }

  lemma InitialsAppend(batch: seq<WordObject>, w: WordObject)
    ensures Initials(batch + [w]) == Initials(batch) + (if w.word == "" then [] else [w.word[0]])
  {
    assert Words(batch + [w]) == Words(batch) + [w.word];
    FirstLettersAppend(Words(batch), w.word);
  }

  /** `word[i]`, which is `undefined` past the end. */
  function CharAt(word: string, i: int): (c: Option<char>)
    ensures c.Some? <==> 0 <= i < |word|
    ensures c.Some? ==> c.value == word[i]
  {
    if 0 <= i < |word| then Some(word[i]) else None
  }

  /**
   * `activeWordFirstLetterToIdMap.get(key)` followed by the truthiness test of the handler:
   * a key of several characters is never in the map, and an empty id counts as absent.
   */
  function TargetForKey(m: map<char, string>, key: string): (target: Option<string>)
    ensures target.Some? ==> |key| == 1 && key[0] in m && target.value == m[key[0]] && target.value != ""
    ensures |key| != 1 ==> target.None?
  {
    if |key| == 1 && key[0] in m && m[key[0]] != "" then Some(m[key[0]]) else None
  }

  /* ---------------- The level a batch of words comes from ---------------- */

  /**
   * What `initializeLevel(level)` appends when it practises `keys` (the engine's are
   * `KEYS_TO_PRACTICE`): `generateWords(keys, options)` for the level's options, numbered
   * `String(0)`, `String(1)`, ...
   */
  ghost predicate IsLevelBatch(keys: seq<char>, level: int, batch: seq<WordObject>) {
    && (forall k :: 0 <= k < |batch| ==> batch[k].id == Strings.NatToString(k))
    && Generated(keys, WordGenerationOptionsByLevel(level), Words(batch))
  }

  /**
   * What the engine's proofs need of the keys it practises: no key twice, and no more keys
   * than the hundred words of a level, so that every level uses each key as a first letter.
   */
  predicate GoodKeys(keys: seq<char>) {
    Distinct(keys) && |keys| <= 100
  }

  /** `KEYS_TO_PRACTICE` are such keys. */
  lemma PracticeKeysGood()
    ensures GoodKeys(KeysToPractice)
  {
    KeysToPracticeDistinct();
  }

  /* ---------------- The handlers as functions of the state ---------------- */

  /** `resetWordState`. */
  function AfterReset(s: Snapshot): (r: Snapshot)
    ensures r.currentTargetId.None? && r.currentTypedWord == "" && r.nextExpectedCharacter.None?
    ensures r.currentLevel == s.currentLevel && r.activeWordObjects == s.activeWordObjects
    ensures r.activeWordFirstLetterToIdMap == s.activeWordFirstLetterToIdMap
  {
    s.(currentTargetId := None, currentTypedWord := "", nextExpectedCharacter := None,
       events := s.events + [ResetWordStateEvent])
  }

  /** `initializeLevel(level)`, where `batch` is what word generation produced. */
  function AfterInitializeLevel(s: Snapshot, level: int, batch: seq<WordObject>): Snapshot {
    s.(currentLevel := level,
       activeWordObjects := s.activeWordObjects + batch,
       activeWordFirstLetterToIdMap := SetInitials(s.activeWordFirstLetterToIdMap, batch),
       events := s.events + [InitializeLevelEvent(level)])
  }

  /** The first statements of `handleWordRemoval(id)`: the filter and the `typedFullWord` event. */
  function AfterFilter(s: Snapshot, id: string): Snapshot {
    s.(activeWordObjects := Without(s.activeWordObjects, id), events := s.events + [TypedFullWordEvent(id)])
  }

  /** The last statement of `handleWordRemoval`: the next level starts when no word is left. */
  function AfterLevelCheck(s: Snapshot, batch: seq<WordObject>): Snapshot {
    if |s.activeWordObjects| == 0 then AfterInitializeLevel(s, s.currentLevel + 1, batch) else s
  }

  /**
   * The three steps of `handleWordRemoval` make up `AfterWordRemoval`, and the level changes
   * only when the filtered list is empty.
   */
  lemma RemovalSteps(s: Snapshot, id: string, filtered: Snapshot, reset: Snapshot, level: int, empty: bool,
                     t: Snapshot, batch: seq<WordObject>)
    requires filtered == AfterFilter(s, id) && reset == AfterReset(filtered)
    requires level == reset.currentLevel && empty == (|reset.activeWordObjects| == 0)
    requires empty ==> t == AfterInitializeLevel(reset, level + 1, batch)
    requires !empty ==> t == reset
    ensures t == AfterWordRemoval(s, id, batch)
    ensures LevelStarted(s, t) ==> empty && level == s.currentLevel
  {
  }


  /** `handleWordRemoval(id)`; `batch` is only used when the next level starts. */
  function AfterWordRemoval(s: Snapshot, id: string, batch: seq<WordObject>): Snapshot {
    AfterLevelCheck(AfterReset(AfterFilter(s, id)), batch)
  }

  /** `updateCurrentlyTypedWord(w, typedWord)`. */
  function AfterTyping(s: Snapshot, w: WordObject, typedWord: string, batch: seq<WordObject>): Snapshot {
    var removed := if |typedWord| == |w.word| then AfterWordRemoval(s, w.id, batch) else s;
    removed.(currentTypedWord := typedWord,
             nextExpectedCharacter := CharAt(w.word, |typedWord|),
             events := removed.events + [UpdateCurrentlyTypedWordEvent(typedWord)])
  }

  /** The keydown handler body for `key`. */
  function AfterKeyDown(s: Snapshot, key: string, batch: seq<WordObject>): (Snapshot, KeyOutcome) {
    if s.currentTargetId.None? then
      match TargetForKey(s.activeWordFirstLetterToIdMap, key)
      case None => (s, IncorrectKey)
      case Some(newTargetId) =>
        match Find(s.activeWordObjects, newTargetId)
        case None => (s, Thrown(MissingWordMessage))
        case Some(w) => (AfterTyping(s.(currentTargetId := Some(newTargetId)), w, key, batch), Accepted)
    else if |key| == 1 && s.nextExpectedCharacter == Some(key[0]) then
      match Find(s.activeWordObjects, s.currentTargetId.value)
      case None => (AfterReset(s), ErrorLogged(MissingWordMessage))
      case Some(w) => (AfterTyping(s, w, s.currentTypedWord + key, batch), Accepted)
    else
      (s, IncorrectKey)
  }

  /** The level of the state after a key or a removal moved on when, and only when, it changed. */
  predicate LevelStarted(s: Snapshot, t: Snapshot) {
    t.currentLevel != s.currentLevel
  }

  /** `initializeLevel` keeps the old words in front, puts the batch after them and leaves the word state alone. */
  lemma InitializeLevelAppends(s: Snapshot, level: int, batch: seq<WordObject>)
    ensures var t := AfterInitializeLevel(s, level, batch);
      && t.currentLevel == level
      && t.activeWordObjects[..|s.activeWordObjects|] == s.activeWordObjects
      && t.activeWordObjects[|s.activeWordObjects|..] == batch
      && t.currentTargetId == s.currentTargetId && t.currentTypedWord == s.currentTypedWord
      && t.nextExpectedCharacter == s.nextExpectedCharacter
  {
    var t := AfterInitializeLevel(s, level, batch);
    assert t.activeWordObjects == s.activeWordObjects + batch;
  }

  /**
   * After `handleWordRemoval(id)` no word is targeted; with words left the level is kept and
   * the list is the filtered one, and with none left the level goes up by one and the list is
   * the new batch.
   */
  lemma WordRemovalOutcome(s: Snapshot, id: string, batch: seq<WordObject>)
    ensures var t := AfterWordRemoval(s, id, batch);
      && t.currentTargetId.None? && t.currentTypedWord == "" && t.nextExpectedCharacter.None?
      && (Without(s.activeWordObjects, id) != [] ==>
            t.currentLevel == s.currentLevel && t.activeWordObjects == Without(s.activeWordObjects, id))
      && (Without(s.activeWordObjects, id) == [] ==>
            t.currentLevel == s.currentLevel + 1 && t.activeWordObjects == batch)
  {
    var reset := AfterReset(AfterFilter(s, id));
    assert reset.activeWordObjects == Without(s.activeWordObjects, id);
    if reset.activeWordObjects == [] {
      assert reset.activeWordObjects + batch == batch;
    }
  }

  /**
   * `updateCurrentlyTypedWord(w, typedWord)` stores the typed text and expects the word's next
   * character while there is one; a full-length word also clears the target, a shorter one
   * keeps the target and the list.
   */
  lemma TypingOutcome(s: Snapshot, w: WordObject, typedWord: string, batch: seq<WordObject>)
    ensures var t := AfterTyping(s, w, typedWord, batch);
      && t.currentTypedWord == typedWord
      && (|typedWord| < |w.word| <==> t.nextExpectedCharacter.Some?)
      && (|typedWord| < |w.word| ==> t.nextExpectedCharacter == Some(w.word[|typedWord|]))
      && (|typedWord| == |w.word| ==> t.currentTargetId.None?)
      && (|typedWord| != |w.word| ==>
            t.currentTargetId == s.currentTargetId && t.activeWordObjects == s.activeWordObjects &&
            t.currentLevel == s.currentLevel)
  {
    if |typedWord| == |w.word| {
      WordRemovalOutcome(s, w.id, batch);
    }
  }

  /**
   * A key that is ignored or that throws leaves the state as it was; a logged error clears
   * the target and keeps the list; an accepted key leaves typed text behind.
   */
  lemma KeyDownOutcome(s: Snapshot, key: string, batch: seq<WordObject>)
    ensures var (t, outcome) := AfterKeyDown(s, key, batch);
      && (outcome.IncorrectKey? || outcome.Thrown? ==> t == s)
      && (outcome.ErrorLogged? ==> t.currentTargetId.None? && t.activeWordObjects == s.activeWordObjects)
      && (outcome.Accepted? ==> t.currentTypedWord != "")
  {
    var (t, outcome) := AfterKeyDown(s, key, batch);
    if outcome.Accepted? {
      if s.currentTargetId.None? {
        var target := TargetForKey(s.activeWordFirstLetterToIdMap, key);
        var w := Find(s.activeWordObjects, target.value).value;
        TypingOutcome(s.(currentTargetId := target), w, key, batch);
      } else {
        var w := Find(s.activeWordObjects, s.currentTargetId.value).value;
        TypingOutcome(s, w, s.currentTypedWord + key, batch);
      }
    }
  }

  /* ---------------- The engine ---------------- */

  class Engine {
    var currentLevel: int
    var currentTargetId: Option<string>
    var currentTypedWord: string
    var nextExpectedCharacter: Option<char>
    var activeWordObjects: seq<WordObject>
    var activeWordFirstLetterToIdMap: map<char, string>
    /** Every event emitted to the listeners, oldest first. */
    ghost var events: seq<Event>
    /** The keys the words are drawn from: `KEYS_TO_PRACTICE`, fixed when the engine is made. */
    const keys: seq<char>

    ghost function Snap(): Snapshot
      reads this
    {
      Snapshot(currentLevel, currentTargetId, currentTypedWord, nextExpectedCharacter,
               activeWordObjects, activeWordFirstLetterToIdMap, events)
    }

    /** `getState`: a copy of the state record (the event log is not part of it). */
    function GetState(): (r: EngineState)
      reads this
      ensures r.activeWordObjects == Snap().activeWordObjects
      ensures r.currentTargetId == Snap().currentTargetId
      ensures r.activeWordFirstLetterToIdMap == Snap().activeWordFirstLetterToIdMap
      ensures r.currentLevel == Snap().currentLevel
      ensures r.currentTypedWord == Snap().currentTypedWord
      ensures r.nextExpectedCharacter == Snap().nextExpectedCharacter
    {
      EngineState(currentLevel, currentTargetId, currentTypedWord, nextExpectedCharacter,
                  activeWordObjects, activeWordFirstLetterToIdMap)
    }

    constructor()
      ensures Snap() == Initial
      ensures keys == KeysToPractice
    {
      keys := KeysToPractice;
      currentLevel := 0;
      currentTargetId := None;
      currentTypedWord := "";
      nextExpectedCharacter := None;
      activeWordObjects := [];
      activeWordFirstLetterToIdMap := map[];
      events := [];
    }

    method ResetWordState()
      modifies this
      ensures Snap() == AfterReset(old(Snap()))
    {
      currentTargetId := None;
      currentTypedWord := "";
      nextExpectedCharacter := None;
      events := events + [ResetWordStateEvent];
    }

    /** `initializeLevel`: appends the generated words and records their first letters. */
    method InitializeLevel(level: int, rnd: Oracle) returns (ghost batch: seq<WordObject>)
      modifies this
      ensures IsLevelBatch(keys, level, batch)
      ensures Snap() == AfterInitializeLevel(old(Snap()), level, batch)
    {
      var words, warned := GenerateWords(keys, WordGenerationOptionsByLevel(level), rnd);
      FixedLengthWords(words, keys, WordLength);
      batch := EnterLevel(level, words);
    }

    /**
     * The state changes of `initializeLevel` once its words are known: the level is recorded,
     * the words are added, and listeners are told. (The source records the level before it
     * generates the words; generation reads no field, so the order cannot be observed.)
     */
    method EnterLevel(level: int, words: seq<string>) returns (ghost batch: seq<WordObject>)
      requires forall k :: 0 <= k < |words| ==> words[k] != ""
      modifies this
      ensures Words(batch) == words
      ensures forall k :: 0 <= k < |batch| ==> batch[k].id == Strings.NatToString(k)
      ensures Snap() == AfterInitializeLevel(old(Snap()), level, batch)
    {
      currentLevel := level;
      batch := AddWordObjects(words);
      events := events + [InitializeLevelEvent(level)];
    }

    /**
     * The `words.forEach` of `initializeLevel`: word number k becomes the object with id
     * `String(k)`, pushed onto the list, and its first letter is mapped to that id.
     */
    method AddWordObjects(words: seq<string>) returns (ghost batch: seq<WordObject>)
      requires forall k :: 0 <= k < |words| ==> words[k] != ""
      modifies this
      ensures Words(batch) == words
      ensures forall k :: 0 <= k < |batch| ==> batch[k].id == Strings.NatToString(k)
      ensures activeWordObjects == old(activeWordObjects) + batch
      ensures activeWordFirstLetterToIdMap == SetInitials(old(activeWordFirstLetterToIdMap), batch)
      ensures currentLevel == old(currentLevel) && currentTargetId == old(currentTargetId)
      ensures currentTypedWord == old(currentTypedWord) && nextExpectedCharacter == old(nextExpectedCharacter)
      ensures events == old(events)
    {
      batch := [];
      var id := 0;
      while id < |words|
        invariant 0 <= id <= |words|
        invariant |batch| == id
        invariant forall k :: 0 <= k < id ==> batch[k] == WordObject(Strings.NatToString(k), words[k])
        invariant Snap() == old(Snap()).(activeWordObjects := old(activeWordObjects) + batch,
          activeWordFirstLetterToIdMap := SetInitials(old(activeWordFirstLetterToIdMap), batch))
      {
        var activeWordObject := WordObject(Strings.NatToString(id), words[id]);
        activeWordObjects := activeWordObjects + [activeWordObject];
        activeWordFirstLetterToIdMap := activeWordFirstLetterToIdMap[words[id][0] := activeWordObject.id];
        SetInitialsAppend(old(activeWordFirstLetterToIdMap), batch, activeWordObject);
        batch := batch + [activeWordObject];
        id := id + 1;
      }
    }

    /** `handleWordRemoval`: filters the word out, emits, resets, and starts the next level if none is left. */
    method HandleWordRemoval(id: string, rnd: Oracle) returns (ghost batch: seq<WordObject>)
      modifies this
      ensures Snap() == AfterWordRemoval(old(Snap()), id, batch)
      ensures LevelStarted(old(Snap()), Snap()) ==> IsLevelBatch(keys, old(currentLevel) + 1, batch)
    {
      ghost var s := Snap();
      FilterOut(id);
      ghost var filtered := Snap();
      ResetWordState();
      ghost var reset, level, empty := Snap(), currentLevel, |activeWordObjects| == 0;
      batch := StartNextLevelIfEmpty(rnd);
      RemovalSteps(s, id, filtered, reset, level, empty, Snap(), batch);
    }

    /** The filter of `handleWordRemoval` and its `typedFullWord` event. */
    method FilterOut(id: string)
      modifies this
      ensures Snap() == AfterFilter(old(Snap()), id)
    {
      activeWordObjects := Without(activeWordObjects, id);
      events := events + [TypedFullWordEvent(id)];
    }

    /** The end of `handleWordRemoval`: an empty list starts the next level. */
    method StartNextLevelIfEmpty(rnd: Oracle) returns (ghost batch: seq<WordObject>)
      modifies this
      ensures |old(activeWordObjects)| == 0 ==> IsLevelBatch(keys, old(currentLevel) + 1, batch)
      ensures |old(activeWordObjects)| == 0 ==> Snap() == AfterInitializeLevel(old(Snap()), old(currentLevel) + 1, batch)
      ensures |old(activeWordObjects)| != 0 ==> Snap() == old(Snap())
    {
      batch := [];
      if |activeWordObjects| == 0 {
        batch := InitializeLevel(currentLevel + 1, rnd);
      }
    }

    /** `updateCurrentlyTypedWord`: removes a completed word, then records what was typed. */
    method UpdateCurrentlyTypedWord(wordObject: WordObject, typedWord: string, rnd: Oracle)
      returns (ghost batch: seq<WordObject>)
      modifies this
      ensures LevelStarted(old(Snap()), Snap()) ==> IsLevelBatch(keys, old(currentLevel) + 1, batch)
      ensures Snap() == AfterTyping(old(Snap()), wordObject, typedWord, batch)
    {
      ghost var s := Snap();
      batch := [];
      if |typedWord| == |wordObject.word| {
        batch := HandleWordRemoval(wordObject.id, rnd);
      }
      ghost var level := currentLevel;
      currentTypedWord := typedWord;
      nextExpectedCharacter := CharAt(wordObject.word, |currentTypedWord|);
      events := events + [UpdateCurrentlyTypedWordEvent(typedWord)];
      assert currentLevel == level;
    }

    /**
     * The keydown handler body: with no target, a first letter picks the word; with one, only
     * the expected letter is accepted. The engine stays valid.
     */
    method KeyDown(key: string, rnd: Oracle) returns (outcome: KeyOutcome, ghost batch: seq<WordObject>)
      modifies this
      ensures LevelStarted(old(Snap()), Snap()) ==> IsLevelBatch(keys, old(currentLevel) + 1, batch)
      ensures (Snap(), outcome) == AfterKeyDown(old(Snap()), key, batch)
      ensures GoodKeys(keys) && Valid(keys, old(Snap())) ==> Valid(keys, Snap())
    {
      ghost var before := Snap();
      outcome, batch := HandleKeyDown(key, rnd);
      ghost var after := Snap();
      if GoodKeys(keys) && Valid(keys, before) {
        KeyDownKeepsValid(keys, before, key, batch);
        assert Valid(keys, after);
      }
    }

    /** The handler's statements, with their early returns. */
    method HandleKeyDown(key: string, rnd: Oracle) returns (outcome: KeyOutcome, ghost batch: seq<WordObject>)
      modifies this
      ensures LevelStarted(old(Snap()), Snap()) ==> IsLevelBatch(keys, old(currentLevel) + 1, batch)
      ensures (Snap(), outcome) == AfterKeyDown(old(Snap()), key, batch)
    {
      ghost var s := Snap();
      batch := [];
      if currentTargetId.None? {
        var newTargetId := TargetForKey(activeWordFirstLetterToIdMap, key);
        if newTargetId.Some? {
          var obj := Find(activeWordObjects, newTargetId.value);
          if obj.None? {
            return Thrown(MissingWordMessage), batch;
          }
          currentTargetId := newTargetId;
          assert Snap() == s.(currentTargetId := newTargetId);
          batch := UpdateCurrentlyTypedWord(obj.value, key, rnd);
          outcome := Accepted;
        } else {
          outcome := IncorrectKey;
        }
        return;
      }
      if |key| == 1 && nextExpectedCharacter == Some(key[0]) {
        var obj := Find(activeWordObjects, currentTargetId.value);
        if obj.None? {
          ResetWordState();
          assert currentLevel == s.currentLevel;
          return ErrorLogged(MissingWordMessage), batch;
        }
        batch := UpdateCurrentlyTypedWord(obj.value, currentTypedWord + key, rnd);
        outcome := Accepted;
      } else {
        outcome := IncorrectKey;
      }
    }

    /** `start`: sets up level 1 (registering the keyboard listener is not modelled). */
    method Start(rnd: Oracle) returns (ghost batch: seq<WordObject>)
      modifies this
      ensures IsLevelBatch(keys, 1, batch)
      ensures Snap() == AfterInitializeLevel(old(Snap()), 1, batch)
      ensures GoodKeys(keys) && old(Snap()) == Initial ==> Valid(keys, Snap())
    {
      ghost var before := Snap();
      batch := InitializeLevel(1, rnd);
      ghost var after := Snap();
      if GoodKeys(keys) && before == Initial {
        StartIsValid(keys, batch);
        assert Valid(keys, after);
      }
    }

    /** `removeWord`. */
    method RemoveWord(wordId: string, rnd: Oracle) returns (ghost batch: seq<WordObject>)
      modifies this
      ensures LevelStarted(old(Snap()), Snap()) ==> IsLevelBatch(keys, old(currentLevel) + 1, batch)
      ensures Snap() == AfterWordRemoval(old(Snap()), wordId, batch)
      ensures GoodKeys(keys) && Valid(keys, old(Snap())) ==> Valid(keys, Snap())
    {
      ghost var before := Snap();
      batch := HandleWordRemoval(wordId, rnd);
      ghost var after := Snap();
      if GoodKeys(keys) && Valid(keys, before) {
        RemovalKeepsValid(keys, before, wordId, batch);
        assert Valid(keys, after);
      }
    }

    /** `resetWord`. */
    method ResetWord()
      modifies this
      ensures Snap() == AfterReset(old(Snap()))
      ensures Consistent(keys, old(Snap())) ==> Valid(keys, Snap())
    {
      ResetWordState();
    }
  }

  /* ---------------- What the engine keeps true ---------------- */

  /** A word object the engine can show: four letters from the keys, and a non-empty id. */
  predicate IsPracticeWord(keys: seq<char>, w: WordObject) {
    |w.word| == WordLength && DrawnFrom(w.word, keys) && w.id != ""
  }

  /**
   * The word list and the first-letter map agree: ids are distinct, each active word's
   * first letter maps to its id, and a letter that maps to an active id is that word's
   * first letter. The map may still hold letters of removed words (it is never pruned).
   */
  ghost predicate Consistent(keys: seq<char>, s: Snapshot) {
    s.currentLevel >= 0 && WordsMatchMap(keys, s.activeWordObjects, s.activeWordFirstLetterToIdMap)
  }

  ghost predicate WordsMatchMap(keys: seq<char>, active: seq<WordObject>, m: map<char, string>) {
    && (forall w :: w in active ==> IsPracticeWord(keys, w))
    && DistinctIds(active)
    && (forall w :: w in active ==> w.word[0] in m && m[w.word[0]] == w.id)
    && (forall c, w :: c in m && w in active && m[c] == w.id ==> c == w.word[0])
    && (forall c :: c in m ==> c in keys)
  }

  /** A target is an active word, of which a proper, non-empty prefix has been typed. */
  predicate TargetConsistent(s: Snapshot) {
    match s.currentTargetId
    case None => true
    case Some(t) =>
      match Find(s.activeWordObjects, t)
      case None => false
      case Some(w) =>
        && 1 <= |s.currentTypedWord| < |w.word|
        && s.currentTypedWord == w.word[..|s.currentTypedWord|]
        && s.nextExpectedCharacter == Some(w.word[|s.currentTypedWord|])
  }

  ghost predicate Valid(keys: seq<char>, s: Snapshot) {
    Consistent(keys, s) && TargetConsistent(s)
  }

  /** No two active words start with the same letter, so a first letter names one word. */
  lemma ActiveInitialsDistinct(keys: seq<char>, s: Snapshot, i: int, j: int)
    requires Consistent(keys, s)
    requires 0 <= i < j < |s.activeWordObjects|
    ensures IsPracticeWord(keys, s.activeWordObjects[i]) && IsPracticeWord(keys, s.activeWordObjects[j])
    ensures s.activeWordObjects[i].word[0] != s.activeWordObjects[j].word[0]
  {
    var a := s.activeWordObjects;
    assert a[i] in a && a[j] in a;
    assert a[i].id != a[j].id;
  }

  lemma InitialsOfNonEmpty(batch: seq<WordObject>)
    requires forall k :: 0 <= k < |batch| ==> batch[k].word != ""
    ensures |Initials(batch)| == |batch|
    ensures forall k :: 0 <= k < |batch| ==> Initials(batch)[k] == batch[k].word[0]
  {
    FirstLettersOfNonEmpty(Words(batch));
  }

  /**
   * After the `set` calls of a batch whose first letters are distinct, each of them maps to
   * its word's id, and every other letter is as it was.
   */
  lemma {:induction false} SetInitialsLookup(m: map<char, string>, batch: seq<WordObject>)
    requires forall k :: 0 <= k < |batch| ==> batch[k].word != ""
    requires Distinct(Initials(batch))
    ensures forall k :: 0 <= k < |batch| ==>
      batch[k].word[0] in SetInitials(m, batch) && SetInitials(m, batch)[batch[k].word[0]] == batch[k].id
    ensures forall c :: c !in Initials(batch) ==>
      (c in SetInitials(m, batch) <==> c in m) && (c in m ==> SetInitials(m, batch)[c] == m[c])
  {
    if batch != [] {
      var init := batch[..|batch| - 1];
      var last := batch[|batch| - 1];
      assert batch == init + [last];
      InitialsAppend(init, last);
      InitialsOfNonEmpty(batch);
      InitialsOfNonEmpty(init);
      var initials := Initials(batch);
      assert Initials(init) == initials[..|batch| - 1];
      assert Distinct(Initials(init));
      assert last.word[0] !in Initials(init) by {
        forall k | 0 <= k < |init| ensures Initials(init)[k] != last.word[0] {
          assert initials[k] != initials[|batch| - 1];
        }
      }
      SetInitialsLookup(m, init);
      SetInitialsAppend(m, init, last);
    }
  }

  /**
   * A level batch for a level from 1 on holds one four-letter word per key, with ids
   * `String(0)`, `String(1)`, ..., and its first letters are the keys in some order.
   */
  lemma LevelBatchCoversKeys(keys: seq<char>, level: int, batch: seq<WordObject>)
    requires GoodKeys(keys) && level >= 1
    requires IsLevelBatch(keys, level, batch)
    ensures |batch| == |keys|
    ensures forall k :: 0 <= k < |batch| ==> |batch[k].word| == WordLength
    ensures forall k :: 0 <= k < |batch| ==> batch[k].id == Strings.NatToString(k)
    ensures |Initials(batch)| == |batch|
    ensures forall k :: 0 <= k < |batch| ==> Initials(batch)[k] == batch[k].word[0]
    ensures multiset(Initials(batch)) == multiset(keys)
    ensures Distinct(Initials(batch))
  {
    FixedLengthWords(Words(batch), keys, WordLength);
    InitialsOfNonEmpty(batch);
  }

  /** Ids `String(0)`, `String(1)`, ... are pairwise distinct. */
  lemma NumberedIdsDistinct(batch: seq<WordObject>)
    requires forall k :: 0 <= k < |batch| ==> batch[k].id == Strings.NatToString(k)
    ensures DistinctIds(batch)
    ensures forall w :: w in batch ==> w.id != ""
  {
    forall i, j | 0 <= i < j < |batch| ensures batch[i].id != batch[j].id {
      if batch[i].id == batch[j].id {
        Strings.NatToStringInjective(i, j);
      }
    }
  }

  /** Every word of a level batch (level 1 on) is a practice word. */
  lemma LevelBatchWordsArePractice(keys: seq<char>, level: int, batch: seq<WordObject>)
    requires GoodKeys(keys) && level >= 1
    requires IsLevelBatch(keys, level, batch)
    ensures forall w :: w in batch ==> IsPracticeWord(keys, w)
  {
    LevelBatchCoversKeys(keys, level, batch);
    NumberedIdsDistinct(batch);
    forall w | w in batch ensures IsPracticeWord(keys, w) {
      var k :| 0 <= k < |batch| && batch[k] == w;
      assert Words(batch)[k] == w.word;
    }
  }

  /**
   * After the `set` calls of a batch whose first letters are a permutation of duplicate-free
   * `keys` (a full level batch), the map's letters are exactly those first letters, each
   * mapped to the id of the word it starts, whatever the map held before (within the keys).
   */
  lemma SetInitialsOverKeys(m: map<char, string>, batch: seq<WordObject>, keys: seq<char>)
    requires forall k :: 0 <= k < |batch| ==> batch[k].word != ""
    requires multiset(Initials(batch)) == multiset(keys) && Distinct(Initials(batch))
    requires forall c :: c in m ==> c in keys
    ensures forall c :: c in SetInitials(m, batch) ==> c in keys && c in Initials(batch)
    ensures forall k :: 0 <= k < |batch| ==>
      batch[k].word[0] in SetInitials(m, batch) && SetInitials(m, batch)[batch[k].word[0]] == batch[k].id
  {
    SetInitialsLookup(m, batch);
    var initials := Initials(batch);
    forall c | c in SetInitials(m, batch) ensures c in keys && c in initials {
      if c in m {
        assert c in multiset(keys);
      } else {
        assert c in multiset(initials);
      }
    }
  }

  /** A full level batch agrees with the map its `set` calls leave behind. */
  lemma LevelBatchMatchesMap(keys: seq<char>, m: map<char, string>, level: int, batch: seq<WordObject>)
    requires GoodKeys(keys) && level >= 1
    requires IsLevelBatch(keys, level, batch)
    requires forall c :: c in m ==> c in keys
    ensures WordsMatchMap(keys, batch, SetInitials(m, batch))
  {
    LevelBatchWordsArePractice(keys, level, batch);
    NumberedIdsDistinct(batch);
    LevelBatchCoversKeys(keys, level, batch);
    SetInitialsOverKeys(m, batch, keys);
    LevelBatchMapPointsBack(keys, m, level, batch);
    var after := SetInitials(m, batch);
    forall w | w in batch ensures w.word[0] in after && after[w.word[0]] == w.id {
      var k :| 0 <= k < |batch| && batch[k] == w;
    }
  }

  /** Entering a level from an empty word list yields a consistent state with no target. */
  lemma EnterLevelKeepsValid(keys: seq<char>, s: Snapshot, batch: seq<WordObject>)
    requires s.currentLevel >= 0
    requires s.activeWordObjects == [] && s.currentTargetId == None
    requires WordsMatchMap(keys, batch, SetInitials(s.activeWordFirstLetterToIdMap, batch))
    ensures Valid(keys, AfterInitializeLevel(s, s.currentLevel + 1, batch))
  {
    assert s.activeWordObjects + batch == batch;
  }

  /** Filtering a word out keeps the remaining words in agreement with the map. */
  lemma WithoutKeepsMatch(keys: seq<char>, active: seq<WordObject>, m: map<char, string>, id: string)
    requires WordsMatchMap(keys, active, m)
    ensures WordsMatchMap(keys, Without(active, id), m)
  {
    WithoutKeepsDistinctIds(active, id);
  }

  /**
   * `handleWordRemoval` keeps the engine consistent and leaves no target; when it empties
   * the list it enters the next level, and otherwise the level stays.
   */
  lemma RemovalKeepsValid(keys: seq<char>, s: Snapshot, id: string, batch: seq<WordObject>)
    requires GoodKeys(keys) && Consistent(keys, s)
    requires LevelStarted(s, AfterWordRemoval(s, id, batch)) ==> IsLevelBatch(keys, s.currentLevel + 1, batch)
    ensures Valid(keys, AfterWordRemoval(s, id, batch))
    ensures AfterWordRemoval(s, id, batch).currentTargetId == None
    ensures LevelStarted(s, AfterWordRemoval(s, id, batch)) <==> Without(s.activeWordObjects, id) == []
  {
    if Without(s.activeWordObjects, id) == [] {
      RemovalEntersLevel(keys, s, id, batch);
    } else {
      RemovalKeepsLevel(keys, s, id, batch);
    }
  }


  /** The case of `RemovalKeepsValid` where other words remain. */
  lemma RemovalKeepsLevel(keys: seq<char>, s: Snapshot, id: string, batch: seq<WordObject>)
    requires Consistent(keys, s)
    requires Without(s.activeWordObjects, id) != []
    ensures var t := AfterWordRemoval(s, id, batch);
      Valid(keys, t) && t.currentTargetId == None && t.currentLevel == s.currentLevel
  {
    WithoutKeepsMatch(keys, s.activeWordObjects, s.activeWordFirstLetterToIdMap, id);
  }

  /** The case of `RemovalKeepsValid` where the last word goes and the next level starts. */
  lemma RemovalEntersLevel(keys: seq<char>, s: Snapshot, id: string, batch: seq<WordObject>)
    requires GoodKeys(keys) && Consistent(keys, s)
    requires Without(s.activeWordObjects, id) == []
    requires IsLevelBatch(keys, s.currentLevel + 1, batch)
    ensures var t := AfterWordRemoval(s, id, batch);
      Valid(keys, t) && t.currentTargetId == None && t.currentLevel == s.currentLevel + 1
  {
    var m := s.activeWordFirstLetterToIdMap;
    var reset := AfterReset(s.(activeWordObjects := [], events := s.events + [TypedFullWordEvent(id)]));
    LevelBatchMatchesMap(keys, m, s.currentLevel + 1, batch);
    EnterLevelKeepsValid(keys, reset, batch);
  }

  /** After a full level batch, a letter mapped to a word's id is that word's first letter. */
  lemma LevelBatchMapPointsBack(keys: seq<char>, m: map<char, string>, level: int, batch: seq<WordObject>)
    requires GoodKeys(keys) && level >= 1
    requires IsLevelBatch(keys, level, batch)
    requires forall c :: c in m ==> c in keys
    ensures forall c, w :: c in SetInitials(m, batch) && w in batch && SetInitials(m, batch)[c] == w.id ==>
      c == w.word[0]
  {
    LevelBatchCoversKeys(keys, level, batch);
    SetInitialsOverKeys(m, batch, keys);
    var after := SetInitials(m, batch);
    var initials := Initials(batch);
    forall c, w | c in after && w in batch && after[c] == w.id ensures c == w.word[0] {
      var k :| 0 <= k < |initials| && initials[k] == c;
      var i :| 0 <= i < |batch| && batch[i] == w;
      assert c == batch[k].word[0];
      assert after[c] == batch[k].id;
      Strings.NatToStringInjective(k, i);
    }
  }

  /** `updateCurrentlyTypedWord` with a correct prefix of the target keeps the engine valid. */
  lemma TypingKeepsValid(keys: seq<char>, s: Snapshot, w: WordObject, typedWord: string, batch: seq<WordObject>)
    requires GoodKeys(keys) && Consistent(keys, s)
    requires w in s.activeWordObjects && s.currentTargetId == Some(w.id)
    requires 1 <= |typedWord| <= |w.word| && typedWord == w.word[..|typedWord|]
    requires LevelStarted(s, AfterTyping(s, w, typedWord, batch)) ==> IsLevelBatch(keys, s.currentLevel + 1, batch)
    ensures Valid(keys, AfterTyping(s, w, typedWord, batch))
  {
    if |typedWord| == |w.word| {
      RemovalKeepsValid(keys, s, w.id, batch);
    } else {
      FindUnique(s.activeWordObjects, w);
    }
  }

  /** One more correct letter extends a typed prefix by that letter. */
  lemma ExtendPrefix(word: string, typed: string, key: string)
    requires |typed| < |word| && typed == word[..|typed|]
    requires |key| == 1 && key[0] == word[|typed|]
    ensures typed + key == word[..|typed| + 1]
  {
    assert word[..|typed| + 1] == word[..|typed|] + [word[|typed|]];
  }

  /** Every keydown keeps the engine valid. */
  lemma KeyDownKeepsValid(keys: seq<char>, s: Snapshot, key: string, batch: seq<WordObject>)
    requires GoodKeys(keys) && Valid(keys, s)
    requires LevelStarted(s, AfterKeyDown(s, key, batch).0) ==> IsLevelBatch(keys, s.currentLevel + 1, batch)
    ensures Valid(keys, AfterKeyDown(s, key, batch).0)
  {
    var active := s.activeWordObjects;
    var m := s.activeWordFirstLetterToIdMap;
    if s.currentTargetId.None? {
      var newTargetId := TargetForKey(m, key);
      if newTargetId.Some? && Find(active, newTargetId.value).Some? {
        var w := Find(active, newTargetId.value).value;
        assert key[0] == w.word[0];
        assert key == w.word[..1];
        TypingKeepsValid(keys, s.(currentTargetId := newTargetId), w, key, batch);
      }
    } else if |key| == 1 && s.nextExpectedCharacter == Some(key[0]) {
      var found := Find(active, s.currentTargetId.value);
      if found.Some? {
        var w := found.value;
        ExtendPrefix(w.word, s.currentTypedWord, key);
        TypingKeepsValid(keys, s, w, s.currentTypedWord + key, batch);
      }
    }
  }


  /**
   * An ignored key: untargeted and not a first letter in the map, or targeted and not the
   * expected character. Exactly these keys are reported incorrect, and they change nothing.
   */
  lemma IncorrectKeyChangesNothing(s: Snapshot, key: string, batch: seq<WordObject>)
    ensures AfterKeyDown(s, key, batch).1 == IncorrectKey <==>
      if s.currentTargetId.None? then TargetForKey(s.activeWordFirstLetterToIdMap, key).None?
      else !(|key| == 1 && s.nextExpectedCharacter == Some(key[0]))
    ensures AfterKeyDown(s, key, batch).1 == IncorrectKey ==> AfterKeyDown(s, key, batch).0 == s
  {
  }

  /** Untargeted, the first letter of an active word selects that word and expects its second letter. */
  lemma FirstKeyTargetsItsWord(keys: seq<char>, s: Snapshot, w: WordObject, batch: seq<WordObject>)
    requires Valid(keys, s)
    requires s.currentTargetId == None
    requires w in s.activeWordObjects
    ensures AfterKeyDown(s, [w.word[0]], batch) ==
      (s.(currentTargetId := Some(w.id), currentTypedWord := [w.word[0]],
          nextExpectedCharacter := Some(w.word[1]),
          events := s.events + [UpdateCurrentlyTypedWordEvent([w.word[0]])]),
       Accepted)
  {
    FindUnique(s.activeWordObjects, w);
  }

  /** The target word, when there is a consistent one. */
  function TargetWord(s: Snapshot): (w: WordObject)
    requires TargetConsistent(s) && s.currentTargetId.Some?
    ensures w in s.activeWordObjects && w.id == s.currentTargetId.value
    ensures |s.currentTypedWord| < |w.word| && s.nextExpectedCharacter == Some(w.word[|s.currentTypedWord|])
  {
    Find(s.activeWordObjects, s.currentTargetId.value).value
  }

  /** The expected letter, when it does not end the word, is appended and the next letter is expected. */
  lemma ExpectedKeyAdvances(s: Snapshot, key: string, batch: seq<WordObject>)
    requires TargetConsistent(s) && s.currentTargetId.Some?
    requires |key| == 1 && s.nextExpectedCharacter == Some(key[0])
    requires |s.currentTypedWord| + 1 < |TargetWord(s).word|
    ensures AfterKeyDown(s, key, batch) ==
      (s.(currentTypedWord := s.currentTypedWord + key,
          nextExpectedCharacter := Some(TargetWord(s).word[|s.currentTypedWord| + 1]),
          events := s.events + [UpdateCurrentlyTypedWordEvent(s.currentTypedWord + key)]),
       Accepted)
  {
  }

  /**
   * The expected letter that ends the word removes it and announces it; the target and the
   * expected letter are cleared, while the typed text is left holding the whole word. When
   * it was the last word, the next level starts with a new batch.
   */
  lemma LastKeyCompletesWord(s: Snapshot, key: string, batch: seq<WordObject>)
    requires TargetConsistent(s) && s.currentTargetId.Some?
    requires |key| == 1 && s.nextExpectedCharacter == Some(key[0])
    requires |s.currentTypedWord| + 1 == |TargetWord(s).word|
    ensures AfterKeyDown(s, key, batch).1 == Accepted
    ensures var t := AfterKeyDown(s, key, batch).0;
      && t.currentTargetId == None
      && t.nextExpectedCharacter == None
      && t.currentTypedWord == TargetWord(s).word
    ensures var t := AfterKeyDown(s, key, batch).0;
      var w := TargetWord(s);
      var kept := Without(s.activeWordObjects, w.id);
      && w !in kept
      && (kept != [] ==>
            && t.currentLevel == s.currentLevel
            && t.activeWordObjects == kept
            && t.events == s.events + [TypedFullWordEvent(w.id), ResetWordStateEvent,
                                       UpdateCurrentlyTypedWordEvent(w.word)])
      && (kept == [] ==>
            && t.currentLevel == s.currentLevel + 1
            && t.activeWordObjects == batch
            && t.events == s.events + [TypedFullWordEvent(w.id), ResetWordStateEvent,
                                       InitializeLevelEvent(s.currentLevel + 1),
                                       UpdateCurrentlyTypedWordEvent(w.word)])
  {
    var w := TargetWord(s);
    ExtendPrefix(w.word, s.currentTypedWord, key);
    CompletingKey(s, w, key, batch);
  }

  /** The step of `LastKeyCompletesWord`, for a found target `w` whose last letter is typed. */
  lemma CompletingKey(s: Snapshot, w: WordObject, key: string, batch: seq<WordObject>)
    requires s.currentTargetId == Some(w.id) && Find(s.activeWordObjects, w.id) == Some(w)
    requires |key| == 1 && s.nextExpectedCharacter == Some(key[0])
    requires s.currentTypedWord + key == w.word
    ensures AfterKeyDown(s, key, batch).1 == Accepted
    ensures var t := AfterKeyDown(s, key, batch).0;
      var kept := Without(s.activeWordObjects, w.id);
      && t.currentTargetId == None && t.nextExpectedCharacter == None && t.currentTypedWord == w.word
      && (kept != [] ==>
            && t.currentLevel == s.currentLevel
            && t.activeWordObjects == kept
            && t.events == s.events + [TypedFullWordEvent(w.id), ResetWordStateEvent,
                                       UpdateCurrentlyTypedWordEvent(w.word)])
      && (kept == [] ==>
            && t.currentLevel == s.currentLevel + 1
            && t.activeWordObjects == batch
            && t.events == s.events + [TypedFullWordEvent(w.id), ResetWordStateEvent,
                                       InitializeLevelEvent(s.currentLevel + 1),
                                       UpdateCurrentlyTypedWordEvent(w.word)])
  {
    var r := AfterWordRemoval(s, w.id, batch);
    assert AfterKeyDown(s, key, batch) == (AfterTyping(s, w, w.word, batch), Accepted);
    assert AfterTyping(s, w, w.word, batch) ==
      r.(currentTypedWord := w.word, nextExpectedCharacter := None,
         events := r.events + [UpdateCurrentlyTypedWordEvent(w.word)]);
    if Without(s.activeWordObjects, w.id) != [] {
      assert r.events == s.events + [TypedFullWordEvent(w.id)] + [ResetWordStateEvent];
    } else {
      assert r.events == s.events + [TypedFullWordEvent(w.id)] + [ResetWordStateEvent]
        + [InitializeLevelEvent(s.currentLevel + 1)];
      assert Without(s.activeWordObjects, w.id) + batch == batch;
    }
  }

  /** Removing an id that no active word has still announces it and clears the target. */
  lemma RemovingAbsentIdOnlyResets(s: Snapshot, id: string, batch: seq<WordObject>)
    requires forall w :: w in s.activeWordObjects ==> w.id != id
    requires s.activeWordObjects != []
    ensures AfterWordRemoval(s, id, batch) ==
      s.(currentTargetId := None, currentTypedWord := "", nextExpectedCharacter := None,
         events := s.events + [TypedFullWordEvent(id), ResetWordStateEvent])
  {
  }

  /**
   * The map is not pruned: after a word is removed while others remain, typing its first
   * letter with no target finds the removed id and throws.
   */
  lemma RemovedFirstLetterThrows(keys: seq<char>, s: Snapshot, w: WordObject, batch: seq<WordObject>, nextBatch: seq<WordObject>)
    requires Consistent(keys, s)
    requires w in s.activeWordObjects
    requires |s.activeWordObjects| >= 2
    ensures var t := AfterWordRemoval(s, w.id, batch);
      AfterKeyDown(t, [w.word[0]], nextBatch) == (t, Thrown(MissingWordMessage))
  {
    var active := s.activeWordObjects;
    var other := if active[0] == w then active[1] else active[0];
    assert other in active;
    if other.id == w.id {
      FindUnique(active, w);
      FindUnique(active, other);
    }
    assert other in Without(active, w.id);
  }

  /** `start` on a fresh engine: level 1 with one word per key and a consistent map. */
  lemma StartIsValid(keys: seq<char>, batch: seq<WordObject>)
    requires GoodKeys(keys)
    requires IsLevelBatch(keys, 1, batch)
    ensures Valid(keys, AfterInitializeLevel(Initial, 1, batch))
    ensures |AfterInitializeLevel(Initial, 1, batch).activeWordObjects| == |keys|
  {
    LevelBatchMatchesMap(keys, map[], 1, batch);
    EnterLevelKeepsValid(keys, Initial, batch);
    LevelBatchCoversKeys(keys, 1, batch);
  }

}
