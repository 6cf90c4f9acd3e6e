# space-typer core, in Dafny

This project models the game logic of space-typer, a browser typing game in which the
player shoots down enemies by typing words. The model covers these parts:

- **Typing engine** (`src/gameplay/typingEngine.ts`):
  - word generation with pairwise-distinct first letters;
  - the state record, which holds the level, target, typed text, expected character, active
    words and first-letter map;
  - level set-up, word removal and the keydown handler.
- **Prototype word generator** (`src/main.ts`).
- **Level and wave data generation** (`src/gameplay/levels.ts`).
- **Entity registry** of the game loop (`src/gameplay/game.ts`).
- **Geometry and numeric helpers** (`lib.ts`, `utils.ts`).
- **Entity state machines:**
  - the two entity base classes;
  - the sprite animation;
  - the hitbox;
  - the player;
  - the three heart counters;
  - the score display.

## How the model is built

- **One module per source file.** Each lives in its own `.dfy` file. `wrappers.dfy`
  (`Option`, `Result`), `strings.dfy` (JavaScript's `String(n)` for integers) and
  `geometry.dfy` (vectors and boxes) are shared helpers.
- **Objects that change are classes.** Code that updates fields in place is a `class`
  whose methods carry `modifies` clauses. Loops are `while` loops with invariants.
- **Typing-engine handlers appear twice.**
  - As a method of `TypingEngine.Engine`, which updates the fields in the source's order.
  - As a function from one `Snapshot` of the fields to the next (`AfterKeyDown`,
    `AfterWordRemoval`, ...).
  - Each method's postcondition is that function.
  - The engine invariant `Valid` and the behavioural lemmas are proved about the functions.
  - The invariant and its lemmas take the practised keys as a parameter. They hold for any
    keys with no repeats and at most a hundred of them (`GoodKeys`, one level's word count).
    The engine keeps its keys in the constant field `keys`, which the constructor sets to
    `KEYS_TO_PRACTICE`; `PracticeKeysGood` proves those keys good, and the methods that keep
    `Valid` do so for good keys.
- **Randomness is an oracle.**
  - `Math.random()` becomes `rnd: nat -> Unit`, which maps a draw number to a real in [0, 1).
  - Each call site reads a fixed draw number.
  - `Math.floor(r * n)` is `RandomIndex`, and `Math.round` is `Levels.Round`.
  - The words that a new level gets are a ghost out-parameter of the engine methods. It is
    constrained by `IsLevelBatch`: the words `generateWords` may produce for that level,
    numbered `String(0)`, `String(1)`, ....
- **Events and hooks become ghost logs.**
  - Events the engine emits go in the ghost sequence `events`.
  - `destroy()` calls go in `Game.destroyed`.
  - `console.error` messages of an animation go in `errors`; `onEnd` calls are counted in `ends`.
  - Removal requests of a hitbox are counted in `removalRequests`.

The code is followed where it departs from the game's design description:

- The typing engine has no wave scheduling. Waves exist only as data in `levels.ts`.
- `end()` clears the entity maps but leaves `active` set.
- A `loop` step never reads `paused`.
- After a word is completed, `currentTypedWord` is left holding the whole word. This
  happens because the typed text is stored after the reset.
- `removeWord` emits `typedFullWord` and resets the target even for an id that is not
  active.
- The first-letter map is never pruned. Typing the first letter of a removed word, while
  other words remain, throws "Couldn't find active word".

## Model

| member | source | states |
|---|---|---|
| WordGeneration.RandomIndex | src/gameplay/typingEngine.ts:75-77 | `Math.floor(Math.random() * n)` is a valid index of a non-empty array |
| WordGeneration.WordCount | src/gameplay/typingEngine.ts:47 | the word count is `min(keys, count)`: never more than the keys, all keys when `count` is larger, `count` otherwise |
| WordGeneration.FirstLettersOfNonEmpty | src/gameplay/typingEngine.ts:74-81 | for words that are all non-empty, the first-letter list has one entry per word, namely that word's first letter |
| WordGeneration.DistinctCountsAtMostOne | src/gameplay/typingEngine.ts:57 | in a duplicate-free key list every key occurs at most once |
| WordGeneration.SubMultisetOfDistinct | src/gameplay/typingEngine.ts:74-81 | letters taken from a duplicate-free list without replacement are themselves duplicate-free |
| WordGeneration.KeysToPracticeDistinct | src/gameplay/typingEngine.ts:9-28 | `KEYS_TO_PRACTICE` has 17 keys, all different |
| WordGeneration.AppendWellFormed | src/gameplay/typingEngine.ts:88 | pushing a word drawn from the keys with a fitting length keeps every word of the list well formed |
| WordGeneration.FixedLengthWords | src/gameplay/typingEngine.ts:60-70 | with the `length` option (at least 1), every word has exactly that many characters and is non-empty |
| WordGeneration.DrawWordLength | src/gameplay/typingEngine.ts:60-64 | the `length` option is used as given, with no draw; with min/max, the length is `floor(r * (max - min)) + min`, in [min, max - 1] when min < max |
| WordGeneration.BuildWord | src/gameplay/typingEngine.ts:66-86 | the word has the requested length and only letters from the keys; its first letter is spliced out of the available first letters, which shrink by exactly that letter |
| WordGeneration.GenerateWords | src/gameplay/typingEngine.ts:42-92 | warns exactly when more words are asked for than there are keys, and returns `min(keys, count)` words of the requested length over the keys; their first letters are a sub-multiset of the keys and are distinct when the keys are; when every key is used, the first letters are a permutation of the keys |
| WordGeneration.AppendWordKeepsLetters | src/gameplay/typingEngine.ts:74-88 | the first letters used so far plus the still-available letters always make up the key multiset |
| WordGeneration.FirstLettersExhaustKeys | src/gameplay/typingEngine.ts:57-89 | once one non-empty word per key exists, the first letters are exactly the keys, as a multiset |
| WordGeneration.WordGenerationOptionsByLevel | src/gameplay/typingEngine.ts:94-102 | four-letter words; from level 1 on, the count (100 x level) is at least 100, more than the 17 keys |
| TypingEngine.Find | src/gameplay/typingEngine.ts:268-270 | a found word object is in the list and has the wanted id |
| TypingEngine.Without | src/gameplay/typingEngine.ts:204-206 | the filter keeps exactly the objects whose id differs, and leaves the list unchanged when no object has the id |
| TypingEngine.WithoutKeepsDistinctIds | src/gameplay/typingEngine.ts:204-206 | filtering out an id keeps the remaining ids distinct |
| TypingEngine.SetInitialsLookup | src/gameplay/typingEngine.ts:164-173 | after the `set` calls of words with distinct first letters, each first letter maps to its word's id and every other letter is unchanged |
| TypingEngine.SetInitials | src/gameplay/typingEngine.ts:164-173 | the `set` calls keep every letter already mapped and add only first letters of the batch |
| TypingEngine.CharAt | src/gameplay/typingEngine.ts:240 | `word[i]` is a character exactly for an index inside the word, and then it is that character |
| TypingEngine.TargetForKey | src/gameplay/typingEngine.ts:266-267 | a key targets an id only when it is one character, mapped, and mapped to a non-empty id; a longer key never targets |
| TypingEngine.AfterReset | src/gameplay/typingEngine.ts:150-156 | the target, typed text and expected character are cleared; the level, word list and map are kept |
| TypingEngine.AfterInitializeLevel | src/gameplay/typingEngine.ts:158-175 | definition of the state after `initializeLevel(level)`; `InitializeLevelAppends` states its properties |
| TypingEngine.InitializeLevelAppends | src/gameplay/typingEngine.ts:158-175 | the level is recorded, the old words stay in front and the batch follows them; the word state is untouched |
| TypingEngine.AfterWordRemoval | src/gameplay/typingEngine.ts:203-215 | definition of the state after `handleWordRemoval(id)`, as the filter, then the reset, then the level check; `WordRemovalOutcome` states its properties |
| TypingEngine.WordRemovalOutcome | src/gameplay/typingEngine.ts:203-215 | the word state is cleared; with words left, the level is kept and the list is the filtered one; with none left, the level goes up by one and the list is the new batch |
| TypingEngine.AfterTyping | src/gameplay/typingEngine.ts:229-242 | definition of the state after `updateCurrentlyTypedWord`; `TypingOutcome` states its properties |
| TypingEngine.TypingOutcome | src/gameplay/typingEngine.ts:229-242 | the typed text is stored; a next character is expected exactly while the typed text is shorter than the word, and it is the word's character at that length; a full-length word clears the target, a shorter one keeps target, level and list |
| TypingEngine.AfterKeyDown | src/gameplay/typingEngine.ts:262-296 | definition of the state and outcome of the keydown handler; `KeyDownOutcome` states its properties |
| TypingEngine.KeyDownOutcome | src/gameplay/typingEngine.ts:262-296 | an ignored or thrown key leaves the state as it was; a logged error clears the target and keeps the list; an accepted key leaves typed text behind |
| TypingEngine.Engine.GetState | src/gameplay/typingEngine.ts:304 | the copy holds every field of the state record: level, target, typed text, expected character, word list and first-letter map |
| TypingEngine.Engine.constructor | src/gameplay/typingEngine.ts:130-137 | level 0, no target, empty typed text, empty list and map, no events; the keys are `KEYS_TO_PRACTICE` |
| TypingEngine.Engine.ResetWordState | src/gameplay/typingEngine.ts:150-156 | clears the target, typed text and expected character, emits `resetWordState`, and changes nothing else |
| TypingEngine.Engine.InitializeLevel | src/gameplay/typingEngine.ts:158-175 | records the level, appends a generated batch for that level and maps its first letters, then emits `initializeLevel` |
| TypingEngine.Engine.EnterLevel | src/gameplay/typingEngine.ts:159-175 | the given words are appended as objects with ids `String(0)`, ... in order, and the level and event are recorded |
| TypingEngine.Engine.AddWordObjects | src/gameplay/typingEngine.ts:164-173 | word k becomes the object with id `String(k)`; the list grows by exactly those objects; the map is set from their first letters; no other field changes |
| TypingEngine.Engine.FilterOut | src/gameplay/typingEngine.ts:204-209 | the word with the id leaves the list, `typedFullWord` is emitted with the id, and nothing else changes |
| TypingEngine.Engine.StartNextLevelIfEmpty | src/gameplay/typingEngine.ts:213-215 | with an empty list, the next level is set up with a batch generated for it; otherwise nothing changes |
| TypingEngine.Engine.HandleWordRemoval | src/gameplay/typingEngine.ts:203-215 | filters the id out, emits `typedFullWord` with it, resets, and starts the next level (with a level batch) exactly when the list became empty |
| TypingEngine.Engine.UpdateCurrentlyTypedWord | src/gameplay/typingEngine.ts:229-242 | a full-length typed word is removed first; then the typed text is stored, the next expected character is the word's character at that length (none past the end), and the event is emitted |
| TypingEngine.Engine.HandleKeyDown | src/gameplay/typingEngine.ts:262-296 | the handler body, branch by branch: targeting by first letter, the throw for a mapped but missing word, the logged error and reset for a missing target, acceptance of the expected key, and ignoring any other key |
| TypingEngine.Engine.KeyDown | src/gameplay/typingEngine.ts:262-296 | as `HandleKeyDown`, and with good keys a valid engine stays valid after any key |
| TypingEngine.Engine.Start | src/gameplay/typingEngine.ts:300-303 | sets up level 1; on a fresh engine with good keys the result is valid |
| TypingEngine.Engine.RemoveWord | src/gameplay/typingEngine.ts:311-313 | is `handleWordRemoval`, and with good keys keeps a valid engine valid |
| TypingEngine.Engine.ResetWord | src/gameplay/typingEngine.ts:314-316 | is `resetWordState`; an engine whose word list and map agree is valid afterwards |
| TypingEngine.ActiveInitialsDistinct | src/gameplay/typingEngine.ts:171-172 | in a consistent engine, active words are four-letter practice words and no two of them share a first letter |
| TypingEngine.PracticeKeysGood | src/gameplay/typingEngine.ts:9-28 | `KEYS_TO_PRACTICE` has no repeated key and fewer keys than a level's hundred words |
| TypingEngine.LevelBatchCoversKeys | src/gameplay/typingEngine.ts:158-173 | a level (from 1 on) brings one four-letter word per key, with ids `String(0)`, `String(1)`, ...; their first letters are a permutation of the keys |
| TypingEngine.NumberedIdsDistinct | src/gameplay/typingEngine.ts:166 | ids `String(0)`, `String(1)`, ... are distinct and non-empty |
| TypingEngine.LevelBatchWordsArePractice | src/gameplay/typingEngine.ts:158-173 | every word of a level batch is four letters from the keys, with a non-empty id |
| TypingEngine.SetInitialsOverKeys | src/gameplay/typingEngine.ts:164-173 | after the `set` calls of a batch whose first letters are a permutation of the keys, the map's letters are exactly the keys, each mapped to the id of the word it starts |
| TypingEngine.LevelBatchMatchesMap | src/gameplay/typingEngine.ts:164-173 | a level batch agrees with the map its `set` calls leave |
| TypingEngine.LevelBatchMapPointsBack | src/gameplay/typingEngine.ts:164-173 | after a level batch, a letter mapped to a batch word's id is that word's first letter |
| TypingEngine.EnterLevelKeepsValid | src/gameplay/typingEngine.ts:213-214 | entering the next level from an empty list gives a valid engine |
| TypingEngine.WithoutKeepsMatch | src/gameplay/typingEngine.ts:204-206 | filtering a word out keeps the remaining words in agreement with the unpruned map |
| TypingEngine.RemovalKeepsValid | src/gameplay/typingEngine.ts:203-215 | removal leaves a valid engine with no target, and moves to the next level exactly when the filtered list is empty |
| TypingEngine.RemovalKeepsLevel | src/gameplay/typingEngine.ts:203-211 | removal that leaves other words keeps the level and gives a valid engine with no target |
| TypingEngine.RemovalEntersLevel | src/gameplay/typingEngine.ts:203-215 | removal of the last word raises the level by one and gives a valid engine with no target |
| TypingEngine.TypingKeepsValid | src/gameplay/typingEngine.ts:229-242 | recording a correct non-empty prefix of the target keeps the engine valid |
| TypingEngine.ExtendPrefix | src/gameplay/typingEngine.ts:283-292 | appending the expected character to a typed prefix gives the next longer prefix |
| TypingEngine.KeyDownKeepsValid | src/gameplay/typingEngine.ts:262-296 | every keydown keeps a valid engine valid |
| TypingEngine.IncorrectKeyChangesNothing | src/gameplay/typingEngine.ts:265-295 | a key is reported incorrect exactly when it is an unmapped key with no target, or a key other than the expected one with a target; such a key changes nothing |
| TypingEngine.FirstKeyTargetsItsWord | src/gameplay/typingEngine.ts:265-276 | with no target, an active word's first letter targets that word, records the letter and expects the second letter |
| TypingEngine.TargetWord | src/gameplay/typingEngine.ts:283-286 | a consistent target is an active word, partly typed, whose next character is the expected one |
| TypingEngine.ExpectedKeyAdvances | src/gameplay/typingEngine.ts:283-292 | an expected key that does not end the word is appended to the typed text, and the word's next character becomes expected |
| TypingEngine.LastKeyCompletesWord | src/gameplay/typingEngine.ts:229-242 | the key that ends the word removes it and emits `typedFullWord`; the target and expected character end undefined while the typed text keeps the whole word; when no words remain the level goes up by one |
| TypingEngine.RemovingAbsentIdOnlyResets | src/gameplay/typingEngine.ts:203-211 | removing an id no active word has leaves the list as it is but still emits and resets |
| TypingEngine.RemovedFirstLetterThrows | src/gameplay/typingEngine.ts:266-273 | after a word is removed with others remaining, typing its first letter with no target throws "Couldn't find active word" |
| TypingEngine.StartIsValid | src/gameplay/typingEngine.ts:300-301 | `start` on a fresh engine gives a valid engine with one word per key |
| Strings.NatToString | src/gameplay/typingEngine.ts:166 | `String(k)` of a natural number is a non-empty run of decimal digits |
| Strings.IntToString | src/gameplay/entities/player.ts:91 | `String(n)` is the digits of n, behind a minus sign for a negative n |
| Strings.NatToStringInjective | src/gameplay/typingEngine.ts:166 | different indices give different `String(k)` ids |
| Strings.NatToStringNoLeadingZero | src/gameplay/typingEngine.ts:166 | `String(k)` starts with '0' exactly for k = 0 |
| Strings.IntToStringInjective | src/gameplay/entities/player.ts:91 | different integers have different `String(n)` texts |
| PrototypeWords.KeyText | src/main.ts:36-37 | an index inside the key array gives that key; outside it gives the text "undefined" |
| PrototypeWords.BuildWord | src/main.ts:31-38 | with keys, the word has the requested length (none for a negative one) and its letter m is the key picked by draw m; with no keys, it is a run of "undefined" texts |
| PrototypeWords.GenerateWords | src/main.ts:17-44 | exactly `count` words with no cap; with keys, each has the requested length and only key letters, and with a fixed length word k reads its own block of draws; with no keys, every word is a run of "undefined" |
| PrototypeWords.RepeatedFirstLetters | src/main.ts:30-37 | first letters are not kept distinct: two one-letter words can both start with 'a' |
| Levels.Round | src/gameplay/levels.ts:59 | `Math.round(x)` lies within one half of x |
| Levels.RoundedDraw | src/gameplay/levels.ts:122-124 | `Math.round(randomInRange(lo, hi))` lies in [lo, hi] |
| Levels.Resolve | src/gameplay/levels.ts:59-67 | a scalar is used as given; a range is resolved to a rounded draw inside it |
| Levels.RatioBelowCrossMultiplied | src/gameplay/levels.ts:54-55 | for positive counts, comparing `w/n` with a fraction is comparing the cross products |
| Levels.RatioBelow | src/gameplay/levels.ts:54-55 | with a total of 0 the JavaScript division gives an infinity or NaN, so the ratio is below the threshold exactly when the count is negative |
| Levels.RatioThreshold | src/gameplay/levels.ts:115-119 | the threshold is at most 3/5 and at least -1, and negative exactly from level index 25 on |
| Levels.LateLevelsNeverSpawnEarly | src/gameplay/levels.ts:111-121 | the -1 threshold of index 25 on could never select the early-wave draw, since no non-negative wave ratio is below it; the whole threshold block is in any case unreachable past index 20, where `getEnemies` returns six enemies first (`EnemiesFor`'s first ensures) |
| Levels.GetTrigger | src/gameplay/levels.ts:47-61 | the trigger is "first" exactly for wave 0 |
| Levels.TriggerRule | src/gameplay/levels.ts:54-60 | for a wave w > 0 of n, the trigger is "prevWaveCleared" iff 5w < 3n; otherwise it is a time trigger with a scalar time as given |
| Levels.Pad | src/gameplay/levels.ts:69-72 | the enemies keep what `getEnemies` returned as a prefix, padded with null up to 6 slots; a longer list is kept as it is |
| Levels.GenerateLevel | src/gameplay/levels.ts:63-85 | `waveCount` waves, each with padded enemies for wave i+1, the trigger of wave i+1, and the level's word length; the level's own character count is 0 |
| Levels.NoFirstTrigger | src/gameplay/levels.ts:69-76 | a generated level never has a "first" trigger |
| Levels.FiveWaveTriggers | src/gameplay/levels.ts:54-60 | with 5 waves, waves 1-2 wait for the previous wave and waves 3-5 are timed |
| Levels.WaveTimeFor | src/gameplay/levels.ts:93-97 | the wave time is 3000, 2700, 2500 or 2100 |
| Levels.WordLengthFor | src/gameplay/levels.ts:99-106 | before level 40 the word length is a range inside [1, 7]; from 40 on it is 7 |
| Levels.WaveTimeNonIncreasing | src/gameplay/levels.ts:93-97 | later levels never have longer wave times |
| Levels.WordLengthNonDecreasing | src/gameplay/levels.ts:99-106 | later levels never have shorter words |
| Levels.Defaults | src/gameplay/levels.ts:112 | `Array(n).fill(de)`: n default enemies |
| Levels.EnemiesFor | src/gameplay/levels.ts:111-126 | past level 20 there are six default enemies; otherwise 2 to 6 default enemies |
| Levels.ConfigFor | src/gameplay/levels.ts:90-129 | 5 waves, with the wave time and word length of the level's schedule |
| Levels.GenerateLevels | src/gameplay/levels.ts:87-134 | 200 levels, level i generated from the configuration of index i |
| Levels.GeneratedLevelShape | src/gameplay/levels.ts:63-134 | every generated level has 5 waves of 6 slots with at least 2 enemies (all 6 past level 20); the first two waves wait for the previous one and the others are timed by the schedule |
| Levels.EnemiesCountPrefix | src/gameplay/levels.ts:69-72 | padding never hides returned enemies: a filled prefix is counted |
| Game.NotUniqueMessage | src/gameplay/game.ts:28 | the message is the id followed by " is not unique" |
| Game.NotUniqueMessageInjective | src/gameplay/game.ts:28 | different ids give different messages |
| Game.Game.constructor | src/gameplay/game.ts:14-17 | inactive, unpaused, empty maps, no tracker; the returned `entities` and `enemies` are the live maps |
| Game.Game.CreateEntity | src/gameplay/game.ts:19-41 | a duplicate id fails with "<id> is not unique" and changes nothing; otherwise the entity is added under its id, and also to `enemies` when it is an enemy; the registry invariant is kept, and so is the relation of the handed-out maps to the live ones (`ExportFollows`) |
| Game.Game.RemoveEntity | src/gameplay/game.ts:43-59 | an empty id fails; an untracked entity only warns and changes nothing; a tracked one is destroyed and its id deleted from `entities`, and from `enemies` when the passed entity is an enemy; the handed-out maps follow as in `ExportFollows` |
| Game.Game.ExportFollows | src/gameplay/game.ts:124-125 | the maps handed out keep following the live maps while those were never reassigned, and otherwise stay as they were |
| Game.Game.Mirror | src/gameplay/game.ts:124-125 | a change to a live map shows in the handed-out map exactly while the two are still the same object |
| Game.Game.ClearEntities | src/gameplay/game.ts:61-64 | both maps end empty, and the maps handed out by `createGame` no longer follow them |
| Game.Game.End | src/gameplay/game.ts:116-118 | both maps end empty, the handed-out maps no longer follow them, and `active` is left as it was |
| Game.Game.Start | src/gameplay/game.ts:109-114 | the game becomes active with a fresh tracker that reports delta 0 |
| Game.Game.TogglePaused | src/gameplay/game.ts:134-136 | `paused` is negated |
| Game.Game.LoopStep | src/gameplay/game.ts:86-94 | an inactive game does nothing; an active one tracks the time and reads delta 0 on the first frame, then the elapsed seconds |
| Game.Game.IsActive | src/gameplay/game.ts:128 | `getIsActive` reads `active` |
| Game.Game.IsPaused | src/gameplay/game.ts:137 | `getIsPaused` reads `paused` |
| Game.ToggleTwice | src/gameplay/game.ts:134-136 | toggling twice restores `paused` |
| Game.PausedGameStillSteps | src/gameplay/game.ts:86-94 | a paused but active game still steps |
| Game.DuplicateIdRejected | src/gameplay/game.ts:27-29 | creating two entities with one id fails the second time with the not-unique message |
| Game.ForeignRemovalLeavesEnemy | src/gameplay/game.ts:35-58 | removing a non-enemy that has a tracked enemy's id deletes the entity entry but leaves the enemy entry |
| Game.ExportedViewGoesStale | src/gameplay/game.ts:61-64 | after `clearEntities`, the handed-out map still shows an entity created before and misses one created after |
| Lib.EntitiesColliding | src/gameplay/lib.ts:96-106 | both axis projections overlap, edges included |
| Lib.CollidingSymmetric | src/gameplay/lib.ts:96-106 | collision is symmetric |
| Lib.CollidingReflexive | src/gameplay/lib.ts:100-105 | a box of non-negative size collides with itself |
| Lib.TouchingEdgesCollide | src/gameplay/lib.ts:100-105 | boxes that only touch at an edge collide, since the comparisons are closed |
| Lib.CollidingIffCommonPoint | src/gameplay/lib.ts:96-106 | boxes of non-negative size collide exactly when they share a point |
| Lib.DeltaTracker.constructor | src/gameplay/lib.ts:139-141 | no previous time yet and delta 0 |
| Lib.DeltaTracker.Track | src/gameplay/lib.ts:142-147 | the first call keeps delta 0; later calls set it to the elapsed time in seconds; the time becomes the new origin |
| Lib.DeltaTracker.Get | src/gameplay/lib.ts:148 | `get` reads the stored delta |
| Lib.DeltaTrackerScenario | src/gameplay/lib.ts:138-150 | delta is 0 before any call and after the first call, and `(t1 - t0)/1000` after the second |
| Utils.AbsoluteClamp | src/gameplay/utils.ts:3-10 | the result lies in [-abs(c), abs(c)], equals v when abs(v) is within it, and keeps v's sign |
| Utils.AbsoluteClampIsBandClamp | src/gameplay/utils.ts:3-10 | the result is v clamped to the band [-abs(c), abs(c)] |
| Utils.AbsoluteClampSignOfClampIrrelevant | src/gameplay/utils.ts:4 | the sign of c does not matter |
| Utils.AbsoluteClampIdempotent | src/gameplay/utils.ts:5-9 | clamping twice is clamping once |
| Utils.EntitiesColliding | src/gameplay/utils.ts:12-19 | the same four closed comparisons, on two entity objects' current fields |
| Utils.CollidingAgreesWithLib | src/gameplay/utils.ts:12-19 | this collision test agrees with the one in `lib.ts` and is symmetric |
| Entity.NonEmpty | src/gameplay/entities/entity.ts:114-121 | the `||` default: a non-empty option is kept, and the result is never empty |
| Entity.Construct | src/gameplay/entities/entity.ts:104-124 | a missing position fails, then a missing size fails; otherwise the id is kept when non-empty (else a fresh one), a non-empty type is kept and a missing or empty one becomes "UNKNOWN", velocity and acceleration default to zero, empty fill and stroke styles become undefined, and direction 0 or absent becomes 1 |
| Entity.Entity.constructor | src/gameplay/entities/entity.ts:104-124 | the fields are those of the checked options |
| Entity.Entity.Update | src/gameplay/entities/entity.ts:196-199 | the position moves by the velocity; the arguments are ignored and nothing else changes |
| Entity.UpdateAtRest | src/gameplay/entities/entity.ts:196-199 | with zero velocity the position stays |
| LegacyEntity.Construct | src/gameplay/entity.ts:53-71 | the same checks and defaults as above, and the direction is always 1 |
| LegacyEntity.Entity.constructor | src/gameplay/entity.ts:53-71 | the fields are those of the checked options |
| LegacyEntity.Entity.Update | src/gameplay/entity.ts:130-133 | the position moves by the velocity and nothing else changes |
| Animation.NextFrame | src/gameplay/entities/animation.ts:92-93 | the next frame stays in range, is 0 exactly after the last frame, and is one more otherwise |
| Animation.Advance | src/gameplay/entities/animation.ts:92-93 | any number of advances from a frame in range stays in range |
| Animation.FullCycle | src/gameplay/entities/animation.ts:92-93 | advancing from frame 0 visits every frame in order and wraps to 0 after `frames.length` steps |
| Animation.Animation.constructor | src/gameplay/entities/animation.ts:41-61 | frame 0, wait 0, not finished, no error logged; `frameWaitSize` is `frameDelay ?? 0` and `loop` is `loop ?? false` |
| Animation.FinishedMessage | src/gameplay/entities/animation.ts:70 | the logged text is the fixed prefix, then the animation's id, then the fixed suffix |
| Animation.Animation.Draw | src/gameplay/entities/animation.ts:63-99 | a finished animation only logs its error, once; without the image nothing changes; otherwise the wait counts up, and once it reaches the wait size it resets, the frame advances, and a non-looping animation finishes and calls `onEnd` exactly when the frame wraps to 0; a looping one never finishes |
| Animation.ErrorLoggedOnce | src/gameplay/entities/animation.ts:67-75 | drawing a finished animation twice leaves exactly one logged error |
| Hitbox.OrInt | src/gameplay/HitBox.ts:30 | the `||` default for integers: 0 and absent fall back |
| Hitbox.OrReal | src/gameplay/HitBox.ts:33-35 | the `||` default for numbers: 0 and absent fall back |
| Hitbox.OrRealNeverZero | src/gameplay/HitBox.ts:33-35 | with a non-zero fallback, the hit values are never 0 |
| Hitbox.Hitbox.constructor | src/gameplay/HitBox.ts:23-36 | the base entity's fields as checked by its constructor, then elapsed 0, duration 10 and hit values 1 unless given non-zero |
| Hitbox.Create | src/gameplay/HitBox.ts:23-36 | runs the base constructor with type "hitbox": a missing position or size fails as there; otherwise the hitbox has the given or a fresh id, the position and size, the velocity or zero, the acceleration or zero, direction 1, the pass-through set or the empty set (so it hits exactly the ids outside that set), and the hitbox defaults |
| Hitbox.Hitbox.CanHit | src/gameplay/HitBox.ts:55-57 | an entity can be hit unless its id is in the pass-through set |
| Hitbox.Hitbox.Update | src/gameplay/HitBox.ts:42-53 | moves by the velocity first; then requests removal without counting when the duration is used up, and counts one more frame otherwise |
| Hitbox.Hitbox.GetHitInfo | src/gameplay/HitBox.ts:59-65 | the stored power, direction and lift, unchanged |
| Hitbox.Lifetime | src/gameplay/HitBox.ts:32-52 | a fresh hitbox lives `duration` updates without a removal request; the next update requests removal |
| Hitbox.DefaultHitbox | src/gameplay/HitBox.ts:23-57 | with only an id, a position and a size: the construction succeeds with hit values 1 and duration 10, and the hitbox can hit any entity |
| Player.HealthSprite | src/gameplay/entities/player.ts:91-94 | health 1 to 4 shows "playerShipHealth<n>", 0 shows "playerShipHealth1", and any other value has no entry |
| Player.HealthMapEntry | src/gameplay/entities/player.ts:5-12 | the map entry for health 0 to 4 is named after the health, with 0 borrowing 1's sprite |
| Player.KeyIsSmallHealth | src/gameplay/entities/player.ts:5-12 | only the health values 0 to 4 have a text that is a key of the map |
| Player.LastTwoHealthsLookAlike | src/gameplay/entities/player.ts:10-11 | health 0 and health 1 show the same sprite |
| Player.PlayerOptions | src/gameplay/entities/player.ts:43-54 | the options passed to the base constructor: the caller's, with id and type "player" and a 120 x 120 size |
| Player.Player.constructor | src/gameplay/entities/player.ts:42-69 | the base entity's fields, health 4 and its sprite, and a fresh looping engine animation with frame delay 4 placed on the ship |
| Player.Create | src/gameplay/entities/player.ts:42-69 | runs the base constructor on those options: a missing position fails; otherwise id and type "player", a 120 x 120 ship at the given position with health 4 and its sprite, and the engine animation "player-engine-animation" at the ship's position |
| Player.Player.Update | src/gameplay/entities/player.ts:71-80 | the vertical velocity is 50 times the wave value, the ship moves, and the engine sits at (x - 26, y + 1) |
| Player.Player.Damage | src/gameplay/entities/player.ts:82-84 | health becomes max(health - amount, 0), default amount 1, and the sprite follows |
| Player.Player.SetHealth | src/gameplay/entities/player.ts:86-95 | stores the health and shows `healthMap[String(health)]` |
| Player.FourHitsEmpty | src/gameplay/entities/player.ts:82-84 | four default hits empty a fresh player and a fifth keeps health at 0, with the health-1 sprite |
| HealthManager.LayOutHearts | src/gameplay/managers/HealthManager.ts:27-31 | one heart per health point, heart i at `base + 20i + offset(i+1)`, and none for health 0 or below |
| HealthManager.HeartsDoNotOverlap | src/gameplay/managers/HealthManager.ts:27-31 | consecutive hearts are `20 + offset` apart, so with an offset of at least 20 they do not overlap |
| HealthManager.FirstHeart | src/gameplay/managers/HealthManager.ts:27-31 | the first heart sits one offset right of the base |
| HealthManager.HealthManager.constructor | src/gameplay/managers/HealthManager.ts:9-12 | health starts at 4 |
| HealthManager.HealthManager.Reset | src/gameplay/managers/HealthManager.ts:14-16 | health goes back to 4 |
| HealthManager.HealthManager.Damage | src/gameplay/managers/HealthManager.ts:51-54 | health drops by exactly 1, with no lower bound, and the result says whether health is left |
| HealthManager.HealthManager.Draw | src/gameplay/managers/HealthManager.ts:18-49 | nothing when inactive or without the image; otherwise hearts laid out from the entity's x with offset 40 |
| HealthManager.DamagePastZero | src/gameplay/managers/HealthManager.ts:14-54 | five hits take health to -1, and a reset restores 4 |
| EntityHealthManager.HealthManager.constructor | src/gameplay/entities/healthManager.ts:7-13 | health 4 and offset 40 |
| EntityHealthManager.HealthManager.Damage | src/gameplay/entities/healthManager.ts:48-51 | health drops by exactly 1, with no lower bound, and the result says whether health is left |
| EntityHealthManager.HealthManager.Draw | src/gameplay/entities/healthManager.ts:15-46 | nothing when inactive or without the image; otherwise hearts laid out from x = 0 |
| EntityHealthManager.HeartsIgnorePosition | src/gameplay/entities/healthManager.ts:24-26 | two counters at different positions draw the same four hearts |
| HealthCounter.HealthCounter.constructor | src/gameplay/healthManager.ts:3-8 | four hearts, offset 40 |
| HealthCounter.HealthCounter.Damage | src/gameplay/healthManager.ts:22-24 | subtracts the amount (default 1) with no clamp |
| HealthCounter.HealthCounter.Draw | src/gameplay/healthManager.ts:12-19 | one 40 x 40 square per heart at `20i + 40(i+1)`, y 20; none at 0 hearts or below |
| HealthCounter.OverkillDrawsNothing | src/gameplay/healthManager.ts:12-24 | a hit of 5 leaves -1 hearts and draws nothing |
| ScoreManager.GetText | src/gameplay/entities/scoreManager.ts:4-23 | one white "40px VT323" run holding `String(n)` behind as many '0' characters as make it four long |
| ScoreManager.PaddedLength | src/gameplay/entities/scoreManager.ts:12-15 | the text has length max(4, digits), and a number of four or more characters is kept as it is |
| ScoreManager.PaddedScoresDiffer | src/gameplay/entities/scoreManager.ts:12-15 | different non-negative scores show different texts |
| ScoreManager.ZeroLedNumber | src/gameplay/entities/scoreManager.ts:12-15 | a number's text never begins with a padding zero, unless the number is 0 |
| ScoreManager.ScoreManager.constructor | src/gameplay/entities/scoreManager.ts:26 | the score starts at 0 |
| ScoreManager.ScoreManager.AddPoints | src/gameplay/entities/scoreManager.ts:29-31 | the score grows by exactly the amount and the text shows the new score |
| ScoreManager.ExampleTexts | src/gameplay/entities/scoreManager.ts:4-23 | 7 shows "0007" and 12345 shows "12345"; -5 shows "00-5" because the padding goes before the sign |

## Left out

- Canvas and DOM rendering are not modelled: `draw` methods, `drawImage`, `clearRect` and
  the debug DOM blocks. Only the layout arithmetic of the heart counters is kept, and the
  point where an animation draws its frame.
- Scheduling is not modelled (`requestAnimationFrame`, timers). A game `loop` is modelled
  as one step, `Game.Game.LoopStep`. The user `update`/`draw` callbacks and `onStart` it
  would call are not.
- The keyboard listener registration (`document.addEventListener`) is not modelled, and
  neither are the engine's listener arrays. `TypingEngine.Engine.KeyDown` is the handler
  body. Emitted events are kept in a ghost log that records each event's kind and datum,
  not the state passed to listeners.
- `Math.random` is an oracle with fixed draw numbers per call site. `GenerateLevels`
  gives each level its own oracle. Which values a real generator returns is not modelled.
- `uuid.v4` is a parameter (`freshId`) of the entity constructors.
- Aliasing of `getState`'s shallow copy with the live list and map is not modelled, because
  a `datatype` value is copied.
- Keys are single characters. A multi-character key such as "Shift" is never equal to an
  expected character. It is also never a key of the first-letter map. So a multi-character
  key is always an incorrect key, which is what the source does too.
- Numbers are exact reals or integers. Floating-point rounding, `NaN` and infinities are not
  modelled.
- ScoreManager.GetText takes an integer score. The `parseInt` path for a string argument is
  not modelled.
- The `Enemy` subclass is reduced to the `isEnemy` tag that `instanceof Enemy` tests. Its
  movement and drawing are out of scope.
- Sprite image loading is a boolean parameter (`imageLoaded`). Sprites, fade texts, the
  background and sounds are not modelled.
- The module-level loop in `src/main.ts` that prints generated words is not modelled.
- Game.Game.RemoveEntity: keeps the registry invariant only when the passed entity has the
  same enemy tag as the tracked entity with its id. The source does not check this, and
  `Game.ForeignRemovalLeavesEnemy` shows the stale enemy entry otherwise.
- TypingEngine.Engine.Start: promises a valid engine only when started from the initial
  state. A second `start` appends a new batch with ids `String(0)`, ... that collide with
  those already active. It also registers a second keydown listener
  (src/gameplay/typingEngine.ts:300-303), so every later key is handled twice; listener
  registration is not modelled.
- Player.Player.Update: the sine wave that drives the vertical velocity is a parameter.
- Entity.Entity: the sprite set-up of the constructor (src/gameplay/entities/entity.ts:126-133:
  a copy of `options.sprite` with an image that marks itself loaded) is not modelled. Neither
  are the `active` flag and the `setSprite` method that src/gameplay/entities/player.ts:92
  calls, which are absent from that source file. `Player.Player` keeps the sprite name as a
  field of its own.
- Entity.Construct and LegacyEntity.Construct: the `console.error` that precedes each of the
  two throws is not recorded; a `Failure` stands for the log and the throw together.
- Entity.Entity, LegacyEntity.Entity, Hitbox.Hitbox and Player.Player: the source keeps
  `options.position` by reference (src/gameplay/entities/entity.ts:115), so a caller that
  later mutates that object moves the entity. Positions here are values, so this aliasing
  is not modelled.
- Player.Player.constructor: the engine animation is not registered with the game through
  `createEntity` under the id "player-engine-animation" (src/gameplay/entities/player.ts:56-68).
  So the game loop does not update or draw it. Nor is the "player-engine-animation is not
  unique" throw modelled that a second player's construction would raise. The animation
  also shares the ship's position object until the first `update` reassigns it
  (src/gameplay/entities/player.ts:58, 76); here it gets a copy of the position.
- Game.Game.CreateEntity and Game.Game.RemoveEntity: ids that name properties every plain
  object inherits ("constructor", "toString", "valueOf", "hasOwnProperty", "__proto__", ...)
  are not modelled. The registry is a plain object `{}` (src/gameplay/game.ts:16), so its
  lookups at lines 27 and 47 find such names even in an empty registry, and assigning under
  "__proto__" replaces the prototype. The model's registries are maps that hold only what was
  stored, so `CreateEntity` accepts such an id on an empty game and `RemoveEntity` reports it
  as not tracked, where the source throws or destroys the entity.
- HealthManager.HealthManager.constructor, EntityHealthManager.HealthManager.constructor and
  ScoreManager.ScoreManager.constructor: the three classes extend the entity class of
  src/gameplay/entities/entity.ts, whose constructor throws without a position or a size and
  fills in the id, type and velocity defaults (src/gameplay/entities/entity.ts:104-124). The
  models keep only the fields their methods read and do not go through `Entity.Construct`,
  as `Hitbox.Create` and `Player.Create` do.
- TypingEngine.Engine.InitializeLevel: `GenerateWords` reports its `console.warn` as the
  `warned` result, which the engine does not log. It is raised at every level from 1 on,
  because a level asks for 100 x level words and there are 17 keys.
