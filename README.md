# Warrenwalker engine in Dafny

This is a model of the game engine of Warrenwalker, a browser text adventure. A player descends through six layers of "warrens". In each one they make a choice that shifts three stats (sanity, memory, perception), may award a reality fragment, and may reveal a discovery. At the end, one of five endings is picked. The engine is modelled without its React rendering. Five parts are covered, one Dafny module each, with shared records in `GameTypes` (`types.dfy`):

- **`Game` (`game.dfy`)** models the run state machine of `src/App.tsx`.
  - The `gameState` object becomes the `RunState` datatype. Every update replaces it with a modified copy, as the source's `{...prev, ...}` updaters do.
  - The other React state hooks (phase, current text, choices flag, text-complete flag, pending achievement, current discoveries) are fields of the class `Game.Game`.
  - The achievement list is an `array` that the unlock pass mutates in place.
  - Each callback (`startNewGame`, `enterWarren`, `makeChoice`, `proceedToNextLayer`, `handleTextComplete`, `handleSettingsChange`) is one method, run as one atomic step.
  - The random draw for the fragment roll and the warren the selector hands over are parameters.
  - The stat resolver, the fragment roll, the layer updater and the ending chain are functions, with lemmas about them.
- **`Achievements` (`achievements.dfy`)** models the achievement table with its ten conditions, and `checkAchievements`. The latter is a method that sets `unlocked` in place on an array. It is specified by the functions `UnlockPass` (the new list) and `NewlyUnlocked` (the returned list).
- **`Discoveries` (`discoveries.dfy`)** models the discovery table and `checkDiscoveries`. It is a pure filter by warren type and stat thresholds, shown sound, complete, monotone in the stats and of length at most one.
- **`Warrens` (`warrens.dfy`)** models the five-warren table and `getRandomWarren`, whose index pick is `floor(draw * 5)`.
- **`Security` (`security.dfy`)** models three utilities:
  - `sanitizeText`, the chain of six global replacements. It is proved equal to a per-character escape, which yields distribution over concatenation and the safety of its output.
  - `validateSettings`, over a small datatype of JavaScript values.
  - `rateLimitActions`, as the class `RateLimiter`. The class holds the per-key dictionary of timestamps, and the clock is a parameter. A ghost history of each key's calls ties the dictionary to a replay function, on which the "10 per second" bound is proved.

## Model

| member | source | states |
|---|---|---|
| `Warrens.RandomIndex` | src/data/warrens.ts:159 | for a draw in [0,1) the index `floor(draw * 5)` lies in [0,5) and is the integer part of `draw * 5` |
| `Warrens.RandomWarren` | src/data/warrens.ts:158-160 | `getRandomWarren` returns an element of the table, whose type is one of the five table types |
| `Warrens.RandomWarrenUniform` | src/data/warrens.ts:158-160 | the draw picks table entry k exactly when it lies in [k/5, (k+1)/5) |
| `Warrens.TableTypesDistinct` | src/data/warrens.ts:3-156 | the table holds exactly five warrens (memory, shadow, pain, dream, entropy) with distinct names and distinct types |
| `Warrens.ChoicesWellFormed` | src/data/warrens.ts:13-154 | every warren has three choices, each with a stat effect and a fragment chance in (0, 1] |
| `Warrens.CertainChanceOnlyEntropyFirst` | src/data/warrens.ts:136-142 | a fragment chance of 1.0 occurs only on the Entropy Warren's first choice |
| `Warrens.DeltasBounded` | src/data/warrens.ts:18-152 | every stat delta in the table lies in [-3, 3], and both -3 (Entropy) and +3 (Dream) occur |
| `Discoveries.Filter` | src/data/discoveries.ts:63-73 | the filter never returns more entries than it is given (what it keeps is stated by `FilterMembers`) |
| `Discoveries.CheckDiscoveries` | src/data/discoveries.ts:3-73 | `checkDiscoveries` returns at most one discovery, because the table lists each warren type once |
| `Discoveries.FilterMembers` | src/data/discoveries.ts:63-73 | a discovery is in the filtered list exactly when it is in the input list, has the given type and meets all its thresholds |
| `Discoveries.CheckDiscoveriesSound` | src/data/discoveries.ts:62-73 | every returned discovery is a table entry of the given warren type whose every listed threshold is at most the current stat |
| `Discoveries.CheckDiscoveriesComplete` | src/data/discoveries.ts:62-73 | every table entry of the given type whose thresholds are met is returned |
| `Discoveries.FilterMonotone` | src/data/discoveries.ts:66-69 | raising stats never removes an entry: the result for lower stats is an order-preserving subsequence of the result for higher stats |
| `Discoveries.CheckDiscoveriesMonotone` | src/data/discoveries.ts:62-73 | the same for the table: lower stats give a subsequence of, and a subset of, what higher stats give |
| `Discoveries.TableTypesDistinct` | src/data/discoveries.ts:3-60 | the table's entries have pairwise distinct warren types |
| `Discoveries.OnlyEntryOfTypeIn` | src/data/discoveries.ts:63-73 | in a list with distinct types, the filter yields the entry of that type if its thresholds are met and nothing otherwise |
| `Discoveries.OnlyEntryOfType` | src/data/discoveries.ts:3-73 | for the table: the result is the entry of the given type when its thresholds are met, else empty |
| `Discoveries.CoreMemoryAtStart` | src/data/discoveries.ts:26-31 | at stats 5/5/5 the Memory Warren yields Core Memory and nothing else |
| `Discoveries.FilterAppend` | src/data/discoveries.ts:63 | filtering distributes over concatenation (the filter keeps list order) |
| `Achievements.Rank` | src/data/achievements.ts:4-87 | each achievement id has a position in the table, and the table entry there carries that id |
| `Achievements.UnlockPass` | src/data/achievements.ts:92-97 | the new list has the same length; only the `unlocked` flag can change, and it is set exactly when it was set or the condition holds |
| `Achievements.Condition` | src/data/achievements.ts:10-85 | the ten unlock conditions, one per achievement, over the layer, the fragment count, the stats and the visited warren types |
| `Achievements.NewlyUnlocked` | src/data/achievements.ts:89-99 | the returned list is never longer than the achievement list (its entries are stated by `NewlyMembers`) |
| `Achievements.CheckAchievements` | src/data/achievements.ts:89-99 | the in-place pass leaves the array equal to `UnlockPass` of its old contents and returns `NewlyUnlocked` of them |
| `Achievements.NewlyMembers` | src/data/achievements.ts:92-96 | the returned entries are exactly the flagged copies of the locked entries whose condition holds |
| `Achievements.NewlyAreUnlocked` | src/data/achievements.ts:93-95 | every returned entry is flagged unlocked and its condition holds |
| `Achievements.NewlyInTableOrder` | src/data/achievements.ts:92-96 | a list in table order yields its newly unlocked entries in table order |
| `Achievements.NoneQualify` | src/data/achievements.ts:93 | when no entry is locked with a true condition, nothing is returned |
| `Achievements.SecondPassIsEmpty` | src/data/achievements.ts:93-94 | a second pass on the same state returns nothing and changes nothing (the pass is idempotent) |
| `Achievements.UnlockedIsSkipped` | src/data/achievements.ts:93 | an already-unlocked entry stays as it is and is never returned |
| `Achievements.TableIsLockedAndOrdered` | src/data/achievements.ts:4-87 | the table has ten entries, all locked, in `Rank` order |
| `Achievements.UnreachableWithTableWarrens` | src/data/achievements.ts:27-79 | when every visited type is one of the five table types, Void Walker, Temporal Paradox, Echo Chamber and Warren Master (8 distinct types, src/constants/gameConstants.ts:9) can never unlock |
| `Achievements.SubsetCard` | src/data/achievements.ts:75-78 | a subset of a set of warren types is no larger than the set (the count behind Warren Master) |
| `Security.SanitizeText` | src/utils/security.ts:4-13 | text without any of `&`, `<`, `>`, `"`, `'`, `/` is returned unchanged |
| `Security.ReplaceAll` | src/utils/security.ts:7-12 | a global one-character replace leaves a string without that character unchanged |
| `Security.EscapeChar` | src/utils/security.ts:6-12 | the per-character escape: other characters map to themselves, the six specials to an entity from `&` to `;` |
| `Security.ReplaceAllAppend` | src/utils/security.ts:7-12 | each global replace distributes over concatenation |
| `Security.SanitizeAppend` | src/utils/security.ts:6-12 | `sanitizeText(a + b) == sanitizeText(a) + sanitizeText(b)` |
| `Security.ReplaceAllOne` | src/utils/security.ts:7-12 | replacing in the one-character string of the pattern gives the replacement |
| `Security.StageOf` | src/utils/security.ts:7-12 | each special character is the pattern of exactly one replacement in the chain, which writes its escape |
| `Security.SanitizeIsChain` | src/utils/security.ts:6-12 | the six replacements, in source order, are the first six stages of the chain |
| `Security.EntityLacksLaterPatterns` | src/utils/security.ts:7-12 | no entity written by a replacement contains the pattern of a later one, which is why `&` must go first |
| `Security.ChainChar` | src/utils/security.ts:6-12 | after k replacements a character is escaped exactly when its own replacement is among the first k |
| `Security.SanitizeChar` | src/utils/security.ts:6-12 | on one character the chain gives its escape, never a double escape |
| `Security.SanitizeIsEscape` | src/utils/security.ts:6-12 | the chain of replacements equals the per-character escape of the whole string |
| `Security.EscapeCharShape` | src/utils/security.ts:7-12 | an escape holds no markup character, has `&` only first, and an `&` there opens an entity |
| `Security.EscapeWellEscaped` | src/utils/security.ts:6-12 | the escape of any string has no markup and every `&` begins an entity |
| `Security.SanitizeSafe` | src/utils/security.ts:6-12 | `sanitizeText`'s output contains none of `<`, `>`, `"`, `'`, `/`, and every `&` begins one of the six entities |
| `Security.ValidateSettings` | src/utils/security.ts:15-35 | the validator accepts exactly an object with a numeric `textSpeed` in [1, 200], a `difficulty` of easy, normal or hard, and boolean `autoAdvance`, `showStats`, `soundEnabled` |
| `Security.ToJs` | src/utils/security.ts:15-35 | a settings record as an object has exactly the five settings fields |
| `Security.ParseSettings` | src/utils/security.ts:15-35 | settings are read from a value exactly when the validator accepts it, always with a speed in [1, 200] |
| `Security.ExtraFieldsIgnored` | src/utils/security.ts:19-32 | adding or changing a field other than the five changes neither the verdict nor the settings read |
| `Security.SettingsRoundTrip` | src/utils/security.ts:15-35 | a settings record passes exactly when its speed is in [1, 200], and then it reads back unchanged |
| `Security.Recent` | src/utils/security.ts:47 | the window filter never lengthens a list |
| `Security.RecentMembers` | src/utils/security.ts:47 | a timestamp survives the filter exactly when it was stored and `now - t < 1000` |
| `Security.RecentKeepsFresh` | src/utils/security.ts:47 | a list whose entries are all inside the window is kept whole |
| `Security.Replay` | src/utils/security.ts:37-55 | replaying one key's calls from a fresh limiter leaves at most 10 stored timestamps and allows at most as many calls as were made |
| `Security.ReplayStep` | src/utils/security.ts:44-53 | one more call on a key is one more filter, check and push on what the earlier calls left |
| `Security.ConsistentAfterCall` | src/utils/security.ts:44-53 | a call on an ordinary key keeps the limiter's state equal to the replay of each key's calls |
| `Security.RateLimiter.constructor` | src/utils/security.ts:38 | the limiter starts with no keys and no calls |
| `Security.RateLimiter.Allow` | src/utils/security.ts:42-55 | a key naming an `Object.prototype` property (`constructor`, `__proto__`, `toString`, ...) throws a TypeError at the `filter` and changes nothing. Otherwise the call is allowed iff fewer than 10 timestamps remain after the window filter, and the key's list becomes the filtered list, plus `now` when allowed. An unseen key is allowed with list `[now]`. The call is recorded in the key's history, whose replay gains `now` as an allowed call exactly when this call is allowed; every stored list stays the replay of its key's calls |
| `Security.AllowedListIsFresh` | src/utils/security.ts:47-53 | after an allowed call every stored timestamp for the key lies inside the window |
| `Security.RecentAppend` | src/utils/security.ts:47 | the window filter distributes over concatenation |
| `Security.RecentOfRecent` | src/utils/security.ts:47 | filtering at an earlier clock reading and then at `now` is filtering at `now` |
| `Security.StoredIsRecentAllowed` | src/utils/security.ts:42-55 | with a clock that never goes back, the list stored for a key is exactly its allowed calls that are still inside the window |
| `Security.InWindow` | src/utils/security.ts:39 | the timestamps picked for an interval of 1000 ms are timestamps of the list lying in that interval |
| `Security.InWindowAppend` | src/utils/security.ts:39 | picking an interval distributes over concatenation |
| `Security.InWindowWithinRecent` | src/utils/security.ts:39-47 | an interval of 1000 ms ending after `now` holds no more timestamps than the window filter at `now` keeps |
| `Security.AllowedPerWindow` | src/utils/security.ts:39-53 | "max 10 actions per second": with a clock that never goes back, no interval of 1000 ms holds more than 10 allowed calls of one key |
| `Game.Clamp` | src/App.tsx:131-133 | `max(0, min(10, x))` lies in [0, 10], is `x` inside the range and the nearer bound outside it |
| `Game.ApplyStatEffect` | src/App.tsx:110-133 | the stats after any choice, on any difficulty, from any prior stats, lie in [0, 10] |
| `Game.ResolveStats` | src/App.tsx:110-133 | the updater's step-by-step mutation of the three stats computes `ApplyStatEffect` |
| `Game.DifficultyOrder` | src/App.tsx:116-127 | for equal inputs each stat ends at least as high on easy as on normal, and on normal as on hard |
| `Game.OnlyNegativeDeltasAdjusted` | src/App.tsx:111-127 | an absent, zero or positive delta is unaffected by difficulty; a negative one gets +1 on easy and -1 on hard, before the clamp |
| `Game.ScaledChance` | src/App.tsx:136-143 | the scaled chance is positive exactly when the base chance is, is unchanged on normal, and for a non-negative chance lies between 0.7 and 1.3 times it |
| `Game.AwardsFragment` | src/App.tsx:145 | a fragment is awarded only for a positive base chance and a draw below 1.3 times it; an absent or non-positive chance never awards one |
| `Game.CertainChance` | src/App.tsx:136-145 | a base chance of 1.0 always awards a fragment on easy and normal, and on hard only for draws below 0.7 |
| `Game.AwardMonotoneInDifficulty` | src/App.tsx:136-145 | a draw that wins on hard wins on normal, and one that wins on normal wins on easy |
| `Game.ShardOf` | src/App.tsx:146-151 | the awarded fragment's source is the warren's name, its layer the current layer, and its name "Shard of " followed by the source |
| `Game.AdvanceLayer` | src/App.tsx:175-181 | the game is over exactly when `layer + 1 > maxLayers`; a layer in [1, maxLayers] stays in [1, maxLayers] |
| `Game.DescentReachesLastLayer` | src/App.tsx:174-207 | from layer 1 the first `maxLayers - 1` advances reach layer n + 1 without ending the game, and the next one ends it |
| `Game.ResolveEnding` | src/App.tsx:190-200 | the ending chosen applies, and no ending earlier in the priority order (transcendence, madness, escape, partial escape, claimed) applies |
| `Game.EndingExamples` | src/App.tsx:190-200 | 6 fragments, 3 discoveries and sanity 0 give transcendence; (6, 2, 1) gives madness; (4, 0, 5) gives escape; (3, 0, 5) gives partial escape |
| `Game.FirstDiscovery` | src/App.tsx:97-100 | the discovery shown after a choice's result is the first one found, and there is none exactly when nothing was found |
| `Game.LockedTable` | src/App.tsx:22 | entry i of a fresh achievement list is locked and carries the id at table position i |
| `Game.NewAchievements` | src/App.tsx:53 | a fresh array of the ten table achievements, all locked |
| `Game.NewRun` | src/App.tsx:44-56 | a new run keeps the given settings, has no fragments, discoveries, visits or current warren, and is valid (layer 1 of 6, stats in range) |
| `Game.Game.constructor` | src/App.tsx:12-41 | the initial state: layer 1 of 6, stats 5/5/5, default settings (speed 50, normal, no auto-advance, stats shown, sound off), locked achievements, intro phase, blank text |
| `Game.Game.StartNewGame` | src/App.tsx:43-64 | a new run keeps the settings exactly. Layer 1, stats 5/5/5, empty lists, no current warren, a fresh locked achievement array, intro phase and text, choices hidden. The pending notification is not touched |
| `Game.Game.EnterWarren` | src/App.tsx:66-89 | the warren becomes current and its type is appended to the visits. The phase is warren, with its name and description shown and choices hidden. The current discoveries are `checkDiscoveries` for its type and the current stats |
| `Game.Game.MakeChoice` | src/App.tsx:91-172 | with no current warren, nothing changes. Otherwise: result phase, choices hidden, and the result text with the first current discovery. Stats become `ApplyStatEffect`. At most one fragment, `ShardOf` the warren at the current layer, is appended when the roll wins. The current discoveries are appended without deduplication. The achievement array is unlocked by `UnlockPass` on the updated state, and the first newly unlocked becomes pending |
| `Game.Game.ApplyChoice` | src/App.tsx:108-161 | the state-object updater of a choice: new stats, the possible fragment appended after the old ones, and the discoveries appended; every other field kept |
| `Game.Game.UnlockAchievements` | src/App.tsx:163-168 | the achievement pass on the updated state; the first newly unlocked achievement, if any, replaces the pending one |
| `Game.Game.ProceedToNextLayer` | src/App.tsx:174-207 | past the last layer: game over with the layer unchanged, ending phase, and the `ResolveEnding` text. Otherwise: the layer increments and the next warren is entered. The run invariant `1 <= currentLayer <= maxLayers` is kept |
| `Game.Game.HandleTextComplete` | src/App.tsx:209-232 | intro enters a warren; warren shows the choices; result goes to the choice phase with the continue text, whatever `autoAdvance` is; ending only marks the text complete. Choice proceeds to the next layer: past the last layer the game ends with the choices flag and current discoveries kept; otherwise the next warren is entered with choices hidden and its discoveries checked |
| `Game.Game.HandleSettingsChange` | src/App.tsx:234-239 | the settings are replaced and nothing else in the state object changes |

## Left out

- Rendering: the JSX of `src/App.tsx`, the typewriter effect, the settings form and the achievements panel. The exact screen strings are not modelled either. The current text is modelled as the `Text` datatype, which records which screen is shown and the data it carries (warren name and description, a choice's result and first discovery, the ending).
- Timers and React scheduling. The 500/1000/1500/2000 ms delays and React's batching of state updates are out. Each callback runs as one atomic step, with all its state updates applied in order, and each updater is assumed to run once.
- Weighted warren selection. `getWeightedWarren` is called in `src/App.tsx:67-73` but its definition is not part of this model, and the layer threshold it depends on is not defined in `src/App.tsx`. Which warren is entered is therefore a parameter of `EnterWarren`, `ProceedToNextLayer` and `HandleTextComplete`; `Warrens.RandomWarren` models the uniform pick.
  - The constants files disagree on the threshold (4 vs 3), on the time-warren probability (0.25 vs 0.35) and on the ending fragment threshold (6 vs 4). The ending chain uses the literals 6 and 3 written in `src/App.tsx:190`.
- `Math.random` and `Date.now` are parameters: the fragment roll's draw in [0, 1), the warren pick's draw, and the limiter's `now`.
- Floating point. Chances and draws are exact reals, so the rounding of `chance * 1.3` and `chance * 0.7` is not modelled. `validateSettings` accepts NaN as a `textSpeed`, because both comparisons with NaN are false; NaN has no counterpart among reals, and that case is outside the model.
- JavaScript values handed to `validateSettings` are modelled as undefined, null, booleans, numbers, strings and plain objects (`JsValue`). Arrays, functions and inherited prototype properties of the value are not modelled.
- `Game.Game.MakeChoice` requires the choice index to be in range when a warren is current. The source reads `undefined` and throws there.
- The warren `style` record (colours and fonts) is cosmetic and is omitted from `Warren`.
- An absent `requiresStats` on a discovery is modelled as the empty map; the filter treats the two alike.
- `Discoveries.Filter` only bounds its length in its own contract. What it keeps is stated by `Discoveries.FilterMembers`; the functions that use it stay cheap to verify this way.
- `Achievements.NewlyUnlocked` only bounds its length in its own contract. Its entries are stated by `Achievements.NewlyMembers` and `Achievements.NewlyAreUnlocked`, for the same reason.
- `Security.AllowedPerWindow` and `Security.StoredIsRecentAllowed` assume a clock that never goes back. `Date.now` can step backwards, and then the source itself can allow more than 10 calls in a second.
- The settings menu's open and close flags and the achievements panel flag are UI state without engine behaviour, and are not modelled.
