# ScoreIt scoring core in Dafny

ScoreIt is a game-server mod in which players deposit tagged items on a drop
box to score points while a game runs. This project models its core in
Dafny and proves properties of the model:

- the scoreboard (`Game.Scoreboard`): the four-state game lifecycle NONE,
  STARTED, STOPPED and ENDED, and the registry of player scores kept in a
  hash map from player id to a mutable `PlayerScore`, with insert-if-absent,
  remove, lookup, point credits, per-item-kind counts, and load and save of
  the state label and every record;
- the per-player record (`Records.PlayerScore`) with its lazily created
  item-count map, and its persisted compound (`Records.ScoreTag`);
- the leaderboard (`Leaders.Leaderboard`), the second registry, which is the
  one the world save persists;
- the ranking rule of the `scores` command (`Commands`): the records sorted by
  descending points, ranks 1 to 5, and the caller's own rank when the caller
  is outside the top five;
- the deposit handler and the login handler (`Events`): gating on the hand,
  the stack, the block and the game state, the choice of the `scoreit:*_point`
  tag, the parse of its numeric prefix, and the registry update.

The source keeps the registries and the game state in static fields; here
each registry is an object with a `registry: map<string, PlayerScore>` field,
and each operation that changes them is a method with a `modifies` clause.
`View()` is the registry's value, a map from id to `Record`, and the pure
functions of `Registry` (`InsertIfAbsent`, `Credit`, `CreditItem`, `Award`,
`MergeLoad`) say what each method does to it. Iterating a `HashMap` or
`HashSet` visits entries in an order the model does not fix: the loops pick
any remaining key, and the methods return the order they used as a ghost
`keys` sequence.

Files: `basics.dfy` (Option, 32-bit int arithmetic, iteration orders),
`records.dfy`, `registry.dfy`, `game.dfy`, `leaders.dfy`, `commands.dfy`,
`events.dfy`.

## Model

| member | source | states |
|---|---|---|
| `Records.PlayerScore.constructor` | src/main/java/com/someguyssoftware/scoreit/scoreboard/PlayerScore.java:55-57 | the record gets the uuid; no name, 0 points, no count map yet |
| `Records.PlayerScore.Named` | src/main/java/com/someguyssoftware/scoreit/scoreboard/PlayerScore.java:64-67 | the record's value is uuid, name, 0 points and no counts |
| `Records.PlayerScore.SetUuid` | src/main/java/com/someguyssoftware/scoreit/scoreboard/PlayerScore.java:130-132 | sets the uuid and changes no other field |
| `Records.PlayerScore.SetName` | src/main/java/com/someguyssoftware/scoreit/scoreboard/PlayerScore.java:138-140 | sets the name and changes no other field |
| `Records.PlayerScore.SetPoints` | src/main/java/com/someguyssoftware/scoreit/scoreboard/PlayerScore.java:146-148 | sets the points and changes no other field |
| `Records.PlayerScore.SetItemCounts` | src/main/java/com/someguyssoftware/scoreit/scoreboard/PlayerScore.java:157-159 | replaces the count map and changes no other field |
| `Records.PlayerScore.GetItemCounts` | src/main/java/com/someguyssoftware/scoreit/scoreboard/PlayerScore.java:150-155 | the first call creates an empty map, later calls return that same map, and the record's value never changes |
| `Records.PlayerScore.AddPoints` | src/main/java/com/someguyssoftware/scoreit/scoreboard/PlayerScore.java:161-163 | points grow by exactly n; uuid, name and counts are unchanged |
| `Records.PlayerScore.Save` | src/main/java/com/someguyssoftware/scoreit/scoreboard/PlayerScore.java:110-124 | the compound carries uuid, name and points and exactly one counts entry per item kind; the record's value is unchanged |
| `Records.PlayerScore.Load` | src/main/java/com/someguyssoftware/scoreit/scoreboard/PlayerScore.java:73-103 | absent exactly when the uuid is missing or empty, or a non-empty counts list meets a name the host rejects as a location; otherwise a fresh record with the uuid, the name and points only when present (points default 0), and a count map only when the list is non-empty, holding the one entry the loop keeps overwriting |
| `Records.SaveThenLoad` | src/main/java/com/someguyssoftware/scoreit/scoreboard/PlayerScore.java:76-124 | a record without item counts and with a non-empty uuid, saved as save writes it (an empty counts list), is loaded back exactly as saved, whatever the host |
| `Records.LoadNeedsUuid` | src/main/java/com/someguyssoftware/scoreit/scoreboard/PlayerScore.java:76-99 | a compound loads as absent if and only if its uuid is missing or empty or its non-empty counts list meets a name the host rejects; a loaded record keeps the compound's uuid, name and points, and has no counts when the list is absent or empty |
| `Registry.InsertIfAbsent` | src/main/java/com/someguyssoftware/scoreit/scoreboard/Scoreboard.java:128-141 | the id is present afterwards, no other id is added, no existing entry is overwritten, and an absent id gets the offered record |
| `Registry.InsertIfAbsentIdempotent` | src/main/java/com/someguyssoftware/scoreit/scoreboard/Scoreboard.java:128-134 | inserting the same id a second time changes nothing, whatever record is offered |
| `Registry.AddCount` | src/main/java/com/someguyssoftware/scoreit/scoreboard/Scoreboard.java:194-200 | the kind's count grows by the stack count, or becomes it for a new kind; every other kind keeps its count |
| `Registry.CreditAllSums` | src/main/java/com/someguyssoftware/scoreit/scoreboard/PlayerScore.java:161-163 | any series of credits raises the points by their sum and changes nothing else |
| `Registry.Award` | src/main/java/com/someguyssoftware/scoreit/eventhandler/PlayerEventHandler.java:114-118 | after a deposit the player is registered, a known player is credited the points and the count, a new player starts with exactly those, and no other entry changes |
| `Registry.MergeLoad` | src/main/java/com/someguyssoftware/scoreit/scoreboard/Scoreboard.java:216-226 | loading a list of compounds in order, each inserted under its own uuid unless present (its properties are `Registry.MergeLoadMerges`) |
| `Registry.MergeLoadMerges` | src/main/java/com/someguyssoftware/scoreit/scoreboard/Scoreboard.java:216-226 | a load keeps every existing entry, adds exactly the ids of the compounds that load, and files each new record under its own uuid |
| `Registry.SaveAllThenLoad` | src/main/java/com/someguyssoftware/scoreit/leaderboard/Leaderboard.java:117-149 | saving every entry in any order and loading the list into an empty registry gives back the registry, whatever the host, when entries are filed under their own uuids and hold no counts |
| `Registry.UpdatesKeepReloadable` | src/main/java/com/someguyssoftware/scoreit/leaderboard/Leaderboard.java:58-111 | registering a fresh player under a non-empty id, crediting points and removing a player keep the registry keyed by uuid and free of counts, the precondition of the round trip |
| `Registry.MergeLoadKeepsReloadable` | src/main/java/com/someguyssoftware/scoreit/leaderboard/Leaderboard.java:117-129 | loading compounds whose counts lists are absent or empty keeps the registry keyed by uuid and free of counts |
| `Registry.ListScores` | src/main/java/com/someguyssoftware/scoreit/scoreboard/Scoreboard.java:124-126 | lists every registered record once, in some iteration order |
| `Registry.SaveAll` | src/main/java/com/someguyssoftware/scoreit/scoreboard/Scoreboard.java:235-242 | one compound per entry in iteration order, each a save of that entry; no record's value changes |
| `Registry.LoadInto` | src/main/java/com/someguyssoftware/scoreit/scoreboard/Scoreboard.java:216-226 | the new registry's value is the merging load of the old one; existing entries keep their objects; distinct objects stay distinct |
| `Game.ParseLabel` | src/main/java/com/someguyssoftware/scoreit/scoreboard/Scoreboard.java:211-213 | a parsed state is the one whose label is the text |
| `Game.LabelRoundTrip` | src/main/java/com/someguyssoftware/scoreit/scoreboard/Scoreboard.java:210-249 | every state saved by its label loads back as itself |
| `Game.ComparePoints` | src/main/java/com/someguyssoftware/scoreit/scoreboard/Scoreboard.java:63-68 | negative exactly when the first record has more points, zero exactly on a tie |
| `Game.ComparePointsAsWritten` | src/main/java/com/someguyssoftware/scoreit/scoreboard/Scoreboard.java:65-67 | the int subtraction stays in int range and agrees with the intended comparison whenever the difference fits |
| `Game.ComparatorOverflows` | src/main/java/com/someguyssoftware/scoreit/scoreboard/Scoreboard.java:65-67 | for totals far apart the as-written comparison puts the lower total first |
| `Game.SortByPoints` | src/main/java/com/someguyssoftware/scoreit/command/ScoreItCommand.java:176-178 | the sorted list is a permutation of the input with points in descending order |
| `Game.Scoreboard.constructor` | src/main/java/com/someguyssoftware/scoreit/scoreboard/Scoreboard.java:49-70 | the game starts in NONE with an empty registry |
| `Game.Scoreboard.PhasesExclusive` | src/main/java/com/someguyssoftware/scoreit/scoreboard/Scoreboard.java:108-118 | at most one of running, paused and complete holds, and none holds exactly in NONE |
| `Game.Scoreboard.IsRunning` | src/main/java/com/someguyssoftware/scoreit/scoreboard/Scoreboard.java:108-110 | true exactly in STARTED |
| `Game.Scoreboard.IsPaused` | src/main/java/com/someguyssoftware/scoreit/scoreboard/Scoreboard.java:112-114 | true exactly in STOPPED |
| `Game.Scoreboard.IsComplete` | src/main/java/com/someguyssoftware/scoreit/scoreboard/Scoreboard.java:116-118 | true exactly in ENDED |
| `Game.Scoreboard.Start` | src/main/java/com/someguyssoftware/scoreit/scoreboard/Scoreboard.java:78-84 | succeeds exactly from NONE or STOPPED and then sets STARTED; otherwise the state is unchanged |
| `Game.Scoreboard.Stop` | src/main/java/com/someguyssoftware/scoreit/scoreboard/Scoreboard.java:86-92 | succeeds exactly from STARTED and then sets STOPPED; otherwise the state is unchanged |
| `Game.Scoreboard.End` | src/main/java/com/someguyssoftware/scoreit/scoreboard/Scoreboard.java:94-101 | succeeds exactly from STARTED or STOPPED and then sets ENDED; otherwise, ENDED included, the state is unchanged |
| `Game.Scoreboard.Reset` | src/main/java/com/someguyssoftware/scoreit/scoreboard/Scoreboard.java:103-106 | from any state, NONE and an empty registry |
| `Game.Scoreboard.GetScores` | src/main/java/com/someguyssoftware/scoreit/scoreboard/Scoreboard.java:124-126 | every registered record once, in some iteration order |
| `Game.Scoreboard.AddPlayer` | src/main/java/com/someguyssoftware/scoreit/scoreboard/Scoreboard.java:128-134 | a present id leaves the registry unchanged; an absent id gets a fresh record with the name and 0 points |
| `Game.Scoreboard.AddPlayerRecord` | src/main/java/com/someguyssoftware/scoreit/scoreboard/Scoreboard.java:136-141 | the given record is filed only under an absent id; a present entry is never replaced |
| `Game.Scoreboard.RemovePlayer` | src/main/java/com/someguyssoftware/scoreit/scoreboard/Scoreboard.java:143-148 | returns the record exactly when the id was present; afterwards the id is absent and nothing else changed |
| `Game.Scoreboard.GetPlayer` | src/main/java/com/someguyssoftware/scoreit/scoreboard/Scoreboard.java:155-157 | present exactly when the id is registered, and then it is that id's record |
| `Game.Scoreboard.HasPlayer` | src/main/java/com/someguyssoftware/scoreit/scoreboard/Scoreboard.java:164-166 | true exactly when the id is registered |
| `Game.Scoreboard.AddPoints` | src/main/java/com/someguyssoftware/scoreit/scoreboard/Scoreboard.java:174-181 | empty and no change for an unknown id; otherwise the old total plus n, and no other player's record changes |
| `Game.Scoreboard.AddPointsForItem` | src/main/java/com/someguyssoftware/scoreit/scoreboard/Scoreboard.java:190-204 | as AddPoints, and the kind's count grows by the stack count or is set for a new kind |
| `Game.Scoreboard.CreditStack` | src/main/java/com/someguyssoftware/scoreit/scoreboard/Scoreboard.java:193-200 | the found record is credited the points and the stack's count under its kind |
| `Game.Scoreboard.Load` | src/main/java/com/someguyssoftware/scoreit/scoreboard/Scoreboard.java:210-227 | the state is set only when its key is present, the records are merged without clearing, and an unknown label changes nothing |
| `Game.Scoreboard.Save` | src/main/java/com/someguyssoftware/scoreit/scoreboard/Scoreboard.java:234-249 | writes the state's label and one compound per entry; no record's value changes |
| `Leaders.Leaderboard.constructor` | src/main/java/com/someguyssoftware/scoreit/leaderboard/Leaderboard.java:39 | the registry starts empty |
| `Leaders.Leaderboard.AddPlayer` | src/main/java/com/someguyssoftware/scoreit/leaderboard/Leaderboard.java:58-64 | inserts a fresh record only when the id is absent |
| `Leaders.Leaderboard.AddPlayerRecord` | src/main/java/com/someguyssoftware/scoreit/leaderboard/Leaderboard.java:66-71 | files the given record only under an absent id |
| `Leaders.Leaderboard.RemovePlayer` | src/main/java/com/someguyssoftware/scoreit/leaderboard/Leaderboard.java:73-78 | returns the record exactly when the id was present; the id is absent afterwards |
| `Leaders.Leaderboard.GetPlayer` | src/main/java/com/someguyssoftware/scoreit/leaderboard/Leaderboard.java:85-87 | present exactly when the id is registered |
| `Leaders.Leaderboard.HasPlayer` | src/main/java/com/someguyssoftware/scoreit/leaderboard/Leaderboard.java:94-96 | true exactly when the id is registered |
| `Leaders.Leaderboard.AddPoints` | src/main/java/com/someguyssoftware/scoreit/leaderboard/Leaderboard.java:104-111 | empty and no change for an unknown id; otherwise the new total, and no other record changes |
| `Leaders.Leaderboard.Load` | src/main/java/com/someguyssoftware/scoreit/leaderboard/Leaderboard.java:117-129 | merges each loaded record under its own uuid, never overwriting an entry |
| `Leaders.Leaderboard.Save` | src/main/java/com/someguyssoftware/scoreit/leaderboard/Leaderboard.java:136-149 | one compound per entry under the single registry list; no record's value changes |
| `Leaders.SaveAndReload` | src/main/java/com/someguyssoftware/scoreit/persistence/ScoreItSavedData.java:51-64 | a save then a load into a fresh leaderboard gives the same records back |
| `Commands.FindFrom` | src/main/java/com/someguyssoftware/scoreit/command/ScoreItCommand.java:191-197 | the first position at or after the start holding the caller's entry, or none when there is none |
| `Commands.Report` | src/main/java/com/someguyssoftware/scoreit/command/ScoreItCommand.java:179-203 | the first min(5, n) entries with ranks 1, 2, …; one more line exactly when the caller is not in the top five but is further down, with the rank of the caller's first position |
| `Commands.ReportOrdered` | src/main/java/com/someguyssoftware/scoreit/command/ScoreItCommand.java:176-197 | down the report ranks strictly increase and points never increase |
| `Commands.CallerListedIffPresent` | src/main/java/com/someguyssoftware/scoreit/command/ScoreItCommand.java:181-203 | the caller is highlighted or gets the extra line exactly when the caller has an entry; an absent caller sees only the top entries |
| `Commands.RankLines` | src/main/java/com/someguyssoftware/scoreit/command/ScoreItCommand.java:179-203 | the loop with its rank counter, top-ranked flag and early exits reports exactly `Report` |
| `Commands.Scores` | src/main/java/com/someguyssoftware/scoreit/command/ScoreItCommand.java:170-216 | no lines for a non-player source; a single rank-0, 0-point placeholder for an empty registry; otherwise the report of the registry sorted by descending points |
| `Commands.RankLimit` | src/main/java/com/someguyssoftware/scoreit/command/ScoreItCommand.java:246 | the requested count, or the number of scores when none is requested |
| `Events.PointTags` | src/main/java/com/someguyssoftware/scoreit/eventhandler/PlayerEventHandler.java:88-100 | exactly the paths of the item's `scoreit` tags that end in `_point` |
| `Events.RemoveSuffix` | src/main/java/com/someguyssoftware/scoreit/eventhandler/PlayerEventHandler.java:107 | removing every `_point` from a tag `x_point` whose `x` has no underscore leaves `x` |
| `Events.RemoveAll` | src/main/java/com/someguyssoftware/scoreit/eventhandler/PlayerEventHandler.java:107 | `replaceAll("_point", "")`: every occurrence dropped left to right; the result is never longer |
| `Events.Trim` | src/main/java/com/someguyssoftware/scoreit/eventhandler/PlayerEventHandler.java:107 | `trim`: leading and trailing characters up to U+0020 dropped |
| `Events.TrimUnpadded` | src/main/java/com/someguyssoftware/scoreit/eventhandler/PlayerEventHandler.java:107 | trimming leaves a string alone that neither starts nor ends with a space or control character |
| `Events.ParseInt` | src/main/java/com/someguyssoftware/scoreit/eventhandler/PlayerEventHandler.java:111 | a value exactly for an optional sign followed by digits only, equal to the digits' value negated after a minus sign; None for any other string, and for a numeral whose value does not fit in an int |
| `Events.ParseIntString` | src/main/java/com/someguyssoftware/scoreit/eventhandler/PlayerEventHandler.java:111 | every int reads back from its decimal form, with a minus sign for negatives |
| `Events.DecimalValue` | src/main/java/com/someguyssoftware/scoreit/eventhandler/PlayerEventHandler.java:111 | reading the decimal digits of n gives n |
| `Basics.Wrap32` | src/main/java/com/someguyssoftware/scoreit/eventhandler/PlayerEventHandler.java:111 | the int product is in the 32-bit range and congruent to the true product modulo 2^32 |
| `Basics.Wrap32InRange` | src/main/java/com/someguyssoftware/scoreit/eventhandler/PlayerEventHandler.java:111 | a product that fits in an int is unchanged |
| `Events.PointTagValue` | src/main/java/com/someguyssoftware/scoreit/eventhandler/PlayerEventHandler.java:105-111 | the tag `<n>_point`, for every int n negative ones included, is worth n points per item, in int arithmetic |
| `Events.PointValue` | src/main/java/com/someguyssoftware/scoreit/eventhandler/PlayerEventHandler.java:105-111 | the value is an int, and a prefix that is not a numeral gives none |
| `Events.NonNumericTagRejected` | src/main/java/com/someguyssoftware/scoreit/eventhandler/PlayerEventHandler.java:109-111 | every tag `x_point` whose trimmed prefix `x` is not a numeral, such as `gold_point`, yields no value, whatever the count |
| `Events.OnRightClickBlock` | src/main/java/com/someguyssoftware/scoreit/eventhandler/PlayerEventHandler.java:58-138 | ignored for client side, empty, zero-count or air stacks, the off hand and other blocks; refused unless STARTED; no point tag or an unparsable prefix changes nothing; otherwise the registry becomes `Award` of the chosen tag's value and the stack is emptied |
| `Events.AwardDeposit` | src/main/java/com/someguyssoftware/scoreit/eventhandler/PlayerEventHandler.java:114-118 | the player is registered if absent and then credited, so the credit always returns a total |
| `Events.OnPlayerLoggedIn` | src/main/java/com/someguyssoftware/scoreit/eventhandler/PlayerEventHandler.java:45-55 | on the server a player is added only if not already present; a registered player is left alone |

## Findings

| source | as written | input that shows it | evidently intended | confidence | as-written member | corrected member |
|---|---|---|---|---|---|---|
| src/main/java/com/someguyssoftware/scoreit/scoreboard/Scoreboard.java:66 | `s2.getPoints() - s1.getPoints()` in int arithmetic overflows when the totals are more than 2^31 - 1 apart | s1 with -2147483648 points, s2 with 1 point: 1 - (-2147483648) = 2147483649 wraps to -2147483647, so s1 sorts first | descending order by points (`Integer.compare(s2.getPoints(), s1.getPoints())`) | high; not executed | `Game.ComparePointsAsWritten`, `Game.ComparatorOverflows` | `Game.ComparePoints` |

Totals that far apart need negative point tags (`-5_point` parses) or the
32-bit wrap of a large value times a count; the ranking in the model uses the
intended comparison.

## Left out

- Records.PlayerScore.AddPoints: points are mathematical integers; the source's `points +=` wraps at 32 bits, which the model does not follow.
- Registry.AddCount: the count sum `i + stack.getCount()` is a mathematical integer; the source's int addition wraps at 32 bits.
- Game.SortByPoints: `Collections.sort` sorts the list in place; the model sorts the list's value with a stable insertion sort, which orders exactly as any stable sort with the same comparison. The order among equal totals follows the map's iteration order, which the model leaves open.
- Records.PlayerScore.Load: the saved counts are not read back. For each element of a non-empty counts list the source's loop reads the outer compound instead of the element (PlayerScore.java:94): it builds a location from the player's name and a stack from a key that is absent. Those two host calls are a parameter (`Records.Host`). Where the host rejects the name, the exception is caught and the whole record is dropped. Otherwise the record gets one count entry under that location. The round-trip lemmas therefore cover only records without counts, which are saved with an empty list.
- Records.PlayerScore.Save: a name that was never set is written as an absent key; the source passes null to the host's `putString`, whose behaviour is not part of this model. The source's count map is declared with item stacks as values and saves each with `stack.save`; the model saves each kind's integer count, the values the scoreboard actually stores.
- Game.Scoreboard.Load: an unknown state label makes `GameState.valueOf` throw out of the source's load before anything changes; the model returns false with nothing changed.
- View-level contracts of the registries (`View()` after an update) are promised only when no two ids share one `PlayerScore` object (`Valid()`), since the source can alias records through `addPlayer(uuid, details)`.
- Commands.Scores: chat messages become `ScoreLine` values and the caller's bold gold style becomes `highlighted`; log lines are dropped. A source that is not a player makes `getPlayerOrException` throw, which the command catches, so no lines are reported.
- `getRankedTopScores`, `formatScores` and `sendScores` (ScoreItCommand.java:172-174, 218-263): the first does not compile as written (it uses `source` and `text`, which are not in scope) and never adds to the list it returns, the other two are stubs; only the rank limit default is modelled (`Commands.RankLimit`).
- Events.ParseInt: only ASCII digits are accepted; Java's `Integer.valueOf` also accepts other Unicode decimal digits.
- Events.OnRightClickBlock: the test against the shared `ItemStack.EMPTY` is by identity, and the model represents that object as the `Empty` constructor. The host reports the item of any stack of no items as air, so the model ignores stacks whose count is 0 or less as well. The stack is shrunk by returning its new value instead of changing the shared object. The first point tag is whichever the tag set's iteration yields first, so the model picks any one. Whether the click is on the client and whether the block is the drop box are event fields. Chat messages, the deposit sound and its random pitch, and the marking of saved data as dirty are left out.
- The `start`, `stop`, `end` and `reset` commands only call the scoreboard, send a message and mark saved data dirty; the command tree, the permission checks and `dump` (file output with a date) are host glue and are not modelled.
- leaderboard/PlayerScore.java, an unfinished stub, is not part of this model; the leaderboard's records are modelled with the scoreboard's `PlayerScore`.
- ScoreItSavedData.java persists the leaderboard, not the scoreboard; it is modelled only as the save-then-load client `Leaders.SaveAndReload`.
- `getGameState` and `toString` are plain field reads and logging; the model reads `gameState` directly.
