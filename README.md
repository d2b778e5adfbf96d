# RyderWeekend core, modelled in Dafny

RyderWeekend is the web site of a two-day, Ryder-Cup-style golf weekend between
two teams, Ozark and Valley. This project models and proves properties of four
parts of it.

- **The auto-pairing engine** (`autopair.js`). It sizes each round's group grid from
  the round's format. It shuffles the available players of each side with a seeded
  Mulberry32 generator, builds team (foursome) or singles assignments, and applies
  them in "overwrite" or "unassigned" fill mode, for one round, one day or the whole
  weekend. It can also reset every round.
- **The roster logic of the public site** (`script.js`):
  - the master list, with signups upserted into it and hidden seeded players removed;
  - display names, slugs, photo URLs and initials;
  - default photo filenames;
  - the team counts of the home-page widget;
  - the signup form's name split;
  - the CSV export of the active roster;
  - the shared snapshot that the scoreboard, scorecard and leaderboard pages merge into.
- **The scorecard page** (`app/app.js`):
  - the running total;
  - saving a round, which is rejected when no hole is filled and otherwise stored newest first;
  - the tolerant reading of stored rounds.

Modules:

| file | module | models |
|---|---|---|
| `wrappers.dfy` | `Wrappers` | `Option`, `Min`, `Max` |
| `text.dfy` | `Text` | `trim`, ASCII `toLowerCase`/`toUpperCase`, `startsWith`, `includes` |
| `players.dfy` | `Players` | the player record, ids, rows and grids, rounds and days, the seed argument |
| `prng.dfy` | `Prng` | `mulberry32` as a class whose state is the captured `a`, with 32-bit wrap-around |
| `shuffle.dfy` | `Shuffling` | `shuffle`: a Fisher–Yates pass driven by the generator |
| `grid.dfy` | `Grid` | the built-in default `desiredGroupSize` and `TEAM_FORMATS`, the grid resizing of `ensureSide`, `availableByTeam`, the cell rule of `applyAssignments` |
| `builders.dfy` | `Builders` | `buildAssignmentsTeam` and `buildAssignmentsSingles` as loops, proved against grid functions |
| `rounds.dfy` | `Rounds` | round labels, the fill-mode choice, shortage notices, `ensureShape` normalisation, reset, and what "paired" means |
| `autopair.dfy` | `AutoPair` | the mutable pairing state (`PairingState`) and its operations |
| `names.dfy` | `Names` | `formatPlayerName`, `slugifyName`, `getPlayerPhotoURL`, `playerInitials`, `attachPhotoIfMissing` |
| `roster.dfy` | `Roster` | the master list (`MasterList`), `computeTeamCounts`, the signup name split |
| `csv.dfy` | `CsvExport` | `exportActiveCSV`'s quoting and joining, with a CSV reader to state the round trip |
| `snapshot.dfy` | `SharedSnapshot` | `writeSharedSnapshot` and the start-up seed (`SharedStore`) |
| `scorecard.dfy` | `Scorecard` | `parseInt`, `recalcTotal`, the save handler and `loadRoundsFromStorage` (`ScorecardPage`) |

### Behaviour worth knowing

- **The team builder's odd player.** The team builder never advances past a half
  pair (`autopair.js:192-199`). A side with an odd number of players therefore puts
  its last player into every remaining group, and reports one missing slot per such
  row. With 3 Ozark players in 4 groups, that player fills rows 2 to 4 and the
  shortfall is 3 (`Builders.ThreeOzarksFourGroups`). `Builders.TeamShortfallBalance`
  states the balance that holds in general.
- **Fill modes.** Only `'overwrite'` clears a round before pairing
  (`autopair.js:265-267`), and only `'unassigned'` keeps occupied slots
  (`autopair.js:230`, `240-245`). Any other mode string overwrites cells without
  clearing first. The model keeps the mode a string.

## Model

| member | source | states |
|---|---|---|
| Prng.Add | autopair.js:131 | the state advance wraps around at 2^32: the result is the sum, or the sum less 2^32 |
| Prng.Mulberry32.constructor | autopair.js:129-130 | the generator starts from the given seed and always tempers with the same output function |
| Prng.Mulberry32.Next | autopair.js:130-135 | each draw first advances the captured state by 0x6D2B79F5 modulo 2^32, then returns the tempered new state |
| Prng.Scale | autopair.js:140 | `rnd()*(i+1)` scaled to whole numbers never exceeds (2^32-1)·n |
| Prng.ScaleIsProduct | autopair.js:140 | the repeated-addition scaling equals the product u·n |
| Prng.SwapIndex | autopair.js:140 | the swap partner `floor(rnd()*(i+1))` is never past `i` |
| Shuffling.StartState | autopair.js:139 | `Number(seed)\|\|1`: a NaN or zero seed starts the generator at 1, an in-range seed at itself |
| Shuffling.SecondTeamSeed | autopair.js:183 | the second side is seeded exactly when the first is |
| Shuffling.SwapPermutes | autopair.js:141 | swapping two positions keeps the multiset of ids |
| Shuffling.FisherYatesPermutes | autopair.js:140-142 | the downward swap loop keeps the length and the multiset of ids, for any draw function |
| Shuffling.FisherYatesStep | autopair.js:140-142 | one loop step is one swap with the drawn partner, followed by the rest of the pass from the advanced state |
| Shuffling.SeededShufflePermutes | autopair.js:137-145 | a seeded shuffle returns a permutation of its input |
| Shuffling.SeededShuffleMembers | autopair.js:137-145 | an id is in the shuffled list exactly when it is in the input |
| Shuffling.Shuffle | autopair.js:137-145 | the shuffle returns a permutation, and with a seed it is exactly the seeded Fisher–Yates pass |
| Grid.DesiredGroupSize | autopair.js:73-81 | a group has 4 slots or 2 |
| Grid.TeamFormatCaseSensitive | autopair.js:67-70 | team formats match only with their exact casing ("Scramble" 4, "scramble" 2) |
| Grid.SinglesFormatIgnoresCase | autopair.js:77-79 | any format that spells "single" at some position, in any casing, has 4 slots |
| Grid.OtherFormatPairs | autopair.js:73-81 | any format that is no team format and spells "single" nowhere, in any casing, has 2 slots |
| Grid.GroupCount | autopair.js:154 | `Math.max(1, numGroups)`: at least one group, and exactly `numGroups` when it is positive |
| Grid.NullRow | autopair.js:157 | `Array(gs).fill(null)`: a row of `gs` empty slots |
| Grid.NullGrid | autopair.js:157 | a grid of `count` rows of `gs` empty slots |
| Grid.FitRow | autopair.js:159-162 | a row cut to `gs` slots and padded with nulls keeps its first cells |
| Grid.Resized | autopair.js:151-166 | after `ensureSide` a round has `count` rows of `gs` slots |
| Grid.ResizedWrongCount | autopair.js:156-157 | a grid with the wrong number of rows is replaced by an empty one |
| Grid.ResizedKeepsCells | autopair.js:158-163 | a grid with the right number of rows keeps every cell that fits |
| Grid.ResizedIdempotent | autopair.js:151-166 | resizing twice is resizing once |
| Grid.NullGridPlacesNobody | autopair.js:169 | an empty grid places nobody |
| Grid.Available | autopair.js:168-176 | a side's available list is no longer than the roster |
| Grid.AvailableByTeam | autopair.js:168-176 | the loop returns the unplaced ids of each side, Valley exactly for team `'valley'` |
| Grid.AvailableMembers | autopair.js:168-176 | an id is available on a side exactly when it is unplaced and some player with that id is on that side |
| Grid.AvailableDisjoint | autopair.js:168-176 | when ids name players consistently, no id is available on both sides |
| Grid.NothingPlacedAllAvailable | autopair.js:168-176 | with nothing placed every player is available on exactly one side |
| Grid.Applied | autopair.js:229-249 | applying assignments leaves every row exactly as wide as the assignments |
| Grid.AppliedFill | autopair.js:240-242 | in "unassigned" mode an occupied slot keeps its player and an empty slot takes the assignment |
| Grid.AppliedOverwrite | autopair.js:243-245 | in any other mode every slot takes the assignment |
| Grid.AppliedIdempotent | autopair.js:229-249 | applying the same assignments twice is applying them once |
| Builders.MakePairs | autopair.js:185 | `mkPairs` returns the list cut into slices of two from the front |
| Builders.PairsRoundTrip | autopair.js:185 | concatenating the pairs gives back the list |
| Builders.PairsSizes | autopair.js:185 | every pair has two ids except a last single one for an odd list |
| Builders.PairAtRow | autopair.js:191-199 | the pair the row loop reads at row `g` is the `g`-th full pair, else the half pair, else none |
| Builders.TeamGrid | autopair.js:188 | a team grid has `count` rows of four slots |
| Builders.FillTeam | autopair.js:185-201 | the row loop builds the team grid and counts each side's shortfall |
| Builders.BuildTeam | autopair.js:180-202 | team assignments are a team grid of permutations of both sides (the seeded shuffles when there is a seed), with the stated shortfalls |
| Builders.TeamShortfallBalance | autopair.js:191-201 | on each side, placed slots plus the reported shortfall make two per group |
| Builders.TeamGridSides | autopair.js:195-199 | slots 0-1 hold Ozark ids and slots 2-3 hold Valley ids |
| Builders.ThreeOzarksFourGroups | autopair.js:191-201 | with 3 Ozark ids in 4 groups the odd player fills rows 2-4 and the shortfall is 3 |
| Builders.EightEachFourGroupsBalanced | autopair.js:191-201 | 8 per side in 4 groups fills every slot with no shortfall |
| Builders.SinglesGrid | autopair.js:210 | a singles grid has `count` rows of four slots |
| Builders.FillSingles | autopair.js:212-224 | the row loop interleaves the sides and reports `max(0, 2·count − side size)` |
| Builders.BuildSingles | autopair.js:205-226 | singles assignments are a singles grid of permutations of both sides (the seeded shuffles when there is a seed), with the stated shortfalls |
| Builders.SinglesShortfallBalance | autopair.js:212-224 | each side places `min(size, 2·count)` players, and on each side placed plus shortfall is two per group |
| Builders.SinglesGridSides | autopair.js:215-219 | even slots hold Ozark ids and odd slots Valley ids |
| Builders.SinglesPlacesOnce | autopair.js:215-219 | distinct Ozark ids are never placed in two slots |
| Builders.SinglesValleyPlacesOnce | autopair.js:215-219 | distinct Valley ids are never placed in two slots |
| Builders.TeamPairsPlacedOnce | autopair.js:192-199 | with distinct Ozark ids, a player of a full Ozark pair appears in no other Ozark slot of the grid |
| Builders.TeamValleyPairsPlacedOnce | autopair.js:192-199 | with distinct Valley ids, a player of a full Valley pair appears in no other Valley slot of the grid |
| Rounds.Index | autopair.js:313-314 | every round has its place in the day/side order |
| Rounds.EveryRoundListed | autopair.js:313-314 | the order lists all four rounds, each once |
| Rounds.LabelRoundInjective | autopair.js:146-148 | different rounds get different labels |
| Rounds.ResolveFillMode | autopair.js:262-264 | a given fill mode wins; otherwise "unassigned" exactly when the box is ticked and "overwrite" when not |
| Rounds.NoNoticesIffEnough | autopair.js:276-287 | no shortage notice exactly when each side has at least two players per group |
| Rounds.FormatOf | autopair.js:256 | a round's format is never empty: the stored one, else "Best Ball" |
| Rounds.NormalAt | autopair.js:84-103 | after `ensureShape` every round has a format and a grid, taken from the stored ones when present |
| Rounds.FormatsSettle | autopair.js:84-103 | normalising formats twice is normalising once |
| Rounds.GroupsSettle | autopair.js:84-103 | normalising groups twice is normalising once |
| Rounds.FillOverMeaning | autopair.js:94-102 | the per-round normalisation loop adds exactly the listed rounds and fills each from its stored value or the default |
| Rounds.FillAllIsNormal | autopair.js:94-102 | the loop over all four rounds is the normalisation |
| Rounds.NormalisationKeepsAndSettles | autopair.js:84-103 | normalisation keeps every stored non-empty format and every stored grid, covers every round, and is stable under a later update of one round |
| Rounds.ResetOverMeaning | autopair.js:314-322 | the reset loop replaces exactly the listed rounds with empty grids of their format's width |
| Rounds.ResetAllIsReset | autopair.js:311-323 | the loop over all four rounds is the reset |
| Rounds.ResetAfterNormal | autopair.js:312-318 | resetting after `ensureShape` is the same as resetting the unnormalised formats |
| Rounds.ResetFreesEveryone | autopair.js:311-323 | after a reset nobody is placed and every player is available on one side |
| Rounds.Prepared | autopair.js:255-267 | the grid a round is paired on has `count` rows of its format's width |
| Rounds.Assignments | autopair.js:276-283 | the builder chosen by the format returns `count` rows of four slots |
| Rounds.PairedByConstruction | autopair.js:252-290 | prepare, build from the shuffled available players, then apply is what "paired" means |
| Rounds.DayPairedLocal | autopair.js:300-303 | a paired day depends only on that day's two rounds |
| Rounds.OutcomeSlots | autopair.js:252-290 | every filled slot holds a kept player (fill mode) or an available player of the slot's side |
| Rounds.PairedSlots | autopair.js:252-290 | a paired round is a `count`×4 grid whose every filled slot is kept or comes from the right side's available players |
| Rounds.PairedKeepsPlacements | autopair.js:240-242 | in "unassigned" mode no existing placement is moved |
| Rounds.OverwriteFreesEveryone | autopair.js:265-267 | in "overwrite" mode every player is available before building |
| AutoPair.FitRows | autopair.js:159-163 | the row loop fits every row to the group size |
| AutoPair.ApplyRows | autopair.js:233-248 | the nested loop computes the applied grid |
| AutoPair.TeamRound | autopair.js:276-281 | a team round builds team assignments and the shortfall notices |
| AutoPair.SinglesRound | autopair.js:282-288 | a singles round builds singles assignments and the availability notices |
| AutoPair.BuildRound | autopair.js:276-288 | the format picks the builder; the result is a permutation-based `count`×4 grid with the round's notices |
| AutoPair.PairingState.constructor | autopair.js:84-90 | the state holds the given players, formats, groups and group number |
| AutoPair.PairingState.EnsureShape | autopair.js:84-103 | `ensureShape` normalises formats and groups and changes nothing else |
| AutoPair.PairingState.EnsureSide | autopair.js:151-166 | `ensureSide` normalises, then resizes only the given round |
| AutoPair.PairingState.ApplyAssignments | autopair.js:229-249 | `applyAssignments` changes only the given round, by the fill rule |
| AutoPair.PairingState.AutoPairRound | autopair.js:252-298 | the round is paired as specified, other rounds keep their normalised grids, and the notices are the round's shortage notices |
| AutoPair.PairingState.AutoPairDay | autopair.js:300-303 | both rounds of the day are paired from their state before the call, front then back, and the notices are concatenated |
| AutoPair.PairingState.AutoPairAll | autopair.js:305-308 | all four rounds are paired from their state before the call |
| AutoPair.PairingState.ResetAllGroups | autopair.js:311-323 | every round becomes an empty grid of `count` rows of its format's width |
| Text.Trim | script.js:83 | a trimmed string neither starts nor ends with white space |
| Text.TrimLower | script.js:83 | lower-casing and trimming commute |
| Names.DisplayName | script.js:105-110 | the name is "first last", or "first “nick” last" when the nickname is not blank |
| Names.BlankNicknameIgnored | script.js:106 | a blank nickname is shown like no nickname |
| Names.NicknameShown | script.js:107 | a non-blank nickname appears in curly quotes right after the first name |
| Names.Dashify | script.js:113-114 | `replace(/[^a-z0-9]+/g,"-")` gives slug text, empty exactly for empty input |
| Names.DashifyKeepsSlugChars | script.js:113-114 | replacing runs keeps every lower-case letter and digit in order |
| Names.DashifyIdempotent | script.js:113-114 | slugifying a slug changes nothing |
| Names.SlugShape | script.js:112-116 | a slug contains only lower-case letters, digits and dashes, and is empty exactly when both names are blank |
| Names.SlugIgnoresCase | script.js:112-116 | the casing of the names does not change the slug |
| Names.PhotoDir | script.js:7 | the photo base path without trailing slashes, plus one slash, is the base path |
| Names.PhotoURLShape | script.js:119-139 | a URL or path photo is used as is; every other URL is under the photo folder; there is none exactly when photo, id and slug are all empty |
| Names.PlainFileResolves | script.js:127-131 | a stored plain filename resolves to that file under the photo folder |
| Names.BlankPhotoFallsBack | script.js:133-138 | a blank photo falls back to `<id>.png`, then `<slug>.png`, then no URL |
| Names.BlankPhotoResolves | script.js:119-139 | a blank photo resolves to the default filename under the photo folder, or to none when there is none |
| Names.InitialsShape | script.js:141-145 | one letter per non-blank name, none of them lower case |
| Names.InitialsIgnoreCase | script.js:141-145 | the casing of the names does not change the initials |
| Names.AttachShape | script.js:189-195 | only the photo changes, only when blank, to `<id>.png` or `<slug>.png`; it stays blank only when there is no default |
| Names.AttachIdempotent | script.js:189-195 | attaching a default photo twice is attaching it once |
| Names.AttachKeepsPhotoURL | script.js:119-139 | attaching the default photo does not change the avatar URL (for plain ids) |
| Roster.SamePersonReflexive | script.js:83-89 | every player matches itself |
| Roster.UpsertAppendsOnlyNew | script.js:82-91 | a matched player leaves the list alone, an unmatched one is appended, and either way the player is then listed |
| Roster.UpsertIdempotent | script.js:82-91 | upserting the same player twice is upserting once |
| Roster.ListedInLonger | script.js:90 | a player matched in a list is matched in any list that extends it |
| Roster.UpsertAllExtends | script.js:92 | upserting every signup only appends to the master list |
| Roster.UpsertAllLists | script.js:92 | after upserting every signup each of them is listed |
| Roster.VisibleMembers | script.js:95-100 | a player survives removal exactly when it was listed and its id is not hidden |
| Roster.VisibleNoneHidden | script.js:95-100 | with no hidden ids the list is unchanged |
| Roster.WithPhotos | script.js:196 | attaching photos keeps the roster's length |
| Roster.WithPhotosIdempotent | script.js:196 | attaching photos twice is attaching them once |
| Roster.AttachEach | script.js:196 | the loop replaces each player by its photo-attached self |
| Roster.CountsAddUp | script.js:201-218 | the three team counts add up to the total, which is the roster size |
| Roster.ValleySideWithinCount | script.js:209-215 | the pairing engine's Valley side is never larger than the widget's Valley count |
| Roster.CapitalisedValleyIsCountedNotPaired | script.js:210-212 | a player on team "Valley" is counted as Valley by the widget but not paired on the Valley side |
| Roster.MasterList.constructor | script.js:92 | the master list starts as the seeded players |
| Roster.MasterList.Upsert | script.js:82-91 | `upsertPlayerToMasterList` updates the list to the upsert of the player |
| Roster.MasterList.UpsertAll | script.js:92 | the signup loop upserts every signup in order |
| Roster.MasterList.RemoveHidden | script.js:95-100 | the backward splice loop leaves exactly the visible players, in order |
| Roster.MasterList.AttachPhotos | script.js:196 | the attach loop gives every player its default photo |
| Roster.MasterList.ComputeTeamCounts | script.js:201-218 | the count loop computes the team counts of the roster |
| Roster.Words | script.js:485 | `split(" ").filter(Boolean)` gives non-empty words without spaces |
| Roster.FirstWord | script.js:485 | the first word is a prefix with no space, followed by a space or the end |
| Roster.WordsOfJoin | script.js:486 | splitting space-joined words gives the words back |
| Roster.SplitName | script.js:485-487 | the first name is the first word; the last name is "—" for one word, and otherwise the remaining words joined by single spaces, which split back into those words |
| CsvExport.CellShape | script.js:670-673 | a cell without comma, quote or newline is written as is; any other cell is enclosed in quotes |
| CsvExport.ExportCsv | script.js:665-673 | there is no file exactly when there are no rows |
| CsvExport.ReadCellOf | script.js:670-673 | every written cell reads back as its value |
| CsvExport.ReadLines | script.js:668-673 | written lines of non-empty rows read back as those rows |
| CsvExport.HeaderLine | script.js:667-668 | the headers need no quoting, so joining them plainly is writing them as a line |
| CsvExport.ExportReadsBack | script.js:665-673 | the exported file reads back as the header row followed by every row |
| SharedSnapshot.MergeKeepsAndOverrides | script.js:712-716 | in every section the partial's keys win and the other stored keys are kept; the time stamp is the write's |
| SharedSnapshot.MergeTopLevel | script.js:709-711 | other top-level keys follow the same rule |
| SharedSnapshot.MergeTwice | script.js:707-717 | two writes in a row are one write of both partials, stamped with the later time |
| SharedSnapshot.MergeAgain | script.js:707-717 | writing the same partial again changes only the time stamp |
| SharedSnapshot.SharedStore.constructor | script.js:703-705 | the store starts with whatever snapshot can be read |
| SharedSnapshot.SharedStore.Write | script.js:707-723 | an accepted write stores and returns the merge of the current snapshot (empty when unreadable) and the partial; a refused `setItem` throws, so nothing is stored or returned |
| SharedSnapshot.SharedStore.Seed | script.js:725-726 | with no readable snapshot and an accepted write, one holding only the event name is written; otherwise nothing changes |
| Scorecard.LeadingDigitsShape | app/app.js:66 | `parseInt` reads the longest run of digits at the front |
| Scorecard.Decimal | app/app.js:66 | a number's decimal spelling is non-empty and all digits |
| Scorecard.DecimalValue | app/app.js:66 | the digits of a decimal spelling have the number's value |
| Scorecard.ParseDecimal | app/app.js:66 | `parseInt` reads back every signed decimal |
| Scorecard.EmptyIsNaN | app/app.js:66-67 | an empty box parses to NaN |
| Scorecard.FilledStep | app/app.js:86-93 | one more box adds its hole and score to the filled list and its score to the sum exactly when it parses |
| Scorecard.DashIffNothingParses | app/app.js:62-73 | the total shows "—" exactly when no box parses |
| Scorecard.Cleared | app/app.js:117 | clearing empties every box and keeps its hole |
| Scorecard.ClearedShowsDash | app/app.js:117-118 | after clearing, the total shows "—" |
| Scorecard.LoadRounds | app/app.js:130-140 | a missing, unreadable or non-list store reads as no rounds |
| Scorecard.CollectScores | app/app.js:86-93 | the loop collects exactly the parsing boxes and counts them |
| Scorecard.ScorecardPage.constructor | app/app.js:55-60 | the page starts with its boxes and stored rounds; no total is computed at load, and the total box is assumed to start as "—" in the page markup |
| Scorecard.ScorecardPage.RecalcTotal | app/app.js:62-73 | the loop shows the sum of the parsing boxes, or "—" when none parses, and changes nothing else |
| Scorecard.ScorecardPage.SaveRound | app/app.js:81-118 | with no filled box nothing changes; otherwise the boxes are cleared and the round is reported, and the round with the sum and the filled count goes first in storage unless the storage refuses the write, which is caught and leaves the store as it was (`app/app.js:142-148`) |
| Scorecard.NewestFirst | app/app.js:112-114 | two saves leave the later round first; a save over an unreadable store leaves only that round |

## Left out

- I/O and the page: DOM reads and rendering, `save()`, `renderAll()`, `publishSharedSnapshot`, alerts, the storage event and the CSV download (Blob, link click). Shortage alerts are returned as notice lists instead of shown. The page markup is not part of this model; the scorecard's total box is assumed to start as "—". Whether local storage accepts a write is an input (`writeAccepted`) of `Scorecard.ScorecardPage.SaveRound`, `SharedSnapshot.SharedStore.Write` and `SharedSnapshot.SharedStore.Seed`; the logged error message is not modelled.
- Time: `Date.now()` and `new Date().toISOString()` are parameters (`now`, `id`, `date`).
- JSON: stored values are typed. A snapshot is a record of maps and stored rounds are a `Stored` value, so shapes JSON could hold that the code does not handle (a section that is not an object, say) are not modelled. The `try`/`catch` in `autoPairRound` guards against such shapes and cannot fire in the model.
- Absent fields: an `undefined` or `null` string field of a player is the empty string.
- Text: case folding is ASCII only. Strings are sequences of characters, not UTF-16 code units.
- Grid.DesiredGroupSize: the page may supply its own `window.TEAM_FORMATS` (used when it is a non-empty Set) and `window.desiredGroupSize` (used when it is a function), `autopair.js:67-81`. These overrides are not modelled: only the built-in team formats and group-size rule are, and so every grid width in the model is 4 or 2.
- Names.DisplayName: the source interpolates `p.firstName` and `p.lastName` as they are, so a missing last name shows as "undefined" ("Ann undefined"). The model reads absent fields as "" and shows "Ann ".
- Number handling: a seed that is not an integer, and a group number that is not an integer, are not modelled. Neither is `parseInt`'s loss of precision for very long numbers. `Prng.SwapIndex` is exact only while `rnd() * (i + 1)` stays below 2^53, that is for `i + 1 <= 2^21`. The generator's captured state `a` is never truncated (`autopair.js:131`): after k draws it is seed + k·0x6D2B79F5, and `Shuffling.StartState` is exact only while that stays below 2^53.
- Shuffling.Shuffle: the working copy `arr.slice()` is a local sequence, not an array, so in-place swapping on shared storage is not captured.
- Shuffling.Shuffle: without a seed, `Math.random` draws are not modelled. The contract then states only that the result is a permutation.
- Names.AttachPhotoIfMissing: modelled on values. Mutating the caller's player object, and aliasing between it and the roster, are not captured.
- Roster.MasterList.RemoveHidden: `RESPECT_SAVED_HIDDEN_SEEDED` is `false` (`script.js:9`), so this removal never runs in the site as written. It is modelled for the case where the flag is switched on.
- The rows the CSV export writes (`buildActiveRows`, `script.js:610-621`) are not part of this model. The export is proved for any rows with the fixed header list.
- The signup form: the other fields, the required-field check, the duplicate check and the form submission are not modelled. Only the name split is.
- `ensureShape`'s `dates`, `currentDay` and `side` fields are not modelled, because no modelled operation reads them.
- SharedSnapshot.SharedStore.Seed: the event name "Ozark Invitational" is a parameter.
