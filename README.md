# Shape cutting and friend-or-foe games: a Dafny model

This project models the logic of a browser game collection and proves properties of it.

In the main menu the player saves a nickname, picks a mode and starts the game. On the game page of the cut mode a five-minute timer runs. The player draws strokes with the mouse across polygons on a canvas.

The cutting engine (`CuttingSystem`) finds where a stroke crosses each polygon's edges. It walks round the polygon and splits off every "pocket" that the stroke bounds, keeping the rest as a remainder polygon.

The game modes are built on the engine:

- **cut** (`CutMode` and its fixed Easy, Hard and Extreme variants): cut one polygon into a target number of pieces within a limited number of cuts.
- **friend-or-foe** (`FriendFoeMode` and its fixed Easy and Hard variants): flags of two to four teams stand on a polygon. Cut it so that no piece holds flags of two teams.

At the end of a game the score goes into a top-10 leaderboard kept in browser storage. The results overlay then shows the elapsed time.

A separate page holds a word-sorting exercise (`taskwords`). It parses a `-`-separated line into keyed word and number cards. The cards can be dragged between a source area and an answer area. In the source area they always return to their key order.

Modules, one per part of the program:

| module | file | models |
|---|---|---|
| `Common` | common.dfy | optional values, ceiling division, modular arithmetic facts |
| `Geometry` | geometry.dfy | points, segment intersection, even-odd point-in-polygon, shoelace area, centre (js/cutting-system.js) |
| `Cutting` | cutting.dfy | the crossings of one polygon and the walk that splits it (`performCut`, one shape) |
| `WalkFacts` | walk_facts.dfy | what that walk guarantees: a partition of the vertices, polygons of at least three corners, when a pocket forms |
| `CutEngine` | cut_engine.dfy | class `CuttingSystem`: the gesture, and one cut applied to every shape |
| `Scenarios` | scenarios.dfy | the cut of a quadrilateral crossed on two opposite edges, and a worked 100 x 100 square |
| `Sequences` | sequences.dfy | first-occurrence deduplication, and the stable sort of `Array.prototype.sort` |
| `Text` | text.dfy | `trim`, `split`, decimal numerals, `padStart`, first-letter case, string order |
| `Flags` | flags.dfy | classes `Flag` and `FlagSystem` (js/flag-system.js) |
| `FriendFoe` | friend_foe.dfy | class `FriendFoeMode` and its variants |
| `CutModes` | cut_modes.dfy | class `CutMode` and its variants |
| `Rating` | rating.dfy | class `RatingSystem`, the leaderboard |
| `MainMenu` | main_menu.dfy | class `Menu`, the main menu of js/main.js |
| `Ui` | ui.dfy | class `Ui`: timer text, results time, task plates (js/ui-manager.js) |
| `Game` | game.dfy | class `GameManager`: canvas fit, mode registry, start, timer, finish |
| `TaskWords` | task_words.dfy | the word-sorting exercise and its class `Board` |

Modelling choices:

- Coordinates are exact reals. The source uses IEEE doubles.
- Browser storage items are fields of the classes that read and write them.
- Random draws are parameters: the polygon, flag spots, wind draws, flag count and team pick.
- A `setTimeout` continuation is a pending entry plus an explicit method that runs it.
- Shape ids come from a counter. Shape colours are opaque tokens.

### Behaviour of the code the model follows

- A shape crossed twice or more without a pocket is not kept as it was. It is replaced by a copy of itself rotated to start at the first crossed edge, with a new id and colour (`CutEngine.CutShapeWithoutPocketRotates`).
- From level 7, friend-or-foe asks for four teams, but the flag system knows only three. `addRandomFlag` then reads a missing team, and the level start throws. The model returns `ok == false` for that start (`FriendFoe.FourthTeamFromLevelSeven`, `FriendFoe.FriendFoeMode.AddFlagsToShape`).
- The standard cut mode switches on `level / 4` with no rounding, so the quotient is one of the labels 1, 2 or 3 only at levels 4, 8 and 12. Its targets change only at those levels, not per band (`CutModes.LevelTargetsCases`).
- The friend-or-foe mode defines no `start`, so `startGame` throws on the inherited one, after `init` but before the timer starts. A friend-or-foe game therefore runs no timer of its own (`Game.GameManager.StartGame`).
- `finishGame` saves the score under the mode name `"cut"` (`Game.FinishSavesUnderCut`). Only a cut game's timer leads there, but an interval left running by an earlier cut game still ticks after a friend-or-foe game starts, and then saves that game's score under `"cut"`.
- The cut mode's `onCutMade` does not check whether the mode is active. The friend-or-foe one does.
- Nothing stops further cuts between a completion and the delayed `startLevel`. A second completing cut in that window advances the standard cut mode's level twice. From level 7 the next start is at level 9, and the targets stay (4, 3) (`CutModes.SkippedLevelKeepsTargets`).
- `getShapeBounds` of a polygon with no points yields ±Infinity bounds. The model returns `None`.

## Model

| member | source | states |
|---|---|---|
| Geometry.PointsEqual | js/cutting-system.js:11-13 | equal points compare equal for every positive tolerance; a true answer means each coordinate is within the tolerance |
| Geometry.LineIntersection | js/cutting-system.js:108-124 | parallel segments never meet; a result exists exactly when both segment parameters lie in [0, 1], and it is the point at those parameters along both segments |
| Geometry.CrossingOnBothSegments | js/cutting-system.js:113-120 | the point computed along the first segment is the same point as the one at the second parameter along the other segment |
| Geometry.DegenerateSegmentMeetsNothing | js/cutting-system.js:109-111 | a stroke of zero length intersects no edge |
| Geometry.ContainsPoint | js/cutting-system.js:68-80 | the ray-casting loop computes the even-odd inside test over all edges |
| Geometry.TriangleContainment | js/cutting-system.js:68-80 | the inside test accepts a point inside a triangle and rejects one above its apex |
| Geometry.Area | js/cutting-system.js:95-106 | the loop computes half the absolute shoelace sum, which is never negative |
| Geometry.QuadShoelace | js/cutting-system.js:99-103 | for four points the shoelace sum is the sum of the four edge cross products, the last one wrapping round |
| Geometry.RectangleArea | js/cutting-system.js:95-106 | an axis-aligned w x h rectangle has area w * h |
| Geometry.Center | js/cutting-system.js:82-93 | the centre is undefined exactly for a polygon with no points |
| Geometry.CenterWithinBounds | js/cutting-system.js:82-93 | the centre lies within the bounding box of the vertices |
| Cutting.CollectHits | js/cutting-system.js:258-277 | the edge loop collects one hit per edge the stroke crosses, in edge order |
| Cutting.HitsOrdered | js/cutting-system.js:261-277 | hit edges strictly increase and stay below the number of edges |
| Cutting.HitsOnEdges | js/cutting-system.js:261-277 | every hit records an edge and the intersection point of the stroke with that edge |
| Cutting.HitsComplete | js/cutting-system.js:261-277 | every edge the stroke crosses appears among the hits |
| Cutting.ZeroLengthCutHitsNothing | js/cutting-system.js:261-277 | a stroke that starts and ends at one point produces no hits |
| Cutting.FindHit | js/cutting-system.js:293 | returns the first hit on the given edge, or none when no hit lies on it |
| Cutting.PocketFlagAt | js/cutting-system.js:297-304 | the pocket test of hit k is the inside test of the midpoint between hits k and k + 1 |
| Cutting.AdvanceIsMod | js/cutting-system.js:290 | stepping round the polygon is addition modulo the number of vertices |
| Cutting.CutPocket | js/cutting-system.js:310-320 | the inner while loop stops after the cyclic distance to the end edge, at least one step and fewer than n, and collects the vertices passed |
| Cutting.BoundsPocket | js/cutting-system.js:299-304 | the midpoint test agrees with the pocket flag of the hit |
| Cutting.SplitPocket | js/cutting-system.js:306-325 | the pocket branch appends the entry point, the run and the exit point to the remainder, and pushes the pocket |
| Cutting.WalkStep | js/cutting-system.js:290-329 | one pass of the outer loop performs one walk step, and it cuts exactly when a pocket is added |
| Cutting.SplitShape | js/cutting-system.js:284-332 | the walk yields exactly the pockets and remainder of the specification walk, resolved to points; the shape is cut iff some pocket formed |
| Cutting.SplitFromResolves | js/cutting-system.js:288-330 | the step-by-step split produces the resolved pockets and remainder of the symbolic walk |
| WalkFacts.WalkCoversEveryVertexOnce | js/cutting-system.js:288-332 | every original vertex appears exactly once among the pockets and remainder, and no other vertex index appears |
| WalkFacts.AtLeastThreeCorners | js/cutting-system.js:306-332 | from a polygon of three or more vertices, the remainder and every pocket have at least three corners |
| WalkFacts.PocketIffFlag | js/cutting-system.js:294-326 | a pocket is split off iff the midpoint test succeeds for some hit that has a successor |
| WalkFacts.PocketCount | js/cutting-system.js:288-332 | the walk splits off one pocket per record that starts one, in record order, each beginning at that record's crossing; a record starts one iff it has a successor, its flag is set, and the record before it did not start one (`StartsPocket`) |
| WalkFacts.NoPocketRotates | js/cutting-system.js:288-332 | with no pocket the remainder is the original polygon rotated to start at the first crossed edge |
| WalkFacts.FullRunRotates | js/cutting-system.js:288-291 | visiting every vertex from edge e0 lists the polygon rotated to start at e0 |
| CutEngine.NewShapes | js/cutting-system.js:323-335 | each new polygon becomes a shape with consecutive fresh ids |
| CutEngine.CutShapePieces | js/cutting-system.js:279-338 | a shape crossed twice or more becomes one piece per record that starts a pocket, in record order, each beginning at that record's crossing point, then the remainder |
| CutEngine.CutShapeReplaces | js/cutting-system.js:279-338 | a shape with two or more hits is replaced by its pockets then its remainder, with consecutive ids; the cut counts iff some pocket flag is set |
| CutEngine.CutShapeWithoutPocketRotates | js/cutting-system.js:284-338 | crossed without a pocket, a shape is replaced by its rotation under a new id, and the cut does not count |
| CutEngine.CutShapeMinPoints | js/cutting-system.js:279-338 | cutting a polygon of three or more points only yields polygons of three or more points |
| CutEngine.ZeroLengthCutKeepsShapes | js/cutting-system.js:252-341 | a zero-length stroke leaves the shapes and the id counter unchanged and cuts nothing |
| CutEngine.CutShapesIdRange | js/cutting-system.js:255-341 | every resulting shape is an old one or has a fresh id from the consumed range |
| CutEngine.CutShapesIdsRise | js/cutting-system.js:255-341 | fresh ids strictly increase along the new shape list |
| CutEngine.CutShapesGrows | js/cutting-system.js:255-341 | a cut never reduces the number of shapes, and a counted cut increases it |
| CutEngine.CutShapesMinPoints | js/cutting-system.js:255-341 | if every shape has at least three points, so does every shape after the cut |
| CutEngine.UncutShapesKept | js/cutting-system.js:279-282 | a shape crossed fewer than twice survives the cut unchanged |
| CutEngine.CutOne | js/cutting-system.js:258-338 | one pass of the outer loop computes the specification cut of that shape |
| CutEngine.CuttingSystem.constructor | js/cutting-system.js:148-161 | no shapes, no gesture, no cut line, no callback |
| CutEngine.CuttingSystem.SetOnCutCallback | js/cutting-system.js:416-418 | a callback is registered |
| CutEngine.CuttingSystem.OnMouseDown | js/cutting-system.js:175-184 | the gesture starts at the pointer with a zero-length cut line |
| CutEngine.CuttingSystem.OnMouseMove | js/cutting-system.js:186-214 | while cutting, the end and the cut line follow the pointer; the move fails when the line was already cleared |
| CutEngine.CuttingSystem.PerformCut | js/cutting-system.js:252-358 | without both endpoints nothing changes; otherwise the shapes become the specification cut, and the callback gets the new shape count iff the cut counted |
| CutEngine.CuttingSystem.OnMouseUp | js/cutting-system.js:216-233 | ends the gesture; with none under way the pieces, the id counter and the end point are kept and nothing is reported; otherwise the pieces and the id counter are what cutting from the gesture's start to the pointer gives, and the new piece count is reported exactly when the cut split something and a callback is registered |
| CutEngine.CuttingSystem.ClearCutLineTimer | js/cutting-system.js:230-232 | the delayed callback clears the cut line |
| CutEngine.CuttingSystem.OnMouseLeave | js/cutting-system.js:235-250 | leaving the canvas abandons a gesture and clears its line |
| CutEngine.CuttingSystem.SetShapes | js/cutting-system.js:360-362 | the shapes are replaced wholesale; the id counter becomes the larger of its old value and one past the largest received id, so every id stays below it |
| CutEngine.CuttingSystem.Clear | js/cutting-system.js:364-368 | no shapes, no line, no gesture |
| CutEngine.CuttingSystem.NewShape | js/cutting-system.js:16-22 | a new shape gets the next fresh id |
| Scenarios.QuadHits | js/cutting-system.js:258-277 | a stroke crossing edges 0 and 2 of a quadrilateral yields exactly those two hits |
| Scenarios.QuadSplit | js/cutting-system.js:284-332 | when the midpoint of the two crossings is inside, the split gives the pocket [x, p1, p2, y] and the remainder [p0, x, y, p3] |
| Scenarios.QuadCut | js/cutting-system.js:258-341 | the cut replaces such a quadrilateral by that pocket and remainder with two fresh ids, and it counts |
| Scenarios.QuadCutKeepsSignedArea | js/cutting-system.js:95-106 | the two pieces' signed shoelace sums add up to the original's |
| Scenarios.SquareCut | js/cutting-system.js:252-341 | a vertical stroke through a 100 x 100 square cuts it into its right and left halves |
| Scenarios.SquareHalvesArea | js/cutting-system.js:95-106 | each half has area 5000, half of the square's 10000 |
| Sequences.DedupeSpec | taskwords/script.js:58-70 | the result holds every input element exactly once, in order of first occurrence |
| Sequences.RemoveDuplicates | taskwords/script.js:58-70 | the set-filling loop keeps the first occurrence of each element |
| Sequences.FilterMembers | taskwords/script.js:37-38 | a filter keeps exactly the elements that pass the test |
| Sequences.FilterSorted | taskwords/script.js:37-43 | filtering a sorted list keeps it sorted |
| Sequences.InsertionSortPermutes | taskwords/script.js:40-43 | sorting permutes its input |
| Sequences.InsertionSortSorted | taskwords/script.js:40-43 | under a total preorder the sorted list is ordered |
| Sequences.InsertionSortOfSorted | js/rating-system.js:54 | sorting an already sorted list changes nothing |
| Sequences.PushThenSort | js/rating-system.js:53-54 | pushing onto a sorted list and sorting places the new element after all elements not above it, keeping the others in order |
| Sequences.Sort | js/rating-system.js:54 | the sort computes the stable sort of its input |
| Sequences.InsertInto | taskwords/script.js:306-331 | shifting from the back inserts the element after every element ordered before or with it |
| Text.TrimStartSpec | taskwords/script.js:19-20 | leading trim removes exactly a run of white space and leaves a non-space first character |
| Text.TrimEndSpec | taskwords/script.js:19-20 | trailing trim removes exactly a run of white space and leaves a non-space last character |
| Text.TrimSlice | taskwords/script.js:19-20 | the trimmed string is a slice with only white space outside it, starting and ending with non-space |
| Text.TrimIdempotent | js/main.js:74 | trimming twice is trimming once |
| Text.TrimEmpty | js/main.js:76 | the trim is empty iff the string is all white space |
| Text.SplitJoin | taskwords/script.js:22 | the pieces hold no separator, and joining them gives back the string |
| Text.JoinSplit | taskwords/script.js:22 | splitting separator-free pieces joined by the separator gives back the pieces |
| Text.ParsePrinted | taskwords/script.js:33-35 | printing a number then parsing it gives the number back |
| Text.PrintParsed | taskwords/script.js:33-35 | a canonical numeral is the printing of its value |
| Text.Pad2Value | js/ui-manager.js:64-65 | padding to two digits keeps the value; one digit grows to two; two or more are unchanged |
| Text.CaselessFixed | taskwords/script.js:29-32 | a character outside Latin and Cyrillic letters is its own lower and upper case |
| Text.LetterOneCase | taskwords/script.js:29-32 | a Latin or Cyrillic letter equals exactly one of its case mappings |
| Text.LexPreorder | taskwords/script.js:40-41 | the default string order is total, transitive and antisymmetric |
| Text.LexLeIsUtf16Order | taskwords/script.js:40-41 | the default string order is the comparison of the two strings' UTF-16 encodings code unit by code unit, a prefix first |
| Text.FirstUnitsDecide | taskwords/script.js:40-41 | at the first differing character, the code units order two characters as their ranks do |
| Text.UnitsLeCommonPrefix | taskwords/script.js:40-41 | a common prefix of code units leaves the comparison to what follows |
| Text.SurrogatesBeforeHighBmp | taskwords/script.js:40-41 | a character beyond U+FFFF (U+1F600) sorts before one in U+E000 to U+FFFF (U+FF21), against code point order |
| TaskWords.ItemsSpec | taskwords/script.js:19-24 | the items are the non-empty trimmed pieces, each free of `-` |
| TaskWords.PiecesClean | taskwords/script.js:22-24 | every piece is trimmed and free of `-` |
| TaskWords.BlankParse | taskwords/script.js:17-21 | a blank line yields no elements |
| TaskWords.ParseLine | taskwords/script.js:13-56 | the parse handler computes the specified elements |
| TaskWords.SortKinds | taskwords/script.js:29-38 | words are the non-numeral items; numbers are the numeral items' values |
| TaskWords.KeyGroup | taskwords/script.js:45-55 | a group's texts get keys numbered from 1 in order |
| TaskWords.GroupsSorted | taskwords/script.js:29-43 | each word group is sorted in `sort()`'s UTF-16 code-unit order and the numbers ascending, each a permutation of its filtered items |
| TaskWords.WordPlacement | taskwords/script.js:29-38 | a word starting with a digit is in no word group; a caseless first character puts it in both; a letter puts it in exactly one |
| TaskWords.ShownTexts | taskwords/script.js:45-55 | every element text is non-empty, and is a numeral or does not start with a digit |
| TaskWords.ParseKeysInOrder | taskwords/script.js:45-55 | element keys strictly increase in key order |
| TaskWords.ElementAt | taskwords/script.js:45-55 | element k is the k-th of lower words, then upper words, then printed numbers |
| TaskWords.KeyTextRoundTrip | taskwords/script.js:48-54 | a key's text parses back to the key |
| TaskWords.KeyTextInjective | taskwords/script.js:48-54 | distinct keys have distinct texts |
| TaskWords.KeyOrder | taskwords/script.js:312-328 | the comparator is a total order on keys |
| TaskWords.KeyOrderGroups | taskwords/script.js:312-328 | in key order groups come a, b, n, and indices rise within a group |
| TaskWords.ReturnInOrder | taskwords/script.js:306-331 | an element returned to the source area lands at its place in key order, and the area stays sorted |
| TaskWords.PutAt | taskwords/script.js:283-304 | dropped into the answer area, an element goes to the end, the start, or just before or after the target card, and nothing else moves |
| TaskWords.Without | taskwords/script.js:227-281 | taking a card out removes exactly its one occurrence |
| TaskWords.TextsOfKeys | taskwords/script.js:8-10 | the text map holds exactly the keys of the parsed elements |
| TaskWords.ParsedBoardValid | taskwords/script.js:13-56 | after parsing, every key is in the source area once, in key order, with its text |
| TaskWords.DropKeepsValid | taskwords/script.js:227-281 | a drop keeps every card in exactly one area and the source area sorted |
| TaskWords.Load | taskwords/script.js:8-10 | loading the elements records their keys in order and their texts |
| TaskWords.Board.constructor | taskwords/script.js:8-10 | both areas and the text panel start empty |
| TaskWords.Board.ParseButton | taskwords/script.js:13-56 | parsing empties the answer area and the panel, and fills the source area with the parsed keys |
| TaskWords.Board.Click | taskwords/script.js:108-112 | clicking a card in the answer area shows its text; elsewhere nothing changes |
| TaskWords.Board.HandleDrop | taskwords/script.js:227-281 | a drop on the answer area moves the card to the chosen place; a drop on the source area returns it in key order and clears its shown text |
| Flags.Clamp | js/flag-system.js:219-221 | the result lies in the range, equals the input inside it and the nearer bound outside it |
| Flags.DecayClick | js/flag-system.js:34-36 | a running click animation decreases by its speed and never below zero |
| Flags.ClickAnimationSettles | js/flag-system.js:34-36 | after enough frames the click animation reaches exactly zero |
| Flags.ClickAnimationNonNegative | js/flag-system.js:34-36 | the click animation never goes negative or grows |
| Flags.BarycentricRecombines | js/flag-system.js:199-216 | the cloth coordinates of a point recombine to that point |
| Flags.ClothHits | js/flag-system.js:199-216 | every point strictly inside the cloth triangle hits the flag |
| Flags.ClothHitIsInTriangle | js/flag-system.js:199-216 | a cloth hit has non-negative coordinates summing to less than one |
| Flags.FindTeam | js/flag-system.js:227-231 | finds the team with that id, or reports that none has it |
| Flags.KnownTeams | js/flag-system.js:227-231 | exactly the teams 1 to 3 exist |
| Flags.InShapeMembers | js/flag-system.js:335-337 | the flags in a shape are exactly those whose base is inside it |
| Flags.OfTeamMembers | js/flag-system.js:331-333 | the flags of a team are exactly those with that team |
| Flags.FiltersKeepOrder | js/flag-system.js:331-337 | both filters distribute over concatenation, so they keep order |
| Flags.ConflictedIffMixed | js/flag-system.js:339-358 | a shape is in conflict iff it holds two flags of different teams |
| Flags.TeamsInSpec | js/flag-system.js:348-350 | the reported teams are each team present in the shape, once |
| Flags.Flag.constructor | js/flag-system.js:2-25 | position, colour and team as given; wind strength in [0.5, 1); no click animation |
| Flags.Flag.ContainsPoint | js/flag-system.js:181-217 | the pole and the base region always hit; any other hit lies in the cloth triangle |
| Flags.Flag.SetWindStrength | js/flag-system.js:219-221 | the wind strength is the argument clamped to its range |
| Flags.Flag.UpdateClickAnimation | js/flag-system.js:34-36 | one frame decays the click animation |
| Flags.FlagSystem.constructor | js/flag-system.js:225-235 | no flags |
| Flags.FlagSystem.Clear | js/flag-system.js:319-321 | no flags |
| Flags.FlagSystem.AddRandomFlag | js/flag-system.js:254-266 | an unknown team adds nothing; otherwise one flag at the spot with that team's colour, or a random known team for team 0 |
| Flags.FlagSystem.CheckShapeForConflicts | js/flag-system.js:339-358 | a conflict is reported iff the shape holds flags of two teams, with its flags and teams |
| Flags.FlagSystem.GetShapeBounds | js/flag-system.js:305-317 | the bounds are the least box containing every point, each side touched by a point |
| FriendFoe.MaxCutsFor | js/modes/friend-foe-mode.js:104-112 | the cut limit lies between 2 and 5 |
| FriendFoe.TeamsFor | js/modes/friend-foe-mode.js:104-112 | the team count lies between 2 and 4 |
| FriendFoe.HarderWithLevel | js/modes/friend-foe-mode.js:104-112 | a later level allows no more cuts and needs no fewer teams |
| FriendFoe.PlanLength | js/modes/friend-foe-mode.js:123-131 | the team plan has min(n, teams * perTeam) flags |
| FriendFoe.PlanCounts | js/modes/friend-foe-mode.js:123-131 | team t gets its share min(perTeam, what is left) flags, and teams above the count get none |
| FriendFoe.AllFlagsHandedOut | js/modes/friend-foe-mode.js:123-131 | with a ceiling share every one of the n flags goes to a team |
| FriendFoe.FourthTeamFromLevelSeven | js/modes/friend-foe-mode.js:110-131 | from level 7 there are four teams and the fourth gets at least one flag |
| FriendFoe.AtMostThreeTeamsBeforeSeven | js/modes/friend-foe-mode.js:111 | levels 1 to 6 need at most three teams |
| FriendFoe.NoConflictCount | js/modes/friend-foe-mode.js:152-171 | the conflict count is zero iff no shape is in conflict |
| FriendFoe.ConflictIdsSpec | js/modes/friend-foe-mode.js:152-171 | the marked ids are exactly those of shapes in conflict |
| FriendFoe.MarksSpec | js/modes/friend-foe-mode.js:152-171 | a shape is marked iff in conflict, with the teams it holds |
| FriendFoe.SameTeamIffNoConflict | js/modes/friend-foe-mode.js:190-203 | the flags in a shape share one team iff the shape is not in conflict |
| FriendFoe.DecideCases | js/modes/friend-foe-mode.js:173-188 | complete iff no conflicts within the limit; fail iff conflicts remain at the limit; otherwise play on |
| FriendFoe.LevelScoreBounds | js/modes/friend-foe-mode.js:247-267 | a level scores between 200 and 675, and fewer cuts never score less |
| FriendFoe.DataOf | js/modes/friend-foe-mode.js:91-102 | the copy keeps each flag's position, colour and team in order |
| FriendFoe.AllValidIffNoConflicts | js/modes/friend-foe-mode.js:190-203 | all shapes are valid iff the conflict count is zero |
| FriendFoe.AdminParametersFixed | js/modes/admin-friend-foe-mode.js:1-56 | the Easy variant plays level 1 (5 cuts, 2 teams) and the Hard one level 2 (4 cuts, 2 teams) |
| FriendFoe.FriendFoeMode.constructor | js/modes/friend-foe-mode.js:2-24 | inactive, at the variant's first level, with no score, cuts, conflicts or saved level |
| FriendFoe.FriendFoeMode.GenerateLevelParameters | js/modes/friend-foe-mode.js:104-112 | the cut limit and team count are those of the current level |
| FriendFoe.FriendFoeMode.AddFlagsToShape | js/modes/friend-foe-mode.js:114-135 | the flags placed follow the team plan; the start fails exactly when a fourth team must get a flag |
| FriendFoe.FriendFoeMode.UpdateConflicts | js/modes/friend-foe-mode.js:152-171 | the conflict count, marked ids and marks match the current shapes and flags |
| FriendFoe.FriendFoeMode.AreAllShapesValid | js/modes/friend-foe-mode.js:190-203 | true iff every shape's flags share one team |
| FriendFoe.FriendFoeMode.CompleteLevel | js/modes/friend-foe-mode.js:247-267 | adds the level score, advances the level in the standard variant, schedules the next start |
| FriendFoe.FriendFoeMode.FailLevel | js/modes/friend-foe-mode.js:269-275 | schedules a restart |
| FriendFoe.FriendFoeMode.CheckLevelCompletion | js/modes/friend-foe-mode.js:173-188 | applies the decision: completion scores and schedules the next level, failure schedules a restart, otherwise nothing |
| FriendFoe.FriendFoeMode.OnCutMade | js/modes/friend-foe-mode.js:137-150 | ignored when inactive (counters, score, level, pending steps and conflicts kept); otherwise counts the cut, refreshes conflicts and decides; a completion adds the level score, advances the standard mode's level and schedules a start, a failure schedules a restart, and continuing changes neither score, level nor schedule |
| FriendFoe.FriendFoeMode.OnMouseUp | js/cutting-system.js:216-233 | a finished gesture leaves the pieces and id counter that cutting from its start to the pointer gives; while the mode is active, a decision is made exactly when that cut split something and a callback is registered, and while it is inactive none is made; with no decision the counters, score, level, pending steps and conflicts are kept; a decision has the effects `OnCutMade` states |
| FriendFoe.FriendFoeMode.ClearLevel | js/modes/friend-foe-mode.js:48-56 | no shapes, flags, conflicts, conflict marks or cuts |
| FriendFoe.FriendFoeMode.StartLevel | js/modes/friend-foe-mode.js:45-81 | a fresh level with the level's parameters, the shape saved and set, the flags planned and saved, conflicts current; a start that needs a fourth team places the first three teams' flags, counts no conflict, clears the marks and keeps the previously saved flags |
| FriendFoe.FriendFoeMode.RunPending | js/modes/friend-foe-mode.js:247-275 | the oldest scheduled step is consumed and runs: a start gives a fresh level as `StartLevel` does, a restart with a saved level restores it exactly |
| FriendFoe.FriendFoeMode.RestartLevel | js/modes/friend-foe-mode.js:205-245 | with a saved level, the shape and flags are restored exactly and the parameters kept |
| FriendFoe.FriendFoeMode.Init | js/modes/friend-foe-mode.js:26-43 | active, callback registered, score and level kept, and the level started on the shape with all that `StartLevel` states: the level's parameters, the shape saved and set, the flags planned and saved, conflicts current, and the four-team failure |
| FriendFoe.FriendFoeMode.Cleanup | js/modes/friend-foe-mode.js:366-379 | inactive, with no shapes, no flags, no gesture and no drawn line; the cutting system's callback and id counter are untouched |
| CutModes.LevelTargetsCases | js/modes/cut-mode.js:69-86 | targets change only at levels 4, 8 and 12, to (4, 3), (6, 4) and (10, 4) |
| CutModes.StandardSchedule | js/modes/cut-mode.js:69-86 | when every level from 1 on is started in turn, the targets are (4, 3) below 8, (6, 4) below 12 and (10, 4) after |
| CutModes.SkippedLevelKeepsTargets | js/modes/cut-mode.js:116-125 | a start at level 9 straight after level 7, as two completions before one delayed start give, keeps (4, 3), which differs from the schedule |
| CutModes.DecidePrecedence | js/modes/cut-mode.js:88-114 | complete iff enough pieces; fail iff too few at the cut limit; never still playing at the limit |
| CutModes.FirstLevel | js/modes/admin-cut-mode.js:1-52 | the variants start at levels 1 to 3 |
| CutModes.AdminTargetsFixed | js/modes/admin-cut-mode.js:1-52 | at a fixed variant's level the targets never change |
| CutModes.CutMode.constructor | js/modes/cut-mode.js:6-24 | inactive at the variant's first level with the initial targets and one piece |
| CutModes.CutMode.GenerateLevelParameters | js/modes/cut-mode.js:69-86 | the targets are updated by the level rule |
| CutModes.CutMode.StartLevel | js/modes/cut-mode.js:44-67 | zero cuts, one piece, the shape set, targets updated |
| CutModes.CutMode.CompleteLevel | js/modes/cut-mode.js:116-125 | adds the level points, advances the level in the standard variant, schedules the next start |
| CutModes.CutMode.FailLevel | js/modes/cut-mode.js:127-133 | schedules a restart of the level |
| CutModes.CutMode.OnCutMade | js/modes/cut-mode.js:88-114 | counts the cut, records the pieces and applies the decision |
| CutModes.CutMode.RunPendingStart | js/modes/cut-mode.js:116-133 | the scheduled start runs the level start and consumes the schedule entry |
| CutModes.CutMode.OnMouseUp | js/cutting-system.js:216-233 | a finished gesture leaves the pieces and id counter that cutting from its start to the pointer gives; a decision on the new piece count is made exactly when that cut split something and a callback is registered; with no decision the counters, score, level and pending starts are kept; a decision has the effects `OnCutMade` states |
| CutModes.CutMode.Init | js/modes/cut-mode.js:26-37 | active, callback registered, level kept, zero cuts, one piece, the shape set, and the targets the level's parameters give |
| CutModes.CutMode.Cleanup | js/modes/cut-mode.js:140-145 | inactive, with no shapes, no gesture and no drawn line |
| Rating.ScoreOrderTotal | js/rating-system.js:54 | the score comparator is a total preorder |
| Rating.SavedShape | js/rating-system.js:41-64 | the saved list has min(10, n + 1) entries in descending score, each the new entry or an old one |
| Rating.SavedPosition | js/rating-system.js:52-56 | the new entry goes after every entry scoring at least as much; it is kept iff it lands in the top ten, else the list is the old top ten |
| Rating.ListOf | js/rating-system.js:31-39 | a mode's list is its stored list, or empty |
| Rating.FirstScore | js/rating-system.js:66-70 | the first entry of the player gives the score; none gives 0 |
| Rating.FirstScoreIsBest | js/rating-system.js:66-70 | on a sorted list, that first score is the player's best |
| Rating.SampleRatingsSorted | js/rating-system.js:16-29 | the sample board has ten entries in strictly descending score, already in sorted order |
| Rating.SaveKeepsOtherModes | js/rating-system.js:41-64 | a save leaves a table exactly when the item is missing, falsy JSON or a table, and otherwise leaves the item as it was; the table keeps every other mode's list and holds the saved list, sorted by descending score and at most ten long |
| Rating.RatingSystem.constructor | js/rating-system.js:2-14 | a missing or empty item is replaced by the default board; a present one is kept |
| Rating.RatingSystem.InitStorage | js/rating-system.js:7-14 | a missing or empty item is replaced by the default board |
| Rating.RatingSystem.GetRatings | js/rating-system.js:31-39 | the mode's stored list, or empty |
| Rating.RatingSystem.GetPlayerBestScore | js/rating-system.js:66-70 | the player's first score in the mode's list |
| Rating.RatingSystem.SaveRating | js/rating-system.js:41-64 | an empty or unreadable item makes the save fail and stay; a missing item or falsy JSON counts as an empty table; on an array the save succeeds and the item stays; otherwise the mode's list becomes the saved list |
| Rating.RatingSystem.ClearRatings | js/rating-system.js:72-75 | the default board |
| MainMenu.NicknameVerdicts | js/main.js:73-98 | empty iff blank; too short, too long or accepted by the trimmed length |
| MainMenu.AcceptedNicknameStable | js/main.js:73-98 | an accepted nickname stays accepted once trimmed |
| MainMenu.ModeNames | js/main.js:64-71 | exactly three modes have names, and they are distinct |
| MainMenu.RatingTitleKeepsOthers | js/main.js:52-58 | modes without a title show their own name; only "cut" shares its name with the menu |
| MainMenu.Menu.constructor | js/main.js:2-14 | mode "cut", the saved nickname loaded, the start button set from it, and the leaderboard item initialised as a new rating system does (a missing or empty item becomes the default board) |
| MainMenu.Menu.UpdateStartButton | js/main.js:111-120 | the button is disabled by the start rule |
| MainMenu.Menu.Type | js/main.js:38-40 | typing updates the input and the button |
| MainMenu.Menu.SaveNickname | js/main.js:73-98 | the verdict and its message; only an accepted nickname is trimmed, stored and enables start |
| MainMenu.Menu.SelectMode | js/main.js:43-62 | "coming-soon" is ignored; any other mode is selected and the button updated |
| MainMenu.Menu.StartGame | js/main.js:158-167 | without a nickname, a status message only; otherwise the mode is stored and the game page opened |
| Ui.FormatTimeParses | js/ui-manager.js:61-75 | the timer text reads back as minutes and seconds below 60 that give the time |
| Ui.FormatTimeWidth | js/ui-manager.js:61-75 | below 100 minutes the text is exactly five characters |
| Ui.UpsertedSpec | js/ui-manager.js:85-124 | the plate gets the label and value, keeps or defaults its type; other plates are unchanged |
| Ui.UpsertedAllKeys | js/ui-manager.js:133-137 | the plates after a batch are the old ones plus one per id in the batch; untouched plates stay |
| Ui.Ui.constructor | js/ui-manager.js:2-17 | no plates, no warning, overlay hidden |
| Ui.Ui.UpdateTimer | js/ui-manager.js:61-75 | the timer shows the time and warns iff 30 seconds or fewer remain |
| Ui.Ui.ShowResults | js/ui-manager.js:183-198 | the final time is shown and the overlay activated |
| Ui.Ui.UpdateTaskPlate | js/ui-manager.js:85-124 | the plate is upserted; a new one is shown after the existing ones |
| Ui.Ui.UpdateTaskPlates | js/ui-manager.js:133-137 | every plate in the batch is upserted; existing plates keep their display order, and the ids that had no plate are appended once each, in batch order |
| Ui.NewIdsSpec | js/ui-manager.js:133-137 | a batch appends exactly the ids it names that had no plate, none twice |
| Ui.Ui.ClearTaskPlates | js/ui-manager.js:126-131 | no plates |
| Game.FitSpec | js/game-manager.js:49-62 | the canvas is the largest 4:3 rectangle within the container, filling its width or its height |
| Game.PixelSize | js/game-manager.js:65-66 | the pixel size is the floor of each dimension |
| Game.RegistryExact | js/game-manager.js:147-154 | exactly "cut" and "friend-foe" are registered, to their own modes |
| Game.FinishSavesUnderCut | js/game-manager.js:197-214 | the item ends a table unless it is an array or unreadable, which stay; in the table the score lands in the "cut" list, sorted and capped at ten, and other modes' lists are unchanged |
| Game.GameManager.constructor | js/game-manager.js:2-23 | no mode, full time, not running, no results |
| Game.GameManager.CleanupMode | js/game-manager.js:160-162 | the current mode is deactivated and emptied |
| Game.GameManager.StartGame | js/game-manager.js:156-177 | whatever the name, the old mode is deactivated and emptied first; an unregistered name then keeps that mode and the timer; "cut" creates a fresh active cut mode on the shape and starts the timer; "friend-foe" creates a fresh active friend-or-foe mode on the shape and leaves the timer as it was |
| Game.GameManager.SaveScore | js/game-manager.js:204-207 | a fresh rating system over the item, saving the score under "cut", leaves the item that initialisation followed by the save describes |
| Game.GameManager.Tick | js/game-manager.js:179-195 | one second off the clock, shown on the timer; the game finishes exactly when time runs out; before that the ratings, results and final-time display are kept; at the finish, with a mode, its score is saved under "cut" and the results show the full game length |
| Game.GameManager.Expire | js/game-manager.js:185-188 | the time left is clamped to zero and the game finishes: with a mode, its score is saved under "cut" and the results show the full game length |
| Game.GameManager.FinishGame | js/game-manager.js:197-214 | stops the game; with a mode, saves its score under "cut" and shows the elapsed time |
| Game.GameManager.RestartLevel | js/game-manager.js:216-220 | a cut mode is left untouched; friend-or-foe restarts its level, resetting the cuts and keeping score and level, and with a saved level brings back its shape, flags and parameters with conflicts current |
| Game.GameManager.NewCutMode | js/game-manager.js:171-172 | a fresh, active, standard cut mode on the shape |
| Game.GameManager.NewFriendFoeMode | js/game-manager.js:171-172 | a fresh, active, standard friend-or-foe mode on the shape |

## Left out

- Floating point: coordinates and areas are exact reals, so rounding in `lineIntersection`, `containsPoint` and the shoelace loop is not modelled.
- `Shape.distanceTo`, the cut velocity and the cut sound in `performCut`: they affect only audio.
- Shape ids from `Date.now()` and random colours: ids come from a counter, colours are opaque tokens. `setShapes` moves the counter past the ids it receives so that later ids stay unique, which `Date.now()` gives in the source.
- Randomness is not modelled: the shape generator's polygons, `getRandomPointInShape`, the wind draws and the friend-or-foe flag count are parameters.
- The flag shuffle after placement (js/modes/friend-foe-mode.js:134): the flag order is random and nothing depends on it, so the model keeps the placement order.
- Flag drawing state: the easing, wave and wind animation in `Flag.update`, and `FlagSystem.update`, drive only drawing.
- All canvas drawing, `animate`, hover callbacks, keyboard handlers and the resize debounce: presentation only.
- `Shape.sortIntersectionsAlongLine`: nothing calls it.
- `setTimeout` and `setInterval`: delayed steps are pending entries run by explicit methods (`CutModes.CutMode.RunPendingStart`, `FriendFoe.FriendFoeMode.RunPending`), oldest first, and the interval is one `Tick` per call. The delays themselves (1.5 s, 2 s) are not modelled.
- JSON parsing of the leaderboard item: the item is one of six shapes (missing, empty, falsy JSON, an array, other text that is no ratings object, a table of entry lists). A table whose mode entry is not an array of entries (where `push` would throw) is not modelled.
- A missing nickname in `finishGame`: the nickname is always a parameter.
- Nickname length: the model counts characters, while JavaScript counts UTF-16 code units.
- Case mapping: only Latin and basic Cyrillic letters have cases here.
- TaskWords.SortKinds: numerals are exact naturals here. The source's `parseInt` and `toString` work on doubles: values above 2^53 are rounded, so "12345678901234567891" shows as "12345678901234567000" and two different numerals can give equal cards, and values of 10^21 and above print in exponent form ("1e+21"). `TaskWords.NumbersOf`, `Text.ParseDecimal` and `Text.NatToString` match the source only up to 2^53.
- TaskWords.IsWord: only items made of ASCII digits are numbers. The source's test is `!isNaN(item)`. Like the model it makes `12abc` a word, but it also takes `+5`, `1.5`, `1e3`, `0x1A` and `Infinity` as numbers, pushing `parseInt` of them (5, 1, 1, 26 and NaN). In the model these are words: the digit-led ones fall in neither word group, `+5` lands in both, and `Infinity` among the upper-case words. Sorting a NaN with `(a, b) => a - b` is left to the engine and not modelled either.
- The taskwords drop-zone geometry and drag state: the drop target and place are parameters of `HandleDrop`.
- js/audio-manager.js, js/script.js and js/shape-generator.js are not part of this model. Of the base mode class the model keeps the `isActive` flag and the throwing inherited `start` (the friend-or-foe branch of `Game.GameManager.StartGame`); its other defaults are not modelled.
- Negative container sizes in `resizeCanvas`: `Game.Fit` requires non-negative sizes.
- Display texts: the results title, score and level texts, the cut-mode status texts, the `getGameState` strings, `showMessage` with its timer, and the leaderboard rendering in `loadRating`.
- Flags.FlagSystem.GetShapeBounds: for a polygon with no points the source gives ±Infinity bounds, and the model returns `None`.
- CutEngine.CutShapes: area conservation is proved only for a quadrilateral crossed on two opposite edges (`Scenarios.QuadCutKeepsSignedArea`), not for every polygon.
