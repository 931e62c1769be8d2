# Sorry! rules engine in Dafny

This project models the rules engine of a console version of the board game
Sorry! (`sorry_boardgame.py`). The model covers:

- the board: a 16x16 grid whose 60-square border is the shared track, plus
  the four colours' start exits, safety entrances, safety zones, Home
  squares and slides;
- move_pawn, the single routine that moves a pawn, slides it and captures;
- is_valid_target and the searches built on it, which decide whether a
  card may be played on some pawns;
- enumerate_possible_plays, which lists every legal play of a hand;
- determine_default_action, which completes a partly chosen play when only
  one completion remains;
- play_card, which commits a play to the pawn dict;
- the end-of-turn test of whether a player, or a team, has won.

The pawn dict (`all_pawns`, from labels such as `B1` to locations) is the
class `Tables.PawnTable`. Its `order` is the dict's insertion order and its
`at` is the mapping. Each routine that updates the dict in place is a method
on that class. It is proved to leave the dict exactly as a pure function of
module `Movement` or `Commit` describes, and the rules are stated and proved
as lemmas about those functions. Each loop that builds a list is a method
proved equal to a recursive specification function. The lemmas then say what
that list contains.

Modules:

- `Board`: colours, labels, locations, board constants, and the single step.
- `Lookup`: get_element_to_access and binary_search.
- `Movement`: the walk, bumping, slides and move_pawn as functions.
- `Tables`: the pawn dict and the in-place move_pawn.
- `Legality`: is_valid_target and the 7/10/11/Sorry searches.
- `Enumeration`, `EnumerationLemmas`: enumerate_possible_plays.
- `DefaultAction`: determine_default_action.
- `Commit`: play_card and the win test.

## Model

| member | source | states |
|---|---|---|
| Board.Teammate | sorry_boardgame.py:374-383 | a colour's teammate is always a different colour |
| Board.TeammateInvolution | sorry_boardgame.py:374-383 | the teammate relation is mutual (blue with green, red with yellow) |
| Board.TrackIndex | sorry_boardgame.py:460-475 | every border square has a position 0..59 on the track loop |
| Board.TrackIndexInjective | sorry_boardgame.py:460-475 | different border squares have different loop positions, so the loop is a cycle of 60 distinct squares |
| Board.StepFollowsTrack | sorry_boardgame.py:460-475 | away from the pawn's own safety entrance, a forward step on the border moves one position clockwise; every backward step moves one position anticlockwise |
| Board.StepEntersSafetyZone | sorry_boardgame.py:452-459 | a forward step from a pawn's own safety entrance goes to the first square of its safety zone |
| Board.StepWithinSafetyZone | sorry_boardgame.py:441-451 | inside the zone a forward step goes to the next square, and from the fifth square it goes Home; a backward step goes to the previous square, or out to the entrance |
| Board.InZoneIsZoneCell | sorry_boardgame.py:441-451 | a colour's safety zone is exactly its five zone squares |
| Board.StepKeepsPlaced | sorry_boardgame.py:441-475 | a step never takes a pawn off the border, its own zone, or Home |
| Board.StepRoundTrip | sorry_boardgame.py:441-475 | with the corrected step, a backward step undoes any forward step that does not reach Home |
| Board.StepAsWrittenBacksForward | sorry_boardgame.py:454-457 | as written, a red pawn stepping back from its safety entrance (15,2) goes to (15,3), one position forward. A step forward onto the entrance followed by a step back therefore does not return the pawn. Yellow behaves the same way |
| Board.StepAsWrittenAgreesElsewhere | sorry_boardgame.py:441-475 | the as-written step and the corrected step differ only on that backward step for red and yellow |
| Board.StartExitOnOwnLine | sorry_boardgame.py:53-64 | each start exit is a border square on its own colour's line, and is not a slide entrance |
| Lookup.ElementAtAppend | sorry_boardgame.py:396-400 | indexing along path p and then along path q is the same as indexing along p + q |
| Lookup.GetElementToAccess | sorry_boardgame.py:396-400 | the loop returns the element at the access path |
| Lookup.BinarySearch | sorry_boardgame.py:403-421 | in a table with strictly increasing keys, returns an index whose key equals the value searched for |
| Movement.WalkAbortsOnlyAtHome | sorry_boardgame.py:426-430 | the stepping loop stops early only on a pawn that is Home |
| Movement.WalkOvershootRejected | sorry_boardgame.py:426-430 | Home is reached only by exact count: a walk that reaches Home in k steps is rejected when asked for more than k |
| Movement.WalkKeepsPlaced | sorry_boardgame.py:426-476 | a walk of any length keeps the pawn on squares its colour may occupy |
| Movement.WalkRoundTrip | sorry_boardgame.py:426-476 | n steps forward then n steps back return the pawn to where it was, unless Home was entered on the way |
| Movement.BackAvoidsHome | sorry_boardgame.py:426-476 | the backward walk that retraces a forward walk never meets Home, and ends where the forward walk began |
| Movement.Bumped | sorry_boardgame.py:386-393 | the dict keeps its keys, and each pawn either stays put or stood on one of the coordinates and goes to Start |
| Movement.BumpedOutside | sorry_boardgame.py:386-393 | pawns outside the scan are untouched |
| Movement.BumpedAll | sorry_boardgame.py:386-393 | when no more pawns stand on the coordinates than the early stop allows, exactly those pawns go to Start and no other pawn moves |
| Movement.SlideExit | sorry_boardgame.py:477-487 | the exit of every slide is a border square |
| Movement.SlideLookup | sorry_boardgame.py:479-485 | the slide table is keyed at index 0 and strictly sorted; every entrance's x + y is a key; the row with that key gives the slide's exit |
| Movement.SlideShape | sorry_boardgame.py:477-487 | each slide carries a pawn 3 or 4 squares along the border line of its entrance, and every square it clears is on the border |
| Movement.SlideEndsOffSafety | sorry_boardgame.py:477-487 | no slide starts or ends on a safety entrance |
| Movement.Move | sorry_boardgame.py:424-506 | a move keeps the dict's keys |
| Movement.MoveFromHome | sorry_boardgame.py:427-430 | a pawn at Home cannot move: any nonzero count is rejected and the dict is unchanged |
| Movement.MoveFromStart | sorry_boardgame.py:431-440 | a pawn leaving Start lands on its start exit, whatever the count |
| Movement.MoveFrame | sorry_boardgame.py:477-504 | apart from the moving pawn, a move only ever sends pawns back to Start |
| Movement.MoveKeepsPlaced | sorry_boardgame.py:424-506 | the moving pawn stays on squares its colour may occupy |
| Movement.MoveLands | sorry_boardgame.py:491-506 | a move that ends on a non-slide square puts the pawn there and sends back exactly the pawn that stood there. The move is invalid exactly when that pawn belongs to the mover's colour |
| Movement.MoveSlides | sorry_boardgame.py:477-490 | a move that ends on another colour's slide entrance carries the pawn to the exit and sends back every other pawn on the slide; it is reported valid |
| Movement.MoveKeepsSparse | sorry_boardgame.py:424-506 | after any move, no square of the grid holds two pawns |
| Tables.Bump | sorry_boardgame.py:386-393 | bump_pawns_at_coordinates leaves the dict as `Bumped` describes |
| Tables.MovePawn | sorry_boardgame.py:424-506 | move_pawn, with the corrected backward step, leaves the dict as `Move` describes and returns `Move`'s verdict (None when no mover colour is given) |
| Tables.SlideFrom | sorry_boardgame.py:477-490 | the slide branch clears the slide's squares, puts the pawn on the exit and reports valid |
| Tables.Capture | sorry_boardgame.py:491-506 | the capture branch sends back whatever stood on the landing square. With a mover colour, it reports invalid exactly when one of that colour's other pawns was moved |
| Tables.Snapshot | sorry_boardgame.py:494-498 | the saved pawns are exactly the mover colour's other pawns, with their places |
| Tables.Unchanged | sorry_boardgame.py:500-503 | true exactly when every saved pawn is still in its saved place |
| Tables.Copy | sorry_boardgame.py:515 | a deep copy is a new dict with the same entries |
| Legality.IsValidTarget | sorry_boardgame.py:509-549 | is_valid_target returns `ValidTarget` and leaves the dict untouched |
| Legality.TryMove | sorry_boardgame.py:515 | move_pawn on a deep copy reports the move's validity, and the dict itself is untouched |
| Legality.SevenLoop | sorry_boardgame.py:522-538 | the 7's loop over its entries, run on one shared copy, decides `SevenOk` |
| Legality.DiscardOnlyAlone | sorry_boardgame.py:510-511 | a target list containing 'd' is valid exactly when 'd' is its only item, whatever the card |
| Legality.SevenOkMeaning | sorry_boardgame.py:527-538 | the 7's loop accepts exactly when every entry passes every check and the distances add up to 7 |
| Legality.SevenRule | sorry_boardgame.py:522-538 | a 7 is valid exactly when: it has at most two entries (unless wider splits are allowed); no pawn repeats; no pawn starts at Start or Home; all pawns are friendly; the moves succeed one after another on one copy; the distances total 7 |
| Legality.SevenLoopConditions | sorry_boardgame.py:522-538 | the loop started on the dict itself checks exactly those conditions |
| Legality.LeaveStartRule | sorry_boardgame.py:512-515 | leaving Start with a 1 or a 2 is legal for a friendly pawn exactly when no other pawn of the player's own colour stands on its start exit |
| Legality.HomeIsFinal | sorry_boardgame.py:512-521 | no single-pawn play of any card targets a pawn at Home |
| Legality.HomeIsFinalForPairs | sorry_boardgame.py:539-548 | nor does any 11 swap or Sorry, in either order |
| Legality.EdgeSquareIsTrack | sorry_boardgame.py:540 | for a pawn on a square it may occupy, the source's frame test is the same as being on the shared track |
| Legality.ElevenSwapRule | sorry_boardgame.py:539-541 | an 11 swap is legal exactly when: both pawns are on the shared track; their colours differ; one pawn is friendly and the other is not the player's own colour |
| Legality.SorryRule | sorry_boardgame.py:542-548 | a Sorry is legal exactly when one pawn is friendly and at Start, and the other, of a different colour and not the player's, is on the border |
| Legality.IsSomeValidMoveForTen | sorry_boardgame.py:566-567 | true exactly when the ten is valid as a step back one or as ten forward |
| Legality.IsSomeValidPartner | sorry_boardgame.py:570-581 | true exactly when some other pawn of the dict completes a legal pair with the given pawn |
| Legality.IsSomeValidSwapForEleven | sorry_boardgame.py:570-574 | true exactly when some other pawn completes a legal 11 swap |
| Legality.IsSomeValidPlayForSorry | sorry_boardgame.py:577-581 | true exactly when some other pawn completes a legal Sorry |
| Legality.SplitSearchSound | sorry_boardgame.py:552-563 | when the 7 search succeeds, the entries it added make a valid 7 |
| Legality.SplitSearchAsWrittenMissesOne | sorry_boardgame.py:557 | as written, the search never completes a 7 that lacks exactly one square |
| Legality.SplitSearchComplete | sorry_boardgame.py:552-563 | with distances down to 1, the search succeeds whenever some further entries (each moving at least one square, together no more than the rest) make a valid 7 |
| Legality.SomeValidSplitForSeven | sorry_boardgame.py:552-563 | the recursive search on the mutable dict of distances returns the corrected `SplitSearch`, and leaves the dict as it found it |
| Legality.SomeDistance | sorry_boardgame.py:557-562 | the loop over the distances for one pawn returns the corrected `TryDistances`, and pops every entry it adds |
| Enumeration.MovableMembers | sorry_boardgame.py:620-623 | the movable pawns are exactly the friendly pawns that are neither at Start nor Home |
| Enumeration.SevenKept | sorry_boardgame.py:630-631 | the filter applied to each candidate 7 is is_valid_target for a 7 |
| Enumeration.AdvanceStep | sorry_boardgame.py:634-638 | each odometer step keeps the counters in range and moves strictly forward, so the while loop ends |
| Enumeration.OdometerPass | sorry_boardgame.py:624-638 | one pass gives the next reading and leaves one pass fewer to go |
| Enumeration.AddSingles | sorry_boardgame.py:592-597 | the loop over the dict lists `Singles` |
| Enumeration.ListPlays | sorry_boardgame.py:590-678 | the loop over the cards in hand lists `HandPlays` |
| Enumeration.AddPairs | sorry_boardgame.py:610-616 | the nested loops list `Pairs` |
| Enumeration.AddTens | sorry_boardgame.py:659-670 | the ten's loop lists `Tens` |
| Enumeration.AddSevenPairs | sorry_boardgame.py:639-658 | the 7's loops without wider splits list the legal candidates of `SevenSplits` |
| Enumeration.AddSevenSplits | sorry_boardgame.py:618-638 | the 7's odometer loop lists the legal candidates of `OdometerAll` |
| Enumeration.HasTwoPlay | sorry_boardgame.py:599-603 | the scan of reversed(possible_plays) finds a 2 exactly when one is listed |
| Enumeration.OnlySwaps | sorry_boardgame.py:679-683 | the scan answers true exactly when every listed play is an 11 with two pawns |
| Enumeration.DiscardAll | sorry_boardgame.py:687-689 | one discard play per card in hand, in hand order |
| Enumeration.EnumeratePossiblePlays | sorry_boardgame.py:588-690 | list mode returns `Enumerated`. Existence mode reports whether a play other than an 11 swap exists (the corrected reading) |
| EnumerationLemmas.SinglesListed | sorry_boardgame.py:592-596 | the single-pawn loop lists [p] exactly when the card may move p |
| EnumerationLemmas.PairsListed | sorry_boardgame.py:610-615 | the pair loops list [a, b] exactly when [a, b] is a legal pair for the card |
| EnumerationLemmas.TensListed | sorry_boardgame.py:659-669 | the ten's loop lists p in a direction exactly when p may move that way |
| EnumerationLemmas.KeepAllSound | sorry_boardgame.py:624-658 | every 7 the filter keeps passes is_valid_target |
| EnumerationLemmas.SevenDuplicates | sorry_boardgame.py:624-629 | with two or more movable pawns, the odometer tries {first: 6, second: 1} twice (after one pass and after m passes) |
| EnumerationLemmas.EnumeratedSound | sorry_boardgame.py:588-690 | every listed play except the draw-only 2 is of a card in hand and passes is_valid_target, discards included |
| EnumerationLemmas.DiscardsOffered | sorry_boardgame.py:679-689 | a discard of a card is offered exactly when the card is in hand and either nothing else is listed or only 11 swaps are |
| EnumerationLemmas.DrawTwoOffered | sorry_boardgame.py:598-608 | the draw-only 2 is offered exactly when: a 2 is in hand; drawing again is allowed; no pawn can be moved by a 2 |
| EnumerationLemmas.OnlySwapsAsWritten | sorry_boardgame.py:609-614 | on a board whose only plays are two 11 swaps, list mode adds the discard and the intended existence answer is False, yet the code as written returns True |
| DefaultAction.Sieve | sorry_boardgame.py:732-734 | the corrected sieve keeps exactly the items found in both lists |
| DefaultAction.RemoveAll | sorry_boardgame.py:723-724 | removing the picks leaves the play's multiset minus the picks' multiset |
| DefaultAction.IsConsistent | sorry_boardgame.py:701-705 | the loop that checks a play against the picks decides `Consistent` |
| DefaultAction.IsEquivalent | sorry_boardgame.py:706-712 | the loop that compares a play with the default found decides `Equivalent` |
| DefaultAction.ScanPlays | sorry_boardgame.py:699-724 | the loop over the possible plays returns `Scan` |
| DefaultAction.KeepCommon | sorry_boardgame.py:732-734 | the sieve loop as written, removing while iterating, returns `SieveAsWritten`: it keeps every item the play shares and brings in nothing new |
| DefaultAction.CommonPicks | sorry_boardgame.py:725-734 | the Sorry/11 loop returns `Common` with the sieve as written |
| DefaultAction.DetermineDefaultAction | sorry_boardgame.py:693-759 | returns `DefaultFor` with the sieve as written: the rest of the play, or None |
| DefaultAction.NoOptionDefault | sorry_boardgame.py:694-724 | when no play of the card agrees with the picks, the default is to pick nothing more |
| DefaultAction.FirstOptionDefault | sorry_boardgame.py:706-724 | with plays[k] the first agreeing play, the default is what that play leaves to pick when every later agreeing play is the same play, and None otherwise |
| DefaultAction.OrderedEquivalence | sorry_boardgame.py:745-752 | for a 7, a later play is the same as the first exactly when their entries are equal |
| DefaultAction.UnorderedEquivalence | sorry_boardgame.py:706-715 | for the other cards, with distinct picks, a later play is the same exactly when it has as many items as the first and only the first's items |
| DefaultAction.CommonMeaning | sorry_boardgame.py:725-736 | with nothing picked for a Sorry or an 11, the suggested pawns are exactly those in every play of the card |
| DefaultAction.CommonAsWrittenAfter | sorry_boardgame.py:726-734 | after the first play of the card, the as-written sieve keeps every item all later plays share and adds none |
| DefaultAction.CommonAsWrittenMeaning | sorry_boardgame.py:725-736 | as written, the suggested pawns include every pawn found in all plays of the card and come from the plays of the card |
| DefaultAction.SieveAsWrittenKeeps | sorry_boardgame.py:732-734 | the as-written loop keeps every item both lists share and adds nothing |
| DefaultAction.SieveAsWrittenSkips | sorry_boardgame.py:732-734 | with [a, b] and a play holding neither, the as-written loop keeps b, while the intended result is empty |
| DefaultAction.DefaultAsWrittenSuggestsStranger | sorry_boardgame.py:725-736 | when an 11's only plays are the swap [a, b] and a discard, the code as written suggests b, which the discard does not name; the corrected default is None |
| Commit.PlayCard | sorry_boardgame.py:809-835 | play_card leaves the dict as `Played` describes |
| Commit.LeaveStartCommits | sorry_boardgame.py:810-822 | a 1 or 2 from Start puts the pawn on its exit and sends back whatever stood there. It is the same move that is_valid_target simulated with move_pawn |
| Commit.SwapExchanges | sorry_boardgame.py:826-831 | an 11 swap of pawns on squares that start no slide for their new owners exchanges their places and moves nothing else |
| Commit.SorryBumps | sorry_boardgame.py:826-831 | a Sorry puts the friendly pawn from Start on the other pawn's square and sends that pawn to Start, in either target order |
| Commit.MoveAllKeepsSparse | sorry_boardgame.py:823-825 | the moves of a 7 keep every square to at most one pawn |
| Commit.PlayedKeepsSparse | sorry_boardgame.py:809-835 | every committed play keeps the pawns and keeps every square of the grid to at most one pawn |
| Commit.PawnsAllHome | sorry_boardgame.py:1166-1170 | the loop with break decides whether all pawns of a colour are Home |
| Commit.IsGameWon | sorry_boardgame.py:1166-1175 | the game is won exactly when the player's pawns are all Home and, in teams, so are those of the player seated two places on |
| Commit.TeamWin | sorry_boardgame.py:1171-1175 | with four players seated blue, yellow, green, red, the player two seats on is the teammate |

## Left out

- Everything outside the rules engine is not modelled: printing the board, console input, the human and computer turn loops, drawing cards and reshuffling, and the game setup.
- add_play_score_attribute (sorry_boardgame.py:584-585) gives each play a random score. The model has no randomness, so plays carry no score.
- The explanation string of determine_default_action (sorry_boardgame.py:760-805) is not modelled. Nor is the ten-direction tracking at lines 713-714 and 720-721, which only feeds that string. The model returns only the default action.
- Board.Teammate: get_teammate_letter returns '' for a letter that is not a colour. Colours form a closed datatype here, so that case cannot arise.
- Lookup.BinarySearch: requires the value to be in the table. With an absent value the source's loop can run forever (min_index stops moving once it is one below max_index), and its None result for an empty table is then unreachable. move_pawn only searches for keys that are present.
- Legality.ValidTarget: target lists of the wrong shape for the card, where the source would raise on indexing (for example a 7 given a list), are rejected rather than raising.
- Board.StepFollowsTrack: its backward half holds for the corrected step only. As written (sorry_boardgame.py:454-457), a red pawn stepping back from its safety entrance (15,2) goes to (15,3), and a yellow one from (0,13) goes to (0,12); both are forward moves (see Findings, `Board.StepAsWrittenBacksForward`).
- Movement.WalkRoundTrip: holds for walks built on the corrected step; with the as-written step, forward then back from next to the red or yellow safety entrance does not return (see Findings).
- Movement.BackAvoidsHome: holds for walks built on the corrected step only, for the same reason.
- Movement.Walk: walks with the corrected step, so a backward walk through the red or yellow safety entrance retraces the track instead of turning forward there. A red pawn on (15,2) moved 4 back ends on (13,0) here; as written it bounces (15,3), (15,2), (15,3), (15,2) and ends where it started.
- Movement.Move: built on `Walk`, so it differs from the as-written move_pawn on those backward moves only: a red pawn on (15,2) moved 4 back ends on (13,0), not (15,2), and 10 played as one back ends on (15,1), not (15,3); a yellow pawn on (0,13) differs the same way.
- Tables.MovePawn: updates the dict as `Move` does, so it carries the same difference from the as-written move_pawn on backward moves from the red or yellow safety entrance.
- Legality.IsValidTarget: judges backward moves from the red or yellow safety entrance with the corrected step, so its verdict, and those of the members built on it (`Legality.TryMove`, the lists of `Enumeration`, `Commit.Played`), can differ from the source there.
- Legality.TryMove: reports the corrected move's validity for backward moves from the red or yellow safety entrance.
- Commit.PlayCard: a 4, 10 or 7 played backward from the red or yellow safety entrance lands where the corrected step leads, not where the as-written step leads.
- Legality.SomeValidSplitForSeven: it tries the corrected distances r..1, not the as-written r+1..2 (see Findings).
- Legality.SomeDistance: it tries the corrected distances r..1, not the as-written r+1..2 (see Findings).
- Enumeration.EnumeratePossiblePlays: existence mode answers with the corrected `SomePlay`, not the as-written early return on an 11 swap (see Findings).
- DefaultAction.DetermineDefaultAction: requires `SevenShaped`, which excludes the inputs on which the source's 7 branch raises. It also does not model list.remove raising on a pick that is repeated. It keeps the as-written sieve, so its suggestion can hold a pawn that some play of the card lacks (see Findings); `CommonMeaning` states the intended result.
- Commit.PlayCard: requires `Playable`, meaning targets of the shape play_card indexes without checking. Discards never reach play_card.
- Locations are values, so the aliasing of the source's coordinate dicts (the `.copy()` calls) is not modelled. The source copies wherever aliasing would matter.
- Syncing the players' own copies of the pawn dict after play_card (sorry_boardgame.py:1146-1150) is not modelled. The model keeps one dict.

## Findings

| source | as written | input that shows it | evidently intended | confidence | as-written member | corrected member |
|---|---|---|---|---|---|---|
| sorry_boardgame.py:454-457 | a red (yellow) pawn on its own safety entrance steps backward with y + 1 (y - 1), which is forward along the track | a red pawn on (15,1) moves 1 forward to (15,2) and then 4 back (a 4 card): its first backward step goes to (15,3) | backward steps retrace the track, as they do for blue and green | not executed | Board.StepAsWrittenBacksForward | Board.StepRoundTrip |
| sorry_boardgame.py:557 | range(r + 1, 1, -1) tries distances r+1 down to 2 | a 7 started with 6 on one pawn and 1 still to place: distance 1 is never tried, so no split is found | distances r down to 1 | not executed | Legality.SplitSearchAsWrittenMissesOne | Legality.SplitSearchComplete |
| sorry_boardgame.py:609-614, 684-685 | existence mode returns True at the first legal 11 swap | blue holds only an 11, the blue pawn B1 stands on its safety entrance (13,15), and the yellow pawn Y1 stands on (5,0): the only plays are the two swaps | False when the only plays are 11 swaps, as lines 684-685 say | not executed | EnumerationLemmas.OnlySwapsAsWritten | Enumeration.EnumeratePossiblePlays |
| sorry_boardgame.py:732-734 | items are removed from default_action while iterating over it, so the item after each removed one is skipped | an 11 with nothing picked, where the only 11 plays are [a, b] and ['d']: b survives and is suggested | keep only pawns found in every play, as the comment at line 733 says | not executed | DefaultAction.DefaultAsWrittenSuggestsStranger | DefaultAction.CommonMeaning |
