# Card game logic, modelled and proved

The repository is a server and a web client for two families of card games: Tractor (Shengji, Finding
Friends) and Guandan. This project models the parts of it that search, decide and change state, and
proves what they promise, for every input and every run.

* **Tractor plays** (`mechanics/`). A throw is decomposed into tuples and runs of adjacent tuples. The
  search for all ways to follow a format with the cards held is `FormatMatch` (specification in
  `FormatSpec`, states in `FormatState`, the stack search for runs in `FormatTractor`, the completeness
  argument in `FormatExpansion`), on top of the odometer in `MultisetIter`. The lists of formats
  themselves come from `TuplePartitions`, `SetPartitions`, `SequentialTuples`, `Decompositions` and
  `DecompositionWalk`; `DecompositionOrder` and `ListingOrder` say in which order they stand, `AdjacencyRules`
  which of them are given. `Bidding` is the auction for the trump suit.
* **Guandan plays** (`frontend/src/GuandanNoBeatHint.tsx`). `GuandanCards` and `GuandanStrength` classify
  plain plays, `GuandanWild` and `GuandanInterpreter` interpret plays with wildcards, `GuandanOrder` says
  which strength beats which, and `GuandanLadder` what that order is. `GuandanBombs`, `GuandanChoices` and `GuandanHint` are the decision whether a
  hand can beat the table; `GuandanScore` and `GuandanSuggest` the choice of a play to suggest, `GuandanSuggestion` what is good about it;
  `GuandanHintLimits` says on exactly which hands both are right. `GuandanServer` is the server's own
  interpreter and comparison (`core/src/guandan/`), proved to agree with the client's.
* **The Guandan table** (`backend/src/guandan_handler.rs`, `backend/src/guandan_serving_types.rs`). The game
  state is a class whose methods change it in place (`GuandanGame`); each method is proved to take the state
  to a function of the old one, and the lemmas are about that function and about whole runs: plays and passes
  (`GuandanSeats`, `GuandanTable`), settlement (`GuandanSettlement`), robots (`GuandanPlans`, `GuandanConsidered`, `GuandanRobots`,
  `GuandanRobotChoice`, `GuandanHiddenBomb`, `GuandanRoom`), the tribute exchange (`GuandanTribute`,
  `GuandanExchange`, `GuandanFinalize`, `GuandanConfluence`, `GuandanCompletion`, `GuandanTributeRules`), the next deal and seat swaps
  (`GuandanNextRound`), joining, waiting, starting and shuffling (`GuandanLobby`, `GuandanLobbyRules`). `GuandanLife` puts them
  together: whole histories of a room from the first join on.

`dafny verify dfyconfig.toml` checks everything.

## How the model is set up

* A card of `mechanics` is its position in the trump order, a natural number; `successor` is a parameter, a
  list of distinct greater cards for every card. Shapes are non-empty with sizes of at least 1.
* A Guandan rank is its natural value, 2 to 14. Maps from ranks to counts are multisets, and a wildcard may
  stand for any suited card; the meaning of a play with wildcards is defined by replacing them
  (`GuandanWild.Interp`), and the interpreter is proved against that definition.
* The server calls `strengths_at_level` and `beats_at_level` in Rust; the rooms of the model use the definitions
  of the TypeScript file. `GuandanServer.InterpretersAgree` proves that the two give every play the same
  strengths but for one kind of play: five or more equal jokers are a bomb without a main rank in the
  TypeScript file and have no strength in the Rust file. On a table without those both accept the same plays.
* The fields of the game state are grouped into records (trick, tribute, last game, next round) and the class
  offers the whole of them as one value, `View()`.
* Sorting by the libraries is modelled by insertion, and where an order is promised it is proved to be the only
  one (`GuandanExchange.SortedOneWay`, `Decompositions.DownOnce`), so the method of sorting does not matter.
* Methods that drive an iterator to its end (`MultisetIter.Collect`, `FormatMatch.FindFormatMatches`) stand for
  a caller that collects what a lazy iterator yields.

## What turned out otherwise than documented or expected

* `handCanBeat` does not always see a bomb. It is right against every legal table if and only if the hand is
  not wildcards only (no other suited card, at most three jokers) with four of them or at least seven:
  `GuandanHintLimits.HintRightExactlyWhen`, with the tables that show the failure. The suggestion is right
  on four (`SuggestionRightExactlyWhen`), so the two disagree exactly on such a hand (`AgreeExactlyWhen`).
* Players seated between deals block the next deal: the finish order is then too short for the table, and the
  deal is refused whatever happens, until everybody has left the room (`GuandanLife.DealUnlessBlocked`,
  `GuandanLife.BlockedForever`). The settlement itself blocks it if and only if two or more players are waiting
  and the table has room for two (`GuandanNextRound.SettlementBlocksDeal`). Someone who joins while the shuffle
  is awaited blocks it if and only if somebody else is waiting already (`GuandanLife.JoinBlocks`), as at a
  table of four with one player waiting (`GuandanLife.LateJoinBlocks`).
* A tribute exchange can be completed if and only if, before the first submission, every giver holds a card
  that is no wildcard and every receiver one that may be returned (`GuandanCompletion.ExchangeCompletable`).
  Two decks can be dealt to four players so that the receiver holds none (`GuandanCompletion.StuckDeal`); the
  room then stays in that exchange until everybody has left it (`GuandanLife.JammedForever`).
* A robot keeps back what is *labelled* a bomb, but cards may have a plain label too. Out of danger and with
  cards to spare it lays cards that win only as a bomb, against some table, if and only if some of the cards it
  considers are both a bomb and something plain and its whole hand is not considered a bomb
  (`GuandanHiddenBomb.HiddenBombExactlyWhen`, with a hand in `HiddenBombExample`).
* A comment in the settlement of larger tables (backend/src/guandan_handler.rs:699-701) speaks of every player
  of one team having finished. The code ends the deal early only when the first half of the finish order is one
  team; the model follows the code (`GuandanSettlement.DealOver`).
* The command that ends a round by hand is refused in every state a room ever reaches
  (`GuandanLife.EndRoundNeverAccepted`).
* Under the joker-or-higher-suit policy an auction has at most 6m - 3 bids, fewer than the 6m a count of all
  classes suggests: bids of one card are not compared by suit (mechanics/src/bidding.rs:167), so among them
  there are three classes and not six (`Bidding.AuctionIsShort`).

## Model

| member | source | states |
|---|---|---|
| FormatMatch.FindFormatMatches | mechanics/src/format_match.rs:8-24 | the search ends, never underflows and never fails to extract a list; it yields exactly the assignments (i-th match of the i-th shape, runs along successors, no card used beyond what is held) that list equal shapes from the greatest down, none twice; every other assignment is one of them in another order |
| FormatMatch.SearchIsExact | mechanics/src/format_match.rs:199-311 | once the worklist is empty the lists handed out are exactly the canonical assignments |
| FormatMatch.SearchMissesNothing | mechanics/src/format_match.rs:199-311 | once the worklist is empty every assignment has been handed out up to the order of its matches |
| FormatMatch.ReachesGoal | mechanics/src/format_match.rs:199-311 | with nothing pending, every complete assignment above a visited state has itself been visited, by whatever order its shapes were filled |
| FormatMatch.PrunedHasNoGoal | mechanics/src/format_match.rs:254-270 | a state dropped because one remaining shape has too few options has no complete assignment above it |
| FormatMatch.NoListTwice | mechanics/src/format_match.rs:208-306 | different visited states hand out different lists |
| FormatMatch.FormatMatchIterator.Next | mechanics/src/format_match.rs:199-311 | one call keeps the invariant of the search, hands out at most one new list, and visits a new state whenever it does; it stops only with an empty queue |
| FormatTractor.FindPossibleTractors | mechanics/src/format_match.rs:152-193 | the stack search finds exactly the runs of the shape that the unused cards afford |
| FormatState.IntoMatchingCards | mechanics/src/format_match.rs:83-112 | a complete state always holds a match for every shape of the format: the final extraction never fails and lists the matches along the format, equal shapes from the greatest down |
| FormatState.ContainedCards | mechanics/src/format_match.rs:69-81 | the counts are, card by card, what all assigned matches use |
| FormatState.WithAdditionalFormats | mechanics/src/format_match.rs:53-67 | the new state holds the old matches and the added ones and nothing else, filed under their shapes |
| FormatExpansion.TupleCovers | mechanics/src/format_match.rs:221-246 | filling all copies of a tuple at once loses nothing: one of the combinations stays below any complete assignment above the state |
| FormatExpansion.TractorCovers | mechanics/src/format_match.rs:221-246 | placing one run at a time loses nothing: one of the options stays below any complete assignment above the state |
| FormatExpansion.TupleSpreadUse | mechanics/src/format_match.rs:221-246 | any combination within the limits uses no card beyond what is held |
| FormatSpec.CanonicalUnique | mechanics/src/format_match.rs:83-112 | a multiset of matches has only one listing along the format with equal shapes descending |
| FormatSpec.MatchOrder | mechanics/src/format_match.rs:83-112 | of two matches of one shape the greater is the one with the greater card where they first differ |
| MultisetIter.Collect | mechanics/src/multiset_iter.rs:5-30 | for k >= 1 the iterator hands out every vector bounded by the multiplicities with sum k exactly once, in strictly increasing order from the highest slot, and stops |
| MultisetIter.MultisetKIter.Next | mechanics/src/multiset_iter.rs:63-117 | one call hands out the current vector and moves to its immediate successor, or ends when there is none |
| MultisetIter.CarryIsSuccessor | mechanics/src/multiset_iter.rs:63-117 | no allocation lies strictly between a vector and the one reached by the carry and the refill |
| MultisetIter.FillToK | mechanics/src/multiset_iter.rs:120-135 | filling from the lowest slot places exactly k items, packed as low as the multiplicities allow |
| MultisetIter.ProgressStep | mechanics/src/multiset_iter.rs:63-117 | handing out one vector keeps the enumeration strictly increasing with everything else still ahead |
| TuplePartitions.PartitionsAreAll | mechanics/src/ordered_card.rs:218-265 | exactly all partitions of n with non-increasing sizes, in strictly descending lexicographic order |
| TuplePartitions.PartitionEnds | mechanics/src/ordered_card.rs:218-265 | the list starts with one tuple of n and ends with n ones |
| TuplePartitions.PartitionCache.FindTuplePartitions | mechanics/src/ordered_card.rs:218-265 | whatever the cache holds from earlier calls, the result is that of the plain recursion, and the cache stays right |
| SetPartitions.AssignmentsAreAll | mechanics/src/ordered_card.rs:311-352 | exactly all set partitions of the first n positions, each once, the largest block first and then fewer blocks first |
| SetPartitions.LargestBlocksFirst | mechanics/src/ordered_card.rs:311-352 | a set partition with a larger block comes before one without, and of equally large ones that with fewer blocks comes first |
| ListingOrder.SortIsStable | mechanics/src/ordered_card.rs:311-352 | the sort by shape keeps the order of equal shapes |
| SetPartitions.AssignmentCache.ComputeAdjacentAssignments | mechanics/src/ordered_card.rs:311-352 | cached and uncached calls give the list of the plain recursion |
| SequentialTuples.PermutationsAre | mechanics/src/ordered_card.rs:281-309 | the permutations are exactly the rearrangements |
| SequentialTuples.GroupingsAre | mechanics/src/ordered_card.rs:281-309 | the groupings are exactly the rearranged blocks of the set partitions |
| SequentialTuples.GroupedUsesAll | mechanics/src/ordered_card.rs:281-309 | every grouping consists of non-empty sequences that together use exactly the given sizes |
| SequentialTuples.GroupingsComplete | mechanics/src/ordered_card.rs:281-309 | every way to split the sizes into non-empty sequences is listed, in some order of the sequences |
| ListingOrder.ProductInOrder | mechanics/src/ordered_card.rs:281-309 | of the arrangements of several blocks the first block that differs decides the order, so the last block changes fastest |
| Decompositions.FullDecompositionIsAll | mechanics/src/ordered_card.rs:173-209 | exactly the multisets of size sequences with sum n whose longer sequences have sizes of at least 2 only, each once |
| Decompositions.FullDecompositionEnds | mechanics/src/ordered_card.rs:173-209 | the list goes from the single tuple of n down to n single cards |
| DecompositionOrder.DecompositionsInOrder | mechanics/src/ordered_card.rs:173-209 | no decomposition comes after one into smaller tuples, nor after one into the same tuples with a shorter longest sequence, or as long but more sequences |
| Lists.LexIsFirstDifference | mechanics/src/ordered_card.rs:89-209 | the order of size sequences: a sequence before its continuations, otherwise the first difference decides |
| Decompositions.DownOnce | mechanics/src/ordered_card.rs:173-209 | a multiset of sequences has one descending listing, so deduplication after sorting loses nothing |
| Decompositions.DecompositionCache.FullDecompositionOrdering | mechanics/src/ordered_card.rs:173-209 | the three nested caches never change the result |
| DecompositionWalk.SubsequentUsesAll | mechanics/src/ordered_card.rs:89-165 | every requirement list of the walk has the total number of cards of the input |
| DecompositionWalk.StepsBalanced | mechanics/src/ordered_card.rs:105-151 | the walk ends after exactly as many steps as there are decompositions in all stacks, and every step keeps the number of cards of every requirement |
| DecompositionWalk.StackVisited | mechanics/src/ordered_card.rs:105-151 | for every requirement, the decompositions the walk takes for it are exactly its stack from the end, in order, each once |
| DecompositionWalk.NewAdjacencyFilter | mechanics/src/ordered_card.rs:124-162 | the result with new adjacency forbidden is an order-preserving filter of the result with it allowed; by which condition is `KeptExactly` |
| AdjacencyRules.KeptExactly | mechanics/src/ordered_card.rs:148-162 | with new adjacency every state gives its list; without it exactly the lists are kept, in the same order, in whose state no requirement that was a single tuple has a longer sequence |
| AdjacencyRules.SinglesStaySingle | mechanics/src/ordered_card.rs:148-162 | from single tuples only, and without new adjacency, every sequence of every list is a single tuple |
| AdjacencyRules.ListedIsAll | mechanics/src/ordered_card.rs:155-161 | a list holds exactly the sequences of the present decompositions of all requirements, in descending order |
| AdjacencyRules.StackIsRest | mechanics/src/ordered_card.rs:99-112 | a requirement goes on with everything behind it in the list of all decompositions of its number of cards, with nothing if it is not listed |
| AdjacencyRules.VisitsStable | mechanics/src/ordered_card.rs:127-137 | requirements are visited by their number of decompositions to come, equals in the order they had |
| DecompositionWalk.SubsequentDecompositionOrdering | mechanics/src/ordered_card.rs:89-165 | the loop over mutable stacks gives the lists of the walk, whatever the caches hold |
| Bidding.ValidBids | mechanics/src/bidding.rs:64-243 | the bids offered are exactly the valid ones, under each policy |
| Bidding.OpeningLevelCards | mechanics/src/bidding.rs:77-182 | an auction may be opened with level cards exactly when they are held, of the rank of the landlord or else the bidder, and the landlord does not play without trump |
| Bidding.OpeningJokers | mechanics/src/bidding.rs:113-145 | which jokers may open an auction under each policy: two or, against no trump, one of a kind; as many as there are decks, for big jokers perhaps one less; or none |
| Bidding.LongerIsValid | mechanics/src/bidding.rs:149-151 | a covered bid of level cards with more cards than the last is valid for everyone but the last bidder, under every policy |
| Bidding.EqualNumberOverturns | mechanics/src/bidding.rs:152-177 | what of as many cards overturns what under each policy, by jokers and suits |
| Bidding.ReinforcedBids | mechanics/src/bidding.rs:185-243 | the last bidder may exactly raise the same cards; under the policy for it, an earlier bidder may also come level with the own card, but not on the jokers of another |
| Bidding.MostRecentIsLatest | mechanics/src/bidding.rs:77 | the bid found is the one after which the player has made no other |
| Bidding.Auction.PlaceBid | mechanics/src/bidding.rs:245-290 | a bid is recorded exactly when it is valid and there is no automatic bid, else nothing changes |
| Bidding.Auction.TakeBackBid | mechanics/src/bidding.rs:292-308 | exactly the last bid can be taken back, by its bidder in the same epoch, if the policy allows it |
| Bidding.BidsCovered | mechanics/src/bidding.rs:64-290 | in any auction every bid is covered by its bidder's hand |
| Bidding.CountsNeverDrop | mechanics/src/bidding.rs:64-290 | under every policy the number of a bid is at least that of the bid before |
| Bidding.OverturningRises | mechanics/src/bidding.rs:149-177 | one bid overturns another exactly when it stands higher, in number and joker or suit class |
| Bidding.StandingRises | mechanics/src/bidding.rs:64-290 | without equivalent reinforcement every bid stands strictly higher than the one before, in number and joker or suit class |
| Bidding.AuctionIsShort | mechanics/src/bidding.rs:64-290 | with at most m copies of a card in a hand, such an auction has at most m, 3m or 6m - 3 bids by policy |
| GuandanStrength.StrengthIsPattern | frontend/src/GuandanNoBeatHint.tsx:135-241 | the classifier gives a strength to suited cards if and only if they are exactly the ranks of its pattern, in one suit for a straight flush and not for a straight |
| GuandanLadder.JokerStrengths | frontend/src/GuandanNoBeatHint.tsx:135-241 | jokers alone are a play exactly when they are four, or of one kind: single, pair, triple, or from five on a bomb without a rank |
| GuandanWild.WildIsExact | frontend/src/GuandanNoBeatHint.tsx:266-391 | for two or more cards with a wildcard, some replacement of the wildcards has a strength if and only if the fixed cards fit into its pattern |
| GuandanInterpreter.TargetFits | frontend/src/GuandanNoBeatHint.tsx:243-264 | the counting loop says yes exactly when the fixed cards are part of the target and the wildcards make up the rest |
| GuandanInterpreter.StrengthsAtLevel | frontend/src/GuandanNoBeatHint.tsx:266-391 | the result holds exactly the strengths of the replacements, each once, in a fixed order of pattern and main rank |
| GuandanOrder.BeatsIsStrictOrder | frontend/src/GuandanNoBeatHint.tsx:418-470 | beats is irreflexive, asymmetric and transitive at every level |
| GuandanLadder.BombLadder | frontend/src/GuandanNoBeatHint.tsx:393-455 | every bomb beats every plain play; among bombs four of a rank, five of a rank, the straight flush, six and more of a rank by number, and the joker bomb above all; equals by rank |
| GuandanLadder.PlainOrder | frontend/src/GuandanNoBeatHint.tsx:411-470 | plain plays compare only within one pattern and number of cards; runs by natural rank, the others by plain rank, then the level card, the small and the big joker |
| GuandanOrder.ClimbingIsTransitive | frontend/src/GuandanNoBeatHint.tsx:418-470 | where each play overtakes the one before, it overtakes all earlier ones: some interpretation beats all of theirs |
| GuandanOrder.InterpPermuted | frontend/src/GuandanNoBeatHint.tsx:208-391 | rearranging a play changes none of its interpretations |
| GuandanServer.InterpretersAgree | core/src/guandan/rules.rs:6-378 | the server gives a play exactly the strengths the client gives it, unless it is five or more equal jokers, to which it gives none |
| GuandanServer.ComparisonsAgree | core/src/guandan/compare.rs:78-152 | with the server's own tiers and powers, one strength is greater than another exactly when it beats it on the client |
| GuandanServer.ServerAcceptsAlike | core/src/guandan/strength.rs:194-238 | on a table that is not five or more equal jokers, the server accepts exactly the plays the model accepts, but for five or more equal jokers |
| GuandanBombs.BombCountsExact | frontend/src/GuandanNoBeatHint.tsx:512-552 | counting agrees with searching all parts of the hand for a bomb if and only if the hand is not four wildcards with no other suited card and at most three jokers |
| GuandanHint.HasAnyBomb | frontend/src/GuandanNoBeatHint.tsx:512-552 | the loops decide exactly those counts |
| GuandanChoices.Combinations | frontend/src/GuandanNoBeatHint.tsx:472-490 | every choice of the given number of positions in increasing order is listed, and nothing else |
| GuandanHint.HandCanBeat | frontend/src/GuandanNoBeatHint.tsx:561-632 | yes implies that some part of the hand beats all interpretations of the table; the converse holds on every hand not overlooked; and the answer is exactly whether the counts, the small plays or the groups win |
| GuandanHint.LargeWinner | frontend/src/GuandanNoBeatHint.tsx:573-629 | against a bomb, if a play of unlisted size or shape wins, one of the listed plays wins too |
| GuandanHintLimits.HintRightExactlyWhen | frontend/src/GuandanNoBeatHint.tsx:561-632 | the hint is right against every legal table if and only if the hand is not wildcards only, four of them or at least seven |
| GuandanHintLimits.SuggestionRightExactlyWhen | frontend/src/GuandanNoBeatHint.tsx:777-843 | a play is found whenever one exists, against every legal table, if and only if the hand is not seven or more wildcards only |
| GuandanHintLimits.AgreeExactlyWhen | frontend/src/GuandanNoBeatHint.tsx:561-843 | a play is suggested exactly when the hint says yes, against every legal table, if and only if the hand is not four wildcards only |
| GuandanHintLimits.FindsAgainstPlain | frontend/src/GuandanNoBeatHint.tsx:777-843 | against a table without a bomb the suggestion finds a play exactly when some part of the hand wins, whatever the hand |
| GuandanHintLimits.HintMissesFour | frontend/src/GuandanNoBeatHint.tsx:512-632 | on every hand of four wildcards only, a lone big joker is beaten but the hint says no |
| GuandanHintLimits.BothMissSeven | frontend/src/GuandanNoBeatHint.tsx:605-629 | on every hand of seven or more wildcards only, six cards of the level rank are beaten but nothing looked at wins |
| GuandanHintLimits.BestKeepsPattern | frontend/src/GuandanNoBeatHint.tsx:683-719 | when a tried play of the table's plain pattern wins, the suggestion has that pattern and breaks no more bombs than that play |
| GuandanSuggestion.SuggestionIsCareful | frontend/src/GuandanNoBeatHint.tsx:683-719 | the suggestion keeps the plain pattern of the table if a winning try does; among such it destroys the fewest bombs, and among those it uses the fewest level cards |
| GuandanSuggestion.SuggestionIsLow | frontend/src/GuandanNoBeatHint.tsx:675-719 | among tries as careful the suggestion is no bomb if one is none, beats no other of its pattern, and as a bomb beats no other bomb |
| GuandanSuggestion.SuggestionIsCheap | frontend/src/GuandanNoBeatHint.tsx:634-719 | at equal strength no card of the suggestion can be exchanged for a lower one: plain cards by rank and suit, level cards above, jokers on top |
| GuandanSuggestion.BreaksAreTorn | frontend/src/GuandanNoBeatHint.tsx:642-673 | the bombs broken are the ranks, and the jokers, of which the hand holds four or more and the play takes some but not all |
| GuandanSuggest.FindSuggestedIndexes | frontend/src/GuandanNoBeatHint.tsx:777-843 | nothing exactly when no tried play wins, else distinct positions of a play that beats all interpretations of the table, and no tried winning play has a lower score against the first interpretation of the table |
| GuandanSuggest.Lowest | frontend/src/GuandanNoBeatHint.tsx:839-842 | the first candidate of the lowest score: none is lower, and every earlier one is higher |
| GuandanScore.BombBreakPenalty | frontend/src/GuandanNoBeatHint.tsx:642-673 | the counting loops give the number of ranks, and of joker sets, with four or more cards of which some but not all are played |
| GuandanScore.ScoreLessIsTotal | frontend/src/GuandanNoBeatHint.tsx:710-719 | the comparison of scores is a strict total order |
| GuandanSeats.NextLiveIsNext | backend/src/guandan_handler.rs:319-329 | while anyone holds cards the turn goes to the nearest seat that does |
| GuandanSeats.FullRound | backend/src/guandan_handler.rs:1812-1819 | the seats met on a full round number exactly the others that still hold cards |
| GuandanTable.AdvanceTurn | backend/src/guandan_handler.rs:319-329 | the loop moves the turn to the next seat that holds cards |
| GuandanTable.ValidatePlay | backend/src/guandan_handler.rs:844-869 | a play is accepted exactly when it has an interpretation that beats every one of the table's, or any on an empty table |
| GuandanLadder.FlushAmongBombs | core/src/guandan/compare.rs:94-135 | without wildcards a straight flush is accepted on a bomb of one rank exactly up to five cards, and such a bomb on it exactly from six |
| GuandanLadder.SinglesByRank | core/src/guandan/compare.rs:78-92 | a single card is accepted on another exactly when it is higher, level cards above the Ace and jokers above them, a lone wildcard being a level card |
| GuandanTable.CardsConserved | backend/src/guandan_handler.rs:1663-1675 | removing the chosen positions loses no card and makes none up |
| GuandanTable.PlayKeeps | backend/src/guandan_handler.rs:1644-1700 | an accepted play keeps the deal proper, or ends it when it is over; places already taken stay |
| GuandanTable.PlayLays | backend/src/guandan_handler.rs:1644-1700 | a play moves its cards to the table, gives an emptied hand the next place, and ends the deal exactly when one team has the first half of the places or one seat is left; otherwise nothing else changes but the turn, which goes to the next seat with cards |
| GuandanTable.PlayAllowed | backend/src/guandan_handler.rs:1644-1662 | exactly the seat to move may play, while nothing blocks play, different cards of its hand in order that the table accepts |
| GuandanTable.PassAllowed | backend/src/guandan_handler.rs:1795-1805 | exactly the seat to move may pass, and on an empty table only after a trick has been won |
| GuandanTable.PassKeeps | backend/src/guandan_handler.rs:1795-1835 | an accepted pass keeps the deal proper and closes the trick exactly when all other seats holding cards have passed since the last play; then the last player leads if that seat holds cards, else the next seat that does; otherwise only the turn moves on |
| GuandanTable.RunKeeps | backend/src/guandan_handler.rs:1637-1835 | every state of a run is proper: the turn seat holds cards, passes counts the seats holding cards between last player and turn, and the finish order is exactly the empty-handed seats, each once; only the last state may be an ended deal |
| GuandanTable.RunClimbs | backend/src/guandan_handler.rs:1637-1835 | in every state of a run each play on the table overtakes every earlier play of the trick |
| GuandanTable.PassersInOrder | backend/src/guandan_handler.rs:1795-1835 | while a trick is open the seats that passed since the last play are exactly those holding cards between last player and turn, in turn order: nobody passes twice and nobody is skipped |
| GuandanTable.RunConserves | backend/src/guandan_handler.rs:1637-1835 | until settlement the cards held and the cards laid are, in every state of a run, the cards dealt |
| GuandanSettlement.CompletedIsPermutation | backend/src/guandan_handler.rs:702-724 | the completed finish order is a permutation of all seats with the old order as its prefix |
| GuandanSettlement.SettledFacts | backend/src/guandan_handler.rs:691-842 | a settled deal has everyone placed, those without a place by seat, all hands empty and play blocked; only the winners' level moves |
| GuandanSettlement.NextLevelIsWinners | backend/src/guandan_handler.rs:691-842 | the match is won exactly from the Ace and, at a table of four, with the partner not last; otherwise the winners rise by four less the partner's place, or by one, at most to the Ace, the next deal is played at that level and the winner is to move |
| GuandanSettlement.PartnerDecides | backend/src/guandan_handler.rs:797-814 | on a table of four the promotion is decided by the partner's place: three levels for second, two for third, one for last |
| GuandanSettlement.SettleIfComplete | backend/src/guandan_handler.rs:759-842 | on a legal table settlement never fails, fires exactly when the first half of the order is one team or all but one are placed, and otherwise changes nothing |
| GuandanSettlement.SettleMultiplayer | backend/src/guandan_handler.rs:691-757 | the same for larger tables; other sizes are refused and left alone |
| GuandanGame.GameState.PromotePendingPlayers | backend/src/guandan_serving_types.rs:125-135 | waiting players join in order, as many as fit and an even number; the rest keep waiting |
| GuandanRobotChoice.RobotChoosePlay | backend/src/guandan_handler.rs:563-648 | a robot's choice is distinct positions of an acceptable play; on lead with cards it always finds one; it is the choice among all its candidates that the table accepts, or nothing when it yields |
| GuandanRoom.RobotsAnswer | backend/src/guandan_handler.rs:334-356 | a robot passes on a teammate's play unless an opponent has one or two cards and the teammate more than two; otherwise it plays whenever it has a plain answer, or a bomb in that danger |
| GuandanRobotChoice.ChosenIsSensible | backend/src/guandan_handler.rs:585-647 | going out comes first, under a plain label if possible; a candidate labelled as a bomb is otherwise chosen only when an opponent is about to finish and no plain label is legal; the lead is the longest then lowest, the answer one that beats no other where all compare, and one of the shortest; nothing is chosen only when no plain label is legal |
| GuandanRobotChoice.ChooseAmong | backend/src/guandan_handler.rs:585-647 | the searches, loops and early returns choose the candidate that `ChosenIsSensible` speaks about |
| GuandanRobotChoice.AnswerIsWeakest | backend/src/guandan_handler.rs:624-647 | where all candidates of the pool can be compared, the answer beats none of them |
| GuandanRobotChoice.AlikeAnswerIsWeakest | backend/src/guandan_handler.rs:624-647 | among bombs, and among candidates of one pattern and number, the answer beats no other |
| GuandanRobotChoice.AnswerIsShortest | backend/src/guandan_handler.rs:624-647 | among plain candidates, of whatever patterns, the answer has the fewest cards |
| GuandanRobots.RobotPlayCandidates | backend/src/guandan_handler.rs:386-554 | the candidates are exactly the considered positions (single cards, first cards of a kind, four jokers, straights, suited straights, triples with a pair, runs of pairs and triples), each with every interpretation of its cards |
| GuandanPlans.ConsideredPositions | backend/src/guandan_handler.rs:386-554 | whatever a robot considers is distinct positions of its hand |
| GuandanConsidered.PatternsConsidered | backend/src/guandan_handler.rs:386-554 | every pattern but the straight flush that the ranks of the hand allow is considered |
| GuandanConsidered.FlushConsidered | backend/src/guandan_handler.rs:465-500 | every straight flush that a suit of the hand holds is considered |
| GuandanConsidered.JokersConsidered | backend/src/guandan_handler.rs:400-440 | any number of equal jokers of the hand is considered |
| GuandanConsidered.FourJokersConsidered | backend/src/guandan_handler.rs:400-440 | two small and two big jokers of the hand are considered together |
| GuandanHiddenBomb.HiddenBombExactlyWhen | backend/src/guandan_handler.rs:563-648 | against some legal table a robot out of danger, with cards to spare, lays cards that win only as a bomb, if and only if some considered cards are both a bomb and something plain and the whole hand is not considered as a bomb |
| GuandanHiddenBomb.HiddenBombExample | backend/src/guandan_handler.rs:563-648 | at level seven a hand with four clubs in a row and the wildcard does so against a lone big joker |
| GuandanRoom.RobotTurn | backend/src/guandan_handler.rs:889-944 | in a proper deal a robot's turn never fails and is the effect of an accepted Play or Pass, but for the resistance notice |
| GuandanRoom.RunRobotTurns | backend/src/guandan_handler.rs:871-947 | the loop never fails, and afterwards a person is to move, the deal is over, or every seat has had a turn |
| GuandanRoom.RobotRunIsHumanRun | backend/src/guandan_handler.rs:871-947 | any run of robots is a run of the same commands sent by people, with the same states but for the resistance notice |
| GuandanRoom.HandlePlay | backend/src/guandan_handler.rs:1637-1710 | accepted exactly when the turn, the positions and the play allow it; then the effect of the play followed by the robots' turns, else nothing changes |
| GuandanRoom.HandlePass | backend/src/guandan_handler.rs:1784-1846 | accepted exactly when it is the seat's turn and the table is not empty, or a trick was won before; then the pass and the robots' turns, else nothing changes |
| GuandanTribute.LegalTributeCard | backend/src/guandan_serving_types.rs:218-242 | a card is a legal tribute exactly when it is no wildcard and none in the hand is higher at the level |
| GuandanTribute.TributeExists | backend/src/guandan_serving_types.rs:218-242 | a giver can pay exactly when the hand is not wildcards only |
| GuandanTributeRules.TributeIsHighest | backend/src/guandan_serving_types.rs:218-242 | a tribute is legal exactly when it is no heart of the level and no other such card of the hand could be played on it as a single card |
| GuandanTributeRules.NothingToReturn | backend/src/guandan_serving_types.rs:244-260 | a hand has nothing to return exactly when it holds only jokers, level cards, and Jacks to Aces |
| GuandanTribute.SubmitTributeCard | backend/src/guandan_serving_types.rs:262-291 | accepted exactly for a giver who has not paid, with a legal card; the card moves from the hand to the tribute, else nothing changes |
| GuandanTribute.SubmitReturnCard | backend/src/guandan_serving_types.rs:293-330 | accepted exactly for a receiver who has not returned, once all tribute is in, with a legal card; else nothing changes |
| GuandanTribute.SubmittedKeeps | backend/src/guandan_serving_types.rs:262-330 | a submission keeps the exchange proper: only givers pay, only receivers return, each once, and returns wait for all tribute |
| GuandanTribute.SubmittedConserves | backend/src/guandan_serving_types.rs:262-330 | hands, tribute and return cards together stay the same multiset |
| GuandanExchange.RankedSorted | backend/src/guandan_serving_types.rs:432-450 | the ranking lists all tribute, strongest first, ties by lower seat |
| GuandanTributeRules.OffersByStrength | backend/src/guandan_serving_types.rs:432-450 | of two ranked offers the later never beats the earlier as a single card, and if neither beats the other the earlier is of the lower seat |
| GuandanExchange.SortedOneWay | backend/src/guandan_serving_types.rs:432-450 | there is only one such ranking |
| GuandanExchange.FinalizedConserves | backend/src/guandan_serving_types.rs:344-479 | finalizing puts every card of the exchange into a hand and adds none |
| GuandanExchange.FinalizedSizes | backend/src/guandan_serving_types.rs:344-479 | every hand ends with its size before the exchange |
| GuandanExchange.FinalizedPairs | backend/src/guandan_serving_types.rs:377-476 | the i-th receiver gets the i-th strongest tribute and its giver the card that receiver returned; the strongest giver opens |
| GuandanFinalize.SecondFirstIsRank | backend/src/guandan_serving_types.rs:386-410 | the hand-written comparison of two givers is the general ranking |
| GuandanFinalize.BranchesAgree | backend/src/guandan_serving_types.rs:377-476 | the state specified for an exchange depends only on the givers and receivers of the plan, not on its kind; that the branches reach that state is `FinalizeDouble` and `FinalizeMulti` |
| GuandanFinalize.FinalizeDouble | backend/src/guandan_serving_types.rs:386-430 | on a complete exchange the hand-written branch for two givers never fails and gives the hands and turn of the ranked exchange |
| GuandanFinalize.FinalizeMulti | backend/src/guandan_serving_types.rs:430-476 | on a complete exchange the branch that collects, sorts and pairs any number of offers never fails and gives the hands and turn of the ranked exchange |
| GuandanFinalize.FinalizeTributeExchange | backend/src/guandan_serving_types.rs:344-479 | a complete exchange is finalized without error by every branch; an incomplete one is refused and left alone |
| GuandanFinalize.HandleReturn | backend/src/guandan_handler.rs:1746-1782 | an accepted return is recorded, and the last one finalizes the exchange; a refused one changes nothing |
| GuandanFinalize.HandleTribute | backend/src/guandan_handler.rs:1714-1744 | accepted exactly while a match is on and the submission is, with its effect; else nothing changes |
| GuandanConfluence.AcceptedTogether | backend/src/guandan_serving_types.rs:262-330 | a row of submissions is accepted exactly when each is acceptable on its own and the players differ |
| GuandanConfluence.OrderIrrelevant | backend/src/guandan_serving_types.rs:262-330 | the same submissions in any order are accepted alike and lead to states alike |
| GuandanConfluence.ExchangeConfluent | backend/src/guandan_serving_types.rs:262-479 | any order of the tribute submissions and then of the return submissions is accepted and ends in the very same finalized state |
| GuandanConfluence.ExchangeRestores | backend/src/guandan_serving_types.rs:262-479 | a whole exchange keeps all cards in play and gives every hand its size back |
| GuandanCompletion.ExchangeCompletable | backend/src/guandan_serving_types.rs:214-364 | some submissions complete an exchange if and only if, before the first, every giver holds a card that is no wildcard and every receiver one that may be returned |
| GuandanCompletion.StuckDeal | backend/src/guandan_serving_types.rs:244-260 | at every level two whole decks can be dealt to a table of four, 27 cards each, so that the next deal is accepted and opens an exchange that no submissions complete |
| GuandanNextRound.PlanIsWellFormed | core/src/guandan/tribute.rs:37-120 | every plan has as many distinct receivers as distinct givers, nobody both, and the receivers are the winners' team |
| GuandanTributeRules.PlanByPlaces | core/src/guandan/tribute.rs:37-120 | at a table of four the last pays the first, or after a double win the third and fourth pay the first and second in that order; at a larger one the second half pays the first if that is one team, else nobody |
| GuandanTributeRules.NextDealOwes | backend/src/guandan_handler.rs:1588-1634 | the next deal opens with what the places owe, unless those who owe it hold two big jokers between them, which is noted as resistance |
| GuandanTributeRules.DealExactly | backend/src/guandan_handler.rs:1588-1610 | exactly the last winner may start the deal, once the hands are shuffled and all seats of an even table but at most one have a place |
| GuandanNextRound.DealNextRound | backend/src/guandan_handler.rs:1588-1634 | accepted exactly for the last winner when a shuffled deal waits and the finish order fits the table; the tribute is set up or resisted, else nothing changes |
| GuandanNextRound.NextDealStarts | backend/src/guandan_handler.rs:1588-1634 | an accepted deal opens a proper tribute exchange or a proper deal |
| GuandanNextRound.ExchangeOpens | backend/src/guandan_serving_types.rs:344-479 | a completed exchange leads to a proper deal |
| GuandanNextRound.DealNeedsWholeOrder | core/src/guandan/tribute.rs:37-120 | awaiting the deal with a finish order of different seats, the winner can deal if and only if the order misses at most one seat of the table |
| GuandanNextRound.SettlementBlocksDeal | backend/src/guandan_handler.rs:1588-1634 | when the shuffle follows the settlement at once, the deal can be started if and only if fewer than two players were waiting or the table had no room for two more |
| GuandanNextRound.SwapSameTeamSeats | backend/src/guandan_serving_types.rs:159-186 | accepted exactly for two different seats of one team; every seat reference is remapped, else nothing changes |
| GuandanNextRound.SwapUndone | backend/src/guandan_serving_types.rs:137-186 | the same swap again restores the room |
| GuandanNextRound.SwapMovesSeats | backend/src/guandan_serving_types.rs:137-186 | a swap takes each seat's name, hand, drawn card, turn, places, trick and results along and changes no seat's team |
| GuandanLobby.HandleJoin | backend/src/guandan_handler.rs:1022-1071 | a new name is seated, waits (and is seated in pairs while a shuffle is awaited), restarts an abandoned room, or is refused when the room is full and nothing changes |
| GuandanLobby.HandleParticipation | backend/src/guandan_handler.rs:1225-1306 | an observer takes a seat or waits if there is room; before the start a player gives up a seat, later only a waiting place; else nothing changes |
| GuandanLobby.HandleBots | backend/src/guandan_handler.rs:1352-1379 | before the start the robots are replaced by one to three robots after the people, if they fit; else nothing changes |
| GuandanLobby.HandleReorder | backend/src/guandan_handler.rs:1391-1426 | accepted exactly before the start or while a shuffle is awaited, for a player who swaps with one of the same team; else nothing changes |
| GuandanLobby.InitializeNewMatch | backend/src/guandan_handler.rs:175-206 | a new match starts at level two with the dealt hands and nothing left of the match before, but for those waiting |
| GuandanLobby.HandleShuffle | backend/src/guandan_handler.rs:1519-1572 | accepted exactly when a shuffle is awaited, the seat is of the losing team and the positions are inside the deck; the hands are dealt and the deal waits for the winner, else nothing changes |
| GuandanLobbyRules.StartExactly | backend/src/guandan_handler.rs:1439-1475 | a match starts exactly with 4, 6, 8, 10, 12 or 14 players, all seated, before the first match or after a won one |
| GuandanLobbyRules.ShuffleExactly | backend/src/guandan_handler.rs:1519-1572 | exactly a player of the team that lost may shuffle, all cards or one moved inside a deck of 27 cards a player |
| GuandanLobbyRules.ReorderExactly | backend/src/guandan_handler.rs:1391-1426 | exactly two different seats of one team swap, at the wish of one of them, before the start or while a shuffle is awaited |
| GuandanLobbyRules.BotsExactly | backend/src/guandan_handler.rs:1352-1379 | one to three robots sit down behind all people exactly before the start and if all fit at fourteen seats |
| GuandanLobbyRules.JoinExactly | backend/src/guandan_handler.rs:1022-1071 | when joining is refused, restarts the room, or adds the name at the end of the row of those seated and waiting, which otherwise stays |
| GuandanLobbyRules.ParticipationExactly | backend/src/guandan_handler.rs:1225-1306 | when taking part is refused, and how the row of those seated and waiting changes by one name |
| GuandanLobbyRules.HistoryWellSeated | backend/src/guandan_handler.rs:1000-1887 | in every history of a room each name has one place, seated or waiting, there are never more than fourteen, and nobody waits before the start |
| GuandanLife.HandleStart | backend/src/guandan_handler.rs:1439-1487 | accepted exactly for an even table of four to fourteen whose players are all seated, before the start or after a match is won; then the new match followed by the robots' turns, else nothing changes |
| GuandanLife.Handle | backend/src/guandan_handler.rs:1000-1887 | every message either has the effect of its event, or is refused without effect exactly when the event cannot happen; the room stays in one of its states |
| GuandanLife.EventKeeps | backend/src/guandan_handler.rs:1000-1887 | every event leads from a proper state of a room to a proper state: not started, playing, in an exchange, between deals, or with the match won |
| GuandanLife.HistoryKeeps | backend/src/guandan_handler.rs:1000-1887 | every state of every history of a room is proper |
| GuandanLife.EndRoundNeverAccepted | backend/src/guandan_handler.rs:1848-1876 | no state of any history that starts with the empty room accepts the command to end a round by hand |
| GuandanLife.DealUnlessBlocked | backend/src/guandan_handler.rs:1588-1634 | once the hands of a settled deal are shuffled, the winner can start the next one if and only if the finish order misses at most one seat |
| GuandanLife.JoinBlocks | backend/src/guandan_handler.rs:1039-1057 | someone who joins while the shuffle is awaited blocks the next deal if and only if somebody else is waiting already |
| GuandanLife.LateJoinBlocks | backend/src/guandan_handler.rs:1039-1057 | at a table of four with one player waiting the settlement leaves the next deal open and the next join blocks it |
| GuandanLife.BlockedForever | backend/src/guandan_handler.rs:1000-1887 | a blocked deal stays blocked through every history in which the room is never abandoned: no join, leave, swap or shuffle restores it |
| GuandanLife.JammedForever | backend/src/guandan_serving_types.rs:244-330 | an exchange in which someone owes a card and holds none to give stays so through every history in which the room is never abandoned, and play never begins |
| GuandanLife.StuckDealJams | backend/src/guandan_serving_types.rs:244-330 | at every level the dealt table of `StuckDeal` is jammed from the start of its exchange |

## Left out

- GuandanHint.HandCanBeat: exact except on the overlooked hands, which is what the code does; hands and tables are at most 2^32 - 1 cards, the longest array of the language.
- GuandanSuggest.FindSuggestedIndexes: among candidates of equal score the code takes the first; the groups of seven or more are tried in the order their ranks first occur in the hand, the model tries them by rank, so which of several equally good plays is shown is not claimed.
- GuandanServer.ComparisonsAgree: for strengths of plays of at most 2^32 - 1 cards; from 2^53 cards on the largest number that stands for the joker bomb differs between the two languages.
- GuandanServer.ServerAcceptsAlike: likewise for plays of at most 2^32 - 1 cards.
- GuandanRobots.RobotPlayCandidates: the order of the candidates, which decides between equally good choices, follows the ranks as the code's ordered map does but is not claimed.
- MultisetIter.Collect: k = 0 is excluded; there the code's iterator fails on its first call, and the search never asks for it.
- Order of assignments from the format search: it depends on the iteration order of maps; what is yielded, and that nothing is yielded twice, does not.
- Termination of a deal: a leader may pass on an empty table any number of times, so none is claimed. The same holds for auctions with take-backs or with equivalent reinforcement.
- Bidding: the first and winning bid of a finished auction are not modelled.
- Randomness: the shuffle and the deal are any hands, the starting seat is any seat; the delay of robots has no effect on the state.
- Rooms: the list of observers, the card-count alert, storage, versions, messages and connections; whether anyone is still connected and whether a name observes are parameters of the events.
- Rendering, card order on screen, texts, timers and the other React components.
- The scoring, setup and trick rules of Tractor, and the settings of both games.
- GuandanServer.InterpretersAgree: the server's rules are functions of the cards here; the arrays and loops in which it looks for main ranks are not.
