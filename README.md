# Pouilleux rules engine, modelled in Dafny

This is a Dafny model of the rules engine of *Pouilleux*, the French Old Maid card game. The deck has 51
cards: the Jack of Clubs, the "pouilleux", is left out. Players repeatedly draw a card from their left
neighbour and throw away pairs of the same rank and colour. The player left holding cards at the end loses.

The model covers:
- the cards and the deck;
- the hand operations of a player;
- the seven move strategies, the human one included;
- the turn engine with its in-memory history and its replay file;
- the in-memory scoreboard;
- the replay file format, and how the replay viewer cuts that file back into steps.

## Modules

- **Cards** (`cards.dfy`): a card is a rank and a suit, the colour rule (`sameColor`), and the text form
  of a card and of a list of cards.
- **Hands** (`hands.dfy`): hands as sequences of cards. It defines filters by rank and colour,
  `removeAll` (`Without`), `remove(i)` (`RemoveAt`), and the three sort keys.
- **Sorting** (`sorting.dfy`): a stable insertion sort by an integer key. It models `List.sort`, which is
  stable.
- **Pairs** (`pairs.dfy`): what `purgePairs` removes. It goes through the rank groups in a given order. In
  each group, a card whose colour has not been done yet is removed together with its first later mate.
- **Decks** (`decks.dfy`): the `Deck` class. Its constructor builds the 51-card order, `Shuffle` follows
  `Collections.shuffle`'s swaps, and `Deal` deals round-robin.
- **Strategies** (`strategies.dfy`): every strategy as a function on the two hands involved, with the
  lemmas that state what each strategy promises.
- **Players** (`players.dfy`): the `Player` class, whose hand is a mutable field. It holds the strategy
  methods as the Java code runs them, one mutation after another, each proved equal to its function in
  Strategies. The human's action queue is an `ActionQueue` object.
- **States** (`states.dfy`): `GameState` and `PlayerSnapshot` records.
- **Games** (`games.dfy`): the `Game` class and its fields:
  - `currentIndex`, `stepCounter` and the history;
  - the cyclic search for the next player holding cards;
  - phase one (`start`), `nextTurn`, `isGameOver` and `getLoser`.
- **ReplayLogs** (`replay_logs.dfy`): the next-game-number rule computed from existing file names, the
  file name, and the lines of the header, of each step and of the trailer. It also holds the
  `ReplayLogger` class, which collects those lines.
- **Replays** (`replays.dfy`): `parseSteps` and `showStep` of the replay viewer, and the round trip from
  logger output back to step blocks.
- **Scoreboards** (`scoreboards.dfy`): the loss counts, their mirror in the properties object, integer
  filtering on load, and the sorted standings.
- **Text** (`text.dfy`): decimal printing, `Integer.parseInt` on ASCII text, and 32-bit increment.
- **Wrappers** and **Arith** (`wrappers.dfy`, `arith.dfy`): `Option`/`Result` and two facts on `%`.

## Inputs that the Java code draws itself

Every random choice is an explicit argument:
- the draw index, reduced modulo the size of the neighbour's hand;
- the initial `currentIndex`, reduced modulo the number of players;
- the option of the mixed strategy, reduced modulo 3;
- each number the shuffle asks for.

The iteration order of the `HashMap` over rank groups in `purgePairs` is also an argument: a sequence of
ranks, completed to a list of all 13 ranks. Properties of what `purgePairs` removes are stated per rank and
colour, or as multisets, so they hold whatever that order is.

Other inputs:
- Time stamps and the time text are opaque strings.
- The directory listing of the replay folder is a sequence of file names.
- The blocking queue of the human player is a sequence of actions, consumed from the front. A queue that
  runs out stands for the interrupted `take()`.

## Where the model follows the code rather than its documentation

- The replay header is the title line followed by one blank line: `ReplayLogger.java:54-57` writes the
  title and then two line breaks, which is one empty line in the file (`ReplayLogs.Header`).
- The doc comment of `RandomDrawStrategy` says that it purges nothing. It does purge when the hand
  holds a pair after the draw, and then reports nothing. `Strategies.RandomDrawLosesPurge` states this
  behaviour.
- `start` purges every player, human players included. The loser is the first player in seat order
  who still holds cards.

## Model

| member | source | states |
|---|---|---|
| Cards.SameColorIsEquivalence | src/core/model/Card.java:33-38 | sameColor is reflexive, symmetric and transitive; two cards have the same colour exactly when both suits are red (hearts, diamonds) or both black |
| Cards.CardStringInjective | src/core/model/Card.java:64-66 | toString ("RANK of SUIT") tells every two cards apart: equal strings mean equal cards |
| Cards.RankOfName | src/core/model/Card.java:64-66 | reading a rank name back gives the rank whose name it is, and nothing for any other text |
| Cards.SuitOfName | src/core/model/Card.java:64-66 | reading a suit name back gives the suit whose name it is, and nothing for any other text |
| Cards.CardStringShape | src/core/model/Card.java:64-66 | the text of a card is its rank name, the separator " of ", then its suit name; the rank part holds no space |
| Decks.Deck.constructor | src/core/model/Deck.java:19-33 | the nested suit/rank loops leave the cards in the order of NewDeck: suits outside, ranks inside, the Jack of Clubs skipped |
| Decks.NewDeckSizeAndDistinct | src/core/model/Deck.java:19-33 | a new deck has exactly 51 cards and no card twice |
| Decks.NewDeckMembers | src/core/model/Deck.java:19-33 | a card is in the new deck exactly when it is not the Jack of Clubs |
| Decks.JackOfSpadesNeverPurged | src/core/model/Deck.java:22-24 | with the Jack of Clubs out of play, the Jack of Spades has no mate: purgePairs never removes it, and a hand holding it keeps it |
| Decks.Deck.Shuffle | src/core/model/Deck.java:38-40 | shuffling keeps the size and the multiset of the deck: the result is a permutation |
| Decks.Swap | src/core/model/Deck.java:38-40 | one step of the shuffle exchanges two positions, leaves every other position alone and keeps the multiset |
| Decks.Deck.Deal | src/core/model/Deck.java:49-61 | fewer than two players is the IllegalArgumentException; otherwise the hands are those of Dealt and the deck is left unchanged |
| Decks.HandOfPlace | src/core/model/Deck.java:53-60 | the card at deck index i is card i / p of hand i % p, so each hand keeps deck order |
| Decks.HandOfSize | src/core/model/Deck.java:53-60 | hand h gets size / p cards, plus one when h is below size % p |
| Decks.DealtSizes | src/core/model/Deck.java:57-59 | two dealt hands differ in size by at most one, the earlier hand being the larger |
| Decks.DealtUnion | src/core/model/Deck.java:57-59 | the multiset union of the dealt hands is the deck |
| Decks.Deck.GetCards | src/core/model/Deck.java:68-70 | returns the cards currently in the deck |
| Players.Player.constructor | src/core/model/Player.java:17-21 | a player starts with the given name, hand and strategy |
| Players.Player.GetHand | src/core/model/Player.java:27-29 | returns the cards of the hand, as a value that later moves cannot change |
| Players.Player.SetHand | src/core/model/Player.java:32-35 | the hand becomes exactly the given cards |
| Players.Player.HasPairs | src/core/model/Player.java:44-58 | the double loop answers true exactly when two cards of the hand have the same rank and colour |
| Pairs.HasPairByRank | src/core/model/Player.java:44-58 | a hand has a pair exactly when, for some rank and colour, it holds at least two cards of that rank and colour |
| Pairs.HasPairByGroups | src/core/model/Player.java:44-58 | a hand has a pair exactly when some rank group holds two cards of one colour |
| Players.PurgeGroup | src/core/model/Player.java:78-98 | the red/black flag loop over one rank group removes what GroupPurge describes |
| Players.Player.PurgePairs | src/core/model/Player.java:66-103 | the returned list is PurgeList of the old hand; the new hand is the old one with those cards removed, in the same relative order |
| Pairs.PurgeByRankColor | src/core/model/Player.java:78-98 | for each rank and colour, the purge removes the first two cards of that rank and colour when there are at least two, and none otherwise, so at most one pair per rank and colour |
| Pairs.PurgePaired | src/core/model/Player.java:78-98 | the removed list is a sequence of consecutive pairs, each taken from the hand |
| Pairs.GroupPurgeColor | src/core/model/Player.java:78-98 | within one rank group, the removed cards of each colour are the first two of that colour in the group |
| Pairs.SweepColor | src/core/model/Player.java:78-98 | the outer loop, run from index i with its two flags, removes the first two remaining cards of each colour whose flag is not yet set |
| Pairs.GroupOrderHasEach | src/core/model/Player.java:73-78 | whatever order the groups come in, every rank is visited exactly once |
| Pairs.PurgeSubMultiset | src/core/model/Player.java:100-102 | the removed cards are a sub-multiset of the hand |
| Pairs.PurgeBalance | src/core/model/Player.java:100-102 | on a hand without duplicates, the kept cards and the removed cards together are the old hand, and the size drops by exactly the number removed |
| Pairs.PurgeEmptyIff | src/core/model/Player.java:69-71 | the purge removes nothing exactly when the hand has no pair; an empty hand is one such case |
| Pairs.PurgeLeavesNoPair | src/core/model/Player.java:78-98 | on a hand of distinct cards, no pair is left after the purge |
| Pairs.PurgeLeavesAtMostOne | src/core/model/Player.java:78-98 | on a hand of distinct cards, at most one card of each rank and colour is left after the purge |
| Players.Player.DrawFrom | src/core/model/Player.java:108-117 | an empty neighbour gives the IllegalStateException with its message and changes nothing; otherwise exactly the card at the chosen index moves from the neighbour's hand to the end of this hand, also when both are the same player |
| Strategies.DrawMovesOneCard | src/core/model/Player.java:108-117 | a draw from a non-empty hand adds the drawn card to the mover and takes exactly it from the neighbour |
| Players.Player.ReceiveCards | src/core/model/Player.java:123-126 | appends the given cards in order and changes nothing else |
| Players.Player.TakeTurn | src/core/model/Player.java:131-134 | the player's strategy runs on this hand and the neighbour's, with the effect and the result of Play |
| Players.Player.SortHandByRank | src/core/model/Player.java:139-143 | the hand becomes a permutation of itself, ordered by (rank, suit) |
| Players.Player.SortHandBySuit | src/core/model/Player.java:146-150 | the hand becomes a permutation of itself, ordered by (suit, rank) |
| Players.Player.SortHandByColor | src/core/model/Player.java:155-159 | the hand becomes a permutation of itself, reds before blacks and then by rank, and cards with equal keys keep their order |
| Hands.KeysAgreeWithComparators | src/core/model/Player.java:139-159 | each integer sort key orders two cards exactly as the Java comparator does; the rank and suit keys tell cards apart, and the colour key is equal only for mates |
| Sorting.SortByPermutesAndSorts | src/core/model/Player.java:139-159 | the sort returns a permutation of its input that is ordered by the key |
| Sorting.SortByStable | src/core/model/Player.java:155-159 | for every key value, the elements with that key appear in their original order |
| Players.MakeMove | src/core/model/MoveStrategy.java:19 | the dispatch over the strategy datatype has the effect on both hands and the result that Play describes for that strategy |
| Players.DrawThenPurgeMakeMove | src/core/model/DrawThenPurgeStrategy.java:11-16 | drawFrom then purgePairs on the player objects has the effect and the result of DrawThenPurgeMove |
| Strategies.DrawThenPurgeBalance | src/core/model/DrawThenPurgeStrategy.java:11-16 | with a non-empty neighbour: the returned list is the purge of the hand after the draw; the kept hand plus the returned list is the old hand plus the drawn card; no pair is left |
| Players.PurgeThenDrawMakeMove | src/core/model/PurgeThenDrawStrategy.java:11-17 | purgePairs then drawFrom on the player objects has the effect and the result of PurgeThenDrawMove |
| Strategies.PurgeThenDrawBalance | src/core/model/PurgeThenDrawStrategy.java:11-17 | the returned list is the purge of the hand before the draw; the drawn card comes last, after a hand without pairs; kept plus returned is the old hand plus the drawn card |
| Players.RandomDrawMakeMove | src/core/model/RandomDrawStrategy.java:12-20 | drawFrom then the conditional purge has the effect and the result of RandomDrawMove |
| Strategies.RandomDrawLosesPurge | src/core/model/RandomDrawStrategy.java:12-20 | the returned list is always empty, yet the hand after the move is the purged hand: the purged cards leave play unreported, and the kept hand plus those cards is the old hand plus the drawn card |
| Players.MixedRandomMakeMove | src/core/model/MixedRandomStrategy.java:11-24 | has the effect and the result of the option the choice index selects |
| Strategies.MixedRandomIsOneOption | src/core/model/MixedRandomStrategy.java:22-23 | the mixed strategy is exactly RandomDraw, PurgeThenDraw or DrawThenPurge, as the choice index is 0, 1 or 2 modulo 3 |
| Players.ColorAwareMakeMove | src/core/model/ColorAwareStrategy.java:18-56 | the purge, the colour split, receiveCards, the draw and the second purge on the player objects have the effect and the result of ColorAwareMove |
| Strategies.ColorAwareIsSplitThenDrawThenPurge | src/core/model/ColorAwareStrategy.java:18-56 | the bluff is a first purge whose majority-colour part is returned and whose other part goes back into the hand, followed by DrawThenPurge; red is the majority only with strictly more red than black cards after the first purge |
| Strategies.ColorAwareSplit | src/core/model/ColorAwareStrategy.java:35-46 | the cards put back plus the majority part returned are exactly the old hand, and no card is duplicated |
| Strategies.ColorAwareBalance | src/core/model/ColorAwareStrategy.java:25-53 | the returned list is the majority-colour cards of the first purge followed by the second purge; the neighbour loses exactly the drawn card; kept plus returned is the old hand plus the drawn card |
| Players.PurgeRedThenDrawMakeMove | src/core/model/PurgeRedThenDrawStrategy.java:16-53 | the two purges, the put-backs and the draw on the player objects have the effect and the result of PurgeRedThenDrawMove |
| Strategies.PurgeRedThenDrawBalance | src/core/model/PurgeRedThenDrawStrategy.java:23-52 | the returned list is the red part of the first purge followed by the black part of the second; the black part of the first and the red part of the second are back in the hand; kept plus returned is the old hand plus the drawn card |
| Strategies.ComputerDrawsOnce | src/core/model/MoveStrategy.java:19 | every computer strategy fails exactly when the neighbour is empty, otherwise takes exactly one card at the drawn index from the neighbour, and leaves the action queue alone |
| Strategies.PurgedFacts | src/core/model/Player.java:66-103 | purging a fair table (no card twice) keeps the multiset split between hand and removed list, and leaves no pair in the hand |
| Players.HumanMakeMove | src/core/gui/HumanStrategy.java:82-109 | the take/switch loop on the player objects and the queue has the effect and the result of HumanLoop, and leaves in the queue what HumanLoop leaves |
| Players.ActionQueue.Take | src/core/gui/HumanStrategy.java:86 | takes the action at the front of the queue; an exhausted queue gives none |
| Strategies.HumanLoopConsumes | src/core/gui/HumanStrategy.java:85-98 | actions are consumed in order through the first END_TURN, and the actions after it are left |
| Strategies.HumanMoveProperties | src/core/gui/HumanStrategy.java:82-109 | the queue is consumed through the first END_TURN; the returned list, the hand and the neighbour together hold the cards held before; the neighbour is unchanged or has lost exactly the drawn card; without END_TURN (the interrupted take) nothing is drawn and the move succeeds |
| Strategies.HumanLoopBalance | src/core/gui/HumanStrategy.java:83-98 | from any accumulated list, the cards of the hands and of the returned list are those held before plus those already removed |
| Strategies.PlayFailsOnlyOnEmpty | src/core/model/MoveStrategy.java:19 | whichever strategy runs, the move fails only when the neighbour holds no card |
| Games.NewGame | src/core/model/Game.java:27-42 | fewer than two players is the IllegalArgumentException "Need at least two players"; otherwise the game starts with every player, history kept exactly when asked, the given replay logger and its lines so far as the text before the states, currentIndex inside the seats, stepCounter 0 and nothing recorded |
| Games.Game.constructor | src/core/model/Game.java:27-42 | a game keeps the players, the history flag and the logger; currentIndex is the seed reduced to a seat; nothing is recorded yet |
| Games.Game.Start | src/core/model/Game.java:45-50 | each player in seat order purges once; the hands become AfterPurges of the old hands, and exactly one state per player is recorded, with consecutive step numbers from the old counter; the replay logger stays open or closed as it was |
| Games.StartLeavesNoPair | src/core/model/Game.java:45-50 | after phase one, no hand of distinct cards holds a pair |
| Games.Game.InitialPurge | src/core/model/Game.java:46-49 | one pass of the start loop turns the state after i purges into the state after i + 1 purges and keeps the replay logger's closed flag |
| Games.Game.RecordState | src/core/model/Game.java:96-110 | appends one state with the current step number and copies of every hand, leaving the hands and the current index alone |
| Games.Game.Commit | src/core/model/Game.java:96-110 | the state is numbered with the counter, the counter moves on, the history grows only when it is kept, the hands are untouched, and an open logger gets the state's lines while a closed one keeps its file as it was |
| Games.Game.FindNextActive | src/core/model/Game.java:120-129 | the loop over the distance d returns NextActive of the hands |
| Games.NextActiveFinds | src/core/model/Game.java:120-129 | the search returns the start exactly when every other hand is empty; otherwise it returns the first seat after the start, cyclically, whose hand is not empty |
| Games.GameOverIff | src/core/model/Game.java:80-82 | the game is over exactly when no two different players both hold cards |
| Games.Game.IsGameOver | src/core/model/Game.java:80-82 | true exactly when at most one player holds cards |
| Games.TwoActiveSeats | src/core/model/Game.java:63-74 | while the game is not over, the acting seat holds cards, and its neighbour is a different seat that holds cards too |
| Games.Game.NextTurn | src/core/model/Game.java:58-78 | when the game is over, it returns false and changes nothing; otherwise the acting player and the neighbour are two different players holding cards, only their two hands change as the strategy prescribes, and exactly one state is recorded; in both cases the replay logger's closed flag is kept; the "Game over" branch is never reached |
| Games.Game.ActiveTurn | src/core/model/Game.java:63-76 | past the game-over check: the acting seat is the next active one after the old current seat, its neighbour is the next active one after that, both hold cards and differ, and the turn is taken as TurnTaken describes; the replay logger's closed flag is kept |
| Games.Game.PlayTurn | src/core/model/Game.java:63-74 | the current seat becomes cur; takeTurn then recordState: the two hands change as Play describes and one state is recorded with the new hands; the replay logger's closed flag is kept |
| Games.Game.GetLoser | src/core/model/Game.java:84-87 | empty until the game is over; then the lowest-seat player who still holds cards, or empty when nobody does |
| Games.FirstHolding | src/core/model/Game.java:86 | the first player in seat order whose hand is not empty, if any |
| Games.Game.GetHistory | src/core/model/Game.java:89-93 | the recorded states when history is kept, and the empty list otherwise |
| Games.ReplayOfGame | src/core/model/Game.java:96-110 | the replay file a game writes and then closes cuts back into the header block and one block per recorded state; a logger handed over already closed keeps only its header |
| Games.HandsOf | src/core/model/Game.java:100-102 | the hands of all players, seat by seat, as values |
| Games.Snapshots | src/core/model/Game.java:100-102 | one snapshot per player, with that player's name and hand |
| ReplayLogs.GameNumberGroup | src/core/persistence/ReplayLogger.java:26-27 | a name that matches the pattern yields its digit group, and the name is exactly the prefix, the group, '_', a line-terminator-free middle and ".log" |
| ReplayLogs.GameValue | src/core/persistence/ReplayLogger.java:37-44 | a non-matching name yields nothing; a matching one yields parseInt of its group, which fails exactly when the group is beyond the int range |
| ReplayLogs.HighestGame | src/core/persistence/ReplayLogger.java:37-44 | fails exactly when some matching name has an unparsable group; otherwise it is at least every game number found, and it is one of them unless it is 0 |
| ReplayLogs.NextGameIsNew | src/core/persistence/ReplayLogger.java:37-44 | the next game number is larger than every existing one unless the maximum is the largest int, when it wraps to the smallest |
| ReplayLogs.FirstGame | src/core/persistence/ReplayLogger.java:37-44 | with no matching name, the first game is number 1 |
| ReplayLogs.FileNameRoundTrip | src/core/persistence/ReplayLogger.java:47-49 | the file name made for game n matches the pattern and gives n back |
| ReplayLogs.OpenLogger | src/core/persistence/ReplayLogger.java:32-58 | the logger gets the next game number, its file name and the header lines, or the NumberFormatException when a name has an unparsable group |
| ReplayLogs.ReplayLogger.constructor | src/core/persistence/ReplayLogger.java:47-57 | a new logger holds the header of game n and is open |
| ReplayLogs.StateLines | src/core/persistence/ReplayLogger.java:61-74 | one state is written as its STEP line, one line per snapshot in order, and an empty line: two lines more than there are snapshots |
| ReplayLogs.ReplayLogger.LogState | src/core/persistence/ReplayLogger.java:61-74 | on an open writer, appends exactly the lines of the state; on a closed one the caught IOException leaves the file unchanged |
| ReplayLogs.ReplayLogger.Close | src/core/persistence/ReplayLogger.java:99-103 | the first close appends the one trailer line and closes the writer; a second close throws the "Stream closed" IOException and writes nothing |
| Replays.ReplayView.ParseSteps | src/core/gui/ReplayPanel.java:122-134 | the steps are Blocks of the lines, and currentStep is 0 |
| Replays.BlocksFlatten | src/core/gui/ReplayPanel.java:122-134 | the parsed steps, joined together, are the input lines |
| Replays.BlocksPartition | src/core/gui/ReplayPanel.java:126-132 | every step is non-empty, every step after the first starts with "STEP ", and no other line of a step does |
| Replays.BlocksUnique | src/core/gui/ReplayPanel.java:126-132 | the parse is the only cutting of the lines into such steps |
| Replays.ReplayRoundTrip | src/core/gui/ReplayPanel.java:122-134 | parsing the logger's output gives the header block, then one block per state, with the trailer in the last block |
| Replays.JoinSplit | src/core/gui/ReplayPanel.java:141 | lines without line breaks, joined with "\n" and cut at every "\n", come back unchanged |
| Replays.ReplayView.ShowStep | src/core/gui/ReplayPanel.java:137-145 | an index out of range changes nothing; otherwise currentStep becomes the index, the text is that step's lines joined with "\n", "prev" is enabled exactly when the index is above 0 and "next" exactly when it is below the last |
| Replays.ReplayView.constructor | src/core/gui/ReplayPanel.java:30-65 | a viewer starts with no steps at step 0, an empty text area and both navigation buttons enabled, as new buttons are |
| Scoreboards.Scoreboard.constructor | src/core/persistence/Scoreboard.java:46-62 | loading keeps exactly the properties whose value parses as an int, each under its name, and skips the rest |
| Scoreboards.Scoreboard.RecordLoss | src/core/persistence/Scoreboard.java:26-32 | the name's count becomes its old count (0 when absent) plus one, with Java int wrap-around; every other count is unchanged; the property holds the new count in decimal, and the file is rewritten |
| Scoreboards.Put | src/core/persistence/Scoreboard.java:28-29 | Map.put: the name maps to the value, every other name keeps its entry, and names stay unique |
| Scoreboards.Scoreboard.Standings | src/core/persistence/Scoreboard.java:37-42 | the standings are a permutation of the entries, sorted by loss count from most to fewest |
| Scoreboards.StandingsEntries | src/core/persistence/Scoreboard.java:37-42 | the standings hold one entry per name, carrying exactly that name's count, in non-increasing order of losses |
| Scoreboards.Scoreboard.Clear | src/core/persistence/Scoreboard.java:88-94 | only the file is deleted; the counts and the properties are unchanged |
| Text.ParseInt | src/core/persistence/Scoreboard.java:53 | Integer.parseInt: one or more digits, alone or after a '+' or '-' sign, give their value (negated after '-') when it is an int; empty text, a lone sign, a non-digit or a value out of range is the NumberFormatException |
| Text.ParseIntToString | src/core/persistence/Scoreboard.java:30 | the decimal text written for an int parses back to it |
| Text.Inc32 | src/core/persistence/Scoreboard.java:28 | adding one to a Java int: one more, except that the largest int wraps to the smallest |
| Text.NatToStringValue | src/core/persistence/Scoreboard.java:30 | the decimal digits of a number denote that number |

## Left out

- Swing layout, buttons, repainting, the caret position and the refresh callback of the human strategy
  are GUI and not part of this model.
- Threads, `Thread.sleep`, `invokeLater`, and the `BlockingQueue` as an object: the queue is a sequence
  of actions consumed from the front.
- Sound, settings and `Main` are outside the rules engine.
- File and OS I/O is not modelled: creating the replay directory, listing it, writing, flushing and
  closing the writer, reading a replay file, streaming the scoreboard file, and `imagePath`'s file check.
  The replay file is the sequence of lines the writer would produce. The scoreboard file is a map that is
  present or absent.
- `Card.imagePath` is a function of rank and suit and is not kept. `setName` is not modelled: names are
  constant in the model.
- The properties file syntax (escapes, comments) is not modelled; the file is the map it denotes.
- Printing `IOException` warnings to `System.err` is not modelled.
- `LocalDateTime.now()`: times and time stamps are opaque strings given as arguments.
- `Random`, `ThreadLocalRandom` and `StrategyFactory`'s random pick are replaced by explicit arguments.
- The `HashMap` group order of `purgePairs` is one rank order argument per call of a strategy. Both
  purges of the two-purge strategies, and all purges of one human turn, use the same order. Java may visit
  the groups in different orders in different calls.
- `Integer.parseInt` accepts only ASCII digits here. Java also accepts digits of other scripts, which
  the replay file name pattern never produces but a hand-edited scoreboard file could.
- Games.Game.constructor: requires distinct player objects. Java accepts a list holding the same player
  twice.
- Games.Game.constructor: the one-argument constructor is `NewGame` with history kept and no logger.
- Games.Game.Commit: `stepCounter` is an unbounded integer. Java wraps it after 2^31 - 1 steps, which no
  game of 51 cards reaches.
- Games.Game.NextTurn: the "Game over" branch and its `recordState` are proved unreachable. They are
  asserted away rather than modelled.
- `getAllTablePairs`, which the game panel calls, does not exist in the game engine and is not modelled.
  No ghost table of the pairs returned by `takeTurn` is kept.
- Replays.ReplayView.ParseSteps: builds the new steps in a local sequence and assigns them at the end,
  where Java clears the list first and adds to it. The resulting state is the same.
- Replays.ReplayRoundTrip: holds for the lines as written. `readAllLines` would also split a
  description or name that contains a line break; JoinSplit covers only lines without `\n`.
- Strategies.HumanMoveProperties: does not state on its own that END_TURN draws exactly when the hand is
  not empty. `HumanLoop` does this, and `HumanLoopBalance` bounds what the neighbour loses.
- Decks.Deck.Shuffle: states a permutation, not the uniform distribution of `Collections.shuffle`.
