# Solitaire core in Dafny

A model of the game logic of `solitaire.c`, a terminal patience game played
with 26 cards: the thirteen ranks in black and in red. The board has seven
piles:
- pile 0 is the draw pile;
- piles 1 to 4 are the tableau piles;
- piles 5 and 6 are the deposit piles.

In the source every pile is a doubly linked list of nodes. Each node holds a
card id and a face-up flag. Card id `c` has rank `c / 2` (0 is the ace, 12 the
king) and colour `c % 2` (0 is black, 1 is red).

The model keeps the board as an `array<Pile>`, with `Pile = seq<Entry>` read
from head to tail. The list primitives and the game operations are methods
that update that array in place. Each method is proved against a function on
pile values, and the properties of the game are lemmas about those functions.

The modules follow the structure of the program:
- `Values`: the return codes of the game and an `Option` type.
- `Cards`: card ids, `twoCardsInOrder` and `strToCard`.
- `Piles`: `pop`, `append`, `push` and `rotateDrawstack`, and the multiset of
  cards on a board.
- `Validator`: `searchCard`, `checkOrder` and `checkMove`.
- `Executor`: `move`, and deposit piles built up as foundations.
- `Dealer`: `readConfig` (from the words of the configuration file) and
  `arrangeCards`, with the opening position they produce.
- `Commands`: `moveCommand` (with `strtol` and its narrowing to `int`),
  `handleCommand`, the return rule of `printHelp`, the win test and the end
  of the game loop.

Where the intended rules of the game and the code disagree, the model follows
the code and proves what the code does:
- The table meant to reject duplicate cards in `readConfig` is never
  updated, so duplicates are accepted (`Dealer.DuplicatesAccepted`).
- A rank word that names no rank is accepted. `strToCard` then leaves the
  card variable alone, and that variable was post-incremented after the
  previous append (`Dealer.UnknownRanksCountUp`). In a MOVE command the card
  stays at its initial 0, the black ace (`Commands.UnknownRankMovesBlackAce`).
- A move onto the card's own pile is reported as MOVED and changes nothing.
  It is still refused when the run above the card is not in order for that
  pile (`Commands.MoveDecision`, `Validator.CheckMove`).
- NEXT on an empty draw pile pushes the 0 that `pop` returns for an empty
  list, so a face-down black ace appears (`Commands.NextOnEmptyDrawPile`).

## Model

| member | source | states |
|---|---|---|
| Cards.TwoCardsInOrder | solitaire.c:231-245 | on a tableau pile a card lies on one of the other colour and strictly higher rank; on a deposit pile it lies on the card of the same colour one rank lower |
| Cards.RankIndex | solitaire.c:758-773 | the position found names the rank word and is the first that does; no position is found when no rank has that name |
| Cards.ColorBit | solitaire.c:761-770 | only BLACK and RED are colours, BLACK being bit 0 and RED bit 1 |
| Cards.ParseCardMeaning | solitaire.c:756-775 | an unknown colour is INVALID_COMMAND and any known colour EVERYTHING_OK; a card is written exactly when the colour and the rank are both known, and it has that rank and colour |
| Cards.StrToCard | solitaire.c:756-775 | the colour check and the search of the rank table give the return value and the written card that ParseCard describes |
| Piles.Pop | solitaire.c:846-867 | the array changes only at pile i: its tail is removed and returned with the new tail face-up; an empty pile gives 0 and stays empty |
| Piles.Append | solitaire.c:877-894 | the array changes only at pile i, which gains a face-up tail; in draw-pile mode the previous tail turns face-down |
| Piles.Push | solitaire.c:904-916 | the array changes only at pile i, which gains a face-down head |
| Piles.RotateDrawstack | solitaire.c:191-194 | the array changes only at pile i, which becomes the pop of it followed by a push of the popped card |
| Piles.PopKeepsOnlyTailFaceUp | solitaire.c:846-867 | popping a pile that shows only its tail removes one card, keeps the cards below it in order, and still shows only the tail |
| Piles.RotateKeepsCards | solitaire.c:191-194 | rotating a non-empty pile keeps its length and its cards; rotating an empty pile makes a face-down card 0 |
| Piles.RotateShowsNext | solitaire.c:191-194 | rotating a draw pile of two or more cards that shows only its tail moves the tail face-down to the head and shows the card that was below it |
| Piles.RotateHidesLoneCard | solitaire.c:191-194 | a draw pile of one card is rotated into that card face-down |
| Piles.AppendPlain | solitaire.c:877-894 | outside draw-pile mode, append adds a face-up tail and leaves every other entry as it was |
| Piles.AppendDrawShowsOnlyTail | solitaire.c:877-894 | in draw-pile mode, append keeps "only the tail is face-up" and adds the card after the others |
| Piles.SeededShape | solitaire.c:813-829 | appending ids one by one in draw-pile mode to an empty pile gives exactly those ids, with only the last face-up |
| Piles.TransferKeepsCards | solitaire.c:388-411 | replacing two piles by two others holding the same cards between them keeps the multiset of cards on the board |
| Validator.FindInPile | solitaire.c:297-309 | the position found is among the first BOARD_SIZE, shows the card face-up and is the first that does; none is found only when no searched position shows it |
| Validator.Locate | solitaire.c:293-311 | the pile found is the first whose search succeeds, with the position that search reports |
| Validator.LocateMeaning | solitaire.c:289-312 | the search fails exactly when no pile shows the card face-up among its first BOARD_SIZE entries; otherwise it reports the first such place in (pile, position) order |
| Validator.SearchCard | solitaire.c:289-312 | the pile-by-pile walk, which stays on the tail once it reaches it, finds the card exactly where Locate does |
| Validator.CheckOrder | solitaire.c:257-276 | the result is true exactly when every card from the given position to the tail lies in order on the one below it, for the destination pile |
| Validator.TableauRunFalls | solitaire.c:257-276 | a run in order for a tableau pile has strictly falling ranks and alternating colours |
| Validator.DepositRunClimbs | solitaire.c:257-276 | a run in order for a deposit pile climbs one rank at a time in one colour |
| Validator.CheckMove | solitaire.c:326-360 | the move is valid exactly when MoveCheck accepts it, and the place it reports is where the card lies |
| Validator.MoveCheckMeaning | solitaire.c:326-360 | an accepted move names the first face-up match of the card in (pile, position) order, which lies outside the deposit piles with its run in order; an empty tableau pile takes only a king, an empty deposit pile only an ace, and any other pile only a card that fits on its tail, unless it is the card's own pile |
| Validator.MoveCheckComplete | solitaire.c:326-360 | every move meeting those conditions is accepted, at the place the search reports |
| Executor.Move | solitaire.c:373-413 | a position past the tail is UNIDENTIFIED_ERROR and changes nothing; otherwise the result is MOVED and the board is MoveRun of the old board |
| Executor.MoveKeepsCards | solitaire.c:373-413 | a move neither creates nor destroys cards |
| Executor.MoveShape | solitaire.c:373-413 | the source keeps exactly the entries below the run, all unchanged except its new tail, which turns face-up; the destination is its old pile followed by the run; every other pile is unchanged |
| Executor.LegalMoveBuildsFoundation | solitaire.c:326-360 | a move that checkMove accepts onto a deposit pile keeps that pile an ascending run of one colour starting with the ace |
| Executor.FullFoundation | solitaire.c:238-240 | a deposit pile built up in that way whose tail is a king holds all 13 cards of its colour, in rank order |
| Dealer.CardAt | solitaire.c:786-796 | reading a card succeeds exactly when two words are left and the first is a colour |
| Dealer.ReadCard | solitaire.c:786-796 | readCard gives what CardAt describes for the two words at that position |
| Dealer.ScanAfter | solitaire.c:813-829 | while the loop is still reading, it has appended one id per turn |
| Dealer.ScanStopped | solitaire.c:815-818 | once a card cannot be read, later turns change nothing |
| Dealer.ScanAllNamed | solitaire.c:813-829 | when every card read names a known rank, the loop appends exactly the named cards in order, duplicates included |
| Dealer.ScanCountsUp | solitaire.c:819-823 | after card c, cards of an unknown rank take the ids c + 1, c + 2, and so on |
| Dealer.ConfigResult | solitaire.c:807-836 | readConfig returns EVERYTHING_OK or INVALID_FILE; EVERYTHING_OK exactly when all 26 cards were read and appended and no 27th card is readable, and then the deck has 26 ids |
| Dealer.DuplicatesAccepted | solitaire.c:809-827 | a file naming the black ace 26 times is accepted, and the draw pile holds 26 black aces |
| Dealer.UnknownRanksCountUp | solitaire.c:813-829 | the black ace followed by 25 cards of an unknown rank is accepted and gives the ids 0 to 25 in order |
| Dealer.AcceptedDeck | solitaire.c:807-836 | an accepted file seeds an empty draw pile with its 26 cards in order, only the last face-up |
| Dealer.ReadConfig | solitaire.c:807-836 | the return value is ConfigResult, and only the draw pile changes: it gains the cards read, in order, in draw-pile mode |
| Dealer.ReadDeck | solitaire.c:813-835 | the 26 turns, then a 27th readable card makes the file invalid; only the draw pile changes |
| Dealer.ReadCards | solitaire.c:813-829 | the loop completes exactly when every card could be read, and the draw pile gains the ids the loop takes |
| Dealer.ReadTurn | solitaire.c:815-823 | a turn reads a card and appends the id it names, or the one after the previous card; an unreadable card stops the loop and changes nothing |
| Dealer.ArrangeCards | solitaire.c:621-630 | the board after the deal is DealRows of the board before it |
| Dealer.DealRow | solitaire.c:625-628 | one row of the deal pops the draw pile onto piles row to 4 in turn |
| Dealer.DealStepEffect | solitaire.c:627 | one deal step moves the draw pile's tail face-up onto the pile and reveals the new tail of the draw pile |
| Dealer.DealColsDraw | solitaire.c:625-628 | a row starting at pile col takes 5 - col cards from the tail of the draw pile |
| Dealer.DealColsPile | solitaire.c:625-628 | in a row starting at pile col, pile c from col to 4 gains the card that was c - col places below the draw pile's tail; the other piles are unchanged |
| Dealer.DealRounds | solitaire.c:623-629 | after rows 1, 2 and 3, the draw pile has lost 4, 7 and 9 cards |
| Dealer.DealPile1 | solitaire.c:621-630 | tableau pile 1 gains the draw pile's last card, face-up |
| Dealer.DealPile2 | solitaire.c:621-630 | tableau pile 2 gains the 2nd and 5th cards from the draw pile's tail, face-up |
| Dealer.DealPile3 | solitaire.c:621-630 | tableau pile 3 gains the 3rd, 6th and 8th cards from the draw pile's tail, face-up |
| Dealer.DealPile4 | solitaire.c:621-630 | tableau pile 4 gains the 4th, 7th, 9th and 10th cards from the draw pile's tail, face-up |
| Dealer.DealDrawAndDeposits | solitaire.c:621-630 | the draw pile loses ten cards and shows its new tail; the deposit piles are unchanged |
| Dealer.DealEffect | solitaire.c:621-630 | the whole deal: the ten cards taken from the draw pile and where each lands |
| Dealer.OpeningTableau | solitaire.c:122-130 | after an accepted file and the deal, tableau pile c holds exactly c face-up cards taken from the end of the deck, and both deposit piles are empty |
| Dealer.OpeningDrawPile | solitaire.c:122-130 | after an accepted file and the deal, the draw pile holds the first 16 cards of the deck, only the last face-up |
| Commands.SpacePrefix | solitaire.c:436 | strtol skips exactly the leading white space |
| Commands.DigitPrefix | solitaire.c:436 | strtol reads exactly the leading run of decimal digits |
| Commands.Strtol | solitaire.c:436 | the value strtol gives lies in the range of a 64-bit long |
| Commands.IntOfLong | solitaire.c:436 | storing a long into an int keeps its value modulo 2^32 in the int range, and keeps any value that fits |
| Commands.DecimalTarget | solitaire.c:436-441 | a word of digits names the pile it spells when that fits an int, wraps by 2^32 between 2^32 and 2^32 + 2^31, and gives -1 past LONG_MAX |
| Commands.Narrowing | solitaire.c:436 | the narrowing to int on the three ranges a word of digits can fall in |
| Commands.DigitsLong | solitaire.c:436 | strtol reads a word of digits as its value, saturated at LONG_MAX |
| Commands.NoDigitsIsZero | solitaire.c:436-441 | a word with no digit after its white space and sign reads as 0, which the range check rejects |
| Commands.MoveEffect | solitaire.c:425-462 | moveCommand returns MOVED, INVALID_MOVE_COMMAND or INVALID_COMMAND; only MOVED changes the board, and then the pile number is between 1 and 6 |
| Commands.MoveDecision | solitaire.c:443-461 | once the shape, the pile number and the colour pass, MOVE returns MOVED exactly when checkMove accepts and INVALID_MOVE_COMMAND otherwise; onto the card's own pile the board is unchanged, onto another pile the run found by checkMove is carried over |
| Commands.MoveCommand | solitaire.c:425-462 | the return value and the new board are what MoveEffect gives for the old board |
| Commands.PrintHelp | solitaire.c:600-611 | HELP is EVERYTHING_OK exactly when it has no argument, and INVALID_COMMAND otherwise |
| Commands.CommandEffect | solitaire.c:474-508 | only MOVED changes the board, and only MOVE or NEXT return it; the result is EVERYTHING_OK exactly for a bare HELP, and EXIT_GAME exactly for EXIT with at most five words |
| Commands.HandleCommand | solitaire.c:474-508 | the return value and the new board are what CommandEffect gives for the old board |
| Commands.Won | solitaire.c:164-166 | the win test holds exactly when both deposit piles have a tail and those tails are the two kings |
| Commands.GameOver | solitaire.c:148-175 | the loop ends after INVALID_ARG_COUNT or a lower error code, after EXIT_GAME, and after a MOVED that wins |
| Commands.MovedCardLands | solitaire.c:452-461 | after a MOVE that returns MOVED, the named card lies on the destination pile |
| Commands.UnknownRankMovesBlackAce | solitaire.c:432-449 | a MOVE whose rank word names no rank does what the same MOVE for the black ace does |
| Commands.MoveCommandKeepsCards | solitaire.c:425-462 | a MOVE command neither creates nor destroys cards |
| Commands.CommandKeepsCards | solitaire.c:474-508 | every command except NEXT on an empty draw pile keeps the cards on the board |
| Commands.NextOnEmptyDrawPile | solitaire.c:493-497 | NEXT on an empty draw pile returns MOVED and leaves one face-down black ace in it, one card more than before |
| Commands.WonMeansFullDeposits | solitaire.c:164-166 | when both deposit piles are foundations, the win test holds exactly when each has 13 cards and their colours differ, and then every card is on them |
| Commands.AllCardsOfTwoSuits | solitaire.c:164-166 | two full foundations of different colours hold every card id |

## Left out

- Input and output are not modelled: `readInput`, `printGame`, `printCard`, `printErrorMessage` and the help text of `printHelp`. The file is given as its list of words, and a command line as its list of words, which is what `splitString` produces with `strtok`.
- `fopen`, `fscanf` and the fixed `color[6]` and `rank[3]` buffers of `readCard` are not modelled. A word too long for its buffer overflows it in the source; the model reads any word.
- Memory management is not modelled: `newNode`, `malloc`, `realloc`, `free`, `deleteStacks` and the OUT_OF_MEMORY paths. Linked nodes become sequence entries, so aliasing between nodes is not modelled.
- `main` is modelled only in its win test (`Commands.Won`), the end of its loop (`Commands.GameOver`) and the opening position it builds (`Dealer.OpeningTableau`, `Dealer.OpeningDrawPile`). The argument count check and the loop itself are I/O.
- Dealer.ReadConfig: requires that no turn uses an unassigned card variable or the id 26. The source indexes `checkArray[card]` with such a value, which is undefined behaviour.
- Dealer.ReadConfig: the `checkArray` test is left out, because the table stays all zeros and the test always passes.
- Commands.MoveCommand: requires that the command does not reach `stacks[7]`. A MOVE to pile 7 passes the range check, and `checkMove` would then read past the board, which is undefined behaviour.
- Commands.HandleCommand: requires the same of a MOVE line.
- Executor.Move: requires a non-empty source pile. Its only caller passes a place that the search found.
- Validator.CheckOrder: requires a position inside the pile. Its only caller passes one that the search found.
- `strtol` is modelled for a 64-bit `long`. Storing its result in an `int` keeps it modulo 2^32, which is implementation-defined in C.
