/**
 * The commands of the game loop, given the words strtok split the input
 * line into: MOVE <colour> <rank> TO <pile>, NEXT, HELP and EXIT; and the
 * test for a won game.
 */
module Commands {
  import opened Values
  import opened Cards
  import opened Piles
  import opened Validator
  import opened Executor

  const MaxCommandArg := 5
  const CommandType := 0
  const CommandFirstArg := 1
  const MoveCardColor := 1
  const MoveCardRank := 2
  const MoveTo := 3
  const MoveTargetStack := 4

  const LongMin := -0x8000_0000_0000_0000
  const LongMax := 0x7FFF_FFFF_FFFF_FFFF
  const IntMin := -0x8000_0000
  const IntRange := 0x1_0000_0000

  /** The white-space characters of the C locale, which strtol skips. */
  predicate IsSpace(c: char) {
    c == ' ' || c == '\t' || c == '\n' || c == '\U{000B}' || c == '\U{000C}' || c == '\r'
  }

  predicate IsDigit(c: char) {
    '0' <= c <= '9'
  }

  /** The number of leading white-space characters. */
  function SpacePrefix(s: string): (n: nat)
    ensures n <= |s| && (forall j :: 0 <= j < n ==> IsSpace(s[j])) && (n < |s| ==> !IsSpace(s[n]))
  {
    if s != [] && IsSpace(s[0]) then 1 + SpacePrefix(s[1..]) else 0
  }

  /** The number of leading decimal digits. */
  function DigitPrefix(s: string): (n: nat)
    ensures n <= |s| && (forall j :: 0 <= j < n ==> IsDigit(s[j])) && (n < |s| ==> !IsDigit(s[n]))
  {
    if s != [] && IsDigit(s[0]) then 1 + DigitPrefix(s[1..]) else 0
  }

  /** The value of the first n characters of s, read as decimal digits. */
  function DecimalValue(s: string, n: nat): (v: nat)
    requires n <= |s| && forall j :: 0 <= j < n ==> IsDigit(s[j])
  {
    if n == 0 then 0
    else
      assert IsDigit(s[n - 1]);
      10 * DecimalValue(s, n - 1) + (s[n - 1] - '0') as int
  }

  /**
   * strtol(s, NULL, 10) on a platform with 64-bit long: leading white space
   * is skipped, one sign is accepted, then the longest run of digits is
   * read (none reads as 0); a value out of range becomes LONG_MIN or
   * LONG_MAX.
   */
  function Strtol(s: string): (r: int)
    ensures LongMin <= r <= LongMax
  {
    var t := s[SpacePrefix(s)..];
    var negative := t != [] && t[0] == '-';
    var u := if t != [] && (t[0] == '-' || t[0] == '+') then t[1..] else t;
    var v: int := DecimalValue(u, DigitPrefix(u));
    var signed := if negative then -v else v;
    if signed > LongMax then LongMax else if signed < LongMin then LongMin else signed
  }

  /** The long result stored into an int: the value modulo 2^32, in the 32-bit range. */
  function IntOfLong(x: int): (r: int)
    ensures IntMin <= r < IntMin + IntRange && (r - x) % IntRange == 0
    ensures IntMin <= x < IntMin + IntRange ==> r == x
  {
    (x - IntMin) % IntRange + IntMin
  }

  /** The pile number of a MOVE command, as moveCommand computes it. */
  function TargetNumber(token: string): int {
    IntOfLong(Strtol(token))
  }

  /**
   * A word of decimal digits names the pile it spells when that fits an int;
   * a value between 2^32 and 2^32 + 2^31 wraps around to the value less 2^32,
   * and a value past LONG_MAX saturates and then narrows to -1.
   */
  lemma DecimalTarget(token: string)
    requires token != [] && forall j :: 0 <= j < |token| ==> IsDigit(token[j])
    ensures DecimalValue(token, |token|) < -IntMin ==>
      TargetNumber(token) == DecimalValue(token, |token|)
    ensures IntRange <= DecimalValue(token, |token|) < IntRange - IntMin ==>
      TargetNumber(token) == DecimalValue(token, |token|) - IntRange
    ensures DecimalValue(token, |token|) > LongMax ==> TargetNumber(token) == -1
  {
    DigitsLong(token);
    Narrowing(Strtol(token));
  }

  /** The narrowing of a long to an int on the three ranges a pile number can fall in. */
  lemma Narrowing(x: int)
    ensures 0 <= x < -IntMin ==> IntOfLong(x) == x
    ensures IntRange <= x < IntRange - IntMin ==> IntOfLong(x) == x - IntRange
    ensures IntOfLong(LongMax) == -1
  {
    if IntRange <= x < IntRange - IntMin {
      assert (x - IntMin) % IntRange == x - IntRange - IntMin;
    }
  }

  /** strtol reads a word of decimal digits as its value, saturated at LONG_MAX. */
  lemma DigitsLong(token: string)
    requires token != [] && forall j :: 0 <= j < |token| ==> IsDigit(token[j])
    ensures Strtol(token) ==
      if DecimalValue(token, |token|) > LongMax then LongMax else DecimalValue(token, |token|)
  {
    assert SpacePrefix(token) == 0;
    assert token[0..] == token;
    assert DigitPrefix(token) == |token|;
  }

  /** A word without digits after its white space and sign reads as 0, which no pile has. */
  lemma NoDigitsIsZero(token: string)
    requires var t := token[SpacePrefix(token)..];
      var u := if t != [] && (t[0] == '-' || t[0] == '+') then t[1..] else t;
      u == [] || !IsDigit(u[0])
    ensures TargetNumber(token) == 0
  {
  }

  /** The card a MOVE command names; an unknown rank leaves it at its initial 0. */
  function MoveCard(command: seq<string>): CardId
    requires |command| > MoveCardRank
  {
    var parsed := ParseCard(command[MoveCardColor], command[MoveCardRank]);
    if parsed.written.Some? then parsed.written.value else 0
  }

  /**
   * A MOVE command to pile 7 passes the range check and checkMove then reads
   * stacks[7], past the board: the card is known and found outside the
   * deposit piles, with its run in order.
   */
  predicate PastBoard(piles: seq<Pile>, command: seq<string>) {
    && |command| > MoveTargetStack && command[MoveTo] == "TO"
    && TargetNumber(command[MoveTargetStack]) == NumberOfStacks
    && ParseCard(command[MoveCardColor], command[MoveCardRank]).rv == EverythingOk
    && ReachesTarget(piles, MoveCard(command), NumberOfStacks)
  }

  /** The return value of a command and the board after it. */
  datatype Outcome = Outcome(rv: ReturnValue, piles: seq<Pile>)

  /** What moveCommand returns and does to the board. */
  function MoveEffect(piles: seq<Pile>, command: seq<string>): (r: Outcome)
    requires |piles| == NumberOfStacks && !PastBoard(piles, command)
    ensures r.rv in {Moved, InvalidMoveCommand, InvalidCommand}
    ensures r.rv != Moved ==> r.piles == piles
    ensures r.rv == Moved ==>
      |command| > MoveTargetStack && 1 <= TargetNumber(command[MoveTargetStack]) < NumberOfStacks
  {
    if |command| <= MoveTargetStack || command[MoveTo] != "TO" then Outcome(InvalidCommand, piles)
    else
      var targetStack := TargetNumber(command[MoveTargetStack]);
      if targetStack < 1 || NumberOfStacks < targetStack then Outcome(InvalidCommand, piles)
      else
        var parsed := ParseCard(command[MoveCardColor], command[MoveCardRank]);
        if parsed.rv != EverythingOk then Outcome(parsed.rv, piles)
        else
          match MoveCheck(piles, MoveCard(command), targetStack)
          case None => Outcome(InvalidMoveCommand, piles)
          case Some(loc) =>
            if loc.stack != targetStack
            then Outcome(Moved, MoveRun(piles, targetStack, loc.index, loc.stack))
            else Outcome(Moved, piles)
  }

  /**
   * moveCommand: the shape check, the pile number through strtol, the card
   * through strToCard, checkMove, and move unless the card is already on the
   * destination pile.
   */
  method MoveCommand(stacks: array<Pile>, command: seq<string>) returns (rv: ReturnValue)
    requires stacks.Length == NumberOfStacks && |command| <= MaxCommandArg
    requires !PastBoard(stacks[..], command)
    modifies stacks
    ensures MoveEffect(old(stacks[..]), command) == Outcome(rv, stacks[..])
  {
    if |command| <= MoveTargetStack || command[MoveTo] != "TO" {
      return InvalidCommand;
    }
    var targetCard: CardId := 0;
    var targetStack := TargetNumber(command[MoveTargetStack]);
    if targetStack < 1 || NumberOfStacks < targetStack {
      return InvalidCommand;
    }
    var returnValue, written := StrToCard(command[MoveCardColor], command[MoveCardRank]);
    if written.Some? {
      targetCard := written.value;
    }
    if returnValue != EverythingOk {
      return returnValue;
    }
    var moveValid, targetCardIndex, targetCardStack := CheckMove(stacks, targetCard, targetStack);
    if !moveValid {
      return InvalidMoveCommand;
    }
    if targetCardStack != targetStack {
      rv := Move(stacks, targetStack, targetCardIndex, targetCardStack);
      return;
    }
    return Moved;
  }

  /** printHelp: the help text is only for HELP without arguments. */
  function PrintHelp(command: seq<string>): (r: ReturnValue)
    ensures r == EverythingOk || r == InvalidCommand
    ensures r == EverythingOk <==> |command| <= CommandFirstArg
  {
    if |command| <= CommandFirstArg then EverythingOk else InvalidCommand
  }

  /** A MOVE command that would read past the board. */
  predicate MovesPastBoard(piles: seq<Pile>, tokens: seq<string>) {
    0 < |tokens| <= MaxCommandArg && tokens[CommandType] == "MOVE" && PastBoard(piles, tokens)
  }

  /**
   * What handleCommand returns and does to the board, given all the words of
   * the input line: more than five words, or none, is an invalid command.
   */
  function CommandEffect(piles: seq<Pile>, tokens: seq<string>): (r: Outcome)
    requires |piles| == NumberOfStacks && !MovesPastBoard(piles, tokens)
    ensures r.rv != Moved ==> r.piles == piles
    ensures r.rv == Moved ==> 0 < |tokens| <= MaxCommandArg && tokens[CommandType] in {"MOVE", "NEXT"}
    ensures r.rv == EverythingOk <==> tokens == ["HELP"]
    ensures r.rv == ExitGame <==> 0 < |tokens| <= MaxCommandArg && tokens[CommandType] == "EXIT"
  {
    if |tokens| > MaxCommandArg || tokens == [] then Outcome(InvalidCommand, piles)
    else if tokens[CommandType] == "MOVE" then MoveEffect(piles, tokens)
    else if tokens[CommandType] == "NEXT" then
      Outcome(Moved, piles[DrawStack := Rotated(piles[DrawStack])])
    else if tokens[CommandType] == "HELP" then Outcome(PrintHelp(tokens), piles)
    else if tokens[CommandType] == "EXIT" then Outcome(ExitGame, piles)
    else Outcome(InvalidCommand, piles)
  }

  /** handleCommand, after splitString has split the line into `tokens`. */
  method HandleCommand(stacks: array<Pile>, tokens: seq<string>) returns (rv: ReturnValue)
    requires stacks.Length == NumberOfStacks && !MovesPastBoard(stacks[..], tokens)
    modifies stacks
    ensures CommandEffect(old(stacks[..]), tokens) == Outcome(rv, stacks[..])
  {
    if |tokens| > MaxCommandArg {
      return InvalidCommand;
    }
    if tokens == [] {
      return InvalidCommand;
    }
    var command := tokens;
    if command[CommandType] == "MOVE" {
      rv := MoveCommand(stacks, command);
    } else if command[CommandType] == "NEXT" {
      RotateDrawstack(stacks, DrawStack);
      rv := Moved;
    } else if command[CommandType] == "HELP" {
      rv := PrintHelp(command);
    } else if command[CommandType] == "EXIT" {
      rv := ExitGame;
    } else {
      rv := InvalidCommand;
    }
  }

  /**
   * The win test of the game loop: both deposit piles have a tail and the
   * two tail ids add up to 49, which with ids below 26 means the two kings.
   */
  function Won(piles: seq<Pile>): (r: bool)
    requires |piles| == NumberOfStacks
    ensures r <==>
      && piles[DepositStack1] != [] && piles[DepositStack2] != []
      && {piles[DepositStack1][|piles[DepositStack1]| - 1].card,
          piles[DepositStack2][|piles[DepositStack2]| - 1].card} == {BlackKing, BlackKing + 1}
  {
    var first, second := piles[DepositStack1], piles[DepositStack2];
    first != [] && second != [] && first[|first| - 1].card + second[|second| - 1].card == 49
  }

  /**
   * The game loop ends after a command that returns an error at or below
   * INVALID_ARG_COUNT, after EXIT, and after a move that wins.
   */
  function GameOver(rv: ReturnValue, piles: seq<Pile>): (r: bool)
    requires |piles| == NumberOfStacks
    ensures r <==>
      rv in {InvalidArgCount, InvalidFile, OutOfMemory, UnidentifiedError, ExitGame} ||
      (rv == Moved && Won(piles))
  {
    (rv.Code() < EverythingOk.Code() && rv.Code() <= QuitGameErrors) ||
    (rv == Moved && Won(piles)) || rv == ExitGame
  }

  /**
   * The decision of moveCommand once the shape, the pile number and the
   * colour have passed: MOVED exactly when checkMove accepts the move, and
   * INVALID_MOVE_COMMAND otherwise. A MOVE onto the card's own pile leaves
   * the board as it was; one onto another pile carries the run from the
   * place checkMove found.
   */
  lemma MoveDecision(piles: seq<Pile>, command: seq<string>)
    requires |piles| == NumberOfStacks && !PastBoard(piles, command)
    requires |command| > MoveTargetStack && command[MoveTo] == "TO"
    requires 1 <= TargetNumber(command[MoveTargetStack]) <= NumberOfStacks
    requires command[MoveCardColor] in {"BLACK", "RED"}
    ensures var n := TargetNumber(command[MoveTargetStack]);
      ParseCard(command[MoveCardColor], command[MoveCardRank]).rv == EverythingOk &&
      var check := MoveCheck(piles, MoveCard(command), n);
      && (MoveEffect(piles, command).rv == Moved <==> check.Some?)
      && (check.None? ==> MoveEffect(piles, command).rv == InvalidMoveCommand)
      && (check.Some? && check.value.stack == n ==> MoveEffect(piles, command).piles == piles)
      && (check.Some? && check.value.stack != n ==>
            n < NumberOfStacks && check.value.stack < NumberOfStacks &&
            check.value.index < |piles[check.value.stack]| &&
            MoveEffect(piles, command).piles == MoveRun(piles, n, check.value.index, check.value.stack))
  {
    ParseCardMeaning(command[MoveCardColor], command[MoveCardRank]);
    var n := TargetNumber(command[MoveTargetStack]);
    var check := MoveCheck(piles, MoveCard(command), n);
    if check.Some? {
      MoveCheckMeaning(piles, MoveCard(command), n);
    }
  }

  /**
   * After a MOVE that returns MOVED the named card lies on the destination
   * pile, whether it was carried there or was already there.
   */
  lemma MovedCardLands(piles: seq<Pile>, command: seq<string>)
    requires |piles| == NumberOfStacks && !PastBoard(piles, command)
    requires MoveEffect(piles, command).rv == Moved
    ensures MoveCard(command) in CardsOf(MoveEffect(piles, command).piles[TargetNumber(command[MoveTargetStack])])
  {
    var targetStack := TargetNumber(command[MoveTargetStack]);
    var card := MoveCard(command);
    MoveCheckMeaning(piles, card, targetStack);
    var loc := MoveCheck(piles, card, targetStack).value;
    var after := MoveEffect(piles, command).piles[targetStack];
    if loc.stack != targetStack {
      var src := piles[loc.stack];
      assert after == piles[targetStack] + src[loc.index..];
      assert after[|piles[targetStack]|] == src[loc.index];
      assert CardsOf(after)[|piles[targetStack]|] == card;
    } else {
      assert CardsOf(after)[loc.index] == card;
    }
  }

  /**
   * A MOVE whose rank word is no rank moves the black ace, whatever its
   * colour word says, as long as that word is a colour.
   */
  lemma UnknownRankMovesBlackAce(piles: seq<Pile>, command: seq<string>)
    requires |piles| == NumberOfStacks && |command| > MoveTargetStack
    requires command[MoveCardColor] in {"BLACK", "RED"} && command[MoveCardRank] !in Ranks
    requires !PastBoard(piles, command)
    ensures !PastBoard(piles, command[MoveCardRank := "A"][MoveCardColor := "BLACK"])
    ensures MoveEffect(piles, command) ==
      MoveEffect(piles, command[MoveCardRank := "A"][MoveCardColor := "BLACK"])
  {
    var ace := command[MoveCardRank := "A"][MoveCardColor := "BLACK"];
    ParseCardMeaning(command[MoveCardColor], command[MoveCardRank]);
    ParseCardMeaning("BLACK", "A");
    assert Ranks[0] == "A";
    assert MoveCard(command) == 0;
    assert MoveCard(ace) == 0;
  }

  /** A MOVE command neither creates nor destroys cards. */
  lemma MoveCommandKeepsCards(piles: seq<Pile>, command: seq<string>)
    requires |piles| == NumberOfStacks && !PastBoard(piles, command)
    ensures BoardCards(MoveEffect(piles, command).piles) == BoardCards(piles)
  {
    if MoveEffect(piles, command).rv == Moved {
      var targetStack := TargetNumber(command[MoveTargetStack]);
      var card := MoveCard(command);
      MoveCheckMeaning(piles, card, targetStack);
      var loc := MoveCheck(piles, card, targetStack).value;
      if loc.stack != targetStack {
        MoveKeepsCards(piles, targetStack, loc.index, loc.stack);
      }
    }
  }

  /** Every command but NEXT on an empty draw pile keeps the cards of the board. */
  lemma CommandKeepsCards(piles: seq<Pile>, tokens: seq<string>)
    requires |piles| == NumberOfStacks && !MovesPastBoard(piles, tokens)
    requires 0 < |tokens| <= MaxCommandArg && tokens[CommandType] == "NEXT" ==> piles[DrawStack] != []
    ensures BoardCards(CommandEffect(piles, tokens).piles) == BoardCards(piles)
  {
    if 0 < |tokens| <= MaxCommandArg && tokens[CommandType] == "MOVE" {
      MoveCommandKeepsCards(piles, tokens);
    } else if 0 < |tokens| <= MaxCommandArg && tokens[CommandType] == "NEXT" {
      var q := Rotated(piles[DrawStack]);
      assert CommandEffect(piles, tokens).piles == piles[DrawStack := q];
      RotateKeepsCards(piles[DrawStack]);
      BoardCardsUpdate(piles, DrawStack, q);
      var m := multiset(CardsOf(q));
      forall x | true
        ensures BoardCards(piles[DrawStack := q])[x] == BoardCards(piles)[x]
      {
        assert (BoardCards(piles[DrawStack := q]) + m)[x] == (BoardCards(piles) + m)[x];
      }
    }
  }

  /**
   * NEXT on an empty draw pile pushes the 0 that pop returns for an empty
   * list: a face-down black ace appears from nowhere.
   */
  lemma NextOnEmptyDrawPile(piles: seq<Pile>, tokens: seq<string>)
    requires |piles| == NumberOfStacks && piles[DrawStack] == []
    requires 0 < |tokens| <= MaxCommandArg && tokens[CommandType] == "NEXT"
    ensures CommandEffect(piles, tokens).rv == Moved
    ensures CommandEffect(piles, tokens).piles[DrawStack] == [Entry(0, false)]
    ensures BoardCards(CommandEffect(piles, tokens).piles) == BoardCards(piles) + multiset{0}
  {
    RotateKeepsCards(piles[DrawStack]);
    BoardCardsUpdate(piles, DrawStack, [Entry(0, false)]);
    assert CardsOf([Entry(0, false)]) == [0];
  }

  /**
   * When both deposit piles are foundations, the win test holds exactly
   * when they hold all 26 cards between them, 13 of each colour.
   */
  lemma WonMeansFullDeposits(piles: seq<Pile>)
    requires |piles| == NumberOfStacks
    requires Foundation(piles[DepositStack1]) && Foundation(piles[DepositStack2])
    ensures Won(piles) <==>
      (|piles[DepositStack1]| == 13 && |piles[DepositStack2]| == 13 &&
       Color(piles[DepositStack1][0].card) != Color(piles[DepositStack2][0].card))
    ensures Won(piles) ==>
      forall c: CardId :: c in CardsOf(piles[DepositStack1]) + CardsOf(piles[DepositStack2])
  {
    var first, second := piles[DepositStack1], piles[DepositStack2];
    if Won(piles) {
      FullFoundation(first);
      FullFoundation(second);
      AllCardsOfTwoSuits(first, second);
    }
    if |first| == 13 && |second| == 13 && Color(first[0].card) != Color(second[0].card) {
      assert Rank(first[12].card) == 12 && Rank(second[12].card) == 12;
    }
  }

  /** Two full foundations of different colours hold every card id. */
  lemma AllCardsOfTwoSuits(first: Pile, second: Pile)
    requires |first| == 13 && |second| == 13 && Color(first[0].card) != Color(second[0].card)
    requires forall j :: 0 <= j < 13 ==> first[j].card == 2 * j + Color(first[0].card)
    requires forall j :: 0 <= j < 13 ==> second[j].card == 2 * j + Color(second[0].card)
    ensures forall c: CardId :: c in CardsOf(first) + CardsOf(second)
  {
    forall c: CardId
      ensures c in CardsOf(first) + CardsOf(second)
    {
      if c % 2 == Color(first[0].card) {
        assert (CardsOf(first) + CardsOf(second))[c / 2] == c;
      } else {
        assert (CardsOf(first) + CardsOf(second))[13 + c / 2] == c;
      }
    }
  }
}
