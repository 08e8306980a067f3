/**
 * Whether a move command is legal: the search for the named card among the
 * first BOARD_SIZE entries of every pile, the order check of the run on top
 * of it, and the rule for the destination pile.
 */
module Validator {
  import opened Values
  import opened Cards
  import opened Piles

  /** Only the first BOARD_SIZE entries of a pile are searched. */
  const BoardSize := 16

  /** Where a card lies: pile number and position from the head. */
  datatype Location = Location(stack: nat, index: nat)

  /** The entry shows this card: it holds the id and is face-up. */
  predicate Shows(e: Entry, card: CardId) {
    e.card == card && e.faceUp
  }

  /** The first position at or after `row`, among the first BOARD_SIZE, showing `card`. */
  function FindInPile(p: Pile, card: CardId, row: nat): (r: Option<nat>)
    decreases BoardSize - row
    ensures r.Some? ==> row <= r.value < BoardSize && r.value < |p| && Shows(p[r.value], card)
    ensures r.Some? ==> forall j :: row <= j < r.value ==> !Shows(p[j], card)
    ensures r.None? ==> forall j :: row <= j < BoardSize && j < |p| ==> !Shows(p[j], card)
  {
    if row >= BoardSize || row >= |p| then None
    else if Shows(p[row], card) then Some(row)
    else FindInPile(p, card, row + 1)
  }

  /** The first pile at or after `col` where FindInPile succeeds, with the position found. */
  function Locate(piles: seq<Pile>, card: CardId, col: nat): (r: Option<Location>)
    decreases |piles| - col
    ensures r.Some? ==>
      col <= r.value.stack < |piles| && FindInPile(piles[r.value.stack], card, 0) == Some(r.value.index)
    ensures r.Some? ==> forall c :: col <= c < r.value.stack ==> FindInPile(piles[c], card, 0).None?
    ensures r.None? ==> forall c :: col <= c < |piles| ==> FindInPile(piles[c], card, 0).None?
  {
    if col >= |piles| then None
    else match FindInPile(piles[col], card, 0)
      case Some(row) => Some(Location(col, row))
      case None => Locate(piles, card, col + 1)
  }

  /**
   * searchCard finds a card exactly when some pile shows it among its first
   * BOARD_SIZE entries, and it reports the first such place in (pile,
   * position) order.
   */
  lemma LocateMeaning(piles: seq<Pile>, card: CardId)
    ensures Locate(piles, card, 0).None? <==>
      forall c, j :: 0 <= c < |piles| && 0 <= j < BoardSize && j < |piles[c]| ==> !Shows(piles[c][j], card)
    ensures Locate(piles, card, 0).Some? ==>
      var loc := Locate(piles, card, 0).value;
      && loc.stack < |piles| && loc.index < BoardSize && loc.index < |piles[loc.stack]|
      && Shows(piles[loc.stack][loc.index], card)
      && (forall c, j :: 0 <= c < loc.stack && 0 <= j < BoardSize && j < |piles[c]| ==>
            !Shows(piles[c][j], card))
      && (forall j :: 0 <= j < loc.index ==> !Shows(piles[loc.stack][j], card))
  {
    var r := Locate(piles, card, 0);
    if r.Some? {
      var loc := r.value;
      forall c, j | 0 <= c < loc.stack && 0 <= j < BoardSize && j < |piles[c]|
        ensures !Shows(piles[c][j], card)
      {
        assert FindInPile(piles[c], card, 0).None?;
      }
    } else {
      forall c, j | 0 <= c < |piles| && 0 <= j < BoardSize && j < |piles[c]|
        ensures !Shows(piles[c][j], card)
      {
        assert FindInPile(piles[c], card, 0).None?;
      }
    }
  }

  /** A first face-up match within the searched positions is what FindInPile reports. */
  lemma FindFirst(p: Pile, card: CardId, row: nat)
    requires row < BoardSize && row < |p| && Shows(p[row], card)
    requires forall j :: 0 <= j < row ==> !Shows(p[j], card)
    ensures FindInPile(p, card, 0) == Some(row)
  {
  }

  /** No match among the positions searched: FindInPile reports none. */
  lemma FindNone(p: Pile, card: CardId, row: nat)
    requires row >= BoardSize || row >= |p|
    requires forall j :: 0 <= j < row && j < |p| ==> !Shows(p[j], card)
    ensures FindInPile(p, card, 0).None?
  {
  }

  /**
   * searchCard: pile by pile, walk at most BOARD_SIZE steps from the head;
   * the walk stays on the tail once it gets there. `found` is its result,
   * `index` and `stack` what it writes through its out-pointers.
   */
  method SearchCard(stacks: array<Pile>, card: CardId) returns (found: bool, index: nat, stack: nat)
    requires stacks.Length == NumberOfStacks
    ensures found == Locate(stacks[..], card, 0).Some?
    ensures found ==> Locate(stacks[..], card, 0) == Some(Location(stack, index))
  {
    index, stack := 0, 0;
    for col := 0 to NumberOfStacks
      invariant Locate(stacks[..], card, 0) == Locate(stacks[..], card, col)
    {
      var pile := stacks[col];
      // the current node as a position, -1 standing for NULL
      var current := if |pile| == 0 then -1 else 0;
      var row := 0;
      while row < BoardSize && current != -1
        invariant 0 <= row <= BoardSize
        invariant |pile| == 0 ==> current == -1
        invariant |pile| > 0 ==> current == (if row < |pile| then row else |pile| - 1)
        invariant forall j :: 0 <= j < row && j < |pile| ==> !Shows(pile[j], card)
      {
        if pile[current].card == card && pile[current].faceUp {
          FindFirst(pile, card, row);
          return true, row, col;
        }
        if current + 1 < |pile| {
          current := current + 1;
        }
        row := row + 1;
      }
      FindNone(pile, card, row);
    }
    return false, index, stack;
  }

  /**
   * The run from position `index` to the tail is in order for pile
   * `targetStack`: every card lies correctly on the one below it.
   */
  predicate RunInOrder(p: Pile, index: nat, targetStack: int) {
    forall j :: index <= j < |p| - 1 ==> TwoCardsInOrder(p[j].card, p[j + 1].card, targetStack)
  }

  /** checkOrder: walk to position `index`, then compare each card with the next. */
  method CheckOrder(stack: Pile, targetCardIndex: nat, targetStack: int) returns (inOrder: bool)
    requires targetCardIndex < |stack|
    ensures inOrder == RunInOrder(stack, targetCardIndex, targetStack)
  {
    var cardPointer := 0;
    for index := 0 to targetCardIndex
      invariant cardPointer == index
    {
      cardPointer := cardPointer + 1;
    }
    while cardPointer + 1 < |stack|
      invariant targetCardIndex <= cardPointer < |stack|
      invariant forall j :: targetCardIndex <= j < cardPointer ==>
        TwoCardsInOrder(stack[j].card, stack[j + 1].card, targetStack)
    {
      if !TwoCardsInOrder(stack[cardPointer].card, stack[cardPointer + 1].card, targetStack) {
        return false;
      }
      cardPointer := cardPointer + 1;
    }
    return true;
  }

  /** A run in order on a tableau pile has strictly falling ranks and alternating colours. */
  lemma {:induction false} TableauRunFalls(p: Pile, index: nat, targetStack: int, k: nat)
    requires targetStack <= NumberOfGamestacks && RunInOrder(p, index, targetStack)
    requires index <= k < |p|
    ensures forall j :: index <= j < k ==> Rank(p[j].card) > Rank(p[k].card)
    ensures Color(p[k].card) == (Color(p[index].card) + (k - index)) % 2
    decreases k
  {
    if k > index {
      TableauRunFalls(p, index, targetStack, k - 1);
      assert TwoCardsInOrder(p[k - 1].card, p[k].card, targetStack);
    }
  }

  /** A run in order on a deposit pile climbs one rank at a time in one colour. */
  lemma {:induction false} DepositRunClimbs(p: Pile, index: nat, targetStack: int, k: nat)
    requires targetStack > NumberOfGamestacks && RunInOrder(p, index, targetStack)
    requires index <= k < |p|
    ensures p[k].card == p[index].card + 2 * (k - index)
    decreases k
  {
    if k > index {
      DepositRunClimbs(p, index, targetStack, k - 1);
      assert TwoCardsInOrder(p[k - 1].card, p[k].card, targetStack);
    }
  }

  /**
   * checkMove gets as far as reading the destination pile: the card is found
   * outside the deposit piles and its run is in order for the destination.
   */
  predicate ReachesTarget(piles: seq<Pile>, card: CardId, targetStack: int) {
    && Locate(piles, card, 0).Some?
    && Locate(piles, card, 0).value.stack <= NumberOfGamestacks
    && RunInOrder(piles[Locate(piles, card, 0).value.stack], Locate(piles, card, 0).value.index, targetStack)
  }

  /**
   * The decision of checkMove, with the place of the card when the move is
   * legal: the card must be found outside the deposit piles, its run must be
   * in order for the destination, and it must fit the destination: an empty
   * tableau pile takes a king, an empty deposit pile an ace, a non-empty
   * pile a card that lies correctly on its tail, and the card's own pile
   * takes it back.
   */
  function MoveCheck(piles: seq<Pile>, card: CardId, targetStack: nat): Option<Location>
    requires |piles| == NumberOfStacks
    requires targetStack < NumberOfStacks || !ReachesTarget(piles, card, targetStack)
  {
    match Locate(piles, card, 0)
    case None => None
    case Some(loc) =>
      if loc.stack > NumberOfGamestacks then None
      else if !RunInOrder(piles[loc.stack], loc.index, targetStack) then None
      else if piles[targetStack] == [] then
        if targetStack <= NumberOfGamestacks then
          (if card >= BlackKing then Some(loc) else None)
        else
          (if card < NumberOfCardfaces then Some(loc) else None)
      else if TwoCardsInOrder(piles[targetStack][|piles[targetStack]| - 1].card, card, targetStack)
              || targetStack == loc.stack then Some(loc)
      else None
  }

  /** checkMove: searchCard, the deposit-pile exclusion, checkOrder, then the destination rule. */
  method CheckMove(stacks: array<Pile>, targetCard: CardId, targetStack: nat)
    returns (valid: bool, targetCardIndex: nat, targetCardStack: nat)
    requires stacks.Length == NumberOfStacks
    requires targetStack < NumberOfStacks || !ReachesTarget(stacks[..], targetCard, targetStack)
    ensures valid == MoveCheck(stacks[..], targetCard, targetStack).Some?
    ensures valid ==>
      MoveCheck(stacks[..], targetCard, targetStack) == Some(Location(targetCardStack, targetCardIndex))
  {
    var cardFound;
    cardFound, targetCardIndex, targetCardStack := SearchCard(stacks, targetCard);
    if !cardFound {
      return false, targetCardIndex, targetCardStack;
    }
    if targetCardStack > NumberOfGamestacks {
      return false, targetCardIndex, targetCardStack;
    }
    var inOrder := CheckOrder(stacks[targetCardStack], targetCardIndex, targetStack);
    if inOrder {
      var target := stacks[targetStack];
      if |target| == 0 {
        if targetStack <= NumberOfGamestacks {
          return targetCard >= BlackKing, targetCardIndex, targetCardStack;
        }
        return targetCard < NumberOfCardfaces, targetCardIndex, targetCardStack;
      } else if TwoCardsInOrder(target[|target| - 1].card, targetCard, targetStack)
                || targetStack == targetCardStack {
        return true, targetCardIndex, targetCardStack;
      }
    }
    return false, targetCardIndex, targetCardStack;
  }

  /**
   * What a legal move means in terms of cards: the card is face-up in a
   * tableau pile or the draw pile within the searched positions; onto an
   * empty tableau pile only a king moves, onto an empty deposit pile only an
   * ace; onto another non-empty pile the card follows that pile's rule for
   * its tail; and the run it carries follows the destination's rule too.
   */
  lemma MoveCheckMeaning(piles: seq<Pile>, card: CardId, targetStack: nat)
    requires |piles| == NumberOfStacks
    requires targetStack < NumberOfStacks || !ReachesTarget(piles, card, targetStack)
    requires MoveCheck(piles, card, targetStack).Some?
    ensures var loc := MoveCheck(piles, card, targetStack).value;
      && Locate(piles, card, 0) == Some(loc)
      && loc.stack <= NumberOfGamestacks && loc.index < BoardSize && loc.index < |piles[loc.stack]|
      && Shows(piles[loc.stack][loc.index], card)
      && RunInOrder(piles[loc.stack], loc.index, targetStack)
      && (piles[targetStack] == [] && targetStack <= NumberOfGamestacks ==> Rank(card) == 12)
      && (piles[targetStack] == [] && targetStack > NumberOfGamestacks ==> Rank(card) == 0)
      && (piles[targetStack] != [] && targetStack != loc.stack ==>
            var tail := piles[targetStack][|piles[targetStack]| - 1].card;
            if targetStack <= NumberOfGamestacks
            then Color(tail) != Color(card) && Rank(tail) > Rank(card)
            else Color(tail) == Color(card) && Rank(card) == Rank(tail) + 1)
  {
    LocateMeaning(piles, card);
  }

  /**
   * Conversely, a card that searchCard finds outside the deposit piles, whose
   * run is in order and which fits the destination, may be moved.
   */
  lemma MoveCheckComplete(piles: seq<Pile>, card: CardId, targetStack: nat, loc: Location)
    requires |piles| == NumberOfStacks && targetStack < NumberOfStacks
    requires Locate(piles, card, 0) == Some(loc) && loc.stack <= NumberOfGamestacks
    requires RunInOrder(piles[loc.stack], loc.index, targetStack)
    requires piles[targetStack] == [] && targetStack <= NumberOfGamestacks ==> Rank(card) == 12
    requires piles[targetStack] == [] && targetStack > NumberOfGamestacks ==> Rank(card) == 0
    requires piles[targetStack] != [] && targetStack != loc.stack ==>
      var tail := piles[targetStack][|piles[targetStack]| - 1].card;
      if targetStack <= NumberOfGamestacks
      then Color(tail) != Color(card) && Rank(tail) > Rank(card)
      else Color(tail) == Color(card) && Rank(card) == Rank(tail) + 1
    ensures MoveCheck(piles, card, targetStack) == Some(loc)
  {
  }
}
