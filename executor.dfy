/**
 * Executing a legal move: the run from the found card to the tail of its
 * pile is detached, the card below it is turned face-up, and the run is
 * linked after the tail of the destination pile.
 */
module Executor {
  import opened Values
  import opened Cards
  import opened Piles
  import opened Validator

  /**
   * The board after moving the run starting at position `index` of pile
   * `source` onto pile `targetStack`: the source keeps the entries below
   * the run with its new tail revealed, the destination gains the run with
   * its face flags unchanged.
   */
  function MoveRun(piles: seq<Pile>, targetStack: nat, index: nat, source: nat): (r: seq<Pile>)
    requires |piles| == NumberOfStacks && targetStack < NumberOfStacks && source < NumberOfStacks
    requires targetStack != source && index < |piles[source]|
    ensures |r| == NumberOfStacks
  {
    var src := piles[source];
    piles[source := Reveal(src[..index])][targetStack := piles[targetStack] + src[index..]]
  }

  /**
   * move: walk to the card, detach the run from it to the tail, reveal the
   * new tail of the source, and link the run after the destination's tail.
   * A position past the tail is an UNIDENTIFIED_ERROR and changes nothing.
   */
  method Move(stacks: array<Pile>, targetStack: nat, targetCardIndex: nat, targetCardStack: nat)
    returns (rv: ReturnValue)
    requires stacks.Length == NumberOfStacks
    requires targetStack < NumberOfStacks && targetCardStack < NumberOfStacks
    requires targetStack != targetCardStack && stacks[targetCardStack] != []
    modifies stacks
    ensures targetCardIndex >= |old(stacks[targetCardStack])| ==>
      rv == UnidentifiedError && stacks[..] == old(stacks[..])
    ensures targetCardIndex < |old(stacks[targetCardStack])| ==>
      rv == Moved &&
      stacks[..] == MoveRun(old(stacks[..]), targetStack, targetCardIndex, targetCardStack)
  {
    var source := stacks[targetCardStack];
    var targetCard := 0;
    for index := 0 to targetCardIndex
      invariant targetCard == index < |source|
    {
      if targetCard + 1 >= |source| {
        return UnidentifiedError;
      }
      targetCard := targetCard + 1;
    }
    var keep := source[..targetCard];
    var run := source[targetCard..];
    if targetCard == 0 {
      stacks[targetCardStack] := [];
    } else {
      stacks[targetCardStack] := keep[|keep| - 1 := keep[|keep| - 1].(faceUp := true)];
    }
    stacks[targetStack] := stacks[targetStack] + run;
    return Moved;
  }

  /** A move neither creates nor destroys cards. */
  lemma MoveKeepsCards(piles: seq<Pile>, targetStack: nat, index: nat, source: nat)
    requires |piles| == NumberOfStacks && targetStack < NumberOfStacks && source < NumberOfStacks
    requires targetStack != source && index < |piles[source]|
    ensures BoardCards(MoveRun(piles, targetStack, index, source)) == BoardCards(piles)
  {
    var src := piles[source];
    var below, run := src[..index], src[index..];
    assert src == below + run;
    CardsOfAppend(below, run);
    CardsOfAppend(piles[targetStack], run);
    TransferKeepsCards(piles, source, targetStack, Reveal(below), piles[targetStack] + run);
  }

  /**
   * The source keeps exactly the cards below the run and shows its new tail;
   * the destination is its old pile followed by the run.
   */
  lemma MoveShape(piles: seq<Pile>, targetStack: nat, index: nat, source: nat)
    requires |piles| == NumberOfStacks && targetStack < NumberOfStacks && source < NumberOfStacks
    requires targetStack != source && index < |piles[source]|
    ensures var r := MoveRun(piles, targetStack, index, source);
      && |r[source]| == index && CardsOf(r[source]) == CardsOf(piles[source])[..index]
      && (index > 0 ==> r[source][..index - 1] == piles[source][..index - 1])
      && (index > 0 ==> r[source][index - 1].faceUp)
      && r[targetStack][..|piles[targetStack]|] == piles[targetStack]
      && r[targetStack][|piles[targetStack]|..] == piles[source][index..]
      && |r[source]| + |r[targetStack]| == |piles[source]| + |piles[targetStack]|
      && forall c :: 0 <= c < NumberOfStacks && c != source && c != targetStack ==> r[c] == piles[c]
  {
    var r := MoveRun(piles, targetStack, index, source);
    assert r[targetStack] == piles[targetStack] + piles[source][index..];
  }

  /**
   * A deposit pile is built up from an ace in one colour: the entry at
   * position j has rank j, all in the colour of the first.
   */
  predicate Foundation(p: Pile) {
    forall j :: 0 <= j < |p| ==> Rank(p[j].card) == j && Color(p[j].card) == Color(p[0].card)
  }

  /** A legal move onto a deposit pile keeps it a foundation. */
  lemma LegalMoveBuildsFoundation(piles: seq<Pile>, card: CardId, targetStack: nat)
    requires |piles| == NumberOfStacks && NumberOfGamestacks < targetStack < NumberOfStacks
    requires Foundation(piles[targetStack])
    requires MoveCheck(piles, card, targetStack).Some?
    ensures var loc := MoveCheck(piles, card, targetStack).value;
      Foundation(MoveRun(piles, targetStack, loc.index, loc.stack)[targetStack])
  {
    var loc := MoveCheck(piles, card, targetStack).value;
    MoveCheckMeaning(piles, card, targetStack);
    var src := piles[loc.stack];
    var t := piles[targetStack];
    var r := MoveRun(piles, targetStack, loc.index, loc.stack)[targetStack];
    assert r == t + src[loc.index..];
    forall j | 0 <= j < |r|
      ensures Rank(r[j].card) == j && Color(r[j].card) == Color(r[0].card)
    {
      if j >= |t| {
        DepositRunClimbs(src, loc.index, targetStack, loc.index + (j - |t|));
        assert r[j] == src[loc.index + (j - |t|)];
      }
    }
  }

  /** A foundation whose tail is a king holds all 13 cards of its colour. */
  lemma FullFoundation(p: Pile)
    requires Foundation(p) && p != [] && Rank(p[|p| - 1].card) == 12
    ensures |p| == 13
    ensures forall j :: 0 <= j < 13 ==> p[j].card == 2 * j + Color(p[0].card)
  {
  }
}
