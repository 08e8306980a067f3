/**
 * A pile is the doubly linked list of the source read from head (index 0,
 * bottom) to tail (last index, top). The list primitives pop, append, push
 * and rotateDrawstack work on one pile of the board array in place; each is
 * specified by a function on pile values.
 */
module Piles {
  import opened Values
  import opened Cards

  const NumberOfStacks := 7
  const DrawStack := 0
  const DepositStack1 := 5
  const DepositStack2 := 6

  datatype Entry = Entry(card: CardId, faceUp: bool)

  type Pile = seq<Entry>

  /** The card ids of a pile, head first. */
  function CardsOf(p: Pile): (r: seq<CardId>)
    ensures |r| == |p| && forall j :: 0 <= j < |p| ==> r[j] == p[j].card
  {
    seq(|p|, j requires 0 <= j < |p| => p[j].card)
  }

  lemma CardsOfAppend(p: Pile, q: Pile)
    ensures CardsOf(p + q) == CardsOf(p) + CardsOf(q)
  {
  }

  /** The pile with its tail turned face-up: what uncovering the tail does. */
  function Reveal(p: Pile): (r: Pile)
    ensures |r| == |p| && CardsOf(r) == CardsOf(p)
    ensures forall j :: 0 <= j < |p| - 1 ==> r[j] == p[j]
    ensures p != [] ==> r[|p| - 1].faceUp
  {
    if p == [] then [] else p[|p| - 1 := p[|p| - 1].(faceUp := true)]
  }

  /** Only the tail of the pile is face-up (vacuously true of an empty pile). */
  predicate OnlyTailFaceUp(p: Pile) {
    forall j :: 0 <= j < |p| ==> (p[j].faceUp <==> j == |p| - 1)
  }

  datatype Popped = Popped(pile: Pile, card: CardId)

  /**
   * pop: an empty pile gives card 0 and stays empty; otherwise the tail is
   * removed and returned, and the new tail is turned face-up.
   */
  function PopPile(p: Pile): Popped {
    if p == [] then Popped([], 0) else Popped(Reveal(p[..|p| - 1]), p[|p| - 1].card)
  }

  /**
   * append: the new entry goes after the tail, face-up; in draw-pile mode the
   * previous tail is turned face-down.
   */
  function AppendPile(p: Pile, card: CardId, isDrawstack: bool): Pile {
    if p == [] then [Entry(card, true)]
    else if isDrawstack then p[|p| - 1 := p[|p| - 1].(faceUp := false)] + [Entry(card, true)]
    else p + [Entry(card, true)]
  }

  /** push: a new face-down entry before the head. */
  function PushPile(p: Pile, card: CardId): Pile {
    [Entry(card, false)] + p
  }

  /** rotateDrawstack: push(pop()). */
  function Rotated(p: Pile): Pile {
    PushPile(PopPile(p).pile, PopPile(p).card)
  }

  /** The pile after appending `ids` one by one in draw-pile mode. */
  function Seeded(p: Pile, ids: seq<CardId>): Pile
    decreases |ids|
  {
    if ids == [] then p else AppendPile(Seeded(p, ids[..|ids| - 1]), ids[|ids| - 1], true)
  }

  method Pop(stacks: array<Pile>, i: int) returns (card: CardId)
    requires 0 <= i < stacks.Length
    modifies stacks
    ensures card == PopPile(old(stacks[i])).card
    ensures stacks[..] == old(stacks[..])[i := PopPile(old(stacks[i])).pile]
  {
    var list := stacks[i];
    if |list| == 0 {
      return 0;
    }
    card := list[|list| - 1].card;
    list := list[..|list| - 1];
    if |list| != 0 {
      list := list[|list| - 1 := Entry(list[|list| - 1].card, true)];
    }
    stacks[i] := list;
  }

  method Append(stacks: array<Pile>, i: int, card: CardId, isDrawstack: bool)
    requires 0 <= i < stacks.Length
    modifies stacks
    ensures stacks[..] == old(stacks[..])[i := AppendPile(old(stacks[i]), card, isDrawstack)]
  {
    var list := stacks[i];
    ghost var p := list;
    var node := Entry(card, false);
    if |list| == 0 {
      stacks[i] := [node.(faceUp := true)];
      return;
    }
    list := list + [node];
    list := list[|list| - 1 := list[|list| - 1].(faceUp := true)];
    assert list == p + [Entry(card, true)];
    if |list| >= 2 && isDrawstack {
      list := list[|list| - 2 := list[|list| - 2].(faceUp := false)];
      assert list == p[|p| - 1 := p[|p| - 1].(faceUp := false)] + [Entry(card, true)];
    }
    stacks[i] := list;
  }

  method Push(stacks: array<Pile>, i: int, card: CardId)
    requires 0 <= i < stacks.Length
    modifies stacks
    ensures stacks[..] == old(stacks[..])[i := PushPile(old(stacks[i]), card)]
  {
    var node := Entry(card, false);
    stacks[i] := [node] + stacks[i];
  }

  method RotateDrawstack(stacks: array<Pile>, i: int)
    requires 0 <= i < stacks.Length
    modifies stacks
    ensures stacks[..] == old(stacks[..])[i := Rotated(old(stacks[i]))]
  {
    var card := Pop(stacks, i);
    Push(stacks, i, card);
  }

  /** Popping a pile that shows only its tail leaves a pile that shows only its tail. */
  lemma PopKeepsOnlyTailFaceUp(p: Pile)
    requires p != [] && OnlyTailFaceUp(p)
    ensures |PopPile(p).pile| == |p| - 1 && OnlyTailFaceUp(PopPile(p).pile)
    ensures CardsOf(PopPile(p).pile) == CardsOf(p)[..|p| - 1]
  {
  }

  /**
   * Rotation keeps the cards of a non-empty pile; on an empty pile it makes a
   * face-down card 0 out of nothing.
   */
  lemma RotateKeepsCards(p: Pile)
    ensures p != [] ==> |Rotated(p)| == |p| && multiset(CardsOf(Rotated(p))) == multiset(CardsOf(p))
    ensures p == [] ==> Rotated(p) == [Entry(0, false)]
  {
    if p != [] {
      var n := |p|;
      assert CardsOf(p) == CardsOf(p[..n - 1]) + [p[n - 1].card];
      assert CardsOf(Rotated(p)) == [p[n - 1].card] + CardsOf(p[..n - 1]);
    }
  }

  /**
   * Rotating a draw pile of two or more cards that shows only its tail moves
   * the tail face-down to the head and shows the card that was under it.
   */
  lemma RotateShowsNext(p: Pile)
    requires |p| >= 2 && OnlyTailFaceUp(p)
    ensures OnlyTailFaceUp(Rotated(p))
    ensures Rotated(p)[0] == Entry(p[|p| - 1].card, false)
    ensures Rotated(p)[|p| - 1].card == p[|p| - 2].card
  {
  }

  /** A lone card is rotated onto itself face-down: nothing is left to select. */
  lemma RotateHidesLoneCard(p: Pile)
    requires |p| == 1
    ensures Rotated(p) == [Entry(p[0].card, false)]
  {
  }

  /** Appending without the draw-pile mode adds a face-up tail and changes nothing else. */
  lemma AppendPlain(p: Pile, card: CardId)
    ensures AppendPile(p, card, false) == p + [Entry(card, true)]
  {
  }

  /** Appending in draw-pile mode keeps "only the tail is face-up". */
  lemma AppendDrawShowsOnlyTail(p: Pile, card: CardId)
    requires OnlyTailFaceUp(p)
    ensures OnlyTailFaceUp(AppendPile(p, card, true))
    ensures CardsOf(AppendPile(p, card, true)) == CardsOf(p) + [card]
  {
  }

  /** Seeding an empty pile gives a pile of exactly those cards, only the last face-up. */
  lemma {:induction false} SeededShape(ids: seq<CardId>)
    ensures CardsOf(Seeded([], ids)) == ids
    ensures OnlyTailFaceUp(Seeded([], ids))
  {
    if ids != [] {
      SeededShape(ids[..|ids| - 1]);
      AppendDrawShowsOnlyTail(Seeded([], ids[..|ids| - 1]), ids[|ids| - 1]);
    }
  }

  /** All cards on a board, whatever pile they lie in. */
  function BoardCards(piles: seq<Pile>): multiset<CardId>
    decreases |piles|
  {
    if piles == [] then multiset{}
    else BoardCards(piles[..|piles| - 1]) + multiset(CardsOf(piles[|piles| - 1]))
  }

  /** Replacing one pile changes the board's cards by exactly that pile's cards. */
  lemma {:induction false} BoardCardsUpdate(piles: seq<Pile>, i: int, q: Pile)
    requires 0 <= i < |piles|
    ensures BoardCards(piles[i := q]) + multiset(CardsOf(piles[i])) ==
            BoardCards(piles) + multiset(CardsOf(q))
    decreases |piles|
  {
    var n := |piles|;
    var updated := piles[i := q];
    var last := multiset(CardsOf(piles[n - 1]));
    if i == n - 1 {
      assert updated[..n - 1] == piles[..n - 1];
      assert BoardCards(updated) == BoardCards(piles[..n - 1]) + multiset(CardsOf(q));
      assert BoardCards(piles) == BoardCards(piles[..n - 1]) + last;
    } else {
      var prefix := piles[..n - 1];
      assert updated[..n - 1] == prefix[i := q];
      assert updated[n - 1] == piles[n - 1];
      assert prefix[i] == piles[i];
      calc {
        BoardCards(updated) + multiset(CardsOf(piles[i]));
        BoardCards(prefix[i := q]) + last + multiset(CardsOf(prefix[i]));
        (BoardCards(prefix[i := q]) + multiset(CardsOf(prefix[i]))) + last;
        { BoardCardsUpdate(prefix, i, q); }
        (BoardCards(prefix) + multiset(CardsOf(q))) + last;
        BoardCards(piles) + multiset(CardsOf(q));
      }
    }
  }

  /**
   * Replacing two piles by two others holding the same cards between them
   * keeps the board's cards.
   */
  lemma TransferKeepsCards(piles: seq<Pile>, i: int, j: int, qi: Pile, qj: Pile)
    requires 0 <= i < |piles| && 0 <= j < |piles| && i != j
    requires multiset(CardsOf(qi)) + multiset(CardsOf(qj)) ==
             multiset(CardsOf(piles[i])) + multiset(CardsOf(piles[j]))
    ensures BoardCards(piles[i := qi][j := qj]) == BoardCards(piles)
  {
    var step := piles[i := qi];
    var final := step[j := qj];
    BoardCardsUpdate(piles, i, qi);
    assert step[j] == piles[j];
    BoardCardsUpdate(step, j, qj);
    var pi, pj := multiset(CardsOf(piles[i])), multiset(CardsOf(piles[j]));
    var mi, mj := multiset(CardsOf(qi)), multiset(CardsOf(qj));
    var s, f, p := BoardCards(step), BoardCards(final), BoardCards(piles);
    assert s + pi == p + mi;
    assert f + pj == s + mj;
    calc {
      f + (pi + pj);
      (f + pj) + pi;
      (s + mj) + pi;
      (s + pi) + mj;
      (p + mi) + mj;
      p + (pi + pj);
    }
    forall x | true
      ensures f[x] == p[x]
    {
      assert (f + (pi + pj))[x] == (p + (pi + pj))[x];
    }
  }
}
