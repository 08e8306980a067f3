/**
 * Cards of the 26-card deck and the two ordering rules.
 * A card id c in 0..25 has rank c / 2 (0 is the Ace, 12 the King) and
 * colour c % 2 (0 is black, 1 is red).
 */
module Cards {
  import opened Values

  const NumberOfGamestacks := 4
  const NumberOfCardfaces := 2
  const BlackKing := 24

  type CardId = c: int | 0 <= c < 26

  function Rank(c: CardId): int { c / 2 }

  function Color(c: CardId): int { c % 2 }

  /**
   * Whether `top` may lie on `bottom` in pile `targetStack`: piles up to 4 are
   * tableau piles (alternating colour, strictly lower rank), the others are
   * deposit piles (same colour, next rank up).
   */
  function TwoCardsInOrder(bottom: CardId, top: CardId, targetStack: int): (r: bool)
    ensures targetStack <= NumberOfGamestacks ==>
      (r <==> Color(bottom) != Color(top) && Rank(bottom) > Rank(top))
    ensures targetStack > NumberOfGamestacks ==>
      (r <==> Color(bottom) == Color(top) && Rank(top) == Rank(bottom) + 1)
  {
    !((targetStack <= NumberOfGamestacks &&
       (bottom % 2 == top % 2 || bottom / 2 <= top / 2)) ||
      (targetStack > NumberOfGamestacks &&
       (bottom % 2 != top % 2 || top - bottom != 2)))
  }

  /** The rank names, in rank order. */
  const Ranks: seq<string> := ["A", "2", "3", "4", "5", "6", "7", "8", "9", "10", "J", "Q", "K"]

  /** The first position at or after `from` where `rank` names a rank. */
  function RankIndex(rank: string, from: nat): (r: Option<nat>)
    decreases |Ranks| - from
    ensures r.Some? ==> from <= r.value < |Ranks| && Ranks[r.value] == rank
    ensures r.Some? ==> forall j :: from <= j < r.value ==> Ranks[j] != rank
    ensures r.None? ==> forall j :: from <= j < |Ranks| ==> Ranks[j] != rank
  {
    if from >= |Ranks| then None
    else if Ranks[from] == rank then Some(from)
    else RankIndex(rank, from + 1)
  }

  /** The colour bit a colour word stands for, if it is one. */
  function ColorBit(color: string): (r: Option<int>)
    ensures r.Some? <==> color == "BLACK" || color == "RED"
    ensures r == Some(0) <==> color == "BLACK"
    ensures r == Some(1) <==> color == "RED"
  {
    if color == "BLACK" then Some(0)
    else if color == "RED" then Some(1)
    else None
  }

  /** What strToCard returns, and the id it writes to `*card` (None: left untouched). */
  datatype Parsed = Parsed(rv: ReturnValue, written: Option<CardId>)

  /** The outcome of strToCard. */
  function ParseCard(color: string, rank: string): Parsed {
    match ColorBit(color)
    case None => Parsed(InvalidCommand, None)
    case Some(bit) =>
      match RankIndex(rank, 0)
      case None => Parsed(EverythingOk, None)
      case Some(index) => Parsed(EverythingOk, Some(2 * index + bit))
  }

  /**
   * An unknown colour is an invalid command; a known colour is accepted, and
   * the card is written only when the rank is known, with that rank and colour.
   */
  lemma ParseCardMeaning(color: string, rank: string)
    ensures ParseCard(color, rank).rv ==
      (if color == "BLACK" || color == "RED" then EverythingOk else InvalidCommand)
    ensures ParseCard(color, rank).written.Some? <==>
      (color == "BLACK" || color == "RED") && rank in Ranks
    ensures ParseCard(color, rank).written.Some? ==>
      Ranks[Rank(ParseCard(color, rank).written.value)] == rank &&
      Color(ParseCard(color, rank).written.value) == (if color == "BLACK" then 0 else 1)
  {
    match RankIndex(rank, 0)
    case None =>
      assert rank !in Ranks;
    case Some(index) =>
      if ColorBit(color).Some? {
        var card: CardId := 2 * index + ColorBit(color).value;
        assert Rank(card) == index && Color(card) == ColorBit(color).value;
      }
  }

  /** strToCard: the colour check, then the search of the rank table. */
  method StrToCard(color: string, rank: string) returns (rv: ReturnValue, written: Option<CardId>)
    ensures Parsed(rv, written) == ParseCard(color, rank)
  {
    written := None;
    if color != "BLACK" && color != "RED" {
      return InvalidCommand, None;
    }
    var index := 0;
    while index < 13
      invariant 0 <= index <= 13
      invariant forall j :: 0 <= j < index ==> Ranks[j] != rank
    {
      if Ranks[index] == rank {
        written := Some(index * 2 + (if color == "BLACK" then 0 else 1));
        break;
      }
      index := index + 1;
    }
    rv := EverythingOk;
  }
}
