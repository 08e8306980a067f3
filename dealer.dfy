/**
 * Seeding the draw pile from the configuration words and the triangular deal
 * onto the four tableau piles.
 *
 * The configuration is given as the sequence of whitespace-separated words of
 * the file; each card is a colour word followed by a rank word.
 */
module Dealer {
  import opened Values
  import opened Cards
  import opened Piles

  const DeckSize := 26

  /**
   * readCard: fewer than two words left is an unreadable file; otherwise the
   * two words go through strToCard.
   */
  function CardAt(words: seq<string>, pos: nat): (r: Parsed)
    ensures r.rv == EverythingOk <==> pos + 1 < |words| && ColorBit(words[pos]).Some?
  {
    if pos + 1 >= |words| then Parsed(InvalidFile, None) else ParseCard(words[pos], words[pos + 1])
  }

  method ReadCard(words: seq<string>, pos: nat) returns (rv: ReturnValue, written: Option<CardId>)
    ensures Parsed(rv, written) == CardAt(words, pos)
  {
    if pos + 1 >= |words| {
      return InvalidFile, None;
    }
    rv, written := StrToCard(words[pos], words[pos + 1]);
  }

  datatype ScanOutcome =
    | Reading     // every card so far was read and appended
    | Unreadable  // a card could not be read: readConfig gives INVALID_FILE
    | Undefined   // the id about to be used is unassigned or 26: undefined in the source

  /**
   * The state of the readConfig loop: the ids appended so far, its `card`
   * variable (None before the first assignment) and how the loop stands.
   */
  datatype Scan = Scan(ids: seq<CardId>, card: Option<int>, outcome: ScanOutcome)

  /** What each readCard call of readConfig gives: cards 0..25, then the 27th. */
  function CardReads(words: seq<string>): (r: seq<Parsed>)
    ensures |r| == DeckSize + 1 && forall i :: 0 <= i <= DeckSize ==> r[i] == CardAt(words, 2 * i)
  {
    seq(DeckSize + 1, i requires 0 <= i <= DeckSize => CardAt(words, 2 * i))
  }

  /**
   * The id one turn of the loop appends: a known rank assigns the card; an
   * unknown rank keeps the variable, which the post-increment after each
   * append has moved one past the previous id.
   */
  function NextId(card: Option<int>, parsed: Parsed): Option<int> {
    if parsed.written.Some? then Some(parsed.written.value as int) else card
  }

  /** One turn of the loop, given what its readCard call gave. */
  function ScanStep(s: Scan, parsed: Parsed): Scan {
    if s.outcome != Reading then s
    else if parsed.rv != EverythingOk then s.(outcome := Unreadable)
    else
      var next := NextId(s.card, parsed);
      if next.None? || !(0 <= next.value < DeckSize) then s.(outcome := Undefined)
      else Scan(s.ids + [next.value], Some(next.value + 1), Reading)
  }

  /** The loop state after its first `n` turns. */
  function ScanAfter(results: seq<Parsed>, n: nat): (s: Scan)
    requires n <= |results|
    ensures s.outcome == Reading ==> |s.ids| == n
    ensures |s.ids| <= n
  {
    if n == 0 then Scan([], None, Reading) else ScanStep(ScanAfter(results, n - 1), results[n - 1])
  }

  /** Once the loop has stopped, later turns change nothing. */
  lemma {:induction false} ScanStopped(results: seq<Parsed>, n: nat, m: nat)
    requires n <= m <= |results|
    requires ScanAfter(results, n).outcome != Reading
    ensures ScanAfter(results, m) == ScanAfter(results, n)
    decreases m
  {
    if m > n {
      ScanStopped(results, n, m - 1);
    }
  }

  /**
   * When reading does not end in undefined behaviour, every card read gets an
   * id in 0..25.
   */
  lemma ScanDefined(results: seq<Parsed>, index: nat)
    requires index < DeckSize < |results|
    requires ScanAfter(results, DeckSize).outcome != Undefined
    requires ScanAfter(results, index).outcome == Reading && results[index].rv == EverythingOk
    ensures var next := NextId(ScanAfter(results, index).card, results[index]);
      next.Some? && 0 <= next.value < DeckSize
  {
    if ScanAfter(results, index + 1).outcome != Reading {
      ScanStopped(results, index + 1, DeckSize);
    }
  }

  /**
   * When every card read names a known rank, the loop appends exactly the
   * named cards in order, duplicates included.
   */
  lemma {:induction false} ScanAllNamed(results: seq<Parsed>, n: nat)
    requires n <= DeckSize < |results|
    requires forall i :: 0 <= i < n ==> results[i].rv == EverythingOk && results[i].written.Some?
    ensures ScanAfter(results, n).outcome == Reading
    ensures ScanAfter(results, n).ids == seq(n, i requires 0 <= i < n => results[i].written.value)
  {
    if n > 0 {
      ScanAllNamed(results, n - 1);
      var prev := seq(n - 1, i requires 0 <= i < n - 1 => results[i].written.value);
      assert seq(n, i requires 0 <= i < n => results[i].written.value) ==
        prev + [results[n - 1].written.value];
    }
  }

  /**
   * After a card with id c, cards whose rank is unknown take the ids c + 1,
   * c + 2, ... from the post-increment, as long as they stay below 26.
   */
  lemma {:induction false} ScanCountsUp(results: seq<Parsed>, c: CardId, n: nat)
    requires 1 <= n <= DeckSize < |results| && c + n <= DeckSize
    requires results[0] == Parsed(EverythingOk, Some(c))
    requires forall i :: 1 <= i < n ==> results[i] == Parsed(EverythingOk, None)
    ensures ScanAfter(results, n) ==
      Scan(seq(n, i requires 0 <= i < n => c + i), Some(c + n), Reading)
  {
    if n > 1 {
      ScanCountsUp(results, c, n - 1);
      var prev := seq(n - 1, i requires 0 <= i < n - 1 => c + i);
      assert seq(n, i requires 0 <= i < n => c + i) == prev + [c + n - 1];
    }
  }

  /** How reading the configuration ends. */
  function ScanOf(words: seq<string>): ScanOutcome {
    ScanAfter(CardReads(words), DeckSize).outcome
  }

  /** The ids a configuration puts into the draw pile, in order. */
  function Deck(words: seq<string>): seq<CardId> {
    ScanAfter(CardReads(words), DeckSize).ids
  }

  /**
   * What readConfig returns: success needs all 26 cards read and no 27th card
   * readable after them.
   */
  function ConfigResult(words: seq<string>): (r: ReturnValue)
    ensures r == EverythingOk || r == InvalidFile
    ensures r == EverythingOk ==> |Deck(words)| == DeckSize
    ensures r == EverythingOk <==>
      ScanOf(words) == Reading && CardReads(words)[DeckSize].rv != EverythingOk
  {
    DeckResult(CardReads(words))
  }

  /** readCard for card `index`, stated over the results the caller expects. */
  method ReadCardAt(words: seq<string>, index: nat, ghost results: seq<Parsed>)
    returns (rv: ReturnValue, written: Option<CardId>)
    requires index < |results| == DeckSize + 1
    requires forall pos {:trigger CardAt(words, pos)} ::
      0 <= pos <= 2 * DeckSize && pos % 2 == 0 ==> CardAt(words, pos) == results[pos / 2]
    ensures Parsed(rv, written) == results[index]
  {
    rv, written := ReadCard(words, 2 * index);
  }

  /**
   * The table meant to reject duplicates is never filled: a configuration
   * naming the black ace 26 times is accepted, and the draw pile holds 26
   * black aces.
   */
  lemma DuplicatesAccepted(words: seq<string>)
    requires |words| == 2 * DeckSize
    requires forall i :: 0 <= i < DeckSize ==> words[2 * i] == "BLACK" && words[2 * i + 1] == "A"
    ensures ConfigResult(words) == EverythingOk
    ensures Deck(words) == seq(DeckSize, i => 0)
  {
    var results := CardReads(words);
    assert ParseCard("BLACK", "A") == Parsed(EverythingOk, Some(0));
    assert forall i :: 0 <= i < DeckSize ==> results[i] == Parsed(EverythingOk, Some(0));
    ScanAllNamed(results, DeckSize);
  }

  /**
   * A rank word that names no rank is accepted, and the card it gives is one
   * past the previous card: the black ace followed by 25 cards of an unknown
   * rank fills the draw pile with all 26 different cards in order.
   */
  lemma UnknownRanksCountUp(words: seq<string>)
    requires |words| == 2 * DeckSize && words[0] == "BLACK" && words[1] == "A"
    requires forall i :: 1 <= i < DeckSize ==> words[2 * i] == "BLACK" && words[2 * i + 1] == "X"
    ensures ConfigResult(words) == EverythingOk
    ensures Deck(words) == seq(DeckSize, i => i)
  {
    var results := CardReads(words);
    assert ParseCard("BLACK", "A") == Parsed(EverythingOk, Some(0));
    assert ParseCard("BLACK", "X") == Parsed(EverythingOk, None);
    assert forall i :: 1 <= i < DeckSize ==> results[i] == Parsed(EverythingOk, None);
    ScanCountsUp(results, 0, DeckSize);
  }

  /**
   * An accepted configuration seeds an empty draw pile with 26 cards, only
   * the last face-up: enough for the ten cards of the deal.
   */
  lemma AcceptedDeck(words: seq<string>)
    requires ConfigResult(words) == EverythingOk
    ensures |Seeded([], Deck(words))| == DeckSize
    ensures CardsOf(Seeded([], Deck(words))) == Deck(words)
    ensures OnlyTailFaceUp(Seeded([], Deck(words)))
  {
    SeededShape(Deck(words));
  }

  /** Seeding one id more appends that id to the seeded pile. */
  lemma SeededSnoc(p: Pile, ids: seq<CardId>, id: CardId)
    ensures Seeded(p, ids + [id]) == AppendPile(Seeded(p, ids), id, true)
  {
    assert (ids + [id])[..|ids|] == ids;
  }

  /**
   * readConfig, reading from the configuration words into pile `drawStack`;
   * the table meant to reject duplicates is never filled, so its test always
   * passes and is left out.
   */
  method ReadConfig(stacks: array<Pile>, words: seq<string>) returns (rv: ReturnValue)
    requires stacks.Length == NumberOfStacks
    requires ScanOf(words) != Undefined
    modifies stacks
    ensures rv == ConfigResult(words)
    ensures stacks[..] == old(stacks[..])[DrawStack := Seeded(old(stacks[DrawStack]), Deck(words))]
  {
    CardReadsCover(words);
    rv := ReadDeck(stacks, words, CardReads(words));
  }

  /** The results of readConfig's readCard calls, as ReadDeck expects them. */
  lemma CardReadsCover(words: seq<string>)
    ensures forall pos {:trigger CardAt(words, pos)} ::
      0 <= pos <= 2 * DeckSize && pos % 2 == 0 ==> CardAt(words, pos) == CardReads(words)[pos / 2]
  {
    forall pos | 0 <= pos <= 2 * DeckSize && pos % 2 == 0
      ensures CardAt(words, pos) == CardReads(words)[pos / 2]
    {
      assert 2 * (pos / 2) == pos;
    }
  }

  /** The result readConfig gives for the given results of its readCard calls. */
  function DeckResult(results: seq<Parsed>): ReturnValue
    requires DeckSize < |results|
  {
    if ScanAfter(results, DeckSize).outcome != Reading then InvalidFile
    else if results[DeckSize].rv == EverythingOk then InvalidFile
    else EverythingOk
  }

  /** The body of readConfig, over the results its readCard calls give. */
  method ReadDeck(stacks: array<Pile>, words: seq<string>, ghost results: seq<Parsed>)
    returns (rv: ReturnValue)
    requires stacks.Length == NumberOfStacks
    requires |results| == DeckSize + 1
    requires forall pos {:trigger CardAt(words, pos)} ::
      0 <= pos <= 2 * DeckSize && pos % 2 == 0 ==> CardAt(words, pos) == results[pos / 2]
    requires ScanAfter(results, DeckSize).outcome != Undefined
    modifies stacks
    ensures rv == DeckResult(results)
    ensures stacks[..] ==
      old(stacks[..])[DrawStack := Seeded(old(stacks[DrawStack]), ScanAfter(results, DeckSize).ids)]
  {
    var complete := ReadCards(stacks, words, results);
    if !complete {
      return InvalidFile;
    }
    var extra, _ := ReadCardAt(words, DeckSize, results);
    if extra == EverythingOk {
      return InvalidFile;
    }
    return EverythingOk;
  }

  /**
   * The loop of readConfig: read the 26 cards and append each id to the draw
   * pile, stopping at the first card that cannot be read.
   */
  method ReadCards(stacks: array<Pile>, words: seq<string>, ghost results: seq<Parsed>)
    returns (complete: bool)
    requires stacks.Length == NumberOfStacks
    requires |results| == DeckSize + 1
    requires forall pos {:trigger CardAt(words, pos)} ::
      0 <= pos <= 2 * DeckSize && pos % 2 == 0 ==> CardAt(words, pos) == results[pos / 2]
    requires ScanAfter(results, DeckSize).outcome != Undefined
    modifies stacks
    ensures complete <==> ScanAfter(results, DeckSize).outcome == Reading
    ensures stacks[..] ==
      old(stacks[..])[DrawStack := Seeded(old(stacks[DrawStack]), ScanAfter(results, DeckSize).ids)]
  {
    ghost var board, drawPile := stacks[..], stacks[DrawStack];
    var card: Option<int> := None;
    ghost var read: seq<CardId> := [];
    for index := 0 to DeckSize
      invariant ScanAfter(results, index) == Scan(read, card, Reading)
      invariant stacks[..] == board[DrawStack := Seeded(drawPile, read)]
    {
      var ok, id := ReadTurn(stacks, words, index, card, read, results);
      if !ok {
        ScanStopped(results, index + 1, DeckSize);
        return false;
      }
      SeededSnoc(drawPile, read, id);
      read := read + [id];
      card := Some(id as int + 1);
    }
    return true;
  }

  /**
   * One turn of readConfig's loop: read card `index`, take the id it names
   * or the one after the previous card, and append it to the draw pile.
   */
  method ReadTurn(stacks: array<Pile>, words: seq<string>, index: nat, card: Option<int>,
                  ghost read: seq<CardId>, ghost results: seq<Parsed>)
    returns (ok: bool, id: CardId)
    requires stacks.Length == NumberOfStacks
    requires index < DeckSize && |results| == DeckSize + 1
    requires forall pos {:trigger CardAt(words, pos)} ::
      0 <= pos <= 2 * DeckSize && pos % 2 == 0 ==> CardAt(words, pos) == results[pos / 2]
    requires ScanAfter(results, DeckSize).outcome != Undefined
    requires ScanAfter(results, index) == Scan(read, card, Reading)
    modifies stacks
    ensures ok ==> ScanAfter(results, index + 1) == Scan(read + [id], Some(id + 1), Reading)
    ensures ok ==>
      stacks[..] == old(stacks[..])[DrawStack := AppendPile(old(stacks[DrawStack]), id, true)]
    ensures !ok ==> ScanAfter(results, index + 1) == Scan(read, card, Unreadable) && stacks[..] == old(stacks[..])
  {
    var readError, written := ReadCardAt(words, index, results);
    if readError != EverythingOk {
      return false, 0;
    }
    var next := card;
    if written.Some? {
      next := Some(written.value);
    }
    ScanDefined(results, index);
    id := next.value;
    Append(stacks, DrawStack, id, true);
    ok := true;
  }

  /** One step of the deal: pop the draw pile and append the card to pile `col`. */
  function DealStep(piles: seq<Pile>, col: int): (r: seq<Pile>)
    requires |piles| == NumberOfStacks && 0 <= col < NumberOfStacks
    ensures |r| == NumberOfStacks
  {
    var popped := PopPile(piles[DrawStack]);
    var afterPop := piles[DrawStack := popped.pile];
    afterPop[col := AppendPile(afterPop[col], popped.card, false)]
  }

  /** The inner loop of arrangeCards: one card to each of piles col..4. */
  function DealCols(piles: seq<Pile>, col: int): (r: seq<Pile>)
    requires |piles| == NumberOfStacks && 1 <= col <= NumberOfGamestacks + 1
    ensures |r| == NumberOfStacks
    decreases NumberOfGamestacks + 1 - col
  {
    if col > NumberOfGamestacks then piles else DealCols(DealStep(piles, col), col + 1)
  }

  /** The outer loop of arrangeCards: row `row` deals to piles row..4. */
  function DealRows(piles: seq<Pile>, row: int): (r: seq<Pile>)
    requires |piles| == NumberOfStacks && 1 <= row <= NumberOfGamestacks + 1
    ensures |r| == NumberOfStacks
    decreases NumberOfGamestacks + 1 - row
  {
    if row > NumberOfGamestacks then piles else DealRows(DealCols(piles, row), row + 1)
  }

  method ArrangeCards(stacks: array<Pile>)
    requires stacks.Length == NumberOfStacks
    modifies stacks
    ensures stacks[..] == DealRows(old(stacks[..]), 1)
  {
    ghost var dealt := DealRows(stacks[..], 1);
    for row := 1 to NumberOfGamestacks + 1
      invariant DealRows(stacks[..], row) == dealt
    {
      DealRowsStep(stacks[..], row);
      DealRow(stacks, row);
    }
    DealRowsStep(stacks[..], NumberOfGamestacks + 1);
  }

  /** One round of the outer deal loop. */
  lemma DealRowsStep(piles: seq<Pile>, row: int)
    requires |piles| == NumberOfStacks && 1 <= row <= NumberOfGamestacks + 1
    ensures row <= NumberOfGamestacks ==> DealRows(piles, row) == DealRows(DealCols(piles, row), row + 1)
    ensures row > NumberOfGamestacks ==> DealRows(piles, row) == piles
  {
  }

  /** The inner loop of arrangeCards: pop the draw pile onto piles row..4 in turn. */
  method DealRow(stacks: array<Pile>, row: int)
    requires stacks.Length == NumberOfStacks && 1 <= row <= NumberOfGamestacks
    modifies stacks
    ensures stacks[..] == DealCols(old(stacks[..]), row)
  {
    ghost var dealt := DealCols(stacks[..], row);
    for col := row to NumberOfGamestacks + 1
      invariant DealCols(stacks[..], col) == dealt
    {
      ghost var before := stacks[..];
      DealColsStep(before, col);
      var card := Pop(stacks, DrawStack);
      Append(stacks, col, card, false);
      assert stacks[..] == DealStep(before, col);
    }
    DealColsStep(stacks[..], NumberOfGamestacks + 1);
  }

  /** One turn of the inner deal loop. */
  lemma DealColsStep(piles: seq<Pile>, col: int)
    requires |piles| == NumberOfStacks && 1 <= col <= NumberOfGamestacks + 1
    ensures col <= NumberOfGamestacks ==> DealCols(piles, col) == DealCols(DealStep(piles, col), col + 1)
    ensures col > NumberOfGamestacks ==> DealCols(piles, col) == piles
  {
  }

  /** Revealing a pile does not change any entry below its tail. */
  lemma RevealPrefix(p: Pile, m: nat)
    requires m < |p|
    ensures Reveal(p)[..m] == p[..m]
  {
  }

  /**
   * One deal step, while the draw pile is the first k entries of `d` with its
   * tail revealed: entry k - 1 goes face-up onto pile `col`, and the draw pile
   * becomes the first k - 1 entries with the tail revealed.
   */
  lemma DealStepEffect(b: seq<Pile>, col: int, d: Pile, k: nat)
    requires |b| == NumberOfStacks && 1 <= col <= NumberOfGamestacks
    requires 1 <= k <= |d| && b[DrawStack] == Reveal(d[..k])
    ensures var r := DealStep(b, col);
      && r[DrawStack] == Reveal(d[..k - 1])
      && r[col] == b[col] + [Entry(d[k - 1].card, true)]
      && forall c :: 0 < c < NumberOfStacks && c != col ==> r[c] == b[c]
  {
    RevealPrefix(d[..k], k - 1);
    assert d[..k][..k - 1] == d[..k - 1];
    assert CardsOf(b[DrawStack])[k - 1] == d[k - 1].card;
  }

  /**
   * The inner deal loop from column `col` takes one entry per pile col..4
   * from the top of the draw pile and reveals the new top.
   */
  lemma {:induction false} DealColsDraw(b: seq<Pile>, col: int, d: Pile, k: nat)
    requires |b| == NumberOfStacks && 1 <= col <= NumberOfGamestacks + 1
    requires NumberOfGamestacks + 1 - col <= k <= |d| && b[DrawStack] == Reveal(d[..k])
    ensures DealCols(b, col)[DrawStack] == Reveal(d[..k - (NumberOfGamestacks + 1 - col)])
    decreases NumberOfGamestacks + 1 - col
  {
    if col <= NumberOfGamestacks {
      DealStepEffect(b, col, d, k);
      DealColsDraw(DealStep(b, col), col + 1, d, k - 1);
    }
  }

  /**
   * The inner deal loop from column `col`, as seen from pile `c`: pile c
   * (col <= c <= 4) receives, face-up, the (c - col)-th entry from the top
   * of the draw pile; the other piles are left alone.
   */
  lemma {:induction false} DealColsPile(b: seq<Pile>, col: int, d: Pile, k: nat, c: int)
    requires |b| == NumberOfStacks && 1 <= col <= NumberOfGamestacks + 1
    requires NumberOfGamestacks + 1 - col <= k <= |d| && b[DrawStack] == Reveal(d[..k])
    requires 0 < c < NumberOfStacks
    ensures DealCols(b, col)[c] ==
      if col <= c <= NumberOfGamestacks then b[c] + [Entry(d[k - 1 - (c - col)].card, true)] else b[c]
    decreases NumberOfGamestacks + 1 - col
  {
    if col <= NumberOfGamestacks {
      DealStepEffect(b, col, d, k);
      DealColsPile(DealStep(b, col), col + 1, d, k - 1, c);
      DealColsPileStep(b, col, d, k, c);
    } else {
      DealColsStep(b, col);
    }
  }

  /** One turn of the inner deal loop, as seen from pile `c`. */
  lemma DealColsPileStep(b: seq<Pile>, col: int, d: Pile, k: nat, c: int)
    requires |b| == NumberOfStacks && 1 <= col <= NumberOfGamestacks
    requires NumberOfGamestacks + 1 - col <= k <= |d| && b[DrawStack] == Reveal(d[..k])
    requires 0 < c < NumberOfStacks
    requires var b1 := DealStep(b, col);
      DealCols(b1, col + 1)[c] ==
        if col + 1 <= c <= NumberOfGamestacks then b1[c] + [Entry(d[k - 2 - (c - (col + 1))].card, true)]
        else b1[c]
    ensures DealCols(b, col)[c] ==
      if col <= c <= NumberOfGamestacks then b[c] + [Entry(d[k - 1 - (c - col)].card, true)] else b[c]
  {
    DealColsStep(b, col);
    DealStepEffect(b, col, d, k);
    if col < c <= NumberOfGamestacks {
      assert k - 2 - (c - (col + 1)) == k - 1 - (c - col);
    }
  }

  /** Entries appended one at a time form one block after the pile. */
  lemma AppendedInTurn(p: Pile, es: seq<Entry>)
    requires 2 <= |es| <= 4
    ensures |es| == 2 ==> (p + [es[0]]) + [es[1]] == p + es
    ensures |es| == 3 ==> ((p + [es[0]]) + [es[1]]) + [es[2]] == p + es
    ensures |es| == 4 ==> (((p + [es[0]]) + [es[1]]) + [es[2]]) + [es[3]] == p + es
  {
    assert es == [es[0], es[1]] + es[2..];
  }

  /** The outer deal loop is the inner loop for rows 1 to 4 in turn. */
  lemma DealRowsUnfold(b: seq<Pile>)
    requires |b| == NumberOfStacks
    ensures DealRows(b, 1) == DealCols(DealCols(DealCols(DealCols(b, 1), 2), 3), 4)
  {
    var b1 := DealCols(b, 1);
    var b2 := DealCols(b1, 2);
    var b3 := DealCols(b2, 3);
    assert DealRows(b, 1) == DealRows(b1, 2) == DealRows(b2, 3) == DealRows(b3, 4);
  }

  /** The deal as the four rounds of the inner loop, round by round. */
  lemma DealRounds(b: seq<Pile>, d: Pile)
    requires |b| == NumberOfStacks && |d| >= 10 && b[DrawStack] == Reveal(d)
    ensures var b1 := DealCols(b, 1);
      var b2 := DealCols(b1, 2);
      var b3 := DealCols(b2, 3);
      var n := |d|;
      && DealRows(b, 1) == DealCols(b3, 4)
      && b1[DrawStack] == Reveal(d[..n - 4]) && b2[DrawStack] == Reveal(d[..n - 7])
      && b3[DrawStack] == Reveal(d[..n - 9])
  {
    var n := |d|;
    assert d[..n] == d;
    DealColsDraw(b, 1, d, n);
    DealColsDraw(DealCols(b, 1), 2, d, n - 4);
    DealColsDraw(DealCols(DealCols(b, 1), 2), 3, d, n - 7);
    DealRowsUnfold(b);
  }

  /** Pile 3 after the deal: the cards of rounds 1, 2 and 3. */
  lemma DealPile3(b: seq<Pile>, d: Pile)
    requires |b| == NumberOfStacks && |d| >= 10 && b[DrawStack] == Reveal(d)
    ensures var n := |d|;
      DealRows(b, 1)[3] == b[3] + [Entry(d[n - 3].card, true), Entry(d[n - 6].card, true),
                                   Entry(d[n - 8].card, true)]
  {
    var n := |d|;
    DealRounds(b, d);
    var b1 := DealCols(b, 1);
    var b2 := DealCols(b1, 2);
    var b3 := DealCols(b2, 3);
    DealColsPile(b, 1, d, n, 3);
    DealColsPile(b1, 2, d, n - 4, 3);
    DealColsPile(b2, 3, d, n - 7, 3);
    DealColsPile(b3, 4, d, n - 9, 3);
    AppendedInTurn(b[3], [Entry(d[n - 3].card, true), Entry(d[n - 6].card, true),
                          Entry(d[n - 8].card, true)]);
  }

  /** Pile 4 after the deal: the cards of rounds 1 to 4. */
  lemma DealPile4(b: seq<Pile>, d: Pile)
    requires |b| == NumberOfStacks && |d| >= 10 && b[DrawStack] == Reveal(d)
    ensures var n := |d|;
      DealRows(b, 1)[4] == b[4] + [Entry(d[n - 4].card, true), Entry(d[n - 7].card, true),
                                   Entry(d[n - 9].card, true), Entry(d[n - 10].card, true)]
  {
    var n := |d|;
    DealRounds(b, d);
    var b1 := DealCols(b, 1);
    var b2 := DealCols(b1, 2);
    var b3 := DealCols(b2, 3);
    DealColsPile(b, 1, d, n, 4);
    DealColsPile(b1, 2, d, n - 4, 4);
    DealColsPile(b2, 3, d, n - 7, 4);
    DealColsPile(b3, 4, d, n - 9, 4);
    AppendedInTurn(b[4], [Entry(d[n - 4].card, true), Entry(d[n - 7].card, true),
                          Entry(d[n - 9].card, true), Entry(d[n - 10].card, true)]);
  }

  /** Pile 1 after the deal: the card of round 1. */
  lemma DealPile1(b: seq<Pile>, d: Pile)
    requires |b| == NumberOfStacks && |d| >= 10 && b[DrawStack] == Reveal(d)
    ensures DealRows(b, 1)[1] == b[1] + [Entry(d[|d| - 1].card, true)]
  {
    var n := |d|;
    DealRounds(b, d);
    var b1 := DealCols(b, 1);
    var b2 := DealCols(b1, 2);
    var b3 := DealCols(b2, 3);
    DealColsPile(b, 1, d, n, 1);
    DealColsPile(b1, 2, d, n - 4, 1);
    DealColsPile(b2, 3, d, n - 7, 1);
    DealColsPile(b3, 4, d, n - 9, 1);
  }

  /** Pile 2 after the deal: the cards of rounds 1 and 2. */
  lemma DealPile2(b: seq<Pile>, d: Pile)
    requires |b| == NumberOfStacks && |d| >= 10 && b[DrawStack] == Reveal(d)
    ensures var n := |d|;
      DealRows(b, 1)[2] == b[2] + [Entry(d[n - 2].card, true), Entry(d[n - 5].card, true)]
  {
    var n := |d|;
    DealRounds(b, d);
    var b1 := DealCols(b, 1);
    var b2 := DealCols(b1, 2);
    var b3 := DealCols(b2, 3);
    DealColsPile(b, 1, d, n, 2);
    DealColsPile(b1, 2, d, n - 4, 2);
    DealColsPile(b2, 3, d, n - 7, 2);
    DealColsPile(b3, 4, d, n - 9, 2);
    AppendedInTurn(b[2], [Entry(d[n - 2].card, true), Entry(d[n - 5].card, true)]);
  }

  /** The draw pile and the deposit piles after the deal. */
  lemma DealDrawAndDeposits(b: seq<Pile>, d: Pile)
    requires |b| == NumberOfStacks && |d| >= 10 && b[DrawStack] == Reveal(d)
    ensures var r, n := DealRows(b, 1), |d|;
      && r[DrawStack] == Reveal(d[..n - 10])
      && r[DepositStack1] == b[DepositStack1] && r[DepositStack2] == b[DepositStack2]
  {
    var n := |d|;
    DealRounds(b, d);
    var b1 := DealCols(b, 1);
    var b2 := DealCols(b1, 2);
    var b3 := DealCols(b2, 3);
    DealColsDraw(b3, 4, d, n - 9);
    DealColsPile(b, 1, d, n, DepositStack1);
    DealColsPile(b1, 2, d, n - 4, DepositStack1);
    DealColsPile(b2, 3, d, n - 7, DepositStack1);
    DealColsPile(b3, 4, d, n - 9, DepositStack1);
    DealColsPile(b, 1, d, n, DepositStack2);
    DealColsPile(b1, 2, d, n - 4, DepositStack2);
    DealColsPile(b2, 3, d, n - 7, DepositStack2);
    DealColsPile(b3, 4, d, n - 9, DepositStack2);
  }

  /**
   * The triangular deal, from a draw pile d of at least ten cards whose tail
   * is face-up: pile c (1..4) receives c cards face-up, the card dealt to it
   * in each of rounds 1..c; the draw pile loses its top ten cards and shows
   * its new tail; the deposit piles are untouched.
   */
  lemma DealEffect(b: seq<Pile>)
    requires |b| == NumberOfStacks && |b[DrawStack]| >= 10 && b[DrawStack][|b[DrawStack]| - 1].faceUp
    ensures var r, d, n := DealRows(b, 1), b[DrawStack], |b[DrawStack]|;
      && r[DrawStack] == Reveal(d[..n - 10])
      && r[1] == b[1] + [Entry(d[n - 1].card, true)]
      && r[2] == b[2] + [Entry(d[n - 2].card, true), Entry(d[n - 5].card, true)]
      && r[3] == b[3] + [Entry(d[n - 3].card, true), Entry(d[n - 6].card, true),
                         Entry(d[n - 8].card, true)]
      && r[4] == b[4] + [Entry(d[n - 4].card, true), Entry(d[n - 7].card, true),
                         Entry(d[n - 9].card, true), Entry(d[n - 10].card, true)]
      && r[DepositStack1] == b[DepositStack1] && r[DepositStack2] == b[DepositStack2]
  {
    var d := b[DrawStack];
    assert Reveal(d) == d;
    DealPile1(b, d);
    DealPile2(b, d);
    DealDrawAndDeposits(b, d);
    DealPile3(b, d);
    DealPile4(b, d);
  }

  /** The board main has after readConfig puts `deck` on an empty board of seven piles. */
  function SeededBoard(deck: seq<CardId>): (r: seq<Pile>)
    ensures |r| == NumberOfStacks
  {
    [Seeded([], deck), [], [], [], [], [], []]
  }

  /**
   * The opening position, tableau side: after the deal from the 26 cards of
   * an accepted configuration, tableau pile c holds c face-up cards, dealt
   * row by row from the top of the draw pile, and both deposit piles are
   * empty.
   */
  lemma OpeningTableau(deck: seq<CardId>)
    requires |deck| == DeckSize
    ensures var r := DealRows(SeededBoard(deck), 1);
      && r[1] == [Entry(deck[25], true)]
      && r[2] == [Entry(deck[24], true), Entry(deck[21], true)]
      && r[3] == [Entry(deck[23], true), Entry(deck[20], true), Entry(deck[18], true)]
      && r[4] == [Entry(deck[22], true), Entry(deck[19], true), Entry(deck[17], true),
                  Entry(deck[16], true)]
      && r[DepositStack1] == [] && r[DepositStack2] == []
  {
    var b := SeededBoard(deck);
    SeededShape(deck);
    DealEffect(b);
  }

  /**
   * The opening position, draw side: the draw pile keeps the first 16 cards
   * of the deck and shows only its tail.
   */
  lemma OpeningDrawPile(deck: seq<CardId>)
    requires |deck| == DeckSize
    ensures var r := DealRows(SeededBoard(deck), 1);
      |r[DrawStack]| == 16 && OnlyTailFaceUp(r[DrawStack]) && CardsOf(r[DrawStack]) == deck[..16]
  {
    var b := SeededBoard(deck);
    var d := b[DrawStack];
    SeededShape(deck);
    assert Reveal(d) == d;
    DealDrawAndDeposits(b, d);
    RevealedPrefixShape(d, 16);
  }

  /** A prefix of a pile that shows only its tail, with its own tail revealed, shows only that tail. */
  lemma RevealedPrefixShape(d: Pile, k: nat)
    requires 0 < k <= |d| && OnlyTailFaceUp(d)
    ensures |Reveal(d[..k])| == k && OnlyTailFaceUp(Reveal(d[..k]))
    ensures CardsOf(Reveal(d[..k])) == CardsOf(d)[..k]
  {
  }
}
