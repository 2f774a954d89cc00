/**
 * Bingo against 5×5 cards, stated on values. The card objects and the game
 * drivers are proved against these definitions:
 * - where a card keeps each of its numbers;
 * - which drawn numbers land on it;
 * - when one of its rows or columns is complete;
 * - what it scores;
 * - which card wins first and which wins last.
 */
module BingoRules {
  const CARD_WIDTH: nat := 5
  const CARD_HEIGHT: nat := 5
  const CARD_SIZE: nat := 25

  /** A number on a card or a drawn number: an unsigned byte. */
  type U8 = x: nat | x < 256

  /** The column and row of a slot of a card. */
  datatype Place = Place(column: nat, row: nat)

  /** A column or a row of a card, by its index. */
  datatype Line = Column(column: nat) | Row(row: nat)

  /** The place of the slot at index `i` of the 25 values, read row by row. */
  function PlaceOf(i: nat): (p: Place)
    ensures p.row * CARD_WIDTH + p.column == i
    ensures p.column < CARD_WIDTH
    ensures i < CARD_SIZE ==> p.row < CARD_HEIGHT
  {
    Place(i % CARD_HEIGHT, i / CARD_WIDTH)
  }

  predicate OnLine(p: Place, l: Line)
  {
    match l
    case Column(c) => p.column == c
    case Row(r) => p.row == r
  }

  function Sum(s: seq<U8>): nat
  {
    if s == [] then 0 else Sum(s[..|s| - 1]) + s[|s| - 1]
  }

  predicate Distinct(s: seq<U8>)
  {
    forall i, j | 0 <= i < j < |s| :: s[i] != s[j]
  }

  /** Index `i` holds the last occurrence of its value in `values`. */
  predicate LastOccurrence(values: seq<U8>, i: nat)
    requires i < |values|
  {
    forall j | i < j < |values| :: values[j] != values[i]
  }

  /**
   * The value-to-place table a card builds from its numbers. Each number maps
   * to the place of its last occurrence, because a later copy overwrites an
   * earlier one.
   */
  function Positions(values: seq<U8>): map<U8, Place>
  {
    if values == [] then map[]
    else Positions(values[..|values| - 1])[values[|values| - 1] := PlaceOf(|values| - 1)]
  }

  /** The table holds exactly the card's numbers, each at a place of the card. */
  lemma {:induction false} PositionsKeys(values: seq<U8>)
    ensures forall v :: v in Positions(values) <==> v in values
    ensures forall v | v in Positions(values) ::
      Positions(values)[v].column < CARD_WIDTH && Positions(values)[v].row * CARD_WIDTH + Positions(values)[v].column < |values|
  {
    if values != [] {
      var front := values[..|values| - 1];
      assert values == front + [values[|values| - 1]];
      PositionsKeys(front);
    }
  }

  /** Each number is kept at the place of its last occurrence. */
  lemma {:induction false} PositionsLast(values: seq<U8>, i: nat)
    requires i < |values| && LastOccurrence(values, i)
    ensures values[i] in Positions(values) && Positions(values)[values[i]] == PlaceOf(i)
  {
    var front := values[..|values| - 1];
    if i < |values| - 1 {
      assert LastOccurrence(front, i);
      PositionsLast(front, i);
    }
  }

  /** The drawn numbers that are on the card, in drawing order. */
  function Hits(values: seq<U8>, draws: seq<U8>): seq<U8>
  {
    if draws == [] then []
    else
      var d := draws[|draws| - 1];
      Hits(values, draws[..|draws| - 1]) + (if d in values then [d] else [])
  }

  /** The hits are exactly the drawn numbers that are on the card. */
  lemma {:induction false} HitsMembers(values: seq<U8>, draws: seq<U8>)
    ensures forall h :: h in Hits(values, draws) <==> h in values && h in draws
  {
    if draws != [] {
      var d := draws[|draws| - 1];
      assert draws == draws[..|draws| - 1] + [d];
      HitsMembers(values, draws[..|draws| - 1]);
    }
  }

  /** How many of `hits` sit on line `l`, looked up in the table `places`. */
  function LineHits(places: map<U8, Place>, hits: seq<U8>, l: Line): (n: nat)
    ensures n <= |hits|
  {
    if hits == [] then 0
    else
      var h := hits[|hits| - 1];
      LineHits(places, hits[..|hits| - 1], l) + (if h in places && OnLine(places[h], l) then 1 else 0)
  }

  /**
   * Some column or row has been hit five times, that is its counter, which
   * starts at five and drops by one per hit, has reached zero.
   */
  predicate Complete(places: map<U8, Place>, hits: seq<U8>)
  {
    exists k | 0 <= k < CARD_WIDTH ::
      LineHits(places, hits, Column(k)) >= CARD_HEIGHT || LineHits(places, hits, Row(k)) >= CARD_WIDTH
  }

  /** The card with numbers `values` has a complete row or column once `draws` are drawn. */
  predicate Bingo(values: seq<U8>, draws: seq<U8>)
  {
    Complete(Positions(values), Hits(values, draws))
  }

  /**
   * The score of a card after `draws`: the sum of its numbers minus the
   * drawn ones, times the last number drawn.
   */
  function Score(values: seq<U8>, draws: seq<U8>): int
    requires draws != []
  {
    (Sum(values) - Sum(Hits(values, draws))) * draws[|draws| - 1]
  }

  // ---------------------------------------------------------------------
  // Counters and sums
  // ---------------------------------------------------------------------

  lemma {:induction false} SumSnoc(s: seq<U8>, x: U8)
    ensures Sum(s + [x]) == Sum(s) + x
  {
    assert (s + [x])[..|s|] == s;
  }

  lemma {:induction false} SumAppend(a: seq<U8>, b: seq<U8>)
    ensures Sum(a + b) == Sum(a) + Sum(b)
    decreases |b|
  {
    if b == [] {
      assert a + b == a;
    } else {
      var front := b[..|b| - 1];
      assert b == front + [b[|b| - 1]];
      assert a + b == (a + front) + [b[|b| - 1]];
      SumSnoc(a + front, b[|b| - 1]);
      SumSnoc(front, b[|b| - 1]);
      SumAppend(a, front);
    }
  }

  /** Numbers drawn once each are a part of the card's numbers, so they cannot outweigh them. */
  lemma {:induction false} SumDistinctPart(s: seq<U8>, values: seq<U8>)
    requires Distinct(s)
    requires forall x | x in s :: x in values
    ensures Sum(s) <= Sum(values)
    decreases |s|
  {
    if s != [] {
      var x := s[|s| - 1];
      var front := s[..|s| - 1];
      assert x in s;
      var i :| 0 <= i < |values| && values[i] == x;
      var rest := values[..i] + values[i + 1..];
      assert values == values[..i] + [x] + values[i + 1..];
      SumAppend(values[..i] + [x], values[i + 1..]);
      SumSnoc(values[..i], x);
      SumAppend(values[..i], values[i + 1..]);
      assert Sum(values) == Sum(rest) + x;
      forall y | y in front
        ensures y in rest
      {
        var a :| 0 <= a < |front| && front[a] == y;
        assert s[a] == y && s[|s| - 1] == x;
        assert y in s;
        var b :| 0 <= b < |values| && values[b] == y;
        if b < i {
          assert rest[b] == y;
        } else {
          assert b != i;
          assert rest[b - 1] == y;
        }
      }
      assert Distinct(front);
      SumDistinctPart(front, rest);
    }
  }

  lemma {:induction false} HitsDistinct(values: seq<U8>, draws: seq<U8>)
    requires Distinct(draws)
    ensures Distinct(Hits(values, draws))
    decreases |draws|
  {
    if draws != [] {
      var front := draws[..|draws| - 1];
      assert Distinct(front);
      HitsDistinct(values, front);
      HitsMembers(values, front);
      assert draws[|draws| - 1] !in front;
    }
  }

  /** With numbers drawn at most once, the crossed numbers never outweigh the card. */
  lemma {:induction false} HitsWithinCard(values: seq<U8>, draws: seq<U8>)
    requires Distinct(draws)
    ensures Sum(Hits(values, draws)) <= Sum(values)
    ensures draws != [] ==> Score(values, draws) >= 0
  {
    HitsDistinct(values, draws);
    HitsMembers(values, draws);
    SumDistinctPart(Hits(values, draws), values);
    if draws != [] {
      var left := Sum(values) - Sum(Hits(values, draws));
      assert left >= 0;
      assert Score(values, draws) == left * draws[|draws| - 1];
    }
  }

  /** One more draw: the hits grow by that number exactly when it is on the card. */
  lemma {:induction false} HitsSnoc(values: seq<U8>, draws: seq<U8>, d: U8)
    ensures Hits(values, draws + [d]) == Hits(values, draws) + (if d in values then [d] else [])
  {
    assert (draws + [d])[..|draws|] == draws;
  }

  lemma {:induction false} LineHitsSnoc(places: map<U8, Place>, hits: seq<U8>, h: U8, l: Line)
    ensures LineHits(places, hits + [h], l)
         == LineHits(places, hits, l) + (if h in places && OnLine(places[h], l) then 1 else 0)
  {
    assert (hits + [h])[..|hits|] == hits;
  }

  /** Nothing is complete before any number is drawn. */
  lemma {:induction false} NoBingoYet(values: seq<U8>)
    ensures !Bingo(values, [])
  {
    assert Hits(values, []) == [];
  }

  /** A complete line stays complete when one more number is drawn. */
  lemma {:induction false} BingoStays(values: seq<U8>, draws: seq<U8>, d: U8)
    requires Bingo(values, draws)
    ensures Bingo(values, draws + [d])
  {
    var places := Positions(values);
    var hits := Hits(values, draws);
    var next := Hits(values, draws + [d]);
    HitsSnoc(values, draws, d);
    var k :| 0 <= k < CARD_WIDTH &&
      (LineHits(places, hits, Column(k)) >= CARD_HEIGHT || LineHits(places, hits, Row(k)) >= CARD_WIDTH);
    if d in values {
      assert next == hits + [d];
      LineHitsSnoc(places, hits, d, Column(k));
      LineHitsSnoc(places, hits, d, Row(k));
    } else {
      assert next == hits;
    }
    assert LineHits(places, next, Column(k)) >= CARD_HEIGHT || LineHits(places, next, Row(k)) >= CARD_WIDTH;
  }

  /** A complete line stays complete for every later prefix of the draws. */
  lemma {:induction false} BingoPrefix(values: seq<U8>, draws: seq<U8>, a: nat, b: nat)
    requires a <= b <= |draws|
    requires Bingo(values, draws[..a])
    ensures Bingo(values, draws[..b])
    decreases b - a
  {
    if a < b {
      assert draws[..a + 1] == draws[..a] + [draws[a]];
      BingoStays(values, draws[..a], draws[a]);
      BingoPrefix(values, draws, a + 1, b);
    }
  }

  /**
   * On a card with no complete line yet, drawing a number of the card
   * completes a line exactly when it completes that number's own column or row.
   */
  lemma {:induction false} CompleteStep(places: map<U8, Place>, hits: seq<U8>, v: U8)
    requires v in places && places[v].column < CARD_WIDTH && places[v].row < CARD_HEIGHT
    requires !Complete(places, hits)
    ensures Complete(places, hits + [v]) <==>
      LineHits(places, hits + [v], Column(places[v].column)) >= CARD_HEIGHT ||
      LineHits(places, hits + [v], Row(places[v].row)) >= CARD_WIDTH
  {
    if Complete(places, hits + [v]) {
      var k :| 0 <= k < CARD_WIDTH &&
        (LineHits(places, hits + [v], Column(k)) >= CARD_HEIGHT || LineHits(places, hits + [v], Row(k)) >= CARD_WIDTH);
      LineHitsSnoc(places, hits, v, Column(k));
      LineHitsSnoc(places, hits, v, Row(k));
    }
  }

  // ---------------------------------------------------------------------
  // The counters, read as the slots of the card
  // ---------------------------------------------------------------------

  /** The set of numbers in `s`. */
  function Marked(s: seq<U8>): set<U8>
  {
    set x | x in s
  }

  /** How many of the first `n` slots lie on line `l` and hold a number not in `marked`. */
  function Uncrossed(values: seq<U8>, marked: set<U8>, l: Line, n: nat): nat
    requires n <= |values|
  {
    if n == 0 then 0
    else Uncrossed(values, marked, l, n - 1) + (if OnLine(PlaceOf(n - 1), l) && values[n - 1] !in marked then 1 else 0)
  }

  /** The sum of the numbers of the first `n` slots that are not in `marked`. */
  function UncrossedSum(values: seq<U8>, marked: set<U8>, n: nat): nat
    requires n <= |values|
  {
    if n == 0 then 0
    else UncrossedSum(values, marked, n - 1) + (if values[n - 1] !in marked then values[n - 1] else 0)
  }

  /** Some column or row of the card has every slot's number in `marked`. */
  predicate FullLine(values: seq<U8>, marked: set<U8>)
    requires |values| == CARD_SIZE
  {
    exists k | 0 <= k < CARD_WIDTH ::
      Uncrossed(values, marked, Column(k), CARD_SIZE) == 0 || Uncrossed(values, marked, Row(k), CARD_SIZE) == 0
  }

  /** Marking a number that is in no slot changes no count. */
  lemma {:induction false} UncrossedOther(values: seq<U8>, marked: set<U8>, d: U8, l: Line, n: nat)
    requires n <= |values| && d !in values
    ensures Uncrossed(values, marked + {d}, l, n) == Uncrossed(values, marked, l, n)
    ensures UncrossedSum(values, marked + {d}, n) == UncrossedSum(values, marked, n)
  {
    if n > 0 {
      UncrossedOther(values, marked, d, l, n - 1);
    }
  }

  /**
   * Marking the number of slot `i`, held by no other slot, removes slot `i`
   * from the count of every line through it and from the sum.
   */
  lemma {:induction false} UncrossedMark(values: seq<U8>, marked: set<U8>, i: nat, l: Line, n: nat)
    requires n <= |values| && i < |values| && Distinct(values)
    requires values[i] !in marked
    ensures Uncrossed(values, marked + {values[i]}, l, n) + (if i < n && OnLine(PlaceOf(i), l) then 1 else 0)
         == Uncrossed(values, marked, l, n)
    ensures UncrossedSum(values, marked + {values[i]}, n) + (if i < n then values[i] else 0)
         == UncrossedSum(values, marked, n)
  {
    if n > 0 {
      UncrossedMark(values, marked, i, l, n - 1);
    }
  }

  /** With nothing marked, every line of a card has five slots and the sum is the card's sum. */
  lemma {:induction false} UncrossedEmpty(values: seq<U8>, n: nat)
    requires n <= |values|
    ensures UncrossedSum(values, {}, n) == Sum(values[..n])
  {
    if n > 0 {
      UncrossedEmpty(values, n - 1);
      assert values[..n] == values[..n - 1] + [values[n - 1]];
    }
  }

  /** How many of the first `n` slots lie on line `l`. */
  function Slots(l: Line, n: nat): nat
  {
    if n == 0 then 0 else Slots(l, n - 1) + (if OnLine(PlaceOf(n - 1), l) then 1 else 0)
  }

  lemma {:induction false} SlotsOnLine(values: seq<U8>, l: Line, n: nat)
    requires n <= |values|
    ensures Uncrossed(values, {}, l, n) == Slots(l, n)
  {
    if n > 0 {
      SlotsOnLine(values, l, n - 1);
    }
  }

  /** Column `c` gets one slot out of every five. */
  lemma {:induction false} SlotsColumn(c: nat, n: nat)
    requires c < CARD_WIDTH
    ensures Slots(Column(c), n) == (n + CARD_WIDTH - 1 - c) / CARD_WIDTH
  {
    if n > 0 {
      SlotsColumn(c, n - 1);
      var q, r := (n - 1) / CARD_WIDTH, (n - 1) % CARD_WIDTH;
      assert PlaceOf(n - 1).column == r;
      if r < c {
        assert (n + CARD_WIDTH - 1 - c) / CARD_WIDTH == q == (n - 1 + CARD_WIDTH - 1 - c) / CARD_WIDTH;
      } else if r == c {
        assert (n + CARD_WIDTH - 1 - c) / CARD_WIDTH == q + 1 && (n - 1 + CARD_WIDTH - 1 - c) / CARD_WIDTH == q;
      } else {
        assert (n + CARD_WIDTH - 1 - c) / CARD_WIDTH == q + 1 == (n - 1 + CARD_WIDTH - 1 - c) / CARD_WIDTH;
      }
    }
  }

  /** Row `r` gets the five slots from index `5r` on. */
  lemma {:induction false} SlotsRow(r: nat, n: nat)
    ensures Slots(Row(r), n) == if n <= r * CARD_WIDTH then 0 else if n >= r * CARD_WIDTH + CARD_WIDTH then CARD_WIDTH else n - r * CARD_WIDTH
  {
    if n > 0 {
      SlotsRow(r, n - 1);
    }
  }

  /** Every column and every row of a card has five slots. */
  lemma {:induction false} SlotsPerLine(values: seq<U8>, k: nat)
    requires |values| == CARD_SIZE && k < CARD_WIDTH
    ensures Uncrossed(values, {}, Column(k), CARD_SIZE) == CARD_HEIGHT
    ensures Uncrossed(values, {}, Row(k), CARD_SIZE) == CARD_WIDTH
  {
    SlotsOnLine(values, Column(k), CARD_SIZE);
    SlotsOnLine(values, Row(k), CARD_SIZE);
    SlotsColumn(k, CARD_SIZE);
    SlotsRow(k, CARD_SIZE);
  }

  /**
   * On a card whose numbers are all different, drawing numbers at most once,
   * the hits a line has taken plus its slots still uncrossed are the line's
   * five slots, and the crossed sum plus the uncrossed sum is the card's sum.
   */
  lemma {:induction false} HitsAreCrossedSlots(values: seq<U8>, draws: seq<U8>, l: Line)
    requires Distinct(values) && Distinct(draws)
    ensures LineHits(Positions(values), Hits(values, draws), l) + Uncrossed(values, Marked(draws), l, |values|)
         == Uncrossed(values, {}, l, |values|)
    ensures Sum(Hits(values, draws)) + UncrossedSum(values, Marked(draws), |values|) == UncrossedSum(values, {}, |values|)
    decreases |draws|
  {
    if draws != [] {
      var front := draws[..|draws| - 1];
      var d := draws[|draws| - 1];
      assert draws == front + [d];
      assert Distinct(front);
      assert d !in front;
      assert Marked(draws) == Marked(front) + {d};
      HitsAreCrossedSlots(values, front, l);
      HitsSnoc(values, front, d);
      if d in values {
        var i :| 0 <= i < |values| && values[i] == d;
        MarkSlot(values, front, i, l);
      } else {
        assert Hits(values, draws) == Hits(values, front);
        UncrossedOther(values, Marked(front), d, l, |values|);
      }
    } else {
      assert Marked(draws) == {};
    }
  }

  /** The step of the lemma above for a drawn number that is in slot `i`. */
  lemma {:induction false} MarkSlot(values: seq<U8>, front: seq<U8>, i: nat, l: Line)
    requires Distinct(values) && i < |values| && values[i] !in front
    ensures LineHits(Positions(values), Hits(values, front) + [values[i]], l) + Uncrossed(values, Marked(front) + {values[i]}, l, |values|)
         == LineHits(Positions(values), Hits(values, front), l) + Uncrossed(values, Marked(front), l, |values|)
    ensures Sum(Hits(values, front) + [values[i]]) + UncrossedSum(values, Marked(front) + {values[i]}, |values|)
         == Sum(Hits(values, front)) + UncrossedSum(values, Marked(front), |values|)
  {
    var d := values[i];
    assert LastOccurrence(values, i);
    PositionsLast(values, i);
    LineHitsSnoc(Positions(values), Hits(values, front), d, l);
    SumSnoc(Hits(values, front), d);
    assert d !in Marked(front);
    UncrossedMark(values, Marked(front), i, l, |values|);
  }

  /**
   * The meaning of a card's counters: on a card whose numbers are all
   * different, drawing numbers at most once, a column or row is complete
   * exactly when every slot on it holds a drawn number.
   */
  lemma {:induction false} BingoIsFullLine(values: seq<U8>, draws: seq<U8>)
    requires |values| == CARD_SIZE && Distinct(values) && Distinct(draws)
    ensures Bingo(values, draws) <==> FullLine(values, Marked(draws))
  {
    var places := Positions(values);
    var hits := Hits(values, draws);
    forall k | 0 <= k < CARD_WIDTH
      ensures LineHits(places, hits, Column(k)) >= CARD_HEIGHT <==> Uncrossed(values, Marked(draws), Column(k), CARD_SIZE) == 0
      ensures LineHits(places, hits, Row(k)) >= CARD_WIDTH <==> Uncrossed(values, Marked(draws), Row(k), CARD_SIZE) == 0
    {
      SlotsPerLine(values, k);
      HitsAreCrossedSlots(values, draws, Column(k));
      HitsAreCrossedSlots(values, draws, Row(k));
    }
  }

  /**
   * The meaning of a score: on a card whose numbers are all different,
   * drawing numbers at most once, it is the sum of the numbers not yet
   * drawn times the last number drawn.
   */
  lemma {:induction false} ScoreIsUncrossedSum(values: seq<U8>, draws: seq<U8>)
    requires |values| == CARD_SIZE && Distinct(values) && Distinct(draws) && draws != []
    ensures Score(values, draws) == UncrossedSum(values, Marked(draws), CARD_SIZE) * draws[|draws| - 1]
  {
    HitsAreCrossedSlots(values, draws, Column(0));
    UncrossedEmpty(values, CARD_SIZE);
    assert values[..CARD_SIZE] == values;
  }

  // ---------------------------------------------------------------------
  // The two games
  // ---------------------------------------------------------------------

  /**
   * Card `i` wins the first game at draw `k`: no card is complete before
   * draw `k`, card `i` is complete after it, and no card before `i` in the
   * input is.
   */
  predicate FirstWinner(boards: seq<seq<U8>>, draws: seq<U8>, k: nat, i: nat)
  {
    k < |draws| && i < |boards|
    && Bingo(boards[i], draws[..k + 1])
    && (forall j | 0 <= j < |boards| :: !Bingo(boards[j], draws[..k]))
    && (forall j | 0 <= j < i :: !Bingo(boards[j], draws[..k + 1]))
  }

  /** There is only one first winner, and only one draw it wins at. */
  lemma {:induction false} FirstWinnerUnique(boards: seq<seq<U8>>, draws: seq<U8>, k: nat, i: nat, k': nat, i': nat)
    requires FirstWinner(boards, draws, k, i) && FirstWinner(boards, draws, k', i')
    ensures k == k' && i == i'
  {
    if k < k' {
      BingoPrefix(boards[i], draws, k + 1, k');
    } else if k' < k {
      BingoPrefix(boards[i'], draws, k' + 1, k);
    }
  }

  /**
   * Card `i` is the last card left, and the last one scored, in the game
   * that removes winners: every card is complete after draw `k`, card `i`
   * was not complete before it, and every card after `i` in the input was.
   */
  predicate LastWinner(boards: seq<seq<U8>>, draws: seq<U8>, k: nat, i: nat)
  {
    k < |draws| && i < |boards|
    && (forall j | 0 <= j < |boards| :: Bingo(boards[j], draws[..k + 1]))
    && !Bingo(boards[i], draws[..k])
    && (forall j | i < j < |boards| :: Bingo(boards[j], draws[..k]))
  }

  /** There is only one last winner, and only one draw it wins at. */
  lemma {:induction false} LastWinnerUnique(boards: seq<seq<U8>>, draws: seq<U8>, k: nat, i: nat, k': nat, i': nat)
    requires LastWinner(boards, draws, k, i) && LastWinner(boards, draws, k', i')
    ensures k == k' && i == i'
  {
    if k < k' {
      BingoPrefix(boards[i'], draws, k + 1, k');
    } else if k' < k {
      BingoPrefix(boards[i], draws, k' + 1, k);
    }
  }

  /** Which cards are complete after `draws`, card by card. */
  function Finished(boards: seq<seq<U8>>, draws: seq<U8>): (done: seq<bool>)
    ensures |done| == |boards|
  {
    if boards == [] then []
    else Finished(boards[..|boards| - 1], draws) + [Bingo(boards[|boards| - 1], draws)]
  }

  lemma {:induction false} FinishedAt(boards: seq<seq<U8>>, draws: seq<U8>)
    ensures forall j | 0 <= j < |boards| :: Finished(boards, draws)[j] == Bingo(boards[j], draws)
  {
    if boards != [] {
      var front := boards[..|boards| - 1];
      FinishedAt(front, draws);
      assert forall j | 0 <= j < |front| :: front[j] == boards[j];
    }
  }

  /** A card complete after `draws` is still complete after one more draw. */
  lemma {:induction false} FinishedStays(boards: seq<seq<U8>>, draws: seq<U8>, d: U8)
    ensures forall j | 0 <= j < |boards| && Finished(boards, draws)[j] :: Finished(boards, draws + [d])[j]
  {
    FinishedAt(boards, draws);
    FinishedAt(boards, draws + [d]);
    forall j | 0 <= j < |boards| && Finished(boards, draws)[j]
      ensures Finished(boards, draws + [d])[j]
    {
      BingoStays(boards[j], draws, d);
    }
  }

  /** The indices below `n` of the cards not finished, in input order. */
  function Unfinished(done: seq<bool>, n: nat): (r: seq<nat>)
    requires n <= |done|
    ensures forall t | 0 <= t < |r| :: r[t] < n
  {
    if n == 0 then []
    else Unfinished(done, n - 1) + (if done[n - 1] then [] else [n - 1])
  }

  /** The unfinished cards are exactly the cards below `n` that are not finished. */
  lemma {:induction false} UnfinishedMembers(done: seq<bool>, n: nat)
    requires n <= |done|
    ensures forall j: nat :: j in Unfinished(done, n) <==> j < n && !done[j]
  {
    if n > 0 {
      UnfinishedMembers(done, n - 1);
    }
  }

  /** The unfinished cards are listed in input order, each once. */
  lemma {:induction false} UnfinishedOrdered(done: seq<bool>, n: nat)
    requires n <= |done|
    ensures forall a, b | 0 <= a < b < |Unfinished(done, n)| :: Unfinished(done, n)[a] < Unfinished(done, n)[b]
  {
    if n > 0 {
      UnfinishedOrdered(done, n - 1);
    }
  }

  /** The last unfinished card is not finished, and every card after it is. */
  lemma {:induction false} UnfinishedLast(done: seq<bool>, n: nat, last: nat)
    requires n <= |done| && Unfinished(done, n) != []
    requires last == Unfinished(done, n)[|Unfinished(done, n)| - 1]
    ensures last < n && !done[last]
    ensures forall j | last < j < n :: done[j]
  {
    if done[n - 1] {
      UnfinishedLast(done, n - 1, last);
    }
  }

  /** Before any card is finished every card is unfinished. */
  lemma {:induction false} AllUnfinished(done: seq<bool>, n: nat)
    requires n <= |done| && forall j | 0 <= j < |done| :: !done[j]
    ensures |Unfinished(done, n)| == n
    ensures forall t | 0 <= t < n :: Unfinished(done, n)[t] == t
  {
    if n > 0 {
      AllUnfinished(done, n - 1);
    }
  }

  /**
   * Of the cards `idx`, those not finished, in the same order (an index past
   * the end of `done` counts as not finished).
   */
  function Survivors(done: seq<bool>, idx: seq<nat>): seq<nat>
  {
    if idx == [] then []
    else
      var j := idx[|idx| - 1];
      Survivors(done, idx[..|idx| - 1]) + (if j < |done| && done[j] then [] else [j])
  }

  /**
   * Removing the cards finished after one more draw from the unfinished ones
   * leaves the cards unfinished after it, when no card becomes unfinished again.
   */
  lemma {:induction false} SurvivorsOfUnfinished(done: seq<bool>, next: seq<bool>, n: nat)
    requires n <= |done| == |next|
    requires forall j | 0 <= j < |done| && done[j] :: next[j]
    ensures Survivors(next, Unfinished(done, n)) == Unfinished(next, n)
  {
    if n > 0 {
      SurvivorsOfUnfinished(done, next, n - 1);
      var front := Unfinished(done, n - 1);
      if !done[n - 1] {
        assert Unfinished(done, n) == front + [n - 1];
        assert (front + [n - 1])[..|front|] == front;
      } else {
        assert next[n - 1];
        assert Unfinished(done, n) == front;
        assert Unfinished(next, n) == Unfinished(next, n - 1);
      }
    }
  }

  /** With no card left unfinished, every card below `n` is finished. */
  lemma {:induction false} NoneUnfinished(done: seq<bool>, n: nat)
    requires n <= |done| && Unfinished(done, n) == []
    ensures forall j | 0 <= j < n :: done[j]
  {
    if n > 0 {
      assert done[n - 1];
      NoneUnfinished(done, n - 1);
    }
  }

  /**
   * When no card is unfinished after the next draw, every card is finished
   * then; the last card unfinished before it was not finished, and every
   * card after that one was.
   */
  lemma {:induction false} LastFlags(done: seq<bool>, next: seq<bool>, alive: seq<nat>)
    requires |done| == |next|
    requires alive == Unfinished(done, |done|) && alive != []
    requires Unfinished(next, |next|) == []
    ensures forall j | 0 <= j < |next| :: next[j]
    ensures alive[|alive| - 1] < |done| && !done[alive[|alive| - 1]]
    ensures forall j | alive[|alive| - 1] < j < |done| :: done[j]
  {
    var last := alive[|alive| - 1];
    UnfinishedLast(done, |done|, last);
    NoneUnfinished(next, |next|);
  }

  /**
   * After draw `k`, the cards still unfinished are those unfinished before
   * it that it did not complete.
   */
  lemma {:induction false} AliveAfter(boards: seq<seq<U8>>, draws: seq<U8>, k: nat, alive: seq<nat>)
    requires k < |draws|
    requires alive == Unfinished(Finished(boards, draws[..k]), |boards|)
    ensures Survivors(Finished(boards, draws[..k + 1]), alive) == Unfinished(Finished(boards, draws[..k + 1]), |boards|)
  {
    var done := Finished(boards, draws[..k]);
    var next := Finished(boards, draws[..k + 1]);
    FinishedStays(boards, draws[..k], draws[k]);
    assert draws[..k + 1] == draws[..k] + [draws[k]];
    SurvivorsOfUnfinished(done, next, |boards|);
  }
}
