/**
 * A bingo card as the game keeps it:
 * - the sum of its numbers not yet crossed;
 * - a table from each number to its column and row;
 * - one "uncrossed" counter per column and per row.
 * Its ghost state is the 25 numbers it was built from, the numbers it
 * was asked to cross so far and those of them that were on it. `Valid` ties the fields to the rules in module `BingoRules`.
 */
module BingoCards {
  import opened Wrappers
  import opened BingoRules

  class BingoCard {
    var uncrossedSum: nat
    var valueMap: map<U8, Place>
    /** The fixed-size counter arrays of the card, held by value as in the card itself. */
    var uncrossedColumns: seq<nat>
    var uncrossedRows: seq<nat>

    /** The 25 numbers the card was built from, row by row. */
    ghost const values: seq<U8>
    /** The numbers this card was asked to cross so far, in order. */
    ghost var drawn: seq<U8>
    /** The numbers crossed off this card so far, in order. */
    ghost var hits: seq<U8>

    ghost predicate Valid()
      reads this
    {
      Consistent(values, drawn, hits, uncrossedSum, valueMap, uncrossedColumns, uncrossedRows)
    }

    /**
     * A card from its 25 numbers. Every counter starts at five, the sum
     * counts every slot, and a repeated number keeps the place of its last
     * slot.
     */
    constructor (cardValues: seq<U8>)
      requires |cardValues| == CARD_SIZE
      ensures Valid() && values == cardValues && drawn == [] && hits == []
      ensures uncrossedSum == Sum(cardValues)
      ensures valueMap == Positions(cardValues)
      ensures uncrossedColumns == [CARD_HEIGHT, CARD_HEIGHT, CARD_HEIGHT, CARD_HEIGHT, CARD_HEIGHT]
      ensures uncrossedRows == [CARD_WIDTH, CARD_WIDTH, CARD_WIDTH, CARD_WIDTH, CARD_WIDTH]
    {
      values := cardValues;
      drawn := [];
      hits := [];
      uncrossedSum := 0;
      valueMap := map[];
      uncrossedColumns := [CARD_HEIGHT, CARD_HEIGHT, CARD_HEIGHT, CARD_HEIGHT, CARD_HEIGHT];
      uncrossedRows := [CARD_WIDTH, CARD_WIDTH, CARD_WIDTH, CARD_WIDTH, CARD_WIDTH];
      new;
      for i := 0 to CARD_SIZE
        invariant uncrossedSum == Sum(cardValues[..i])
        invariant valueMap == Positions(cardValues[..i])
        invariant drawn == [] && hits == [] && values == cardValues
        invariant uncrossedColumns == [CARD_HEIGHT, CARD_HEIGHT, CARD_HEIGHT, CARD_HEIGHT, CARD_HEIGHT]
        invariant uncrossedRows == [CARD_WIDTH, CARD_WIDTH, CARD_WIDTH, CARD_WIDTH, CARD_WIDTH]
      {
        assert cardValues[..i + 1] == cardValues[..i] + [cardValues[i]];
        assert cardValues[..i + 1][..i] == cardValues[..i];
        uncrossedSum := uncrossedSum + cardValues[i];
        var place := PlaceOf(i);
        valueMap := valueMap[cardValues[i] := place];
      }
      assert cardValues[..CARD_SIZE] == cardValues;
      PositionsKeys(cardValues);
      forall k | 0 <= k < CARD_WIDTH
        ensures LineHits(valueMap, hits, Column(k)) == 0 && LineHits(valueMap, hits, Row(k)) == 0
      {
      }
      Counted(valueMap, hits, uncrossedColumns, uncrossedRows, 0);
    }

    /**
     * Crosses `value` off the card. A number not on the card changes
     * nothing and scores nothing. Otherwise:
     * - the number leaves the sum;
     * - its column's counter and its row's counter drop by one;
     * - the card scores exactly when one of those two counters reaches zero.
     * The caller guarantees that nothing underflows.
     */
    method CrossValue(value: U8) returns (score: Option<nat>)
      requires Valid()
      requires value in valueMap ==>
        uncrossedSum >= value && uncrossedColumns[valueMap[value].column] > 0 && uncrossedRows[valueMap[value].row] > 0
      modifies this
      ensures Valid() && valueMap == old(valueMap) && drawn == old(drawn) + [value]
      ensures value !in valueMap ==>
        score.None? && hits == old(hits) && uncrossedSum == old(uncrossedSum)
        && uncrossedColumns == old(uncrossedColumns) && uncrossedRows == old(uncrossedRows)
      ensures value in valueMap ==>
        hits == old(hits) + [value] && uncrossedSum == old(uncrossedSum) - value
        && uncrossedColumns == old(uncrossedColumns)[valueMap[value].column := old(uncrossedColumns)[valueMap[value].column] - 1]
        && uncrossedRows == old(uncrossedRows)[valueMap[value].row := old(uncrossedRows)[valueMap[value].row] - 1]
      ensures score.Some? <==>
        value in valueMap && (uncrossedColumns[valueMap[value].column] == 0 || uncrossedRows[valueMap[value].row] == 0)
      ensures score.Some? ==> score.value == CalculateBingo(value)
      ensures !Complete(valueMap, old(hits)) ==> (score.Some? <==> Complete(valueMap, hits))
    {
      if value !in valueMap {
        CrossMiss(values, drawn, hits, uncrossedSum, valueMap, uncrossedColumns, uncrossedRows, value);
        drawn := drawn + [value];
        score := None;
      } else {
        score := CrossPlaced(value);
      }
    }

    /** `cross_value` on a number the card holds. */
    method CrossPlaced(value: U8) returns (score: Option<nat>)
      requires Valid() && value in valueMap
      requires uncrossedSum >= value && uncrossedColumns[valueMap[value].column] > 0 && uncrossedRows[valueMap[value].row] > 0
      modifies this
      ensures Valid() && valueMap == old(valueMap) && drawn == old(drawn) + [value]
      ensures hits == old(hits) + [value] && uncrossedSum == old(uncrossedSum) - value
      ensures uncrossedColumns == old(uncrossedColumns)[valueMap[value].column := old(uncrossedColumns)[valueMap[value].column] - 1]
      ensures uncrossedRows == old(uncrossedRows)[valueMap[value].row := old(uncrossedRows)[valueMap[value].row] - 1]
      ensures score.Some? <==> uncrossedColumns[valueMap[value].column] == 0 || uncrossedRows[valueMap[value].row] == 0
      ensures score.Some? ==> score.value == CalculateBingo(value)
      ensures !Complete(valueMap, old(hits)) ==> (score.Some? <==> Complete(valueMap, hits))
    {
      CrossHit(values, drawn, hits, uncrossedSum, valueMap, uncrossedColumns, uncrossedRows, value);
      var place := valueMap[value];
      var column, row := place.column, place.row;
      uncrossedSum, uncrossedColumns, uncrossedRows :=
        uncrossedSum - value,
        uncrossedColumns[column := uncrossedColumns[column] - 1],
        uncrossedRows[row := uncrossedRows[row] - 1];
      drawn, hits := drawn + [value], hits + [value];
      assert Valid();
      score := if uncrossedColumns[column] == 0 || uncrossedRows[row] == 0 then Some(CalculateBingo(value)) else None;
    }

    /**
     * The score of the card when `value` completes it: what is left of the
     * card's sum, once the crossed numbers are taken off, times `value`.
     */
    function CalculateBingo(value: nat): (score: nat)
      reads this
      requires Valid()
      ensures score + Sum(hits) * value == Sum(values) * value
    {
      uncrossedSum * value
    }
  }

  /**
   * The fields of a card agree with its numbers and the numbers drawn so far:
   * - the table holds each number's place, inside the card;
   * - the crossed numbers are the drawn numbers that are on the card;
   * - the sum is the card's sum less the crossed numbers;
   * - each counter is five less the crossed numbers on its line.
   */
  ghost predicate Consistent(values: seq<U8>, drawn: seq<U8>, hits: seq<U8>, sum: nat,
                             places: map<U8, Place>, columns: seq<nat>, rows: seq<nat>)
  {
    |values| == CARD_SIZE
    && places == Positions(values)
    && (forall v | v in places :: places[v].column < CARD_WIDTH && places[v].row < CARD_HEIGHT)
    && |columns| == CARD_WIDTH && |rows| == CARD_HEIGHT
    && hits == Hits(values, drawn)
    && sum + Sum(hits) == Sum(values)
    && CountedFrom(places, hits, columns, rows, 0)
  }

  /** Counter `k` of the columns and counter `k` of the rows are five less the crossed numbers on their lines. */
  ghost predicate LineCounted(places: map<U8, Place>, hits: seq<U8>, columns: seq<nat>, rows: seq<nat>, k: nat)
    requires |columns| == CARD_WIDTH && |rows| == CARD_HEIGHT && k < CARD_WIDTH
  {
    columns[k] + LineHits(places, hits, Column(k)) == CARD_HEIGHT
    && rows[k] + LineHits(places, hits, Row(k)) == CARD_WIDTH
  }

  /**
   * Every line from `k` on is counted. Written line by line, so that the
   * solver opens it only as far as a proof asks; `Counted` gives it as one
   * statement about every line.
   */
  ghost predicate CountedFrom(places: map<U8, Place>, hits: seq<U8>, columns: seq<nat>, rows: seq<nat>, k: nat)
    requires |columns| == CARD_WIDTH && |rows| == CARD_HEIGHT
    decreases CARD_WIDTH - k
  {
    k >= CARD_WIDTH || (LineCounted(places, hits, columns, rows, k) && CountedFrom(places, hits, columns, rows, k + 1))
  }

  /** `CountedFrom` from line `k` holds exactly when every line from `k` on is counted. */
  lemma {:induction false} Counted(places: map<U8, Place>, hits: seq<U8>, columns: seq<nat>, rows: seq<nat>, k: nat)
    requires |columns| == CARD_WIDTH && |rows| == CARD_HEIGHT
    ensures CountedFrom(places, hits, columns, rows, k) <==>
      forall j | k <= j < CARD_WIDTH :: LineCounted(places, hits, columns, rows, j)
    decreases CARD_WIDTH - k
  {
    if k < CARD_WIDTH {
      Counted(places, hits, columns, rows, k + 1);
    }
  }

  /** A number not on the card only joins the drawn numbers. */
  lemma {:induction false} CrossMiss(values: seq<U8>, drawn: seq<U8>, hits: seq<U8>, sum: nat,
                                     places: map<U8, Place>, columns: seq<nat>, rows: seq<nat>, v: U8)
    requires Consistent(values, drawn, hits, sum, places, columns, rows) && v !in places
    ensures Consistent(values, drawn + [v], hits, sum, places, columns, rows)
  {
    PositionsKeys(values);
    HitsSnoc(values, drawn, v);
  }

  /**
   * A number on the card is crossed: it leaves the sum and lowers its
   * column's and its row's counters, and the card stays consistent.
   */
  lemma {:induction false} CrossHit(values: seq<U8>, drawn: seq<U8>, hits: seq<U8>, sum: nat,
                                    places: map<U8, Place>, columns: seq<nat>, rows: seq<nat>, v: U8)
    requires Consistent(values, drawn, hits, sum, places, columns, rows) && v in places
    requires sum >= v && columns[places[v].column] > 0 && rows[places[v].row] > 0
    ensures Consistent(values, drawn + [v], hits + [v], sum - v, places,
                       columns[places[v].column := columns[places[v].column] - 1],
                       rows[places[v].row := rows[places[v].row] - 1])
    ensures !Complete(places, hits) ==>
      ((columns[places[v].column] == 1 || rows[places[v].row] == 1) <==> Complete(places, hits + [v]))
  {
    PositionsKeys(values);
    HitsSnoc(values, drawn, v);
    SumSnoc(hits, v);
    CountersStep(places, hits, v, columns, rows);
  }

  /**
   * One crossed number, on the counters: the counters of its column and row
   * drop by one and no other counter moves. On a card with no complete line
   * yet, one of those two reaching zero is exactly the card becoming complete.
   */
  lemma {:induction false} CountersStep(places: map<U8, Place>, hits: seq<U8>, v: U8, columns: seq<nat>, rows: seq<nat>)
    requires v in places && places[v].column < CARD_WIDTH && places[v].row < CARD_HEIGHT
    requires |columns| == CARD_WIDTH && |rows| == CARD_HEIGHT
    requires CountedFrom(places, hits, columns, rows, 0)
    requires columns[places[v].column] > 0 && rows[places[v].row] > 0
    ensures CountedFrom(places, hits + [v], columns[places[v].column := columns[places[v].column] - 1],
                        rows[places[v].row := rows[places[v].row] - 1], 0)
    ensures !Complete(places, hits) ==>
      ((columns[places[v].column] == 1 || rows[places[v].row] == 1) <==> Complete(places, hits + [v]))
  {
    var p := places[v];
    var columns', rows' := columns[p.column := columns[p.column] - 1], rows[p.row := rows[p.row] - 1];
    Counted(places, hits, columns, rows, 0);
    forall k | 0 <= k < CARD_WIDTH
      ensures LineCounted(places, hits + [v], columns', rows', k)
    {
      assert LineCounted(places, hits, columns, rows, k);
      LineHitsSnoc(places, hits, v, Column(k));
      LineHitsSnoc(places, hits, v, Row(k));
    }
    Counted(places, hits + [v], columns', rows', 0);
    if !Complete(places, hits) {
      assert LineCounted(places, hits, columns, rows, p.column);
      assert LineCounted(places, hits, columns, rows, p.row);
      CompleteStep(places, hits, v);
    }
  }
}
