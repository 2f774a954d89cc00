/**
 * The two bingo games over a list of cards and a list of draws:
 * - the first card to win, and its score;
 * - the last card left when winners leave the game, and its score.
 */
module BingoGame {
  import opened Wrappers
  import opened BingoRules
  import opened BingoCards

  /** The draws and the cards of one game, cards in input order. */
  datatype PuzzleInput = PuzzleInput(values: seq<U8>, cards: seq<BingoCard>)

  /** The numbers of each card, in input order. */
  ghost function Boards(cards: seq<BingoCard>): (boards: seq<seq<U8>>)
    ensures |boards| == |cards|
    ensures forall i {:trigger cards[i].values} | 0 <= i < |cards| :: boards[i] == cards[i].values
  {
    seq(|cards|, i requires 0 <= i < |cards| => cards[i].values)
  }

  /** The cards are different objects. */
  ghost predicate Separate(cards: seq<BingoCard>)
  {
    forall i, j | 0 <= i < j < |cards| :: cards[i] != cards[j]
  }

  /** Cards fresh from the input: separate, valid and with nothing crossed. */
  ghost predicate NewGame(cards: seq<BingoCard>)
    reads cards
  {
    Separate(cards) && forall i | 0 <= i < |cards| :: cards[i].Valid() && cards[i].drawn == []
  }

  /**
   * One card's turn at draw `k`: the card crosses the drawn number and
   * reports its score if that completed it. The card must not be complete
   * already, and no number may be drawn twice, so no counter or sum
   * underflows.
   */
  method CrossCard(card: BingoCard, draws: seq<U8>, k: nat) returns (score: Option<nat>)
    requires Distinct(draws) && k < |draws|
    requires InPlay(card, draws, k)
    modifies card
    ensures card.Valid() && card.drawn == draws[..k + 1]
    ensures score.Some? <==> Bingo(card.values, draws[..k + 1])
    ensures score.Some? ==> score.value == Score(card.values, draws[..k + 1])
  {
    TurnSafe(card.values, card.hits, card.uncrossedSum, card.valueMap, card.uncrossedColumns, card.uncrossedRows, draws, k);
    score := card.CrossValue(draws[k]);
    assert draws[..k + 1] == draws[..k] + [draws[k]];
  }

  /**
   * A card consistent with the first `k` draws and not complete can cross
   * draw `k`: if the number is on the card, the sum holds it and neither
   * its column nor its row is fully crossed.
   */
  lemma {:induction false} TurnSafe(values: seq<U8>, hits: seq<U8>, sum: nat, places: map<U8, Place>,
                                    columns: seq<nat>, rows: seq<nat>, draws: seq<U8>, k: nat)
    requires Distinct(draws) && k < |draws|
    requires Consistent(values, draws[..k], hits, sum, places, columns, rows)
    requires !Bingo(values, draws[..k])
    ensures draws[k] in places ==>
      sum >= draws[k] && columns[places[draws[k]].column] > 0 && rows[places[draws[k]].row] > 0
  {
    var v := draws[k];
    if v in places {
      assert draws[..k + 1] == draws[..k] + [v];
      HitsSnoc(values, draws[..k], v);
      PositionsKeys(values);
      HitsWithinCard(values, draws[..k + 1]);
      SumSnoc(hits, v);
      Counted(places, hits, columns, rows, 0);
      var p := places[v];
      assert LineCounted(places, hits, columns, rows, p.column);
      assert LineCounted(places, hits, columns, rows, p.row);
      assert LineHits(places, hits, Column(p.column)) < CARD_HEIGHT;
      assert LineHits(places, hits, Row(p.row)) < CARD_WIDTH;
    }
  }

  /** Card `card` has crossed the first `k` draws and is not complete. */
  ghost predicate InPlay(card: BingoCard, draws: seq<U8>, k: nat)
    reads card
    requires k <= |draws|
  {
    card.Valid() && card.drawn == draws[..k] && !Bingo(card.values, draws[..k])
  }

  /**
   * One draw of the first-winner game: the cards cross the number in input
   * order until one of them completes, and that card's score is returned.
   */
  method FindWinner(cards: seq<BingoCard>, draws: seq<U8>, k: nat) returns (score: Option<nat>, ghost j: nat)
    requires Distinct(draws) && k < |draws|
    requires Separate(cards) && forall i | 0 <= i < |cards| :: InPlay(cards[i], draws, k)
    modifies cards
    ensures forall i | 0 <= i < |cards| :: cards[i].Valid()
    ensures score.None? ==> forall i | 0 <= i < |cards| :: InPlay(cards[i], draws, k + 1)
    ensures score.Some? ==>
      j < |cards| && Bingo(cards[j].values, draws[..k + 1]) && score.value == Score(cards[j].values, draws[..k + 1])
      && forall i | 0 <= i < j :: !Bingo(cards[i].values, draws[..k + 1])
  {
    var t := 0;
    while t < |cards|
      invariant t <= |cards|
      invariant forall i | 0 <= i < t :: cards[i].Valid() && cards[i].drawn == draws[..k + 1]
      invariant forall i | 0 <= i < t :: !Bingo(cards[i].values, draws[..k + 1])
      invariant forall i | t <= i < |cards| :: InPlay(cards[i], draws, k)
    {
      score := TakeTurn(cards, draws, k, t);
      if score.Some? {
        j := t;
        return;
      }
      t := t + 1;
    }
    score, j := None, 0;
  }

  /**
   * Card `t` crosses draw `k`, after the cards before it have crossed it.
   * The other cards are left as they were.
   */
  method TakeTurn(cards: seq<BingoCard>, draws: seq<U8>, k: nat, t: nat) returns (score: Option<nat>)
    requires Distinct(draws) && k < |draws| && t < |cards| && Separate(cards)
    requires forall i | 0 <= i < t :: cards[i].Valid() && cards[i].drawn == draws[..k + 1]
    requires forall i | t <= i < |cards| :: InPlay(cards[i], draws, k)
    modifies cards[t]
    ensures forall i | 0 <= i <= t :: cards[i].Valid() && cards[i].drawn == draws[..k + 1]
    ensures forall i | t < i < |cards| :: InPlay(cards[i], draws, k)
    ensures score.Some? <==> Bingo(cards[t].values, draws[..k + 1])
    ensures score.Some? ==> score.value == Score(cards[t].values, draws[..k + 1])
    ensures score == Outcome(cards[t].values, draws[..k + 1])
  {
    score := CrossCard(cards[t], draws, k);
    forall i | 0 <= i < |cards| && i != t
      ensures cards[i] != cards[t]
    {
    }
  }

  /** A card not complete after `k + 1` draws but complete after all of them leaves a draw to come. */
  lemma {:induction false} DrawsLeft(values: seq<U8>, draws: seq<U8>, k: nat)
    requires k < |draws| && !Bingo(values, draws[..k + 1]) && Bingo(values, draws)
    ensures k + 1 < |draws|
  {
    assert draws[..|draws|] == draws;
  }

  /**
   * Plays the draws in order against every card, in input order, and
   * returns the score of the first card that wins. Some card must win by
   * the last draw.
   */
  method RunGiantSquid(input: PuzzleInput) returns (answer: nat)
    requires Distinct(input.values)
    requires NewGame(input.cards)
    requires exists i | 0 <= i < |input.cards| :: Bingo(input.cards[i].values, input.values)
    modifies input.cards
    ensures exists k: nat, i: nat ::
      FirstWinner(Boards(input.cards), input.values, k, i) && answer == Score(input.cards[i].values, input.values[..k + 1])
  {
    var values := input.values;
    var cards := input.cards;
    ghost var boards := Boards(cards);
    ghost var w :| 0 <= w < |cards| && Bingo(boards[w], values);
    assert values[..0] == [];
    forall i | 0 <= i < |cards|
      ensures InPlay(cards[i], values, 0) && !Bingo(boards[i], values[..0])
    {
      NoBingoYet(boards[i]);
    }
    var k;
    ghost var j;
    answer, k, j := FirstScore(cards, values, w);
  }

  /**
   * The loop of `run_giant_squid`: from draw 0 on, every card crosses each
   * draw in turn until one of them completes.
   */
  method FirstScore(cards: seq<BingoCard>, values: seq<U8>, ghost w: nat) returns (answer: nat, k: nat, ghost j: nat)
    requires Distinct(values) && Separate(cards) && 0 < |values|
    requires w < |cards| && Bingo(cards[w].values, values)
    requires forall i | 0 <= i < |cards| :: InPlay(cards[i], values, 0) && !Bingo(cards[i].values, values[..0])
    modifies cards
    ensures FirstWinner(Boards(cards), values, k, j) && answer == Score(cards[j].values, values[..k + 1])
  {
    ghost var boards := Boards(cards);
    k := 0;
    while true
      invariant k < |values|
      invariant forall i | 0 <= i < |cards| :: InPlay(cards[i], values, k)
      invariant forall i | 0 <= i < |cards| :: !Bingo(boards[i], values[..k])
      decreases |values| - k
    {
      var score;
      score, j := FindWinner(cards, values, k);
      if score.Some? {
        answer := score.value;
        assert FirstWinner(boards, values, k, j);
        return;
      }
      DrawsLeft(boards[w], values, k);
      k := k + 1;
    }
  }

  /** The positions of the cards that did not score, in order. */
  function Kept(outcomes: seq<Option<nat>>): (r: seq<nat>)
    ensures forall t | 0 <= t < |r| :: r[t] < |outcomes|
  {
    if outcomes == [] then []
    else
      var n := |outcomes| - 1;
      Kept(outcomes[..n]) + (if outcomes[n].None? then [n] else [])
  }

  /** The kept positions are exactly the positions that did not score, in increasing order. */
  lemma {:induction false} KeptFacts(outcomes: seq<Option<nat>>)
    ensures forall t | 0 <= t < |Kept(outcomes)| :: outcomes[Kept(outcomes)[t]].None?
    ensures forall s, t | 0 <= s < t < |Kept(outcomes)| :: Kept(outcomes)[s] < Kept(outcomes)[t]
    ensures forall j | 0 <= j < |outcomes| && outcomes[j].None? :: j in Kept(outcomes)
  {
    if outcomes != [] {
      var n := |outcomes| - 1;
      KeptFacts(outcomes[..n]);
      forall j | 0 <= j < n
        ensures outcomes[..n][j] == outcomes[j]
      {
      }
    }
  }

  /** The scores of the cards that scored, in order. */
  function Scored(outcomes: seq<Option<nat>>): (r: seq<nat>)
    ensures |r| <= |outcomes|
  {
    if outcomes == [] then []
    else
      var n := |outcomes| - 1;
      Scored(outcomes[..n]) + (if outcomes[n].Some? then [outcomes[n].value] else [])
  }

  /** With no card kept, every card scored, and the last score is the last card's. */
  lemma {:induction false} NoneKept(outcomes: seq<Option<nat>>)
    requires outcomes != [] && Kept(outcomes) == []
    ensures forall t | 0 <= t < |outcomes| :: outcomes[t].Some?
    ensures Scored(outcomes) != [] && Scored(outcomes)[|Scored(outcomes)| - 1] == outcomes[|outcomes| - 1].value
  {
    var n := |outcomes| - 1;
    if n > 0 {
      NoneKept(outcomes[..n]);
    }
    forall t | 0 <= t < |outcomes|
      ensures outcomes[t].Some?
    {
      if t < n {
        assert outcomes[..n][t] == outcomes[t];
      }
    }
  }

  /** What a card reports after `draws`: its score when it is complete, nothing otherwise. */
  ghost function Outcome(values: seq<U8>, draws: seq<U8>): Option<int>
    requires draws != []
  {
    if Bingo(values, draws) then Some(Score(values, draws)) else None
  }

  /** What each card of `boards` reports after `draws`, in card order. */
  ghost function Outcomes(boards: seq<seq<U8>>, draws: seq<U8>): (r: seq<Option<int>>)
    requires draws != []
    ensures |r| == |boards| && forall i | 0 <= i < |boards| :: r[i] == Outcome(boards[i], draws)
  {
    seq(|boards|, i requires 0 <= i < |boards| => Outcome(boards[i], draws))
  }

  /** The cards of `cards` at positions `keep`, in that order. */
  function Pick(cards: seq<BingoCard>, keep: seq<nat>): (picked: seq<BingoCard>)
    requires forall t | 0 <= t < |keep| :: keep[t] < |cards|
    ensures |picked| == |keep| && forall t | 0 <= t < |keep| :: picked[t] == cards[keep[t]]
  {
    seq(|keep|, t requires 0 <= t < |keep| => cards[keep[t]])
  }

  /**
   * Every card in play crosses draw `k`, in order, and reports its score if
   * that completed it.
   */
  method CrossAll(cards: seq<BingoCard>, draws: seq<U8>, k: nat) returns (outcomes: seq<Option<nat>>)
    requires Distinct(draws) && k < |draws|
    requires Separate(cards) && forall i | 0 <= i < |cards| :: InPlay(cards[i], draws, k)
    modifies cards
    ensures forall i | 0 <= i < |cards| :: cards[i].Valid() && cards[i].drawn == draws[..k + 1]
    ensures outcomes == Outcomes(Boards(cards), draws[..k + 1])
  {
    outcomes := [];
    for t := 0 to |cards|
      invariant forall i | 0 <= i < t :: cards[i].Valid() && cards[i].drawn == draws[..k + 1]
      invariant forall i | t <= i < |cards| :: InPlay(cards[i], draws, k)
      invariant |outcomes| == t && forall i | 0 <= i < t :: outcomes[i] == Outcome(cards[i].values, draws[..k + 1])
    {
      var score := TakeTurn(cards, draws, k, t);
      outcomes := outcomes + [score];
    }
  }

  /**
   * One draw of the losing-board game: every card still in play crosses
   * the number, in order; the cards it completes leave, their scores listed
   * in card order, and the cards that stay keep their order.
   */
  method RetainUnfinished(cards: seq<BingoCard>, draws: seq<U8>, k: nat)
    returns (kept: seq<BingoCard>, scores: seq<nat>, outcomes: seq<Option<nat>>)
    requires Distinct(draws) && k < |draws|
    requires Separate(cards) && forall i | 0 <= i < |cards| :: InPlay(cards[i], draws, k)
    modifies cards
    ensures forall i | 0 <= i < |cards| :: cards[i].Valid() && cards[i].drawn == draws[..k + 1]
    ensures outcomes == Outcomes(Boards(cards), draws[..k + 1])
    ensures kept == Pick(cards, Kept(outcomes)) && scores == Scored(outcomes)
  {
    outcomes := CrossAll(cards, draws, k);
    kept := Pick(cards, Kept(outcomes));
    scores := Scored(outcomes);
  }

  /**
   * Of the cards `idx`, those not finished are those at the positions that
   * did not score, when a card scored exactly when it is finished.
   */
  lemma {:induction false} SurvivorsKept(done: seq<bool>, idx: seq<nat>, outcomes: seq<Option<nat>>)
    requires |outcomes| == |idx|
    requires forall t | 0 <= t < |idx| :: idx[t] < |done| && (outcomes[t].Some? <==> done[idx[t]])
    ensures |Survivors(done, idx)| == |Kept(outcomes)|
    ensures forall t | 0 <= t < |Kept(outcomes)| :: Survivors(done, idx)[t] == idx[Kept(outcomes)[t]]
  {
    if idx != [] {
      var n := |idx| - 1;
      SurvivorsKept(done, idx[..n], outcomes[..n]);
    }
  }

  /**
   * After one draw of the losing-board game, the cards still unfinished are
   * the cards in play at the positions that did not score, and none of
   * those is complete.
   */
  lemma {:induction false} AliveRetained(boards: seq<seq<U8>>, draws: seq<U8>, k: nat, alive: seq<nat>,
                                         inPlay: seq<seq<U8>>, outcomes: seq<Option<nat>>)
    requires k < |draws|
    requires alive == Unfinished(Finished(boards, draws[..k]), |boards|)
    requires |inPlay| == |alive| && forall t | 0 <= t < |alive| :: inPlay[t] == boards[alive[t]]
    requires outcomes == Outcomes(inPlay, draws[..k + 1])
    ensures |Unfinished(Finished(boards, draws[..k + 1]), |boards|)| == |Kept(outcomes)|
    ensures forall t | 0 <= t < |Kept(outcomes)| ::
      Unfinished(Finished(boards, draws[..k + 1]), |boards|)[t] == alive[Kept(outcomes)[t]]
      && !Bingo(inPlay[Kept(outcomes)[t]], draws[..k + 1])
  {
    var next := Finished(boards, draws[..k + 1]);
    AliveAfter(boards, draws, k, alive);
    FinishedAt(boards, draws[..k + 1]);
    KeptFacts(outcomes);
    SurvivorsKept(next, alive, outcomes);
  }

  /**
   * The cards in play before draw `k` are the unfinished cards of the
   * game, in order, each the same object as in the game.
   */
  ghost predicate Round(all: seq<BingoCard>, draws: seq<U8>, k: nat, alive: seq<nat>, cards: seq<BingoCard>)
    requires k <= |draws|
  {
    alive == Unfinished(Finished(Boards(all), draws[..k]), |all|)
    && |cards| == |alive| && forall t | 0 <= t < |alive| :: cards[t] == all[alive[t]]
  }

  /**
   * After draw `k` of the losing-board game, the cards kept are the
   * unfinished cards of the game, none of them complete, each the card in
   * play at its kept position.
   */
  lemma {:induction false} NextRound(all: seq<BingoCard>, draws: seq<U8>, k: nat, alive: seq<nat>,
                                     cards: seq<BingoCard>, outcomes: seq<Option<nat>>, kept: seq<BingoCard>)
    requires k < |draws| && Round(all, draws, k, alive, cards) && Separate(cards)
    requires outcomes == Outcomes(Boards(cards), draws[..k + 1])
    requires kept == Pick(cards, Kept(outcomes))
    ensures Round(all, draws, k + 1, Unfinished(Finished(Boards(all), draws[..k + 1]), |all|), kept)
    ensures Separate(kept)
    ensures forall t | 0 <= t < |kept| ::
      Kept(outcomes)[t] < |cards| && kept[t] == cards[Kept(outcomes)[t]] && !Bingo(kept[t].values, draws[..k + 1])
  {
    AliveRetained(Boards(all), draws, k, alive, Boards(cards), outcomes);
    KeptFacts(outcomes);
    SeparateKept(cards, Kept(outcomes), kept);
  }

  /** A card kept after draw `k` that wins by the last draw leaves a draw to come. */
  lemma {:induction false} MoreDraws(all: seq<BingoCard>, draws: seq<U8>, k: nat, alive: seq<nat>, cards: seq<BingoCard>)
    requires k < |draws| && Round(all, draws, k + 1, alive, cards)
    requires cards != [] && !Bingo(cards[0].values, draws[..k + 1])
    requires forall i | 0 <= i < |all| :: Bingo(all[i].values, draws)
    ensures k + 1 < |draws|
  {
    DrawsLeft(cards[0].values, draws, k);
  }

  /**
   * When no card in play is left after draw `k`, the last of them is the
   * last winner and the last score is its score.
   */
  lemma {:induction false} LastRound(all: seq<BingoCard>, draws: seq<U8>, k: nat, alive: seq<nat>,
                                     cards: seq<BingoCard>, outcomes: seq<Option<nat>>)
    requires k < |draws| && Round(all, draws, k, alive, cards) && alive != []
    requires outcomes == Outcomes(Boards(cards), draws[..k + 1]) && Kept(outcomes) == []
    ensures LastWinner(Boards(all), draws, k, alive[|alive| - 1])
    ensures Scored(outcomes) != []
    ensures Scored(outcomes)[|Scored(outcomes)| - 1] == Score(all[alive[|alive| - 1]].values, draws[..k + 1])
  {
    var boards := Boards(all);
    AliveRetained(boards, draws, k, alive, Boards(cards), outcomes);
    NoneKept(outcomes);
    LastFlags(Finished(boards, draws[..k]), Finished(boards, draws[..k + 1]), alive);
    FinishedAt(boards, draws[..k]);
    FinishedAt(boards, draws[..k + 1]);
  }

  /** The cards at increasing positions of a list of separate cards are separate. */
  lemma {:induction false} SeparateKept(cards: seq<BingoCard>, keep: seq<nat>, kept: seq<BingoCard>)
    requires Separate(cards)
    requires forall s, t | 0 <= s < t < |keep| :: keep[s] < keep[t]
    requires |kept| == |keep| && forall t | 0 <= t < |keep| :: keep[t] < |cards| && kept[t] == cards[keep[t]]
    ensures Separate(kept)
  {
    forall s, u | 0 <= s < u < |kept|
      ensures kept[s] != kept[u]
    {
      assert keep[s] < keep[u];
    }
  }

  /**
   * Plays the draws in order; at each draw every card still in play
   * crosses the number and the cards it completes leave the game. Returns
   * the last score recorded at the draw that empties the game. Every card
   * must win by the last draw, and there must be a card.
   */
  method RunLosingBoard(input: PuzzleInput) returns (answer: nat)
    requires Distinct(input.values)
    requires NewGame(input.cards)
    requires |input.cards| > 0
    requires forall i | 0 <= i < |input.cards| :: Bingo(input.cards[i].values, input.values)
    modifies input.cards
    ensures exists k: nat, i: nat ::
      LastWinner(Boards(input.cards), input.values, k, i) && answer == Score(input.cards[i].values, input.values[..k + 1])
  {
    var values := input.values;
    var cards := input.cards;
    ghost var all := input.cards;
    ghost var boards := Boards(all);
    assert values[..0] == [];
    forall i | 0 <= i < |cards|
      ensures InPlay(cards[i], values, 0) && !Bingo(boards[i], values[..0])
    {
      NoBingoYet(boards[i]);
    }
    FinishedAt(boards, values[..0]);
    ghost var alive := Unfinished(Finished(boards, values[..0]), |all|);
    AllUnfinished(Finished(boards, values[..0]), |all|);
    var k := 0;
    while true
      invariant k < |values| && Round(all, values, k, alive, cards) && alive != []
      invariant Separate(cards) && forall t | 0 <= t < |cards| :: InPlay(cards[t], values, k)
      decreases |values| - k
    {
      var kept, scores, outcomes := RetainUnfinished(cards, values, k);
      if |kept| == 0 {
        LastRound(all, values, k, alive, cards, outcomes);
        answer := scores[|scores| - 1];
        ghost var last := alive[|alive| - 1];
        assert LastWinner(Boards(input.cards), input.values, k, last)
          && answer == Score(input.cards[last].values, input.values[..k + 1]);
        return;
      }
      NextRound(all, values, k, alive, cards, outcomes, kept);
      forall t | 0 <= t < |kept|
        ensures InPlay(kept[t], values, k + 1)
      {
        var j := Kept(outcomes)[t];
        assert kept[t] == cards[j] && cards[j].Valid() && cards[j].drawn == values[..k + 1];
      }
      MoreDraws(all, values, k, Unfinished(Finished(boards, values[..k + 1]), |all|), kept);
      cards := kept;
      alive := Unfinished(Finished(boards, values[..k + 1]), |all|);
      k := k + 1;
    }
  }
}
