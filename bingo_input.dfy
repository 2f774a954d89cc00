/**
 * Reading a bingo puzzle. The first line holds the draws, separated by
 * commas; the second line is skipped; every later line is either empty,
 * which closes the card being filled, or a row of numbers separated by
 * spaces, which fills the next row of that card. Every number is a `u8`.
 */
module BingoInput {
  import opened Wrappers
  import opened BingoRules
  import opened BingoCards
  import opened BingoGame
  import Text
  import Decimal

  datatype InputError =
    | NoInput                      // there is no first line
    | InvalidNumber(token: string) // a token is not a `u8`

  /** A `u8` token. */
  function ParseU8(s: string): (r: Option<U8>)
    ensures r.Some? <==> Decimal.ParseUnsigned(s, Decimal.U8_MAX).Some?
    ensures r.Some? ==> r.value == Decimal.ParseUnsigned(s, Decimal.U8_MAX).value
  {
    match Decimal.ParseUnsigned(s, Decimal.U8_MAX)
    case Some(v) => Some(v)
    case None => None
  }

  /** The numbers of a list of tokens; the first token that is not a `u8` is the error. */
  function ParseNumbers(tokens: seq<string>): (r: Result<seq<U8>, InputError>)
    ensures r.Ok? ==> |r.value| == |tokens|
    ensures r.Ok? <==> forall k :: 0 <= k < |tokens| ==> ParseU8(tokens[k]).Some?
  {
    if tokens == [] then Ok([])
    else
      match ParseU8(tokens[0])
      case None => Err(InvalidNumber(tokens[0]))
      case Some(v) =>
        assert forall k :: 0 < k < |tokens| ==> tokens[k] == tokens[1..][k - 1];
        match ParseNumbers(tokens[1..])
        case Err(e) => Err(e)
        case Ok(vs) => Ok([v] + vs)
  }

  /** The tokens that are not empty, in order. */
  function NonEmpty(parts: seq<string>): (r: seq<string>)
    ensures forall k :: 0 <= k < |r| ==> r[k] != []
  {
    if parts == [] then []
    else (if parts[0] == [] then [] else [parts[0]]) + NonEmpty(parts[1..])
  }

  /** The draws line: numbers separated by single commas. */
  function ParseDraws(line: string): Result<seq<U8>, InputError>
  {
    ParseNumbers(Text.Split(line, ","))
  }

  /** A row line: numbers separated by runs of spaces. */
  function ParseRow(line: string): Result<seq<U8>, InputError>
  {
    ParseNumbers(NonEmpty(Text.Split(line, " ")))
  }

  // ----- The card accumulator, as values -----

  /** The 25 slots a card is filled in, row by row. */
  type Buffer = b: seq<U8> | |b| == CARD_SIZE witness seq(CARD_SIZE, _ => 0)

  /**
   * The accumulator as values: the numbers of the cards built so far, the
   * slots of the card being filled and how many of its rows are written.
   */
  datatype Acc = Acc(boards: seq<seq<U8>>, buffer: Buffer, rows: nat)

  /** Closing a card: a card with at least one row written joins the cards, and filling starts over at row 0. */
  function Flush(a: Acc): (r: Acc)
    ensures r.buffer == a.buffer && r.rows == 0
    ensures a.rows == 0 ==> r.boards == a.boards
    ensures a.rows != 0 ==> r.boards == a.boards + [a.buffer]
  {
    if a.rows != 0 then Acc(a.boards + [a.buffer], a.buffer, 0) else a
  }

  /** Writing the next row: its five numbers replace the five slots of that row and nothing else. */
  function PutRow(a: Acc, row: seq<U8>): (r: Acc)
    requires a.rows < CARD_HEIGHT && |row| == CARD_WIDTH
    ensures r.boards == a.boards && r.rows == a.rows + 1
    ensures forall c :: 0 <= c < CARD_WIDTH ==> r.buffer[a.rows * CARD_WIDTH + c] == row[c]
    ensures forall s :: 0 <= s < CARD_SIZE && !(a.rows * CARD_WIDTH <= s < r.rows * CARD_WIDTH) ==> r.buffer[s] == a.buffer[s]
  {
    var start := a.rows * CARD_WIDTH;
    Acc(a.boards, a.buffer[..start] + row + a.buffer[start + CARD_WIDTH..], a.rows + 1)
  }

  /** Where reading the card lines stands: still reading, stopped at an error, or stopped by a panic. */
  datatype Scan = Reading(acc: Acc) | Failed(error: InputError) | Panicked

  /**
   * One card line. An empty line closes the card. A row that does not parse
   * stops the reading with its error. A row of other than five numbers, or
   * a sixth row, makes the source panic on its slice copy.
   */
  function Step(s: Scan, line: string): Scan
  {
    match s
    case Reading(a) =>
      if line == [] then Reading(Flush(a))
      else (
        match ParseRow(line)
        case Err(e) => Failed(e)
        case Ok(row) =>
          if a.rows >= CARD_HEIGHT || |row| != CARD_WIDTH then Panicked
          else Reading(PutRow(a, row)))
    case _ => s
  }

  /** The card lines in order, from state `s`. */
  function ScanLines(s: Scan, lines: seq<string>): Scan
    decreases |lines|
  {
    if lines == [] then s else ScanLines(Step(s, lines[0]), lines[1..])
  }

  /** The accumulator before the first card line: no card, every slot 0. */
  function Start(): (r: Acc)
    ensures r.boards == [] && r.rows == 0 && forall s :: 0 <= s < CARD_SIZE ==> r.buffer[s] == 0
  {
    Acc([], seq(CARD_SIZE, _ => 0), 0)
  }

  /** The card lines: everything after the draws line and the line after it. */
  function CardLines(lines: seq<string>): seq<string>
  {
    if |lines| < 2 then [] else lines[2..]
  }

  /** The draws and the numbers of each card, in input order. */
  datatype Puzzle = Puzzle(draws: seq<U8>, boards: seq<seq<U8>>)

  /** Reading the input panics: the draws parse and the card lines reach a panic before any error. */
  predicate Panics(lines: seq<string>)
  {
    lines != [] && ParseDraws(lines[0]).Ok? && ScanLines(Reading(Start()), CardLines(lines)).Panicked?
  }

  /**
   * What reading gives: no input is an error; then the draws line, whose
   * error comes first; then the card lines, whose first error is the
   * result; otherwise the cards, the last one closed at the end.
   */
  function Read(lines: seq<string>): Result<Puzzle, InputError>
    requires !Panics(lines)
  {
    if lines == [] then Err(NoInput)
    else
      match ParseDraws(lines[0])
      case Err(e) => Err(e)
      case Ok(draws) =>
        match ScanLines(Reading(Start()), CardLines(lines))
        case Failed(e) => Err(e)
        case Reading(a) => Ok(Puzzle(draws, Flush(a).boards))
  }

  // ----- Properties of the scan -----

  /** Scanning two runs of lines is scanning the first, then the second from where it stopped. */
  lemma {:induction false} ScanAppend(s: Scan, a: seq<string>, b: seq<string>)
    ensures ScanLines(s, a + b) == ScanLines(ScanLines(s, a), b)
    decreases |a|
  {
    if a == [] {
      assert a + b == b;
    } else {
      assert (a + b)[0] == a[0] && (a + b)[1..] == a[1..] + b;
      ScanAppend(Step(s, a[0]), a[1..], b);
    }
  }

  /** An error or a panic ends the reading: later lines change nothing. */
  lemma {:induction false} ScanStopped(s: Scan, lines: seq<string>)
    requires !s.Reading?
    ensures ScanLines(s, lines) == s
    decreases |lines|
  {
    if lines != [] {
      ScanStopped(s, lines[1..]);
    }
  }

  /** Scanning one more line is one more step. */
  lemma {:induction false} ScanSnoc(s: Scan, lines: seq<string>, line: string)
    ensures ScanLines(s, lines + [line]) == Step(ScanLines(s, lines), line)
  {
    ScanAppend(s, lines, [line]);
    assert ScanLines(ScanLines(s, lines), [line]) == ScanLines(Step(ScanLines(s, lines), line), []);
  }

  /**
   * A card with fewer than five rows keeps, in its remaining slots, the
   * numbers left in the buffer by the card before it: a one-row card after
   * a full card is that row followed by the last four rows of the full card.
   */
  lemma {:induction false} ShortCardKeepsBuffer(a: Acc, row: seq<U8>)
    requires a.rows == 0 && |row| == CARD_WIDTH
    ensures Flush(PutRow(a, row)).boards == a.boards + [row + a.buffer[CARD_WIDTH..]]
  {
    assert a.buffer[..0] + row + a.buffer[CARD_WIDTH..] == row + a.buffer[CARD_WIDTH..];
  }

  // ----- The accumulator -----

  /**
   * `BingoCardAcc`: the cards built so far, the 25 slots of the card being
   * filled and the number of its rows written. The cards are new ones:
   * separate, valid and with nothing crossed.
   */
  class BingoCardAcc {
    var cards: seq<BingoCard>
    const tmpValues: array<U8>
    var i: nat

    ghost predicate Valid()
      reads this, tmpValues, cards
    {
      tmpValues.Length == CARD_SIZE && i <= CARD_HEIGHT && NewGame(cards)
    }

    /** The accumulator as values. */
    ghost function Model(): Acc
      reads this, tmpValues
      requires tmpValues.Length == CARD_SIZE
    {
      Acc(Boards(cards), tmpValues[..], i)
    }

    /** No card, every slot 0, no row written. */
    constructor ()
      ensures Valid() && Model() == Start() && fresh(tmpValues)
    {
      cards := [];
      tmpValues := new U8[CARD_SIZE](_ => 0);
      i := 0;
      new;
      assert tmpValues[..] == seq(CARD_SIZE, _ => 0);
    }

    /** `flush_values`: closes the card being filled if it has a row. */
    method FlushValues()
      requires Valid()
      modifies this
      ensures Valid()
      ensures Model() == Flush(old(Model()))
    {
      if i != 0 {
        var card := new BingoCard(tmpValues[..]);
        cards := cards + [card];
        i := 0;
      }
    }

    /** `add_row`: copies a row of five numbers into the next row's slots. */
    method AddRow(row: seq<U8>)
      requires Valid() && i < CARD_HEIGHT && |row| == CARD_WIDTH
      modifies this, tmpValues
      ensures Valid()
      ensures Model() == PutRow(old(Model()), row)
    {
      ghost var before := tmpValues[..];
      var start := i * CARD_WIDTH;
      for c := 0 to CARD_WIDTH
        invariant tmpValues[..] == before[..start] + row[..c] + before[start + c..]
        invariant unchanged(this)
      {
        tmpValues[start + c] := row[c];
        assert row[..c + 1] == row[..c] + [row[c]];
      }
      i := i + 1;
    }
  }

  /**
   * `read_puzzle_input`: the draws and the cards of the input, or the first
   * error met. The cards are new ones; their numbers are those `Read`
   * gives. The source panics on inputs where `Panics` holds.
   */
  method ReadPuzzleInput(lines: seq<string>) returns (r: Result<PuzzleInput, InputError>)
    requires !Panics(lines)
    ensures r.Err? <==> Read(lines).Err?
    ensures r.Err? ==> r.error == Read(lines).error
    ensures r.Ok? ==> r.value.values == Read(lines).value.draws
    ensures r.Ok? ==> Boards(r.value.cards) == Read(lines).value.boards && NewGame(r.value.cards)
  {
    if lines == [] {
      return Err(NoInput);
    }
    var draws := ParseDraws(lines[0]);
    if draws.Err? {
      return Err(draws.error);
    }
    var cards := ReadCards(CardLines(lines));
    if cards.Err? {
      return Err(cards.error);
    }
    r := Ok(PuzzleInput(draws.value, cards.value));
  }

  /**
   * The card lines of `read_puzzle_input`, fed one by one to a new
   * accumulator: the first row error, or the new cards, the last one closed
   * at the end.
   */
  method ReadCards(rest: seq<string>) returns (r: Result<seq<BingoCard>, InputError>)
    requires !ScanLines(Reading(Start()), rest).Panicked?
    ensures r.Err? ==> ScanLines(Reading(Start()), rest) == Failed(r.error)
    ensures r.Ok? ==> ScanLines(Reading(Start()), rest).Reading?
    ensures r.Ok? ==> Boards(r.value) == Flush(ScanLines(Reading(Start()), rest).acc).boards && NewGame(r.value)
  {
    var acc := new BingoCardAcc();
    for k := 0 to |rest|
      invariant acc.Valid() && fresh(acc.tmpValues)
      invariant ScanLines(Reading(Start()), rest[..k]) == Reading(acc.Model())
    {
      var failure := FeedLine(acc, rest, k);
      if failure.Some? {
        return Err(failure.value);
      }
    }
    assert rest[..|rest|] == rest;
    acc.FlushValues();
    r := Ok(acc.cards);
  }

  /**
   * Card line `k`: an empty line closes the card, a row that does not parse
   * is the error, and any other row fills the next row of the card.
   */
  method FeedLine(acc: BingoCardAcc, rest: seq<string>, k: nat) returns (failure: Option<InputError>)
    requires acc.Valid() && k < |rest|
    requires ScanLines(Reading(Start()), rest[..k]) == Reading(acc.Model())
    requires !ScanLines(Reading(Start()), rest).Panicked?
    modifies acc, acc.tmpValues
    ensures acc.Valid()
    ensures failure.None? ==> ScanLines(Reading(Start()), rest[..k + 1]) == Reading(acc.Model())
    ensures failure.Some? ==> ScanLines(Reading(Start()), rest) == Failed(failure.value)
  {
    var line := rest[k];
    ScanSnoc(Reading(Start()), rest[..k], line);
    assert rest[..k + 1] == rest[..k] + [line];
    if line == [] {
      acc.FlushValues();
      return None;
    }
    var row := ParseRow(line);
    if row.Err? {
      ScanAppend(Reading(Start()), rest[..k + 1], rest[k + 1..]);
      ScanStopped(Failed(row.error), rest[k + 1..]);
      assert rest[..k + 1] + rest[k + 1..] == rest;
      return Some(row.error);
    }
    RowPanics(rest, k, acc.Model(), row.value);
    acc.AddRow(row.value);
    return None;
  }

  /**
   * A row met while reading makes the whole reading panic when it has other
   * than five numbers or the card has no row left for it.
   */
  lemma {:induction false} RowPanics(rest: seq<string>, k: nat, a: Acc, row: seq<U8>)
    requires k < |rest| && ScanLines(Reading(Start()), rest[..k]) == Reading(a)
    requires rest[k] != [] && ParseRow(rest[k]) == Ok(row)
    ensures a.rows >= CARD_HEIGHT || |row| != CARD_WIDTH ==> ScanLines(Reading(Start()), rest).Panicked?
  {
    ScanSnoc(Reading(Start()), rest[..k], rest[k]);
    assert rest[..k + 1] == rest[..k] + [rest[k]];
    ScanAppend(Reading(Start()), rest[..k + 1], rest[k + 1..]);
    assert rest[..k + 1] + rest[k + 1..] == rest;
    if a.rows >= CARD_HEIGHT || |row| != CARD_WIDTH {
      ScanStopped(Panicked, rest[k + 1..]);
    }
  }

  // ----- Writing a puzzle back -----

  /** Each number in decimal. */
  function ShowNumbers(ns: seq<U8>): (r: seq<string>)
    ensures |r| == |ns|
    ensures forall k :: 0 <= k < |ns| ==> r[k] == Decimal.Show(ns[k])
  {
    if ns == [] then [] else [Decimal.Show(ns[0])] + ShowNumbers(ns[1..])
  }

  /** A row line: the numbers separated by single spaces. */
  function RowLine(row: seq<U8>): string
    requires row != []
  {
    Text.Join(ShowNumbers(row), " ")
  }

  /** The five row lines of a card. */
  function CardText(b: seq<U8>): (r: seq<string>)
    requires |b| == CARD_SIZE
    ensures |r| == CARD_HEIGHT
  {
    seq(CARD_HEIGHT, k requires 0 <= k < CARD_HEIGHT => RowLine(b[k * CARD_WIDTH..k * CARD_WIDTH + CARD_WIDTH]))
  }

  /** Every card of 25 numbers. */
  predicate FullCards(boards: seq<seq<U8>>)
  {
    forall k :: 0 <= k < |boards| ==> |boards[k]| == CARD_SIZE
  }

  /** The cards, each followed by an empty line. */
  function CardsText(boards: seq<seq<U8>>): seq<string>
    requires FullCards(boards)
  {
    if boards == [] then [] else CardText(boards[0]) + [""] + CardsText(boards[1..])
  }

  /** A puzzle as text: the draws line, an empty line, then the cards. */
  function Render(p: Puzzle): seq<string>
    requires p.draws != [] && FullCards(p.boards)
  {
    [Text.Join(ShowNumbers(p.draws), ",")] + [""] + CardsText(p.boards)
  }

  /** Decimal renderings parse back to their numbers. */
  lemma {:induction false} ParseNumbersShow(ns: seq<U8>)
    ensures ParseNumbers(ShowNumbers(ns)) == Ok(ns)
  {
    if ns != [] {
      Decimal.ParseShow(ns[0], Decimal.U8_MAX);
      assert ShowNumbers(ns)[1..] == ShowNumbers(ns[1..]);
      ParseNumbersShow(ns[1..]);
      assert [ns[0]] + ns[1..] == ns;
    }
  }

  /** Decimal renderings are never empty, so dropping empty tokens keeps them all. */
  lemma {:induction false} NonEmptyShow(ns: seq<U8>)
    ensures NonEmpty(ShowNumbers(ns)) == ShowNumbers(ns)
  {
    if ns != [] {
      assert ShowNumbers(ns)[1..] == ShowNumbers(ns[1..]);
      NonEmptyShow(ns[1..]);
    }
  }

  /** Splitting a joined rendering on `sep` gives back the renderings, when `sep` is no digit. */
  lemma {:induction false} SplitShow(ns: seq<U8>, sep: string)
    requires ns != [] && |sep| > 0 && !Decimal.IsDigit(sep[0])
    ensures Text.Split(Text.Join(ShowNumbers(ns), sep), sep) == ShowNumbers(ns)
    ensures Text.Join(ShowNumbers(ns), sep) != []
  {
    var parts := ShowNumbers(ns);
    forall k | 0 <= k < |parts|
      ensures Text.FreeOf(parts[k], sep)
    {
      assert Decimal.AllDigits(parts[k]);
    }
    Text.SplitJoin(parts, sep);
    assert |Text.Join(parts, sep)| >= |parts[0]| > 0;
  }

  /** A row line reads back as its numbers. */
  lemma {:induction false} ParseRowLine(row: seq<U8>)
    requires row != []
    ensures RowLine(row) != [] && ParseRow(RowLine(row)) == Ok(row)
  {
    SplitShow(row, " ");
    NonEmptyShow(row);
    ParseNumbersShow(row);
  }

  /** The draws line reads back as the draws. */
  lemma {:induction false} ParseDrawsLine(draws: seq<U8>)
    requires draws != []
    ensures ParseDraws(Text.Join(ShowNumbers(draws), ",")) == Ok(draws)
  {
    SplitShow(draws, ",");
    ParseNumbersShow(draws);
  }

  /** Five row lines that read as the five rows of card `b`, in order. */
  predicate RowsOf(lines: seq<string>, b: seq<U8>)
    requires |b| == CARD_SIZE
  {
    |lines| == CARD_HEIGHT &&
    forall j :: 0 <= j < CARD_HEIGHT ==>
      lines[j] != [] && ParseRow(lines[j]) == Ok(b[j * CARD_WIDTH..j * CARD_WIDTH + CARD_WIDTH])
  }

  /** The text of a card reads as its rows. */
  lemma {:induction false} CardTextRows(b: seq<U8>)
    requires |b| == CARD_SIZE
    ensures RowsOf(CardText(b), b)
  {
    forall j | 0 <= j < CARD_HEIGHT
      ensures CardText(b)[j] != [] && ParseRow(CardText(b)[j]) == Ok(b[j * CARD_WIDTH..j * CARD_WIDTH + CARD_WIDTH])
    {
      ParseRowLine(b[j * CARD_WIDTH..j * CARD_WIDTH + CARD_WIDTH]);
    }
  }

  /** Writing row `k - 1` of card `b` over a buffer that holds its first `k - 1` rows. */
  lemma {:induction false} PutCardRow(a: Acc, b: seq<U8>, k: nat)
    requires |b| == CARD_SIZE && 0 < k <= CARD_HEIGHT
    ensures var start := (k - 1) * CARD_WIDTH;
      PutRow(Acc(a.boards, b[..start] + a.buffer[start..], k - 1), b[start..start + CARD_WIDTH])
      == Acc(a.boards, b[..k * CARD_WIDTH] + a.buffer[k * CARD_WIDTH..], k)
  {
    var start := (k - 1) * CARD_WIDTH;
    var before := b[..start] + a.buffer[start..];
    assert before[..start] + b[start..start + CARD_WIDTH] + before[start + CARD_WIDTH..]
      == b[..k * CARD_WIDTH] + a.buffer[k * CARD_WIDTH..];
  }

  /**
   * After the first `k` row lines of a card, read from an empty accumulator,
   * the first `k` rows of the buffer are the card's and the rest is as before.
   */
  lemma {:induction false} ScanRows(a: Acc, b: seq<U8>, lines: seq<string>, k: nat)
    requires a.rows == 0 && |b| == CARD_SIZE && RowsOf(lines, b) && k <= CARD_HEIGHT
    ensures ScanLines(Reading(a), lines[..k])
      == Reading(Acc(a.boards, b[..k * CARD_WIDTH] + a.buffer[k * CARD_WIDTH..], k))
  {
    if k == 0 {
      assert a.buffer[0..] == a.buffer;
      assert Acc(a.boards, a.buffer, 0) == a;
    } else {
      var start := (k - 1) * CARD_WIDTH;
      var row := b[start..start + CARD_WIDTH];
      var before := Acc(a.boards, b[..start] + a.buffer[start..], k - 1);
      calc {
        ScanLines(Reading(a), lines[..k]);
        { assert lines[..k] == lines[..k - 1] + [lines[k - 1]];
          ScanSnoc(Reading(a), lines[..k - 1], lines[k - 1]); }
        Step(ScanLines(Reading(a), lines[..k - 1]), lines[k - 1]);
        { ScanRows(a, b, lines, k - 1); }
        Step(Reading(before), lines[k - 1]);
        Reading(PutRow(before, row));
        { PutCardRow(a, b, k); }
        Reading(Acc(a.boards, b[..k * CARD_WIDTH] + a.buffer[k * CARD_WIDTH..], k));
      }
    }
  }

  /** A card's lines and the empty line after it add the card and leave its numbers in the buffer. */
  lemma {:induction false} ScanCard(a: Acc, b: seq<U8>)
    requires a.rows == 0 && |b| == CARD_SIZE
    ensures ScanLines(Reading(a), CardText(b) + [""]) == Reading(Acc(a.boards + [b], b, 0))
  {
    CardTextRows(b);
    ScanRows(a, b, CardText(b), CARD_HEIGHT);
    assert CardText(b)[..CARD_HEIGHT] == CardText(b);
    assert b[..CARD_SIZE] + a.buffer[CARD_SIZE..] == b;
    ScanSnoc(Reading(a), CardText(b), "");
  }

  /** The first card's text, with its empty line, moves the first card to the cards. */
  lemma {:induction false} ScanFirstCard(a: Acc, boards: seq<seq<U8>>)
    requires a.rows == 0 && boards != [] && FullCards(boards)
    ensures ScanLines(Reading(a), CardsText(boards))
      == ScanLines(Reading(Acc(a.boards + [boards[0]], boards[0], 0)), CardsText(boards[1..]))
  {
    var first, rest := CardText(boards[0]) + [""], CardsText(boards[1..]);
    assert CardsText(boards) == first + rest;
    ScanAppend(Reading(a), first, rest);
    ScanCard(a, boards[0]);
  }

  /** The slots left after the cards: those of the last card, if any. */
  function LastSlots(buffer: Buffer, boards: seq<seq<U8>>): Buffer
    requires FullCards(boards)
  {
    if boards == [] then buffer else boards[|boards| - 1]
  }

  /** The cards' text adds the cards, in order, and ends with no row written. */
  lemma {:induction false} ScanCards(a: Acc, boards: seq<seq<U8>>)
    requires a.rows == 0 && FullCards(boards)
    ensures ScanLines(Reading(a), CardsText(boards)) == Reading(Acc(a.boards + boards, LastSlots(a.buffer, boards), 0))
    decreases |boards|
  {
    if boards != [] {
      var next := Acc(a.boards + [boards[0]], boards[0], 0);
      calc {
        ScanLines(Reading(a), CardsText(boards));
        { ScanFirstCard(a, boards); }
        ScanLines(Reading(next), CardsText(boards[1..]));
        { ScanCards(next, boards[1..]); }
        Reading(Acc(next.boards + boards[1..], LastSlots(next.buffer, boards[1..]), 0));
        { assert next.boards + boards[1..] == a.boards + boards; }
        Reading(Acc(a.boards + boards, LastSlots(a.buffer, boards), 0));
      }
    }
  }

  /** Reading a written puzzle gives it back, without a panic. */
  lemma {:induction false} ReadRender(p: Puzzle)
    requires p.draws != [] && FullCards(p.boards)
    ensures !Panics(Render(p)) && Read(Render(p)) == Ok(p)
  {
    var lines := Render(p);
    ParseDrawsLine(p.draws);
    assert lines[0] == Text.Join(ShowNumbers(p.draws), ",");
    assert CardLines(lines) == CardsText(p.boards);
    ScanCards(Start(), p.boards);
    assert Start().boards + p.boards == p.boards;
  }
}
