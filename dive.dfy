/**
 * The submarine course of the "Dive" puzzle: each line `<command> <value>`
 * moves the submarine forward, down or up; the answer is depth × horizontal
 * position.
 */
module Dive {
  import opened Wrappers
  import Text
  import Decimal

  datatype Direction = Forward | Down | Up

  /** One parsed line of the course; the amount is an `isize`. */
  datatype Command = Command(direction: Direction, amount: int)

  datatype DiveError =
    | MissingValue               // the line has no second token
    | InvalidValue(token: string)  // the second token is not an `isize`
    | UnknownCommand(name: string) // the first token names no command

  function Keyword(d: Direction): string
  {
    match d
    case Forward => "forward"
    case Down => "down"
    case Up => "up"
  }

  /** The direction a command word names, if any. */
  function DirectionOf(word: string): Option<Direction>
  {
    if word == "forward" then Some(Forward)
    else if word == "down" then Some(Down)
    else if word == "up" then Some(Up)
    else None
  }

  /** The amount is read before the command word is looked at. */
  function ParseTokens(tokens: seq<string>): Result<Command, DiveError>
    requires |tokens| > 0
  {
    if |tokens| < 2 then Err(MissingValue)
    else
      match Decimal.ParseSigned(tokens[1], Decimal.ISIZE_MIN, Decimal.ISIZE_MAX)
      case None => Err(InvalidValue(tokens[1]))
      case Some(v) =>
        match DirectionOf(tokens[0])
        case Some(d) => Ok(Command(d, v))
        case None => Err(UnknownCommand(tokens[0]))
  }

  /**
   * A line split on single spaces: the first token is the command, the second
   * the amount; further tokens are ignored.
   */
  function ParseCommand(line: string): Result<Command, DiveError>
  {
    ParseTokens(Text.Split(line, " "))
  }

  /** The text of a command, as it appears in a course. */
  function Render(c: Command): string
  {
    Keyword(c.direction) + " " + Decimal.ShowSigned(c.amount)
  }

  predicate InRange(c: Command)
  {
    Decimal.ISIZE_MIN <= c.amount <= Decimal.ISIZE_MAX
  }

  lemma {:induction false} ShowSignedFree(n: int)
    ensures Text.FreeOf(Decimal.ShowSigned(n), " ")
  {
    var s := Decimal.ShowSigned(n);
    if n < 0 {
      assert s == "-" + Decimal.Show(-n);
    }
  }

  lemma {:induction false} KeywordFree(d: Direction)
    ensures Text.FreeOf(Keyword(d), " ") && DirectionOf(Keyword(d)) == Some(d)
  {
  }

  /** The tokens of a command followed by any further tokens read back as the command. */
  lemma {:induction false} ParseTokensRender(c: Command, tokens: seq<string>)
    requires InRange(c)
    requires |tokens| >= 2 && tokens[0] == Keyword(c.direction) && tokens[1] == Decimal.ShowSigned(c.amount)
    ensures ParseTokens(tokens) == Ok(c)
  {
    Decimal.ParseShowSigned(c.amount, Decimal.ISIZE_MIN, Decimal.ISIZE_MAX);
    KeywordFree(c.direction);
  }

  /** Every command reads back from its text. */
  lemma {:induction false} ParseRender(c: Command)
    requires InRange(c)
    ensures ParseCommand(Render(c)) == Ok(c)
  {
    var kw, value := Keyword(c.direction), Decimal.ShowSigned(c.amount);
    ShowSignedFree(c.amount);
    KeywordFree(c.direction);
    Text.SplitCons(kw, " ", value);
    Text.SplitSingle(value, " ");
    ParseTokensRender(c, [kw] + [value]);
  }

  /** A command's text followed by further space-separated tokens still reads back as the command. */
  lemma {:induction false} ParseRenderExtra(c: Command, extra: string)
    requires InRange(c)
    ensures ParseCommand(Render(c) + " " + extra) == Ok(c)
  {
    var kw, value := Keyword(c.direction), Decimal.ShowSigned(c.amount);
    ShowSignedFree(c.amount);
    KeywordFree(c.direction);
    Text.SplitCons(value, " ", extra);
    Text.SplitCons(kw, " ", value + " " + extra);
    Regroup(kw, value, extra, " ");
    ParseTokensRender(c, [kw] + ([value] + Text.Split(extra, " ")));
  }

  lemma {:induction false} Regroup(a: string, b: string, e: string, sp: string)
    ensures a + sp + b + sp + e == a + sp + (b + sp + e)
  {
  }

  /** A line with no space in it has no amount. */
  lemma {:induction false} ParseOneToken(word: string)
    requires Text.FreeOf(word, " ")
    ensures ParseCommand(word) == Err(MissingValue)
  {
    Text.SplitSingle(word, " ");
  }

  /** A well-formed amount after any word other than the three commands is refused. */
  lemma {:induction false} ParseUnknown(word: string, amount: int)
    requires Text.FreeOf(word, " ")
    requires DirectionOf(word) == None
    requires Decimal.ISIZE_MIN <= amount <= Decimal.ISIZE_MAX
    ensures ParseCommand(word + " " + Decimal.ShowSigned(amount)) == Err(UnknownCommand(word))
  {
    var value := Decimal.ShowSigned(amount);
    ShowSignedFree(amount);
    Decimal.ParseShowSigned(amount, Decimal.ISIZE_MIN, Decimal.ISIZE_MAX);
    Text.SplitCons(word, " ", value);
    Text.SplitSingle(value, " ");
  }

  /** The total amount of the commands going in direction `d`. */
  function Sum(cmds: seq<Command>, d: Direction): int
  {
    if cmds == [] then 0
    else Sum(cmds[..|cmds| - 1], d) + (if cmds[|cmds| - 1].direction == d then cmds[|cmds| - 1].amount else 0)
  }

  lemma {:induction false} SumSnoc(cmds: seq<Command>, c: Command)
    ensures forall d :: Sum(cmds + [c], d) == Sum(cmds, d) + (if c.direction == d then c.amount else 0)
  {
    assert (cmds + [c])[..|cmds|] == cmds;
  }

  /** Every line of the course parses. */
  predicate AllParse(lines: seq<string>)
  {
    forall k :: 0 <= k < |lines| ==> ParseCommand(lines[k]).Ok?
  }

  /** The commands of a course all of whose lines parse, line by line. */
  function Parsed(lines: seq<string>): (cmds: seq<Command>)
    requires AllParse(lines)
  {
    seq(|lines|, k requires 0 <= k < |lines| => ParseCommand(lines[k]).value)
  }

  /**
   * Runs the course. The answer is (Σdown − Σup) × Σforward over all lines; a
   * line that does not parse stops the run with that line's error.
   */
  method RunDive(input: seq<string>) returns (r: Result<int, DiveError>)
    ensures r.Ok? <==> AllParse(input)
    ensures r.Ok? ==> r.value == (Sum(Parsed(input), Down) - Sum(Parsed(input), Up)) * Sum(Parsed(input), Forward)
    ensures r.Err? ==> exists k :: 0 <= k < |input| && ParseCommand(input[k]) == Err(r.error) && AllParse(input[..k])
  {
    var depth, horizontal := 0, 0;
    ghost var cmds: seq<Command> := [];
    for i := 0 to |input|
      invariant |cmds| == i
      invariant forall k :: 0 <= k < i ==> ParseCommand(input[k]) == Ok(cmds[k])
      invariant horizontal == Sum(cmds, Forward)
      invariant depth == Sum(cmds, Down) - Sum(cmds, Up)
    {
      var parsed := ParseCommand(input[i]);
      if parsed.Err? {
        assert AllParse(input[..i]);
        return Err(parsed.error);
      }
      SumSnoc(cmds, parsed.value);
      cmds := cmds + [parsed.value];
      depth, horizontal := Move(parsed.value, depth, horizontal);
    }
    assert Parsed(input) == cmds;
    r := Ok(depth * horizontal);
  }

  /** One command: forward moves ahead, down and up change the depth. */
  method Move(cmd: Command, depth: int, horizontal: int) returns (depth': int, horizontal': int)
    ensures horizontal' == horizontal + (if cmd.direction == Forward then cmd.amount else 0)
    ensures depth' == depth + (if cmd.direction == Down then cmd.amount else 0) - (if cmd.direction == Up then cmd.amount else 0)
  {
    depth', horizontal' := depth, horizontal;
    match cmd.direction
    case Forward => horizontal' := horizontal + cmd.amount;
    case Down => depth' := depth + cmd.amount;
    case Up => depth' := depth - cmd.amount;
  }

  /** The text of a course: one rendered line per command. */
  function Course(cmds: seq<Command>): (lines: seq<string>)
    ensures |lines| == |cmds|
  {
    if cmds == [] then [] else Course(cmds[..|cmds| - 1]) + [Render(cmds[|cmds| - 1])]
  }

  /** Line `k` of a course is the text of command `k`. */
  lemma {:induction false} CourseAt(cmds: seq<Command>, k: nat)
    requires k < |cmds|
    ensures Course(cmds)[k] == Render(cmds[k])
  {
    if k < |cmds| - 1 {
      CourseAt(cmds[..|cmds| - 1], k);
    }
  }

  /** A rendered course parses back to its commands. */
  lemma {:induction false} ParseCourse(cmds: seq<Command>)
    requires forall i :: 0 <= i < |cmds| ==> InRange(cmds[i])
    ensures AllParse(Course(cmds)) && Parsed(Course(cmds)) == cmds
  {
    forall k | 0 <= k < |cmds|
      ensures ParseCommand(Course(cmds)[k]) == Ok(cmds[k])
    {
      CourseAt(cmds, k);
      ParseRender(cmds[k]);
    }
  }

  lemma {:induction false} CourseSnoc(cmds: seq<Command>, c: Command)
    ensures Course(cmds + [c]) == Course(cmds) + [Render(c)]
  {
    assert (cmds + [c])[..|cmds|] == cmds;
  }

  /** The commands of the six-line course from the puzzle statement. */
  const EXAMPLE_COMMANDS := [Command(Forward, 5), Command(Down, 5), Command(Forward, 8),
                             Command(Up, 3), Command(Down, 8), Command(Forward, 2)]

  lemma {:induction false} ExampleText()
    ensures Course(EXAMPLE_COMMANDS) == ["forward 5", "down 5", "forward 8", "up 3", "down 8", "forward 2"]
  {
    var steps := EXAMPLE_COMMANDS;
    var cmds: seq<Command> := [];
    CourseSnoc(cmds, steps[0]);
    assert Render(steps[0]) == "forward 5";
    cmds := cmds + [steps[0]];
    assert Course(cmds) == ["forward 5"];
    CourseSnoc(cmds, steps[1]);
    assert Render(steps[1]) == "down 5";
    cmds := cmds + [steps[1]];
    assert Course(cmds) == ["forward 5", "down 5"];
    CourseSnoc(cmds, steps[2]);
    assert Render(steps[2]) == "forward 8";
    cmds := cmds + [steps[2]];
    assert Course(cmds) == ["forward 5", "down 5", "forward 8"];
    CourseSnoc(cmds, steps[3]);
    assert Render(steps[3]) == "up 3";
    cmds := cmds + [steps[3]];
    assert Course(cmds) == ["forward 5", "down 5", "forward 8", "up 3"];
    CourseSnoc(cmds, steps[4]);
    assert Render(steps[4]) == "down 8";
    cmds := cmds + [steps[4]];
    assert Course(cmds) == ["forward 5", "down 5", "forward 8", "up 3", "down 8"];
    CourseSnoc(cmds, steps[5]);
    assert Render(steps[5]) == "forward 2";
    cmds := cmds + [steps[5]];
    assert Course(cmds) == ["forward 5", "down 5", "forward 8", "up 3", "down 8", "forward 2"];
    assert cmds == steps;
  }

  lemma {:induction false} ExampleSums()
    ensures Sum(EXAMPLE_COMMANDS, Forward) == 15
    ensures Sum(EXAMPLE_COMMANDS, Down) == 13 && Sum(EXAMPLE_COMMANDS, Up) == 3
  {
    var steps := EXAMPLE_COMMANDS;
    var cmds: seq<Command> := [];
    SumSnoc(cmds, steps[0]);
    cmds := cmds + [steps[0]];
    SumSnoc(cmds, steps[1]);
    cmds := cmds + [steps[1]];
    SumSnoc(cmds, steps[2]);
    cmds := cmds + [steps[2]];
    SumSnoc(cmds, steps[3]);
    cmds := cmds + [steps[3]];
    SumSnoc(cmds, steps[4]);
    cmds := cmds + [steps[4]];
    SumSnoc(cmds, steps[5]);
    cmds := cmds + [steps[5]];
    assert cmds == steps;
  }

  /** The six-line course from the puzzle statement ends at depth 10, position 15. */
  lemma {:induction false} ExampleCourse()
    ensures var course := ["forward 5", "down 5", "forward 8", "up 3", "down 8", "forward 2"];
      AllParse(course) &&
      (Sum(Parsed(course), Down) - Sum(Parsed(course), Up)) * Sum(Parsed(course), Forward) == 150
  {
    ExampleText();
    ExampleSums();
    ParseCourse(EXAMPLE_COMMANDS);
  }
}
