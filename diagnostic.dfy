/**
 * The "Binary Diagnostic" power consumption: every report line is a string of
 * bits; per bit position the more common bit forms the gamma rate and the
 * less common one the epsilon rate, and the answer is gamma × epsilon.
 */
module BinaryDiagnostic {
  import opened Wrappers

  /** How many zeros and ones one bit position has seen. */
  datatype BitCount = BitCount(zero: nat, one: nat)

  datatype DiagnosticError =
    | EmptyInput                             // the report has no line
    | InvalidCharacter(bit: char, line: string) // a counted character is neither '0' nor '1'

  function Min(a: nat, b: nat): nat
  {
    if a < b then a else b
  }

  function Pow2(n: nat): (p: nat)
    ensures p >= 1
  {
    if n == 0 then 1 else 2 * Pow2(n - 1)
  }

  predicate IsBit(c: char)
  {
    c == '0' || c == '1'
  }

  predicate IsBinary(s: string)
  {
    forall i :: 0 <= i < |s| ==> IsBit(s[i])
  }

  /** The characters of a line that are counted: at most the first `width`. */
  function Counted(line: string, width: nat): (s: string)
    ensures |s| == Min(|line|, width)
    ensures s == line[..|s|]
  {
    line[..Min(|line|, width)]
  }

  /** The first character of `s` that is not a bit, if any. */
  function FirstInvalid(s: string): (r: Option<char>)
    ensures r.None? <==> IsBinary(s)
  {
    if s == [] then None
    else if IsBit(s[0]) then
      assert forall i :: 0 < i < |s| ==> s[i] == s[1..][i - 1];
      FirstInvalid(s[1..])
    else Some(s[0])
  }

  /** A bit prefix followed by a non-bit makes that character the first invalid one. */
  lemma {:induction false} FirstInvalidAt(s: string, i: nat)
    requires i < |s| && IsBinary(s[..i]) && !IsBit(s[i])
    ensures FirstInvalid(s) == Some(s[i])
  {
    if i > 0 {
      assert s[0] == s[..i][0];
      assert s[1..][..i - 1] == s[..i][1..];
      FirstInvalidAt(s[1..], i - 1);
    }
  }

  /** Every line's counted characters are bits. */
  predicate AllBinary(lines: seq<string>, width: nat)
  {
    lines == [] || (AllBinary(lines[..|lines| - 1], width) && IsBinary(Counted(lines[|lines| - 1], width)))
  }

  lemma {:induction false} AllBinaryEach(lines: seq<string>, width: nat)
    ensures AllBinary(lines, width) <==> forall k :: 0 <= k < |lines| ==> IsBinary(Counted(lines[k], width))
  {
    if lines != [] {
      var init := lines[..|lines| - 1];
      AllBinaryEach(init, width);
      assert forall k :: 0 <= k < |init| ==> lines[k] == init[k];
    }
  }

  /** The number of lines with a '0' at position `i`. */
  function Zeros(lines: seq<string>, i: nat): nat
  {
    if lines == [] then 0
    else
      var last := lines[|lines| - 1];
      Zeros(lines[..|lines| - 1], i) + (if i < |last| && last[i] == '0' then 1 else 0)
  }

  /** The number of lines with a '1' at position `i`. */
  function Ones(lines: seq<string>, i: nat): nat
  {
    if lines == [] then 0
    else
      var last := lines[|lines| - 1];
      Ones(lines[..|lines| - 1], i) + (if i < |last| && last[i] == '1' then 1 else 0)
  }

  /** The number of lines that reach position `i`. */
  function Reaching(lines: seq<string>, i: nat): nat
  {
    if lines == [] then 0
    else Reaching(lines[..|lines| - 1], i) + (if i < |lines[|lines| - 1]| then 1 else 0)
  }

  /** Adding a line adds its own bit at position `i`. */
  lemma {:induction false} CountSnoc(lines: seq<string>, line: string, i: nat)
    ensures Zeros(lines + [line], i) == Zeros(lines, i) + (if i < |line| && line[i] == '0' then 1 else 0)
    ensures Ones(lines + [line], i) == Ones(lines, i) + (if i < |line| && line[i] == '1' then 1 else 0)
    ensures Reaching(lines + [line], i) == Reaching(lines, i) + (if i < |line| then 1 else 0)
  {
    assert (lines + [line])[..|lines|] == lines;
  }

  /** In a binary report every line that reaches a counted position adds to exactly one count there. */
  lemma {:induction false} ZerosOnes(lines: seq<string>, width: nat, i: nat)
    requires AllBinary(lines, width) && i < width
    ensures Zeros(lines, i) + Ones(lines, i) == Reaching(lines, i)
  {
    if lines != [] {
      var last := lines[|lines| - 1];
      ZerosOnes(lines[..|lines| - 1], width, i);
      if i < |last| {
        assert Counted(last, width)[i] == last[i];
      }
    }
  }

  /** The counts at every position below `width`, as the report holds them. */
  function Tally(lines: seq<string>, width: nat): (counts: seq<BitCount>)
    ensures |counts| == width
  {
    seq(width, i requires 0 <= i => BitCount(Zeros(lines, i), Ones(lines, i)))
  }

  /** Ties go to one: a position is in gamma unless zeros outnumber ones. */
  predicate MostlyOnes(c: BitCount)
  {
    !(c.zero > c.one)
  }

  /**
   * The gamma rate: the number whose bits, most significant first, are the
   * majority bits of `counts`.
   */
  function Gamma(counts: seq<BitCount>): nat
  {
    if counts == [] then 0
    else 2 * Gamma(counts[..|counts| - 1]) + (if MostlyOnes(counts[|counts| - 1]) then 1 else 0)
  }

  /** The epsilon rate: the minority bits of `counts`, most significant first. */
  function Epsilon(counts: seq<BitCount>): nat
  {
    if counts == [] then 0
    else 2 * Epsilon(counts[..|counts| - 1]) + (if MostlyOnes(counts[|counts| - 1]) then 0 else 1)
  }

  /** Every position adds its weight to exactly one of the rates, so together they set every bit. */
  lemma {:induction false} GammaEpsilon(counts: seq<BitCount>)
    ensures Gamma(counts) + Epsilon(counts) == Pow2(|counts|) - 1
  {
    if counts != [] {
      GammaEpsilon(counts[..|counts| - 1]);
    }
  }

  /** One step of the rate loop: weight 2^(width-i-1) goes to the rate of position i. */
  lemma {:induction false} RateStep(counts: seq<BitCount>, i: nat, width: nat)
    requires i < |counts| && |counts| == width
    ensures Gamma(counts[..i + 1]) * Pow2(width - i - 1)
         == Gamma(counts[..i]) * Pow2(width - i) + (if MostlyOnes(counts[i]) then Pow2(width - i - 1) else 0)
    ensures Epsilon(counts[..i + 1]) * Pow2(width - i - 1)
         == Epsilon(counts[..i]) * Pow2(width - i) + (if MostlyOnes(counts[i]) then 0 else Pow2(width - i - 1))
  {
    assert counts[..i + 1][..i] == counts[..i];
    var p := Pow2(width - i - 1);
    assert Pow2(width - i) == 2 * p;
    Shift(Gamma(counts[..i]), if MostlyOnes(counts[i]) then 1 else 0, p);
    Shift(Epsilon(counts[..i]), if MostlyOnes(counts[i]) then 0 else 1, p);
  }

  /** Appending bit `b` below rate `g` and scaling by `p`: `g` moves up one weight. */
  lemma {:induction false} Shift(g: nat, b: nat, p: nat)
    requires b <= 1
    ensures (2 * g + b) * p == g * (2 * p) + (if b == 1 then p else 0)
  {
    calc {
      (2 * g + b) * p;
      2 * g * p + b * p;
      g * (2 * p) + b * p;
    }
  }

  /**
   * Counts the first `width` characters of one more line into `counts`,
   * stopping at the first character that is not a bit and returning it.
   */
  method CountLine(counts: array<BitCount>, lines: seq<string>, line: string) returns (bad: Option<char>)
    requires forall j :: 0 <= j < counts.Length ==> counts[j] == BitCount(Zeros(lines, j), Ones(lines, j))
    modifies counts
    ensures bad.None? <==> IsBinary(Counted(line, counts.Length))
    ensures bad.Some? ==> FirstInvalid(Counted(line, counts.Length)) == Some(bad.value)
    ensures bad.None? ==>
      forall j :: 0 <= j < counts.Length ==> counts[j] == BitCount(Zeros(lines + [line], j), Ones(lines + [line], j))
  {
    var width := counts.Length;
    for i := 0 to Min(|line|, width)
      invariant IsBinary(line[..i])
      invariant forall j :: 0 <= j < i ==> counts[j] == BitCount(Zeros(lines + [line], j), Ones(lines + [line], j))
      invariant forall j :: i <= j < width ==> counts[j] == BitCount(Zeros(lines, j), Ones(lines, j))
    {
      CountSnoc(lines, line, i);
      if line[i] == '0' {
        counts[i] := BitCount(counts[i].zero + 1, counts[i].one);
      } else if line[i] == '1' {
        counts[i] := BitCount(counts[i].zero, counts[i].one + 1);
      } else {
        FirstInvalidAt(Counted(line, width), i);
        return Some(line[i]);
      }
      assert line[..i + 1] == line[..i] + [line[i]];
    }
    forall j | Min(|line|, width) <= j < width
      ensures counts[j] == BitCount(Zeros(lines + [line], j), Ones(lines + [line], j))
    {
      CountSnoc(lines, line, j);
    }
    bad := None;
  }

  /**
   * The power consumption of a report. The width is the length of the first
   * line; every line contributes its first `width` characters, which must be
   * bits; the product of the rates is returned.
   */
  method RunBinaryDiagnostic(input: seq<string>) returns (r: Result<int, DiagnosticError>)
    ensures input == [] ==> r == Err(EmptyInput)
    ensures input != [] ==> (r.Ok? <==> AllBinary(input, |input[0]|))
    ensures r.Ok? ==> r.value == Gamma(Tally(input, |input[0]|)) * Epsilon(Tally(input, |input[0]|))
    ensures r.Err? && input != [] ==>
      r.error.InvalidCharacter? &&
      exists k :: 0 <= k < |input| && AllBinary(input[..k], |input[0]|)
        && FirstInvalid(Counted(input[k], |input[0]|)) == Some(r.error.bit)
        && r.error.line == input[k]
  {
    if input == [] {
      return Err(EmptyInput);
    }
    var width := |input[0]|;
    var counts := new BitCount[width](_ => BitCount(0, 0));
    for k := 0 to |input|
      invariant AllBinary(input[..k], width)
      invariant forall j :: 0 <= j < width ==> counts[j] == BitCount(Zeros(input[..k], j), Ones(input[..k], j))
    {
      var bad := CountLine(counts, input[..k], input[k]);
      assert input[..k + 1] == input[..k] + [input[k]];
      assert input[..k + 1][..k] == input[..k];
      if bad.Some? {
        AllBinaryEach(input, width);
        return Err(InvalidCharacter(bad.value, input[k]));
      }
    }
    assert input[..|input|] == input;
    assert counts[..] == Tally(input, width);

    var gamma, epsilon := 0, 0;
    for i := 0 to width
      invariant counts[..] == Tally(input, width)
      invariant gamma == Gamma(counts[..i]) * Pow2(width - i)
      invariant epsilon == Epsilon(counts[..i]) * Pow2(width - i)
    {
      RateStep(counts[..], i, width);
      assert counts[..][..i] == counts[..i] && counts[..][..i + 1] == counts[..i + 1];
      if counts[i].zero > counts[i].one {
        epsilon := epsilon + Pow2(width - i - 1);
      } else {
        gamma := gamma + Pow2(width - i - 1);
      }
    }
    assert counts[..width] == counts[..];
    r := Ok(gamma * epsilon);
  }

  /** The example report of twelve five-bit lines. */
  const EXAMPLE_REPORT: seq<string> := ["00100", "11110", "10110", "10111", "10101", "01111", "00111", "11100", "10000", "11001", "00010", "01010"]

  lemma {:induction false} RatesSnoc(counts: seq<BitCount>, c: BitCount)
    ensures Gamma(counts + [c]) == 2 * Gamma(counts) + (if MostlyOnes(c) then 1 else 0)
    ensures Epsilon(counts + [c]) == 2 * Epsilon(counts) + (if MostlyOnes(c) then 0 else 1)
  {
    assert (counts + [c])[..|counts|] == counts;
  }

  /** The counts over the first six lines of the example. */
  lemma {:induction false} ExampleTallyHalf(i: nat)
    requires i < 5
    ensures Zeros(EXAMPLE_REPORT[..6], i) == [2, 4, 0, 2, 3][i]
    ensures Ones(EXAMPLE_REPORT[..6], i) == [4, 2, 6, 4, 3][i]
  {
    assert EXAMPLE_REPORT[..0] == [];
    CountSnoc(EXAMPLE_REPORT[..0], EXAMPLE_REPORT[0], i);
    assert EXAMPLE_REPORT[..1] == EXAMPLE_REPORT[..0] + [EXAMPLE_REPORT[0]];
    CountSnoc(EXAMPLE_REPORT[..1], EXAMPLE_REPORT[1], i);
    assert EXAMPLE_REPORT[..2] == EXAMPLE_REPORT[..1] + [EXAMPLE_REPORT[1]];
    CountSnoc(EXAMPLE_REPORT[..2], EXAMPLE_REPORT[2], i);
    assert EXAMPLE_REPORT[..3] == EXAMPLE_REPORT[..2] + [EXAMPLE_REPORT[2]];
    CountSnoc(EXAMPLE_REPORT[..3], EXAMPLE_REPORT[3], i);
    assert EXAMPLE_REPORT[..4] == EXAMPLE_REPORT[..3] + [EXAMPLE_REPORT[3]];
    CountSnoc(EXAMPLE_REPORT[..4], EXAMPLE_REPORT[4], i);
    assert EXAMPLE_REPORT[..5] == EXAMPLE_REPORT[..4] + [EXAMPLE_REPORT[4]];
    CountSnoc(EXAMPLE_REPORT[..5], EXAMPLE_REPORT[5], i);
    assert EXAMPLE_REPORT[..6] == EXAMPLE_REPORT[..5] + [EXAMPLE_REPORT[5]];
    if i == 0 {
    } else if i == 1 {
    } else if i == 2 {
    } else if i == 3 {
    }
  }

  /** The counts over the whole example, position by position. */
  lemma {:induction false} ExampleTallyAt(i: nat)
    requires i < 5
    ensures Zeros(EXAMPLE_REPORT, i) == [5, 7, 4, 5, 7][i]
    ensures Ones(EXAMPLE_REPORT, i) == [7, 5, 8, 7, 5][i]
  {
    ExampleTallyHalf(i);
    CountSnoc(EXAMPLE_REPORT[..6], EXAMPLE_REPORT[6], i);
    assert EXAMPLE_REPORT[..7] == EXAMPLE_REPORT[..6] + [EXAMPLE_REPORT[6]];
    CountSnoc(EXAMPLE_REPORT[..7], EXAMPLE_REPORT[7], i);
    assert EXAMPLE_REPORT[..8] == EXAMPLE_REPORT[..7] + [EXAMPLE_REPORT[7]];
    CountSnoc(EXAMPLE_REPORT[..8], EXAMPLE_REPORT[8], i);
    assert EXAMPLE_REPORT[..9] == EXAMPLE_REPORT[..8] + [EXAMPLE_REPORT[8]];
    CountSnoc(EXAMPLE_REPORT[..9], EXAMPLE_REPORT[9], i);
    assert EXAMPLE_REPORT[..10] == EXAMPLE_REPORT[..9] + [EXAMPLE_REPORT[9]];
    CountSnoc(EXAMPLE_REPORT[..10], EXAMPLE_REPORT[10], i);
    assert EXAMPLE_REPORT[..11] == EXAMPLE_REPORT[..10] + [EXAMPLE_REPORT[10]];
    CountSnoc(EXAMPLE_REPORT[..11], EXAMPLE_REPORT[11], i);
    assert EXAMPLE_REPORT[..12] == EXAMPLE_REPORT[..11] + [EXAMPLE_REPORT[11]];
    assert EXAMPLE_REPORT[..12] == EXAMPLE_REPORT;
  }

  /** The example's counts: ones win at positions 0, 2 and 3, zeros at 1 and 4. */
  lemma {:induction false} ExampleTally()
    ensures Tally(EXAMPLE_REPORT, 5) == [BitCount(5, 7), BitCount(7, 5), BitCount(4, 8), BitCount(5, 7), BitCount(7, 5)]
  {
    ExampleTallyAt(0); ExampleTallyAt(1); ExampleTallyAt(2); ExampleTallyAt(3); ExampleTallyAt(4);
  }

  /** Every line of the example is made of bits. */
  lemma {:induction false} ExampleBinary()
    ensures |EXAMPLE_REPORT[0]| == 5 && AllBinary(EXAMPLE_REPORT, 5)
  {
    AllBinaryEach(EXAMPLE_REPORT, 5);
    forall k | 0 <= k < |EXAMPLE_REPORT|
      ensures IsBinary(Counted(EXAMPLE_REPORT[k], 5))
    {
      assert Counted(EXAMPLE_REPORT[k], 5) == EXAMPLE_REPORT[k];
    }
  }

  /** The example's rates: gamma 10110 = 22 and epsilon 01001 = 9. */
  lemma {:induction false} ExampleRates(t: seq<BitCount>)
    requires t == [BitCount(5, 7), BitCount(7, 5), BitCount(4, 8), BitCount(5, 7), BitCount(7, 5)]
    ensures Gamma(t) == 22 && Epsilon(t) == 9
  {
    var t1 := [] + [t[0]];
    var t2 := t1 + [t[1]];
    var t3 := t2 + [t[2]];
    var t4 := t3 + [t[3]];
    RatesSnoc([], t[0]); RatesSnoc(t1, t[1]); RatesSnoc(t2, t[2]); RatesSnoc(t3, t[3]); RatesSnoc(t4, t[4]);
    assert t == t4 + [t[4]];
  }

  /** The example is binary throughout, with gamma 22 and epsilon 9: power consumption 198. */
  lemma {:induction false} ExampleDiagnostic()
    ensures |EXAMPLE_REPORT[0]| == 5 && AllBinary(EXAMPLE_REPORT, 5)
    ensures Gamma(Tally(EXAMPLE_REPORT, 5)) == 22 && Epsilon(Tally(EXAMPLE_REPORT, 5)) == 9
    ensures Gamma(Tally(EXAMPLE_REPORT, 5)) * Epsilon(Tally(EXAMPLE_REPORT, 5)) == 198
  {
    ExampleBinary();
    ExampleTally();
    ExampleRates(Tally(EXAMPLE_REPORT, 5));
  }
}
