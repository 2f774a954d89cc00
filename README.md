# Advent of Code 2021 solvers, days 2 to 6: a verified model

This project models five puzzle solvers of a small Rust repository:

- **Dive** (day 2): it reads `forward`/`down`/`up` commands and reports depth × horizontal position.
- **Binary Diagnostic** (day 3): it counts bits per position, builds the gamma and epsilon rates and reports their product.
- **Giant Squid** (day 4): it plays bingo on 5×5 cards. Each card keeps a value→place table, one uncrossed counter per row and per column, and an uncrossed sum, and updates them as numbers are drawn. Two games run on these cards: the first card to win, and the last card left when winners leave.
- **Hydrothermal Venture** (day 5): it draws vent lines onto a 1000 × 1000 floor in place and counts the cells covered at least twice.
- **Lanternfish** (day 6): it keeps a nine-slot timer histogram and rotates it in place, day by day.

The modules are:

- `Wrappers`: `Option` and `Result`.
- `Text`: Rust's `str::split`.
- `Decimal`: Rust's `str::parse` for the fixed-width integer types used.
- `Dive`, `BinaryDiagnostic`, `Lanternfish` and `Vents`: one module per solver.
- Day 4 is split into four modules:
  - `BingoRules`: the game on values (where numbers sit, which draws hit, when a line is complete, scores, first and last winners);
  - `BingoCards`: the `BingoCard` class with its fields updated in place;
  - `BingoGame`: the two game drivers;
  - `BingoInput`: the `BingoCardAcc` class and `read_puzzle_input`.

The code works by changing state step by step, and the model keeps that form:
- The bingo card and the card accumulator are classes whose methods update their fields.
- The floor, the histogram and the bit counts are arrays updated in loops.
- Each method is proved against a pure function that defines its result: `Paint`/`Gained`, `Days`/`Histogram`, `Tally`/`Gamma`/`Epsilon`, `Sum`/`Parsed`, `Bingo`/`Score`/`FirstWinner`/`LastWinner`, and `ScanLines`/`Read`. Lemmas establish what those functions promise.

Panics of the source are preconditions. Errors it returns are `Result` values. Reading lines from a file is replaced by a sequence of strings.

## Model

| member | source | states |
|---|---|---|
| Text.Find | src/day_2.rs:36 | the result is the left-most occurrence of the separator at or after `from`, or none when there is none |
| Text.Split | src/day_2.rs:36 | the pieces between successive left-most occurrences of the separator, at least one piece, the last one the rest of the line |
| Text.JoinSplit | src/day_2.rs:36 | joining the pieces of a split with the separator gives back the line |
| Text.SplitJoin | src/day_4.rs:141 | splitting a join of pieces that do not contain the separator gives back the pieces |
| Text.SplitSingle | src/day_2.rs:36 | a line without the separator is one piece |
| Text.SplitCons | src/day_2.rs:36 | a separator-free first piece is split off first, whatever follows it |
| Decimal.Value | src/day_4.rs:142 | a run of characters has a decimal value exactly when all of them are digits |
| Decimal.Show | src/day_4.rs:142 | the decimal rendering is non-empty and all digits |
| Decimal.ParseUnsigned | src/day_5.rs:126 | an accepted token is within the type's maximum and starts with a digit or `+` |
| Decimal.ParseSigned | src/day_2.rs:38 | an accepted `isize` token lies within the type's range |
| Decimal.ValueShow | src/day_4.rs:142 | the digits of a rendering denote the number |
| Decimal.ParseShow | src/day_5.rs:126 | every value of an unsigned type parses back from its rendering |
| Decimal.ParseShowSigned | src/day_2.rs:38 | every value of a signed type parses back from its rendering, sign included |
| Dive.ParseTokens | src/day_2.rs:37-44 | fewer than two tokens is the missing-argument error; the amount is parsed as `isize` before the word is looked at, so a bad amount wins over an unknown word; then forward/down/up give the command and any other word the unknown-command error |
| Dive.ParseCommand | src/day_2.rs:36-45 | a line is split on single spaces and its tokens read by `ParseTokens`; tokens after the second are ignored |
| Dive.Sum | src/day_2.rs:40-43 | the total amount of the commands going in one direction |
| Dive.KeywordFree | src/day_2.rs:40-43 | each command word is space-free and names its own direction |
| Dive.ParseTokensRender | src/day_2.rs:37-43 | a command's word and amount, followed by any tokens, read back as the command |
| Dive.ParseRender | src/day_2.rs:36-43 | every command with an `isize` amount reads back from its text line |
| Dive.ParseRenderExtra | src/day_2.rs:36-38 | tokens after the amount are ignored |
| Dive.ParseOneToken | src/day_2.rs:38 | a line with no space is the missing-second-argument error |
| Dive.ParseUnknown | src/day_2.rs:44 | a valid amount after any word other than the three commands is the unknown-command error naming that word |
| Dive.RunDive | src/day_2.rs:30-49 | the result is Ok exactly when every line parses, and then equals (Σdown − Σup) × Σforward; otherwise the error is that of the first line that fails to parse |
| Dive.Move | src/day_2.rs:40-43 | forward adds to the horizontal position, down adds to the depth, up subtracts from it, and nothing else moves |
| Dive.CourseAt | src/day_2.rs:34-35 | line k of a rendered course is the text of command k |
| Dive.ParseCourse | src/day_2.rs:34-45 | a rendered course parses line by line back to its commands |
| Dive.ExampleText | src/day_2.rs:58-63 | the example's six commands render as the six example lines |
| Dive.ExampleSums | src/day_2.rs:58-63 | the example goes forward 15, down 13 and up 3 |
| Dive.ExampleCourse | src/day_2.rs:57-71 | the example course parses and gives 150 |
| BinaryDiagnostic.Zeros | src/day_3.rs:49-51 | the number of lines holding '0' at position i; lines too short to reach i do not count |
| BinaryDiagnostic.Ones | src/day_3.rs:49-52 | the number of lines holding '1' at position i; lines too short to reach i do not count |
| BinaryDiagnostic.Gamma | src/day_3.rs:61-64 | the number whose bits, most significant first, are 1 where ones are at least as many as zeros (ties go to gamma) |
| BinaryDiagnostic.Epsilon | src/day_3.rs:61-63 | the number whose bits, most significant first, are 1 exactly where zeros outnumber ones |
| BinaryDiagnostic.Counted | src/day_3.rs:49 | only the first `line_length` characters of a line are counted, or the whole line when it is shorter |
| BinaryDiagnostic.FirstInvalid | src/day_3.rs:50-53 | there is no invalid character exactly when every character is '0' or '1' |
| BinaryDiagnostic.FirstInvalidAt | src/day_3.rs:49-53 | the first non-bit after a run of bits is the character reported |
| BinaryDiagnostic.AllBinaryEach | src/day_3.rs:46-56 | the report is binary exactly when the counted part of every line is |
| BinaryDiagnostic.CountSnoc | src/day_3.rs:49-52 | one more line adds its own bit to the zero or one count of each position it reaches |
| BinaryDiagnostic.ZerosOnes | src/day_3.rs:49-53 | in a binary report, each line reaching a counted position adds to exactly one of its two counts |
| BinaryDiagnostic.Tally | src/day_3.rs:44 | there is one count per position of the first line |
| BinaryDiagnostic.GammaEpsilon | src/day_3.rs:61-66 | each position adds its weight to exactly one rate, so gamma + epsilon = 2^L − 1 |
| BinaryDiagnostic.RateStep | src/day_3.rs:62-65 | position i adds 2^(L−i−1) to epsilon when zeros outnumber ones, and to gamma otherwise |
| BinaryDiagnostic.CountLine | src/day_3.rs:49-55 | the counts gain the line's bits at every counted position; otherwise it stops at the first invalid character and returns it |
| BinaryDiagnostic.RunBinaryDiagnostic | src/day_3.rs:24-69 | empty input is an error; the result is Ok exactly when every line's counted prefix is binary, and then equals gamma × epsilon of the per-position counts; otherwise the error names the first invalid character and its line |
| BinaryDiagnostic.ExampleTallyHalf | src/day_3.rs:76-82 | the zero and one counts of the first six example lines |
| BinaryDiagnostic.ExampleTallyAt | src/day_3.rs:76-88 | the zero and one counts of the example at each position |
| BinaryDiagnostic.ExampleTally | src/day_3.rs:76-88 | the example's per-position counts |
| BinaryDiagnostic.ExampleBinary | src/day_3.rs:76-88 | every example line is five bits |
| BinaryDiagnostic.ExampleRates | src/day_3.rs:61-66 | the example's counts give gamma 22 and epsilon 9 |
| BinaryDiagnostic.ExampleDiagnostic | src/day_3.rs:90-95 | the example's power consumption is 198 |
| Lanternfish.Histogram | src/day_6.rs:52-55 | the nine-slot schedule built by adding one to the slot of each fish's timer, starting from all zeros |
| Lanternfish.Day | src/day_6.rs:58-61 | slots 1..8 move down one, slot 0 is added to slot 6 and becomes slot 8 |
| Lanternfish.Days | src/day_6.rs:57-62 | the schedule after n applications of `Day` |
| Lanternfish.HistogramCounts | src/day_6.rs:52-55 | slot t of the histogram is the number of fish with timer t |
| Lanternfish.HistogramTotal | src/day_6.rs:52-55 | the slots add up to the number of fish |
| Lanternfish.TotalUpdate | src/day_6.rs:53 | raising one slot raises the total by the same amount |
| Lanternfish.DayAt | src/day_6.rs:58-61 | one day moves slot i+1 to slot i, adds slot 0 to slot 6 and puts it in slot 8 |
| Lanternfish.DayTotal | src/day_6.rs:58-61 | one day adds exactly slot 0's fish to the total |
| Lanternfish.DaysNeverShrink | src/day_6.rs:57-62 | the population never shrinks |
| Lanternfish.DaysEmpty | src/day_6.rs:57-62 | an all-zero schedule stays all zero |
| Lanternfish.DaysAdd | src/day_6.rs:57-62 | a days and then b more days is a + b days |
| Lanternfish.DaysFour | src/day_6.rs:57-62 | four days as one map on the slots |
| Lanternfish.DaysSixteen | src/day_6.rs:57-62 | sixteen days as one map on the slots |
| Lanternfish.ExampleHistogram | src/day_6.rs:90 | the example fish 3,4,3,1,2 give the schedule 0,1,1,2,1,0,0,0,0 |
| Lanternfish.ExampleCheckpointStep | src/day_6.rs:90-101 | each example checkpoint is sixteen days after the one before |
| Lanternfish.ExampleDays | src/day_6.rs:90-101 | checkpoint k is the example schedule after 16k days |
| Lanternfish.ExampleTotals | src/day_6.rs:92-101 | the example totals 5934 after 80 days and 26984457539 after 256 days |
| Lanternfish.AdvanceDay | src/day_6.rs:58-61 | the array after the in-place rotation is `Day` of the array before |
| Lanternfish.Simulate | src/day_6.rs:51-65 | the histogram fold, the daily rotations and the final sum give the total of `Days(Histogram(fish), days)` |
| Lanternfish.RunLanternfish | src/day_6.rs:51-66 | the result is the population after 80 days, and at least the number of fish |
| Lanternfish.RunUnlimitedLanternfish | src/day_6.rs:68-83 | the result is the population after 256 days, and at least the number of fish |
| Vents.Paint | src/day_5.rs:63-70 | the floor after marking the positions in order, each mark taking a cell 0→1, 1→2, and leaving 2 at 2 |
| Vents.Gained | src/day_5.rs:63-70 | the number of marks that found their cell at 1, the overlaps the drawers return |
| Vents.Twos | src/day_5.rs:63-70 | the number of cells at 2, that is covered at least twice |
| Vents.EmptyFloor | src/day_5.rs:49-51 | the floor of 1000 × 1000 cells, all 0 |
| Vents.PointToPos | src/day_5.rs:53-55 | for x below 1000, the position decodes back to (x, y), and it lies in the buffer when y is below 1000 as well |
| Vents.Bump | src/day_5.rs:65-68 | one mark leaves a cell at 1 or 2 |
| Vents.TwosUpdate | src/day_5.rs:64-68 | changing one cell changes the count of cells at 2 by that cell alone |
| Vents.TwosNone | src/day_5.rs:49-51 | a floor with no cell at 2 has no overlap |
| Vents.PaintTwos | src/day_5.rs:63-71 | the cells at 2 after marking are those before plus the 1→2 transitions counted |
| Vents.PaintCount | src/day_5.rs:64-70 | every cell ends at its old value plus the number of times it is marked, capped at 2, so cells not marked are untouched |
| Vents.PaintAppend | src/day_5.rs:135-149 | marking two runs of cells is marking the first then the second, and their gains add up |
| Vents.PaintSnoc | src/day_5.rs:64-70 | one more mark bumps its cell and gains one exactly when that cell was at 1 |
| Vents.MarkCell | src/day_5.rs:64-70 | the cell goes 0→1, 1→2 (counted) or stays at 2, and no other cell changes |
| Vents.MarkNext | src/day_5.rs:63-71 | marking the next cell of a line extends both the painted floor and the gain by one cell |
| Vents.HorizontalCells | src/day_5.rs:58-63 | the column at x from min(y1, y2) to max(y1, y2), both ends included, in increasing y |
| Vents.VerticalCells | src/day_5.rs:75-80 | the row at y from min(x1, x2) to max(x1, x2), both ends included, in increasing x |
| Vents.DiagonalCells | src/day_5.rs:96-116 | the first n cells from p1, each one step along both axes towards p2 |
| Vents.HorizontalCellsExact | src/day_5.rs:58-63 | the cells are exactly (x, y) for y between the two ends inclusive, in either argument order |
| Vents.VerticalCellsExact | src/day_5.rs:75-80 | the cells are exactly (x, y) for x between the two ends inclusive, in either argument order |
| Vents.HorizontalLine | src/day_5.rs:58-72 | the floor after it is the old floor with the column's cells marked, and it returns the 1→2 transitions |
| Vents.VerticalLine | src/day_5.rs:75-89 | the floor after it is the old floor with the row's cells marked, and it returns the 1→2 transitions |
| Vents.Diagonal | src/day_5.rs:91-119 | as written, it marks the `Distance(p1.x, p2.x)` cells from p1 towards p2 and returns their 1→2 transitions |
| Vents.DiagonalInclusive | src/day_5.rs:91-119 | with the end point included, it marks `Distance(p1.x, p2.x) + 1` cells and returns their 1→2 transitions |
| Vents.DiagonalMissesEnd | src/day_5.rs:104 | on a 45° line the walk as written never reaches p2, and p2 is exactly the cell the inclusive walk adds |
| Vents.ParsePoint | src/day_5.rs:125-127 | a point is exactly two comma-separated `u16` values; anything else is rejected |
| Vents.ParsePairPoints | src/day_5.rs:121-130 | a vent line is exactly two points separated by ` -> `; anything else is rejected, where the source panics |
| Vents.ParseShowPoint | src/day_5.rs:125-127 | a rendered point parses back |
| Vents.ParseRender | src/day_5.rs:121-130 | a rendered vent line parses back to its two points |
| Vents.ParseNoArrow | src/day_5.rs:123 | a line without ` -> ` is rejected |
| Vents.VentCells | src/day_5.rs:164-168 | equal x gives the column with both ends, else equal y the row with both ends, else the diagonal cells: none when diagonals are skipped, `Distance(p1.x, p2.x)` cells from p1 (p2 left out) as written, one more (p2 included) as intended |
| Vents.Drawable | src/day_5.rs:63-105 | every cell marked is on the floor, a row's larger x is below 65535 so `x2 + 1` does not overflow, and a diagonal's y stays non-negative for every step it takes |
| Vents.AllCells | src/day_5.rs:135-149 | the cells of every input line in order; empty lines mark nothing |
| Vents.AllCellsSnoc | src/day_5.rs:135-149 | one more line adds its cells after the earlier lines' cells |
| Vents.DrawVent | src/day_5.rs:164-168 | equal x draws the column, equal y draws the row; any other line draws nothing (`Skipped`), the diagonal as written without p2 (`AsWritten`), or the diagonal with p2 (`Inclusive`); the floor and the count follow exactly `VentCells` |
| Vents.RunStep | src/day_5.rs:135-149 | each next line of a drawable input is drawable and extends the cells drawn so far |
| Vents.DrawLine | src/day_5.rs:136-148 | an empty line draws nothing; any other line draws its vent |
| Vents.DrawNext | src/day_5.rs:135-149 | drawing line i extends the painted floor and the gain to the first i+1 lines |
| Vents.Run | src/day_5.rs:132-152 | the summed overlaps are the number of cells at 2 after drawing every line on an empty floor |
| Vents.RunHydrotermalVenture | src/day_5.rs:132-152 | the answer is the cells covered at least twice by the column and row lines |
| Vents.RunHydrotermalDiagonals | src/day_5.rs:154-174 | as written: the answer is the cells covered at least twice by the column and row lines and the diagonals drawn by `diagonal`, each without its end point p2 |
| Vents.RunHydrotermalDiagonalsIntended | src/day_5.rs:154-174 | as evidently intended: the same count with every diagonal drawn with both its end points |
| Vents.GainedOnClear | src/day_5.rs:64-70 | on a clear cell, a mark is an overlap exactly when the cell was marked once before |
| Vents.CounterexampleGainsPrefix | src/day_5.rs:104-116 | three distinct marks on an empty floor gain nothing |
| Vents.CounterexampleGainsAsWritten | src/day_5.rs:104-116 | the counterexample's cells as written gain nothing |
| Vents.CounterexampleGainsInclusive | src/day_5.rs:104-116 | the counterexample's cells with the end included gain one |
| Vents.CounterexampleCells | src/day_5.rs:58-63 | the diagonal (0,0)→(2,2) and the column (2,2)→(2,3), as cells |
| Vents.CounterexampleParse | src/day_5.rs:121-130 | the counterexample's two lines parse to their vents |
| Vents.CounterexampleVents | src/day_5.rs:162-167 | as written, the diagonal (0,0)→(2,2) marks only [(0,0), (1,1)] (positions 0, 1001); with the end point it marks [0, 1001, 2002]; the column (2,2)→(2,3) marks [2002, 3002] in both; all of them can be drawn |
| Vents.DiagonalCounterexample | src/day_5.rs:104-116 | as written, the cells the two counterexample vents mark leave no cell at 2 on a clear floor |
| Vents.DiagonalInclusiveCounterexample | src/day_5.rs:104-116 | with the end point included, the cells the two counterexample vents mark leave exactly one cell at 2 on a clear floor |
| Vents.TwoLines | src/day_5.rs:157-171 | a two-line input is drawable when both lines are, and its cells are the first line's then the second's |
| Vents.CounterexampleInput | src/day_5.rs:157-171 | the input `0,0 -> 2,2`, `2,2 -> 2,3` is drawable and marks the diagonal's cells then the column's |
| Vents.RunDiagonalsCounterexample | src/day_5.rs:154-174 | as written, the part-two answer for that input is 0, although (2,2) lies on both lines |
| Vents.RunDiagonalsIntendedCounterexample | src/day_5.rs:154-174 | as intended, the part-two answer for that input is 1 |
| BingoRules.Positions | src/day_4.rs:67-71 | the value table: each number mapped to the place of slot i, later slots overwriting earlier ones |
| BingoRules.Hits | src/day_4.rs:78-83 | the draws that are on the card, in drawing order |
| BingoRules.Bingo | src/day_4.rs:87-90 | some column or row has been hit five times, so its counter, starting at 5, has reached 0 |
| BingoRules.Score | src/day_4.rs:97-99 | the card's sum minus the crossed numbers, times the last draw |
| BingoRules.FirstWinner | src/day_4.rs:173-175 | card i, draw k: no card complete before draw k, card i complete after it, and no earlier card complete after it |
| BingoRules.LastWinner | src/day_4.rs:187-206 | card i, draw k: every card complete after draw k, card i not complete before it, and every later card already complete |
| BingoRules.PlaceOf | src/day_4.rs:69 | the place of slot i is column i % 5, row i / 5, inside the card |
| BingoRules.PositionsKeys | src/day_4.rs:67-71 | the table holds exactly the card's numbers, each at a place inside the card |
| BingoRules.PositionsLast | src/day_4.rs:67-71 | each number is kept at the place of its last occurrence |
| BingoRules.HitsMembers | src/day_4.rs:78-83 | the crossed numbers are exactly the drawn numbers on the card |
| BingoRules.LineHits | src/day_4.rs:87-88 | a line is hit at most once per crossed number |
| BingoRules.SumAppend | src/day_4.rs:68 | the sum of two runs of numbers is the sum of their sums |
| BingoRules.SumDistinctPart | src/day_4.rs:85 | distinct numbers that all lie on a card cannot sum to more than the card |
| BingoRules.HitsDistinct | src/day_4.rs:78-83 | numbers drawn once are crossed once |
| BingoRules.HitsWithinCard | src/day_4.rs:85 | with numbers drawn once, the crossed sum never exceeds the card's sum, so the uncrossed sum never underflows and the score is never negative |
| BingoRules.HitsSnoc | src/day_4.rs:78-85 | one more draw is crossed exactly when it is on the card |
| BingoRules.LineHitsSnoc | src/day_4.rs:87-88 | one more crossed number hits only the lines through its place |
| BingoRules.NoBingoYet | src/day_4.rs:63-64 | nothing is complete before any draw |
| BingoRules.BingoStays | src/day_4.rs:173-175 | a complete card stays complete |
| BingoRules.BingoPrefix | src/day_4.rs:173-175 | a card complete after some draws is complete after every longer run of draws |
| BingoRules.CompleteStep | src/day_4.rs:90 | on a card with no complete line, one number completes a line exactly when it completes its own column or row |
| BingoRules.UncrossedOther | src/day_4.rs:78-83 | a number on no slot changes no count |
| BingoRules.UncrossedMark | src/day_4.rs:85-88 | crossing a slot's number takes that slot off its lines' counts and off the sum |
| BingoRules.UncrossedEmpty | src/day_4.rs:67-68 | with nothing crossed, the uncrossed sum is the sum of the slots |
| BingoRules.SlotsOnLine | src/day_4.rs:63-64 | with nothing crossed, a line's uncrossed slots are all its slots |
| BingoRules.SlotsColumn | src/day_4.rs:69 | a column gets one slot out of every five |
| BingoRules.SlotsRow | src/day_4.rs:69 | a row gets the five slots from index 5r on |
| BingoRules.SlotsPerLine | src/day_4.rs:63-64 | every column and every row has five slots, matching the counters' initial 5 |
| BingoRules.HitsAreCrossedSlots | src/day_4.rs:51-54 | a line's crossed numbers plus its uncrossed slots are its five slots, and the crossed sum plus the uncrossed sum is the card's sum |
| BingoRules.MarkSlot | src/day_4.rs:85-88 | one step of the statement above for a number on the card |
| BingoRules.BingoIsFullLine | src/day_4.rs:90 | on a card of distinct numbers, a counter reaching 0 means exactly that every slot of some column or row has been drawn |
| BingoRules.ScoreIsUncrossedSum | src/day_4.rs:97-99 | the score is the sum of the slots not drawn times the last draw |
| BingoRules.FirstWinnerUnique | src/day_4.rs:173-175 | there is one first winner and one draw at which it wins |
| BingoRules.LastWinnerUnique | src/day_4.rs:187-206 | there is one last winner and one draw at which it wins |
| BingoRules.Finished | src/day_4.rs:190-198 | one completion flag per card |
| BingoRules.FinishedAt | src/day_4.rs:190-198 | card j's flag says whether it is complete |
| BingoRules.FinishedStays | src/day_4.rs:190-198 | a finished card stays finished after one more draw |
| BingoRules.Unfinished | src/day_4.rs:190-198 | the positions kept are positions of cards |
| BingoRules.UnfinishedMembers | src/day_4.rs:190-198 | the cards kept are exactly the cards not finished |
| BingoRules.UnfinishedOrdered | src/day_4.rs:190-198 | the cards kept keep their input order |
| BingoRules.UnfinishedLast | src/day_4.rs:200-204 | the last card kept is not finished, and every card after it is |
| BingoRules.AllUnfinished | src/day_4.rs:183-184 | before any draw every card is in play, in order |
| BingoRules.SurvivorsOfUnfinished | src/day_4.rs:190-198 | removing the newly finished cards from the cards in play leaves the cards still unfinished |
| BingoRules.NoneUnfinished | src/day_4.rs:200-204 | with no card kept, every card is finished |
| BingoRules.LastFlags | src/day_4.rs:200-204 | when a draw empties the game, every card is finished, the last card in play was not finished before it, and every card after it already was |
| BingoRules.AliveAfter | src/day_4.rs:190-198 | after each draw, the cards in play are the cards unfinished so far |
| BingoCards.BingoCard.constructor | src/day_4.rs:59-74 | the sum is the sum of all 25 numbers, the table is `Positions` (last occurrence wins), and every counter starts at 5 |
| BingoCards.BingoCard.CrossValue | src/day_4.rs:77-95 | a number not on the card changes nothing and scores nothing; otherwise the sum drops by the number, exactly its column's and row's counters drop by one, and it scores exactly when one of them reaches 0, which on a card not yet complete is exactly when it becomes complete |
| BingoCards.BingoCard.CrossPlaced | src/day_4.rs:84-94 | the branch of `cross_value` for a number on the card, with the same promises |
| BingoCards.BingoCard.CalculateBingo | src/day_4.rs:97-99 | the score plus the crossed sum times the value is the card's sum times the value |
| BingoCards.Counted | src/day_4.rs:54-55 | the counters match their lines one by one exactly when they match all lines |
| BingoCards.CrossMiss | src/day_4.rs:79-81 | a number not on the card keeps the card consistent |
| BingoCards.CrossHit | src/day_4.rs:85-90 | crossing a number on the card keeps the card consistent, and a counter reaching 0 is exactly the card becoming complete |
| BingoCards.CountersStep | src/day_4.rs:87-90 | only the number's column and row counters drop, and one of them reaching 0 is exactly a line completing |
| BingoGame.Boards | src/day_4.rs:102-105 | the numbers of each card, in card order |
| BingoGame.CrossCard | src/day_4.rs:174 | a card in play crosses the draw, and it scores exactly when it becomes complete, with the card's score |
| BingoGame.TurnSafe | src/day_4.rs:85-88 | a card in play crossing a new draw can never underflow its sum or counters |
| BingoGame.FindWinner | src/day_4.rs:174 | the cards cross the draw in order until one scores; the scorer is complete and no card before it is |
| BingoGame.DrawsLeft | src/day_4.rs:173-175 | a card that completes by the last draw but not yet leaves a draw to come |
| BingoGame.RunGiantSquid | src/day_4.rs:169-178 | the answer is the score of the first winner: the first card, in input order, complete at the earliest draw at which any card is |
| BingoGame.FirstScore | src/day_4.rs:173-175 | the draw loop of the first game ends at the first winner with its score |
| BingoGame.Kept | src/day_4.rs:190-198 | the kept positions are positions of the outcomes |
| BingoGame.KeptFacts | src/day_4.rs:190-198 | the kept positions are exactly those that did not score, in increasing order |
| BingoGame.Scored | src/day_4.rs:193-195 | there are no more scores than outcomes |
| BingoGame.NoneKept | src/day_4.rs:200-204 | with nothing kept every card scored, and the last score is the last card's |
| BingoGame.Outcomes | src/day_4.rs:191-197 | one outcome per card: its score when complete, nothing otherwise |
| BingoGame.Pick | src/day_4.rs:190-198 | the cards at the kept positions, in order |
| BingoGame.TakeTurn | src/day_4.rs:191-197 | card t crosses the draw and the other cards are left as they were; its outcome is its score exactly when it is complete, and nothing otherwise |
| BingoGame.CrossAll | src/day_4.rs:190-198 | every card in play crosses the draw in order, and the outcomes are the cards' outcomes |
| BingoGame.RetainUnfinished | src/day_4.rs:188-198 | the cards kept are those that did not score, in order, and the scores are those of the cards that did, in card order |
| BingoGame.SurvivorsKept | src/day_4.rs:190-198 | the unfinished cards among those in play are the ones at the kept positions |
| BingoGame.AliveRetained | src/day_4.rs:190-198 | after a draw, the cards kept are the unfinished cards of the game, none of them complete |
| BingoGame.NextRound | src/day_4.rs:190-198 | the cards kept are the game's unfinished cards, separate, and each the same object as before |
| BingoGame.MoreDraws | src/day_4.rs:206 | while cards remain, a draw remains |
| BingoGame.LastRound | src/day_4.rs:200-204 | when a draw empties the game, the last card in play is the last winner and the last score is its score |
| BingoGame.SeparateKept | src/day_4.rs:190 | the cards kept are still different objects |
| BingoGame.RunLosingBoard | src/day_4.rs:180-209 | the answer is the score of the last winner: the last card left at the draw that empties the game |
| BingoInput.ParseDraws | src/day_4.rs:141-143 | the draws line split on single commas, every piece a `u8`, the first bad piece the error |
| BingoInput.ParseRow | src/day_4.rs:154-156 | a row split on single spaces with empty pieces dropped, every piece a `u8`, the first bad piece the error |
| BingoInput.Step | src/day_4.rs:147-161 | an empty line flushes the card; a row that does not parse is the error; a row of other than five numbers or a sixth row is the panic of the slice copy; otherwise the row is written |
| BingoInput.ScanLines | src/day_4.rs:146-162 | the card lines folded through `Step` in order, nothing changing after an error or a panic |
| BingoInput.Read | src/day_4.rs:135-167 | no line is the no-input error; the draws line's error comes first; line 2 is skipped unconditionally; then the first card-line error, or the draws and the cards with the last card flushed |
| BingoInput.ParseU8 | src/day_4.rs:142 | a `u8` token is what the unsigned parser accepts up to 255 |
| BingoInput.ParseNumbers | src/day_4.rs:141-143 | the result is Ok exactly when every token is a `u8`, with one number per token |
| BingoInput.NonEmpty | src/day_4.rs:154 | empty tokens are dropped |
| BingoInput.Flush | src/day_4.rs:122-127 | a card with a row written joins the cards; an empty card creates none; filling restarts at row 0 |
| BingoInput.PutRow | src/day_4.rs:129-132 | the row fills slots 5k..5k+5 exactly, no other slot changes, and k grows by one |
| BingoInput.Start | src/day_4.rs:114-120 | no cards, every slot 0, no row written |
| BingoInput.ScanAppend | src/day_4.rs:146-162 | reading two runs of lines is reading the first, then the second from where it stopped |
| BingoInput.ScanStopped | src/day_4.rs:147 | after an error the remaining lines change nothing |
| BingoInput.ScanSnoc | src/day_4.rs:146-162 | one more line is one more step |
| BingoInput.ShortCardKeepsBuffer | src/day_4.rs:122-132 | a card with fewer than five rows keeps the previous card's numbers in its other slots |
| BingoInput.BingoCardAcc.constructor | src/day_4.rs:114-120 | no cards, every slot 0, no row written |
| BingoInput.BingoCardAcc.FlushValues | src/day_4.rs:122-127 | the accumulator after it is `Flush` of the one before, and its new card is valid and separate |
| BingoInput.BingoCardAcc.AddRow | src/day_4.rs:129-132 | the accumulator after it is `PutRow` of the one before |
| BingoInput.ReadPuzzleInput | src/day_4.rs:135-167 | the result is an error exactly when `Read` is, with the same error; otherwise the draws and the cards' numbers are `Read`'s, and the cards are new |
| BingoInput.ReadCards | src/day_4.rs:146-164 | the first row error, or the cards of all the card lines with the last card flushed |
| BingoInput.FeedLine | src/day_4.rs:147-161 | an empty line flushes, a bad row is the reading's error, any other row fills the next row |
| BingoInput.RowPanics | src/day_4.rs:130 | a row of other than five numbers, or a sixth row, makes the reading panic |
| BingoInput.ShowNumbers | src/day_4.rs:141-142 | one decimal rendering per number |
| BingoInput.ParseNumbersShow | src/day_4.rs:142-143 | rendered numbers parse back |
| BingoInput.NonEmptyShow | src/day_4.rs:154 | rendered numbers are never dropped as empty |
| BingoInput.SplitShow | src/day_4.rs:141 | a joined rendering splits back into its numbers |
| BingoInput.ParseRowLine | src/day_4.rs:154-156 | a rendered row reads back as its numbers |
| BingoInput.ParseDrawsLine | src/day_4.rs:141-143 | a rendered draws line reads back as the draws |
| BingoInput.CardTextRows | src/day_4.rs:154-158 | a rendered card reads as its five rows |
| BingoInput.PutCardRow | src/day_4.rs:129-132 | writing row k of a card over a buffer holding its earlier rows |
| BingoInput.ScanRows | src/day_4.rs:151-158 | a card's first k row lines fill its first k rows |
| BingoInput.ScanCard | src/day_4.rs:151-158 | a card's lines and the empty line after it add the card |
| BingoInput.ScanFirstCard | src/day_4.rs:146-162 | the first card's text adds the first card |
| BingoInput.ScanCards | src/day_4.rs:146-162 | the cards' text adds the cards in order |
| BingoInput.ReadRender | src/day_4.rs:135-167 | reading a rendered puzzle gives it back without a panic |

## Left out

- I/O and the command line: reading files and the `cli` submodules are not modelled. The input is a sequence of lines already read, so read errors do not exist in the model.
- Day 1, the command-line registration, logging and file reading are not part of this model.
- Integer widths are not modelled; every integer is unbounded. This covers the `u32` uncrossed sum and score, the `u8` card counters, the `usize` bit counts, the `u64` fish counts and the `isize` depth and product, none of which wraps in the model. The parsers do keep the `u8`, `u16` and `isize` ranges of the tokens they accept.
- Lanternfish.RunLanternfish: does not model `u64` overflow of the fish counts; the total is exact.
- Dive.RunDive: does not model `isize` overflow of the sums or of the product.
- BinaryDiagnostic.RunBinaryDiagnostic: the line width is a count of characters, not of UTF-8 bytes, and the `1 << n` weights do not overflow.
- A card's `[u8; 5]` counters are held as sequences of length five in the card's fields.
- BingoGame.RunGiantSquid: requires the draws to be distinct, and the cards to be distinct objects, fresh from the reader, with a winner among them. In the source a repeated draw decrements the same column and row counters again, so a card can report bingo before its line is fully drawn, and it can underflow the `u32` uncrossed sum: on a card whose only non-zero number is 99, drawing 99 twice computes 0 − 99.
- BingoGame.RunLosingBoard: requires the same, with every card winning by the last draw and at least one card. `retain_mut` is modelled as crossing every card in play, then keeping the cards that did not score; the source does both in one pass, and the results are the same.
- BingoCards.BingoCard.CrossValue: requires that the sum and the touched counters do not underflow. The game drivers show this holds (`BingoGame.TurnSafe`).
- The ghost fields of a card (its 25 numbers, the draws seen and the numbers crossed) exist only to state the card's invariant.
- In `diagonal`, the swap of `start` and `end` at src/day_5.rs:92-94 computes values that are never used, so it is not modelled.
- Panics are preconditions: `Panics` for the bingo reader, `AllDrawable` for the vent lines, timers below 9 for the lanternfish, and a winner for each game. The "marked twice" panic arm of the line drawers is unreachable, because cells never exceed 2 (`Vents.MarkCell`).
- Vents.VerticalLine: requires the larger x to be below 65535, because `x2 + 1` overflows `u16` there while the cell can still be on the floor.
- The floor is an array of 1,000,000 naturals. The answers to the vent example (5 and 12) are not proved, because the solver cannot evaluate a drawing on a literal floor of that size; the counterexample lemmas are instead stated over any all-zero floor.
- The bingo example answers (4512 and 1924) are not proved: the solver cannot evaluate the game on the literal cards at a reasonable cost. The reader's round trip (`BingoInput.ReadRender`) and the drivers' contracts cover the general case.

## Findings

| source | as written | input that shows it | evidently intended | confidence | as-written member | corrected member |
|---|---|---|---|---|---|---|
| src/day_5.rs:104-116 | the diagonal walk stops when x reaches p2.x, so it never marks p2 | the lines `0,0 -> 2,2` then `2,2 -> 2,3`: (2,2) is covered twice, yet `run_hydrotermal_diagonals` answers 0 | the end point is marked, as in the column and row drawers, and the count is 1 | not executed | Vents.Diagonal, Vents.DiagonalCounterexample, Vents.RunHydrotermalDiagonals, Vents.RunDiagonalsCounterexample | Vents.DiagonalInclusive, Vents.DiagonalInclusiveCounterexample, Vents.RunHydrotermalDiagonalsIntended, Vents.RunDiagonalsIntendedCounterexample |
