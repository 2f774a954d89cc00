/**
 * The "Lanternfish" population simulator. Fish are grouped by timer value in a
 * nine-slot day schedule; each day the schedule rotates one slot down, and
 * the fish whose timer ran out (slot 0) both restart at timer 6 and spawn as
 * many new fish at timer 8.
 */
module Lanternfish {

  const LIFECYCLE: nat := 9
  const RESET_TIMER: nat := 6

  /** Sum of all entries. */
  function Total(s: seq<nat>): nat
  {
    if s == [] then 0 else Total(s[..|s| - 1]) + s[|s| - 1]
  }

  /** The schedule in which slot t counts the fish of `fish` whose timer is t. */
  function Histogram(fish: seq<nat>): (h: seq<nat>)
    requires forall i :: 0 <= i < |fish| ==> fish[i] < LIFECYCLE
    ensures |h| == LIFECYCLE
  {
    if fish == [] then seq(LIFECYCLE, _ => 0)
    else
      var h := Histogram(fish[..|fish| - 1]);
      var t := fish[|fish| - 1];
      h[t := h[t] + 1]
  }

  /** One day: every timer decreases, and slot 0 restarts at 6 and spawns at 8. */
  function Day(h: seq<nat>): (h': seq<nat>)
    requires |h| == LIFECYCLE
    ensures |h'| == LIFECYCLE
  {
    [h[1], h[2], h[3], h[4], h[5], h[6], h[7] + h[0], h[8], h[0]]
  }

  /** The schedule after `n` days. */
  function Days(h: seq<nat>, n: nat): (h': seq<nat>)
    requires |h| == LIFECYCLE
    ensures |h'| == LIFECYCLE
  {
    if n == 0 then h else Day(Days(h, n - 1))
  }

  lemma {:induction false} TotalSnoc(s: seq<nat>, x: nat)
    ensures Total(s + [x]) == Total(s) + x
  {
    assert (s + [x])[..|s|] == s;
  }

  lemma {:induction false} TotalUpdate(s: seq<nat>, i: nat, x: nat)
    requires i < |s|
    ensures Total(s[i := x]) + s[i] == Total(s) + x
    decreases |s|
  {
    if i < |s| - 1 {
      TotalUpdate(s[..|s| - 1], i, x);
      assert s[i := x][..|s| - 1] == s[..|s| - 1][i := x];
    } else {
      assert s[i := x][..|s| - 1] == s[..|s| - 1];
    }
  }

  /** Slot t of the histogram counts the fish whose timer is t. */
  lemma {:induction false} HistogramCounts(fish: seq<nat>)
    requires forall i :: 0 <= i < |fish| ==> fish[i] < LIFECYCLE
    ensures forall t :: 0 <= t < LIFECYCLE ==> Histogram(fish)[t] == multiset(fish)[t]
  {
    if fish != [] {
      var init := fish[..|fish| - 1];
      HistogramCounts(init);
      assert fish == init + [fish[|fish| - 1]];
    }
  }

  /** The histogram holds every fish once: its slots add up to the number of fish. */
  lemma {:induction false} HistogramTotal(fish: seq<nat>)
    requires forall i :: 0 <= i < |fish| ==> fish[i] < LIFECYCLE
    ensures Total(Histogram(fish)) == |fish|
  {
    if fish == [] {
      Total9(Histogram(fish));
    } else {
      var init := fish[..|fish| - 1];
      HistogramTotal(init);
      var h, t := Histogram(init), fish[|fish| - 1];
      TotalUpdate(h, t, h[t] + 1);
    }
  }

  lemma {:induction false} TotalPrefix(s: seq<nat>, k: nat)
    requires k < |s|
    ensures Total(s[..k + 1]) == Total(s[..k]) + s[k]
  {
    assert s[..k + 1] == s[..k] + [s[k]];
    TotalSnoc(s[..k], s[k]);
  }

  lemma {:induction false} Total9(h: seq<nat>)
    requires |h| == LIFECYCLE
    ensures Total(h) == h[0] + h[1] + h[2] + h[3] + h[4] + h[5] + h[6] + h[7] + h[8]
  {
    TotalPrefix(h, 0); TotalPrefix(h, 1); TotalPrefix(h, 2);
    TotalPrefix(h, 3); TotalPrefix(h, 4); TotalPrefix(h, 5);
    TotalPrefix(h, 6); TotalPrefix(h, 7); TotalPrefix(h, 8);
    assert h[..0] == [] && h[..9] == h;
  }

  /** A day adds exactly as many fish as slot 0 held. */
  lemma {:induction false} DayTotal(h: seq<nat>)
    requires |h| == LIFECYCLE
    ensures Total(Day(h)) == Total(h) + h[0]
  {
    Total9(h);
    Total9(Day(h));
  }

  /** The population never shrinks. */
  lemma {:induction false} DaysNeverShrink(h: seq<nat>, n: nat)
    requires |h| == LIFECYCLE
    ensures Total(Days(h, n)) >= Total(h)
  {
    if n > 0 {
      DaysNeverShrink(h, n - 1);
      DayTotal(Days(h, n - 1));
    }
  }

  /** An empty sea stays empty. */
  lemma {:induction false} DaysEmpty(n: nat)
    ensures Days(seq(LIFECYCLE, _ => 0), n) == seq(LIFECYCLE, _ => 0)
  {
    if n > 0 {
      DaysEmpty(n - 1);
      var zero := seq(LIFECYCLE, _ => 0);
      assert Day(zero) == zero;
    }
  }

  /** Simulating `a` days and then `b` more is simulating `a + b` days. */
  lemma {:induction false} DaysAdd(h: seq<nat>, a: nat, b: nat)
    requires |h| == LIFECYCLE
    ensures Days(Days(h, a), b) == Days(h, a + b)
  {
    if b > 0 {
      DaysAdd(h, a, b - 1);
    }
  }

  /** One day, slot by slot. */
  lemma {:induction false} DayAt(h: seq<nat>)
    requires |h| == LIFECYCLE
    ensures var h' := Day(h);
      h'[0] == h[1] && h'[1] == h[2] && h'[2] == h[3] && h'[3] == h[4] && h'[4] == h[5] &&
      h'[5] == h[6] && h'[6] == h[7] + h[0] && h'[7] == h[8] && h'[8] == h[0]
  {
  }

  /** Four days at once: every fish moves four slots down, spawning on the way. */
  lemma {:induction false} DaysFour(h: seq<nat>)
    requires |h| == LIFECYCLE
    ensures var g := Days(h, 4);
      g[0] == h[4] && g[1] == h[5] && g[2] == h[6] && g[3] == h[0] + h[7] && g[4] == h[1] + h[8] &&
      g[5] == h[0] + h[2] && g[6] == h[1] + h[3] && g[7] == h[2] && g[8] == h[3]
  {
    var h1 := Day(h);
    var h2 := Day(h1);
    var h3 := Day(h2);
    var h4 := Day(h3);
    DayAt(h); DayAt(h1); DayAt(h2); DayAt(h3);
    assert Days(h, 1) == h1;
    assert Days(h, 2) == h2;
    assert Days(h, 3) == h3;
    assert Days(h, 4) == h4;
  }

  /** Sixteen days at once, as a sum over the starting schedule. */
  lemma {:induction false} DaysSixteen(h: seq<nat>)
    requires |h| == LIFECYCLE
    ensures var g := Days(h, 16);
      g[0] == 2 * h[0] + h[2] + h[7] && g[1] == 2 * h[1] + h[3] + h[8] && g[2] == h[0] + 2 * h[2] + h[4] &&
      g[3] == h[1] + 2 * h[3] + h[5] && g[4] == h[2] + 2 * h[4] + h[6] && g[5] == h[0] + h[3] + 2 * h[5] + h[7] &&
      g[6] == h[1] + h[4] + 2 * h[6] + h[8] && g[7] == h[0] + h[5] + h[7] && g[8] == h[1] + h[6] + h[8]
  {
    var h4 := Days(h, 4);
    DaysFour(h);
    DaysFour(h4);
    DaysAdd(h, 4, 4);
    var h8 := Days(h, 8);
    DaysFour(h8);
    DaysAdd(h, 8, 4);
    var h12 := Days(h, 12);
    DaysFour(h12);
    DaysAdd(h, 12, 4);
  }

  /** The schedule of the example fish 3,4,3,1,2. */
  lemma {:induction false} ExampleHistogram()
    ensures Histogram([3, 4, 3, 1, 2]) == [0, 1, 1, 2, 1, 0, 0, 0, 0]
  {
    var f1, f2, f3, f4, f5 := [3], [3, 4], [3, 4, 3], [3, 4, 3, 1], [3, 4, 3, 1, 2];
    assert f1[..0] == [];
    assert f2[..1] == f1;
    assert f3[..2] == f2;
    assert f4[..3] == f3;
    assert f5[..4] == f4;
    assert Histogram([]) == [0, 0, 0, 0, 0, 0, 0, 0, 0];
    assert Histogram(f1) == [0, 0, 0, 1, 0, 0, 0, 0, 0];
    assert Histogram(f2) == [0, 0, 0, 1, 1, 0, 0, 0, 0];
    assert Histogram(f3) == [0, 0, 0, 2, 1, 0, 0, 0, 0];
    assert Histogram(f4) == [0, 1, 0, 2, 1, 0, 0, 0, 0];
  }

  /** The example schedule after 16 * k days, for k up to 16. */
  function ExampleCheckpoint(k: nat): (h: seq<nat>)
    requires k <= 16
    ensures |h| == LIFECYCLE
  {
    match k
    case 0 => [0, 1, 1, 2, 1, 0, 0, 0, 0]
    case 1 => [1, 4, 3, 5, 3, 2, 2, 0, 1]
    case 2 => [5, 14, 10, 16, 11, 10, 12, 3, 7]
    case 3 => [23, 51, 36, 56, 44, 44, 56, 18, 33]
    case 4 => [100, 191, 139, 207, 180, 185, 240, 85, 140]
    case 5 => [424, 729, 558, 790, 739, 762, 991, 370, 571]
    case 6 => [1776, 2819, 2279, 3071, 3027, 3108, 4021, 1556, 2291]
    case 7 => [7387, 11000, 9361, 12069, 12354, 12619, 16179, 6440, 9131]
    case 8 => [30575, 43200, 38463, 47757, 50248, 51134, 64843, 26446, 36310]
    case 9 => [126059, 170467, 157749, 189848, 203802, 207046, 259444, 108155, 144353]
    case 10 => [518022, 675135, 645359, 757209, 824797, 838154, 1037510, 441260, 574264]
    case 11 => [2122663, 2681743, 2633537, 3027707, 3332463, 3392799, 4149216, 1797436, 2286909]
    case 12 => [8676299, 10678102, 10722200, 12129956, 13447679, 13733404, 16599547, 7312898, 9117868]
    case 13 => [35387696, 42604028, 43568378, 48671418, 54217105, 55585961, 66442743, 29722601, 36395517]
    case 14 => [144066371, 170274991, 176741557, 195532825, 218445331, 224953637, 266102136, 120696258, 145442288]
    case 15 => [585570557, 681525095, 715994816, 786294278, 879734355, 910202728, 1066366882, 489716266, 581819415]
    case _ => [2376852196, 2731163883, 2897294544, 3164316379, 3541830408, 3681986557, 4275812629, 1985489551, 2329711392]
  }

  /** Each checkpoint is sixteen days after the previous one. */
  lemma {:induction false} ExampleCheckpointStep(k: nat)
    requires k < 16
    ensures Days(ExampleCheckpoint(k), 16) == ExampleCheckpoint(k + 1)
  {
    DaysSixteen(ExampleCheckpoint(k));
  }

  /** Checkpoint k is the example schedule after 16 * k days. */
  lemma {:induction false} ExampleDays(k: nat)
    requires k <= 16
    ensures Days(ExampleCheckpoint(0), 16 * k) == ExampleCheckpoint(k)
  {
    if k > 0 {
      ExampleDays(k - 1);
      ExampleCheckpointStep(k - 1);
      DaysAdd(ExampleCheckpoint(0), 16 * (k - 1), 16);
    }
  }

  /** 5934 fish after 80 days and 26984457539 after 256 days. */
  lemma {:induction false} ExampleTotals()
    ensures Total(Days(Histogram([3, 4, 3, 1, 2]), 80)) == 5934
    ensures Total(Days(Histogram([3, 4, 3, 1, 2]), 256)) == 26984457539
  {
    ExampleHistogram();
    ExampleDays(5);
    ExampleDays(16);
    Total9(ExampleCheckpoint(5));
    Total9(ExampleCheckpoint(16));
  }

  /** One day, in place: the slots move down by one, slot 0 goes to 8 and is added to 6. */
  method AdvanceDay(schedule: array<nat>)
    requires schedule.Length == LIFECYCLE
    modifies schedule
    ensures schedule[..] == Day(old(schedule[..]))
  {
    var birthing := schedule[0];
    forall j | 0 <= j < LIFECYCLE - 1 {
      schedule[j] := schedule[j + 1];
    }
    schedule[LIFECYCLE - 1] := birthing;
    schedule[RESET_TIMER] := schedule[RESET_TIMER] + birthing;
  }

  /**
   * Builds the day schedule of `fish`, runs it for `days` days in place and
   * counts the fish.
   */
  method Simulate(fish: seq<nat>, days: nat) returns (total: nat)
    requires forall i :: 0 <= i < |fish| ==> fish[i] < LIFECYCLE
    ensures total == Total(Days(Histogram(fish), days))
  {
    var schedule := new nat[LIFECYCLE](_ => 0);
    for k := 0 to |fish|
      invariant schedule[..] == Histogram(fish[..k])
    {
      assert fish[..k + 1][..k] == fish[..k];
      schedule[fish[k]] := schedule[fish[k]] + 1;
    }
    assert fish[..|fish|] == fish;
    for d := 0 to days
      invariant schedule[..] == Days(Histogram(fish), d)
    {
      AdvanceDay(schedule);
    }
    total := 0;
    for j := 0 to LIFECYCLE
      invariant schedule[..] == Days(Histogram(fish), days)
      invariant total == Total(schedule[..j])
    {
      assert schedule[..j + 1] == schedule[..j] + [schedule[j]];
      TotalSnoc(schedule[..j], schedule[j]);
      total := total + schedule[j];
    }
    assert schedule[..LIFECYCLE] == schedule[..];
  }

  /** The fish after 80 days. */
  method RunLanternfish(fish: seq<nat>) returns (total: nat)
    requires forall i :: 0 <= i < |fish| ==> fish[i] < LIFECYCLE
    ensures total == Total(Days(Histogram(fish), 80))
    ensures total >= |fish|
  {
    total := Simulate(fish, 80);
    HistogramTotal(fish);
    DaysNeverShrink(Histogram(fish), 80);
  }

  /** The fish after 256 days. */
  method RunUnlimitedLanternfish(fish: seq<nat>) returns (total: nat)
    requires forall i :: 0 <= i < |fish| ==> fish[i] < LIFECYCLE
    ensures total == Total(Days(Histogram(fish), 256))
    ensures total >= |fish|
  {
    total := Simulate(fish, 256);
    HistogramTotal(fish);
    DaysNeverShrink(Histogram(fish), 256);
  }
}
