/**
 The habit pie chart on the profile page: one slice per breakdown key, the
 empty state when every count is zero, and the tooltip text.
 */
module HabitChart {
  import opened BrujulaClient
  import Text

  datatype Slice = Slice(name: string, value: nat, color: string)

  /** `HABIT_LABELS`, keyed like the breakdown. */
  const HabitLabels: map<string, string> := map[
    "fitness" := "Fitness",
    "mente" := "Mente",
    "nutricion" := "Nutrici\U{00F3}n",
    "saludDigital" := "Salud Digital"]

  /** `COLORS`. */
  const Colors: map<string, string> := map[
    "fitness" := "#01D9AA",
    "mente" := "#09ABE0",
    "nutricion" := "#FF6B6B",
    "saludDigital" := "#A855F7"]

  /** The count a breakdown holds under one of its keys. */
  function ValueOf(b: Breakdown, key: string): nat
    requires key in KnownHabits
  {
    if key == "fitness" then b.fitness
    else if key == "mente" then b.mente
    else if key == "nutricion" then b.nutricion
    else b.saludDigital
  }

  /** `Object.entries(data).map(...)`: the breakdown's keys in insertion order. */
  function ChartData(b: Breakdown): (r: seq<Slice>)
    ensures |r| == |KnownHabits|
    ensures forall i :: 0 <= i < |r| ==>
      && r[i].value == ValueOf(b, KnownHabits[i])
      && r[i].name == HabitLabels[KnownHabits[i]]
      && r[i].color == Colors[KnownHabits[i]]
  {
    seq(|KnownHabits|, i requires 0 <= i < |KnownHabits| =>
      Slice(HabitLabels[KnownHabits[i]], ValueOf(b, KnownHabits[i]), Colors[KnownHabits[i]]))
  }

  function SumValues(slices: seq<Slice>): nat
    decreases |slices|
  {
    if |slices| == 0 then 0 else slices[0].value + SumValues(slices[1..])
  }

  /** `Object.values(data).reduce((sum, v) => sum + v, 0)`. */
  function ChartTotal(b: Breakdown): (t: nat)
    ensures t == Total(b)
  {
    var d := ChartData(b);
    assert SumValues(d[3..]) == d[3].value + SumValues(d[4..]);
    assert SumValues(d[2..]) == d[2].value + SumValues(d[3..]);
    assert SumValues(d[1..]) == d[1].value + SumValues(d[2..]);
    SumValues(d)
  }

  /** The empty-state message replaces the chart exactly when the total is zero. */
  predicate ShowsEmptyState(b: Breakdown) {
    ChartTotal(b) == 0
  }

  /** The chart is empty exactly for the all-zero breakdown. */
  lemma EmptyStateIffZero(b: Breakdown)
    ensures ShowsEmptyState(b) <==> b == ZeroBreakdown
  {
  }

  /** With the streak-derived breakdown, the empty state shows exactly when there is no
      streak to report: a zero streak or a failed streak read. */
  lemma EmptyStateIffNoStreak(streakRead: Wrappers.Result<nat>)
    ensures ShowsEmptyState(GetUserCheckIns(streakRead)) <==> streakRead.GetOr(0) == 0
  {
    var b := GetUserCheckIns(streakRead);
    EmptyStateIffZero(b);
    if streakRead.Ok? && streakRead.value > 0 {
      assert b.mente == streakRead.value;
      assert ChartTotal(b) >= b.mente > 0;
    } else {
      assert b == ZeroBreakdown;
    }
  }

  /** `día` for exactly one, `días` otherwise. */
  function TooltipUnit(value: nat): (unit: string)
    ensures value == 1 <==> unit == "d\U{00ED}a"
    ensures value != 1 <==> unit == "d\U{00ED}as"
  {
    if value != 1 then "d\U{00ED}as" else "d\U{00ED}a"
  }

  /** What follows the count in a tooltip: the unit and the word "cumpliendo". */
  function TooltipEnding(value: nat): string {
    " " + TooltipUnit(value) + " cumpliendo"
  }

  /** The tooltip line for one slice: `name: count día(s) cumpliendo`. */
  function TooltipText(s: Slice): (r: string)
    ensures |r| == |s.name| + 2 + |Text.NatToString(s.value)| + |TooltipEnding(s.value)|
    ensures r[..|s.name| + 2] == s.name + ": "
    ensures r[|s.name| + 2..|s.name| + 2 + |Text.NatToString(s.value)|] == Text.NatToString(s.value)
    ensures r[|r| - |TooltipEnding(s.value)|..] == TooltipEnding(s.value)
  {
    var head, count, ending := s.name + ": ", Text.NatToString(s.value), TooltipEnding(s.value);
    var r := head + count + ending;
    assert r[..|head|] == head;
    assert r[|head|..|head| + |count|] == count;
    assert r[|r| - |ending|..] == ending;
    r
  }

  /** A reader of the tooltip gets the slice's count back from the digits after the name,
      and the unit is singular exactly when that count is one. */
  lemma TooltipReadBack(s: Slice)
    ensures var r, k, e := TooltipText(s), |s.name| + 2, |TooltipEnding(s.value)|;
      && k < |r| - e
      && (forall i :: k <= i < |r| - e ==> Text.IsDigit(r[i]))
      && Text.ParseDecimal(r[k..|r| - e]) == s.value
    ensures (TooltipEnding(s.value) == " d\U{00ED}a cumpliendo") <==> s.value == 1
  {
    var r, k, n := TooltipText(s), |s.name| + 2, |Text.NatToString(s.value)|;
    assert k + n == |r| - |TooltipEnding(s.value)|;
    Text.DecimalRoundTrip(s.value);
    assert r[k..k + n] == Text.NatToString(s.value);
    assert forall i :: k <= i < k + n ==> r[i] == r[k..k + n][i - k];
  }
}
