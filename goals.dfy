/** Calorie goals: an upsert keyed by day (the `setCalorieGoal` action). */
module Goals {
  import opened Entities
  import opened Seqs

  /** The filter test that keeps goals for days other than `d`. */
  function GoalDateIsNot(d: DayKey): CalorieGoal -> bool {
    (g: CalorieGoal) => g.date != d
  }

  /** The filter test that keeps goals for day `d`. */
  function GoalDateIs(d: DayKey): CalorieGoal -> bool {
    (g: CalorieGoal) => g.date == d
  }

  function DifferentDays(a: CalorieGoal, b: CalorieGoal): bool {
    a.date != b.date
  }

  /** No day carries two goals. */
  ghost predicate OneGoalPerDay(goals: seq<CalorieGoal>) {
    Pairwise(goals, DifferentDays)
  }

  /** Drops every goal for `today` and appends the new one. */
  function UpsertGoal(goals: seq<CalorieGoal>, today: DayKey, amount: int): (r: seq<CalorieGoal>)
    ensures |r| > 0 && r[|r| - 1] == CalorieGoal(today, amount)
    ensures forall i :: 0 <= i < |r| - 1 ==> r[i].date != today
    ensures forall i :: 0 <= i < |goals| && goals[i].date != today ==> goals[i] in r
    ensures forall i :: 0 <= i < |r| ==> r[i] in goals || r[i] == CalorieGoal(today, amount)
  {
    FilterMembers(goals, GoalDateIsNot(today));
    Filter(goals, GoalDateIsNot(today)) + [CalorieGoal(today, amount)]
  }

  /** The amount set: the input, or when it is omitted the amount of the most recent goal. */
  function ChosenAmount(goals: seq<CalorieGoal>, input: Option<int>): (amount: int)
    requires input.Some? || |goals| > 0
    ensures input.Some? ==> amount == input.value
    ensures input.None? ==> amount == goals[|goals| - 1].goal
  {
    if input.Some? then input.value else goals[|goals| - 1].goal
  }

  /** The goals after one `setCalorieGoal(input)` on day `today`. */
  function NextGoals(goals: seq<CalorieGoal>, today: DayKey, input: Option<int>): (r: seq<CalorieGoal>)
    requires input.Some? || |goals| > 0
    ensures |r| > 0 && r[|r| - 1].date == today
    ensures input.Some? ==> r[|r| - 1].goal == input.value
    ensures input.None? ==> r[|r| - 1].goal == goals[|goals| - 1].goal
    ensures forall i :: 0 <= i < |r| - 1 ==> r[i].date != today
    ensures forall i :: 0 <= i < |goals| && goals[i].date != today ==> goals[i] in r
  {
    UpsertGoal(goals, today, ChosenAmount(goals, input))
  }

  /** The goals for days other than `today` keep their relative order and multiplicity. */
  lemma UpsertGoalKeepsOtherDays(goals: seq<CalorieGoal>, today: DayKey, amount: int)
    ensures Filter(UpsertGoal(goals, today, amount), GoalDateIsNot(today)) == Filter(goals, GoalDateIsNot(today))
    ensures RemovesExactly(UpsertGoal(goals, today, amount)[..|UpsertGoal(goals, today, amount)| - 1], goals, GoalDateIsNot(today))
  {
    var kept := Filter(goals, GoalDateIsNot(today));
    var r := UpsertGoal(goals, today, amount);
    FilterConcat(kept, [CalorieGoal(today, amount)], GoalDateIsNot(today));
    FilterAll(kept, GoalDateIsNot(today));
    assert Filter([CalorieGoal(today, amount)], GoalDateIsNot(today)) == [];
    assert r[..|r| - 1] == kept;
    FilterRemovesExactly(goals, GoalDateIsNot(today));
  }

  /** For any other day the goals of that day are exactly what they were. */
  lemma UpsertGoalKeepsDay(goals: seq<CalorieGoal>, today: DayKey, amount: int, d: DayKey)
    requires d != today
    ensures Filter(UpsertGoal(goals, today, amount), GoalDateIs(d)) == Filter(goals, GoalDateIs(d))
  {
    var kept := Filter(goals, GoalDateIsNot(today));
    FilterConcat(kept, [CalorieGoal(today, amount)], GoalDateIs(d));
    assert Filter([CalorieGoal(today, amount)], GoalDateIs(d)) == [];
    FilterFilter(goals, GoalDateIsNot(today), GoalDateIs(d));
  }

  /** Setting the same amount twice on one day is the same as setting it once. */
  lemma UpsertGoalIdempotent(goals: seq<CalorieGoal>, today: DayKey, amount: int)
    ensures UpsertGoal(UpsertGoal(goals, today, amount), today, amount) == UpsertGoal(goals, today, amount)
  {
    UpsertGoalKeepsOtherDays(goals, today, amount);
  }

  /** A second call with the same input, or with the input omitted, changes nothing. */
  lemma NextGoalsRepeat(goals: seq<CalorieGoal>, today: DayKey, input: Option<int>, again: Option<int>)
    requires input.Some? || |goals| > 0
    requires again == input || again == None
    ensures NextGoals(NextGoals(goals, today, input), today, again) == NextGoals(goals, today, input)
  {
    UpsertGoalIdempotent(goals, today, ChosenAmount(goals, input));
  }

  /** The upsert keeps "one goal per day". */
  lemma UpsertGoalKeepsOnePerDay(goals: seq<CalorieGoal>, today: DayKey, amount: int)
    requires OneGoalPerDay(goals)
    ensures OneGoalPerDay(UpsertGoal(goals, today, amount))
  {
    var kept := Filter(goals, GoalDateIsNot(today));
    FilterPairwise(goals, GoalDateIsNot(today), DifferentDays);
    var r := UpsertGoal(goals, today, amount);
    forall i, j | 0 <= i < j < |r| ensures DifferentDays(r[i], r[j]) {
      if j < |r| - 1 {
        assert r[i] == kept[i] && r[j] == kept[j];
      }
    }
  }

  /** The goals after `setCalorieGoal` was called with each of `inputs` in turn on day `today`. */
  function GoalsAfter(goals: seq<CalorieGoal>, today: DayKey, inputs: seq<Option<int>>): (r: seq<CalorieGoal>)
    requires |goals| > 0
    ensures |r| > 0
  {
    if inputs == [] then goals
    else NextGoals(GoalsAfter(goals, today, inputs[..|inputs| - 1]), today, inputs[|inputs| - 1])
  }

  /** The last amount given among `inputs`, or `fallback` when every input was omitted. */
  function LastGiven(inputs: seq<Option<int>>, fallback: int): int {
    if inputs == [] then fallback
    else if inputs[|inputs| - 1].Some? then inputs[|inputs| - 1].value
    else LastGiven(inputs[..|inputs| - 1], fallback)
  }

  /** After any non-empty run of calls on one day there is exactly one goal for that day, it is
      the last one, and its amount is the last amount given (or the prior latest amount when all
      were omitted); "one goal per day" survives the run. */
  lemma {:induction false} GoalsAfterCalls(goals: seq<CalorieGoal>, today: DayKey, inputs: seq<Option<int>>)
    requires |goals| > 0 && |inputs| > 0
    ensures var r := GoalsAfter(goals, today, inputs);
      r[|r| - 1] == CalorieGoal(today, LastGiven(inputs, goals[|goals| - 1].goal)) &&
      forall i :: 0 <= i < |r| - 1 ==> r[i].date != today
    ensures OneGoalPerDay(goals) ==> OneGoalPerDay(GoalsAfter(goals, today, inputs))
  {
    var front := inputs[..|inputs| - 1];
    var prev := GoalsAfter(goals, today, front);
    if front != [] {
      GoalsAfterCalls(goals, today, front);
    } else {
      assert prev == goals;
    }
    if OneGoalPerDay(goals) {
      UpsertGoalKeepsOnePerDay(prev, today, ChosenAmount(prev, inputs[|inputs| - 1]));
    }
  }
}
