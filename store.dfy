/** The tracker's state store: seven collections and the actions that compute their next values. */
module TrackerStore {
  import opened Entities
  import opened Seqs
  import opened TimeStamps
  import opened Goals
  import opened RoutineSchedule

  /** Everything the store persists, in the order of its persisted layout. */
  datatype Snapshot = Snapshot(
    history: seq<HistoryEntry>,
    calorieGoals: seq<CalorieGoal>,
    dishes: seq<Dish>,
    exercises: seq<Exercise>,
    routine: seq<Occurrence>,
    routineDisplay: seq<TemplateItem>,
    completedWorkouts: seq<CompletedWorkout>)

  /** The state a new store starts with, and the state `resetStore` restores. */
  function Defaults(today: DayKey): (s: Snapshot)
    ensures s.calorieGoals == [CalorieGoal(today, 1600)]
    ensures s.history == [] && s.dishes == [] && s.exercises == [] && s.routine == []
    ensures s.routineDisplay == [] && s.completedWorkouts == []
  {
    Snapshot([], [CalorieGoal(today, DEFAULT_GOAL)], [], [], [], [], [])
  }

  // ---------------------------------------------------------------- filter tests

  function EntryIdIsNot(id: Id): HistoryEntry -> bool {
    (e: HistoryEntry) => e.id != id
  }

  function DishIsNot(d: Dish): Dish -> bool {
    (x: Dish) => x != d
  }

  function WorkoutIsNot(group: string): Exercise -> bool {
    (e: Exercise) => e.workout != group
  }

  function ExerciseIdIsNot(id: Id): Exercise -> bool {
    (e: Exercise) => e.id != id
  }

  function OccurrenceDateIsNot(d: int): Occurrence -> bool {
    (o: Occurrence) => o.date != d
  }

  function DifferentEntryIds(a: HistoryEntry, b: HistoryEntry): bool {
    a.id != b.id
  }

  function DifferentExerciseIds(a: Exercise, b: Exercise): bool {
    a.id != b.id
  }

  // ---------------------------------------------------------------- next values of the collections

  /** `deleteHistoryEntry`: the history without the entries sharing the given entry's id. */
  function WithoutEntry(history: seq<HistoryEntry>, id: Id): (r: seq<HistoryEntry>)
    ensures forall i :: 0 <= i < |r| ==> r[i].id != id
  {
    Filter(history, EntryIdIsNot(id))
  }

  /** `deleteDish`: the dishes without those equal to the given one. */
  function WithoutDish(dishes: seq<Dish>, dish: Dish): (r: seq<Dish>)
    ensures dish !in r
  {
    Filter(dishes, DishIsNot(dish))
  }

  /** `deleteWorkout`: the exercises without every row of the given workout group. */
  function WithoutWorkout(exercises: seq<Exercise>, group: string): (r: seq<Exercise>)
    ensures forall i :: 0 <= i < |r| ==> r[i].workout != group
  {
    Filter(exercises, WorkoutIsNot(group))
  }

  /** `deleteExercise`: the exercises without the rows carrying the given id. */
  function WithoutExercise(exercises: seq<Exercise>, id: Id): (r: seq<Exercise>)
    ensures forall i :: 0 <= i < |r| ==> r[i].id != id
  {
    Filter(exercises, ExerciseIdIsNot(id))
  }

  /** `setCompletedWorkouts`: the routine without the occurrences on day `d`. */
  function WithoutDate(routine: seq<Occurrence>, d: int): (r: seq<Occurrence>)
    ensures forall i :: 0 <= i < |r| ==> r[i].date != d
  {
    Filter(routine, OccurrenceDateIsNot(d))
  }

  /** The entry `addHistoryEntry` builds: a fresh id, today's key, the meal (the lightning
      placeholder when omitted) and the zero-padded stamp of the store's hour and minute. */
  function NewHistoryEntry(id: Id, today: DayKey, calories: string, meal: Option<string>, hour: nat, minute: nat)
    : (e: HistoryEntry)
    requires hour < 24 && minute < 60
    ensures e.id == id && e.date == today && e.calories == calories
    ensures meal.Some? ==> e.meal == meal.value
    ensures meal.None? ==> e.meal == DEFAULT_MEAL
    ensures |e.timeStamp| == 5 && e.timeStamp[2] == ':'
    ensures Parse(e.timeStamp) == Some(Clock(hour, minute))
  {
    HistoryEntry(id, today, if meal.Some? then meal.value else DEFAULT_MEAL, calories, Format(Clock(hour, minute)))
  }

  /** The dish `addDish` builds; omitted mass, proteins and carbs are "0", omitted notes "". */
  function NewDish(meal: string, calories: string, mass: Option<string>, proteins: Option<string>,
                   carbs: Option<string>, notes: Option<string>): (d: Dish)
    ensures d.meal == meal && d.calories == calories
    ensures d.mass == (if mass.Some? then mass.value else "0")
    ensures d.proteins == (if proteins.Some? then proteins.value else "0")
    ensures d.carbs == (if carbs.Some? then carbs.value else "0")
    ensures d.notes == (if notes.Some? then notes.value else "")
  {
    Dish(meal, calories,
      if mass.Some? then mass.value else ZERO_TEXT,
      if proteins.Some? then proteins.value else ZERO_TEXT,
      if carbs.Some? then carbs.value else ZERO_TEXT,
      if notes.Some? then notes.value else "")
  }

  /** The row `addWorkout` and `addExercise` build for a workout group. */
  function NewExercise(id: Id, group: string): (e: Exercise)
    ensures e.id == id && e.workout == group
    ensures e.title == " NEW " && e.sets == 0 && e.reps == 0 && e.weight == 0
    ensures e.time == "00:00" && e.notes == ""
  {
    Exercise(id, group, NEW_TITLE, 0, 0, 0, NEW_TIME, "")
  }

  // ---------------------------------------------------------------- facts about them

  /** Each delete action is exact: the result is the old collection with precisely the matching
      elements deleted, every other element kept with its multiplicity and in its order. */
  lemma WithoutEntryIsExact(history: seq<HistoryEntry>, id: Id)
    ensures RemovesExactly(WithoutEntry(history, id), history, EntryIdIsNot(id))
  {
    FilterRemovesExactly(history, EntryIdIsNot(id));
  }

  lemma WithoutDishIsExact(dishes: seq<Dish>, dish: Dish)
    ensures RemovesExactly(WithoutDish(dishes, dish), dishes, DishIsNot(dish))
  {
    FilterRemovesExactly(dishes, DishIsNot(dish));
  }

  lemma WithoutWorkoutIsExact(exercises: seq<Exercise>, group: string)
    ensures RemovesExactly(WithoutWorkout(exercises, group), exercises, WorkoutIsNot(group))
  {
    FilterRemovesExactly(exercises, WorkoutIsNot(group));
  }

  lemma WithoutExerciseIsExact(exercises: seq<Exercise>, id: Id)
    ensures RemovesExactly(WithoutExercise(exercises, id), exercises, ExerciseIdIsNot(id))
  {
    FilterRemovesExactly(exercises, ExerciseIdIsNot(id));
  }

  lemma WithoutDateIsExact(routine: seq<Occurrence>, d: int)
    ensures RemovesExactly(WithoutDate(routine, d), routine, OccurrenceDateIsNot(d))
  {
    FilterRemovesExactly(routine, OccurrenceDateIsNot(d));
  }

  /** A row whose id no present row has keeps all ids distinct, added at either end. */
  lemma FreshIdKeepsIdsDistinct(exercises: seq<Exercise>, e: Exercise)
    requires Pairwise(exercises, DifferentExerciseIds)
    requires forall i :: 0 <= i < |exercises| ==> exercises[i].id != e.id
    ensures Pairwise([e] + exercises, DifferentExerciseIds)
    ensures Pairwise(exercises + [e], DifferentExerciseIds)
  {
    var front, back := [e] + exercises, exercises + [e];
    forall i, j | 0 <= i < j < |front| ensures DifferentExerciseIds(front[i], front[j]) {
      assert front[j] == exercises[j - 1];
      if i > 0 { assert front[i] == exercises[i - 1]; }
    }
    forall i, j | 0 <= i < j < |back| ensures DifferentExerciseIds(back[i], back[j]) {
      assert back[i] == exercises[i];
      if j < |exercises| { assert back[j] == exercises[j]; }
    }
  }

  /** In a routine with strictly increasing dates, completing the day of occurrence `k`
      removes that occurrence and nothing else. */
  lemma {:induction false} CompletingRemovesOne(routine: seq<Occurrence>, k: nat, d: int)
    requires Pairwise(routine, EarlierDate)
    requires k < |routine| && routine[k].date == d
    ensures WithoutDate(routine, d) == routine[..k] + routine[k + 1..]
  {
    var p := OccurrenceDateIsNot(d);
    var before, after := routine[..k], routine[k + 1..];
    forall i | 0 <= i < |before| ensures p(before[i]) {
      assert before[i] == routine[i];
      assert EarlierDate(routine[i], routine[k]);
    }
    forall i | 0 <= i < |after| ensures p(after[i]) {
      assert after[i] == routine[k + 1 + i];
      assert EarlierDate(routine[k], routine[k + 1 + i]);
    }
    FilterAround(before, routine[k], after, p);
    assert routine == before + [routine[k]] + after;
  }

  /** Completing a day that no occurrence falls on leaves the routine as it was. */
  lemma CompletingOtherDayKeepsRoutine(routine: seq<Occurrence>, d: int)
    requires forall i :: 0 <= i < |routine| ==> routine[i].date != d
    ensures WithoutDate(routine, d) == routine
  {
    FilterAll(routine, OccurrenceDateIsNot(d));
  }

  /** Completing day `base + k` of a freshly expanded routine removes exactly occurrence `k`. */
  lemma CompletingExpandedDay(template: seq<TemplateItem>, base: int, k: nat)
    requires k < |Expansion(template, base)|
    ensures WithoutDate(Expansion(template, base), base + k * DAY_MS)
         == Expansion(template, base)[..k] + Expansion(template, base)[k + 1..]
  {
    var r := Expansion(template, base);
    ExpansionIncreasing(template, base);
    ExpansionAt(template, base, k);
    CompletingRemovesOne(r, k, base + k * DAY_MS);
  }

  // ---------------------------------------------------------------- the store

  class Store {
    /** Hour and minute of the moment the store was created; every history stamp uses them. */
    const hour: nat
    const minute: nat

    var history: seq<HistoryEntry>
    var calorieGoals: seq<CalorieGoal>
    var dishes: seq<Dish>
    var exercises: seq<Exercise>
    var routine: seq<Occurrence>
    var routineDisplay: seq<TemplateItem>
    var completedWorkouts: seq<CompletedWorkout>

    function View(): Snapshot
      reads this
    {
      Snapshot(history, calorieGoals, dishes, exercises, routine, routineDisplay, completedWorkouts)
    }

    /** What every action keeps: a real clock time, at least one goal and one per day, distinct
        history ids, and a bounded routine whose occurrences fall on strictly increasing days. */
    ghost predicate Valid()
      reads this
    {
      hour < 24 && minute < 60 &&
      |calorieGoals| > 0 && OneGoalPerDay(calorieGoals) &&
      Pairwise(history, DifferentEntryIds) &&
      |routine| <= MAX_OCCURRENCES && Pairwise(routine, EarlierDate)
    }

    constructor (today: DayKey, hour: nat, minute: nat)
      requires hour < 24 && minute < 60
      ensures Valid()
      ensures this.hour == hour && this.minute == minute
      ensures View() == Defaults(today)
    {
      this.hour, this.minute := hour, minute;
      history, calorieGoals, dishes := [], [CalorieGoal(today, DEFAULT_GOAL)], [];
      exercises, routine, routineDisplay, completedWorkouts := [], [], [], [];
    }

    /** `setCalorieGoal(input)`: replaces today's goal by the input, or by the latest goal's
        amount when the input is omitted. */
    method SetCalorieGoal(input: Option<int>, today: DayKey)
      requires Valid()
      modifies this
      ensures Valid()
      ensures View() == old(View()).(calorieGoals := NextGoals(old(calorieGoals), today, input))
      ensures calorieGoals[|calorieGoals| - 1] == CalorieGoal(today, ChosenAmount(old(calorieGoals), input))
      ensures forall i :: 0 <= i < |calorieGoals| - 1 ==> calorieGoals[i].date != today
    {
      UpsertGoalKeepsOnePerDay(calorieGoals, today, ChosenAmount(calorieGoals, input));
      calorieGoals := NextGoals(calorieGoals, today, input);
    }

    /** `addHistoryEntry(calories, meal)` with `freshId` from the id source. */
    method AddHistoryEntry(calories: string, meal: Option<string>, freshId: Id, today: DayKey)
      requires Valid()
      requires forall i :: 0 <= i < |history| ==> history[i].id != freshId
      modifies this
      ensures Valid()
      ensures View() == old(View()).(history := old(history) + [NewHistoryEntry(freshId, today, calories, meal, hour, minute)])
      ensures |history| == |old(history)| + 1 && old(history) <= history
    {
      var entry := NewHistoryEntry(freshId, today, calories, meal, hour, minute);
      ghost var before := history;
      history := history + [entry];
      forall i, j | 0 <= i < j < |history| ensures DifferentEntryIds(history[i], history[j]) {
        assert history[i] == before[i];
        if j < |before| { assert history[j] == before[j]; }
      }
    }

    /** `resetStore`: back to the initial defaults; the clock time read at creation stays. */
    method ResetStore(today: DayKey)
      requires Valid()
      modifies this
      ensures Valid()
      ensures View() == Defaults(today)
    {
      history, calorieGoals, dishes := [], [CalorieGoal(today, DEFAULT_GOAL)], [];
      exercises, routine, routineDisplay, completedWorkouts := [], [], [], [];
    }

    /** `deleteHistoryEntry(entry)`: removes every entry with that entry's id. */
    method DeleteHistoryEntry(entry: HistoryEntry)
      requires Valid()
      modifies this
      ensures Valid()
      ensures View() == old(View()).(history := WithoutEntry(old(history), entry.id))
    {
      FilterPairwise(history, EntryIdIsNot(entry.id), DifferentEntryIds);
      history := WithoutEntry(history, entry.id);
    }

    /** `addDish(...)`: puts the new dish in front. */
    method AddDish(meal: string, calories: string, mass: Option<string>, proteins: Option<string>,
                   carbs: Option<string>, notes: Option<string>)
      requires Valid()
      modifies this
      ensures Valid()
      ensures View() == old(View()).(dishes := [NewDish(meal, calories, mass, proteins, carbs, notes)] + old(dishes))
    {
      dishes := [NewDish(meal, calories, mass, proteins, carbs, notes)] + dishes;
    }

    /** `deleteDish(dish)`. */
    method DeleteDish(dish: Dish)
      requires Valid()
      modifies this
      ensures Valid()
      ensures View() == old(View()).(dishes := WithoutDish(old(dishes), dish))
    {
      dishes := WithoutDish(dishes, dish);
    }

    /** `addWorkout(group)`: a new row for the group, in front, under `freshId`. */
    method AddWorkout(group: string, freshId: Id)
      requires Valid()
      requires forall i :: 0 <= i < |exercises| ==> exercises[i].id != freshId
      modifies this
      ensures Valid()
      ensures View() == old(View()).(exercises := [NewExercise(freshId, group)] + old(exercises))
      ensures old(Pairwise(exercises, DifferentExerciseIds)) ==> Pairwise(exercises, DifferentExerciseIds)
    {
      if Pairwise(exercises, DifferentExerciseIds) {
        FreshIdKeepsIdsDistinct(exercises, NewExercise(freshId, group));
      }
      exercises := [NewExercise(freshId, group)] + exercises;
    }

    /** `addExercise(group)`: a new row for the group, at the end, under `freshId`. */
    method AddExercise(group: string, freshId: Id)
      requires Valid()
      requires forall i :: 0 <= i < |exercises| ==> exercises[i].id != freshId
      modifies this
      ensures Valid()
      ensures View() == old(View()).(exercises := old(exercises) + [NewExercise(freshId, group)])
      ensures old(Pairwise(exercises, DifferentExerciseIds)) ==> Pairwise(exercises, DifferentExerciseIds)
    {
      if Pairwise(exercises, DifferentExerciseIds) {
        FreshIdKeepsIdsDistinct(exercises, NewExercise(freshId, group));
      }
      exercises := exercises + [NewExercise(freshId, group)];
    }

    /** `setExercise(index, formData)`: replaces the row at an existing position. */
    method SetExercise(index: int, formData: Exercise)
      requires Valid()
      requires 0 <= index < |exercises|
      modifies this
      ensures Valid()
      ensures View() == old(View()).(exercises := old(exercises)[index := formData])
      ensures |exercises| == |old(exercises)| && exercises[index] == formData
      ensures forall i :: 0 <= i < |exercises| && i != index ==> exercises[i] == old(exercises)[i]
    {
      exercises := exercises[index := formData];
    }

    /** `deleteWorkout(group)`. */
    method DeleteWorkout(group: string)
      requires Valid()
      modifies this
      ensures Valid()
      ensures View() == old(View()).(exercises := WithoutWorkout(old(exercises), group))
      ensures old(Pairwise(exercises, DifferentExerciseIds)) ==> Pairwise(exercises, DifferentExerciseIds)
    {
      if Pairwise(exercises, DifferentExerciseIds) {
        FilterPairwise(exercises, WorkoutIsNot(group), DifferentExerciseIds);
      }
      exercises := WithoutWorkout(exercises, group);
    }

    /** `deleteExercise(id)`. */
    method DeleteExercise(id: Id)
      requires Valid()
      modifies this
      ensures Valid()
      ensures View() == old(View()).(exercises := WithoutExercise(old(exercises), id))
      ensures old(Pairwise(exercises, DifferentExerciseIds)) ==> Pairwise(exercises, DifferentExerciseIds)
    {
      if Pairwise(exercises, DifferentExerciseIds) {
        FilterPairwise(exercises, ExerciseIdIsNot(id), DifferentExerciseIds);
      }
      exercises := WithoutExercise(exercises, id);
    }

    /** `setRoutine(template)`, anchored at day `base`: the routine is replaced wholesale by the
        expansion; the template itself is not stored. */
    method SetRoutine(template: seq<TemplateItem>, base: int)
      requires Valid()
      modifies this
      ensures Valid()
      ensures View() == old(View()).(routine := Expansion(template, base))
    {
      var calendar := ExpandRoutine(template, base);
      ExpansionIncreasing(template, base);
      routine := calendar;
    }

    /** `setRoutineDisplay(items)`: stored as given. */
    method SetRoutineDisplay(items: seq<TemplateItem>)
      requires Valid()
      modifies this
      ensures Valid()
      ensures View() == old(View()).(routineDisplay := items)
    {
      routineDisplay := items;
    }

    /** `setCompletedWorkouts(d)`: records the day and drops the routine's occurrences on it. */
    method SetCompletedWorkouts(d: int)
      requires Valid()
      modifies this
      ensures Valid()
      ensures View() == old(View()).(
        completedWorkouts := old(completedWorkouts) + [CompletedWorkout(d)],
        routine := WithoutDate(old(routine), d))
    {
      FilterPairwise(routine, OccurrenceDateIsNot(d), EarlierDate);
      completedWorkouts := completedWorkouts + [CompletedWorkout(d)];
      routine := WithoutDate(routine, d);
    }
  }
}
