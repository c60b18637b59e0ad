# Calorie and workout tracker: state store model

This project models the client-side state store of a fitness and nutrition tracker
(`src/utils/useStore.js`). The store holds seven collections: the nutrition `history`,
the `calorieGoals`, the saved `dishes`, the `exercises`, the expanded workout `routine`,
the `routineDisplay` and the `completedWorkouts`. Every action of the store computes the next
value of some of these collections.

The modules are:

- `Entities` (entities.dfy): the records of the store as datatypes, and the constants the
  actions use. These are the one-day step of 86400000 ms, the default goal 1600, the default meal
  `"⚡️ ---"` and the defaults of a new exercise row.
- `Seqs` (seqs.dfy): JavaScript's order-preserving `filter` as `Filter`, with the facts the
  actions rely on. A filter result is a subsequence of its input. It keeps every copy of a
  passing element and no copy of a failing one. It distributes over concatenation. It keeps
  pairwise relations such as "distinct ids" and "increasing dates".
- `TimeStamps` (timestamps.dfy): the `HH:MM` stamp of a history entry. Each side of the colon is
  the decimal rendering of the number, with a leading `"0"` below ten. A parser gives the round
  trip.
- `Goals` (goals.dfy): the calorie-goal upsert keyed by day, and the goals after any run of
  `setCalorieGoal` calls.
- `RoutineSchedule` (schedule.dfy): the routine expansion. `Expansion` is the closed form.
  `ExpandRoutine` is the source's nested loop, proved equal to the closed form.
- `TrackerStore` (store.dfy): the class `Store` with the seven collections as `seq` fields and
  one method per action. `View()` gives the persisted snapshot of the seven collections. Each
  method states its whole new snapshot as an update of the old one, so "nothing else changes"
  is part of every contract. `Valid()` is the invariant every action keeps:
  - the clock time read at creation is a real time;
  - there is at least one calorie goal, and at most one per day;
  - history ids are distinct;
  - the routine has at most 1000 occurrences, on strictly increasing dates.
- `AsWritten` (findings.dfy): two expressions exactly as the source writes them, used as the
  as-written half of the findings below. They are the id expression of `addExercise`
  (`src/utils/useStore.js:127-130`) and the `splice` call of `setExercise` (`:145`).

The store's external inputs are method parameters:

- the current day key (`unixDate()`) is `today`;
- a fresh id (`uid()`) is `freshId`, with a precondition that no row already has it;
- the routine's anchor day is `base`.

The hour and minute are read once, when the store is created (`src/utils/useStore.js:11-12`). So
they are constructor parameters, kept as constants, and every history stamp uses them.
`resetStore` does not read them again.

Facts about the source that shape the model:

- `setRoutine` stores only the expanded `routine`.
- `addWorkout` puts its row in front and `addExercise` at the end.
- A two-item template expands to min(100·2, 1000) = 200 occurrences. `TwoItemExample` proves
  this.
- With an empty template the loop runs its 100 cycles and pushes nothing, so the routine is
  empty.
- Routine dates are in milliseconds, one `DAY_MS` apart.

## Model

| member | source | states |
|---|---|---|
| Seqs.Filter | src/utils/useStore.js:68-73 | the filtered sequence is no longer than the input and every element of it passes the test |
| Seqs.FilterMembers | src/utils/useStore.js:68-73 | every element of a filter result comes from the input, and every passing input element is kept |
| Seqs.FilterRemovesExactly | src/utils/useStore.js:68-73 | a filter result is an order-preserving subsequence of the input holding every copy of each passing element and no copy of a failing one |
| Seqs.FilterPairwise | src/utils/useStore.js:197-202 | filtering keeps any relation that held between every earlier and later element (used for distinct ids and increasing dates) |
| TimeStamps.Format | src/utils/useStore.js:47-49 | for hour 0..23 and minute 0..59 the stamp is exactly 5 characters with the colon in the middle, and parses back to that hour and minute |
| TimeStamps.FormatInjective | src/utils/useStore.js:47-49 | two different clock times never get the same stamp |
| TimeStamps.PaddedTwoDigits | src/utils/useStore.js:47-48 | below 100 the zero-padded rendering is two digits whose value is the number |
| Goals.UpsertGoal | src/utils/useStore.js:30-36 | the new goal for today is the last element, no earlier goal is for today, every goal for another day is kept, and nothing else is added |
| Goals.ChosenAmount | src/utils/useStore.js:25-28 | the amount is the input when given, and otherwise the amount of the latest goal (`at(-1)`) |
| Goals.NextGoals | src/utils/useStore.js:25-35 | after one call the last goal is for today and holds the input, or the old latest goal's amount when the input is omitted; no earlier goal is for today; every goal for another day is kept |
| Goals.UpsertGoalKeepsOtherDays | src/utils/useStore.js:31-34 | the goals for other days are exactly the old ones, in their original order and multiplicity |
| Goals.UpsertGoalKeepsDay | src/utils/useStore.js:31-34 | for every other day, the goals of that day are unchanged |
| Goals.UpsertGoalIdempotent | src/utils/useStore.js:23-38 | setting the same amount twice on one day gives the same goals as setting it once |
| Goals.NextGoalsRepeat | src/utils/useStore.js:25-28 | repeating a call with the same input, or with the input omitted (copy-forward of the latest amount), changes nothing |
| Goals.UpsertGoalKeepsOnePerDay | src/utils/useStore.js:30-36 | the upsert keeps "at most one goal per day" |
| Goals.GoalsAfterCalls | src/utils/useStore.js:23-38 | after any non-empty run of calls on one day, exactly one goal is for that day, it is last, and its amount is the last amount given, or the latest earlier amount when every input was omitted; one goal per day survives the run |
| RoutineSchedule.Expansion | src/utils/useStore.js:174-186 | at most 1000 occurrences and at most 100 per template item, and either the 1000 cap or all 100 cycles is reached (so 0 for an empty template) |
| RoutineSchedule.ExpansionAt | src/utils/useStore.js:168-182 | occurrence k carries the id and workout group of template item k mod L and is dated exactly k days after the anchor |
| RoutineSchedule.ExpansionIncreasing | src/utils/useStore.js:171-181 | occurrence dates strictly increase |
| RoutineSchedule.ExpansionCycle | src/utils/useStore.js:181 | one cycle later the same template item recurs exactly L days later |
| RoutineSchedule.TwoItemExample | src/utils/useStore.js:165-190 | a two-item template expands to 200 occurrences dated anchor, anchor + 1 day, anchor + 2 days (the first item again), and so on |
| RoutineSchedule.ExpandRoutine | src/utils/useStore.js:165-186 | the dating map and the nested 100-cycle loop with the under-1000 guard produce exactly the closed-form expansion |
| TrackerStore.WithoutEntry | src/utils/useStore.js:68-73 | no remaining history entry has the deleted entry's id |
| TrackerStore.WithoutEntryIsExact | src/utils/useStore.js:68-73 | deleting a history entry removes exactly the entries with its id and keeps the rest in order |
| TrackerStore.WithoutDish | src/utils/useStore.js:97-102 | the deleted dish is no longer present |
| TrackerStore.WithoutDishIsExact | src/utils/useStore.js:97-102 | deleting a dish removes exactly the equal dishes and keeps the rest in order |
| TrackerStore.WithoutWorkout | src/utils/useStore.js:151-158 | no remaining exercise belongs to the deleted workout group |
| TrackerStore.WithoutWorkoutIsExact | src/utils/useStore.js:151-158 | deleting a workout removes exactly its rows and keeps the rest in order |
| TrackerStore.WithoutExercise | src/utils/useStore.js:160-163 | no remaining exercise has the deleted id |
| TrackerStore.WithoutExerciseIsExact | src/utils/useStore.js:160-163 | deleting an exercise removes exactly the rows with its id and keeps the rest in order |
| TrackerStore.WithoutDate | src/utils/useStore.js:200 | no remaining routine occurrence falls on the completed day |
| TrackerStore.WithoutDateIsExact | src/utils/useStore.js:200 | completing a day removes exactly the occurrences on that day and keeps the rest in order |
| TrackerStore.NewHistoryEntry | src/utils/useStore.js:42-50 | the entry has the fresh id, today's key and the given calories, the given meal or the default meal when none is given, and a 5-character stamp that parses back to the store's hour and minute |
| TrackerStore.NewDish | src/utils/useStore.js:84-92 | the dish holds the given meal and calories, the given mass, proteins and carbs or "0", and the given notes or "" |
| TrackerStore.NewExercise | src/utils/useStore.js:107-116 | the row `addWorkout` builds, and `addExercise` builds at lines 126-137: the given id and workout group, the title " NEW ", zero sets, reps and weight, the time "00:00" and empty notes |
| TrackerStore.Defaults | src/utils/useStore.js:15-21 | the initial and reset state: one goal of 1600 for today and six empty collections |
| TrackerStore.FreshIdKeepsIdsDistinct | src/utils/useStore.js:104-141 | a row with an id not yet present keeps all exercise ids distinct, added in front or at the end |
| TrackerStore.CompletingRemovesOne | src/utils/useStore.js:197-202 | in a routine with increasing dates, completing the day of occurrence k removes that occurrence and nothing else |
| TrackerStore.CompletingOtherDayKeepsRoutine | src/utils/useStore.js:200 | completing a day on which no occurrence falls leaves the routine unchanged |
| TrackerStore.CompletingExpandedDay | src/utils/useStore.js:165-202 | completing day k of a freshly expanded routine removes exactly occurrence k |
| TrackerStore.Store.constructor | src/utils/useStore.js:11-21 | the new store holds the defaults (six empty collections, one goal of 1600 for today) and records the hour and minute |
| TrackerStore.Store.SetCalorieGoal | src/utils/useStore.js:23-38 | only the goals change, to the upsert of the input or the latest amount; today's goal is last and unique; the invariant is kept |
| TrackerStore.Store.AddHistoryEntry | src/utils/useStore.js:40-54 | only the history changes: exactly one new entry is appended, the old history is a prefix, and ids stay distinct |
| TrackerStore.Store.ResetStore | src/utils/useStore.js:56-65 | the state becomes the same defaults as at creation |
| TrackerStore.Store.DeleteHistoryEntry | src/utils/useStore.js:68-73 | only the history changes, to the entries with other ids |
| TrackerStore.Store.AddDish | src/utils/useStore.js:75-95 | only the dishes change: the new dish, with "0" and "" defaults, is put in front |
| TrackerStore.Store.DeleteDish | src/utils/useStore.js:97-102 | only the dishes change, to those not equal to the given one |
| TrackerStore.Store.AddWorkout | src/utils/useStore.js:104-119 | only the exercises change: a default row for the group with the fresh id is put in front, and distinct ids stay distinct |
| TrackerStore.Store.AddExercise | src/utils/useStore.js:121-141 | only the exercises change: a default row for the group with the fresh id is appended, and distinct ids stay distinct |
| TrackerStore.Store.SetExercise | src/utils/useStore.js:143-149 | only the exercises change: the length is kept, the form data is at the index, and every other position is unchanged |
| TrackerStore.Store.DeleteWorkout | src/utils/useStore.js:151-158 | only the exercises change, to the rows of other groups, and distinct ids stay distinct |
| TrackerStore.Store.DeleteExercise | src/utils/useStore.js:160-163 | only the exercises change, to the rows with other ids, and distinct ids stay distinct |
| TrackerStore.Store.SetRoutine | src/utils/useStore.js:165-190 | only the routine changes, and it is replaced wholesale by the expansion of the template from the anchor |
| TrackerStore.Store.SetRoutineDisplay | src/utils/useStore.js:192-196 | only the display list changes, to the given items |
| TrackerStore.Store.SetCompletedWorkouts | src/utils/useStore.js:197-202 | exactly one completion record for the day is appended and the routine loses exactly its occurrences on that day; nothing else changes |
| AsWritten.ExerciseIdAsWritten | src/utils/useStore.js:127-130 | the id expression yields either the generated id or the generated id with "abc" appended |
| AsWritten.CollisionCheckIsDead | src/utils/useStore.js:127-130 | comparing the id string with the boolean result of `some` is never true, so the stored id is always the generated one |
| AsWritten.CollidingIdDuplicates | src/utils/useStore.js:121-141 | as written, for any workout group, a generated id that is already present leaves two rows with the same id |
| AsWritten.SpliceAsWritten | src/utils/useStore.js:145 | `splice(index, 1, x)` replaces position index when it is in range, and appends x when index is past the end |
| AsWritten.SpliceOutOfRangeAppends | src/utils/useStore.js:145 | every index at or past the end grows the collection by one row instead of failing |

## Findings

| source | as written | input that shows it | evidently intended | confidence | as-written member | corrected member |
|---|---|---|---|---|---|---|
| src/utils/useStore.js:127-130 | `id === state.exercises.some(...)` compares a string with a boolean | any exercises holding a row whose id equals the generated id | store an id that no row already has | high (not executed) | AsWritten.CollidingIdDuplicates | TrackerStore.Store.AddExercise |
| src/utils/useStore.js:145 | `exercises.splice(index, 1, formData)` on an index past the end | an empty exercise list and index 0: the list becomes one row long | replace an existing row; an invalid index is an error | high (not executed) | AsWritten.SpliceOutOfRangeAppends | TrackerStore.Store.SetExercise |

The corrected `AddExercise` rests uniqueness on the freshness of the id, which is a precondition.
The dead `${id}abc` branch is not modelled. The corrected `SetExercise` requires an index inside
the collection.

## Left out

- Remote mirroring (`src/utils/useStore.js:6`, `:53`, `:218`) is not modelled. It is a network
  call, and nothing is deleted remotely.
- Local persistence is not modelled: the asynchronous secure-store reads and writes and the JSON
  encoding (`src/utils/useStore.js:205-219`). `View()` is the snapshot that would be written.
  Restoring a snapshot at start-up is not modelled either, so the invariant assumes states reached
  through the actions.
- The `create` and `persist` middleware wiring is not modelled (`src/utils/useStore.js:8-10`).
  Where an action reads `useStore.getState()` (`:144`, `:152`), the model reads the object's own
  field.
- The id source, the day-key source and the clock are parameters: `freshId`, `today`, `base`,
  and `hour`/`minute` at creation.
- The routine anchor: the source adds a number to the `unixDate` function itself
  (`src/utils/useStore.js:171`). JavaScript turns that into string concatenation. The model
  takes an explicit day `base` instead and does not model the string dates.
- The `if (true)` wrapper (`src/utils/useStore.js:177`) has no effect and is not modelled.
- Interpolation of inputs into strings (`${caloriesInput}` and the like) is not modelled.
  History and dish fields are taken as the strings the source stores. Omitted dish fields
  become `"0"` and `""`.
- Numbers are unbounded integers. JavaScript's floating-point numbers are not modelled; the
  routine dates stay far below 2^53.
- TrackerStore.Store.SetCalorieGoal: reads the day key once per call, while the source calls
  `unixDate()` for every goal and once more for the new goal. The model does not capture a call
  that straddles midnight.
- TrackerStore.Store.SetCalorieGoal: in the source, an omitted input on an empty goal list throws.
  `Valid()` keeps the goal list non-empty, so the model cannot reach that state.
- TrackerStore.WithoutDish, TrackerStore.WithoutDishIsExact and TrackerStore.Store.DeleteDish:
  the source removes by JavaScript reference identity (`!==`), the model by value equality. With
  two equal dishes, the model removes both where the source removes only the referenced one.
- Seqs.Filter: its own contract gives only the length bound and that every kept element passes.
  The membership facts are the contract of `Seqs.FilterMembers`, and the full characterisation is
  `Seqs.FilterRemovesExactly`. They are kept out of `Filter`'s contract because they would be in
  scope at every use of `Filter` and make the other proofs unstable.
- TrackerStore.Store.SetExercise: requires an index inside the collection. The source's
  behaviour for other indices is modelled only by `AsWritten.SpliceAsWritten`. Non-integer
  indices are not modelled.
- TrackerStore.Store.SetExercise: updates the live array in place. The model assigns a new
  sequence, so the aliasing with the middleware's state object is not modelled.
- TrackerStore.Store.SetRoutineDisplay: a plain field assignment, with nothing to prove beyond
  that.
