/** The entities held by the tracker's state store, as plain values. */
module Entities {

  datatype Option<T> = None | Some(value: T)

  /** Identifiers handed out by the external unique-id source. */
  type Id = string

  /** A day key: the millisecond timestamp the day-key source reports for a day. */
  type DayKey = int

  /** Milliseconds in one day; consecutive routine occurrences are this far apart. */
  const DAY_MS: int := 86400000

  /** The calorie goal a fresh or reset store starts with. */
  const DEFAULT_GOAL: int := 1600

  /** The meal label a history entry gets when none is given ("⚡️ ---"). */
  const DEFAULT_MEAL: string := "\U{26A1}\U{FE0F} ---"

  /** Defaults of a newly added exercise row. */
  const NEW_TITLE: string := " NEW "
  const NEW_TIME: string := "00:00"

  /** Defaults of the optional numeric dish fields, already stringified. */
  const ZERO_TEXT: string := "0"

  datatype HistoryEntry = HistoryEntry(id: Id, date: DayKey, meal: string, calories: string, timeStamp: string)

  datatype CalorieGoal = CalorieGoal(date: DayKey, goal: int)

  datatype Dish = Dish(meal: string, calories: string, mass: string, proteins: string, carbs: string, notes: string)

  datatype Exercise = Exercise(
    id: Id, workout: string, title: string,
    sets: int, reps: int, weight: int, time: string, notes: string)

  /** One item of a routine template: which workout group, under which id. */
  datatype TemplateItem = TemplateItem(id: Id, workout: string)

  /** One dated occurrence of a template item in the expanded routine. */
  datatype Occurrence = Occurrence(id: Id, workout: string, date: int)

  datatype CompletedWorkout = CompletedWorkout(date: int)
}
