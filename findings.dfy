/** The source's exercise actions as written, next to the behaviour the store model adopts. */
module AsWritten {
  import opened Entities
  import opened Seqs
  import opened TrackerStore

  /** The two kinds of value the collision check puts on either side of `===`. */
  datatype JsValue = JsString(s: string) | JsBool(b: bool)

  /** JavaScript's strict equality: values of different kinds are never equal. */
  function StrictEquals(a: JsValue, b: JsValue): bool {
    a == b
  }

  /** The id `addExercise` stores: the fresh id compared with the boolean "some row has it". */
  function ExerciseIdAsWritten(exercises: seq<Exercise>, id: Id): (r: Id)
    ensures r == id || r == id + "abc"
  {
    var collides := exists i :: 0 <= i < |exercises| && exercises[i].id == id;
    if StrictEquals(JsString(id), JsBool(collides)) then id + "abc" else id
  }

  /** The collision branch is dead: the stored id is always the generated one. */
  lemma CollisionCheckIsDead(exercises: seq<Exercise>, id: Id)
    ensures ExerciseIdAsWritten(exercises, id) == id
  {
  }

  /** So a generated id that is already present makes two rows share it. */
  lemma CollidingIdDuplicates(exercises: seq<Exercise>, id: Id, group: string, k: nat)
    requires k < |exercises| && exercises[k].id == id
    ensures !Pairwise(exercises + [NewExercise(ExerciseIdAsWritten(exercises, id), group)], DifferentExerciseIds)
  {
    var after := exercises + [NewExercise(ExerciseIdAsWritten(exercises, id), group)];
    CollisionCheckIsDead(exercises, id);
    assert after[k] == exercises[k];
    assert !DifferentExerciseIds(after[k], after[|exercises|]);
  }

  /** `exercises.splice(index, 1, formData)` for an integer index: a negative index counts
      from the end, an index past the end is clamped to the length. */
  function SpliceAsWritten(s: seq<Exercise>, index: int, x: Exercise): (r: seq<Exercise>)
    ensures 0 <= index < |s| ==> r == s[index := x]
    ensures index >= |s| ==> r == s + [x]
  {
    var n := |s|;
    var start := if index < 0 then (if n + index < 0 then 0 else n + index)
                 else if index < n then index else n;
    s[..start] + [x] + (if start < n then s[start + 1..] else [])
  }

  /** An out-of-range index grows the collection instead of failing. */
  lemma SpliceOutOfRangeAppends(s: seq<Exercise>, index: int, x: Exercise)
    requires index >= |s|
    ensures |SpliceAsWritten(s, index, x)| == |s| + 1
  {
  }
}
