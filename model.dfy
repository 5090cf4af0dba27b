/**
 * The data model of the tracker: a set is a rep count and a weight, an
 * exercise is an identified, named list of sets, and a workout is an
 * identified, dated list of exercises.
 */
module WorkoutModel {

  /** One performed set. Both fields are whole numbers; nothing in the program rules out negatives. */
  datatype ExerciseSet = ExerciseSet(reps: int, weight: int)

  /** The set every new exercise and every "Add Set" click starts from. */
  const BlankSet := ExerciseSet(0, 0)

  datatype Exercise = Exercise(id: string, name: string, sets: seq<ExerciseSet>)

  /** A creation time; the model never looks inside it. */
  datatype Date = Date(epochMillis: int)

  datatype Workout = Workout(id: string, date: Date, exercises: seq<Exercise>)

  /** Every exercise has at least one set. */
  predicate AllHaveSets(exs: seq<Exercise>) {
    forall i :: 0 <= i < |exs| ==> |exs[i].sets| >= 1
  }

  /** A list of exercises that may be stored as a workout: non-empty, and no exercise without sets. */
  predicate Committable(exs: seq<Exercise>) {
    |exs| >= 1 && AllHaveSets(exs)
  }
}
