/**
 * The page: the ordered list of saved workouts, newest first, and the two
 * handlers that replace it.  Saving in the builder hands its exercises to
 * `AddWorkout`.
 */
module WorkoutTracker {
  import opened Wrappers
  import opened Seqs
  import opened WorkoutModel
  import WorkoutLogger
  import WorkoutStats

  /** `workouts.filter((w) => w.id !== id)` */
  function WithoutWorkout(ws: seq<Workout>, id: string): seq<Workout> {
    Filter(ws, (w: Workout) => w.id != id)
  }

  predicate HasWorkout(ws: seq<Workout>, id: string) {
    exists i :: 0 <= i < |ws| && ws[i].id == id
  }

  /**
   * Deleting removes every workout with the id and keeps the others in their
   * relative order; an absent id changes nothing; deleting twice is deleting once.
   */
  lemma DeleteWorkoutEffect(ws: seq<Workout>, id: string)
    ensures forall w :: w in WithoutWorkout(ws, id) <==> w in ws && w.id != id
    ensures forall a, b :: ws == a + b ==>
      WithoutWorkout(ws, id) == WithoutWorkout(a, id) + WithoutWorkout(b, id)
    ensures !HasWorkout(ws, id) ==> WithoutWorkout(ws, id) == ws
    ensures WithoutWorkout(WithoutWorkout(ws, id), id) == WithoutWorkout(ws, id)
  {
    var keep := (w: Workout) => w.id != id;
    forall a, b | ws == a + b
      ensures WithoutWorkout(ws, id) == WithoutWorkout(a, id) + WithoutWorkout(b, id)
    {
      FilterConcat(a, b, keep);
    }
    if !HasWorkout(ws, id) {
      FilterAllKept(ws, keep);
    }
    FilterIdempotent(ws, keep);
  }

  /** Adding a workout in front adds its exercises to the totals and its names to the counts. */
  lemma AddWorkoutStats(ws: seq<Workout>, w: Workout, n: string)
    ensures WorkoutStats.TotalExercises([w] + ws) == |w.exercises| + WorkoutStats.TotalExercises(ws)
    ensures WorkoutStats.Occurrences([w] + ws, n) ==
      WorkoutStats.NamedIn(w.exercises, n) + WorkoutStats.Occurrences(ws, n)
  {
    WorkoutStats.TotalExercisesConcat([w], ws);
    assert [w][..0] == [];
    WorkoutStats.OccurrencesConcat([w], ws, n);
  }

  /** Every stored workout has an exercise and every stored exercise has a set. */
  predicate AllCommittable(ws: seq<Workout>) {
    forall i :: 0 <= i < |ws| ==> Committable(ws[i].exercises)
  }

  /** Every stored workout has at least one exercise, whatever its sets. */
  predicate AllNonEmpty(ws: seq<Workout>) {
    forall i :: 0 <= i < |ws| ==> |ws[i].exercises| >= 1
  }

  class Tracker {
    /** The saved workouts, most recently added first. */
    var workouts: seq<Workout>

    constructor ()
      ensures workouts == [] && AllCommittable(workouts) && AllNonEmpty(workouts)
    {
      workouts := [];
    }

    /** `addWorkout`; `freshId` and `now` stand for the clock-derived id and date. */
    method AddWorkout(exercises: seq<Exercise>, freshId: string, now: Date)
      modifies this
      ensures workouts == [Workout(freshId, now, exercises)] + old(workouts)
      ensures |workouts| == |old(workouts)| + 1
      ensures workouts[0].exercises == exercises && workouts[1..] == old(workouts)
      ensures AllCommittable(old(workouts)) && Committable(exercises) ==> AllCommittable(workouts)
      ensures AllNonEmpty(old(workouts)) && |exercises| >= 1 ==> AllNonEmpty(workouts)
    {
      workouts := [Workout(freshId, now, exercises)] + workouts;
    }

    /** `deleteWorkout` */
    method DeleteWorkout(id: string)
      modifies this
      ensures workouts == WithoutWorkout(old(workouts), id)
      ensures AllCommittable(old(workouts)) ==> AllCommittable(workouts)
      ensures AllNonEmpty(old(workouts)) ==> AllNonEmpty(workouts)
    {
      workouts := WithoutWorkout(workouts, id);
      DeleteWorkoutEffect(old(workouts), id);
      forall i | 0 <= i < |workouts|
        ensures AllCommittable(old(workouts)) ==> Committable(workouts[i].exercises)
        ensures AllNonEmpty(old(workouts)) ==> |workouts[i].exercises| >= 1
      {
        assert workouts[i] in workouts;
      }
    }

    /**
     * The "Save Workout" button: the builder's `saveWorkout` with this page's
     * `addWorkout` as its callback.  Nothing happens when the builder is empty;
     * otherwise a workout holding exactly the builder's exercises goes in front
     * and the builder is cleared.  Every stored workout keeps at least one
     * exercise, whatever state the builder is in; stored workouts stay
     * committable as long as the builder's exercises all have a set.
     */
    method SaveFrom(logger: WorkoutLogger.Logger, freshId: string, now: Date)
      modifies this, logger
      ensures old(logger.exercises) == [] ==>
        workouts == old(workouts) && logger.exercises == []
      ensures old(logger.exercises) != [] ==>
        workouts == [Workout(freshId, now, old(logger.exercises))] + old(workouts) &&
        logger.exercises == []
      ensures logger.currentExercise == old(logger.currentExercise)
      ensures AllNonEmpty(old(workouts)) ==> AllNonEmpty(workouts)
      ensures AllCommittable(old(workouts)) && AllHaveSets(old(logger.exercises)) ==>
        AllCommittable(workouts)
    {
      var saved := logger.SaveWorkout();
      if saved.Some? {
        AddWorkout(saved.value, freshId, now);
      }
    }
  }
}
