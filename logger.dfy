/**
 * The workout builder: the in-progress list of exercises and the text of the
 * exercise-name field, and the handlers that replace them.  Every handler
 * computes its new list with a pure function below; the class applies it.
 */
module WorkoutLogger {
  import opened Wrappers
  import opened Seqs
  import opened WorkoutModel

  // ---------------------------------------------------------------------------
  // String.prototype.trim

  /** ECMAScript's WhiteSpace and LineTerminator code points, the ones `trim` strips. */
  predicate IsTrimmable(c: char) {
    var n := c as int;
    n == 0x09 || n == 0x0A || n == 0x0B || n == 0x0C || n == 0x0D || n == 0x20 ||
    n == 0xA0 || n == 0x1680 || (0x2000 <= n <= 0x200A) || n == 0x2028 || n == 0x2029 ||
    n == 0x202F || n == 0x205F || n == 0x3000 || n == 0xFEFF
  }

  /** `s` with its leading whitespace removed: a suffix of `s`, starting at the first other character. */
  function TrimStart(s: string): (r: string)
    ensures |r| <= |s| && r == s[|s| - |r|..]
    ensures forall i :: 0 <= i < |s| - |r| ==> IsTrimmable(s[i])
    ensures r != [] ==> !IsTrimmable(r[0])
  {
    if s != [] && IsTrimmable(s[0]) then TrimStart(s[1..]) else s
  }

  /** `s` with its trailing whitespace removed: a prefix of `s`, ending at the last other character. */
  function TrimEnd(s: string): (r: string)
    ensures |r| <= |s| && r == s[..|r|]
    ensures forall i :: |r| <= i < |s| ==> IsTrimmable(s[i])
    ensures r != [] ==> !IsTrimmable(r[|r| - 1])
  {
    if s != [] && IsTrimmable(s[|s| - 1]) then TrimEnd(s[..|s| - 1]) else s
  }

  function Trim(s: string): string {
    TrimEnd(TrimStart(s))
  }

  /** `!name.trim()`: the trimmed name is the empty string. */
  predicate IsBlank(name: string) {
    Trim(name) == ""
  }

  /** A name is refused exactly when every one of its characters is whitespace. */
  lemma BlankIffAllWhitespace(name: string)
    ensures IsBlank(name) <==> forall i :: 0 <= i < |name| ==> IsTrimmable(name[i])
  {
    var t := TrimStart(name);
    if t != [] {
      assert !IsTrimmable(name[|name| - |t|]);
      assert TrimEnd(t) != [] by {
        assert !IsTrimmable(t[0]);
      }
    }
  }

  // ---------------------------------------------------------------------------
  // The list transformations behind the handlers

  /** The exercise `addExercise` creates: the given id and name and one blank set. */
  function NewExercise(id: string, name: string): Exercise {
    Exercise(id, name, [BlankSet])
  }

  /** `addSet`: every exercise with the id gains a trailing blank set. */
  function AddSetTo(exs: seq<Exercise>, id: string): seq<Exercise> {
    seq(|exs|, i requires 0 <= i < |exs| =>
      if exs[i].id == id then exs[i].(sets := exs[i].sets + [BlankSet]) else exs[i])
  }

  /** Which of a set's two numbers `updateSet` writes. */
  datatype SetField = Reps | Weight

  /** `{ ...set, [field]: value }` */
  function Assign(s: ExerciseSet, field: SetField, value: int): ExerciseSet {
    match field
    case Reps => s.(reps := value)
    case Weight => s.(weight := value)
  }

  /** `updateSet`: in every exercise with the id, the set at `index` gets `field` set to `value`. */
  function UpdateSetIn(exs: seq<Exercise>, id: string, index: int, field: SetField, value: int): seq<Exercise> {
    seq(|exs|, i requires 0 <= i < |exs| =>
      if exs[i].id == id then
        exs[i].(sets := seq(|exs[i].sets|, k requires 0 <= k < |exs[i].sets| =>
          if k == index then Assign(exs[i].sets[k], field, value) else exs[i].sets[k]))
      else exs[i])
  }

  /** `s.filter((_, idx) => idx !== index)`: drops the element at `index` if there is one. */
  function WithoutIndex<T>(s: seq<T>, index: int): (r: seq<T>)
    ensures 0 <= index < |s| ==>
      |r| == |s| - 1 &&
      (forall k :: 0 <= k < index ==> r[k] == s[k]) &&
      (forall k :: index <= k < |r| ==> r[k] == s[k + 1])
    ensures !(0 <= index < |s|) ==> r == s
  {
    if 0 <= index < |s| then s[..index] + s[index + 1..] else s
  }

  /** `removeSet`: in every exercise with the id, the set at `index` is dropped. */
  function RemoveSetFrom(exs: seq<Exercise>, id: string, index: int): seq<Exercise> {
    seq(|exs|, i requires 0 <= i < |exs| =>
      if exs[i].id == id then exs[i].(sets := WithoutIndex(exs[i].sets, index)) else exs[i])
  }

  /** `removeExercise`: the exercises whose id differs. */
  function RemoveExerciseFrom(exs: seq<Exercise>, id: string): seq<Exercise> {
    Filter(exs, (e: Exercise) => e.id != id)
  }

  predicate HasId(exs: seq<Exercise>, id: string) {
    exists i :: 0 <= i < |exs| && exs[i].id == id
  }

  // ---------------------------------------------------------------------------
  // What each transformation does

  lemma AddSetEffect(exs: seq<Exercise>, id: string)
    ensures var r := AddSetTo(exs, id);
      |r| == |exs| &&
      forall i :: 0 <= i < |exs| ==>
        r[i].id == exs[i].id && r[i].name == exs[i].name &&
        (exs[i].id == id ==> r[i].sets == exs[i].sets + [ExerciseSet(0, 0)]) &&
        (exs[i].id != id ==> r[i] == exs[i])
    ensures !HasId(exs, id) ==> AddSetTo(exs, id) == exs
    ensures AllHaveSets(exs) ==> AllHaveSets(AddSetTo(exs, id))
  {
  }

  lemma UpdateSetEffect(exs: seq<Exercise>, id: string, index: int, field: SetField, value: int)
    ensures var r := UpdateSetIn(exs, id, index, field, value);
      |r| == |exs| &&
      forall i :: 0 <= i < |exs| ==>
        r[i].id == exs[i].id && r[i].name == exs[i].name &&
        |r[i].sets| == |exs[i].sets| &&
        (exs[i].id != id ==> r[i] == exs[i]) &&
        forall k :: 0 <= k < |exs[i].sets| ==>
          var (was, now) := (exs[i].sets[k], r[i].sets[k]);
          if exs[i].id == id && k == index then
            (field == Reps ==> now.reps == value && now.weight == was.weight) &&
            (field == Weight ==> now.weight == value && now.reps == was.reps)
          else now == was
    ensures !HasId(exs, id) ==> UpdateSetIn(exs, id, index, field, value) == exs
    ensures (forall i :: 0 <= i < |exs| && exs[i].id == id ==> !(0 <= index < |exs[i].sets|)) ==>
      UpdateSetIn(exs, id, index, field, value) == exs
    ensures AllHaveSets(exs) ==> AllHaveSets(UpdateSetIn(exs, id, index, field, value))
  {
    var r := UpdateSetIn(exs, id, index, field, value);
    if forall i :: 0 <= i < |exs| && exs[i].id == id ==> !(0 <= index < |exs[i].sets|) {
      forall i | 0 <= i < |exs| ensures r[i] == exs[i] {
        if exs[i].id == id {
          assert r[i].sets == exs[i].sets;
        }
      }
    }
  }

  lemma RemoveSetEffect(exs: seq<Exercise>, id: string, index: int)
    ensures var r := RemoveSetFrom(exs, id, index);
      |r| == |exs| &&
      forall i :: 0 <= i < |exs| ==>
        r[i].id == exs[i].id && r[i].name == exs[i].name &&
        (exs[i].id == id && 0 <= index < |exs[i].sets| ==>
          r[i].sets == exs[i].sets[..index] + exs[i].sets[index + 1..]) &&
        (exs[i].id == id && !(0 <= index < |exs[i].sets|) ==> r[i] == exs[i]) &&
        (exs[i].id != id ==> r[i] == exs[i])
    ensures !HasId(exs, id) ==> RemoveSetFrom(exs, id, index) == exs
  {
  }

  /**
   * The "remove set" button of an exercise is disabled while it has one set, so
   * `removeSet` is only reached for an exercise with at least two.  The handler
   * acts on every exercise with the id, so the condition here is that every
   * exercise with the id has at least two sets: the gate when ids are unique.
   * Under it no exercise is left without sets.
   */
  lemma {:induction false} RemoveSetKeepsSets(exs: seq<Exercise>, id: string, index: int)
    requires AllHaveSets(exs)
    requires forall i :: 0 <= i < |exs| && exs[i].id == id ==> |exs[i].sets| > 1
    ensures AllHaveSets(RemoveSetFrom(exs, id, index))
  {
    var r := RemoveSetFrom(exs, id, index);
    forall i | 0 <= i < |r| ensures |r[i].sets| >= 1 {
      if exs[i].id == id {
        assert |r[i].sets| >= |exs[i].sets| - 1;
      }
    }
  }

  /**
   * With a repeated id the gate is not enough: the button of the first exercise
   * is enabled, and the second, sharing its id, loses its only set.
   */
  lemma RemoveSetSharedIdUngated()
    ensures var exs := [Exercise("1", "A", [BlankSet, BlankSet]), Exercise("1", "B", [BlankSet])];
      AllHaveSets(exs) && |exs[0].sets| > 1 && !AllHaveSets(RemoveSetFrom(exs, "1", 0))
  {
    var exs := [Exercise("1", "A", [BlankSet, BlankSet]), Exercise("1", "B", [BlankSet])];
    assert RemoveSetFrom(exs, "1", 0)[1].sets == [];
  }

  /** Without that gate the last set can go: one exercise with one set ends with none. */
  lemma RemoveLastSetUngated()
    ensures var exs := [NewExercise("1", "Squat")];
      AllHaveSets(exs) && !AllHaveSets(RemoveSetFrom(exs, "1", 0))
  {
    var exs := [NewExercise("1", "Squat")];
    assert RemoveSetFrom(exs, "1", 0)[0].sets == [];
  }

  lemma RemoveExerciseEffect(exs: seq<Exercise>, id: string)
    ensures var r := RemoveExerciseFrom(exs, id);
      forall e :: e in r <==> e in exs && e.id != id
    ensures forall a, b :: exs == a + b ==>
      RemoveExerciseFrom(exs, id) == RemoveExerciseFrom(a, id) + RemoveExerciseFrom(b, id)
    ensures !HasId(exs, id) ==> RemoveExerciseFrom(exs, id) == exs
    ensures RemoveExerciseFrom(RemoveExerciseFrom(exs, id), id) == RemoveExerciseFrom(exs, id)
    ensures AllHaveSets(exs) ==> AllHaveSets(RemoveExerciseFrom(exs, id))
  {
    var keep := (e: Exercise) => e.id != id;
    forall a, b | exs == a + b
      ensures RemoveExerciseFrom(exs, id) == RemoveExerciseFrom(a, id) + RemoveExerciseFrom(b, id)
    {
      FilterConcat(a, b, keep);
    }
    if !HasId(exs, id) {
      FilterAllKept(exs, keep);
    }
    FilterIdempotent(exs, keep);
    var r := RemoveExerciseFrom(exs, id);
    if AllHaveSets(exs) {
      forall i | 0 <= i < |r| ensures |r[i].sets| >= 1 {
        assert r[i] in exs;
      }
    }
  }

  // ---------------------------------------------------------------------------
  // The builder's state

  class Logger {
    /** The exercises of the workout being composed. */
    var exercises: seq<Exercise>
    /** The text of the exercise-name field. */
    var currentExercise: string

    constructor ()
      ensures exercises == [] && currentExercise == ""
    {
      exercises := [];
      currentExercise := "";
    }

    /** Typing into the name field. */
    method EditName(text: string)
      modifies this
      ensures currentExercise == text && exercises == old(exercises)
    {
      currentExercise := text;
    }

    /** `addExercise`; `freshId` stands for the clock-derived id. */
    method AddExercise(freshId: string)
      modifies this
      ensures IsBlank(old(currentExercise)) ==>
        exercises == old(exercises) && currentExercise == old(currentExercise)
      ensures !IsBlank(old(currentExercise)) ==>
        exercises == old(exercises) + [NewExercise(freshId, old(currentExercise))] &&
        currentExercise == ""
      ensures AllHaveSets(old(exercises)) ==> AllHaveSets(exercises)
    {
      if IsBlank(currentExercise) {
        return;
      }
      exercises := exercises + [NewExercise(freshId, currentExercise)];
      currentExercise := "";
    }

    method AddSet(id: string)
      modifies this
      ensures exercises == AddSetTo(old(exercises), id) && currentExercise == old(currentExercise)
    {
      exercises := AddSetTo(exercises, id);
    }

    method UpdateSet(id: string, index: int, field: SetField, value: int)
      modifies this
      ensures exercises == UpdateSetIn(old(exercises), id, index, field, value)
      ensures currentExercise == old(currentExercise)
    {
      exercises := UpdateSetIn(exercises, id, index, field, value);
    }

    method RemoveSet(id: string, index: int)
      modifies this
      ensures exercises == RemoveSetFrom(old(exercises), id, index)
      ensures currentExercise == old(currentExercise)
    {
      exercises := RemoveSetFrom(exercises, id, index);
    }

    method RemoveExercise(id: string)
      modifies this
      ensures exercises == RemoveExerciseFrom(old(exercises), id)
      ensures currentExercise == old(currentExercise)
    {
      exercises := RemoveExerciseFrom(exercises, id);
    }

    /**
     * `saveWorkout`: returns what is handed to the save callback, if anything.
     * With no exercises nothing is handed over and nothing changes; otherwise the
     * current list is handed over and the builder is cleared.
     */
    method SaveWorkout() returns (saved: Option<seq<Exercise>>)
      modifies this
      ensures old(exercises) == [] ==> saved == None && exercises == []
      ensures old(exercises) != [] ==> saved == Some(old(exercises)) && exercises == []
      ensures currentExercise == old(currentExercise)
    {
      if |exercises| == 0 {
        return None;
      }
      saved := Some(exercises);
      exercises := [];
    }
  }
}
