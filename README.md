# Lift Tracker core, modelled in Dafny

This project models the logic of a small single-user React workout tracker.
A **set** is a rep count and a weight. An **exercise** is an identified, named list of sets.
A **workout** is an identified, dated list of exercises.
The model has three parts.

- **The builder** (`components/workout-logger.tsx`) holds the workout being composed and the text of the name field.
  Its six handlers are adding an exercise, adding, updating and removing a set, removing an exercise, and saving.
  Each handler replaces the list with a new list computed by `map`, `filter` or spread.
  `WorkoutLogger.Logger` is a class with those two fields.
  Each of its methods applies a pure function (`AddSetTo`, `UpdateSetIn`, `RemoveSetFrom`, `RemoveExerciseFrom`, `NewExercise`).
  The lemmas state what each function does to the list.
- **The repository** (`app/page.tsx`) holds the saved workouts, newest first.
  `addWorkout` puts a workout in front and `deleteWorkout` filters by id.
  `WorkoutTracker.Tracker` is a class with a `workouts` field.
  Its `SaveFrom` method is the builder's save handler with `addWorkout` as its callback.
- **The statistics view** (`components/workout-stats.tsx`) computes four totals as nested `reduce` folds.
  They are modelled as recursive functions that split off the last element, the way a left fold does.
  The view also fills an exercise-frequency `Map` with nested `forEach` loops.
  `WorkoutStats.ExerciseFrequency` is a loop over the workouts, and `WorkoutStats.TallyExercises` is the inner loop over one workout's exercises.
  It keeps the map's keys in insertion order next to a key→count map, and is proved to produce the declarative frequency table.
  The view then sorts the entries by descending count and keeps five.
  `Array.prototype.sort` is stable, so `EntrySort.SortByCount` is a stable insertion sort.
  Its stability is proved: among equal counts, entries keep the order of the frequency map.

Modules: `Wrappers` (Option), `Seqs` (a generic `Filter`), `WorkoutModel`, `WorkoutLogger`, `EntrySort`, `WorkoutStats`, `WorkoutTracker`.

In a few places the code behaves in ways one might not expect; the model follows the code:

- The values stored by `updateSet` come from `Number.parseInt(...) || 0`.
  A negative input such as `-5` gets through, so reps and weights are unconstrained integers, not non-negative ones.
- `removeSet` does not refuse to remove an exercise's last set.
  Only the disabled button (workout-logger.tsx:138) prevents it.
  The handler acts on every exercise with the id, while the button checks only the exercise it belongs to.
  `RemoveSetKeepsSets` assumes every exercise with the id has at least two sets, which is the gate when ids are unique.
  `RemoveLastSetUngated` shows the ungated case, and `RemoveSetSharedIdUngated` shows that the gate is not enough when two exercises share an id.
- Saving with no exercises raises no error. It simply does nothing: `SaveWorkout` returns `None` and leaves the state alone.
- The exercise frequency counts each (workout, exercise) occurrence.
  A name that appears twice in one workout counts twice.

## Model

| member | source | states |
|---|---|---|
| WorkoutLogger.TrimStart | components/workout-logger.tsx:20 | the result is the suffix of the input after its maximal run of leading ECMAScript whitespace |
| WorkoutLogger.TrimEnd | components/workout-logger.tsx:20 | the result is the prefix of the input before its maximal run of trailing ECMAScript whitespace |
| WorkoutLogger.BlankIffAllWhitespace | components/workout-logger.tsx:20 | a name is refused (`!name.trim()`) exactly when every character is whitespace |
| WorkoutLogger.Logger.constructor | components/workout-logger.tsx:16-17 | the builder starts with no exercises and an empty name field |
| WorkoutLogger.Logger.EditName | components/workout-logger.tsx:80 | typing sets the name field and leaves the exercises alone |
| WorkoutLogger.Logger.AddExercise | components/workout-logger.tsx:19-29 | a blank name changes nothing; otherwise exactly one exercise is appended, with the untrimmed name, the fresh id and one {0,0} set, and the field is reset to ""; no exercise is left without a set |
| WorkoutLogger.AddSetEffect | components/workout-logger.tsx:31-35 | same length and order; ids and names kept; each exercise with the id gains one trailing {0,0} set, every other is identical; an unknown id changes nothing; no exercise is left without a set |
| WorkoutLogger.Logger.AddSet | components/workout-logger.tsx:31-35 | the new list is `AddSetTo` of the old one; the name field is unchanged |
| WorkoutLogger.UpdateSetEffect | components/workout-logger.tsx:37-48 | only the chosen field of set `index` in the exercises with the id becomes `value`; the other field, the other sets, all set counts and the other exercises are unchanged; an unknown id or out-of-range index changes nothing |
| WorkoutLogger.Logger.UpdateSet | components/workout-logger.tsx:37-48 | the new list is `UpdateSetIn` of the old one |
| WorkoutLogger.WithoutIndex | components/workout-logger.tsx:53 | filtering by index drops exactly the element at an in-range index and keeps the rest in order; an out-of-range index changes nothing |
| WorkoutLogger.RemoveSetEffect | components/workout-logger.tsx:50-56 | in each exercise with the id, exactly set `index` is dropped when in range; otherwise, and for other exercises, nothing changes |
| WorkoutLogger.RemoveSetKeepsSets | components/workout-logger.tsx:138 | if every exercise with the id has more than one set (the button's gate, under unique ids), every exercise keeps at least one set |
| WorkoutLogger.RemoveSetSharedIdUngated | components/workout-logger.tsx:50-56 | with two exercises sharing an id, the gate passes for the first and the second loses its only set |
| WorkoutLogger.RemoveLastSetUngated | components/workout-logger.tsx:50-56 | the handler itself does not protect the last set: one exercise with one set ends with none |
| WorkoutLogger.Logger.RemoveSet | components/workout-logger.tsx:50-56 | the new list is `RemoveSetFrom` of the old one |
| WorkoutLogger.RemoveExerciseEffect | components/workout-logger.tsx:58-60 | exactly the exercises with other ids remain, in their relative order (filtering distributes over concatenation); an unknown id changes nothing; removing twice equals removing once; no exercise is left without a set |
| WorkoutLogger.Logger.RemoveExercise | components/workout-logger.tsx:58-60 | the new list is `RemoveExerciseFrom` of the old one |
| WorkoutLogger.Logger.SaveWorkout | components/workout-logger.tsx:62-66 | with no exercises nothing is handed over and nothing changes; otherwise exactly the current list is handed over and the builder is cleared |
| Seqs.Filter | components/workout-logger.tsx:59 | `filter` keeps exactly the elements that satisfy the predicate and never lengthens the list |
| Seqs.FilterConcat | app/page.tsx:38 | filtering distributes over concatenation, which is order preservation |
| Seqs.FilterAllKept | app/page.tsx:38 | when every element passes, filtering returns the list unchanged |
| WorkoutTracker.DeleteWorkoutEffect | app/page.tsx:37-39 | exactly the workouts with other ids remain, in their relative order; an absent id leaves the list identical; deleting twice equals deleting once |
| WorkoutTracker.Tracker.constructor | app/page.tsx:26 | the repository starts empty, so every stored workout is committable and has an exercise |
| WorkoutTracker.Tracker.AddWorkout | app/page.tsx:28-35 | the new workout, holding exactly the given exercises, is at index 0 and the previous workouts follow in order; the length grows by one; storing committable exercises keeps every stored workout committable, and storing a non-empty list keeps every stored workout non-empty |
| WorkoutTracker.Tracker.DeleteWorkout | app/page.tsx:37-39 | the new list is the old one filtered by id; every stored workout stays committable and non-empty |
| WorkoutTracker.Tracker.SaveFrom | app/page.tsx:78 | saving an empty builder changes nothing; otherwise the stored workout's exercises equal the builder's list just before the save, and the builder is cleared; because `saveWorkout` returns early on an empty list, every stored workout keeps at least one exercise whatever state the builder is in; stored workouts also keep no exercise missing a set, provided the builder's exercises all have a set |
| WorkoutTracker.AddWorkoutStats | app/page.tsx:34 | adding a workout in front adds its exercise count to `totalExercises` and its name occurrences to the frequency counts |
| WorkoutStats.AllExercises | components/workout-stats.tsx:30-31 | the flattened list holds exactly the exercises of the workouts |
| WorkoutStats.TotalExercisesCountsPairs | components/workout-stats.tsx:13 | `totalExercises` is the number of (workout, exercise) pairs |
| WorkoutStats.TotalExercisesConcat | components/workout-stats.tsx:13 | `totalExercises` is additive over concatenation of workout lists |
| WorkoutStats.TotalSetsIsSumOverExercises | components/workout-stats.tsx:14-17 | `totalSets` is the sum over all exercises of their number of sets |
| WorkoutStats.TotalSetsAtLeastExercises | components/workout-stats.tsx:14-17 | when every exercise has a set, `totalSets` is at least `totalExercises` |
| WorkoutStats.TotalVolumeIsSumOverSets | components/workout-stats.tsx:18-26 | `totalVolume` is the sum over all sets of reps × weight |
| WorkoutStats.VolumeExample | components/workout-stats.tsx:18-26 | one exercise with sets 10×100 and 8×100 has volume 1800 |
| WorkoutStats.ExerciseFrequency | components/workout-stats.tsx:29-34 | the nested loops over the insertion-ordered map produce the frequency table: each name once, in order of first appearance, with its number of occurrences |
| WorkoutStats.TallyExercises | components/workout-stats.tsx:31-33 | the inner loop counts one workout's exercises into the map, extending the key order with the names that are new |
| WorkoutStats.TallyStep | components/workout-stats.tsx:32 | one update of the map (the old count, or 0 when absent, plus 1) counts one more exercise, appending the name as a key only when it is new |
| WorkoutStats.FrequencyEntriesSpec | components/workout-stats.tsx:29-34 | the table's names are distinct; each count is that name's number of (workout, exercise) occurrences and is at least 1; a name has an entry exactly when some stored exercise has that name |
| WorkoutStats.OccurrencesConcat | components/workout-stats.tsx:29-34 | occurrences add up workout by workout, and within one workout every exercise with the name counts, duplicates included |
| WorkoutStats.FrequenciesSumToTotal | components/workout-stats.tsx:29-34 | the frequency counts add up to `totalExercises` |
| EntrySort.Insert | components/workout-stats.tsx:37 | an insertion step yields the old entries plus the new one, as a multiset |
| EntrySort.SortByCount | components/workout-stats.tsx:37 | the sort returns a permutation of its input |
| EntrySort.SortSorted | components/workout-stats.tsx:37 | the sort's result has non-increasing counts |
| EntrySort.SortStable | components/workout-stats.tsx:37 | the sort is stable: for every count, the entries with that count keep their input order |
| EntrySort.SortDistinct | components/workout-stats.tsx:37 | sorting entries with distinct names gives entries with distinct names |
| EntrySort.Take | components/workout-stats.tsx:38 | `slice(0, n)` is a prefix of length min(n, length) |
| WorkoutStats.TopExercisesShape | components/workout-stats.tsx:36-38 | the top list has min(5, number of distinct names) entries, non-increasing counts and distinct names, and each entry is an entry of the frequency table |
| WorkoutStats.TopExercisesTiesInFirstAppearanceOrder | components/workout-stats.tsx:36-38 | entries with equal counts appear in the top list in the frequency table's order, that is, in order of first appearance |
| WorkoutStats.TopExercisesAreTop | components/workout-stats.tsx:36-38 | the first entry has the largest count of any name; a name missing from a list of five occurs no more often than the fifth entry |
| WorkoutStats.TopExercisesExample | components/workout-stats.tsx:29-38 | Squat in one workout and Squat and Bench in another give the table Squat 2, Bench 1 and the same top list |
| WorkoutLogger.Trim | components/workout-logger.tsx:20 | `trim`, leading then trailing whitespace removed; see `TrimStart`, `TrimEnd` |
| WorkoutLogger.IsBlank | components/workout-logger.tsx:20 | `!name.trim()`; characterised by `BlankIffAllWhitespace` |
| WorkoutLogger.IsTrimmable | components/workout-logger.tsx:20 | the characters `trim` removes (ECMAScript WhiteSpace and LineTerminator); see `TrimStart`, `TrimEnd`, `BlankIffAllWhitespace` |
| WorkoutLogger.NewExercise | components/workout-logger.tsx:22-26 | the object literal of `addExercise`: the given id and name with one blank set; see `Logger.AddExercise` |
| WorkoutLogger.Assign | components/workout-logger.tsx:43 | `{ ...set, [field]: value }`; see `UpdateSetEffect` |
| WorkoutLogger.AddSetTo | components/workout-logger.tsx:33 | the `map` of `addSet`; characterised by `AddSetEffect` |
| WorkoutLogger.UpdateSetIn | components/workout-logger.tsx:39-46 | the nested `map` of `updateSet`; characterised by `UpdateSetEffect` |
| WorkoutLogger.RemoveSetFrom | components/workout-logger.tsx:52-54 | the `map` and index `filter` of `removeSet`; characterised by `RemoveSetEffect` |
| WorkoutLogger.RemoveExerciseFrom | components/workout-logger.tsx:59 | the `filter` of `removeExercise`; characterised by `RemoveExerciseEffect` |
| WorkoutTracker.WithoutWorkout | app/page.tsx:38 | the `filter` of `deleteWorkout`; characterised by `DeleteWorkoutEffect` |
| WorkoutStats.TotalExercises | components/workout-stats.tsx:13 | the `reduce` for `totalExercises`; see `TotalExercisesCountsPairs`, `TotalExercisesConcat` |
| WorkoutStats.TotalSets | components/workout-stats.tsx:14-17 | the nested `reduce` for `totalSets`; see `TotalSetsIsSumOverExercises` |
| WorkoutStats.TotalVolume | components/workout-stats.tsx:18-26 | the triple `reduce` for `totalVolume`; see `TotalVolumeIsSumOverSets` |
| WorkoutStats.SetsIn | components/workout-stats.tsx:15 | the inner `reduce` of set counts; see `TotalSetsIsSumOverExercises`, `SetsInAtLeastCount` |
| WorkoutStats.SetVolume | components/workout-stats.tsx:22 | `set.reps * set.weight`; see `TotalVolumeIsSumOverSets`, `VolumeExample` |
| WorkoutStats.VolumeOfSets | components/workout-stats.tsx:22 | the innermost `reduce` over one exercise's sets; see `TotalVolumeIsSumOverSets` |
| WorkoutStats.VolumeIn | components/workout-stats.tsx:21-24 | the middle `reduce` over one workout's exercises; see `TotalVolumeIsSumOverSets` |
| WorkoutStats.FirstNames | components/workout-stats.tsx:29-34 | the Map's keys in insertion order (first appearance); see `FirstNamesMembers`, `FirstNamesDistinct`, `ExerciseFrequency` |
| WorkoutStats.SetsInAtLeastCount | components/workout-stats.tsx:15 | when every exercise has a set, the set count is at least the number of exercises |
| WorkoutStats.FirstNamesMembers | components/workout-stats.tsx:29-34 | a name is a key of the Map exactly when some exercise has that name |
| WorkoutStats.FirstNamesDistinct | components/workout-stats.tsx:29-34 | the Map's keys are distinct |
| WorkoutStats.FrequencyEntries | components/workout-stats.tsx:29-34 | the frequency table in key order; see `FrequencyEntriesSpec`, `FrequenciesSumToTotal` |
| WorkoutStats.TopExercises | components/workout-stats.tsx:36-38 | sort then `slice(0, 5)`; see `TopExercisesShape`, `TopExercisesAreTop` |
| WorkoutStats.ComputeStats | components/workout-stats.tsx:12-38 | the view's numbers are the workout count, the three totals and the top list, all zero or empty for no workouts |

## Left out

- Rendering: the JSX, the styling, the icons and the tab layout are not modelled. Neither is `components/workout-history.tsx`, which only displays workouts and formats their dates.
- Clock: `Date.now().toString()` ids and `new Date()` timestamps are not modelled. Each becomes a parameter (`freshId`, `now`), and a `Date` is never looked into.
- Ids: they are not assumed unique. Like the code, the handlers act on every exercise or workout that carries the id.
- Parsing: `Number.parseInt(...) || 0` is not modelled. A set's reps and weight are arbitrary integers, which includes the negatives the code lets through.
- Number format: JavaScript numbers are doubles, but the model uses unbounded integers. It does not model the loss of precision past 2^53, nor a fractional `setIndex` (which matches no set).
- Bar width: `(count / topExercises[0][1]) * 100` (workout-stats.tsx:125) is floating-point display arithmetic and is not modelled. `TopExercisesAreTop` proves that its denominator is the largest count.
- Number display: `toLocaleString` is locale formatting and is not modelled.
- React: the state hooks, their batching and the input events are not modelled. Each handler runs to completion on the current state before the next one.
- Sort in place: `EntrySort.SortByCount` works on values, not in place on an array. The array the view sorts is a fresh copy made by `Array.from`, so nothing else can observe it being reordered.
- Computing the statistics twice on the same list gives the same result because the functions are pure. No lemma states this.
- Strings: Dafny strings are sequences of Unicode scalar values, while JavaScript strings are UTF-16 code units, so a lone surrogate cannot be represented. Nothing here depends on it: every character `trim` strips is in the Basic Multilingual Plane, and names are only compared for equality.
