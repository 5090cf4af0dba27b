/**
 * The statistics view's computations over the stored workouts: four totals,
 * the exercise-frequency table and its top five.  Each `reduce` in the view is
 * a left fold, so the recursive definitions below peel off the LAST element.
 */
module WorkoutStats {
  import opened WorkoutModel
  import opened Seqs
  import opened EntrySort

  // ---------------------------------------------------------------------------
  // The totals

  /** `exercises.reduce((exSum, e) => exSum + e.sets.length, 0)` */
  function SetsIn(exs: seq<Exercise>): nat {
    if exs == [] then 0 else SetsIn(exs[..|exs| - 1]) + |exs[|exs| - 1].sets|
  }

  function SetVolume(s: ExerciseSet): int {
    s.reps * s.weight
  }

  /** `sets.reduce((setSum, set) => setSum + set.reps * set.weight, 0)` */
  function VolumeOfSets(sets: seq<ExerciseSet>): int {
    if sets == [] then 0 else VolumeOfSets(sets[..|sets| - 1]) + SetVolume(sets[|sets| - 1])
  }

  /** The middle fold of `totalVolume`, over one workout's exercises. */
  function VolumeIn(exs: seq<Exercise>): int {
    if exs == [] then 0 else VolumeIn(exs[..|exs| - 1]) + VolumeOfSets(exs[|exs| - 1].sets)
  }

  /** `totalExercises` */
  function TotalExercises(ws: seq<Workout>): nat {
    if ws == [] then 0 else TotalExercises(ws[..|ws| - 1]) + |ws[|ws| - 1].exercises|
  }

  /** `totalSets` */
  function TotalSets(ws: seq<Workout>): nat {
    if ws == [] then 0 else TotalSets(ws[..|ws| - 1]) + SetsIn(ws[|ws| - 1].exercises)
  }

  /** `totalVolume` */
  function TotalVolume(ws: seq<Workout>): int {
    if ws == [] then 0 else TotalVolume(ws[..|ws| - 1]) + VolumeIn(ws[|ws| - 1].exercises)
  }

  // ---------------------------------------------------------------------------
  // Flattened views, the reference the totals are measured against

  /** Every exercise of every workout, workout by workout: one element per (workout, exercise) pair. */
  function AllExercises(ws: seq<Workout>): (r: seq<Exercise>)
    ensures forall e :: e in r <==> exists i :: 0 <= i < |ws| && e in ws[i].exercises
  {
    if ws == [] then []
    else
      var init := ws[..|ws| - 1];
      assert forall i :: 0 <= i < |init| ==> init[i] == ws[i];
      AllExercises(init) + ws[|ws| - 1].exercises
  }

  /** Every set of every exercise, in order. */
  function AllSets(exs: seq<Exercise>): seq<ExerciseSet> {
    if exs == [] then [] else AllSets(exs[..|exs| - 1]) + exs[|exs| - 1].sets
  }

  lemma {:induction false} AllExercisesConcat(a: seq<Workout>, b: seq<Workout>)
    ensures AllExercises(a + b) == AllExercises(a) + AllExercises(b)
  {
    if b == [] {
      assert a + b == a;
    } else {
      var init := b[..|b| - 1];
      assert (a + b)[..|a + b| - 1] == a + init;
      AllExercisesConcat(a, init);
    }
  }

  lemma {:induction false} SetsInConcat(a: seq<Exercise>, b: seq<Exercise>)
    ensures SetsIn(a + b) == SetsIn(a) + SetsIn(b)
  {
    if b == [] {
      assert a + b == a;
    } else {
      assert (a + b)[..|a + b| - 1] == a + b[..|b| - 1];
      SetsInConcat(a, b[..|b| - 1]);
    }
  }

  lemma {:induction false} VolumeOfSetsConcat(a: seq<ExerciseSet>, b: seq<ExerciseSet>)
    ensures VolumeOfSets(a + b) == VolumeOfSets(a) + VolumeOfSets(b)
  {
    if b == [] {
      assert a + b == a;
    } else {
      assert (a + b)[..|a + b| - 1] == a + b[..|b| - 1];
      VolumeOfSetsConcat(a, b[..|b| - 1]);
    }
  }

  lemma {:induction false} VolumeInIsSumOverSets(exs: seq<Exercise>)
    ensures VolumeIn(exs) == VolumeOfSets(AllSets(exs))
  {
    if exs != [] {
      VolumeInIsSumOverSets(exs[..|exs| - 1]);
      VolumeOfSetsConcat(AllSets(exs[..|exs| - 1]), exs[|exs| - 1].sets);
    }
  }

  lemma {:induction false} AllSetsConcat(a: seq<Exercise>, b: seq<Exercise>)
    ensures AllSets(a + b) == AllSets(a) + AllSets(b)
  {
    if b == [] {
      assert a + b == a;
    } else {
      assert (a + b)[..|a + b| - 1] == a + b[..|b| - 1];
      AllSetsConcat(a, b[..|b| - 1]);
    }
  }

  /** `totalExercises` counts the (workout, exercise) pairs. */
  lemma {:induction false} TotalExercisesCountsPairs(ws: seq<Workout>)
    ensures TotalExercises(ws) == |AllExercises(ws)|
  {
    if ws != [] {
      TotalExercisesCountsPairs(ws[..|ws| - 1]);
    }
  }

  /** `totalExercises` is additive over concatenation of workout lists. */
  lemma TotalExercisesConcat(a: seq<Workout>, b: seq<Workout>)
    ensures TotalExercises(a + b) == TotalExercises(a) + TotalExercises(b)
  {
    TotalExercisesCountsPairs(a + b);
    TotalExercisesCountsPairs(a);
    TotalExercisesCountsPairs(b);
    AllExercisesConcat(a, b);
  }

  /** `totalSets` is the sum over all exercises of their number of sets. */
  lemma {:induction false} TotalSetsIsSumOverExercises(ws: seq<Workout>)
    ensures TotalSets(ws) == SetsIn(AllExercises(ws))
  {
    if ws != [] {
      TotalSetsIsSumOverExercises(ws[..|ws| - 1]);
      SetsInConcat(AllExercises(ws[..|ws| - 1]), ws[|ws| - 1].exercises);
    }
  }

  lemma {:induction false} SetsInAtLeastCount(exs: seq<Exercise>)
    requires AllHaveSets(exs)
    ensures SetsIn(exs) >= |exs|
  {
    if exs != [] {
      SetsInAtLeastCount(exs[..|exs| - 1]);
    }
  }

  lemma {:induction false} AllExercisesHaveSets(ws: seq<Workout>)
    requires forall i :: 0 <= i < |ws| ==> AllHaveSets(ws[i].exercises)
    ensures AllHaveSets(AllExercises(ws))
  {
    if ws != [] {
      AllExercisesHaveSets(ws[..|ws| - 1]);
    }
  }

  /** When every exercise has a set, there are at least as many sets as exercises. */
  lemma TotalSetsAtLeastExercises(ws: seq<Workout>)
    requires forall i :: 0 <= i < |ws| ==> AllHaveSets(ws[i].exercises)
    ensures TotalSets(ws) >= TotalExercises(ws)
  {
    AllExercisesHaveSets(ws);
    SetsInAtLeastCount(AllExercises(ws));
    TotalSetsIsSumOverExercises(ws);
    TotalExercisesCountsPairs(ws);
  }

  /** `totalVolume` is the sum over all sets of reps times weight. */
  lemma {:induction false} TotalVolumeIsSumOverSets(ws: seq<Workout>)
    ensures TotalVolume(ws) == VolumeOfSets(AllSets(AllExercises(ws)))
  {
    if ws != [] {
      var init, last := ws[..|ws| - 1], ws[|ws| - 1].exercises;
      TotalVolumeIsSumOverSets(init);
      VolumeInIsSumOverSets(last);
      AllSetsConcat(AllExercises(init), last);
      VolumeOfSetsConcat(AllSets(AllExercises(init)), AllSets(last));
    }
  }

  /** One exercise with sets of 10 x 100 and 8 x 100 has a volume of 1800. */
  lemma VolumeExample()
    ensures TotalVolume([Workout("w", Date(0), [Exercise("e", "Squat",
      [ExerciseSet(10, 100), ExerciseSet(8, 100)])])]) == 1800
  {
    var sets := [ExerciseSet(10, 100), ExerciseSet(8, 100)];
    var exs := [Exercise("e", "Squat", sets)];
    var ws := [Workout("w", Date(0), exs)];
    assert sets[..1][..0] == [];
    assert VolumeOfSets(sets) == 1800;
    assert exs[..0] == [];
    assert ws[..0] == [];
  }

  // ---------------------------------------------------------------------------
  // Exercise frequency

  /** How many exercises in `exs` have exactly the name `n` (no trimming, case-sensitive). */
  function NamedIn(exs: seq<Exercise>, n: string): nat {
    if exs == [] then 0
    else NamedIn(exs[..|exs| - 1], n) + (if exs[|exs| - 1].name == n then 1 else 0)
  }

  /** The number of (workout, exercise) pairs whose exercise is named `n`. */
  function Occurrences(ws: seq<Workout>, n: string): nat {
    NamedIn(AllExercises(ws), n)
  }

  /** The distinct names of `exs` in order of first appearance: the key order of the frequency map. */
  function FirstNames(exs: seq<Exercise>): seq<string> {
    if exs == [] then []
    else
      var keys := FirstNames(exs[..|exs| - 1]);
      if exs[|exs| - 1].name in keys then keys else keys + [exs[|exs| - 1].name]
  }

  /** Pairs each key with its count in `exs`. */
  function Entries(exs: seq<Exercise>, keys: seq<string>): (r: seq<Entry>)
    ensures |r| == |keys|
  {
    seq(|keys|, i requires 0 <= i < |keys| => Entry(keys[i], NamedIn(exs, keys[i])))
  }

  /** `Array.from(exerciseFrequency.entries())` */
  function FrequencyEntries(ws: seq<Workout>): seq<Entry> {
    var all := AllExercises(ws);
    Entries(all, FirstNames(all))
  }

  function SumCounts(s: seq<Entry>): int {
    if s == [] then 0 else SumCounts(s[..|s| - 1]) + s[|s| - 1].count
  }

  lemma {:induction false} NamedInPositive(exs: seq<Exercise>, n: string)
    ensures NamedIn(exs, n) > 0 <==> exists i :: 0 <= i < |exs| && exs[i].name == n
  {
    if exs != [] {
      var init := exs[..|exs| - 1];
      NamedInPositive(init, n);
      assert forall i :: 0 <= i < |init| ==> init[i] == exs[i];
    }
  }

  lemma {:induction false} FirstNamesMembers(exs: seq<Exercise>, n: string)
    ensures n in FirstNames(exs) <==> NamedIn(exs, n) > 0
  {
    if exs != [] {
      FirstNamesMembers(exs[..|exs| - 1], n);
    }
  }

  lemma {:induction false} FirstNamesDistinct(exs: seq<Exercise>)
    ensures Distinct(FirstNames(exs))
  {
    if exs != [] {
      FirstNamesDistinct(exs[..|exs| - 1]);
    }
  }

  /** Counting one more exercise adds one to the total of the keys' counts if its name is a key. */
  lemma {:induction false} SumCountsSnoc(exs: seq<Exercise>, e: Exercise, keys: seq<string>)
    requires Distinct(keys)
    ensures SumCounts(Entries(exs + [e], keys)) ==
      SumCounts(Entries(exs, keys)) + (if e.name in keys then 1 else 0)
  {
    if keys != [] {
      var init := keys[..|keys| - 1];
      assert (exs + [e])[..|exs|] == exs;
      assert Entries(exs + [e], keys)[..|init|] == Entries(exs + [e], init);
      assert Entries(exs, keys)[..|init|] == Entries(exs, init);
      SumCountsSnoc(exs, e, init);
      assert e.name in keys <==> e.name in init || e.name == keys[|keys| - 1];
    }
  }

  lemma {:induction false} EntriesSumToLength(exs: seq<Exercise>)
    ensures SumCounts(Entries(exs, FirstNames(exs))) == |exs|
  {
    if exs != [] {
      var init, e := exs[..|exs| - 1], exs[|exs| - 1];
      var keys := FirstNames(init);
      assert exs == init + [e];
      EntriesSumToLength(init);
      FirstNamesDistinct(init);
      SumCountsSnoc(init, e, keys);
      if e.name !in keys {
        FirstNamesMembers(init, e.name);
        assert Entries(exs, keys + [e.name])[..|keys|] == Entries(exs, keys);
      }
    }
  }

  /** The counts of the frequency table add up to `totalExercises`. */
  lemma FrequenciesSumToTotal(ws: seq<Workout>)
    ensures SumCounts(FrequencyEntries(ws)) == TotalExercises(ws)
  {
    EntriesSumToLength(AllExercises(ws));
    TotalExercisesCountsPairs(ws);
  }

  /** Some stored workout has an exercise named `n`. */
  predicate IsExerciseName(ws: seq<Workout>, n: string) {
    exists w, e :: w in ws && e in w.exercises && e.name == n
  }

  predicate HasEntry(f: seq<Entry>, n: string) {
    exists i :: 0 <= i < |f| && f[i].name == n
  }

  /**
   * The frequency table has one entry per distinct exercise name, each name
   * being some stored exercise's name, with the number of its occurrences.
   */
  lemma FrequencyEntriesSpec(ws: seq<Workout>)
    ensures var f := FrequencyEntries(ws);
      DistinctNames(f) &&
      (forall i :: 0 <= i < |f| ==> f[i].count == Occurrences(ws, f[i].name) >= 1) &&
      (forall n :: HasEntry(f, n) <==> IsExerciseName(ws, n))
  {
    var all := AllExercises(ws);
    var f := FrequencyEntries(ws);
    var keys := FirstNames(all);
    FirstNamesDistinct(all);
    forall i | 0 <= i < |f| ensures f[i].count >= 1 {
      FirstNamesMembers(all, keys[i]);
    }
    forall n ensures HasEntry(f, n) <==> IsExerciseName(ws, n) {
      FirstNamesMembers(all, n);
      NamedInPositive(all, n);
      if IsExerciseName(ws, n) {
        var w, e :| w in ws && e in w.exercises && e.name == n;
        var wi :| 0 <= wi < |ws| && ws[wi] == w;
        assert e in all;
        var k :| 0 <= k < |all| && all[k] == e;
        assert n in keys;
        var m :| 0 <= m < |keys| && keys[m] == n;
        assert f[m].name == n;
      }
      if HasEntry(f, n) {
        var m :| 0 <= m < |f| && f[m].name == n;
        assert keys[m] == n;
        var k :| 0 <= k < |all| && all[k].name == n;
        assert all[k] in all;
        var wi :| 0 <= wi < |ws| && all[k] in ws[wi].exercises;
        assert ws[wi] in ws;
      }
    }
  }

  /** An exercise name repeated within one workout counts once per occurrence. */
  lemma {:induction false} OccurrencesConcat(a: seq<Workout>, b: seq<Workout>, n: string)
    ensures Occurrences(a + b, n) == Occurrences(a, n) + Occurrences(b, n)
    ensures forall w :: Occurrences([w], n) == NamedIn(w.exercises, n)
  {
    AllExercisesConcat(a, b);
    NamedInConcat(AllExercises(a), AllExercises(b), n);
    forall w ensures Occurrences([w], n) == NamedIn(w.exercises, n) {
      assert [w][..|[w]| - 1] == [];
      assert AllExercises([w]) == [] + w.exercises;
      assert [] + w.exercises == w.exercises;
    }
  }

  lemma {:induction false} NamedInConcat(a: seq<Exercise>, b: seq<Exercise>, n: string)
    ensures NamedIn(a + b, n) == NamedIn(a, n) + NamedIn(b, n)
  {
    if b == [] {
      assert a + b == a;
    } else {
      assert (a + b)[..|a + b| - 1] == a + b[..|b| - 1];
      NamedInConcat(a, b[..|b| - 1], n);
    }
  }

  /**
   * `keys` (in insertion order) and `counts` are the frequency map after the
   * exercises `seen` have been counted.
   */
  ghost predicate Tallies(seen: seq<Exercise>, keys: seq<string>, counts: map<string, nat>) {
    keys == FirstNames(seen) &&
    (forall k :: k in counts <==> k in keys) &&
    (forall k :: k in counts ==> counts[k] == NamedIn(seen, k))
  }

  /** One `exerciseFrequency.set(name, (exerciseFrequency.get(name) || 0) + 1)`. */
  lemma TallyStep(seen: seq<Exercise>, keys: seq<string>, counts: map<string, nat>, e: Exercise)
    requires Tallies(seen, keys, counts)
    ensures var previous := if e.name in counts then counts[e.name] else 0;
      Tallies(seen + [e], if e.name in counts then keys else keys + [e.name],
        counts[e.name := previous + 1])
  {
    assert (seen + [e])[..|seen|] == seen;
    FirstNamesMembers(seen, e.name);
  }

  /** The inner `forEach`: counts one workout's exercises into the map. */
  method TallyExercises(exs: seq<Exercise>, keys: seq<string>, counts: map<string, nat>,
                        ghost seen: seq<Exercise>)
    returns (keys': seq<string>, counts': map<string, nat>)
    requires Tallies(seen, keys, counts)
    ensures Tallies(seen + exs, keys', counts')
  {
    keys', counts' := keys, counts;
    var j := 0;
    assert seen + exs[..0] == seen;
    while j < |exs|
      invariant 0 <= j <= |exs|
      invariant Tallies(seen + exs[..j], keys', counts')
    {
      var name := exs[j].name;
      var previous := if name in counts' then counts'[name] else 0;
      TallyStep(seen + exs[..j], keys', counts', exs[j]);
      if name !in counts' {
        keys' := keys' + [name];
      }
      counts' := counts'[name := previous + 1];
      assert seen + exs[..j + 1] == seen + exs[..j] + [exs[j]];
      j := j + 1;
    }
    assert exs[..j] == exs;
  }

  /**
   * The nested `forEach` loops that fill the frequency map, then `entries()`.
   * The map is kept as its keys in insertion order plus a map from key to count.
   */
  method ExerciseFrequency(ws: seq<Workout>) returns (entries: seq<Entry>)
    ensures entries == FrequencyEntries(ws)
  {
    var keys: seq<string> := [];
    var counts: map<string, nat> := map[];
    var i := 0;
    while i < |ws|
      invariant 0 <= i <= |ws|
      invariant Tallies(AllExercises(ws[..i]), keys, counts)
    {
      keys, counts := TallyExercises(ws[i].exercises, keys, counts, AllExercises(ws[..i]));
      assert ws[..i + 1][..i] == ws[..i];
      i := i + 1;
    }
    assert ws[..i] == ws;
    entries := seq(|keys|, k requires 0 <= k < |keys| => Entry(keys[k], counts[keys[k]]));
  }

  // ---------------------------------------------------------------------------
  // The top exercises

  /** How many entries the view ranks. */
  const TopCount: nat := 5

  /** `topExercises`: the frequency entries sorted by descending count, first five. */
  function TopExercises(ws: seq<Workout>): seq<Entry> {
    Take(SortByCount(FrequencyEntries(ws)), TopCount)
  }

  /**
   * The top list has min(5, number of distinct names) entries, sorted by
   * non-increasing count, each an entry of the frequency table, no name twice.
   */
  lemma TopExercisesShape(ws: seq<Workout>)
    ensures var top, f := TopExercises(ws), FrequencyEntries(ws);
      |top| == (if |f| < TopCount then |f| else TopCount) &&
      SortedByCount(top) &&
      DistinctNames(top) &&
      forall i :: 0 <= i < |top| ==> top[i] in f && top[i].count == Occurrences(ws, top[i].name)
  {
    var f := FrequencyEntries(ws);
    var sorted := SortByCount(f);
    var top := TopExercises(ws);
    FrequencyEntriesSpec(ws);
    SortSorted(f);
    SortDistinct(f);
    forall i | 0 <= i < |top| ensures top[i] in f {
      assert top[i] == sorted[i];
      assert sorted[i] in multiset(sorted);
    }
  }

  /**
   * Entries with equal counts come out in the order of the frequency table,
   * that is, in order of first appearance.
   */
  lemma TopExercisesTiesInFirstAppearanceOrder(ws: seq<Workout>, c: int)
    ensures WithCount(TopExercises(ws), c) <= WithCount(FrequencyEntries(ws), c)
  {
    var sorted := SortByCount(FrequencyEntries(ws));
    SortStable(FrequencyEntries(ws), c);
    if |sorted| >= TopCount {
      WithCountPrefix(sorted, TopCount, c);
    }
  }

  /**
   * The first entry, when there is one, has the largest count of all names
   * (the bar-width denominator), and a name left out of the list occurs no
   * more often than the fifth entry.
   */
  lemma TopExercisesAreTop(ws: seq<Workout>, n: string)
    ensures var top := TopExercises(ws);
      (|top| > 0 ==> Occurrences(ws, n) <= top[0].count) &&
      (Occurrences(ws, n) > 0 && (forall i :: 0 <= i < |top| ==> top[i].name != n) ==>
        |top| == TopCount && Occurrences(ws, n) <= top[TopCount - 1].count)
  {
    var f := FrequencyEntries(ws);
    var sorted := SortByCount(f);
    var all := AllExercises(ws);
    SortSorted(f);
    FrequencyEntriesSpec(ws);
    if |sorted| > 0 {
      assert sorted[0] in multiset(sorted);
    }
    if Occurrences(ws, n) > 0 {
      FirstNamesMembers(all, n);
      var keys := FirstNames(all);
      var k :| 0 <= k < |keys| && keys[k] == n;
      assert f[k] == Entry(n, Occurrences(ws, n));
      assert f[k] in multiset(sorted);
      var j :| 0 <= j < |sorted| && sorted[j] == f[k];
      if j >= TopCount {
        assert sorted[TopCount - 1].count >= sorted[j].count;
      }
    }
  }

  /** "Squat" in one workout and "Squat" and "Bench" in another. */
  const ExampleWorkouts := [
    Workout("1", Date(0), [Exercise("a", "Squat", [BlankSet])]),
    Workout("2", Date(0), [Exercise("b", "Squat", [BlankSet]), Exercise("c", "Bench", [BlankSet])])]

  lemma ExampleFlattened()
    ensures AllExercises(ExampleWorkouts) == ExampleWorkouts[0].exercises + ExampleWorkouts[1].exercises
  {
    var ws := ExampleWorkouts;
    assert ws[..1][..0] == [];
    assert AllExercises(ws[..1]) == [] + ws[0].exercises;
  }

  lemma ExampleCounted(x: Exercise, y: Exercise, z: Exercise)
    requires x.name == "Squat" && y.name == "Squat" && z.name == "Bench"
    ensures FirstNames([x, y, z]) == ["Squat", "Bench"]
    ensures NamedIn([x, y, z], "Squat") == 2 && NamedIn([x, y, z], "Bench") == 1
  {
    assert "Bench" != "Squat" by {
      assert "Bench"[0] != "Squat"[0];
    }
    assert [x, y, z][..2] == [x, y];
    assert [x, y][..1] == [x];
    assert [x][..0] == [];
    assert FirstNames([x]) == ["Squat"];
    assert FirstNames([x, y]) == ["Squat"];
    assert NamedIn([x], "Squat") == 1 && NamedIn([x], "Bench") == 0;
    assert NamedIn([x, y], "Squat") == 2 && NamedIn([x, y], "Bench") == 0;
  }

  lemma ExampleRanked(a: Entry, b: Entry)
    requires a.count >= b.count
    ensures SortByCount([a, b]) == [a, b]
  {
    assert [a, b][..1] == [a];
    assert [a][..0] == [];
  }

  /** The frequency table of that example is Squat 2, Bench 1, and so is the top list. */
  lemma TopExercisesExample()
    ensures FrequencyEntries(ExampleWorkouts) == [Entry("Squat", 2), Entry("Bench", 1)]
    ensures TopExercises(ExampleWorkouts) == [Entry("Squat", 2), Entry("Bench", 1)]
  {
    var ws := ExampleWorkouts;
    ExampleFlattened();
    var all := AllExercises(ws);
    assert all == [ws[0].exercises[0], ws[1].exercises[0], ws[1].exercises[1]];
    ExampleCounted(all[0], all[1], all[2]);
    ExampleRanked(Entry("Squat", 2), Entry("Bench", 1));
  }

  // ---------------------------------------------------------------------------
  // The view as a whole

  datatype Stats = Stats(
    totalWorkouts: int, totalExercises: int, totalSets: int, totalVolume: int,
    topExercises: seq<Entry>)

  /** Everything the statistics view computes, recomputed from the list it is given. */
  method ComputeStats(ws: seq<Workout>) returns (s: Stats)
    ensures s.totalWorkouts == |ws|
    ensures s.totalExercises == TotalExercises(ws) && s.totalSets == TotalSets(ws)
    ensures s.totalVolume == TotalVolume(ws)
    ensures s.topExercises == TopExercises(ws)
    ensures ws == [] ==> s == Stats(0, 0, 0, 0, [])
  {
    var frequency := ExerciseFrequency(ws);
    var ranked := SortByCount(frequency);
    s := Stats(|ws|, TotalExercises(ws), TotalSets(ws), TotalVolume(ws), Take(ranked, TopCount));
  }
}
