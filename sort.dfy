/**
 * The frequency table's entries and their ranking.  The statistics view sorts
 * `Array.from(frequency.entries())` with the comparator `(a, b) => b[1] - a[1]`;
 * `Array.prototype.sort` is stable, so this is a stable sort by descending
 * count, modelled here as an insertion sort.
 */
module EntrySort {
  import opened Seqs

  /** One `[name, count]` pair of the frequency map. */
  datatype Entry = Entry(name: string, count: int)

  /** No count is smaller than a later one. */
  predicate SortedByCount(s: seq<Entry>) {
    forall i, j :: 0 <= i < j < |s| ==> s[i].count >= s[j].count
  }

  /** The names of the entries, in order. */
  function Names(s: seq<Entry>): (r: seq<string>)
    ensures |r| == |s| && forall i :: 0 <= i < |s| ==> r[i] == s[i].name
  {
    seq(|s|, i requires 0 <= i < |s| => s[i].name)
  }

  /** No name occurs twice. */
  predicate DistinctNames(s: seq<Entry>) {
    Distinct(Names(s))
  }

  /** The entries with count `c`, in their order in `s`. */
  function WithCount(s: seq<Entry>, c: int): seq<Entry> {
    if s == [] then []
    else WithCount(s[..|s| - 1], c) + (if s[|s| - 1].count == c then [s[|s| - 1]] else [])
  }

  /**
   * Places `x` after every entry whose count is at least its own, moving only
   * entries with a strictly smaller count: the comparator is positive exactly
   * when the later entry's count is larger.
   */
  function Insert(t: seq<Entry>, x: Entry): (r: seq<Entry>)
    ensures multiset(r) == multiset(t) + multiset{x}
    ensures |r| == |t| + 1
  {
    if t == [] || t[|t| - 1].count >= x.count then t + [x]
    else
      assert t == t[..|t| - 1] + [t[|t| - 1]];
      Insert(t[..|t| - 1], x) + [t[|t| - 1]]
  }

  /** Insertion sort by descending count; the result is a permutation of the input. */
  function SortByCount(s: seq<Entry>): (r: seq<Entry>)
    ensures multiset(r) == multiset(s)
    ensures |r| == |s|
  {
    if s == [] then []
    else
      assert s == s[..|s| - 1] + [s[|s| - 1]];
      Insert(SortByCount(s[..|s| - 1]), s[|s| - 1])
  }

  lemma {:induction false} InsertSorted(t: seq<Entry>, x: Entry)
    requires SortedByCount(t)
    ensures SortedByCount(Insert(t, x))
  {
    if t == [] || t[|t| - 1].count >= x.count {
    } else {
      var init, last := t[..|t| - 1], t[|t| - 1];
      InsertSorted(init, x);
      var r0 := Insert(init, x);
      forall i | 0 <= i < |r0| ensures r0[i].count >= last.count {
        assert r0[i] in multiset(r0);
        if r0[i] != x {
          assert r0[i] in multiset(init);
          var k :| 0 <= k < |init| && init[k] == r0[i];
          assert t[k] == init[k];
        }
      }
    }
  }

  lemma {:induction false} SortSorted(s: seq<Entry>)
    ensures SortedByCount(SortByCount(s))
  {
    if s != [] {
      SortSorted(s[..|s| - 1]);
      InsertSorted(SortByCount(s[..|s| - 1]), s[|s| - 1]);
    }
  }

  lemma {:induction false} WithCountSnoc(s: seq<Entry>, y: Entry, c: int)
    ensures WithCount(s + [y], c) == WithCount(s, c) + (if y.count == c then [y] else [])
  {
    assert (s + [y])[..|s|] == s;
  }

  /** Inserting keeps the order among equal counts: `x` lands after the entries that share its count. */
  lemma {:induction false} InsertStable(t: seq<Entry>, x: Entry, c: int)
    requires SortedByCount(t)
    ensures WithCount(Insert(t, x), c) == WithCount(t, c) + (if x.count == c then [x] else [])
  {
    if t == [] || t[|t| - 1].count >= x.count {
      WithCountSnoc(t, x, c);
    } else {
      var init, last := t[..|t| - 1], t[|t| - 1];
      InsertStable(init, x, c);
      WithCountSnoc(Insert(init, x), last, c);
      assert t == init + [last];
      WithCountSnoc(init, last, c);
    }
  }

  /** The sort is stable: for every count, the entries with that count keep their order. */
  lemma {:induction false} SortStable(s: seq<Entry>, c: int)
    ensures WithCount(SortByCount(s), c) == WithCount(s, c)
  {
    if s != [] {
      var init, last := s[..|s| - 1], s[|s| - 1];
      SortStable(init, c);
      SortSorted(init);
      InsertStable(SortByCount(init), last, c);
    }
  }

  /** A permutation of entries with distinct names has distinct names. */
  lemma {:induction false} InsertDistinct(t: seq<Entry>, x: Entry)
    requires DistinctNames(t)
    requires forall i :: 0 <= i < |t| ==> t[i].name != x.name
    ensures DistinctNames(Insert(t, x))
  {
    if t == [] || t[|t| - 1].count >= x.count {
    } else {
      var init, last := t[..|t| - 1], t[|t| - 1];
      InsertDistinct(init, x);
      var r0 := Insert(init, x);
      forall i | 0 <= i < |r0| ensures r0[i].name != last.name {
        assert r0[i] in multiset(r0);
        if r0[i] != x {
          assert r0[i] in multiset(init);
          var k :| 0 <= k < |init| && init[k] == r0[i];
          assert t[k] == init[k];
        }
      }
    }
  }

  lemma {:induction false} SortDistinct(s: seq<Entry>)
    requires DistinctNames(s)
    ensures DistinctNames(SortByCount(s))
  {
    if s != [] {
      var init, last := s[..|s| - 1], s[|s| - 1];
      SortDistinct(init);
      var r0 := SortByCount(init);
      forall i | 0 <= i < |r0| ensures r0[i].name != last.name {
        assert r0[i] in multiset(r0);
        assert r0[i] in multiset(init);
        var k :| 0 <= k < |init| && init[k] == r0[i];
        assert s[k] == init[k];
      }
      InsertDistinct(r0, last);
    }
  }

  /** `slice(0, n)`: the first `n` entries, or all of them when there are fewer. */
  function Take(s: seq<Entry>, n: nat): (r: seq<Entry>)
    ensures |r| == if |s| < n then |s| else n
    ensures r <= s
  {
    if |s| < n then s else s[..n]
  }

  /** A prefix keeps a prefix of every count's entries. */
  lemma {:induction false} WithCountPrefix(s: seq<Entry>, m: nat, c: int)
    requires m <= |s|
    ensures WithCount(s[..m], c) <= WithCount(s, c)
  {
    if m < |s| {
      var init := s[..|s| - 1];
      assert s[..m] == init[..m];
      WithCountPrefix(init, m, c);
    } else {
      assert s[..m] == s;
    }
  }
}
