/** How the outline orders a course's lessons (`sorted` with the key
    `lesson_number`, default 0) and which lesson numbers it reports as missing. */
module LessonOrder {
  import opened VectorStore

  // ----- sorting -----

  /** The sort key `lesson.get('lesson_number', 0)`. An explicit `None` has no
      usable key; it only ever reaches the sort alone, where no comparison is made. */
  function SortKey(l: Lesson): int {
    match l.number
    case Number(n) => n
    case _ => 0
  }

  /** `sorted` raises a TypeError when it has to compare an explicit `None`: with
      two or more lessons every lesson takes part in some comparison. */
  predicate SortRaises(lessons: seq<Lesson>) {
    |lessons| >= 2 && exists l :: l in lessons && l.number.Null?
  }

  predicate SortedByKey(s: seq<Lesson>) {
    forall i, j :: 0 <= i < j < |s| ==> SortKey(s[i]) <= SortKey(s[j])
  }

  /** The lessons of `s` whose key is `k`, in their order in `s`. */
  function WithKey(s: seq<Lesson>, k: int): seq<Lesson> {
    if s == [] then [] else (if SortKey(s[0]) == k then [s[0]] else []) + WithKey(s[1..], k)
  }

  /** Puts `x` in front of the first lesson whose key is not smaller. */
  function Insert(x: Lesson, s: seq<Lesson>): seq<Lesson> {
    if s == [] then [x]
    else if SortKey(x) <= SortKey(s[0]) then [x] + s
    else [s[0]] + Insert(x, s[1..])
  }

  /** Python's stable `sorted(lessons, key=...)`, as an insertion sort. */
  function SortLessons(s: seq<Lesson>): seq<Lesson> {
    if s == [] then [] else Insert(s[0], SortLessons(s[1..]))
  }

  lemma {:induction false} InsertPermutes(x: Lesson, s: seq<Lesson>)
    ensures multiset(Insert(x, s)) == multiset(s) + multiset{x}
  {
    if s != [] && SortKey(x) > SortKey(s[0]) {
      InsertPermutes(x, s[1..]);
      assert s == [s[0]] + s[1..];
    }
  }

  lemma WithKeyCons(x: Lesson, s: seq<Lesson>, k: int)
    ensures WithKey([x] + s, k) == (if SortKey(x) == k then [x] else []) + WithKey(s, k)
  {
    assert ([x] + s)[0] == x && ([x] + s)[1..] == s;
  }

  lemma {:induction false} InsertKeepsKeyOrder(x: Lesson, s: seq<Lesson>, k: int)
    ensures WithKey(Insert(x, s), k) == (if SortKey(x) == k then [x] else []) + WithKey(s, k)
  {
    var xs := if SortKey(x) == k then [x] else [];
    if s == [] {
      WithKeyCons(x, [], k);
    } else if SortKey(x) <= SortKey(s[0]) {
      WithKeyCons(x, s, k);
    } else {
      var rest := Insert(x, s[1..]);
      var hs := if SortKey(s[0]) == k then [s[0]] else [];
      InsertKeepsKeyOrder(x, s[1..], k);
      WithKeyCons(s[0], rest, k);
      assert WithKey(Insert(x, s), k) == hs + (xs + WithKey(s[1..], k));
      assert hs == [] || xs == [];
      assert hs + xs == xs + hs;
      assert WithKey(s, k) == hs + WithKey(s[1..], k);
    }
  }

  /** In a sorted list the first key bounds every later one. */
  lemma HeadBoundsRest(s: seq<Lesson>)
    requires s != [] && SortedByKey(s)
    ensures forall e :: e in s[1..] ==> SortKey(s[0]) <= SortKey(e)
  {
    forall e | e in s[1..] ensures SortKey(s[0]) <= SortKey(e) {
      var j :| 0 <= j < |s[1..]| && s[1..][j] == e;
      assert s[j + 1] == e;
    }
  }

  /** Inserting a lesson keeps a lower bound that it and the list respect. */
  lemma InsertBounded(x: Lesson, s: seq<Lesson>, b: int)
    requires b <= SortKey(x)
    requires forall e :: e in s ==> b <= SortKey(e)
    ensures forall e :: e in Insert(x, s) ==> b <= SortKey(e)
  {
    InsertPermutes(x, s);
    forall e | e in Insert(x, s) ensures b <= SortKey(e) {
      assert e in multiset(Insert(x, s));
      if e != x {
        assert e in multiset(s);
      }
    }
  }

  /** A sorted list stays sorted behind a lesson whose key bounds all of it. */
  lemma ConsSorted(h: Lesson, rest: seq<Lesson>)
    requires SortedByKey(rest)
    requires forall e :: e in rest ==> SortKey(h) <= SortKey(e)
    ensures SortedByKey([h] + rest)
  {
    var r := [h] + rest;
    forall i, j | 0 <= i < j < |r| ensures SortKey(r[i]) <= SortKey(r[j]) {
      if i == 0 {
        assert r[j] in rest;
      } else {
        assert r[i] == rest[i - 1] && r[j] == rest[j - 1];
      }
    }
  }

  lemma {:induction false} InsertSorted(x: Lesson, s: seq<Lesson>)
    requires SortedByKey(s)
    ensures SortedByKey(Insert(x, s))
  {
    if s != [] && SortKey(x) > SortKey(s[0]) {
      var rest := Insert(x, s[1..]);
      assert SortedByKey(s[1..]) by {
        forall i, j | 0 <= i < j < |s[1..]| ensures SortKey(s[1..][i]) <= SortKey(s[1..][j]) {
          assert s[1..][i] == s[i + 1] && s[1..][j] == s[j + 1];
        }
      }
      InsertSorted(x, s[1..]);
      HeadBoundsRest(s);
      InsertBounded(x, s[1..], SortKey(s[0]));
      ConsSorted(s[0], rest);
    }
  }

  /** The sorted list is non-decreasing in the key, holds every lesson exactly
      once, and keeps lessons with equal keys in their input order. */
  lemma {:induction false} SortLessonsCorrect(s: seq<Lesson>)
    ensures SortedByKey(SortLessons(s))
    ensures multiset(SortLessons(s)) == multiset(s)
    ensures |SortLessons(s)| == |s|
    ensures forall k :: WithKey(SortLessons(s), k) == WithKey(s, k)
  {
    if s != [] {
      var rest := SortLessons(s[1..]);
      SortLessonsCorrect(s[1..]);
      InsertSorted(s[0], rest);
      InsertPermutes(s[0], rest);
      assert s == [s[0]] + s[1..];
      assert |SortLessons(s)| == |multiset(SortLessons(s))|;
      forall k ensures WithKey(SortLessons(s), k) == WithKey(s, k) {
        InsertKeepsKeyOrder(s[0], rest, k);
      }
    }
  }

  /** A single lesson sorts to itself, whatever its number. */
  lemma SortSingleton(l: Lesson)
    ensures SortLessons([l]) == [l]
  {
    assert [l][1..] == [];
  }

  // ----- gaps in the numbering -----

  /** The lesson numbers that are present (neither missing nor `None`), in order. */
  function Numbers(lessons: seq<Lesson>): seq<int> {
    if lessons == [] then []
    else (if lessons[0].number.Number? then [lessons[0].number.n] else []) + Numbers(lessons[1..])
  }

  function MinOf(s: seq<int>): int
    requires s != []
  {
    if |s| == 1 then s[0] else var m := MinOf(s[1..]); if s[0] <= m then s[0] else m
  }

  function MaxOf(s: seq<int>): int
    requires s != []
  {
    if |s| == 1 then s[0] else var m := MaxOf(s[1..]); if s[0] >= m then s[0] else m
  }

  lemma {:induction false} MinMaxBound(s: seq<int>)
    requires s != []
    ensures MinOf(s) in s && MaxOf(s) in s
    ensures forall x :: x in s ==> MinOf(s) <= x <= MaxOf(s)
  {
    if |s| > 1 {
      MinMaxBound(s[1..]);
      assert s == [s[0]] + s[1..];
    }
  }

  /** The integers of `lo..hi` (inclusive) not in `nums`, ascending. */
  function MissingBetween(nums: seq<int>, lo: int, hi: int): seq<int>
    decreases hi - lo
  {
    if lo > hi then [] else (if lo in nums then [] else [lo]) + MissingBetween(nums, lo + 1, hi)
  }

  /** `set(range(min, max + 1)) - set(numbers)`, sorted. */
  function Missing(nums: seq<int>): seq<int>
    requires nums != []
  {
    MissingBetween(nums, MinOf(nums), MaxOf(nums))
  }

  predicate StrictlyIncreasing(s: seq<int>) {
    forall i, j :: 0 <= i < j < |s| ==> s[i] < s[j]
  }

  lemma {:induction false} MissingBetweenCorrect(nums: seq<int>, lo: int, hi: int)
    ensures forall x :: x in MissingBetween(nums, lo, hi) <==> lo <= x <= hi && x !in nums
    ensures StrictlyIncreasing(MissingBetween(nums, lo, hi))
    decreases hi - lo
  {
    if lo <= hi {
      var rest := MissingBetween(nums, lo + 1, hi);
      MissingBetweenCorrect(nums, lo + 1, hi);
      var r := (if lo in nums then [] else [lo]) + rest;
      forall i, j | 0 <= i < j < |r| ensures r[i] < r[j] {
        if lo !in nums && i == 0 {
          assert r[j] in rest;
        } else if lo !in nums {
          assert r[i] == rest[i - 1] && r[j] == rest[j - 1];
        }
      }
    }
  }

  /** The missing lessons are exactly the integers between the smallest and the
      largest present number that are not present, listed in ascending order. */
  lemma MissingCorrect(nums: seq<int>)
    requires nums != []
    ensures forall x :: x in Missing(nums) <==> MinOf(nums) <= x <= MaxOf(nums) && x !in nums
    ensures StrictlyIncreasing(Missing(nums))
    ensures Missing(nums) == [] <==> forall x :: MinOf(nums) <= x <= MaxOf(nums) ==> x in nums
  {
    MissingBetweenCorrect(nums, MinOf(nums), MaxOf(nums));
    if Missing(nums) != [] {
      assert Missing(nums)[0] in Missing(nums);
    }
  }

  /** Two sample numberings: {1,2,4,5} misses 3 and
      {1,2,3} misses nothing. */
  lemma MissingExamples()
    ensures Missing([1, 2, 4, 5]) == [3]
    ensures Missing([1, 2, 3]) == []
  {
    var a, b := [1, 2, 4, 5], [1, 2, 3];
    assert MinOf(a) == 1 && MaxOf(a) == 5;
    assert MissingBetween(a, 5, 5) == [] && MissingBetween(a, 4, 5) == [];
    assert MissingBetween(a, 3, 5) == [3];
    assert MinOf(b) == 1 && MaxOf(b) == 3;
    assert MissingBetween(b, 3, 3) == [] && MissingBetween(b, 2, 3) == [];
  }
}
