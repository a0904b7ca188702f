/**
 * Strings in the order Rust compares them, the stable sort over a string key,
 * and the removal of neighbours with equal keys.
 */
module Ordering {

  predicate Less(a: string, b: string) {
    b != "" && (a == "" || a[0] < b[0] || (a[0] == b[0] && Less(a[1..], b[1..])))
  }

  lemma {:induction false} LessIsTotal(a: string, b: string)
    ensures a == b || Less(a, b) || Less(b, a)
    ensures !(Less(a, b) && Less(b, a))
    ensures !Less(a, a)
  {
    if a != "" && b != "" {
      LessIsTotal(a[1..], b[1..]);
      assert a == [a[0]] + a[1..] && b == [b[0]] + b[1..];
    }
    if a != "" {
      LessIsIrreflexive(a[1..]);
    }
  }

  lemma {:induction false} LessIsIrreflexive(a: string)
    ensures !Less(a, a)
  {
    if a != "" {
      LessIsIrreflexive(a[1..]);
    }
  }

  lemma {:induction false} LessIsTransitive(a: string, b: string, c: string)
    requires Less(a, b) && Less(b, c)
    ensures Less(a, c)
  {
    if a != "" && a[0] == b[0] == c[0] {
      LessIsTransitive(a[1..], b[1..], c[1..]);
    }
  }

  /** `x` placed after every element whose key is not greater. */
  function Inserted<T>(key: T -> string, s: seq<T>, x: T): seq<T> {
    if s == [] || !Less(key(x), key(s[|s| - 1])) then s + [x]
    else Inserted(key, s[..|s| - 1], x) + [s[|s| - 1]]
  }

  /** A stable sort; it stands for the library's `sort_by`. */
  function SortedBy<T>(key: T -> string, s: seq<T>): seq<T> {
    if s == [] then [] else Inserted(key, SortedBy(key, s[..|s| - 1]), s[|s| - 1])
  }

  /** The first of each run of equal keys. */
  function DedupedBy<T>(key: T -> string, s: seq<T>): seq<T> {
    if s == [] then []
    else
      var init, last := DedupedBy(key, s[..|s| - 1]), s[|s| - 1];
      if init != [] && key(init[|init| - 1]) == key(last) then init else init + [last]
  }

  ghost predicate Ascending<T>(key: T -> string, s: seq<T>) {
    forall i, j :: 0 <= i < j < |s| ==> !Less(key(s[j]), key(s[i]))
  }

  ghost predicate StrictlyAscending<T>(key: T -> string, s: seq<T>) {
    forall i, j :: 0 <= i < j < |s| ==> Less(key(s[i]), key(s[j]))
  }

  lemma StrictHasNoRepeats<T>(key: T -> string, s: seq<T>)
    requires StrictlyAscending(key, s)
    ensures forall i, j :: 0 <= i < j < |s| ==> key(s[i]) != key(s[j])
  {
    forall i, j | 0 <= i < j < |s|
      ensures key(s[i]) != key(s[j])
    {
      LessIsIrreflexive(key(s[i]));
    }
  }

  lemma NotLessThrough(a: string, b: string, c: string)
    requires !Less(b, a) && !Less(c, b)
    ensures !Less(c, a)
  {
    LessIsTotal(a, b);
    LessIsTotal(b, c);
    LessIsTotal(a, c);
    if Less(a, b) && Less(b, c) {
      LessIsTransitive(a, b, c);
    }
  }

  /** The first element of `s` under the key, which a stable sort and a dedup keep. */
  function FirstUnder<T>(key: T -> string, s: seq<T>, k: string): seq<T> {
    if s == [] then []
    else
      var earlier := FirstUnder(key, s[..|s| - 1], k);
      if earlier != [] then earlier else if key(s[|s| - 1]) == k then [s[|s| - 1]] else []
  }

  // ---- what sorting and deduplication keep ------------------------------------------

  ghost predicate IsFirst<T>(key: T -> string, s: seq<T>, k: string, i: int) {
    0 <= i < |s| && key(s[i]) == k && forall j :: 0 <= j < i ==> key(s[j]) != k
  }

  lemma {:induction false} FirstUnderIs<T>(key: T -> string, s: seq<T>, k: string)
    ensures FirstUnder(key, s, k) == [] <==> forall i :: 0 <= i < |s| ==> key(s[i]) != k
    ensures FirstUnder(key, s, k) != [] ==> exists i :: IsFirst(key, s, k, i) && FirstUnder(key, s, k) == [s[i]]
  {
    if s == [] {
    } else {
      var init := s[..|s| - 1];
      FirstUnderIs(key, init, k);
      assert forall i :: 0 <= i < |init| ==> s[i] == init[i];
      if FirstUnder(key, init, k) != [] {
        var i :| IsFirst(key, init, k, i) && FirstUnder(key, init, k) == [init[i]];
        assert IsFirst(key, s, k, i);
      } else if key(s[|s| - 1]) == k {
        assert IsFirst(key, s, k, |s| - 1);
      }
    }
  }

  lemma FirstUnderAt<T>(key: T -> string, s: seq<T>, k: string, i: nat)
    requires IsFirst(key, s, k, i)
    ensures FirstUnder(key, s, k) == [s[i]]
  {
    FirstUnderIs(key, s, k);
    var j :| IsFirst(key, s, k, j) && FirstUnder(key, s, k) == [s[j]];
    assert i == j;
  }

  lemma {:induction false} InsertedMember<T>(key: T -> string, s: seq<T>, x: T, y: T)
    requires y in Inserted(key, s, x)
    ensures y in s || y == x
  {
    if s == [] || !Less(key(x), key(s[|s| - 1])) {
    } else {
      var init, last := s[..|s| - 1], s[|s| - 1];
      if y != last {
        InsertedMember(key, init, x, y);
      }
    }
  }

  lemma {:induction false} InsertedAscends<T>(key: T -> string, s: seq<T>, x: T)
    requires Ascending(key, s)
    ensures Ascending(key, Inserted(key, s, x))
  {
    if s == [] {
    } else if !Less(key(x), key(s[|s| - 1])) {
      forall i | 0 <= i < |s|
        ensures !Less(key(x), key(s[i]))
      {
        if i < |s| - 1 {
          NotLessThrough(key(s[i]), key(s[|s| - 1]), key(x));
        }
      }
    } else {
      var init, last := s[..|s| - 1], s[|s| - 1];
      InsertedAscends(key, init, x);
      LessIsTotal(key(x), key(last));
      var inserted := Inserted(key, init, x);
      forall j | 0 <= j < |inserted|
        ensures !Less(key(last), key(inserted[j]))
      {
        InsertedMember(key, init, x, inserted[j]);
        if inserted[j] in init {
          var i :| 0 <= i < |init| && init[i] == inserted[j];
          assert !Less(key(s[|s| - 1]), key(s[i]));
        }
      }
    }
  }

  lemma {:induction false} InsertedKeepsFirst<T>(key: T -> string, s: seq<T>, x: T, k: string)
    ensures FirstUnder(key, Inserted(key, s, x), k) == FirstUnder(key, s + [x], k)
  {
    assert (s + [x])[..|s|] == s;
    if s == [] || !Less(key(x), key(s[|s| - 1])) {
    } else {
      var init, last := s[..|s| - 1], s[|s| - 1];
      InsertedKeepsFirst(key, init, x, k);
      assert (init + [x])[..|init|] == init;
      assert (Inserted(key, init, x) + [last])[..|Inserted(key, init, x)|] == Inserted(key, init, x);
      LessIsIrreflexive(k);
    }
  }

  lemma {:induction false} SortedAscends<T>(key: T -> string, s: seq<T>)
    ensures Ascending(key, SortedBy(key, s))
  {
    if s == [] {
    } else {
      SortedAscends(key, s[..|s| - 1]);
      InsertedAscends(key, SortedBy(key, s[..|s| - 1]), s[|s| - 1]);
    }
  }

  lemma {:induction false} SortedKeepsFirst<T>(key: T -> string, s: seq<T>, k: string)
    ensures FirstUnder(key, SortedBy(key, s), k) == FirstUnder(key, s, k)
  {
    if s == [] {
    } else {
      var init, last := s[..|s| - 1], s[|s| - 1];
      SortedKeepsFirst(key, init, k);
      InsertedKeepsFirst(key, SortedBy(key, init), last, k);
      assert (SortedBy(key, init) + [last])[..|SortedBy(key, init)|] == SortedBy(key, init);
    }
  }

  lemma {:induction false} SortedIsPermutation<T>(key: T -> string, s: seq<T>)
    ensures multiset(SortedBy(key, s)) == multiset(s)
  {
    if s == [] {
    } else {
      var init, last := s[..|s| - 1], s[|s| - 1];
      SortedIsPermutation(key, init);
      InsertedIsPermutation(key, SortedBy(key, init), last);
      assert s == init + [last];
    }
  }

  lemma {:induction false} InsertedIsPermutation<T>(key: T -> string, s: seq<T>, x: T)
    ensures multiset(Inserted(key, s, x)) == multiset(s) + multiset{x}
  {
    if s == [] || !Less(key(x), key(s[|s| - 1])) {
    } else {
      InsertedIsPermutation(key, s[..|s| - 1], x);
      assert s == s[..|s| - 1] + [s[|s| - 1]];
    }
  }

  lemma {:induction false} DedupedAscends<T>(key: T -> string, s: seq<T>)
    requires Ascending(key, s)
    ensures StrictlyAscending(key, DedupedBy(key, s))
    ensures forall x :: x in DedupedBy(key, s) ==> x in s
    ensures s != [] ==> DedupedBy(key, s) != []
                        && key(DedupedBy(key, s)[|DedupedBy(key, s)| - 1]) == key(s[|s| - 1])
  {
    if s == [] {
    } else {
      var init, last := s[..|s| - 1], s[|s| - 1];
      assert s == init + [last];
      DedupedAscends(key, init);
      var kept := DedupedBy(key, init);
      if kept != [] && key(kept[|kept| - 1]) != key(last) {
        forall i | 0 <= i < |kept|
          ensures Less(key(kept[i]), key(last))
        {
          LastIsLess(key, kept, init, last, i);
        }
      }
    }
  }

  lemma LastIsLess<T>(key: T -> string, kept: seq<T>, init: seq<T>, last: T, i: nat)
    requires StrictlyAscending(key, kept) && Ascending(key, init + [last])
    requires i < |kept| && init != [] && key(kept[|kept| - 1]) == key(init[|init| - 1]) != key(last)
    ensures Less(key(kept[i]), key(last))
  {
    var top := key(init[|init| - 1]);
    assert (init + [last])[|init| - 1] == init[|init| - 1] && (init + [last])[|init|] == last;
    LessIsTotal(top, key(last));
    if i < |kept| - 1 {
      LessIsTransitive(key(kept[i]), top, key(last));
    }
  }

  lemma {:induction false} DedupedKeepsFirst<T>(key: T -> string, s: seq<T>, k: string)
    ensures FirstUnder(key, DedupedBy(key, s), k) == FirstUnder(key, s, k)
  {
    if s == [] {
    } else {
      var init, last := s[..|s| - 1], s[|s| - 1];
      DedupedKeepsFirst(key, init, k);
      var kept := DedupedBy(key, init);
      if kept != [] && key(kept[|kept| - 1]) == key(last) {
        FirstUnderIs(key, kept, k);
      } else {
        assert (kept + [last])[..|kept|] == kept;
      }
    }
  }

  /**
   * Sorting and then dropping equal neighbours leaves distinct keys in order, and
   * under every key the element that was given first.
   */
  lemma OneOfEachInOrder<T>(key: T -> string, s: seq<T>, k: string)
    ensures StrictlyAscending(key, DedupedBy(key, SortedBy(key, s)))
    ensures FirstUnder(key, DedupedBy(key, SortedBy(key, s)), k) == FirstUnder(key, s, k)
  {
    SortedAscends(key, s);
    DedupedAscends(key, SortedBy(key, s));
    SortedKeepsFirst(key, s, k);
    DedupedKeepsFirst(key, SortedBy(key, s), k);
  }

  /** An element ends up in the list exactly when it was the first given under its key. */
  lemma KeptExactlyFirst<T>(key: T -> string, s: seq<T>, x: T)
    ensures x in DedupedBy(key, SortedBy(key, s)) <==> exists i :: IsFirst(key, s, key(x), i) && s[i] == x
  {
    var kept := DedupedBy(key, SortedBy(key, s));
    OneOfEachInOrder(key, s, key(x));
    StrictHasNoRepeats(key, kept);
    if x in kept {
      var k :| 0 <= k < |kept| && kept[k] == x;
      assert IsFirst(key, kept, key(x), k);
      FirstUnderAt(key, kept, key(x), k);
      FirstUnderIs(key, s, key(x));
    }
    if i :| IsFirst(key, s, key(x), i) && s[i] == x {
      FirstUnderAt(key, s, key(x), i);
      FirstUnderIs(key, kept, key(x));
    }
  }

  ghost predicate DistinctKeys<T>(key: T -> string, s: seq<T>) {
    forall i, j :: 0 <= i < j < |s| ==> key(s[i]) != key(s[j])
  }

  lemma {:induction false} InsertedIsDistinct<T>(key: T -> string, s: seq<T>, x: T)
    requires DistinctKeys(key, s) && forall i :: 0 <= i < |s| ==> key(s[i]) != key(x)
    ensures DistinctKeys(key, Inserted(key, s, x))
  {
    if s == [] || !Less(key(x), key(s[|s| - 1])) {
    } else {
      var init, last := s[..|s| - 1], s[|s| - 1];
      InsertedIsDistinct(key, init, x);
      var inserted := Inserted(key, init, x);
      forall j | 0 <= j < |inserted|
        ensures key(inserted[j]) != key(last)
      {
        InsertedMember(key, init, x, inserted[j]);
      }
    }
  }

  /** Sorting distinct keys puts them in strictly ascending order. */
  lemma {:induction false} SortedDistinct<T>(key: T -> string, s: seq<T>)
    requires DistinctKeys(key, s)
    ensures StrictlyAscending(key, SortedBy(key, s)) && DistinctKeys(key, SortedBy(key, s))
  {
    var sorted := SortedBy(key, s);
    if s != [] {
      var init, last := s[..|s| - 1], s[|s| - 1];
      SortedDistinct(key, init);
      SortedIsPermutation(key, init);
      forall i | 0 <= i < |SortedBy(key, init)|
        ensures key(SortedBy(key, init)[i]) != key(last)
      {
        assert SortedBy(key, init)[i] in multiset(init);
      }
      InsertedIsDistinct(key, SortedBy(key, init), last);
    }
    SortedAscends(key, s);
    forall i, j | 0 <= i < j < |sorted|
      ensures Less(key(sorted[i]), key(sorted[j]))
    {
      LessIsTotal(key(sorted[i]), key(sorted[j]));
    }
  }
}
