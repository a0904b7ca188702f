/** Sequences without repetition. */
module Seqs {

  ghost predicate NoRepeats<T(!new)>(s: seq<T>) {
    forall i, j :: 0 <= i < j < |s| ==> s[i] != s[j]
  }

  function PushUnique<T(==)>(s: seq<T>, x: T): seq<T> {
    if x in s then s else s + [x]
  }

  lemma {:induction false} NoRepeatsCount<T(!new)>(s: seq<T>)
    requires NoRepeats(s)
    ensures |set x | x in s| == |s|
  {
    if s == [] {
      assert (set x | x in s) == {};
    } else {
      var init, last := s[..|s| - 1], s[|s| - 1];
      NoRepeatsCount(init);
      assert (set x | x in s) == (set x | x in init) + {last};
    }
  }

  lemma SubsetCount<T(!new)>(small: seq<T>, large: seq<T>)
    requires NoRepeats(small) && NoRepeats(large)
    requires forall x :: x in small ==> x in large
    ensures |small| <= |large|
  {
    NoRepeatsCount(small);
    NoRepeatsCount(large);
    var a, b := set x | x in small, set x | x in large;
    assert b == a + (b - a);
  }

  lemma ProperSubsetCount<T(!new)>(small: seq<T>, large: seq<T>, missing: T)
    requires NoRepeats(small) && NoRepeats(large)
    requires forall x :: x in small ==> x in large && x != missing
    requires missing in large
    ensures |small| < |large|
  {
    assert NoRepeats(small + [missing]);
    SubsetCount(small + [missing], large);
  }

  lemma {:induction false} SetOfCount<T(!new)>(s: seq<T>)
    ensures |set x | x in s| <= |s|
  {
    if s == [] {
      assert (set x | x in s) == {};
    } else {
      var init, last := s[..|s| - 1], s[|s| - 1];
      SetOfCount(init);
      assert (set x | x in s) == (set x | x in init) + {last};
    }
  }

  /** As many elements as positions: nothing repeats. */
  lemma {:induction false} CountedNoRepeats<T(!new)>(s: seq<T>)
    requires |set x | x in s| == |s|
    ensures NoRepeats(s)
  {
    if s == [] {
    } else {
      var init, last := s[..|s| - 1], s[|s| - 1];
      assert (set x | x in s) == (set x | x in init) + {last};
      SetOfCount(init);
      CountedNoRepeats(init);
    }
  }

  lemma WithOne<T(!new)>(s: seq<T>, k: nat)
    requires k < |s|
    ensures multiset(s) == multiset(s[..k] + s[k + 1..]) + multiset{s[k]}
  {
    assert s == s[..k] + [s[k]] + s[k + 1..];
  }

  /** A permutation with one element taken out of both. */
  lemma TakenOut<T(!new)>(a: seq<T>, b: seq<T>) returns (k: nat)
    requires a != [] && multiset(a) == multiset(b)
    ensures k < |b| && b[k] == a[|a| - 1]
    ensures multiset(a[..|a| - 1]) == multiset(b[..k] + b[k + 1..])
  {
    var n := |a| - 1;
    WithOne(a, n);
    assert a[..n] + a[n + 1..] == a[..n];
    assert a[n] in multiset(b);
    k :| 0 <= k < |b| && b[k] == a[n];
    WithOne(b, k);
    assert multiset(a[..n]) == multiset(a) - multiset{a[n]};
  }

  lemma {:induction false} OneOfEach<T(!new)>(s: seq<T>, x: T)
    requires NoRepeats(s)
    ensures multiset(s)[x] == if x in s then 1 else 0
  {
    if s != [] {
      var init, last := s[..|s| - 1], s[|s| - 1];
      OneOfEach(init, x);
      assert s == init + [last];
    }
  }

  lemma SameElements<T(!new)>(a: seq<T>, b: seq<T>)
    requires NoRepeats(a) && NoRepeats(b) && forall x :: x in a <==> x in b
    ensures multiset(a) == multiset(b)
  {
    forall x
      ensures multiset(a)[x] == multiset(b)[x]
    {
      OneOfEach(a, x);
      OneOfEach(b, x);
    }
  }

  lemma InitAndLast<T(!new)>(s: seq<T>)
    requires s != []
    ensures s == s[..|s| - 1] + [s[|s| - 1]]
  {
  }

  lemma InTheMiddle<T(!new)>(a: seq<T>, b: seq<T>, c: seq<T>, i: nat)
    requires i < |b|
    ensures (a + b + c)[|a| + i] == b[i]
  {
  }

  /** A permutation, element by element. */
  lemma {:induction false} MappedPermuted<T(!new), U(!new)>(f: T -> U, a: seq<T>, b: seq<T>, fa: seq<U>, fb: seq<U>)
    requires multiset(a) == multiset(b)
    requires |fa| == |a| && forall i :: 0 <= i < |a| ==> fa[i] == f(a[i])
    requires |fb| == |b| && forall i :: 0 <= i < |b| ==> fb[i] == f(b[i])
    ensures multiset(fa) == multiset(fb)
  {
    if a == [] {
      assert |multiset(b)| == 0;
    } else {
      var k := TakenOut(a, b);
      var rest := b[..k] + b[k + 1..];
      var n := |a| - 1;
      MappedPermuted(f, a[..n], rest, fa[..n], fb[..k] + fb[k + 1..]);
      WithOne(fa, n);
      assert fa[..n] + fa[n + 1..] == fa[..n];
      WithOne(fb, k);
    }
  }

  lemma AllPermuted<T(!new)>(p: T -> bool, a: seq<T>, b: seq<T>)
    requires multiset(a) == multiset(b) && forall i :: 0 <= i < |a| ==> p(a[i])
    ensures forall j :: 0 <= j < |b| ==> p(b[j])
  {
    forall j | 0 <= j < |b|
      ensures p(b[j])
    {
      assert b[j] in multiset(a);
    }
  }
}
