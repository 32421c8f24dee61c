/** Ordered collections of rows: the pandas operations the pipeline
    applies to whole tables, on sequences. */
module Seqs {

  /** `xs[:n]` (pandas `head(n)`): the first `n` elements, or all of them. */
  function Take<T>(xs: seq<T>, n: nat): (r: seq<T>)
    ensures r <= xs && |r| == if n <= |xs| then n else |xs|
  {
    if n <= |xs| then xs[..n] else xs
  }

  /** The elements of `xs` that satisfy `p`, in their original order
      (a boolean-mask selection). */
  function Filter<T(==)>(xs: seq<T>, p: T -> bool): (r: seq<T>)
    ensures |r| <= |xs|
    ensures forall i :: 0 <= i < |r| ==> r[i] in xs && p(r[i])
    ensures forall i :: 0 <= i < |xs| && p(xs[i]) ==> xs[i] in r
  {
    if xs == [] then []
    else if p(xs[0]) then [xs[0]] + Filter(xs[1..], p)
    else Filter(xs[1..], p)
  }

  /** `a` is obtained from `b` by deleting elements (order kept). */
  predicate IsSubseq<T(==)>(a: seq<T>, b: seq<T>)
    decreases |b|
  {
    if a == [] then true
    else if b == [] then false
    else if a[0] == b[0] then IsSubseq(a[1..], b[1..])
    else IsSubseq(a, b[1..])
  }

  lemma {:induction false} SubseqRefl<T>(a: seq<T>)
    ensures IsSubseq(a, a)
  {
    if a != [] {
      SubseqRefl(a[1..]);
    }
  }

  lemma {:induction false} SubseqDropFirst<T>(a: seq<T>, b: seq<T>)
    requires a != [] && IsSubseq(a, b)
    ensures IsSubseq(a[1..], b)
    decreases |b|, 1
  {
    if a[0] == b[0] {
      SubseqDropSecond(a[1..], b);
    } else {
      SubseqDropFirst(a, b[1..]);
      SubseqDropSecond(a[1..], b);
    }
  }

  /** A subsequence of the tail is a subsequence of the whole. */
  lemma {:induction false} SubseqDropSecond<T>(a: seq<T>, b: seq<T>)
    requires b != [] && IsSubseq(a, b[1..])
    ensures IsSubseq(a, b)
    decreases |b|, 0
  {
    if a != [] && a[0] == b[0] {
      SubseqDropFirst(a, b[1..]);
    }
  }

  lemma {:induction false} SubseqTrans<T>(a: seq<T>, b: seq<T>, c: seq<T>)
    requires IsSubseq(a, b) && IsSubseq(b, c)
    ensures IsSubseq(a, c)
    decreases |c|
  {
    if a == [] {
    } else if b[0] == c[0] {
      if a[0] == b[0] {
        SubseqTrans(a[1..], b[1..], c[1..]);
      } else {
        SubseqTrans(a, b[1..], c[1..]);
      }
    } else {
      SubseqTrans(a, b, c[1..]);
      if a[0] == c[0] {
        SubseqDropFirst(a, c[1..]);
      }
    }
  }

  /** A selection keeps the order of the rows it keeps. */
  lemma {:induction false} FilterSubseq<T>(xs: seq<T>, p: T -> bool)
    ensures IsSubseq(Filter(xs, p), xs)
  {
    if xs != [] {
      FilterSubseq(xs[1..], p);
      if !p(xs[0]) {
        SubseqDropSecond(Filter(xs[1..], p), xs);
      }
    }
  }

  /** Keep-first de-duplication (pandas `drop_duplicates(column)`), with
      the keys already seen in `seen`. */
  function DedupFrom<T(==), K(==)>(xs: seq<T>, key: T -> K, seen: set<K>): (r: seq<T>)
    ensures |r| <= |xs|
  {
    if xs == [] then []
    else if key(xs[0]) in seen then DedupFrom(xs[1..], key, seen)
    else [xs[0]] + DedupFrom(xs[1..], key, seen + {key(xs[0])})
  }

  /** `drop_duplicates` on the column `key`, keeping each first occurrence. */
  function DedupBy<T(==), K(==)>(xs: seq<T>, key: T -> K): seq<T>
  {
    DedupFrom(xs, key, {})
  }

  /** No element before index `i` has the key of `xs[i]`. */
  predicate FirstOfKey<T, K(==)>(xs: seq<T>, key: T -> K, i: int)
    requires 0 <= i < |xs|
  {
    forall j :: 0 <= j < i ==> key(xs[j]) != key(xs[i])
  }

  /** De-duplication keeps the order of the rows it keeps. */
  lemma {:induction false} DedupFromSubseq<T, K>(xs: seq<T>, key: T -> K, seen: set<K>)
    ensures IsSubseq(DedupFrom(xs, key, seen), xs)
  {
    if xs != [] {
      var seen' := if key(xs[0]) in seen then seen else seen + {key(xs[0])};
      DedupFromSubseq(xs[1..], key, seen');
      if key(xs[0]) in seen {
        SubseqDropSecond(DedupFrom(xs[1..], key, seen'), xs);
      }
    }
  }

  /** Every kept row has a key not seen before, and the kept keys are
      pairwise distinct. */
  lemma {:induction false} DedupFromDistinct<T, K>(xs: seq<T>, key: T -> K, seen: set<K>)
    ensures forall k :: 0 <= k < |DedupFrom(xs, key, seen)| ==> key(DedupFrom(xs, key, seen)[k]) !in seen
    ensures forall i, j :: 0 <= i < j < |DedupFrom(xs, key, seen)| ==>
              key(DedupFrom(xs, key, seen)[i]) != key(DedupFrom(xs, key, seen)[j])
  {
    if xs != [] {
      var h := xs[0];
      var seen' := if key(h) in seen then seen else seen + {key(h)};
      DedupFromDistinct(xs[1..], key, seen');
      var rt := DedupFrom(xs[1..], key, seen');
      var r := DedupFrom(xs, key, seen);
      if key(h) in seen {
        assert r == rt;
        assert seen' == seen;
      } else {
        assert r == [h] + rt;
        forall k | 0 <= k < |r| ensures key(r[k]) !in seen {
          if k > 0 {
            assert r[k] == rt[k - 1];
          }
        }
        forall i, j | 0 <= i < j < |r| ensures key(r[i]) != key(r[j]) {
          assert r[j] == rt[j - 1];
          assert key(rt[j - 1]) !in seen';
          assert key(rt[j - 1]) != key(h);
          if i > 0 {
            assert r[i] == rt[i - 1];
            assert 0 <= i - 1 < j - 1 < |rt|;
            assert key(rt[i - 1]) != key(rt[j - 1]);
          }
        }
      }
    }
  }

  /** The first occurrence of every key not seen before is kept. */
  lemma {:induction false} DedupFromKeepsFirst<T, K>(xs: seq<T>, key: T -> K, seen: set<K>, i: int)
    requires 0 <= i < |xs| && key(xs[i]) !in seen && FirstOfKey(xs, key, i)
    ensures xs[i] in DedupFrom(xs, key, seen)
  {
    var h, t := xs[0], xs[1..];
    var seen' := if key(h) in seen then seen else seen + {key(h)};
    if i > 0 {
      assert key(h) != key(xs[i]);
      assert t[i - 1] == xs[i];
      forall j | 0 <= j < i - 1 ensures key(t[j]) != key(t[i - 1]) {
        assert key(xs[j + 1]) != key(xs[i]);
      }
      DedupFromKeepsFirst(t, key, seen', i - 1);
    }
  }

  /** Only first occurrences are kept. */
  lemma {:induction false} DedupFromOnlyFirst<T, K>(xs: seq<T>, key: T -> K, seen: set<K>, k: int)
    requires 0 <= k < |DedupFrom(xs, key, seen)|
    ensures exists i :: 0 <= i < |xs| && xs[i] == DedupFrom(xs, key, seen)[k] && FirstOfKey(xs, key, i)
  {
    var h, t := xs[0], xs[1..];
    var seen' := if key(h) in seen then seen else seen + {key(h)};
    var rt := DedupFrom(t, key, seen');
    var r := DedupFrom(xs, key, seen);
    if key(h) !in seen && k == 0 {
      assert xs[0] == r[0] && FirstOfKey(xs, key, 0);
    } else {
      var k' := if key(h) in seen then k else k - 1;
      assert r[k] == rt[k'];
      DedupFromOnlyFirst(t, key, seen', k');
      DedupFromDistinct(t, key, seen');
      var i :| 0 <= i < |t| && t[i] == rt[k'] && FirstOfKey(t, key, i);
      if key(h) in seen {
        assert key(rt[k']) !in seen;
      } else {
        assert key(rt[k']) !in seen';
      }
      forall j | 0 <= j < i + 1 ensures key(xs[j]) != key(xs[i + 1]) {
        if j > 0 {
          assert key(t[j - 1]) != key(t[i]);
        }
      }
      assert xs[i + 1] == r[k] && FirstOfKey(xs, key, i + 1);
    }
  }

  /** De-duplication only keeps elements of the input. */
  lemma {:induction false} DedupFromMembers<T, K>(xs: seq<T>, key: T -> K, seen: set<K>)
    ensures forall k :: 0 <= k < |DedupFrom(xs, key, seen)| ==> DedupFrom(xs, key, seen)[k] in xs
  {
    if xs != [] {
      var seen' := if key(xs[0]) in seen then seen else seen + {key(xs[0])};
      DedupFromMembers(xs[1..], key, seen');
      forall k | 0 <= k < |DedupFrom(xs[1..], key, seen')|
        ensures DedupFrom(xs[1..], key, seen')[k] in xs
      {
        var x := DedupFrom(xs[1..], key, seen')[k];
        var j :| 0 <= j < |xs[1..]| && xs[1..][j] == x;
        assert xs[j + 1] == x;
      }
    }
  }

  /** What `drop_duplicates` keeps: exactly the first occurrence of every
      key, in the original order, with pairwise distinct keys. */
  lemma DedupBySpec<T, K>(xs: seq<T>, key: T -> K)
    ensures IsSubseq(DedupBy(xs, key), xs)
    ensures forall i :: 0 <= i < |xs| && FirstOfKey(xs, key, i) ==> xs[i] in DedupBy(xs, key)
    ensures forall k :: 0 <= k < |DedupBy(xs, key)| ==>
              exists i :: 0 <= i < |xs| && xs[i] == DedupBy(xs, key)[k] && FirstOfKey(xs, key, i)
    ensures forall i, j :: 0 <= i < j < |DedupBy(xs, key)| ==> key(DedupBy(xs, key)[i]) != key(DedupBy(xs, key)[j])
  {
    DedupFromSubseq(xs, key, {});
    DedupFromDistinct(xs, key, {});
    forall i | 0 <= i < |xs| && FirstOfKey(xs, key, i) ensures xs[i] in DedupBy(xs, key) {
      DedupFromKeepsFirst(xs, key, {}, i);
    }
    forall k | 0 <= k < |DedupBy(xs, key)|
      ensures exists i :: 0 <= i < |xs| && xs[i] == DedupBy(xs, key)[k] && FirstOfKey(xs, key, i)
    {
      DedupFromOnlyFirst(xs, key, {}, k);
    }
  }

  /** Selecting from a sequence with one more element at the end. */
  lemma {:induction false} FilterSnoc<T>(xs: seq<T>, x: T, p: T -> bool)
    ensures Filter(xs + [x], p) == Filter(xs, p) + (if p(x) then [x] else [])
  {
    if xs == [] {
      assert [x][1..] == [];
    } else {
      assert (xs + [x])[1..] == xs[1..] + [x];
      FilterSnoc(xs[1..], x, p);
    }
  }

  /** When exactly the element at `j` satisfies `p`, the selection is that element. */
  lemma {:induction false} FilterOne<T>(xs: seq<T>, p: T -> bool, j: int)
    requires 0 <= j < |xs| && p(xs[j])
    requires forall k :: 0 <= k < |xs| && k != j ==> !p(xs[k])
    ensures Filter(xs, p) == [xs[j]]
  {
    if j == 0 {
      FilterNone(xs[1..], p);
    } else {
      FilterOne(xs[1..], p, j - 1);
    }
  }

  /** Nothing is selected when no element satisfies `p`. */
  lemma {:induction false} FilterNone<T>(xs: seq<T>, p: T -> bool)
    requires forall k :: 0 <= k < |xs| ==> !p(xs[k])
    ensures Filter(xs, p) == []
  {
    if xs != [] {
      FilterNone(xs[1..], p);
    }
  }

  /** Two positions that satisfy `p` leave at least two elements. */
  lemma {:induction false} FilterTwo<T>(xs: seq<T>, p: T -> bool, j: int, k: int)
    requires 0 <= j < k < |xs| && p(xs[j]) && p(xs[k])
    ensures |Filter(xs, p)| >= 2
  {
    if j == 0 {
      assert xs[1..][k - 1] == xs[k];
      assert xs[k] in Filter(xs[1..], p);
    } else {
      assert xs[1..][j - 1] == xs[j] && xs[1..][k - 1] == xs[k];
      FilterTwo(xs[1..], p, j - 1, k - 1);
    }
  }

  /** A one-element selection comes from exactly one position. */
  lemma {:induction false} FilterOneInverse<T>(xs: seq<T>, p: T -> bool)
    requires |Filter(xs, p)| == 1
    ensures exists j :: 0 <= j < |xs| && p(xs[j]) && Filter(xs, p) == [xs[j]] &&
                        forall k :: 0 <= k < |xs| && k != j ==> !p(xs[k])
  {
    if p(xs[0]) {
      assert |Filter(xs[1..], p)| == 0;
      forall k | 0 <= k < |xs| && k != 0 ensures !p(xs[k]) {
        assert xs[k] == xs[1..][k - 1];
      }
      assert p(xs[0]) && Filter(xs, p) == [xs[0]];
    } else {
      FilterOneInverse(xs[1..], p);
      var j :| 0 <= j < |xs[1..]| && p(xs[1..][j]) && Filter(xs[1..], p) == [xs[1..][j]] &&
               forall k :: 0 <= k < |xs[1..]| && k != j ==> !p(xs[1..][k]);
      forall k | 0 <= k < |xs| && k != j + 1 ensures !p(xs[k]) {
        if k > 0 {
          assert xs[k] == xs[1..][k - 1];
        }
      }
      assert p(xs[j + 1]) && Filter(xs, p) == [xs[j + 1]];
    }
  }

  /** A prefix is a subsequence. */
  lemma {:induction false} PrefixSubseq<T>(a: seq<T>, b: seq<T>)
    requires a <= b
    ensures IsSubseq(a, b)
  {
    if a != [] {
      assert a[1..] <= b[1..];
      PrefixSubseq(a[1..], b[1..]);
    }
  }

  /** `f` applied to every element (a column of a frame). */
  function Project<T, U>(xs: seq<T>, f: T -> U): (r: seq<U>)
    ensures |r| == |xs| && forall i :: 0 <= i < |xs| ==> r[i] == f(xs[i])
  {
    if xs == [] then [] else [f(xs[0])] + Project(xs[1..], f)
  }

  /** Selecting rows selects the matching entries of every column. */
  lemma {:induction false} SubseqProject<T, U>(a: seq<T>, b: seq<T>, f: T -> U)
    requires IsSubseq(a, b)
    ensures IsSubseq(Project(a, f), Project(b, f))
    decreases |b|
  {
    if a != [] {
      assert Project(a, f)[1..] == Project(a[1..], f);
      assert Project(b, f)[1..] == Project(b[1..], f);
      if a[0] == b[0] {
        SubseqProject(a[1..], b[1..], f);
      } else {
        SubseqProject(a, b[1..], f);
        SubseqDropSecond(Project(a, f), Project(b, f));
      }
    }
  }
}
