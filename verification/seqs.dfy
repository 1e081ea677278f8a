/** Sequence combinators shared by the claim pipeline, the client store and
    the migration script: order-preserving filtering, mapping, chunking,
    flattening and real-valued sums. */
module Seqs {

  /** `xs.filter(keep)`: the elements satisfying `keep`, in their original order. */
  function Filter<T>(s: seq<T>, keep: T -> bool): (r: seq<T>)
    ensures |r| <= |s|
    ensures forall x :: x in r ==> x in s && keep(x)
    ensures forall x :: x in s && keep(x) ==> x in r
  {
    if |s| == 0 then []
    else if keep(s[0]) then [s[0]] + Filter(s[1..], keep)
    else Filter(s[1..], keep)
  }

  /** `a` is obtained from `b` by deleting elements, keeping the order. */
  ghost predicate Subseq<T>(a: seq<T>, b: seq<T>)
    decreases |b|
  {
    if |a| == 0 then true
    else if |b| == 0 then false
    else (a[0] == b[0] && Subseq(a[1..], b[1..])) || Subseq(a, b[1..])
  }

  lemma {:induction false} FilterIsSubseq<T>(s: seq<T>, keep: T -> bool)
    ensures Subseq(Filter(s, keep), s)
    decreases |s|
  {
    if |s| > 0 {
      FilterIsSubseq(s[1..], keep);
    }
  }

  /** Filtering keeps every kept element as often as it occurs, and no
      other element. */
  lemma {:induction false} FilterCounts<T>(s: seq<T>, keep: T -> bool)
    ensures forall x :: multiset(Filter(s, keep))[x] == if keep(x) then multiset(s)[x] else 0
    decreases |s|
  {
    if |s| > 0 {
      FilterCounts(s[1..], keep);
      assert s == [s[0]] + s[1..];
      assert multiset(s) == multiset{s[0]} + multiset(s[1..]);
      if keep(s[0]) {
        assert multiset(Filter(s, keep)) == multiset{s[0]} + multiset(Filter(s[1..], keep));
      }
    }
  }

  lemma {:induction false} SubseqReflexive<T>(s: seq<T>)
    ensures Subseq(s, s)
    decreases |s|
  {
    if |s| > 0 {
      SubseqReflexive(s[1..]);
    }
  }

  lemma {:induction false} SubseqTransitive<T>(a: seq<T>, b: seq<T>, c: seq<T>)
    requires Subseq(a, b) && Subseq(b, c)
    ensures Subseq(a, c)
    decreases |c|
  {
    if |a| > 0 && |c| > 0 {
      if |b| > 0 && b[0] == c[0] && Subseq(b[1..], c[1..]) {
        if a[0] == b[0] && Subseq(a[1..], b[1..]) {
          SubseqTransitive(a[1..], b[1..], c[1..]);
        } else {
          SubseqTransitive(a, b[1..], c[1..]);
        }
      } else {
        SubseqTransitive(a, b, c[1..]);
      }
    }
  }

  /** Filtering twice is filtering once by the conjunction. */
  lemma {:induction false} FilterFusion<T>(s: seq<T>, p: T -> bool, q: T -> bool)
    ensures Filter(Filter(s, p), q) == Filter(s, x => p(x) && q(x))
    decreases |s|
  {
    if |s| > 0 {
      FilterFusion(s[1..], p, q);
    }
  }

  lemma {:induction false} FilterConcat<T>(a: seq<T>, b: seq<T>, keep: T -> bool)
    ensures Filter(a + b, keep) == Filter(a, keep) + Filter(b, keep)
    decreases |a|
  {
    if |a| == 0 {
      assert a + b == b;
    } else {
      assert (a + b)[0] == a[0];
      assert (a + b)[1..] == a[1..] + b;
      FilterConcat(a[1..], b, keep);
    }
  }

  /** Filtering with predicates that agree on every element gives the same result. */
  lemma {:induction false} FilterCongruent<T>(s: seq<T>, p: T -> bool, q: T -> bool)
    requires forall i :: 0 <= i < |s| ==> p(s[i]) == q(s[i])
    ensures Filter(s, p) == Filter(s, q)
    decreases |s|
  {
    if |s| > 0 {
      FilterCongruent(s[1..], p, q);
    }
  }

  /** Filtering by `p` and then by `q` is filtering by any `r` equivalent to
      their conjunction. */
  lemma {:induction false} FilterFuseInto<T>(s: seq<T>, p: T -> bool, q: T -> bool, r: T -> bool)
    requires forall x :: r(x) == (p(x) && q(x))
    ensures Filter(Filter(s, p), q) == Filter(s, r)
    decreases |s|
  {
    if |s| > 0 {
      FilterFuseInto(s[1..], p, q, r);
    }
  }

  /** Filtering by a predicate every element satisfies changes nothing. */
  lemma {:induction false} FilterAll<T>(s: seq<T>, keep: T -> bool)
    requires forall i :: 0 <= i < |s| ==> keep(s[i])
    ensures Filter(s, keep) == s
    decreases |s|
  {
    if |s| > 0 {
      FilterAll(s[1..], keep);
    }
  }

  /** `xs.map(f)` */
  function Map<T, U>(s: seq<T>, f: T -> U): (r: seq<U>)
    ensures |r| == |s|
    ensures forall i :: 0 <= i < |s| ==> r[i] == f(s[i])
  {
    seq(|s|, i requires 0 <= i < |s| => f(s[i]))
  }

  lemma MapTail<T, U>(s: seq<T>, f: T -> U)
    requires |s| > 0
    ensures Map(s, f)[1..] == Map(s[1..], f)
  {
  }

  lemma MapCons<T, U>(s: seq<T>, f: T -> U)
    requires |s| > 0
    ensures Map(s, f) == [f(s[0])] + Map(s[1..], f)
  {
    MapTail(s, f);
  }

  lemma MapConcat<T, U>(a: seq<T>, b: seq<T>, f: T -> U)
    ensures Map(a + b, f) == Map(a, f) + Map(b, f)
  {
  }

  /** Concatenation of a sequence of sequences (`push(...batch)` repeated). */
  function Flatten<T>(ss: seq<seq<T>>): seq<T>
  {
    if |ss| == 0 then [] else ss[0] + Flatten(ss[1..])
  }

  lemma {:induction false} FlattenAppend<T>(ss: seq<seq<T>>, x: seq<T>)
    ensures Flatten(ss + [x]) == Flatten(ss) + x
    decreases |ss|
  {
    if |ss| > 0 {
      assert (ss + [x])[1..] == ss[1..] + [x];
      FlattenAppend(ss[1..], x);
    }
  }

  /** Consecutive slices `s[i*n .. (i+1)*n]` covering `s`, the last one possibly shorter. */
  function Chunks<T>(s: seq<T>, n: nat): seq<seq<T>>
    requires n > 0
    decreases |s|
  {
    if |s| == 0 then []
    else if |s| <= n then [s]
    else [s[..n]] + Chunks(s[n..], n)
  }

  /** The chunks concatenate back to the input; each holds between 1 and
      `n` elements, and all but the last exactly `n`. */
  lemma {:induction false} ChunksCover<T>(s: seq<T>, n: nat)
    requires n > 0
    ensures Flatten(Chunks(s, n)) == s
    ensures forall i :: 0 <= i < |Chunks(s, n)| ==> 0 < |Chunks(s, n)[i]| <= n
    ensures forall i :: 0 <= i < |Chunks(s, n)| - 1 ==> |Chunks(s, n)[i]| == n
    decreases |s|
  {
    if |s| > n {
      ChunksCover(s[n..], n);
      var r := Chunks(s, n);
      assert r[1..] == Chunks(s[n..], n);
      assert s[..n] + s[n..] == s;
    }
  }

  /** Number of elements satisfying `keep`. */
  function Count<T>(s: seq<T>, keep: T -> bool): nat
  {
    |Filter(s, keep)|
  }

  /** Left-to-right sum of `f` over `s` (`reduce((sum, x) => sum + f(x), 0)`). */
  function Sum<T>(s: seq<T>, f: T -> real): real
    decreases |s|
  {
    if |s| == 0 then 0.0 else f(s[0]) + Sum(s[1..], f)
  }

  lemma {:induction false} SumConcat<T>(a: seq<T>, b: seq<T>, f: T -> real)
    ensures Sum(a + b, f) == Sum(a, f) + Sum(b, f)
    decreases |a|
  {
    if |a| == 0 {
      assert a + b == b;
    } else {
      assert (a + b)[0] == a[0];
      assert (a + b)[1..] == a[1..] + b;
      SumConcat(a[1..], b, f);
    }
  }

  lemma {:induction false} SumNonNegative<T>(s: seq<T>, f: T -> real)
    requires forall i :: 0 <= i < |s| ==> f(s[i]) >= 0.0
    ensures Sum(s, f) >= 0.0
    decreases |s|
  {
    if |s| > 0 {
      SumNonNegative(s[1..], f);
    }
  }

  /** Dropping elements with a non-negative contribution never increases a sum. */
  lemma {:induction false} SumFilterLe<T>(s: seq<T>, keep: T -> bool, f: T -> real)
    requires forall i :: 0 <= i < |s| ==> f(s[i]) >= 0.0
    ensures Sum(Filter(s, keep), f) <= Sum(s, f)
    decreases |s|
  {
    if |s| > 0 {
      SumFilterLe(s[1..], keep, f);
    }
  }

  /** Summing over the kept elements is summing a function that is zero elsewhere. */
  lemma {:induction false} SumFilterGuarded<T>(s: seq<T>, keep: T -> bool, f: T -> real, guarded: T -> real)
    requires forall x :: guarded(x) == (if keep(x) then f(x) else 0.0)
    ensures Sum(Filter(s, keep), f) == Sum(s, guarded)
    decreases |s|
  {
    if |s| > 0 {
      SumFilterGuarded(s[1..], keep, f, guarded);
    }
  }

  lemma {:induction false} SumCongruent<T>(s: seq<T>, f: T -> real, g: T -> real)
    requires forall i :: 0 <= i < |s| ==> f(s[i]) == g(s[i])
    ensures Sum(s, f) == Sum(s, g)
    decreases |s|
  {
    if |s| > 0 {
      SumCongruent(s[1..], f, g);
    }
  }

  /** Summing over mapped elements is summing the composed function. */
  lemma {:induction false} SumMapInto<T, U>(s: seq<T>, m: T -> U, f: U -> real, composed: T -> real)
    requires forall x :: composed(x) == f(m(x))
    ensures Sum(Map(s, m), f) == Sum(s, composed)
    decreases |s|
  {
    if |s| > 0 {
      MapTail(s, m);
      SumMapInto(s[1..], m, f, composed);
    }
  }

  /** Filtering mapped elements is mapping the originals that pass the composed test. */
  lemma {:induction false} FilterMapCommute<T, U>(s: seq<T>, m: T -> U, keep: U -> bool, composed: T -> bool)
    requires forall x :: composed(x) == keep(m(x))
    ensures Filter(Map(s, m), keep) == Map(Filter(s, composed), m)
    decreases |s|
  {
    if |s| > 0 {
      FilterMapCommute(s[1..], m, keep, composed);
      FilterMapHead(s, m, keep, composed);
    }
  }

  /** The inductive step of `FilterMapCommute`: the head is kept on both
      sides or on neither. */
  lemma FilterMapHead<T, U>(s: seq<T>, m: T -> U, keep: U -> bool, composed: T -> bool)
    requires |s| > 0 && composed(s[0]) == keep(m(s[0]))
    requires Filter(Map(s[1..], m), keep) == Map(Filter(s[1..], composed), m)
    ensures Filter(Map(s, m), keep) == Map(Filter(s, composed), m)
  {
    var ms := Map(s, m);
    MapTail(s, m);
    assert ms[0] == m(s[0]);
    if composed(s[0]) {
      assert Filter(ms, keep) == [m(s[0])] + Filter(ms[1..], keep);
      MapConcat([s[0]], Filter(s[1..], composed), m);
    }
  }

  /** Summing the negation is negating the sum. */
  lemma {:induction false} SumNegate<T>(s: seq<T>, f: T -> real, g: T -> real)
    requires forall x :: g(x) == -f(x)
    ensures Sum(s, g) == -Sum(s, f)
    decreases |s|
  {
    if |s| > 0 {
      SumNegate(s[1..], f, g);
    }
  }

  /** A sum of non-positive terms is non-positive. */
  lemma {:induction false} SumNonPositive<T>(s: seq<T>, f: T -> real)
    requires forall i :: 0 <= i < |s| ==> f(s[i]) <= 0.0
    ensures Sum(s, f) <= 0.0
    decreases |s|
  {
    if |s| > 0 {
      SumNonPositive(s[1..], f);
    }
  }

  /** Appending one element adds one to the count exactly when it is kept. */
  lemma CountSnoc<T>(s: seq<T>, x: T, keep: T -> bool)
    ensures Count(s + [x], keep) == Count(s, keep) + (if keep(x) then 1 else 0)
  {
    FilterConcat(s, [x], keep);
    assert Filter([x], keep) == if keep(x) then [x] else [];
  }

  /** Appending one element adds its contribution to a filtered sum exactly
      when it is kept. */
  lemma SumFilterSnoc<T>(s: seq<T>, x: T, keep: T -> bool, f: T -> real)
    ensures Sum(Filter(s + [x], keep), f) == Sum(Filter(s, keep), f) + (if keep(x) then f(x) else 0.0)
  {
    FilterConcat(s, [x], keep);
    assert Filter([x], keep) == if keep(x) then [x] else [];
    SumConcat(Filter(s, keep), Filter([x], keep), f);
  }

  /** Mapping a prefix one element longer appends the image of that element. */
  lemma MapPrefixSnoc<T, U>(s: seq<T>, j: nat, f: T -> U)
    requires j < |s|
    ensures Map(s[..j + 1], f) == Map(s[..j], f) + [f(s[j])]
  {
  }

  /** A weaker predicate keeps at least as many elements. */
  lemma {:induction false} CountImplies<T>(s: seq<T>, p: T -> bool, q: T -> bool)
    requires forall x :: p(x) ==> q(x)
    ensures Count(s, p) <= Count(s, q)
    decreases |s|
  {
    if |s| > 0 {
      CountImplies(s[1..], p, q);
    }
  }

  /** A weaker predicate keeps at least as much of a non-negative quantity. */
  lemma {:induction false} SumFilterImplies<T>(s: seq<T>, p: T -> bool, q: T -> bool, f: T -> real)
    requires forall x :: p(x) ==> q(x)
    requires forall x :: f(x) >= 0.0
    ensures Sum(Filter(s, p), f) <= Sum(Filter(s, q), f)
    decreases |s|
  {
    if |s| > 0 {
      SumFilterImplies(s[1..], p, q, f);
    }
  }

  /** Counting mapped elements is counting the originals by the composed test. */
  lemma {:induction false} CountMapInto<T, U>(s: seq<T>, m: T -> U, keep: U -> bool, composed: T -> bool)
    requires forall x :: composed(x) == keep(m(x))
    ensures Count(Map(s, m), keep) == Count(s, composed)
    decreases |s|
  {
    if |s| > 0 {
      MapTail(s, m);
      CountMapInto(s[1..], m, keep, composed);
    }
  }
}
