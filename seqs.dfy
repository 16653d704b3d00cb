/** Order-preserving filtering of sequences and the subsequence relation. */
module Seqs {

  /** `a` is obtained from `b` by deleting elements, the rest keeping their order. */
  ghost predicate IsSubseq<T>(a: seq<T>, b: seq<T>)
    decreases |b|
  {
    if b == [] then a == []
    else (a != [] && a[0] == b[0] && IsSubseq(a[1..], b[1..])) || IsSubseq(a, b[1..])
  }

  /** No element occurs twice. */
  ghost predicate Distinct<T>(s: seq<T>)
  {
    forall i, j :: 0 <= i < j < |s| ==> s[i] != s[j]
  }

  /** A list comprehension `[x for x in s if keep(x)]`. */
  function Filter<T>(s: seq<T>, keep: T -> bool): (r: seq<T>)
    ensures IsSubseq(r, s)
    ensures |r| <= |s|
    ensures forall x :: x in r ==> x in s && keep(x)
    ensures forall x :: x in s && keep(x) ==> x in r
    ensures multiset(r) <= multiset(s)
    ensures forall x :: x in s && keep(x) ==> multiset(r)[x] == multiset(s)[x]
    ensures (forall x :: x in s ==> keep(x)) ==> r == s
    ensures Distinct(s) ==> Distinct(r)
  {
    if s == [] then []
    else
      var rest := Filter(s[1..], keep);
      assert s == [s[0]] + s[1..];
      FilterOrder(s[0], s[1..], rest, keep);
      FilterCounts(s[0], s[1..], rest, keep);
      if keep(s[0]) then [s[0]] + rest else rest
  }

  /** One step of `Filter` keeps the order and the members: keeping or dropping
      the head `x` in front of the filtered tail. */
  lemma FilterOrder<T>(x: T, tail: seq<T>, rest: seq<T>, keep: T -> bool)
    requires IsSubseq(rest, tail)
    requires forall y :: y in rest ==> y in tail && keep(y)
    requires forall y :: y in tail && keep(y) ==> y in rest
    requires (forall y :: y in tail ==> keep(y)) ==> rest == tail
    ensures var r := if keep(x) then [x] + rest else rest;
      && IsSubseq(r, [x] + tail)
      && |r| <= |[x] + tail|
      && (forall y :: y in r ==> y in [x] + tail && keep(y))
      && (forall y :: y in [x] + tail && keep(y) ==> y in r)
      && ((forall y :: y in [x] + tail ==> keep(y)) ==> r == [x] + tail)
  {
    var s := [x] + tail;
    assert s[1..] == tail;
    SubseqLength(rest, tail);
    if keep(x) {
      assert ([x] + rest)[1..] == rest;
    }
    if forall y :: y in s ==> keep(y) {
      assert forall y :: y in tail ==> y in s;
    }
  }

  /** One step of `Filter` keeps the element counts, and with them the lack of
      repetitions. */
  lemma FilterCounts<T>(x: T, tail: seq<T>, rest: seq<T>, keep: T -> bool)
    requires multiset(rest) <= multiset(tail)
    requires forall y :: y in tail && keep(y) ==> multiset(rest)[y] == multiset(tail)[y]
    ensures var r := if keep(x) then [x] + rest else rest;
      && multiset(r) <= multiset([x] + tail)
      && (forall y :: y in [x] + tail && keep(y) ==> multiset(r)[y] == multiset([x] + tail)[y])
      && (Distinct([x] + tail) ==> Distinct(r))
  {
    var r := if keep(x) then [x] + rest else rest;
    assert multiset([x] + tail) == multiset{x} + multiset(tail);
    assert multiset([x] + rest) == multiset{x} + multiset(rest);
    if keep(x) && x !in tail {
      assert multiset(tail)[x] == 0;
      assert multiset(rest)[x] == 0;
    }
    if Distinct([x] + tail) {
      SubMultisetDistinct(r, [x] + tail);
    }
  }

  lemma {:induction false} SubseqRefl<T>(s: seq<T>)
    ensures IsSubseq(s, s)
    decreases |s|
  {
    if s != [] { SubseqRefl(s[1..]); }
  }

  lemma {:induction false} SubseqLength<T>(a: seq<T>, b: seq<T>)
    requires IsSubseq(a, b)
    ensures |a| <= |b|
    decreases |b|
  {
    if b != [] {
      if a != [] && a[0] == b[0] && IsSubseq(a[1..], b[1..]) {
        SubseqLength(a[1..], b[1..]);
      } else {
        SubseqLength(a, b[1..]);
      }
    }
  }

  /** Every element of a subsequence is an element of the sequence. */
  lemma {:induction false} SubseqMembers<T>(a: seq<T>, b: seq<T>)
    requires IsSubseq(a, b)
    ensures forall x :: x in a ==> x in b
    decreases |b|
  {
    if b != [] {
      if a != [] && a[0] == b[0] && IsSubseq(a[1..], b[1..]) {
        SubseqMembers(a[1..], b[1..]);
        assert a == [a[0]] + a[1..];
      } else {
        SubseqMembers(a, b[1..]);
      }
    }
  }

  /** Deleting elements twice is deleting elements once. */
  lemma {:induction false} SubseqTrans<T>(a: seq<T>, b: seq<T>, c: seq<T>)
    requires IsSubseq(a, b) && IsSubseq(b, c)
    ensures IsSubseq(a, c)
    decreases |c|
  {
    if c != [] {
      if b != [] && b[0] == c[0] && IsSubseq(b[1..], c[1..]) {
        if a != [] && a[0] == b[0] && IsSubseq(a[1..], b[1..]) {
          SubseqTrans(a[1..], b[1..], c[1..]);
        } else {
          SubseqTrans(a, b[1..], c[1..]);
        }
      } else {
        SubseqTrans(a, b, c[1..]);
      }
    }
  }

  /** Filtering by a weaker condition keeps at least what a stronger one keeps, in order. */
  lemma {:induction false} FilterMonotone<T>(s: seq<T>, p: T -> bool, q: T -> bool)
    requires forall x :: p(x) ==> q(x)
    ensures IsSubseq(Filter(s, p), Filter(s, q))
    decreases |s|
  {
    if s != [] {
      FilterMonotone(s[1..], p, q);
      var fp, fq := Filter(s[1..], p), Filter(s[1..], q);
      if p(s[0]) {
        assert ([s[0]] + fp)[1..] == fp && ([s[0]] + fq)[1..] == fq;
      } else if q(s[0]) {
        assert ([s[0]] + fq)[1..] == fq;
      }
    }
  }

  /** No element occurs twice exactly when every multiplicity is at most one. */
  lemma {:induction false} DistinctMultiset<T>(s: seq<T>)
    ensures Distinct(s) <==> forall x :: multiset(s)[x] <= 1
    decreases |s|
  {
    if s != [] {
      DistinctMultiset(s[1..]);
      assert s == [s[0]] + s[1..];
      if Distinct(s) {
        assert Distinct(s[1..]) by {
          forall i, j | 0 <= i < j < |s[1..]| ensures s[1..][i] != s[1..][j] {
            assert s[1..][i] == s[i + 1] && s[1..][j] == s[j + 1];
          }
        }
        forall k | 0 <= k < |s[1..]| ensures s[1..][k] != s[0] {
          assert s[1..][k] == s[k + 1];
        }
      }
      assert multiset(s) == multiset{s[0]} + multiset(s[1..]);
      if forall x :: multiset(s)[x] <= 1 {
        assert multiset(s[1..])[s[0]] == 0;
        assert forall x :: multiset(s[1..])[x] <= multiset(s)[x];
        forall i, j | 0 <= i < j < |s| ensures s[i] != s[j] {
          if i == 0 {
            assert s[j] in s[1..];
          } else {
            assert s[1..][i - 1] == s[i] && s[1..][j - 1] == s[j];
          }
        }
      }
    }
  }

  /** Taking no element more often than `b` holds it keeps `b`'s lack of repetitions. */
  lemma SubMultisetDistinct<T>(a: seq<T>, b: seq<T>)
    requires multiset(a) <= multiset(b) && Distinct(b)
    ensures Distinct(a)
  {
    DistinctMultiset(b);
    DistinctMultiset(a);
  }

  /** A subsequence holds each element at most as often as the sequence. */
  lemma {:induction false} SubseqMultiset<T>(a: seq<T>, b: seq<T>)
    requires IsSubseq(a, b)
    ensures multiset(a) <= multiset(b)
    decreases |b|
  {
    if b != [] {
      assert b == [b[0]] + b[1..];
      if a != [] && a[0] == b[0] && IsSubseq(a[1..], b[1..]) {
        SubseqMultiset(a[1..], b[1..]);
        assert a == [a[0]] + a[1..];
      } else {
        SubseqMultiset(a, b[1..]);
      }
    }
  }
}
