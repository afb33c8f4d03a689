/** Sequence helpers shared by the catalog and the components: JavaScript's
    `filter`, `slice` and the subsequence relation ("only removes, keeps order"). */
module Seqs {
  import opened Wrappers

  /** `sub` is `s` with some elements dropped and the others kept in order. */
  predicate IsSubsequence<T(==)>(sub: seq<T>, s: seq<T>)
    decreases |s|
  {
    sub == [] ||
    (s != [] && ((sub[0] == s[0] && IsSubsequence(sub[1..], s[1..])) || IsSubsequence(sub, s[1..])))
  }

  /** `Array.prototype.filter`. */
  function Keep<T(==)>(s: seq<T>, p: T -> bool): (r: seq<T>)
    ensures |r| <= |s|
    ensures forall i :: 0 <= i < |r| ==> p(r[i])
  {
    if s == [] then []
    else if p(s[0]) then [s[0]] + Keep(s[1..], p)
    else Keep(s[1..], p)
  }

  /** Filtering a concatenation filters each part. */
  lemma {:induction false} KeepAppend<T>(a: seq<T>, b: seq<T>, p: T -> bool)
    ensures Keep(a + b, p) == Keep(a, p) + Keep(b, p)
    decreases |a|
  {
    if a == [] {
      assert a + b == b;
    } else {
      assert (a + b)[1..] == a[1..] + b;
      KeepAppend(a[1..], b, p);
    }
  }

  /** A filter every element passes keeps the whole sequence. */
  lemma {:induction false} KeepAll<T>(s: seq<T>, p: T -> bool)
    requires forall i :: 0 <= i < |s| ==> p(s[i])
    ensures Keep(s, p) == s
    decreases |s|
  {
    if s != [] {
      KeepAll(s[1..], p);
    }
  }

  /** `s` is its part before `k`, then `s[k]`, then its part after `k`. */
  lemma SplitAt<T>(s: seq<T>, k: nat)
    requires k < |s|
    ensures s == s[..k] + ([s[k]] + s[k + 1..])
  {
  }

  /** A first element that fails `p` is dropped. */
  lemma KeepDropFirst<T>(s: seq<T>, p: T -> bool)
    requires s != [] && !p(s[0])
    ensures Keep(s, p) == Keep(s[1..], p)
  {
  }

  /** Filtering around an element that fails `p` filters the parts either side. */
  lemma KeepAround<T>(s: seq<T>, k: nat, p: T -> bool)
    requires k < |s| && !p(s[k])
    ensures Keep(s, p) == Keep(s[..k], p) + Keep(s[k + 1..], p)
  {
    var c := [s[k]] + s[k + 1..];
    SplitAt(s, k);
    KeepAppend(s[..k], c, p);
    KeepDropFirst(c, p);
    assert c[1..] == s[k + 1..];
  }

  /** A filter every element of `s[lo..hi]` passes keeps that slice whole. */
  lemma KeepSliceAll<T>(s: seq<T>, lo: nat, hi: nat, p: T -> bool)
    requires lo <= hi <= |s|
    requires forall i :: lo <= i < hi ==> p(s[i])
    ensures Keep(s[lo..hi], p) == s[lo..hi]
  {
    var t := s[lo..hi];
    forall i | 0 <= i < |t| ensures p(t[i]) { assert t[i] == s[lo + i]; }
    KeepAll(t, p);
  }

  /** Keeping all but the one element that fails `p` cuts out its position. */
  lemma KeepCut<T>(s: seq<T>, k: nat, p: T -> bool)
    requires k < |s| && !p(s[k])
    requires forall i :: 0 <= i < |s| && i != k ==> p(s[i])
    ensures Keep(s, p) == s[..k] + s[k + 1..]
  {
    KeepAround(s, k, p);
    KeepSliceAll(s, 0, k, p);
    KeepSliceAll(s, k + 1, |s|, p);
    assert s[0..k] == s[..k] && s[k + 1..|s|] == s[k + 1..];
  }

  /** What `filter` keeps: the elements of `s` that pass `p`, each of them,
      in their order in `s`. */
  lemma {:induction false} KeepFacts<T>(s: seq<T>, p: T -> bool)
    ensures forall i :: 0 <= i < |Keep(s, p)| ==> Keep(s, p)[i] in s
    ensures forall i :: 0 <= i < |s| && p(s[i]) ==> s[i] in Keep(s, p)
    ensures IsSubsequence(Keep(s, p), s)
    ensures forall x :: x in Keep(s, p) <==> x in s && p(x)
    decreases |s|
  {
    if s != [] {
      var t := s[1..];
      KeepFacts(t, p);
      var r := Keep(s, p);
      forall i | 0 <= i < |r| ensures r[i] in s {
        if p(s[0]) {
          if i > 0 { assert r[i] == Keep(t, p)[i - 1]; }
        } else {
          assert r[i] == Keep(t, p)[i];
        }
      }
      forall i | 0 <= i < |s| && p(s[i]) ensures s[i] in r {
        if i > 0 { assert s[i] == t[i - 1]; }
      }
      if p(s[0]) {
        assert r[1..] == Keep(t, p);
      }
    }
  }

  /** Filtering by a predicate and by its negation splits a sequence into two
      parts that together hold every element of it. */
  lemma {:induction false} KeepPartition<T>(s: seq<T>, p: T -> bool, q: T -> bool)
    requires forall x :: q(x) == !p(x)
    ensures multiset(Keep(s, p)) + multiset(Keep(s, q)) == multiset(s)
    decreases |s|
  {
    if s != [] {
      KeepPartition(s[1..], p, q);
      assert s == [s[0]] + s[1..];
    }
  }

  lemma {:induction false} SubsequenceTransitive<T>(a: seq<T>, b: seq<T>, c: seq<T>)
    requires IsSubsequence(a, b) && IsSubsequence(b, c)
    ensures IsSubsequence(a, c)
    decreases |c|
  {
    if a == [] {
    } else if c == [] {
    } else if b != [] && b[0] == c[0] && IsSubsequence(b[1..], c[1..]) {
      if a[0] == b[0] && IsSubsequence(a[1..], b[1..]) {
        SubsequenceTransitive(a[1..], b[1..], c[1..]);
      } else {
        SubsequenceTransitive(a, b[1..], c[1..]);
      }
    } else {
      SubsequenceTransitive(a, b, c[1..]);
    }
  }

  lemma {:induction false} SubsequenceOfSelf<T>(s: seq<T>)
    ensures IsSubsequence(s, s)
  {
    if s != [] {
      SubsequenceOfSelf(s[1..]);
    }
  }

  lemma {:induction false} PrefixIsSubsequence<T>(s: seq<T>, n: nat)
    requires n <= |s|
    ensures IsSubsequence(s[..n], s)
  {
    if n > 0 {
      PrefixIsSubsequence(s[1..], n - 1);
      assert s[..n][1..] == s[1..][..n - 1];
    }
  }

  /** `Array.prototype.find`: the first element of `s` that satisfies `p`. */
  function FirstWhere<T>(s: seq<T>, p: T -> bool): (o: Option<T>)
    ensures o.Some? ==> o.value in s && p(o.value)
    ensures o.None? <==> forall i :: 0 <= i < |s| ==> !p(s[i])
    decreases |s|
  {
    if s == [] then None
    else if p(s[0]) then Some(s[0])
    else
      var rest := FirstWhere(s[1..], p);
      assert forall i :: 1 <= i < |s| ==> s[i] == s[1..][i - 1];
      rest
  }

  /** Searching a concatenation searches the second part only when the
      first has no match. */
  lemma {:induction false} FirstWhereAppend<T>(a: seq<T>, b: seq<T>, p: T -> bool)
    ensures FirstWhere(a + b, p) == if FirstWhere(a, p).Some? then FirstWhere(a, p) else FirstWhere(b, p)
    decreases |a|
  {
    if a == [] {
      assert a + b == b;
    } else {
      assert (a + b)[0] == a[0];
      assert (a + b)[1..] == a[1..] + b;
      FirstWhereAppend(a[1..], b, p);
    }
  }

  /** Filtering out elements that could not match changes nothing. */
  lemma {:induction false} FirstWhereSkips<T>(s: seq<T>, keep: T -> bool, p: T -> bool)
    requires forall x :: x in s && !keep(x) ==> !p(x)
    ensures FirstWhere(Keep(s, keep), p) == FirstWhere(s, p)
    decreases |s|
  {
    if s != [] {
      assert forall x :: x in s[1..] ==> x in s;
      FirstWhereSkips(s[1..], keep, p);
      if keep(s[0]) {
        var k := Keep(s, keep);
        assert k[0] == s[0] && k[1..] == Keep(s[1..], keep);
      }
    }
  }

  /** `s.slice(0, n)` for a non-negative `n`. */
  function Take<T>(s: seq<T>, n: nat): (r: seq<T>)
    ensures |r| <= n && |r| <= |s|
    ensures |s| >= n ==> |r| == n
    ensures r == s[..|r|]
  {
    if n <= |s| then s[..n] else s
  }

  /** Index resolution of `Array.prototype.slice`: a negative index counts
      from the end, and the result is clamped to `[0, len]`. */
  function SliceIndex(i: int, len: nat): (r: nat)
    ensures r <= len
    ensures 0 <= i <= len ==> r == i
  {
    if i < 0 then (if len + i < 0 then 0 else len + i)
    else if i > len then len
    else i
  }

  /** `s.slice(start, end)` with JavaScript's handling of negative and
      out-of-range indices. */
  function Slice<T>(s: seq<T>, start: int, end: int): (r: seq<T>)
    ensures |r| <= |s|
    ensures forall i :: 0 <= i < |r| ==> r[i] in s
  {
    var b := SliceIndex(start, |s|);
    var e := SliceIndex(end, |s|);
    if e <= b then [] else s[b..e]
  }
}
