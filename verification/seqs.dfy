/**
 * The JavaScript array operations the application uses, on sequences:
 * `filter`, `find`, and a random shuffle whose random choices are an input.
 */
module Seqs {
  import opened Wrappers

  /**
   * `s.filter(p)`: keeps, in order, the elements that satisfy `p`, each as
   * many times as it occurs in `s`.
   */
  function Filter<T(!new)>(s: seq<T>, p: T -> bool): (r: seq<T>)
    ensures |r| <= |s|
    ensures forall i :: 0 <= i < |r| ==> r[i] in s && p(r[i])
    ensures forall i :: 0 <= i < |s| && p(s[i]) ==> s[i] in r
    ensures multiset(r) <= multiset(s)
    ensures forall x: T :: multiset(r)[x] == if p(x) then multiset(s)[x] else 0
  {
    if |s| == 0 then []
    else
      assert s == [s[0]] + s[1..];
      if p(s[0]) then [s[0]] + Filter(s[1..], p) else Filter(s[1..], p)
  }

  /** `idx` lists, in increasing order, positions of `b` that spell out `a`. */
  ghost predicate Embeds<T>(a: seq<T>, b: seq<T>, idx: seq<nat>)
  {
    && |idx| == |a|
    && (forall i :: 0 <= i < |idx| ==> idx[i] < |b| && a[i] == b[idx[i]])
    && (forall i, j :: 0 <= i < j < |idx| ==> idx[i] < idx[j])
  }

  /** `a` is obtained from `b` by deleting elements, keeping the order of the rest. */
  ghost predicate IsSubsequence<T>(a: seq<T>, b: seq<T>)
  {
    exists idx :: Embeds(a, b, idx)
  }

  /** Every position moved one place to the right. */
  function Shift(idx: seq<nat>): (r: seq<nat>)
    ensures |r| == |idx| && forall i :: 0 <= i < |idx| ==> r[i] == idx[i] + 1
  {
    seq(|idx|, i requires 0 <= i < |idx| => idx[i] + 1)
  }

  lemma EmbedsInTail<T>(a: seq<T>, b: seq<T>, idx: seq<nat>)
    requires |b| > 0 && Embeds(a, b[1..], idx)
    ensures Embeds(a, b, Shift(idx))
  {
    forall i | 0 <= i < |idx|
      ensures a[i] == b[idx[i] + 1]
    {
      assert b[1..][idx[i]] == b[idx[i] + 1];
    }
  }

  lemma EmbedsCons<T>(a: seq<T>, b: seq<T>, idx: seq<nat>)
    requires |b| > 0 && Embeds(a, b[1..], idx)
    ensures Embeds([b[0]] + a, b, [0] + Shift(idx))
  {
    EmbedsInTail(a, b, idx);
    var sh := Shift(idx);
    var r := [0] + sh;
    var c := [b[0]] + a;
    forall i | 0 <= i < |r|
      ensures r[i] < |b| && c[i] == b[r[i]]
    {
      if i > 0 {
        assert r[i] == sh[i - 1] && c[i] == a[i - 1];
      }
    }
    forall i, j | 0 <= i < j < |r|
      ensures r[i] < r[j]
    {
      assert r[j] == sh[j - 1];
      if i > 0 {
        assert r[i] == sh[i - 1];
      }
    }
  }

  /** Filtering keeps the surviving elements in their original order. */
  lemma {:induction false} FilterEmbeds<T(!new)>(s: seq<T>, p: T -> bool) returns (idx: seq<nat>)
    ensures Embeds(Filter(s, p), s, idx)
  {
    if |s| == 0 {
      idx := [];
    } else {
      var rest := FilterEmbeds(s[1..], p);
      if p(s[0]) {
        EmbedsCons(Filter(s[1..], p), s, rest);
        idx := [0] + Shift(rest);
      } else {
        EmbedsInTail(Filter(s[1..], p), s, rest);
        idx := Shift(rest);
      }
    }
  }

  lemma FilterIsSubsequence<T(!new)>(s: seq<T>, p: T -> bool)
    ensures IsSubsequence(Filter(s, p), s)
  {
    var idx := FilterEmbeds(s, p);
  }

  /** When every element passes, filtering changes nothing. */
  lemma {:induction false} FilterKeepsAll<T(!new)>(s: seq<T>, p: T -> bool)
    requires forall i :: 0 <= i < |s| ==> p(s[i])
    ensures Filter(s, p) == s
  {
    if |s| > 0 {
      FilterKeepsAll(s[1..], p);
    }
  }

  /** `s.find(p)`, as the position of the first element satisfying `p`. */
  function FindFirst<T>(s: seq<T>, p: T -> bool): (r: Option<nat>)
    ensures r.Some? ==> r.value < |s| && p(s[r.value])
    ensures r.Some? ==> forall j :: 0 <= j < r.value ==> !p(s[j])
    ensures r.None? <==> forall j :: 0 <= j < |s| ==> !p(s[j])
  {
    if |s| == 0 then None
    else if p(s[0]) then Some(0)
    else match FindFirst(s[1..], p)
      case None => None
      case Some(k) => Some(k + 1)
  }

  /** `s` without the element at position `k`. */
  function RemoveAt<T>(s: seq<T>, k: nat): seq<T>
    requires k < |s|
  {
    s[..k] + s[k + 1..]
  }

  lemma RemoveAtMultiset<T>(s: seq<T>, k: nat)
    requires k < |s|
    ensures multiset(s) == multiset{s[k]} + multiset(RemoveAt(s, k))
  {
    assert s == s[..k] + [s[k]] + s[k + 1..];
  }

  /**
   * A shuffle driven by random draws: each draw picks, modulo the number of
   * elements left, the next element to output. Whatever the draws, the result
   * is a permutation of the input.
   */
  function Shuffle<T>(s: seq<T>, draws: seq<nat>): (r: seq<T>)
    ensures multiset(r) == multiset(s)
    ensures |r| == |s|
    decreases |s|
  {
    if |s| == 0 then []
    else
      var k := (if |draws| > 0 then draws[0] else 0) % |s|;
      RemoveAtMultiset(s, k);
      [s[k]] + Shuffle(RemoveAt(s, k), if |draws| > 0 then draws[1..] else [])
  }

  lemma ShuffleStep<T>(s: seq<T>, draws: seq<nat>)
    requires |draws| > 0 && draws[0] < |s|
    ensures Shuffle(s, draws) == [s[draws[0]]] + Shuffle(RemoveAt(s, draws[0]), draws[1..])
  {
    assert draws[0] % |s| == draws[0];
  }

  /** Every permutation of `s` is the outcome of some sequence of draws. */
  lemma {:induction false} ShuffleReachesEveryPermutation<T>(s: seq<T>, p: seq<T>) returns (draws: seq<nat>)
    requires multiset(p) == multiset(s)
    ensures Shuffle(s, draws) == p
    decreases |s|
  {
    assert |p| == |multiset(p)| == |s|;
    if |s| == 0 {
      draws := [];
    } else {
      assert p[0] in multiset(s);
      var k :| 0 <= k < |s| && s[k] == p[0];
      RemoveAtMultiset(s, k);
      assert p == [p[0]] + p[1..];
      assert multiset(p) == multiset{p[0]} + multiset(p[1..]);
      MultisetCancel(p[0], multiset(p[1..]), multiset(RemoveAt(s, k)));
      var rest := ShuffleReachesEveryPermutation(RemoveAt(s, k), p[1..]);
      draws := [k] + rest;
      assert draws[1..] == rest;
      ShuffleStep(s, draws);
    }
  }

  lemma MultisetCancel<T>(x: T, a: multiset<T>, b: multiset<T>)
    requires multiset{x} + a == multiset{x} + b
    ensures a == b
  {
    assert a == (multiset{x} + a) - multiset{x};
    assert b == (multiset{x} + b) - multiset{x};
  }

  /** The first `n` elements of a sequence form a sub-multiset of it. */
  lemma PrefixSubMultiset<T>(s: seq<T>, n: nat)
    requires n <= |s|
    ensures multiset(s[..n]) <= multiset(s)
  {
    assert s == s[..n] + s[n..];
  }
}
