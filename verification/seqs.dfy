/**
 * Sequence operations behind Python's list comprehensions and its
 * "count into an insertion-ordered dict" idiom.
 */
module Seqs {

  /** `a` can be obtained from `b` by deleting elements: an order-preserving subsequence. */
  predicate IsSubseq<T(==, !new)>(a: seq<T>, b: seq<T>)
    decreases |b|
  {
    if |a| == 0 then true
    else if |b| == 0 then false
    else (a[0] == b[0] && IsSubseq(a[1..], b[1..])) || IsSubseq(a, b[1..])
  }

  /**
   * `[x for x in s if p(x)]`: keeps, in their original order, exactly the
   * elements that satisfy `p`, each as often as it occurs in `s`.
   */
  function Filter<T(==, !new)>(s: seq<T>, p: T -> bool): (r: seq<T>)
    ensures |r| <= |s|
    ensures forall i :: 0 <= i < |r| ==> p(r[i])
    ensures forall x :: x in r <==> x in s && p(x)
    decreases |s|
  {
    if |s| == 0 then []
    else
      var rest := Filter(s[1..], p);
      assert s == [s[0]] + s[1..];
      if p(s[0]) then [s[0]] + rest else rest
  }

  /** The filtered list keeps every element that satisfies `p` as often as `s` holds it, and in order. */
  lemma {:induction false} FilterKeepsOrderAndCount<T(!new)>(s: seq<T>, p: T -> bool)
    ensures forall x :: multiset(Filter(s, p))[x] == if p(x) then multiset(s)[x] else 0
    ensures IsSubseq(Filter(s, p), s)
    decreases |s|
  {
    if |s| > 0 {
      var rest := Filter(s[1..], p);
      FilterKeepsOrderAndCount(s[1..], p);
      assert s == [s[0]] + s[1..];
      if p(s[0]) {
        assert ([s[0]] + rest)[1..] == rest;
      }
    }
  }

  /** `len([x for x in s if p(x)])`, counted directly. */
  function Count<T>(s: seq<T>, p: T -> bool): nat
    decreases |s|
  {
    if |s| == 0 then 0 else (if p(s[0]) then 1 else 0) + Count(s[1..], p)
  }

  /** The filtered list has one element per element of `s` that satisfies `p`. */
  lemma {:induction false} FilterLength<T(!new)>(s: seq<T>, p: T -> bool)
    ensures |Filter(s, p)| == Count(s, p)
    decreases |s|
  {
    if |s| > 0 {
      FilterLength(s[1..], p);
    }
  }

  /** A subsequence of a subsequence is a subsequence. */
  lemma {:induction false} IsSubseqTransitive<T(!new)>(a: seq<T>, b: seq<T>, c: seq<T>)
    requires IsSubseq(a, b) && IsSubseq(b, c)
    ensures IsSubseq(a, c)
    decreases |c|
  {
    if |a| > 0 {
      assert |b| > 0 && |c| > 0;
      if b[0] == c[0] && IsSubseq(b[1..], c[1..]) {
        if a[0] == b[0] && IsSubseq(a[1..], b[1..]) {
          IsSubseqTransitive(a[1..], b[1..], c[1..]);
        } else {
          IsSubseqTransitive(a, b[1..], c[1..]);
        }
      } else {
        IsSubseqTransitive(a, b, c[1..]);
      }
    }
  }

  /** Every list is a subsequence of itself. */
  lemma {:induction false} IsSubseqReflexive<T(!new)>(a: seq<T>)
    ensures IsSubseq(a, a)
    decreases |a|
  {
    if |a| > 0 {
      IsSubseqReflexive(a[1..]);
    }
  }

  // ---------------------------------------------------------------------------
  // Tallies: `d[k] = d.get(k, 0) + 1` over a sequence of keys
  // ---------------------------------------------------------------------------

  /** A tally is an insertion-ordered dict from string keys to counts, as a list of pairs. */
  type Tally = seq<(string, nat)>

  /** `d.get(k, 0)`. */
  function CountOf(t: Tally, k: string): nat
    decreases |t|
  {
    if |t| == 0 then 0 else if t[0].0 == k then t[0].1 else CountOf(t[1..], k)
  }

  /** `sum(d.values())`. */
  function Total(t: Tally): nat
    decreases |t|
  {
    if |t| == 0 then 0 else t[0].1 + Total(t[1..])
  }

  predicate DistinctKeys(t: Tally) {
    forall i, j :: 0 <= i < j < |t| ==> t[i].0 != t[j].0
  }

  predicate HasKey(t: Tally, k: string) {
    exists i :: 0 <= i < |t| && t[i].0 == k
  }

  /** A key is present iff it heads the tally or is present in the rest. */
  lemma HasKeyUnfold(t: Tally)
    requires |t| > 0
    ensures forall k :: HasKey(t, k) <==> t[0].0 == k || HasKey(t[1..], k)
  {
    forall k | HasKey(t, k) && t[0].0 != k
      ensures HasKey(t[1..], k)
    {
      var i :| 0 <= i < |t| && t[i].0 == k;
      assert t[1..][i - 1].0 == k;
    }
  }

  /** `d[k] = d.get(k, 0) + 1`: an existing key is bumped in place, a new one goes last. */
  function Bump(t: Tally, k: string): (r: Tally)
    ensures Total(r) == Total(t) + 1
    ensures forall k' :: CountOf(r, k') == CountOf(t, k') + (if k' == k then 1 else 0)
    ensures DistinctKeys(t) ==> DistinctKeys(r)
    ensures forall k' :: HasKey(r, k') <==> HasKey(t, k') || k' == k
    ensures (forall i :: 0 <= i < |t| ==> t[i].1 > 0) ==> forall i :: 0 <= i < |r| ==> r[i].1 > 0
    decreases |t|
  {
    if |t| == 0 then
      [(k, 1)]
    else
      HasKeyUnfold(t);
      var r := if t[0].0 == k then [(k, t[0].1 + 1)] + t[1..] else [t[0]] + Bump(t[1..], k);
      HasKeyUnfold(r);
      assert DistinctKeys(t) ==> !HasKey(t[1..], t[0].0);
      r
  }

  /** Bumping never moves a key: the keys already present keep their positions. */
  lemma {:induction false} BumpKeepsPositions(t: Tally, k: string)
    ensures |Bump(t, k)| >= |t|
    ensures forall i :: 0 <= i < |t| ==> Bump(t, k)[i].0 == t[i].0
    decreases |t|
  {
    if |t| > 0 && t[0].0 != k {
      var rest := Bump(t[1..], k);
      BumpKeepsPositions(t[1..], k);
      assert Bump(t, k) == [t[0]] + rest;
      forall i | 0 < i < |t|
        ensures Bump(t, k)[i].0 == t[i].0
      {
        assert Bump(t, k)[i] == rest[i - 1];
        assert t[1..][i - 1] == t[i];
      }
    }
  }

  /** A key seen for the first time is appended at the end with count 1. */
  lemma {:induction false} BumpAppendsNewKey(t: Tally, k: string)
    requires !HasKey(t, k)
    ensures Bump(t, k) == t + [(k, 1)]
    decreases |t|
  {
    if |t| > 0 {
      HasKeyUnfold(t);
      BumpAppendsNewKey(t[1..], k);
      AppendAfterHead(t, [(k, 1)]);
    }
  }

  lemma AppendAfterHead(t: Tally, u: Tally)
    requires |t| > 0
    ensures [t[0]] + (t[1..] + u) == t + u
  {
    assert t == [t[0]] + t[1..];
  }

  /** A key already present is bumped in place: the tally keeps its length. */
  lemma {:induction false} BumpKeepsLength(t: Tally, k: string)
    requires HasKey(t, k)
    ensures |Bump(t, k)| == |t|
    decreases |t|
  {
    if t[0].0 != k {
      assert HasKey(t[1..], k) by {
        var i :| 0 <= i < |t| && t[i].0 == k;
        assert t[1..][i - 1].0 == k;
      }
      BumpKeepsLength(t[1..], k);
    }
  }

  /** `keys.index(k)`, or `|keys|` when `k` does not occur: where `k` first occurs. */
  function FirstIndex(keys: seq<string>, k: string): (r: nat)
    ensures r <= |keys|
    ensures r < |keys| <==> k in keys
    ensures r < |keys| ==> keys[r] == k
    ensures forall j :: 0 <= j < r ==> keys[j] != k
    decreases |keys|
  {
    if |keys| == 0 then 0 else if keys[0] == k then 0 else 1 + FirstIndex(keys[1..], k)
  }

  /** Appending a key does not move the first occurrence of a key already present. */
  lemma FirstIndexOfExtension(init: seq<string>, k: string, x: string)
    requires x in init
    ensures FirstIndex(init + [k], x) == FirstIndex(init, x)
  {
    var keys := init + [k];
    var r := FirstIndex(init, x);
    var r' := FirstIndex(keys, x);
    assert keys[r] == x;
    assert r' <= r;
  }

  /**
   * The loop `for k in keys: d[k] = d.get(k, 0) + 1` starting from `{}`:
   * one entry per distinct key, each counting that key's occurrences, the
   * counts summing to the number of keys.
   */
  function TallyOf(keys: seq<string>): (t: Tally)
    ensures DistinctKeys(t)
    ensures Total(t) == |keys|
    ensures forall k :: CountOf(t, k) == multiset(keys)[k]
    ensures forall k :: HasKey(t, k) <==> k in keys
    ensures forall i :: 0 <= i < |t| ==> t[i].1 > 0
    decreases |keys|
  {
    if |keys| == 0 then []
    else
      var init := keys[..|keys| - 1];
      var k := keys[|keys| - 1];
      assert keys == init + [k];
      Bump(TallyOf(init), k)
  }

  /** The keys of `t` come in the order in which they first occur in `keys`. */
  predicate InFirstOccurrenceOrder(t: Tally, keys: seq<string>) {
    forall i, j :: 0 <= i < j < |t| ==> FirstIndex(keys, t[i].0) < FirstIndex(keys, t[j].0)
  }

  /**
   * The keys of a tally come in the order in which they first occur among
   * the counted keys, as a Python dict keeps them.
   */
  lemma {:induction false} TallyInFirstOccurrenceOrder(keys: seq<string>)
    ensures InFirstOccurrenceOrder(TallyOf(keys), keys)
    decreases |keys|
  {
    if |keys| > 0 {
      var init := keys[..|keys| - 1];
      var k := keys[|keys| - 1];
      assert keys == init + [k];
      TallyInFirstOccurrenceOrder(init);
      if k in init {
        BumpOldKeyKeepsOrder(TallyOf(init), init, k);
      } else {
        BumpNewKeyKeepsOrder(TallyOf(init), init, k);
      }
    }
  }

  /** Counting a key seen before changes no position, and no first occurrence. */
  lemma BumpOldKeyKeepsOrder(t: Tally, init: seq<string>, k: string)
    requires InFirstOccurrenceOrder(t, init)
    requires forall x :: HasKey(t, x) <==> x in init
    requires k in init
    ensures InFirstOccurrenceOrder(Bump(t, k), init + [k])
  {
    var r := Bump(t, k);
    BumpKeepsLength(t, k);
    BumpKeepsPositions(t, k);
    forall i | 0 <= i < |t|
      ensures FirstIndex(init + [k], r[i].0) == FirstIndex(init, t[i].0)
    {
      assert HasKey(t, t[i].0);
      FirstIndexOfExtension(init, k, t[i].0);
    }
  }

  /** A key seen for the first time goes last, after every key seen before it. */
  lemma BumpNewKeyKeepsOrder(t: Tally, init: seq<string>, k: string)
    requires InFirstOccurrenceOrder(t, init)
    requires forall x :: HasKey(t, x) <==> x in init
    requires k !in init
    ensures InFirstOccurrenceOrder(Bump(t, k), init + [k])
  {
    BumpAppendsNewKey(t, k);
    NewLastKeyKeepsOrder(t, init, k);
  }

  /** Appending a key absent so far keeps a tally in first-occurrence order. */
  lemma NewLastKeyKeepsOrder(t: Tally, init: seq<string>, k: string)
    requires InFirstOccurrenceOrder(t, init)
    requires forall x :: HasKey(t, x) <==> x in init
    requires k !in init
    ensures InFirstOccurrenceOrder(t + [(k, 1)], init + [k])
  {
    var keys := init + [k];
    var r := t + [(k, 1)];
    assert FirstIndex(keys, k) == |init|;
    forall i | 0 <= i < |t|
      ensures FirstIndex(keys, r[i].0) == FirstIndex(init, t[i].0) < |init|
    {
      assert r[i] == t[i];
      assert HasKey(t, t[i].0);
      FirstIndexOfExtension(init, k, t[i].0);
    }
    forall i, j | 0 <= i < j < |r|
      ensures FirstIndex(keys, r[i].0) < FirstIndex(keys, r[j].0)
    {
      if j == |t| {
        assert r[j].0 == k;
      }
    }
  }
}
