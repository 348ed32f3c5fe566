/** Sequence operations the classifier is built from: JavaScript's
    `Array.prototype.filter`, and the insertion-ordered, duplicate-free
    contents of a `Set` as `Array.from(set)` returns them. */
module Sequences {

  /** No element occurs twice. */
  ghost predicate Distinct<T>(s: seq<T>)
  {
    forall i, j :: 0 <= i < j < |s| ==> s[i] != s[j]
  }

  /** The elements of `s` that satisfy `p`, in their original order. */
  function Filter<T>(s: seq<T>, p: T -> bool): (r: seq<T>)
    ensures |r| <= |s|
    ensures forall k :: 0 <= k < |r| ==> p(r[k])
  {
    if s == [] then [] else (if p(s[0]) then [s[0]] else []) + Filter(s[1..], p)
  }

  /** Every index of `s` shifted by one: the positions of `s[1..]` seen from `s`. */
  function Shifted(idx: seq<nat>): (r: seq<nat>)
    ensures |r| == |idx|
    ensures forall k :: 0 <= k < |r| ==> r[k] == idx[k] + 1
  {
    seq(|idx|, k requires 0 <= k < |idx| => idx[k] + 1)
  }

  /** The positions in `s` of the elements `Filter(s, p)` keeps. */
  function KeptIndices<T>(s: seq<T>, p: T -> bool): (idx: seq<nat>)
    ensures |idx| == |Filter(s, p)|
  {
    if s == [] then [] else (if p(s[0]) then [0] else []) + Shifted(KeptIndices(s[1..], p))
  }

  /** The k-th element `Filter(s, p)` keeps is `s[KeptIndices(s, p)[k]]`,
      and it satisfies `p`. */
  lemma {:induction false} KeptIndexAt<T>(s: seq<T>, p: T -> bool, k: nat)
    requires k < |KeptIndices(s, p)|
    ensures KeptIndices(s, p)[k] < |s|
    ensures p(s[KeptIndices(s, p)[k]]) && Filter(s, p)[k] == s[KeptIndices(s, p)[k]]
  {
    var rest := KeptIndices(s[1..], p);
    var head: seq<nat> := if p(s[0]) then [0] else [];
    var kept: seq<T> := if p(s[0]) then [s[0]] else [];
    assert KeptIndices(s, p) == head + Shifted(rest);
    assert Filter(s, p) == kept + Filter(s[1..], p);
    if k >= |head| {
      KeptIndexAt(s[1..], p, k - |head|);
      var i := rest[k - |head|];
      assert KeptIndices(s, p)[k] == i + 1;
      assert Filter(s, p)[k] == Filter(s[1..], p)[k - |head|];
      assert s[1..][i] == s[i + 1];
    } else {
      assert KeptIndices(s, p)[k] == 0 && Filter(s, p)[k] == s[0];
    }
  }

  /** Every element `Filter(s, p)` keeps is the input element at the
      corresponding kept position, and satisfies `p`. */
  lemma KeptIndicesSelect<T>(s: seq<T>, p: T -> bool)
    ensures var idx := KeptIndices(s, p);
      forall k :: 0 <= k < |idx| ==> idx[k] < |s| && p(s[idx[k]]) && Filter(s, p)[k] == s[idx[k]]
  {
    forall k | 0 <= k < |KeptIndices(s, p)|
      ensures KeptIndices(s, p)[k] < |s| && p(s[KeptIndices(s, p)[k]]) && Filter(s, p)[k] == s[KeptIndices(s, p)[k]]
    {
      KeptIndexAt(s, p, k);
    }
  }

  /** The kept positions strictly increase: `Filter` preserves order. */
  lemma {:induction false} KeptIndicesIncrease<T>(s: seq<T>, p: T -> bool)
    ensures forall k, l :: 0 <= k < l < |KeptIndices(s, p)| ==> KeptIndices(s, p)[k] < KeptIndices(s, p)[l]
  {
    if s != [] {
      var rest := KeptIndices(s[1..], p);
      KeptIndicesIncrease(s[1..], p);
      var head: seq<nat> := if p(s[0]) then [0] else [];
      var idx := head + Shifted(rest);
      forall k, l | 0 <= k < l < |idx| ensures idx[k] < idx[l] {
        if k >= |head| {
          assert rest[k - |head|] < rest[l - |head|];
          assert idx[k] == rest[k - |head|] + 1 && idx[l] == rest[l - |head|] + 1;
        } else {
          assert idx[k] == 0 && idx[l] == rest[l - |head|] + 1;
        }
      }
    }
  }

  /** Every position whose element satisfies `p` is kept: `Filter` drops
      nothing that passes the test. */
  lemma {:induction false} KeptIndicesComplete<T>(s: seq<T>, p: T -> bool)
    ensures forall i :: 0 <= i < |s| && p(s[i]) ==> i in KeptIndices(s, p)
  {
    if s != [] {
      var rest := KeptIndices(s[1..], p);
      KeptIndicesComplete(s[1..], p);
      var head: seq<nat> := if p(s[0]) then [0] else [];
      var idx := head + Shifted(rest);
      forall i | 0 <= i < |s| && p(s[i]) ensures i in idx {
        if i > 0 {
          assert s[1..][i - 1] == s[i];
          var k :| 0 <= k < |rest| && rest[k] == i - 1;
          assert idx[|head| + k] == i;
        } else {
          assert idx[0] == 0;
        }
      }
    }
  }

  /** `Set.prototype.add` on a set that remembers insertion order:
      afterwards `x` is present, the members are the old ones and `x`, the
      old insertion order is unchanged, and the set grows by one exactly
      when `x` is new. */
  function AddToSet<T(==,!new)>(acc: seq<T>, x: T): (r: seq<T>)
    ensures x in r
    ensures forall y :: y in r <==> y in acc || y == x
    ensures |r| == |acc| + (if x in acc then 0 else 1)
    ensures r[..|acc|] == acc
    ensures Distinct(acc) ==> Distinct(r)
  {
    if x in acc then acc else acc + [x]
  }

  /** The distinct elements of `s` in order of first occurrence. */
  function Dedup<T(==,!new)>(s: seq<T>): (r: seq<T>)
    ensures Distinct(r)
  {
    if s == [] then [] else AddToSet(Dedup(s[..|s| - 1]), s[|s| - 1])
  }

  /** `Dedup` keeps every element of `s` and adds none. */
  lemma {:induction false} DedupMembers<T(!new)>(s: seq<T>)
    ensures forall y :: y in Dedup(s) <==> y in s
  {
    if s != [] {
      var init := s[..|s| - 1];
      DedupMembers(init);
      assert s == init + [s[|s| - 1]];
    }
  }

  /** Dedup of one more element is one more `Set.prototype.add`. */
  lemma DedupSnoc<T(!new)>(s: seq<T>, x: T)
    ensures Dedup(s + [x]) == AddToSet(Dedup(s), x)
  {
    assert (s + [x])[..|s|] == s;
  }

  /** One more `add` to the set of the values added so far: the value is
      then present, the set grows by one exactly when the value was never
      added before, and the earlier insertion order is kept. */
  lemma {:induction false} DedupAppend<T(!new)>(s: seq<T>, x: T)
    ensures x in Dedup(s + [x])
    ensures |Dedup(s + [x])| == |Dedup(s)| + (if x in s then 0 else 1)
    ensures Dedup(s + [x])[..|Dedup(s)|] == Dedup(s)
  {
    DedupSnoc(s, x);
    DedupMembers(s);
  }
}
