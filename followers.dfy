/** Follower bookkeeping: every user draws a list of distinct followees, and
    each user's follower count is the number of those lists that contain it. */
module Followers {

  /** What `random.sample(range(n), k)` can return: distinct ids in [0, n). */
  predicate IsSample(l: seq<int>, n: nat)
  {
    && (forall i :: 0 <= i < |l| ==> 0 <= l[i] < n)
    && (forall i, j :: 0 <= i < j < |l| ==> l[i] != l[j])
  }

  /** One followee list per user, each of a length `randint(1, n - 1)` can draw. */
  predicate ValidDraws(lists: seq<seq<int>>, n: nat)
  {
    && |lists| == n
    && forall v :: 0 <= v < n ==> 1 <= |lists[v]| <= n - 1 && IsSample(lists[v], n)
  }

  /** Number of followee lists that contain `v`. */
  function FollowersOf(lists: seq<seq<int>>, v: int): nat
  {
    if lists == [] then 0
    else FollowersOf(lists[..|lists| - 1], v) + (if v in lists[|lists| - 1] then 1 else 0)
  }

  /** The follower count of every user 0..n-1. */
  function FollowerCounts(lists: seq<seq<int>>, n: nat): (r: seq<nat>)
    ensures |r| == n
  {
    seq(n, v => FollowersOf(lists, v))
  }

  /** The followee count of every user: the length of its list. */
  function Lengths(lists: seq<seq<int>>): (r: seq<nat>)
    ensures |r| == |lists|
  {
    seq(|lists|, i requires 0 <= i < |lists| => |lists[i]|)
  }

  function Total(s: seq<nat>): nat
  {
    if s == [] then 0 else Total(s[..|s| - 1]) + s[|s| - 1]
  }

  function Flatten(lists: seq<seq<int>>): seq<int>
  {
    if lists == [] then [] else Flatten(lists[..|lists| - 1]) + lists[|lists| - 1]
  }

  /** Sum of the multiplicities in `m` of the ids 0..k-1. */
  function Mass(m: multiset<int>, k: nat): nat
  {
    if k == 0 then 0 else Mass(m, k - 1) + m[k - 1]
  }

  /** A user is followed by at most one user per list. */
  lemma {:induction false} FollowersAtMostLists(lists: seq<seq<int>>, v: int)
    ensures FollowersOf(lists, v) <= |lists|
  {
    if lists != [] {
      FollowersAtMostLists(lists[..|lists| - 1], v);
    }
  }

  /** A list of distinct ids holds each id at most once. */
  lemma {:induction false} SampleMultiplicity(l: seq<int>, n: nat, v: int)
    requires IsSample(l, n)
    ensures multiset(l)[v] == if v in l then 1 else 0
  {
    if l != [] {
      var l' := l[..|l| - 1];
      assert l == l' + [l[|l| - 1]];
      assert IsSample(l', n);
      SampleMultiplicity(l', n, v);
      if l[|l| - 1] == v {
        assert v !in l' by {
          forall i | 0 <= i < |l'| ensures l'[i] != v { assert l'[i] == l[i]; }
        }
      }
    }
  }

  /** With distinct followees, a follower count is also a multiplicity in the flattened lists. */
  lemma {:induction false} FollowersAsOccurrences(lists: seq<seq<int>>, n: nat, v: int)
    requires forall i :: 0 <= i < |lists| ==> IsSample(lists[i], n)
    ensures FollowersOf(lists, v) == multiset(Flatten(lists))[v]
  {
    if lists != [] {
      var last := lists[|lists| - 1];
      FollowersAsOccurrences(lists[..|lists| - 1], n, v);
      SampleMultiplicity(last, n, v);
    }
  }

  lemma {:induction false} MassAdd(m: multiset<int>, x: int, k: nat)
    ensures Mass(m + multiset{x}, k) == Mass(m, k) + (if 0 <= x < k then 1 else 0)
  {
    if k > 0 {
      MassAdd(m, x, k - 1);
    }
  }

  /** Summing the multiplicities of 0..k-1 counts every element of a sequence drawn from [0, k). */
  lemma {:induction false} MassOfSequence(s: seq<int>, k: nat)
    requires forall i :: 0 <= i < |s| ==> 0 <= s[i] < k
    ensures Mass(multiset(s), k) == |s|
  {
    if s == [] {
      MassOfEmpty(k);
    } else {
      var s' := s[..|s| - 1];
      assert s == s' + [s[|s| - 1]];
      MassOfSequence(s', k);
      MassAdd(multiset(s'), s[|s| - 1], k);
    }
  }

  lemma {:induction false} MassOfEmpty(k: nat)
    ensures Mass(multiset{}, k) == 0
  {
    if k > 0 {
      MassOfEmpty(k - 1);
    }
  }

  lemma {:induction false} FlattenLength(lists: seq<seq<int>>)
    ensures |Flatten(lists)| == Total(Lengths(lists))
  {
    if lists != [] {
      var init := lists[..|lists| - 1];
      FlattenLength(init);
      assert Lengths(lists)[..|lists| - 1] == Lengths(init);
    }
  }

  lemma {:induction false} FlattenInRange(lists: seq<seq<int>>, n: nat)
    requires forall i :: 0 <= i < |lists| ==> IsSample(lists[i], n)
    ensures forall i :: 0 <= i < |Flatten(lists)| ==> 0 <= Flatten(lists)[i] < n
  {
    if lists != [] {
      FlattenInRange(lists[..|lists| - 1], n);
    }
  }

  lemma {:induction false} CountsAsMass(lists: seq<seq<int>>, n: nat, k: nat)
    requires forall i :: 0 <= i < |lists| ==> IsSample(lists[i], n)
    ensures Total(FollowerCounts(lists, k)) == Mass(multiset(Flatten(lists)), k)
  {
    if k > 0 {
      CountsAsMass(lists, n, k - 1);
      assert FollowerCounts(lists, k)[..k - 1] == FollowerCounts(lists, k - 1);
      FollowersAsOccurrences(lists, n, k - 1);
    }
  }

  /** Every follow is counted once on each side: the follower counts sum to the followee counts. */
  lemma FollowerTotal(lists: seq<seq<int>>, n: nat)
    requires ValidDraws(lists, n)
    ensures Total(FollowerCounts(lists, n)) == Total(Lengths(lists))
  {
    CountsAsMass(lists, n, n);
    FlattenInRange(lists, n);
    MassOfSequence(Flatten(lists), n);
    FlattenLength(lists);
  }
}
