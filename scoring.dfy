/** Scoring engine: maps raw per-node and per-edge signals to bounded scores.
    Node credibility `c` and edge trust probability `p` are averages of
    components that are each capped at 1; the resemblance ratio `ra` is the
    fraction of u's defined demographic attributes that v shares. */
module Scoring {

  datatype Option<T> = None | Some(value: T)

  /** The seven resemblance attributes of a user, each possibly absent. */
  datatype Profile = Profile(
    hometown: Option<int>,
    currCountry: Option<int>,
    currCity: Option<int>,
    homeCountry: Option<int>,
    gender: Option<int>,
    language: Option<int>,
    religion: Option<int>)

  /** The attributes in the order the resemblance loop visits them. */
  function Attributes(pr: Profile): (r: seq<Option<int>>)
    ensures |r| == 7
  {
    [pr.hometown, pr.currCountry, pr.currCity, pr.homeCountry, pr.gender, pr.language, pr.religion]
  }

  /** One score component: `x / bound` while `x` is below `bound`, and 1 from
      there on. The guard is what keeps the division away from a zero bound. */
  function Capped(x: real, bound: real): (r: real)
    requires 0.0 <= bound
    requires x < bound ==> bound != 0.0
    ensures r <= 1.0
    ensures r == 1.0 <==> bound <= x
    ensures 0.0 <= r <==> 0.0 <= x
    ensures x < bound ==> r * bound == x
  {
    if x < bound then x / bound else 1.0
  }

  /** Average friendship count per user, `friendship_amount / n`. */
  function FairShare(friendshipAmount: nat, n: nat): (r: real)
    requires n > 0
    ensures 0.0 <= r
    ensures r * n as real == friendshipAmount as real
  {
    friendshipAmount as real / n as real
  }

  /** Credibility of a user from its degree `tf`, account age `aua` (days)
      and follower/followee ratio `ffr`. */
  function NodeGrade(tf: nat, aua: int, ffr: real, friendshipAmount: nat, n: nat): (c: real)
    requires n > 0
    ensures c <= 1.0
    ensures 0 <= aua && 0.0 <= ffr ==> 0.0 <= c
    ensures c == 1.0 <==> FairShare(friendshipAmount, n) <= tf as real && 365 <= aua && 1.0 <= ffr
    ensures friendshipAmount == 0 && 0 <= aua && 0.0 <= ffr ==> 1.0 <= 3.0 * c
  {
    var cTf := Capped(tf as real, FairShare(friendshipAmount, n));
    var cAua := Capped(aua as real, 365.0);
    var cFfr := Capped(ffr, 1.0);
    (cTf + cAua + cFfr) / 3.0
  }

  /** Trust probability of a friendship from the endpoints' degrees, the
      mutual-friend count `mf`, the friendship duration `fd` (days), the
      interest overlap ratio `oir` and the resemblance ratio `ra`. */
  function EdgeGrade(tfU: nat, tfV: nat, mf: nat, fd: int, oir: real, ra: real): (p: real)
    ensures ra <= 1.0 ==> p <= 1.0
    ensures 0 <= fd && 0.0 <= oir && 0.0 <= ra ==> 0.0 <= p
    ensures ra <= 1.0 ==>
      (p == 1.0 <==> MaxDegree(tfU, tfV) as real * 0.1 <= mf as real && 365 <= fd && 1.0 <= oir && ra == 1.0)
    ensures tfU == 0 && tfV == 0 && ra <= 1.0 ==>
      (p == 1.0 <==> 365 <= fd && 1.0 <= oir && ra == 1.0)
  {
    var maxTf := MaxDegree(tfU, tfV);
    var pMf := Capped(mf as real, maxTf as real * 0.1);
    var pFd := Capped(fd as real, 365.0);
    var pOir := Capped(oir, 1.0);
    (pMf + pFd + pOir + ra) / 4.0
  }

  function MaxDegree(a: nat, b: nat): (m: nat)
    ensures a <= m && b <= m && (m == a || m == b)
  {
    if a < b then b else a
  }

  /** Number of attributes defined in `xs` (`count_ta`). */
  function Defined(xs: seq<Option<int>>): nat
  {
    if xs == [] then 0
    else Defined(xs[..|xs| - 1]) + (if xs[|xs| - 1].Some? then 1 else 0)
  }

  /** Number of positions where `xs` is defined and `ys` holds the same value (`count_tra`). */
  function Matching(xs: seq<Option<int>>, ys: seq<Option<int>>): nat
    requires |xs| == |ys|
  {
    if xs == [] then 0
    else Matching(xs[..|xs| - 1], ys[..|ys| - 1])
         + (if xs[|xs| - 1].Some? && xs[|xs| - 1] == ys[|ys| - 1] then 1 else 0)
  }

  /** The resemblance ratio of u towards v: matches over u's defined attributes, 0 when u has none. */
  function ResemblanceRatio(u: Profile, v: Profile): real
  {
    var a := Defined(Attributes(u));
    if a == 0 then 0.0 else Matching(Attributes(u), Attributes(v)) as real / a as real
  }

  /** `compute_resemblence`: counts defined and matching attributes in one pass. */
  method ComputeResemblance(u: Profile, v: Profile) returns (ra: real)
    ensures ra == ResemblanceRatio(u, v)
    ensures 0.0 <= ra <= 1.0
  {
    var us, vs := Attributes(u), Attributes(v);
    var countTa, countTra := 0, 0;
    for i := 0 to |us|
      invariant countTa == Defined(us[..i])
      invariant countTra == Matching(us[..i], vs[..i])
    {
      assert us[..i + 1][..i] == us[..i];
      assert vs[..i + 1][..i] == vs[..i];
      if us[i].Some? {
        countTa := countTa + 1;
        if us[i] == vs[i] {
          countTra := countTra + 1;
        }
      }
    }
    assert us[..|us|] == us && vs[..|vs|] == vs;
    if countTa == 0 {
      return 0.0;
    }
    ResemblanceInUnitInterval(u, v);
    ra := countTra as real / countTa as real;
  }

  lemma {:induction false} MatchingAtMostDefined(xs: seq<Option<int>>, ys: seq<Option<int>>)
    requires |xs| == |ys|
    ensures Matching(xs, ys) <= Defined(xs)
  {
    if xs != [] {
      MatchingAtMostDefined(xs[..|xs| - 1], ys[..|ys| - 1]);
    }
  }

  /** Matching reaches Defined exactly when every defined attribute of xs is matched in ys. */
  lemma {:induction false} MatchingEqualsDefined(xs: seq<Option<int>>, ys: seq<Option<int>>)
    requires |xs| == |ys|
    ensures Matching(xs, ys) == Defined(xs) <==> forall i :: 0 <= i < |xs| && xs[i].Some? ==> xs[i] == ys[i]
  {
    if xs != [] {
      var xs', ys' := xs[..|xs| - 1], ys[..|ys| - 1];
      MatchingEqualsDefined(xs', ys');
      MatchingAtMostDefined(xs', ys');
      assert forall i :: 0 <= i < |xs'| ==> xs'[i] == xs[i] && ys'[i] == ys[i];
    }
  }

  /** Matching is zero exactly when no defined attribute of xs is matched in ys. */
  lemma {:induction false} MatchingZero(xs: seq<Option<int>>, ys: seq<Option<int>>)
    requires |xs| == |ys|
    ensures Matching(xs, ys) == 0 <==> forall i :: 0 <= i < |xs| && xs[i].Some? ==> xs[i] != ys[i]
  {
    if xs != [] {
      var xs', ys' := xs[..|xs| - 1], ys[..|ys| - 1];
      MatchingZero(xs', ys');
      assert forall i :: 0 <= i < |xs'| ==> xs'[i] == xs[i] && ys'[i] == ys[i];
    }
  }

  /** Defined is zero exactly when no attribute is defined. */
  lemma {:induction false} DefinedZero(xs: seq<Option<int>>)
    ensures Defined(xs) == 0 <==> forall i :: 0 <= i < |xs| ==> xs[i].None?
  {
    if xs != [] {
      var xs' := xs[..|xs| - 1];
      DefinedZero(xs');
      assert forall i :: 0 <= i < |xs'| ==> xs'[i] == xs[i];
    }
  }

  lemma ResemblanceInUnitInterval(u: Profile, v: Profile)
    ensures 0.0 <= ResemblanceRatio(u, v) <= 1.0
  {
    MatchingAtMostDefined(Attributes(u), Attributes(v));
  }

  /** The ratio is 1 exactly when u has some defined attribute and v agrees on all of u's defined ones. */
  lemma ResemblanceFull(u: Profile, v: Profile)
    ensures ResemblanceRatio(u, v) == 1.0 <==>
      (exists i :: 0 <= i < 7 && Attributes(u)[i].Some?) &&
      (forall i :: 0 <= i < 7 && Attributes(u)[i].Some? ==> Attributes(u)[i] == Attributes(v)[i])
  {
    var us, vs := Attributes(u), Attributes(v);
    DefinedZero(us);
    MatchingEqualsDefined(us, vs);
    MatchingAtMostDefined(us, vs);
    if Defined(us) != 0 && ResemblanceRatio(u, v) == 1.0 {
      assert Matching(us, vs) as real == Defined(us) as real;
    }
  }

  /** The ratio is 0 exactly when v agrees with u on none of u's defined attributes
      (in particular when u has none defined). */
  lemma ResemblanceZero(u: Profile, v: Profile)
    ensures ResemblanceRatio(u, v) == 0.0 <==>
      forall i :: 0 <= i < 7 && Attributes(u)[i].Some? ==> Attributes(u)[i] != Attributes(v)[i]
  {
    var us, vs := Attributes(u), Attributes(v);
    DefinedZero(us);
    MatchingZero(us, vs);
    MatchingAtMostDefined(us, vs);
  }

  /** Only u's defined attributes are counted, so the ratio is not symmetric. */
  lemma ResemblanceAsymmetric()
    ensures var u := Profile(Some(1), None, None, None, None, None, None);
            var v := Profile(Some(1), Some(1), Some(1), Some(1), Some(1), Some(1), Some(1));
            ResemblanceRatio(u, v) == 1.0 && ResemblanceRatio(v, u) == 1.0 / 7.0
  {
    var u := Profile(Some(1), None, None, None, None, None, None);
    var v := Profile(Some(1), Some(1), Some(1), Some(1), Some(1), Some(1), Some(1));
    var us, vs := Attributes(u), Attributes(v);
    assert us[..1][..0] == [] && vs[..1][..0] == [];
    assert Defined(us[..1]) == 1 && Matching(us[..1], vs[..1]) == 1 && Defined(vs[..1]) == 1 && Matching(vs[..1], us[..1]) == 1;
    assert us[..2][..1] == us[..1] && vs[..2][..1] == vs[..1];
    assert Defined(us[..2]) == 1 && Matching(us[..2], vs[..2]) == 1 && Defined(vs[..2]) == 2 && Matching(vs[..2], us[..2]) == 1;
    assert us[..3][..2] == us[..2] && vs[..3][..2] == vs[..2];
    assert Defined(us[..3]) == 1 && Matching(us[..3], vs[..3]) == 1 && Defined(vs[..3]) == 3 && Matching(vs[..3], us[..3]) == 1;
    assert us[..4][..3] == us[..3] && vs[..4][..3] == vs[..3];
    assert Defined(us[..4]) == 1 && Matching(us[..4], vs[..4]) == 1 && Defined(vs[..4]) == 4 && Matching(vs[..4], us[..4]) == 1;
    assert us[..5][..4] == us[..4] && vs[..5][..4] == vs[..4];
    assert Defined(us[..5]) == 1 && Matching(us[..5], vs[..5]) == 1 && Defined(vs[..5]) == 5 && Matching(vs[..5], us[..5]) == 1;
    assert us[..6][..5] == us[..5] && vs[..6][..5] == vs[..5];
    assert Defined(us[..6]) == 1 && Matching(us[..6], vs[..6]) == 1 && Defined(vs[..6]) == 6 && Matching(vs[..6], us[..6]) == 1;
    assert us[..7][..6] == us[..6] && vs[..7][..6] == vs[..6];
    assert Defined(us[..7]) == 1 && Matching(us[..7], vs[..7]) == 1 && Defined(vs[..7]) == 7 && Matching(vs[..7], us[..7]) == 1;
    assert us[..7] == us && vs[..7] == vs;
  }
}
