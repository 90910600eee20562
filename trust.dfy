/** Trust Score Product (TSP) of a path: the product, over each arc (u, v) of
    the path, of the credibility of v and the trust probability of (u, v).
    The credibility of the first node is never a factor. */
module Trust {
  import opened Digraphs

  /** The scores a TSP of `path` reads are present: `c` of every node but the
      first, and `p` of every consecutive pair. */
  predicate Scorable(g: Digraph, path: seq<int>)
  {
    forall i :: 1 <= i < |path| ==> path[i] in g.c && (path[i - 1], path[i]) in g.p
  }

  /** A path of a well-formed graph has all the scores its TSP reads. */
  lemma PathIsScorable(g: Digraph, path: seq<int>)
    requires WellFormed(g) && IsPath(g.arcs, path)
    ensures Scorable(g, path)
  {
    forall i | 1 <= i < |path| ensures path[i] in g.c && (path[i - 1], path[i]) in g.p {
      var a := (path[i - 1], path[i]);
      assert a in g.arcs && a.1 == path[i];
    }
  }

  function Tsp(g: Digraph, path: seq<int>): real
    requires Scorable(g, path)
  {
    if |path| <= 1 then 1.0
    else
      var k := |path| - 1;
      Tsp(g, path[..k]) * g.c[path[k]] * g.p[(path[k - 1], path[k])]
  }

  /** `compute_tsp`: multiplies the factors of the consecutive pairs in order. */
  method ComputeTsp(g: Digraph, path: seq<int>) returns (tsp: real)
    requires Scorable(g, path)
    ensures tsp == Tsp(g, path)
  {
    tsp := 1.0;
    if |path| == 0 {
      return;
    }
    for i := 1 to |path|
      invariant tsp == Tsp(g, path[..i])
    {
      assert path[..i + 1][..i] == path[..i];
      tsp := tsp * g.c[path[i]] * g.p[(path[i - 1], path[i])];
    }
    assert path[..|path|] == path;
  }

  /** With every score in [0, 1], a TSP lies in [0, 1]. */
  lemma {:induction false} TspInUnitInterval(g: Digraph, path: seq<int>)
    requires WellFormed(g) && ScoresInUnit(g) && IsPath(g.arcs, path)
    ensures Scorable(g, path) && 0.0 <= Tsp(g, path) <= 1.0
  {
    PathIsScorable(g, path);
    if |path| > 1 {
      var k := |path| - 1;
      Prefix(g.arcs, path, k);
      TspInUnitInterval(g, path[..k]);
      var a := (path[k - 1], path[k]);
      assert a in g.arcs && a.1 == path[k];
      UnitProduct(Tsp(g, path[..k]), g.c[path[k]], g.p[(path[k - 1], path[k])]);
    }
  }

  lemma UnitProduct(x: real, y: real, z: real)
    requires 0.0 <= x <= 1.0 && 0.0 <= y <= 1.0 && 0.0 <= z <= 1.0
    ensures 0.0 <= x * y * z <= 1.0
  {
    ScaleDown(x, y);
    ScaleDown(x * y, z);
  }

  /** Multiplying by a factor in [0, 1] cannot raise a non-negative value. */
  lemma ScaleDown(f: real, v: real)
    requires 0.0 <= f <= 1.0 && 0.0 <= v
    ensures 0.0 <= f * v <= v
  {
    assert v - f * v == (1.0 - f) * v;
  }

  /** Splitting a path at a shared node multiplies the TSPs of the two parts. */
  lemma {:induction false} TspSplit(g: Digraph, a: seq<int>, b: seq<int>)
    requires |a| >= 1 && |b| >= 1 && a[|a| - 1] == b[0]
    requires Scorable(g, a + b[1..])
    ensures Scorable(g, a) && Scorable(g, b)
    ensures Tsp(g, a + b[1..]) == Tsp(g, a) * Tsp(g, b)
  {
    var ab := a + b[1..];
    forall i | 1 <= i < |a| ensures a[i] in g.c && (a[i - 1], a[i]) in g.p {
      assert a[i] == ab[i] && a[i - 1] == ab[i - 1];
    }
    forall i | 1 <= i < |b| ensures b[i] in g.c && (b[i - 1], b[i]) in g.p {
      assert b[i] == ab[|a| - 1 + i] && b[i - 1] == ab[|a| - 2 + i];
    }
    if |b| > 1 {
      var k := |b| - 1;
      var b' := b[..k];
      assert ab[..|ab| - 1] == a + b'[1..];
      TspSplit(g, a, b');
      assert ab[|ab| - 1] == b[k] && ab[|ab| - 2] == b[k - 1];
      assert b[..k] == b';
    } else {
      assert ab == a;
    }
  }

  /** The first node's credibility is not a factor: changing it (on a path
      that does not return to its first node) leaves the TSP unchanged. */
  lemma {:induction false} SourceCredibilityIgnored(g: Digraph, path: seq<int>, x: real)
    requires |path| >= 1 && Scorable(g, path)
    requires forall i :: 1 <= i < |path| ==> path[i] != path[0]
    ensures Scorable(g.(c := g.c[path[0] := x]), path)
    ensures Tsp(g.(c := g.c[path[0] := x]), path) == Tsp(g, path)
  {
    var g' := g.(c := g.c[path[0] := x]);
    if |path| > 1 {
      var k := |path| - 1;
      var init := path[..k];
      assert init[0] == path[0];
      SourceCredibilityIgnored(g, init, x);
      assert g'.c[path[k]] == g.c[path[k]];
    }
  }

  /** Splitting a path at its k-th node multiplies the TSPs of the two parts. */
  lemma SplitAt(g: Digraph, q: seq<int>, k: nat)
    requires k < |q| && Scorable(g, q)
    ensures Scorable(g, q[..k + 1]) && Scorable(g, q[k..])
    ensures Tsp(g, q) == Tsp(g, q[..k + 1]) * Tsp(g, q[k..])
  {
    assert q[..k + 1] + q[k..][1..] == q;
    TspSplit(g, q[..k + 1], q[k..]);
  }

  /** Going round a cycle cannot raise the TSP: when a path visits the same
      node at positions i and j, cutting out the loop between them scores at
      least as much. This is why dropping cycles loses no best path. */
  lemma CycleNeverHelps(g: Digraph, q: seq<int>, i: nat, j: nat)
    requires WellFormed(g) && ScoresInUnit(g) && IsPath(g.arcs, q)
    requires i < j < |q| && q[i] == q[j]
    ensures IsPath(g.arcs, q[..i + 1] + q[j + 1..])
    ensures Scorable(g, q) && Scorable(g, q[..i + 1] + q[j + 1..])
    ensures Tsp(g, q) <= Tsp(g, q[..i + 1] + q[j + 1..])
  {
    CyclePieces(g, q, i, j);
    LoopRemoval(g, q, i, j);
  }

  /** The arithmetic core of CycleNeverHelps, once the pieces' TSPs are known to be bounded. */
  lemma LoopRemoval(g: Digraph, q: seq<int>, i: nat, j: nat)
    requires i < j < |q| && q[i] == q[j]
    requires Scorable(g, q) && Scorable(g, q[..i + 1] + q[j + 1..])
    requires Scorable(g, q[..i + 1]) && Scorable(g, q[i..j + 1]) && Scorable(g, q[j..])
    requires 0.0 <= Tsp(g, q[..i + 1]) && 0.0 <= Tsp(g, q[i..j + 1]) <= 1.0 && 0.0 <= Tsp(g, q[j..])
    ensures Tsp(g, q) <= Tsp(g, q[..i + 1] + q[j + 1..])
  {
    CycleFactors(g, q, i, j);
    var whole, upToJ, cut := Tsp(g, q), Tsp(g, q[..j + 1]), Tsp(g, q[..i + 1] + q[j + 1..]);
    var head, loop, tail := Tsp(g, q[..i + 1]), Tsp(g, q[i..j + 1]), Tsp(g, q[j..]);
    LoopFactor(whole, upToJ, cut, head, loop, tail);
  }

  /** The pieces of a path around a loop are paths, and their TSPs lie in [0, 1]. */
  lemma CyclePieces(g: Digraph, q: seq<int>, i: nat, j: nat)
    requires WellFormed(g) && ScoresInUnit(g) && IsPath(g.arcs, q)
    requires i < j < |q| && q[i] == q[j]
    ensures IsPath(g.arcs, q[..i + 1] + q[j + 1..])
    ensures Scorable(g, q) && Scorable(g, q[..i + 1] + q[j + 1..])
    ensures Scorable(g, q[..i + 1]) && 0.0 <= Tsp(g, q[..i + 1])
    ensures Scorable(g, q[i..j + 1]) && 0.0 <= Tsp(g, q[i..j + 1]) <= 1.0
    ensures Scorable(g, q[j..]) && 0.0 <= Tsp(g, q[j..])
  {
    var short := q[..i + 1] + q[j + 1..];
    SlicePath(g.arcs, q, 0, i + 1);
    SlicePath(g.arcs, q, i, j + 1);
    SlicePath(g.arcs, q, j, |q|);
    assert q[0..i + 1] == q[..i + 1] && q[j..|q|] == q[j..];
    assert short == q[..i + 1] + q[j..][1..];
    JoinIsPath(g.arcs, q[..i + 1], q[j..]);
    PathIsScorable(g, q);
    PathIsScorable(g, short);
    TspInUnitInterval(g, q[..i + 1]);
    TspInUnitInterval(g, q[i..j + 1]);
    TspInUnitInterval(g, q[j..]);
  }

  /** The TSPs of a path with a loop and of the same path without it, as
      products of the TSPs of the part before, the loop and the part after. */
  lemma CycleFactors(g: Digraph, q: seq<int>, i: nat, j: nat)
    requires i < j < |q| && q[i] == q[j]
    requires Scorable(g, q) && Scorable(g, q[..i + 1] + q[j + 1..])
    ensures Scorable(g, q[..j + 1]) && Scorable(g, q[..i + 1]) && Scorable(g, q[i..j + 1]) && Scorable(g, q[j..])
    ensures Tsp(g, q) == Tsp(g, q[..j + 1]) * Tsp(g, q[j..])
    ensures Tsp(g, q[..j + 1]) == Tsp(g, q[..i + 1]) * Tsp(g, q[i..j + 1])
    ensures Tsp(g, q[..i + 1] + q[j + 1..]) == Tsp(g, q[..i + 1]) * Tsp(g, q[j..])
  {
    SplitAt(g, q, j);
    assert q[..j + 1][..i + 1] == q[..i + 1] && q[..j + 1][i..] == q[i..j + 1];
    SplitAt(g, q[..j + 1], i);
    assert q[..i + 1] + q[j + 1..] == q[..i + 1] + q[j..][1..];
    TspSplit(g, q[..i + 1], q[j..]);
  }

  /** A contiguous piece of a path is a path. */
  lemma SlicePath(arcs: set<Arc>, q: seq<int>, lo: nat, hi: nat)
    requires IsPath(arcs, q) && lo < hi <= |q|
    ensures IsPath(arcs, q[lo..hi])
  {
    var s := q[lo..hi];
    forall k | 0 <= k < |s| - 1 ensures (s[k], s[k + 1]) in arcs {
      assert s[k] == q[lo + k] && s[k + 1] == q[lo + k + 1];
    }
  }

  lemma LoopFactor(whole: real, withLoop: real, short: real, a: real, l: real, b: real)
    requires 0.0 <= a && 0.0 <= l <= 1.0 && 0.0 <= b
    requires whole == withLoop * b && withLoop == a * l && short == a * b
    ensures whole <= short
  {
    ScaleDown(l, a * b);
    assert a * l * b == l * (a * b);
  }

  /** Two paths that meet at a node join into one path. */
  lemma JoinIsPath(arcs: set<Arc>, a: seq<int>, b: seq<int>)
    requires IsPath(arcs, a) && IsPath(arcs, b) && a[|a| - 1] == b[0]
    ensures IsPath(arcs, a + b[1..])
  {
    var ab := a + b[1..];
    forall i | 0 <= i < |ab| - 1 ensures (ab[i], ab[i + 1]) in arcs {
      if i < |a| - 1 {
        assert ab[i] == a[i] && ab[i + 1] == a[i + 1];
      } else {
        var j := i - (|a| - 1);
        assert ab[i] == b[j] && ab[i + 1] == b[j + 1];
      }
    }
  }
}
