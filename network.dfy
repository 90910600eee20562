/** The social network `g` and the score pass over it: follower bookkeeping,
    node attributes and credibility, edge attributes and trust probability,
    and the bi-directional copy the path search starts from. */
module Network {
  import opened Scoring
  import opened Followers
  import opened Digraphs

  /** An undirected friendship as `g.edges()` lists it: lower id first. */
  type Edge = (int, int)

  /** The edge list of a simple graph on users 0..n-1: no self-loop, no
      friendship listed twice. */
  predicate SimpleEdges(n: nat, edges: seq<Edge>)
  {
    && (forall i :: 0 <= i < |edges| ==> 0 <= edges[i].0 < edges[i].1 < n)
    && (forall i, j :: 0 <= i < j < |edges| ==> edges[i] != edges[j])
  }

  /** `v` and `w` are friends. */
  predicate Adjacent(edges: seq<Edge>, v: int, w: int)
  {
    (v, w) in edges || (w, v) in edges
  }

  /** The number of friends of `v` among the users 0..k-1. */
  function FriendsBelow(edges: seq<Edge>, v: int, k: nat): nat
  {
    if k == 0 then 0 else FriendsBelow(edges, v, k - 1) + (if Adjacent(edges, v, k - 1) then 1 else 0)
  }

  /** The number of users among 0..k-1 who are friends of both `u` and `v`. */
  function CommonBelow(edges: seq<Edge>, u: int, v: int, k: nat): nat
  {
    if k == 0 then 0
    else CommonBelow(edges, u, v, k - 1) + (if Adjacent(edges, u, k - 1) && Adjacent(edges, v, k - 1) then 1 else 0)
  }

  /** `tf`: `g.degree(v)`, the number of friends of `v`. */
  function Degree(n: nat, edges: seq<Edge>, v: int): nat
  {
    FriendsBelow(edges, v, n)
  }

  /** `mf`: the number of friends of `u` who are also friends of `v`. */
  function MutualFriends(n: nat, edges: seq<Edge>, u: int, v: int): nat
  {
    CommonBelow(edges, u, v, n)
  }

  /** Below any bound, a common friend of `u` and `v` is a friend of `u`, and
      `v` itself, a friend of `u` but not of itself, is counted only on the
      side of `u`. */
  lemma {:induction false} CommonBelowFriends(edges: seq<Edge>, u: int, v: int, k: nat)
    requires Adjacent(edges, u, v) && !Adjacent(edges, v, v)
    ensures CommonBelow(edges, u, v, k) + (if 0 <= v < k then 1 else 0) <= FriendsBelow(edges, u, k)
  {
    if k > 0 {
      CommonBelowFriends(edges, u, v, k - 1);
    }
  }

  /** No user is their own friend in a simple graph. */
  lemma NoSelfFriend(n: nat, edges: seq<Edge>, v: int)
    requires SimpleEdges(n, edges)
    ensures !Adjacent(edges, v, v)
  {
    forall k | 0 <= k < |edges| ensures edges[k] != (v, v) {
      assert edges[k].0 < edges[k].1;
    }
  }

  /** Two friends are not among their own mutual friends, so each has at
      least one friend more than they have in common. */
  lemma MutualFriendsBelowDegree(n: nat, edges: seq<Edge>, i: nat)
    requires SimpleEdges(n, edges) && i < |edges|
    ensures MutualFriends(n, edges, edges[i].0, edges[i].1) < Degree(n, edges, edges[i].0)
    ensures MutualFriends(n, edges, edges[i].0, edges[i].1) < Degree(n, edges, edges[i].1)
  {
    var (u, v) := edges[i];
    NoSelfFriend(n, edges, u);
    NoSelfFriend(n, edges, v);
    CommonBelowFriends(edges, u, v, n);
    CommonBelowFriends(edges, v, u, n);
    CommonSymmetric(edges, u, v, n);
  }

  lemma {:induction false} CommonSymmetric(edges: seq<Edge>, u: int, v: int, k: nat)
    ensures CommonBelow(edges, u, v, k) == CommonBelow(edges, v, u, k)
  {
    if k > 0 {
      CommonSymmetric(edges, u, v, k - 1);
    }
  }

  /** The attribute dictionary of one friendship: mutual friends, friendship
      duration (days), interest overlap ratio, resemblance and trust probability. */
  datatype EdgeData = EdgeData(mf: nat, fd: int, oir: real, ra: real, p: real)

  /** The users 0..n-1. */
  function Users(n: nat): (r: set<int>)
    ensures forall v :: v in r <==> 0 <= v < n
  {
    if n == 0 then {} else Users(n - 1) + {n - 1}
  }

  /** `ffr`: followers per followee. */
  function FollowRatio(followers: nat, followees: nat): (r: real)
    requires followees >= 1
    ensures 0.0 <= r
    ensures r * followees as real == followers as real
  {
    followers as real / followees as real
  }

  /** The global graph `g` with its node and edge attribute dictionaries.
      Node attributes are sequences indexed by user id; edge attributes are
      maps keyed by the friendship as `g.edges()` lists it. */
  class SocialGraph {
    const n: nat
    const friendshipAmount: nat
    const edges: seq<Edge>

    var followers: seq<nat>
    var followees: seq<nat>
    var profile: seq<Profile>
    var tf: seq<nat>
    var ffr: seq<real>
    var aua: seq<int>
    var c: seq<real>
    var edgeData: map<Edge, EdgeData>

    /** A freshly generated graph: users 0..n-1 and their friendships, no attribute yet. */
    constructor(n: nat, friendshipAmount: nat, edges: seq<Edge>)
      requires SimpleEdges(n, edges)
      ensures this.n == n && this.friendshipAmount == friendshipAmount && this.edges == edges
      ensures followers == [] && followees == [] && profile == []
      ensures tf == [] && ffr == [] && aua == [] && c == []
      ensures edgeData == map[]
    {
      this.n := n;
      this.friendshipAmount := friendshipAmount;
      this.edges := edges;
      followers, followees, profile := [], [], [];
      tf, ffr, aua, c := [], [], [], [];
      edgeData := map[];
    }

    /** Every user has a follower and a followee count, and follows someone. */
    predicate Followed()
      reads this
    {
      |followers| == n && |followees| == n && forall v :: 0 <= v < n ==> followees[v] >= 1
    }

    /** Every user carries `tf`, `ffr`, `aua` and a credibility `c` in [0, 1]. */
    predicate NodesScored()
      reads this
    {
      && |tf| == n && |ffr| == n && |aua| == n && |c| == n
      && forall v :: 0 <= v < n ==> 0.0 <= c[v] <= 1.0
    }

    /** On top of that, every friendship carries a resemblance and a trust
        probability in [0, 1]. */
    predicate Scored()
      reads this
    {
      && NodesScored()
      && forall i :: 0 <= i < |edges| ==>
           edges[i] in edgeData && 0.0 <= edgeData[edges[i]].ra <= 1.0 && 0.0 <= edgeData[edges[i]].p <= 1.0
    }

    /** The attributes the edge loop of `set_scores` gives friendship `e`
        when its draws are `fdDraw` and `oirDraw`. */
    function EdgeDataOf(e: Edge, fdDraw: int, oirDraw: real): (d: EdgeData)
      requires 0 <= e.0 < |tf| && 0 <= e.1 < |tf| && 0 <= e.0 < |profile| && 0 <= e.1 < |profile|
      reads this`tf, this`profile
      ensures 0.0 <= d.ra <= 1.0 && d.p <= 1.0
      ensures 0 <= fdDraw && 0.0 <= oirDraw ==> 0.0 <= d.p
    {
      ResemblanceInUnitInterval(profile[e.0], profile[e.1]);
      var mf := MutualFriends(n, edges, e.0, e.1);
      var ra := ResemblanceRatio(profile[e.0], profile[e.1]);
      EdgeData(mf, fdDraw, oirDraw, ra, EdgeGrade(tf[e.0], tf[e.1], mf, fdDraw, oirDraw, ra))
    }

    /** `handle_ffr_nodes`, with the followee list user v drew as `lists[v]`:
        every follower count starts at 0 and ends as the number of lists that
        name the user; every followee count is the length of the user's list. */
    method HandleFfrNodes(lists: seq<seq<int>>)
      requires ValidDraws(lists, n)
      modifies this`followers, this`followees
      ensures followers == FollowerCounts(lists, n)
      ensures followees == Lengths(lists)
      ensures Total(followers) == Total(followees)
      ensures Followed()
    {
      followers := [];
      for v := 0 to n
        invariant followers == seq(v, _ => 0)
      {
        followers := followers + [0];
      }
      followees := [];
      for v := 0 to n
        invariant |followers| == n && followees == Lengths(lists[..v])
        invariant forall w :: 0 <= w < n ==> followers[w] == FollowersOf(lists[..v], w)
      {
        var chosen := lists[v];
        followees := followees + [|chosen|];
        assert lists[..v + 1][..v] == lists[..v];
        assert Lengths(lists[..v + 1]) == Lengths(lists[..v]) + [|chosen|];
        for j := 0 to |chosen|
          invariant |followers| == n && followees == Lengths(lists[..v + 1])
          invariant forall w :: 0 <= w < n ==>
            followers[w] == FollowersOf(lists[..v], w) + (if w in chosen[..j] then 1 else 0)
        {
          var followed := chosen[j];
          assert followed !in chosen[..j] by {
            forall k | 0 <= k < j ensures chosen[..j][k] != followed {}
          }
          assert chosen[..j + 1] == chosen[..j] + [followed];
          followers := followers[followed := followers[followed] + 1];
        }
        assert chosen[..|chosen|] == chosen;
      }
      assert lists[..n] == lists;
      FollowerTotal(lists, n);
    }

    /** `handle_ra_nodes`: the seven optional attributes of every user, drawn elsewhere. */
    method HandleRaNodes(profiles: seq<Profile>)
      requires |profiles| == n
      modifies this`profile
      ensures profile == profiles
    {
      profile := profiles;
    }

    /** The node loop of `set_scores`, with `aua` drawn from [0, 365 * 12]:
        every user gets its degree, its follow ratio, its account age and the
        credibility those give, which lies in [0, 1]. */
    method ScoreNodes(auaDraws: seq<int>)
      requires Followed()
      requires |auaDraws| == n && forall v :: 0 <= v < n ==> 0 <= auaDraws[v] <= 365 * 12
      modifies this`tf, this`ffr, this`aua, this`c
      ensures tf == seq(n, v => Degree(n, edges, v))
      ensures |ffr| == n && forall v :: 0 <= v < n ==> ffr[v] == FollowRatio(followers[v], followees[v])
      ensures aua == auaDraws
      ensures |c| == n && forall v :: 0 <= v < n ==> c[v] == NodeGrade(tf[v], aua[v], ffr[v], friendshipAmount, n)
      ensures NodesScored()
    {
      tf, ffr, aua, c := [], [], [], [];
      for v := 0 to n
        invariant tf == seq(v, w => Degree(n, edges, w))
        invariant |ffr| == v && forall w :: 0 <= w < v ==> ffr[w] == FollowRatio(followers[w], followees[w])
        invariant aua == auaDraws[..v]
        invariant |c| == v && forall w :: 0 <= w < v ==> c[w] == NodeGrade(tf[w], aua[w], ffr[w], friendshipAmount, n)
        invariant forall w :: 0 <= w < v ==> 0.0 <= c[w] <= 1.0
      {
        tf := tf + [Degree(n, edges, v)];
        ffr := ffr + [FollowRatio(followers[v], followees[v])];
        aua := aua + [auaDraws[v]];
        c := c + [NodeGrade(tf[v], aua[v], ffr[v], friendshipAmount, n)];
      }
      assert auaDraws[..n] == auaDraws;
    }

    /** After the first `k` rounds of the edge loop of `set_scores`, each of
        the first `k` friendships carries the record its draws give, and no
        other pair carries one. */
    predicate Written(fdDraws: seq<int>, oirDraws: seq<real>, k: nat)
      requires SimpleEdges(n, edges) && |tf| == n && |profile| == n
      requires k <= |edges| && |fdDraws| == |edges| && |oirDraws| == |edges|
      reads this`tf, this`profile, this`edgeData
    {
      && (forall i :: 0 <= i < k ==>
            edges[i] in edgeData && edgeData[edges[i]] == EdgeDataOf(edges[i], fdDraws[i], oirDraws[i]))
      && (forall e :: e in edgeData ==> e in edges)
    }

    /** The edge loop of `set_scores`, with `fd` drawn from [0, min(aua(u), aua(v))]
        and `oir` from [0, 3): every friendship gets its mutual-friend count,
        its draws, its resemblance and the trust probability those give. */
    method ScoreEdges(fdDraws: seq<int>, oirDraws: seq<real>)
      requires SimpleEdges(n, edges) && NodesScored() && |profile| == n
      requires |fdDraws| == |edges| && |oirDraws| == |edges|
      requires forall i :: 0 <= i < |edges| ==>
        0 <= fdDraws[i] <= aua[edges[i].0] && fdDraws[i] <= aua[edges[i].1] && 0.0 <= oirDraws[i] < 3.0
      modifies this`edgeData
      ensures forall i :: 0 <= i < |edges| ==>
        edges[i] in edgeData && edgeData[edges[i]] == EdgeDataOf(edges[i], fdDraws[i], oirDraws[i])
      ensures forall e :: e in edgeData ==> e in edges
      ensures Scored()
    {
      edgeData := map[];
      for i := 0 to |edges|
        invariant Written(fdDraws, oirDraws, i)
      {
        ScoreEdge(i, fdDraws, oirDraws);
      }
    }

    /** One round of the edge loop of `set_scores`: friendship `edges[i]` gets
        its mutual friends, its draws, its resemblance and its trust probability. */
    method ScoreEdge(i: nat, fdDraws: seq<int>, oirDraws: seq<real>)
      requires SimpleEdges(n, edges) && |tf| == n && |profile| == n
      requires i < |edges| && |fdDraws| == |edges| && |oirDraws| == |edges|
      requires 0 <= fdDraws[i] && 0.0 <= oirDraws[i]
      requires Written(fdDraws, oirDraws, i)
      modifies this`edgeData
      ensures edgeData == old(edgeData)[edges[i] := EdgeDataOf(edges[i], fdDraws[i], oirDraws[i])]
      ensures Written(fdDraws, oirDraws, i + 1)
    {
      var (u, v) := edges[i];
      var common := MutualFriends(n, edges, u, v);
      var resemblance := ComputeResemblance(profile[u], profile[v]);
      var grade := EdgeGrade(tf[u], tf[v], common, fdDraws[i], oirDraws[i], resemblance);
      edgeData := edgeData[(u, v) := EdgeData(common, fdDraws[i], oirDraws[i], resemblance, grade)];
      assert forall k :: 0 <= k < i ==> edges[k] != edges[i];
    }

    /** `set_scores`: the whole score pass, with every random draw as a parameter. */
    method SetScores(lists: seq<seq<int>>, profiles: seq<Profile>, auaDraws: seq<int>,
                     fdDraws: seq<int>, oirDraws: seq<real>)
      requires SimpleEdges(n, edges) && ValidDraws(lists, n) && |profiles| == n
      requires |auaDraws| == n && forall v :: 0 <= v < n ==> 0 <= auaDraws[v] <= 365 * 12
      requires |fdDraws| == |edges| && |oirDraws| == |edges|
      requires forall i :: 0 <= i < |edges| ==>
        0 <= fdDraws[i] <= auaDraws[edges[i].0] && fdDraws[i] <= auaDraws[edges[i].1] && 0.0 <= oirDraws[i] < 3.0
      modifies this
      ensures followers == FollowerCounts(lists, n) && followees == Lengths(lists) && profile == profiles
      ensures aua == auaDraws && tf == seq(n, v => Degree(n, edges, v))
      ensures Followed() && Scored()
      ensures forall v :: 0 <= v < n ==> ffr[v] == FollowRatio(followers[v], followees[v])
      ensures forall v :: 0 <= v < n ==> c[v] == NodeGrade(tf[v], aua[v], ffr[v], friendshipAmount, n)
      ensures forall i :: 0 <= i < |edges| ==> edgeData[edges[i]] == EdgeDataOf(edges[i], fdDraws[i], oirDraws[i])
      ensures forall e :: e in edgeData ==> e in edges
    {
      HandleFfrNodes(lists);
      HandleRaNodes(profiles);
      ScoreNodes(auaDraws);
      ScoreEdges(fdDraws, oirDraws);
    }

    /** `g.to_directed()`: both orientations of every friendship, each carrying
        the friendship's trust probability, and every user's credibility. */
    function Directed(): (d: Digraph)
      requires SimpleEdges(n, edges) && Scored()
      reads this
      ensures d.nodes == Users(n)
      ensures forall a :: a in d.arcs <==> a in edges || (a.1, a.0) in edges
    {
      var arcs := (set i | 0 <= i < |edges| :: edges[i]) + (set i | 0 <= i < |edges| :: (edges[i].1, edges[i].0));
      Digraph(Users(n), arcs,
              map v | 0 <= v < n :: c[v],
              map a | a in arcs :: if a.0 < a.1 then edgeData[a].p else edgeData[(a.1, a.0)].p)
    }

    /** The bi-directional copy of a scored graph is a well-formed graph whose
        scores all lie in [0, 1], and both orientations of a friendship carry
        its trust probability. */
    lemma DirectedIsScored()
      requires SimpleEdges(n, edges) && Scored()
      ensures WellFormed(Directed()) && ScoresInUnit(Directed())
      ensures forall i :: 0 <= i < |edges| ==>
        Directed().p[edges[i]] == edgeData[edges[i]].p && Directed().p[(edges[i].1, edges[i].0)] == edgeData[edges[i]].p
    {
      var d := Directed();
      forall a | a in d.arcs ensures a.0 in d.nodes && a.1 in d.nodes && a in d.p && 0.0 <= d.p[a] <= 1.0 {
        if a in edges {
          var i :| 0 <= i < |edges| && edges[i] == a;
        } else {
          var i :| 0 <= i < |edges| && edges[i] == (a.1, a.0);
        }
      }
    }
  }
}
