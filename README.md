# Social network credibility: a Dafny model

This project models the scoring and trust-path core of
`social-network-credibility.py`, a toy that decides whether a target user
of a random online social network is a trusted acquaintance of a source user.

The model covers the following pieces:

- **Scoring** (`scoring.dfy`, `followers.dfy`, `network.dfy`). Every user
  gets a credibility `c`, the average of three capped signals: degree `tf`,
  account age `aua` and follower/followee ratio `ffr`. Every friendship gets
  a trust probability `p`, the average of four components: mutual friends
  `mf`, friendship duration `fd`, interest overlap `oir` and the
  resemblance ratio `ra` of seven optional profile attributes. The global
  graph `g` and its attribute dictionaries are the class
  `Network.SocialGraph`. Its methods follow `handle_ffr_nodes` and the two
  loops of `set_scores` step by step. Every random draw is a parameter.
- **DAG builder** (`digraph.dfy`, `dag.dfy`). The bi-directional graph is
  oriented outward from the source by the rank `(x - source) % n`. It is
  then restricted to the source and its descendants, which a worklist
  search computes.
- **Trust score product** (`trust.dfy`). `compute_tsp` is a loop proved
  against the product of `c[v] * p[(u, v)]` over consecutive pairs. The
  lemmas state its bounds, how it splits, that the source's own credibility
  never counts, and that a detour through a cycle never raises it.
- **Acquaintance decisions** (`acquaintance.dfy`, `pipeline.dfy`). One is
  the first-match loop of `is_acquaintance`. The other is the decision tail
  of `is_acquaintance_optimization`. A lemma relates the two.

Two details of the code decide what the model states:

- `p_mf` is 1 whenever `mf >= max_tf * 0.1`. So when `max_tf` is 0 it is 1
  whatever `mf` is, including when the two users have no mutual friend.
- The resemblance ratio counts the attributes defined on `u` alone. A match
  needs `v`'s value to equal `u`'s, and `v`'s own defined attributes play no
  other part.

## Model

| member | source | states |
|---|---|---|
| Scoring.Capped | social-network-credibility.py:189-193 | A component is at most 1. It is exactly 1 once the signal reaches its bound. It is non-negative exactly when the signal is. Below the bound it is signal/bound, and the division is never reached with a zero bound. |
| Scoring.FairShare | social-network-credibility.py:189 | `friendship_amount / n` is non-negative, and multiplied by `n` it gives back `friendship_amount`. |
| Scoring.NodeGrade | social-network-credibility.py:186-195 | Credibility is at most 1, and at least 0 when `aua` and `ffr` are non-negative. It is exactly 1 iff `tf` reaches the fair share, `aua` reaches 365 and `ffr` reaches 1. With `friendship_amount` 0 the degree component is 1 without a division, so `c >= 1/3`. |
| Scoring.EdgeGrade | social-network-credibility.py:198-209 | Trust probability is at most 1 when `ra <= 1`, and at least 0 for non-negative `fd`, `oir` and `ra`. It is exactly 1 iff `mf >= max_tf * 0.1`, `fd >= 365`, `oir >= 1` and `ra == 1`. When both degrees are 0, `p_mf` is 1, so `mf` drops out of that condition. |
| Scoring.MaxDegree | social-network-credibility.py:200 | The result is the larger of the two degrees. |
| Scoring.ComputeResemblance | social-network-credibility.py:212-231 | The counting loop returns the resemblance ratio (matches over `u`'s defined attributes, 0 when there are none), and that ratio lies in [0, 1]. |
| Scoring.MatchingAtMostDefined | social-network-credibility.py:224-228 | `count_tra` never exceeds `count_ta`. |
| Scoring.ResemblanceInUnitInterval | social-network-credibility.py:212-231 | The resemblance ratio lies in [0, 1]. |
| Scoring.ResemblanceFull | social-network-credibility.py:224-231 | The ratio is 1 iff `u` has some defined attribute and `v` agrees with every attribute `u` defines. |
| Scoring.ResemblanceZero | social-network-credibility.py:224-231 | The ratio is 0 iff none of `u`'s defined attributes matches `v`. This includes the case where `u` defines none. |
| Scoring.ResemblanceAsymmetric | social-network-credibility.py:224-228 | For a `u` with only a hometown and a `v` that agrees and defines all seven attributes, ra(u, v) = 1 but ra(v, u) = 1/7. |
| Followers.FollowersAtMostLists | social-network-credibility.py:244-246 | A follower count never exceeds the number of followee lists. |
| Followers.FollowerTotal | social-network-credibility.py:234-246 | For lists of distinct ids in [0, n), the follower counts sum to the followee counts. |
| Network.FollowRatio | social-network-credibility.py:174 | `ffr` is non-negative, and times `followees` it gives `followers`. The division is well defined because `followees >= 1`. |
| Network.MutualFriendsBelowDegree | social-network-credibility.py:173-179 | For every friendship (u, v), `mf` is strictly below both `tf(u)` and `tf(v)`. The two friends count for each other but not for themselves. |
| Network.CommonSymmetric | social-network-credibility.py:179 | The mutual-friend count of (u, v) equals that of (v, u). |
| Network.SocialGraph.constructor | social-network-credibility.py:274 | A freshly generated graph has its users, its friendships and no attributes. |
| Network.SocialGraph.HandleFfrNodes | social-network-credibility.py:234-246 | Each follower count starts at 0 and ends as the number of lists naming the user. Each followee count is the length of the user's list, at least 1. The follower total equals the followee total. |
| Network.SocialGraph.HandleRaNodes | social-network-credibility.py:249-258 | Every user gets the seven optional attributes it drew. |
| Network.SocialGraph.ScoreNodes | social-network-credibility.py:172-176 | Every user gets its degree, its follow ratio, its drawn account age and the credibility these give. Every credibility lies in [0, 1]. |
| Network.SocialGraph.EdgeDataOf | social-network-credibility.py:179-183 | A friendship's resemblance lies in [0, 1]. Its trust probability is at most 1, and non-negative for non-negative draws. |
| Network.SocialGraph.ScoreEdge | social-network-credibility.py:179-183 | Friendship `edges[i]` gets its mutual friends, draws, resemblance and trust probability. No other entry changes, so the friendships before it keep their records and no pair outside the friendship list gains one. |
| Network.SocialGraph.ScoreEdges | social-network-credibility.py:178-183 | Every friendship gets the attributes the edge loop computes, and only friendships carry attributes. Every resemblance and trust probability lies in [0, 1]. |
| Network.SocialGraph.SetScores | social-network-credibility.py:164-183 | The whole score pass gives followers, followees, profiles and `aua` as drawn. Every user gets its degree `tf`, its ratio `ffr` and the credibility `c` these give. Every friendship, and nothing else, gets the record of its mutual friends, draws, resemblance and trust probability. Every score lies in [0, 1]. |
| Network.SocialGraph.Directed | social-network-credibility.py:281 | `to_directed` gives users 0..n-1 and both orientations of every friendship. |
| Network.SocialGraph.DirectedIsScored | social-network-credibility.py:281 | The bi-directional copy of a scored graph is well formed, and all its scores lie in [0, 1]. Both orientations of a friendship carry its trust probability. |
| Dag.Rank | social-network-credibility.py:158 | `(x - source) % n` lies in [0, n), and the source's rank is 0. |
| Dag.Oriented | social-network-credibility.py:157-158 | An arc survives orientation iff it strictly increases the rank. Nodes and scores are kept. |
| Dag.Induced | social-network-credibility.py:160 | The induced subgraph keeps exactly the nodes in the set, and exactly the arcs with both ends in it, with their scores. |
| Dag.Descendants | social-network-credibility.py:159 | The worklist search returns exactly the nodes other than the source that are reachable from it. |
| Dag.ToDag | social-network-credibility.py:149-161 | The builder returns the oriented graph induced on the source plus its reachable nodes, and the result is well formed. |
| Dag.ArcsIncreaseRank | social-network-credibility.py:158 | Every arc of the DAG strictly increases the rank. |
| Dag.RankIncreasesAlongPath | social-network-credibility.py:158 | Along any path of rank-increasing arcs, the rank strictly increases. |
| Dag.Acyclic | social-network-credibility.py:152-158 | Every path of the DAG is simple, so the DAG has no directed cycle. |
| Dag.SourceHasNoInArc | social-network-credibility.py:158 | No arc of the DAG enters the source. |
| Dag.AllReachable | social-network-credibility.py:159-160 | The source is in the DAG, and every DAG node is reachable from it along DAG arcs. |
| Dag.KeepsScores | social-network-credibility.py:157-160 | The DAG of a scored graph is well formed, and its scores lie in [0, 1]. |
| Dag.OneDirectionKept | social-network-credibility.py:158 | Of the two arcs of a friendship between distinct users 0..n-1, exactly one survives orientation. |
| Trust.PathIsScorable | social-network-credibility.py:145 | Every credibility and trust probability that a path's product reads exists in a well-formed graph. |
| Trust.ComputeTsp | social-network-credibility.py:140-146 | The loop returns the product of `c[v] * p[(u, v)]` over consecutive pairs, which is 1 for a path of at most one node. |
| Trust.TspInUnitInterval | social-network-credibility.py:140-146 | The TSP of a path lies in [0, 1] when all scores do. |
| Trust.TspSplit | social-network-credibility.py:140-146 | Joining two paths at a shared node multiplies their TSPs. |
| Trust.SourceCredibilityIgnored | social-network-credibility.py:143-145 | Changing the first node's credibility never changes the TSP when that node does not recur. |
| Trust.CycleNeverHelps | social-network-credibility.py:152-153 | Cutting a cycle out of a path gives a path whose TSP is at least as high. |
| Acquaintance.FirstMatch | social-network-credibility.py:108-113 | A path is found iff some enumerated path has `tsp >= msp`. The path returned is the first such one, with its TSP. Otherwise the result is `(False, [], 0)`. |
| Acquaintance.Exhaustive | social-network-credibility.py:104-113 | An absent target gives `(False, [], 0)`. Otherwise the result is the first match. |
| Acquaintance.IsAcquaintance | social-network-credibility.py:104-113 | The early-return loop over the enumerated paths returns exactly the exhaustive decision. |
| Acquaintance.Optimized | social-network-credibility.py:128-137 | An absent target gives `(False, [], 0)`. Otherwise the reported TSP is the best path's TSP, and success holds iff that TSP reaches `msp`. On failure the path is empty but the TSP is kept. |
| Acquaintance.SearchesAgree | social-network-credibility.py:104-137 | Suppose the best path is enumerated and none beats it. Then both searches decide alike, and the exhaustive TSP is never higher. On failure the exhaustive search reports 0 while the optimized one reports the best TSP. |
| Acquaintance.LineScenario | social-network-credibility.py:104-137 | On the line 0 -> 1 -> 2 with TSP 0.36, both searches succeed at `msp` 0.3. At 0.5 the exhaustive search reports `(False, [], 0)` and the optimized one `(False, [], 0.36)`. |
| Acquaintance.FirstIsNotBest | social-network-credibility.py:108-113 | Take two routes with TSP 0.4 and 0.6, the 0.4 route enumerated first, and `msp` 0.3. The exhaustive search settles for 0.4, while the optimized search reports 0.6. |
| Pipeline.BuildDirectedGraph | social-network-credibility.py:278-282 | Orienting the scored graph from the source gives its DAG. The DAG is well formed, its scores lie in [0, 1], and it contains the source. |
| Pipeline.DagPathScore | social-network-credibility.py:140-161 | Every path of the DAG of a scored graph is simple, and its TSP lies in [0, 1]. |

## Left out

- Console input (`get_graph_info`, `get_source_target`), `main`,
  `print_details` and the drawing functions are left out. They are I/O and
  rendering.
- Random draws are parameters:
  - the edge list of `gnm_random_graph`, constrained to a simple graph on 0..n-1 listed lower id first;
  - the followee lists (`randint(1, n - 1)` distinct ids from `range(n)`);
  - the profile attributes;
  - `aua` in [0, 4380];
  - `fd` in [0, min(aua(u), aua(v))];
  - `oir` in [0, 3).
- Network.SocialGraph.HandleRaNodes: accepts any seven optional integers.
  The per-attribute ranges and the 0.5 rate of absence in
  `random_none_or_int` are randomness and are not constrained.
- Network.SocialGraph.constructor: the relation between
  `friendship_amount` and the number of edges is not modelled.
  `gnm_random_graph` caps the edge count at n(n-1)/2.
- Dag.ToDag: requires the source to be a node of the graph.
  `nx.descendants` at line 159 raises an error for a source outside the
  graph, and line 28 reads the source id unchecked. That error path is not
  modelled.
- Pipeline.BuildDirectedGraph: requires `0 <= source < n`, for the same
  reason as `Dag.ToDag`.
- Network.SocialGraph.constructor: `friendship_amount` is a `nat`, so a
  negative amount is not modelled. The source accepts one at line 21:
  `gnm_random_graph` then builds no edge, and at line 189 `c_tf` is 1
  because the degree 0 is not below a negative fair share.
- Scoring.NodeGrade: `friendshipAmount` is a `nat`, for the same reason.
- Scoring.FairShare: `friendshipAmount` is a `nat`, for the same reason.
- Network.SocialGraph.HandleFfrNodes: with `n == 1`, `randint(1, 0)` raises
  an error in the source. The followee-list precondition cannot be met then,
  so the model covers only graphs with `n != 1`.
- The log weights and the Bellman-Ford search of
  `is_acquaintance_optimization` (lines 130-132) are left out. They rest on
  floating-point `math.log` and a library algorithm. The best path is a
  parameter of `Acquaintance.Optimized`, and its maximality is a hypothesis
  of `Acquaintance.SearchesAgree`, not a theorem. Line 131 divides by zero
  when a `p` or `c` is 0; that crash is not modelled.
- `nx.all_simple_paths` is a parameter: a sequence of source-to-target paths
  in any order. Its enumeration order is not modelled.
- Network.MutualFriends counts the users adjacent to both `u` and `v`.
  In a simple graph this equals the length of the filtered neighbour list
  at line 179.
- Network.Degree counts the users adjacent to `v`. In a simple graph this
  is `g.degree(v)`.
- Scores are Dafny `real`s. Python float rounding is not modelled.
- Edge attributes are stored as one record per friendship. The source
  writes the five keys of the edge's dictionary one after another; the
  record holds the same final values.
