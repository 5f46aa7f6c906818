/** Validator sets, stake thresholds and quorum intersection. */
module Validators {
  import opened ConsensusTypes
  import opened SignatureSums

  /** The validators of one epoch, in index order, with their stakes. */
  datatype Committee = Committee(group: Group, nodes: seq<NodeId>, stakes: map<NodeId, nat>)

  ghost predicate ValidCommittee(c: Committee) {
    && Abelian(c.group)
    && DistinctNodes(c.nodes)
    && |c.nodes| <= MAX_SIGNERS_LEN
    && c.stakes.Keys == NodeSet(c.nodes)
  }

  /** The stake of the validators in `s`; others have none. */
  function StakeIn(nodes: seq<NodeId>, stakes: map<NodeId, nat>, s: set<NodeId>): (r: nat)
    requires forall n :: n in nodes ==> n in stakes
  {
    if nodes == [] then 0
    else
      var n := nodes[|nodes| - 1];
      StakeIn(nodes[..|nodes| - 1], stakes, s) + if n in s then stakes[n] else 0
  }

  function Stake(c: Committee, s: set<NodeId>): (r: nat)
    requires c.stakes.Keys == NodeSet(c.nodes)
  {
    StakeIn(c.nodes, c.stakes, s)
  }

  function TotalStake(c: Committee): (r: nat)
    requires c.stakes.Keys == NodeSet(c.nodes)
  {
    Stake(c, NodeSet(c.nodes))
  }

  /** Votes of at least two thirds of the stake plus one. */
  predicate HasSuperMajority(c: Committee, s: set<NodeId>)
    requires c.stakes.Keys == NodeSet(c.nodes)
  {
    Stake(c, s) >= TotalStake(c) * 2 / 3 + 1
  }

  /** Votes of at least a third of the stake plus one. */
  predicate HasHonestVote(c: Committee, s: set<NodeId>)
    requires c.stakes.Keys == NodeSet(c.nodes)
  {
    Stake(c, s) >= TotalStake(c) / 3 + 1
  }

  datatype StakeResult = StakeSum(stake: nat) | DuplicateValidator

  function ListStake(stakes: map<NodeId, nat>, addrs: seq<NodeId>): (r: nat) {
    if addrs == [] then 0
    else
      var a := addrs[|addrs| - 1];
      ListStake(stakes, addrs[..|addrs| - 1]) + if a in stakes then stakes[a] else 0
  }

  /** Adding up the stakes of a list of addresses gives the stake of the set of them; a
      repeated address is an error. */
  method CalculateCurrentStake(c: Committee, addrs: seq<NodeId>) returns (r: StakeResult)
    requires DistinctNodes(c.nodes) && c.stakes.Keys == NodeSet(c.nodes)
    ensures r == if DistinctNodes(addrs) then StakeSum(Stake(c, NodeSet(addrs))) else DuplicateValidator
  {
    var seen: set<NodeId>, stake := {}, 0;
    for i := 0 to |addrs|
      invariant seen == NodeSet(addrs[..i]) && DistinctNodes(addrs[..i])
      invariant stake == ListStake(c.stakes, addrs[..i])
    {
      assert addrs[..i + 1][..i] == addrs[..i] && addrs[..i + 1][i] == addrs[i];
      if addrs[i] in seen {
        var k :| 0 <= k < i && addrs[k] == addrs[i];
        return DuplicateValidator;
      }
      assert forall n :: n in addrs[..i + 1] <==> n in addrs[..i] || n == addrs[i];
      assert DistinctNodes(addrs[..i + 1]) by {
        assert forall a :: 0 <= a < i ==> addrs[a] in addrs[..i];
      }
      seen := seen + {addrs[i]};
      stake := stake + if addrs[i] in c.stakes then c.stakes[addrs[i]] else 0;
    }
    assert addrs[..|addrs|] == addrs;
    ListStakeIsStake(c, addrs);
    r := StakeSum(stake);
  }

  lemma {:induction false} ListStakeIsStake(c: Committee, addrs: seq<NodeId>)
    requires DistinctNodes(c.nodes) && c.stakes.Keys == NodeSet(c.nodes) && DistinctNodes(addrs)
    ensures ListStake(c.stakes, addrs) == Stake(c, NodeSet(addrs))
  {
    if addrs == [] {
      StakeEmpty(c.nodes, c.stakes);
      assert NodeSet(addrs) == {};
    } else {
      var n, a := |addrs| - 1, addrs[|addrs| - 1];
      ListStakeIsStake(c, addrs[..n]);
      assert a !in NodeSet(addrs[..n]);
      assert NodeSet(addrs) == NodeSet(addrs[..n]) + {a};
      StakeUnion(c.nodes, c.stakes, NodeSet(addrs[..n]), {a});
      assert NodeSet(addrs[..n]) * {a} == {};
      StakeEmpty(c.nodes, c.stakes);
      StakeSingle(c.nodes, c.stakes, a);
    }
  }

  lemma {:induction false} StakeEmpty(nodes: seq<NodeId>, stakes: map<NodeId, nat>)
    requires forall n :: n in nodes ==> n in stakes
    ensures StakeIn(nodes, stakes, {}) == 0
  {
    if nodes == [] {
    } else {
      StakeEmpty(nodes[..|nodes| - 1], stakes);
    }
  }

  lemma {:induction false} StakeOutside(nodes: seq<NodeId>, stakes: map<NodeId, nat>, a: NodeId)
    requires (forall n :: n in nodes ==> n in stakes) && a !in nodes
    ensures StakeIn(nodes, stakes, {a}) == 0
  {
    if nodes == [] {
    } else {
      StakeOutside(nodes[..|nodes| - 1], stakes, a);
    }
  }

  lemma {:induction false} StakeSingle(nodes: seq<NodeId>, stakes: map<NodeId, nat>, a: NodeId)
    requires (forall n :: n in nodes ==> n in stakes) && DistinctNodes(nodes)
    requires a in stakes <==> a in nodes
    ensures StakeIn(nodes, stakes, {a}) == if a in stakes then stakes[a] else 0
  {
    if a !in nodes {
      StakeOutside(nodes, stakes, a);
    } else {
      var rest := nodes[..|nodes| - 1];
      if nodes[|nodes| - 1] == a {
        StakeOutside(rest, stakes, a);
      } else {
        StakeSingle(rest, stakes, a);
      }
    }
  }

  lemma {:induction false} StakeUnion(nodes: seq<NodeId>, stakes: map<NodeId, nat>, a: set<NodeId>, b: set<NodeId>)
    requires forall n :: n in nodes ==> n in stakes
    ensures StakeIn(nodes, stakes, a + b) + StakeIn(nodes, stakes, a * b) == StakeIn(nodes, stakes, a) + StakeIn(nodes, stakes, b)
  {
    if nodes == [] {
    } else {
      StakeUnion(nodes[..|nodes| - 1], stakes, a, b);
    }
  }

  lemma {:induction false} StakeMonotone(nodes: seq<NodeId>, stakes: map<NodeId, nat>, a: set<NodeId>, b: set<NodeId>)
    requires forall n :: n in nodes ==> n in stakes
    requires forall n :: n in a && n in nodes ==> n in b
    ensures StakeIn(nodes, stakes, a) <= StakeIn(nodes, stakes, b)
  {
    if nodes == [] {
    } else {
      StakeMonotone(nodes[..|nodes| - 1], stakes, a, b);
    }
  }

  lemma SuperMajorityGrows(c: Committee, a: set<NodeId>, b: set<NodeId>)
    requires c.stakes.Keys == NodeSet(c.nodes) && a <= b
    ensures HasSuperMajority(c, a) ==> HasSuperMajority(c, b)
    ensures HasHonestVote(c, a) ==> HasHonestVote(c, b)
  {
    StakeMonotone(c.nodes, c.stakes, a, b);
  }

  /** The thresholds are exact: more than two thirds, and more than one third. */
  lemma ThresholdsAreExact(c: Committee, s: set<NodeId>)
    requires c.stakes.Keys == NodeSet(c.nodes)
    ensures HasSuperMajority(c, s) <==> 3 * Stake(c, s) > 2 * TotalStake(c)
    ensures HasHonestVote(c, s) <==> 3 * Stake(c, s) > TotalStake(c)
    ensures HasSuperMajority(c, s) ==> HasHonestVote(c, s)
  {
  }

  /** Two quorums share more than a third of the stake. */
  lemma QuorumsIntersect(c: Committee, a: set<NodeId>, b: set<NodeId>)
    requires c.stakes.Keys == NodeSet(c.nodes)
    requires HasSuperMajority(c, a) && HasSuperMajority(c, b)
    ensures 3 * Stake(c, a * b) > TotalStake(c)
  {
    StakeUnion(c.nodes, c.stakes, a, b);
    StakeMonotone(c.nodes, c.stakes, a + b, NodeSet(c.nodes));
  }
}
