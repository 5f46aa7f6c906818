/** Sums of signatures.  An aggregate signature is the sum of its parts in the signature
group, and it verifies for a message when it equals the sum of the signatures its signers
would have produced for that message (section 3.3.4, FastAggregateVerify, of the IRTF draft
on BLS signatures).  Only commutativity, associativity and the identity are used. */
module SignatureSums {
  import opened ConsensusTypes

  type SigMap = map<NodeId, Signature>

  datatype Group = Group(zero: Signature, add: (Signature, Signature) -> Signature)

  ghost predicate Laws(g: Group, x: Signature, y: Signature, z: Signature) {
    && g.add(g.zero, x) == x
    && g.add(x, y) == g.add(y, x)
    && g.add(g.add(x, y), z) == g.add(x, g.add(y, z))
  }

  ghost predicate Abelian(g: Group) {
    forall x, y, z :: Laws(g, x, y, z)
  }

  /** One aggregation: the validators in index order, what each of them would sign, and
      the signatures that were actually received. */
  datatype Job = Job(group: Group, nodes: seq<NodeId>, expected: SigMap, sigs: SigMap)

  ghost predicate DistinctNodes(nodes: seq<NodeId>) {
    forall i, j :: 0 <= i < j < |nodes| ==> nodes[i] != nodes[j]
  }

  function NodeSet(nodes: seq<NodeId>): (s: set<NodeId>) {
    set n | n in nodes
  }

  ghost predicate ValidJob(j: Job) {
    && Abelian(j.group)
    && DistinctNodes(j.nodes)
    && j.expected.Keys == NodeSet(j.nodes)
    && j.sigs.Keys <= NodeSet(j.nodes)
  }

  /** The sum of `m` over the members of `s`, in index order. */
  function SigSum(g: Group, nodes: seq<NodeId>, s: set<NodeId>, m: SigMap): (r: Signature)
    requires s <= m.Keys
  {
    if nodes == [] then g.zero
    else
      var n := nodes[|nodes| - 1];
      var rest := SigSum(g, nodes[..|nodes| - 1], s, m);
      if n in s then g.add(rest, m[n]) else rest
  }

  lemma {:induction false} SumEmpty(g: Group, nodes: seq<NodeId>, m: SigMap)
    ensures SigSum(g, nodes, {}, m) == g.zero
  {
    if nodes == [] {
    } else {
      SumEmpty(g, nodes[..|nodes| - 1], m);
    }
  }

  lemma {:induction false} SumUnion(g: Group, nodes: seq<NodeId>, a: set<NodeId>, b: set<NodeId>, m: SigMap)
    requires Abelian(g) && a !! b && a <= m.Keys && b <= m.Keys
    ensures SigSum(g, nodes, a + b, m) == g.add(SigSum(g, nodes, a, m), SigSum(g, nodes, b, m))
  {
    if nodes == [] {
      assert Laws(g, g.zero, g.zero, g.zero);
    } else {
      var n, rest := nodes[|nodes| - 1], nodes[..|nodes| - 1];
      SumUnion(g, rest, a, b, m);
      var x, y := SigSum(g, rest, a, m), SigSum(g, rest, b, m);
      if n in a {
        Swap(g, x, y, m[n]);
      } else if n in b {
        assert Laws(g, x, y, m[n]);
      }
    }
  }

  lemma Swap(g: Group, x: Signature, y: Signature, z: Signature)
    requires Abelian(g)
    ensures g.add(g.add(x, y), z) == g.add(g.add(x, z), y)
  {
    assert Laws(g, x, y, z) && Laws(g, y, z, x) && Laws(g, x, z, y);
  }

  lemma {:induction false} SumAgree(g: Group, nodes: seq<NodeId>, s: set<NodeId>, m: SigMap, m': SigMap)
    requires s <= m.Keys && s <= m'.Keys
    requires forall n :: n in s ==> m[n] == m'[n]
    ensures SigSum(g, nodes, s, m) == SigSum(g, nodes, s, m')
  {
    if nodes == [] {
    } else {
      SumAgree(g, nodes[..|nodes| - 1], s, m, m');
    }
  }

  lemma {:induction false} SumOutside(g: Group, nodes: seq<NodeId>, s: set<NodeId>, m: SigMap)
    requires s <= m.Keys && s !! NodeSet(nodes)
    ensures SigSum(g, nodes, s, m) == g.zero
  {
    if nodes == [] {
    } else {
      SumOutside(g, nodes[..|nodes| - 1], s, m);
    }
  }

  lemma {:induction false} SumSingle(g: Group, nodes: seq<NodeId>, n: NodeId, m: SigMap)
    requires Abelian(g) && DistinctNodes(nodes) && n in nodes && n in m
    ensures SigSum(g, nodes, {n}, m) == m[n]
  {
    var rest := nodes[..|nodes| - 1];
    if nodes[|nodes| - 1] == n {
      SumOutside(g, rest, {n}, m);
      assert Laws(g, m[n], m[n], m[n]);
    } else {
      SumSingle(g, rest, n, m);
    }
  }

  // ---- signer bitmaps

  function Bits(nodes: seq<NodeId>, s: set<NodeId>): (b: seq<bool>) {
    seq(|nodes|, i requires 0 <= i < |nodes| => nodes[i] in s)
  }

  function Signers(nodes: seq<NodeId>, bits: seq<bool>): (s: set<NodeId>)
    requires |bits| == |nodes|
  {
    set i | 0 <= i < |nodes| && bits[i] :: nodes[i]
  }

  lemma SignersOfBits(nodes: seq<NodeId>, s: set<NodeId>)
    requires s <= NodeSet(nodes)
    ensures Signers(nodes, Bits(nodes, s)) == s
  {
  }

  function CountOnes(bits: seq<bool>): (n: nat) {
    if bits == [] then 0 else CountOnes(bits[..|bits| - 1]) + if bits[|bits| - 1] then 1 else 0
  }

  function Or(a: seq<bool>, b: seq<bool>): (r: seq<bool>)
    requires |a| == |b|
  {
    seq(|a|, i requires 0 <= i < |a| => a[i] || b[i])
  }

  lemma {:induction false} CountDisjoint(a: seq<bool>, b: seq<bool>)
    requires |a| == |b| && forall i :: 0 <= i < |a| ==> !(a[i] && b[i])
    ensures CountOnes(Or(a, b)) == CountOnes(a) + CountOnes(b)
  {
    if a == [] {
    } else {
      var n := |a| - 1;
      CountDisjoint(a[..n], b[..n]);
      assert Or(a, b)[..n] == Or(a[..n], b[..n]);
    }
  }

  /** The collection of the signatures of `s`. */
  function Collect(j: Job, s: set<NodeId>): (c: SignatureCollection)
    requires s <= j.sigs.Keys
  {
    SignatureCollection(Bits(j.nodes, s), SigSum(j.group, j.nodes, s, j.sigs))
  }

  // ---- verification

  const MAX_SIGNERS_LEN := 1024 * 16

  /** What verifying a collection checks. */
  predicate Verifies(g: Group, nodes: seq<NodeId>, expected: SigMap, c: SignatureCollection)
    requires expected.Keys == NodeSet(nodes)
  {
    && |c.signers| == |nodes| <= MAX_SIGNERS_LEN
    && (forall n :: n in Signers(nodes, c.signers) ==> n in expected)
    && c.sig == SigSum(g, nodes, Signers(nodes, c.signers), expected)
  }

  /** The signatures of `s` sum up to what their signers would have signed. */
  predicate Agrees(j: Job, s: set<NodeId>)
    requires s <= j.sigs.Keys && s <= j.expected.Keys
  {
    SigSum(j.group, j.nodes, s, j.sigs) == SigSum(j.group, j.nodes, s, j.expected)
  }

  predicate Passes(j: Job, s: set<NodeId>)
    requires s <= j.sigs.Keys && s <= j.expected.Keys
  {
    |j.nodes| <= MAX_SIGNERS_LEN && Agrees(j, s)
  }

  lemma CollectVerifies(j: Job, s: set<NodeId>)
    requires ValidJob(j) && s <= j.sigs.Keys
    ensures Verifies(j.group, j.nodes, j.expected, Collect(j, s)) <==> Passes(j, s)
  {
    SignersOfBits(j.nodes, s);
  }

  lemma AgreesUnion(j: Job, a: set<NodeId>, b: set<NodeId>)
    requires ValidJob(j) && a <= j.sigs.Keys && b <= j.sigs.Keys && a !! b
    requires Agrees(j, a) && Agrees(j, b)
    ensures Agrees(j, a + b)
  {
    SumUnion(j.group, j.nodes, a, b, j.sigs);
    SumUnion(j.group, j.nodes, a, b, j.expected);
  }

  lemma AgreesSingle(j: Job, n: NodeId)
    requires ValidJob(j) && n in j.sigs
    ensures Agrees(j, {n}) <==> j.sigs[n] == j.expected[n]
  {
    SumSingle(j.group, j.nodes, n, j.sigs);
    SumSingle(j.group, j.nodes, n, j.expected);
  }
}
