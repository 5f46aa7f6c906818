/** The heap-shaped tree of partial aggregates and the search through it for bad signatures. */
module AggregationTree {
  import opened ConsensusTypes
  import opened SignatureSums
  import opened SeqSets

  // ---- the shape of the heap: n leaves at n-1 .. 2n-2, children of i at 2i+1 and 2i+2

  function TreeSize(n: nat): (r: nat) {
    if n == 0 then 1 else 2 * n - 1
  }

  /** The signers at the leaves below heap node `i`. */
  function Under(ids: seq<NodeId>, i: nat): (s: set<NodeId>)
    requires ids != [] && i < 2 * |ids| - 1
    ensures s <= NodeSet(ids)
    decreases 2 * |ids| - i
  {
    if i >= |ids| - 1 then {ids[i - (|ids| - 1)]}
    else Under(ids, 2 * i + 1) + Under(ids, 2 * i + 2)
  }

  /** Heap node `i` is `k` or one of its ancestors. */
  predicate Above(i: nat, k: nat) {
    i == k || (i < k && Above(i, (k - 1) / 2))
  }

  lemma {:induction false} AboveChildren(i: nat, k: nat)
    ensures Above(i, k) <==> i == k || Above(2 * i + 1, k) || Above(2 * i + 2, k)
    ensures !(Above(2 * i + 1, k) && Above(2 * i + 2, k))
  {
    if k <= 2 * i + 2 {
    } else {
      AboveChildren(i, (k - 1) / 2);
    }
  }

  lemma {:induction false} RootIsAbove(k: nat)
    ensures Above(0, k)
  {
    if k == 0 {
    } else {
      RootIsAbove((k - 1) / 2);
    }
  }

  lemma {:induction false} UnderIsAbove(ids: seq<NodeId>, i: nat, k: nat)
    requires ids != [] && i < 2 * |ids| - 1 && k < |ids|
    requires DistinctNodes(ids)
    ensures ids[k] in Under(ids, i) <==> Above(i, |ids| - 1 + k)
    decreases 2 * |ids| - i
  {
    if i < |ids| - 1 {
      UnderIsAbove(ids, 2 * i + 1, k);
      UnderIsAbove(ids, 2 * i + 2, k);
      AboveChildren(i, |ids| - 1 + k);
    } else {
      LeafIsAbove(|ids|, i, k);
      assert ids[k] == ids[i - (|ids| - 1)] <==> k == i - (|ids| - 1);
    }
  }

  lemma LeafIsAbove(n: nat, i: nat, k: nat)
    requires 0 < n && n - 1 <= i < 2 * n - 1 && k < n
    ensures Above(i, n - 1 + k) <==> i == n - 1 + k
  {
  }

  /** Siblings share no signer, so merging them never double counts. */
  lemma SiblingsDisjoint(ids: seq<NodeId>, i: nat)
    requires ids != [] && i < |ids| - 1 && DistinctNodes(ids)
    ensures Under(ids, 2 * i + 1) !! Under(ids, 2 * i + 2)
  {
    var left, right := Under(ids, 2 * i + 1), Under(ids, 2 * i + 2);
    forall n | n in left ensures n !in right {
      var k :| 0 <= k < |ids| && ids[k] == n;
      UnderIsAbove(ids, 2 * i + 1, k);
      UnderIsAbove(ids, 2 * i + 2, k);
      AboveChildren(i, |ids| - 1 + k);
    }
  }

  lemma RootCoversAll(ids: seq<NodeId>)
    requires ids != [] && DistinctNodes(ids)
    ensures Under(ids, 0) == NodeSet(ids)
  {
    forall n | n in NodeSet(ids) ensures n in Under(ids, 0) {
      var k :| 0 <= k < |ids| && ids[k] == n;
      RootIsAbove(|ids| - 1 + k);
      UnderIsAbove(ids, 0, k);
    }
  }

  // ---- building the tree

  /** `ids` orders the received signatures, in any way. */
  ghost predicate ValidOrder(j: Job, ids: seq<NodeId>) {
    ValidJob(j) && DistinctNodes(ids) && NodeSet(ids) == j.sigs.Keys
  }

  ghost predicate IsTree(j: Job, ids: seq<NodeId>, nodes: seq<SignatureCollection>)
    requires ValidOrder(j, ids)
  {
    && |nodes| == TreeSize(|ids|)
    && (ids == [] ==> nodes[0] == Collect(j, {}))
    && (ids != [] ==> forall i :: 0 <= i < |nodes| ==> IsNode(j, ids, nodes[i], i))
  }

  ghost predicate IsNode(j: Job, ids: seq<NodeId>, c: SignatureCollection, i: nat)
    requires ValidOrder(j, ids) && ids != [] && i < 2 * |ids| - 1
  {
    c == Collect(j, Under(ids, i))
  }

  function Empty(g: Group, n: nat): SignatureCollection {
    SignatureCollection(seq(n, _ => false), g.zero)
  }

  /** The aggregate of two collections over the same validators.  The second `requires` is
      what the assertion on the number of signers amounts to. */
  function MergeNodes(g: Group, a: SignatureCollection, b: SignatureCollection): (c: SignatureCollection)
    requires |a.signers| == |b.signers|
    requires forall i :: 0 <= i < |a.signers| ==> !(a.signers[i] && b.signers[i])
    ensures CountOnes(a.signers) + CountOnes(b.signers) == CountOnes(c.signers)
  {
    CountDisjoint(a.signers, b.signers);
    SignatureCollection(Or(a.signers, b.signers), g.add(a.sig, b.sig))
  }

  lemma MergeIsUnion(j: Job, a: set<NodeId>, b: set<NodeId>)
    requires ValidJob(j) && a <= j.sigs.Keys && b <= j.sigs.Keys && a !! b
    ensures MergeNodes(j.group, Collect(j, a), Collect(j, b)) == Collect(j, a + b)
  {
    SumUnion(j.group, j.nodes, a, b, j.sigs);
    assert Or(Bits(j.nodes, a), Bits(j.nodes, b)) == Bits(j.nodes, a + b);
  }

  lemma LeafIsSingle(j: Job, k: nat, n: NodeId)
    requires ValidJob(j) && n in j.sigs && k < |j.nodes| && j.nodes[k] == n
    ensures var e := Empty(j.group, |j.nodes|);
      SignatureCollection(e.signers[k := true], j.group.add(e.sig, j.sigs[n])) == Collect(j, {n})
  {
    SumSingle(j.group, j.nodes, n, j.sigs);
    assert Laws(j.group, j.sigs[n], j.sigs[n], j.sigs[n]);
    assert Empty(j.group, |j.nodes|).signers[k := true] == Bits(j.nodes, {n});
  }

  /** Copy the signatures into the leaves. */
  method FillLeaves(j: Job, ids: seq<NodeId>, index: map<NodeId, nat>) returns (nodes: seq<SignatureCollection>)
    requires ValidOrder(j, ids) && ids != []
    requires forall n :: n in j.nodes ==> n in index && index[n] < |j.nodes| && j.nodes[index[n]] == n
    ensures |nodes| == 2 * |ids| - 1
    ensures forall k :: |ids| - 1 <= k < 2 * |ids| - 1 ==> IsNode(j, ids, nodes[k], k)
  {
    var n := |ids|;
    nodes := seq(2 * n - 1, _ => Empty(j.group, |j.nodes|));
    for i := 0 to n
      invariant |nodes| == 2 * n - 1
      invariant forall k :: n - 1 <= k < n - 1 + i ==> IsNode(j, ids, nodes[k], k)
      invariant forall k :: n - 1 + i <= k < 2 * n - 1 ==> nodes[k] == Empty(j.group, |j.nodes|)
    {
      var id := ids[i];
      assert id in NodeSet(ids) && id in j.nodes;
      LeafIsSingle(j, index[id], id);
      assert Under(ids, n + i - 1) == {id};
      var cert := nodes[n + i - 1];
      nodes := nodes[n + i - 1 :=
        SignatureCollection(cert.signers[index[id] := true], j.group.add(cert.sig, j.sigs[id]))];
    }
  }

  lemma MergeChildren(j: Job, ids: seq<NodeId>, i: nat, left: SignatureCollection, right: SignatureCollection)
    requires ValidOrder(j, ids) && ids != [] && i < |ids| - 1
    requires IsNode(j, ids, left, 2 * i + 1) && IsNode(j, ids, right, 2 * i + 2)
    ensures |left.signers| == |right.signers|
    ensures forall k :: 0 <= k < |left.signers| ==> !(left.signers[k] && right.signers[k])
    ensures IsNode(j, ids, MergeNodes(j.group, left, right), i)
  {
    SiblingsDisjoint(ids, i);
    MergeIsUnion(j, Under(ids, 2 * i + 1), Under(ids, 2 * i + 2));
  }

  /** Leaves first, then every inner node from its two children, from the last one up. */
  method NewTree(j: Job, ids: seq<NodeId>, index: map<NodeId, nat>) returns (nodes: seq<SignatureCollection>)
    requires ValidOrder(j, ids)
    requires forall n :: n in j.nodes ==> n in index && index[n] < |j.nodes| && j.nodes[index[n]] == n
    ensures IsTree(j, ids, nodes)
  {
    var n := |ids|;
    if n == 0 {
      SumEmpty(j.group, j.nodes, j.sigs);
      assert Empty(j.group, |j.nodes|) == Collect(j, {});
      return [Empty(j.group, |j.nodes|)];
    }
    nodes := FillLeaves(j, ids, index);
    var i := n - 1;
    while i > 0
      invariant 0 <= i <= n - 1 && |nodes| == 2 * n - 1
      invariant forall k :: i <= k < 2 * n - 1 ==> IsNode(j, ids, nodes[k], k)
    {
      i := i - 1;
      MergeChildren(j, ids, i, nodes[2 * i + 1], nodes[2 * i + 2]);
      nodes := nodes[i := MergeNodes(j.group, nodes[2 * i + 1], nodes[2 * i + 2])];
    }
  }

  /** The root does not depend on the order of the leaves. */
  lemma RootIgnoresOrder(j: Job, ids: seq<NodeId>, nodes: seq<SignatureCollection>)
    requires ValidOrder(j, ids) && IsTree(j, ids, nodes)
    ensures nodes[0] == Collect(j, j.sigs.Keys)
  {
    if ids != [] {
      RootCoversAll(ids);
      assert IsNode(j, ids, nodes[0], 0);
    } else {
      assert j.sigs.Keys == {};
    }
  }

  // ---- the search for bad signatures

  /** What the search reports below heap node `i`: nothing if the node's aggregate passes,
      the leaf itself if it is a leaf, and otherwise what it reports below the children. */
  ghost function Bad(j: Job, ids: seq<NodeId>, i: nat): (s: set<NodeId>)
    requires ValidOrder(j, ids) && ids != [] && i < 2 * |ids| - 1
    ensures s <= Under(ids, i) <= j.sigs.Keys
    decreases 2 * |ids| - i
  {
    if Passes(j, Under(ids, i)) then {}
    else if i >= |ids| - 1 then Under(ids, i)
    else Bad(j, ids, 2 * i + 1) + Bad(j, ids, 2 * i + 2)
  }

  ghost predicate Invalid(j: Job, n: NodeId)
    requires ValidJob(j)
  {
    n in j.sigs && !Passes(j, {n})
  }

  /** Every reported signature is individually invalid. */
  lemma {:induction false} ReportedIsInvalid(j: Job, ids: seq<NodeId>, i: nat)
    requires ValidOrder(j, ids) && ids != [] && i < 2 * |ids| - 1
    ensures forall n :: n in Bad(j, ids, i) ==> Invalid(j, n)
    decreases 2 * |ids| - i
  {
    if i < |ids| - 1 {
      ReportedIsInvalid(j, ids, 2 * i + 1);
      ReportedIsInvalid(j, ids, 2 * i + 2);
    } else {
      forall n | n in Bad(j, ids, i) ensures Invalid(j, n) {
        FailingLeafIsInvalid(j, ids, i, n);
      }
    }
  }

  lemma FailingLeafIsInvalid(j: Job, ids: seq<NodeId>, i: nat, n: NodeId)
    requires ValidOrder(j, ids) && ids != [] && |ids| - 1 <= i < 2 * |ids| - 1
    requires n in Bad(j, ids, i)
    ensures Invalid(j, n)
  {
  }

  /** The report is empty exactly when the aggregate passes. */
  lemma {:induction false} ReportIsEmptyIff(j: Job, ids: seq<NodeId>, i: nat)
    requires ValidOrder(j, ids) && ids != [] && i < 2 * |ids| - 1
    ensures Bad(j, ids, i) == {} <==> Passes(j, Under(ids, i))
    decreases 2 * |ids| - i
  {
    if i >= |ids| - 1 || Passes(j, Under(ids, i)) {
    } else {
      ReportIsEmptyIff(j, ids, 2 * i + 1);
      ReportIsEmptyIff(j, ids, 2 * i + 2);
      SiblingsDisjoint(ids, i);
      if Passes(j, Under(ids, 2 * i + 1)) && Passes(j, Under(ids, 2 * i + 2)) {
        AgreesUnion(j, Under(ids, 2 * i + 1), Under(ids, 2 * i + 2));
      }
    }
  }

  /** What is left once the reported signatures are dropped adds up correctly. */
  lemma {:induction false} RestAgrees(j: Job, ids: seq<NodeId>, i: nat)
    requires ValidOrder(j, ids) && ids != [] && i < 2 * |ids| - 1
    ensures Agrees(j, Under(ids, i) - Bad(j, ids, i))
    decreases 2 * |ids| - i
  {
    if Passes(j, Under(ids, i)) {
      assert Under(ids, i) - {} == Under(ids, i);
    } else if i >= |ids| - 1 {
      assert Under(ids, i) - Bad(j, ids, i) == {};
      SumEmpty(j.group, j.nodes, j.sigs);
      SumEmpty(j.group, j.nodes, j.expected);
    } else {
      var (l, r) := (2 * i + 1, 2 * i + 2);
      RestAgrees(j, ids, l);
      RestAgrees(j, ids, r);
      SiblingsDisjoint(ids, i);
      AgreesUnion(j, Under(ids, l) - Bad(j, ids, l), Under(ids, r) - Bad(j, ids, r));
      assert Under(ids, i) - Bad(j, ids, i) == (Under(ids, l) - Bad(j, ids, l)) + (Under(ids, r) - Bad(j, ids, r));
    }
  }

  function FirstOne(bits: seq<bool>): (k: nat)
    requires exists i :: 0 <= i < |bits| && bits[i]
    ensures k < |bits| && bits[k]
  {
    if bits[0] then 0 else 1 + FirstOne(bits[1..])
  }

  /** The validators whose bits are set, in validator order. */
  function InOrder(nodes: seq<NodeId>, bits: seq<bool>): (r: seq<NodeId>)
    requires |bits| == |nodes|
  {
    if nodes == [] then []
    else
      var k := |nodes| - 1;
      InOrder(nodes[..k], bits[..k]) + if bits[k] then [nodes[k]] else []
  }

  /** They are the signers, each once. */
  lemma {:induction false} InOrderLists(nodes: seq<NodeId>, bits: seq<bool>)
    requires |bits| == |nodes| && DistinctNodes(nodes)
    ensures Lists(InOrder(nodes, bits), Signers(nodes, bits))
  {
    if nodes == [] {
      assert Signers(nodes, bits) == {};
    } else {
      var k := |nodes| - 1;
      InOrderLists(nodes[..k], bits[..k]);
      SignersStep(nodes, bits, k);
      assert nodes[..k + 1] == nodes && bits[..k + 1] == bits;
      if bits[k] {
        ListsSnoc(InOrder(nodes[..k], bits[..k]), Signers(nodes[..k], bits[..k]), nodes[k]);
      }
    }
  }

  /** The loop of `verify`: add up the keys of the signers and compare with the aggregate. */
  method VerifyCollection(g: Group, nodes: seq<NodeId>, expected: SigMap, c: SignatureCollection)
      returns (r: Option<seq<NodeId>>)
    requires DistinctNodes(nodes) && expected.Keys == NodeSet(nodes)
    ensures r.Some? <==> Verifies(g, nodes, expected, c)
    ensures r.Some? ==> r.value == InOrder(nodes, c.signers)
  {
    if |c.signers| != |nodes| || |c.signers| > MAX_SIGNERS_LEN {
      return None;
    }
    var sum, signers := g.zero, [];
    ghost var s := Signers(nodes, c.signers);
    for k := 0 to |nodes|
      invariant s <= expected.Keys && sum == SigSum(g, nodes[..k], s, expected)
      invariant signers == InOrder(nodes[..k], c.signers[..k])
    {
      VerifyStep(g, nodes, expected, c.signers, k);
      if c.signers[k] {
        sum := g.add(sum, expected[nodes[k]]);
        signers := signers + [nodes[k]];
      }
    }
    assert nodes[..|nodes|] == nodes && c.signers[..|nodes|] == c.signers;
    r := if c.sig == sum then Some(signers) else None;
  }

  lemma VerifyStep(g: Group, nodes: seq<NodeId>, expected: SigMap, bits: seq<bool>, k: nat)
    requires |bits| == |nodes| && k < |nodes| && DistinctNodes(nodes)
    requires Signers(nodes, bits) <= expected.Keys
    ensures bits[k] ==> nodes[k] in expected
    ensures var s := Signers(nodes, bits); var before := SigSum(g, nodes[..k], s, expected);
      SigSum(g, nodes[..k + 1], s, expected) == if bits[k] then g.add(before, expected[nodes[k]]) else before
    ensures InOrder(nodes[..k + 1], bits[..k + 1]) ==
      InOrder(nodes[..k], bits[..k]) + if bits[k] then [nodes[k]] else []
  {
    assert nodes[..k + 1][..k] == nodes[..k] && nodes[..k + 1][k] == nodes[k] && bits[..k + 1][..k] == bits[..k];
    SignersStep(nodes, bits, k);
  }

  lemma SignersStep(nodes: seq<NodeId>, bits: seq<bool>, k: nat)
    requires |bits| == |nodes| && k < |nodes| && DistinctNodes(nodes)
    ensures nodes[k] in Signers(nodes, bits) <==> bits[k]
    ensures nodes[k] !in Signers(nodes[..k], bits[..k])
    ensures Signers(nodes[..k + 1], bits[..k + 1]) ==
      Signers(nodes[..k], bits[..k]) + (if bits[k] then {nodes[k]} else {})
  {
  }

  // ---- the work queue of the search

  function SubtreeSize(n: nat, i: nat): (r: nat)
    requires i < 2 * n - 1
    ensures r >= 1
    decreases 2 * n - i
  {
    if i >= n - 1 then 1 else 1 + SubtreeSize(n, 2 * i + 1) + SubtreeSize(n, 2 * i + 2)
  }

  predicate InHeap(n: nat, queue: seq<nat>) {
    forall k :: 0 <= k < |queue| ==> queue[k] < 2 * n - 1
  }

  ghost function QueueSize(n: nat, queue: seq<nat>): nat
    requires InHeap(n, queue)
  {
    if queue == [] then 0 else QueueSize(n, queue[..|queue| - 1]) + SubtreeSize(n, queue[|queue| - 1])
  }

  /** What the search will still report, with multiplicity. */
  ghost function QueueBad(j: Job, ids: seq<NodeId>, queue: seq<nat>): multiset<NodeId>
    requires ValidOrder(j, ids) && ids != []
    requires InHeap(|ids|, queue)
  {
    if queue == [] then multiset{}
    else QueueBad(j, ids, queue[..|queue| - 1]) + multiset(Bad(j, ids, queue[|queue| - 1]))
  }

  lemma {:induction false} QueuePop(j: Job, ids: seq<NodeId>, queue: seq<nat>)
    requires ValidOrder(j, ids) && ids != [] && queue != []
    requires InHeap(|ids|, queue)
    ensures QueueBad(j, ids, queue) == multiset(Bad(j, ids, queue[0])) + QueueBad(j, ids, queue[1..])
    ensures QueueSize(|ids|, queue) == SubtreeSize(|ids|, queue[0]) + QueueSize(|ids|, queue[1..])
  {
    var n := |queue|;
    var (front, tail) := (queue[..n - 1], queue[1..]);
    if n == 1 {
      assert front == [] && tail == [];
    } else {
      assert front[0] == queue[0] && front[1..] == tail[..n - 2] && tail[n - 2] == queue[n - 1];
      QueuePop(j, ids, front);
    }
  }

  function PushChildren(queue: seq<nat>, i: nat): (r: seq<nat>) {
    queue + [2 * i + 1, 2 * i + 2]
  }

  lemma {:induction false} QueueSplit(j: Job, ids: seq<NodeId>, queue: seq<nat>, a: nat, b: nat)
    requires ValidOrder(j, ids) && ids != [] && InHeap(|ids|, queue + [a, b])
    ensures InHeap(|ids|, queue) && a < 2 * |ids| - 1 && b < 2 * |ids| - 1
    ensures QueueSize(|ids|, queue + [a, b]) == QueueSize(|ids|, queue) + SubtreeSize(|ids|, a) + SubtreeSize(|ids|, b)
    ensures QueueBad(j, ids, queue + [a, b]) == QueueBad(j, ids, queue) + multiset(Bad(j, ids, a)) + multiset(Bad(j, ids, b))
  {
    var q := queue + [a, b];
    var p := queue + [a];
    assert q[..|q| - 1] == p && p[..|p| - 1] == queue;
    assert q[|queue|] == a && q[|queue| + 1] == b;
    assert forall k :: 0 <= k < |queue| ==> queue[k] == q[k];
    assert forall k :: 0 <= k < |p| ==> p[k] == q[k];
  }

  lemma QueuePush(j: Job, ids: seq<NodeId>, queue: seq<nat>, i: nat)
    requires ValidOrder(j, ids) && ids != [] && i < |ids| - 1 && InHeap(|ids|, queue)
    ensures InHeap(|ids|, PushChildren(queue, i))
    ensures QueueSize(|ids|, PushChildren(queue, i)) + 1 == QueueSize(|ids|, queue) + SubtreeSize(|ids|, i)
    ensures !Passes(j, Under(ids, i)) ==>
      QueueBad(j, ids, PushChildren(queue, i)) == QueueBad(j, ids, queue) + multiset(Bad(j, ids, i))
  {
    QueueSplit(j, ids, queue, 2 * i + 1, 2 * i + 2);
    if !Passes(j, Under(ids, i)) {
      BadOfInner(j, ids, i);
    }
  }

  lemma BadOfInner(j: Job, ids: seq<NodeId>, i: nat)
    requires ValidOrder(j, ids) && ids != [] && i < |ids| - 1 && !Passes(j, Under(ids, i))
    ensures multiset(Bad(j, ids, i)) == multiset(Bad(j, ids, 2 * i + 1)) + multiset(Bad(j, ids, 2 * i + 2))
  {
    SiblingsDisjoint(ids, i);
    var l, r := Bad(j, ids, 2 * i + 1), Bad(j, ids, 2 * i + 2);
    assert l !! r && Bad(j, ids, i) == l + r;
  }

  function Senders(report: seq<(NodeId, Signature)>): (r: seq<NodeId>) {
    seq(|report|, i requires 0 <= i < |report| => report[i].0)
  }

  lemma OneHot(nodes: seq<NodeId>, n: NodeId)
    requires DistinctNodes(nodes) && n in nodes
    ensures exists i :: 0 <= i < |Bits(nodes, {n})| && Bits(nodes, {n})[i]
    ensures nodes[FirstOne(Bits(nodes, {n}))] == n
  {
    var i :| 0 <= i < |nodes| && nodes[i] == n;
    assert Bits(nodes, {n})[i];
  }

  /** The leaf of a bad signature names its signer and carries the signature as received. */
  lemma LeafReport(j: Job, n: NodeId)
    requires ValidJob(j) && n in j.sigs
    ensures var c := Collect(j, {n});
      && c.sig == j.sigs[n]
      && (exists i :: 0 <= i < |c.signers| && c.signers[i])
      && FirstOne(c.signers) < |j.nodes| && j.nodes[FirstOne(c.signers)] == n
  {
    OneHot(j.nodes, n);
    SumSingle(j.group, j.nodes, n, j.sigs);
  }

  /** What was reported and what is still to come make up `Bad(j, ids, 0)`. */
  ghost predicate Searching(j: Job, ids: seq<NodeId>, queue: seq<nat>, report: seq<(NodeId, Signature)>)
    requires ValidOrder(j, ids) && ids != []
  {
    && InHeap(|ids|, queue)
    && multiset(Senders(report)) + QueueBad(j, ids, queue) == multiset(Bad(j, ids, 0))
    && forall e :: e in report ==> e.0 in j.sigs && e.1 == j.sigs[e.0]
  }

  lemma SearchBegin(j: Job, ids: seq<NodeId>)
    requires ValidOrder(j, ids) && ids != []
    ensures Searching(j, ids, [0], [])
  {
  }

  lemma SearchSkip(j: Job, ids: seq<NodeId>, queue: seq<nat>, report: seq<(NodeId, Signature)>)
    requires ValidOrder(j, ids) && ids != [] && queue != [] && Searching(j, ids, queue, report)
    requires Passes(j, Under(ids, queue[0]))
    ensures Searching(j, ids, queue[1..], report)
    ensures QueueSize(|ids|, queue[1..]) < QueueSize(|ids|, queue)
  {
    QueuePop(j, ids, queue);
  }

  lemma SearchLeaf(j: Job, ids: seq<NodeId>, queue: seq<nat>, report: seq<(NodeId, Signature)>, n: NodeId)
    requires ValidOrder(j, ids) && ids != [] && queue != [] && Searching(j, ids, queue, report)
    requires !Passes(j, Under(ids, queue[0])) && queue[0] >= |ids| - 1 && Under(ids, queue[0]) == {n} && n in j.sigs
    ensures Searching(j, ids, queue[1..], report + [(n, j.sigs[n])])
    ensures QueueSize(|ids|, queue[1..]) < QueueSize(|ids|, queue)
  {
    QueuePop(j, ids, queue);
    assert Bad(j, ids, queue[0]) == {n};
    assert Senders(report + [(n, j.sigs[n])]) == Senders(report) + [n];
  }

  lemma SearchInner(j: Job, ids: seq<NodeId>, queue: seq<nat>, report: seq<(NodeId, Signature)>)
    requires ValidOrder(j, ids) && ids != [] && queue != [] && Searching(j, ids, queue, report)
    requires !Passes(j, Under(ids, queue[0])) && queue[0] < |ids| - 1
    ensures Searching(j, ids, PushChildren(queue[1..], queue[0]), report)
    ensures QueueSize(|ids|, PushChildren(queue[1..], queue[0])) < QueueSize(|ids|, queue)
  {
    QueuePop(j, ids, queue);
    QueuePush(j, ids, queue[1..], queue[0]);
  }

  lemma SearchEnd(j: Job, ids: seq<NodeId>, report: seq<(NodeId, Signature)>)
    requires ValidOrder(j, ids) && ids != [] && Searching(j, ids, [], report)
    ensures Lists(Senders(report), Bad(j, ids, 0))
    ensures report == [] <==> Passes(j, j.sigs.Keys)
  {
    RootCoversAll(ids);
    ReportIsEmptyIff(j, ids, 0);
    ListsMember(Senders(report), Bad(j, ids, 0));
  }

  datatype Visit = Passing | FailingLeaf(node: NodeId, sig: Signature) | FailingInner

  method VisitNode(j: Job, ids: seq<NodeId>, cert: SignatureCollection, i: nat) returns (v: Visit)
    requires ValidOrder(j, ids) && ids != [] && i < 2 * |ids| - 1 && IsNode(j, ids, cert, i)
    ensures v.Passing? <==> Passes(j, Under(ids, i))
    ensures v.FailingInner? ==> i < |ids| - 1
    ensures v.FailingLeaf? ==> i >= |ids| - 1 && Under(ids, i) == {v.node} && v.node in j.sigs && v.sig == j.sigs[v.node]
  {
    CollectVerifies(j, Under(ids, i));
    var signers := VerifyCollection(j.group, j.nodes, j.expected, cert);
    if signers.Some? {
      return Passing;
    }
    if 2 * i + 1 >= 2 * |ids| - 1 {
      ghost var n := ids[i - (|ids| - 1)];
      assert Under(ids, i) == {n} && n in NodeSet(ids);
      LeafReport(j, n);
      var k := FirstOne(cert.signers);  // expect: signer should be one-hot encoded
      v := FailingLeaf(j.nodes[k], cert.sig);
    } else {
      v := FailingInner;
    }
  }

  /** `NoSigner` is a panic: a failing leaf without a signer to report. */
  datatype SearchResult = Verified(cert: SignatureCollection) | InvalidSigs(report: seq<(NodeId, Signature)>) | NoSigner

  /** Search the tree breadth first: a failing inner node queues its children, a failing leaf
      is reported.  The report lists exactly `Bad(j, ids, 0)`, each signer once and with the
      signature that was received from it.  The tree of no signatures is one leaf, which fails
      only when there are too many validators. */
  method SearchTree(j: Job, ids: seq<NodeId>, nodes: seq<SignatureCollection>) returns (r: SearchResult)
    requires ValidOrder(j, ids) && IsTree(j, ids, nodes)
    ensures r.NoSigner? <==> ids == [] && |j.nodes| > MAX_SIGNERS_LEN
    ensures r.InvalidSigs? ==> ids != []
    ensures r.Verified? <==> Passes(j, j.sigs.Keys)
    ensures r.Verified? ==> r.cert == Collect(j, j.sigs.Keys)
    ensures r.InvalidSigs? ==> r.report != [] && Lists(Senders(r.report), Bad(j, ids, 0))
    ensures r.InvalidSigs? ==> forall e :: e in r.report ==> e.0 in j.sigs && e.1 == j.sigs[e.0]
  {
    if ids == [] {
      CollectVerifies(j, {});
      EmptyAgrees(j, ids);
      var signers := VerifyCollection(j.group, j.nodes, j.expected, nodes[0]);
      return if signers.Some? then Verified(nodes[0]) else NoSigner;
    }
    var queue: seq<nat> := [0];
    var report: seq<(NodeId, Signature)> := [];
    SearchBegin(j, ids);
    while queue != []
      invariant Searching(j, ids, queue, report)
      decreases QueueSize(|ids|, queue)
    {
      var i := queue[0];
      assert IsNode(j, ids, nodes[i], i);
      var visit := VisitNode(j, ids, nodes[i], i);
      match visit
      case Passing =>
        SearchSkip(j, ids, queue, report);
        queue := queue[1..];
      case FailingLeaf(n, sig) =>
        SearchLeaf(j, ids, queue, report, n);
        report := report + [(n, sig)];
        queue := queue[1..];
      case FailingInner =>
        SearchInner(j, ids, queue, report);
        queue := PushChildren(queue[1..], i);
    }
    SearchEnd(j, ids, report);
    RootIgnoresOrder(j, ids, nodes);
    r := if report == [] then Verified(nodes[0]) else InvalidSigs(report);
  }

  lemma EmptyAgrees(j: Job, ids: seq<NodeId>)
    requires ValidOrder(j, ids) && ids == []
    ensures j.sigs.Keys == {} && Agrees(j, {})
  {
    assert j.sigs.Keys == {};
    SumEmpty(j.group, j.nodes, j.sigs);
    SumEmpty(j.group, j.nodes, j.expected);
  }
}
