/** Creating a signature collection from individual signatures. */
module SignatureCollections {
  import opened ConsensusTypes
  import opened SignatureSums
  import opened AggregationTree
  import opened SeqSets

  type Sent = (NodeId, Signature)

  /** `NoSignerPanic` stands for the failing `expect` of the search. */
  datatype CreateResult =
    | Created(collection: SignatureCollection)
    | ConflictingSignatures(node: NodeId, first: Signature, second: Signature)
    | NodeIdNotInMapping(strangers: seq<Sent>)
    | InvalidSignaturesCreate(report: seq<Sent>)
    | NoSignerPanic

  /** The first signature received from each sender. */
  function FirstSent(sigs: seq<Sent>): (m: SigMap) {
    if sigs == [] then map[]
    else Remember(FirstSent(sigs[..|sigs| - 1]), sigs[|sigs| - 1])
  }

  function Remember(m: SigMap, e: Sent): (r: SigMap) {
    if e.0 in m then m else m[e.0 := e.1]
  }

  lemma {:induction false} SentBy(sigs: seq<Sent>, n: NodeId) returns (i: nat)
    requires n in FirstSent(sigs)
    ensures i < |sigs| && sigs[i] == (n, FirstSent(sigs)[n])
  {
    var k := |sigs| - 1;
    if n in FirstSent(sigs[..k]) {
      i := SentBy(sigs[..k], n);
    } else {
      i := k;
    }
  }

  /** No sender is listed with two different signatures. */
  predicate Consistent(sigs: seq<Sent>) {
    forall i, j :: 0 <= i < j < |sigs| && sigs[i].0 == sigs[j].0 ==> sigs[i].1 == sigs[j].1
  }

  /** What a report of invalid signatures guarantees. */
  ghost predicate GoodReport(j: Job, report: seq<Sent>)
    requires ValidJob(j)
  {
    && report != []
    && (forall e :: e in report ==> e.0 in j.sigs && e.1 == j.sigs[e.0])
    && Lists(Senders(report), NodeSet(Senders(report)))
    && NodeSet(Senders(report)) <= j.sigs.Keys
    && (forall n :: n in NodeSet(Senders(report)) ==> Invalid(j, n))
    && Agrees(j, j.sigs.Keys - NodeSet(Senders(report)))
  }

  lemma SearchGivesGoodReport(j: Job, ids: seq<NodeId>, report: seq<Sent>)
    requires ValidOrder(j, ids) && ids != [] && report != []
    requires Lists(Senders(report), Bad(j, ids, 0))
    requires forall e :: e in report ==> e.0 in j.sigs && e.1 == j.sigs[e.0]
    ensures GoodReport(j, report)
  {
    ListsMember(Senders(report), Bad(j, ids, 0));
    assert NodeSet(Senders(report)) == Bad(j, ids, 0);
    RootCoversAll(ids);
    RestAgrees(j, ids, 0);
    ReportedIsInvalid(j, ids, 0);
  }

  method IndexValidators(nodes: seq<NodeId>) returns (index: map<NodeId, nat>)
    requires DistinctNodes(nodes)
    ensures forall n :: n in nodes ==> n in index && index[n] < |nodes| && nodes[index[n]] == n
  {
    index := map[];
    for i := 0 to |nodes|
      invariant forall k :: 0 <= k < i ==> nodes[k] in index
      invariant forall n :: n in index ==> index[n] < |nodes| && nodes[index[n]] == n
    {
      index := index[nodes[i] := i];
    }
  }

  lemma ListedNodes(ids: seq<NodeId>, s: set<NodeId>)
    requires Lists(ids, s)
    ensures DistinctNodes(ids) && NodeSet(ids) == s
  {
    ListsMember(ids, s);
    forall i, j | 0 <= i < j < |ids| ensures ids[i] != ids[j] {
      ListsDistinct(ids, s, i, j);
    }
  }

  /** Aggregate the signatures if they add up, or report senders of invalid ones. */
  method CreateCollection(group: Group, nodes: seq<NodeId>, expected: SigMap, sigs: seq<Sent>)
      returns (r: CreateResult)
    requires Abelian(group) && DistinctNodes(nodes) && expected.Keys == NodeSet(nodes)
    ensures r.NoSignerPanic? <==> sigs == [] && |nodes| > MAX_SIGNERS_LEN
    ensures r.ConflictingSignatures? <==> !Consistent(sigs)
    ensures r.NodeIdNotInMapping? <==> Consistent(sigs) && !(FirstSent(sigs).Keys <= NodeSet(nodes))
    ensures r.Created? || r.InvalidSignaturesCreate? ==>
      var j := Job(group, nodes, expected, FirstSent(sigs));
      && ValidJob(j)
      && (r.Created? <==> Passes(j, j.sigs.Keys))
      && (r.Created? ==> r.collection == Collect(j, j.sigs.Keys))
      && (r.InvalidSignaturesCreate? ==> GoodReport(j, r.report))
  {
    var index := IndexValidators(nodes);
    var sigsMap: SigMap, strangers: seq<Sent> := map[], [];
    for k := 0 to |sigs|
      invariant sigsMap == FirstSent(sigs[..k])
      invariant forall i :: 0 <= i < k ==> sigs[i].0 in sigsMap && sigsMap[sigs[i].0] == sigs[i].1
      invariant strangers == [] <==> sigsMap.Keys <= NodeSet(nodes)
    {
      var (n, sig) := sigs[k];
      assert sigs[..k + 1][..k] == sigs[..k];
      if n !in nodes {
        strangers := strangers + [(n, sig)];
      }
      if n !in sigsMap {
        sigsMap := sigsMap[n := sig];
      }
      if sigsMap[n] != sig {
        ghost var i := SentBy(sigs[..k], n);
        assert sigs[i] == sigs[..k][i];
        return ConflictingSignatures(n, sigsMap[n], sig);
      }
    }
    assert sigs[..|sigs|] == sigs;
    if strangers != [] {
      return NodeIdNotInMapping(strangers);
    }
    var j := Job(group, nodes, expected, sigsMap);
    var ids := AnyOrder(sigsMap.Keys);
    ListedNodes(ids, sigsMap.Keys);
    assert ids == [] <==> sigs == [] by {
      ListsMember(ids, sigsMap.Keys);
      assert sigs != [] ==> sigs[0].0 in sigsMap.Keys;
    }
    var tree := NewTree(j, ids, index);
    var search := SearchTree(j, ids, tree);
    match search
    case Verified(cert) =>
      r := Created(cert);
    case InvalidSigs(report) =>
      SearchGivesGoodReport(j, ids, report);
      r := InvalidSignaturesCreate(report);
    case NoSigner =>
      r := NoSignerPanic;
  }
}
