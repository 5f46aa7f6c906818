/** Collecting votes until they form a quorum certificate. */
module VoteStates {
  import opened ConsensusTypes
  import opened SignatureSums
  import opened AggregationTree
  import opened SignatureCollections
  import opened Validators
  import opened SeqSets

  /** The signature each validator would give to a vote. */
  type VoteSigner = (NodeId, Vote) -> Signature

  /** All votes of one round: the signatures collected for each vote, and everything each
      node has signed. */
  datatype RoundVotes = RoundVotes(pending: map<Vote, SigMap>, nodeVotes: map<NodeId, set<Signature>>)

  datatype Votes = Votes(rounds: map<Round, RoundVotes>, earliestRound: Round)

  /** The signatures collected for `vote`. */
  function Pending(s: Votes, vote: Vote): (m: SigMap) {
    if vote.round in s.rounds && vote in s.rounds[vote.round].pending
    then s.rounds[vote.round].pending[vote]
    else map[]
  }

  function VoteJob(c: Committee, sign: VoteSigner, vote: Vote, sigs: SigMap): (j: Job) {
    Job(c.group, c.nodes, map n | n in NodeSet(c.nodes) :: sign(n, vote), sigs)
  }

  ghost predicate ValidQuorum(c: Committee, sign: VoteSigner, qc: QuorumCertificate)
    requires ValidCommittee(c)
  {
    && Verifies(c.group, c.nodes, VoteJob(c, sign, qc.info, map[]).expected, qc.signatures)
    && HasSuperMajority(c, Signers(c.nodes, qc.signatures.signers))
  }

  // ---- what processing one vote does

  /** `kept` is `sigs` without some of its invalid signatures. */
  ghost predicate DropsOnlyInvalid(sign: VoteSigner, vote: Vote, sigs: SigMap, kept: SigMap) {
    && kept.Keys <= sigs.Keys
    && (forall n :: n in kept ==> kept[n] == sigs[n])
    && (forall n :: n in sigs && sigs[n] == sign(n, vote) ==> n in kept)
  }

  /** A vote below the earliest round changes nothing.  Otherwise the vote is recorded, some
      invalid signatures for the same vote may be dropped, and a certificate forms exactly
      when what is left has a supermajority; then its round is closed. */
  ghost predicate VoteStep(c: Committee, sign: VoteSigner, s: Votes, author: NodeId, vote: Vote, sig: Signature,
                           t: Votes, qc: Option<QuorumCertificate>)
    requires ValidCommittee(c)
  {
    if vote.round < s.earliestRound then t == s && qc == None
    else
      var kept := Pending(t, vote);
      && DropsOnlyInvalid(sign, vote, Pending(s, vote)[author := sig], kept)
      && (forall v :: v != vote ==> Pending(t, v) == Pending(s, v))
      && (qc.Some? <==> HasSuperMajority(c, kept.Keys))
      && t.earliestRound == (if qc.Some? then vote.round + 1 else s.earliestRound)
      && (qc.Some? ==>
            && qc.value.info == vote
            && ValidQuorum(c, sign, qc.value)
            && Signers(c.nodes, qc.value.signatures.signers) == kept.Keys)
  }

  /** Everything `n` has signed in a round. */
  function NodeVotes(s: Votes, round: Round, n: NodeId): (sigs: set<Signature>) {
    if round in s.rounds && n in s.rounds[round].nodeVotes then s.rounds[round].nodeVotes[n] else {}
  }

  /** Unless it is too old, the signature is added to what its author has signed in its round. */
  ghost predicate KeepsEvidence(s: Votes, author: NodeId, vote: Vote, sig: Signature, t: Votes) {
    forall r: Round, n: NodeId :: NodeVotes(t, r, n) ==
      if r == vote.round && n == author && vote.round >= s.earliestRound then NodeVotes(s, r, n) + {sig} else NodeVotes(s, r, n)
  }

  // ---- aggregating what is pending

  lemma {:induction false} PairsOfMap(m: SigMap, ids: seq<NodeId>, pairs: seq<Sent>)
    requires DistinctNodes(ids) && |pairs| == |ids|
    requires forall i :: 0 <= i < |ids| ==> ids[i] in m && pairs[i] == (ids[i], m[ids[i]])
    ensures FirstSent(pairs) == map n | n in NodeSet(ids) && n in m :: m[n]
  {
    if ids == [] {
    } else {
      var k := |ids| - 1;
      PairsOfMap(m, ids[..k], pairs[..k]);
      NodesSnoc(ids[..k], ids[k], ids);
      PairSnoc(m, NodeSet(ids[..k]), ids[k]);
    }
  }

  lemma PairSnoc(m: SigMap, ids: set<NodeId>, id: NodeId)
    requires id in m && id !in ids
    ensures Remember(map n | n in ids && n in m :: m[n], (id, m[id])) == map n | n in ids + {id} && n in m :: m[n]
  {
  }

  lemma NodesSnoc(ids: seq<NodeId>, n: NodeId, all: seq<NodeId>)
    requires all == ids + [n] && DistinctNodes(all)
    ensures NodeSet(all) == NodeSet(ids) + {n} && n !in NodeSet(ids)
  {
    forall i | 0 <= i < |ids| ensures ids[i] != n {
      assert all[i] == ids[i] && all[|ids|] == n;
    }
  }

  /** The entries of the pending map, as the aggregator gets them. */
  method Entries(m: SigMap) returns (pairs: seq<Sent>)
    ensures FirstSent(pairs) == m && Consistent(pairs)
    ensures pairs == [] <==> m == map[]
  {
    var ids := AnyOrder(m.Keys);
    ListedNodes(ids, m.Keys);
    assert forall i :: 0 <= i < |ids| ==> ids[i] in NodeSet(ids);
    pairs := seq(|ids|, i requires 0 <= i < |ids| => (ids[i], m[ids[i]]));
    PairsOfMap(m, ids, pairs);
    assert m == map n | n in NodeSet(ids) && n in m :: m[n];
  }

  /** Dropping what a report names leaves signatures that add up, and drops no valid one. */
  lemma ReportLeavesAgreement(c: Committee, sign: VoteSigner, vote: Vote, sigs: SigMap, report: seq<Sent>)
    requires ValidCommittee(c) && sigs.Keys <= NodeSet(c.nodes)
    requires var j := VoteJob(c, sign, vote, sigs); ValidJob(j) && GoodReport(j, report)
    ensures var kept := sigs - NodeSet(Senders(report));
      && |kept| < |sigs|
      && DropsOnlyInvalid(sign, vote, sigs, kept)
      && ValidJob(VoteJob(c, sign, vote, kept))
      && Passes(VoteJob(c, sign, vote, kept), kept.Keys)
  {
    var j, bad := VoteJob(c, sign, vote, sigs), NodeSet(Senders(report));
    var kept := sigs - bad;
    var k := VoteJob(c, sign, vote, kept);
    assert kept.Keys == sigs.Keys - bad;
    SumAgree(c.group, c.nodes, kept.Keys, sigs, kept);
    forall n | n in sigs && sigs[n] == sign(n, vote) ensures n in kept {
      AgreesSingle(j, n);
    }
    assert report[0] in report && Senders(report)[0] in bad;
    SmallerMap(sigs, kept, Senders(report)[0]);
  }

  /** A certificate made of signatures that pass, from a supermajority. */
  lemma CollectedQuorum(c: Committee, sign: VoteSigner, vote: Vote, sigs: SigMap, collection: SignatureCollection)
    requires ValidCommittee(c) && HasSuperMajority(c, sigs.Keys)
    requires var j := VoteJob(c, sign, vote, sigs);
      ValidJob(j) && Passes(j, j.sigs.Keys) && collection == Collect(j, j.sigs.Keys)
    ensures Signers(c.nodes, collection.signers) == sigs.Keys
    ensures ValidQuorum(c, sign, QuorumCertificate(vote, collection))
  {
  }

  /** The retry loop: aggregate while there is a supermajority, dropping what the aggregator
      reports as invalid.  The aggregator is called at most twice. */
  method RetryLoop(c: Committee, sign: VoteSigner, vote: Vote, sigs: SigMap)
      returns (kept: SigMap, qc: Option<QuorumCertificate>, ghost calls: nat)
    requires ValidCommittee(c) && sigs.Keys <= NodeSet(c.nodes)
    ensures DropsOnlyInvalid(sign, vote, sigs, kept)
    ensures qc.Some? <==> HasSuperMajority(c, kept.Keys)
    ensures qc.Some? ==> qc.value.info == vote && ValidQuorum(c, sign, qc.value)
    ensures qc.Some? ==> Signers(c.nodes, qc.value.signatures.signers) == kept.Keys
    ensures calls <= 2
  {
    kept, calls := sigs, 0;
    var expected := map n | n in NodeSet(c.nodes) :: sign(n, vote);
    while HasSuperMajority(c, kept.Keys)
      invariant DropsOnlyInvalid(sign, vote, sigs, kept)
      invariant calls == 0 || (calls == 1 && Passes(VoteJob(c, sign, vote, kept), kept.Keys))
      decreases |kept|
    {
      var entries := Entries(kept);
      var r := CreateCollection(c.group, c.nodes, expected, entries);
      calls := calls + 1;
      match r
      case Created(collection) =>
        CollectedQuorum(c, sign, vote, kept, collection);
        return kept, Some(QuorumCertificate(vote, collection)), calls;
      case InvalidSignaturesCreate(report) =>
        ReportLeavesAgreement(c, sign, vote, kept, report);
        kept := kept - NodeSet(Senders(report));
      case ConflictingSignatures(_, _, _) => assert false;
      case NodeIdNotInMapping(_) => assert false;
      case NoSignerPanic => assert false;
    }
    qc := None;
  }

  lemma StorePending(s: Votes, vote: Vote, round: RoundVotes, kept: SigMap, earliest: Round)
    requires if vote.round in s.rounds then round.pending == s.rounds[vote.round].pending else round.pending == map[]
    ensures var t := Votes(s.rounds[vote.round := round.(pending := round.pending[vote := kept])], earliest);
      Pending(t, vote) == kept && forall v :: v != vote ==> Pending(t, v) == Pending(s, v)
  {
  }

  lemma StoreEvidence(s: Votes, author: NodeId, vote: Vote, sig: Signature, round: RoundVotes, kept: SigMap, earliest: Round)
    requires vote.round >= s.earliestRound
    requires var before := if vote.round in s.rounds then s.rounds[vote.round].nodeVotes else map[];
      round.nodeVotes == before[author := (if author in before then before[author] else {}) + {sig}]
    ensures KeepsEvidence(s, author, vote, sig, Votes(s.rounds[vote.round := round.(pending := round.pending[vote := kept])], earliest))
  {
  }

  class VoteState {
    var rounds: map<Round, RoundVotes>
    var earliestRound: Round

    constructor (round: Round)
      ensures View() == Votes(map[], round)
    {
      rounds, earliestRound := map[], round;
    }

    ghost function View(): Votes
      reads this
    {
      Votes(rounds, earliestRound)
    }

    method ProcessVote(c: Committee, sign: VoteSigner, author: NodeId, vote: Vote, sig: Signature)
        returns (qc: Option<QuorumCertificate>, ghost calls: nat)
      requires ValidCommittee(c) && author in c.nodes
      requires Pending(View(), vote).Keys <= NodeSet(c.nodes)
      modifies this
      ensures VoteStep(c, sign, old(View()), author, vote, sig, View(), qc)
      ensures KeepsEvidence(old(View()), author, vote, sig, View())
      ensures calls <= 2
    {
      if vote.round < earliestRound {
        return None, 0;
      }
      var round := if vote.round in rounds then rounds[vote.round] else RoundVotes(map[], map[]);
      var signed := if author in round.nodeVotes then round.nodeVotes[author] else {};
      round := round.(nodeVotes := round.nodeVotes[author := signed + {sig}]);
      var collected := (if vote in round.pending then round.pending[vote] else map[])[author := sig];
      var kept;
      kept, qc, calls := RetryLoop(c, sign, vote, collected);
      var earliest := if qc.Some? then vote.round + 1 else earliestRound;
      StorePending(View(), vote, round, kept, earliest);
      StoreEvidence(View(), author, vote, sig, round, kept, earliest);
      rounds := rounds[vote.round := round.(pending := round.pending[vote := kept])];
      earliestRound := earliest;
    }

    method StartNewRound(round: Round)
      modifies this
      ensures View() == NewRound(old(View()), round)
    {
      earliestRound := round;
      rounds := map r | r in rounds && r >= round :: rounds[r];
    }
  }

  function NewRound(s: Votes, round: Round): (t: Votes)
    ensures t.earliestRound == round
    ensures forall v: Vote :: Pending(t, v) == if v.round >= round then Pending(s, v) else map[]
    ensures forall r: Round, n: NodeId :: NodeVotes(t, r, n) == if r >= round then NodeVotes(s, r, n) else {}
  {
    Votes(map r | r in s.rounds && r >= round :: s.rounds[r], round)
  }

  /** Once a round is started, votes of earlier rounds change nothing, and those of the round
      itself or later are recorded. */
  lemma NewRoundCloses(c: Committee, sign: VoteSigner, s: Votes, round: Round, author: NodeId, vote: Vote, sig: Signature,
                       t: Votes, qc: Option<QuorumCertificate>)
    requires ValidCommittee(c) && VoteStep(c, sign, NewRound(s, round), author, vote, sig, t, qc)
    ensures vote.round < round ==> t == NewRound(s, round) && qc == None
    ensures vote.round >= round && sig == sign(author, vote) ==> author in Pending(t, vote)
  {
  }
}
