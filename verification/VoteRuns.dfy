/** Runs of a node's vote collection: votes arrive in any order, valid or not, and the node
moves on to new rounds. */
module VoteRuns {
  import opened ConsensusTypes
  import opened SignatureSums
  import opened Validators
  import opened VoteStates

  /** The validators of every round; they change from epoch to epoch. */
  type Committees = Round -> Committee

  ghost predicate ValidCommittees(com: Committees) {
    forall r: Round :: ValidCommittee(com(r))
  }

  datatype Event =
    | VoteReceived(author: NodeId, vote: Vote, sig: Signature)
    | RoundStarted(round: Round)

  ghost predicate Step(com: Committees, sign: VoteSigner, s: Votes, e: Event, t: Votes, qc: Option<QuorumCertificate>)
    requires ValidCommittees(com)
  {
    match e
    case VoteReceived(author, vote, sig) => VoteStep(com(vote.round), sign, s, author, vote, sig, t, qc)
    case RoundStarted(round) => t == NewRound(s, round) && qc == None
  }

  /** A run from an empty state; `qcs[i]` is the certificate that event `i` produced, if any. */
  ghost predicate IsRun(com: Committees, sign: VoteSigner, events: seq<Event>, states: seq<Votes>,
                        qcs: seq<Option<QuorumCertificate>>)
    requires ValidCommittees(com)
  {
    && |states| == |events| + 1 && |qcs| == |events|
    && states[0].rounds == map[]
    && forall i :: 0 <= i < |events| ==> Step(com, sign, states[i], events[i], states[i + 1], qcs[i])
  }

  lemma RunStep(com: Committees, sign: VoteSigner, events: seq<Event>, states: seq<Votes>,
                qcs: seq<Option<QuorumCertificate>>, k: nat)
    requires ValidCommittees(com) && IsRun(com, sign, events, states, qcs) && 0 < k < |states|
    ensures Step(com, sign, states[k - 1], events[k - 1], states[k], qcs[k - 1])
  {
  }

  // ---- certificates form in time

  /** Every vote for `vote` from a member of `honest` carries the right signature. */
  ghost predicate SendOnlyValid(sign: VoteSigner, events: seq<Event>, vote: Vote, honest: set<NodeId>) {
    forall i :: 0 <= i < |events| && events[i].VoteReceived? && events[i].vote == vote && events[i].author in honest ==>
      events[i].sig == sign(events[i].author, vote)
  }

  ghost predicate NotPast(events: seq<Event>, round: Round) {
    forall i :: 0 <= i < |events| && events[i].RoundStarted? ==> events[i].round <= round
  }

  ghost predicate NoQcFrom(qcs: seq<Option<QuorumCertificate>>, round: Round, k: nat) {
    forall i :: 0 <= i < k && i < |qcs| && qcs[i].Some? ==> qcs[i].value.Round() < round
  }

  function Voted(events: seq<Event>, vote: Vote): (s: set<NodeId>) {
    set e | e in events && e.VoteReceived? && e.vote == vote :: e.author
  }

  /** As long as no certificate of this or a later round has formed, valid signatures are all
      still there and they are no supermajority. */
  lemma {:induction false} ValidVotesAreKept(com: Committees, sign: VoteSigner, events: seq<Event>, states: seq<Votes>,
                                             qcs: seq<Option<QuorumCertificate>>, vote: Vote, honest: set<NodeId>, k: nat)
    requires ValidCommittees(com) && IsRun(com, sign, events, states, qcs) && k < |states|
    requires SendOnlyValid(sign, events, vote, honest) && NotPast(events, vote.round)
    requires states[0].earliestRound <= vote.round && NoQcFrom(qcs, vote.round, k)
    ensures states[k].earliestRound <= vote.round
    ensures !HasSuperMajority(com(vote.round), Pending(states[k], vote).Keys)
    ensures forall n :: n in honest && n in Voted(events[..k], vote) ==>
      n in Pending(states[k], vote) && Pending(states[k], vote)[n] == sign(n, vote)
  {
    if k == 0 {
      assert Pending(states[0], vote) == map[];
      assert Pending(states[0], vote).Keys == {};
      StakeEmpty(com(vote.round).nodes, com(vote.round).stakes);
    } else {
      ValidVotesAreKept(com, sign, events, states, qcs, vote, honest, k - 1);
      RunStep(com, sign, events, states, qcs, k);
      var e := events[k - 1];
      assert events[..k] == events[..k - 1] + [e];
      VotedSnoc(events[..k - 1], e, vote);
      KeptStep(com, sign, states[k - 1], e, states[k], qcs[k - 1], vote, honest, Voted(events[..k - 1], vote));
    }
  }

  lemma VotedSnoc(events: seq<Event>, e: Event, vote: Vote)
    ensures Voted(events + [e], vote) ==
      Voted(events, vote) + (if e.VoteReceived? && e.vote == vote then {e.author} else {})
  {
  }

  lemma KeptStep(com: Committees, sign: VoteSigner, s: Votes, e: Event, t: Votes, qc: Option<QuorumCertificate>,
                 vote: Vote, honest: set<NodeId>, voted: set<NodeId>)
    requires ValidCommittees(com) && Step(com, sign, s, e, t, qc)
    requires s.earliestRound <= vote.round && (qc.Some? ==> qc.value.Round() < vote.round)
    requires e.RoundStarted? ==> e.round <= vote.round
    requires e.VoteReceived? && e.vote == vote && e.author in honest ==> e.sig == sign(e.author, vote)
    requires !HasSuperMajority(com(vote.round), Pending(s, vote).Keys)
    requires forall n :: n in honest && n in voted ==> n in Pending(s, vote) && Pending(s, vote)[n] == sign(n, vote)
    ensures t.earliestRound <= vote.round
    ensures !HasSuperMajority(com(vote.round), Pending(t, vote).Keys)
    ensures forall n :: n in honest && (n in voted || (e.VoteReceived? && e.vote == vote && n == e.author)) ==>
      n in Pending(t, vote) && Pending(t, vote)[n] == sign(n, vote)
  {
  }

  /** Whatever else is sent, and in whatever order: once the authors who send only valid
      signatures for a vote hold a supermajority and have all voted, a certificate for that
      round, or a later one, has formed. */
  lemma QcFormsInTime(com: Committees, sign: VoteSigner, events: seq<Event>, states: seq<Votes>,
                      qcs: seq<Option<QuorumCertificate>>, vote: Vote, honest: set<NodeId>)
    requires ValidCommittees(com) && IsRun(com, sign, events, states, qcs)
    requires SendOnlyValid(sign, events, vote, honest) && NotPast(events, vote.round)
    requires states[0].earliestRound <= vote.round
    requires HasSuperMajority(com(vote.round), honest) && honest <= Voted(events, vote)
    ensures exists i :: 0 <= i < |qcs| && qcs[i].Some? && qcs[i].value.Round() >= vote.round
  {
    if NoQcFrom(qcs, vote.round, |events|) {
      assert events[..|events|] == events;
      ValidVotesAreKept(com, sign, events, states, qcs, vote, honest, |events|);
      SuperMajorityGrows(com(vote.round), honest, Pending(states[|events|], vote).Keys);
    }
  }

  // ---- quorum intersection

  lemma {:induction false} PendingHasVoted(com: Committees, sign: VoteSigner, events: seq<Event>, states: seq<Votes>,
                                           qcs: seq<Option<QuorumCertificate>>, vote: Vote, k: nat)
    requires ValidCommittees(com) && IsRun(com, sign, events, states, qcs) && k < |states|
    ensures Pending(states[k], vote).Keys <= Voted(events[..k], vote)
  {
    if k == 0 {
    } else {
      PendingHasVoted(com, sign, events, states, qcs, vote, k - 1);
      RunStep(com, sign, events, states, qcs, k);
      var e := events[k - 1];
      assert events[..k] == events[..k - 1] + [e];
      VotedSnoc(events[..k - 1], e, vote);
      if e.VoteReceived? && e.vote != vote && e.vote.round >= states[k - 1].earliestRound {
        assert Pending(states[k], vote) == Pending(states[k - 1], vote);
      }
    }
  }

  /** The signers of a certificate have all voted for it, and are a supermajority. */
  lemma SignersHaveVoted(com: Committees, sign: VoteSigner, events: seq<Event>, states: seq<Votes>,
                         qcs: seq<Option<QuorumCertificate>>, i: nat)
    requires ValidCommittees(com) && IsRun(com, sign, events, states, qcs) && i < |qcs| && qcs[i].Some?
    ensures ValidQuorum(com(qcs[i].value.Round()), sign, qcs[i].value)
    ensures Signers(com(qcs[i].value.Round()).nodes, qcs[i].value.signatures.signers) <= Voted(events[..i + 1], qcs[i].value.info)
  {
    RunStep(com, sign, events, states, qcs, i + 1);
    PendingHasVoted(com, sign, events, states, qcs, qcs[i].value.info, i + 1);
  }

  /** Any two certificates of one round, built by any two nodes, have voters in common that hold
      more than a third of the stake; if they certify different blocks, these voted twice. */
  lemma QcsShareVoters(
      com: Committees, sign: VoteSigner,
      events: seq<Event>, states: seq<Votes>, qcs: seq<Option<QuorumCertificate>>, i: nat,
      events': seq<Event>, states': seq<Votes>, qcs': seq<Option<QuorumCertificate>>, i': nat)
    requires ValidCommittees(com) && IsRun(com, sign, events, states, qcs) && IsRun(com, sign, events', states', qcs')
    requires i < |qcs| && qcs[i].Some? && i' < |qcs'| && qcs'[i'].Some?
    requires qcs[i].value.Round() == qcs'[i'].value.Round()
    ensures var c := com(qcs[i].value.Round());
      3 * Stake(c, Voted(events[..i + 1], qcs[i].value.info) * Voted(events'[..i' + 1], qcs'[i'].value.info)) > TotalStake(c)
  {
    var c := com(qcs[i].value.Round());
    SignersHaveVoted(com, sign, events, states, qcs, i);
    SignersHaveVoted(com, sign, events', states', qcs', i');
    var a, b := Signers(c.nodes, qcs[i].value.signatures.signers), Signers(c.nodes, qcs'[i'].value.signatures.signers);
    QuorumsIntersect(c, a, b);
    StakeMonotone(c.nodes, c.stakes, a * b,
                  Voted(events[..i + 1], qcs[i].value.info) * Voted(events'[..i' + 1], qcs'[i'].value.info));
  }

  /** Nodes that vote for two different blocks of one round and epoch hold at most a third of
      that round's stake. */
  ghost predicate DoubleVotersAreFew(com: Committees, events: seq<Event>, events': seq<Event>)
    requires ValidCommittees(com)
  {
    forall v: Vote, v': Vote :: v.round == v'.round && v.epoch == v'.epoch && v.id != v'.id ==>
      3 * Stake(com(v.round), Voted(events, v) * Voted(events', v')) <= TotalStake(com(v.round))
  }

  /** Then all certificates of a round and epoch, at whatever node, certify the same block. */
  lemma OneCertifiedBlockPerRound(
      com: Committees, sign: VoteSigner,
      events: seq<Event>, states: seq<Votes>, qcs: seq<Option<QuorumCertificate>>, i: nat,
      events': seq<Event>, states': seq<Votes>, qcs': seq<Option<QuorumCertificate>>, i': nat)
    requires ValidCommittees(com) && IsRun(com, sign, events, states, qcs) && IsRun(com, sign, events', states', qcs')
    requires i < |qcs| && qcs[i].Some? && i' < |qcs'| && qcs'[i'].Some?
    requires DoubleVotersAreFew(com, events, events')
    requires qcs[i].value.info.round == qcs'[i'].value.info.round && qcs[i].value.info.epoch == qcs'[i'].value.info.epoch
    ensures qcs[i].value.info == qcs'[i'].value.info
  {
    var v, v' := qcs[i].value.info, qcs'[i'].value.info;
    var c := com(v.round);
    QcsShareVoters(com, sign, events, states, qcs, i, events', states', qcs', i');
    VotedPrefix(events, v, i + 1);
    VotedPrefix(events', v', i' + 1);
    StakeMonotone(c.nodes, c.stakes, Voted(events[..i + 1], v) * Voted(events'[..i' + 1], v'),
                  Voted(events, v) * Voted(events', v'));
  }

  lemma VotedPrefix(events: seq<Event>, vote: Vote, k: nat)
    requires k <= |events|
    ensures Voted(events[..k], vote) <= Voted(events, vote)
  {
  }
}
