/** Runs of the node as far as its round, its votes and its timeouts are concerned: votes,
timeouts, expired timers and certificates arrive in any order. */
module NodeRuns {
  import opened ConsensusTypes
  import opened Validators
  import opened VoteStates
  import opened Timeouts
  import opened Pacemakers
  import TimeoutRuns

  const FUTURE_VOTE_BOUND: Round := 10

  datatype NodeState = NodeState(collector: Collector, votes: Votes)

  datatype NodeEvent =
    | VoteIn(author: NodeId, vote: Vote, sig: Signature)
    | TimeoutIn(author: NodeId, timeout: Timeout)
    | Expired(round: Round)
    | CertificateIn(certificate: RoundCertificate)

  /** The vote that comes with the tip of a timeout. */
  function TipVoteOf(t: Timeout): Vote
    requires t.highExtend.TipVote?
  {
    Vote(HashOf(t.highExtend.header), t.info.round, t.info.epoch)
  }

  // ---- what the handlers do

  /** A certificate of the round or later enters the next round; a QC also closes earlier rounds
      for votes. */
  ghost predicate CertificateStep(env: Env, s: NodeState, certificate: RoundCertificate, t: NodeState)
    requires ValidEnv(env)
  {
    && CollectStep(env, s.collector, Certified(certificate), t.collector)
    && t.votes == if certificate.QcCertificate? && certificate.Round() >= s.collector.round
                  then NewRound(s.votes, certificate.Round() + 1) else s.votes
  }

  /** A vote of the round, or of one of the next ten, is counted.  If that makes a QC, it is
      processed at once. */
  ghost predicate CountStep(env: Env, s: NodeState, author: NodeId, vote: Vote, sig: Signature,
                            counted: Votes, qc: Option<QuorumCertificate>, t: NodeState)
    requires ValidEnv(env)
  {
    && (if s.collector.round <= vote.round <= s.collector.round + FUTURE_VOTE_BOUND
        then VoteStep(CommitteeAt(env, vote.round), env.signVote, s.votes, author, vote, sig, counted, qc)
        else counted == s.votes && qc == None)
    && t == if qc.None? then NodeState(s.collector, counted)
            else NodeState(Collector(vote.round + 1, Zero, map[]), NewRound(counted, vote.round + 1))
  }

  ghost predicate VoteInStep(env: Env, s: NodeState, author: NodeId, vote: Vote, sig: Signature, t: NodeState)
    requires ValidEnv(env)
  {
    exists counted, qc :: CountStep(env, s, author, vote, sig, counted, qc, t)
  }

  ghost predicate TipStep(env: Env, s: NodeState, author: NodeId, x: Timeout, t: NodeState)
    requires ValidEnv(env)
  {
    if x.highExtend.TipVote? then VoteInStep(env, s, author, TipVoteOf(x), x.highExtend.vote, t) else t == s
  }

  ghost predicate LastStep(env: Env, s: NodeState, x: Timeout, t: NodeState)
    requires ValidEnv(env)
  {
    if x.lastRoundCertificate.Some? then CertificateStep(env, s, x.lastRoundCertificate.value, t) else t == s
  }

  /** What a timeout carries is processed first: the QC it extends, the vote for its tip, and the
      certificate of the round before. */
  ghost predicate CarriedStep(env: Env, s: NodeState, author: NodeId, x: Timeout, a: NodeState, b: NodeState, t: NodeState)
    requires ValidEnv(env)
  {
    && CertificateStep(env, s, QcCertificate(x.highExtend.Extend().Qc()), a)
    && TipStep(env, a, author, x, b)
    && LastStep(env, b, x, t)
  }

  /** Then the round is at least that of the timeout, and the timeout itself is collected. */
  ghost predicate TimeoutStep(env: Env, s: NodeState, author: NodeId, x: Timeout,
                              a: NodeState, b: NodeState, mid: NodeState, t: NodeState)
    requires ValidEnv(env)
  {
    && CarriedStep(env, s, author, x, a, b, mid)
    && mid.collector.round >= x.info.round
    && CollectStep(env, mid.collector, Received(author, x), t.collector)
    && t.votes == mid.votes
  }

  ghost predicate NodeStep(env: Env, s: NodeState, e: NodeEvent, t: NodeState)
    requires ValidEnv(env)
  {
    match e
    case VoteIn(author, vote, sig) => VoteInStep(env, s, author, vote, sig, t)
    case CertificateIn(certificate) => CertificateStep(env, s, certificate, t)
    case Expired(round) =>
      if round < s.collector.round then t == s
      else CollectStep(env, s.collector, TimerExpired, t.collector) && t.votes == s.votes
    case TimeoutIn(author, x) =>
      if x.info.round < s.collector.round then t == s
      else exists a, b, mid :: TimeoutStep(env, s, author, x, a, b, mid, t)
  }

  /** A run from a state in which nothing has come in. */
  ghost predicate IsRun(env: Env, events: seq<NodeEvent>, states: seq<NodeState>)
    requires ValidEnv(env)
  {
    && |states| == |events| + 1
    && states[0].collector.pending == map[] && states[0].votes == Votes(map[], states[0].collector.round)
    && forall i :: 0 <= i < |events| ==> NodeStep(env, states[i], events[i], states[i + 1])
  }

  lemma RunStep(env: Env, events: seq<NodeEvent>, states: seq<NodeState>, k: nat)
    requires ValidEnv(env) && IsRun(env, events, states) && 0 < k < |states|
    ensures NodeStep(env, states[k - 1], events[k - 1], states[k])
  {
    var i := k - 1;
    assert NodeStep(env, states[i], events[i], states[i + 1]);
  }

  // ---- rounds

  /** Nothing changed, or a certificate led to a later round, in which nothing has happened yet. */
  ghost predicate AdvancesOnly(s: Collector, t: Collector) {
    t == s || (t.round > s.round && t == Collector(t.round, Zero, map[]))
  }

  lemma VoteAdvances(env: Env, s: NodeState, author: NodeId, vote: Vote, sig: Signature, t: NodeState)
    requires ValidEnv(env) && VoteInStep(env, s, author, vote, sig, t)
    ensures AdvancesOnly(s.collector, t.collector)
  {
  }

  lemma CarriedAdvances(env: Env, s: NodeState, author: NodeId, x: Timeout, a: NodeState, b: NodeState, t: NodeState)
    requires ValidEnv(env) && CarriedStep(env, s, author, x, a, b, t)
    ensures AdvancesOnly(s.collector, a.collector) && AdvancesOnly(a.collector, b.collector)
    ensures AdvancesOnly(b.collector, t.collector) && AdvancesOnly(s.collector, t.collector)
  {
    if x.highExtend.TipVote? {
      VoteAdvances(env, a, author, TipVoteOf(x), x.highExtend.vote, b);
    }
  }

  lemma StepAdvances(env: Env, s: NodeState, e: NodeEvent, t: NodeState)
    requires ValidEnv(env) && NodeStep(env, s, e, t)
    ensures s.collector.round <= t.collector.round
  {
    if e.VoteIn? {
      VoteAdvances(env, s, e.author, e.vote, e.sig, t);
    } else if e.TimeoutIn? && e.timeout.info.round >= s.collector.round {
      var a, b, mid :| TimeoutStep(env, s, e.author, e.timeout, a, b, mid, t);
      CarriedAdvances(env, s, e.author, e.timeout, a, b, mid);
    }
  }

  /** The round of a node never falls. */
  lemma {:induction false} RoundsRise(env: Env, events: seq<NodeEvent>, states: seq<NodeState>, i: nat, j: nat)
    requires ValidEnv(env) && IsRun(env, events, states) && i <= j < |states|
    ensures states[i].collector.round <= states[j].collector.round
    decreases j
  {
    if i >= j {
    } else {
      RoundsRise(env, events, states, i, j - 1);
      RunStep(env, events, states, j);
      StepAdvances(env, states[j - 1], events[j - 1], states[j]);
    }
  }

  /** A valid vote of the round, or of one of the ten after it, is counted, or completes a quorum;
      one of an earlier round, or eleven or more ahead, changes nothing. */
  lemma VotesTenAheadCount(env: Env, s: NodeState, author: NodeId, vote: Vote, sig: Signature, t: NodeState)
    requires ValidEnv(env) && VoteInStep(env, s, author, vote, sig, t) && s.votes.earliestRound <= s.collector.round
    ensures s.collector.round <= vote.round <= s.collector.round + 10 && sig == env.signVote(author, vote) ==>
      author in Pending(t.votes, vote) || t.collector.round == vote.round + 1
    ensures vote.round < s.collector.round || vote.round >= s.collector.round + 11 ==> t == s
  {
    var counted, qc :| CountStep(env, s, author, vote, sig, counted, qc, t);
  }

  // ---- timeouts

  predicate TimesOut(e: NodeEvent, round: Round) {
    e.TimeoutIn? && e.timeout.info.round == round
  }

  /** Whose timeouts of `round` came in. */
  function TimedOut(events: seq<NodeEvent>, round: Round): (s: set<NodeId>) {
    set e | e in events && TimesOut(e, round) :: e.author
  }

  /** Every timeout of `round` from a member of `honest` carries the right signature. */
  ghost predicate TimeOutValidly(env: Env, events: seq<NodeEvent>, round: Round, honest: set<NodeId>) {
    forall i :: 0 <= i < |events| ==> TimesOutValidly(env, events[i], round, honest)
  }

  predicate TimesOutValidly(env: Env, e: NodeEvent, round: Round, honest: set<NodeId>) {
    TimesOut(e, round) && e.author in honest ==> e.timeout.signature == env.signTimeout(e.author, e.timeout.info)
  }

  /** The honest sender that an event adds. */
  function SenderOf(e: NodeEvent, round: Round, honest: set<NodeId>): set<NodeId> {
    if TimesOut(e, round) && e.author in honest then {e.author} else {}
  }

  lemma TimedOutSnoc(events: seq<NodeEvent>, e: NodeEvent, round: Round, honest: set<NodeId>)
    ensures TimedOut(events + [e], round) * honest == TimedOut(events, round) * honest + SenderOf(e, round, honest)
  {
    assert forall x :: x in events + [e] <==> x in events || x == e;
  }

  lemma AdvanceKeeps(env: Env, s: Collector, t: Collector, round: Round, senders: set<NodeId>)
    requires ValidEnv(env) && TimeoutRuns.Kept(env, s, round, senders) && AdvancesOnly(s, t)
    ensures TimeoutRuns.Kept(env, t, round, senders)
  {
    NoStake(env, t.round);
  }

  lemma TimeoutsKeptStep(env: Env, s: NodeState, e: NodeEvent, t: NodeState, round: Round, honest: set<NodeId>, senders: set<NodeId>)
    requires ValidEnv(env) && NodeStep(env, s, e, t) && TimesOutValidly(env, e, round, honest)
    requires TimeoutRuns.Kept(env, s.collector, round, senders) && senders <= honest
    ensures TimeoutRuns.Kept(env, t.collector, round, senders + SenderOf(e, round, honest))
  {
    assert senders + {} == senders;
    match e
    case VoteIn(author, vote, sig) =>
      VoteAdvances(env, s, author, vote, sig, t);
      AdvanceKeeps(env, s.collector, t.collector, round, senders);
    case Expired(_) =>
    case CertificateIn(certificate) =>
      TimeoutRuns.KeptStep(env, s.collector, Certified(certificate), t.collector, round, honest, senders);
    case TimeoutIn(author, x) =>
      if x.info.round >= s.collector.round {
        var a, b, mid :| TimeoutStep(env, s, author, x, a, b, mid, t);
        CarriedAdvances(env, s, author, x, a, b, mid);
        AdvanceKeeps(env, s.collector, mid.collector, round, senders);
        TimeoutRuns.KeptStep(env, mid.collector, Received(author, x), t.collector, round, honest, senders);
      }
  }

  lemma {:induction false} TimeoutsAreKept(env: Env, events: seq<NodeEvent>, states: seq<NodeState>,
                                           round: Round, honest: set<NodeId>, k: nat)
    requires ValidEnv(env) && IsRun(env, events, states) && k < |states|
    requires TimeOutValidly(env, events, round, honest)
    ensures TimeoutRuns.Kept(env, states[k].collector, round, TimedOut(events[..k], round) * honest)
  {
    if k == 0 {
      NoStake(env, states[0].collector.round);
      assert events[..0] == [] && TimedOut([], round) == {};
    } else {
      TimeoutsAreKept(env, events, states, round, honest, k - 1);
      RunStep(env, events, states, k);
      assert events[..k] == events[..k - 1] + [events[k - 1]];
      TimedOutSnoc(events[..k - 1], events[k - 1], round, honest);
      TimeoutsKeptStep(env, states[k - 1], events[k - 1], states[k], round, honest, TimedOut(events[..k - 1], round) * honest);
    }
  }

  /** In every run of the node, once senders of only valid timeouts of a round hold a supermajority
      of its validators, the node has left the round. */
  lemma TimeoutsEndRound(env: Env, events: seq<NodeEvent>, states: seq<NodeState>, round: Round, honest: set<NodeId>)
    requires ValidEnv(env) && IsRun(env, events, states) && TimeOutValidly(env, events, round, honest)
    requires HasSuperMajority(CommitteeAt(env, round), honest) && honest <= TimedOut(events, round)
    ensures states[|events|].collector.round > round
  {
    var s, c := states[|events|].collector, CommitteeAt(env, round);
    TimeoutsAreKept(env, events, states, round, honest, |events|);
    assert events[..|events|] == events && TimedOut(events, round) * honest == honest;
    StakeEmpty(c.nodes, c.stakes);
    if s.round == round {
      SuperMajorityGrows(c, honest, s.pending.Keys);
    }
  }

  // ---- votes

  predicate IsVote(e: NodeEvent, vote: Vote) {
    e.VoteIn? && e.vote == vote
  }

  function Voted(events: seq<NodeEvent>, vote: Vote): (s: set<NodeId>) {
    set e | e in events && IsVote(e, vote) :: e.author
  }

  /** Every signature for `vote` from a member of `honest`, on its own or with a timeout, is right. */
  predicate VotesValidly(env: Env, e: NodeEvent, vote: Vote, honest: set<NodeId>) {
    && (IsVote(e, vote) && e.author in honest ==> e.sig == env.signVote(e.author, vote))
    && (e.TimeoutIn? && e.timeout.highExtend.TipVote? && TipVoteOf(e.timeout) == vote && e.author in honest ==>
          e.timeout.highExtend.vote == env.signVote(e.author, vote))
  }

  ghost predicate VoteValidly(env: Env, events: seq<NodeEvent>, vote: Vote, honest: set<NodeId>) {
    forall i :: 0 <= i < |events| ==> VotesValidly(env, events[i], vote, honest)
  }

  /** No vote for `vote` comes in more than ten rounds early, when it would be ignored. */
  ghost predicate InTime(events: seq<NodeEvent>, states: seq<NodeState>, vote: Vote)
    requires |states| == |events| + 1
  {
    forall i :: 0 <= i < |events| && IsVote(events[i], vote) ==> NearEnough(states[i], vote)
  }

  predicate NearEnough(s: NodeState, vote: Vote) {
    vote.round <= s.collector.round + FUTURE_VOTE_BOUND
  }

  /** The round of `vote` is over, or it is open for votes, `senders` are counted with their
      valid signatures, and there is no supermajority yet. */
  ghost predicate VotesKept(env: Env, s: NodeState, vote: Vote, senders: set<NodeId>)
    requires ValidEnv(env)
  {
    s.collector.round > vote.round || Counted(env, s.votes, vote, senders)
  }

  ghost predicate Counted(env: Env, votes: Votes, vote: Vote, senders: set<NodeId>)
    requires ValidEnv(env)
  {
    && votes.earliestRound <= vote.round
    && !HasSuperMajority(CommitteeAt(env, vote.round), Pending(votes, vote).Keys)
    && forall n :: n in senders ==> n in Pending(votes, vote) && Pending(votes, vote)[n] == env.signVote(n, vote)
  }

  lemma CertificateKeepsVotes(env: Env, s: NodeState, certificate: RoundCertificate, t: NodeState, vote: Vote, senders: set<NodeId>)
    requires ValidEnv(env) && CertificateStep(env, s, certificate, t) && VotesKept(env, s, vote, senders)
    ensures VotesKept(env, t, vote, senders)
  {
  }

  lemma NewRoundKeepsCounted(env: Env, votes: Votes, round: Round, vote: Vote, senders: set<NodeId>)
    requires ValidEnv(env) && Counted(env, votes, vote, senders) && round <= vote.round
    ensures Counted(env, NewRound(votes, round), vote, senders)
  {
  }

  /** The sender that a vote adds to those counted. */
  function VoterOf(author: NodeId, counts: bool): set<NodeId> {
    if counts then {author} else {}
  }

  lemma StepKeepsCounted(env: Env, s: Votes, author: NodeId, w: Vote, sig: Signature, t: Votes, qc: Option<QuorumCertificate>,
                         vote: Vote, honest: set<NodeId>, senders: set<NodeId>)
    requires ValidEnv(env) && VoteStep(CommitteeAt(env, w.round), env.signVote, s, author, w, sig, t, qc)
    requires Counted(env, s, vote, senders) && senders <= honest
    requires w == vote && author in honest ==> sig == env.signVote(author, vote)
    requires qc.Some? ==> w.round < vote.round
    ensures Counted(env, t, vote, senders + VoterOf(author, w == vote && author in honest))
  {
  }

  lemma VoteKeepsVotes(env: Env, s: NodeState, author: NodeId, w: Vote, sig: Signature, t: NodeState,
                       vote: Vote, honest: set<NodeId>, senders: set<NodeId>)
    requires ValidEnv(env) && VoteInStep(env, s, author, w, sig, t) && VotesKept(env, s, vote, senders) && senders <= honest
    requires w == vote && author in honest ==> sig == env.signVote(author, vote)
    ensures VotesKept(env, t, vote, senders + VoterOf(author, w == vote && author in honest && NearEnough(s, vote)))
  {
    assert senders + {} == senders;
    VoteAdvances(env, s, author, w, sig, t);
    var counted, qc :| CountStep(env, s, author, w, sig, counted, qc, t);
    if s.collector.round <= vote.round && t.collector.round <= vote.round {
      if s.collector.round <= w.round <= s.collector.round + FUTURE_VOTE_BOUND {
        StepKeepsCounted(env, s.votes, author, w, sig, counted, qc, vote, honest, senders);
        if qc.Some? {
          NewRoundKeepsCounted(env, counted, w.round + 1, vote, senders);
        }
      }
    }
  }

  lemma CarriedKeepsVotes(env: Env, s: NodeState, author: NodeId, x: Timeout, a: NodeState, b: NodeState, t: NodeState,
                          vote: Vote, honest: set<NodeId>, senders: set<NodeId>)
    requires ValidEnv(env) && CarriedStep(env, s, author, x, a, b, t) && VotesKept(env, s, vote, senders) && senders <= honest
    requires VotesValidly(env, TimeoutIn(author, x), vote, honest)
    ensures VotesKept(env, t, vote, senders)
  {
    CertificateKeepsVotes(env, s, QcCertificate(x.highExtend.Extend().Qc()), a, vote, senders);
    if x.highExtend.TipVote? {
      VoteKeepsVotes(env, a, author, TipVoteOf(x), x.highExtend.vote, b, vote, honest, senders);
    }
    if x.lastRoundCertificate.Some? {
      CertificateKeepsVotes(env, b, x.lastRoundCertificate.value, t, vote, senders);
    }
  }

  lemma VotesKeptStep(env: Env, s: NodeState, e: NodeEvent, t: NodeState, vote: Vote, honest: set<NodeId>, senders: set<NodeId>)
    requires ValidEnv(env) && NodeStep(env, s, e, t) && VotesKept(env, s, vote, senders) && senders <= honest
    requires VotesValidly(env, e, vote, honest) && (IsVote(e, vote) ==> NearEnough(s, vote))
    ensures VotesKept(env, t, vote, senders + if IsVote(e, vote) && e.author in honest then {e.author} else {})
  {
    assert senders + {} == senders;
    match e
    case VoteIn(author, w, sig) => VoteKeepsVotes(env, s, author, w, sig, t, vote, honest, senders);
    case Expired(_) =>
    case CertificateIn(certificate) => CertificateKeepsVotes(env, s, certificate, t, vote, senders);
    case TimeoutIn(author, x) =>
      if x.info.round >= s.collector.round {
        var a, b, mid :| TimeoutStep(env, s, author, x, a, b, mid, t);
        CarriedKeepsVotes(env, s, author, x, a, b, mid, vote, honest, senders);
      }
  }

  lemma VotedSnoc(events: seq<NodeEvent>, e: NodeEvent, vote: Vote, honest: set<NodeId>)
    ensures Voted(events + [e], vote) * honest ==
      Voted(events, vote) * honest + if IsVote(e, vote) && e.author in honest then {e.author} else {}
  {
    assert forall x :: x in events + [e] <==> x in events || x == e;
  }

  lemma {:induction false} VotesAreKept(env: Env, events: seq<NodeEvent>, states: seq<NodeState>,
                                        vote: Vote, honest: set<NodeId>, k: nat)
    requires ValidEnv(env) && IsRun(env, events, states) && k < |states|
    requires VoteValidly(env, events, vote, honest) && InTime(events, states, vote)
    ensures VotesKept(env, states[k], vote, Voted(events[..k], vote) * honest)
  {
    if k == 0 {
      NoStake(env, vote.round);
      assert Pending(states[0].votes, vote) == map[];
      assert events[..0] == [] && Voted([], vote) == {};
    } else {
      VotesAreKept(env, events, states, vote, honest, k - 1);
      RunStep(env, events, states, k);
      assert events[..k] == events[..k - 1] + [events[k - 1]];
      VotedSnoc(events[..k - 1], events[k - 1], vote, honest);
      VotesKeptStep(env, states[k - 1], events[k - 1], states[k], vote, honest, Voted(events[..k - 1], vote) * honest);
    }
  }

  predicate HasTipVote(env: Env, author: NodeId, t: Timeout) {
    t.highExtend.TipVote? && t.highExtend.vote == env.signVote(author, TipVoteOf(t))
  }

  /** The timeout brings a valid vote for its tip, of a round near enough to be counted. */
  predicate TipVoteCounts(env: Env, current: Round, author: NodeId, t: Timeout) {
    && HasTipVote(env, author, t)
    && t.info.round <= Later(current, t.highExtend.header.qc.Round() + 1) + FUTURE_VOTE_BOUND
  }

  /** A valid vote that comes with a timeout is counted, unless it is too early or its round is
      over by then. */
  lemma TipVoteIsCounted(env: Env, s: NodeState, author: NodeId, x: Timeout, a: NodeState, b: NodeState, mid: NodeState, t: NodeState)
    requires ValidEnv(env) && TimeoutStep(env, s, author, x, a, b, mid, t) && s.votes.earliestRound <= s.collector.round
    ensures t.collector.round == x.info.round && TipVoteCounts(env, s.collector.round, author, x) ==>
      author in Pending(t.votes, TipVoteOf(x))
  {
    if t.collector.round == x.info.round && TipVoteCounts(env, s.collector.round, author, x) {
      CarriedAdvances(env, s, author, x, a, b, mid);
      var counted, qc :| CountStep(env, a, author, TipVoteOf(x), x.highExtend.vote, counted, qc, b);
      assert a.votes.earliestRound <= a.collector.round && qc.None?;
      assert author in Pending(counted, TipVoteOf(x));
    }
  }

  /** In every run of the node, once authors of only valid signatures for a vote hold a
      supermajority of the validators of its round, and all have voted, the node has left the
      round: whatever else came in, a certificate of it or of a later one has formed or arrived. */
  lemma VotesEndRound(env: Env, events: seq<NodeEvent>, states: seq<NodeState>, vote: Vote, honest: set<NodeId>)
    requires ValidEnv(env) && IsRun(env, events, states)
    requires VoteValidly(env, events, vote, honest) && InTime(events, states, vote)
    requires HasSuperMajority(CommitteeAt(env, vote.round), honest) && honest <= Voted(events, vote)
    ensures states[|events|].collector.round > vote.round
  {
    var s, c := states[|events|], CommitteeAt(env, vote.round);
    VotesAreKept(env, events, states, vote, honest, |events|);
    assert events[..|events|] == events && Voted(events, vote) * honest == honest;
    if s.collector.round <= vote.round {
      SuperMajorityGrows(c, honest, Pending(s.votes, vote).Keys);
    }
  }
}
