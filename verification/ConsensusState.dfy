/** The handlers that connect votes, timeouts and certificates, and how rounds advance. */
module ConsensusStates {
  import opened ConsensusTypes
  import opened SignatureSums
  import opened VoteStates
  import opened Timeouts
  import opened CertificateChecks
  import opened Pacemakers
  import opened NodeRuns
  import opened TipRuns

  /** Votes are collected only from validators of the round they are for. */
  ghost predicate VotesFromValidators(env: Env, s: Votes) {
    forall v: Vote :: Pending(s, v).Keys <= NodeSet(CommitteeAt(env, v.round).nodes)
  }

  lemma VoteStepKeepsVoters(env: Env, s: Votes, author: NodeId, vote: Vote, sig: Signature, t: Votes, qc: Option<QuorumCertificate>)
    requires ValidEnv(env) && VotesFromValidators(env, s) && author in CommitteeAt(env, vote.round).nodes
    requires VoteStep(CommitteeAt(env, vote.round), env.signVote, s, author, vote, sig, t, qc)
    ensures VotesFromValidators(env, t)
  {
  }

  lemma NewRoundKeepsVoters(env: Env, s: Votes, round: Round)
    requires VotesFromValidators(env, s)
    ensures VotesFromValidators(env, NewRound(s, round))
  {
  }

  /** Certificates of strictly increasing rounds: at most one for each round. */
  ghost predicate RoundsIncrease(qcs: seq<QuorumCertificate>) {
    forall i, j :: 0 <= i < j < |qcs| ==> qcs[i].Round() < qcs[j].Round()
  }

  ghost predicate AllBelow(qcs: seq<QuorumCertificate>, round: Round) {
    forall i :: 0 <= i < |qcs| ==> qcs[i].Round() < round
  }

  ghost predicate AllValid(env: Env, qcs: seq<QuorumCertificate>)
    requires ValidEnv(env)
  {
    forall i :: 0 <= i < |qcs| ==> ValidQuorum(CommitteeAt(env, qcs[i].Round()), env.signVote, qcs[i])
  }

  lemma CreatedSnoc(env: Env, qcs: seq<QuorumCertificate>, round: Round, qc: QuorumCertificate)
    requires ValidEnv(env) && RoundsIncrease(qcs) && AllBelow(qcs, round) && AllValid(env, qcs)
    requires qc.Round() >= round && ValidQuorum(CommitteeAt(env, qc.Round()), env.signVote, qc)
    ensures RoundsIncrease(qcs + [qc]) && AllBelow(qcs + [qc], qc.Round() + 1) && AllValid(env, qcs + [qc])
  {
  }

  /** What processing a certificate in `round` tells the rest of the node. */
  function EnterCommands(env: Env, round: Round, certificate: RoundCertificate): seq<Command> {
    var next := certificate.Round() + 1;
    if next <= round then [] else [EnterRound(env.epochOf(next), next, certificate), Schedule(next)]
  }

  /** What a QC formed by node `self` gives rise to: the leader of its round tells the others. */
  function FormedCommands(env: Env, self: NodeId, qc: Option<QuorumCertificate>): seq<Command> {
    if qc.None? then []
    else
      EnterCommands(env, qc.value.Round(), QcCertificate(qc.value))
      + if env.leaderOf(qc.value.Round()) == self then [Broadcast(QcCertificate(qc.value))] else []
  }

  /** The same for everything that a timeout carries: `s` is the state before it, `b` the state
      before its last certificate, and `qc` what its vote completes. */
  function CarriedCommands(env: Env, self: NodeId, s: NodeState, t: Timeout, qc: Option<QuorumCertificate>, b: NodeState): seq<Command> {
    EnterCommands(env, s.collector.round, QcCertificate(t.highExtend.Extend().Qc()))
    + FormedCommands(env, self, qc)
    + (if t.lastRoundCertificate.Some? then EnterCommands(env, b.collector.round, t.lastRoundCertificate.value) else [])
  }

  /** A round is announced, and its timer scheduled, exactly when the certificate leads to a later
      round; a QC formed here is broadcast exactly by the leader of its round. */
  lemma CommandsAnnounce(env: Env, self: NodeId, round: Round, certificate: RoundCertificate, qc: QuorumCertificate, cmd: Command)
    ensures cmd in EnterCommands(env, round, certificate) <==>
      certificate.Round() >= round && cmd in {EnterRound(env.epochOf(certificate.Round() + 1), certificate.Round() + 1, certificate),
                                              Schedule(certificate.Round() + 1)}
    ensures Broadcast(QcCertificate(qc)) in FormedCommands(env, self, Some(qc)) <==> self == env.leaderOf(qc.Round())
    ensures EnterRound(env.epochOf(qc.Round() + 1), qc.Round() + 1, QcCertificate(qc)) in FormedCommands(env, self, Some(qc))
  {
    var enter := EnterCommands(env, qc.Round(), QcCertificate(qc));
    assert enter[0] in enter;
    assert forall c :: c in FormedCommands(env, self, Some(qc)) <==>
      c in enter || (self == env.leaderOf(qc.Round()) && c == Broadcast(QcCertificate(qc)));
  }

  /** Counting a vote in time, and processing the QC that this may complete, is the vote step. */
  lemma CountParts(env: Env, s: NodeState, author: NodeId, vote: Vote, sig: Signature,
                   counted: Votes, qc: Option<QuorumCertificate>, t: NodeState)
    requires ValidEnv(env) && s.collector.round <= vote.round <= s.collector.round + FUTURE_VOTE_BOUND
    requires VoteStep(CommitteeAt(env, vote.round), env.signVote, s.votes, author, vote, sig, counted, qc)
    requires qc.None? ==> t == NodeState(s.collector, counted)
    requires qc.Some? ==> t == NodeState(Collector(qc.value.Round() + 1, Zero, map[]), NewRound(counted, qc.value.Round() + 1))
    ensures CountStep(env, s, author, vote, sig, counted, qc, t) && NodeStep(env, s, VoteIn(author, vote, sig), t)
  {
    assert CountStep(env, s, author, vote, sig, counted, qc, t);
  }

  lemma CountNothing(env: Env, s: NodeState, author: NodeId, vote: Vote, sig: Signature)
    requires ValidEnv(env) && !(s.collector.round <= vote.round <= s.collector.round + FUTURE_VOTE_BOUND)
    ensures CountStep(env, s, author, vote, sig, s.votes, None, s) && NodeStep(env, s, VoteIn(author, vote, sig), s)
  {
    assert CountStep(env, s, author, vote, sig, s.votes, None, s);
  }

  /** What a timeout carries, as moves of the node. */
  function CarriedMoves(t: Timeout, qc: Option<QuorumCertificate>): seq<Move> {
    [Certify(QcCertificate(t.highExtend.Extend().Qc()))]
    + (if qc.Some? then [Certify(QcCertificate(qc.value))] else [])
    + (if t.lastRoundCertificate.Some? then [Certify(t.lastRoundCertificate.value)] else [])
  }

  /** What collecting a timeout leads to: this node's own timeout, and a certificate. */
  function CollectMoves(own: bool, tc: Option<RoundCertificate>): seq<Move> {
    (if own then [SendTimeout] else []) + (if tc.Some? then [Certify(tc.value)] else [])
  }

  lemma CollectMovesAre(k: Keeper, own: bool, tc: Option<RoundCertificate>)
    ensures AfterAll(k, CollectMoves(own, tc)) == EnterIf(TimeOutIf(k, own), tc)
  {
    var a := if own then [SendTimeout] else [];
    var b := if tc.Some? then [Certify(tc.value)] else [];
    AfterConcat(k, a, b);
    AfterNone(k);
    AfterNone(AfterAll(k, a));
    AfterOne(k, SendTimeout);
    if tc.Some? {
      AfterOne(AfterAll(k, a), Certify(tc.value));
    }
  }

  lemma CarriedMovesAre(k: Keeper, t: Timeout, qc: Option<QuorumCertificate>)
    ensures AfterAll(k, CarriedMoves(t, qc)) ==
      EnterIf(EnterIf(Enter(k, QcCertificate(t.highExtend.Extend().Qc())),
                      if qc.Some? then Some(QcCertificate(qc.value)) else None), t.lastRoundCertificate)
  {
    var a := [Certify(QcCertificate(t.highExtend.Extend().Qc()))];
    var b := if qc.Some? then [Certify(QcCertificate(qc.value))] else [];
    var c := if t.lastRoundCertificate.Some? then [Certify(t.lastRoundCertificate.value)] else [];
    AfterConcat(k, a + b, c);
    AfterConcat(k, a, b);
    AfterOne(k, a[0]);
    AfterNone(AfterAll(k, a));
    AfterNone(AfterAll(k, a + b));
    if qc.Some? {
      AfterOne(AfterAll(k, a), b[0]);
    }
    if t.lastRoundCertificate.Some? {
      AfterOne(AfterAll(k, a + b), c[0]);
    }
  }

  class ConsensusState {
    const env: Env
    const self: NodeId
    const pacemaker: Pacemaker
    const voteState: VoteState
    const safety: Safety
    ghost var created: seq<QuorumCertificate>  // every QC this node has formed, oldest first

    function CurrentRound(): Round
      reads pacemaker
    {
      pacemaker.CurrentRound()
    }

    ghost function View(): NodeState
      reads pacemaker, voteState
    {
      NodeState(pacemaker.View(), voteState.View())
    }

    ghost function Keeping(): Keeper
      reads pacemaker, safety
    {
      pacemaker.Keeping(safety)
    }

    ghost predicate Consistent()
      reads pacemaker, voteState, safety
    {
      && pacemaker.Valid(env)
      && safety.Valid()
      && safety.highestVote <= CurrentRound()
      && VotesFromValidators(env, voteState.View())
    }

    /** Holds between events: the vote state is never ahead of the round, and every certificate
        formed so far is valid, older than the round, and the only one of its round. */
    ghost predicate Valid()
      reads this, pacemaker, voteState, safety
    {
      && Consistent()
      && voteState.earliestRound <= CurrentRound()
      && RoundsIncrease(created) && AllBelow(created, CurrentRound()) && AllValid(env, created)
    }

    constructor (env: Env, self: NodeId, certificate: RoundCertificate)
      requires ValidEnv(env)
      ensures Valid() && this.env == env && this.self == self && pacemaker.highCertificate == certificate && created == []
      ensures View() == NodeState(Collector(certificate.Round() + 1, Zero, map[]), Votes(map[], certificate.Round() + 1))
      ensures Keeping().tip == None && Keeping().high == certificate && Keeping().highestVote == certificate.Round() + 1
      ensures fresh(pacemaker) && fresh(voteState) && fresh(safety)
    {
      this.env, this.self := env, self;
      pacemaker := new Pacemaker(env, certificate);
      voteState := new VoteState(certificate.Round() + 1);
      safety := new Safety(certificate, None);
      created := [];
    }

    /** A QC of the current round or later enters the round after it and closes all earlier
        rounds for votes; any other is ignored. */
    method ProcessQc(qc: QuorumCertificate) returns (cmds: seq<Command>)
      requires Consistent()
      modifies pacemaker, voteState, safety
      ensures Consistent() && CertificateStep(env, old(View()), QcCertificate(qc), View())
      ensures cmds == EnterCommands(env, old(CurrentRound()), QcCertificate(qc))
      ensures Keeping() == Enter(old(Keeping()), QcCertificate(qc))
      ensures qc.Round() < old(CurrentRound()) ==> unchanged(pacemaker) && unchanged(voteState) && unchanged(safety)
    {
      if qc.Round() < CurrentRound() {
        return [];
      }
      cmds := pacemaker.ProcessCertificate(env, safety, QcCertificate(qc));
      NewRoundKeepsVoters(env, voteState.View(), CurrentRound());
      voteState.StartNewRound(CurrentRound());
    }

    method ProcessTc(tc: TimeoutCertificate) returns (cmds: seq<Command>)
      requires Consistent()
      modifies pacemaker, safety
      ensures Consistent() && CertificateStep(env, old(View()), TcCertificate(tc), View())
      ensures cmds == EnterCommands(env, old(CurrentRound()), TcCertificate(tc))
      ensures Keeping() == Enter(old(Keeping()), TcCertificate(tc))
      ensures tc.round < old(CurrentRound()) ==> unchanged(pacemaker) && unchanged(safety)
    {
      if tc.round < CurrentRound() {
        return [];
      }
      cmds := pacemaker.ProcessCertificate(env, safety, TcCertificate(tc));
    }

    /** Record a QC that this node has just formed, enter the round after it, and tell the others
        if this node is the leader of its round. */
    method RecordQc(qc: QuorumCertificate) returns (cmds: seq<Command>)
      requires Consistent() && qc.Round() >= CurrentRound()
      requires RoundsIncrease(created) && AllBelow(created, CurrentRound()) && AllValid(env, created)
      requires ValidQuorum(CommitteeAt(env, qc.Round()), env.signVote, qc)
      modifies `created, pacemaker, voteState, safety
      ensures Valid() && created == old(created) + [qc]
      ensures View() == NodeState(Collector(qc.Round() + 1, Zero, map[]), NewRound(old(voteState.View()), qc.Round() + 1))
      ensures Keeping() == Enter(old(Keeping()), QcCertificate(qc))
      ensures cmds == FormedCommands(env, self, Some(qc))
    {
      CreatedSnoc(env, created, CurrentRound(), qc);
      created := created + [qc];
      cmds := ProcessQc(qc);
      if env.leaderOf(qc.Round()) == self {
        cmds := cmds + [Broadcast(QcCertificate(qc))];
      }
    }

    method CountVote(author: NodeId, vote: Vote, sig: Signature) returns (qc: Option<QuorumCertificate>)
      requires Consistent() && author in CommitteeAt(env, vote.round).nodes
      modifies voteState
      ensures Consistent()
      ensures VoteStep(CommitteeAt(env, vote.round), env.signVote, old(voteState.View()), author, vote, sig, voteState.View(), qc)
    {
      assert Pending(voteState.View(), vote).Keys <= NodeSet(CommitteeAt(env, vote.round).nodes);
      ghost var before := voteState.View();
      var maybeQc, _ := voteState.ProcessVote(CommitteeAt(env, vote.round), env.signVote, author, vote, sig);
      qc := maybeQc;
      VoteStepKeepsVoters(env, before, author, vote, sig, voteState.View(), qc);
    }

    /** Count a vote of the current round, or of one of the next ten.  If it completes a quorum
        the certificate is recorded and the round after it entered. */
    method HandleVoteMessage(author: NodeId, vote: Vote, sig: Signature)
        returns (cmds: seq<Command>, ghost counted: Votes, ghost qc: Option<QuorumCertificate>)
      requires Valid() && author in CommitteeAt(env, vote.round).nodes
      modifies this, pacemaker, voteState, safety
      ensures Valid() && CountStep(env, old(View()), author, vote, sig, counted, qc, View())
      ensures NodeStep(env, old(View()), VoteIn(author, vote, sig), View())
      ensures cmds == FormedCommands(env, self, qc)
      ensures qc.None? ==> created == old(created) && unchanged(pacemaker) && unchanged(safety)
      ensures qc.Some? ==> created == old(created) + [qc.value] && Keeping() == Enter(old(Keeping()), QcCertificate(qc.value))
    {
      cmds, counted, qc := [], voteState.View(), None;
      ghost var before := View();
      if vote.round < CurrentRound() || vote.round > CurrentRound() + FUTURE_VOTE_BOUND {
        CountNothing(env, before, author, vote, sig);
        return;
      }
      var maybeQc := CountVote(author, vote, sig);
      counted, qc := voteState.View(), maybeQc;
      if maybeQc.Some? {
        cmds := RecordQc(maybeQc.value);
      }
      CountParts(env, before, author, vote, sig, counted, qc, View());
    }

    method ProcessRoundCertificate(certificate: RoundCertificate) returns (cmds: seq<Command>)
      requires Valid()
      modifies pacemaker, voteState, safety
      ensures Valid() && NodeStep(env, old(View()), CertificateIn(certificate), View())
      ensures cmds == EnterCommands(env, old(CurrentRound()), certificate)
      ensures Keeping() == Enter(old(Keeping()), certificate)
    {
      match certificate
      case TcCertificate(tc) => cmds := ProcessTc(tc);
      case QcCertificate(qc) => cmds := ProcessQc(qc);
    }

    /** Count the vote that comes with the tip of a timeout, if any. */
    method CountTipVote(author: NodeId, t: Timeout) returns (cmds: seq<Command>, ghost qc: Option<QuorumCertificate>)
      requires Valid() && author in CommitteeAt(env, t.info.round).nodes
      modifies this, pacemaker, voteState, safety
      ensures Valid() && TipStep(env, old(View()), author, t, View())
      ensures qc.Some? ==> t.highExtend.TipVote? && qc.value.info == TipVoteOf(t) && created == old(created) + [qc.value]
      ensures qc.None? ==> created == old(created)
      ensures Keeping() == EnterIf(old(Keeping()), if qc.Some? then Some(QcCertificate(qc.value)) else None)
      ensures cmds == FormedCommands(env, self, qc)
    {
      cmds, qc := [], None;
      if t.highExtend.TipVote? {
        var c, _, formed := HandleVoteMessage(author, TipVoteOf(t), t.highExtend.vote);
        cmds, qc := c, formed;
      }
    }

    /** Process the QC that a timeout extends, its vote if it extends a tip, and the certificate
        of the round before it.  This brings the node to the round of the timeout at least. */
    method ProcessCarried(author: NodeId, t: Timeout)
        returns (cmds: seq<Command>, ghost a: NodeState, ghost b: NodeState, ghost qc: Option<QuorumCertificate>)
      requires Valid() && CarriesPreviousRound(t)
      requires author in CommitteeAt(env, t.info.round).nodes
      modifies this, pacemaker, voteState, safety
      ensures Valid() && CurrentRound() >= t.info.round && CurrentRound() > t.highExtend.Extend().Qc().Round()
      ensures CarriedStep(env, old(View()), author, t, a, b, View())
      ensures cmds == CarriedCommands(env, self, old(View()), t, qc, b) && created == old(created) + if qc.Some? then [qc.value] else []
      ensures Keeping() == AfterAll(old(Keeping()), CarriedMoves(t, qc))
    {
      var extended := ProcessRoundCertificate(QcCertificate(t.highExtend.Extend().Qc()));
      a := View();
      var vote, formed := CountTipVote(author, t);
      b, qc := View(), formed;
      var last := [];
      if t.lastRoundCertificate.Some? {
        last := ProcessRoundCertificate(t.lastRoundCertificate.value);
      }
      CarriedAdvances(env, old(View()), author, t, a, b, View());
      CarriedMovesAre(old(Keeping()), t, qc);
      cmds := extended + vote + last;
    }

    /** Hand a timeout to the pacemaker once the certificates it carries are processed. */
    method CollectTimeout(author: NodeId, t: Timeout) returns (cmds: seq<Command>, ghost tc: Option<RoundCertificate>)
      requires Valid() && ValidTimeout(t) && t.info.epoch == env.epochOf(t.info.round)
      requires CurrentRound() >= t.info.round && CurrentRound() > t.highExtend.Extend().Qc().Round()
      requires author in CommitteeAt(env, t.info.round).nodes
      modifies pacemaker, safety
      ensures Valid() && CurrentRound() >= old(CurrentRound())
      ensures CollectStep(env, old(pacemaker.View()), Received(author, t), pacemaker.View())
      ensures Answers(env, old(pacemaker.View()), old(Keeping()), author, t, tc, cmds)
      ensures Keeping() == AfterAll(old(Keeping()), CollectMoves(OwnDue(env, old(pacemaker.View()), author, t), tc))
    {
      ghost var k, own := Keeping(), OwnDue(env, pacemaker.View(), author, t);
      var c, _, _ := pacemaker.ProcessRemoteTimeout(env, safety, author, t);
      cmds, tc := c, pacemaker.Formed(old(CurrentRound()));
      CollectMovesAre(k, own, tc);
    }

    /** Handle a timeout that passed the stateless checks.  The certificates it carries bring
        this node to the timeout's round at least, so the pacemaker's assertion that the
        rounds are equal cannot fail; in that round it keeps every validly signed timeout.
        `mid` is the state once what it carries is processed, `b` the state before the last of
        that, `qc` what its vote completes, and `answer` what the pacemaker replies, keeping
        `kept` in mind; `tc` is the certificate that forms. */
    method HandleTimeoutMessage(author: NodeId, t: Timeout)
        returns (cmds: seq<Command>, ghost b: NodeState, ghost mid: NodeState, ghost qc: Option<QuorumCertificate>,
                 ghost answer: seq<Command>, ghost kept: Keeper, ghost tc: Option<RoundCertificate>)
      requires Valid() && ValidTimeout(t) && t.info.epoch == env.epochOf(t.info.round)
      requires author in CommitteeAt(env, t.info.round).nodes
      modifies this, pacemaker, voteState, safety
      ensures Valid() && NodeStep(env, old(View()), TimeoutIn(author, t), View())
      ensures CurrentRound() >= mid.collector.round >= old(CurrentRound()) && mid.collector.round >= t.info.round
      ensures t.info.round < old(CurrentRound()) ==> cmds == [] && Keeping() == old(Keeping())
      ensures t.info.round >= old(CurrentRound()) ==>
        && (exists a :: TimeoutStep(env, old(View()), author, t, a, b, mid, View()))
        && cmds == CarriedCommands(env, self, old(View()), t, qc, b) + answer
        && kept == AfterAll(old(Keeping()), CarriedMoves(t, qc)) && Answers(env, mid.collector, kept, author, t, tc, answer)
        && Keeping() == AfterAll(kept, CollectMoves(OwnDue(env, mid.collector, author, t), tc))
      ensures CurrentRound() == t.info.round && TipVoteCounts(env, old(CurrentRound()), author, t) ==>
        author in Pending(voteState.View(), TipVoteOf(t))
    {
      cmds, b, mid, qc, answer, kept, tc := [], View(), View(), None, [], Keeping(), None;
      if t.info.round < CurrentRound() {
        return;
      }
      ghost var before := View();
      var carried, a, b1, formed := ProcessCarried(author, t);
      b, mid, qc, kept := b1, View(), formed, Keeping();
      CarriedAdvances(env, before, author, t, a, b, mid);
      var c, certificate := CollectTimeout(author, t);
      cmds, answer, tc := carried + c, c, certificate;
      assert TimeoutStep(env, before, author, t, a, b, mid, View());
      TipVoteIsCounted(env, before, author, t, a, b, mid, View());
    }

    /** The local round timer expired. */
    method HandleTimeoutExpiry(round: Round) returns (cmds: seq<Command>)
      requires Valid()
      modifies pacemaker, safety
      ensures Valid() && CurrentRound() == old(CurrentRound()) && NodeStep(env, old(View()), Expired(round), View())
      ensures round < CurrentRound() ==> cmds == [] && Keeping() == old(Keeping())
      ensures round >= CurrentRound() ==>
        Emits(env, old(Keeping()), true, None, cmds) && Keeping() == After(old(Keeping()), SendTimeout)
    {
      if round < CurrentRound() {
        return [];
      }
      cmds := pacemaker.ProcessLocalTimeout(env, safety);
    }

    /** This node votes for a tip in the current round, if its safety rule allows it. */
    method CastVote(lastRoundTcTip: Option<BlockId>, tip: Header) returns (voted: bool)
      requires Valid() && ValidHeader(tip)
      modifies safety
      ensures Valid()
      ensures voted <==> CastsVote(old(Keeping()), Cast(lastRoundTcTip, tip))
      ensures Keeping() == After(old(Keeping()), Cast(lastRoundTcTip, tip))
      ensures voted ==> forall r: Round, x :: r <= CurrentRound() ==> !safety.IsSafeToVote(r, x)
    {
      voted := safety.IsSafeToVote(CurrentRound(), lastRoundTcTip);
      if voted {
        safety.Vote(CurrentRound(), lastRoundTcTip, tip);
      }
    }
  }

  /** The timeout that a node sends when its timer expires. */
  method ExpireTimer(sender: ConsensusState, expired: Round) returns (t: Timeout)
    requires sender.Valid() && expired >= sender.CurrentRound()
    modifies sender.pacemaker, sender.safety
    ensures sender.Valid() && sender.CurrentRound() == old(sender.CurrentRound())
    ensures HonestTimeout(sender.env, sender.self, sender.CurrentRound(), t)
  {
    var cmds := sender.HandleTimeoutExpiry(expired);
    t := NewTimeout(sender.env, sender.self, cmds[1].info, cmds[1].highExtend, cmds[1].lastRoundCertificate);
  }

  /** A timeout of a correct node, sent in any state, makes any receiver reach its round. */
  method DeliverTimeout(sender: ConsensusState, receiver: ConsensusState, expired: Round)
    requires sender.Valid() && receiver.Valid() && sender.env == receiver.env
    requires sender.self in CommitteeAt(sender.env, sender.CurrentRound()).nodes && expired >= sender.CurrentRound()
    requires {sender, sender.pacemaker, sender.voteState, sender.safety} !!
             {receiver, receiver.pacemaker, receiver.voteState, receiver.safety}
    modifies sender.pacemaker, sender.safety
    modifies receiver, receiver.pacemaker, receiver.voteState, receiver.safety
    ensures sender.Valid() && receiver.Valid()
    ensures receiver.CurrentRound() >= sender.CurrentRound() == old(sender.CurrentRound())
  {
    var t := ExpireTimer(sender, expired);
    var _, _, _, _, _, _, _ := receiver.HandleTimeoutMessage(sender.self, t);
  }
}
