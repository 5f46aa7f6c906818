/** A timeout certificate that every receiver rejects, built from a timeout that passes all checks. */
module RejectedCertificates {
  import opened ConsensusTypes
  import opened SignatureSums
  import opened Validators
  import opened VoteStates
  import opened Timeouts
  import opened CertificateChecks
  import opened Pacemakers

  function SoleCommittee(group: Group): Committee {
    Committee(group, [0], map[0 := 1])
  }

  lemma StakeOfOne(group: Group)
    requires Abelian(group)
    ensures ValidCommittee(SoleCommittee(group)) && HasSuperMajority(SoleCommittee(group), {0})
  {
    assert NodeSet([0]) == {0};
  }

  /** The QC that the vote of the only validator makes. */
  function SoleQc(group: Group, sign: VoteSigner, vote: Vote): QuorumCertificate {
    QuorumCertificate(vote, Collect(VoteJob(SoleCommittee(group), sign, vote, map[0 := sign(0, vote)]), {0}))
  }

  lemma SoleQcIsValid(group: Group, sign: VoteSigner, vote: Vote)
    requires Abelian(group)
    ensures ValidCommittee(SoleCommittee(group)) && ValidQuorum(SoleCommittee(group), sign, SoleQc(group, sign, vote))
  {
    var c := SoleCommittee(group);
    var j := VoteJob(c, sign, vote, map[0 := sign(0, vote)]);
    StakeOfOne(group);
    assert NodeSet([0]) == {0};
    AgreesSingle(j, 0);
    CollectVerifies(j, {0});
    SignersOfBits(c.nodes, {0});
  }

  /** The certificate built from a validly signed timeout of the only validator, and when it is
      accepted. */
  lemma SoleTc(group: Group, sign: TimeoutSigner, check: ExtendCheck, t: Timeout) returns (tc: TimeoutCertificate)
    requires Abelian(group) && t.signature == sign(0, t.info) && PendingTimeout(t.info.epoch, t.info.round, t)
    requires Rank(t.highExtend.Extend()) > 1 || t.highExtend.Extend() == HighQc(GenesisQc(group.zero))
    ensures ValidCommittee(SoleCommittee(group))
    ensures tc.epoch == t.info.epoch && tc.round == t.info.round && tc.highExtend == t.highExtend.Extend()
    ensures BuiltFrom(SoleCommittee(group), sign, map[0 := t], [t.info], tc)
    ensures VerifiesTc(SoleCommittee(group), sign, check, tc) <==> check(tc.highExtend) && t.info.highQcRound < tc.round
  {
    var c, m := SoleCommittee(group), map[0 := t];
    StakeOfOne(group);
    assert NodeSet([0]) == {0};
    var j := TimeoutJob(c, sign, m, t.info);
    AgreesSingle(j, 0);
    assert j.sigs.Keys == {0} == m.Keys;
    tc := TimeoutCertificate(t.info.epoch, t.info.round,
                             [TipRound(t.info.highQcRound, t.info.highTipRound, Collect(j, j.sigs.Keys))], t.highExtend.Extend());
    assert m[0] == t && Infos(m) == {t.info};
    assert GroupCollected(c, sign, m, t.info, tc.tipRounds[0]);
    BuiltTcVerifies(c, sign, check, m, [t.info], tc);
    assert 0 in m;
  }

  function ExampleHeader(zero: Signature, epoch: Epoch, round: Round): Header {
    Header(round, epoch, GenesisQc(zero), 0, 1, 1, [], [], BodyHash(Body([])))
  }

  /** A valid QC of the round before, for a timeout that extends the genesis QC. */
  function LastCertificate(group: Group, sign: VoteSigner, epoch: Epoch, round: Round): Option<RoundCertificate>
    requires round > 0
  {
    if round == 1 then None
    else Some(QcCertificate(SoleQc(group, sign, Vote(HashOf(ExampleHeader(group.zero, epoch, round - 1)), round - 1, epoch))))
  }

  ghost predicate CarriesQuorum(group: Group, sign: VoteSigner, t: Timeout)
    requires ValidCommittee(SoleCommittee(group))
  {
    t.lastRoundCertificate.Some? ==>
      t.lastRoundCertificate.value.QcCertificate? && ValidQuorum(SoleCommittee(group), sign, t.lastRoundCertificate.value.Qc())
  }

  /** A timeout that extends the genesis QC, without a tip. */
  function PlainTimeout(group: Group, signVote: VoteSigner, sign: TimeoutSigner, epoch: Epoch, round: Round): Timeout
    requires round > 0
  {
    var info := TimeoutInfo(epoch, round, GENESIS_ROUND, GENESIS_ROUND);
    Timeout(info, sign(0, info), QcVote(GenesisQc(group.zero)), LastCertificate(group, signVote, epoch, round))
  }

  /** A timeout that extends a tip of the round after it, and claims a QC of its own round. */
  function OverclaimingTimeout(group: Group, signVote: VoteSigner, sign: TimeoutSigner, epoch: Epoch, round: Round): Timeout
    requires round > 0
  {
    var info := TimeoutInfo(epoch, round, round, round + 1);
    Timeout(info, sign(0, info), TipVote(ExampleHeader(group.zero, epoch, round + 1), group.zero),
            LastCertificate(group, signVote, epoch, round))
  }

  lemma TimeoutsAreValid(group: Group, signVote: VoteSigner, sign: TimeoutSigner, epoch: Epoch, round: Round)
    requires Abelian(group) && round > 0
    ensures ValidCommittee(SoleCommittee(group)) && HasSuperMajority(SoleCommittee(group), {0})
    ensures forall t :: t in {PlainTimeout(group, signVote, sign, epoch, round), OverclaimingTimeout(group, signVote, sign, epoch, round)} ==>
      && ValidTimeout(t) && CarriesQuorum(group, signVote, t)
      && PendingFor(SoleCommittee(group), epoch, round, map[0 := t])
  {
    StakeOfOne(group);
    assert NodeSet([0]) == {0};
    if round > 1 {
      SoleQcIsValid(group, signVote, Vote(HashOf(ExampleHeader(group.zero, epoch, round - 1)), round - 1, epoch));
    }
  }

  /** The only validator of a committee sends two validly signed timeouts of any round.  Both pass
      all checks and carry a valid certificate of the round before.  The first gives a
      certificate `noTip` that is accepted, which the block after it needs as it extends an
      older QC.  The second has this block as its tip, and the certificate built from it is
      rejected, whatever is accepted as a tip. */
  lemma TcCanFail(group: Group, signVote: VoteSigner, sign: TimeoutSigner, check: ExtendCheck, epoch: Epoch, round: Round)
      returns (t: Timeout, tc: TimeoutCertificate, noTip: TimeoutCertificate)
    requires Abelian(group) && round > 0
    ensures var c := SoleCommittee(group);
      && ValidCommittee(c) && HasSuperMajority(c, {0}) && PendingFor(c, epoch, round, map[0 := t])
      && ValidTimeout(t) && t.signature == sign(0, t.info) && CarriesQuorum(group, signVote, t)
      && BuiltFrom(c, sign, map[0 := t], [t.info], tc) && tc.round == round && tc.epoch == epoch
      && !VerifiesTc(c, sign, check, tc)
      && VerifiesTc(c, sign, x => true, noTip)
    ensures t.highExtend.TipVote? && t.highExtend.header.qc == GenesisQc(group.zero)
    ensures noTip.round + 1 == t.highExtend.header.round && noTip.highExtend == HighQc(t.highExtend.header.qc)
  {
    TimeoutsAreValid(group, signVote, sign, epoch, round);
    noTip := SoleTc(group, sign, x => true, PlainTimeout(group, signVote, sign, epoch, round));
    t := OverclaimingTimeout(group, signVote, sign, epoch, round);
    tc := SoleTc(group, sign, check, t);
  }
}
