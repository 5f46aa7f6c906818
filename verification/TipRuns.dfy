/** What a node's timeouts extend, over runs of everything that can change that: certificates that
it processes, its votes, and its timeouts. */
module TipRuns {
  import opened ConsensusTypes
  import opened Timeouts
  import opened CertificateChecks
  import opened Pacemakers

  datatype Move =
    | Certify(certificate: RoundCertificate)
    | Cast(lastRoundTcTip: Option<BlockId>, tip: Header)
    | SendTimeout

  function After(k: Keeper, m: Move): Keeper {
    match m
    case Certify(certificate) => Enter(k, certificate)
    case Cast(lastRoundTcTip, tip) => if MayVote(k, lastRoundTcTip) then VoteFor(k, tip) else k
    case SendTimeout => TimeOut(k)
  }

  function AfterAll(k: Keeper, moves: seq<Move>): Keeper {
    if moves == [] then k else After(AfterAll(k, moves[..|moves| - 1]), moves[|moves| - 1])
  }

  lemma AfterNone(k: Keeper)
    ensures AfterAll(k, []) == k
  {
  }

  lemma {:induction false} AfterOne(k: Keeper, m: Move)
    ensures AfterAll(k, [m]) == After(k, m)
  {
    assert [m][..0] == [];
  }

  lemma {:induction false} AfterConcat(k: Keeper, a: seq<Move>, b: seq<Move>)
    ensures AfterAll(k, a + b) == AfterAll(AfterAll(k, a), b)
    decreases |b|
  {
    if b == [] {
      assert a + b == a;
    } else {
      var n := |b| - 1;
      assert (a + b)[..|a + b| - 1] == a + b[..n];
      AfterConcat(k, a, b[..n]);
    }
  }

  // ---- rounds

  lemma AfterRises(k: Keeper, m: Move)
    ensures k.Round() <= After(k, m).Round() && k.qcRound <= After(k, m).qcRound
  {
  }

  /** Rounds and QC rounds never fall. */
  lemma {:induction false} RunRises(k: Keeper, moves: seq<Move>, i: nat)
    requires i <= |moves|
    ensures AfterAll(k, moves[..i]).Round() <= AfterAll(k, moves).Round()
    ensures AfterAll(k, moves[..i]).qcRound <= AfterAll(k, moves).qcRound
    decreases |moves|
  {
    var n := |moves| - 1;
    if i == |moves| {
      assert moves[..i] == moves;
    } else {
      assert moves[..n][..i] == moves[..i];
      RunRises(k, moves[..n], i);
      AfterRises(AfterAll(k, moves[..n]), moves[n]);
    }
  }

  // ---- votes

  predicate CastsVote(k: Keeper, m: Move) {
    m.Cast? && MayVote(k, m.lastRoundTcTip)
  }

  lemma AfterCloses(k: Keeper, m: Move)
    requires k.highestVote <= k.Round()
    ensures k.highestVote <= After(k, m).highestVote <= After(k, m).Round()
    ensures CastsVote(k, m) || m.SendTimeout? ==> After(k, m).highestVote == k.Round()
  {
  }

  lemma {:induction false} RunCloses(k: Keeper, moves: seq<Move>, i: nat)
    requires k.highestVote <= k.Round() && i <= |moves|
    ensures AfterAll(k, moves[..i]).highestVote <= AfterAll(k, moves).highestVote <= AfterAll(k, moves).Round()
    decreases |moves|
  {
    var n := |moves| - 1;
    if moves == [] {
    } else if i == |moves| {
      assert moves[..i] == moves && moves[..n][..n] == moves[..n];
      RunCloses(k, moves[..n], n);
      AfterCloses(AfterAll(k, moves[..n]), moves[n]);
    } else {
      assert moves[..n][..i] == moves[..i];
      RunCloses(k, moves[..n], i);
      AfterCloses(AfterAll(k, moves[..n]), moves[n]);
    }
  }

  /** Over every run the node votes in rising rounds, so once in each at most, and never in a round
      in which it has sent a timeout. */
  lemma OneVotePerRound(k: Keeper, moves: seq<Move>, i: nat, j: nat)
    requires k.highestVote <= k.Round() && i < j < |moves|
    requires CastsVote(AfterAll(k, moves[..i]), moves[i]) || moves[i].SendTimeout?
    requires CastsVote(AfterAll(k, moves[..j]), moves[j])
    ensures AfterAll(k, moves[..i]).Round() < AfterAll(k, moves[..j]).Round()
  {
    assert moves[..j][..i + 1] == moves[..i + 1] && moves[..i + 1][..i] == moves[..i];
    RunCloses(k, moves[..i], 0);
    AfterCloses(AfterAll(k, moves[..i]), moves[i]);
    RunCloses(k, moves[..j], i + 1);
  }

  // ---- the tip of the last vote

  /** A newer certificate whose QC is of the tip's round or later. */
  predicate Overtakes(k: Keeper, m: Move, tip: Header) {
    m.Certify? && m.certificate.Round() > k.high.Round() && m.certificate.Qc().Round() >= tip.round
  }

  /** Neither a vote nor such a certificate from `i` on. */
  ghost predicate Undisturbed(k: Keeper, moves: seq<Move>, i: nat, tip: Header) {
    forall j :: i <= j < |moves| ==> Leaves(AfterAll(k, moves[..j]), moves[j], tip)
  }

  predicate Leaves(k: Keeper, m: Move, tip: Header) {
    !Overtakes(k, m, tip) && !CastsVote(k, m)
  }

  lemma StepKeepsTip(k: Keeper, m: Move, tip: Header)
    requires k.tip == Some(tip) && tip.round > k.qcRound
    ensures Leaves(k, m, tip) ==> After(k, m).tip == Some(tip) && tip.round > After(k, m).qcRound
    ensures Overtakes(k, m, tip) ==> After(k, m).tip == None
  {
  }

  /** From a vote for a tip on, the tip is remembered for as long as the node does not vote again
      and no certificate overtakes the tip. */
  lemma {:induction false} TipIsKept(k: Keeper, moves: seq<Move>, i: nat, tip: Header)
    requires i < |moves| && moves[i].Cast? && moves[i].tip == tip && CastsVote(AfterAll(k, moves[..i]), moves[i])
    requires tip.round > AfterAll(k, moves[..i]).qcRound && Undisturbed(k, moves, i + 1, tip)
    ensures AfterAll(k, moves).tip == Some(tip) && tip.round > AfterAll(k, moves).qcRound
    decreases |moves|
  {
    var n := |moves| - 1;
    if i == n {
    } else {
      var before := moves[..n];
      assert before[..i] == moves[..i];
      forall j | i + 1 <= j < n ensures Leaves(AfterAll(k, before[..j]), before[j], tip) {
        assert before[..j] == moves[..j];
      }
      TipIsKept(k, before, i, tip);
      StepKeepsTip(AfterAll(k, before), moves[n], tip);
    }
  }

  /** The certificate that overtakes a tip makes the node forget it, and a vote for a tip that is
      overtaken already does not make it remember. */
  lemma TipIsForgotten(k: Keeper, moves: seq<Move>, i: nat, tip: Header, m: Move)
    requires i < |moves| && moves[i].Cast? && moves[i].tip == tip && CastsVote(AfterAll(k, moves[..i]), moves[i])
    requires Undisturbed(k, moves, i + 1, tip)
    ensures tip.round > AfterAll(k, moves[..i]).qcRound && Overtakes(AfterAll(k, moves), m, tip) ==>
      AfterAll(k, moves + [m]).tip == None
    ensures tip.round <= AfterAll(k, moves[..i]).qcRound ==> AfterAll(k, moves[..i + 1]).tip == None
  {
    assert moves[..i + 1][..i] == moves[..i];
    assert (moves + [m])[..|moves|] == moves;
    if tip.round > AfterAll(k, moves[..i]).qcRound {
      TipIsKept(k, moves, i, tip);
    }
  }

  /** Over every run: from a vote for a tip, until the node votes again or a certificate overtakes
      the tip, every timeout that the node sends extends that tip and claims its rounds. */
  lemma TimeoutsExtendTip(env: Env, k: Keeper, moves: seq<Move>, i: nat, tip: Header, self: NodeId, cmds: seq<Command>)
    requires i < |moves| && moves[i].Cast? && moves[i].tip == tip && CastsVote(AfterAll(k, moves[..i]), moves[i])
    requires tip.round > AfterAll(k, moves[..i]).qcRound && Undisturbed(k, moves, i + 1, tip)
    requires Emits(env, AfterAll(k, moves), true, None, cmds)
    ensures var t := NewTimeout(env, self, cmds[1].info, cmds[1].highExtend, cmds[1].lastRoundCertificate);
      && t.highExtend.TipVote? && t.highExtend.header == tip
      && t.info.highTipRound == tip.round && t.info.highQcRound == tip.qc.Round()
      && t.highExtend.vote == env.signVote(self, Vote(HashOf(tip), t.info.round, t.info.epoch))
  {
    TipIsKept(k, moves, i, tip);
    var t := NewTimeout(env, self, cmds[1].info, cmds[1].highExtend, cmds[1].lastRoundCertificate);
    assert SendsOwn(env, AfterAll(k, moves), cmds[..3]);
    assert HonestTimeout(env, self, AfterAll(k, moves).Round(), t);
  }

  /** Without a vote to remember, timeouts extend the QC of the newest certificate. */
  lemma TimeoutsExtendQc(env: Env, k: Keeper, self: NodeId, cmds: seq<Command>)
    requires k.tip == None && Emits(env, k, true, None, cmds)
    ensures var t := NewTimeout(env, self, cmds[1].info, cmds[1].highExtend, cmds[1].lastRoundCertificate);
      t.highExtend == QcVote(k.high.Qc()) && t.info.highTipRound == 0 && t.info.highQcRound == k.high.Qc().Round()
  {
    var t := NewTimeout(env, self, cmds[1].info, cmds[1].highExtend, cmds[1].lastRoundCertificate);
    assert SendsOwn(env, k, cmds[..3]);
    assert HonestTimeout(env, self, k.Round(), t);
  }
}
