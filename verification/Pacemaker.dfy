/** The pacemaker: advancing rounds on certificates, and collecting timeouts into one. */
module Pacemakers {
  import opened ConsensusTypes
  import opened SignatureSums
  import opened AggregationTree
  import opened SignatureCollections
  import opened Validators
  import opened VoteStates
  import opened Timeouts
  import opened CertificateChecks
  import opened SeqSets

  /** What the node looks up: epochs and leaders of rounds, validators of epochs, and valid
      signatures. */
  datatype Env = Env(
    epochOf: Round -> Epoch, leaderOf: Round -> NodeId, committee: Epoch -> Committee,
    signVote: VoteSigner, signTimeout: TimeoutSigner)

  ghost predicate ValidEnv(env: Env) {
    forall e :: ValidCommittee(env.committee(e))
  }

  function CommitteeAt(env: Env, round: Round): Committee {
    env.committee(env.epochOf(round))
  }

  // ---- dropping invalid timeouts

  ghost predicate DropsOnlyInvalidTimeouts(sign: TimeoutSigner, m: PendingTimeouts, kept: PendingTimeouts) {
    && kept.Keys <= m.Keys
    && (forall n :: n in kept ==> kept[n] == m[n])
    && (forall n :: n in m && m[n].signature == sign(n, m[n].info) ==> n in kept)
  }

  /** Every sender that a failed certificate reports is pending with that very signature, so
      removing it cannot fail, and none of them sent a valid signature. */
  lemma ReportedTimeouts(c: Committee, sign: TimeoutSigner, m: PendingTimeouts, report: seq<Sent>)
    requires ValidCommittee(c) && m.Keys <= NodeSet(c.nodes) && SomeGroupFails(c, sign, m, report)
    ensures report != []
    ensures forall i :: 0 <= i < |report| ==> report[i].0 in m && m[report[i].0].signature == report[i].1
    ensures forall i :: 0 <= i < |report| ==> report[i].1 != sign(report[i].0, m[report[i].0].info)
    ensures Lists(Senders(report), NodeSet(Senders(report)))
  {
    var info :| GroupFails(c, sign, m, info, report);
    var j := TimeoutJob(c, sign, m, info);
    forall i | 0 <= i < |report|
      ensures report[i].0 in m && m[report[i].0].signature == report[i].1
      ensures report[i].1 != sign(report[i].0, m[report[i].0].info)
    {
      var n := report[i].0;
      assert report[i] in report && Senders(report)[i] == n;
      assert Invalid(j, n);
      AgreesSingle(j, n);
    }
  }

  /** Remove the reported senders one after the other. */
  method HandleInvalidTimeout(c: Committee, sign: TimeoutSigner, m: PendingTimeouts, report: seq<Sent>)
      returns (kept: PendingTimeouts)
    requires ValidCommittee(c) && m.Keys <= NodeSet(c.nodes) && SomeGroupFails(c, sign, m, report)
    ensures DropsOnlyInvalidTimeouts(sign, m, kept) && |kept| < |m|
  {
    ReportedTimeouts(c, sign, m, report);
    ghost var s := NodeSet(Senders(report));
    kept := m;
    for i := 0 to |report|
      invariant kept.Keys <= m.Keys && forall n :: n in kept ==> kept[n] == m[n]
      invariant forall k :: i <= k < |report| ==> report[k].0 in kept
      invariant forall n :: n in m && m[n].signature == sign(n, m[n].info) ==> n in kept
      invariant i > 0 ==> report[0].0 !in kept
    {
      var (n, sig) := report[i];
      assert n in kept && kept[n].signature == sig;  // expect: timeout removed; assert: same signature
      forall k | i < k < |report| ensures report[k].0 != n {
        ListsDistinct(Senders(report), s, i, k);
      }
      kept := kept - {n};
    }
    SmallerMap(m, kept, report[0].0);
  }

  /** Every pending timeout is for this round and epoch and describes what it extends. */
  ghost predicate PendingFor(c: Committee, epoch: Epoch, round: Round, m: PendingTimeouts) {
    && m.Keys <= NodeSet(c.nodes)
    && forall n :: n in m ==> PendingTimeout(epoch, round, m[n])
  }

  predicate PendingTimeout(epoch: Epoch, round: Round, t: Timeout) {
    t.info.epoch == epoch && t.info.round == round && ShapeOk(t) && t.highExtend.Extend().Qc().Round() < round
  }

  /** The retry loop: build a certificate while there is a supermajority of timeouts, dropping
      what is reported as invalid. */
  method TcLoop(c: Committee, sign: TimeoutSigner, epoch: Epoch, round: Round, m: PendingTimeouts)
      returns (kept: PendingTimeouts, tc: Option<TimeoutCertificate>, ghost infos: seq<TimeoutInfo>)
    requires ValidCommittee(c) && PendingFor(c, epoch, round, m)
    ensures DropsOnlyInvalidTimeouts(sign, m, kept)
    ensures tc.Some? <==> HasSuperMajority(c, kept.Keys)
    ensures tc.Some? ==> tc.value.epoch == epoch && tc.value.round == round
    ensures tc.Some? ==> BuiltFrom(c, sign, kept, infos, tc.value)
  {
    kept, infos := m, [];
    while HasSuperMajority(c, kept.Keys)
      invariant DropsOnlyInvalidTimeouts(sign, m, kept)
      decreases |kept|
    {
      var ids := AnyOrder(kept.Keys);
      ListedNodes(ids, kept.Keys);
      assert forall i :: 0 <= i < |ids| ==> ids[i] in NodeSet(ids);
      var timeouts := seq(|ids|, i requires 0 <= i < |ids| => (ids[i], kept[ids[i]]));
      var r;
      r, infos := NewTimeoutCertificate(c, sign, epoch, round, timeouts, kept, ids);
      match r
      case TcCreated(certificate) =>
        assert forall n :: n in kept ==> PendingTimeout(epoch, round, kept[n]);
        return kept, Some(certificate), infos;
      case TcInvalid(report) =>
        kept := HandleInvalidTimeout(c, sign, kept, report);
    }
    tc := None;
  }

  /** Timeouts kept after dropping invalid ones are still pending for the same round. */
  lemma KeptPending(c: Committee, epoch: Epoch, round: Round, sign: TimeoutSigner, m: PendingTimeouts, kept: PendingTimeouts)
    requires PendingFor(c, epoch, round, m) && DropsOnlyInvalidTimeouts(sign, m, kept)
    ensures PendingFor(c, epoch, round, kept)
  {
  }

  // ---- safety

  /** A tip that was not endorsed, and the round in which it was not. */
  datatype NoEndorsement = NoEndorsement(round: Round, tip: BlockId)

  /** The part of the safety module that votes and timeouts depend on. */
  class Safety {
    var maybeHighTip: Option<Header>
    var highCertificateQcRound: Round
    var highestVote: Round
    var highestNoEndorse: NoEndorsement

    /** A high tip is above every QC seen in a certificate. */
    ghost predicate Valid()
      reads this
    {
      maybeHighTip.Some? ==> ValidHeader(maybeHighTip.value) && maybeHighTip.value.round > highCertificateQcRound
    }

    constructor (certificate: RoundCertificate, tip: Option<Header>)
      ensures Valid() <==> (tip.Some? ==> ValidHeader(tip.value) && tip.value.round > certificate.Qc().Round())
      ensures maybeHighTip == tip && highestVote == certificate.Round() + 1
      ensures highCertificateQcRound == certificate.Qc().Round()
      ensures highestNoEndorse == NoEndorsement(certificate.Round() + 1, GENESIS_BLOCK_ID)
    {
      maybeHighTip := tip;
      highCertificateQcRound := certificate.Qc().Round();
      highestVote := certificate.Round() + 1;
      highestNoEndorse := NoEndorsement(certificate.Round() + 1, GENESIS_BLOCK_ID);
    }

    method ProcessCertificate(certificate: RoundCertificate)
      requires Valid()
      modifies `highCertificateQcRound, `maybeHighTip
      ensures Valid()
      ensures highCertificateQcRound == Later(certificate.Qc().Round(), old(highCertificateQcRound))
      ensures maybeHighTip == TipAbove(old(maybeHighTip), highCertificateQcRound)
    {
      if certificate.Qc().Round() > highCertificateQcRound {
        highCertificateQcRound := certificate.Qc().Round();
      }
      if maybeHighTip.Some? && maybeHighTip.value.round <= highCertificateQcRound {
        maybeHighTip := None;
      }
    }

    /** Rounds are voted in once and in order; in a round in which a tip was not endorsed, only
        for a proposal on top of the TC with that tip. */
    predicate IsSafeToVote(round: Round, lastRoundTcTip: Option<BlockId>)
      reads this
    {
      && !(round == highestNoEndorse.round && lastRoundTcTip != Some(highestNoEndorse.tip))
      && round > highestVote
    }

    predicate IsSafeToNoEndorse(round: Round)
      reads this
    {
      round > Later(highestNoEndorse.round, highestVote)
    }

    /** After a vote the round is closed, for votes and for refusing to endorse. */
    method Vote(round: Round, lastRoundTcTip: Option<BlockId>, tip: Header)
      requires Valid() && ValidHeader(tip) && IsSafeToVote(round, lastRoundTcTip)
      modifies `highestVote, `maybeHighTip
      ensures Valid() && highestVote == round
      ensures maybeHighTip == TipAbove(Some(tip), highCertificateQcRound)
      ensures !IsSafeToNoEndorse(round) && forall r: Round, x :: r <= round ==> !IsSafeToVote(r, x)
    {
      highestVote := round;
      if tip.round > highCertificateQcRound {
        maybeHighTip := Some(tip);
      } else {
        maybeHighTip := None;
      }
    }

    /** After refusing to endorse a tip, only proposals on top of it can get a vote in that round. */
    method NoEndorse(round: Round, tip: BlockId)
      requires Valid() && IsSafeToNoEndorse(round)
      modifies `highestNoEndorse
      ensures Valid() && highestNoEndorse == NoEndorsement(round, tip)
      ensures !IsSafeToNoEndorse(round) && forall x :: IsSafeToVote(round, x) <==> x == Some(tip)
    {
      highestNoEndorse := NoEndorsement(round, tip);
    }

    method Timeout(round: Round)
      requires Valid() && round >= highestVote
      modifies `highestVote
      ensures Valid() && highestVote == round
      ensures !IsSafeToNoEndorse(round) && forall r: Round, x :: r <= round ==> !IsSafeToVote(r, x)
    {
      highestVote := round;
    }
  }

  function Later(a: Round, b: Round): Round {
    if a > b then a else b
  }

  function TipAbove(tip: Option<Header>, round: Round): Option<Header> {
    if tip.Some? && tip.value.round > round then tip else None
  }

  /** What this node has committed itself to: the tip it voted for last, unless a certificate has
      overtaken it, the rounds it has closed, and the newest certificate it has processed. */
  datatype Keeper = Keeper(
    tip: Option<Header>, qcRound: Round, highestVote: Round, noEndorse: NoEndorsement, high: RoundCertificate)
  {
    function Round(): Round {
      high.Round() + 1
    }

    /** What a timeout sent now extends. */
    function Extend(): HighExtend {
      if tip.Some? then Tip(tip.value) else HighQc(high.Qc())
    }
  }

  /** A newer certificate is processed; any other is ignored. */
  function Enter(k: Keeper, certificate: RoundCertificate): Keeper {
    if certificate.Round() <= k.high.Round() then k
    else
      var qcRound := Later(certificate.Qc().Round(), k.qcRound);
      k.(high := certificate, qcRound := qcRound, tip := TipAbove(k.tip, qcRound))
  }

  function EnterIf(k: Keeper, certificate: Option<RoundCertificate>): Keeper {
    if certificate.Some? then Enter(k, certificate.value) else k
  }

  /** The round is open for votes, and was not spent on refusing another tip. */
  predicate MayVote(k: Keeper, lastRoundTcTip: Option<BlockId>) {
    k.Round() > k.highestVote && (k.noEndorse.round == k.Round() ==> lastRoundTcTip == Some(k.noEndorse.tip))
  }

  /** This node votes for a tip in its round: it remembers it, unless a QC has overtaken it. */
  function VoteFor(k: Keeper, tip: Header): Keeper {
    k.(highestVote := k.Round(), tip := TipAbove(Some(tip), k.qcRound))
  }

  /** This node times out of its round. */
  function TimeOut(k: Keeper): Keeper {
    k.(highestVote := k.Round())
  }

  function TimeOutIf(k: Keeper, own: bool): Keeper {
    if own then TimeOut(k) else k
  }

  // ---- the pacemaker

  datatype Phase = Zero | One

  datatype Command =
    | EnterRound(epoch: Epoch, round: Round, certificate: RoundCertificate)
    | PrepareTimeout(info: TimeoutInfo, highExtend: HighExtend, lastRoundCertificate: Option<RoundCertificate>)
    | Schedule(round: Round)
    | ScheduleReset
    | Broadcast(certificate: RoundCertificate)

  /** The message that node `self` makes of a `PrepareTimeout` command. */
  function NewTimeout(env: Env, self: NodeId, info: TimeoutInfo, highExtend: HighExtend, last: Option<RoundCertificate>): Timeout {
    var extend :=
      match highExtend
      case HighQc(qc) => QcVote(qc)
      case Tip(header) => TipVote(header, env.signVote(self, Vote(HashOf(header), info.round, info.epoch)));
    Timeout(info, env.signTimeout(self, info), extend, last)
  }

  /** What a correct node sends: a validly signed timeout of its current round that passes
      every receiver's checks and claims exactly the QC it carries. */
  predicate HonestTimeout(env: Env, self: NodeId, round: Round, t: Timeout) {
    && ValidTimeout(t)
    && t.info.round == round && t.info.epoch == env.epochOf(round)
    && t.signature == env.signTimeout(self, t.info)
    && ClaimsItsQc(t)
  }

  predicate ClaimsItsQc(t: Timeout) {
    t.info.highQcRound == t.highExtend.Extend().Qc().Round()
  }

  lemma NoStake(env: Env, round: Round)
    requires ValidEnv(env)
    ensures var none: PendingTimeouts := map[];
      !HasHonestVote(CommitteeAt(env, round), none.Keys) && !HasSuperMajority(CommitteeAt(env, round), none.Keys)
  {
    var c, none: PendingTimeouts := CommitteeAt(env, round), map[];
    assert none.Keys == {};
    StakeEmpty(c.nodes, c.stakes);
  }

  /** `tc` is the certificate of `round` from the timeouts `m`. */
  ghost predicate TcOf(env: Env, m: PendingTimeouts, infos: seq<TimeoutInfo>, tc: TimeoutCertificate, round: Round)
    requires ValidEnv(env)
  {
    && tc.round == round && tc.epoch == env.epochOf(round)
    && HasSuperMajority(CommitteeAt(env, round), m.Keys)
    && PendingFor(CommitteeAt(env, round), tc.epoch, round, m)
    && BuiltFrom(CommitteeAt(env, round), env.signTimeout, m, infos, tc)
  }

  /** A certificate made by the pacemaker passes every receiver's verification, exactly when no
      sender of a tip claims a QC of the timed-out round or later and what it extends is
      accepted; so it does whenever every sender claims the QC it carries and what it extends
      is accepted. */
  lemma PacemakerTcVerifies(env: Env, check: ExtendCheck, m: PendingTimeouts, infos: seq<TimeoutInfo>, tc: TimeoutCertificate)
    requires ValidEnv(env) && TcOf(env, m, infos, tc, tc.round)
    ensures VerifiesTc(CommitteeAt(env, tc.round), env.signTimeout, check, tc) <==>
      check(tc.highExtend) && forall n :: n in m && m[n].highExtend.TipVote? ==> m[n].info.highQcRound < tc.round
    ensures ExtendsPass(CommitteeAt(env, tc.round), check, m) && (forall n :: n in m ==> ClaimsItsQc(m[n])) ==>
      VerifiesTc(CommitteeAt(env, tc.round), env.signTimeout, check, tc)
    ensures tc.highExtend.Qc().Round() < tc.round || tc.round == 0
  {
    BuiltTcVerifies(CommitteeAt(env, tc.round), env.signTimeout, check, m, infos, tc);
    assert forall n :: n in m ==> PendingTimeout(tc.epoch, tc.round, m[n]);
  }

  /** The commands start with this node's own timeout of the round exactly if `own`, which extends
      what `k` says, and end with entering the round after the certificate `tc`, if any. */
  ghost predicate Emits(env: Env, k: Keeper, own: bool, tc: Option<RoundCertificate>, cmds: seq<Command>) {
    && |cmds| == (if own then 3 else 0) + (if tc.Some? then 2 else 0)
    && (own ==> SendsOwn(env, k, cmds[..3]))
    && (tc.Some? ==> cmds[|cmds| - 2..] == [EnterRound(env.epochOf(k.Round() + 1), k.Round() + 1, tc.value), Schedule(k.Round() + 1)])
  }

  ghost predicate SendsOwn(env: Env, k: Keeper, cmds: seq<Command>)
    requires |cmds| == 3
  {
    && cmds[0] == ScheduleReset && cmds[2] == Schedule(k.Round())
    && SendsTimeout(env, k.Round(), cmds[1]) && cmds[1].highExtend == k.Extend()
    && (cmds[1].lastRoundCertificate.Some? ==> cmds[1].lastRoundCertificate.value == k.high)
  }

  lemma EmitsBoth(env: Env, k: Keeper, l: Keeper, own: bool, tc: Option<RoundCertificate>, a: seq<Command>, b: seq<Command>)
    requires Emits(env, k, own, None, a) && Emits(env, l, false, tc, b) && k.high == l.high
    ensures Emits(env, k, own, tc, a + b)
  {
    if own {
      assert (a + b)[..3] == a[..3];
    }
    if tc.Some? {
      assert (a + b)[|a + b| - 2..] == b[|b| - 2..];
    }
  }

  lemma EmitsEnter(env: Env, k: Keeper, tc: RoundCertificate, cmds: seq<Command>)
    requires cmds == [EnterRound(env.epochOf(k.Round() + 1), k.Round() + 1, tc), Schedule(k.Round() + 1)]
    ensures Emits(env, k, false, Some(tc), cmds)
  {
    assert cmds[0..] == cmds;
  }

  /** Whoever sends this timeout, it is one that a correct node sends. */
  ghost predicate SendsTimeout(env: Env, round: Round, cmd: Command) {
    && cmd.PrepareTimeout?
    && forall self :: HonestTimeout(env, self, round, NewTimeout(env, self, cmd.info, cmd.highExtend, cmd.lastRoundCertificate))
  }

  // ---- what the pacemaker collects

  /** The round, whether this node has timed out in it, and the timeouts collected. */
  datatype Collector = Collector(round: Round, phase: Phase, pending: PendingTimeouts)

  datatype Event =
    | Received(author: NodeId, timeout: Timeout)
    | TimerExpired
    | Certified(certificate: RoundCertificate)

  /** What an event does.  A certificate of the round or later, whether received or made from a
      supermajority of timeouts, enters the next round. */
  ghost predicate CollectStep(env: Env, s: Collector, e: Event, t: Collector)
    requires ValidEnv(env)
  {
    match e
    case Certified(certificate) =>
      t == if certificate.Round() < s.round then s else Collector(certificate.Round() + 1, Zero, map[])
    case TimerExpired => t == s.(phase := One)
    case Received(author, x) =>
      if x.info.round < s.round then t == s
      else x.info.round == s.round && exists kept :: ReceiveStep(env, s, author, x, kept, t)
  }

  ghost predicate ReceiveStep(env: Env, s: Collector, author: NodeId, x: Timeout, kept: PendingTimeouts, t: Collector)
    requires ValidEnv(env)
  {
    var c := CommitteeAt(env, s.round);
    var own := s.phase == Zero && HasHonestVote(c, s.pending[author := x].Keys);
    && DropsOnlyInvalidTimeouts(env.signTimeout, s.pending[author := x], kept)
    && t == if HasSuperMajority(c, kept.Keys) then Collector(s.round + 1, Zero, map[])
            else Collector(s.round, if own then One else s.phase, kept)
  }

  /** The timeout shows that a correct node has timed out, and this node has not yet. */
  ghost predicate OwnDue(env: Env, s: Collector, author: NodeId, t: Timeout)
    requires ValidEnv(env)
  {
    t.info.round >= s.round && s.phase == Zero && HasHonestVote(CommitteeAt(env, s.round), s.pending[author := t].Keys)
  }

  /** The commands with which the pacemaker answers a timeout: its own timeout when that is due,
      and the next round when a certificate `tc` formed. */
  ghost predicate Answers(env: Env, s: Collector, k: Keeper, author: NodeId, t: Timeout,
                          tc: Option<RoundCertificate>, cmds: seq<Command>)
    requires ValidEnv(env)
  {
    if t.info.round < s.round then cmds == [] && tc == None
    else Emits(env, k, OwnDue(env, s, author, t), tc, cmds)
  }

  class Pacemaker {
    var currentEpoch: Epoch
    var highCertificate: RoundCertificate
    var pendingTimeouts: PendingTimeouts
    var phase: Phase

    function CurrentRound(): Round
      reads `highCertificate
    {
      highCertificate.Round() + 1
    }

    ghost function View(): Collector
      reads this
    {
      Collector(CurrentRound(), phase, pendingTimeouts)
    }

    ghost function Keeping(safety: Safety): Keeper
      reads `highCertificate, safety
    {
      Keeper(safety.maybeHighTip, safety.highCertificateQcRound, safety.highestVote, safety.highestNoEndorse, highCertificate)
    }

    /** The certificate that has led out of a round, if any. */
    ghost function Formed(before: Round): Option<RoundCertificate>
      reads `highCertificate
    {
      if CurrentRound() > before then Some(highCertificate) else None
    }

    /** Pending timeouts are of the current round; before this node's own timeout they hold no
        honest vote for sure, and they are never a supermajority. */
    ghost predicate Valid(env: Env)
      reads this
    {
      Collecting(env) && !HasSuperMajority(CommitteeAt(env, CurrentRound()), pendingTimeouts.Keys)
    }

    /** Holds between recording a timeout and trying to make a certificate. */
    ghost predicate Collecting(env: Env)
      reads this
    {
      var c := CommitteeAt(env, CurrentRound());
      && ValidEnv(env)
      && currentEpoch == env.epochOf(CurrentRound())
      && PendingFor(c, currentEpoch, CurrentRound(), pendingTimeouts)
      && (phase == Zero ==> !HasHonestVote(c, pendingTimeouts.Keys))
    }

    constructor (env: Env, certificate: RoundCertificate)
      requires ValidEnv(env)
      ensures Valid(env) && highCertificate == certificate
      ensures View() == Collector(certificate.Round() + 1, Zero, map[])
    {
      highCertificate := certificate;
      currentEpoch := env.epochOf(certificate.Round() + 1);
      pendingTimeouts, phase := map[], Zero;
      NoStake(env, certificate.Round() + 1);
    }

    /** Enter the round after a newer certificate; ignore any other. */
    method ProcessCertificate(env: Env, safety: Safety, certificate: RoundCertificate) returns (cmds: seq<Command>)
      requires ValidEnv(env) && safety.Valid()
      modifies this, safety
      ensures safety.Valid() && Keeping(safety) == Enter(old(Keeping(safety)), certificate)
      ensures certificate.Round() <= old(highCertificate).Round() ==> unchanged(this) && unchanged(safety) && cmds == []
      ensures CollectStep(env, old(View()), Certified(certificate), View())
      ensures certificate.Round() > old(highCertificate).Round() ==>
        && Valid(env) && highCertificate == certificate && pendingTimeouts == map[] && phase == Zero
        && cmds == [EnterRound(currentEpoch, CurrentRound(), certificate), Schedule(CurrentRound())]
    {
      if certificate.Round() <= highCertificate.Round() {
        return [];
      }
      safety.ProcessCertificate(certificate);
      highCertificate := certificate;
      currentEpoch := env.epochOf(CurrentRound());
      phase := Zero;
      pendingTimeouts := map[];
      NoStake(env, CurrentRound());
      cmds := [EnterRound(currentEpoch, CurrentRound(), highCertificate), Schedule(CurrentRound())];
    }

    /** Build this node's own timeout of the current round. */
    method LocalTimeoutRound(ghost env: Env, safety: Safety) returns (cmds: seq<Command>)
      requires currentEpoch == env.epochOf(CurrentRound())
      requires safety.Valid() && safety.highestVote <= CurrentRound()
      modifies safety
      ensures safety.Valid() && Keeping(safety) == TimeOut(old(Keeping(safety)))
      ensures Emits(env, old(Keeping(safety)), true, None, cmds)
    {
      var round := CurrentRound();
      safety.Timeout(round);
      var highExtend := if safety.maybeHighTip.Some? then Tip(safety.maybeHighTip.value) else HighQc(highCertificate.Qc());
      var (highTipRound, highQcRound) :=
        match highExtend
        case Tip(header) => (header.round, header.qc.Round())
        case HighQc(qc) => (GENESIS_ROUND, qc.Round());
      var info := TimeoutInfo(currentEpoch, round, highQcRound, highTipRound);
      var last := if highQcRound + 1 == round then None else Some(highCertificate);
      cmds := [ScheduleReset, PrepareTimeout(info, highExtend, last), Schedule(round)];
    }

    method ProcessLocalTimeout(ghost env: Env, safety: Safety) returns (cmds: seq<Command>)
      requires Valid(env) && safety.Valid() && safety.highestVote <= CurrentRound()
      modifies this, safety
      ensures Valid(env) && safety.Valid() && Keeping(safety) == TimeOut(old(Keeping(safety)))
      ensures CollectStep(env, old(View()), TimerExpired, View())
      ensures Emits(env, old(Keeping(safety)), true, None, cmds)
    {
      phase := One;
      cmds := LocalTimeoutRound(env, safety);
    }

    /** Insert a timeout; if the pending timeouts now hold an honest vote for sure and this node
        has not timed out yet, it does so too. */
    method RecordTimeout(env: Env, safety: Safety, author: NodeId, t: Timeout) returns (cmds: seq<Command>, ghost own: bool)
      requires Valid(env) && safety.Valid() && safety.highestVote <= CurrentRound()
      requires author in CommitteeAt(env, CurrentRound()).nodes && PendingTimeout(currentEpoch, CurrentRound(), t)
      modifies `pendingTimeouts, `phase, safety
      ensures Collecting(env) && pendingTimeouts == old(pendingTimeouts)[author := t]
      ensures safety.Valid() && Keeping(safety) == TimeOutIf(old(Keeping(safety)), own)
      ensures own == (old(phase) == Zero && HasHonestVote(CommitteeAt(env, CurrentRound()), pendingTimeouts.Keys))
      ensures phase == (if own then One else old(phase)) && Emits(env, old(Keeping(safety)), own, None, cmds)
    {
      cmds, own := [], false;
      pendingTimeouts := pendingTimeouts[author := t];
      if phase == Zero && HasHonestVote(CommitteeAt(env, CurrentRound()), pendingTimeouts.Keys) {
        cmds := LocalTimeoutRound(env, safety);
        phase, own := One, true;
      }
    }

    /** A certificate of the current round has formed. */
    method EnterFormed(env: Env, safety: Safety, tc: TimeoutCertificate) returns (cmds: seq<Command>)
      requires ValidEnv(env) && safety.Valid() && tc.round == CurrentRound()
      modifies this, safety
      ensures Valid(env) && safety.Valid() && highCertificate == TcCertificate(tc)
      ensures View() == Collector(tc.round + 1, Zero, map[])
      ensures Keeping(safety) == Enter(old(Keeping(safety)), TcCertificate(tc))
      ensures Emits(env, old(Keeping(safety)), false, Some(TcCertificate(tc)), cmds)
    {
      ghost var k := Keeping(safety);
      cmds := ProcessCertificate(env, safety, TcCertificate(tc));
      EmitsEnter(env, k, TcCertificate(tc), cmds);
    }

    /** Try to make a certificate of the pending timeouts. */
    method CollectTimeouts(env: Env, safety: Safety)
        returns (cmds: seq<Command>, ghost kept: PendingTimeouts, ghost infos: seq<TimeoutInfo>)
      requires Collecting(env) && safety.Valid() && safety.highestVote <= CurrentRound()
      modifies this, safety
      ensures Valid(env) && safety.Valid() && safety.highestVote <= CurrentRound()
      ensures DropsOnlyInvalidTimeouts(env.signTimeout, old(pendingTimeouts), kept)
      ensures Keeping(safety) == EnterIf(old(Keeping(safety)), Formed(old(CurrentRound())))
      ensures Emits(env, old(Keeping(safety)), false, Formed(old(CurrentRound())), cmds)
      ensures var tc := HasSuperMajority(CommitteeAt(env, old(CurrentRound())), kept.Keys);
        if tc then highCertificate.TcCertificate? && TcOf(env, kept, infos, highCertificate.tc, old(CurrentRound()))
                      && phase == Zero && pendingTimeouts == map[]
           else highCertificate == old(highCertificate) && pendingTimeouts == kept && phase == old(phase)
    {
      var c, all := CommitteeAt(env, CurrentRound()), pendingTimeouts;
      cmds, kept, infos := [], all, [];
      ThresholdsAreExact(c, all.Keys);
      if phase == One {
        var rest, tc;
        rest, tc, infos := TcLoop(c, env.signTimeout, currentEpoch, CurrentRound(), all);
        KeptPending(c, currentEpoch, CurrentRound(), env.signTimeout, all, rest);
        kept := rest;
        pendingTimeouts := rest;
        if tc.Some? {
          cmds := EnterFormed(env, safety, tc.value);
        }
      }
    }

    /** Record a timeout of the current round.  Afterwards either a certificate of the round
        has formed from a supermajority of the pending timeouts, or what is left of them is
        none; no validly signed timeout was dropped. */
    method ProcessRemoteTimeout(env: Env, safety: Safety, author: NodeId, t: Timeout)
        returns (cmds: seq<Command>, ghost kept: PendingTimeouts, ghost infos: seq<TimeoutInfo>)
      requires Valid(env) && safety.Valid() && safety.highestVote <= CurrentRound()
      requires t.info.round <= CurrentRound()
      requires t.info.round == CurrentRound() ==>
        author in CommitteeAt(env, CurrentRound()).nodes && PendingTimeout(currentEpoch, CurrentRound(), t)
      modifies this, safety
      ensures Valid(env) && safety.Valid() && safety.highestVote <= CurrentRound()
      ensures t.info.round < old(CurrentRound()) ==> unchanged(this) && unchanged(safety) && cmds == []
      ensures t.info.round == old(CurrentRound()) ==>
        && DropsOnlyInvalidTimeouts(env.signTimeout, old(pendingTimeouts)[author := t], kept)
        && if HasSuperMajority(CommitteeAt(env, t.info.round), kept.Keys)
           then highCertificate.TcCertificate? && TcOf(env, kept, infos, highCertificate.tc, t.info.round)
           else highCertificate == old(highCertificate) && pendingTimeouts == kept
      ensures CollectStep(env, old(View()), Received(author, t), View())
      ensures Answers(env, old(View()), old(Keeping(safety)), author, t, Formed(old(CurrentRound())), cmds)
      ensures Keeping(safety) ==
        EnterIf(TimeOutIf(old(Keeping(safety)), OwnDue(env, old(View()), author, t)), Formed(old(CurrentRound())))
    {
      cmds, kept, infos := [], map[], [];
      if t.info.round < CurrentRound() {
        return;
      }
      assert t.info.round == CurrentRound();  // assert_eq: the certificate it carries was processed before
      var timeout, own := RecordTimeout(env, safety, author, t);
      ghost var k := Keeping(safety);
      var enter;
      enter, kept, infos := CollectTimeouts(env, safety);
      EmitsBoth(env, old(Keeping(safety)), k, own, Formed(t.info.round), timeout, enter);
      cmds := timeout + enter;
      assert ReceiveStep(env, old(View()), author, t, kept, View());
    }
  }
}
