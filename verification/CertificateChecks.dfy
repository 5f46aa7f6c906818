/** What a receiver checks about timeouts and timeout certificates, and that what an honest
sender builds passes these checks. */
module CertificateChecks {
  import opened ConsensusTypes
  import opened SignatureSums
  import opened Validators
  import opened Timeouts
  import opened SeqSets

  // ---- timeouts

  /** The info of a timeout describes what it extends. */
  predicate ShapeOk(t: Timeout) {
    match t.highExtend
    case QcVote(qc) => t.info.highTipRound == GENESIS_ROUND && t.info.highQcRound == qc.Round()
    case TipVote(header, _) => t.info.highTipRound == header.round && t.info.highQcRound < header.round
  }

  /** A timeout carries a certificate of the round before it: the QC it extends, and then
      nothing else, or its last round certificate. */
  predicate CarriesPreviousRound(t: Timeout) {
    && (t.lastRoundCertificate.Some? ==> t.info.round == t.lastRoundCertificate.value.Round() + 1)
    && (t.info.round == t.highExtend.Extend().Qc().Round() + 1 <==> t.lastRoundCertificate.None?)
  }

  predicate ValidTimeout(t: Timeout) {
    ShapeOk(t) && CarriesPreviousRound(t)
  }

  // ---- timeout certificates

  function MaxQcRound(ts: seq<TipRound>): (r: Round) {
    if ts == [] then GENESIS_ROUND
    else
      var (rest, last) := (MaxQcRound(ts[..|ts| - 1]), ts[|ts| - 1].highQcRound);
      if last > rest then last else rest
  }

  function MaxTipRound(ts: seq<TipRound>): (r: Round) {
    if ts == [] then GENESIS_ROUND
    else
      var (rest, last) := (MaxTipRound(ts[..|ts| - 1]), ts[|ts| - 1].highTipRound);
      if last > rest then last else rest
  }

  function InfoOf(tc: TimeoutCertificate, i: nat): TimeoutInfo
    requires i < |tc.tipRounds|
  {
    TimeoutInfo(tc.epoch, tc.round, tc.tipRounds[i].highQcRound, tc.tipRounds[i].highTipRound)
  }

  function ExpectedFor(c: Committee, sign: TimeoutSigner, info: TimeoutInfo): (m: SigMap) {
    map n | n in NodeSet(c.nodes) :: sign(n, info)
  }

  function SignersAt(c: Committee, tc: TimeoutCertificate, i: nat): (s: set<NodeId>)
    requires i < |tc.tipRounds|
  {
    if |tc.tipRounds[i].sigs.signers| == |c.nodes| then Signers(c.nodes, tc.tipRounds[i].sigs.signers) else {}
  }

  function AllSigners(c: Committee, tc: TimeoutCertificate): (s: set<NodeId>) {
    set i, n | 0 <= i < |tc.tipRounds| && n in SignersAt(c, tc, i) :: n
  }

  /** The extend of a certificate is the highest that its signatures speak of. */
  predicate ExtendMatches(tc: TimeoutCertificate) {
    var (maxQc, maxTip) := (MaxQcRound(tc.tipRounds), MaxTipRound(tc.tipRounds));
    match tc.highExtend
    case HighQc(qc) => qc.Round() == maxQc && maxTip <= maxQc
    case Tip(header) => header.round == maxTip && maxQc < maxTip
  }

  /** Whether a receiver accepts a QC or a tip on its own. */
  type ExtendCheck = HighExtend -> bool

  /** Everything `verify_tc` checks. */
  ghost predicate VerifiesTc(c: Committee, sign: TimeoutSigner, check: ExtendCheck, tc: TimeoutCertificate)
    requires ValidCommittee(c)
  {
    && (forall i :: 0 <= i < |tc.tipRounds| ==> tc.tipRounds[i].highQcRound < tc.round)
    && (forall i, j :: 0 <= i < j < |tc.tipRounds| ==> InfoOf(tc, i) != InfoOf(tc, j))
    && (forall i :: 0 <= i < |tc.tipRounds| ==>
          Verifies(c.group, c.nodes, ExpectedFor(c, sign, InfoOf(tc, i)), tc.tipRounds[i].sigs))
    && (forall i, j :: 0 <= i < j < |tc.tipRounds| ==> SignersAt(c, tc, i) !! SignersAt(c, tc, j))
    && HasSuperMajority(c, AllSigners(c, tc))
    && check(tc.highExtend)
    && ExtendMatches(tc)
  }

  /** `tc` is what `NewTimeoutCertificate` builds from the pending timeouts `m`. */
  ghost predicate BuiltFrom(c: Committee, sign: TimeoutSigner, m: PendingTimeouts, infos: seq<TimeoutInfo>, tc: TimeoutCertificate)
    requires ValidCommittee(c)
  {
    && m.Keys <= NodeSet(c.nodes)
    && (forall n :: n in m ==> m[n].info.epoch == tc.epoch && m[n].info.round == tc.round && ShapeOk(m[n]))
    && Lists(infos, Infos(m))
    && GroupsCollected(c, sign, m, infos, tc.tipRounds)
    && IsHighest(c.group.zero, m, tc.highExtend)
  }

  lemma BuiltInfo(c: Committee, sign: TimeoutSigner, m: PendingTimeouts, infos: seq<TimeoutInfo>, tc: TimeoutCertificate, i: nat)
    requires ValidCommittee(c) && BuiltFrom(c, sign, m, infos, tc) && i < |infos|
    ensures InfoOf(tc, i) == infos[i]
    ensures SignersAt(c, tc, i) == GroupSigs(m, infos[i]).Keys
    ensures Verifies(c.group, c.nodes, ExpectedFor(c, sign, infos[i]), tc.tipRounds[i].sigs)
  {
    ListsMember(infos, Infos(m));
    assert infos[i] in infos;
    var n :| n in m && m[n].info == infos[i];
    assert GroupCollected(c, sign, m, infos[i], tc.tipRounds[i]);
    var job := TimeoutJob(c, sign, m, infos[i]);
    CollectVerifies(job, job.sigs.Keys);
    SignersOfBits(c.nodes, job.sigs.Keys);
  }

  lemma BuiltIndex(c: Committee, sign: TimeoutSigner, m: PendingTimeouts, infos: seq<TimeoutInfo>, tc: TimeoutCertificate, n: NodeId)
      returns (i: nat)
    requires ValidCommittee(c) && BuiltFrom(c, sign, m, infos, tc) && n in m
    ensures i < |infos| && infos[i] == m[n].info && n in SignersAt(c, tc, i)
    ensures tc.tipRounds[i].highQcRound == m[n].info.highQcRound && tc.tipRounds[i].highTipRound == m[n].info.highTipRound
  {
    ListsMember(infos, Infos(m));
    assert m[n].info in Infos(m);
    i :| 0 <= i < |infos| && infos[i] == m[n].info;
    BuiltInfo(c, sign, m, infos, tc, i);
    assert GroupCollected(c, sign, m, infos[i], tc.tipRounds[i]);
  }

  lemma BuiltSigners(c: Committee, sign: TimeoutSigner, m: PendingTimeouts, infos: seq<TimeoutInfo>, tc: TimeoutCertificate)
    requires ValidCommittee(c) && BuiltFrom(c, sign, m, infos, tc)
    ensures AllSigners(c, tc) == m.Keys
  {
    forall n | n in AllSigners(c, tc) ensures n in m {
      var i :| 0 <= i < |tc.tipRounds| && n in SignersAt(c, tc, i);
      BuiltInfo(c, sign, m, infos, tc, i);
    }
    forall n | n in m ensures n in AllSigners(c, tc) {
      var i := BuiltIndex(c, sign, m, infos, tc, n);
    }
  }

  lemma BuiltDisjoint(c: Committee, sign: TimeoutSigner, m: PendingTimeouts, infos: seq<TimeoutInfo>, tc: TimeoutCertificate,
                      i: nat, j: nat)
    requires ValidCommittee(c) && BuiltFrom(c, sign, m, infos, tc) && i < j < |tc.tipRounds|
    ensures SignersAt(c, tc, i) !! SignersAt(c, tc, j) && InfoOf(tc, i) != InfoOf(tc, j)
  {
    BuiltInfo(c, sign, m, infos, tc, i);
    BuiltInfo(c, sign, m, infos, tc, j);
    ListsDistinct(infos, Infos(m), i, j);
  }

  /** Every sender signs exactly one tip round of the certificate, the one of its own info. */
  lemma SignsExactlyOne(c: Committee, sign: TimeoutSigner, m: PendingTimeouts, infos: seq<TimeoutInfo>, tc: TimeoutCertificate,
                        n: NodeId, j: nat)
    requires ValidCommittee(c) && BuiltFrom(c, sign, m, infos, tc) && n in m && j < |tc.tipRounds|
    ensures n in SignersAt(c, tc, j) <==> InfoOf(tc, j) == m[n].info
    ensures exists i :: 0 <= i < |tc.tipRounds| && n in SignersAt(c, tc, i)
  {
    var i := BuiltIndex(c, sign, m, infos, tc, n);
    BuiltInfo(c, sign, m, infos, tc, i);
    if i < j {
      BuiltDisjoint(c, sign, m, infos, tc, i, j);
    } else if j < i {
      BuiltDisjoint(c, sign, m, infos, tc, j, i);
    }
  }

  lemma {:induction false} MaxQcRoundIs(ts: seq<TipRound>, i: nat)
    requires i < |ts|
    ensures ts[i].highQcRound <= MaxQcRound(ts)
  {
    if i >= |ts| - 1 {
    } else {
      MaxQcRoundIs(ts[..|ts| - 1], i);
    }
  }

  lemma {:induction false} MaxTipRoundIs(ts: seq<TipRound>, i: nat)
    requires i < |ts|
    ensures ts[i].highTipRound <= MaxTipRound(ts)
  {
    if i >= |ts| - 1 {
    } else {
      MaxTipRoundIs(ts[..|ts| - 1], i);
    }
  }

  lemma {:induction false} MaxQcRoundBelow(ts: seq<TipRound>, bound: Round)
    requires forall i :: 0 <= i < |ts| ==> ts[i].highQcRound <= bound
    ensures MaxQcRound(ts) <= bound
  {
    if ts == [] {
    } else {
      MaxQcRoundBelow(ts[..|ts| - 1], bound);
    }
  }

  lemma {:induction false} MaxTipRoundBelow(ts: seq<TipRound>, bound: Round)
    requires forall i :: 0 <= i < |ts| ==> ts[i].highTipRound <= bound
    ensures MaxTipRound(ts) <= bound
  {
    if ts == [] {
    } else {
      MaxTipRoundBelow(ts[..|ts| - 1], bound);
    }
  }

  /** The highest extend among well-shaped timeouts is the one their infos speak of, whichever
      of them sent a tip and whichever a QC. */
  lemma BuiltExtendMatches(c: Committee, sign: TimeoutSigner, m: PendingTimeouts, infos: seq<TimeoutInfo>, tc: TimeoutCertificate)
    requires ValidCommittee(c) && BuiltFrom(c, sign, m, infos, tc)
    ensures ExtendMatches(tc)
  {
    var ts, h := tc.tipRounds, tc.highExtend;
    var (qcBound, tipBound) :=
      match h
      case HighQc(qc) => (qc.Round(), qc.Round())
      case Tip(header) => (header.round - 1, header.round);
    forall i | 0 <= i < |ts| ensures ts[i].highQcRound <= qcBound && ts[i].highTipRound <= tipBound {
      var n := BuiltSender(c, sign, m, infos, tc, i);
      assert Rank(m[n].highExtend.Extend()) <= Rank(h);
    }
    if h.Tip? {
      HighestSender(c, m, h);
    }
    MaxQcRoundBelow(ts, qcBound);
    MaxTipRoundBelow(ts, tipBound);
    if h != HighQc(GenesisQc(c.group.zero)) {
      var n :| n in m && h == m[n].highExtend.Extend();
      var i := BuiltIndex(c, sign, m, infos, tc, n);
      MaxQcRoundIs(ts, i);
      MaxTipRoundIs(ts, i);
    }
  }

  lemma HighestSender(c: Committee, m: PendingTimeouts, h: HighExtend)
    requires IsHighest(c.group.zero, m, h) && h.Tip?
    requires forall n :: n in m ==> ShapeOk(m[n])
    ensures h.header.round > 0
  {
  }

  lemma BuiltSender(c: Committee, sign: TimeoutSigner, m: PendingTimeouts, infos: seq<TimeoutInfo>, tc: TimeoutCertificate, i: nat)
      returns (n: NodeId)
    requires ValidCommittee(c) && BuiltFrom(c, sign, m, infos, tc) && i < |tc.tipRounds|
    ensures n in m && ShapeOk(m[n])
    ensures tc.tipRounds[i].highQcRound == m[n].info.highQcRound && tc.tipRounds[i].highTipRound == m[n].info.highTipRound
  {
    ListsMember(infos, Infos(m));
    assert infos[i] in infos;
    n :| n in m && m[n].info == infos[i];
    assert GroupCollected(c, sign, m, infos[i], tc.tipRounds[i]);
  }

  /** A certificate built from a supermajority of well-shaped timeouts passes every receiver's
      verification, exactly when no timeout claims a QC of the timed-out round or later and
      what it extends is accepted; the latter holds if what every timeout extends is. */
  lemma BuiltTcVerifies(c: Committee, sign: TimeoutSigner, check: ExtendCheck,
                        m: PendingTimeouts, infos: seq<TimeoutInfo>, tc: TimeoutCertificate)
    requires ValidCommittee(c) && BuiltFrom(c, sign, m, infos, tc)
    requires HasSuperMajority(c, m.Keys)
    ensures VerifiesTc(c, sign, check, tc) <==>
      check(tc.highExtend) && forall n :: n in m ==> m[n].info.highQcRound < tc.round
    ensures ExtendsPass(c, check, m) ==> check(tc.highExtend)
  {
    BuiltSigners(c, sign, m, infos, tc);
    BuiltExtendMatches(c, sign, m, infos, tc);
    forall i, j | 0 <= i < j < |tc.tipRounds|
      ensures SignersAt(c, tc, i) !! SignersAt(c, tc, j) && InfoOf(tc, i) != InfoOf(tc, j)
    {
      BuiltDisjoint(c, sign, m, infos, tc, i, j);
    }
    forall i | 0 <= i < |tc.tipRounds|
      ensures Verifies(c.group, c.nodes, ExpectedFor(c, sign, InfoOf(tc, i)), tc.tipRounds[i].sigs)
    {
      BuiltInfo(c, sign, m, infos, tc, i);
    }
    BuiltClaims(c, sign, m, infos, tc);
  }

  /** What every timeout extends is accepted, and so is the genesis QC. */
  ghost predicate ExtendsPass(c: Committee, check: ExtendCheck, m: PendingTimeouts) {
    check(HighQc(GenesisQc(c.group.zero))) && forall n :: n in m ==> check(m[n].highExtend.Extend())
  }

  lemma BuiltClaims(c: Committee, sign: TimeoutSigner, m: PendingTimeouts, infos: seq<TimeoutInfo>, tc: TimeoutCertificate)
    requires ValidCommittee(c) && BuiltFrom(c, sign, m, infos, tc)
    ensures (forall i :: 0 <= i < |tc.tipRounds| ==> tc.tipRounds[i].highQcRound < tc.round) <==>
            (forall n :: n in m ==> m[n].info.highQcRound < tc.round)
  {
    if forall i :: 0 <= i < |tc.tipRounds| ==> tc.tipRounds[i].highQcRound < tc.round {
      forall n | n in m ensures m[n].info.highQcRound < tc.round {
        var i := BuiltIndex(c, sign, m, infos, tc, n);
      }
    } else {
      var i :| 0 <= i < |tc.tipRounds| && tc.tipRounds[i].highQcRound >= tc.round;
      var n := BuiltSender(c, sign, m, infos, tc, i);
    }
  }
}
