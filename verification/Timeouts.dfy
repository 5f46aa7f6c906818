/** Timeouts, the order on what they extend, and the timeout certificates made from them. */
module Timeouts {
  import opened ConsensusTypes
  import opened SignatureSums
  import opened SignatureCollections
  import opened Validators
  import opened SeqSets

  /** What a node wants the next round to extend: a tip it voted for, or a certified block. */
  datatype HighExtend = Tip(header: Header) | HighQc(certificate: QuorumCertificate) {
    function Qc(): QuorumCertificate {
      match this
      case Tip(header) => header.qc
      case HighQc(certificate) => certificate
    }
  }

  /** A tip in a timeout comes with a vote for it. */
  datatype HighExtendVote = TipVote(header: Header, vote: Signature) | QcVote(certificate: QuorumCertificate) {
    function Extend(): HighExtend {
      match this
      case TipVote(header, _) => Tip(header)
      case QcVote(certificate) => HighQc(certificate)
    }
  }

  datatype TimeoutInfo = TimeoutInfo(epoch: Epoch, round: Round, highQcRound: Round, highTipRound: Round)

  datatype TipRound = TipRound(highQcRound: Round, highTipRound: Round, sigs: SignatureCollection)

  datatype TimeoutCertificate = TimeoutCertificate(
    epoch: Epoch, round: Round, tipRounds: seq<TipRound>, highExtend: HighExtend)

  datatype RoundCertificate = QcCertificate(certificate: QuorumCertificate) | TcCertificate(tc: TimeoutCertificate) {
    function Round(): Round {
      match this
      case QcCertificate(certificate) => certificate.Round()
      case TcCertificate(tc) => tc.round
    }

    function Qc(): QuorumCertificate {
      match this
      case QcCertificate(certificate) => certificate
      case TcCertificate(tc) => tc.highExtend.Qc()
    }
  }

  datatype Timeout = Timeout(
    info: TimeoutInfo, signature: Signature, highExtend: HighExtendVote, lastRoundCertificate: Option<RoundCertificate>)

  type TimeoutSigner = (NodeId, TimeoutInfo) -> Signature
  type PendingTimeouts = map<NodeId, Timeout>

  // ---- the order on what is extended

  datatype Ordering = Less | Greater

  /** Higher rounds first; at equal rounds a QC beats a tip. */
  function Rank(h: HighExtend): (r: nat) {
    match h
    case Tip(header) => 2 * header.round
    case HighQc(certificate) => 2 * certificate.Round() + 1
  }

  function Compare(a: Round, b: Round): Ordering
    requires a != b
  {
    if a < b then Less else Greater
  }

  /** High extends compare as their ranks do, with no answer at equal ranks. */
  function PartialCmp(a: HighExtend, b: HighExtend): (r: Option<Ordering>)
    ensures r.None? <==> Rank(a) == Rank(b)
    ensures r == Some(Less) <==> Rank(a) < Rank(b)
    ensures r == Some(Greater) <==> Rank(a) > Rank(b)
  {
    match (a, b)
    case (HighQc(x), HighQc(y)) => if x.Round() == y.Round() then None else Some(Compare(x.Round(), y.Round()))
    case (Tip(x), Tip(y)) => if x.round == y.round then None else Some(Compare(x.round, y.round))
    case (HighQc(x), Tip(y)) => if x.Round() == y.round then Some(Greater) else Some(Compare(x.Round(), y.round))
    case (Tip(x), HighQc(y)) => if x.round == y.Round() then Some(Less) else Some(Compare(x.round, y.Round()))
  }

  // ---- certificates

  function GenesisQc(zero: Signature): QuorumCertificate {
    QuorumCertificate(Vote(GENESIS_BLOCK_ID, GENESIS_ROUND, 1), SignatureCollection([], zero))
  }

  /** The signatures over one timeout info. */
  function GroupSigs(m: PendingTimeouts, info: TimeoutInfo): (g: SigMap) {
    map n | n in m && m[n].info == info :: m[n].signature
  }

  function Infos(m: PendingTimeouts): (s: set<TimeoutInfo>) {
    set n | n in m :: m[n].info
  }

  function TimeoutJob(c: Committee, sign: TimeoutSigner, m: PendingTimeouts, info: TimeoutInfo): (j: Job) {
    Job(c.group, c.nodes, map n | n in NodeSet(c.nodes) :: sign(n, info), GroupSigs(m, info))
  }

  /** `h` ranks as high as anything in `m` and is one of them, or is genesis and nothing is higher. */
  ghost predicate IsHighest(zero: Signature, m: PendingTimeouts, h: HighExtend) {
    && (h == HighQc(GenesisQc(zero)) || exists n :: n in m && h == m[n].highExtend.Extend())
    && Rank(HighQc(GenesisQc(zero))) <= Rank(h)
    && forall n :: n in m ==> Rank(m[n].highExtend.Extend()) <= Rank(h)
  }

  /** Whatever the order of the timeouts, the highest extend has the same rank. */
  lemma HighestIsUnique(zero: Signature, m: PendingTimeouts, h: HighExtend, h': HighExtend)
    requires IsHighest(zero, m, h) && IsHighest(zero, m, h')
    ensures Rank(h) == Rank(h')
  {
  }

  /** All signatures over `info` pass, and `t` collects them. */
  ghost predicate GroupCollected(c: Committee, sign: TimeoutSigner, m: PendingTimeouts, info: TimeoutInfo, t: TipRound) {
    var j := TimeoutJob(c, sign, m, info);
    && j.sigs.Keys <= j.expected.Keys
    && Passes(j, j.sigs.Keys)
    && t == TipRound(info.highQcRound, info.highTipRound, Collect(j, j.sigs.Keys))
  }

  ghost predicate GroupsCollected(c: Committee, sign: TimeoutSigner, m: PendingTimeouts,
                                  infos: seq<TimeoutInfo>, tipRounds: seq<TipRound>)
  {
    && |tipRounds| == |infos|
    && forall i :: 0 <= i < |infos| ==> GroupCollected(c, sign, m, infos[i], tipRounds[i])
  }

  /** `report` names senders of invalid signatures over `info`. */
  ghost predicate GroupFails(c: Committee, sign: TimeoutSigner, m: PendingTimeouts, info: TimeoutInfo, report: seq<Sent>) {
    var j := TimeoutJob(c, sign, m, info);
    ValidJob(j) && GoodReport(j, report)
  }

  ghost predicate SomeGroupFails(c: Committee, sign: TimeoutSigner, m: PendingTimeouts, report: seq<Sent>) {
    exists info :: GroupFails(c, sign, m, info, report)
  }

  datatype TcResult = TcCreated(tc: TimeoutCertificate) | TcInvalid(report: seq<Sent>)

  /** The entries of the pending map, in an arbitrary order. */
  ghost predicate ListsTimeouts(m: PendingTimeouts, timeouts: seq<(NodeId, Timeout)>, ids: seq<NodeId>) {
    && DistinctNodes(ids) && NodeSet(ids) == m.Keys
    && |timeouts| == |ids| && forall i :: 0 <= i < |ids| ==> ids[i] in m && timeouts[i] == (ids[i], m[ids[i]])
  }

  function Prefix(m: PendingTimeouts, ids: seq<NodeId>): (p: PendingTimeouts) {
    map n | n in ids && n in m :: m[n]
  }

  /** The groups built so far hold the signatures of the timeouts seen so far. */
  ghost predicate Grouped(m: PendingTimeouts, groups: map<TimeoutInfo, seq<Sent>>) {
    groups.Keys == Infos(m) && AllGroups(m, groups)
  }

  ghost predicate AllGroups(m: PendingTimeouts, groups: map<TimeoutInfo, seq<Sent>>) {
    forall info :: info in groups ==> IsGroup(m, info, groups[info])
  }

  ghost predicate IsGroup(m: PendingTimeouts, info: TimeoutInfo, sigs: seq<Sent>) {
    sigs != [] && Consistent(sigs) && FirstSent(sigs) == GroupSigs(m, info)
  }

  lemma GroupSigsStep(m: PendingTimeouts, n: NodeId, t: Timeout, info: TimeoutInfo)
    requires n !in m
    ensures n !in GroupSigs(m, info)
    ensures GroupSigs(m[n := t], info) == if info == t.info then GroupSigs(m, info)[n := t.signature] else GroupSigs(m, info)
    ensures info !in Infos(m) ==> GroupSigs(m, info) == map[]
  {
  }

  lemma {:induction false} FirstSentSnoc(sigs: seq<Sent>, n: NodeId, sig: Signature)
    requires Consistent(sigs) && n !in FirstSent(sigs)
    ensures Consistent(sigs + [(n, sig)]) && FirstSent(sigs + [(n, sig)]) == FirstSent(sigs)[n := sig]
  {
    var all := sigs + [(n, sig)];
    assert all[..|all| - 1] == sigs;
    forall i | 0 <= i < |sigs| ensures sigs[i].0 != n {
      SentIsRemembered(sigs, i);
    }
  }

  lemma {:induction false} SentIsRemembered(sigs: seq<Sent>, i: nat)
    requires i < |sigs|
    ensures sigs[i].0 in FirstSent(sigs)
  {
    if i == |sigs| - 1 {
    } else {
      SentIsRemembered(sigs[..|sigs| - 1], i);
    }
  }

  lemma GroupStep(m: PendingTimeouts, groups: map<TimeoutInfo, seq<Sent>>, n: NodeId, t: Timeout)
    requires Grouped(m, groups) && n !in m
    ensures var entry := if t.info in groups then groups[t.info] else [];
      Grouped(m[n := t], groups[t.info := entry + [(n, t.signature)]])
  {
    var entry := if t.info in groups then groups[t.info] else [];
    var groups' := groups[t.info := entry + [(n, t.signature)]];
    InfosStep(m, n, t);
    forall info | info in groups'
      ensures IsGroup(m[n := t], info, groups'[info])
    {
      GroupSigsStep(m, n, t, info);
      if info == t.info {
        assert info in groups ==> IsGroup(m, info, groups[info]);
        FirstSentSnoc(entry, n, t.signature);
      } else {
        assert IsGroup(m, info, groups[info]);
      }
    }
  }

  lemma InfosStep(m: PendingTimeouts, n: NodeId, t: Timeout)
    requires n !in m
    ensures Infos(m[n := t]) == Infos(m) + {t.info}
  {
    var m' := m[n := t];
    assert m'[n].info == t.info;
    forall info | info in Infos(m) ensures info in Infos(m') {
      var x :| x in m && m[x].info == info;
      assert x in m' && m'[x].info == info;
    }
  }

  lemma PrefixStep(m: PendingTimeouts, ids: seq<NodeId>, k: nat)
    requires DistinctNodes(ids) && k < |ids| && ids[k] in m
    ensures ids[k] !in Prefix(m, ids[..k])
    ensures Prefix(m, ids[..k + 1]) == Prefix(m, ids[..k])[ids[k] := m[ids[k]]]
  {
  }

  lemma HighestStep(zero: Signature, m: PendingTimeouts, h: HighExtend, n: NodeId, t: Timeout)
    requires IsHighest(zero, m, h) && n !in m
    ensures var x := t.highExtend.Extend();
      IsHighest(zero, m[n := t], if PartialCmp(x, h) == Some(Greater) then x else h)
  {
    var m', x := m[n := t], t.highExtend.Extend();
    var r := if PartialCmp(x, h) == Some(Greater) then x else h;
    assert m'[n] == t;
    if r == h && h != HighQc(GenesisQc(zero)) {
      var k :| k in m && h == m[k].highExtend.Extend();
      assert k in m' && h == m'[k].highExtend.Extend();
    }
  }

  /** The first loop: group the signatures by what they sign and keep the highest extend. */
  method GroupTimeouts(zero: Signature, timeouts: seq<(NodeId, Timeout)>, ghost m: PendingTimeouts, ghost ids: seq<NodeId>)
      returns (groups: map<TimeoutInfo, seq<Sent>>, highest: HighExtend)
    requires ListsTimeouts(m, timeouts, ids)
    ensures Grouped(m, groups) && IsHighest(zero, m, highest)
  {
    highest := HighQc(GenesisQc(zero));
    groups := map[];
    assert Prefix(m, ids[..0]) == map[];
    for k := 0 to |timeouts|
      invariant Grouped(Prefix(m, ids[..k]), groups)
      invariant IsHighest(zero, Prefix(m, ids[..k]), highest)
    {
      var (n, t) := timeouts[k];
      PrefixStep(m, ids, k);
      GroupStep(Prefix(m, ids[..k]), groups, n, t);
      HighestStep(zero, Prefix(m, ids[..k]), highest, n, t);
      var entry := if t.info in groups then groups[t.info] else [];
      groups := groups[t.info := entry + [(n, t.signature)]];
      var extend := t.highExtend.Extend();
      if PartialCmp(extend, highest) == Some(Greater) {
        highest := extend;
      }
    }
    assert ids[..|ids|] == ids && Prefix(m, ids) == m by {
      assert forall n :: n in m <==> n in NodeSet(ids);
    }
  }

  method CollectGroup(c: Committee, sign: TimeoutSigner, sigs: seq<Sent>, ghost m: PendingTimeouts, info: TimeoutInfo)
      returns (r: Option<TipRound>, report: seq<Sent>)
    requires ValidCommittee(c) && m.Keys <= NodeSet(c.nodes)
    requires IsGroup(m, info, sigs)
    ensures r.Some? ==> GroupCollected(c, sign, m, info, r.value)
    ensures r.None? ==> GroupFails(c, sign, m, info, report)
  {
    var expected := map n | n in NodeSet(c.nodes) :: sign(n, info);
    var created := CreateCollection(c.group, c.nodes, expected, sigs);
    if created.Created? {
      return Some(TipRound(info.highQcRound, info.highTipRound, created.collection)), [];
    }
    assert created.InvalidSignaturesCreate?;  // unreachable otherwise
    return None, created.report;
  }

  /** Build the certificate from all pending timeouts, or report the invalid signatures of
      some group. */
  method NewTimeoutCertificate(c: Committee, sign: TimeoutSigner, epoch: Epoch, round: Round,
                               timeouts: seq<(NodeId, Timeout)>, ghost m: PendingTimeouts, ghost ids: seq<NodeId>)
      returns (r: TcResult, ghost infos: seq<TimeoutInfo>)
    requires ValidCommittee(c) && m.Keys <= NodeSet(c.nodes) && ListsTimeouts(m, timeouts, ids)
    ensures r.TcCreated? ==>
      && r.tc.epoch == epoch && r.tc.round == round
      && IsHighest(c.group.zero, m, r.tc.highExtend)
      && Lists(infos, Infos(m)) && GroupsCollected(c, sign, m, infos, r.tc.tipRounds)
    ensures r.TcInvalid? ==> SomeGroupFails(c, sign, m, r.report)
  {
    var groups, highest := GroupTimeouts(c.group.zero, timeouts, m, ids);
    var tipRounds, report;
    tipRounds, report, infos := CollectGroups(c, sign, groups, m);
    if tipRounds.None? {
      return TcInvalid(report), infos;
    }
    r := TcCreated(TimeoutCertificate(epoch, round, tipRounds.value, highest));
  }

  /** The second loop: aggregate the groups, in any order, until one fails. */
  method CollectGroups(c: Committee, sign: TimeoutSigner, groups: map<TimeoutInfo, seq<Sent>>, ghost m: PendingTimeouts)
      returns (r: Option<seq<TipRound>>, report: seq<Sent>, ghost infos: seq<TimeoutInfo>)
    requires ValidCommittee(c) && m.Keys <= NodeSet(c.nodes) && AllGroups(m, groups)
    ensures r.Some? ==> Lists(infos, groups.Keys) && GroupsCollected(c, sign, m, infos, r.value)
    ensures r.None? ==> SomeGroupFails(c, sign, m, report)
  {
    var keys := AnyOrder(groups.Keys);
    ListsMember(keys, groups.Keys);
    infos, report := keys, [];
    var tipRounds: seq<TipRound> := [];
    for i := 0 to |keys|
      invariant GroupsCollected(c, sign, m, keys[..i], tipRounds)
    {
      var collected;
      collected, report := CollectGroup(c, sign, groups[keys[i]], m, keys[i]);
      if collected.None? {
        return None, report, infos;
      }
      assert keys[..i + 1] == keys[..i] + [keys[i]];
      tipRounds := tipRounds + [collected.value];
    }
    assert keys[..|keys|] == keys;
    r := Some(tipRounds);
  }
}
