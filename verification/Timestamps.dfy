/** Timestamps under a policy that checks them: they rise along every path of coherent blocks, but
not always from one commit to the next, because the check of a block that extends the root does
not look at the root's timestamp. */
module Timestamps {
  import opened ConsensusTypes
  import opened BlockForest
  import opened ChainRuns
  import opened ForkCommits

  /** Later than the block it extends, if that is above the root. */
  ghost predicate LaterThanParent(root: RootInfo, blocks: Blocks, b: Block) {
    b.ParentId() != root.blockId && b.ParentId() in blocks ==> b.header.timestamp > blocks[b.ParentId()].header.timestamp
  }

  ghost predicate TimesRise(f: Forest) {
    forall id :: id in f.coherent && id in f.blocks && Extends(f.root.blockId, id) ==>
      LaterThanParent(f.root, f.blocks, f.blocks[id])
  }

  predicate Rising(s: seq<Block>) {
    forall i :: 0 < i < |s| ==> s[i - 1].header.timestamp < s[i].header.timestamp
  }

  predicate RisesAbove(time: nat, s: seq<Block>) {
    Rising(s) && (s != [] ==> time < s[0].header.timestamp)
  }

  function TipTime(time: nat, s: seq<Block>): nat {
    if s == [] then time else s[|s| - 1].header.timestamp
  }

  lemma PassedIsLater(f: Forest, policy: Policy, x: BlockId)
    requires WellFormed(f) && ChecksTime(policy) && CheckPasses(f.root, f.blocks, policy, x)
    ensures LaterThanParent(f.root, f.blocks, f.blocks[x])
  {
    var p := PathFromRoot(f.root, f.blocks, x).value;
    var ext := p[..|p| - 1];
    PathToParent(f.root, f.blocks, x, p);
    PathTipSeq(f.root, f.blocks, f.blocks[x].ParentId(), ext);
    assert policy(f.blocks[x], ext, f.root).Coherent?;
  }

  lemma UpdateKeepsTimes(f: Forest, id: BlockId, policy: Policy)
    requires Sound(f) && TimesRise(f) && ChecksTime(policy)
    ensures TimesRise(UpdateCoherency(f, id, policy))
  {
    var g := UpdateCoherency(f, id, policy);
    UpdateKeeps(f, id, policy);
    forall x | x in g.coherent && x !in f.coherent
      ensures LaterThanParent(f.root, f.blocks, f.blocks[x])
    {
      PassedIsLater(f, policy, x);
    }
  }

  lemma AddKeepsTimes(f: Forest, b: Block)
    requires Sound(f) && TimesRise(f) && ValidBlock(b)
    ensures TimesRise(Add(f, b))
  {
    var g := Add(f, b);
    forall x | x in g.coherent && x in g.blocks && Extends(g.root.blockId, x)
      ensures LaterThanParent(g.root, g.blocks, g.blocks[x])
    {
      assert LaterThanParent(f.root, f.blocks, f.blocks[x]);
    }
  }

  lemma {:induction false} CoherentPathRises(f: Forest, id: BlockId)
    requires Sound(f) && TimesRise(f) && IsCoherent(f, id) && Extends(f.root.blockId, id)
    ensures PathFromRoot(f.root, f.blocks, id).Some?
    ensures Rising(PathFromRoot(f.root, f.blocks, id).value)
    decreases Height(f.blocks, id)
  {
    RootedPath(f, id);
    if id == f.root.blockId {
    } else {
      var parent := f.blocks[id].ParentId();
      CoherentPathRises(f, parent);
      PathTipSeq(f.root, f.blocks, parent, PathFromRoot(f.root, f.blocks, parent).value);
    }
  }

  lemma PruneKeepsTimes(f: Forest, id: BlockId)
    requires Sound(f) && TimesRise(f) && IsCoherent(f, id)
    requires PathFromRoot(f.root, f.blocks, id).Some?
    ensures var (g, commit) := Prune(f, id);
      TimesRise(g) && Rising(commit) && g.root.timestamp == TipTime(f.root.timestamp, commit)
  {
    RootedPath(f, id);
    CoherentPathRises(f, id);
    var (g, commit) := Prune(f, id);
    if id != f.root.blockId {
      PathTipSeq(f.root, f.blocks, id, commit);
      forall x | x in g.coherent && x in g.blocks && Extends(id, x)
        ensures LaterThanParent(g.root, g.blocks, g.blocks[x])
      {
        ExtendsTransitive(f.root.blockId, id, x);
        assert LaterThanParent(f.root, f.blocks, f.blocks[x]);
        assert f.root.blockId !in f.blocks;
      }
    }
  }

  lemma RisesConcat(time: nat, a: seq<Block>, b: seq<Block>)
    requires Rising(b)
    ensures RisesAbove(time, a + b) <==> RisesAbove(time, a) && RisesAbove(TipTime(time, a), b)
    ensures TipTime(time, a + b) == TipTime(TipTime(time, a), b)
  {
    var s := a + b;
    if RisesAbove(time, s) {
      assert a != [] ==> s[0] == a[0];
      forall i | 0 < i < |a| ensures a[i - 1].header.timestamp < a[i].header.timestamp {
        assert s[i - 1] == a[i - 1] && s[i] == a[i];
      }
      assert a != [] && b != [] ==> s[|a| - 1] == a[|a| - 1] && s[|a|] == b[0];
    }
  }

  /** A certificate commits a path whose first block is no later than the root it extends. */
  ghost predicate FallsBack(f: Forest, qc: QuorumCertificate) {
    && Sound(f) && CommitRule(f, qc)
    && var p := PathFromRoot(f.root, f.blocks, f.blocks[qc.info.id].header.qc.info.id);
       p.Some? && p.value != [] && p.value[0].header.timestamp <= f.root.timestamp
  }

  /** The timestamps of coherent paths rise, and the root has that of the last finalized block. */
  ghost predicate Timed(root: RootInfo, s: Chain) {
    Sound(s.forest) && TimesRise(s.forest) && s.forest.root.timestamp == TipTime(root.timestamp, s.finalized)
  }

  lemma CommitTimes(root: RootInfo, s: Chain, qc: QuorumCertificate)
    requires Timed(root, s) && Enabled(s.forest, Commit(qc))
    ensures Timed(root, Apply(s, Commit(qc)))
    ensures RisesAbove(root.timestamp, Apply(s, Commit(qc)).finalized) <==>
      RisesAbove(root.timestamp, s.finalized) && !FallsBack(s.forest, qc)
  {
    var f := s.forest;
    ApplyKeepsSound(s, Commit(qc));
    CommitsExactly(s, qc);
    if CommitRule(f, qc) {
      var id := f.blocks[qc.info.id].header.qc.info.id;
      assert CommitTarget(f, qc) == Some(id);
      PruneKeepsTimes(f, id);
      PathTipSeq(f.root, f.blocks, id, Prune(f, id).1);
      assert f.root.blockId !in f.blocks;
      RisesConcat(root.timestamp, s.finalized, Prune(f, id).1);
    }
  }

  /** Every update checks timestamps. */
  ghost predicate TimeChecked(events: seq<Event>) {
    forall i :: 0 <= i < |events| && events[i].Update? ==> ChecksTime(events[i].policy)
  }

  lemma StepTimes(root: RootInfo, s: Chain, e: Event)
    requires Timed(root, s) && Enabled(s.forest, e) && (e.Update? ==> ChecksTime(e.policy))
    ensures Timed(root, Apply(s, e))
    ensures RisesAbove(root.timestamp, Apply(s, e).finalized) <==>
      RisesAbove(root.timestamp, s.finalized) && !(e.Commit? && FallsBack(s.forest, e.qc))
  {
    match e
    case AddBlock(b) =>
      ApplyKeepsSound(s, e);
      AddKeepsTimes(s.forest, b);
    case Update(id, policy) =>
      ApplyKeepsSound(s, e);
      UpdateKeepsTimes(s.forest, id, policy);
    case Commit(qc) => CommitTimes(root, s, qc);
  }

  /** No commit among the first `k` events starts below its root. */
  ghost predicate NoneFallsBack(events: seq<Event>, states: seq<Chain>, k: nat)
    requires k <= |events| && k <= |states|
  {
    forall i :: 0 <= i < k && events[i].Commit? ==> !FallsBack(states[i].forest, events[i].qc)
  }

  /** In every run under policies that check timestamps: they rise along every path of coherent
      blocks, and along the whole finalized chain exactly if no commit starts below its root. */
  lemma {:induction false} FinalizedTimesRiseIff(root: RootInfo, events: seq<Event>, states: seq<Chain>, k: nat)
    requires ValidRoot(root) && IsRun(root, events, states) && k < |states| && TimeChecked(events)
    ensures Timed(root, states[k])
    ensures RisesAbove(root.timestamp, states[k].finalized) <==> NoneFallsBack(events, states, k)
  {
    if k == 0 {
    } else {
      RunStep(root, events, states, k);
      FinalizedTimesRiseIff(root, events, states, k - 1);
      StepTimes(root, states[k - 1], events[k - 1]);
      assert NoneFallsBack(events, states, k) <==>
        NoneFallsBack(events, states, k - 1) && !(events[k - 1].Commit? && FallsBack(states[k - 1].forest, events[k - 1].qc));
    }
  }

  /** In every state of such a run a coherent block that extends the root is later than all blocks
      between it and the root. */
  lemma PathTimesRise(root: RootInfo, events: seq<Event>, states: seq<Chain>, k: nat, id: BlockId)
    requires ValidRoot(root) && IsRun(root, events, states) && k < |states| && TimeChecked(events)
    requires IsCoherent(states[k].forest, id) && Extends(states[k].forest.root.blockId, id)
    ensures Sound(states[k].forest)
    ensures var p := PathFromRoot(states[k].forest.root, states[k].forest.blocks, id); p.Some? && Rising(p.value)
  {
    FinalizedTimesRiseIff(root, events, states, k);
    CoherentPathRises(states[k].forest, id);
  }

  // ---- a commit that goes back in time

  function TimedBlock(sig: Signature, parent: BlockId, qcRound: Round, round: Round, seqNum: SeqNum, time: nat): Block {
    Block(Header(round, 1, QcOn(sig, parent, qcRound), 0, seqNum, time, [], [], BodyHash(Body([]))), Body([]))
  }

  /** A root of time 9, on which the passthru policy accepts a block of time 7. */
  lemma EarlierBlock(sig: Signature) returns (root: RootInfo, a: Block, c: Block, b: Block)
    ensures root.timestamp == 9 && a.header.timestamp == 7 && c.ParentRound() == 2
    ensures IsFork(root, a, c, b) && Accepts(PassthruCheck, root, a, c, b)
  {
    var first := TimedBlock(sig, GENESIS_BLOCK_ID, 0, 1, 1, 9);
    root := RootOf(first);
    a := TimedBlock(sig, first.Id(), 1, 2, 2, 7);
    c, b := TimedBlock(sig, a.Id(), 2, 3, 3, 8), TimedBlock(sig, first.Id(), 5, 6, 2, 1);
    assert a.Id() != first.Id() && b.Id() != first.Id() && c.Id() != first.Id();
  }

  /** A run under the passthru policy that commits a block earlier than the block before it. */
  lemma TimestampsCanFall(sig: Signature) returns (root: RootInfo, events: seq<Event>, states: seq<Chain>)
    ensures ValidRoot(root) && IsRun(root, events, states)
    ensures forall i :: 0 <= i < |events| && events[i].Update? ==> events[i].policy == PassthruCheck
    ensures var last := states[|events|].finalized; |last| == 1 && last[0].header.timestamp < root.timestamp
  {
    var a, c, b;
    root, a, c, b := EarlierBlock(sig);
    events, states := RunToFork(PassthruCheck, root, a, c, b);
    var s, qc := states[|events|], QcOn(sig, c.Id(), 3);
    CommitOrphans(root, a, c, b, qc, s);
    RunSnoc(root, events, states, Commit(qc));
    events, states := events + [Commit(qc)], states + [Apply(s, Commit(qc))];
    PathsOfFork(root, a, c, b);
    assert Apply(s, Commit(qc)).finalized == [] + [a];
  }
}
