/** Runs of the consensus node's use of the block tree: blocks are added, coherency is
updated and quorum certificates commit blocks, in any order.  `finalized` collects every
block that a commit hands out. */
module ChainRuns {
  import opened ConsensusTypes
  import opened BlockForest

  datatype Chain = Chain(forest: Forest, finalized: seq<Block>)

  datatype Event =
    | AddBlock(block: Block)
    | Update(id: BlockId, policy: Policy)
    | Commit(qc: QuorumCertificate)

  function InitForest(root: RootInfo): Forest {
    Forest(root, map[], {})
  }

  /** The block that `qc` commits, if the block it certifies is in the tree, the commit rule
      holds and the committed block is coherent. */
  function CommitTarget(f: Forest, qc: QuorumCertificate): (r: Option<BlockId>)
    requires WellFormed(f)
    ensures r.Some? ==> IsCoherent(f, r.value)
  {
    if qc.BlockId() !in f.blocks then None
    else
      match CommittableId(qc, f.blocks[qc.BlockId()].header)
      case None => None
      case Some(id) => if IsCoherent(f, id) then Some(id) else None
  }

  /** The walk from the committed block does not get to the root, and an `expect` fails. */
  predicate CommitPanics(f: Forest, qc: QuorumCertificate)
    requires WellFormed(f)
  {
    CommitTarget(f, qc).Some? && PathFromRoot(f.root, f.blocks, CommitTarget(f, qc).value).None?
  }

  function TryCommit(f: Forest, qc: QuorumCertificate): (r: (Forest, seq<Block>))
    requires WellFormed(f) && !CommitPanics(f, qc)
  {
    match CommitTarget(f, qc)
    case None => (f, [])
    case Some(id) => Prune(f, id)
  }

  ghost predicate Sound(f: Forest) {
    WellFormed(f) && Rooted(f)
  }

  /** Blocks were validated before they get here, and a node that panics does not go on. */
  ghost predicate Enabled(f: Forest, e: Event)
    requires Sound(f)
  {
    match e
    case AddBlock(b) => ValidBlock(b)
    case Update(_, _) => true
    case Commit(qc) => !CommitPanics(f, qc)
  }

  ghost function Apply(s: Chain, e: Event): (t: Chain)
    requires Sound(s.forest) && Enabled(s.forest, e)
  {
    match e
    case AddBlock(b) => s.(forest := Add(s.forest, b))
    case Update(id, policy) => s.(forest := UpdateCoherency(s.forest, id, policy))
    case Commit(qc) =>
      var (f, blocks) := TryCommit(s.forest, qc);
      Chain(f, s.finalized + blocks)
  }

  lemma ApplyKeepsSound(s: Chain, e: Event)
    requires Sound(s.forest) && Enabled(s.forest, e)
    ensures Sound(Apply(s, e).forest)
  {
    match e
    case AddBlock(b) => AddKeeps(s.forest, b);
    case Update(id, policy) => UpdateKeeps(s.forest, id, policy);
    case Commit(qc) =>
      if CommitTarget(s.forest, qc).Some? {
        PruneCommitsPath(s.forest, CommitTarget(s.forest, qc).value);
        PruneKeepsRooted(s.forest, CommitTarget(s.forest, qc).value);
      }
  }

  ghost predicate IsStep(s: Chain, e: Event, t: Chain) {
    Sound(s.forest) ==> Enabled(s.forest, e) && t == Apply(s, e)
  }

  /** `states` is a run through `events` from an empty tree: every event is enabled in its
      state and leads to the next.  That an event finds a sound state, which is what `Apply`
      needs, is not assumed here but proved by `RunIsSound`. */
  ghost predicate IsRun(root: RootInfo, events: seq<Event>, states: seq<Chain>) {
    && |states| == |events| + 1
    && states[0] == Chain(InitForest(root), [])
    && forall i :: 0 <= i < |events| ==> IsStep(states[i], events[i], states[i + 1])
  }

  lemma RunStep(root: RootInfo, events: seq<Event>, states: seq<Chain>, k: nat)
    requires IsRun(root, events, states) && 0 < k < |states|
    ensures IsStep(states[k - 1], events[k - 1], states[k])
  {
  }

  /** In every state of every run, a coherent block that extends the root has an all-coherent
      path to it. */
  lemma {:induction false} RunIsSound(root: RootInfo, events: seq<Event>, states: seq<Chain>, k: nat)
    requires ValidRoot(root) && IsRun(root, events, states) && k < |states|
    ensures Sound(states[k].forest)
    ensures forall id :: IsCoherent(states[k].forest, id) && Extends(states[k].forest.root.blockId, id) ==>
      && PathFromRoot(states[k].forest.root, states[k].forest.blocks, id).Some?
      && forall b :: b in PathFromRoot(states[k].forest.root, states[k].forest.blocks, id).value ==>
           b.Id() in states[k].forest.coherent
  {
    if k == 0 {
    } else {
      RunStep(root, events, states, k);
      RunIsSound(root, events, states, k - 1);
      ApplyKeepsSound(states[k - 1], events[k - 1]);
    }
    var f := states[k].forest;
    forall id | IsCoherent(f, id) && Extends(f.root.blockId, id)
      ensures PathFromRoot(f.root, f.blocks, id).Some?
      ensures forall b :: b in PathFromRoot(f.root, f.blocks, id).value ==> b.Id() in f.coherent
    {
      RootedPath(f, id);
    }
  }

  /** A commit panics exactly when the block it commits is coherent but does not extend the root. */
  lemma PanicsExactlyWhenLost(f: Forest, qc: QuorumCertificate)
    requires Sound(f)
    ensures CommitPanics(f, qc) <==>
      CommitTarget(f, qc).Some? && !Extends(f.root.blockId, CommitTarget(f, qc).value)
  {
    if CommitTarget(f, qc).Some? {
      RootedPath(f, CommitTarget(f, qc).value);
    }
  }

  /** The certified block is in the tree and carries a QC of exactly the round before, and its
      parent is coherent and not committed yet. */
  predicate CommitRule(f: Forest, qc: QuorumCertificate) {
    && qc.info.id in f.blocks
    && f.blocks[qc.info.id].header.qc.info.round + 1 == qc.info.round
    && f.blocks[qc.info.id].header.qc.info.id in f.coherent
  }

  /** A certificate commits something exactly under the commit rule; then the certified block's
      parent becomes the root.  Otherwise nothing changes. */
  lemma CommitsExactly(s: Chain, qc: QuorumCertificate)
    requires Sound(s.forest) && Enabled(s.forest, Commit(qc))
    ensures CommitRule(s.forest, qc) ==>
      && Apply(s, Commit(qc)).forest.root.blockId == s.forest.blocks[qc.info.id].header.qc.info.id != s.forest.root.blockId
      && |Apply(s, Commit(qc)).finalized| > |s.finalized|
    ensures !CommitRule(s.forest, qc) ==> Apply(s, Commit(qc)) == s
  {
    var f := s.forest;
    assert f.root.blockId !in f.blocks;
    if CommitRule(f, qc) {
      var id := f.blocks[qc.info.id].header.qc.info.id;
      assert CommitTarget(f, qc) == Some(id);
      PruneCommitsPath(f, id);
    } else if CommitTarget(f, qc).Some? {
      assert CommitTarget(f, qc).value == f.root.blockId;
      assert s.finalized + [] == s.finalized;
    }
  }

  // ---- commits that leave nothing behind

  /** No coherent rival of a committed block outlives it. */
  ghost predicate LeavesNoRival(f: Forest, e: Event) {
    WellFormed(f) && e.Commit? && CommitTarget(f, e.qc).Some? ==> SurvivorsDescend(f, CommitTarget(f, e.qc).value)
  }

  lemma ApplyKeepsClosed(s: Chain, e: Event)
    requires Sound(s.forest) && PrefixClosed(s.forest) && Enabled(s.forest, e) && LeavesNoRival(s.forest, e)
    ensures PrefixClosed(Apply(s, e).forest)
  {
    match e
    case AddBlock(b) => AddKeeps(s.forest, b);
    case Update(id, policy) => UpdateKeeps(s.forest, id, policy);
    case Commit(qc) =>
      if CommitTarget(s.forest, qc).Some? {
        PruneKeepsClosureIff(s.forest, CommitTarget(s.forest, qc).value);
      }
  }

  /** As long as no commit of a run leaves a rival behind, all coherent blocks are connected and
      no commit can panic. */
  lemma {:induction false} ClosedRunCannotPanic(root: RootInfo, events: seq<Event>, states: seq<Chain>,
                                                     k: nat, qc: QuorumCertificate)
    requires ValidRoot(root) && IsRun(root, events, states) && k < |states|
    requires forall i :: 0 <= i < k ==> LeavesNoRival(states[i].forest, events[i])
    ensures Sound(states[k].forest) && PrefixClosed(states[k].forest)
    ensures !CommitPanics(states[k].forest, qc)
  {
    RunIsSound(root, events, states, k);
    if k == 0 {
    } else {
      RunStep(root, events, states, k);
      ClosedRunCannotPanic(root, events, states, k - 1, qc);
      ApplyKeepsClosed(states[k - 1], events[k - 1]);
    }
    if CommitTarget(states[k].forest, qc).Some? {
      CoherentPath(states[k].forest, CommitTarget(states[k].forest, qc).value);
    }
  }

  // ---- the finalized chain

  /** Everything finalized so far is one chain from `root` to the current root, and lies
      below every block still in the tree. */
  ghost predicate ChainInvariant(root: RootInfo, s: Chain) {
    && Sound(s.forest)
    && LinkedFrom(root.blockId, root.round, s.finalized)
    && TipId(root.blockId, s.finalized) == s.forest.root.blockId
    && TipRound(root.round, s.finalized) == s.forest.root.round
  }

  lemma ApplyKeepsChain(root: RootInfo, s: Chain, e: Event)
    requires ChainInvariant(root, s) && Enabled(s.forest, e)
    ensures ChainInvariant(root, Apply(s, e))
    ensures s.finalized <= Apply(s, e).finalized
    ensures s.forest.root.round <= Apply(s, e).forest.root.round
  {
    ApplyKeepsSound(s, e);
    if e.Commit? && CommitTarget(s.forest, e.qc).Some? {
      var id := CommitTarget(s.forest, e.qc).value;
      PruneCommitsPath(s.forest, id);
      LinkedConcat(root.blockId, root.round, s.finalized, Prune(s.forest, id).1);
    }
  }

  lemma {:induction false} RunKeepsChain(root: RootInfo, events: seq<Event>, states: seq<Chain>, k: nat)
    requires ValidRoot(root) && IsRun(root, events, states) && k < |states|
    ensures ChainInvariant(root, states[k])
  {
    if k == 0 {
    } else {
      RunStep(root, events, states, k);
      RunKeepsChain(root, events, states, k - 1);
      ApplyKeepsChain(root, states[k - 1], events[k - 1]);
    }
  }

  /** Over any run the finalized blocks form one parent-linked chain from the initial root,
      with strictly rising rounds; none is finalized twice, none is still in the tree, and
      none can enter it again. */
  lemma FinalizedIsOneChain(root: RootInfo, events: seq<Event>, states: seq<Chain>)
    requires ValidRoot(root) && IsRun(root, events, states)
    ensures var s := states[|events|];
      && LinkedFrom(root.blockId, root.round, s.finalized)
      && TipId(root.blockId, s.finalized) == s.forest.root.blockId
      && DistinctIds(s.finalized)
      && forall b :: b in s.finalized ==> b.Id() !in s.forest.blocks && Add(s.forest, b) == s.forest
  {
    RunKeepsChain(root, events, states, |events|);
    LinkedIsDistinct(root.blockId, root.round, states[|events|].finalized);
  }

  /** What is finalized stays finalized: an earlier finalized chain is a prefix of a later one. */
  lemma {:induction false} FinalizedOnlyGrows(root: RootInfo, events: seq<Event>, states: seq<Chain>, i: nat, j: nat)
    requires ValidRoot(root) && IsRun(root, events, states) && i <= j < |states|
    ensures states[i].finalized <= states[j].finalized
    ensures states[i].forest.root.round <= states[j].forest.root.round
    decreases j
  {
    if i >= j {
    } else {
      FinalizedOnlyGrows(root, events, states, i, j - 1);
      RunKeepsChain(root, events, states, j - 1);
      RunStep(root, events, states, j);
      ApplyKeepsChain(root, states[j - 1], events[j - 1]);
    }
  }

  /** Every root extends the roots before it. */
  lemma {:induction false} RootsExtend(root: RootInfo, events: seq<Event>, states: seq<Chain>, i: nat, j: nat)
    requires ValidRoot(root) && IsRun(root, events, states) && i <= j < |states|
    ensures Extends(states[i].forest.root.blockId, states[j].forest.root.blockId)
    decreases j
  {
    if i >= j {
    } else {
      RootsExtend(root, events, states, i, j - 1);
      RunIsSound(root, events, states, j - 1);
      RunStep(root, events, states, j);
      var f, e := states[j - 1].forest, events[j - 1];
      if e.Commit? && CommitTarget(f, e.qc).Some? {
        PruneCommitsPath(f, CommitTarget(f, e.qc).value);
        ConnectedExtends(f.root, f.blocks, CommitTarget(f, e.qc).value);
        ExtendsTransitive(states[i].forest.root.blockId, f.root.blockId, states[j].forest.root.blockId);
      }
    }
  }

  /** A block that does not extend the root is lost for the rest of the run: it is never
      connected to the root, and never finalized by becoming the root. */
  lemma LostForGood(root: RootInfo, events: seq<Event>, states: seq<Chain>, i: nat, j: nat, id: BlockId)
    requires ValidRoot(root) && IsRun(root, events, states) && i <= j < |states|
    requires !Extends(states[i].forest.root.blockId, id)
    ensures WellFormed(states[j].forest) && id != states[j].forest.root.blockId
    ensures PathFromRoot(states[j].forest.root, states[j].forest.blocks, id).None?
  {
    var f := states[j].forest;
    RunIsSound(root, events, states, j);
    RootsExtend(root, events, states, i, j);
    if PathFromRoot(f.root, f.blocks, id).Some? {
      ConnectedExtends(f.root, f.blocks, id);
      ExtendsTransitive(states[i].forest.root.blockId, f.root.blockId, id);
    }
  }

  // ---- sequence numbers

  /** The sequence number of `b` is one after that of its parent, if that is known. */
  ghost predicate FollowsParent(root: RootInfo, blocks: Blocks, b: Block) {
    && (b.ParentId() == root.blockId ==> b.SeqNum() == root.seqNum + 1)
    && (b.ParentId() != root.blockId && b.ParentId() in blocks ==> b.SeqNum() == blocks[b.ParentId()].SeqNum() + 1)
  }

  /** Every coherent block that extends the root follows its parent. */
  ghost predicate SeqConsecutive(f: Forest) {
    forall id :: id in f.coherent && id in f.blocks && Extends(f.root.blockId, id) ==>
      FollowsParent(f.root, f.blocks, f.blocks[id])
  }

  predicate SeqFrom(seqNum: SeqNum, s: seq<Block>) {
    forall i :: 0 <= i < |s| ==> s[i].SeqNum() == seqNum + 1 + i
  }

  lemma PathToParent(root: RootInfo, blocks: Blocks, id: BlockId, p: seq<Block>)
    requires ValidBlocks(root, blocks) && id in blocks && id != root.blockId
    requires PathFromRoot(root, blocks, id) == Some(p)
    ensures p != [] && PathFromRoot(root, blocks, blocks[id].ParentId()) == Some(p[..|p| - 1])
  {
    var ext := PathFromRoot(root, blocks, blocks[id].ParentId()).value;
    assert p == ext + [blocks[id]];
    assert p[..|p| - 1] == ext;
  }

  /** The last block of a path to `parent` carries the sequence number that a child follows. */
  lemma PathTipSeq(root: RootInfo, blocks: Blocks, parent: BlockId, ext: seq<Block>)
    requires ValidBlocks(root, blocks) && PathFromRoot(root, blocks, parent) == Some(ext)
    ensures ext == [] <==> parent == root.blockId
    ensures ext != [] ==> parent in blocks && blocks[parent] == ext[|ext| - 1]
  {
    if parent != root.blockId {
      PathToParent(root, blocks, parent, ext);
      PathIsLinked(root, blocks, parent);
      assert ext[|ext| - 1] in ext;
    }
  }

  lemma PassedFollowsParent(f: Forest, policy: Policy, x: BlockId)
    requires WellFormed(f) && ChecksSeqNum(policy) && CheckPasses(f.root, f.blocks, policy, x)
    ensures FollowsParent(f.root, f.blocks, f.blocks[x])
  {
    var p := PathFromRoot(f.root, f.blocks, x).value;
    var ext := p[..|p| - 1];
    PathToParent(f.root, f.blocks, x, p);
    PathTipSeq(f.root, f.blocks, f.blocks[x].ParentId(), ext);
    assert policy(f.blocks[x], ext, f.root).Coherent?;
  }

  lemma UpdateKeepsSeq(f: Forest, id: BlockId, policy: Policy)
    requires Sound(f) && SeqConsecutive(f) && ChecksSeqNum(policy)
    ensures SeqConsecutive(UpdateCoherency(f, id, policy))
  {
    var g := UpdateCoherency(f, id, policy);
    UpdateKeeps(f, id, policy);
    forall x | x in g.coherent && x !in f.coherent
      ensures FollowsParent(f.root, f.blocks, f.blocks[x])
    {
      PassedFollowsParent(f, policy, x);
    }
  }

  lemma {:induction false} CoherentPathSeq(f: Forest, id: BlockId)
    requires Sound(f) && SeqConsecutive(f) && IsCoherent(f, id) && Extends(f.root.blockId, id)
    ensures PathFromRoot(f.root, f.blocks, id).Some?
    ensures SeqFrom(f.root.seqNum, PathFromRoot(f.root, f.blocks, id).value)
    decreases Height(f.blocks, id)
  {
    RootedPath(f, id);
    if id == f.root.blockId {
    } else {
      var parent := f.blocks[id].ParentId();
      CoherentPathSeq(f, parent);
      PathTipSeq(f.root, f.blocks, parent, PathFromRoot(f.root, f.blocks, parent).value);
    }
  }

  lemma PruneKeepsSeq(f: Forest, id: BlockId)
    requires Sound(f) && SeqConsecutive(f) && IsCoherent(f, id)
    requires PathFromRoot(f.root, f.blocks, id).Some?
    ensures var (g, commit) := Prune(f, id);
      && SeqConsecutive(g)
      && SeqFrom(f.root.seqNum, commit)
      && g.root.seqNum == f.root.seqNum + |commit|
  {
    RootedPath(f, id);
    CoherentPathSeq(f, id);
    var (g, commit) := Prune(f, id);
    if id != f.root.blockId {
      PathTipSeq(f.root, f.blocks, id, commit);
      forall x | x in g.coherent && x in g.blocks && Extends(id, x)
        ensures FollowsParent(g.root, g.blocks, g.blocks[x])
      {
        ExtendsTransitive(f.root.blockId, id, x);
        assert FollowsParent(f.root, f.blocks, f.blocks[x]);
        assert f.root.blockId !in f.blocks;
      }
    }
  }

  lemma {:induction false} RunKeepsSeq(root: RootInfo, events: seq<Event>, states: seq<Chain>, k: nat)
    requires ValidRoot(root) && IsRun(root, events, states) && k < |states|
    requires forall i :: 0 <= i < |events| && events[i].Update? ==> ChecksSeqNum(events[i].policy)
    ensures SeqConsecutive(states[k].forest)
    ensures SeqFrom(root.seqNum, states[k].finalized)
    ensures states[k].forest.root.seqNum == root.seqNum + |states[k].finalized|
  {
    if k == 0 {
    } else {
      RunStep(root, events, states, k);
      RunKeepsSeq(root, events, states, k - 1);
      RunKeepsChain(root, events, states, k - 1);
      var s, e := states[k - 1], events[k - 1];
      match e
      case AddBlock(b) => AddKeepsSeq(s.forest, b);
      case Update(id, policy) => UpdateKeepsSeq(s.forest, id, policy);
      case Commit(qc) =>
        if CommitTarget(s.forest, qc).Some? {
          PruneKeepsSeq(s.forest, CommitTarget(s.forest, qc).value);
        }
    }
  }

  lemma AddKeepsSeq(f: Forest, b: Block)
    requires Sound(f) && SeqConsecutive(f) && ValidBlock(b)
    ensures SeqConsecutive(Add(f, b))
  {
    var g := Add(f, b);
    forall x | x in g.coherent && x in g.blocks && Extends(g.root.blockId, x)
      ensures FollowsParent(g.root, g.blocks, g.blocks[x])
    {
      assert FollowsParent(f.root, f.blocks, f.blocks[x]);
    }
  }

  /** Under a policy that checks sequence numbers, the i-th block ever finalized has the
      initial root's sequence number plus i + 1. */
  lemma FinalizedSeqNumbers(root: RootInfo, events: seq<Event>, states: seq<Chain>)
    requires ValidRoot(root) && IsRun(root, events, states)
    requires forall i :: 0 <= i < |events| && events[i].Update? ==> ChecksSeqNum(events[i].policy)
    ensures SeqFrom(root.seqNum, states[|events|].finalized)
  {
    RunKeepsSeq(root, events, states, |events|);
  }
}
