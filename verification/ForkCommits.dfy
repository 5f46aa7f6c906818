/** A commit that leaves an orphan, and a later commit that panics on it: a block, a child that
certifies it, and a later fork from the root that outlives the commit of the block. */
module ForkCommits {
  import opened ConsensusTypes
  import opened BlockForest
  import opened ChainRuns

  /** `a` and `b` are on the root, `c` is on `a`, and the QC in `b` is of the round of `a` or later. */
  ghost predicate IsFork(root: RootInfo, a: Block, c: Block, b: Block) {
    && ValidRoot(root) && ValidBlock(a) && ValidBlock(c) && ValidBlock(b)
    && root.round < a.Round() && root.round < c.Round() && root.round < b.Round()
    && a.ParentId() == b.ParentId() == root.blockId && c.ParentId() == a.Id()
    && a.Id() != root.blockId && b.Id() != root.blockId && c.Id() != root.blockId
    && a != b && a != c && b != c
    && b.ParentRound() >= a.Round()
  }

  /** The policy accepts each of them where it stands. */
  ghost predicate Accepts(policy: Policy, root: RootInfo, a: Block, c: Block, b: Block) {
    policy(a, [], root).Coherent? && policy(c, [a], root).Coherent? && policy(b, [], root).Coherent?
  }

  ghost function ForkBlocks(a: Block, c: Block, b: Block): Blocks {
    map[a.Id() := a, c.Id() := c, b.Id() := b]
  }

  lemma ForkIsValid(root: RootInfo, a: Block, c: Block, b: Block)
    requires IsFork(root, a, c, b)
    ensures a.Id() != b.Id() && a.Id() != c.Id() && b.Id() != c.Id()
    ensures ValidBlocks(root, ForkBlocks(a, c, b))
  {
  }

  lemma PathsOfFork(root: RootInfo, a: Block, c: Block, b: Block)
    requires IsFork(root, a, c, b) && ValidBlocks(root, ForkBlocks(a, c, b))
    ensures var blocks := ForkBlocks(a, c, b);
      && PathFromRoot(root, blocks, a.Id()) == Some([a])
      && PathFromRoot(root, blocks, b.Id()) == Some([b])
      && PathFromRoot(root, blocks, c.Id()) == Some([a, c])
  {
    ForkIsValid(root, a, c, b);
    var blocks := ForkBlocks(a, c, b);
    assert PathFromRoot(root, blocks, root.blockId) == Some([]);
    assert [] + [a] == [a] && [] + [b] == [b] && [a] + [c] == [a, c];
    assert PathFromRoot(root, blocks, a.Id()) == Some([a]);
  }

  lemma PassesInFork(policy: Policy, root: RootInfo, a: Block, c: Block, b: Block)
    requires IsFork(root, a, c, b) && Accepts(policy, root, a, c, b) && ValidBlocks(root, ForkBlocks(a, c, b))
    ensures var blocks := ForkBlocks(a, c, b);
      && NewlyCoherent(root, blocks, policy, a.Id()) == {a.Id(), c.Id()}
      && NewlyCoherent(root, blocks, policy, b.Id()) == {b.Id()}
  {
    ForkIsValid(root, a, c, b);
    PathsOfFork(root, a, c, b);
    var blocks := ForkBlocks(a, c, b);
    assert [a][..0] == [] && [b][..0] == [] && [a, c][..1] == [a];
    assert !CheckPasses(root, blocks, policy, root.blockId);
    assert !AllPass(root, blocks, policy, a.Id(), root.blockId) && !AllPass(root, blocks, policy, b.Id(), root.blockId);
    assert AllPass(root, blocks, policy, a.Id(), a.Id()) && AllPass(root, blocks, policy, b.Id(), b.Id());
    assert !AllPass(root, blocks, policy, a.Id(), b.Id()) && !AllPass(root, blocks, policy, b.Id(), a.Id());
  }

  lemma UpdatesOfFork(policy: Policy, root: RootInfo, a: Block, c: Block, b: Block)
    requires IsFork(root, a, c, b) && Accepts(policy, root, a, c, b) && ValidBlocks(root, ForkBlocks(a, c, b))
    ensures var f := Forest(root, ForkBlocks(a, c, b), {}); var g := f.(coherent := {a.Id(), c.Id()});
      && UpdateCoherency(f, c.Id(), policy) == g
      && UpdateCoherency(g, b.Id(), policy) == f.(coherent := {a.Id(), c.Id(), b.Id()})
  {
    ForkIsValid(root, a, c, b);
    PathsOfFork(root, a, c, b);
    PassesInFork(policy, root, a, c, b);
  }

  /** Adding the three blocks and updating coherency makes all of them coherent. */
  lemma RunToFork(policy: Policy, root: RootInfo, a: Block, c: Block, b: Block)
      returns (events: seq<Event>, states: seq<Chain>)
    requires IsFork(root, a, c, b) && Accepts(policy, root, a, c, b)
    ensures IsRun(root, events, states)
    ensures events == [AddBlock(a), AddBlock(c), AddBlock(b), Update(c.Id(), policy), Update(b.Id(), policy)]
    ensures states[|events|] == Chain(Forest(root, ForkBlocks(a, c, b), {a.Id(), c.Id(), b.Id()}), [])
  {
    ForkIsValid(root, a, c, b);
    UpdatesOfFork(policy, root, a, c, b);
    var f0, f1, f2 := InitForest(root), Forest(root, map[a.Id() := a], {}), Forest(root, map[a.Id() := a, c.Id() := c], {});
    var f3 := Forest(root, ForkBlocks(a, c, b), {});
    var f4, f5 := f3.(coherent := {a.Id(), c.Id()}), f3.(coherent := {a.Id(), c.Id(), b.Id()});
    events := [AddBlock(a), AddBlock(c), AddBlock(b), Update(c.Id(), policy), Update(b.Id(), policy)];
    states := [Chain(f0, []), Chain(f1, []), Chain(f2, []), Chain(f3, []), Chain(f4, []), Chain(f5, [])];
    assert Add(f0, a) == f1 && Add(f1, c) == f2 && Add(f2, b) == f3;
  }

  lemma RunSnoc(root: RootInfo, events: seq<Event>, states: seq<Chain>, e: Event)
    requires IsRun(root, events, states)
    requires Sound(states[|events|].forest) && Enabled(states[|events|].forest, e)
    ensures IsRun(root, events + [e], states + [Apply(states[|events|], e)])
  {
  }

  /** A certificate for the child commits its parent, and then the fork has no parent and can
      never be connected again. */
  lemma CommitOrphans(root: RootInfo, a: Block, c: Block, b: Block, qc: QuorumCertificate, s: Chain)
    requires IsFork(root, a, c, b) && s == Chain(Forest(root, ForkBlocks(a, c, b), {a.Id(), c.Id(), b.Id()}), [])
    requires qc.BlockId() == c.Id() && qc.Round() == c.ParentRound() + 1
    ensures Sound(s.forest) && CommitTarget(s.forest, qc) == Some(a.Id()) && !CommitPanics(s.forest, qc)
    ensures var g := Apply(s, Commit(qc)).forest;
      && !PrefixClosed(g) && g.root.blockId == a.Id()
      && b.Id() in g.coherent && !Extends(a.Id(), b.Id())
  {
    ForkIsValid(root, a, c, b);
    PathsOfFork(root, a, c, b);
    var g := Prune(s.forest, a.Id()).0;
    assert b.Id() in g.coherent && g.blocks[b.Id()] == b;
    ConnectedExtends(root, s.forest.blocks, a.Id());
    if Extends(a.Id(), root.blockId) {
      ExtendsIsDeeper(a.Id(), root.blockId);
      ExtendsIsDeeper(root.blockId, a.Id());
    }
  }

  /** Once a coherent block is lost, a certificate that commits it makes the node panic. */
  lemma CommitOfLostPanics(f: Forest, id: BlockId, child: Block, qc: QuorumCertificate)
    requires Sound(f) && id in f.coherent && !Extends(f.root.blockId, id)
    requires child.Id() in f.blocks && f.blocks[child.Id()] == child && child.ParentId() == id
    requires qc.BlockId() == child.Id() && qc.Round() == child.ParentRound() + 1
    ensures CommitPanics(f, qc)
  {
    PanicsExactlyWhenLost(f, qc);
  }

  function BlockOn(sig: Signature, parent: BlockId, qcRound: Round, round: Round, seqNum: SeqNum): Block {
    Block(Header(round, 1, QcOn(sig, parent, qcRound), 0, seqNum, seqNum, [], [], BodyHash(Body([]))), Body([]))
  }

  function QcOn(sig: Signature, id: BlockId, round: Round): QuorumCertificate {
    QuorumCertificate(Vote(id, round, 1), SignatureCollection([], sig))
  }

  /** The committed block that the example starts from, and the fork on it: `b` is proposed after
      the root was reproposed and certified once more, in round 5. */
  lemma ExampleFork(sig: Signature) returns (root: RootInfo, a: Block, c: Block, b: Block)
    ensures root.blockId.HashOf? && ValidRoot(root)
    ensures IsFork(root, a, c, b) && Accepts(PassthruCheck, root, a, c, b)
    ensures c.ParentRound() == 2 && b.Round() == 6 && a.Id() != b.Id()
  {
    var first := BlockOn(sig, GENESIS_BLOCK_ID, 0, 1, 1);
    root := RootOf(first);
    a := BlockOn(sig, first.Id(), 1, 2, 2);
    c, b := BlockOn(sig, a.Id(), 2, 3, 3), BlockOn(sig, first.Id(), 5, 6, 2);
    assert a.Id() != first.Id() && b.Id() != first.Id() && c.Id() != first.Id();
  }

  /** A run under the passthru policy from a committed block whose next commit, allowed by the
      commit rule, leaves a coherent block without a parent. */
  lemma CommitCanOrphan(sig: Signature)
      returns (root: RootInfo, events: seq<Event>, states: seq<Chain>, qc: QuorumCertificate, lost: Block)
    ensures ValidRoot(root) && root.blockId.HashOf? && IsRun(root, events, states)
    ensures var s := states[|events|];
      && Sound(s.forest) && CommitTarget(s.forest, qc).Some? && !CommitPanics(s.forest, qc)
      && var g := Apply(s, Commit(qc)).forest;
         !PrefixClosed(g) && lost.Id() in g.coherent && !Extends(g.root.blockId, lost.Id())
    ensures lost.Round() == 6
  {
    var a, c;
    root, a, c, lost := ExampleFork(sig);
    qc := QcOn(sig, c.Id(), 3);
    events, states := RunToFork(PassthruCheck, root, a, c, lost);
    CommitOrphans(root, a, c, lost, qc, states[|events|]);
  }

  /** A run under the passthru policy in which a later commit, allowed by the commit rule, makes
      the node panic. */
  lemma CommitCanPanic(sig: Signature)
      returns (root: RootInfo, events: seq<Event>, states: seq<Chain>, qc: QuorumCertificate)
    ensures ValidRoot(root) && root.blockId.HashOf? && IsRun(root, events, states)
    ensures Sound(states[|events|].forest) && CommitPanics(states[|events|].forest, qc)
  {
    var lost, first;
    root, events, states, first, lost := CommitCanOrphan(sig);
    RunSnoc(root, events, states, Commit(first));
    states := states + [Apply(states[|events|], Commit(first))];
    events := events + [Commit(first)];
    RunIsSound(root, events, states, |events|);
    var child := BlockOn(sig, lost.Id(), 6, 7, 3);
    RunSnoc(root, events, states, AddBlock(child));
    var f := Add(states[|events|].forest, child);
    states := states + [Apply(states[|events|], AddBlock(child))];
    events := events + [AddBlock(child)];
    RunIsSound(root, events, states, |events|);
    qc := QcOn(sig, child.Id(), 7);
    CommitOfLostPanics(f, lost.Id(), child, qc);
  }
}
