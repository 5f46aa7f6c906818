/** The consensus state's dealings with the block tree: committing on a quorum certificate,
and updating coherency and then committing whatever became committable. */
module ChainStates {
  import opened ConsensusTypes
  import opened BlockForest
  import opened ChainRuns
  import opened TreeSearch
  import opened BlockTrees
  import opened SeqSets

  class ChainState {
    const blockTree: BlockTree
    ghost var finalized: seq<Block>

    constructor (root: RootInfo)
      requires ValidRoot(root)
      ensures Valid() && fresh(blockTree) && fresh(blockTree.tree)
      ensures Abs() == Chain(InitForest(root), [])
    {
      blockTree := new BlockTree(root);
      finalized := [];
    }

    ghost predicate Valid()
      reads this, blockTree, blockTree.tree
    {
      blockTree.Valid()
    }

    ghost function Abs(): Chain
      reads this, blockTree, blockTree.tree
    {
      Chain(blockTree.View(), finalized)
    }

    /** Commit what `qc` commits, if anything; this is the `Commit` event of `ChainRuns`.  It
        panics exactly when that block is coherent but lost. */
    method TryCommit(qc: QuorumCertificate) returns (r: PruneResult)
      requires Valid()
      modifies this, blockTree, blockTree.tree
      ensures r.NoPathToRoot? <==> CommitPanics(old(blockTree.View()), qc)
      ensures r.Committed? ==> Valid() && Abs() == Apply(old(Abs()), Commit(qc))
      ensures r.Committed? ==> finalized == old(finalized) + r.blocks
      ensures r.Committed? ==> (r.blocks != [] <==> CommitRule(old(blockTree.View()), qc))
    {
      ghost var f := blockTree.View();
      if qc.BlockId() !in blockTree.tree.entries {
        return Committed([]);
      }
      assert f.blocks[qc.BlockId()] == blockTree.tree.entries[qc.BlockId()].block;
      var target := CommittableId(qc, blockTree.tree.entries[qc.BlockId()].block.header);
      if target.None? {
        return Committed([]);
      }
      var coherent := blockTree.IsCoherentBlock(target.value);
      if !coherent {
        return Committed([]);
      }
      assert blockTree.View() == f && CommitTarget(f, qc) == target;
      r := blockTree.Prune(target.value);
      if r.Committed? {
        finalized := finalized + r.blocks;
      }
    }

    /** Update coherency from `id`, then commit the highest QC that has become committable.
        This cannot panic; when something is committed, the root rises. */
    method TryUpdateCoherency(id: BlockId, policy: Policy)
        returns (proposed: seq<Block>, blocks: seq<Block>, high: Option<QuorumCertificate>)
      requires Valid()
      modifies this, blockTree, blockTree.tree
      ensures Valid()
      ensures var mid := Updated(old(Abs()), id, policy);
        && CommitsHigh(mid, high, Abs())
        && Lists(Ids(proposed), mid.forest.coherent - old(Abs()).forest.coherent)
      ensures finalized == old(finalized) + blocks
    {
      proposed := blockTree.TryUpdateCoherency(id, policy);
      assert Abs() == Updated(old(Abs()), id, policy);
      blocks, high := CommitHighest();
    }

    /** Commit the highest QC that is committable, if any. */
    method CommitHighest() returns (blocks: seq<Block>, high: Option<QuorumCertificate>)
      requires Valid()
      modifies this, blockTree, blockTree.tree
      ensures Valid() && CommitsHigh(old(Abs()), high, Abs())
      ensures finalized == old(finalized) + blocks
    {
      blocks := [];
      ghost var f := blockTree.View();
      high := blockTree.GetHighCommittableQc();
      assert blockTree.View() == f;
      if high.Some? {
        HighCommits(Abs(), high.value);
        var r := TryCommit(high.value);
        blocks := r.blocks;
      }
    }
  }

  /** The `Update` event of `ChainRuns`. */
  ghost function Updated(s: Chain, id: BlockId, policy: Policy): (t: Chain)
    requires Sound(s.forest)
    ensures t == Apply(s, Update(id, policy)) && Sound(t.forest)
  {
    ApplyKeepsSound(s, Update(id, policy));
    Apply(s, Update(id, policy))
  }

  /** The highest committable QC, if there is one, is committed, and then the root rises. */
  ghost predicate CommitsHigh(s: Chain, high: Option<QuorumCertificate>, t: Chain)
    requires Sound(s.forest)
  {
    && IsHighestCommittable(s.forest, high)
    && (high.None? ==> t == s)
    && (high.Some? ==> !CommitPanics(s.forest, high.value) && t == Apply(s, Commit(high.value)))
    && (high.Some? ==> t.forest.root.round > s.forest.root.round)
  }

  lemma HighCommits(s: Chain, high: QuorumCertificate)
    requires Sound(s.forest) && IsHighestCommittable(s.forest, Some(high))
    ensures !CommitPanics(s.forest, high) && CommitsHigh(s, Some(high), Apply(s, Commit(high)))
  {
    var x :| Committable(s.forest, x) && s.forest.blocks[x].header.qc == high;
    CommittableRaisesRoot(s.forest, x);
  }

  lemma Underflows(f: Forest, block: Block)
    requires WellFormed(f) && block.Id() in f.blocks && f.blocks[block.Id()] == block
    requires block.ParentId() != f.root.blockId && block.SeqNum() < f.root.seqNum
    ensures !SeqNumsAboveRoot(f, block.Id())
  {
    assert Ancestor(f.root, f.blocks, block.Id(), block.Id()) && !SeqNumAboveRoot(f, block.Id());
  }

  function LowBlock(none: SignatureCollection): Block {
    Block(Header(2, 1, QuorumCertificate(Vote(RawId(1), 1, 1), none), 0, 3, 1, [], [], BodyHash(Body([]))), Body([]))
  }

  method LowTree(none: SignatureCollection) returns (tree: BlockTree)
    ensures fresh(tree) && fresh(tree.tree) && tree.Valid() && !SeqNumsAboveRoot(tree.View(), LowBlock(none).Id())
    ensures tree.root.round == 0 && LowBlock(none).Id() in tree.View().blocks
  {
    tree := new BlockTree(RootInfo(0, 5, 1, GENESIS_BLOCK_ID, 0));
    tree.Add(LowBlock(none));
    Underflows(tree.View(), LowBlock(none));
  }

  /** A block numbered below the root, whose parent is unknown, makes the subtraction of
      sequence numbers fail. */
  method UnderflowExample(sig: Signature) returns (tree: BlockTree, r: FillResult)
    ensures fresh(tree) && tree.Valid() && r.SeqNumUnderflow?
  {
    var none := SignatureCollection([], sig);
    tree := LowTree(none);
    r := tree.MaybeFillPathToRoot(QuorumCertificate(Vote(LowBlock(none).Id(), 2, 1), none));
  }
}
