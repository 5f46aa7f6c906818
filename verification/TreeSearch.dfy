/** What the breadth-first walks over the block tree have established at each point. */
module TreeSearch {
  import opened ConsensusTypes
  import opened BlockForest
  import opened BlockIndex
  import ChainRuns

  // ---- the coherency update

  ghost predicate FlipStart(f: Forest, start: BlockId) {
    && WellFormed(f) && Rooted(f)
    && start in f.blocks && start !in f.coherent && IsCoherent(f, f.blocks[start].ParentId())
    && PathFromRoot(f.root, f.blocks, start).Some?
  }

  /** Of the blocks below `start`, those below a flipped block were visited or are pending. */
  ghost predicate FlipShape(f: Forest, start: BlockId, pending: set<BlockId>, visited: set<BlockId>, flipped: set<BlockId>) {
    && flipped <= visited
    && pending + visited <= f.blocks.Keys
    && pending !! visited
    && start in pending + visited
    && (forall x :: x in f.blocks && x != start ==>
          (x in pending + visited <==> f.blocks[x].ParentId() in flipped))
  }

  /** `visited` blocks were checked, `flipped` ones passed, and what remains to be checked is pending. */
  ghost predicate FlipProgress(f: Forest, policy: Policy, start: BlockId,
                               pending: set<BlockId>, visited: set<BlockId>, flipped: set<BlockId>)
    requires WellFormed(f)
  {
    && FlipShape(f, start, pending, visited, flipped)
    && (forall x :: x in flipped ==> AllPass(f.root, f.blocks, policy, start, x))
    && (forall x :: x in visited - flipped ==> !CheckPasses(f.root, f.blocks, policy, x))
  }

  /** Blocks that pass from an incoherent start were incoherent themselves. */
  lemma {:induction false} PassedWasIncoherent(f: Forest, policy: Policy, start: BlockId, x: BlockId)
    requires WellFormed(f) && Rooted(f) && start !in f.coherent
    requires AllPass(f.root, f.blocks, policy, start, x)
    ensures x !in f.coherent
    decreases Height(f.blocks, x)
  {
    ConnectedExtends(f.root, f.blocks, x);
    if x == start {
    } else {
      PassedWasIncoherent(f, policy, start, f.blocks[x].ParentId());
    }
  }

  /** A pending block has a path to the root, so looking it up cannot fail. */
  lemma NextToFlip(f: Forest, policy: Policy, start: BlockId,
                   pending: set<BlockId>, visited: set<BlockId>, flipped: set<BlockId>, next: BlockId)
    requires FlipStart(f, start) && next in pending
    requires FlipProgress(f, policy, start, pending, visited, flipped)
    ensures next in f.blocks && PathFromRoot(f.root, f.blocks, next).Some?
    ensures IsCoherent(f, f.blocks[next].ParentId()) || f.blocks[next].ParentId() in flipped
  {
    var parent := f.blocks[next].ParentId();
    if next != start {
      assert parent in flipped;
      PassedHasPath(f, policy, start, parent);
      ChildHasPath(f, next);
    }
  }

  lemma PassedHasPath(f: Forest, policy: Policy, start: BlockId, x: BlockId)
    requires WellFormed(f) && AllPass(f.root, f.blocks, policy, start, x)
    ensures PathFromRoot(f.root, f.blocks, x).Some?
  {
  }

  lemma ChildHasPath(f: Forest, x: BlockId)
    requires WellFormed(f) && x in f.blocks && PathFromRoot(f.root, f.blocks, f.blocks[x].ParentId()).Some?
    ensures PathFromRoot(f.root, f.blocks, x).Some?
  {
  }

  lemma ShapePass(f: Forest, start: BlockId, pending: set<BlockId>, visited: set<BlockId>, flipped: set<BlockId>, next: BlockId)
    requires WellFormed(f) && next in pending && start in f.blocks && f.blocks[start].ParentId() != next
    requires FlipShape(f, start, pending, visited, flipped)
    ensures ChildrenOf(f.blocks, next) !! pending + visited
    ensures FlipShape(f, start, pending - {next} + ChildrenOf(f.blocks, next), visited + {next}, flipped + {next})
  {
    forall c | c in ChildrenOf(f.blocks, next) ensures c !in pending + visited && c != next && c != start {
      ParentIsLower(f.root, f.blocks, c);
    }
  }

  lemma FlipPass(f: Forest, policy: Policy, start: BlockId,
                 pending: set<BlockId>, visited: set<BlockId>, flipped: set<BlockId>, next: BlockId)
    requires FlipStart(f, start) && next in pending
    requires FlipProgress(f, policy, start, pending, visited, flipped)
    requires CheckPasses(f.root, f.blocks, policy, next)
    ensures ChildrenOf(f.blocks, next) !! pending + visited
    ensures FlipProgress(f, policy, start, pending - {next} + ChildrenOf(f.blocks, next), visited + {next}, flipped + {next})
  {
    assert AllPass(f.root, f.blocks, policy, start, next);
    PassedWasIncoherent(f, policy, start, next);
    ShapePass(f, start, pending, visited, flipped, next);
  }

  lemma ShapeFail(f: Forest, start: BlockId, pending: set<BlockId>, visited: set<BlockId>, flipped: set<BlockId>, next: BlockId)
    requires FlipShape(f, start, pending, visited, flipped) && next in pending
    ensures FlipShape(f, start, pending - {next}, visited + {next}, flipped)
  {
    assert pending - {next} + (visited + {next}) == pending + visited;
  }

  lemma FlipFail(f: Forest, policy: Policy, start: BlockId,
                 pending: set<BlockId>, visited: set<BlockId>, flipped: set<BlockId>, next: BlockId)
    requires FlipStart(f, start) && next in pending
    requires FlipProgress(f, policy, start, pending, visited, flipped)
    requires !CheckPasses(f.root, f.blocks, policy, next)
    ensures FlipProgress(f, policy, start, pending - {next}, visited + {next}, flipped)
  {
    ShapeFail(f, start, pending, visited, flipped, next);
  }

  lemma FlipDone(f: Forest, policy: Policy, start: BlockId, visited: set<BlockId>, flipped: set<BlockId>)
    requires FlipStart(f, start)
    requires FlipProgress(f, policy, start, {}, visited, flipped)
    ensures flipped == NewlyCoherent(f.root, f.blocks, policy, start)
    ensures flipped !! f.coherent
  {
    forall x | x in f.blocks && AllPass(f.root, f.blocks, policy, start, x) ensures x in flipped {
      PassedIsFlipped(f, policy, start, visited, flipped, x);
    }
    forall x | x in flipped ensures x !in f.coherent {
      PassedWasIncoherent(f, policy, start, x);
    }
  }

  lemma {:induction false} PassedIsFlipped(f: Forest, policy: Policy, start: BlockId,
                                           visited: set<BlockId>, flipped: set<BlockId>, x: BlockId)
    requires FlipStart(f, start)
    requires FlipProgress(f, policy, start, {}, visited, flipped)
    requires AllPass(f.root, f.blocks, policy, start, x)
    ensures x in flipped
    decreases Height(f.blocks, x)
  {
    if x == start {
    } else {
      PassedIsFlipped(f, policy, start, visited, flipped, f.blocks[x].ParentId());
    }
    assert x in visited;
  }

  // ---- the report of flipped blocks

  function Ids(s: seq<Block>): (r: seq<BlockId>) {
    seq(|s|, i requires 0 <= i < |s| => s[i].Id())
  }

  /** Each block comes after its parent, unless the parent was coherent before. */
  ghost predicate ParentsFirst(f: Forest, report: seq<Block>) {
    forall i :: 0 <= i < |report| ==>
      IsCoherent(f, report[i].ParentId()) || report[i].ParentId() in Ids(report[..i])
  }

  lemma ParentsFirstSnoc(f: Forest, report: seq<Block>, block: Block)
    requires ParentsFirst(f, report)
    requires IsCoherent(f, block.ParentId()) || block.ParentId() in Ids(report)
    ensures ParentsFirst(f, report + [block])
    ensures Ids(report + [block]) == Ids(report) + [block.Id()]
  {
    var r := report + [block];
    forall i | 0 <= i < |r|
      ensures IsCoherent(f, r[i].ParentId()) || r[i].ParentId() in Ids(r[..i])
    {
      if i < |report| {
        assert r[..i] == report[..i];
      } else {
        assert r[..i] == report;
      }
    }
  }

  // ---- searching for a QC to commit

  /** A block connected to the root whose QC commits something above the root. */
  ghost predicate Committable(f: Forest, x: BlockId)
    requires WellFormed(f)
  {
    && x in f.blocks
    && PathFromRoot(f.root, f.blocks, x).Some?
    && CommitsAboveRoot(f, f.blocks[x].header.qc)
  }

  predicate CommitsAboveRoot(f: Forest, qc: QuorumCertificate)
    requires WellFormed(f)
  {
    var target := ChainRuns.CommitTarget(f, qc);
    target.Some? && target.value != f.root.blockId
  }

  /** Nothing is committable, or `high` is, and it is the highest that is. */
  ghost predicate IsHighestCommittable(f: Forest, high: Option<QuorumCertificate>)
    requires WellFormed(f)
  {
    match high
    case None => !exists x :: Committable(f, x)
    case Some(qc) =>
      && (exists x :: Committable(f, x) && f.blocks[x].header.qc == qc)
      && forall x :: Committable(f, x) ==> f.blocks[x].header.qc.Round() <= qc.Round()
  }

  /** The search has seen `visited`, and everything just above it is pending. */
  ghost predicate SearchProgress(f: Forest, pending: set<BlockId>, visited: set<BlockId>)
    requires WellFormed(f)
  {
    && pending + visited <= f.blocks.Keys
    && pending !! visited
    && (forall x :: x in f.blocks ==>
          (x in pending + visited <==> f.blocks[x].ParentId() == f.root.blockId || f.blocks[x].ParentId() in visited))
    && (forall x :: x in pending + visited ==> PathFromRoot(f.root, f.blocks, x).Some?)
  }

  ghost predicate Highest(f: Forest, visited: set<BlockId>, high: Option<QuorumCertificate>)
    requires WellFormed(f)
  {
    match high
    case None => forall x :: x in visited ==> !Committable(f, x)
    case Some(qc) =>
      && (exists x :: x in visited && Committable(f, x) && f.blocks[x].header.qc == qc)
      && (forall x :: x in visited && Committable(f, x) ==> f.blocks[x].header.qc.Round() <= qc.Round())
  }

  lemma SearchStart(f: Forest)
    requires WellFormed(f)
    ensures SearchProgress(f, ChildrenOf(f.blocks, f.root.blockId), {})
  {
  }

  lemma SearchStep(f: Forest, pending: set<BlockId>, visited: set<BlockId>, next: BlockId)
    requires WellFormed(f) && SearchProgress(f, pending, visited) && next in pending
    ensures ChildrenOf(f.blocks, next) !! pending + visited
    ensures SearchProgress(f, pending - {next} + ChildrenOf(f.blocks, next), visited + {next})
  {
    forall c | c in ChildrenOf(f.blocks, next) ensures c !in pending + visited && c != next {
      ParentIsLower(f.root, f.blocks, c);
    }
  }

  lemma {:induction false} ConnectedIsVisited(f: Forest, visited: set<BlockId>, x: BlockId)
    requires WellFormed(f) && SearchProgress(f, {}, visited)
    requires x in f.blocks && PathFromRoot(f.root, f.blocks, x).Some?
    ensures x in visited
    decreases Height(f.blocks, x)
  {
    if f.blocks[x].ParentId() == f.root.blockId {
    } else {
      ConnectedIsVisited(f, visited, f.blocks[x].ParentId());
    }
  }

  lemma HighestStep(f: Forest, visited: set<BlockId>, high: Option<QuorumCertificate>, next: BlockId)
    requires WellFormed(f) && Highest(f, visited, high)
    requires next in f.blocks && PathFromRoot(f.root, f.blocks, next).Some?
    ensures var qc := f.blocks[next].header.qc;
      Highest(f, visited + {next},
              if (high.Some? && high.value.Round() >= qc.Round()) || !CommitsAboveRoot(f, qc) then high else Some(qc))
  {
  }

  lemma SearchEnd(f: Forest, visited: set<BlockId>, high: Option<QuorumCertificate>)
    requires WellFormed(f) && SearchProgress(f, {}, visited) && Highest(f, visited, high)
    ensures IsHighestCommittable(f, high)
  {
    forall x | Committable(f, x) ensures x in visited {
      ConnectedIsVisited(f, visited, x);
    }
  }

  /** Committing the QC that the search finds cannot panic, even when some coherent blocks are
      lost, and raises the root's round. */
  lemma CommittableRaisesRoot(f: Forest, x: BlockId)
    requires WellFormed(f) && Rooted(f) && Committable(f, x)
    ensures !ChainRuns.CommitPanics(f, f.blocks[x].header.qc)
    ensures var (g, commit) := ChainRuns.TryCommit(f, f.blocks[x].header.qc);
      commit != [] && g.root.round > f.root.round
  {
    var certified := f.blocks[x].ParentId();
    assert x != f.root.blockId && certified != f.root.blockId;
    assert PathFromRoot(f.root, f.blocks, certified).Some?;
    assert PathFromRoot(f.root, f.blocks, f.blocks[certified].ParentId()).Some?;
    PruneCommitsPath(f, ChainRuns.CommitTarget(f, f.blocks[x].header.qc).value);
  }

  // ---- filling the path to the root

  ghost predicate AboveRoot(f: Forest, qc: QuorumCertificate) {
    f.root.round < qc.Round() && f.root.blockId != qc.BlockId()
  }

  /** `a` is reached from `id` by following parents of blocks in the tree. */
  ghost predicate Ancestor(root: RootInfo, blocks: Blocks, id: BlockId, a: BlockId)
    requires ValidBlocks(root, blocks)
    decreases Height(blocks, id)
  {
    id == a || (id in blocks && Ancestor(root, blocks, blocks[id].ParentId(), a))
  }

  ghost predicate SeqNumAboveRoot(f: Forest, id: BlockId) {
    id in f.blocks && f.blocks[id].ParentId() != f.root.blockId ==> f.root.seqNum <= f.blocks[id].SeqNum()
  }

  ghost predicate SeqNumsAboveRoot(f: Forest, id: BlockId)
    requires WellFormed(f)
  {
    forall a :: Ancestor(f.root, f.blocks, id, a) ==> SeqNumAboveRoot(f, a)
  }

  /** `x` is the block on the way up from `id` whose parent is `missing`. */
  ghost predicate LowestPassed(f: Forest, id: BlockId, x: BlockId, missing: BlockId)
    requires WellFormed(f)
  {
    Ancestor(f.root, f.blocks, id, x) && x in f.blocks && f.blocks[x].ParentId() == missing
  }

  /** One block is asked for if none is known; otherwise as many as there are sequence numbers
      between the root and the lowest known block, and at least one. */
  ghost predicate CountsMissing(f: Forest, id: BlockId, missing: BlockId, count: nat)
    requires WellFormed(f)
  {
    if id == missing then count == 1
    else exists x :: LowestPassed(f, id, x, missing) && count == Between(f.root.seqNum, f.blocks[x].SeqNum())
  }

  function Between(low: SeqNum, high: SeqNum): nat {
    if high < low + 2 then 1 else high - low - 1
  }

  lemma {:induction false} AncestorStep(root: RootInfo, blocks: Blocks, from: BlockId, id: BlockId)
    requires ValidBlocks(root, blocks) && id in blocks
    requires Ancestor(root, blocks, from, id)
    ensures Ancestor(root, blocks, from, blocks[id].ParentId())
    decreases Height(blocks, from)
  {
    if from == id {
    } else {
      AncestorStep(root, blocks, blocks[from].ParentId(), id);
    }
  }
}
