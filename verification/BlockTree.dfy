/** The mutable block tree: a map of entries with a children list each, a payload index
that records the blocks naming each body, and a root with its own children list. */
module BlockTrees {
  import opened ConsensusTypes
  import opened BlockForest
  import opened BlockIndex
  import opened SeqSets
  import opened TreeSearch
  import ChainRuns

  class Tree {
    var entries: Entries
    var payloads: Payloads

    constructor ()
      ensures entries == map[] && Valid()
    {
      entries, payloads := map[], map[];
    }

    /** What every method keeps; `Remove` leaves dangling children, so exact children lists
        are up to the caller. */
    ghost predicate Valid() reads this {
      PayloadsExact(BlocksOf(entries), payloads) && Keyed(BlocksOf(entries))
    }

    method SetCoherent(id: BlockId, coherent: bool) returns (found: bool)
      requires Valid()
      modifies this
      ensures Valid()
      ensures found == (id in old(entries))
      ensures entries == if found then old(entries)[id := old(entries[id]).(isCoherent := coherent)] else old(entries)
    {
      found := id in entries;
      if found {
        entries := entries[id := entries[id].(isCoherent := coherent)];
        assert BlocksOf(entries) == BlocksOf(old(entries));
      }
    }

    method Remove(id: BlockId) returns (removed: Option<Entry>)
      requires Valid()
      modifies this
      ensures Valid()
      ensures removed == if id in old(entries) then Some(old(entries)[id]) else None
      ensures entries == old(entries) - {id}
    {
      if id !in entries {
        return None;
      }
      ghost var blocks := BlocksOf(entries);
      RemoveKeepsPayloads(blocks, payloads, id);
      RemoveView(entries, {id});
      removed := Some(entries[id]);
      entries := entries - {id};
      var bodyId := removed.value.block.BodyId();
      assert blocks[id] == removed.value.block;
      var index := payloads[bodyId];  // expect: payload_index must exist for removed block
      assert id in index.active;      // assert: removed
      var active := index.active - {id};
      if active == {} {
        payloads := payloads - {bodyId};
      } else {
        payloads := payloads[bodyId := index.(active := active)];
      }
      assert payloads == RemovePayload(old(payloads), blocks[id]);
    }

    method Insert(block: Block)
      requires Valid() && ChildrenExact(entries)
      requires ValidBlock(block) && block.Id() !in entries
      modifies this
      ensures Valid() && ChildrenExact(entries)
      ensures BlocksOf(entries) == BlocksOf(old(entries))[block.Id() := block]
      ensures CoherentOf(entries) == CoherentOf(old(entries))
    {
      var newId, parentId, bodyId := block.Id(), block.ParentId(), block.BodyId();
      var children := CollectChildren(newId);
      InsertView(entries, block, children);
      InsertKeepsChildren(entries, block, children);
      InsertKeepsPayloads(BlocksOf(entries), payloads, block);
      var inserted := entries[newId := Entry(block, false, children)];
      if parentId in inserted {
        inserted := inserted[parentId := inserted[parentId].(children := inserted[parentId].children + [newId])];
      }
      var index := if bodyId in payloads then payloads[bodyId] else BodyIndex(block.body, {});
      assert newId !in index.active;  // assert: newly_inserted
      entries := inserted;
      payloads := payloads[bodyId := index.(active := index.active + {newId})];
    }

    /** The scan over all entries, in an arbitrary order. */
    method CollectChildren(id: BlockId) returns (children: seq<BlockId>)
      ensures Lists(children, ChildrenOf(BlocksOf(entries), id))
    {
      children := [];
      var rest := entries.Keys;
      ghost var all := ChildrenOf(BlocksOf(entries), id);
      while rest != {}
        invariant rest <= entries.Keys
        invariant Lists(children, all - rest)
      {
        var c :| c in rest;
        CollectStep(entries, id, children, rest, c);
        rest := rest - {c};
        if entries[c].block.ParentId() == id {
          children := children + [c];
        }
      }
    }

    /** A body is found exactly when some block in the tree has it. */
    method GetPayload(bodyId: BodyId) returns (r: Option<Body>)
      requires Valid()
      ensures r.Some? <==> exists id :: id in entries && entries[id].block.BodyId() == bodyId
      ensures r.Some? ==> BodyHash(r.value) == bodyId
    {
      ghost var users := UsersOf(BlocksOf(entries), bodyId);
      if bodyId in payloads {
        r := Some(payloads[bodyId].body);
        assert users != {};
        ghost var id :| id in users;
        assert id in entries && entries[id].block.BodyId() == bodyId;
      } else {
        r := None;
        forall id | id in entries ensures entries[id].block.BodyId() != bodyId {
          assert users == {};
          assert id !in users && BlocksOf(entries)[id] == entries[id].block;
        }
      }
    }
  }

  class BlockTree {
    var root: RootInfo
    var rootChildren: seq<BlockId>
    const tree: Tree

    constructor (info: RootInfo)
      requires ValidRoot(info)
      ensures Valid() && fresh(tree)
      ensures View() == ChainRuns.InitForest(info)
    {
      root := info;
      rootChildren := [];
      tree := new Tree();
    }

    ghost function View(): Forest
      reads this, tree
    {
      Forest(root, BlocksOf(tree.entries), CoherentOf(tree.entries))
    }

    /** Both indexes agree with a plain scan of the blocks in the tree. */
    ghost predicate Indexed()
      reads this, tree
    {
      && tree.Valid()
      && WellFormed(View())
      && ChildrenExact(tree.entries)
      && Lists(rootChildren, ChildrenOf(BlocksOf(tree.entries), root.blockId))
    }

    /** What every method keeps, also when a commit leaves blocks behind that can never be
        connected again. */
    ghost predicate Valid()
      reads this, tree
    {
      Indexed() && Rooted(View())
    }

    // ---- updates

    /** A block enters the tree exactly when its round is above the root's, whether its parent is
        there or not; nothing else changes. */
    method Add(block: Block)
      requires Valid() && ValidBlock(block)
      modifies this, tree
      ensures Valid()
      ensures View() == BlockForest.Add(old(View()), block)
      ensures root == old(root) && View().coherent == old(View()).coherent
      ensures View().blocks == if block.Round() > root.round then old(View()).blocks[block.Id() := block] else old(View()).blocks
    {
      AddKeeps(View(), block);
      AddIsExact(View(), block);
      if block.Id() in tree.entries || block.Round() <= root.round {
        return;
      }
      Insert(block);
    }

    method Insert(block: Block)
      requires Indexed() && ValidBlock(block) && block.Id() !in tree.entries && block.Round() > root.round
      modifies this, tree
      ensures Indexed() && root == old(root) && View().coherent == old(View()).coherent
      ensures View().blocks == old(View()).blocks[block.Id() := block]
    {
      RootChildrenAdded(BlocksOf(tree.entries), block, root.blockId, rootChildren);
      tree.Insert(block);
      if block.ParentId() == root.blockId {
        rootChildren := rootChildren + [block.Id()];
      }
    }

    /** Commit everything up to `newRoot`, or panic when it has no path to the root.  Otherwise
        the children lists and the payload index stay exact and coherence stays rooted; it
        stays prefix-closed exactly when no coherent fork outlives the commit. */
    method Prune(newRoot: BlockId) returns (r: PruneResult)
      requires Valid() && IsCoherent(View(), newRoot)
      modifies this, tree
      ensures r.NoPathToRoot? <==> PathFromRoot(old(root), old(View()).blocks, newRoot).None?
      ensures r.Committed? ==> Valid() && (View(), r.blocks) == BlockForest.Prune(old(View()), newRoot)
      ensures r.Committed? && PrefixClosed(old(View())) ==>
        (PrefixClosed(View()) <==> SurvivorsDescend(old(View()), newRoot))
    {
      ghost var f := View();
      ghost var e0 := tree.entries;
      if newRoot == root.blockId {
        return Committed([]);
      }
      var newRootEntry := tree.entries[newRoot];  // expect: new root must exist in blocktree
      ghost var path := PathFromRoot(root, f.blocks, newRoot);
      if path.Some? {
        CommitChain(f, e0, newRoot, path.value);
      }
      var removed := RemovePath(newRoot, f, path);
      if removed.None? {
        return NoPathToRoot;
      }
      PruneOutcome(f, newRoot);
      DeleteBelow(newRootEntry.block.Round());
      root := RootOf(newRootEntry.block);
      rootChildren := newRootEntry.children;
      PrunedEntries(f, e0, newRoot, path.value, tree.entries);
      assert View() == BlockForest.Prune(f, newRoot).0;
      r := Committed(removed.value);
    }

    /** Walk from `newRoot` up to the root, removing each block, and return them lowest first.
        Without a path to the root the walk ends at a block that is missing or not coherent. */
    method RemovePath(newRoot: BlockId, ghost f: Forest, ghost path: Option<seq<Block>>) returns (r: Option<seq<Block>>)
      requires tree.Valid() && f == View() && WellFormed(f) && newRoot in f.coherent
      requires path == PathFromRoot(root, f.blocks, newRoot)
      requires path.Some? ==> CoherentChain(tree.entries, root.blockId, newRoot, path.value)
      modifies tree
      ensures tree.Valid() && r == path
      ensures r.Some? ==> tree.entries == old(tree.entries) - IdsFrom(r.value, 0)
    {
      ghost var e0 := tree.entries;
      ghost var m := if path.Some? then |path.value| - 1 else 0;
      if path.Some? {
        RemoveLast(e0, path.value, newRoot);
      }
      var removed := tree.Remove(newRoot);
      var entry := removed.value;
      var commit := [entry.block];
      while entry.block.ParentId() != root.blockId
        invariant tree.Valid() && PartOf(tree.entries, e0) && Known(e0, entry)
        invariant path.Some? ==> Walked(e0, path.value, m, entry, commit, tree.entries)
        invariant path.None? ==> PathFromRoot(root, f.blocks, entry.block.Id()).None?
        decreases entry.block.Round()
      {
        if path.Some? {
          m := m - 1;
          RemoveNext(e0, root.blockId, newRoot, path.value, m);
        }
        ghost var child := entry.block;
        removed := tree.Remove(entry.block.ParentId());
        if removed.None? || !removed.value.isCoherent {
          return None;  // expect: path to root must exist; assert: must be coherent
        }
        entry := removed.value;
        ParentIsLower(f.root, f.blocks, child.Id());
        ReversedSnoc(commit, entry.block);
        commit := commit + [entry.block];
      }
      WalkDone(e0, root.blockId, newRoot, f, path, m, entry, commit, tree.entries);
      r := Some(Reversed(commit));
    }

    /** Delete every block whose parent was certified below `round`. */
    method DeleteBelow(round: Round)
      requires tree.Valid()
      modifies tree
      ensures tree.Valid()
      ensures tree.entries ==
        map id | id in old(tree.entries) && old(tree.entries)[id].block.ParentRound() >= round :: old(tree.entries)[id]
    {
      var toDelete := set id | id in tree.entries && tree.entries[id].block.ParentRound() < round;
      ghost var doomed := toDelete;
      while toDelete != {}
        invariant toDelete <= doomed
        invariant tree.Valid()
        invariant tree.entries == old(tree.entries) - (doomed - toDelete)
      {
        var id :| id in toDelete;
        var _ := tree.Remove(id);
        toDelete := toDelete - {id};
      }
    }

    /** Flip to coherent every block that now passes the policy, starting at the first
        incoherent block on the path to `id` and going on to the children of each block that
        passes.  The report lists each flipped block exactly once, parents first. */
    method TryUpdateCoherency(id: BlockId, policy: Policy) returns (report: seq<Block>)
      requires Valid()
      modifies tree
      ensures Valid()
      ensures View() == UpdateCoherency(old(View()), id, policy)
      ensures Lists(Ids(report), View().coherent - old(View()).coherent)
      ensures ParentsFirst(old(View()), report)
    {
      ghost var f := View();
      report := [];
      UpdateKeeps(f, id, policy);
      var path := GetBlocksOnPathFromRoot(id);
      if path.None? {
        return;
      }
      var k := FindIncoherent(path.value, id);
      if k == |path.value| {
        return;
      }
      StartExtendsCoherent(f, id, k);
      report := Flip(path.value[k].Id(), policy);
    }

    method FindIncoherent(path: seq<Block>, ghost id: BlockId) returns (k: nat)
      requires WellFormed(View()) && Some(path) == PathFromRoot(root, View().blocks, id)
      ensures k == FirstIncoherent(path, View().coherent)
    {
      ghost var f := View();
      PathIsLinked(root, f.blocks, id);
      k := 0;
      while k < |path|
        invariant k <= |path|
        invariant forall i :: 0 <= i < k ==> path[i].Id() in f.coherent
      {
        assert path[k] in path;
        if !tree.entries[path[k].Id()].isCoherent {  // expect: block doesn't exist
          break;
        }
        k := k + 1;
      }
      FirstIncoherentIs(path, f.coherent, k);
    }

    /** The work queue of the update, from `start` downwards. */
    method Flip(start: BlockId, policy: Policy) returns (report: seq<Block>)
      requires Indexed() && FlipStart(View(), start)
      modifies tree
      ensures Indexed() && View().blocks == old(View()).blocks
      ensures View().coherent == old(View()).coherent + NewlyCoherent(root, View().blocks, policy, start)
      ensures Lists(Ids(report), View().coherent - old(View()).coherent)
      ensures ParentsFirst(old(View()), report)
    {
      ghost var f := View();
      ghost var e0 := tree.entries;
      report := [];
      var queue := [start];
      ghost var pending, visited, flipped := {start}, {}, {};
      FlipBegin(f, e0, policy, start);
      while queue != []
        invariant tree.Valid() && FlipState(f, e0, policy, start, tree.entries, queue, report, pending, visited, flipped)
        decreases f.blocks.Keys - visited
      {
        var next := queue[0];
        FlipNext(f, e0, policy, start, tree.entries, queue, report, pending, visited, flipped);
        queue := queue[1..];
        var passed, block := CheckNext(next, policy);
        if passed {
          report := report + [block];
          queue := queue + tree.entries[next].children;
          pending := pending - {next} + ChildrenOf(f.blocks, next);
          flipped := flipped + {next};
        } else {
          pending := pending - {next};
        }
        visited := visited + {next};
      }
      FlipEnd(f, e0, policy, start, tree.entries, report, pending, visited, flipped);
    }

    /** One turn of the update: check `next` against the blocks it extends, and mark it. */
    method CheckNext(next: BlockId, policy: Policy) returns (passed: bool, block: Block)
      requires tree.Valid() && WellFormed(View())
      requires next in View().blocks && PathFromRoot(root, View().blocks, next).Some?
      modifies tree
      ensures tree.Valid()
      ensures passed <==> CheckPasses(root, old(View()).blocks, policy, next)
      ensures block == old(View()).blocks[next]
      ensures tree.entries == if passed then SetFlag(old(tree.entries), next) else old(tree.entries)
    {
      var extending := GetBlocksOnPathFromRoot(next);  // expect: path to root must exist
      PathEndsAt(View(), next);
      var n := |extending.value|;
      block := extending.value[n - 1];                 // expect: next_block is included in path_from_root
      passed := policy(block, extending.value[..n - 1], root).Coherent?;
      if passed {
        var found := tree.SetCoherent(next, true);     // expect: should be in tree
      }
    }

    // ---- queries

    method IsCoherentBlock(id: BlockId) returns (r: bool)
      ensures r <==> IsCoherent(View(), id)
    {
      if id == root.blockId {
        return true;
      }
      if id in tree.entries {
        return tree.entries[id].isCoherent;
      }
      return false;
    }

    method GetBlocksOnPathFromRoot(id: BlockId) returns (path: Option<seq<Block>>)
      requires WellFormed(View())
      ensures path == PathFromRoot(root, View().blocks, id)
    {
      if id == root.blockId {
        return Some([]);
      }
      ghost var blocks := View().blocks;
      var walked := [];
      var visit := id;
      ExtendNone(PathFromRoot(root, blocks, id));
      while visit in tree.entries
        invariant visit != root.blockId
        invariant PathFromRoot(root, blocks, id) == Extend(PathFromRoot(root, blocks, visit), Reversed(walked))
        decreases Height(blocks, visit)
      {
        var block := tree.entries[visit].block;
        assert blocks[visit] == block;
        ExtendStep(root, blocks, visit, Reversed(walked));
        ReversedSnoc(walked, block);
        walked := walked + [block];
        if block.ParentId() == root.blockId {
          assert [] + Reversed(walked) == Reversed(walked);
          return Some(Reversed(walked));
        }
        visit := block.ParentId();
      }
      return None;
    }

    /** The chain of ancestors of `id` inside the tree, lowest round first, ending at `id`;
        it need not reach the root, and it does not stop short of any ancestor it could reach. */
    method GetParentBlockChain(id: BlockId) returns (chain: seq<Block>)
      requires WellFormed(View())
      ensures chain == [] <==> id !in View().blocks
      ensures chain != [] ==> chain[|chain| - 1].Id() == id && chain[0].ParentId() !in View().blocks
      ensures forall b :: b in chain ==> b.Id() in View().blocks && View().blocks[b.Id()] == b
      ensures IsChain(chain)
    {
      if id !in tree.entries {
        return [];
      }
      ghost var blocks := View().blocks;
      var last := tree.entries[id].block;
      chain := [last];
      assert blocks[id] == last;
      while last.ParentId() in tree.entries
        invariant chain != [] && chain[0].Id() == id && last == chain[|chain| - 1]
        invariant forall i :: 0 <= i < |chain| ==> chain[i].Id() in blocks && blocks[chain[i].Id()] == chain[i]
        invariant IsChain(Reversed(chain))
        decreases last.Round()
      {
        ghost var child := last;
        last := tree.entries[last.ParentId()].block;
        assert blocks[child.ParentId()] == last;
        ReversedSnoc(chain, last);
        ChainCons(last, Reversed(chain));
        chain := chain + [last];
      }
      ReversedMember(chain);
      chain := Reversed(chain);
    }

    /** The highest QC, among blocks connected to the root, that commits something new. */
    method GetHighCommittableQc() returns (high: Option<QuorumCertificate>)
      requires Indexed()
      ensures IsHighestCommittable(View(), high)
    {
      ghost var f := View();
      high := None;
      var queue := rootChildren;
      ghost var pending, visited := ChildrenOf(f.blocks, root.blockId), {};
      SearchStart(f);
      while queue != []
        invariant Lists(queue, pending)
        invariant SearchProgress(f, pending, visited)
        invariant Highest(f, visited, high)
        decreases f.blocks.Keys - visited
      {
        var id := queue[0];
        SearchNext(f, tree.entries, queue, pending, visited, high);
        var block := tree.entries[id].block;  // expect: block in tree
        queue := queue[1..] + tree.entries[id].children;
        pending := pending - {id} + ChildrenOf(f.blocks, id);
        visited := visited + {id};
        if high.None? || high.value.Round() < block.header.qc.Round() {
          var commits := QcCommitsAboveRoot(block.header.qc);
          if commits {
            high := Some(block.header.qc);
          }
        }
      }
      ListsMember(queue, pending);
      SearchEnd(f, visited, high);
      assert View() == f;
    }

    /** The certified block is in the tree, the commit rule holds, and what it commits is
        coherent and not the root already. */
    method QcCommitsAboveRoot(qc: QuorumCertificate) returns (r: bool)
      requires WellFormed(View())
      ensures r <==> CommitsAboveRoot(View(), qc)
    {
      if qc.BlockId() !in tree.entries {
        return false;
      }
      assert View().blocks[qc.BlockId()] == tree.entries[qc.BlockId()].block;
      var target := CommittableId(qc, tree.entries[qc.BlockId()].block.header);
      if target.None? || target.value == root.blockId {
        return false;
      }
      r := IsCoherentBlock(target.value);
    }

    /** Which blocks to fetch so that `qc`'s block gets a path to the root.  The subtraction
        of sequence numbers panics when a block passed on the way up is below the root. */
    method MaybeFillPathToRoot(qc: QuorumCertificate) returns (r: FillResult)
      requires WellFormed(View())
      ensures r.SeqNumUnderflow? <==> AboveRoot(View(), qc) && !SeqNumsAboveRoot(View(), qc.BlockId())
      ensures !r.SeqNumUnderflow? ==>
        (r.NothingToFill? <==> !AboveRoot(View(), qc) || PathFromRoot(root, View().blocks, qc.BlockId()).Some?)
      ensures r.Fill? ==> r.range.numBlocks >= 1 && r.range.lastBlockId != root.blockId
      ensures r.Fill? ==> forall a :: Ancestor(root, View().blocks, qc.BlockId(), a) && a !in View().blocks
                                      <==> a == r.range.lastBlockId
      ensures r.Fill? ==> CountsMissing(View(), qc.BlockId(), r.range.lastBlockId, r.range.numBlocks)
    {
      ghost var f := View();
      if root.round >= qc.Round() || root.blockId == qc.BlockId() {
        return NothingToFill;
      }
      var id := qc.BlockId();
      var numBlocks := 1;
      while id in tree.entries
        invariant id != root.blockId && numBlocks >= 1
        invariant Ancestor(root, f.blocks, qc.BlockId(), id)
        invariant CountsMissing(f, qc.BlockId(), id, numBlocks)
        invariant PathFromRoot(root, f.blocks, qc.BlockId()).Some? <==> PathFromRoot(root, f.blocks, id).Some?
        invariant forall a :: Ancestor(root, f.blocks, qc.BlockId(), a) && !Ancestor(root, f.blocks, id, a) ==>
          a in f.blocks && SeqNumAboveRoot(f, a)
        decreases Height(f.blocks, id)
      {
        var block := tree.entries[id].block;
        assert f.blocks[id] == block;
        AncestorStep(root, f.blocks, qc.BlockId(), id);
        if block.ParentId() == root.blockId {
          return NothingToFill;
        }
        if block.SeqNum() < root.seqNum {
          return SeqNumUnderflow;
        }
        assert LowestPassed(f, qc.BlockId(), id, block.ParentId());
        id := block.ParentId();
        numBlocks := if block.SeqNum() - root.seqNum < 2 then 1 else block.SeqNum() - root.seqNum - 1;
      }
      r := Fill(BlockRange(id, numBlocks));
    }
  }

  /** `NoPathToRoot` is a panic. */
  datatype PruneResult = Committed(blocks: seq<Block>) | NoPathToRoot

  datatype FillResult = NothingToFill | Fill(range: BlockRange) | SeqNumUnderflow

  // ---- facts used by the methods

  lemma RootChildrenAdded(blocks: Blocks, block: Block, rootId: BlockId, children: seq<BlockId>)
    requires block.Id() !in blocks && Lists(children, ChildrenOf(blocks, rootId))
    ensures Lists(if block.ParentId() == rootId then children + [block.Id()] else children,
                  ChildrenOf(blocks[block.Id() := block], rootId))
  {
    ChildrenOfInserted(blocks, block, rootId);
    if block.ParentId() == rootId {
      ListsSnoc(children, ChildrenOf(blocks, rootId), block.Id());
    } else {
      assert ChildrenOf(blocks[block.Id() := block], rootId) == ChildrenOf(blocks, rootId);
    }
  }

  ghost function IdsFrom(path: seq<Block>, m: nat): set<BlockId>
    requires m <= |path|
  {
    set i | m <= i < |path| :: path[i].Id()
  }

  lemma IdsFromStep(path: seq<Block>, m: nat)
    requires m < |path| && DistinctIds(path)
    ensures IdsFrom(path, m) == IdsFrom(path, m + 1) + {path[m].Id()}
    ensures path[m].Id() !in IdsFrom(path, m + 1)
  {
  }

  /** `path` leads from just above the root to `newRoot` through coherent entries. */
  ghost predicate CoherentChain(entries: Entries, rootId: BlockId, newRoot: BlockId, path: seq<Block>) {
    && path != [] && path[|path| - 1].Id() == newRoot && path[0].ParentId() == rootId
    && DistinctIds(path) && IsChain(path)
    && (forall i :: 0 <= i < |path| ==>
          path[i].Id() in entries && entries[path[i].Id()].isCoherent && entries[path[i].Id()].block == path[i])
    && (forall i :: 0 <= i < |path| ==> path[i].Id() != rootId)
  }

  lemma CommitChain(f: Forest, entries: Entries, newRoot: BlockId, path: seq<Block>)
    requires WellFormed(f) && Rooted(f) && newRoot in f.coherent && ViewOf(f, entries)
    requires Some(path) == PathFromRoot(f.root, f.blocks, newRoot)
    ensures CoherentChain(entries, f.root.blockId, newRoot, path)
  {
    RootedPath(f, newRoot);
    PathIsLinked(f.root, f.blocks, newRoot);
    LinkedIsDistinct(f.root.blockId, f.root.round, path);
    forall i | 0 <= i < |path|
      ensures path[i].Id() in entries && entries[path[i].Id()].isCoherent && entries[path[i].Id()].block == path[i]
      ensures path[i].Id() != f.root.blockId
    {
      assert path[i] in path && f.blocks[path[i].Id()] == path[i];
    }
  }

  ghost predicate PartOf(entries: Entries, before: Entries) {
    forall id :: id in entries ==> id in before && entries[id] == before[id]
  }

  ghost predicate Known(before: Entries, entry: Entry) {
    entry.block.Id() in before && before[entry.block.Id()] == entry
  }

  /** The walk up `path` is at position `m`. */
  ghost predicate Walked(before: Entries, path: seq<Block>, m: int, entry: Entry, commit: seq<Block>, entries: Entries) {
    0 <= m < |path| && entry.block == path[m] && Reversed(commit) == path[m..] && entries == before - IdsFrom(path, m)
  }

  lemma WalkDone(before: Entries, rootId: BlockId, newRoot: BlockId, f: Forest, path: Option<seq<Block>>, m: int,
                 entry: Entry, commit: seq<Block>, entries: Entries)
    requires WellFormed(f) && ViewOf(f, before) && rootId == f.root.blockId
    requires Known(before, entry) && entry.block.ParentId() == rootId
    requires path.Some? ==> Walked(before, path.value, m, entry, commit, entries) && CoherentChain(before, rootId, newRoot, path.value)
    requires path.None? ==> PathFromRoot(f.root, f.blocks, entry.block.Id()).None?
    ensures path.Some? && Reversed(commit) == path.value && entries == before - IdsFrom(path.value, 0)
  {
    assert PathFromRoot(f.root, f.blocks, f.root.blockId) == Some([]);
    assert f.blocks[entry.block.Id()] == entry.block;
    assert m > 0 ==> path.value[m].ParentId() == path.value[m - 1].Id();
    assert path.value[m..] == path.value;
  }

  /** The entry that starts the walk. */
  lemma RemoveLast(before: Entries, path: seq<Block>, newRoot: BlockId)
    requires path != [] && DistinctIds(path) && newRoot in before && path[|path| - 1] == before[newRoot].block
    requires path[|path| - 1].Id() == newRoot
    ensures before - {newRoot} == before - IdsFrom(path, |path| - 1)
    ensures Reversed([before[newRoot].block]) == path[|path| - 1..]
  {
  }

  /** The next entry of the walk is still there, is coherent, and comes off next. */
  lemma RemoveNext(before: Entries, rootId: BlockId, newRoot: BlockId, path: seq<Block>, m: int)
    requires CoherentChain(before, rootId, newRoot, path)
    requires -1 <= m < |path| - 1 && path[m + 1].ParentId() != rootId
    ensures m >= 0
    ensures var id := path[m + 1].ParentId();
      && id in before - IdsFrom(path, m + 1) && before[id].block == path[m] && before[id].isCoherent
      && before - IdsFrom(path, m + 1) - {id} == before - IdsFrom(path, m)
      && [path[m]] + path[m + 1..] == path[m..]
  {
    assert path[m + 1].ParentId() == path[m].Id();
    IdsFromStep(path, m);
  }

  lemma CollectStep(entries: Entries, id: BlockId, children: seq<BlockId>, rest: set<BlockId>, c: BlockId)
    requires c in rest && rest <= entries.Keys && Lists(children, ChildrenOf(BlocksOf(entries), id) - rest)
    ensures Lists(if entries[c].block.ParentId() == id then children + [c] else children,
                  ChildrenOf(BlocksOf(entries), id) - (rest - {c}))
  {
  }

  /** The blocks of the committed path are among those certified below the new root. */
  lemma PathIsBelow(f: Forest, newRoot: BlockId, path: seq<Block>)
    requires WellFormed(f) && Rooted(f) && newRoot in f.coherent && newRoot != f.root.blockId
    requires Some(path) == PathFromRoot(f.root, f.blocks, newRoot)
    ensures IdsFrom(path, 0) !! Survivors(f.blocks, f.blocks[newRoot].Round()).Keys
  {
    PruneCommitsPath(f, newRoot);
    forall id | id in IdsFrom(path, 0)
      ensures id !in Survivors(f.blocks, f.blocks[newRoot].Round())
    {
      var i :| 0 <= i < |path| && path[i].Id() == id;
      assert path[i] in path;
    }
  }

  lemma PrunedEntries(f: Forest, before: Entries, newRoot: BlockId, path: seq<Block>, after: Entries)
    requires WellFormed(f) && Rooted(f) && newRoot in f.coherent && newRoot != f.root.blockId
    requires ViewOf(f, before) && ChildrenExact(before)
    requires Some(path) == PathFromRoot(f.root, f.blocks, newRoot)
    requires var left := before - IdsFrom(path, 0);
      after == map id | id in left && left[id].block.ParentRound() >= before[newRoot].block.Round() :: left[id]
    ensures BlocksOf(after) == Survivors(f.blocks, f.blocks[newRoot].Round())
    ensures CoherentOf(after) == f.coherent * BlocksOf(after).Keys
    ensures ChildrenExact(after)
    ensures Lists(before[newRoot].children, ChildrenOf(BlocksOf(after), newRoot))
  {
    PathIsBelow(f, newRoot, path);
    var round := before[newRoot].block.Round();
    var kept := map id | id in before && before[id].block.ParentRound() >= round :: before[id];
    KeptView(f, before, round);
    assert after == kept;
    PruneKeepsChildren(before, newRoot, kept);
  }

  lemma PruneOutcome(f: Forest, newRoot: BlockId)
    requires WellFormed(f) && Rooted(f) && IsCoherent(f, newRoot)
    requires PathFromRoot(f.root, f.blocks, newRoot).Some?
    ensures WellFormed(BlockForest.Prune(f, newRoot).0) && Rooted(BlockForest.Prune(f, newRoot).0)
    ensures PrefixClosed(f) ==> (PrefixClosed(BlockForest.Prune(f, newRoot).0) <==> SurvivorsDescend(f, newRoot))
  {
    PruneCommitsPath(f, newRoot);
    PruneKeepsRooted(f, newRoot);
    if PrefixClosed(f) {
      PruneKeepsClosureIff(f, newRoot);
    }
  }

  lemma KeptView(f: Forest, before: Entries, round: Round)
    requires ViewOf(f, before)
    ensures var kept := map id | id in before && before[id].block.ParentRound() >= round :: before[id];
      BlocksOf(kept) == Survivors(f.blocks, round) && CoherentOf(kept) == f.coherent * kept.Keys
  {
  }

  // ---- coherency updates

  lemma FirstIncoherentIs(path: seq<Block>, coherent: set<BlockId>, k: nat)
    requires k <= |path|
    requires forall i :: 0 <= i < k ==> path[i].Id() in coherent
    requires k < |path| ==> path[k].Id() !in coherent
    ensures k == FirstIncoherent(path, coherent)
  {
  }

  ghost predicate SameButFlipped(before: Entries, after: Entries, flipped: set<BlockId>) {
    && after.Keys == before.Keys
    && flipped <= before.Keys
    && forall id :: id in before ==>
         after[id] == before[id].(isCoherent := before[id].isCoherent || id in flipped)
  }

  lemma FlippedView(before: Entries, after: Entries, flipped: set<BlockId>)
    requires SameButFlipped(before, after, flipped)
    ensures BlocksOf(after) == BlocksOf(before)
    ensures CoherentOf(after) == CoherentOf(before) + flipped
  {
  }

  function SetFlag(entries: Entries, id: BlockId): Entries
    requires id in entries
  {
    entries[id := entries[id].(isCoherent := true)]
  }

  /** Where a coherency update stands, with its work queue and its report. */
  ghost predicate FlipState(f: Forest, before: Entries, policy: Policy, start: BlockId,
                            entries: Entries, queue: seq<BlockId>, report: seq<Block>,
                            pending: set<BlockId>, visited: set<BlockId>, flipped: set<BlockId>)
    requires WellFormed(f)
  {
    && SameButFlipped(before, entries, flipped)
    && Lists(queue, pending)
    && Lists(Ids(report), flipped)
    && ParentsFirst(f, report)
    && FlipProgress(f, policy, start, pending, visited, flipped)
  }

  ghost predicate ViewOf(f: Forest, entries: Entries) {
    f.blocks == BlocksOf(entries) && f.coherent == CoherentOf(entries)
  }

  lemma FlipBegin(f: Forest, before: Entries, policy: Policy, start: BlockId)
    requires FlipStart(f, start) && ViewOf(f, before)
    ensures FlipState(f, before, policy, start, before, [start], [], {start}, {}, {})
  {
  }

  lemma FlipNext(f: Forest, before: Entries, policy: Policy, start: BlockId,
                 entries: Entries, queue: seq<BlockId>, report: seq<Block>,
                 pending: set<BlockId>, visited: set<BlockId>, flipped: set<BlockId>)
    requires FlipStart(f, start) && ViewOf(f, before) && ChildrenExact(before) && queue != []
    requires FlipState(f, before, policy, start, entries, queue, report, pending, visited, flipped)
    ensures var next := queue[0];
      && next in f.blocks && next !in visited && next in entries
      && BlocksOf(entries) == f.blocks && CoherentOf(entries) <= f.blocks.Keys
      && PathFromRoot(f.root, f.blocks, next).Some?
      && (CheckPasses(f.root, f.blocks, policy, next) ==>
            FlipState(f, before, policy, start, SetFlag(entries, next), queue[1..] + entries[next].children,
                      report + [f.blocks[next]], pending - {next} + ChildrenOf(f.blocks, next), visited + {next}, flipped + {next}))
      && (!CheckPasses(f.root, f.blocks, policy, next) ==>
            FlipState(f, before, policy, start, entries, queue[1..], report, pending - {next}, visited + {next}, flipped))
  {
    var next := queue[0];
    ListsHead(queue, pending);
    FlippedView(before, entries, flipped);
    NextToFlip(f, policy, start, pending, visited, flipped, next);
    if CheckPasses(f.root, f.blocks, policy, next) {
      FlipPass(f, policy, start, pending, visited, flipped, next);
      FlippedMore(before, entries, flipped, next);
      ListsAppend(queue[1..], pending - {next}, entries[next].children, ChildrenOf(f.blocks, next));
      ListsMember(Ids(report), flipped);
      ListsSnoc(Ids(report), flipped, next);
      ParentsFirstSnoc(f, report, f.blocks[next]);
    } else {
      FlipFail(f, policy, start, pending, visited, flipped, next);
    }
  }

  lemma FlippedMore(before: Entries, entries: Entries, flipped: set<BlockId>, id: BlockId)
    requires SameButFlipped(before, entries, flipped) && id in before
    ensures SameButFlipped(before, SetFlag(entries, id), flipped + {id})
  {
  }

  lemma FlipEnd(f: Forest, before: Entries, policy: Policy, start: BlockId, entries: Entries, report: seq<Block>,
                pending: set<BlockId>, visited: set<BlockId>, flipped: set<BlockId>)
    requires FlipStart(f, start) && ViewOf(f, before) && ChildrenExact(before)
    requires FlipState(f, before, policy, start, entries, [], report, pending, visited, flipped)
    ensures BlocksOf(entries) == f.blocks && ChildrenExact(entries)
    ensures CoherentOf(entries) == f.coherent + NewlyCoherent(f.root, f.blocks, policy, start)
    ensures Lists(Ids(report), CoherentOf(entries) - f.coherent)
  {
    ListsMember<BlockId>([], pending);
    FlipDone(f, policy, start, visited, flipped);
    FlippedView(before, entries, flipped);
    assert CoherentOf(entries) - f.coherent == flipped;
  }

  lemma PathEndsAt(f: Forest, id: BlockId)
    requires WellFormed(f) && id in f.blocks && PathFromRoot(f.root, f.blocks, id).Some?
    ensures var p := PathFromRoot(f.root, f.blocks, id).value; p != [] && p[|p| - 1] == f.blocks[id]
  {
  }

  // ---- the search for a QC

  lemma SearchNext(f: Forest, entries: Entries, queue: seq<BlockId>,
                   pending: set<BlockId>, visited: set<BlockId>, high: Option<QuorumCertificate>)
    requires WellFormed(f) && ViewOf(f, entries) && ChildrenExact(entries) && queue != []
    requires Lists(queue, pending) && SearchProgress(f, pending, visited) && Highest(f, visited, high)
    ensures var next := queue[0];
      && next in entries && entries[next].block == f.blocks[next] && next !in visited
      && Lists(queue[1..] + entries[next].children, pending - {next} + ChildrenOf(f.blocks, next))
      && SearchProgress(f, pending - {next} + ChildrenOf(f.blocks, next), visited + {next})
      && var qc := f.blocks[next].header.qc;
         Highest(f, visited + {next},
                 if (high.Some? && high.value.Round() >= qc.Round()) || !CommitsAboveRoot(f, qc) then high else Some(qc))
  {
    var next := queue[0];
    ListsHead(queue, pending);
    SearchStep(f, pending, visited, next);
    HighestStep(f, visited, high, next);
    ListsAppend(queue[1..], pending - {next}, entries[next].children, ChildrenOf(f.blocks, next));
  }

  // ---- walks

  ghost function Extend(p: Option<seq<Block>>, rest: seq<Block>): Option<seq<Block>> {
    match p
    case None => None
    case Some(q) => Some(q + rest)
  }

  lemma ExtendNone(p: Option<seq<Block>>)
    ensures Extend(p, Reversed([])) == p
  {
    if p.Some? {
      assert p.value + [] == p.value;
    }
  }

  lemma ExtendStep(root: RootInfo, blocks: Blocks, id: BlockId, rest: seq<Block>)
    requires ValidBlocks(root, blocks) && id in blocks && id != root.blockId
    ensures Extend(PathFromRoot(root, blocks, id), rest)
            == Extend(PathFromRoot(root, blocks, blocks[id].ParentId()), [blocks[id]] + rest)
  {
    var p := PathFromRoot(root, blocks, blocks[id].ParentId());
    if p.Some? {
      assert p.value + [blocks[id]] + rest == p.value + ([blocks[id]] + rest);
    }
  }

  predicate IsChain(s: seq<Block>) {
    forall i :: 0 < i < |s| ==> s[i].ParentId() == s[i - 1].Id()
  }

  lemma ChainCons(b: Block, s: seq<Block>)
    requires IsChain(s) && s != [] && s[0].ParentId() == b.Id()
    ensures IsChain([b] + s)
  {
  }
}
