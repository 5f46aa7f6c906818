/** What the block tree stores, as a value: a committed root, a map of uncommitted blocks
and the set of those that are coherent.  The children and payload indexes of the block
tree are not part of this value; `BlockTrees` keeps them consistent with it. */
module BlockForest {
  import opened ConsensusTypes

  type Blocks = map<BlockId, Block>

  datatype Forest = Forest(root: RootInfo, blocks: Blocks, coherent: set<BlockId>)

  ghost predicate ValidBlocks(root: RootInfo, blocks: Blocks) {
    && ValidRoot(root)
    && forall id :: id in blocks ==>
         blocks[id].Id() == id && ValidBlock(blocks[id]) && root.round < blocks[id].Round()
  }

  ghost predicate WellFormed(f: Forest) {
    && ValidBlocks(f.root, f.blocks)
    && f.coherent <= f.blocks.Keys
  }

  /** Every coherent block extends the root or another coherent block. */
  ghost predicate PrefixClosed(f: Forest) {
    forall id :: id in f.coherent ==>
      id in f.blocks && (f.blocks[id].ParentId() == f.root.blockId || f.blocks[id].ParentId() in f.coherent)
  }

  predicate IsCoherent(f: Forest, id: BlockId) {
    id == f.root.blockId || id in f.coherent
  }

  /** Whether `id` is `ancestor` or a descendant, as the headers say: a header names its parent,
      so this does not depend on which blocks are in the forest. */
  predicate Extends(ancestor: BlockId, id: BlockId) {
    id == ancestor || (id.HashOf? && Extends(ancestor, id.header.qc.info.id))
  }

  /** Every coherent block extends the root or another coherent block, unless it is lost: its
      ancestors miss the root, so that no block added later can connect it. */
  ghost predicate Rooted(f: Forest) {
    forall id :: id in f.coherent ==>
      && id in f.blocks
      && (Extends(f.root.blockId, id) ==> IsCoherent(f, f.blocks[id].ParentId()))
  }

  function Depth(id: BlockId): nat {
    if id.HashOf? then 1 + Depth(id.header.qc.info.id) else 0
  }

  lemma {:induction false} ExtendsIsDeeper(ancestor: BlockId, id: BlockId)
    requires Extends(ancestor, id)
    ensures id == ancestor || Depth(ancestor) < Depth(id)
    decreases id
  {
    if id == ancestor {
    } else {
      ExtendsIsDeeper(ancestor, id.header.qc.info.id);
    }
  }

  lemma {:induction false} ExtendsTransitive(a: BlockId, b: BlockId, c: BlockId)
    requires Extends(a, b) && Extends(b, c)
    ensures Extends(a, c)
    decreases c
  {
    if c == b {
    } else {
      ExtendsTransitive(a, b, c.header.qc.info.id);
    }
  }

  function Height(blocks: Blocks, id: BlockId): nat {
    if id in blocks then blocks[id].Round() else 0
  }

  lemma ParentIsLower(root: RootInfo, blocks: Blocks, id: BlockId)
    requires ValidBlocks(root, blocks) && id in blocks
    ensures Height(blocks, blocks[id].ParentId()) <= blocks[id].ParentRound() < Height(blocks, id)
  {
  }

  // ---- paths

  /** The blocks from just above the root to `id`, lowest round first. */
  function PathFromRoot(root: RootInfo, blocks: Blocks, id: BlockId): (p: Option<seq<Block>>)
    requires ValidBlocks(root, blocks)
    decreases Height(blocks, id)
  {
    if id == root.blockId then Some([])
    else if id !in blocks then None
    else
      match PathFromRoot(root, blocks, blocks[id].ParentId())
      case None => None
      case Some(p) => Some(p + [blocks[id]])
  }

  /** `s` is a chain of blocks growing out of block `parent` of round `round`. */
  predicate LinkedFrom(parent: BlockId, round: Round, s: seq<Block>) {
    && (s != [] ==> s[0].ParentId() == parent && s[0].Round() > round)
    && forall i :: 0 < i < |s| ==> s[i].ParentId() == s[i - 1].Id() && s[i].Round() > s[i - 1].Round()
  }

  function TipId(parent: BlockId, s: seq<Block>): BlockId {
    if s == [] then parent else s[|s| - 1].Id()
  }

  function TipRound(round: Round, s: seq<Block>): Round {
    if s == [] then round else s[|s| - 1].Round()
  }

  lemma LinkedConcat(parent: BlockId, round: Round, a: seq<Block>, b: seq<Block>)
    requires LinkedFrom(parent, round, a)
    requires LinkedFrom(TipId(parent, a), TipRound(round, a), b)
    ensures LinkedFrom(parent, round, a + b)
    ensures TipId(parent, a + b) == TipId(TipId(parent, a), b)
    ensures TipRound(round, a + b) == TipRound(TipRound(round, a), b)
  {
  }

  lemma {:induction false} LinkedRoundsRise(parent: BlockId, round: Round, s: seq<Block>, i: nat, j: nat)
    requires LinkedFrom(parent, round, s) && i < j < |s|
    ensures round < s[i].Round() < s[j].Round()
    decreases j + i
  {
    assert s[j].Round() > s[j - 1].Round();
    if i + 1 < j {
      LinkedRoundsRise(parent, round, s, i, j - 1);
    } else if i > 0 {
      LinkedRoundsRise(parent, round, s, i - 1, i);
    } else {
      assert s[0].Round() > round;
    }
  }

  ghost predicate DistinctIds(s: seq<Block>) {
    forall i, j :: 0 <= i < j < |s| ==> s[i].Id() != s[j].Id()
  }

  lemma LinkedIsDistinct(parent: BlockId, round: Round, s: seq<Block>)
    requires LinkedFrom(parent, round, s)
    ensures DistinctIds(s)
    ensures forall i :: 0 <= i < |s| ==> round < s[i].Round() <= TipRound(round, s)
  {
    forall i, j | 0 <= i < j < |s| ensures s[i].Round() < s[j].Round() && round < s[i].Round() {
      LinkedRoundsRise(parent, round, s, i, j);
    }
    forall i | 0 <= i < |s| ensures round < s[i].Round() <= TipRound(round, s) {
      if i + 1 < |s| {
        assert s[i].Round() < s[|s| - 1].Round();
      } else {
        assert s[0].Round() > round;
      }
    }
  }

  lemma {:induction false} PathIsLinked(root: RootInfo, blocks: Blocks, id: BlockId)
    requires ValidBlocks(root, blocks)
    requires PathFromRoot(root, blocks, id).Some?
    ensures var p := PathFromRoot(root, blocks, id).value;
      && LinkedFrom(root.blockId, root.round, p)
      && TipId(root.blockId, p) == id
      && TipRound(root.round, p) == (if id == root.blockId then root.round else blocks[id].Round())
      && forall b :: b in p ==> b.Id() in blocks && blocks[b.Id()] == b
    decreases Height(blocks, id)
  {
    if id == root.blockId {
    } else {
      var parent := blocks[id].ParentId();
      PathIsLinked(root, blocks, parent);
      var p := PathFromRoot(root, blocks, parent).value;
      LinkedConcat(root.blockId, root.round, p, [blocks[id]]);
    }
  }

  lemma {:induction false} CoherentPath(f: Forest, id: BlockId)
    requires WellFormed(f) && PrefixClosed(f) && IsCoherent(f, id)
    ensures PathFromRoot(f.root, f.blocks, id).Some?
    ensures forall b :: b in PathFromRoot(f.root, f.blocks, id).value ==> b.Id() in f.coherent
    decreases Height(f.blocks, id)
  {
    if id == f.root.blockId {
    } else {
      CoherentPath(f, f.blocks[id].ParentId());
    }
  }

  lemma {:induction false} ConnectedExtends(root: RootInfo, blocks: Blocks, id: BlockId)
    requires ValidBlocks(root, blocks) && PathFromRoot(root, blocks, id).Some?
    ensures Extends(root.blockId, id)
    decreases Height(blocks, id)
  {
    if id == root.blockId {
    } else {
      ConnectedExtends(root, blocks, blocks[id].ParentId());
    }
  }

  /** A coherent block has an all-coherent path to the root exactly when it extends the root;
      a block that does not never has a path, whatever is in the forest. */
  lemma {:induction false} RootedPath(f: Forest, id: BlockId)
    requires WellFormed(f) && Rooted(f) && IsCoherent(f, id)
    ensures PathFromRoot(f.root, f.blocks, id).Some? <==> Extends(f.root.blockId, id)
    ensures Extends(f.root.blockId, id) ==>
      forall b :: b in PathFromRoot(f.root, f.blocks, id).value ==> b.Id() in f.coherent
    decreases Height(f.blocks, id)
  {
    if id == f.root.blockId {
    } else if Extends(f.root.blockId, id) {
      RootedPath(f, f.blocks[id].ParentId());
    } else if PathFromRoot(f.root, f.blocks, id).Some? {
      ConnectedExtends(f.root, f.blocks, id);
    }
  }

  lemma {:induction false} OnPathIsConnected(root: RootInfo, blocks: Blocks, id: BlockId, k: nat)
    requires ValidBlocks(root, blocks) && PathFromRoot(root, blocks, id).Some?
    requires k < |PathFromRoot(root, blocks, id).value|
    ensures PathFromRoot(root, blocks, PathFromRoot(root, blocks, id).value[k].Id()).Some?
    decreases Height(blocks, id)
  {
    var parent := blocks[id].ParentId();
    if k == |PathFromRoot(root, blocks, parent).value| {
    } else {
      OnPathIsConnected(root, blocks, parent, k);
    }
  }

  /** `id` is `ancestor` or reaches it through parents that are in the forest. */
  predicate Descends(root: RootInfo, blocks: Blocks, ancestor: BlockId, id: BlockId)
    requires ValidBlocks(root, blocks)
    decreases Height(blocks, id)
  {
    id in blocks && (id == ancestor || Descends(root, blocks, ancestor, blocks[id].ParentId()))
  }

  lemma {:induction false} DescendantsAreHigher(root: RootInfo, blocks: Blocks, ancestor: BlockId, id: BlockId)
    requires ValidBlocks(root, blocks) && ancestor in blocks
    requires Descends(root, blocks, ancestor, id)
    ensures id == ancestor || blocks[id].ParentRound() >= blocks[ancestor].Round()
    decreases Height(blocks, id)
  {
    if id == ancestor {
    } else {
      ParentIsLower(root, blocks, id);
      DescendantsAreHigher(root, blocks, ancestor, blocks[id].ParentId());
    }
  }

  /** In a connected block's ancestry, headers and forest agree. */
  lemma {:induction false} ExtendsDescends(root: RootInfo, blocks: Blocks, ancestor: BlockId, id: BlockId)
    requires ValidBlocks(root, blocks) && PathFromRoot(root, blocks, id).Some? && Extends(ancestor, id)
    requires Extends(root.blockId, ancestor) && ancestor != root.blockId
    ensures Descends(root, blocks, ancestor, id)
    decreases Height(blocks, id)
  {
    if id == root.blockId {
      ExtendsIsDeeper(ancestor, id);
      ExtendsIsDeeper(id, ancestor);
      assert false;
    } else if id == ancestor {
    } else {
      ExtendsDescends(root, blocks, ancestor, blocks[id].ParentId());
    }
  }

  // ---- adding a block

  predicate ValidToInsert(f: Forest, b: Block) {
    b.Id() !in f.blocks && b.Round() > f.root.round
  }

  function Add(f: Forest, b: Block): (g: Forest) {
    if ValidToInsert(f, b) then f.(blocks := f.blocks[b.Id() := b]) else f
  }

  lemma AddKeeps(f: Forest, b: Block)
    requires WellFormed(f) && Rooted(f) && ValidBlock(b)
    ensures WellFormed(Add(f, b)) && Rooted(Add(f, b))
    ensures PrefixClosed(f) ==> PrefixClosed(Add(f, b))
  {
  }

  /** A block enters the forest exactly when its round is above the root's, whether its parent is
      there or not; nothing else changes. */
  lemma AddIsExact(f: Forest, b: Block)
    requires WellFormed(f) && ValidBlock(b)
    ensures Add(f, b).root == f.root && Add(f, b).coherent == f.coherent
    ensures Add(f, b).blocks == if b.Round() > f.root.round then f.blocks[b.Id() := b] else f.blocks
  {
    if b.Id() in f.blocks {
      assert f.blocks[b.Id()] == b;
    }
  }

  function AddAll(f: Forest, bs: seq<Block>): (g: Forest) {
    if bs == [] then f else Add(AddAll(f, bs[..|bs| - 1]), bs[|bs| - 1])
  }

  ghost predicate AllValid(bs: seq<Block>) {
    forall i :: 0 <= i < |bs| ==> ValidBlock(bs[i])
  }

  predicate Enters(f: Forest, bs: seq<Block>, id: BlockId) {
    exists i :: 0 <= i < |bs| && bs[i].Id() == id && bs[i].Round() > f.root.round
  }

  /** `g` is `f` with exactly the blocks of `bs` above the root added. */
  ghost predicate IsWith(f: Forest, bs: seq<Block>, g: Forest) {
    && WellFormed(g) && g.root == f.root && g.coherent == f.coherent
    && (forall id :: id in g.blocks <==> id in f.blocks || Enters(f, bs, id))
    && (forall i :: 0 <= i < |bs| && bs[i].Round() > f.root.round ==> bs[i].Id() in g.blocks && g.blocks[bs[i].Id()] == bs[i])
    && (forall id :: id in f.blocks ==> id in g.blocks && g.blocks[id] == f.blocks[id])
  }

  lemma EntersSnoc(f: Forest, bs: seq<Block>, b: Block, id: BlockId)
    ensures Enters(f, bs + [b], id) <==> Enters(f, bs, id) || (b.Id() == id && b.Round() > f.root.round)
  {
    var all := bs + [b];
    if Enters(f, bs, id) {
      var i :| 0 <= i < |bs| && bs[i].Id() == id && bs[i].Round() > f.root.round;
      assert all[i] == bs[i];
    }
    if b.Id() == id && b.Round() > f.root.round {
      assert all[|bs|] == b;
    }
  }

  lemma WithOneMore(f: Forest, bs: seq<Block>, g: Forest, b: Block)
    requires WellFormed(f) && IsWith(f, bs, g) && ValidBlock(b)
    ensures IsWith(f, bs + [b], Add(g, b))
  {
    AddIsExact(g, b);
    forall id ensures Enters(f, bs + [b], id) <==> Enters(f, bs, id) || (b.Id() == id && b.Round() > f.root.round) {
      EntersSnoc(f, bs, b, id);
    }
  }

  /** Adding blocks one after the other adds each one above the root, and nothing else. */
  lemma {:induction false} AddAllIsExact(f: Forest, bs: seq<Block>)
    requires WellFormed(f) && AllValid(bs)
    ensures IsWith(f, bs, AddAll(f, bs))
    decreases |bs|
  {
    if bs == [] {
    } else {
      var n := |bs| - 1;
      AddAllIsExact(f, bs[..n]);
      WithOneMore(f, bs[..n], AddAll(f, bs[..n]), bs[n]);
      assert bs == bs[..n] + [bs[n]];
    }
  }

  /** Blocks may arrive in any order and more than once: the forest is the same. */
  lemma AddAllIgnoresOrder(f: Forest, bs: seq<Block>, cs: seq<Block>)
    requires WellFormed(f) && AllValid(bs) && AllValid(cs) && forall b :: b in bs <==> b in cs
    ensures AddAll(f, bs) == AddAll(f, cs)
  {
    AddAllIsExact(f, bs);
    AddAllIsExact(f, cs);
    forall id ensures Enters(f, bs, id) <==> Enters(f, cs, id) {
      SameEnter(f, bs, cs, id);
      SameEnter(f, cs, bs, id);
    }
    SameForest(f, bs, cs, AddAll(f, bs), AddAll(f, cs));
  }

  lemma SameForest(f: Forest, bs: seq<Block>, cs: seq<Block>, g: Forest, h: Forest)
    requires IsWith(f, bs, g) && IsWith(f, cs, h) && forall id :: Enters(f, bs, id) <==> Enters(f, cs, id)
    ensures g == h
  {
    assert g.blocks.Keys == h.blocks.Keys;
    forall id | id in g.blocks ensures g.blocks[id] == h.blocks[id] {
      SameBlock(g.blocks[id], h.blocks[id]);
    }
  }

  lemma SameBlock(a: Block, b: Block)
    requires ValidBlock(a) && ValidBlock(b) && a.Id() == b.Id()
    ensures a == b
  {
  }

  lemma SameEnter(f: Forest, bs: seq<Block>, cs: seq<Block>, id: BlockId)
    requires forall b :: b in bs ==> b in cs
    ensures Enters(f, bs, id) ==> Enters(f, cs, id)
  {
    if Enters(f, bs, id) {
      var i :| 0 <= i < |bs| && bs[i].Id() == id && bs[i].Round() > f.root.round;
      assert bs[i] in cs;
    }
  }

  /** `chain` is part of `blocks`, each block under its own id. */
  ghost predicate Holds(blocks: Blocks, chain: seq<Block>) {
    forall i :: 0 <= i < |chain| ==> chain[i].Id() in blocks && blocks[chain[i].Id()] == chain[i]
  }

  lemma PathSnoc(root: RootInfo, blocks: Blocks, path: seq<Block>, b: Block)
    requires ValidBlocks(root, blocks) && b.Id() in blocks && blocks[b.Id()] == b
    requires PathFromRoot(root, blocks, b.ParentId()) == Some(path)
    ensures PathFromRoot(root, blocks, b.Id()) == Some(path + [b])
  {
    assert b.Id() != root.blockId;
  }

  lemma {:induction false} LinkedHasPath(root: RootInfo, blocks: Blocks, chain: seq<Block>)
    requires ValidBlocks(root, blocks) && LinkedFrom(root.blockId, root.round, chain) && Holds(blocks, chain)
    ensures PathFromRoot(root, blocks, TipId(root.blockId, chain)) == Some(chain)
    decreases |chain|
  {
    if chain == [] {
    } else {
      var n := |chain| - 1;
      LinkedHasPath(root, blocks, chain[..n]);
      PathSnoc(root, blocks, chain[..n], chain[n]);
      assert chain == chain[..n] + [chain[n]];
    }
  }

  /** A chain on the root whose blocks are added, in any order and with others in between, is
      connected. */
  lemma AddedChainIsConnected(f: Forest, bs: seq<Block>, chain: seq<Block>)
    requires WellFormed(f) && AllValid(bs) && LinkedFrom(f.root.blockId, f.root.round, chain)
    requires forall i :: 0 <= i < |chain| ==> chain[i] in bs
    ensures var g := AddAll(f, bs);
      WellFormed(g) && g.root == f.root && PathFromRoot(g.root, g.blocks, TipId(g.root.blockId, chain)) == Some(chain)
  {
    AddAllIsExact(f, bs);
    LinkedIsDistinct(f.root.blockId, f.root.round, chain);
    forall i | 0 <= i < |chain| ensures chain[i].Id() in AddAll(f, bs).blocks && AddAll(f, bs).blocks[chain[i].Id()] == chain[i] {
      var k :| 0 <= k < |bs| && bs[k] == chain[i];
    }
    LinkedHasPath(f.root, AddAll(f, bs).blocks, chain);
  }

  // ---- coherency

  /** The policy accepts `id` on top of its own path from the root. */
  predicate CheckPasses(root: RootInfo, blocks: Blocks, policy: Policy, id: BlockId)
    requires ValidBlocks(root, blocks)
  {
    id in blocks && PathFromRoot(root, blocks, id).Some? &&
    var p := PathFromRoot(root, blocks, id).value;
    p != [] && policy(blocks[id], p[..|p| - 1], root).Coherent?
  }

  /** Every block from `start` down to `id` passes. */
  predicate AllPass(root: RootInfo, blocks: Blocks, policy: Policy, start: BlockId, id: BlockId)
    requires ValidBlocks(root, blocks)
    decreases Height(blocks, id)
  {
    && CheckPasses(root, blocks, policy, id)
    && (id == start || AllPass(root, blocks, policy, start, blocks[id].ParentId()))
  }

  function NewlyCoherent(root: RootInfo, blocks: Blocks, policy: Policy, start: BlockId): (s: set<BlockId>)
    requires ValidBlocks(root, blocks)
  {
    set id | id in blocks && AllPass(root, blocks, policy, start, id)
  }

  /** The first block of a path that is not coherent yet. */
  function FirstIncoherent(path: seq<Block>, coherent: set<BlockId>): (k: nat)
    ensures k <= |path|
    ensures forall i :: 0 <= i < k ==> path[i].Id() in coherent
    ensures k < |path| ==> path[k].Id() !in coherent
  {
    if path == [] || path[0].Id() !in coherent then 0 else 1 + FirstIncoherent(path[1..], coherent)
  }

  function UpdateCoherency(f: Forest, id: BlockId, policy: Policy): (g: Forest)
    requires WellFormed(f)
  {
    match PathFromRoot(f.root, f.blocks, id)
    case None => f
    case Some(path) =>
      var k := FirstIncoherent(path, f.coherent);
      if k == |path| then f
      else f.(coherent := f.coherent + NewlyCoherent(f.root, f.blocks, policy, path[k].Id()))
  }

  /** The first incoherent block of a path extends the root or a coherent block. */
  lemma StartExtendsCoherent(f: Forest, id: BlockId, k: nat)
    requires WellFormed(f)
    requires PathFromRoot(f.root, f.blocks, id).Some?
    requires k < |PathFromRoot(f.root, f.blocks, id).value|
    requires k == FirstIncoherent(PathFromRoot(f.root, f.blocks, id).value, f.coherent)
    ensures var p := PathFromRoot(f.root, f.blocks, id).value;
      && p[k].Id() in f.blocks && f.blocks[p[k].Id()] == p[k]
      && IsCoherent(f, p[k].ParentId()) && PathFromRoot(f.root, f.blocks, p[k].Id()).Some?
  {
    OnPathIsConnected(f.root, f.blocks, id, k);
    var p := PathFromRoot(f.root, f.blocks, id).value;
    PathIsLinked(f.root, f.blocks, id);
    assert p[k] in p;
    assert k > 0 ==> p[k - 1].Id() in f.coherent;
  }

  /** An update keeps coherence rooted and prefix-closed, never takes it back, and gives it only
      to blocks the policy accepts on top of an all-coherent path. */
  lemma UpdateKeeps(f: Forest, id: BlockId, policy: Policy)
    requires WellFormed(f) && Rooted(f)
    ensures var g := UpdateCoherency(f, id, policy);
      && WellFormed(g) && Rooted(g) && (PrefixClosed(f) ==> PrefixClosed(g))
      && f.coherent <= g.coherent
      && (forall x :: x in g.coherent - f.coherent ==> CheckPasses(f.root, f.blocks, policy, x))
  {
    var g := UpdateCoherency(f, id, policy);
    if g != f {
      var p := PathFromRoot(f.root, f.blocks, id).value;
      var k := FirstIncoherent(p, f.coherent);
      StartExtendsCoherent(f, id, k);
      var flipped := NewlyCoherent(f.root, f.blocks, policy, p[k].Id());
      forall x | x in flipped
        ensures IsCoherent(g, f.blocks[x].ParentId())
      {
        if x != p[k].Id() {
          assert AllPass(f.root, f.blocks, policy, p[k].Id(), f.blocks[x].ParentId());
          assert f.blocks[x].ParentId() in flipped;
        }
      }
    }
  }

  /** Nothing more to flip: in the subtree that the update visited, a child of a coherent
      block that is still incoherent fails the check. */
  lemma UpdateIsExhaustive(f: Forest, id: BlockId, policy: Policy, x: BlockId)
    requires WellFormed(f) && x in f.blocks
    requires f.blocks[x].ParentId() in UpdateCoherency(f, id, policy).coherent - f.coherent
    requires x !in UpdateCoherency(f, id, policy).coherent
    ensures !CheckPasses(f.root, f.blocks, policy, x)
  {
  }

  /** Every block of the path that is not coherent yet passes the check. */
  ghost predicate RestPasses(f: Forest, policy: Policy, path: seq<Block>)
    requires WellFormed(f)
  {
    forall i :: 0 <= i < |path| && path[i].Id() !in f.coherent ==> CheckPasses(f.root, f.blocks, policy, path[i].Id())
  }

  /** A block turns coherent when it is connected and what is not coherent on its path passes. */
  lemma UpdateReaches(f: Forest, id: BlockId, policy: Policy, path: seq<Block>)
    requires WellFormed(f) && Rooted(f) && id in f.blocks && PathFromRoot(f.root, f.blocks, id) == Some(path)
    requires RestPasses(f, policy, path)
    ensures id in UpdateCoherency(f, id, policy).coherent
  {
    var k := FirstIncoherent(path, f.coherent);
    PathEndsWith(f, id, path);
    if k < |path| {
      PathPasses(f, id, policy, path, k, |path| - 1);
    }
  }

  lemma PathEndsWith(f: Forest, id: BlockId, path: seq<Block>)
    requires WellFormed(f) && id in f.blocks && PathFromRoot(f.root, f.blocks, id) == Some(path)
    ensures path != [] && path[|path| - 1].Id() == id
  {
    assert id != f.root.blockId;
  }

  lemma OnPath(f: Forest, id: BlockId, path: seq<Block>, m: nat)
    requires WellFormed(f) && PathFromRoot(f.root, f.blocks, id) == Some(path) && m < |path|
    ensures path[m].Id() in f.blocks && f.blocks[path[m].Id()] == path[m] && Extends(f.root.blockId, path[m].Id())
    ensures m > 0 ==> path[m].ParentId() == path[m - 1].Id() && path[m].ParentId() != f.root.blockId
  {
    PathIsLinked(f.root, f.blocks, id);
    assert path[m] in path;
    OnPathIsConnected(f.root, f.blocks, id, m);
    ConnectedExtends(f.root, f.blocks, path[m].Id());
    if m > 0 {
      assert path[m - 1] in path;
    }
  }

  /** From its first incoherent block on, no block of a path is coherent, so all pass. */
  lemma {:induction false} PathPasses(f: Forest, id: BlockId, policy: Policy, path: seq<Block>, k: nat, m: nat)
    requires WellFormed(f) && Rooted(f) && PathFromRoot(f.root, f.blocks, id) == Some(path) && RestPasses(f, policy, path)
    requires k <= m < |path| && path[k].Id() !in f.coherent
    ensures path[m].Id() !in f.coherent && AllPass(f.root, f.blocks, policy, path[k].Id(), path[m].Id())
    decreases m
  {
    OnPath(f, id, path, m);
    if m == k {
    } else {
      PathPasses(f, id, policy, path, k, m - 1);
    }
  }

  // ---- pruning

  /** The blocks that survive a commit of `newRoot` are those certified at or above its round. */
  function Survivors(blocks: Blocks, round: Round): (r: Blocks) {
    map id | id in blocks && blocks[id].ParentRound() >= round :: blocks[id]
  }

  /** The new forest and the committed blocks; a commit of a block without a path to the root
      panics. */
  function Prune(f: Forest, newRoot: BlockId): (r: (Forest, seq<Block>))
    requires WellFormed(f) && PathFromRoot(f.root, f.blocks, newRoot).Some?
  {
    if newRoot == f.root.blockId then (f, [])
    else
      var b := f.blocks[newRoot];
      var kept := Survivors(f.blocks, b.Round());
      (Forest(RootOf(b), kept, f.coherent * kept.Keys), PathFromRoot(f.root, f.blocks, newRoot).value)
  }

  /** Coherent blocks that outlive the commit of `newRoot` descend from it. */
  ghost predicate SurvivorsDescend(f: Forest, newRoot: BlockId)
    requires WellFormed(f) && IsCoherent(f, newRoot)
  {
    newRoot != f.root.blockId ==>
      forall x :: x in f.coherent && f.blocks[x].ParentRound() >= f.blocks[newRoot].Round() ==>
        Descends(f.root, f.blocks, newRoot, x)
  }

  /** What the documentation of `prune` relies on: blocks connected to the root that do not
      descend from the new root have smaller rounds. */
  ghost predicate ForksAreLower(f: Forest, newRoot: BlockId)
    requires WellFormed(f) && IsCoherent(f, newRoot)
  {
    newRoot != f.root.blockId ==>
      forall x :: x in f.blocks && PathFromRoot(f.root, f.blocks, x).Some?
                  && !Descends(f.root, f.blocks, newRoot, x) ==>
        f.blocks[x].Round() < f.blocks[newRoot].Round()
  }

  lemma ForksAreLowerSuffices(f: Forest, newRoot: BlockId)
    requires WellFormed(f) && PrefixClosed(f) && IsCoherent(f, newRoot)
    requires ForksAreLower(f, newRoot)
    ensures SurvivorsDescend(f, newRoot)
  {
    if newRoot != f.root.blockId {
      forall x | x in f.coherent && f.blocks[x].ParentRound() >= f.blocks[newRoot].Round()
        ensures Descends(f.root, f.blocks, newRoot, x)
      {
        CoherentPath(f, x);
      }
    }
  }

  /** Pruning raises the root, returns the all-coherent path to the new root, and removes
      every block of that path from the forest. */
  lemma PruneCommitsPath(f: Forest, newRoot: BlockId)
    requires WellFormed(f) && Rooted(f) && IsCoherent(f, newRoot)
    requires PathFromRoot(f.root, f.blocks, newRoot).Some?
    ensures var (g, commit) := Prune(f, newRoot);
      && WellFormed(g)
      && g.root.blockId == newRoot
      && LinkedFrom(f.root.blockId, f.root.round, commit)
      && TipId(f.root.blockId, commit) == newRoot
      && TipRound(f.root.round, commit) == g.root.round
      && (newRoot != f.root.blockId ==> f.root.round < g.root.round)
      && (forall b :: b in commit ==> b.Id() in f.coherent && b.Id() !in g.blocks)
  {
    RootedPath(f, newRoot);
    PathIsLinked(f.root, f.blocks, newRoot);
    var p := PathFromRoot(f.root, f.blocks, newRoot).value;
    if newRoot != f.root.blockId {
      LinkedIsDistinct(f.root.blockId, f.root.round, p);
      var (g, commit) := Prune(f, newRoot);
      forall b | b in commit ensures b.Id() !in g.blocks {
        var i :| 0 <= i < |p| && p[i] == b;
        assert b.ParentRound() < b.Round() <= g.root.round;
      }
    }
  }

  /** What descends from the new root outlives the commit, with its flag. */
  lemma PruneKeepsDescendants(f: Forest, newRoot: BlockId, x: BlockId)
    requires WellFormed(f) && PathFromRoot(f.root, f.blocks, newRoot).Some? && newRoot != f.root.blockId
    requires x != newRoot && Descends(f.root, f.blocks, newRoot, x)
    ensures var g := Prune(f, newRoot).0;
      x in g.blocks && g.blocks[x] == f.blocks[x] && (x in g.coherent <==> x in f.coherent)
  {
    DescendantsAreHigher(f.root, f.blocks, newRoot, x);
  }

  /** Pruning keeps coherence rooted in every case: a coherent survivor either extends the new
      root through coherent blocks, or does not extend it at all. */
  lemma PruneKeepsRooted(f: Forest, newRoot: BlockId)
    requires WellFormed(f) && Rooted(f) && IsCoherent(f, newRoot)
    requires PathFromRoot(f.root, f.blocks, newRoot).Some?
    ensures Rooted(Prune(f, newRoot).0)
  {
    if newRoot != f.root.blockId {
      var g := Prune(f, newRoot).0;
      ConnectedExtends(f.root, f.blocks, newRoot);
      forall x | x in g.coherent && Extends(newRoot, x)
        ensures IsCoherent(g, g.blocks[x].ParentId())
      {
        ExtendsTransitive(f.root.blockId, newRoot, x);
        RootedPath(f, x);
        ExtendsDescends(f.root, f.blocks, newRoot, x);
        SurvivorHasParent(f, newRoot, x);
      }
    }
  }

  /** A connected block is lost by a commit exactly when it does not descend from what is
      committed. */
  lemma LostByPrune(f: Forest, newRoot: BlockId, x: BlockId)
    requires WellFormed(f) && newRoot != f.root.blockId
    requires PathFromRoot(f.root, f.blocks, newRoot).Some? && PathFromRoot(f.root, f.blocks, x).Some?
    ensures Extends(newRoot, x) <==> Descends(f.root, f.blocks, newRoot, x)
  {
    ConnectedExtends(f.root, f.blocks, newRoot);
    if Extends(newRoot, x) {
      ExtendsDescends(f.root, f.blocks, newRoot, x);
    }
    if Descends(f.root, f.blocks, newRoot, x) {
      DescendsExtends(f.root, f.blocks, newRoot, x);
    }
  }

  lemma {:induction false} DescendsExtends(root: RootInfo, blocks: Blocks, ancestor: BlockId, id: BlockId)
    requires ValidBlocks(root, blocks) && Descends(root, blocks, ancestor, id)
    ensures Extends(ancestor, id)
    decreases Height(blocks, id)
  {
    if id == ancestor {
    } else {
      DescendsExtends(root, blocks, ancestor, blocks[id].ParentId());
    }
  }

  /** Pruning keeps coherence prefix-closed exactly when every coherent survivor descends
      from the new root. */
  lemma PruneKeepsClosureIff(f: Forest, newRoot: BlockId)
    requires WellFormed(f) && PrefixClosed(f) && IsCoherent(f, newRoot)
    ensures PathFromRoot(f.root, f.blocks, newRoot).Some?
    ensures PrefixClosed(Prune(f, newRoot).0) <==> SurvivorsDescend(f, newRoot)
  {
    CoherentPath(f, newRoot);
    if newRoot != f.root.blockId {
      var g := Prune(f, newRoot).0;
      if SurvivorsDescend(f, newRoot) {
        forall x | x in g.coherent
          ensures IsCoherent(g, g.blocks[x].ParentId())
        {
          SurvivorHasParent(f, newRoot, x);
        }
      } else {
        var x :| x in f.coherent && f.blocks[x].ParentRound() >= f.blocks[newRoot].Round()
                 && !Descends(f.root, f.blocks, newRoot, x);
        if PrefixClosed(g) {
          PruneCommitsPath(f, newRoot);
          SurvivingFork(f, newRoot, x);
        }
      }
    }
  }

  lemma SurvivorHasParent(f: Forest, newRoot: BlockId, x: BlockId)
    requires WellFormed(f) && newRoot in f.coherent && newRoot != f.root.blockId
    requires PathFromRoot(f.root, f.blocks, newRoot).Some?
    requires x in f.coherent && f.blocks[x].ParentRound() >= f.blocks[newRoot].Round()
    requires Descends(f.root, f.blocks, newRoot, x) && IsCoherent(f, f.blocks[x].ParentId())
    ensures IsCoherent(Prune(f, newRoot).0, f.blocks[x].ParentId())
  {
    var parent := f.blocks[x].ParentId();
    if x == newRoot {
      assert false;
    } else if parent != newRoot {
      DescendantsAreHigher(f.root, f.blocks, newRoot, parent);
      assert parent in f.blocks && parent != f.root.blockId;
    }
  }

  /** A coherent survivor that does not descend from the new root leads down to one whose
      parent is gone. */
  lemma {:induction false} SurvivingFork(f: Forest, newRoot: BlockId, x: BlockId)
    requires WellFormed(f) && PrefixClosed(f) && newRoot in f.coherent && newRoot != f.root.blockId
    requires PathFromRoot(f.root, f.blocks, newRoot).Some?
    requires x in f.coherent && f.blocks[x].ParentRound() >= f.blocks[newRoot].Round()
    requires !Descends(f.root, f.blocks, newRoot, x)
    ensures !PrefixClosed(Prune(f, newRoot).0)
    decreases Height(f.blocks, x)
  {
    var g := Prune(f, newRoot).0;
    var parent := f.blocks[x].ParentId();
    assert x in g.coherent && parent != newRoot;
    if parent in g.coherent {
      ParentIsLower(f.root, f.blocks, x);
      SurvivingFork(f, newRoot, parent);
    }
  }
}
