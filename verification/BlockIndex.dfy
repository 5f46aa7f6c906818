/** The two indexes of the block tree, children lists and payloads, as facts about values. */
module BlockIndex {
  import opened ConsensusTypes
  import opened BlockForest
  import opened SeqSets

  datatype Entry = Entry(block: Block, isCoherent: bool, children: seq<BlockId>)
  datatype BodyIndex = BodyIndex(body: Body, active: set<BlockId>)
  type Entries = map<BlockId, Entry>
  type Payloads = map<BodyId, BodyIndex>

  function BlocksOf(entries: Entries): (r: Blocks) {
    map id | id in entries :: entries[id].block
  }

  function CoherentOf(entries: Entries): (r: set<BlockId>) {
    set id | id in entries && entries[id].isCoherent
  }

  /** The plain scan that the children lists stand for. */
  function ChildrenOf(blocks: Blocks, parent: BlockId): (r: set<BlockId>) {
    set id | id in blocks && blocks[id].ParentId() == parent
  }

  /** The plain scan that the payload index stands for. */
  function UsersOf(blocks: Blocks, bodyId: BodyId): (r: set<BlockId>) {
    set id | id in blocks && blocks[id].BodyId() == bodyId
  }

  ghost predicate Keyed(blocks: Blocks) {
    forall id :: id in blocks ==> blocks[id].Id() == id && ValidBlock(blocks[id])
  }

  /** Every children list holds exactly the blocks naming that parent, each once. */
  ghost predicate ChildrenExact(entries: Entries) {
    forall id :: id in entries ==> Lists(entries[id].children, ChildrenOf(BlocksOf(entries), id))
  }

  /** A body is indexed exactly when some block has it, together with all such blocks. */
  ghost predicate PayloadsExact(blocks: Blocks, payloads: Payloads) {
    && (forall bodyId :: bodyId in payloads <==> UsersOf(blocks, bodyId) != {})
    && (forall bodyId :: bodyId in payloads ==>
          payloads[bodyId].active == UsersOf(blocks, bodyId) && BodyHash(payloads[bodyId].body) == bodyId)
  }

  // ---- inserting

  function InsertEntry(entries: Entries, block: Block, children: seq<BlockId>): (r: Entries) {
    var mid := entries[block.Id() := Entry(block, false, children)];
    var parent := block.ParentId();
    if parent in mid then mid[parent := mid[parent].(children := mid[parent].children + [block.Id()])] else mid
  }

  lemma InsertView(entries: Entries, block: Block, children: seq<BlockId>)
    requires block.Id() !in entries && ValidBlock(block)
    ensures BlocksOf(InsertEntry(entries, block, children)) == BlocksOf(entries)[block.Id() := block]
    ensures CoherentOf(InsertEntry(entries, block, children)) == CoherentOf(entries)
    ensures Keyed(BlocksOf(entries)) ==> Keyed(BlocksOf(InsertEntry(entries, block, children)))
  {
  }

  lemma ChildrenOfInserted(blocks: Blocks, block: Block, parent: BlockId)
    requires block.Id() !in blocks
    ensures ChildrenOf(blocks[block.Id() := block], parent) ==
      ChildrenOf(blocks, parent) + (if block.ParentId() == parent then {block.Id()} else {})
  {
  }

  lemma InsertKeepsChildren(entries: Entries, block: Block, children: seq<BlockId>)
    requires ChildrenExact(entries) && ValidBlock(block) && block.Id() !in entries
    requires Lists(children, ChildrenOf(BlocksOf(entries), block.Id()))
    ensures ChildrenExact(InsertEntry(entries, block, children))
  {
    var id, parent := block.Id(), block.ParentId();
    var blocks, after := BlocksOf(entries), InsertEntry(entries, block, children);
    InsertView(entries, block, children);
    assert parent != id;
    forall x | x in after
      ensures Lists(after[x].children, ChildrenOf(BlocksOf(after), x))
    {
      ChildrenOfInserted(blocks, block, x);
      if x == parent {
        ListsSnoc(entries[x].children, ChildrenOf(blocks, x), id);
      } else if x == id {
        assert ChildrenOf(BlocksOf(after), x) == ChildrenOf(blocks, x);
      } else {
        assert ChildrenOf(BlocksOf(after), x) == ChildrenOf(blocks, x);
      }
    }
  }

  function InsertPayload(payloads: Payloads, block: Block): (r: Payloads) {
    var index := if block.BodyId() in payloads then payloads[block.BodyId()] else BodyIndex(block.body, {});
    payloads[block.BodyId() := index.(active := index.active + {block.Id()})]
  }

  lemma InsertKeepsPayloads(blocks: Blocks, payloads: Payloads, block: Block)
    requires PayloadsExact(blocks, payloads) && ValidBlock(block) && block.Id() !in blocks
    ensures PayloadsExact(blocks[block.Id() := block], InsertPayload(payloads, block))
  {
  }

  // ---- removing

  lemma RemoveView(entries: Entries, ids: set<BlockId>)
    ensures BlocksOf(entries - ids) == BlocksOf(entries) - ids
  {
  }

  function RemovePayload(payloads: Payloads, block: Block): (r: Payloads)
    requires block.BodyId() in payloads
  {
    var index := payloads[block.BodyId()];
    var active := index.active - {block.Id()};
    if active == {} then payloads - {block.BodyId()} else payloads[block.BodyId() := index.(active := active)]
  }

  lemma UsersOfRemoved(blocks: Blocks, id: BlockId, bodyId: BodyId)
    requires id in blocks
    ensures UsersOf(blocks - {id}, bodyId) == UsersOf(blocks, bodyId) - {id}
    ensures blocks[id].BodyId() != bodyId ==> id !in UsersOf(blocks, bodyId)
    ensures blocks[id].BodyId() == bodyId ==> id in UsersOf(blocks, bodyId)
  {
  }

  /** The payload of a block in the tree is indexed with that block active, so neither
      assertion of `remove` can fail; afterwards the index is exact again. */
  lemma RemoveKeepsPayloads(blocks: Blocks, payloads: Payloads, id: BlockId)
    requires PayloadsExact(blocks, payloads) && id in blocks && blocks[id].Id() == id
    ensures blocks[id].BodyId() in payloads && id in payloads[blocks[id].BodyId()].active
    ensures PayloadsExact(blocks - {id}, RemovePayload(payloads, blocks[id]))
  {
    UsersOfRemoved(blocks, id, blocks[id].BodyId());
    var after, p := blocks - {id}, RemovePayload(payloads, blocks[id]);
    forall bodyId
      ensures bodyId in p <==> UsersOf(after, bodyId) != {}
      ensures bodyId in p ==> p[bodyId].active == UsersOf(after, bodyId) && BodyHash(p[bodyId].body) == bodyId
    {
      UsersOfRemoved(blocks, id, bodyId);
      if bodyId != blocks[id].BodyId() {
        assert UsersOf(after, bodyId) == UsersOf(blocks, bodyId);
      }
    }
  }

  // ---- pruning

  /** Dropping everything certified below the new root's round drops no child of the new
      root and no child of a survivor. */
  lemma PruneKeepsChildren(entries: Entries, newRoot: BlockId, after: Entries)
    requires Keyed(BlocksOf(entries)) && ChildrenExact(entries) && newRoot in entries
    requires after == map id | id in entries && entries[id].block.ParentRound() >= entries[newRoot].block.Round() :: entries[id]
    ensures ChildrenExact(after)
    ensures Lists(entries[newRoot].children, ChildrenOf(BlocksOf(after), newRoot))
  {
    var blocks, kept := BlocksOf(entries), BlocksOf(after);
    forall p | p in after || p == newRoot
      ensures ChildrenOf(kept, p) == ChildrenOf(blocks, p)
    {
      forall c | c in ChildrenOf(blocks, p) ensures c in kept {
        assert blocks[p].Id() == p && ValidBlock(blocks[c]) && ValidBlock(blocks[p]);
      }
    }
  }
}
