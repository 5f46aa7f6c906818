/** Fetching ranges of blocks from the ledger or from peers, and serving them to peers. */
module BlockSyncs {
  import opened ConsensusTypes
  import opened SeqSets
  import opened BlockIndex
  import opened BlockTrees
  import opened BlockSyncStates

  type HeaderRequests = map<BlockRange, map<NodeId, seq<Header>>>
  type Asked = set<(NodeId, BlockRange)>

  /** Where blocks are looked up first: the block tree, or a buffer of bodies. */
  datatype BlockCache = TreeCache(tree: BlockTree) | BufferCache(buffer: map<BodyId, Body>) {
    ghost predicate Valid()
      reads if TreeCache? then {tree, tree.tree} else {}
    {
      match this
      case TreeCache(t) => t.Valid()
      case BufferCache(b) => forall id :: id in b ==> BodyHash(b[id]) == id
    }

    /** The ids of the bodies it holds. */
    ghost function Ids(): set<BodyId>
      reads if TreeCache? then {tree, tree.tree} else {}
    {
      match this
      case TreeCache(t) => set id | id in t.tree.entries :: t.tree.entries[id].block.BodyId()
      case BufferCache(b) => b.Keys
    }

    /** The ids of the blocks it holds; a buffer is not searched for blocks. */
    ghost function Known(): set<BlockId>
      reads if TreeCache? then {tree, tree.tree} else {}
    {
      match this
      case TreeCache(t) => t.tree.entries.Keys
      case BufferCache(_) => {}
    }

    method Lookup(id: BodyId) returns (r: Option<Body>)
      requires Valid()
      ensures r.Some? <==> id in Ids()
      ensures r.Some? ==> BodyHash(r.value) == id
    {
      match this
      case TreeCache(t) => r := t.tree.GetPayload(id);
      case BufferCache(b) => r := if id in b then Some(b[id]) else None;
    }
  }

  lemma CachedAreHashes(cache: BlockCache)
    requires cache.Valid()
    ensures forall id :: id in cache.Ids() ==> id.BodyHash?
  {
    if cache.TreeCache? {
      var entries := cache.tree.tree.entries;
      forall id | id in entries ensures entries[id].block.BodyId().BodyHash? {
        assert BlocksOf(entries)[id] == entries[id].block;
      }
    }
  }

  /** `NoLastHeader` is a panic: the last header of an empty list is unwrapped. */
  datatype HeaderCheck = Accepted | Rejected | NoLastHeader

  /** Whether headers are exactly those of a range. */
  method VerifyBlockHeaders(range: BlockRange, hs: seq<Header>) returns (r: HeaderCheck)
    ensures r.Accepted? <==> HeaderChain(range, hs)
    ensures r.NoLastHeader? <==> range.numBlocks == 0 && hs == []
  {
    if |hs| != range.numBlocks {
      return Rejected;
    }
    if hs == [] {
      return NoLastHeader;
    }
    if HashOf(hs[|hs| - 1]) != range.lastBlockId {
      return Rejected;
    }
    for i := 1 to |hs|
      invariant forall k :: 0 < k < i ==> hs[k].qc.BlockId() == HashOf(hs[k - 1])
    {
      if hs[i].qc.BlockId() != HashOf(hs[i - 1]) {
        return Rejected;
      }
    }
    return Accepted;
  }

  // ---- serving peers

  /** What a peer asked for, when the ledger is asked for `range` and `cached` follows it. */
  function AskedRange(range: BlockRange, cached: seq<Header>): BlockRange {
    BlockRange(if cached == [] then range.lastBlockId else HashOf(cached[|cached| - 1]), range.numBlocks + |cached|)
  }

  /** The cached headers continue the ledger's range, to what the peer asked for. */
  ghost predicate EntryOk(asked: Asked, range: BlockRange, n: NodeId, cached: seq<Header>) {
    && range.numBlocks > 0
    && Linked(cached)
    && (cached != [] ==> cached[0].qc.BlockId() == range.lastBlockId)
    && (n, AskedRange(range, cached)) in asked
  }

  ghost predicate ServerInv(asked: Asked, requests: HeaderRequests) {
    forall range, n :: range in requests && n in requests[range] ==> EntryOk(asked, range, n, requests[range][n])
  }

  function AddRequest(requests: HeaderRequests, range: BlockRange, n: NodeId, cached: seq<Header>): HeaderRequests {
    requests[range := (if range in requests then requests[range] else map[])[n := cached]]
  }

  lemma AddRequestKeeps(asked: Asked, requests: HeaderRequests, range: BlockRange, n: NodeId, cached: seq<Header>)
    requires ServerInv(asked, requests)
    requires EntryOk(asked + {(n, AskedRange(range, cached))}, range, n, cached)
    ensures ServerInv(asked + {(n, AskedRange(range, cached))}, AddRequest(requests, range, n, cached))
  {
  }

  function ReplyTo(response: HeadersResponse, cached: seq<Header>): HeadersResponse {
    match response
    case HeadersFound(range, hs) => HeadersFound(AskedRange(range, cached), hs + cached)
    case HeadersNotAvailable(range) => HeadersNotAvailable(AskedRange(range, cached))
  }

  /** An answer to a headers request: for a range the peer asked for, and passing its check. */
  ghost predicate GoodReply(asked: Asked, cmd: Command) {
    cmd.SendResponse? && cmd.response.HeadersReply? ==>
      && (cmd.to, cmd.response.headers.range) in asked
      && (cmd.response.headers.HeadersFound? ==> HeaderChain(cmd.response.headers.range, cmd.response.headers.headers))
  }

  ghost predicate GoodReplies(asked: Asked, cmds: seq<Command>) {
    forall cmd :: cmd in cmds ==> GoodReply(asked, cmd)
  }

  /** The ledger's part and the cached part together are what the peer asked for. */
  lemma SplicedChain(range: BlockRange, hs: seq<Header>, cached: seq<Header>)
    requires HeaderChain(range, hs) && Linked(cached)
    requires cached != [] ==> cached[0].qc.BlockId() == range.lastBlockId
    ensures HeaderChain(AskedRange(range, cached), hs + cached)
  {
  }

  function RepliesOf(response: HeadersResponse, entries: map<NodeId, seq<Header>>): set<Command> {
    set n | n in entries :: SendResponse(n, HeadersReply(ReplyTo(response, entries[n])))
  }

  lemma RepliesAreGood(asked: Asked, response: HeadersResponse, entries: map<NodeId, seq<Header>>, cmds: seq<Command>)
    requires FromLedger(response) && Lists(cmds, RepliesOf(response, entries))
    requires forall n :: n in entries ==> EntryOk(asked, response.range, n, entries[n])
    ensures GoodReplies(asked, cmds)
  {
    ListsMember(cmds, RepliesOf(response, entries));
    forall cmd | cmd in cmds ensures GoodReply(asked, cmd) {
      var n :| n in entries && cmd == SendResponse(n, HeadersReply(ReplyTo(response, entries[n])));
      if response.HeadersFound? {
        SplicedChain(response.range, response.headers, entries[n]);
      }
    }
  }

  function PeersFor(requests: BodyRequests, id: BodyId): set<NodeId> {
    if id in requests then requests[id] else {}
  }

  function PayloadRepliesOf(response: BodyResponse, peers: set<NodeId>): set<Command> {
    set n | n in peers :: SendResponse(n, PayloadReply(response))
  }

  function WaitingFor(requests: HeaderRequests, range: BlockRange): map<NodeId, seq<Header>> {
    if range in requests then requests[range] else map[]
  }

  lemma ReplySnoc(response: HeadersResponse, entries: map<NodeId, seq<Header>>, ns: seq<NodeId>, i: nat, cmds: seq<Command>)
    requires Lists(ns, entries.Keys) && i < |ns|
    requires Lists(cmds, RepliesOf(response, EntriesOf(entries, ns[..i])))
    ensures ns[i] in entries
    ensures var cmd := SendResponse(ns[i], HeadersReply(ReplyTo(response, entries[ns[i]])));
      Lists(cmds + [cmd], RepliesOf(response, EntriesOf(entries, ns[..i + 1])))
  {
    ListsFresh(ns, entries.Keys, i);
    var n, a, b := ns[i], EntriesOf(entries, ns[..i]), EntriesOf(entries, ns[..i + 1]);
    assert ns[..i + 1] == ns[..i] + [n];
    assert b == a[n := entries[n]];
    RepliesGrow(response, a, n, entries[n]);
    ListsSnoc(cmds, RepliesOf(response, a), SendResponse(n, HeadersReply(ReplyTo(response, entries[n]))));
  }

  lemma RepliesGrow(response: HeadersResponse, a: map<NodeId, seq<Header>>, n: NodeId, cached: seq<Header>)
    requires n !in a
    ensures var cmd := SendResponse(n, HeadersReply(ReplyTo(response, cached)));
      cmd !in RepliesOf(response, a) && RepliesOf(response, a[n := cached]) == RepliesOf(response, a) + {cmd}
  {
    var b := a[n := cached];
    assert n in b && b[n] == cached;
    forall x | x in a ensures x in b && b[x] == a[x] {
    }
  }

  function EntriesOf(entries: map<NodeId, seq<Header>>, ns: seq<NodeId>): map<NodeId, seq<Header>> {
    map n | n in entries && n in ns :: entries[n]
  }

  method MakeReply(ghost asked: Asked, response: HeadersResponse, n: NodeId, cached: seq<Header>) returns (cmd: Command)
    requires FromLedger(response) && EntryOk(asked, response.range, n, cached)
    ensures cmd == SendResponse(n, HeadersReply(ReplyTo(response, cached)))
    ensures GoodReply(asked, cmd)
  {
    if response.HeadersFound? {
      SplicedChain(response.range, response.headers, cached);
      assert Linked(response.headers + cached);  // assert: every block names the one before it
    }
    cmd := SendResponse(n, HeadersReply(ReplyTo(response, cached)));
  }

  /** Answer every waiting peer: the ledger's headers, followed by those that were cached. */
  method MakeReplies(ghost asked: Asked, response: HeadersResponse, entries: map<NodeId, seq<Header>>) returns (cmds: seq<Command>)
    requires FromLedger(response)
    requires forall n :: n in entries ==> EntryOk(asked, response.range, n, entries[n])
    ensures Lists(cmds, RepliesOf(response, entries)) && GoodReplies(asked, cmds)
  {
    var ns := AnyOrder(entries.Keys);
    cmds := [];
    assert EntriesOf(entries, ns[..0]) == map[];
    for i := 0 to |ns|
      invariant Lists(cmds, RepliesOf(response, EntriesOf(entries, ns[..i])))
    {
      ReplySnoc(response, entries, ns, i, cmds);
      var cmd := MakeReply(asked, response, ns[i], entries[ns[i]]);
      cmds := cmds + [cmd];
    }
    ListsMember(ns, entries.Keys);
    assert ns[..|ns|] == ns && EntriesOf(entries, ns) == entries;
    RepliesAreGood(asked, response, entries, cmds);
  }

  /** The newest headers of a chain, as many as asked for. */
  function LastHeaders(chain: seq<Block>, count: nat): (hs: seq<Header>) {
    var from := if |chain| <= count then 0 else |chain| - count;
    seq(|chain| - from, i requires 0 <= i < |chain| - from => chain[from + i].header)
  }

  lemma LastHeadersLink(chain: seq<Block>, range: BlockRange)
    requires IsChain(chain) && range.numBlocks > 0
    requires chain != [] ==> chain[|chain| - 1].Id() == range.lastBlockId
    ensures var hs := LastHeaders(chain, range.numBlocks);
      && |hs| <= range.numBlocks && Linked(hs)
      && (hs != [] ==> HashOf(hs[|hs| - 1]) == range.lastBlockId)
      && (|hs| == range.numBlocks ==> HeaderChain(range, hs))
  {
  }

  /** `hs` are the headers of the range's end, back to its first block or to the last one of
      which the parent is not known. */
  ghost predicate IsCachedEnd(known: set<BlockId>, range: BlockRange, hs: seq<Header>) {
    && |hs| <= range.numBlocks && Linked(hs)
    && (hs != [] <==> range.lastBlockId in known)
    && (hs != [] ==> HashOf(hs[|hs| - 1]) == range.lastBlockId)
    && (forall i :: 0 <= i < |hs| ==> HashOf(hs[i]) in known)
    && (0 < |hs| < range.numBlocks ==> hs[0].qc.BlockId() !in known)
  }

  /** Without its last header, it is what is cached of the range before. */
  lemma CachedEndBefore(known: set<BlockId>, range: BlockRange, hs: seq<Header>, h: Header)
    requires IsCachedEnd(known, range, hs) && hs != [] && h == hs[|hs| - 1] && range.numBlocks > 1
    ensures IsCachedEnd(known, BlockRange(h.qc.BlockId(), range.numBlocks - 1), hs[..|hs| - 1])
  {
    if |hs| > 1 {
      assert hs[|hs| - 1].qc.BlockId() == HashOf(hs[|hs| - 2]);
    }
  }

  /** What is cached of a range's end is determined by the range and the blocks known. */
  lemma {:induction false} CachedEndIsUnique(known: set<BlockId>, range: BlockRange, a: seq<Header>, b: seq<Header>)
    requires IsCachedEnd(known, range, a) && IsCachedEnd(known, range, b)
    ensures a == b
    decreases range.numBlocks
  {
    if a == [] || range.numBlocks <= 1 {
    } else {
      var h, m, n := a[|a| - 1], |a| - 1, |b| - 1;
      CachedEndBefore(known, range, a, h);
      CachedEndBefore(known, range, b, h);
      CachedEndIsUnique(known, BlockRange(h.qc.BlockId(), range.numBlocks - 1), a[..m], b[..n]);
      assert a == a[..m] + [h] && b == b[..n] + [h];
    }
  }

  /** What the cache knows of the end of a range. */
  method CachedHeaders(range: BlockRange, cache: BlockCache) returns (hs: seq<Header>)
    requires cache.Valid() && range.numBlocks > 0
    ensures IsCachedEnd(cache.Known(), range, hs)
  {
    match cache
    case BufferCache(_) => return [];
    case TreeCache(tree) =>
      var chain := tree.GetParentBlockChain(range.lastBlockId);
      hs := LastHeaders(chain, range.numBlocks);
      LastHeadersAreEnd(tree.tree.entries.Keys, chain, range);
  }

  lemma LastHeadersAreEnd(known: set<BlockId>, chain: seq<Block>, range: BlockRange)
    requires IsChain(chain) && range.numBlocks > 0 && (chain == [] <==> range.lastBlockId !in known)
    requires chain != [] ==> chain[|chain| - 1].Id() == range.lastBlockId && chain[0].ParentId() !in known
    requires forall b :: b in chain ==> b.Id() in known
    ensures IsCachedEnd(known, range, LastHeaders(chain, range.numBlocks))
  {
    LastHeadersLink(chain, range);
    var hs := LastHeaders(chain, range.numBlocks);
    forall i | 0 <= i < |hs| ensures HashOf(hs[i]) in known {
      assert chain[|chain| - |hs| + i] in chain;
    }
  }

  /** The part of a range before what is cached. */
  function RestOf(range: BlockRange, hs: seq<Header>): BlockRange
    requires |hs| <= range.numBlocks
  {
    BlockRange(if hs == [] then range.lastBlockId else hs[0].qc.BlockId(), range.numBlocks - |hs|)
  }

  /** The part of a range that is not cached is asked of the ledger. */
  lemma SplitRange(asked: Asked, range: BlockRange, n: NodeId, hs: seq<Header>)
    requires |hs| < range.numBlocks && Linked(hs)
    requires hs != [] ==> HashOf(hs[|hs| - 1]) == range.lastBlockId
    ensures AskedRange(RestOf(range, hs), hs) == range
    ensures EntryOk(asked + {(n, range)}, RestOf(range, hs), n, hs) && !HeaderChain(range, hs)
  {
  }

  /** `known` are the blocks in the cache when a request comes in, and `cached` what the cache has
      of the end of the range. */
  datatype ServerEvent =
    | Asks(peer: NodeId, range: BlockRange, known: set<BlockId>, cached: seq<Header>)
    | Ledger(response: HeadersResponse)

  /** What the handler of an event does, with the peers that wait for the ledger as its state. */
  ghost predicate ServerStep(s: HeaderRequests, e: ServerEvent, t: HeaderRequests, cmds: seq<Command>) {
    match e
    case Ledger(response) =>
      t == s - {response.range} && Lists(cmds, RepliesOf(response, WaitingFor(s, response.range)))
    case Asks(peer, range, known, cached) =>
      if range.numBlocks == 0 then t == s && cmds == []
      else
        && IsCachedEnd(known, range, cached)
        && if HeaderChain(range, cached)
           then t == s && cmds == [SendResponse(peer, HeadersReply(HeadersFound(range, cached)))]
           else t == AddRequest(s, RestOf(range, cached), peer, cached) && cmds == [FetchHeaders(RestOf(range, cached))]
  }

  type BodyRequests = map<BodyId, set<NodeId>>

  /** `cached` says whether the body is in a cache when the request comes in. */
  datatype BodyEvent = AsksBody(peer: NodeId, id: BodyId, cached: bool) | LedgerBody(response: BodyResponse)

  /** The peer gets the body that it asked for. */
  ghost predicate GivesBody(peer: NodeId, id: BodyId, cmds: seq<Command>) {
    exists body :: BodyHash(body) == id && cmds == [SendResponse(peer, PayloadReply(BodyFound(body)))]
  }

  /** What the handler of an event does, with the peers that wait for a body as its state. */
  ghost predicate BodyStep(s: BodyRequests, e: BodyEvent, t: BodyRequests, cmds: seq<Command>) {
    match e
    case AsksBody(peer, id, cached) =>
      if cached then t == s && GivesBody(peer, id, cmds)
      else t == s[id := PeersFor(s, id) + {peer}] && cmds == [FetchPayload(id)]
    case LedgerBody(response) =>
      t == s - {response.Id()} && Lists(cmds, PayloadRepliesOf(response, PeersFor(s, response.Id())))
  }

  /** Look for a body that an unfinished range already has. */
  method FindInCaches(completed: CompletedRanges, id: BodyId) returns (r: Option<Body>)
    requires forall range :: range in completed ==> CacheOk(completed[range])
    ensures r.Some? <==> InCaches(completed, id)
    ensures r.Some? ==> BodyHash(r.value) == id
  {
    var ranges := AnyOrder(completed.Keys);
    ListsMember(ranges, completed.Keys);
    for i := 0 to |ranges|
      invariant forall k :: 0 <= k < i ==> id !in completed[ranges[k]].payloadCache
    {
      if id in completed[ranges[i]].payloadCache {
        assert CacheOk(completed[ranges[i]]);
        return Some(completed[ranges[i]].payloadCache[id]);
      }
    }
    forall range | range in completed ensures id !in completed[range].payloadCache {
      assert range in ranges;
    }
    r := None;
  }

  ghost predicate NeedsBefore(blocks: seq<SyncBlock>, i: nat, id: BodyId)
    requires i <= |blocks|
  {
    exists k :: 0 <= k < i && blocks[k].1.None? && blocks[k].0.bodyId == id
  }

  /** Give a body to every block of one range that lacks it. */
  method FillRange(c: Completed, id: BodyId, body: Body) returns (r: Completed)
    requires BodyHash(body) == id
    ensures r == FillCompleted(c, {id})
  {
    var blocks, cache := c.blocks, c.payloadCache;
    for i := 0 to |blocks|
      invariant |blocks| == |c.blocks|
      invariant forall k :: 0 <= k < i ==> blocks[k] == FillBlock(c.blocks[k], {id})
      invariant forall k :: i <= k < |blocks| ==> blocks[k] == c.blocks[k]
      invariant cache == if NeedsBefore(c.blocks, i, id) then c.payloadCache[id := body] else c.payloadCache
    {
      if blocks[i].0.bodyId == id && blocks[i].1.None? {
        blocks := blocks[i := (blocks[i].0, Some(body))];
        cache := cache[id := body];
        assert NeedsBefore(c.blocks, i + 1, id);
      } else {
        assert NeedsBefore(c.blocks, i + 1, id) <==> NeedsBefore(c.blocks, i, id);
      }
    }
    assert blocks == FillBlocks(c.blocks, {id});
    FilledCache(c, id, body);
    r := Completed(c.requester, blocks, cache);
  }

  lemma FilledCache(c: Completed, id: BodyId, body: Body)
    requires BodyHash(body) == id
    ensures c.payloadCache + Missing(c.blocks, {id}) ==
      if NeedsBefore(c.blocks, |c.blocks|, id) then c.payloadCache[id := body] else c.payloadCache
  {
  }

  /** The full blocks of a finished range; no body fails to match its header. */
  method MakeEmit(c: Completed, ghost mode: Requester, ghost tracked: set<BodyId>, range: BlockRange) returns (cmd: Command)
    requires Filled(c) && RangeOk(mode, tracked, range, c)
    ensures cmd == EmitOf(range, c)
  {
    var blocks := [];
    for i := 0 to |c.blocks|
      invariant |blocks| == i && forall k :: 0 <= k < i ==> blocks[k] == Block(c.blocks[k].0, c.blocks[k].1.value)
    {
      assert BlockOk(tracked, c.blocks[i]);
      var block := NewFullBlock(c.blocks[i].0, c.blocks[i].1.value);
      blocks := blocks + [block.value];  // expect: the body matches
    }
    assert blocks == FullBlocks(c.blocks);
    cmd := Emit(c.requester, range, blocks);
  }

  function Without(completed: CompletedRanges, rs: seq<BlockRange>): CompletedRanges {
    map r | r in completed && r !in rs :: completed[r]
  }

  function FinishedOf(completed: CompletedRanges): (rs: set<BlockRange>) {
    set r | r in completed && Filled(completed[r])
  }

  /** The first `i` finished ranges are removed and emitted. */
  ghost predicate Emitting(completed: CompletedRanges, done: seq<BlockRange>, i: nat, rest: CompletedRanges, cmds: seq<Command>)
    requires i <= |done|
  {
    rest == Without(completed, done[..i]) && Lists(cmds, EmitsOf(Among(completed, done[..i])))
  }

  lemma EmitBegin(completed: CompletedRanges, done: seq<BlockRange>)
    ensures Emitting(completed, done, 0, completed, [])
  {
  }

  lemma EmitStep(completed: CompletedRanges, done: seq<BlockRange>, i: nat, rest: CompletedRanges, cmds: seq<Command>)
    requires Lists(done, FinishedOf(completed)) && i < |done| && Emitting(completed, done, i, rest, cmds)
    ensures done[i] in completed && Filled(completed[done[i]])
    ensures done[i] in rest && rest[done[i]] == completed[done[i]]
    ensures Emitting(completed, done, i + 1, rest - {done[i]}, cmds + [EmitOf(done[i], completed[done[i]])])
  {
    ListsFresh(done, FinishedOf(completed), i);
    var r := done[i];
    EmitSnoc(completed, done[..i], r);
    ListsSnoc(cmds, EmitsOf(Among(completed, done[..i])), EmitOf(r, completed[r]));
    assert done[..i + 1] == done[..i] + [r];
  }

  lemma EmitEnd(completed: CompletedRanges, done: seq<BlockRange>, rest: CompletedRanges, cmds: seq<Command>)
    requires Lists(done, FinishedOf(completed)) && Emitting(completed, done, |done|, rest, cmds)
    ensures rest == Unfinished(completed) && Lists(cmds, EmitsOf(completed))
  {
    assert done[..|done|] == done;
    ListsMember(done, FinishedOf(completed));
    var a := Among(completed, done);
    forall cmd | cmd in EmitsOf(completed) ensures cmd in EmitsOf(a) {
      var r :| r in completed && Filled(completed[r]) && cmd == EmitOf(r, completed[r]);
      assert r in a && a[r] == completed[r];
    }
    assert EmitsOf(a) == EmitsOf(completed);
  }

  method EmitFinished(completed: CompletedRanges, ghost mode: Requester, ghost tracked: set<BodyId>)
      returns (rest: CompletedRanges, cmds: seq<Command>)
    requires RangesOk(mode, tracked, completed)
    ensures rest == Unfinished(completed)
    ensures Lists(cmds, EmitsOf(completed))
  {
    var done := AnyOrder(FinishedOf(completed));
    rest, cmds := completed, [];
    EmitBegin(completed, done);
    for i := 0 to |done|
      invariant Emitting(completed, done, i, rest, cmds)
    {
      EmitStep(completed, done, i, rest, cmds);
      var cmd := MakeEmit(rest[done[i]], mode, tracked, done[i]);
      rest := rest - {done[i]};
      cmds := cmds + [cmd];
    }
    EmitEnd(completed, done, rest, cmds);
  }

  method FillRanges(completed: CompletedRanges, id: BodyId, body: Body) returns (r: CompletedRanges)
    requires BodyHash(body) == id
    ensures r == FillAll(completed, {id})
  {
    var ranges := AnyOrder(completed.Keys);
    ListsMember(ranges, completed.Keys);
    r := completed;
    for i := 0 to |ranges|
      invariant r.Keys == completed.Keys
      invariant forall x :: x in completed ==>
        r[x] == if x in ranges[..i] then FillCompleted(completed[x], {id}) else completed[x]
    {
      ListsFresh(ranges, completed.Keys, i);
      var c := FillRange(r[ranges[i]], id, body);
      r := r[ranges[i] := c];
      assert ranges[..i + 1] == ranges[..i] + [ranges[i]];
    }
    assert ranges[..|ranges|] == ranges;
  }

  class BlockSync {
    // requests from peers that wait for the ledger
    var headersRequests: HeaderRequests
    var payloadRequests: BodyRequests

    // this node's own requests
    var selfHeaders: map<BlockRange, SelfRequest>
    var selfPayloads: PayloadRequests
    var inFlight: nat
    var completed: CompletedRanges
    var mode: Requester

    ghost var leaked: nat
    ghost var asked: Asked  // every headers request a peer has made

    ghost function View(): SelfState
      reads `selfHeaders, `selfPayloads, `inFlight, `completed, `mode, `leaked
    {
      SelfState(selfHeaders, selfPayloads, inFlight, completed, mode, leaked)
    }

    ghost predicate Serving()
      reads `asked, `headersRequests
    {
      ServerInv(asked, headersRequests)
    }

    /** Holds between events. */
    ghost predicate Valid()
      reads this
    {
      Inv(View()) && Serving()
    }

    constructor ()
      ensures Valid() && View() == Cleared(StateSync) && asked == {}
    {
      headersRequests, payloadRequests := map[], map[];
      selfHeaders, selfPayloads, inFlight, completed, mode := map[], map[], 0, map[], StateSync;
      leaked, asked := 0, {};
      new;
      ClearedInv(StateSync);
    }

    // ---- requests of this node

    method HandleSelfRequest(requester: Requester, range: BlockRange) returns (cmds: seq<Command>)
      requires Valid()
      modifies `selfHeaders, `selfPayloads, `inFlight, `completed, `mode, `leaked
      ensures Valid()
      ensures range.numBlocks == 0 ==> View() == old(View()) && cmds == []
      ensures range.numBlocks > 0 ==>
        && View() == AskedFor(old(View()), requester, range) && (range in selfHeaders || range in completed)
        && cmds == if requester == old(mode) && (range in old(selfHeaders) || range in old(completed)) then [] else [FetchHeaders(range)]
    {
      if range.numBlocks == 0 {
        return [];
      }
      AskedForKeeps(View(), requester, range);
      if requester != mode {
        selfHeaders, selfPayloads, inFlight, completed, mode := map[], map[], 0, map[], requester;
        leaked := 0;
      }
      if range in selfHeaders || range in completed {
        return [];
      }
      selfHeaders := selfHeaders[range := SelfRequest(requester, None)];
      return [FetchHeaders(range)];
    }

    method HandleSelfCancelRequest(requester: Requester, range: BlockRange)
      requires Valid()
      modifies `selfHeaders, `completed
      ensures Valid() && View() == Cancelled(old(View()), requester, range)
      ensures requester == mode ==> range !in selfHeaders && range !in completed
      ensures requester != mode ==> View() == old(View())
      ensures selfHeaders - {range} == old(selfHeaders) - {range} && completed - {range} == old(completed) - {range}
    {
      CancelKeeps(View(), requester, range);
      CancelIsExact(View(), requester, range);
      if range in selfHeaders && selfHeaders[range].requester == requester {
        selfHeaders := selfHeaders - {range};
      }
      if range in completed && completed[range].requester == requester {
        completed := completed - {range};
      }
    }

    // ---- requests of peers

    /** A Found answer passes the peer's check; otherwise the rest is asked of the ledger, and
        what is cached is kept for the answer. */
    method HandlePeerHeadersRequest(sender: NodeId, range: BlockRange, cache: BlockCache)
        returns (cmds: seq<Command>, ghost cached: seq<Header>)
      requires Valid() && cache.Valid()
      modifies `headersRequests, `asked
      ensures Valid() && GoodReplies(asked, cmds)
      ensures ServerStep(old(headersRequests), Asks(sender, range, cache.Known(), cached), headersRequests, cmds)
      ensures asked == old(asked) + if range.numBlocks == 0 then {} else {(sender, range)}
    {
      cmds, cached := [], [];
      if range.numBlocks == 0 {
        return;
      }
      var hs := CachedHeaders(range, cache);
      cached := hs;
      if |hs| == range.numBlocks {
        asked := asked + {(sender, range)};
        cmds := [SendResponse(sender, HeadersReply(HeadersFound(range, hs)))];
      } else {
        var rest := RestOf(range, hs);
        SplitRange(asked, range, sender, hs);
        AddRequestKeeps(asked, headersRequests, rest, sender, hs);
        headersRequests := AddRequest(headersRequests, rest, sender, hs);
        asked := asked + {(sender, range)};
        cmds := [FetchHeaders(rest)];
      }
    }

    method HandlePeerPayloadRequest(sender: NodeId, id: BodyId, cache: BlockCache) returns (cmds: seq<Command>)
      requires Valid() && cache.Valid()
      modifies `payloadRequests
      ensures Valid()
      ensures var cached := id in cache.Ids() || InCaches(completed, id);
        BodyStep(old(payloadRequests), AsksBody(sender, id, cached), payloadRequests, cmds)
    {
      var body := GetCachedPayload(id, cache);
      if body.Some? {
        return [SendResponse(sender, PayloadReply(BodyFound(body.value)))];
      }
      payloadRequests := payloadRequests[id := PeersFor(payloadRequests, id) + {sender}];
      return [FetchPayload(id)];
    }

    // ---- fetching bodies

    method GetCachedPayload(id: BodyId, cache: BlockCache) returns (r: Option<Body>)
      requires cache.Valid() && RangesOk(mode, selfPayloads.Keys, completed)
      ensures r.Some? <==> id in cache.Ids() || InCaches(completed, id)
      ensures r.Some? ==> BodyHash(r.value) == id
    {
      r := cache.Lookup(id);
      if r.None? {
        assert forall range :: range in completed ==> RangeOk(mode, selfPayloads.Keys, range, completed[range]);
        r := FindInCaches(completed, id);
      }
    }

    /** Give a body to every block that lacks it. */
    method FillPayload(id: BodyId, body: Body)
      requires BodyHash(body) == id
      modifies `completed
      ensures completed == FillAll(old(completed), {id})
    {
      completed := FillRanges(completed, id, body);
    }

    /** Emit every finished range once. */
    method HandleCompletedRanges() returns (cmds: seq<Command>)
      requires RangesOk(mode, selfPayloads.Keys, completed)
      modifies `completed
      ensures View() == old(View()).(completed := Unfinished(old(completed)))
      ensures Lists(cmds, EmitsOf(old(completed)))
    {
      completed, cmds := EmitFinished(completed, mode, selfPayloads.Keys);
    }

    /** Use a tracked payload that some cache has. */
    method TryCached(id: BodyId, cache: BlockCache)
      requires cache.Valid() && RangesOk(mode, selfPayloads.Keys, completed) && id in selfPayloads
      modifies `selfPayloads, `completed, `leaked
      ensures View() == if IsHit(old(View()), cache.Ids(), id) then UseCached(old(View()), id) else old(View())
    {
      var body := GetCachedPayload(id, cache);
      if body.Some? {
        leaked := leaked + if selfPayloads[id].Some? then 1 else 0;
        selfPayloads := selfPayloads - {id};
        FillPayload(id, body.value);
      }
    }

    /** Use every tracked payload that some cache has. */
    method FillFromCaches(cache: BlockCache)
      requires cache.Valid() && Consistent(View())
      modifies `selfPayloads, `completed, `leaked
      ensures View() == AfterHits(old(View()), Hits(old(View()), cache.Ids()))
    {
      ghost var s, cached := View(), cache.Ids();
      CachedAreHashes(cache);
      CacheLoopBegin(s, cached);
      var ids := AnyOrder(selfPayloads.Keys);
      for i := 0 to |ids|
        invariant View() == AfterHits(s, HitsAmong(s, cached, ids[..i]))
      {
        CacheLoopStep(s, cached, ids, i);
        TryCached(ids[i], cache);
      }
      assert ids[..|ids|] == ids;
      CacheLoopEnd(s, cached, ids);
    }

    /** Start waiting requests until the limit is reached. */
    method StartRequests() returns (cmds: seq<Command>)
      requires inFlight <= MAX_PAYLOAD_REQUESTS
      modifies `selfPayloads, `inFlight
      ensures StartedUp(old(View()), View(), cmds)
    {
      ghost var p, before := selfPayloads, inFlight;
      StartBegin(mode, p);
      cmds := [];
      while inFlight < MAX_PAYLOAD_REQUESTS
        invariant before <= inFlight <= MAX_PAYLOAD_REQUESTS
        invariant Starting(mode, p, selfPayloads, inFlight - before, cmds)
      {
        var waiting := Waiting(selfPayloads);
        if waiting == {} {
          break;
        }
        var id :| id in waiting;
        StartStep(mode, p, selfPayloads, inFlight - before, cmds, id);
        cmds := cmds + [FetchPayload(id)];
        selfPayloads := selfPayloads[id := Some(SelfRequest(mode, None))];
        inFlight := inFlight + 1;
      }
    }

    method TryInitiatePayloadRequests(cache: BlockCache) returns (cmds: seq<Command>)
      requires cache.Valid() && Consistent(View())
      modifies `selfPayloads, `completed, `leaked, `inFlight
      ensures Initiated(old(View()), cache.Ids(), View(), cmds)
      ensures Inv(View()) && GoodEmits(mode, cmds)
    {
      ghost var s, cached := View(), cache.Ids();
      CachedAreHashes(cache);
      FillFromCaches(cache);
      var fetches := StartRequests();
      ghost var mid := View();
      HitsKeepRanges(s, cached);
      var emits := HandleCompletedRanges();
      cmds := fetches + emits;
      InitiateParts(s, cached, mid, fetches, emits);
    }

    // ---- responses

    /** Take in headers for a request of this node. */
    method AcceptHeaders(sender: Option<NodeId>, response: HeadersResponse, peer: NodeId) returns (cmds: seq<Command>)
      requires Inv(View()) && response.range in selfHeaders && (sender.None? ==> FromLedger(response))
      modifies `selfHeaders, `selfPayloads, `completed
      ensures (View(), cmds) == AfterHeaders(old(View()), sender, response, peer)
    {
      var range := response.range;
      cmds := [];
      match response
      case HeadersFound(_, hs) =>
        assert selfHeaders[range].requester == mode;  // assert_eq on the mode
        var check := VerifyBlockHeaders(range, hs);
        assert !check.NoLastHeader?;  // unwrap: the range is not empty
        if check.Accepted? {
          selfHeaders := selfHeaders - {range};
          cmds := if sender.Some? then [ResetTimeout(HeadersRequest(range))] else [];
          TrackPayloads(hs);
          completed := completed[range := Completed(mode, NoBodies(hs), map[])];
        } else {
          assert sender.Some?;  // assert: the ledger's headers verify
        }
      case HeadersNotAvailable(_) =>
        if sender.None? && selfHeaders[range].to.None? {
          selfHeaders := selfHeaders[range := SelfRequest(selfHeaders[range].requester, Some(peer))];
          cmds := [SendRequest(peer, HeadersRequest(range)), ScheduleTimeout(HeadersRequest(range))];
        }
    }

    method TakeHeaders(sender: Option<NodeId>, response: HeadersResponse, cache: BlockCache, peer: NodeId)
        returns (cmds: seq<Command>)
      requires Inv(View()) && cache.Valid() && (sender.None? ==> FromLedger(response))
      modifies `selfHeaders, `selfPayloads, `completed, `leaked, `inFlight
      ensures Inv(View()) && GoodEmits(mode, cmds)
      ensures HeadersStep(old(View()), sender, response, peer, cache.Ids(), View(), cmds)
    {
      if response.range !in selfHeaders {
        return [];
      }
      AfterHeadersKeeps(View(), sender, response, peer);
      var own := AcceptHeaders(sender, response, peer);
      var initiated := TryInitiatePayloadRequests(cache);
      cmds := own + initiated;
      GoodConcat(mode, own, initiated);
    }

    /** Headers for this node, from the ledger or a peer (`sender`).  `peer` is the peer asked
        next if the ledger does not have them. */
    method HandleHeadersResponse(sender: Option<NodeId>, response: HeadersResponse, cache: BlockCache, peer: NodeId)
        returns (cmds: seq<Command>)
      requires Valid() && cache.Valid() && (sender.None? ==> FromLedger(response))
      modifies `selfHeaders, `selfPayloads, `completed, `leaked, `inFlight
      ensures Valid() && GoodEmits(mode, cmds)
      ensures HeadersStep(old(View()), sender, response, peer, cache.Ids(), View(), cmds)
    {
      cmds := TakeHeaders(sender, response, cache, peer);
    }

    method TrackPayloads(hs: seq<Header>)
      modifies `selfPayloads
      ensures selfPayloads == Track(old(selfPayloads), hs)
    {
      ghost var p := selfPayloads;
      for i := 0 to |hs|
        invariant selfPayloads == Track(p, hs[..i])
      {
        TrackStep(p, hs, i);
        if hs[i].bodyId !in selfPayloads {
          selfPayloads := selfPayloads[hs[i].bodyId := None];
        }
      }
      assert hs[..|hs|] == hs;
    }

    /** Take in a body for a started request of this node. */
    method AcceptPayload(sender: Option<NodeId>, response: BodyResponse, peer: NodeId) returns (cmds: seq<Command>)
      requires Inv(View()) && response.Id() in Started(selfPayloads) && inFlight > 0
      modifies `selfPayloads, `completed, `inFlight
      ensures (View(), cmds) == AfterPayload(old(View()), sender, response, peer)
    {
      var id := response.Id();
      cmds := [];
      match response
      case BodyFound(body) =>
        assert selfPayloads[id].value.requester == mode;  // assert_eq on the mode
        inFlight := inFlight - 1;
        cmds := if sender.Some? then [ResetTimeout(PayloadRequest(id))] else [];
        selfPayloads := selfPayloads - {id};
        FillPayload(id, body);
      case BodyNotAvailable(_) =>
        if sender.None? && selfPayloads[id].value.to.None? {
          selfPayloads := selfPayloads[id := Some(SelfRequest(selfPayloads[id].value.requester, Some(peer)))];
          cmds := [SendRequest(peer, PayloadRequest(id)), ScheduleTimeout(PayloadRequest(id))];
        }
    }

    method TakePayload(sender: Option<NodeId>, response: BodyResponse, cache: BlockCache, peer: NodeId)
        returns (cmds: seq<Command>)
      requires Inv(View()) && cache.Valid()
      modifies `selfPayloads, `completed, `leaked, `inFlight
      ensures Inv(View()) && GoodEmits(mode, cmds)
      ensures PayloadStep(old(View()), sender, response, peer, cache.Ids(), View(), cmds)
    {
      var id := response.Id();
      if id !in selfPayloads || selfPayloads[id].None? {
        return [];
      }
      ghost var s := View();
      AfterPayloadKeeps(s, sender, response, peer);
      var own := AcceptPayload(sender, response, peer);
      ghost var mid := View();
      EmitKeeps(mid);
      var emits := HandleCompletedRanges();
      var more := TryInitiatePayloadRequests(cache);
      cmds := own + emits + more;
      PayloadParts(s, sender, response, peer, cache.Ids(), View(), own, emits, more);
    }

    /** A body for this node, from the ledger or a peer.  The counter never underflows. */
    method HandlePayloadResponse(sender: Option<NodeId>, response: BodyResponse, cache: BlockCache, peer: NodeId)
        returns (cmds: seq<Command>)
      requires Valid() && cache.Valid()
      modifies `selfPayloads, `completed, `leaked, `inFlight
      ensures Valid() && GoodEmits(mode, cmds)
      ensures PayloadStep(old(View()), sender, response, peer, cache.Ids(), View(), cmds)
    {
      cmds := TakePayload(sender, response, cache, peer);
    }

    /** The ledger's headers answer the peers that wait for them, then this node. */
    method HandleLedgerHeaders(response: HeadersResponse, cache: BlockCache, peer: NodeId)
        returns (cmds: seq<Command>, ghost replies: seq<Command>, ghost own: seq<Command>)
      requires Valid() && cache.Valid() && FromLedger(response)
      modifies `headersRequests, `selfHeaders, `selfPayloads, `completed, `leaked, `inFlight
      ensures Valid() && ServerStep(old(headersRequests), Ledger(response), headersRequests, replies)
      ensures cmds == replies + own && GoodEmits(mode, own) && GoodReplies(asked, replies)
      ensures HeadersStep(old(View()), None, response, peer, cache.Ids(), View(), own)
    {
      var entries := WaitingFor(headersRequests, response.range);
      headersRequests := headersRequests - {response.range};
      var answers := MakeReplies(asked, response, entries);
      var mine := HandleHeadersResponse(None, response, cache, peer);
      cmds, replies, own := answers + mine, answers, mine;
    }

    method AnswerPeers(response: BodyResponse) returns (cmds: seq<Command>)
      modifies `payloadRequests
      ensures BodyStep(old(payloadRequests), LedgerBody(response), payloadRequests, cmds)
    {
      cmds := AnyOrder(PayloadRepliesOf(response, PeersFor(payloadRequests, response.Id())));
      payloadRequests := payloadRequests - {response.Id()};
    }

    method HandleLedgerPayload(response: BodyResponse, cache: BlockCache, peer: NodeId)
        returns (cmds: seq<Command>, ghost replies: seq<Command>, ghost own: seq<Command>)
      requires Valid() && cache.Valid()
      modifies `payloadRequests, `selfPayloads, `completed, `leaked, `inFlight
      ensures Valid() && BodyStep(old(payloadRequests), LedgerBody(response), payloadRequests, replies)
      ensures cmds == replies + own && GoodEmits(mode, own)
      ensures PayloadStep(old(View()), None, response, peer, cache.Ids(), View(), own)
    {
      var answers := AnswerPeers(response);
      var mine := HandlePayloadResponse(None, response, cache, peer);
      cmds, replies, own := answers + mine, answers, mine;
    }

    method HandlePeerResponse(sender: NodeId, response: Response, cache: BlockCache, peer: NodeId) returns (cmds: seq<Command>)
      requires Valid() && cache.Valid()
      modifies `selfHeaders, `selfPayloads, `completed, `leaked, `inFlight
      ensures Valid() && GoodEmits(mode, cmds)
      ensures match response
              case HeadersReply(headers) => HeadersStep(old(View()), Some(sender), headers, peer, cache.Ids(), View(), cmds)
              case PayloadReply(payload) => PayloadStep(old(View()), Some(sender), payload, peer, cache.Ids(), View(), cmds)
    {
      match response
      case HeadersReply(headers) => cmds := HandleHeadersResponse(Some(sender), headers, cache, peer);
      case PayloadReply(payload) => cmds := HandlePayloadResponse(Some(sender), payload, cache, peer);
    }

    /** A request of this node to a peer timed out: ask another peer. */
    method HandleTimeout(request: Request, peer: NodeId) returns (cmds: seq<Command>)
      requires Valid()
      modifies `selfHeaders, `selfPayloads
      ensures Valid()
      ensures RetryStep(old(View()), request, peer, View(), cmds)
    {
      cmds := [];
      match request
      case HeadersRequest(range) =>
        if range in selfHeaders && selfHeaders[range].to.Some? {
          HeadersFromKeeps(View(), range, peer);
          selfHeaders := selfHeaders[range := SelfRequest(selfHeaders[range].requester, Some(peer))];
          cmds := [SendRequest(peer, request), ScheduleTimeout(request)];
        }
      case PayloadRequest(id) =>
        if id in selfPayloads && selfPayloads[id].Some? && selfPayloads[id].value.to.Some? {
          PayloadFromKeeps(View(), id, peer);
          selfPayloads := selfPayloads[id := Some(SelfRequest(selfPayloads[id].value.requester, Some(peer)))];
          cmds := [SendRequest(peer, request), ScheduleTimeout(request)];
        }
    }
  }

  lemma TrackStep(p: PayloadRequests, hs: seq<Header>, i: nat)
    requires i < |hs|
    ensures var q := Track(p, hs[..i]);
      Track(p, hs[..i + 1]) == if hs[i].bodyId in q then q else q[hs[i].bodyId := None]
    ensures Track(p, []) == p
  {
  }
}
