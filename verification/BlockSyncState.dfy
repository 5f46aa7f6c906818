/** What the block sync client tracks, what must hold of it, and what each step does to it. */
module BlockSyncStates {
  import opened ConsensusTypes
  import opened SeqSets

  const MAX_PAYLOAD_REQUESTS: nat := 10

  datatype Requester = Consensus | StateSync

  /** `to` is `None` while the ledger is asked, and a peer afterwards. */
  datatype SelfRequest = SelfRequest(requester: Requester, to: Option<NodeId>)

  type SyncBlock = (Header, Option<Body>)

  /** A range whose headers are known and whose bodies are being fetched. */
  datatype Completed = Completed(requester: Requester, blocks: seq<SyncBlock>, payloadCache: map<BodyId, Body>)

  type PayloadRequests = map<BodyId, Option<SelfRequest>>
  type CompletedRanges = map<BlockRange, Completed>

  /** The client side.  `leaked` counts requests that ended without giving back their place
      in the in-flight counter. */
  datatype SelfState = SelfState(
    headers: map<BlockRange, SelfRequest>,
    payloads: PayloadRequests,
    inFlight: nat,
    completed: CompletedRanges,
    mode: Requester,
    leaked: nat)

  datatype Request = HeadersRequest(range: BlockRange) | PayloadRequest(id: BodyId)

  datatype HeadersResponse = HeadersFound(range: BlockRange, headers: seq<Header>) | HeadersNotAvailable(range: BlockRange)

  datatype BodyResponse = BodyFound(body: Body) | BodyNotAvailable(id: BodyId) {
    function Id(): BodyId {
      match this
      case BodyFound(body) => BodyHash(body)
      case BodyNotAvailable(id) => id
    }
  }

  datatype Response = HeadersReply(headers: HeadersResponse) | PayloadReply(payload: BodyResponse)

  datatype Command =
    | SendRequest(to: NodeId, request: Request)
    | ScheduleTimeout(request: Request)
    | ResetTimeout(request: Request)
    | SendResponse(to: NodeId, response: Response)
    | FetchHeaders(range: BlockRange)
    | FetchPayload(id: BodyId)
    | Emit(requester: Requester, range: BlockRange, blocks: seq<Block>)

  // ---- chains of headers

  ghost predicate Linked(hs: seq<Header>) {
    forall i :: 0 < i < |hs| ==> hs[i].qc.BlockId() == HashOf(hs[i - 1])
  }

  /** Exactly the headers of the range: as many as asked, linked, ending at the last block. */
  ghost predicate HeaderChain(range: BlockRange, hs: seq<Header>) {
    && |hs| == range.numBlocks
    && hs != []
    && HashOf(hs[|hs| - 1]) == range.lastBlockId
    && Linked(hs)
  }

  /** What the ledger finds are the headers of the range; the node asserts it. */
  ghost predicate FromLedger(response: HeadersResponse) {
    response.HeadersFound? ==> HeaderChain(response.range, response.headers)
  }

  lemma LinkedConcat(a: seq<Header>, b: seq<Header>)
    requires Linked(a) && Linked(b)
    requires a != [] && b != [] ==> b[0].qc.BlockId() == HashOf(a[|a| - 1])
    ensures Linked(a + b)
  {
  }

  // ---- filling in bodies

  function HeadersOf(blocks: seq<SyncBlock>): (hs: seq<Header>)
    ensures |hs| == |blocks| && forall i :: 0 <= i < |hs| ==> hs[i] == blocks[i].0
  {
    seq(|blocks|, i requires 0 <= i < |blocks| => blocks[i].0)
  }

  /** The body with a given id; ids that are no hash have none. */
  function BodyOf(id: BodyId): (b: Body)
    ensures id.BodyHash? ==> BodyHash(b) == id
  {
    if id.BodyHash? then id.body else Body([])
  }

  function FillBlock(b: SyncBlock, ids: set<BodyId>): SyncBlock {
    if b.1.None? && b.0.bodyId in ids then (b.0, Some(BodyOf(b.0.bodyId))) else b
  }

  function FillBlocks(blocks: seq<SyncBlock>, ids: set<BodyId>): (r: seq<SyncBlock>)
    ensures |r| == |blocks| && forall i :: 0 <= i < |r| ==> r[i] == FillBlock(blocks[i], ids)
  {
    seq(|blocks|, i requires 0 <= i < |blocks| => FillBlock(blocks[i], ids))
  }

  predicate Needs(blocks: seq<SyncBlock>, id: BodyId) {
    exists i :: 0 <= i < |blocks| && blocks[i].1.None? && blocks[i].0.bodyId == id
  }

  function Missing(blocks: seq<SyncBlock>, ids: set<BodyId>): (m: map<BodyId, Body>) {
    map id | id in ids && Needs(blocks, id) :: BodyOf(id)
  }

  function FillCompleted(c: Completed, ids: set<BodyId>): Completed {
    Completed(c.requester, FillBlocks(c.blocks, ids), c.payloadCache + Missing(c.blocks, ids))
  }

  function FillAll(completed: CompletedRanges, ids: set<BodyId>): (r: CompletedRanges) {
    map r | r in completed :: FillCompleted(completed[r], ids)
  }

  lemma FillNothing(completed: CompletedRanges)
    ensures FillAll(completed, {}) == completed
  {
    forall r | r in completed ensures FillCompleted(completed[r], {}) == completed[r] {
      assert FillBlocks(completed[r].blocks, {}) == completed[r].blocks;
    }
  }

  lemma MissingTwice(blocks: seq<SyncBlock>, ids: set<BodyId>, id: BodyId)
    ensures Missing(blocks, ids) + Missing(FillBlocks(blocks, ids), {id}) == Missing(blocks, ids + {id})
  {
  }

  /** Filling one more body after others is filling them together. */
  lemma FillTwice(c: Completed, ids: set<BodyId>, id: BodyId)
    ensures FillCompleted(FillCompleted(c, ids), {id}) == FillCompleted(c, ids + {id})
  {
    var first, second := Missing(c.blocks, ids), Missing(FillBlocks(c.blocks, ids), {id});
    FillBlocksTwice(c.blocks, ids, id);
    MissingTwice(c.blocks, ids, id);
    MergeAssociates(c.payloadCache, first, second);
  }

  lemma MergeAssociates(a: map<BodyId, Body>, b: map<BodyId, Body>, c: map<BodyId, Body>)
    ensures (a + b) + c == a + (b + c)
  {
  }

  lemma FillBlocksTwice(blocks: seq<SyncBlock>, ids: set<BodyId>, id: BodyId)
    ensures FillBlocks(FillBlocks(blocks, ids), {id}) == FillBlocks(blocks, ids + {id})
  {
  }

  lemma FillAllTwice(completed: CompletedRanges, ids: set<BodyId>, id: BodyId)
    ensures FillAll(FillAll(completed, ids), {id}) == FillAll(completed, ids + {id})
  {
    forall r | r in completed ensures FillCompleted(FillCompleted(completed[r], ids), {id}) == FillCompleted(completed[r], ids + {id}) {
      FillTwice(completed[r], ids, id);
    }
  }

  // ---- cached bodies

  predicate InCaches(completed: CompletedRanges, id: BodyId) {
    exists r :: r in completed && id in completed[r].payloadCache
  }

  /** Filling some bodies makes no other body available. */
  lemma CachesAfterFill(completed: CompletedRanges, ids: set<BodyId>, id: BodyId)
    requires id !in ids
    ensures InCaches(FillAll(completed, ids), id) <==> InCaches(completed, id)
  {
    if InCaches(completed, id) {
      var r :| r in completed && id in completed[r].payloadCache;
      assert r in FillAll(completed, ids) && id in FillAll(completed, ids)[r].payloadCache;
    }
    if InCaches(FillAll(completed, ids), id) {
      var r :| r in FillAll(completed, ids) && id in FillAll(completed, ids)[r].payloadCache;
      assert r in completed && id in completed[r].payloadCache;
    }
  }

  /** The tracked payloads that need no request, because some cache has them. */
  function Hits(s: SelfState, cached: set<BodyId>): (h: set<BodyId>) {
    set id | id in s.payloads && (id in cached || InCaches(s.completed, id))
  }

  // ---- finished ranges

  predicate Filled(c: Completed) {
    forall i :: 0 <= i < |c.blocks| ==> c.blocks[i].1.Some?
  }

  function Unfinished(completed: CompletedRanges): (r: CompletedRanges) {
    map r | r in completed && !Filled(completed[r]) :: completed[r]
  }

  function FullBlocks(blocks: seq<SyncBlock>): (r: seq<Block>)
    requires forall i :: 0 <= i < |blocks| ==> blocks[i].1.Some?
    ensures |r| == |blocks| && forall i :: 0 <= i < |r| ==> r[i] == Block(blocks[i].0, blocks[i].1.value)
  {
    seq(|blocks|, i requires 0 <= i < |blocks| => Block(blocks[i].0, blocks[i].1.value))
  }

  function EmitOf(range: BlockRange, c: Completed): Command
    requires Filled(c)
  {
    Emit(c.requester, range, FullBlocks(c.blocks))
  }

  function EmitsOf(completed: CompletedRanges): (cmds: set<Command>) {
    set r | r in completed && Filled(completed[r]) :: EmitOf(r, completed[r])
  }

  function Among(completed: CompletedRanges, rs: seq<BlockRange>): CompletedRanges {
    map r | r in completed && r in rs :: completed[r]
  }

  lemma EmitSnoc(completed: CompletedRanges, rs: seq<BlockRange>, r: BlockRange)
    requires r in completed && Filled(completed[r]) && r !in rs
    ensures EmitOf(r, completed[r]) !in EmitsOf(Among(completed, rs))
    ensures EmitsOf(Among(completed, rs + [r])) == EmitsOf(Among(completed, rs)) + {EmitOf(r, completed[r])}
  {
    var a, b := Among(completed, rs), Among(completed, rs + [r]);
    forall cmd | cmd in EmitsOf(a) ensures cmd in EmitsOf(b) {
      var x :| x in a && Filled(a[x]) && cmd == EmitOf(x, a[x]);
      assert x in b && b[x] == a[x];
    }
    forall cmd | cmd in EmitsOf(b) ensures cmd in EmitsOf(a) || cmd == EmitOf(r, completed[r]) {
      var x :| x in b && Filled(b[x]) && cmd == EmitOf(x, b[x]);
      assert x != r ==> x in a && a[x] == b[x];
    }
    assert r in b && b[r] == completed[r];
  }

  /** What a requester relies on: exactly the blocks of its range, linked, with their bodies. */
  ghost predicate GoodEmit(mode: Requester, cmd: Command) {
    cmd.Emit? ==>
      && cmd.requester == mode
      && |cmd.blocks| == cmd.range.numBlocks && cmd.blocks != []
      && cmd.blocks[|cmd.blocks| - 1].Id() == cmd.range.lastBlockId
      && (forall i :: 0 < i < |cmd.blocks| ==> cmd.blocks[i].ParentId() == cmd.blocks[i - 1].Id())
      && (forall i :: 0 <= i < |cmd.blocks| ==> cmd.blocks[i].BodyId() == BodyHash(cmd.blocks[i].body))
  }

  ghost predicate GoodEmits(mode: Requester, cmds: seq<Command>) {
    forall cmd :: cmd in cmds ==> GoodEmit(mode, cmd)
  }

  lemma GoodConcat(mode: Requester, a: seq<Command>, b: seq<Command>)
    requires GoodEmits(mode, a) && GoodEmits(mode, b)
    ensures GoodEmits(mode, a + b)
  {
  }

  // ---- the invariant

  function Started(p: PayloadRequests): (s: set<BodyId>) {
    set id | id in p && p[id].Some?
  }

  function Waiting(p: PayloadRequests): (s: set<BodyId>) {
    set id | id in p && p[id].None?
  }

  ghost predicate BlockOk(tracked: set<BodyId>, b: SyncBlock) {
    match b.1
    case None => b.0.bodyId in tracked
    case Some(body) => BodyHash(body) == b.0.bodyId
  }

  ghost predicate CacheOk(c: Completed) {
    forall id :: id in c.payloadCache ==> BodyHash(c.payloadCache[id]) == id
  }

  /** The headers are the range's, every missing body is tracked, every other body fits. */
  ghost predicate RangeOk(mode: Requester, tracked: set<BodyId>, range: BlockRange, c: Completed) {
    && c.requester == mode
    && HeaderChain(range, HeadersOf(c.blocks))
    && (forall i :: 0 <= i < |c.blocks| ==> BlockOk(tracked, c.blocks[i]))
    && CacheOk(c)
  }

  ghost predicate RangesOk(mode: Requester, tracked: set<BodyId>, completed: CompletedRanges) {
    forall r :: r in completed ==> RangeOk(mode, tracked, r, completed[r])
  }

  ghost predicate RequestsOk(s: SelfState) {
    && (forall r :: r in s.headers ==> s.headers[r].requester == s.mode && r.numBlocks > 0)
    && (forall id :: id in Started(s.payloads) ==> s.payloads[id].value.requester == s.mode)
    && s.headers.Keys !! s.completed.Keys
  }

  /** The counter is the number of started requests, plus what leaked. */
  ghost predicate CounterOk(s: SelfState) {
    s.inFlight == |Started(s.payloads)| + s.leaked && s.inFlight <= MAX_PAYLOAD_REQUESTS
  }

  /** Holds in the middle of an event. */
  ghost predicate Consistent(s: SelfState) {
    RequestsOk(s) && RangesOk(s.mode, s.payloads.Keys, s.completed) && CounterOk(s)
  }

  /** Holds between events: also, no finished range waits to be emitted, and a payload waits
      to be requested only while the counter is at its limit. */
  ghost predicate Inv(s: SelfState) {
    && Consistent(s)
    && (forall r :: r in s.completed ==> !Filled(s.completed[r]))
    && (s.inFlight == MAX_PAYLOAD_REQUESTS || Waiting(s.payloads) == {})
  }

  // ---- single steps

  lemma FillKeepsRange(mode: Requester, tracked: set<BodyId>, range: BlockRange, c: Completed, ids: set<BodyId>)
    requires RangeOk(mode, tracked, range, c) && forall id :: id in ids ==> id.BodyHash?
    ensures RangeOk(mode, tracked - ids, range, FillCompleted(c, ids))
  {
  }

  lemma FillKeepsRanges(mode: Requester, tracked: set<BodyId>, completed: CompletedRanges, ids: set<BodyId>)
    requires RangesOk(mode, tracked, completed) && forall id :: id in ids ==> id.BodyHash?
    ensures RangesOk(mode, tracked - ids, FillAll(completed, ids))
  {
    forall r | r in completed ensures RangeOk(mode, tracked - ids, r, FillCompleted(completed[r], ids)) {
      FillKeepsRange(mode, tracked, r, completed[r], ids);
    }
  }

  lemma EmitIsGood(mode: Requester, tracked: set<BodyId>, range: BlockRange, c: Completed)
    requires RangeOk(mode, tracked, range, c) && Filled(c)
    ensures GoodEmit(mode, EmitOf(range, c))
  {
  }

  lemma EmitsAreGood(mode: Requester, tracked: set<BodyId>, completed: CompletedRanges, cmd: Command)
    requires RangesOk(mode, tracked, completed) && cmd in EmitsOf(completed)
    ensures GoodEmit(mode, cmd)
  {
    var r :| r in completed && Filled(completed[r]) && cmd == EmitOf(r, completed[r]);
    EmitIsGood(mode, tracked, r, completed[r]);
  }

  /** Removing requests that hit a cache: those already started leak. */
  lemma RemoveHits(p: PayloadRequests, hits: set<BodyId>)
    ensures Started(p - hits) == Started(p) - hits
    ensures |Started(p)| == |Started(p - hits)| + |Started(p) * hits|
  {
  }

  /** `q` is `p` with some waiting requests started. */
  ghost predicate Starts(mode: Requester, p: PayloadRequests, q: PayloadRequests) {
    && q.Keys == p.Keys
    && forall id :: id in p ==> q[id] == p[id] || (p[id].None? && q[id] == Some(SelfRequest(mode, None)))
  }

  lemma StartsCount(mode: Requester, p: PayloadRequests, q: PayloadRequests)
    requires Starts(mode, p, q)
    ensures Started(p) <= Started(q)
    ensures |Started(q)| == |Started(p)| + |Started(q) - Started(p)|
  {
  }

  /** Fill what is cached, start waiting requests up to the limit, emit what is finished. */
  ghost predicate Initiated(s: SelfState, cached: set<BodyId>, t: SelfState, cmds: seq<Command>) {
    var hits := Hits(s, cached);
    var p := s.payloads - hits;
    var filled := FillAll(s.completed, hits);
    && t.headers == s.headers && t.mode == s.mode
    && Starts(s.mode, p, t.payloads)
    && t.leaked == s.leaked + |Started(s.payloads) * hits|
    && t.inFlight == s.inFlight + |Started(t.payloads) - Started(p)|
    && t.inFlight <= MAX_PAYLOAD_REQUESTS
    && (t.inFlight == MAX_PAYLOAD_REQUESTS || Waiting(t.payloads) == {})
    && t.completed == Unfinished(filled)
    && Lists(cmds, FetchesOf(Started(t.payloads) - Started(p)) + EmitsOf(filled))
  }

  /** The state once the hits in `done` are filled in. */
  function AfterHits(s: SelfState, done: set<BodyId>): SelfState {
    s.(payloads := s.payloads - done,
       completed := FillAll(s.completed, done),
       leaked := s.leaked + |Started(s.payloads) * done|)
  }

  predicate IsHit(s: SelfState, cached: set<BodyId>, id: BodyId) {
    id in cached || InCaches(s.completed, id)
  }

  /** The state once one tracked payload is taken from a cache; its place stays counted. */
  function UseCached(s: SelfState, id: BodyId): SelfState
    requires id in s.payloads
  {
    s.(payloads := s.payloads - {id},
       completed := FillAll(s.completed, {id}),
       leaked := s.leaked + if s.payloads[id].Some? then 1 else 0)
  }

  lemma HitStep(s: SelfState, done: set<BodyId>, id: BodyId)
    requires id in s.payloads && id !in done
    ensures AfterHits(s, done + {id}) == UseCached(AfterHits(s, done), id)
  {
    FillAllTwice(s.completed, done, id);
    assert s.payloads - (done + {id}) == (s.payloads - done) - {id};
    LeakStep(Started(s.payloads), done, id);
  }

  function HitsAmong(s: SelfState, cached: set<BodyId>, ids: seq<BodyId>): (h: set<BodyId>) {
    set id | id in ids && id in Hits(s, cached)
  }

  lemma CacheLoopBegin(s: SelfState, cached: set<BodyId>)
    ensures AfterHits(s, HitsAmong(s, cached, [])) == s
  {
    FillNothing(s.completed);
    assert HitsAmong(s, cached, []) == {} && s.payloads - {} == s.payloads && Started(s.payloads) * {} == {};
  }

  /** Taking one payload from a cache does not change which others are cached. */
  lemma CacheLoopStep(s: SelfState, cached: set<BodyId>, ids: seq<BodyId>, i: nat)
    requires Consistent(s) && (forall id :: id in cached ==> id.BodyHash?)
    requires Lists(ids, s.payloads.Keys) && i < |ids|
    ensures var t := AfterHits(s, HitsAmong(s, cached, ids[..i]));
      && RangesOk(t.mode, t.payloads.Keys, t.completed)
      && ids[i] in t.payloads
      && AfterHits(s, HitsAmong(s, cached, ids[..i + 1])) == if IsHit(t, cached, ids[i]) then UseCached(t, ids[i]) else t
  {
    var id, done := ids[i], HitsAmong(s, cached, ids[..i]);
    HitsAreHashes(s, cached);
    ListsFresh(ids, s.payloads.Keys, i);
    FillKeepsRanges(s.mode, s.payloads.Keys, s.completed, done);
    assert (s.payloads - done).Keys == s.payloads.Keys - done;
    CachesAfterFill(s.completed, done, id);
    HitStep(s, done, id);
    assert ids[..i + 1] == ids[..i] + [id];
    assert HitsAmong(s, cached, ids[..i + 1]) == if id in Hits(s, cached) then done + {id} else done;
  }

  lemma CacheLoopEnd(s: SelfState, cached: set<BodyId>, ids: seq<BodyId>)
    requires Lists(ids, s.payloads.Keys)
    ensures HitsAmong(s, cached, ids) == Hits(s, cached)
  {
    ListsMember(ids, s.payloads.Keys);
  }

  lemma LeakStep(started: set<BodyId>, done: set<BodyId>, id: BodyId)
    requires id !in done
    ensures |started * (done + {id})| == |started * done| + if id in started then 1 else 0
  {
    assert started * (done + {id}) == started * done + if id in started then {id} else {};
  }

  /** `count` waiting requests of `p` were started, each fetched once. */
  ghost predicate Starting(mode: Requester, p: PayloadRequests, q: PayloadRequests, count: nat, cmds: seq<Command>) {
    && Starts(mode, p, q)
    && |Started(q) - Started(p)| == count
    && Lists(cmds, FetchesOf(Started(q) - Started(p)))
  }

  lemma StartBegin(mode: Requester, p: PayloadRequests)
    ensures Starting(mode, p, p, 0, [])
  {
  }

  lemma StartStep(mode: Requester, p: PayloadRequests, q: PayloadRequests, count: nat, cmds: seq<Command>, id: BodyId)
    requires Starting(mode, p, q, count, cmds) && id in Waiting(q)
    ensures Starting(mode, p, q[id := Some(SelfRequest(mode, None))], count + 1, cmds + [FetchPayload(id)])
  {
    var q', before := q[id := Some(SelfRequest(mode, None))], Started(q) - Started(p);
    StartOne(mode, p, q, id);
    assert |before + {id}| == |before| + 1;
    FetchSnoc(before, id);
    ListsSnoc(cmds, FetchesOf(before), FetchPayload(id));
  }

  lemma StartOne(mode: Requester, p: PayloadRequests, q: PayloadRequests, id: BodyId)
    requires Starts(mode, p, q) && id in Waiting(q)
    ensures var q' := q[id := Some(SelfRequest(mode, None))];
      Starts(mode, p, q') && id !in Started(q) && Started(q') - Started(p) == Started(q) - Started(p) + {id}
  {
  }

  lemma FetchSnoc(ids: set<BodyId>, id: BodyId)
    requires id !in ids
    ensures FetchPayload(id) !in FetchesOf(ids)
    ensures FetchesOf(ids + {id}) == FetchesOf(ids) + {FetchPayload(id)}
  {
  }

  function FetchesOf(ids: set<BodyId>): (cmds: set<Command>) {
    set id | id in ids :: FetchPayload(id)
  }

  lemma HitsKeepRanges(s: SelfState, cached: set<BodyId>)
    requires Consistent(s) && forall id :: id in cached ==> id.BodyHash?
    ensures var m := AfterHits(s, Hits(s, cached)); RangesOk(m.mode, m.payloads.Keys, m.completed)
  {
    HitsAreHashes(s, cached);
    FillKeepsRanges(s.mode, s.payloads.Keys, s.completed, Hits(s, cached));
    assert (s.payloads - Hits(s, cached)).Keys == s.payloads.Keys - Hits(s, cached);
  }

  lemma HitsAreHashes(s: SelfState, cached: set<BodyId>)
    requires Consistent(s) && forall id :: id in cached ==> id.BodyHash?
    ensures forall id :: id in Hits(s, cached) ==> id.BodyHash?
  {
  }

  lemma InitiateKeeps(s: SelfState, cached: set<BodyId>, t: SelfState, cmds: seq<Command>)
    requires Consistent(s) && forall id :: id in cached ==> id.BodyHash?
    requires Initiated(s, cached, t, cmds)
    ensures Inv(t) && GoodEmits(t.mode, cmds)
  {
    var hits := Hits(s, cached);
    var p, filled := s.payloads - hits, FillAll(s.completed, hits);
    HitsAreHashes(s, cached);
    FillKeepsRanges(s.mode, s.payloads.Keys, s.completed, hits);
    assert p.Keys == s.payloads.Keys - hits;
    RemoveHits(s.payloads, hits);
    StartsCount(s.mode, p, t.payloads);
    InitiateKeepsRequests(s, hits, t);
    var all := FetchesOf(Started(t.payloads) - Started(p)) + EmitsOf(filled);
    ListsMember(cmds, all);
    forall cmd | cmd in cmds ensures GoodEmit(t.mode, cmd) {
      if cmd in EmitsOf(filled) {
        EmitsAreGood(s.mode, p.Keys, filled, cmd);
      }
    }
  }

  /** Waiting requests are started until the limit is reached, each fetched once. */
  ghost predicate StartedUp(s: SelfState, t: SelfState, cmds: seq<Command>) {
    && t == s.(payloads := t.payloads, inFlight := t.inFlight)
    && Starts(s.mode, s.payloads, t.payloads)
    && t.inFlight == s.inFlight + |Started(t.payloads) - Started(s.payloads)|
    && t.inFlight <= MAX_PAYLOAD_REQUESTS
    && (t.inFlight == MAX_PAYLOAD_REQUESTS || Waiting(t.payloads) == {})
    && Lists(cmds, FetchesOf(Started(t.payloads) - Started(s.payloads)))
  }

  /** The three parts of initiating requests, one after the other. */
  lemma InitiateParts(s: SelfState, cached: set<BodyId>, mid: SelfState, fetches: seq<Command>, emits: seq<Command>)
    requires Consistent(s) && (forall id :: id in cached ==> id.BodyHash?)
    requires StartedUp(AfterHits(s, Hits(s, cached)), mid, fetches) && Lists(emits, EmitsOf(mid.completed))
    ensures var t := mid.(completed := Unfinished(mid.completed));
      && Initiated(s, cached, t, fetches + emits)
      && Inv(t) && GoodEmits(t.mode, fetches + emits)
  {
    var m, t := AfterHits(s, Hits(s, cached)), mid.(completed := Unfinished(mid.completed));
    ListsAppend(fetches, FetchesOf(Started(t.payloads) - Started(m.payloads)), emits, EmitsOf(m.completed));
    InitiateKeeps(s, cached, t, fetches + emits);
  }

  lemma InitiateKeepsRequests(s: SelfState, hits: set<BodyId>, t: SelfState)
    requires RequestsOk(s) && t.headers == s.headers && t.mode == s.mode
    requires Starts(s.mode, s.payloads - hits, t.payloads) && t.completed.Keys <= s.completed.Keys
    ensures RequestsOk(t)
  {
  }

  // ---- the events of the client

  function Cleared(mode: Requester): SelfState {
    SelfState(map[], map[], 0, map[], mode, 0)
  }

  function AskedFor(s: SelfState, requester: Requester, range: BlockRange): SelfState {
    var base := if requester == s.mode then s else Cleared(requester);
    if range in base.headers || range in base.completed then base
    else base.(headers := base.headers[range := SelfRequest(requester, None)])
  }

  lemma ClearedInv(mode: Requester)
    ensures Inv(Cleared(mode))
  {
  }

  lemma AskedForKeeps(s: SelfState, requester: Requester, range: BlockRange)
    requires Inv(s) && range.numBlocks > 0
    ensures Inv(AskedFor(s, requester, range))
  {
    ClearedInv(requester);
    var base := if requester == s.mode then s else Cleared(requester);
    if range !in base.headers && range !in base.completed {
      AskKeeps(base, range);
    }
  }

  lemma AskKeeps(s: SelfState, range: BlockRange)
    requires Inv(s) && range.numBlocks > 0 && range !in s.headers && range !in s.completed
    ensures Inv(s.(headers := s.headers[range := SelfRequest(s.mode, None)]))
  {
  }

  function Cancelled(s: SelfState, requester: Requester, range: BlockRange): SelfState {
    s.(headers := if range in s.headers && s.headers[range].requester == requester then s.headers - {range} else s.headers,
       completed := if range in s.completed && s.completed[range].requester == requester then s.completed - {range} else s.completed)
  }

  lemma CancelKeeps(s: SelfState, requester: Requester, range: BlockRange)
    requires Inv(s)
    ensures Inv(Cancelled(s, requester, range))
  {
  }

  /** `t` is `s` with the range removed, if `requester` is the one that asks, and otherwise `s`. */
  ghost predicate CancelsOnly(s: SelfState, requester: Requester, range: BlockRange, t: SelfState) {
    && t == s.(headers := t.headers, completed := t.completed)
    && t.headers - {range} == s.headers - {range} && t.completed - {range} == s.completed - {range}
    && (requester == s.mode ==> range !in t.headers && range !in t.completed)
    && (requester != s.mode ==> t == s)
  }

  lemma CancelRemoves(s: SelfState, requester: Requester, range: BlockRange)
    requires range in s.headers ==> s.headers[range].requester == s.mode
    requires range in s.completed ==> s.completed[range].requester == s.mode
    ensures CancelsOnly(s, requester, range, Cancelled(s, requester, range))
  {
  }

  /** Cancelling by the requester that asked removes the range and nothing else; the payloads keep
      their requests.  By another requester it does nothing. */
  lemma CancelIsExact(s: SelfState, requester: Requester, range: BlockRange)
    requires Inv(s)
    ensures CancelsOnly(s, requester, range, Cancelled(s, requester, range))
  {
    assert range in s.completed ==> RangeOk(s.mode, s.payloads.Keys, range, s.completed[range]);
    CancelRemoves(s, requester, range);
  }

  /** Track the bodies of new headers; those already tracked stay as they are. */
  function Track(p: PayloadRequests, hs: seq<Header>): (q: PayloadRequests) {
    map id | id in p.Keys + BodyIds(hs) :: if id in p then p[id] else None
  }

  function BodyIds(hs: seq<Header>): (ids: set<BodyId>) {
    set i | 0 <= i < |hs| :: hs[i].bodyId
  }

  function NoBodies(hs: seq<Header>): (blocks: seq<SyncBlock>)
    ensures |blocks| == |hs| && forall i :: 0 <= i < |hs| ==> blocks[i] == (hs[i], None)
  {
    seq(|hs|, i requires 0 <= i < |hs| => (hs[i], None))
  }

  function HeadersArrived(s: SelfState, range: BlockRange, hs: seq<Header>): SelfState {
    s.(headers := s.headers - {range},
       payloads := Track(s.payloads, hs),
       completed := s.completed[range := Completed(s.mode, NoBodies(hs), map[])])
  }

  lemma HeadersArrivedKeeps(s: SelfState, range: BlockRange, hs: seq<Header>)
    requires Consistent(s) && HeaderChain(range, hs)
    ensures Consistent(HeadersArrived(s, range, hs))
  {
    var t := HeadersArrived(s, range, hs);
    assert Started(t.payloads) == Started(s.payloads);
    forall r | r in t.completed ensures RangeOk(t.mode, t.payloads.Keys, r, t.completed[r]) {
      if r != range {
        assert RangeOk(s.mode, s.payloads.Keys, r, s.completed[r]);
        TrackMoreKeeps(s.mode, s.payloads.Keys, t.payloads.Keys, r, s.completed[r]);
      } else {
        NewRangeOk(s.mode, t.payloads.Keys, range, hs);
      }
    }
  }

  lemma NewRangeOk(mode: Requester, tracked: set<BodyId>, range: BlockRange, hs: seq<Header>)
    requires HeaderChain(range, hs) && BodyIds(hs) <= tracked
    ensures RangeOk(mode, tracked, range, Completed(mode, NoBodies(hs), map[]))
  {
  }

  lemma TrackMoreKeeps(mode: Requester, tracked: set<BodyId>, more: set<BodyId>, range: BlockRange, c: Completed)
    requires RangeOk(mode, tracked, range, c) && tracked <= more
    ensures RangeOk(mode, more, range, c)
  {
  }

  /** A started payload request is answered with its body. */
  function PayloadArrived(s: SelfState, id: BodyId): SelfState
    requires s.inFlight > 0
  {
    s.(inFlight := s.inFlight - 1,
       payloads := s.payloads - {id},
       completed := FillAll(s.completed, {id}))
  }

  lemma PayloadArrivedKeeps(s: SelfState, id: BodyId)
    requires Consistent(s) && id in Started(s.payloads) && id.BodyHash?
    ensures s.inFlight > 0 && Consistent(PayloadArrived(s, id))
  {
    RemoveHits(s.payloads, {id});
    assert Started(s.payloads) * {id} == {id};
    FillKeepsRanges(s.mode, s.payloads.Keys, s.completed, {id});
    var t := PayloadArrived(s, id);
    assert t.payloads.Keys == s.payloads.Keys - {id};
    forall x | x in Started(t.payloads) ensures t.payloads[x].value.requester == t.mode {
      assert x in Started(s.payloads);
    }
  }

  lemma EmitKeeps(s: SelfState)
    requires Consistent(s)
    ensures Consistent(s.(completed := Unfinished(s.completed)))
  {
  }

  /** Sending a request to another peer changes nothing else. */
  function HeadersFrom(s: SelfState, range: BlockRange, peer: NodeId): SelfState
    requires range in s.headers
  {
    s.(headers := s.headers[range := SelfRequest(s.headers[range].requester, Some(peer))])
  }

  function PayloadFrom(s: SelfState, id: BodyId, peer: NodeId): SelfState
    requires id in s.payloads && s.payloads[id].Some?
  {
    s.(payloads := s.payloads[id := Some(SelfRequest(s.payloads[id].value.requester, Some(peer)))])
  }

  lemma HeadersFromKeeps(s: SelfState, range: BlockRange, peer: NodeId)
    requires Inv(s) && range in s.headers
    ensures Inv(HeadersFrom(s, range, peer))
  {
  }

  lemma PayloadFromKeeps(s: SelfState, id: BodyId, peer: NodeId)
    requires Inv(s) && id in Started(s.payloads)
    ensures Inv(PayloadFrom(s, id, peer))
  {
    var t := PayloadFrom(s, id, peer);
    assert t.payloads.Keys == s.payloads.Keys;
    assert Started(t.payloads) == Started(s.payloads) && Waiting(t.payloads) == Waiting(s.payloads);
  }

  // ---- responses, up to the point where payload requests are initiated

  function AskPeer(peer: NodeId, request: Request): seq<Command> {
    [SendRequest(peer, request), ScheduleTimeout(request)]
  }

  /** A headers response to a request of this node: from a peer, or (`None`) the ledger. */
  ghost function AfterHeaders(s: SelfState, sender: Option<NodeId>, response: HeadersResponse, peer: NodeId): (SelfState, seq<Command>)
    requires response.range in s.headers
  {
    var range := response.range;
    match response
    case HeadersFound(_, hs) =>
      if !HeaderChain(range, hs) then (s, [])
      else (HeadersArrived(s, range, hs), if sender.Some? then [ResetTimeout(HeadersRequest(range))] else [])
    case HeadersNotAvailable(_) =>
      if sender.Some? || s.headers[range].to.Some? then (s, [])
      else (HeadersFrom(s, range, peer), AskPeer(peer, HeadersRequest(range)))
  }

  lemma AfterHeadersKeeps(s: SelfState, sender: Option<NodeId>, response: HeadersResponse, peer: NodeId)
    requires Inv(s) && response.range in s.headers
    ensures Consistent(AfterHeaders(s, sender, response, peer).0) && AfterHeaders(s, sender, response, peer).0.mode == s.mode
    ensures GoodEmits(s.mode, AfterHeaders(s, sender, response, peer).1)
  {
    match response
    case HeadersFound(range, hs) =>
      if HeaderChain(range, hs) {
        HeadersArrivedKeeps(s, range, hs);
      }
    case HeadersNotAvailable(range) => HeadersFromKeeps(s, range, peer);
  }

  /** A payload response to a started request of this node. */
  function AfterPayload(s: SelfState, sender: Option<NodeId>, response: BodyResponse, peer: NodeId): (SelfState, seq<Command>)
    requires response.Id() in s.payloads && s.payloads[response.Id()].Some? && s.inFlight > 0
  {
    var id := response.Id();
    match response
    case BodyFound(_) => (PayloadArrived(s, id), if sender.Some? then [ResetTimeout(PayloadRequest(id))] else [])
    case BodyNotAvailable(_) =>
      if sender.Some? || s.payloads[id].value.to.Some? then (s, [])
      else (PayloadFrom(s, id, peer), AskPeer(peer, PayloadRequest(id)))
  }

  lemma AfterPayloadKeeps(s: SelfState, sender: Option<NodeId>, response: BodyResponse, peer: NodeId)
    requires Inv(s) && response.Id() in Started(s.payloads)
    ensures s.inFlight > 0 && Consistent(AfterPayload(s, sender, response, peer).0)
    ensures GoodEmits(s.mode, AfterPayload(s, sender, response, peer).1)
  {
    RemoveHits(s.payloads, {response.Id()});
    assert Started(s.payloads) * {response.Id()} == {response.Id()};
    match response
    case BodyFound(body) => PayloadArrivedKeeps(s, BodyHash(body));
    case BodyNotAvailable(id) => PayloadFromKeeps(s, id, peer);
  }

  /** Handling headers for this node: an unexpected response changes nothing. */
  ghost predicate HeadersStep(s: SelfState, sender: Option<NodeId>, response: HeadersResponse, peer: NodeId,
                              cached: set<BodyId>, t: SelfState, cmds: seq<Command>)
  {
    if response.range !in s.headers then t == s && cmds == []
    else
      var (mid, own) := AfterHeaders(s, sender, response, peer);
      InitiatedAfter(mid, own, cached, t, cmds)
  }

  /** The commands `own`, and then what initiating requests issues. */
  ghost predicate InitiatedAfter(mid: SelfState, own: seq<Command>, cached: set<BodyId>, t: SelfState, cmds: seq<Command>) {
    exists more :: Initiated(mid, cached, t, more) && cmds == own + more
  }

  /** Handling a body for this node: so does one that was never asked for. */
  ghost predicate PayloadStep(s: SelfState, sender: Option<NodeId>, response: BodyResponse, peer: NodeId,
                              cached: set<BodyId>, t: SelfState, cmds: seq<Command>)
    requires Inv(s)
  {
    if response.Id() !in Started(s.payloads) then t == s && cmds == []
    else
      AfterPayloadKeeps(s, sender, response, peer);
      var (mid, own) := AfterPayload(s, sender, response, peer);
      exists emits, more ::
        && Lists(emits, EmitsOf(mid.completed))
        && Initiated(mid.(completed := Unfinished(mid.completed)), cached, t, more)
        && cmds == own + emits + more
  }

  /** A request to a peer timed out: another peer is asked. */
  ghost predicate RetryStep(s: SelfState, request: Request, peer: NodeId, t: SelfState, cmds: seq<Command>) {
    match request
    case HeadersRequest(range) =>
      if range in s.headers && s.headers[range].to.Some?
      then t == HeadersFrom(s, range, peer) && cmds == AskPeer(peer, request)
      else t == s && cmds == []
    case PayloadRequest(id) =>
      if id in Started(s.payloads) && s.payloads[id].value.to.Some?
      then t == PayloadFrom(s, id, peer) && cmds == AskPeer(peer, request)
      else t == s && cmds == []
  }

  lemma RetryKeeps(s: SelfState, request: Request, peer: NodeId, t: SelfState, cmds: seq<Command>)
    requires Inv(s) && RetryStep(s, request, peer, t, cmds)
    ensures Inv(t) && GoodEmits(t.mode, cmds)
  {
    match request
    case HeadersRequest(range) =>
      if range in s.headers {
        HeadersFromKeeps(s, range, peer);
      }
    case PayloadRequest(id) =>
      if id in Started(s.payloads) {
        PayloadFromKeeps(s, id, peer);
      }
  }

  lemma PayloadParts(s: SelfState, sender: Option<NodeId>, response: BodyResponse, peer: NodeId,
                     cached: set<BodyId>, t: SelfState, own: seq<Command>, emits: seq<Command>, more: seq<Command>)
    requires Inv(s) && response.Id() in Started(s.payloads) && s.inFlight > 0
    requires own == AfterPayload(s, sender, response, peer).1
    requires var mid := AfterPayload(s, sender, response, peer).0;
      Lists(emits, EmitsOf(mid.completed)) && Initiated(mid.(completed := Unfinished(mid.completed)), cached, t, more)
    requires GoodEmits(t.mode, more)
    ensures PayloadStep(s, sender, response, peer, cached, t, own + emits + more)
    ensures GoodEmits(t.mode, own + emits + more)
  {
    AfterPayloadKeeps(s, sender, response, peer);
    EmitsListGood(AfterPayload(s, sender, response, peer).0, emits);
    GoodConcat(t.mode, own, emits);
    GoodConcat(t.mode, own + emits, more);
  }

  lemma EmitsListGood(s: SelfState, cmds: seq<Command>)
    requires Consistent(s) && Lists(cmds, EmitsOf(s.completed))
    ensures GoodEmits(s.mode, cmds)
  {
    ListsMember(cmds, EmitsOf(s.completed));
    forall cmd | cmd in cmds ensures GoodEmit(s.mode, cmd) {
      EmitsAreGood(s.mode, s.payloads.Keys, s.completed, cmd);
    }
  }
}
