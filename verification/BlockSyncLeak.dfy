/** The in-flight counter of block sync can exceed the requests in flight: how, and what follows. */
module BlockSyncLeaks {
  import opened ConsensusTypes
  import opened BlockSyncStates
  import opened BlockSyncRuns
  import opened BlockSyncs

  /** The counter loses a place exactly when a request already started is answered from a
      cache instead; otherwise it stays as exact as it was. */
  lemma LeaksExactlyOnStartedHits(s: SelfState, cached: set<BodyId>, t: SelfState, cmds: seq<Command>)
    requires Consistent(s) && (forall id :: id in cached ==> id.BodyHash?)
    requires Initiated(s, cached, t, cmds)
    ensures t.inFlight - |Started(t.payloads)| == s.inFlight - |Started(s.payloads)| <==>
      forall id :: id in Started(s.payloads) ==> id !in cached && !InCaches(s.completed, id)
  {
    InitiateKeeps(s, cached, t, cmds);
    var lost := Started(s.payloads) * Hits(s, cached);
    assert t.leaked == s.leaked + |lost|;
    if |lost| == 0 {
      forall id | id in Started(s.payloads) ensures id !in cached && !InCaches(s.completed, id) {
        assert id !in lost;
      }
    } else {
      var id :| id in lost;
    }
  }

  // ---- a run that loses all ten places

  /** Nothing is tracked but `other`, and `n` places are lost. */
  ghost predicate Idle(s: SelfState, other: BlockRange, n: nat) {
    && s.payloads == map[] && s.completed == map[] && s.mode == StateSync
    && s.inFlight == n && s.leaked == n
    && s.headers.Keys == {other} && s.headers[other].requester == StateSync
  }

  /** The body of one header is being fetched. */
  ghost predicate Fetching(s: SelfState, other: BlockRange, n: nat, range: BlockRange, h: Header) {
    && s.payloads == map[h.bodyId := Some(SelfRequest(StateSync, None))]
    && s.completed == map[range := Completed(StateSync, [(h, None)], map[])] && s.mode == StateSync
    && s.inFlight == n + 1 && s.leaked == n
    && s.headers.Keys == {other} && s.headers[other].requester == StateSync
  }

  /** The range was asked for: its body is being fetched, unless no place is left. */
  ghost predicate Asked(s: SelfState, other: BlockRange, n: nat, range: BlockRange, h: Header) {
    if n < MAX_PAYLOAD_REQUESTS then Fetching(s, other, n, range, h)
    else s.inFlight == n && s.leaked == n && Started(s.payloads) == {} && WaitsUncached(s, h.bodyId)
  }

  /** The headers of a one-block range are in, and its body waits to be fetched. */
  ghost predicate Known(s: SelfState, other: BlockRange, n: nat, range: BlockRange, h: Header) {
    && s.payloads == map[h.bodyId := None]
    && s.completed == map[range := Completed(StateSync, [(h, None)], map[])] && s.mode == StateSync
    && s.inFlight == n && s.leaked == n
    && s.headers.Keys == {other} && s.headers[other].requester == StateSync
  }

  lemma HeadersKnown(s: SelfState, other: BlockRange, n: nat, range: BlockRange, h: Header)
    requires Idle(s, other, n) && range != other
    ensures Known(HeadersArrived(AskedFor(s, StateSync, range), range, [h]), other, n, range, h)
  {
    var m := HeadersArrived(AskedFor(s, StateSync, range), range, [h]);
    assert m.headers.Keys == {other};
    assert [h][0].bodyId in BodyIds([h]);
    assert BodyIds([h]) == {h.bodyId};
    assert m.payloads == map[h.bodyId := None];
    assert NoBodies([h]) == [(h, None)];
  }

  lemma KnownIsNotCached(s: SelfState, other: BlockRange, n: nat, range: BlockRange, h: Header)
    requires Known(s, other, n, range, h)
    ensures Hits(s, {}) == {} && s.payloads - Hits(s, {}) == s.payloads && Started(s.payloads) == {}
    ensures Unfinished(FillAll(s.completed, Hits(s, {}))) == s.completed
  {
    assert !InCaches(s.completed, h.bodyId);
    FillNothing(s.completed);
    assert s.completed[range].blocks[0].1.None?;
    assert !Filled(s.completed[range]);
  }

  lemma KnownStartsFetch(s: SelfState, other: BlockRange, n: nat, range: BlockRange, h: Header, t: SelfState, cmds: seq<Command>)
    requires Known(s, other, n, range, h) && n < MAX_PAYLOAD_REQUESTS
    requires Initiated(s, {}, t, cmds)
    ensures Fetching(t, other, n, range, h)
  {
    KnownIsNotCached(s, other, n, range, h);
    assert Started(t.payloads) - {} == Started(t.payloads) && Started(s.payloads) * {} == {};
    OneStarted(t.payloads, h.bodyId, t.inFlight - n);
    assert h.bodyId in Started(t.payloads);
  }

  lemma OneStarted(p: PayloadRequests, id: BodyId, count: nat)
    requires p.Keys == {id} && count == |Started(p)| && (count >= 1 || Waiting(p) == {})
    ensures Started(p) == {id} && count == 1
  {
  }

  lemma CacheHitLeaks(s: SelfState, other: BlockRange, n: nat, range: BlockRange, h: Header, m: SelfState, t: SelfState, cmds: seq<Command>)
    requires Fetching(s, other, n, range, h) && m.headers.Keys == {other} && m.headers[other].requester == StateSync
    requires m == s.(headers := m.headers) && h.bodyId.BodyHash?
    requires Initiated(m, {h.bodyId}, t, cmds)
    ensures Idle(t, other, n + 1)
  {
    assert h.bodyId in m.payloads && Hits(m, {h.bodyId}) == {h.bodyId};
    assert m.payloads - {h.bodyId} == map[];
    assert Started(m.payloads) * {h.bodyId} == {h.bodyId};
    assert t.payloads == map[] && Started(t.payloads) == {};
    var filled := FillAll(m.completed, {h.bodyId});
    assert filled.Keys == {range};
    assert Filled(filled[range]);
    assert Unfinished(filled) == map[];
  }

  /** The body of a range arrives in the cache while it is being fetched. */
  method LoseOnePlace(sync: BlockSync, ghost n: nat, h: Header, body: Body, range: BlockRange, other: BlockRange, peer: NodeId)
    requires sync.Valid() && Idle(sync.View(), other, n) && n < MAX_PAYLOAD_REQUESTS
    requires h.bodyId == BodyHash(body) && range != other && HeaderChain(range, [h])
    modifies sync
    ensures sync.Valid() && Idle(sync.View(), other, n + 1)
  {
    AskAndFetch(sync, n, h, range, other, peer);
    ghost var s := sync.View();
    var cache := BufferCache(map[BodyHash(body) := body]);
    assert cache.Ids() == {h.bodyId};
    var cmds := sync.HandleHeadersResponse(None, HeadersNotAvailable(other), cache, peer);
    FetchOutcome(s, other, n, range, h, peer, sync.View(), cmds);
  }

  lemma FetchOutcome(s: SelfState, other: BlockRange, n: nat, range: BlockRange, h: Header, peer: NodeId, t: SelfState, cmds: seq<Command>)
    requires Fetching(s, other, n, range, h) && h.bodyId.BodyHash?
    requires HeadersStep(s, None, HeadersNotAvailable(other), peer, {h.bodyId}, t, cmds)
    ensures Idle(t, other, n + 1)
  {
    assert other in s.headers;
    var mid := AfterHeaders(s, None, HeadersNotAvailable(other), peer).0;
    var more :| Initiated(mid, {h.bodyId}, t, more);
    CacheHitLeaks(s, other, n, range, h, mid, t, more);
  }

  lemma AskOutcome(s: SelfState, other: BlockRange, n: nat, range: BlockRange, h: Header, peer: NodeId, t: SelfState, cmds: seq<Command>)
    requires Idle(s, other, n) && n <= MAX_PAYLOAD_REQUESTS && range != other && HeaderChain(range, [h])
    requires HeadersStep(AskedFor(s, StateSync, range), None, HeadersFound(range, [h]), peer, {}, t, cmds)
    ensures Asked(t, other, n, range, h)
  {
    var mid := HeadersArrived(AskedFor(s, StateSync, range), range, [h]);
    HeadersKnown(s, other, n, range, h);
    var more :| Initiated(mid, {}, t, more);
    if n < MAX_PAYLOAD_REQUESTS {
      KnownStartsFetch(mid, other, n, range, h, t, more);
    } else {
      KnownWaits(mid, other, n, range, h, t, more);
    }
  }

  method AskAndFetch(sync: BlockSync, ghost n: nat, h: Header, range: BlockRange, other: BlockRange, peer: NodeId)
    requires sync.Valid() && Idle(sync.View(), other, n) && n <= MAX_PAYLOAD_REQUESTS
    requires range != other && HeaderChain(range, [h])
    modifies sync
    ensures sync.Valid()
    ensures Asked(sync.View(), other, n, range, h)
  {
    ghost var s := sync.View();
    var _ := sync.HandleSelfRequest(StateSync, range);
    var cache := BufferCache(map[]);
    assert cache.Ids() == {};
    var cmds := sync.HandleHeadersResponse(None, HeadersFound(range, [h]), cache, peer);
    AskOutcome(s, other, n, range, h, peer, sync.View(), cmds);
  }

  lemma KnownWaits(s: SelfState, other: BlockRange, n: nat, range: BlockRange, h: Header, t: SelfState, cmds: seq<Command>)
    requires Known(s, other, n, range, h) && n == MAX_PAYLOAD_REQUESTS
    requires Initiated(s, {}, t, cmds)
    ensures t.inFlight == n && t.leaked == n && Started(t.payloads) == {} && WaitsUncached(t, h.bodyId)
  {
    KnownIsNotCached(s, other, n, range, h);
    assert Started(t.payloads) - {} == Started(t.payloads);
    assert h.bodyId in t.payloads;
  }

  /** After ten lost places the counter is at its limit, nothing is in flight, and the next
      body waits for ever. */
  method StallExample(h: Header, body: Body, peer: NodeId) returns (sync: BlockSync)
    requires h.bodyId == BodyHash(body)
    ensures fresh(sync) && sync.Valid()
    ensures sync.inFlight == 10 && Started(sync.selfPayloads) == {}
    ensures sync.View().leaked == MAX_PAYLOAD_REQUESTS && WaitsUncached(sync.View(), h.bodyId)
  {
    var range, other := BlockRange(HashOf(h), 1), BlockRange(HashOf(h), 2);
    sync := new BlockSync();
    var _ := sync.HandleSelfRequest(StateSync, other);
    for n := 0 to MAX_PAYLOAD_REQUESTS
      invariant fresh(sync) && sync.Valid() && Idle(sync.View(), other, n)
    {
      LoseOnePlace(sync, n, h, body, range, other, peer);
    }
    AskAndFetch(sync, MAX_PAYLOAD_REQUESTS, h, range, other, peer);
  }
}
