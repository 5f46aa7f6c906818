/** Runs of the block sync client: requests, cancellations, responses and timeouts in any order. */
module BlockSyncRuns {
  import opened ConsensusTypes
  import opened SeqSets
  import opened BlockSyncStates

  /** `cached` holds the ids of the bodies that the block cache has at the time of a response;
      `sender` is `None` for the ledger, and `peer` the peer to ask next. */
  datatype Event =
    | Asked(requester: Requester, range: BlockRange)
    | Dropped(requester: Requester, range: BlockRange)
    | HeadersIn(sender: Option<NodeId>, headers: HeadersResponse, peer: NodeId, cached: set<BodyId>)
    | PayloadIn(sender: Option<NodeId>, payload: BodyResponse, peer: NodeId, cached: set<BodyId>)
    | Expired(request: Request, peer: NodeId)

  /** What is cached are bodies, under their own ids. */
  ghost predicate CachesBodies(e: Event) {
    (e.HeadersIn? || e.PayloadIn?) ==> forall id :: id in e.cached ==> id.BodyHash?
  }

  /** What the handler of an event does. */
  ghost predicate Step(s: SelfState, e: Event, t: SelfState, cmds: seq<Command>)
    requires Inv(s)
  {
    match e
    case Asked(requester, range) =>
      if range.numBlocks == 0 then t == s && cmds == []
      else
        && t == AskedFor(s, requester, range)
        && cmds == if requester == s.mode && (range in s.headers || range in s.completed) then [] else [FetchHeaders(range)]
    case Dropped(requester, range) => t == Cancelled(s, requester, range) && cmds == []
    case HeadersIn(sender, response, peer, cached) => HeadersStep(s, sender, response, peer, cached, t, cmds)
    case PayloadIn(sender, response, peer, cached) => PayloadStep(s, sender, response, peer, cached, t, cmds)
    case Expired(request, peer) => RetryStep(s, request, peer, t, cmds)
  }

  lemma HeadersStepKeeps(s: SelfState, sender: Option<NodeId>, response: HeadersResponse, peer: NodeId,
                         cached: set<BodyId>, t: SelfState, cmds: seq<Command>)
    requires Inv(s) && (forall id :: id in cached ==> id.BodyHash?)
    requires HeadersStep(s, sender, response, peer, cached, t, cmds)
    ensures Inv(t) && GoodEmits(t.mode, cmds)
  {
    if response.range in s.headers {
      var (mid, own) := AfterHeaders(s, sender, response, peer);
      AfterHeadersKeeps(s, sender, response, peer);
      InitiatedAfterKeeps(mid, own, cached, t, cmds);
    }
  }

  lemma InitiatedAfterKeeps(mid: SelfState, own: seq<Command>, cached: set<BodyId>, t: SelfState, cmds: seq<Command>)
    requires Consistent(mid) && GoodEmits(mid.mode, own) && (forall id :: id in cached ==> id.BodyHash?)
    requires InitiatedAfter(mid, own, cached, t, cmds)
    ensures Inv(t) && GoodEmits(t.mode, cmds)
  {
    var more :| Initiated(mid, cached, t, more) && cmds == own + more;
    InitiateKeeps(mid, cached, t, more);
    GoodConcat(t.mode, own, more);
  }

  lemma PayloadStepKeeps(s: SelfState, sender: Option<NodeId>, response: BodyResponse, peer: NodeId,
                         cached: set<BodyId>, t: SelfState, cmds: seq<Command>)
    requires Inv(s) && (forall id :: id in cached ==> id.BodyHash?)
    requires PayloadStep(s, sender, response, peer, cached, t, cmds)
    ensures Inv(t) && GoodEmits(t.mode, cmds)
  {
    if response.Id() in Started(s.payloads) {
      AfterPayloadKeeps(s, sender, response, peer);
      var (mid, own) := AfterPayload(s, sender, response, peer);
      var emits, more :| Lists(emits, EmitsOf(mid.completed))
        && Initiated(mid.(completed := Unfinished(mid.completed)), cached, t, more) && cmds == own + emits + more;
      EmitKeeps(mid);
      InitiateKeeps(mid.(completed := Unfinished(mid.completed)), cached, t, more);
      PayloadParts(s, sender, response, peer, cached, t, own, emits, more);
    }
  }

  lemma StepKeeps(s: SelfState, e: Event, t: SelfState, cmds: seq<Command>)
    requires Inv(s) && CachesBodies(e) && Step(s, e, t, cmds)
    ensures Inv(t) && GoodEmits(t.mode, cmds)
  {
    match e
    case Asked(requester, range) =>
      if range.numBlocks > 0 {
        AskedForKeeps(s, requester, range);
      }
    case Dropped(requester, range) => CancelKeeps(s, requester, range);
    case HeadersIn(sender, response, peer, cached) => HeadersStepKeeps(s, sender, response, peer, cached, t, cmds);
    case PayloadIn(sender, response, peer, cached) => PayloadStepKeeps(s, sender, response, peer, cached, t, cmds);
    case Expired(request, peer) => RetryKeeps(s, request, peer, t, cmds);
  }

  /** A run from any state that satisfies the invariant. */
  ghost predicate IsRun(events: seq<Event>, states: seq<SelfState>, cmds: seq<seq<Command>>) {
    && |states| == |events| + 1 && |cmds| == |events|
    && Inv(states[0])
    && forall i :: 0 <= i < |events| ==> IsStep(states[i], events[i], states[i + 1], cmds[i])
  }

  ghost predicate IsStep(s: SelfState, e: Event, t: SelfState, cmds: seq<Command>) {
    CachesBodies(e) && (Inv(s) ==> Step(s, e, t, cmds))
  }

  lemma RunStep(events: seq<Event>, states: seq<SelfState>, cmds: seq<seq<Command>>, k: nat)
    requires IsRun(events, states, cmds) && 0 < k < |states|
    ensures IsStep(states[k - 1], events[k - 1], states[k], cmds[k - 1])
  {
    var i := k - 1;
    assert IsStep(states[i], events[i], states[i + 1], cmds[i]);
  }

  /** In every state of every run the invariant holds, and every range emitted on the way there
      was complete, linked and tagged with the requester of its time. */
  lemma {:induction false} RunKeepsInv(events: seq<Event>, states: seq<SelfState>, cmds: seq<seq<Command>>, k: nat)
    requires IsRun(events, states, cmds) && k < |states|
    ensures Inv(states[k])
    ensures k > 0 ==> GoodEmits(states[k].mode, cmds[k - 1])
  {
    if k == 0 {
    } else {
      RunKeepsInv(events, states, cmds, k - 1);
      RunStep(events, states, cmds, k);
      StepKeeps(states[k - 1], events[k - 1], states[k], cmds[k - 1]);
    }
  }

  // ---- ten lost places

  /** No event brings in another requester. */
  ghost predicate KeepsMode(mode: Requester, e: Event) {
    e.Asked? && e.range.numBlocks > 0 ==> e.requester == mode
  }

  ghost predicate CachedAt(e: Event, id: BodyId) {
    (e.HeadersIn? || e.PayloadIn?) && id in e.cached
  }

  /** The payload waits to be requested and no unfinished range has it. */
  ghost predicate WaitsUncached(s: SelfState, id: BodyId) {
    id in Waiting(s.payloads) && !InCaches(s.completed, id)
  }

  ghost predicate NoFetch(cmds: seq<Command>) {
    forall cmd :: cmd in cmds ==> !cmd.FetchPayload?
  }

  lemma NothingStarted(s: SelfState)
    requires Consistent(s) && s.leaked == MAX_PAYLOAD_REQUESTS
    ensures Started(s.payloads) == {}
  {
  }

  lemma InitiateStalled(s: SelfState, cached: set<BodyId>, t: SelfState, cmds: seq<Command>, id: BodyId)
    requires Consistent(s) && s.leaked == MAX_PAYLOAD_REQUESTS && (forall x :: x in cached ==> x.BodyHash?)
    requires Initiated(s, cached, t, cmds)
    ensures t.leaked == MAX_PAYLOAD_REQUESTS && t.mode == s.mode && NoFetch(cmds)
    ensures WaitsUncached(s, id) && id !in cached ==> WaitsUncached(t, id)
  {
    InitiateKeeps(s, cached, t, cmds);
    NothingStarted(s);
    NothingStarted(t);
    var hits := Hits(s, cached);
    ListsMember(cmds, FetchesOf(Started(t.payloads) - Started(s.payloads - hits)) + EmitsOf(FillAll(s.completed, hits)));
    if WaitsUncached(s, id) && id !in cached {
      CachesAfterFill(s.completed, hits, id);
      assert id in s.payloads - hits && id in t.payloads && id !in Started(t.payloads);
    }
  }

  lemma HeadersStalled(s: SelfState, sender: Option<NodeId>, response: HeadersResponse, peer: NodeId, id: BodyId)
    requires Inv(s) && response.range in s.headers
    ensures var (mid, own) := AfterHeaders(s, sender, response, peer);
      && mid.leaked == s.leaked && mid.mode == s.mode && NoFetch(own)
      && (WaitsUncached(s, id) ==> WaitsUncached(mid, id))
  {
  }

  lemma HeadersStepStalled(s: SelfState, sender: Option<NodeId>, response: HeadersResponse, peer: NodeId,
                           cached: set<BodyId>, t: SelfState, cmds: seq<Command>, id: BodyId)
    requires Inv(s) && s.leaked == MAX_PAYLOAD_REQUESTS && (forall x :: x in cached ==> x.BodyHash?)
    requires HeadersStep(s, sender, response, peer, cached, t, cmds)
    ensures t.leaked == MAX_PAYLOAD_REQUESTS && t.mode == s.mode && NoFetch(cmds)
    ensures WaitsUncached(s, id) && id !in cached ==> WaitsUncached(t, id)
  {
    if response.range in s.headers {
      var (mid, own) := AfterHeaders(s, sender, response, peer);
      var more :| Initiated(mid, cached, t, more) && cmds == own + more;
      AfterHeadersKeeps(s, sender, response, peer);
      HeadersStalled(s, sender, response, peer, id);
      InitiateStalled(mid, cached, t, more, id);
    }
  }

  /** With nothing in flight, no payload is expected. */
  lemma PayloadStepStalled(s: SelfState, sender: Option<NodeId>, response: BodyResponse, peer: NodeId,
                           cached: set<BodyId>, t: SelfState, cmds: seq<Command>)
    requires Inv(s) && s.leaked == MAX_PAYLOAD_REQUESTS && PayloadStep(s, sender, response, peer, cached, t, cmds)
    ensures t == s && cmds == []
  {
    NothingStarted(s);
  }

  /** After ten lost places an event of the same requester starts nothing. */
  lemma StepStalled(s: SelfState, e: Event, t: SelfState, cmds: seq<Command>, id: BodyId)
    requires Inv(s) && s.leaked == MAX_PAYLOAD_REQUESTS && CachesBodies(e) && KeepsMode(s.mode, e)
    requires Step(s, e, t, cmds)
    ensures t.leaked == MAX_PAYLOAD_REQUESTS && t.mode == s.mode && NoFetch(cmds)
    ensures WaitsUncached(s, id) && !CachedAt(e, id) ==> WaitsUncached(t, id)
  {
    NothingStarted(s);
    match e
    case Asked(_, _) =>
    case Dropped(_, _) =>
    case HeadersIn(sender, response, peer, cached) => HeadersStepStalled(s, sender, response, peer, cached, t, cmds, id);
    case PayloadIn(sender, response, peer, cached) => PayloadStepStalled(s, sender, response, peer, cached, t, cmds);
    case Expired(_, _) =>
  }

  /** In every run from a state with ten lost places, and for as long as the requester stays the
      same: nothing is in flight, no payload is ever fetched, and one that waits, and turns up
      in no cache, waits for ever. */
  lemma {:induction false} StalledForGood(events: seq<Event>, states: seq<SelfState>, cmds: seq<seq<Command>>, k: nat, id: BodyId)
    requires IsRun(events, states, cmds) && k < |states|
    requires states[0].leaked == MAX_PAYLOAD_REQUESTS
    requires forall i :: 0 <= i < k ==> KeepsMode(states[0].mode, events[i])
    ensures Inv(states[k]) && states[k].leaked == MAX_PAYLOAD_REQUESTS && states[k].mode == states[0].mode
    ensures Started(states[k].payloads) == {} && (k > 0 ==> NoFetch(cmds[k - 1]))
    ensures WaitsUncached(states[0], id) && (forall i :: 0 <= i < k ==> !CachedAt(events[i], id)) ==>
      WaitsUncached(states[k], id)
  {
    RunKeepsInv(events, states, cmds, k);
    if k == 0 {
    } else {
      StalledForGood(events, states, cmds, k - 1, id);
      RunStep(events, states, cmds, k);
      StepStalled(states[k - 1], events[k - 1], states[k], cmds[k - 1], id);
    }
    NothingStarted(states[k]);
  }
}
