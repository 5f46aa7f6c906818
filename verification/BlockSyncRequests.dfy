/** What becomes of every request of the block sync client: in every run each one waits for the
ledger or for a peer with a timeout, a range that was asked for is kept until it is emitted or
cancelled, and a range that was cancelled is not emitted. */
module BlockSyncRequests {
  import opened ConsensusTypes
  import opened SeqSets
  import opened BlockSyncStates
  import opened BlockSyncRuns

  // ---- what is outstanding outside the client

  /** Ranges and bodies that the ledger has been asked for, timeouts that are scheduled, and the
      peer that each request was last sent to. */
  datatype Outside = Outside(ranges: set<BlockRange>, bodies: set<BodyId>, timers: set<Request>, sent: map<Request, NodeId>)

  /** A response of the ledger answers what it was asked; a timeout that fires is gone. */
  function Answered(o: Outside, e: Event): Outside {
    match e
    case HeadersIn(sender, response, _, _) => if sender.None? then o.(ranges := o.ranges - {response.range}) else o
    case PayloadIn(sender, response, _, _) => if sender.None? then o.(bodies := o.bodies - {response.Id()}) else o
    case Expired(request, _) => o.(timers := o.timers - {request})
    case _ => o
  }

  function Issued(o: Outside, cmd: Command): Outside {
    match cmd
    case SendRequest(to, request) => o.(sent := o.sent[request := to])
    case ScheduleTimeout(request) => o.(timers := o.timers + {request})
    case ResetTimeout(request) => o.(timers := o.timers - {request})
    case FetchHeaders(range) => o.(ranges := o.ranges + {range})
    case FetchPayload(id) => o.(bodies := o.bodies + {id})
    case SendResponse(_, _) => o
    case Emit(_, _, _) => o
  }

  function IssuedAll(o: Outside, cmds: seq<Command>): Outside {
    if cmds == [] then o else Issued(IssuedAll(o, cmds[..|cmds| - 1]), cmds[|cmds| - 1])
  }

  lemma {:induction false} IssuedConcat(o: Outside, a: seq<Command>, b: seq<Command>)
    ensures IssuedAll(o, a + b) == IssuedAll(IssuedAll(o, a), b)
    decreases |b|
  {
    if b == [] {
      assert a + b == a;
    } else {
      var n := |b| - 1;
      IssuedConcat(o, a, b[..n]);
      assert (a + b)[..|a + b| - 1] == a + b[..n] && (a + b)[|a + b| - 1] == b[n];
    }
  }

  lemma IssuedOne(o: Outside, cmd: Command)
    ensures IssuedAll(o, [cmd]) == Issued(o, cmd)
  {
    assert [cmd][..0] == [];
    assert IssuedAll(o, [cmd][..0]) == o;
  }

  lemma IssuedTwo(o: Outside, a: Command, b: Command)
    ensures IssuedAll(o, [a, b]) == Issued(Issued(o, a), b)
  {
    IssuedOne(o, a);
    assert [a, b][..1] == [a];
  }

  /** Bodies that are fetched. */
  function Fetched(cmds: seq<Command>): (ids: set<BodyId>) {
    set cmd | cmd in cmds && cmd.FetchPayload? :: cmd.id
  }

  ghost predicate FetchesOrEmits(cmds: seq<Command>) {
    forall i :: 0 <= i < |cmds| ==> cmds[i].FetchPayload? || cmds[i].Emit?
  }

  lemma {:induction false} IssuedFetches(o: Outside, cmds: seq<Command>)
    requires FetchesOrEmits(cmds)
    ensures IssuedAll(o, cmds) == o.(bodies := o.bodies + Fetched(cmds))
    decreases |cmds|
  {
    if cmds == [] {
      assert o.bodies + Fetched(cmds) == o.bodies;
    } else {
      var n := |cmds| - 1;
      IssuedFetches(o, cmds[..n]);
      FetchedSnoc(cmds[..n], cmds[n]);
      assert cmds == cmds[..n] + [cmds[n]];
      assert o.bodies + Fetched(cmds) == o.bodies + Fetched(cmds[..n]) + Fetched([cmds[n]]);
    }
  }

  lemma FetchedSnoc(cmds: seq<Command>, cmd: Command)
    ensures Fetched(cmds + [cmd]) == Fetched(cmds) + Fetched([cmd])
    ensures Fetched([cmd]) == if cmd.FetchPayload? then {cmd.id} else {}
  {
  }

  // ---- every request waits for something

  /** A request waits for the ledger (`asked`), or for the peer it was last sent to, with a
      timeout scheduled. */
  ghost predicate WaitsOutside(o: Outside, request: Request, to: Option<NodeId>, asked: bool) {
    match to
    case None => asked
    case Some(peer) => request in o.timers && request in o.sent && o.sent[request] == peer
  }

  ghost predicate RangeWaits(s: SelfState, o: Outside, range: BlockRange)
    requires range in s.headers
  {
    WaitsOutside(o, HeadersRequest(range), s.headers[range].to, range in o.ranges)
  }

  ghost predicate BodyWaits(p: PayloadRequests, o: Outside, id: BodyId)
    requires id in p && p[id].Some?
  {
    WaitsOutside(o, PayloadRequest(id), p[id].value.to, id in o.bodies)
  }

  ghost predicate Outstanding(s: SelfState, o: Outside) {
    && (forall range :: range in s.headers ==> RangeWaits(s, o, range))
    && (forall id :: id in Started(s.payloads) ==> BodyWaits(s.payloads, o, id))
  }

  lemma ListedFetches(cmds: seq<Command>, ids: set<BodyId>, completed: CompletedRanges)
    requires Lists(cmds, FetchesOf(ids) + EmitsOf(completed))
    ensures FetchesOrEmits(cmds) && Fetched(cmds) == ids
  {
    ListsMember(cmds, FetchesOf(ids) + EmitsOf(completed));
    forall i | 0 <= i < |cmds| ensures cmds[i].FetchPayload? || cmds[i].Emit? {
      assert cmds[i] in cmds;
    }
    forall id | id in ids ensures id in Fetched(cmds) {
      assert FetchPayload(id) in FetchesOf(ids) && FetchPayload(id) in cmds;
    }
    forall id | id in Fetched(cmds) ensures id in ids {
      assert FetchPayload(id) in cmds && FetchPayload(id) !in EmitsOf(completed);
    }
  }

  lemma InitiateFetches(s: SelfState, cached: set<BodyId>, t: SelfState, cmds: seq<Command>)
    requires Initiated(s, cached, t, cmds)
    ensures FetchesOrEmits(cmds)
    ensures Fetched(cmds) == Started(t.payloads) - Started(s.payloads - Hits(s, cached))
  {
    var hits := Hits(s, cached);
    ListedFetches(cmds, Started(t.payloads) - Started(s.payloads - hits), FillAll(s.completed, hits));
  }

  /** A started request is one that was started before, or is fetched now. */
  lemma InitiateOutstanding(s: SelfState, o: Outside, cached: set<BodyId>, t: SelfState, cmds: seq<Command>)
    requires Outstanding(s, o) && Initiated(s, cached, t, cmds)
    ensures Outstanding(t, IssuedAll(o, cmds))
  {
    InitiateFetches(s, cached, t, cmds);
    IssuedFetches(o, cmds);
    var o', p := IssuedAll(o, cmds), s.payloads - Hits(s, cached);
    forall range | range in t.headers ensures RangeWaits(t, o', range) {
      assert RangeWaits(s, o, range);
    }
    forall id | id in Started(t.payloads) ensures BodyWaits(t.payloads, o', id) {
      if id in Started(p) {
        assert id in Started(s.payloads) && BodyWaits(s.payloads, o, id) && t.payloads[id] == s.payloads[id];
      }
    }
  }

  lemma HeadersOutstanding(s: SelfState, o: Outside, sender: Option<NodeId>, response: HeadersResponse, peer: NodeId, cached: set<BodyId>)
    requires Outstanding(s, o) && response.range in s.headers && (sender.None? ==> FromLedger(response))
    ensures var (mid, own) := AfterHeaders(s, sender, response, peer);
      Outstanding(mid, IssuedAll(Answered(o, HeadersIn(sender, response, peer, cached)), own))
  {
    var range, o' := response.range, Answered(o, HeadersIn(sender, response, peer, cached));
    var (mid, own) := AfterHeaders(s, sender, response, peer);
    if own != [] {
      IssuedOne(o', own[0]);
      if |own| == 2 {
        IssuedTwo(o', own[0], own[1]);
      }
    }
    var o'' := IssuedAll(o', own);
    forall r | r in mid.headers ensures RangeWaits(mid, o'', r) {
      assert r in s.headers && RangeWaits(s, o, r);
    }
    forall id | id in Started(mid.payloads) ensures BodyWaits(mid.payloads, o'', id) {
      assert id in Started(s.payloads) && BodyWaits(s.payloads, o, id);
    }
  }

  lemma PayloadOutstanding(s: SelfState, o: Outside, sender: Option<NodeId>, response: BodyResponse, peer: NodeId, cached: set<BodyId>)
    requires Outstanding(s, o) && response.Id() in Started(s.payloads) && s.inFlight > 0
    ensures var (mid, own) := AfterPayload(s, sender, response, peer);
      Outstanding(mid, IssuedAll(Answered(o, PayloadIn(sender, response, peer, cached)), own))
  {
    var o' := Answered(o, PayloadIn(sender, response, peer, cached));
    var (mid, own) := AfterPayload(s, sender, response, peer);
    if own != [] {
      IssuedOne(o', own[0]);
      if |own| == 2 {
        IssuedTwo(o', own[0], own[1]);
      }
    }
    var o'' := IssuedAll(o', own);
    forall r | r in mid.headers ensures RangeWaits(mid, o'', r) {
      assert r in s.headers && RangeWaits(s, o, r);
    }
    forall id | id in Started(mid.payloads) ensures BodyWaits(mid.payloads, o'', id) {
      assert id in Started(s.payloads) && BodyWaits(s.payloads, o, id);
    }
  }

  lemma EmitsFetchNothing(completed: CompletedRanges, cmds: seq<Command>)
    requires Lists(cmds, EmitsOf(completed))
    ensures FetchesOrEmits(cmds) && Fetched(cmds) == {}
  {
    ListsMember(cmds, EmitsOf(completed));
    forall i | 0 <= i < |cmds| ensures cmds[i].Emit? {
      assert cmds[i] in cmds;
    }
  }

  /** The ledger answers with the headers that it was asked for. */
  ghost predicate LedgerIsRight(e: Event) {
    e.HeadersIn? && e.sender.None? ==> FromLedger(e.headers)
  }

  lemma HeadersStepOutstanding(s: SelfState, o: Outside, e: Event, t: SelfState, cmds: seq<Command>)
    requires Outstanding(s, o) && e.HeadersIn? && LedgerIsRight(e)
    requires HeadersStep(s, e.sender, e.headers, e.peer, e.cached, t, cmds)
    ensures Outstanding(t, IssuedAll(Answered(o, e), cmds))
  {
    if e.headers.range in s.headers {
      var (mid, own) := AfterHeaders(s, e.sender, e.headers, e.peer);
      var more :| Initiated(mid, e.cached, t, more) && cmds == own + more;
      HeadersOutstanding(s, o, e.sender, e.headers, e.peer, e.cached);
      InitiateOutstanding(mid, IssuedAll(Answered(o, e), own), e.cached, t, more);
      IssuedConcat(Answered(o, e), own, more);
    } else {
      UnexpectedHeaders(s, o, e);
    }
  }

  lemma UnexpectedHeaders(s: SelfState, o: Outside, e: Event)
    requires Outstanding(s, o) && e.HeadersIn? && e.headers.range !in s.headers
    ensures Outstanding(s, Answered(o, e))
  {
    forall r | r in s.headers ensures RangeWaits(s, Answered(o, e), r) {
      assert RangeWaits(s, o, r);
    }
    forall id | id in Started(s.payloads) ensures BodyWaits(s.payloads, Answered(o, e), id) {
      assert BodyWaits(s.payloads, o, id);
    }
  }

  lemma UnexpectedPayload(s: SelfState, o: Outside, e: Event)
    requires Outstanding(s, o) && e.PayloadIn? && e.payload.Id() !in Started(s.payloads)
    ensures Outstanding(s, Answered(o, e))
  {
    forall r | r in s.headers ensures RangeWaits(s, Answered(o, e), r) {
      assert RangeWaits(s, o, r);
    }
    forall id | id in Started(s.payloads) ensures BodyWaits(s.payloads, Answered(o, e), id) {
      assert BodyWaits(s.payloads, o, id);
    }
  }

  /** The parts of handling a body that was asked for. */
  lemma PayloadStepParts(s: SelfState, e: Event, t: SelfState, cmds: seq<Command>)
      returns (mid: SelfState, own: seq<Command>, emits: seq<Command>, more: seq<Command>)
    requires Inv(s) && e.PayloadIn? && PayloadStep(s, e.sender, e.payload, e.peer, e.cached, t, cmds)
    requires e.payload.Id() in Started(s.payloads)
    ensures s.inFlight > 0 && (mid, own) == AfterPayload(s, e.sender, e.payload, e.peer) && Consistent(mid)
    ensures Lists(emits, EmitsOf(mid.completed)) && Initiated(mid.(completed := Unfinished(mid.completed)), e.cached, t, more)
    ensures cmds == own + emits + more
  {
    AfterPayloadKeeps(s, e.sender, e.payload, e.peer);
    mid, own := AfterPayload(s, e.sender, e.payload, e.peer).0, AfterPayload(s, e.sender, e.payload, e.peer).1;
    emits, more :| Lists(emits, EmitsOf(mid.completed))
      && Initiated(mid.(completed := Unfinished(mid.completed)), e.cached, t, more) && cmds == own + emits + more;
  }

  lemma PayloadStepOutstanding(s: SelfState, o: Outside, e: Event, t: SelfState, cmds: seq<Command>)
    requires Inv(s) && Outstanding(s, o) && e.PayloadIn?
    requires PayloadStep(s, e.sender, e.payload, e.peer, e.cached, t, cmds)
    ensures Outstanding(t, IssuedAll(Answered(o, e), cmds))
  {
    if e.payload.Id() in Started(s.payloads) {
      var mid, own, emits, more := PayloadStepParts(s, e, t, cmds);
      var rest, o' := mid.(completed := Unfinished(mid.completed)), Answered(o, e);
      PayloadOutstanding(s, o, e.sender, e.payload, e.peer, e.cached);
      EmitsFetchNothing(mid.completed, emits);
      IssuedFetches(IssuedAll(o', own), emits);
      IssuedConcat(o', own, emits);
      IssuedConcat(o', own + emits, more);
      SameRequestsOutstanding(mid, rest, IssuedAll(o', own), IssuedAll(o', own + emits));
      InitiateOutstanding(rest, IssuedAll(o', own + emits), e.cached, t, more);
    } else {
      UnexpectedPayload(s, o, e);
    }
  }

  lemma SameRequestsOutstanding(s: SelfState, t: SelfState, o: Outside, o': Outside)
    requires Outstanding(s, o) && t.headers == s.headers && t.payloads == s.payloads
    requires o' == o.(bodies := o.bodies + {})
    ensures Outstanding(t, o')
  {
    forall r | r in t.headers ensures RangeWaits(t, o', r) {
      assert RangeWaits(s, o, r);
    }
    forall id | id in Started(t.payloads) ensures BodyWaits(t.payloads, o', id) {
      assert BodyWaits(s.payloads, o, id);
    }
  }

  lemma RetryOutstanding(s: SelfState, o: Outside, e: Event, t: SelfState, cmds: seq<Command>)
    requires Outstanding(s, o) && e.Expired? && RetryStep(s, e.request, e.peer, t, cmds)
    ensures Outstanding(t, IssuedAll(Answered(o, e), cmds))
  {
    var o' := Answered(o, e);
    if cmds != [] {
      IssuedTwo(o', cmds[0], cmds[1]);
    }
    var o'' := IssuedAll(o', cmds);
    forall r | r in t.headers ensures RangeWaits(t, o'', r) {
      assert r in s.headers && RangeWaits(s, o, r);
    }
    forall id | id in Started(t.payloads) ensures BodyWaits(t.payloads, o'', id) {
      assert id in Started(s.payloads) && BodyWaits(s.payloads, o, id);
    }
  }

  lemma CancelOutstanding(s: SelfState, o: Outside, requester: Requester, range: BlockRange)
    requires Outstanding(s, o)
    ensures Outstanding(Cancelled(s, requester, range), o)
  {
    var t := Cancelled(s, requester, range);
    forall r | r in t.headers ensures RangeWaits(t, o, r) {
      assert r in s.headers && RangeWaits(s, o, r);
    }
  }

  lemma AskOutstanding(s: SelfState, o: Outside, range: BlockRange)
    requires Outstanding(s, o) && range !in s.headers
    ensures Outstanding(s.(headers := s.headers[range := SelfRequest(s.mode, None)]), o.(ranges := o.ranges + {range}))
  {
    var t, o' := s.(headers := s.headers[range := SelfRequest(s.mode, None)]), o.(ranges := o.ranges + {range});
    forall r | r in t.headers ensures RangeWaits(t, o', r) {
      assert r != range ==> RangeWaits(s, o, r);
    }
    forall id | id in Started(t.payloads) ensures BodyWaits(t.payloads, o', id) {
      assert BodyWaits(s.payloads, o, id);
    }
  }

  lemma AskedOutstanding(s: SelfState, o: Outside, e: Event, t: SelfState, cmds: seq<Command>)
    requires Inv(s) && Outstanding(s, o) && e.Asked? && Step(s, e, t, cmds)
    ensures Outstanding(t, IssuedAll(o, cmds))
  {
    if cmds != [] {
      IssuedOne(o, cmds[0]);
      var base := if e.requester == s.mode then s else Cleared(e.requester);
      AskOutstanding(base, o, e.range);
    }
  }

  lemma StepOutstanding(s: SelfState, o: Outside, e: Event, t: SelfState, cmds: seq<Command>)
    requires Inv(s) && Outstanding(s, o) && LedgerIsRight(e) && Step(s, e, t, cmds)
    ensures Outstanding(t, IssuedAll(Answered(o, e), cmds))
  {
    match e
    case Asked(_, _) => AskedOutstanding(s, o, e, t, cmds);
    case Dropped(requester, range) => CancelOutstanding(s, o, requester, range);
    case HeadersIn(_, _, _, _) => HeadersStepOutstanding(s, o, e, t, cmds);
    case PayloadIn(_, _, _, _) => PayloadStepOutstanding(s, o, e, t, cmds);
    case Expired(_, _) => RetryOutstanding(s, o, e, t, cmds);
  }

  /** What is outstanding after the first `k` events. */
  function OutsideAt(o: Outside, events: seq<Event>, cmds: seq<seq<Command>>, k: nat): Outside
    requires k <= |events| && k <= |cmds|
  {
    if k == 0 then o else IssuedAll(Answered(OutsideAt(o, events, cmds, k - 1), events[k - 1]), cmds[k - 1])
  }

  /** No request is ever lost: in every state of every run, each range whose headers are wanted and
      each payload that was started is either asked of the ledger, which has not answered since, or
      was last sent to the peer that it names, with a timeout scheduled that has not fired since. */
  lemma {:induction false} EveryRequestWaits(o: Outside, events: seq<Event>, states: seq<SelfState>, cmds: seq<seq<Command>>, k: nat)
    requires IsRun(events, states, cmds) && k < |states| && Outstanding(states[0], o)
    requires forall i :: 0 <= i < k ==> LedgerIsRight(events[i])
    ensures Outstanding(states[k], OutsideAt(o, events, cmds, k))
  {
    if k == 0 {
    } else {
      EveryRequestWaits(o, events, states, cmds, k - 1);
      RunKeepsInv(events, states, cmds, k - 1);
      RunStep(events, states, cmds, k);
      StepOutstanding(states[k - 1], OutsideAt(o, events, cmds, k - 1), events[k - 1], states[k], cmds[k - 1]);
    }
  }

  // ---- one request at a time

  predicate IsAboutPeers(cmd: Command) {
    cmd.SendRequest? || cmd.ScheduleTimeout? || cmd.ResetTimeout?
  }

  /** The requests to peers and the timeouts among the commands, in their order. */
  function ToPeers(cmds: seq<Command>): seq<Command> {
    if cmds == [] then []
    else ToPeers(cmds[..|cmds| - 1]) + if IsAboutPeers(cmds[|cmds| - 1]) then [cmds[|cmds| - 1]] else []
  }

  lemma {:induction false} ToPeersConcat(a: seq<Command>, b: seq<Command>)
    ensures ToPeers(a + b) == ToPeers(a) + ToPeers(b)
    decreases |b|
  {
    if b == [] {
      assert a + b == a;
    } else {
      var n := |b| - 1;
      ToPeersConcat(a, b[..n]);
      assert (a + b)[..|a + b| - 1] == a + b[..n] && (a + b)[|a + b| - 1] == b[n];
    }
  }

  lemma {:induction false} FetchesAskNoPeer(cmds: seq<Command>)
    requires FetchesOrEmits(cmds)
    ensures ToPeers(cmds) == []
    decreases |cmds|
  {
    if cmds == [] {
    } else {
      FetchesAskNoPeer(cmds[..|cmds| - 1]);
    }
  }

  lemma ToPeersOne(cmd: Command)
    ensures ToPeers([cmd]) == if IsAboutPeers(cmd) then [cmd] else []
  {
    assert [cmd][..0] == [] && ToPeers([]) == [];
  }

  lemma ToPeersTwo(a: Command, b: Command)
    requires IsAboutPeers(a) && IsAboutPeers(b)
    ensures ToPeers([a, b]) == [a, b]
  {
    ToPeersOne(a);
    assert [a, b][..1] == [a];
  }

  /** Whether a request waits for the ledger or a peer; `None` when there is no such request. */
  function WaitsFor(s: SelfState, request: Request): Option<Option<NodeId>> {
    match request
    case HeadersRequest(range) => if range in s.headers then Some(s.headers[range].to) else None
    case PayloadRequest(id) => if id in Started(s.payloads) then Some(s.payloads[id].value.to) else None
  }

  /** The request for which a peer is asked now: the ledger does not have what was asked of it,
      or the last peer did not answer in time. */
  function Due(s: SelfState, e: Event): Option<Request> {
    match e
    case HeadersIn(sender, HeadersNotAvailable(range), _, _) =>
      if sender.None? && WaitsFor(s, HeadersRequest(range)) == Some(None) then Some(HeadersRequest(range)) else None
    case PayloadIn(sender, BodyNotAvailable(id), _, _) =>
      if sender.None? && WaitsFor(s, PayloadRequest(id)) == Some(None) then Some(PayloadRequest(id)) else None
    case Expired(request, _) =>
      var to := WaitsFor(s, request);
      if to.Some? && to.value.Some? then Some(request) else None
    case _ => None
  }

  /** The request that a peer has answered now. */
  ghost function AnsweredByPeer(s: SelfState, e: Event): Option<Request> {
    match e
    case HeadersIn(Some(_), HeadersFound(range, hs), _, _) =>
      if WaitsFor(s, HeadersRequest(range)).Some? && HeaderChain(range, hs) then Some(HeadersRequest(range)) else None
    case PayloadIn(Some(_), BodyFound(body), _, _) =>
      if WaitsFor(s, PayloadRequest(BodyHash(body))).Some? then Some(PayloadRequest(BodyHash(body))) else None
    case _ => None
  }

  ghost predicate AsksWhenDue(s: SelfState, e: Event, cmds: seq<Command>) {
    match (Due(s, e), AnsweredByPeer(s, e))
    case (Some(request), _) => ToPeers(cmds) == [SendRequest(e.peer, request), ScheduleTimeout(request)]
    case (None, Some(request)) => ToPeers(cmds) == [ResetTimeout(request)]
    case (None, None) => ToPeers(cmds) == []
  }

  lemma AppendAsks(s: SelfState, e: Event, own: seq<Command>, more: seq<Command>)
    requires AsksWhenDue(s, e, own) && FetchesOrEmits(more)
    ensures AsksWhenDue(s, e, own + more)
  {
    FetchesAskNoPeer(more);
    ToPeersConcat(own, more);
  }

  lemma AfterHeadersAsks(s: SelfState, e: Event)
    requires e.HeadersIn? && e.headers.range in s.headers
    ensures AsksWhenDue(s, e, AfterHeaders(s, e.sender, e.headers, e.peer).1)
  {
    var request := HeadersRequest(e.headers.range);
    ToPeersOne(ResetTimeout(request));
    ToPeersTwo(SendRequest(e.peer, request), ScheduleTimeout(request));
    assert WaitsFor(s, request) == Some(s.headers[e.headers.range].to);
  }

  lemma AfterPayloadAsks(s: SelfState, e: Event)
    requires e.PayloadIn? && e.payload.Id() in Started(s.payloads) && s.inFlight > 0
    ensures AsksWhenDue(s, e, AfterPayload(s, e.sender, e.payload, e.peer).1)
  {
    var id, own := e.payload.Id(), AfterPayload(s, e.sender, e.payload, e.peer).1;
    var request := PayloadRequest(id);
    assert WaitsFor(s, request) == Some(s.payloads[id].value.to);
    match e.payload
    case BodyFound(_) =>
      ToPeersOne(ResetTimeout(request));
      assert Due(s, e) == None && AnsweredByPeer(s, e) == if e.sender.Some? then Some(request) else None;
    case BodyNotAvailable(_) =>
      ToPeersTwo(SendRequest(e.peer, request), ScheduleTimeout(request));
      assert AnsweredByPeer(s, e) == None;
      assert Due(s, e) == if own == [] then None else Some(request);
  }

  lemma RetryAsks(s: SelfState, e: Event, t: SelfState, cmds: seq<Command>)
    requires e.Expired? && RetryStep(s, e.request, e.peer, t, cmds)
    ensures AsksWhenDue(s, e, cmds)
  {
    ToPeersTwo(SendRequest(e.peer, e.request), ScheduleTimeout(e.request));
  }

  lemma HeadersAskWhenDue(s: SelfState, e: Event, t: SelfState, cmds: seq<Command>)
    requires e.HeadersIn? && HeadersStep(s, e.sender, e.headers, e.peer, e.cached, t, cmds)
    ensures AsksWhenDue(s, e, cmds)
  {
    if e.headers.range in s.headers {
      var (mid, own) := AfterHeaders(s, e.sender, e.headers, e.peer);
      var more :| Initiated(mid, e.cached, t, more) && cmds == own + more;
      AfterHeadersAsks(s, e);
      InitiateFetches(mid, e.cached, t, more);
      AppendAsks(s, e, own, more);
    }
  }

  lemma PayloadAsksWhenDue(s: SelfState, e: Event, t: SelfState, cmds: seq<Command>)
    requires Inv(s) && e.PayloadIn? && PayloadStep(s, e.sender, e.payload, e.peer, e.cached, t, cmds)
    ensures AsksWhenDue(s, e, cmds)
  {
    if e.payload.Id() in Started(s.payloads) {
      var mid, own, emits, more := PayloadStepParts(s, e, t, cmds);
      AfterPayloadAsks(s, e);
      EmitsFetchNothing(mid.completed, emits);
      AppendAsks(s, e, own, emits);
      InitiateFetches(mid.(completed := Unfinished(mid.completed)), e.cached, t, more);
      AppendAsks(s, e, own + emits, more);
    }
  }

  /** Exactly one peer is asked, with one timeout, when the ledger does not have what was wanted, or
      when the last peer did not answer in time; a timeout is reset exactly when a peer answers; at
      no other event is any peer asked or any timeout touched. */
  lemma PeersAreAskedWhenDue(s: SelfState, e: Event, t: SelfState, cmds: seq<Command>)
    requires Inv(s) && Step(s, e, t, cmds)
    ensures AsksWhenDue(s, e, cmds)
  {
    match e
    case Asked(_, range) => ToPeersOne(FetchHeaders(range));
    case Dropped(_, _) =>
    case HeadersIn(_, _, _, _) => HeadersAskWhenDue(s, e, t, cmds);
    case PayloadIn(_, _, _, _) => PayloadAsksWhenDue(s, e, t, cmds);
    case Expired(_, _) => RetryAsks(s, e, t, cmds);
  }

  // ---- what was asked for and what was cancelled

  ghost predicate Wanted(s: SelfState, range: BlockRange) {
    range in s.headers || range in s.completed
  }

  ghost predicate Emits(cmds: seq<Command>, range: BlockRange) {
    exists i :: 0 <= i < |cmds| && cmds[i].Emit? && cmds[i].range == range
  }

  lemma EmitsConcat(a: seq<Command>, b: seq<Command>, range: BlockRange)
    ensures Emits(a + b, range) <==> Emits(a, range) || Emits(b, range)
  {
    if Emits(a, range) {
      var i :| 0 <= i < |a| && a[i].Emit? && a[i].range == range;
      assert (a + b)[i] == a[i];
    }
    if Emits(b, range) {
      var i :| 0 <= i < |b| && b[i].Emit? && b[i].range == range;
      assert (a + b)[|a| + i] == b[i];
    }
  }

  lemma ListedEmits(cmds: seq<Command>, ids: set<BodyId>, completed: CompletedRanges, range: BlockRange)
    requires Lists(cmds, FetchesOf(ids) + EmitsOf(completed))
    ensures Emits(cmds, range) <==> range in completed && Filled(completed[range])
  {
    ListsMember(cmds, FetchesOf(ids) + EmitsOf(completed));
    if Emits(cmds, range) {
      var i :| 0 <= i < |cmds| && cmds[i].Emit? && cmds[i].range == range;
      assert cmds[i] in cmds && cmds[i] in EmitsOf(completed);
    }
    if range in completed && Filled(completed[range]) {
      var cmd := EmitOf(range, completed[range]);
      assert cmd in EmitsOf(completed) && cmd in cmds;
      var i :| 0 <= i < |cmds| && cmds[i] == cmd;
    }
  }

  /** The commands emit the range exactly if it stops to be wanted. */
  ghost predicate Conserves(s: SelfState, t: SelfState, cmds: seq<Command>, range: BlockRange) {
    && (Wanted(t, range) <==> Wanted(s, range) && !Emits(cmds, range))
    && (Emits(cmds, range) ==> Wanted(s, range))
  }

  lemma ConservesTwice(s: SelfState, mid: SelfState, a: seq<Command>, t: SelfState, b: seq<Command>, range: BlockRange)
    requires Conserves(s, mid, a, range) && Conserves(mid, t, b, range)
    ensures Conserves(s, t, a + b, range)
  {
    EmitsConcat(a, b, range);
  }

  lemma InitiateConserves(s: SelfState, cached: set<BodyId>, t: SelfState, cmds: seq<Command>, range: BlockRange)
    requires Initiated(s, cached, t, cmds) && s.headers.Keys !! s.completed.Keys
    ensures Conserves(s, t, cmds, range)
  {
    var hits := Hits(s, cached);
    var filled := FillAll(s.completed, hits);
    ListedEmits(cmds, Started(t.payloads) - Started(s.payloads - hits), filled, range);
    assert range in filled <==> range in s.completed;
  }

  lemma EmitConserves(s: SelfState, cmds: seq<Command>, range: BlockRange)
    requires Lists(cmds, EmitsOf(s.completed)) && s.headers.Keys !! s.completed.Keys
    ensures Conserves(s, s.(completed := Unfinished(s.completed)), cmds, range)
  {
    assert FetchesOf({}) + EmitsOf(s.completed) == EmitsOf(s.completed);
    ListedEmits(cmds, {}, s.completed, range);
  }

  lemma AfterHeadersConserves(s: SelfState, e: Event, range: BlockRange)
    requires e.HeadersIn? && e.headers.range in s.headers && s.headers.Keys !! s.completed.Keys
    ensures var (mid, own) := AfterHeaders(s, e.sender, e.headers, e.peer);
      Conserves(s, mid, own, range) && mid.headers.Keys !! mid.completed.Keys
  {
  }

  lemma AfterPayloadConserves(s: SelfState, e: Event, range: BlockRange)
    requires e.PayloadIn? && e.payload.Id() in Started(s.payloads) && s.inFlight > 0
    ensures var (mid, own) := AfterPayload(s, e.sender, e.payload, e.peer); Conserves(s, mid, own, range)
  {
  }

  lemma HeadersConserve(s: SelfState, e: Event, t: SelfState, cmds: seq<Command>, range: BlockRange)
    requires Inv(s) && e.HeadersIn? && HeadersStep(s, e.sender, e.headers, e.peer, e.cached, t, cmds)
    ensures Conserves(s, t, cmds, range)
  {
    if e.headers.range in s.headers {
      var (mid, own) := AfterHeaders(s, e.sender, e.headers, e.peer);
      var more :| Initiated(mid, e.cached, t, more) && cmds == own + more;
      AfterHeadersConserves(s, e, range);
      InitiateConserves(mid, e.cached, t, more, range);
      ConservesTwice(s, mid, own, t, more, range);
    }
  }

  lemma PayloadConserves(s: SelfState, e: Event, t: SelfState, cmds: seq<Command>, range: BlockRange)
    requires Inv(s) && e.PayloadIn? && PayloadStep(s, e.sender, e.payload, e.peer, e.cached, t, cmds)
    ensures Conserves(s, t, cmds, range)
  {
    if e.payload.Id() in Started(s.payloads) {
      var mid, own, emits, more := PayloadStepParts(s, e, t, cmds);
      var rest := mid.(completed := Unfinished(mid.completed));
      AfterPayloadConserves(s, e, range);
      EmitConserves(mid, emits, range);
      ConservesTwice(s, mid, own, rest, emits, range);
      InitiateConserves(rest, e.cached, t, more, range);
      ConservesTwice(s, rest, own + emits, t, more, range);
    }
  }

  lemma RetryConserves(s: SelfState, e: Event, t: SelfState, cmds: seq<Command>, range: BlockRange)
    requires e.Expired? && RetryStep(s, e.request, e.peer, t, cmds)
    ensures Conserves(s, t, cmds, range)
  {
  }

  /** The event cancels the range, or brings in another requester. */
  ghost predicate GivesUp(s: SelfState, e: Event, range: BlockRange) {
    || e == Dropped(s.mode, range)
    || (e.Asked? && e.range.numBlocks > 0 && e.requester != s.mode && e.range != range)
  }

  ghost predicate AsksFor(e: Event, range: BlockRange) {
    e.Asked? && e.range == range && range.numBlocks > 0
  }

  ghost predicate WantedBy(s: SelfState, e: Event, t: SelfState, cmds: seq<Command>, range: BlockRange) {
    && (Wanted(t, range) <==> AsksFor(e, range) || (Wanted(s, range) && !GivesUp(s, e, range) && !Emits(cmds, range)))
    && (Emits(cmds, range) ==> Wanted(s, range) && !AsksFor(e, range))
  }

  lemma AskWants(s: SelfState, e: Event, t: SelfState, cmds: seq<Command>, range: BlockRange)
    requires Inv(s) && e.Asked? && Step(s, e, t, cmds)
    ensures WantedBy(s, e, t, cmds, range)
  {
    assert !Emits(cmds, range);
  }

  lemma CancelWants(s: SelfState, e: Event, range: BlockRange)
    requires Inv(s) && e.Dropped?
    ensures WantedBy(s, e, Cancelled(s, e.requester, e.range), [], range)
  {
    CancelIsExact(s, e.requester, e.range);
    var t := Cancelled(s, e.requester, e.range);
    if range != e.range {
      assert range in t.headers <==> range in t.headers - {e.range};
      assert range in t.completed <==> range in t.completed - {e.range};
    }
  }

  /** A range is wanted after an event exactly when it is asked for now, or was wanted before and
      is neither given up nor emitted; only what was wanted is emitted. */
  lemma WantedExactly(s: SelfState, e: Event, t: SelfState, cmds: seq<Command>, range: BlockRange)
    requires Inv(s) && Step(s, e, t, cmds)
    ensures Wanted(t, range) <==> AsksFor(e, range) || (Wanted(s, range) && !GivesUp(s, e, range) && !Emits(cmds, range))
    ensures Emits(cmds, range) ==> Wanted(s, range) && !AsksFor(e, range)
  {
    match e
    case Asked(_, _) => AskWants(s, e, t, cmds, range);
    case Dropped(_, _) => CancelWants(s, e, range);
    case HeadersIn(_, _, _, _) => HeadersConserve(s, e, t, cmds, range);
    case PayloadIn(_, _, _, _) => PayloadConserves(s, e, t, cmds, range);
    case Expired(_, _) => RetryConserves(s, e, t, cmds, range);
  }

  /** A range that is not wanted, because it was cancelled or emitted, is not emitted before it is
      asked for again. */
  lemma {:induction false} CancelledIsNotEmitted(events: seq<Event>, states: seq<SelfState>, cmds: seq<seq<Command>>,
                                                 range: BlockRange, k: nat)
    requires IsRun(events, states, cmds) && k < |states| && !Wanted(states[0], range)
    requires forall i :: 0 <= i < k ==> !AsksFor(events[i], range)
    ensures !Wanted(states[k], range)
    ensures forall i :: 0 <= i < k ==> !Emits(cmds[i], range)
  {
    if k == 0 {
    } else {
      CancelledIsNotEmitted(events, states, cmds, range, k - 1);
      RunKeepsInv(events, states, cmds, k - 1);
      RunStep(events, states, cmds, k);
      WantedExactly(states[k - 1], events[k - 1], states[k], cmds[k - 1], range);
    }
  }

  /** A range that is wanted stays wanted until it is emitted or given up. */
  lemma {:induction false} WantedIsKept(events: seq<Event>, states: seq<SelfState>, cmds: seq<seq<Command>>,
                                        range: BlockRange, k: nat)
    requires IsRun(events, states, cmds) && k < |states| && Wanted(states[0], range)
    requires forall i :: 0 <= i < k ==> !GivesUp(states[i], events[i], range) && !Emits(cmds[i], range)
    ensures Wanted(states[k], range)
  {
    if k == 0 {
    } else {
      WantedIsKept(events, states, cmds, range, k - 1);
      RunKeepsInv(events, states, cmds, k - 1);
      RunStep(events, states, cmds, k);
      WantedExactly(states[k - 1], events[k - 1], states[k], cmds[k - 1], range);
    }
  }

  // ---- what the ranges know

  predicate HasBody(blocks: seq<SyncBlock>, id: BodyId) {
    exists i :: 0 <= i < |blocks| && blocks[i].1.Some? && blocks[i].0.bodyId == id
  }

  /** The cache of a range holds exactly the bodies that its blocks have. */
  ghost predicate CacheIsExact(c: Completed) {
    forall id :: id in c.payloadCache <==> HasBody(c.blocks, id)
  }

  ghost predicate CachesExact(completed: CompletedRanges) {
    forall r :: r in completed ==> CacheIsExact(completed[r])
  }

  lemma FillHas(blocks: seq<SyncBlock>, ids: set<BodyId>, id: BodyId)
    ensures HasBody(FillBlocks(blocks, ids), id) <==> HasBody(blocks, id) || (id in ids && Needs(blocks, id))
  {
    var filled := FillBlocks(blocks, ids);
    if HasBody(blocks, id) {
      var i :| 0 <= i < |blocks| && blocks[i].1.Some? && blocks[i].0.bodyId == id;
      assert filled[i] == blocks[i];
    }
    if id in ids && Needs(blocks, id) {
      var i :| 0 <= i < |blocks| && blocks[i].1.None? && blocks[i].0.bodyId == id;
      assert filled[i] == FillBlock(blocks[i], ids) && filled[i].1.Some?;
    }
    if HasBody(filled, id) {
      var i :| 0 <= i < |filled| && filled[i].1.Some? && filled[i].0.bodyId == id;
      assert filled[i] == FillBlock(blocks[i], ids);
    }
  }

  lemma FillKeepsExact(completed: CompletedRanges, ids: set<BodyId>)
    requires CachesExact(completed)
    ensures CachesExact(FillAll(completed, ids))
  {
    forall r | r in completed ensures CacheIsExact(FillCompleted(completed[r], ids)) {
      var c := completed[r];
      assert CacheIsExact(c);
      forall id ensures id in FillCompleted(c, ids).payloadCache <==> HasBody(FillBlocks(c.blocks, ids), id) {
        FillHas(c.blocks, ids, id);
      }
    }
  }

  lemma NewRangeIsExact(hs: seq<Header>, requester: Requester)
    ensures CacheIsExact(Completed(requester, NoBodies(hs), map[]))
  {
  }

  lemma InitiateKeepsExact(s: SelfState, cached: set<BodyId>, t: SelfState, cmds: seq<Command>)
    requires Initiated(s, cached, t, cmds) && CachesExact(s.completed)
    ensures CachesExact(t.completed)
  {
    FillKeepsExact(s.completed, Hits(s, cached));
  }

  lemma AfterHeadersExact(s: SelfState, e: Event)
    requires e.HeadersIn? && e.headers.range in s.headers && CachesExact(s.completed)
    ensures CachesExact(AfterHeaders(s, e.sender, e.headers, e.peer).0.completed)
  {
    if e.headers.HeadersFound? {
      NewRangeIsExact(e.headers.headers, s.mode);
    }
  }

  lemma HeadersKeepExact(s: SelfState, e: Event, t: SelfState, cmds: seq<Command>)
    requires e.HeadersIn? && HeadersStep(s, e.sender, e.headers, e.peer, e.cached, t, cmds) && CachesExact(s.completed)
    ensures CachesExact(t.completed)
  {
    if e.headers.range in s.headers {
      var (mid, own) := AfterHeaders(s, e.sender, e.headers, e.peer);
      var more :| Initiated(mid, e.cached, t, more) && cmds == own + more;
      AfterHeadersExact(s, e);
      InitiateKeepsExact(mid, e.cached, t, more);
    }
  }

  lemma AfterPayloadExact(s: SelfState, e: Event)
    requires e.PayloadIn? && e.payload.Id() in Started(s.payloads) && s.inFlight > 0 && CachesExact(s.completed)
    ensures CachesExact(Unfinished(AfterPayload(s, e.sender, e.payload, e.peer).0.completed))
  {
    FillKeepsExact(s.completed, {e.payload.Id()});
  }

  lemma PayloadKeepsExact(s: SelfState, e: Event, t: SelfState, cmds: seq<Command>)
    requires Inv(s) && e.PayloadIn? && PayloadStep(s, e.sender, e.payload, e.peer, e.cached, t, cmds) && CachesExact(s.completed)
    ensures CachesExact(t.completed)
  {
    if e.payload.Id() in Started(s.payloads) {
      var mid, own, emits, more := PayloadStepParts(s, e, t, cmds);
      AfterPayloadExact(s, e);
      InitiateKeepsExact(mid.(completed := Unfinished(mid.completed)), e.cached, t, more);
    }
  }

  lemma StepKeepsExact(s: SelfState, e: Event, t: SelfState, cmds: seq<Command>)
    requires Inv(s) && Step(s, e, t, cmds) && CachesExact(s.completed)
    ensures CachesExact(t.completed)
  {
    match e
    case Asked(_, _) =>
    case Dropped(_, _) =>
    case HeadersIn(_, _, _, _) => HeadersKeepExact(s, e, t, cmds);
    case PayloadIn(_, _, _, _) => PayloadKeepsExact(s, e, t, cmds);
    case Expired(_, _) =>
  }

  /** In every state of every run, a body is found in the caches exactly if a block of an unfinished
      range has it. */
  lemma {:induction false} CachesKnowExactly(events: seq<Event>, states: seq<SelfState>, cmds: seq<seq<Command>>, k: nat, id: BodyId)
    requires IsRun(events, states, cmds) && k < |states| && CachesExact(states[0].completed)
    ensures CachesExact(states[k].completed)
    ensures InCaches(states[k].completed, id) <==> exists r :: r in states[k].completed && HasBody(states[k].completed[r].blocks, id)
  {
    if k == 0 {
    } else {
      CachesKnowExactly(events, states, cmds, k - 1, id);
      RunKeepsInv(events, states, cmds, k - 1);
      RunStep(events, states, cmds, k);
      StepKeepsExact(states[k - 1], events[k - 1], states[k], cmds[k - 1]);
    }
    assert forall r :: r in states[k].completed ==> CacheIsExact(states[k].completed[r]);
  }
}
