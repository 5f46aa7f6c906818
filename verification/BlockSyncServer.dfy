/** Runs of the serving side of block sync: peers ask for headers or bodies and the ledger responds,
in any order.  Which requests are answered, and which are not. */
module BlockSyncServers {
  import opened ConsensusTypes
  import opened SeqSets
  import opened BlockSyncStates
  import opened BlockSyncs

  /** A run from any state. */
  ghost predicate IsRun(events: seq<ServerEvent>, states: seq<HeaderRequests>, cmds: seq<seq<Command>>) {
    && |states| == |events| + 1 && |cmds| == |events|
    && forall i :: 0 <= i < |events| ==> ServerStep(states[i], events[i], states[i + 1], cmds[i])
  }

  lemma RunStep(events: seq<ServerEvent>, states: seq<HeaderRequests>, cmds: seq<seq<Command>>, k: nat)
    requires IsRun(events, states, cmds) && k < |events|
    ensures ServerStep(states[k], events[k], states[k + 1], cmds[k])
  {
  }

  /** The peer asks for a range of which `rest` is not cached, and waits for the ledger. */
  ghost predicate Waits(e: ServerEvent, peer: NodeId, rest: BlockRange) {
    && e.Asks? && e.peer == peer && e.range.numBlocks > 0 && IsCachedEnd(e.known, e.range, e.cached)
    && !HeaderChain(e.range, e.cached) && RestOf(e.range, e.cached) == rest
  }

  /** The range that the peer asked for last, of those that wait for `rest`. */
  ghost function LastAsked(events: seq<ServerEvent>, peer: NodeId, rest: BlockRange): Option<BlockRange> {
    if events == [] then None
    else
      var e := events[|events| - 1];
      if Waits(e, peer, rest) then Some(e.range) else LastAsked(events[..|events| - 1], peer, rest)
  }

  lemma WaitingAsked(e: ServerEvent, peer: NodeId, rest: BlockRange)
    requires Waits(e, peer, rest)
    ensures AskedRange(rest, e.cached) == e.range
  {
    SplitRange({}, e.range, peer, e.cached);
  }

  predicate RespondsFor(e: ServerEvent, rest: BlockRange) {
    e.Ledger? && e.response.range == rest
  }

  /** The ledger has not responded for `rest`. */
  ghost predicate NoResponse(events: seq<ServerEvent>, rest: BlockRange) {
    forall i :: 0 <= i < |events| ==> !RespondsFor(events[i], rest)
  }

  lemma NoResponseSnoc(events: seq<ServerEvent>, e: ServerEvent, rest: BlockRange)
    requires NoResponse(events + [e], rest)
    ensures NoResponse(events, rest) && !RespondsFor(e, rest)
  {
    var all := events + [e];
    assert all[|events|] == e && !RespondsFor(all[|events|], rest);
    forall i | 0 <= i < |events| ensures !RespondsFor(events[i], rest) {
      assert all[i] == events[i] && !RespondsFor(all[i], rest);
    }
  }

  /** The peer waits for `rest`, for the range it asked for last. */
  ghost predicate WaitsFor(s: HeaderRequests, peer: NodeId, rest: BlockRange, range: Option<BlockRange>) {
    && peer in WaitingFor(s, rest)
    && range == Some(AskedRange(rest, WaitingFor(s, rest)[peer]))
  }

  lemma StepWaits(s: HeaderRequests, e: ServerEvent, t: HeaderRequests, cmds: seq<Command>,
                  peer: NodeId, rest: BlockRange, range: Option<BlockRange>)
    requires ServerStep(s, e, t, cmds) && !RespondsFor(e, rest)
    requires Waits(e, peer, rest) || WaitsFor(s, peer, rest, range)
    ensures WaitsFor(t, peer, rest, if Waits(e, peer, rest) then Some(e.range) else range)
  {
    if Waits(e, peer, rest) {
      WaitingAsked(e, peer, rest);
    }
  }

  /** Until the ledger responds, the peer waits for the last of its requests with that rest. */
  lemma {:induction false} WaitsForLast(events: seq<ServerEvent>, states: seq<HeaderRequests>, cmds: seq<seq<Command>>,
                                        i: nat, k: nat, peer: NodeId, rest: BlockRange)
    requires IsRun(events, states, cmds) && i < k <= |events|
    requires Waits(events[i], peer, rest) && NoResponse(events[i..k], rest)
    ensures WaitsFor(states[k], peer, rest, LastAsked(events[i..k], peer, rest))
    decreases k
  {
    var e := events[k - 1];
    assert events[i..k] == events[i..k - 1] + [e];
    NoResponseSnoc(events[i..k - 1], e, rest);
    RunStep(events, states, cmds, k - 1);
    if i == k - 1 {
      StepWaits(states[i], e, states[k], cmds[i], peer, rest, None);
    } else {
      WaitsForLast(events, states, cmds, i, k - 1, peer, rest);
      StepWaits(states[k - 1], e, states[k], cmds[k - 1], peer, rest, LastAsked(events[i..k - 1], peer, rest));
    }
  }

  /** The ranges that the ledger was asked for in the first `k` events, and has not responded for. */
  ghost function Unanswered(events: seq<ServerEvent>, cmds: seq<seq<Command>>, k: nat): iset<BlockRange>
    requires k <= |events| && k <= |cmds|
  {
    if k == 0 then iset{}
    else
      var before := Unanswered(events, cmds, k - 1);
      iset range | (range in before && !RespondsFor(events[k - 1], range)) || FetchHeaders(range) in cmds[k - 1]
  }

  /** In every run from the start, the ledger has been asked for what a peer waits for, and has not
      responded since. */
  lemma {:induction false} WaitingIsFetched(events: seq<ServerEvent>, states: seq<HeaderRequests>, cmds: seq<seq<Command>>,
                                            k: nat, rest: BlockRange)
    requires IsRun(events, states, cmds) && k < |states| && states[0] == map[]
    ensures rest in states[k] ==> rest in Unanswered(events, cmds, k)
  {
    if k == 0 {
    } else {
      WaitingIsFetched(events, states, cmds, k - 1, rest);
      RunStep(events, states, cmds, k - 1);
    }
  }

  ghost predicate Answers(cmds: seq<Command>, peer: NodeId, range: BlockRange) {
    exists response :: SendResponse(peer, HeadersReply(response)) in cmds && response.range == range
  }

  /** The one reply that a waiting peer gets is for the range it waits for. */
  lemma ReplyIsFor(response: HeadersResponse, entries: map<NodeId, seq<Header>>, cmds: seq<Command>, peer: NodeId, range: BlockRange)
    requires Lists(cmds, RepliesOf(response, entries)) && peer in entries
    ensures Answers(cmds, peer, range) <==> range == AskedRange(response.range, entries[peer])
  {
    ListsMember(cmds, RepliesOf(response, entries));
    var reply := SendResponse(peer, HeadersReply(ReplyTo(response, entries[peer])));
    assert reply in RepliesOf(response, entries);
    if Answers(cmds, peer, range) {
      var r :| SendResponse(peer, HeadersReply(r)) in cmds && r.range == range;
      assert SendResponse(peer, HeadersReply(r)) in RepliesOf(response, entries);
    }
  }

  /** In every run, when the ledger next responds for what a request lacks, the request is answered
      exactly when the peer has not since asked for another range that lacks the same. */
  lemma AnsweredIff(events: seq<ServerEvent>, states: seq<HeaderRequests>, cmds: seq<seq<Command>>,
                    i: nat, j: nat, peer: NodeId, rest: BlockRange)
    requires IsRun(events, states, cmds) && i < j < |events|
    requires Waits(events[i], peer, rest) && NoResponse(events[i..j], rest)
    requires RespondsFor(events[j], rest)
    ensures Answers(cmds[j], peer, events[i].range) <==> LastAsked(events[i..j], peer, rest) == Some(events[i].range)
    ensures peer !in WaitingFor(states[j + 1], rest)
  {
    WaitsForLast(events, states, cmds, i, j, peer, rest);
    RunStep(events, states, cmds, j);
    ReplyIsFor(events[j].response, WaitingFor(states[j], rest), cmds[j], peer, events[i].range);
  }

  /** A peer that asks for headers that are all in the cache gets exactly these, at once. */
  lemma CachedIsAnswered(s: HeaderRequests, e: ServerEvent, t: HeaderRequests, cmds: seq<Command>, hs: seq<Header>)
    requires ServerStep(s, e, t, cmds) && e.Asks? && HeaderChain(e.range, hs)
    requires forall i :: 0 <= i < |hs| ==> HashOf(hs[i]) in e.known
    ensures t == s && cmds == [SendResponse(e.peer, HeadersReply(HeadersFound(e.range, hs)))]
  {
    assert HashOf(hs[|hs| - 1]) in e.known;
    CachedEndIsUnique(e.known, e.range, hs, e.cached);
  }

  // ---- bodies

  /** A run with nobody waiting at first. */
  ghost predicate IsBodyRun(events: seq<BodyEvent>, states: seq<BodyRequests>, cmds: seq<seq<Command>>) {
    && |states| == |events| + 1 && |cmds| == |events| && states[0] == map[]
    && forall i :: 0 <= i < |events| ==> BodyStep(states[i], events[i], states[i + 1], cmds[i])
  }

  /** The peer has asked for a body that was not cached, after the ledger last responded for it. */
  predicate AskedSince(events: seq<BodyEvent>, peer: NodeId, id: BodyId) {
    events != [] &&
    match events[|events| - 1]
    case LedgerBody(response) => response.Id() != id && AskedSince(events[..|events| - 1], peer, id)
    case AsksBody(p, x, cached) => (p == peer && x == id && !cached) || AskedSince(events[..|events| - 1], peer, id)
  }

  lemma {:induction false} BodyWaitsIff(events: seq<BodyEvent>, states: seq<BodyRequests>, cmds: seq<seq<Command>>,
                                        k: nat, peer: NodeId, id: BodyId)
    requires IsBodyRun(events, states, cmds) && k < |states|
    ensures peer in PeersFor(states[k], id) <==> AskedSince(events[..k], peer, id)
  {
    if k == 0 {
    } else {
      BodyWaitsIff(events, states, cmds, k - 1, peer, id);
      var e := events[k - 1];
      assert events[..k] == events[..k - 1] + [e];
      assert BodyStep(states[k - 1], e, states[k - 1 + 1], cmds[k - 1]);
    }
  }

  /** A peer that asks for a body gets it at once if it is cached, and otherwise the ledger is asked. */
  lemma BodyIsGivenOrFetched(s: BodyRequests, e: BodyEvent, t: BodyRequests, cmds: seq<Command>)
    requires BodyStep(s, e, t, cmds) && e.AsksBody?
    ensures e.cached ==> e.id.BodyHash? && cmds == [SendResponse(e.peer, PayloadReply(BodyFound(e.id.body)))]
    ensures !e.cached ==> FetchPayload(e.id) in cmds
  {
  }

  /** In every run, a peer gets the ledger's response for a body exactly once if it has asked since
      the response before, and not at all otherwise. */
  lemma BodyAnsweredIff(events: seq<BodyEvent>, states: seq<BodyRequests>, cmds: seq<seq<Command>>, j: nat, peer: NodeId)
    requires IsBodyRun(events, states, cmds) && j < |events| && events[j].LedgerBody?
    ensures var r := events[j].response;
      multiset(cmds[j])[SendResponse(peer, PayloadReply(r))] == if AskedSince(events[..j], peer, r.Id()) then 1 else 0
  {
    var r := events[j].response;
    BodyWaitsIff(events, states, cmds, j, peer, r.Id());
    var peers := PeersFor(states[j], r.Id());
    assert BodyStep(states[j], events[j], states[j + 1], cmds[j]);
    assert SendResponse(peer, PayloadReply(r)) in PayloadRepliesOf(r, peers) <==> peer in peers;
  }

  // ---- requests that get in each other's way

  /** Two ranges that end at different cached blocks above the same missing ones lack the same. */
  lemma SameRest(known: set<BlockId>, rest: BlockRange, hs: seq<Header>, k: nat)
    requires 0 < k <= |hs| && Linked(hs) && rest.numBlocks > 0
    requires hs[0].qc.BlockId() == rest.lastBlockId && rest.lastBlockId !in known
    requires forall i :: 0 <= i < |hs| ==> HashOf(hs[i]) in known
    ensures IsCachedEnd(known, AskedRange(rest, hs[..k]), hs[..k])
    ensures forall peer :: Waits(Asks(peer, AskedRange(rest, hs[..k]), known, hs[..k]), peer, rest)
  {
  }

  /** For any such ranges: when a peer asks for the shorter and then for the longer one, the
      first request is not answered by the ledger's response. */
  lemma FirstIsForgotten(known: set<BlockId>, rest: BlockRange, hs: seq<Header>, k: nat, peer: NodeId, response: HeadersResponse,
                         states: seq<HeaderRequests>, cmds: seq<seq<Command>>)
    requires 0 < k < |hs| && Linked(hs) && rest.numBlocks > 0 && response.range == rest
    requires hs[0].qc.BlockId() == rest.lastBlockId && rest.lastBlockId !in known
    requires forall i :: 0 <= i < |hs| ==> HashOf(hs[i]) in known
    requires IsRun([Asks(peer, AskedRange(rest, hs[..k]), known, hs[..k]), Asks(peer, AskedRange(rest, hs), known, hs),
                    Ledger(response)], states, cmds)
    ensures !Answers(cmds[2], peer, AskedRange(rest, hs[..k])) && Answers(cmds[2], peer, AskedRange(rest, hs))
  {
    var short, long := Asks(peer, AskedRange(rest, hs[..k]), known, hs[..k]), Asks(peer, AskedRange(rest, hs), known, hs);
    var events := [short, long, Ledger(response)];
    SameRest(known, rest, hs, k);
    SameRest(known, rest, hs, |hs|);
    assert hs[..|hs|] == hs;
    assert events[0..2] == [short, long] && events[1..2] == [long];
    AnsweredIff(events, states, cmds, 0, 2, peer, rest);
    AnsweredIff(events, states, cmds, 1, 2, peer, rest);
  }

  function HeaderOn(sig: Signature, parent: BlockId, round: Round): Header
    requires round > 0
  {
    var qc := QuorumCertificate(Vote(parent, round - 1, 1), SignatureCollection([], sig));
    Header(round, 1, qc, 0, round, round, [], [], BodyHash(Body([])))
  }

  lemma AskStep(s: HeaderRequests, e: ServerEvent, peer: NodeId, rest: BlockRange)
    requires Waits(e, peer, rest)
    ensures ServerStep(s, e, AddRequest(s, rest, peer, e.cached), [FetchHeaders(rest)])
  {
  }

  lemma LedgerStep(s: HeaderRequests, response: HeadersResponse, peer: NodeId, cached: seq<Header>)
    requires WaitingFor(s, response.range) == map[peer := cached]
    ensures ServerStep(s, Ledger(response), s - {response.range}, [SendResponse(peer, HeadersReply(ReplyTo(response, cached)))])
  {
    var entries, reply := WaitingFor(s, response.range), SendResponse(peer, HeadersReply(ReplyTo(response, cached)));
    assert entries[peer] == cached && reply in RepliesOf(response, entries);
    assert RepliesOf(response, entries) == {reply};
  }

  /** The run of two requests that lack the same, and the ledger's response. */
  lemma RunOfTwo(first: ServerEvent, second: ServerEvent, peer: NodeId, response: HeadersResponse)
      returns (states: seq<HeaderRequests>, cmds: seq<seq<Command>>)
    requires Waits(first, peer, response.range) && Waits(second, peer, response.range)
    ensures IsRun([first, second, Ledger(response)], states, cmds) && states[0] == map[] && states[3] == map[]
  {
    var rest := response.range;
    var s1 := AddRequest(map[], rest, peer, first.cached);
    var s2 := AddRequest(s1, rest, peer, second.cached);
    AskStep(map[], first, peer, rest);
    AskStep(s1, second, peer, rest);
    assert WaitingFor(s2, rest) == map[peer := second.cached] && s2 - {rest} == map[];
    LedgerStep(s2, response, peer, second.cached);
    states := [map[], s1, s2, map[]];
    cmds := [[FetchHeaders(rest)], [FetchHeaders(rest)], [SendResponse(peer, HeadersReply(ReplyTo(response, second.cached)))]];
  }

  /** Two cached blocks on a missing one, and a peer that asks for all up to the first, and then
      for all up to the second: it waits for the first in vain. */
  lemma ForgottenExample(sig: Signature, peer: NodeId)
      returns (events: seq<ServerEvent>, states: seq<HeaderRequests>, cmds: seq<seq<Command>>, rest: BlockRange)
    ensures |events| == 3 && IsRun(events, states, cmds) && states[0] == map[] && states[3] == map[]
    ensures Waits(events[0], peer, rest) && RespondsFor(events[2], rest)
    ensures !Answers(cmds[2], peer, events[0].range)
  {
    rest := BlockRange(RawId(7), 1);
    var a := HeaderOn(sig, RawId(7), 2);
    var b := HeaderOn(sig, HashOf(a), 3);
    var hs, known, response := [a, b], {HashOf(a), HashOf(b)}, HeadersNotAvailable(rest);
    assert hs[..2] == hs;
    SameRest(known, rest, hs, 1);
    SameRest(known, rest, hs, 2);
    var first, second := Asks(peer, AskedRange(rest, hs[..1]), known, hs[..1]), Asks(peer, AskedRange(rest, hs), known, hs);
    assert Waits(first, peer, rest) && Waits(second, peer, rest);
    events := [first, second, Ledger(response)];
    states, cmds := RunOfTwo(first, second, peer, response);
    FirstIsForgotten(known, rest, hs, 1, peer, response, states, cmds);
  }
}
