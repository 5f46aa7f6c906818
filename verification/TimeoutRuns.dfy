/** Runs of a node's timeout collection: timeouts arrive in any order, valid or not, the node's
own timer expires, and certificates arrive. */
module TimeoutRuns {
  import opened ConsensusTypes
  import opened Validators
  import opened Timeouts
  import opened Pacemakers

  /** A run that starts with nothing collected. */
  ghost predicate IsRun(env: Env, events: seq<Event>, states: seq<Collector>)
    requires ValidEnv(env)
  {
    && |states| == |events| + 1
    && states[0].pending == map[]
    && forall i :: 0 <= i < |events| ==> CollectStep(env, states[i], events[i], states[i + 1])
  }

  lemma RunStep(env: Env, events: seq<Event>, states: seq<Collector>, k: nat)
    requires ValidEnv(env) && IsRun(env, events, states) && 0 < k < |states|
    ensures CollectStep(env, states[k - 1], events[k - 1], states[k])
  {
    var i := k - 1;
    assert CollectStep(env, states[i], events[i], states[i + 1]);
  }

  /** Every timeout of `round` from a member of `honest` carries the right signature. */
  ghost predicate SendOnlyValid(env: Env, events: seq<Event>, round: Round, honest: set<NodeId>) {
    forall i :: 0 <= i < |events| && events[i].Received? && events[i].timeout.info.round == round && events[i].author in honest ==>
      events[i].timeout.signature == env.signTimeout(events[i].author, events[i].timeout.info)
  }

  /** Whose timeouts of `round` were received. */
  function TimedOut(events: seq<Event>, round: Round): (s: set<NodeId>) {
    set e | e in events && e.Received? && e.timeout.info.round == round :: e.author
  }

  lemma TimedOutSnoc(events: seq<Event>, e: Event, round: Round)
    ensures TimedOut(events + [e], round) ==
      TimedOut(events, round) + if e.Received? && e.timeout.info.round == round then {e.author} else {}
  {
    assert forall x :: x in events + [e] <==> x in events || x == e;
  }

  /** All of `senders` are pending with valid signatures. */
  ghost predicate PendingValid(env: Env, m: PendingTimeouts, senders: set<NodeId>) {
    forall n :: n in senders ==> n in m && m[n].signature == env.signTimeout(n, m[n].info)
  }

  /** What holds of a state once `senders` have sent valid timeouts of `round`: the node has
      reached the round, and while it is in it they are all pending and no supermajority. */
  ghost predicate Kept(env: Env, s: Collector, round: Round, senders: set<NodeId>)
    requires ValidEnv(env)
  {
    && (senders != {} ==> s.round >= round)
    && (s.round == round ==> PendingValid(env, s.pending, senders))
    && !HasSuperMajority(CommitteeAt(env, s.round), s.pending.Keys)
  }

  lemma KeptStep(env: Env, s: Collector, e: Event, t: Collector, round: Round, honest: set<NodeId>, senders: set<NodeId>)
    requires ValidEnv(env) && CollectStep(env, s, e, t) && Kept(env, s, round, senders) && senders <= honest
    requires e.Received? && e.timeout.info.round == round && e.author in honest ==>
      e.timeout.signature == env.signTimeout(e.author, e.timeout.info)
    ensures Kept(env, t, round,
      senders + if e.Received? && e.timeout.info.round == round && e.author in honest then {e.author} else {})
  {
    NoStake(env, t.round);
    if e.Received? && e.timeout.info.round >= s.round {
      var kept :| ReceiveStep(env, s, e.author, e.timeout, kept, t);
      ReceiveKeeps(env, s, e.author, e.timeout, kept, t, round, honest, senders);
    }
  }

  lemma ReceiveKeeps(env: Env, s: Collector, author: NodeId, x: Timeout, kept: PendingTimeouts, t: Collector,
                     round: Round, honest: set<NodeId>, senders: set<NodeId>)
    requires ValidEnv(env) && Kept(env, s, round, senders) && x.info.round == s.round
    requires ReceiveStep(env, s, author, x, kept, t)
    requires x.info.round == round && author in honest ==> x.signature == env.signTimeout(author, x.info)
    requires senders <= honest
    ensures Kept(env, t, round, senders + if x.info.round == round && author in honest then {author} else {})
  {
    NoStake(env, t.round);
  }

  /** In every run, whatever else is sent and in whatever order, the timeouts of senders who send
      only valid ones are kept for as long as the node stays in the round. */
  lemma {:induction false} ValidTimeoutsAreKept(env: Env, events: seq<Event>, states: seq<Collector>,
                                                     round: Round, honest: set<NodeId>, k: nat)
    requires ValidEnv(env) && IsRun(env, events, states) && k < |states|
    requires SendOnlyValid(env, events, round, honest)
    ensures Kept(env, states[k], round, TimedOut(events[..k], round) * honest)
  {
    if k == 0 {
      NoStake(env, states[0].round);
      assert events[..0] == [] && TimedOut([], round) == {};
    } else {
      ValidTimeoutsAreKept(env, events, states, round, honest, k - 1);
      RunStep(env, events, states, k);
      var e, before := events[k - 1], TimedOut(events[..k - 1], round);
      assert events[..k] == events[..k - 1] + [e];
      TimedOutSnoc(events[..k - 1], e, round);
      KeptStep(env, states[k - 1], e, states[k], round, honest, before * honest);
      assert TimedOut(events[..k], round) * honest ==
        before * honest + if e.Received? && e.timeout.info.round == round && e.author in honest then {e.author} else {};
    }
  }

  /** Once senders of only valid timeouts of a round hold a supermajority, the node has left the
      round: a certificate of it, or of a later one, has formed or arrived. */
  lemma CertificateFormsInTime(env: Env, events: seq<Event>, states: seq<Collector>, round: Round, honest: set<NodeId>)
    requires ValidEnv(env) && IsRun(env, events, states) && SendOnlyValid(env, events, round, honest)
    requires HasSuperMajority(CommitteeAt(env, round), honest) && honest <= TimedOut(events, round)
    ensures states[|events|].round > round
  {
    var s, c := states[|events|], CommitteeAt(env, round);
    ValidTimeoutsAreKept(env, events, states, round, honest, |events|);
    assert events[..|events|] == events && TimedOut(events, round) * honest == honest;
    StakeEmpty(c.nodes, c.stakes);
    if s.round == round {
      SuperMajorityGrows(c, honest, s.pending.Keys);
    }
  }

  // ---- this node's own timeouts

  /** In its round the node has sent its own timeout, because its timer expired or because the
      timeouts it received show that a correct node has. */
  ghost predicate SendsOwnAt(env: Env, s: Collector, e: Event)
    requires ValidEnv(env)
  {
    e.TimerExpired? || (e.Received? && OwnDue(env, s, e.author, e.timeout))
  }

  lemma StepKeepsPhase(env: Env, s: Collector, e: Event, t: Collector)
    requires ValidEnv(env) && CollectStep(env, s, e, t)
    ensures s.round <= t.round
    ensures t.round == s.round && (s.phase == One || SendsOwnAt(env, s, e)) ==> t.phase == One
  {
  }

  lemma {:induction false} PhaseIsKept(env: Env, events: seq<Event>, states: seq<Collector>, i: nat, j: nat)
    requires ValidEnv(env) && IsRun(env, events, states) && i < j < |states|
    requires SendsOwnAt(env, states[i], events[i])
    ensures states[i].round <= states[j].round && (states[j].round == states[i].round ==> states[j].phase == One)
    decreases j
  {
    RunStep(env, events, states, j);
    StepKeepsPhase(env, states[j - 1], events[j - 1], states[j]);
    if i == j - 1 {
    } else {
      PhaseIsKept(env, events, states, i, j - 1);
    }
  }

  /** Having sent its own timeout of a round, the node sends no other because of the timeouts of
      others, whatever they are. */
  lemma OwnTimeoutOnce(env: Env, events: seq<Event>, states: seq<Collector>, i: nat, j: nat, author: NodeId, t: Timeout)
    requires ValidEnv(env) && IsRun(env, events, states) && i < j < |states|
    requires SendsOwnAt(env, states[i], events[i]) && states[j].round == states[i].round
    ensures !OwnDue(env, states[j], author, t)
  {
    PhaseIsKept(env, events, states, i, j);
  }
}
