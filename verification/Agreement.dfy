/** Two nodes never finalize conflicting blocks: what the commit rule needs of the votes, and why
it asks for consecutive rounds. */
module Agreement {
  import opened ConsensusTypes
  import opened BlockForest
  import opened ChainRuns
  import opened Validators
  import opened SignatureSums
  import opened ForkCommits

  /** Which votes have a quorum certificate. */
  type Certified = Vote -> bool

  ghost predicate OneBlockPerRound(cert: Certified) {
    forall v, w :: cert(v) && cert(w) && v.round == w.round ==> v.id == w.id
  }

  /** Certified blocks were validated, and what they extend is certified. */
  ghost predicate Validated(cert: Certified, from: Round) {
    forall v :: cert(v) && v.round > from ==>
      v.id.HashOf? && ValidHeader(v.id.header) && v.id.header.round <= v.round && cert(v.id.header.qc.info)
  }

  /** The block is certified in the round after the one it extends. */
  predicate Consecutive(v: Vote) {
    v.id.HashOf? && v.id.header.qc.info.round + 1 == v.round
  }

  /** Once a block is certified that extends a certificate of the round before, only blocks that
      extend a certificate at least as new are certified. */
  ghost predicate Locks(cert: Certified) {
    forall v, w :: cert(v) && cert(w) && Consecutive(v) && w.round > v.round ==>
      w.id.HashOf? && w.id.header.qc.info.round >= v.id.header.qc.info.round
  }

  ghost predicate Safe(cert: Certified, from: Round) {
    OneBlockPerRound(cert) && Validated(cert, from) && Locks(cert)
  }

  /** `v` commits the block `id`. */
  ghost predicate Commits(cert: Certified, v: Vote, id: BlockId) {
    cert(v) && Consecutive(v) && v.id.header.qc.info.id == id && cert(v.id.header.qc.info)
  }

  /** Everything certified in the round of a committed block's certificate or later extends it. */
  lemma {:induction false} CertifiedExtends(cert: Certified, from: Round, v: Vote, id: BlockId, w: Vote)
    requires Safe(cert, from) && Commits(cert, v, id) && cert(w) && w.round >= v.id.header.qc.info.round > from
    ensures Extends(id, w.id)
    decreases w.round
  {
    var u := v.id.header.qc.info;
    if w.round == u.round {
      assert w.id == u.id;
    } else if w.round == v.round {
      assert w.id == v.id;
    } else {
      var x := w.id.header.qc.info;
      assert x.round >= u.round && x.round < w.round && cert(x);
      CertifiedExtends(cert, from, v, id, x);
    }
  }

  /** Of two committed blocks one extends the other. */
  lemma CommittedAreComparable(cert: Certified, from: Round, v: Vote, a: BlockId, w: Vote, b: BlockId)
    requires Safe(cert, from) && Commits(cert, v, a) && Commits(cert, w, b)
    requires v.id.header.qc.info.round > from && w.id.header.qc.info.round > from
    ensures Extends(a, b) || Extends(b, a)
  {
    if v.id.header.qc.info.round <= w.id.header.qc.info.round {
      CertifiedExtends(cert, from, v, a, w.id.header.qc.info);
    } else {
      CertifiedExtends(cert, from, w, b, v.id.header.qc.info);
    }
  }

  // ---- where the two rules come from

  type Casts = (NodeId, Vote) -> bool

  ghost predicate AllCast(s: set<NodeId>, cast: Casts, v: Vote) {
    forall n :: n in s ==> cast(n, v)
  }

  ghost predicate HasQuorum(c: Committee, cast: Casts, v: Vote)
    requires c.stakes.Keys == NodeSet(c.nodes)
  {
    exists s: set<NodeId> :: HasSuperMajority(c, s) && AllCast(s, cast, v)
  }

  /** A correct node votes for one block in a round. */
  ghost predicate VotesOnce(correct: set<NodeId>, cast: Casts) {
    forall n, v, w :: n in correct && cast(n, v) && cast(n, w) && v.round == w.round ==> v.id == w.id
  }

  /** After a vote for a block that extends a certificate of the round before, a correct node
      votes for no block that extends an older one. */
  ghost predicate VotesLocked(correct: set<NodeId>, cast: Casts) {
    forall n, v, w :: n in correct && cast(n, v) && cast(n, w) && Consecutive(v) && w.round > v.round ==>
      w.id.HashOf? && w.id.header.qc.info.round >= v.id.header.qc.info.round
  }

  /** Some correct node cast both of two certified votes. */
  lemma SharedVoter(c: Committee, correct: set<NodeId>, cast: Casts, v: Vote, w: Vote) returns (n: NodeId)
    requires c.stakes.Keys == NodeSet(c.nodes) && 3 * Stake(c, NodeSet(c.nodes) - correct) <= TotalStake(c)
    requires HasQuorum(c, cast, v) && HasQuorum(c, cast, w)
    ensures n in correct && cast(n, v) && cast(n, w)
  {
    var a: set<NodeId> :| HasSuperMajority(c, a) && AllCast(a, cast, v);
    var b: set<NodeId> :| HasSuperMajority(c, b) && AllCast(b, cast, w);
    QuorumsIntersect(c, a, b);
    if a * b * correct == {} {
      forall x | x in a * b && x in c.nodes ensures x in NodeSet(c.nodes) - correct {
        assert x in correct ==> x in a * b * correct;
      }
      StakeMonotone(c.nodes, c.stakes, a * b, NodeSet(c.nodes) - correct);
      assert false;
    }
    n :| n in a * b * correct;
  }

  /** With at most a third of the stake faulty, what correct nodes keep to, certificates do. */
  lemma SafeFromVotes(c: Committee, correct: set<NodeId>, cast: Casts, cert: Certified)
    requires c.stakes.Keys == NodeSet(c.nodes) && 3 * Stake(c, NodeSet(c.nodes) - correct) <= TotalStake(c)
    requires VotesOnce(correct, cast) && VotesLocked(correct, cast)
    requires forall v :: cert(v) ==> HasQuorum(c, cast, v)
    ensures OneBlockPerRound(cert) && Locks(cert)
  {
    forall v, w | cert(v) && cert(w) && v.round == w.round ensures v.id == w.id {
      var n := SharedVoter(c, correct, cast, v, w);
    }
    forall v, w | cert(v) && cert(w) && Consecutive(v) && w.round > v.round
      ensures w.id.HashOf? && w.id.header.qc.info.round >= v.id.header.qc.info.round
    {
      var n := SharedVoter(c, correct, cast, v, w);
    }
  }

  // ---- what a node knows

  /** The node takes in blocks and certificates only with certified votes. */
  ghost predicate Knows(cert: Certified, e: Event) {
    match e
    case AddBlock(b) => cert(b.header.qc.info)
    case Update(_, _) => true
    case Commit(qc) => cert(qc.info)
  }

  ghost predicate KnowsOnly(cert: Certified, events: seq<Event>) {
    forall i :: 0 <= i < |events| ==> Knows(cert, events[i])
  }

  ghost predicate KnownBlocks(cert: Certified, blocks: Blocks) {
    forall id :: id in blocks ==> cert(blocks[id].header.qc.info)
  }

  /** The root is the first one, or a certified vote commits it. */
  ghost predicate JustifiedRoot(cert: Certified, root: RootInfo, id: BlockId) {
    id == root.blockId || exists v :: Commits(cert, v, id) && v.id.header.qc.info.round > root.round
  }

  ghost predicate Justified(cert: Certified, root: RootInfo, s: Chain) {
    && Sound(s.forest) && s.forest.root.round >= root.round
    && KnownBlocks(cert, s.forest.blocks) && JustifiedRoot(cert, root, s.forest.root.blockId)
    && forall i :: 0 <= i < |s.finalized| ==> ValidBlock(s.finalized[i])
  }

  lemma CommitIsJustified(cert: Certified, root: RootInfo, s: Chain, qc: QuorumCertificate)
    requires Justified(cert, root, s) && Enabled(s.forest, Commit(qc)) && cert(qc.info)
    ensures Justified(cert, root, Apply(s, Commit(qc)))
  {
    var f, t := s.forest, Apply(s, Commit(qc));
    ApplyKeepsSound(s, Commit(qc));
    CommitsExactly(s, qc);
    if CommitRule(f, qc) {
      var c := f.blocks[qc.info.id];
      var id := c.header.qc.info.id;
      assert qc.info.id == HashOf(c.header);
      assert Commits(cert, qc.info, id);
      assert id in f.blocks && f.blocks[id].Id() == id && c.header.qc.info.round >= f.blocks[id].Round() > f.root.round;
      CommittedAreValid(s, qc);
    }
  }

  lemma CommittedAreValid(s: Chain, qc: QuorumCertificate)
    requires Sound(s.forest) && Enabled(s.forest, Commit(qc)) && CommitTarget(s.forest, qc).Some?
    requires forall i :: 0 <= i < |s.finalized| ==> ValidBlock(s.finalized[i])
    ensures var t := Apply(s, Commit(qc));
      && (forall i :: 0 <= i < |t.finalized| ==> ValidBlock(t.finalized[i]))
      && t.forest.root.round >= s.forest.root.round
  {
    var id := CommitTarget(s.forest, qc).value;
    PruneCommitsPath(s.forest, id);
    PathIsLinked(s.forest.root, s.forest.blocks, id);
    var p := PathFromRoot(s.forest.root, s.forest.blocks, id).value;
    forall i | 0 <= i < |p| ensures ValidBlock(p[i]) {
      assert p[i] in p;
    }
  }

  lemma StepIsJustified(cert: Certified, root: RootInfo, s: Chain, e: Event)
    requires Justified(cert, root, s) && Enabled(s.forest, e) && Knows(cert, e)
    ensures Justified(cert, root, Apply(s, e))
  {
    match e
    case AddBlock(b) => ApplyKeepsSound(s, e);
    case Update(_, _) => ApplyKeepsSound(s, e);
    case Commit(qc) => CommitIsJustified(cert, root, s, qc);
  }

  lemma {:induction false} RunIsJustified(cert: Certified, root: RootInfo, events: seq<Event>, states: seq<Chain>, k: nat)
    requires ValidRoot(root) && IsRun(root, events, states) && KnowsOnly(cert, events) && k < |states|
    ensures Justified(cert, root, states[k])
  {
    if k == 0 {
    } else {
      RunIsJustified(cert, root, events, states, k - 1);
      RunStep(root, events, states, k);
      assert Knows(cert, events[k - 1]);
      StepIsJustified(cert, root, states[k - 1], events[k - 1]);
    }
  }

  // ---- chains with comparable ends

  /** A chain from `g` to its last block is as long as the last block is deeper. */
  lemma {:induction false} LinkedDepth(g: BlockId, round: Round, s: seq<Block>)
    requires LinkedFrom(g, round, s)
    ensures Depth(TipId(g, s)) == Depth(g) + |s|
    decreases |s|
  {
    if s == [] {
    } else {
      var n := |s| - 1;
      LinkedDepth(g, round, s[..n]);
      assert s[n].ParentId() == TipId(g, s[..n]);
    }
  }

  lemma {:induction false} SameTipSameChain(g: BlockId, round: Round, s: seq<Block>, t: seq<Block>)
    requires LinkedFrom(g, round, s) && LinkedFrom(g, round, t) && |s| == |t| && TipId(g, s) == TipId(g, t)
    requires (forall i :: 0 <= i < |s| ==> ValidBlock(s[i])) && (forall i :: 0 <= i < |t| ==> ValidBlock(t[i]))
    ensures s == t
    decreases |s|
  {
    if s == [] {
    } else {
      var n := |s| - 1;
      SameBlock(s[n], t[n]);
      assert s[n].ParentId() == TipId(g, s[..n]) && t[n].ParentId() == TipId(g, t[..n]);
      SameTipSameChain(g, round, s[..n], t[..n]);
      assert s == s[..n] + [s[n]] && t == t[..n] + [t[n]];
    }
  }

  /** A chain whose end the other chain's end extends is a prefix of it. */
  lemma {:induction false} ExtendedChainIsPrefix(g: BlockId, round: Round, s: seq<Block>, t: seq<Block>)
    requires LinkedFrom(g, round, s) && LinkedFrom(g, round, t) && Extends(TipId(g, s), TipId(g, t))
    requires (forall i :: 0 <= i < |s| ==> ValidBlock(s[i])) && (forall i :: 0 <= i < |t| ==> ValidBlock(t[i]))
    ensures s <= t
    decreases |t|
  {
    LinkedDepth(g, round, s);
    LinkedDepth(g, round, t);
    ExtendsIsDeeper(TipId(g, s), TipId(g, t));
    if |s| == |t| {
      SameTipSameChain(g, round, s, t);
    } else {
      var n := |t| - 1;
      assert t[n].ParentId() == TipId(g, t[..n]);
      ExtendedChainIsPrefix(g, round, s, t[..n]);
    }
  }

  /** The chains that two nodes finalize, in any runs from the same root, are prefixes of one
      another. */
  lemma FinalizedAgree(cert: Certified, root: RootInfo, events: seq<Event>, states: seq<Chain>,
                       events': seq<Event>, states': seq<Chain>)
    requires ValidRoot(root) && Safe(cert, root.round)
    requires IsRun(root, events, states) && KnowsOnly(cert, events)
    requires IsRun(root, events', states') && KnowsOnly(cert, events')
    ensures states[|events|].finalized <= states'[|events'|].finalized || states'[|events'|].finalized <= states[|events|].finalized
  {
    var s, t := states[|events|], states'[|events'|];
    RunIsJustified(cert, root, events, states, |events|);
    RunIsJustified(cert, root, events', states', |events'|);
    RunKeepsChain(root, events, states, |events|);
    RunKeepsChain(root, events', states', |events'|);
    RootsAgree(cert, root, s.forest.root.blockId, t.forest.root.blockId);
    if Extends(s.forest.root.blockId, t.forest.root.blockId) {
      ExtendedChainIsPrefix(root.blockId, root.round, s.finalized, t.finalized);
    } else if Extends(t.forest.root.blockId, s.forest.root.blockId) {
      ExtendedChainIsPrefix(root.blockId, root.round, t.finalized, s.finalized);
    } else {
      LinkedExtends(root.blockId, root.round, s.finalized);
      LinkedExtends(root.blockId, root.round, t.finalized);
    }
  }

  lemma {:induction false} LinkedExtends(g: BlockId, round: Round, s: seq<Block>)
    requires LinkedFrom(g, round, s)
    ensures Extends(g, TipId(g, s))
    decreases |s|
  {
    if s == [] {
    } else {
      var n := |s| - 1;
      LinkedExtends(g, round, s[..n]);
      assert s[n].ParentId() == TipId(g, s[..n]);
    }
  }

  lemma RootsAgree(cert: Certified, root: RootInfo, a: BlockId, b: BlockId)
    requires Safe(cert, root.round) && JustifiedRoot(cert, root, a) && JustifiedRoot(cert, root, b)
    ensures a == root.blockId || b == root.blockId || Extends(a, b) || Extends(b, a)
  {
    if a != root.blockId && b != root.blockId {
      var v :| Commits(cert, v, a) && v.id.header.qc.info.round > root.round;
      var w :| Commits(cert, w, b) && w.id.header.qc.info.round > root.round;
      CommittedAreComparable(cert, root.round, v, a, w, b);
    }
  }

  // ---- rounds that are not consecutive

  /** The block is certified, and so is the block that it extends, in whatever round. */
  ghost predicate CertifiedChild(cert: Certified, v: Vote, id: BlockId) {
    cert(v) && v.id.HashOf? && v.id.header.qc.info.id == id && cert(v.id.header.qc.info)
  }

  /** `v` votes, in its own round, for a block that extends the block of `u` with the QC of `u`. */
  ghost predicate VotesOn(u: Vote, v: Vote, gap: nat) {
    && v.id.HashOf? && ValidHeader(v.id.header) && v.id.header.round == v.round
    && v.id.header.qc.info == u && v.round == u.round + gap
  }

  /** Two forks from `g`: `a` in the next round and `v` two rounds later, `b` in between and `w`
      after all of them. */
  ghost predicate ForkedVotes(g: Vote, a: Vote, v: Vote, b: Vote, w: Vote) {
    !g.id.HashOf? && VotesOn(g, a, 1) && VotesOn(a, v, 2) && VotesOn(g, b, 2) && VotesOn(b, w, 2)
  }

  lemma ForkedVotesAreSafe(g: Vote, a: Vote, v: Vote, b: Vote, w: Vote, cert: Certified)
    requires ForkedVotes(g, a, v, b, w) && (forall x :: cert(x) <==> x == g || x == a || x == v || x == b || x == w)
    ensures Safe(cert, g.round)
  {
    forall x | cert(x) && x.round > g.round
      ensures x.id.HashOf? && ValidHeader(x.id.header) && x.id.header.round <= x.round && cert(x.id.header.qc.info)
    {
    }
    forall x | cert(x) && Consecutive(x) ensures x == a {
    }
  }

  function VoteOn(sig: Signature, u: Vote, gap: nat, seqNum: SeqNum): (v: Vote) {
    Vote(BlockOn(sig, u.id, u.round, u.round + gap, seqNum).Id(), u.round + gap, 1)
  }

  /** If a certified child committed its parent in any later round, two nodes could disagree:
      two blocks, neither of which extends the other, both with a certified child, in votes that
      keep to every rule. */
  lemma ConsecutiveIsNeeded(sig: Signature) returns (cert: Certified, a: Vote, b: Vote, v: Vote, w: Vote)
    ensures Safe(cert, GENESIS_ROUND)
    ensures CertifiedChild(cert, v, a.id) && CertifiedChild(cert, w, b.id)
    ensures !Extends(a.id, b.id) && !Extends(b.id, a.id)
  {
    var g := Vote(GENESIS_BLOCK_ID, GENESIS_ROUND, 1);
    a, b := VoteOn(sig, g, 1, 1), VoteOn(sig, g, 2, 1);
    v, w := VoteOn(sig, a, 2, 2), VoteOn(sig, b, 2, 2);
    assert ForkedVotes(g, a, v, b, w);
    var votes := {g, a, b, v, w};
    cert := x => x in votes;
    ForkedVotesAreSafe(g, a, v, b, w, cert);
    assert a.id != b.id && !Extends(a.id, g.id) && !Extends(b.id, g.id);
  }
}
