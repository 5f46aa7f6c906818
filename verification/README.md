# A verified model of the MonadBFT consensus node

This project models, in Dafny 4.11, the parts of the node whose correctness spans many
functions and unbounded runs, and proves what they promise.

**Block tree.** Uncommitted blocks form a forest on a committed root, with an `is_coherent`
flag per block, children lists and a payload index. `BlockForest` is that forest as a value,
`BlockIndex` says that the indexes agree with a plain scan, `TreeSearch` holds the invariants
of the two queue searches, and `BlockTrees` is the class that updates everything in place.
`ChainRuns` and `ChainStates` put the commit rule on top and state safety over whole runs;
`ForkCommits` is a run with a commit that leaves an orphan and one that panics on it.
`Agreement` is about two nodes, and `Timestamps` about the times of what they commit.

**Certificates.** Signatures are elements of a commutative group, and a collection verifies
when its sum is the sum its signers should have produced. `AggregationTree` is the heap that
bisects to find bad signatures, `SignatureCollections` the constructor around it, `SignerMaps`
its wire format. `VoteStates` and `VoteRuns` turn votes into quorum certificates, `Timeouts`,
`CertificateChecks`, `Pacemakers` and `TimeoutRuns` turn timeouts into timeout certificates, and
`TipRuns` is about what a node remembers of its votes until it times out.
`NodeRuns` puts both together into runs of the node, and `ConsensusStates` is the class whose
handlers take the steps of such runs. `RejectedCertificates` is about certificates that are
built but not accepted.

**Block sync.** `BlockSyncStates` is the client's state with its invariant, `BlockSyncs` the
class with every handler, client and server side, `BlockSyncRuns` what holds over whole runs of
them, and `BlockSyncRequests` what becomes of every request. `BlockSyncLeaks` is about its
counter, `BlockSyncServers` about runs of its server side.

**RLP offsets.** `RlpScanner` finds byte ranges without decoding. It is compared with the
encoding of Appendix B of the Ethereum Yellow Paper. `RlpBounds` says when it leaves its data,
`RlpOverflow` when its sums overflow.

Block and body ids are hashes; hashing is modelled by free constructors, so ids are injective.
Hash maps and hash sets are iterated in an arbitrary order. The choice of a peer, the coherency
policy, the validators of an epoch and the signatures a validator should produce are parameters.

## What the proofs found

- `prune` keeps the tree connected if and only if every coherent block that outlives the commit
  descends from the new root. The comment on `prune` assumes more, that all forks have smaller
  rounds; that suffices. `ForkCommits.CommitCanOrphan` is a run of the tree and a commit, allowed
  by the commit rule, after which a coherent block has no parent. Such a block can never be
  connected again, and a certificate that commits it makes the node panic
  (`ForkCommits.CommitCanPanic`); otherwise a commit never panics. What is finalized stays one
  chain in every case.
- `maybe_fill_path_to_root` subtracts sequence numbers with a check that panics. It does so
  exactly when an ancestor that it passes has a sequence number below the root's.
  `ChainStates.UnderflowExample` is such a tree.
- Timestamps "must be monotonically increasing", and are along every path of coherent blocks. But
  a block that extends the root is compared with 0, although the root has a timestamp, so a commit
  can go back in time. It does exactly when its first block is no later than the root:
  `Timestamps.FinalizedTimesRiseIff` and `Timestamps.TimestampsCanFall`.
- A timeout certificate built from accepted timeouts passes `verify_tc` exactly when no timeout
  claims a QC of the timed-out round or later and the extend it picks is itself accepted. Message
  validation does not tie the QC round that the sender of a tip claims to the QC of that tip, so
  this is not implied for every sender: `RejectedCertificates.TcCanFail`. It is implied for timeouts built
  by `local_timeout_round`.
- `self_payload_requests_in_flight` is documented as a count of parallel requests. When a started
  request is answered from a cache, its place is not given back. After ten such answers no payload
  request starts again until the requester changes (`BlockSyncRuns.StalledForGood`), and
  `BlockSyncLeaks.StallExample` gets there.
- The offset scanner trusts the lengths it reads. A list that announces more than the data holds
  is an error, an index past the end, or a range past the data, depending on where the items
  inside it end. `RlpBounds` has the exact conditions for the last two.
- An item that announces 2^64 bytes in total makes the sums of the scanner overflow. The release
  profile does not check for that, and there the scan of such an item does not end.
- A peer that asks for two ranges of which the same part is not cached gets one answer, to the
  second request (`BlockSyncServers.AnsweredIff`).
- `SignerMap` encodes any length, but decodes at most 16384 bits; collections of more validators
  never verify, and aggregating no signatures at all for so many validators fails an `expect`.

## Model

| member | source | states |
|---|---|---|
| `ConsensusTypes.PassthruChecksSeqNum` | monad-consensus-types/src/block.rs:245-280 | the passthru policy only accepts the sequence number after the one extended, or after the root's, and a later timestamp than that of the block extended, or than 0 on the root |
| `ConsensusTypes.PassthruAcceptsIff` | monad-consensus-types/src/block.rs:245-280 | the passthru policy accepts a block exactly when it follows what it extends in number and time and has no execution results; on the root the time it follows is 0 |
| `BlockForest.CoherentPath` | monad-blocktree/src/blocktree.rs:398-422 | under prefix closure every coherent block has a path to the root made of coherent blocks only |
| `BlockForest.RootedPath` | monad-blocktree/src/blocktree.rs:398-422 | in every state a run can reach, a coherent block has an all-coherent path to the root exactly when its headers lead to the root |
| `BlockForest.PathIsLinked` | monad-blocktree/src/blocktree.rs:398-422 | the path from the root is parent-linked with rising rounds and ends at the block |
| `BlockForest.AddKeeps` | monad-blocktree/src/blocktree.rs:208-223 | adding a validated block keeps the forest well formed and rooted, and prefix closed if it was |
| `BlockForest.AddIsExact` | monad-blocktree/src/blocktree.rs:208-223 | a block enters exactly when its round is above the root's, whether or not its parent is there; nothing else changes and it is not coherent unless it was |
| `BlockForest.AddAllIsExact` | monad-blocktree/src/blocktree.rs:208-223 | after adding any blocks in any order the forest holds what it held and exactly those of them above the root |
| `BlockForest.AddAllIgnoresOrder` | monad-blocktree/src/blocktree.rs:208-223 | adding the same blocks in another order, or some of them again, gives the same forest |
| `BlockForest.AddedChainIsConnected` | monad-blocktree/src/blocktree.rs:208-223 | a chain from the root whose blocks were all added, in whatever order, is the path to its last block |
| `BlockForest.UpdateKeeps` | monad-blocktree/src/blocktree.rs:225-303 | a coherency update keeps coherence rooted, and prefix closed if it was, and only turns blocks coherent that the policy accepts |
| `BlockForest.UpdateIsExhaustive` | monad-blocktree/src/blocktree.rs:225-303 | after an update no incoherent child of a block that turned coherent would pass the check |
| `BlockForest.UpdateReaches` | monad-blocktree/src/blocktree.rs:225-303 | an update at a block makes its whole path coherent if every block of it that is not coherent yet passes the check |
| `BlockForest.PruneCommitsPath` | monad-blocktree/src/blocktree.rs:140-206 | prune hands out the all-coherent path to the new root, raises the root, and removes that path |
| `BlockForest.PruneKeepsDescendants` | monad-blocktree/src/blocktree.rs:140-206 | every descendant of the new root outlives the commit, coherent exactly if it was |
| `BlockForest.PruneKeepsRooted` | monad-blocktree/src/blocktree.rs:140-206 | after every commit, a coherent survivor either extends the new root through coherent blocks or does not extend it at all |
| `BlockForest.LostByPrune` | monad-blocktree/src/blocktree.rs:140-206 | a commit cuts a connected block off exactly when the block does not descend from what is committed |
| `BlockForest.PruneKeepsClosureIff` | monad-blocktree/src/blocktree.rs:127-206 | prune keeps every coherent block connected if and only if the coherent blocks that outlive it descend from the new root |
| `BlockForest.ForksAreLowerSuffices` | monad-blocktree/src/blocktree.rs:127-139 | the documented assumption, that forks have smaller rounds, implies that condition |
| `BlockIndex.InsertKeepsChildren` | monad-blocktree/src/tree.rs:93-132 | inserting keeps every children list equal to a scan for blocks naming that parent, each once |
| `BlockIndex.InsertKeepsPayloads` | monad-blocktree/src/tree.rs:93-132 | inserting keeps the payload index equal to a scan for the blocks with each body |
| `BlockIndex.RemoveKeepsPayloads` | monad-blocktree/src/tree.rs:68-91 | so does removing, dropping a body with its last user |
| `BlockIndex.PruneKeepsChildren` | monad-blocktree/src/blocktree.rs:174-202 | children lists are still exact after the bulk deletion of prune |
| `BlockTrees.Tree.SetCoherent` | monad-blocktree/src/tree.rs:63-66 | changes one flag and reports whether the block is there |
| `BlockTrees.Tree.Remove` | monad-blocktree/src/tree.rs:68-91 | removes one entry and keeps the payload index exact |
| `BlockTrees.Tree.Insert` | monad-blocktree/src/tree.rs:93-132 | adds an incoherent entry with exactly the children already in the tree, and keeps both indexes exact |
| `BlockTrees.Tree.CollectChildren` | monad-blocktree/src/tree.rs:93-132 | collects every block in the tree that names the id as parent, each once |
| `BlockTrees.Tree.GetPayload` | monad-blocktree/src/tree.rs:134-140 | a body is found exactly when some block in the tree has that body id, and it is that body |
| `BlockTrees.BlockTree.constructor` | monad-blocktree/src/blocktree.rs:105-113 | a new tree is the empty forest on the root |
| `BlockTrees.BlockTree.Add` | monad-blocktree/src/blocktree.rs:208-223 | refines Add on the forest, also on a tree with blocks that are cut off: the block is in the tree afterwards exactly if it was or its round is above the root's, and nothing else changes; indexes stay exact and coherence rooted |
| `BlockTrees.BlockTree.Prune` | monad-blocktree/src/blocktree.rs:140-206 | panics exactly when the block has no path to the root; otherwise refines Prune on the forest with all indexes exact and coherence rooted, and prefix closed exactly when no coherent fork outlives the commit |
| `BlockTrees.BlockTree.RemovePath` | monad-blocktree/src/blocktree.rs:148-172 | the walk finds exactly the path to the root, removes it and returns it lowest round first; it fails at a missing or incoherent block exactly when there is no path |
| `BlockTrees.BlockTree.DeleteBelow` | monad-blocktree/src/blocktree.rs:174-192 | garbage collection keeps exactly the blocks whose parent round is not below the new root |
| `BlockTrees.BlockTree.TryUpdateCoherency` | monad-blocktree/src/blocktree.rs:225-303 | refines UpdateCoherency, also on a tree with blocks that are cut off; reports every block that turned coherent exactly once, parents first |
| `BlockTrees.BlockTree.Flip` | monad-blocktree/src/blocktree.rs:246-303 | the queue search terminates and flips exactly the descendants reachable through passing blocks |
| `BlockTrees.BlockTree.IsCoherentBlock` | monad-blocktree/src/blocktree.rs:385-397 | the root is coherent, any other block if it is in the tree and flagged |
| `BlockTrees.BlockTree.GetBlocksOnPathFromRoot` | monad-blocktree/src/blocktree.rs:398-422 | equals the path from the root, None exactly when an ancestor is missing |
| `BlockTrees.BlockTree.GetParentBlockChain` | monad-blocktree/src/blocktree.rs:493-507 | the maximal parent-linked chain of tree blocks ending at the id, empty exactly when the id is not in the tree |
| `BlockTrees.BlockTree.GetHighCommittableQc` | monad-blocktree/src/blocktree.rs:305-356 | the highest-round QC among root-connected blocks that commits a coherent non-root block; None exactly when there is none |
| `BlockTrees.BlockTree.MaybeFillPathToRoot` | monad-blocktree/src/blocktree.rs:358-383 | nothing to fill exactly when the QC is not above the root or its path is complete; else the first missing ancestor, and as many blocks as sequence numbers lie between the root and its child, at least one; the sequence number subtraction fails exactly when a passed ancestor is numbered below the root |
| `TreeSearch.FlipDone` | monad-blocktree/src/blocktree.rs:246-303 | when the queue is empty, the flipped blocks are exactly the newly coherent ones |
| `TreeSearch.CommittableRaisesRoot` | monad-consensus-state/src/lib.rs:1417-1447 | committing the QC that was found cannot panic, whatever is cut off, and strictly raises the root round |
| `ChainRuns.RunIsSound` | monad-blocktree/src/blocktree.rs:140-303 | in every state of every run of adds, updates and commits, a coherent block that extends the root has an all-coherent path to it |
| `ChainRuns.PanicsExactlyWhenLost` | monad-consensus-state/src/lib.rs:1318-1374 | a commit panics exactly when the block it commits is coherent but does not extend the root |
| `ChainRuns.CommitsExactly` | monad-consensus-types/src/quorum_certificate.rs:104-122 | a certificate commits something exactly when its block is in the tree, carries a QC of exactly the round before, and the parent is coherent and above the root; the parent is the new root then, and nothing changes otherwise |
| `ChainRuns.ClosedRunCannotPanic` | monad-consensus-state/src/lib.rs:1318-1374 | as long as no commit of a run leaves a coherent rival behind, all coherent blocks are connected and no commit can panic |
| `ChainRuns.FinalizedIsOneChain` | monad-consensus-state/src/lib.rs:1318-1374 | over every run, whatever forks its commits leave behind, all finalized blocks form one parent-linked chain from the first root, rounds rising, no block twice, none back in the tree |
| `ChainRuns.FinalizedOnlyGrows` | monad-consensus-state/src/lib.rs:1318-1374 | what is finalized in one state is a prefix of what is finalized later |
| `ChainRuns.RootsExtend` | monad-consensus-state/src/lib.rs:1318-1374 | every root of a run extends all roots before it |
| `ChainRuns.LostForGood` | monad-blocktree/src/blocktree.rs:140-303 | a block that does not extend the root is never connected again, whatever is added, and never becomes the root |
| `ChainRuns.FinalizedSeqNumbers` | monad-consensus-types/src/block.rs:245-280 | under policies that check it, finalized sequence numbers rise by exactly one over every run |
| `ChainStates.ChainState.TryCommit` | monad-consensus-state/src/lib.rs:1318-1374 | is the Commit event of a run for every QC, hands out the blocks it finalizes and keeps the invariant; hands out any exactly under the commit rule of consecutive rounds; panics exactly when that event does |
| `ChainStates.ChainState.TryUpdateCoherency` | monad-consensus-state/src/lib.rs:1417-1447 | an Update event that reports each block it turned coherent once, then a Commit event of the highest committable QC exactly when there is one, which raises the root; never panics |
| `ChainStates.ChainState.CommitHighest` | monad-consensus-state/src/lib.rs:1417-1447 | nothing is committed exactly when nothing is committable; otherwise the QC of the highest round is, without a panic, and the root rises |
| `ChainStates.UnderflowExample` | monad-blocktree/src/blocktree.rs:358-383 | a tree and a QC on which the subtraction of sequence numbers panics |
| `ForkCommits.RunToFork` | monad-blocktree/src/blocktree.rs:208-303 | for every fork that the policy accepts, a run of adds and updates makes all of it coherent |
| `ForkCommits.CommitOrphans` | monad-blocktree/src/blocktree.rs:127-206 | committing one side of a fork leaves a coherent block of the other without a parent, and cut off for good, whenever the QC in that block is of the committed block's round or later |
| `ForkCommits.CommitCanOrphan` | monad-consensus-state/src/lib.rs:1318-1374 | a run under the passthru policy, from a committed block that is certified once more later, whose next commit, allowed by the commit rule, leaves a coherent block without a parent |
| `ForkCommits.CommitOfLostPanics` | monad-consensus-state/src/lib.rs:1318-1374 | once a coherent block is cut off, every certificate that commits it makes the node panic |
| `ForkCommits.CommitCanPanic` | monad-consensus-state/src/lib.rs:1318-1374 | such a run, in which a later commit allowed by the commit rule panics |
| `Agreement.CertifiedExtends` | monad-consensus-types/src/quorum_certificate.rs:104-122 | if every round certifies one block and no certified block goes behind a block certified on the QC of the round before, then everything certified from the committed block's round on extends it |
| `Agreement.CommittedAreComparable` | monad-consensus-types/src/quorum_certificate.rs:104-122 | of any two blocks that the commit rule commits one extends the other |
| `Agreement.SafeFromVotes` | monad-validator/src/validator_set.rs:206-214 | both conditions follow if correct validators vote once per round and never behind such a block, and the others hold at most a third of the stake |
| `Agreement.RunIsJustified` | monad-consensus-state/src/lib.rs:1318-1374 | in every run of a node that knows only certified votes, the root is the first one or committed by a certified vote of the round after its certificate |
| `Agreement.FinalizedAgree` | monad-consensus-state/src/lib.rs:1318-1374 | the chains that two nodes finalize, in any two runs from the same root and under any policies, are prefixes of one another |
| `Agreement.ConsecutiveIsNeeded` | monad-consensus-types/src/quorum_certificate.rs:104-122 | votes that keep to all conditions, in which two blocks, neither extending the other, each have a certified child; so committing without consecutive rounds would not be safe |
| `Timestamps.PathTimesRise` | monad-consensus-types/src/block.rs:245-280 | in every run under policies that check timestamps they rise along every path of coherent blocks |
| `Timestamps.FinalizedTimesRiseIff` | monad-consensus-types/src/block.rs:252-268 | and along everything finalized, from the first root on, if and only if no commit hands out a path whose first block is no later than the root it extends |
| `Timestamps.TimestampsCanFall` | monad-consensus-types/src/block.rs:252-268 | a run under the passthru policy that commits a block with an earlier timestamp than the block before it |
| `SignatureSums.SumUnion` | monad-bls/src/aggregation_tree.rs:129-150 | signature sums of disjoint sets add up |
| `SignatureSums.CollectVerifies` | monad-bls/src/aggregation_tree.rs:281-312 | the collection of a set of signatures verifies exactly when their sum is the expected one and the validators are within the limit |
| `AggregationTree.SiblingsDisjoint` | monad-bls/src/aggregation_tree.rs:143-147 | the two children of a heap node cover disjoint sets of signers |
| `AggregationTree.MergeIsUnion` | monad-bls/src/aggregation_tree.rs:129-150 | merging collections of disjoint sets collects their union, and the bit counts add up as asserted |
| `AggregationTree.RootCoversAll` | monad-bls/src/aggregation_tree.rs:56-79 | the root covers every sender |
| `AggregationTree.NewTree` | monad-bls/src/aggregation_tree.rs:42-82 | every node of the heap collects exactly the signatures of the leaves below it |
| `AggregationTree.RootIgnoresOrder` | monad-bls/src/aggregation_tree.rs:71-81 | the root does not depend on the order of the leaves |
| `AggregationTree.VerifyCollection` | monad-bls/src/aggregation_tree.rs:281-312 | succeeds exactly when the collection verifies, and returns its signers in validator order |
| `AggregationTree.InOrderLists` | monad-bls/src/aggregation_tree.rs:281-312 | that list has each signer exactly once |
| `AggregationTree.ReportedIsInvalid` | monad-bls/src/aggregation_tree.rs:94-119 | everyone reported below a node sent a signature that fails on its own |
| `AggregationTree.ReportIsEmptyIff` | monad-bls/src/aggregation_tree.rs:94-126 | nobody is reported below a node exactly when the node's aggregate passes |
| `AggregationTree.RestAgrees` | monad-bls/src/aggregation_tree.rs:94-126 | the senders below a node that are not reported have an aggregate that passes |
| `AggregationTree.SearchTree` | monad-bls/src/aggregation_tree.rs:84-126 | the bisection terminates; it returns the root collection exactly when that passes, else exactly the bad senders, each once, with the signature they sent; the tree of no signatures fails its expect exactly when there are more than 16384 validators |
| `SignatureCollections.SearchGivesGoodReport` | monad-bls/src/aggregation_tree.rs:84-126 | a report is non-empty, names only invalid senders, and what is left passes |
| `SignatureCollections.CreateCollection` | monad-bls/src/aggregation_tree.rs:242-279 | conflicting and unknown senders are errors; otherwise the collection of all signatures exactly when they pass, else a good report; a panic exactly on no signatures with more than 16384 validators |
| `SignerMaps.Encode` | monad-bls/src/aggregation_tree.rs:185-205 | the bytes hold exactly the bits, counted from the end, and zeros |
| `SignerMaps.DecodeLoop` | monad-bls/src/aggregation_tree.rs:207-236 | refines Decode, including both errors |
| `SignerMaps.DecodeOfEncode` | monad-bls/src/aggregation_tree.rs:185-236 | decoding inverts encoding for every bitmap of up to 16384 bits; longer ones are rejected |
| `SignerMaps.EncodeOfDecode` | monad-bls/src/aggregation_tree.rs:185-236 | encoding inverts decoding exactly when the padding bits are zero |
| `Validators.CalculateCurrentStake` | monad-validator/src/validator_set.rs:230-243 | the stake of the set of addresses, and an error exactly when an address repeats |
| `Validators.ThresholdsAreExact` | monad-validator/src/validator_set.rs:206-228 | a supermajority is more than two thirds, an honest vote more than one third of the stake |
| `Validators.QuorumsIntersect` | monad-validator/src/validator_set.rs:206-214 | two supermajorities share more than a third of the stake |
| `VoteStates.ReportLeavesAgreement` | monad-consensus/src/vote_state.rs:157-194 | dropping what is reported leaves signatures that pass, drops no valid one, and drops something |
| `VoteStates.RetryLoop` | monad-consensus/src/vote_state.rs:131-177 | terminates with at most two calls of the aggregator; drops no valid signature; a valid QC forms exactly when the rest is a supermajority |
| `VoteStates.VoteState.constructor` | monad-consensus/src/vote_state.rs:75-80 | no votes, and nothing accepted before the round |
| `VoteStates.VoteState.ProcessVote` | monad-consensus/src/vote_state.rs:83-180 | a vote below the earliest round changes nothing; any other is recorded, also as evidence against its author; other votes and other evidence are untouched, and the retry loop decides |
| `VoteStates.VoteState.StartNewRound` | monad-consensus/src/vote_state.rs:196-199 | sets the earliest round and forgets exactly the older rounds |
| `VoteStates.NewRound` | monad-consensus/src/vote_state.rs:196-199 | what is pending for a vote afterwards; the earliest round is the new one and the evidence of who voted stays |
| `VoteStates.NewRoundCloses` | monad-consensus/src/vote_state.rs:83-199 | afterwards votes of earlier rounds change nothing, and valid ones of the round or later are recorded |
| `VoteRuns.ValidVotesAreKept` | monad-consensus/src/vote_state.rs:83-194 | in every run, across epochs, authors who only send valid signatures for a vote stay counted until a QC of its round or later |
| `VoteRuns.QcFormsInTime` | monad-consensus/src/vote_state.rs:131-194 | in every run, across epochs and under any interleaving with invalid votes, a QC has formed once such authors hold a supermajority of the validators of that round |
| `VoteRuns.SignersHaveVoted` | monad-consensus/src/vote_state.rs:110-156 | every QC of a run is a valid quorum of its own round, and whoever signs it has sent a vote for it |
| `VoteRuns.QcsShareVoters` | monad-consensus/src/vote_state.rs:110-156 | QCs that two nodes build for different blocks of one round share voters with more than a third of the stake, all of whom voted twice |
| `VoteRuns.OneCertifiedBlockPerRound` | monad-consensus/src/vote_state.rs:110-156 | if in every round double voters hold at most a third, all QCs of a round and epoch certify one block, whichever nodes formed them |
| `Timeouts.PartialCmp` | monad-consensus-types/src/timeout.rs:112-157 | the match of cases is the order of ranks: rounds first, a QC above a tip of the same round, no answer at equal ranks |
| `Timeouts.HighestIsUnique` | monad-consensus-types/src/timeout.rs:369-378 | the rank of the highest extend does not depend on the order of the timeouts |
| `Timeouts.GroupTimeouts` | monad-consensus-types/src/timeout.rs:369-379 | the first loop groups the signatures by what they sign, and keeps an extend that none exceeds |
| `Timeouts.NewTimeoutCertificate` | monad-consensus-types/src/timeout.rs:360-402 | one tip round for each distinct info with the signatures over it, and the highest extend; or the invalid signatures of some group |
| `CertificateChecks.SignsExactlyOne` | monad-consensus-types/src/timeout.rs:360-402 | every sender signs exactly one tip round of the certificate, the one of its own info |
| `CertificateChecks.BuiltExtendMatches` | monad-consensus-types/src/timeout.rs:369-400 | for well-shaped timeouts the high extend has exactly the highest rank that the tip rounds speak of |
| `CertificateChecks.BuiltTcVerifies` | monad-consensus/src/validation/signing.rs:812-916 | a TC built from a supermajority passes the receiver's check if and only if no timeout claims a QC of the timed-out round or later and the extend it picks is accepted, which holds if every extend is |
| `Pacemakers.ReportedTimeouts` | monad-consensus/src/pacemaker.rs:381-395 | every reported sender is pending with that signature, once, and sent no valid one |
| `Pacemakers.HandleInvalidTimeout` | monad-consensus/src/pacemaker.rs:381-395 | the removal neither fails its expect nor its assert; drops only invalid timeouts, and at least one |
| `Pacemakers.TcLoop` | monad-consensus/src/pacemaker.rs:336-374 | the retry loop terminates; a TC forms exactly when what is kept is a supermajority, and is built from all of it |
| `Pacemakers.PacemakerTcVerifies` | monad-consensus/src/validation/signing.rs:812-916 | such a TC passes every receiver's check exactly when no sender of a tip claims a QC of that round or later and its extend is accepted; always if extends are accepted and senders claim the QC they carry |
| `RejectedCertificates.TcCanFail` | monad-consensus/src/validation/signing.rs:812-916 | for every round, a committee and a validly signed timeout that passes its checks and carries a valid QC of the round before, with a tip whose own certificate is valid; yet the TC built from it is rejected |
| `Pacemakers.Safety.constructor` | monad-consensus/src/validation/safety.rs:91-112 | the current round is never voted in; the tip is consistent exactly when it is above the certificate's QC |
| `Pacemakers.Safety.ProcessCertificate` | monad-consensus/src/validation/safety.rs:118-129 | the QC round only rises, and a tip it overtakes is dropped |
| `Pacemakers.Safety.Vote` | monad-consensus/src/validation/safety.rs:131-161 | closes the round and all before it for votes and refusals; keeps the tip only if it is above every certificate's QC |
| `Pacemakers.Safety.NoEndorse` | monad-consensus/src/validation/safety.rs:131-170 | after refusing a tip, a vote in that round is safe exactly on top of the TC with that tip, and no other refusal is |
| `Pacemakers.Safety.Timeout` | monad-consensus/src/validation/safety.rs:172-175 | no vote and no refusal in this round afterwards |
| `Pacemakers.Pacemaker.constructor` | monad-consensus/src/pacemaker.rs:130-151 | starts in the round after the certificate, with nothing pending |
| `Pacemakers.Pacemaker.ProcessCertificate` | monad-consensus/src/pacemaker.rs:183-223 | a newer certificate enters its next round, with that round's epoch and nothing pending, raises the QC round and drops the tip exactly when its QC overtakes the tip; an older one changes nothing |
| `Pacemakers.Pacemaker.LocalTimeoutRound` | monad-consensus/src/pacemaker.rs:229-271 | the timeout to broadcast passes every receiver's checks: it carries a certificate of the previous round, extends the remembered tip, or without one the QC of the newest certificate, and claims exactly the QC it carries; the tip, the QC round and the certificate stay as they were and the round is closed for votes |
| `Pacemakers.Pacemaker.ProcessLocalTimeout` | monad-consensus/src/pacemaker.rs:275-281 | the same, and the phase is One |
| `Pacemakers.Pacemaker.RecordTimeout` | monad-consensus/src/pacemaker.rs:315-334 | this node sends its own timeout of the round exactly when it has not yet and the pending timeouts now hold more than a third of the stake; the remembered tip stays |
| `Pacemakers.Pacemaker.CollectTimeouts` | monad-consensus/src/pacemaker.rs:336-374 | a TC forms, and the next round is entered, exactly when the timeouts kept are a supermajority |
| `Pacemakers.Pacemaker.ProcessRemoteTimeout` | monad-consensus/src/pacemaker.rs:288-377 | afterwards a TC of the round formed from a supermajority of pending timeouts, or what is left is none; no validly signed timeout is dropped; all asserts hold; exactly the commands of these two steps are issued; the tip is dropped only by the QC of the TC |
| `TimeoutRuns.ValidTimeoutsAreKept` | monad-consensus/src/pacemaker.rs:288-395 | in every run, across epochs and under any interleaving with invalid timeouts, the timeouts of senders who only send valid ones stay pending while the node is in the round |
| `TimeoutRuns.CertificateFormsInTime` | monad-consensus/src/pacemaker.rs:288-395 | once such senders hold a supermajority the pacemaker has left the round, by a certificate of it or of a later one |
| `TimeoutRuns.OwnTimeoutOnce` | monad-consensus/src/pacemaker.rs:315-334 | in every run, having sent its own timeout of a round, the pacemaker sends no other because of the timeouts of others |
| `TipRuns.OneVotePerRound` | monad-consensus/src/validation/safety.rs:131-175 | over every run of certificates, votes and timeouts the node votes in rising rounds, and never in a round it has sent a timeout in |
| `TipRuns.TipIsKept` | monad-consensus/src/validation/safety.rs:118-161 | from a vote for a tip on, the tip is remembered until the node votes again or a certificate overtakes it |
| `TipRuns.TipIsForgotten` | monad-consensus/src/validation/safety.rs:118-161 | the certificate that overtakes it drops it, and a tip that is overtaken already is not remembered |
| `TipRuns.TimeoutsExtendTip` | monad-consensus/src/pacemaker.rs:229-271 | over every run, every timeout sent between such a vote and that moment extends the tip, claims its rounds and carries a vote for it |
| `TipRuns.TimeoutsExtendQc` | monad-consensus/src/pacemaker.rs:229-271 | without a tip to remember it extends the QC of the newest certificate |
| `NodeRuns.RoundsRise` | monad-consensus-state/src/lib.rs:393-882 | in every run of the node the round never falls |
| `NodeRuns.VotesTenAheadCount` | monad-consensus-state/src/lib.rs:722-792 | a valid vote of the current round or of the ten after it is counted or completes a quorum; any other round changes nothing |
| `NodeRuns.TimeoutsAreKept` | monad-consensus-state/src/lib.rs:393-882 | in every run of the node, votes, certificates and expired timers included, timeouts of senders who only send valid ones stay pending while the node is in the round |
| `NodeRuns.TimeoutsEndRound` | monad-consensus-state/src/lib.rs:393-882 | in every run of the node, once such senders hold a supermajority the node has left the round |
| `NodeRuns.VotesAreKept` | monad-consensus-state/src/lib.rs:393-882 | in every run of the node, authors of only valid signatures for a vote stay counted until its round is over |
| `NodeRuns.VotesEndRound` | monad-consensus-state/src/lib.rs:393-882 | in every run of the node, once such authors hold a supermajority and have voted, none more than ten rounds early, the node has left the round |
| `NodeRuns.TipVoteIsCounted` | monad-consensus-state/src/lib.rs:825-859 | a valid vote that comes with a timeout is counted, unless it is too early or its round is over by then |
| `ConsensusStates.CreatedSnoc` | monad-consensus-state/src/lib.rs:722-792 | a QC of the current round or later extends the strictly increasing list of QCs this node created |
| `ConsensusStates.CommandsAnnounce` | monad-consensus-state/src/lib.rs:763-790 | a round is announced and its timer set exactly for a certificate of the current round or later, and exactly the leader of its round broadcasts a QC that formed |
| `ConsensusStates.ConsensusState.constructor` | monad-consensus-state/src/lib.rs:268-295 | the invariant holds at the start, with nothing pending |
| `ConsensusStates.ConsensusState.ProcessQc` | monad-consensus-state/src/lib.rs:1180-1250 | is the certificate step of a run: a QC of the current round or later enters the next round, with nothing pending and the phase reset, tells so, and closes earlier rounds for votes; an older one changes nothing |
| `ConsensusStates.ConsensusState.ProcessTc` | monad-consensus-state/src/lib.rs:1254-1286 | is the certificate step of a run: the same for a TC, but the votes are left alone |
| `ConsensusStates.ConsensusState.HandleVoteMessage` | monad-consensus-state/src/lib.rs:722-792 | is the vote step of a run: votes of the current and the next ten rounds are counted, and a QC that forms is recorded, processed and, by the leader of its round, broadcast; at most one QC is created per round |
| `ConsensusStates.ConsensusState.RecordQc` | monad-consensus-state/src/lib.rs:763-790 | a QC formed here is the latest of this node's strictly increasing list, the round after it is entered, and the leader of its round tells the others |
| `ConsensusStates.ConsensusState.ProcessRoundCertificate` | monad-consensus-state/src/lib.rs:1033-1045 | is the certificate step of a run; only a QC closes rounds for votes |
| `ConsensusStates.ConsensusState.CountTipVote` | monad-consensus-state/src/lib.rs:828-843 | is the vote step of a run for the vote that comes with a tip, and nothing without one |
| `ConsensusStates.ConsensusState.ProcessCarried` | monad-consensus-state/src/lib.rs:825-859 | the QC, the vote and the certificate that a timeout carries are processed in this order, with exactly their commands, and bring this node to its round at least |
| `ConsensusStates.ConsensusState.CollectTimeout` | monad-consensus-state/src/lib.rs:858-878 | the timeout is one step of the pacemaker's collection, answered with exactly the commands of that step |
| `ConsensusStates.ConsensusState.HandleTimeoutMessage` | monad-consensus-state/src/lib.rs:797-882 | is the timeout step of a run: the round ends at or above the timeout's, so the pacemaker's equality assert cannot fail; the commands are those of what it carries, then this node's own timeout and the next round exactly when due |
| `ConsensusStates.ConsensusState.HandleTimeoutExpiry` | monad-consensus-state/src/lib.rs:393-443 | is the expiry step of a run: a timer of the current round sets the phase and sends a timeout every receiver accepts, which extends the remembered tip, and keeps the tip; an older one does nothing |
| `ConsensusStates.ConsensusState.CastVote` | monad-consensus/src/validation/safety.rs:131-161 | a vote exactly when the safety rule allows it, which is once per round at most, never after the own timeout, and after a refusal only on top of the refused tip; the tip is remembered exactly if it is above every certificate's QC |
| `ConsensusStates.DeliverTimeout` | monad-consensus-state/src/lib.rs:797-882 | a timeout sent by one node in any reachable state brings any other node to its round at least |
| `BlockSyncStates.FillAllTwice` | monad-blocksync/src/blocksync.rs:532-546 | filling in bodies one after the other is filling them in together |
| `BlockSyncStates.CacheLoopStep` | monad-blocksync/src/blocksync.rs:519-549 | taking one payload from a cache does not change which others are cached |
| `BlockSyncStates.EmitIsGood` | monad-blocksync/src/blocksync.rs:838-856 | an emitted range has exactly its blocks, linked, ending at the last id, with matching bodies |
| `BlockSyncStates.InitiateKeeps` | monad-blocksync/src/blocksync.rs:516-578 | afterwards missing payloads are tracked, no filled range is left, started requests plus leaks are the counter, which is at most ten, and a request waits only at ten |
| `BlockSyncStates.HeadersArrivedKeeps` | monad-blocksync/src/blocksync.rs:604-645 | new headers keep the invariant; payloads already requested are not requested again |
| `BlockSyncStates.PayloadArrivedKeeps` | monad-blocksync/src/blocksync.rs:739-779 | an answered request keeps the invariant, and the decrement cannot underflow |
| `BlockSyncStates.AskedForKeeps` | monad-blocksync/src/blocksync.rs:269-306 | a new request keeps the invariant, also when it changes the mode |
| `BlockSyncStates.CancelKeeps` | monad-blocksync/src/blocksync.rs:308-330 | cancelling keeps the invariant |
| `BlockSyncStates.CancelIsExact` | monad-blocksync/src/blocksync.rs:308-330 | cancelling by the requester removes the range from both maps and leaves other ranges, payload requests and the counter; by another requester it changes nothing |
| `BlockSyncs.VerifyBlockHeaders` | monad-blocksync/src/blocksync.rs:468-493 | accepts exactly the headers of the range: as many as asked, linked, ending at the last block; panics exactly on the empty range with no headers |
| `BlockSyncs.SplicedChain` | monad-blocksync/src/blocksync.rs:881-905 | ledger headers followed by cached ones are exactly what the peer asked for |
| `BlockSyncs.RepliesAreGood` | monad-blocksync/src/blocksync.rs:871-917 | every reply carries a range that peer requested, and found headers pass its check |
| `BlockSyncs.LastHeadersLink` | monad-blocksync/src/blocksync.rs:353-377 | the newest cached headers are linked and end at the last block |
| `BlockSyncs.CachedHeaders` | monad-blocksync/src/blocksync.rs:353-363 | the cached end of a range, linked, all of it known, as far back as the range or the tree goes |
| `BlockSyncs.CachedEndIsUnique` | monad-blocksync/src/blocksync.rs:353-363 | which is determined by the range and the blocks known |
| `BlockSyncs.SplitRange` | monad-blocksync/src/blocksync.rs:378-397 | the ledger is asked for exactly the part that is not cached |
| `BlockSyncs.FindInCaches` | monad-blocksync/src/blocksync.rs:506-512 | finds a body exactly when an unfinished range has it |
| `BlockSyncs.FillRange` | monad-blocksync/src/blocksync.rs:532-546 | every block of the range that lacks this body gets it, and the range's cache learns it then |
| `BlockSyncs.MakeEmit` | monad-blocksync/src/blocksync.rs:841-850 | the expect on a mismatching body cannot fail |
| `BlockSyncs.EmitFinished` | monad-blocksync/src/blocksync.rs:819-860 | every finished range is emitted once and removed, no other is |
| `BlockSyncs.MakeReplies` | monad-blocksync/src/blocksync.rs:871-917 | every waiting peer gets one reply, and the linking assert holds |
| `BlockSyncs.BlockSync.constructor` | monad-blocksync/src/blocksync.rs:191-203 | the invariant holds at the start |
| `BlockSyncs.BlockSync.HandleSelfRequest` | monad-blocksync/src/blocksync.rs:269-306 | an empty range is ignored; another requester clears all requests; a range is fetched unless already requested or known |
| `BlockSyncs.BlockSync.HandleSelfCancelRequest` | monad-blocksync/src/blocksync.rs:308-330 | the range is in neither map afterwards if its own requester cancels; another requester's cancel changes nothing; other ranges, payload requests and the counter stay |
| `BlockSyncs.BlockSync.HandlePeerHeadersRequest` | monad-blocksync/src/blocksync.rs:341-398 | is the request step of a server run: answers from the cache exactly when it holds the whole range, and the answer passes the peer's check; otherwise exactly the rest is asked of the ledger |
| `BlockSyncs.BlockSync.HandlePeerPayloadRequest` | monad-blocksync/src/blocksync.rs:399-420 | is the request step of a server run for bodies: answers with the body exactly when it is cached, otherwise the peer waits and the ledger is asked |
| `BlockSyncs.BlockSync.GetCachedPayload` | monad-blocksync/src/blocksync.rs:495-513 | found exactly when the block cache or an unfinished range has it, and then it is the right body |
| `BlockSyncs.BlockSync.FillFromCaches` | monad-blocksync/src/blocksync.rs:519-549 | exactly the tracked payloads that some cache has are filled in and untracked; the started ones leak their place |
| `BlockSyncs.BlockSync.StartRequests` | monad-blocksync/src/blocksync.rs:551-573 | starts waiting requests until ten are counted or none waits, fetching each once |
| `BlockSyncs.BlockSync.TryInitiatePayloadRequests` | monad-blocksync/src/blocksync.rs:516-578 | both of these, then emits what is finished; the invariant holds afterwards |
| `BlockSyncs.BlockSync.AcceptHeaders` | monad-blocksync/src/blocksync.rs:588-701 | what a headers response does to a pending request, as in a run (`BlockSyncRequests`): a ledger without them makes one peer be asked; neither the mode assert nor the ledger assert fails |
| `BlockSyncs.BlockSync.HandleHeadersResponse` | monad-blocksync/src/blocksync.rs:581-708 | an unexpected response changes nothing; every emit is good; the invariant holds |
| `BlockSyncs.BlockSync.AcceptPayload` | monad-blocksync/src/blocksync.rs:735-806 | what a payload response does to a started request, as in a run (`BlockSyncRequests`); the mode assert and the decrement cannot fail |
| `BlockSyncs.BlockSync.HandlePayloadResponse` | monad-blocksync/src/blocksync.rs:713-815 | a response nobody started asking for changes nothing; every emit is good; the invariant holds |
| `BlockSyncs.BlockSync.HandleLedgerHeaders` | monad-blocksync/src/blocksync.rs:871-920 | is the ledger step of a server run: every waiting peer gets one good reply, then the node itself is served |
| `BlockSyncServers.WaitsForLast` | monad-blocksync/src/blocksync.rs:341-398 | in every run, until the ledger responds, a peer waits for the last of its requests that lack the same |
| `BlockSyncServers.AnsweredIff` | monad-blocksync/src/blocksync.rs:341-920 | in every run, the next response of the ledger for what a request lacks answers it if and only if the peer has not since asked for another range that lacks the same |
| `BlockSyncServers.CachedIsAnswered` | monad-blocksync/src/blocksync.rs:341-377 | a peer that asks for headers that are all in the cache gets exactly these, at once |
| `BlockSyncServers.WaitingIsFetched` | monad-blocksync/src/blocksync.rs:341-398 | in every run, the ledger has been asked for what a peer waits for, and has not responded since |
| `BlockSyncServers.BodyIsGivenOrFetched` | monad-blocksync/src/blocksync.rs:399-420 | a peer that asks for a body gets it at once if it is cached, and otherwise the ledger is asked |
| `BlockSyncServers.BodyAnsweredIff` | monad-blocksync/src/blocksync.rs:399-949 | in every run, a peer gets the ledger's response for a body once if it has asked for it since the response before, and not otherwise |
| `BlockSyncServers.FirstIsForgotten` | monad-blocksync/src/blocksync.rs:388-393 | for any two ranges that end at different cached blocks above the same missing ones, the first request of a peer is dropped |
| `BlockSyncServers.ForgottenExample` | monad-blocksync/src/blocksync.rs:388-393 | two cached blocks, two requests and a response that leaves the first unanswered |
| `BlockSyncs.BlockSync.HandleLedgerPayload` | monad-blocksync/src/blocksync.rs:921-949 | is the ledger step of a server run for bodies: every waiting peer gets the response once, then the node itself is served |
| `BlockSyncs.BlockSync.HandlePeerResponse` | monad-blocksync/src/blocksync.rs:955-968 | headers and bodies from a peer, valid or not, keep the invariant, and every emit is good |
| `BlockSyncs.BlockSync.HandleTimeout` | monad-blocksync/src/blocksync.rs:971-1034 | is the retry step of a run: a request that went to a peer goes to another; nothing else changes |
| `BlockSyncLeaks.LeaksExactlyOnStartedHits` | monad-blocksync/src/blocksync.rs:525-528 | the counter falls behind exactly when a started request is answered from a cache |
| `BlockSyncRuns.StepKeeps` | monad-blocksync/src/blocksync.rs:269-1034 | every request, cancellation, response and timeout keeps the invariant, and all it emits is good |
| `BlockSyncRuns.RunKeepsInv` | monad-blocksync/src/blocksync.rs:269-1034 | so in every state of every run the invariant holds, and every range ever emitted was complete, linked and tagged with its requester |
| `BlockSyncRequests.EveryRequestWaits` | monad-blocksync/src/blocksync.rs:269-1034 | in every state of every run, each range whose headers are wanted and each started payload is asked of the ledger, which has not answered since, or was last sent to the peer it names, with a timeout scheduled that has not fired since |
| `BlockSyncRequests.PeersAreAskedWhenDue` | monad-blocksync/src/blocksync.rs:666-1034 | one peer is asked, with one timeout, exactly when the ledger does not have what was wanted of it or the last peer did not answer in time, and a timeout is reset exactly when a peer answers; at no other event is any peer asked or any timeout touched |
| `BlockSyncRequests.WantedExactly` | monad-blocksync/src/blocksync.rs:269-1034 | a range is wanted after an event exactly when it is asked for now, or was wanted and is neither cancelled, nor emitted, nor cleared for another requester; only what was wanted is emitted |
| `BlockSyncRequests.WantedIsKept` | monad-blocksync/src/blocksync.rs:269-1034 | so over every run a range that was asked for is kept until one of these happens |
| `BlockSyncRequests.CancelledIsNotEmitted` | monad-blocksync/src/blocksync.rs:308-330 | and over every run a range that was cancelled, or emitted, is not emitted before it is asked for again |
| `BlockSyncRequests.CachesKnowExactly` | monad-blocksync/src/blocksync.rs:495-549 | in every state of every run a body is found in the caches of the ranges exactly if a block of an unfinished range has it |
| `BlockSyncRuns.StalledForGood` | monad-blocksync/src/blocksync.rs:551-573 | in every run from a state with ten leaks in which the requester stays the same, nothing is in flight, no payload is fetched, and a waiting payload that no cache gets waits for ever |
| `BlockSyncLeaks.StallExample` | monad-blocksync/src/blocksync.rs:516-578 | a run of the handlers to a state with ten leaks and a payload waiting |
| `RlpScanner.DecodeUint` | monad-archive/src/rlp_offset_scanner.rs:70-89 | the big-endian value; an error exactly when empty, with a leading zero, or too large |
| `RlpScanner.DecodeItem` | monad-archive/src/rlp_offset_scanner.rs:29-67 | at any encoded item, the lengths of its contents and of its encoding |
| `RlpScanner.ScanLoop` | monad-archive/src/rlp_offset_scanner.rs:112-117 | the loop refines Scan, with its errors and panics |
| `RlpScanner.ScanEncodings` | monad-archive/src/rlp_offset_scanner.rs:133-143 | encodings laid one after the other are scanned as their tiles |
| `RlpScanner.TilesSliceBack` | monad-archive/src/rlp_offset_scanner.rs:133-143 | each range slices back to its item's encoding |
| `RlpScanner.TilesCover` | monad-archive/src/rlp_offset_scanner.rs:133-143 | the ranges follow one another from the first byte to the last |
| `RlpScanner.ListRangesTile` | monad-archive/src/rlp_offset_scanner.rs:123-146 | for every encoded list the ranges tile its contents |
| `RlpScanner.BlockRangesTile` | monad-archive/src/rlp_offset_scanner.rs:93-120 | for every encoded block the ranges are those of its transactions |
| `RlpScanner.BlockOffsets` | monad-archive/src/rlp_offset_scanner.rs:149-209 | for every encoded block with receipts and traces, the offsets of each, exactly when there are as many of each |
| `RlpScanner.OffsetsAgree` | monad-archive/src/rlp_offset_scanner.rs:93-209 | on any bytes at all, when get_all_tx_offsets succeeds, get_transaction_ranges succeeds with the same transaction ranges |
| `RlpScanner.ScanIsContiguous` | monad-archive/src/rlp_offset_scanner.rs:112-143 | on any bytes, returned ranges are non-empty, without gaps, and reach the end |
| `RlpBounds.ScanOutOfBounds` | monad-archive/src/rlp_offset_scanner.rs:112-143 | on any bytes, a scan indexes past the data if and only if it gets to an item boundary past the data and before its end; so never if its end lies inside |
| `RlpBounds.ScanInside` | monad-archive/src/rlp_offset_scanner.rs:112-143 | returned ranges lie inside the data exactly when the scan gets to a boundary inside it at or after the end; so never if the end lies past the data |
| `RlpBounds.ListRangesOutOfBounds` | monad-archive/src/rlp_offset_scanner.rs:123-146 | get_rlp_list_ranges indexes past its data exactly when the list does so, and never when the data holds all it announces |
| `RlpBounds.ListRangesInside` | monad-archive/src/rlp_offset_scanner.rs:123-146 | when its ranges lie inside the data |
| `RlpBounds.TransactionRangesOutOfBounds` | monad-archive/src/rlp_offset_scanner.rs:93-120 | get_transaction_ranges does exactly when the header announces more than there is, or the list of transactions strays |
| `RlpBounds.TransactionRangesInside` | monad-archive/src/rlp_offset_scanner.rs:93-120 | when its ranges lie inside the block |
| `RlpBounds.AllTxOffsetsOutOfBounds` | monad-archive/src/rlp_offset_scanner.rs:149-209 | get_all_tx_offsets does exactly when the header or the list of transactions announces more than the block holds or, the transactions being fine, the receipts or then the traces stray |
| `RlpBounds.AllTxOffsetsInside` | monad-archive/src/rlp_offset_scanner.rs:149-209 | when its offsets lie inside the block, the receipts and the traces |
| `RlpBounds.TruncatedLists` | monad-archive/src/rlp_offset_scanner.rs:29-146 | three lists that announce eight bytes and hold one: an index past the end, an error, and a range far past the data |
| `RlpOverflow.ScanOverflows` | monad-archive/src/rlp_offset_scanner.rs:112-143 | on any bytes, a scan overflows if and only if it gets to an item before its end that announces an end of 2^64 or more |
| `RlpOverflow.ListRangesOverflow` | monad-archive/src/rlp_offset_scanner.rs:123-146 | get_rlp_list_ranges overflows exactly when the list or an item the scan gets to does so |
| `RlpOverflow.TransactionRangesOverflow` | monad-archive/src/rlp_offset_scanner.rs:93-120 | get_transaction_ranges does exactly when the block, its header, its list of transactions or an item in it does so |
| `RlpOverflow.AllTxOffsetsOverflow` | monad-archive/src/rlp_offset_scanner.rs:149-209 | get_all_tx_offsets does exactly when one of the parts it scans, in order, does so after the ones before were fine, or the last shifted range does |
| `RlpOverflow.WrappedNextAgrees` | monad-archive/src/rlp_offset_scanner.rs:112-143 | without an overflow, a build that wraps around moves like one with checks |
| `RlpOverflow.NoProgressIff` | monad-archive/src/rlp_offset_scanner.rs:112-143 | in a build that wraps around, a turn of the loop makes no progress exactly when the item announces a total length of 2^64 |
| `RlpOverflow.WrappedScanRunsForEver` | monad-archive/src/rlp_offset_scanner.rs:112-143 | a scan that gets to such an item before its end never ends there |
| `RlpOverflow.ListOfHugeItem` | monad-archive/src/rlp_offset_scanner.rs:112-146 | ten bytes on which it panics with overflow checks and does not return without them |
| `RlpScanner.GetTransactionRanges` | monad-archive/src/rlp_offset_scanner.rs:93-120 | refines TransactionRanges |
| `RlpScanner.GetRlpListRanges` | monad-archive/src/rlp_offset_scanner.rs:123-146 | refines ListRanges |
| `RlpScanner.GetAllTxOffsets` | monad-archive/src/rlp_offset_scanner.rs:149-209 | refines AllTxOffsets |

## Left out

- Proposing, vote timers, round recovery, leader election and the epoch manager: epochs, leaders and validators are parameters, and `CastVote` stands for the effect of voting on the safety state. Building no-endorsement certificates is left out; `no_endorsement_state` is a near twin of `vote_state`.
- Message signing and most of message validation: handlers require what validation establishes. Of `verify_tc` the model leaves out the certificate cache.
- Tips are modelled by their block header; the certificate a tip may carry for a fresh proposal is not part of it.
- The timestamps of round changes, metrics, tracing, command payloads of the vote state, and durations of timers.
- Statesync: `maybe_statesync` is not modelled.
- Elliptic-curve arithmetic: public keys and pairings are replaced by the sum of expected signatures. Points that the curve library rejects are not modelled.
- The RLP lists around a signer map, and all derived RLP encodings.
- Choosing a peer in block sync, with its assertion that another peer exists: the choice is a parameter. The ledger is assumed to return the headers it is asked for.
- Integer widths: rounds, stakes and sequence numbers are unbounded, except where a checked or asserted operation depends on the width. In `RlpScanner` a `usize` sum that overflows is an outcome of its own, a panic as with overflow checks on; `RlpOverflow` says what a build without them does up to and at the first item of 2^64 bytes, and leaves out where it goes after other overflows.
- Agreement.FinalizedAgree: takes as a condition that no certified block goes behind one certified on the QC of the round before. `Agreement.SafeFromVotes` gets it from what correct validators vote for; that validating proposals with their timeout certificates makes validators vote so is not modelled, as proposals are not.
- ConsensusStates.ConsensusState.ProcessQc: leaves out committing, which `ChainStates` models on its own, and cancelling and issuing requests for missing blocks, statesync and proposing.
- ConsensusStates.ConsensusState.HandleVoteMessage: leaves out proposing.
- ConsensusStates.ConsensusState.HandleTimeoutMessage: leaves out proposing.
- ConsensusStates.ConsensusState.ProcessTc: leaves out proposing.
- CertificateChecks.BuiltTcVerifies: the receiver's check of the certificate or tip that is extended is a parameter, the same for every timeout and for the certificate built from them.
- VoteStates.VoteState.ProcessVote: takes the validators of one epoch and at most 16384 of them, and authors among them, as the handlers guarantee.
- RlpScanner.ListRangesTile: and the other statements about encodings are for data of fewer than 2^64 bytes.
