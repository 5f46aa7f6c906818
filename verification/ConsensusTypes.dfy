/** The values the consensus node passes around: blocks, votes, quorum certificates.

A block id is the hash of the block's header.  Hashing is modelled by a free
constructor, so ids are injective; `RawId` stands for the 32-byte values that are
the hash of no header, the genesis id among them.  Bodies are hashed the same way. */
module ConsensusTypes {
  datatype Option<+T> = None | Some(value: T)

  /** A point of the BLS signature group. */
  type Signature(==, !new)

  type NodeId = nat
  type Round = nat
  type Epoch = nat
  type SeqNum = nat

  const GENESIS_ROUND: Round := 0

  datatype BlockId = HashOf(header: Header) | RawId(bits: nat)
  datatype BodyId = BodyHash(body: Body) | RawBodyId(bits: nat)
  datatype Body = Body(data: seq<nat>)

  const GENESIS_BLOCK_ID := RawId(0)

  datatype Vote = Vote(id: BlockId, round: Round, epoch: Epoch)

  /** Signers as a bit per validator, in validator order, and the sum of their signatures. */
  datatype SignatureCollection = SignatureCollection(signers: seq<bool>, sig: Signature)

  datatype QuorumCertificate = QuorumCertificate(info: Vote, signatures: SignatureCollection) {
    function Round(): Round { info.round }
    function BlockId(): BlockId { info.id }
  }

  datatype Header = Header(
    round: Round,
    epoch: Epoch,
    qc: QuorumCertificate,
    author: NodeId,
    seqNum: SeqNum,
    timestamp: nat,
    executionResults: seq<nat>,
    executionInputs: seq<nat>,
    bodyId: BodyId)

  datatype Block = Block(header: Header, body: Body) {
    function Id(): BlockId { HashOf(header) }
    function ParentId(): BlockId { header.qc.BlockId() }
    function BodyId(): BodyId { header.bodyId }
    function Round(): Round { header.round }
    function ParentRound(): Round { header.qc.Round() }
    function SeqNum(): SeqNum { header.seqNum }
  }

  datatype BlockRange = BlockRange(lastBlockId: BlockId, numBlocks: SeqNum)

  datatype RootInfo = RootInfo(round: Round, seqNum: SeqNum, epoch: Epoch, blockId: BlockId, timestamp: nat)

  /** A block may be reproposed, so the round it is certified in can be later than the
      round it was first proposed in, but never earlier. */
  predicate ValidQc(qc: QuorumCertificate) {
    qc.BlockId().HashOf? ==> qc.BlockId().header.round <= qc.Round()
  }

  /** What block validation establishes before a block reaches the block tree. */
  predicate ValidHeader(h: Header) {
    && h.qc.Round() < h.round
    && ValidQc(h.qc)
  }

  predicate ValidBlock(b: Block) {
    && ValidHeader(b.header)
    && b.header.bodyId == BodyHash(b.body)
  }

  datatype Result<+T> = Ok(value: T) | HeaderPayloadMismatch

  /** The only way to build a full block: the body must be the one the header names. */
  function NewFullBlock(header: Header, body: Body): (r: Result<Block>)
    ensures r.Ok? <==> header.bodyId == BodyHash(body)
    ensures r.Ok? ==> r.value.header == header && r.value.body == body
  {
    if BodyHash(body) != header.bodyId then HeaderPayloadMismatch else Ok(Block(header, body))
  }

  function RootOf(b: Block): RootInfo {
    RootInfo(b.header.round, b.header.seqNum, b.header.epoch, b.Id(), b.header.timestamp)
  }

  /** The root describes the block it names. */
  predicate ValidRoot(root: RootInfo) {
    root.blockId.HashOf? ==> root.round == root.blockId.header.round
  }

  /** The commit rule: a QC commits the parent of the block it certifies when that block's
      own QC is from the round just before. */
  function CommittableId(qc: QuorumCertificate, certified: Header): (r: Option<BlockId>)
    requires qc.BlockId() == HashOf(certified)
  {
    if qc.Round() == certified.qc.Round() + 1 then Some(certified.qc.BlockId()) else None
  }

  // ---- coherency policies

  datatype PolicyResult = Coherent | BlockNotCoherent | TimestampError | ExecutionResultMismatch | StateNotAvailable

  /** The check of a block against the blocks it extends, oldest first, and the root they start from. */
  type Policy = (Block, seq<Block>, RootInfo) -> PolicyResult

  /** The passthru policy: sequence numbers rise by one, timestamps rise, no execution results. */
  function PassthruCheck(block: Block, extending: seq<Block>, root: RootInfo): (r: PolicyResult) {
    var (seqNum, timestamp) :=
      if extending != [] then (extending[|extending| - 1].header.seqNum, extending[|extending| - 1].header.timestamp)
      else (root.seqNum, 0);
    if block.header.seqNum != seqNum + 1 then BlockNotCoherent
    else if block.header.timestamp <= timestamp then TimestampError
    else if block.header.executionResults != [] then ExecutionResultMismatch
    else Coherent
  }

  /** Policies that accept only the sequence number after the one extended. */
  ghost predicate ChecksSeqNum(policy: Policy) {
    forall b: Block, ext: seq<Block>, root: RootInfo ::
      policy(b, ext, root).Coherent? ==>
        b.header.seqNum == (if ext == [] then root.seqNum else ext[|ext| - 1].header.seqNum) + 1
  }

  /** Policies that accept only a later timestamp than that of the block extended; one that extends
      the root is compared with 0, not with the root's. */
  ghost predicate ChecksTime(policy: Policy) {
    forall b: Block, ext: seq<Block>, root: RootInfo ::
      policy(b, ext, root).Coherent? ==>
        b.header.timestamp > if ext == [] then 0 else ext[|ext| - 1].header.timestamp
  }

  lemma PassthruChecksSeqNum()
    ensures ChecksSeqNum(PassthruCheck) && ChecksTime(PassthruCheck)
  {
  }

  /** A block that follows the last one in number and in time and has no execution results. */
  predicate Follows(seqNum: SeqNum, timestamp: nat, b: Block) {
    b.header.seqNum == seqNum + 1 && b.header.timestamp > timestamp && b.header.executionResults == []
  }

  /** What the passthru policy accepts, on the root and on a block. */
  lemma PassthruAcceptsIff(b: Block, ext: seq<Block>, last: Block, root: RootInfo)
    ensures PassthruCheck(b, [], root).Coherent? <==> Follows(root.seqNum, 0, b)
    ensures PassthruCheck(b, ext + [last], root).Coherent? <==> Follows(last.header.seqNum, last.header.timestamp, b)
  {
  }
}
