/**
 Blocks, votes and certificates of the Hydrangea protocol (hydrangea/src/messages.rs).

 A digest is the block it hashes (hashing is injective), or raw bytes that hash no
 block, so a chain of parents is well founded. Signatures are ideal: a message that
 names an author was made by that author. A QC carries the set of its signers; the
 bitmap and the aggregate signature that encode it are the subject of `Aggregation`.
 */
module Types {
  type Node = nat
  type Round = nat

  datatype Block = Block(author: Node, parent: Digest, payload: seq<nat>, round: Round)
  datatype Digest = Hash(block: Block) | Raw(id: nat)

  const GENESIS := Block(0, Raw(0), [], 0)

  datatype VoteType = Commit | Normal

  datatype Option<+T> = None | Some(value: T)

  // The fields that Vote::digest and QC::digest hash (messages.rs:333-341 and 412-420).
  datatype Statement = Statement(blkHash: Digest, kind: VoteType, round: Round)

  datatype Vote = Vote(author: Node, blkHash: Digest, kind: VoteType, round: Round)
  datatype QC = QC(blkHash: Digest, kind: VoteType, round: Round, signers: set<Node>, fastQuorum: bool)
  datatype WQC = WQC(blkHash: Digest, round: Round, signers: set<Node>)
  // `covers` is what the signature in highVote is a valid signature of its author on; nobody
  // checks it against the fields of highVote (messages.rs:559-569).
  datatype Timeout = Timeout(highVote: Vote, covers: Option<Statement>, highQc: QC, highWqc: WQC, round: Round, author: Node)
  datatype Locked = Locked(author: Node, round: Round)
  datatype TC = TC(highQc: QC, highWqc: WQC, round: Round, votes: seq<Locked>)

  const GENESIS_QC := QC(Hash(GENESIS), Commit, 0, {}, false)
  const GENESIS_WQC := WQC(Hash(GENESIS), 0, {})

  function StatementOf(v: Vote): Statement {
    Statement(v.blkHash, v.kind, v.round)
  }

  // What an honest node's last vote is signed for; its initial one for round 0 is not signed (core.rs:119-125).
  function CoversOf(v: Vote): Option<Statement> {
    if v.round == 0 then None else Some(StatementOf(v))
  }

  // The digest that a fallback block must extend (messages.rs:187-192).
  function SafeHash(tc: TC): Digest {
    if tc.highWqc.round > tc.highQc.round then tc.highWqc.blkHash else tc.highQc.blkHash
  }

  // Block a is b or an ancestor of b.
  predicate Extends(b: Block, a: Block) {
    b == a || (b.parent.Hash? && Extends(b.parent.block, a))
  }

  // Digest d is that of an ancestor of b, not looking below genesis.
  predicate AncestorDigest(b: Block, d: Digest) {
    b != GENESIS && (b.parent == d || (b.parent.Hash? && AncestorDigest(b.parent.block, d)))
  }

  lemma {:induction false} ExtendsTransitive(c: Block, b: Block, a: Block)
    requires Extends(c, b) && Extends(b, a)
    ensures Extends(c, a)
  {
    if c != b {
      ExtendsTransitive(c.parent.block, b, a);
    }
  }

  // Ancestors of one block lie on one chain.
  lemma {:induction false} AncestorsComparable(c: Block, b: Block, a: Block)
    requires Extends(c, b) && Extends(c, a)
    ensures Extends(b, a) || Extends(a, b)
  {
    if c != b && c != a {
      AncestorsComparable(c.parent.block, b, a);
    }
  }
}
