/**
 The proposer (hydrangea/src/proposer.rs). What it builds for a trigger is what the validators
 check, and payload certificates leave its buffer in order and only into blocks.
 */
module Proposing {
  import opened Types
  import opened Steps
  import opened Handlers

  datatype Proposal = N(block: Block, qc: QC) | F(block: Block, tc: TC)

  // NormalProposal::is_well_formed and FallbackRecoveryProposal::is_well_formed, messages.rs:122-136 and 178-202
  predicate ProposalWellFormed(members: set<Node>, p: Proposal) {
    && BlockWellFormed(members, p.block, true)
    && Justification(p.block, if p.N? then ByQc(p.qc) else ByTc(p.tc))
  }

  class Proposer {
    const name: Node
    const consensusOnly: bool
    const maxBlockSize: nat
    var buffer: seq<nat>
    var lastProposed: Block

    constructor (name: Node, consensusOnly: bool, maxBlockSize: nat)
      ensures this.name == name && buffer == [] && lastProposed == GENESIS
    {
      this.name := name;
      this.consensusOnly := consensusOnly;
      this.maxBlockSize := maxBlockSize;
      buffer := [];
      lastProposed := GENESIS;
    }

    // proposer.rs:81-100
    method GetPayload() returns (payload: seq<nat>)
      modifies this`buffer
      ensures |payload| <= maxBlockSize
      ensures !consensusOnly ==> payload + buffer == old(buffer) && (|payload| < maxBlockSize ==> buffer == [])
      ensures consensusOnly ==> buffer == old(buffer) && |payload| == maxBlockSize && forall k :: 0 <= k < |payload| ==> payload[k] == 0
    {
      if consensusOnly {
        payload := [];
        for i := 0 to maxBlockSize
          invariant |payload| == i && forall k :: 0 <= k < i ==> payload[k] == 0
        {
          payload := payload + [0];
        }
      } else if |buffer| < maxBlockSize {
        payload, buffer := buffer, [];
      } else {
        payload, buffer := buffer[..maxBlockSize], buffer[maxBlockSize..];
      }
    }

    /** proposer.rs:138-178: the proposal for any trigger passes the check that validators make of it. */
    method Propose(trigger: Trigger, ghost members: set<Node>) returns (p: Proposal)
      requires name in members
      modifies this
      ensures ProposalWellFormed(members, p) && lastProposed == p.block && p.block.author == name
      ensures match trigger case OnQc(qc) => p == N(p.block, qc) case OnTc(tc) => p == F(p.block, tc)
      ensures !consensusOnly ==> p.block.payload + buffer == old(buffer)
      ensures |p.block.payload| == if consensusOnly || |old(buffer)| >= maxBlockSize then maxBlockSize else |old(buffer)|
    {
      match trigger {
        case OnQc(qc) => p := MakeNormal(qc);
        case OnTc(tc) => p := MakeFallback(tc);
      }
    }

    // proposer.rs:159-171
    method MakeNormal(parentQc: QC) returns (p: Proposal)
      modifies this
      ensures p == N(p.block, parentQc) && lastProposed == p.block
      ensures p.block.author == name && p.block.round == parentQc.round + 1 && p.block.parent == parentQc.blkHash
      ensures !consensusOnly ==> p.block.payload + buffer == old(buffer)
      ensures |p.block.payload| == if consensusOnly || |old(buffer)| >= maxBlockSize then maxBlockSize else |old(buffer)|
    {
      var r := parentQc.round + 1;
      var payload := GetPayload();
      var b := Block(name, parentQc.blkHash, payload, r);
      lastProposed := b;
      p := N(b, parentQc);
    }

    // proposer.rs:138-157
    method MakeFallback(tc: TC) returns (p: Proposal)
      modifies this
      ensures p == F(p.block, tc) && lastProposed == p.block
      ensures p.block.author == name && p.block.round == tc.round + 1
      ensures p.block.parent == tc.highWqc.blkHash || p.block.parent == tc.highQc.blkHash
      ensures tc.highWqc.round > tc.highQc.round ==> p.block.parent == tc.highWqc.blkHash
      ensures tc.highWqc.round <= tc.highQc.round ==> p.block.parent == tc.highQc.blkHash
      ensures !consensusOnly ==> p.block.payload + buffer == old(buffer)
      ensures |p.block.payload| == if consensusOnly || |old(buffer)| >= maxBlockSize then maxBlockSize else |old(buffer)|
    {
      var r := tc.round + 1;
      var safeBlkHash := tc.highQc.blkHash;
      if tc.highWqc.round > tc.highQc.round {
        safeBlkHash := tc.highWqc.blkHash;
      }
      var payload := GetPayload();
      var b := Block(name, safeBlkHash, payload, r);
      lastProposed := b;
      p := F(b, tc);
    }
  }
}
