/**
 The consensus core of one node (hydrangea/src/core.rs). Handlers mutate the node's fields
 and call each other recursively, as in the source. Every field update that matters for
 safety, every message counted and every certificate received is recorded in a chronicle,
 and `Valid` says that the chronicle leads to the current state: the node is a refinement of
 the step model, so everything proved of runs, networks and fleets holds of this code.
 */
module Core {
  import opened Types
  import opened Steps
  import opened Provenance
  import opened Makers
  import opened Chains
  import opened Handlers

  class Core {
    // The node, its committee (config/src/lib.rs) and its leader elector (leader.rs:40-46).
    const me: Identity
    // QC::is_well_formed, whose signature arithmetic is in Aggregation
    const qcOk: QC -> bool

    var s: State
    ghost var g: Record

    // core.rs:104-161
    constructor (me: Identity, qcOk: QC -> bool)
      ensures Valid(me, s, g) && Orderly(s) && NoneLost(s)
      ensures this.me == me && View(s) == Init(me.name) && g.c.h == Start && s.sent == [] && s.output == [] && s.triggers == []
      ensures s.blocks == map[Hash(GENESIS) := GENESIS] && s.qcs == map[0 := GENESIS_QC] && s.committable == map[] && s.store == map[]
      ensures s.timeoutSyncs == {} && s.votesMakers == map[] && s.commitMakers == map[] && s.timeoutMakers == map[]
    {
      this.me := me;
      this.qcOk := qcOk;
      s := State(1, GENESIS_QC, GENESIS_WQC, 0, Vote(me.name, Hash(GENESIS), Normal, 0), GENESIS, map[],
                 map[0 := Hash(GENESIS)], map[Hash(GENESIS) := GENESIS], map[0 := GENESIS_QC], {}, {},
                 map[], map[], map[], map[], [], [], []);
      ghost var c := Opened(me);
      g := Record(c, Segment(GENESIS, []), map[]);
    }

    // core.rs:202-228
    method GetBlock(d: Digest, r: Round, ghost qc: QC) returns (out: Outcome)
      requires Valid(me, s, g) && Knows(g, qc) && qc.blkHash == d && qc.round == r
      modifies this
      ensures out != Panicked(NotCertified) ==> Handled(me, old(s), old(g), out, s, g)
      ensures out == Panicked(NotCertified) <==> r > old(s).lastCommit.round && r !in old(s).qcs
      ensures out == Panicked(OnDiskOnly) <==>
              r > old(s).lastCommit.round && r in old(s).qcs && d !in old(s).blocks && (d == Hash(GENESIS) || d in old(s).store)
      ensures out == FetchOutcome(old(s), d, r)
      ensures s == if out == Done && r > old(s).lastCommit.round && d !in old(s).blocks
                   then old(s).(syncRequests := old(s).syncRequests + {d}) else old(s)
    {
      if Orderly(s) && RightRound(qc) {
        NotOnDiskOnly(me, s, g, qc);
      }
      if r > s.lastCommit.round {
        if r !in s.qcs {
          return Panicked(NotCertified);
        }
        if d !in s.blocks {
          if Lookup(s.blocks, s.store, d) != None {
            return Panicked(OnDiskOnly);
          }
          RequestSync(d, qc);
        }
      }
      return Done;
    }

    method RequestSync(d: Digest, ghost qc: QC)
      requires Valid(me, s, g) && Knows(g, qc) && Enabled(View(s), Request(d, qc))
      modifies this
      ensures Handled(me, old(s), old(g), Done, s, g)
      ensures s == old(s).(syncRequests := old(s).syncRequests + {d}) && g.commitQcs == old(g).commitQcs
    {
      ghost var c := TakeRequest(g.c, d, qc);
      g := g.(c := c);
      s := s.(syncRequests := s.syncRequests + {d});
      StillHandled(me, old(s), old(g), s, g);
    }

    // core.rs:230-282
    method HaveAllAncestors(block: Block) returns (out: Outcome, all: bool)
      requires Valid(me, s, g)
      modifies this
      ensures Worked(me, old(s), old(g), out, s, g) && (out == Done ==> Accounted(old(s), out, s, g))
      ensures s == old(s).(syncRequests := s.syncRequests) && g.commitQcs == old(g).commitQcs
      ensures (out, all) == Ancestry(old(s), block)
      ensures out == Done && !all ==>
              && Search(old(s).blocks, old(s).store, old(s).lastCommit, block).Missing?
              && s.syncRequests == old(s).syncRequests + {Search(old(s).blocks, old(s).store, old(s).lastCommit, block).d}
      ensures out != Done || all ==> s == old(s) && g == old(g)
    {
      if block.round == 0 || block.parent == Hash(s.lastCommit) {
        return Done, true;
      }
      if block.round <= s.lastCommit.round {
        return Panicked(NotUncommitted), false;
      }
      if Hash(block) !in s.committable {
        return Panicked(NotCommittable), false;
      }
      var found := WalkAncestors(s.blocks, s.store, s.lastCommit, block);
      match found {
        case Complete => return Done, true;
        case Astray => return Panicked(WrongChain), false;
        case Missing(d) =>
          MissingIsAncestor(s.blocks, s.store, s.lastCommit, block);
          RequestSync(d, g.commitQcs[Hash(block)]);
          return Done, false;
      }
    }

    // core.rs:362-437
    method CommitBlock(block: Block, ghost qc: QC) returns (out: Outcome)
      requires Valid(me, s, g) && Knows(g, qc) && Commits(qc, Hash(block)) && Stored(s.store, Hash(block))
      modifies this
      ensures Valid(me, s, g) && Kept(old(s), old(g), s, g)
      ensures out == CommitOutcome(old(s), block)
      ensures out == Done ==> KeepsOrderIf(ParentLower(block), old(s), s)
      ensures out == Done && block.round > 0 ==> JustCommitted(old(s), block, s) && Cleared(old(s), block, s)
      ensures s == AfterCommit(old(s), block) && (out != Done ==> g == old(g))
    {
      if block.round == 0 {
        return Done;
      }
      if block.round <= s.lastCommit.round {
        return Panicked(NotUncommitted);
      }
      var walk, toCommit := GatherAncestors(s.blocks, s.lastCommit, block);
      match walk {
        case Gap => out := Panicked(MissingAncestor);
        case OffChain => out := Panicked(WrongChain);
        case Gathered(left) =>
          out := Done;
          OutputAndClear(block, toCommit, left, qc);
      }
    }

    // core.rs:401-433
    method OutputAndClear(block: Block, toCommit: seq<Block>, left: map<Digest, Block>, ghost qc: QC)
      requires Valid(me, s, g) && Knows(g, qc) && Commits(qc, Hash(block)) && Stored(s.store, Hash(block)) && block.round > s.lastCommit.round
      requires Gather(s.blocks, s.lastCommit, block) == Gathered(left) && Reverse(toCommit) == Path(s.lastCommit, block)
      modifies this
      ensures Valid(me, s, g) && Kept(old(s), old(g), s, g) && KeepsOrderIf(ParentLower(block), old(s), s)
      ensures s == AfterCommit(old(s), block) && JustCommitted(old(s), block, s) && Cleared(old(s), block, s)
    {
      var output := Emit(s.output, toCommit);
      g := CommittedKeeps(me, s, g, block, qc, left);
      CommitClears(s, block);
      s := Committed(s, block, left, output);
    }

    // core.rs:284-301
    method TryCommitOrSyncAncestor(block: Block) returns (out: Outcome)
      requires Valid(me, s, g) && Stored(s.store, Hash(block)) && (Orderly(s) ==> ParentLower(block))
      modifies this
      ensures Worked(me, old(s), old(g), out, s, g) && out != Failed
      ensures block.round > old(s).lastCommit.round ==> Accounted(old(s), out, s, g)
      ensures (out, s) == LateCommit(old(s), block)
      ensures Hash(block) in old(s).committable && Ready(old(s), block) ==> out == Done && JustCommitted(old(s), block, s)
    {
      if Orderly(s) && DescendsTo(block, s.lastCommit) {
        DescendantIsLater(block, s.lastCommit);
      }
      if block.round <= s.lastCommit.round {
        return Panicked(NotUncommitted);
      }
      out := Done;
      if Hash(block) in s.committable {
        out := CommitIfComplete(block, g.commitQcs[Hash(block)]);
      }
    }

    // core.rs:291-295 and 444-447
    method CommitIfComplete(block: Block, ghost qc: QC) returns (out: Outcome)
      requires Valid(me, s, g) && Knows(g, qc) && Commits(qc, Hash(block)) && Stored(s.store, Hash(block)) && (Orderly(s) ==> ParentLower(block))
      requires Hash(block) in s.committable
      modifies this
      ensures Worked(me, old(s), old(g), out, s, g) && out != Failed
      ensures block.round > old(s).lastCommit.round ==> Accounted(old(s), out, s, g)
      ensures (out, s) == CommitStep(old(s), block)
      ensures Ready(old(s), block) ==> out == Done && JustCommitted(old(s), block, s)
    {
      out := SearchAndCommit(block, qc);
      CommitAccounted(me, old(s), old(g), block, qc, out, s, g);
    }

    method SearchAndCommit(block: Block, ghost qc: QC) returns (out: Outcome)
      requires Valid(me, s, g) && Knows(g, qc) && Commits(qc, Hash(block)) && Stored(s.store, Hash(block)) && (Orderly(s) ==> ParentLower(block))
      modifies this
      ensures Worked(me, old(s), old(g), out, s, g) && out != Failed
      ensures (out, s) == CommitStep(old(s), block) && (!out.Panicked? && Orderly(old(s)) ==> NoMoreLost(old(s), s))
    {
      var all;
      out, all := HaveAllAncestors(block);
      if out == Done && all {
        out := CommitAll(block, qc);
      } else {
        LosesNone(old(s), s);
      }
    }

    // core.rs:295 and 447
    method CommitAll(block: Block, ghost qc: QC) returns (out: Outcome)
      requires Valid(me, s, g) && Knows(g, qc) && Commits(qc, Hash(block)) && Stored(s.store, Hash(block)) && (Orderly(s) ==> ParentLower(block))
      requires Ancestry(s, block) == (Done, true)
      modifies this
      ensures Worked(me, old(s), old(g), out, s, g) && out != Failed
      ensures (out, s) == CommitStep(old(s), block) && (!out.Panicked? && Orderly(old(s)) ==> NoMoreLost(old(s), s))
    {
      out := CommitBlock(block, qc);
    }

    // core.rs:439-460
    method ScheduleCommit(d: Digest, r: Round, ghost qc: QC) returns (out: Outcome)
      requires Valid(me, s, g) && Knows(g, qc) && Commits(qc, d) && qc.round == r
      modifies this
      ensures Worked(me, old(s), old(g), out, s, g) && out != Failed
      ensures r > old(s).lastCommit.round ==> Accounted(old(s), out, s, g)
      ensures (out, s) == Schedule(old(s), d, r)
      ensures d.Hash? && Ready(old(s), d.block) ==> out == Done && JustCommitted(old(s), d.block, s)
    {
      MarkCommittable(d, r, qc);
      out := Done;
      if d in s.blocks {
        ghost var s1, g1 := s, g;
        out := CommitIfComplete(s.blocks[d], qc);
        WorkedThen(me, old(s), old(g), s1, g1, out, s, g);
        if s1.blocks[d].round > s1.lastCommit.round {
          AccountedThen(old(s), s1, g1, out, s, g);
        } else {
          assert RightRound(qc) ==> r == s1.blocks[d].round;
        }
      }
    }

    method MarkCommittable(d: Digest, r: Round, ghost qc: QC)
      requires Valid(me, s, g) && Knows(g, qc) && Commits(qc, d)
      modifies this
      ensures Handled(me, old(s), old(g), Done, s, g)
      ensures s == old(s).(committable := old(s).committable[d := r])
    {
      s := s.(committable := s.committable[d := r]);
      g := g.(commitQcs := g.commitQcs[d := qc]);
      StillHandled(me, old(s), old(g), s, g);
    }

    // core.rs:695-706
    method HandleCommitQc(qc: QC) returns (out: Outcome)
      requires Valid(me, s, g) && Knows(g, qc) && (qc.kind == Commit || qc.fastQuorum)
      modifies this
      ensures Worked(me, old(s), old(g), out, s, g) && out != Failed
      ensures qc.round > old(s).lastCommit.round ==> Accounted(old(s), out, s, g)
      ensures CommitQcEffect(old(s), qc, out, s)
      ensures qc.blkHash !in old(s).committable && qc.blkHash.Hash? && Ready(old(s), qc.blkHash.block) ==>
              out == Done && JustCommitted(old(s), qc.blkHash.block, s)
    {
      out := Done;
      if qc.blkHash !in s.committable {
        out := ScheduleCommit(qc.blkHash, qc.round, qc);
        if out == Done {
          ghost var s1, g1 := s, g;
          CleanupPrepares(qc.round);
          WorkedThen(me, old(s), old(g), s1, g1, Done, s, g);
        }
      }
    }

    // Aggregator::cleanup_prepares, aggregator.rs:68-73
    method CleanupPrepares(r: Round)
      requires Valid(me, s, g)
      modifies this
      ensures Handled(me, old(s), old(g), Done, s, g)
      ensures VotesDropped(old(s), r, s)
    {
      ghost var c := TakeDropVotes(g.c, r);
      g := g.(c := c);
      NewerMakers(s, r);
      s := s.(votesMakers := Newer(s.votesMakers, r), commitMakers := Newer(s.commitMakers, r));
      StillHandled(me, old(s), old(g), s, g);
    }

    // ---------------------------------------------------------------- votes, QCs and rounds
    //
    // vote -> QC -> new round -> vote recurses; it stops because each turn uses up a pending round.

    // core.rs:466-479
    method TryVote() returns (out: Outcome)
      requires Valid(me, s, g)
      modifies this
      ensures Handled(me, old(s), old(g), out, s, g) && out != Failed
      ensures TryVoteEffect(me, old(s), out, s)
      ensures MayVote(old(s)) ==> V(Vote(me.name, old(s).pending[old(s).round], Normal, old(s).round)) in s.sent
      decreases PendingFrom(s.pending, s.round), 0, 0
    {
      out := Done;
      if s.round in s.pending {
        var accepted := s.pending[s.round];
        if accepted !in s.blocks {
          out := Panicked(MissingPending);
        } else {
          var b := s.blocks[accepted];
          if s.round == b.round && s.lastTimeout < b.round {
            PendingShrinks(s.pending, s.pending, s.round, s.round + 1);
            out := SendVote(Hash(b), b.round, Normal, b);
          }
        }
      }
    }

    // core.rs:481-494
    method AdvanceToRound(r: Round) returns (out: Outcome)
      requires Valid(me, s, g) && MayEnter(g, r)
      modifies this
      ensures Handled(me, old(s), old(g), out, s, g) && out != Failed
      ensures out == Done ==> s.round >= r
      decreases PendingFrom(s.pending, r), 0, 1
    {
      out := Done;
      if r > s.round {
        EnterRound(r);
        ghost var s1, g1 := s, g;
        out := TryVote();
        EntersAndVotes(me, old(s), old(g), s1, g1, out, s, g);
      }
    }

    method EnterRound(r: Round)
      requires Valid(me, s, g) && s.round < r
      modifies this
      ensures Partly(me, old(s), old(g), Done, s, g) && Accounted(old(s), Done, s, g)
      ensures s == old(s).(round := r) && g.c.books == old(g).c.books
    {
      ghost var c := TakeAdvance(g.c, r);
      g := g.(c := c);
      s := s.(round := r);
    }

    // core.rs:496-513
    method SendVote(d: Digest, r: Round, kind: VoteType, ghost b: Block) returns (out: Outcome)
      requires Valid(me, s, g)
      requires if kind == Normal then Enabled(View(s), Prepare(b)) && d == Hash(b) && r == b.round
               else s.lastTimeout < s.locked.round && d == s.locked.blkHash && r == s.locked.round
      modifies this
      ensures Handled(me, old(s), old(g), out, s, g) && out != Failed
      ensures V(Vote(me.name, d, kind, r)) in s.sent && OwnVoteEffect(me, old(s), Vote(me.name, d, kind, r), out, s)
      decreases PendingFrom(s.pending, r + 1), if kind == Normal then 1 else 0, 5
    {
      var vote := Vote(me.name, d, kind, r);
      CastVote(vote, b);
      ghost var s1, g1 := s, g;
      out := HandleVote(vote, true);
      HandledThen(me, old(s), old(g), s1, g1, out, s, g);
      StaysSent(g1.c, g.c, V(vote));
      if out == Failed {
        out := Done;
      }
    }

    method CastVote(vote: Vote, ghost b: Block)
      requires Valid(me, s, g) && vote.author == me.name
      requires if vote.kind == Normal then Enabled(View(s), Prepare(b)) && vote.blkHash == Hash(b) && vote.round == b.round
               else s.lastTimeout < s.locked.round && vote.blkHash == s.locked.blkHash && vote.round == s.locked.round
      modifies this
      ensures Handled(me, old(s), old(g), Done, s, g)
      ensures s == WithVote(old(s), vote)
    {
      ghost var c;
      if vote.kind == Normal {
        c := TakePrepare(g.c, b);
        s := s.(lastVote := vote, sent := s.sent + [V(vote)]);
      } else {
        c := TakeCommitVote(g.c);
        s := s.(sent := s.sent + [V(vote)]);
      }
      g := g.(c := c);
      StillHandled(me, old(s), old(g), s, g);
    }

    // core.rs:547-568; `signed` says whether the vote's own signature is valid
    method HandleVote(vote: Vote, signed: bool) returns (out: Outcome)
      requires Valid(me, s, g)
      modifies this
      ensures Handled(me, old(s), old(g), out, s, g)
      ensures VoteEffect(me, old(s), vote, signed, out, s)
      decreases PendingFrom(s.pending, vote.round + 1), if vote.kind == Normal then 1 else 0, 4
    {
      out := Done;
      if vote.round > s.lastCommit.round {
        if vote.author !in me.members {
          out := Panicked(UnknownAuthor);
          return;
        }
        out := CountVote(vote, signed);
      }
    }

    // core.rs:552-558
    method CountVote(vote: Vote, signed: bool) returns (out: Outcome)
      requires Valid(me, s, g) && vote.author in me.members && vote.round > s.lastCommit.round
      modifies this
      ensures Handled(me, old(s), old(g), out, s, g)
      ensures Answered(me, old(s), vote, signed, out, s)
      decreases PendingFrom(s.pending, vote.round + 1), if vote.kind == Normal then 1 else 0, 4, 0
    {
      var maybe := AddVote(vote, signed);
      ghost var s1, g1 := s, g;
      out := UseAnswer(vote, maybe);
      HandledThen(me, old(s), old(g), s1, g1, out, s, g);
    }

    method UseAnswer(vote: Vote, maybe: Result<Option<QC>>) returns (out: Outcome)
      requires Valid(me, s, g)
      requires maybe.Ok? && maybe.value.Some? ==> Knows(g, maybe.value.value) && maybe.value.value.round == vote.round && maybe.value.value.kind == vote.kind
      modifies this
      ensures Handled(me, old(s), old(g), out, s, g)
      ensures maybe == Err ==> out == Failed && s == old(s)
      ensures maybe == Ok(None) ==> out == Done && s == old(s)
      ensures maybe.Ok? && maybe.value.Some? ==> QcEffect(me, old(s), maybe.value.value, out, s)
      decreases PendingFrom(s.pending, vote.round + 1), if vote.kind == Normal then 1 else 0, 3, 0
    {
      if maybe == Err {
        return Failed;
      }
      out := Done;
      if maybe.value.Some? {
        out := HandleQc(maybe.value.value);
      }
    }

    // Aggregator::add_normal_vote and add_commit_vote, aggregator.rs:34-56
    method AddVote(vote: Vote, signed: bool) returns (maybe: Result<Option<QC>>)
      requires Valid(me, s, g) && vote.author in me.members && vote.round > s.lastCommit.round
      modifies this
      ensures Handled(me, old(s), old(g), Done, s, g)
      ensures s == WithMaker(old(s), vote, MakerFor(s, vote))
      ensures MakerFor(s, vote) == Append(me.p, MakerFor(old(s), vote), vote, signed, vote.kind == Normal).0
      ensures OthersKept(old(s), vote, s)
      ensures maybe == Append(me.p, MakerFor(old(s), vote), vote, signed, vote.kind == Normal).1
      ensures maybe.Ok? && maybe.value.Some? ==> Knows(g, maybe.value.value)
      ensures maybe.Ok? && maybe.value.Some? ==>
              maybe.value.value.round == vote.round && maybe.value.value.kind == vote.kind && maybe.value.value.blkHash == vote.blkHash
    {
      var m := MakerFor(s, vote);
      QuorumCertificate(me.p, m, vote, signed, vote.kind == Normal);
      var (m', r) := Append(me.p, m, vote, signed, vote.kind == Normal);
      OneMakerChanges(s, vote, m');
      ghost var c := TakeVote(g.c, vote, signed, m', r);
      g := g.(c := c);
      s := WithMaker(s, vote, m');
      StillHandled(me, old(s), old(g), s, g);
      maybe := r;
    }

    // core.rs:709-720
    method HandleQc(qc: QC) returns (out: Outcome)
      requires Valid(me, s, g) && Knows(g, qc)
      modifies this
      ensures Handled(me, old(s), old(g), out, s, g) && out != Failed
      ensures QcEffect(me, old(s), qc, out, s)
      ensures qc.round > old(s).lastCommit.round && (qc.kind == Commit || qc.fastQuorum) && qc.blkHash !in old(s).committable
              && qc.blkHash.Hash? && Ready(old(s), qc.blkHash.block) ==>
              out == Done && JustCommitted(old(s), qc.blkHash.block, s)
      decreases PendingFrom(s.pending, qc.round + 1), if qc.kind == Normal then 1 else 0, 2, 1
    {
      out := Done;
      if qc.round > s.lastCommit.round {
        if qc.kind == Commit || qc.fastQuorum {
          out := HandleCommitQc(qc);
        } else {
          out := HandlePrepareQc(qc);
        }
      }
    }

    // core.rs:663-693
    method HandlePrepareQc(qc: QC) returns (out: Outcome)
      requires Valid(me, s, g) && Knows(g, qc) && qc.kind == Normal && !qc.fastQuorum
      modifies this
      ensures Handled(me, old(s), old(g), out, s, g) && out != Failed
      ensures if qc.round in old(s).qcs then s == old(s) && out == Done else out == Done ==> Adopted(me, old(s), qc, s)
      decreases PendingFrom(s.pending, qc.round + 1), 1, 2, 0
    {
      out := Done;
      if qc.round !in s.qcs {
        RegisterQc(qc);
        ghost var s1, g1 := s, g;
        out := AdoptQc(qc);
        RegisteredThen(me, old(s), old(g), s1, g1, qc.round, out, s, g);
        if out == Done {
          RegisteredAdopted(me, old(s), s1, qc, s);
        }
      }
    }

    // core.rs:674-690
    method AdoptQc(qc: QC) returns (out: Outcome)
      requires Valid(me, s, g) && Knows(g, qc) && qc.kind == Normal && !qc.fastQuorum
      requires IsRegistered(s, qc)
      modifies this
      ensures Handled(me, old(s), old(g), out, s, g) && out != Failed && Secured(old(s), out, s, g, qc.round)
      ensures out == Done ==> LockedOn(me, old(s), qc, s) && s.round > qc.round
      ensures out == Done ==> old(s).triggers <= s.triggers && (IsRegistered(s, qc) || qc.round <= s.lastCommit.round)
      decreases PendingFrom(s.pending, qc.round + 1), 1, 1, 1
    {
      out := LockAndVote(qc);
      if out == Done {
        StillCertified(me, old(s), old(g), s, g, qc);
        ghost var s1, g1 := s, g;
        out := FetchAndAdvance(qc);
        FollowedThen(me, old(s), old(g), s1, g1, qc, out, s, g);
      }
    }

    // core.rs:668-672
    method RegisterQc(qc: QC)
      requires Valid(me, s, g) && qc.round !in s.qcs
      modifies this
      ensures Worked(me, old(s), old(g), Done, s, g)
      ensures forall r :: Lost(s, r) ==> Lost(old(s), r) || r == qc.round
      ensures s == WithQc(me, old(s), qc)
    {
      RegisterKeeps(me, s, g, qc);
      s := WithQc(me, s, qc);
    }

    // core.rs:674-685
    method LockAndVote(qc: QC) returns (out: Outcome)
      requires Valid(me, s, g) && Knows(g, qc) && qc.kind == Normal && !qc.fastQuorum
      modifies this
      ensures Handled(me, old(s), old(g), out, s, g) && out != Failed
      ensures LockedOn(me, old(s), qc, s)
      decreases PendingFrom(s.pending, qc.round + 1), 1, 1, 0
    {
      out := Done;
      if s.locked.round < qc.round {
        LockQc(qc);
        ghost var s1, g1 := s, g;
        out := VoteForLock(qc);
        HandledThen(me, old(s), old(g), s1, g1, out, s, g);
      }
    }

    // core.rs:680-684
    method VoteForLock(qc: QC) returns (out: Outcome)
      requires Valid(me, s, g) && s.locked == qc
      modifies this
      ensures Handled(me, old(s), old(g), out, s, g) && out != Failed
      ensures old(s).lastTimeout < qc.round ==> V(Vote(me.name, qc.blkHash, Commit, qc.round)) in s.sent
      decreases PendingFrom(s.pending, qc.round + 1), 1, 0
    {
      out := Done;
      if s.lastTimeout < qc.round {
        out := SendVote(qc.blkHash, qc.round, Commit, GENESIS);
      }
    }

    // core.rs:688-690
    method FetchAndAdvance(qc: QC) returns (out: Outcome)
      requires Valid(me, s, g) && Knows(g, qc)
      requires IsRegistered(s, qc) || qc.round <= s.lastCommit.round
      modifies this
      ensures Handled(me, old(s), old(g), out, s, g) && out != Failed && Secured(old(s), out, s, g, qc.round)
      ensures out == Done ==> s.round > qc.round
      decreases PendingFrom(s.pending, qc.round + 1), 0, 2
    {
      out := Fetch(qc);
      if out == Done {
        ghost var s1, g1 := s, g;
        out := AdvanceToRound(qc.round + 1);
        StaysSecured(me, old(s), old(g), s1, g1, qc.round, out, s, g);
      }
    }

    // core.rs:688
    method Fetch(qc: QC) returns (out: Outcome)
      requires Valid(me, s, g) && Knows(g, qc) && (IsRegistered(s, qc) || qc.round <= s.lastCommit.round)
      modifies this
      ensures Handled(me, old(s), old(g), out, s, g) && out != Failed && Secured(old(s), out, s, g, qc.round)
      ensures s.pending == old(s).pending && s.round == old(s).round
    {
      out := GetBlock(qc.blkHash, qc.round, qc);
    }

    // core.rs:674-678
    method LockQc(qc: QC)
      requires Valid(me, s, g) && Knows(g, qc) && s.locked.round < qc.round && qc.kind == Normal && !qc.fastQuorum
      modifies this
      ensures Handled(me, old(s), old(g), Done, s, g)
      ensures s == old(s).(locked := qc, timeoutMakers := Newer(old(s).timeoutMakers, qc.round))
    {
      ghost var c := TakeLock(g.c, qc);
      g := g.(c := c);
      // Aggregator::cleanup_timeouts, aggregator.rs:75-77
      s := s.(locked := qc, timeoutMakers := Newer(s.timeoutMakers, qc.round));
    }

    // ---------------------------------------------------------------- timeouts and TCs
    //
    // timeout -> send_timeout -> timeout and TC recurses; it stops because timeout_syncs grows.

    // core.rs:538-545
    method LocalTimeoutRound() returns (out: Outcome)
      requires Valid(me, s, g)
      modifies this
      ensures Received(me, old(s), old(g), true, out, s, g)
      ensures SendTimeoutEffect(me, old(s).(timeoutSyncs := {}), old(s).round, out, s)
      ensures T(Timeout(old(s).lastVote, CoversOf(old(s).lastVote), old(s).locked, old(s).highWqc, old(s).round, me.name)) in s.sent
    {
      LosesNone(s, s.(timeoutSyncs := {}));
      s := s.(timeoutSyncs := {});
      out := SendTimeout(s.round);
    }

    // core.rs:515-536
    method SendTimeout(r: Round) returns (out: Outcome)
      requires Valid(me, s, g)
      modifies this
      ensures Ran(me, old(s), old(g), out, s, g) && r in s.timeoutSyncs
      ensures SendTimeoutEffect(me, old(s), r, out, s)
      decreases TimeoutsLeft(s, r), 0
    {
      out := Done;
      if r !in s.timeoutSyncs {
        var timeout := MakeTimeout(r);
        ghost var s1, g1 := s, g;
        AnswersFewer(old(s), s, r);
        out := HandleOwn(timeout);
        SentThen(me, old(s), old(g), s1, g1, r, out, s, g);
      }
    }

    // core.rs:535
    method HandleOwn(timeout: Timeout) returns (out: Outcome)
      requires Valid(me, s, g) && Knows(g, timeout.highQc) && OfWqc(timeout.highWqc) in g.c.books.certs
      modifies this
      ensures Ran(me, old(s), old(g), out, s, g)
      ensures timeout.round > s.locked.round && timeout.round >= old(s).round && out == Done ==>
              timeout.author in TcMakerFor(s, timeout.round).used
      decreases AnswersLeft(s, timeout.round), 3
    {
      ghost var mid, built;
      out, mid, built := HandleTimeout(timeout, true);
    }

    method MakeTimeout(r: Round) returns (timeout: Timeout)
      requires Valid(me, s, g)
      modifies this
      ensures Ran(me, old(s), old(g), Done, s, g)
      ensures timeout == OwnTimeout(me, old(s), r)
      ensures s == old(s).(lastTimeout := if r > old(s).lastTimeout then r else old(s).lastTimeout,
                           timeoutSyncs := old(s).timeoutSyncs + {r}, sent := old(s).sent + [T(timeout)])
    {
      timeout := Timeout(s.lastVote, CoversOf(s.lastVote), s.locked, s.highWqc, r, me.name);
      ghost var c := TakeTimeout(g.c, r);
      g := g.(c := c);
      s := s.(lastTimeout := if r > s.lastTimeout then r else s.lastTimeout,
              timeoutSyncs := s.timeoutSyncs + {r}, sent := s.sent + [T(timeout)]);
    }

    // core.rs:571-623; `signed` says whether the timeout's own signature is valid
    method HandleTimeout(t: Timeout, signed: bool) returns (out: Outcome, ghost mid: State, ghost built: Option<WQC>)
      requires Valid(me, s, g) && Knows(g, t.highQc) && OfWqc(t.highWqc) in g.c.books.certs
      modifies this
      ensures Ran(me, old(s), old(g), out, s, g)
      ensures TimeoutEffect(me, qcOk, old(s), t, signed, mid, built, out, s)
      ensures t.round > s.locked.round && t.round >= old(s).round && out == Done ==> t.author in TcMakerFor(s, t.round).used
      decreases AnswersLeft(s, t.round), 2
    {
      mid, built := s, None;
      if t.round <= s.locked.round {
        // sync_peer only sends the locked QC, core.rs:303-334
        out := if t.author in me.members then Done else Failed;
      } else if t.round >= s.round {
        out, mid, built := CollectTimeout(t, signed);
      } else {
        out := SendTimeout(s.round - 1);
      }
    }

    // core.rs:586-602
    method CollectTimeout(t: Timeout, signed: bool) returns (out: Outcome, ghost mid: State, ghost built: Option<WQC>)
      requires Valid(me, s, g) && Knows(g, t.highQc) && OfWqc(t.highWqc) in g.c.books.certs
      modifies this
      ensures Ran(me, old(s), old(g), out, s, g)
      ensures || (out.Panicked? && QcEffect(me, old(s), t.highQc, out, s))
              || (QcEffect(me, old(s), t.highQc, Done, mid) && Collected(me, qcOk, mid, t, signed, built, out, s))
      ensures t.round > s.locked.round && out == Done ==> t.author in TcMakerFor(s, t.round).used
      decreases if t.round in s.timeoutSyncs then 0 else 2, 2, 3
    {
      out := HandleQc(t.highQc);
      mid, built := s, None;
      if out == Done {
        ghost var s1, g1 := s, g;
        out, built := CountTimeout(t, signed);
        RanThen(me, old(s), old(g), s1, g1, out, s, g);
      }
    }

    // core.rs:588-601
    method CountTimeout(t: Timeout, signed: bool) returns (out: Outcome, ghost built: Option<WQC>)
      requires Valid(me, s, g) && Knows(g, t.highQc) && OfWqc(t.highWqc) in g.c.books.certs
      modifies this
      ensures Ran(me, old(s), old(g), out, s, g) && Collected(me, qcOk, old(s), t, signed, built, out, s)
      ensures t.round > s.locked.round && out == Done ==> t.author in TcMakerFor(s, t.round).used
      decreases if t.round in s.timeoutSyncs then 0 else 2, 2, 2
    {
      var weight, maybe;
      out, weight, maybe, built := AddTimeout(t, signed);
      if out == Done {
        ghost var s1, g1 := s, g;
        out := AnswerTimeouts(t.round, weight, maybe);
        RanThen(me, old(s), old(g), s1, g1, out, s, g);
        CollectedThen(me, qcOk, old(s), t, signed, built, weight, maybe, s1, out, s);
      }
    }

    method AnswerTimeouts(r: Round, weight: nat, maybe: Option<TC>) returns (out: Outcome)
      requires Valid(me, s, g) && (maybe.Some? ==> KnowsTc(g, maybe.value) && maybe.value.round == r)
      modifies this
      ensures Ran(me, old(s), old(g), out, s, g) && TimeoutsAnswered(me, old(s), r, weight, maybe, out, s)
      decreases if r in s.timeoutSyncs then 0 else 2, 2, 1
    {
      out := Done;
      if weight >= me.p.Validity() {
        out := SyncTimeout(r, maybe);
      }
    }

    // core.rs:594-601
    method SyncTimeout(r: Round, maybe: Option<TC>) returns (out: Outcome)
      requires Valid(me, s, g) && (maybe.Some? ==> KnowsTc(g, maybe.value)) && (maybe.Some? ==> maybe.value.round == r)
      modifies this
      ensures Ran(me, old(s), old(g), out, s, g) && r in s.timeoutSyncs && Onward(old(s), s)
      ensures maybe == None ==> SendTimeoutEffect(me, old(s), r, out, s)
      ensures out == Done && maybe.Some? ==> s.round > r
      decreases if r in s.timeoutSyncs then 0 else 2, 2, 0
    {
      out := SendTimeout(r);
      if out == Done && maybe.Some? {
        ghost var s1, g1 := s, g;
        ghost var mid;
        out, mid := HandleTc(maybe.value, true);
        RanThen(me, old(s), old(g), s1, g1, out, s, g);
      }
      KeptIsOnward(me, old(s), old(g), s, g);
    }

    // core.rs:729-756
    method HandleTc(tc: TC, signed: bool) returns (out: Outcome, ghost mid: State)
      requires Valid(me, s, g) && KnowsTc(g, tc)
      modifies this
      ensures Ran(me, old(s), old(g), out, s, g) && TcEffect(me, old(s), tc, signed, mid, out, s)
      ensures out == Done ==> s.round > tc.round
      decreases if tc.round in s.timeoutSyncs then 0 else 2, 1
    {
      out, mid := Done, s;
      if s.round < tc.round + 1 {
        out := HandleQc(tc.highQc);
        mid := s;
        if out == Done {
          ghost var s1, g1 := s, g;
          out := FollowTc(tc, signed);
          RanThen(me, old(s), old(g), s1, g1, out, s, g);
        }
      }
    }

    // core.rs:734-753
    method FollowTc(tc: TC, signed: bool) returns (out: Outcome)
      requires Valid(me, s, g) && KnowsTc(g, tc)
      modifies this
      ensures Ran(me, old(s), old(g), out, s, g) && TcFollowed(me, old(s), tc, signed, out, s)
      decreases if tc.round in s.timeoutSyncs then 0 else 2, 1, 1
    {
      HandleWqc(tc.highWqc);
      var ok := TcIsWellFormed(me.p, me.members, tc, signed);
      if !ok {
        return Failed;
      }
      ghost var s1, g1 := s, g;
      out := EnterAfterTc(tc);
      RanThen(me, old(s), old(g), s1, g1, out, s, g);
      KeptIsOnward(me, old(s), old(g), s, g);
    }

    // core.rs:743-753
    method EnterAfterTc(tc: TC) returns (out: Outcome)
      requires Valid(me, s, g) && KnowsTc(g, tc)
      modifies this
      ensures Ran(me, old(s), old(g), out, s, g) && tc.round in s.timeoutSyncs
      ensures me.name == me.leader(tc.round + 1) ==> OnTc(tc) in s.triggers
      ensures out == Done ==> s.round > tc.round
      decreases if tc.round in s.timeoutSyncs then 0 else 2, 1, 0
    {
      ProposeFallback(tc);
      ghost var s1, g1 := s, g;
      assert me.name == me.leader(tc.round + 1) ==> OnTc(tc) in s1.triggers;
      out := SendTimeout(tc.round);
      RanThen(me, old(s), old(g), s1, g1, out, s, g);
      if out == Done {
        ghost var s2, g2 := s, g;
        assert OfTc(tc) in g.c.books.certs && Opens(OfTc(tc), tc.round + 1);
        out := AdvanceToRound(tc.round + 1);
        RanThen(me, old(s), old(g), s2, g2, out, s, g);
      }
    }

    method ProposeFallback(tc: TC)
      requires Valid(me, s, g)
      modifies this
      ensures Ran(me, old(s), old(g), Done, s, g)
      ensures s == old(s).(triggers := if me.name == me.leader(tc.round + 1) then old(s).triggers + [OnTc(tc)] else old(s).triggers)
    {
      if me.name == me.leader(tc.round + 1) {
        s := s.(triggers := s.triggers + [OnTc(tc)]);
      }
    }

    // core.rs:722-727
    method HandleWqc(wqc: WQC)
      requires Valid(me, s, g) && OfWqc(wqc) in g.c.books.certs
      modifies this
      ensures Ran(me, old(s), old(g), Done, s, g)
      ensures s == old(s).(highWqc := if wqc.round > old(s).highWqc.round then wqc else old(s).highWqc)
    {
      if s.highWqc.round < wqc.round {
        ghost var c := TakeWqc(g.c, wqc);
        g := g.(c := c);
        s := s.(highWqc := wqc);
      }
    }

    // Aggregator::add_timeout and TCMaker::append, aggregator.rs:58-66 and 286-343. `built` is the
    // WQC that check_wqc built.
    method AddTimeout(t: Timeout, signed: bool) returns (out: Outcome, weight: nat, maybe: Option<TC>, ghost built: Option<WQC>)
      requires Valid(me, s, g) && Knows(g, t.highQc) && OfWqc(t.highWqc) in g.c.books.certs
      modifies this
      ensures Ran(me, old(s), old(g), out, s, g)
      ensures TimeoutTaken(me, qcOk, old(s), t, signed, built, out, weight, maybe, s)
      ensures maybe.Some? ==> maybe.value.round == t.round && KnowsTc(g, maybe.value)
    {
      out, maybe, built := Done, None, None;
      var m := TcMakerFor(s, t.round);
      weight := m.weight;
      if t.author !in m.used {
        if !TimeoutWellFormed(me, qcOk, t, signed) {
          return Failed, weight, None, None;
        }
        m := Count(m, t);
        var wqc: Option<WQC> := None;
        if m.weight >= me.p.ViewChange() {
          ghost var pick;
          out, wqc, pick := CheckWqc(m.highVotes);
          if out.Panicked? {
            return;
          }
          maybe := Some(Assemble(m, wqc, t.round));
        }
        built := wqc;
        weight := m.weight;
        KeepTimeout(t, wqc);
      }
    }

    method KeepTimeout(t: Timeout, wqc: Option<WQC>)
      requires Valid(me, s, g) && Knows(g, t.highQc) && OfWqc(t.highWqc) in g.c.books.certs
      requires t.author in me.members && t.author !in TcMakerFor(s, t.round).used
      requires MayBuild(me.p, me.members, Count(TcMakerFor(s, t.round), t), wqc)
      modifies this
      ensures Ran(me, old(s), old(g), Done, s, g)
      ensures s == WithTimeout(me.p, old(s), t, wqc)
      ensures NewTc(me.p, old(s).timeoutMakers, t, wqc).Some? ==> KnowsTc(g, NewTc(me.p, old(s).timeoutMakers, t, wqc).value)
    {
      ghost var c := TakeExpiry(g.c, t, wqc);
      g := g.(c := c);
      s := WithTimeout(me.p, s, t, wqc);
      CountingRan(me, old(s), old(g), s, g);
    }

    // aggregator.rs:232-282. Any round with enough reported votes may be the one that the hash map
    // yields. Its votes make a certificate if their signatures cover what the last one says.
    method CheckWqc(votes: seq<Report>) returns (out: Outcome, wqc: Option<WQC>, ghost pick: Option<Round>)
      ensures Checked(me.p, me.members, votes, pick, out, wqc)
      ensures wqc.Some? ==> Builds(me.p, me.members, votes, wqc.value)
    {
      out, wqc, pick := Done, None, None;
      if k: nat :| k < |votes| && Qualifies(me.p, votes, votes[k].vote.round) {
        var r := votes[k].vote.round;
        pick := Some(r);
        var group := InRound(votes, r);
        if !(VotersOf(group) <= me.members) {
          out := Panicked(UnknownAuthor);
        } else if WeakBatchOk(group) {
          wqc := Some(NamedAfterFirst(me.p, votes, r));
        }
      } else {
        NoneQualifies(me.p, votes);
      }
    }

    // ---------------------------------------------------------------- proposals and synced blocks

    // core.rs:336-360
    method StoreBlock(block: Block, ghost why: Why) returns (out: Outcome)
      requires Valid(me, s, g) && (block.round > s.lastCommit.round ==> MayAccept(me, s, g, block, why))
      modifies this
      ensures out == if block.round > old(s).lastCommit.round then Done else Panicked(NotUncommitted)
      ensures out == Done ==> Received(me, old(s), old(g), ParentLower(block), out, s, g)
      ensures out == Done ==> s == WithBlock(old(s), block) && (Orderly(s) ==> ParentLower(block))
      ensures out != Done ==> s == old(s) && g == old(g)
    {
      if block.round <= s.lastCommit.round {
        return Panicked(NotUncommitted);
      }
      out := Done;
      g := WithBlockKeeps(me, s, g, block, why);
      s := WithBlock(s, block);
    }

    // core.rs:762-808
    method CanAcceptBlock(block: Block, payloadOk: bool) returns (out: Outcome, accept: bool)
      requires Valid(me, s, g)
      ensures accept <==>
              && block.round > s.lastCommit.round
              && (|| Hash(block) in s.syncRequests
                  || (block.round !in s.pending && block.round !in s.qcs && block.author == me.leader(block.round) && payloadOk))
      ensures out == Failed <==>
              && block.round > s.lastCommit.round && Hash(block) !in s.syncRequests && block.round !in s.qcs
              && (block.author != me.leader(block.round) || !payloadOk)
      ensures out.Panicked? <==>
              && block.round > s.lastCommit.round && Hash(block) !in s.syncRequests && Hash(block) !in s.blocks
              && block.round in s.qcs && s.qcs[block.round].blkHash == Hash(block)
      ensures out.Panicked? ==> out == Panicked(MissingCertified) && Lost(s, block.round)
    {
      if block.round <= s.lastCommit.round {
        return Done, false;
      }
      if Hash(block) in s.syncRequests {
        return Done, true;
      }
      if block.round in s.qcs {
        if s.qcs[block.round].blkHash == Hash(block) && Hash(block) !in s.blocks {
          return Panicked(MissingCertified), false;
        }
        return Done, false;
      }
      if block.author != me.leader(block.round) || !payloadOk {
        return Failed, false;
      }
      return Done, block.round !in s.pending;
    }

    // core.rs:810-819
    method ProcessBlock(block: Block, payloadOk: bool, ghost why: Why) returns (out: Outcome)
      requires Valid(me, s, g) && Justification(block, why) && Needs(Accept(block, why)) <= g.c.books.certs
      modifies this
      ensures Received(me, old(s), old(g), ParentLower(block), out, s, g)
      ensures BlockEffect(me, old(s), block, payloadOk, out, s)
      ensures s.store == old(s).store || s.store == old(s).store[Hash(block) := block]
    {
      var accept;
      out, accept := CanAcceptBlock(block, payloadOk);
      if accept {
        out := StoreAndVote(block, if Hash(block) in s.syncRequests then BySync else why);
      }
    }

    // core.rs:814-816
    method StoreAndVote(block: Block, ghost why: Why) returns (out: Outcome)
      requires Valid(me, s, g) && block.round > s.lastCommit.round && MayAccept(me, s, g, block, why)
      modifies this
      ensures Received(me, old(s), old(g), ParentLower(block), out, s, g)
      ensures StoredEffect(me, old(s), block, out, s) && s.store == old(s).store[Hash(block) := block]
    {
      out := StoreBlock(block, why);
      ghost var s1, g1 := s, g;
      out := CommitAndVote(block);
      ReceivedThen(me, old(s), old(g), s1, g1, ParentLower(block), out, s, g);
    }

    // core.rs:815-816
    method CommitAndVote(block: Block) returns (out: Outcome)
      requires Valid(me, s, g) && Stored(s.store, Hash(block)) && (Orderly(s) ==> ParentLower(block)) && block.round > s.lastCommit.round
      modifies this
      ensures Handled(me, old(s), old(g), out, s, g) && out != Failed
      ensures var (o, s1) := LateCommit(old(s), block);
              if o != Done then out == o && s == s1 else Tables(s1) && TryVoteEffect(me, s1, out, s)
    {
      out := TryCommitOrSyncAncestor(block);
      if out == Done {
        ghost var s1, g1 := s, g;
        out := TryVote();
        HandledThen(me, old(s), old(g), s1, g1, out, s, g);
      }
    }

    // The checks of a proposal's block, messages.rs:122-136 and 178-202, and then core.rs:829 or 846
    method ProcessProposal(block: Block, signed: bool, payloadOk: bool, why: Why) returns (out: Outcome)
      requires Valid(me, s, g) && Needs(Accept(block, why)) <= g.c.books.certs
      modifies this
      ensures Received(me, old(s), old(g), ParentLower(block), out, s, g)
      ensures if (block == GENESIS || (block.author in me.members && signed)) && Justification(block, why)
              then BlockEffect(me, old(s), block, payloadOk, out, s)
              else out == Failed && s == old(s)
      ensures s.store == old(s).store || s.store == old(s).store[Hash(block) := block]
    {
      if BlockWellFormed(me.members, block, signed) && Justification(block, why) {
        out := ProcessBlock(block, payloadOk, why);
      } else {
        out := Failed;
      }
    }

    // core.rs:821-831
    method ProcessNormalProposal(block: Block, qc: QC, signed: bool, payloadOk: bool) returns (out: Outcome, ghost mid: State)
      requires Valid(me, s, g) && Knows(g, qc)
      modifies this
      ensures Received(me, old(s), old(g), ParentLower(block), out, s, g)
      ensures NormalEffect(me, old(s), block, qc, signed, payloadOk, mid, out, s)
      ensures s.store != old(s).store ==> s.store == old(s).store[Hash(block) := block]
    {
      out := HandleQc(qc);
      mid := s;
      if out == Done {
        ghost var s1, g1 := s, g;
        out := ProcessProposal(block, signed, payloadOk, ByQc(qc));
        ReceivedThen(me, old(s), old(g), s1, g1, ParentLower(block), out, s, g);
      }
    }

    // core.rs:833-848
    method ProcessFallbackProposal(block: Block, tc: TC, signed: bool, tcSigned: bool, payloadOk: bool)
      returns (out: Outcome, ghost first: State, ghost mid: State)
      requires Valid(me, s, g) && KnowsTc(g, tc)
      modifies this
      ensures Received(me, old(s), old(g), ParentLower(block), out, s, g)
      ensures FallbackEffect(me, old(s), block, tc, signed, tcSigned, payloadOk, first, mid, out, s)
      ensures s.store != old(s).store ==> s.store == old(s).store[Hash(block) := block]
    {
      out, first := HandleTc(tc, tcSigned);
      mid := s;
      if out == Done {
        ghost var s1, g1 := s, g;
        out := ProcessProposal(block, signed, payloadOk, ByTc(tc));
        ReceivedThen(me, old(s), old(g), s1, g1, ParentLower(block), out, s, g);
      }
    }

    // core.rs:857-883
    method HandleSyncResponse(block: Block) returns (out: Outcome)
      requires Valid(me, s, g)
      modifies this
      ensures Received(me, old(s), old(g), ParentLower(block), out, s, g)
      ensures SyncEffect(old(s), block, out, s)
      ensures Hash(block) in old(s).syncRequests && Hash(block) in old(s).committable && Ready(WithBlock(old(s), block), block) ==>
              out == Done && JustCommitted(old(s), block, s)
    {
      out := Done;
      ReadyIsLater(WithBlock(s, block), block);
      if Hash(block) in s.syncRequests {
        if block.round > s.lastCommit.round {
          out := StoreAndCommit(block);
        } else {
          ForgetRequest(block);
        }
      }
    }

    // core.rs:879-880
    method StoreAndCommit(block: Block) returns (out: Outcome)
      requires Valid(me, s, g) && Hash(block) in s.syncRequests && block.round > s.lastCommit.round
      modifies this
      ensures Received(me, old(s), old(g), ParentLower(block), out, s, g)
      ensures (out, s) == LateCommit(WithBlock(old(s), block), block)
      ensures Hash(block) in old(s).committable && Ready(WithBlock(old(s), block), block) ==>
              out == Done && JustCommitted(old(s), block, s)
    {
      out := StoreBlock(block, BySync);
      ghost var s1, g1 := s, g;
      out := TryCommitOrSyncAncestor(block);
      ReceivedThen(me, old(s), old(g), s1, g1, ParentLower(block), out, s, g);
    }

    method ForgetRequest(block: Block)
      requires Valid(me, s, g) && block.round <= s.lastCommit.round
      modifies this
      ensures Handled(me, old(s), old(g), Done, s, g)
      ensures s == old(s).(syncRequests := old(s).syncRequests - {Hash(block)})
    {
      ghost var c := TakeForget(g.c, Hash(block));
      g := g.(c := c);
      s := s.(syncRequests := s.syncRequests - {Hash(block)});
    }

    // core.rs:885-900. The synchronizer returns blocks that the node gave it, which it had stored.
    method HandleLoopback(block: Block) returns (out: Outcome)
      requires Valid(me, s, g) && Hash(block) in s.store
      modifies this
      ensures Handled(me, old(s), old(g), out, s, g) && LoopbackEffect(old(s), block, out, s)
      ensures Hash(block) in old(s).committable && Ready(old(s), block) ==> out == Done && JustCommitted(old(s), block, s)
    {
      out := Done;
      ReadyIsLater(s, block);
      if block.round > s.lastCommit.round {
        out := TryCommitOrSyncAncestor(block);
      }
    }

    // core.rs:902-920: whether the QC is old, already known, or well formed.
    predicate Sanitized(s: State, qc: QC) {
      || qc.round <= s.lastCommit.round
      || (if qc.kind == Commit then qc.blkHash in s.committable else qc.round in s.qcs)
      || qcOk(qc)
    }

    // core.rs:935-940
    method HandleCertificate(qc: QC) returns (out: Outcome)
      requires Valid(me, s, g) && Knows(g, qc)
      modifies this
      ensures Handled(me, old(s), old(g), out, s, g) && CertificateEffect(me, qcOk, old(s), qc, out, s)
    {
      if Sanitized(s, qc) {
        out := HandleQc(qc);
      } else {
        out := Failed;
      }
    }

    // The certificates in a message become known.
    method Learn(i: Input)
      requires Valid(me, s, g)
      modifies this`g
      ensures Handled(me, s, old(g), Done, s, g)
      ensures forall k :: 0 <= k < |CertsIn(i)| ==> CertsIn(i)[k] in g.c.books.certs
    {
      ghost var c := TakeLearn(g.c, CertsIn(i));
      g := g.(c := c);
    }

    // One turn of the main loop, core.rs:930-951
    method Receive(i: Input) returns (out: Outcome)
      requires Valid(me, s, g)
      modifies this
      ensures Received(me, old(s), old(g), Lower(i), out, s, g)
      ensures EffectOf(me, qcOk)(old(s), i, out, s)
    {
      Learn(i);
      ghost var s1, g1 := s, g;
      out := Dispatch(i);
      ReceivedThen(me, old(s), old(g), s1, g1, Lower(i), out, s, g);
    }

    method DispatchProposal(i: Input) returns (out: Outcome)
      requires i.NormalProposal? || i.FallbackProposal?
      requires Valid(me, s, g) && forall k :: 0 <= k < |CertsIn(i)| ==> CertsIn(i)[k] in g.c.books.certs
      modifies this
      ensures Received(me, old(s), old(g), Lower(i), out, s, g)
      ensures Effect(me, qcOk, old(s), i, out, s)
    {
      match i {
        case NormalProposal(b, qc, signed, payloadOk) =>
          assert CertsIn(i)[0] == OfQc(qc);
          ghost var mid;
          out, mid := ProcessNormalProposal(b, qc, signed, payloadOk);
        case FallbackProposal(b, tc, signed, tcSigned, payloadOk) =>
          assert CertsIn(i)[0] == OfTc(tc) && CertsIn(i)[1] == OfQc(tc.highQc) && CertsIn(i)[2] == OfWqc(tc.highWqc);
          ghost var first, mid;
          out, first, mid := ProcessFallbackProposal(b, tc, signed, tcSigned, payloadOk);
      }
    }

    method DispatchTimeout(i: Input) returns (out: Outcome)
      requires i.TimeoutCertificate? || i.Expiry?
      requires Valid(me, s, g) && forall k :: 0 <= k < |CertsIn(i)| ==> CertsIn(i)[k] in g.c.books.certs
      modifies this
      ensures Received(me, old(s), old(g), Lower(i), out, s, g)
      ensures Effect(me, qcOk, old(s), i, out, s)
    {
      match i {
        case TimeoutCertificate(tc, signed) =>
          assert CertsIn(i)[0] == OfTc(tc) && CertsIn(i)[1] == OfQc(tc.highQc) && CertsIn(i)[2] == OfWqc(tc.highWqc);
          ghost var mid;
          out, mid := HandleTc(tc, signed);
        case Expiry(t, signed) =>
          assert CertsIn(i)[0] == OfQc(t.highQc) && CertsIn(i)[1] == OfWqc(t.highWqc);
          ghost var mid, built;
          out, mid, built := HandleTimeout(t, signed);
      }
    }

    method Dispatch(i: Input) returns (out: Outcome)
      requires Valid(me, s, g) && forall k :: 0 <= k < |CertsIn(i)| ==> CertsIn(i)[k] in g.c.books.certs
      modifies this
      ensures Received(me, old(s), old(g), Lower(i), out, s, g)
      ensures Effect(me, qcOk, old(s), i, out, s)
    {
      match i {
        case NormalProposal(_, _, _, _) => out := DispatchProposal(i);
        case FallbackProposal(_, _, _, _, _) => out := DispatchProposal(i);
        case Certificate(qc) =>
          assert CertsIn(i)[0] == OfQc(qc);
          out := HandleCertificate(qc);
        case SyncResponse(b) => out := HandleSyncResponse(b);
        case TimeoutCertificate(_, _) => out := DispatchTimeout(i);
        case Expiry(_, _) => out := DispatchTimeout(i);
        case VoteCast(v, signed) => out := HandleVote(v, signed);
        case Loopback(b) =>
          out := Done;
          if Hash(b) in s.store {
            out := HandleLoopback(b);
          }
        case Timer => out := LocalTimeoutRound();
      }
    }

    // core.rs:922-926
    method Boot()
      requires Valid(me, s, g)
      modifies this
      ensures Handled(me, old(s), old(g), Done, s, g)
      ensures s == Booted(me, old(s))
    {
      if me.name == me.leader(1) {
        s := s.(triggers := s.triggers + [OnQc(GENESIS_QC)]);
      }
    }

    // core.rs:930-958, until the first panic; `trace` are the states between the inputs
    method Run(inputs: seq<Input>) returns (out: Outcome, ghost trace: seq<State>, ghost outs: seq<Outcome>)
      requires Valid(me, s, g)
      modifies this
      ensures Received(me, old(s), old(g), AllLower(inputs), out, s, g)
      ensures Traced(EffectOf(me, qcOk), inputs, trace, outs) && trace[0] == Booted(me, old(s)) && trace[|trace| - 1] == s
      ensures out == if outs != [] && outs[|outs| - 1].Panicked? then outs[|outs| - 1] else Done
    {
      Boot();
      out, trace, outs := Done, [s], [];
      for k := 0 to |inputs|
        invariant Sofar(me, EffectOf(me, qcOk), inputs, k, old(s), old(g), trace, outs, s, g)
        invariant Valid(me, s, g)
      {
        ghost var s1, g1 := s, g;
        out := Receive(inputs[k]);
        SofarThen(me, EffectOf(me, qcOk), inputs, k, old(s), old(g), trace, outs, s1, g1, out, s, g);
        trace, outs := trace + [s], outs + [out];
        if out.Panicked? {
          return;
        }
      }
      out := Done;
      SofarAll(me, EffectOf(me, qcOk), inputs, old(s), old(g), trace, outs, s, g);
    }
  }
}
