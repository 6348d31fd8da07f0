/**
 What the handlers of the consensus core keep and do (hydrangea/src/core.rs): the state of a
 node with the chronicle of its steps, the relation between the states before and after a
 handler, and the effect of every handler. `Core` is the imperative node.
 */
module Handlers {
  import opened Types
  import opened Thresholds
  import opened Steps
  import opened Provenance
  import opened Makers
  import opened Chains

  // Why the process would panic.
  datatype Panic =
    | UnknownAuthor     // config/src/lib.rs:431, unwrap on a vote by a stranger
    | NotCertified      // core.rs:205
    | OnDiskOnly        // core.rs:221
    | NotUncommitted    // core.rs:237, 286, 348 and 368
    | NotCommittable    // core.rs:240
    | WrongChain        // core.rs:272 and 398
    | MissingAncestor   // core.rs:392
    | MissingPending    // core.rs:472
    | MissingCertified  // core.rs:780

  datatype Outcome = Done | Failed | Panicked(why: Panic)

  datatype Trigger = OnQc(qc: QC) | OnTc(tc: TC)

  // ---------------------------------------------------------------- the state of a node

  // The number of pending rounds from x on bounds the depth of the vote recursion.
  ghost function PendingFrom(pending: map<Round, Digest>, x: Round): nat {
    |set r | r in pending && r >= x|
  }

  lemma PendingShrinks(pending: map<Round, Digest>, pending': map<Round, Digest>, x: Round, y: Round)
    requires pending'.Keys <= pending.Keys && x <= y
    ensures PendingFrom(pending', y) <= PendingFrom(pending, x)
    ensures x < y && x in pending ==> PendingFrom(pending', y) < PendingFrom(pending, x)
  {
    var a, b := set r | r in pending' && r >= y, set r | r in pending && r >= x;
    SubsetSize(a, b);
    if x < y && x in pending {
      SubsetSize(a, b - {x});
    }
  }

  // The fields of Core (core.rs:36-79) that are not constant, timers or channels, and what
  // the node has written to disk, sent, handed to the proposer and to the application.
  datatype State = State(
    round: Round,
    locked: QC,
    highWqc: WQC,
    lastTimeout: Round,
    lastVote: Vote,
    lastCommit: Block,
    committable: map<Digest, Round>,
    pending: map<Round, Digest>,
    blocks: map<Digest, Block>,
    qcs: map<Round, QC>,
    syncRequests: set<Digest>,
    timeoutSyncs: set<Round>,
    votesMakers: map<Round, map<Digest, Maker>>,
    commitMakers: map<Round, Maker>,
    timeoutMakers: map<Round, TcMaker>,
    store: map<Digest, Block>,
    sent: seq<Msg>,
    triggers: seq<Trigger>,
    output: seq<Block>)

  // The steps taken so far, the chain committed so far, and the QC behind each committable block.
  datatype Record = Record(c: Chronicle, chain: Chain, commitQcs: map<Digest, QC>)

  function View(s: State): NodeState {
    NodeState(s.round, s.locked, s.highWqc, s.lastTimeout, s.lastVote, s.lastCommit, s.pending, s.syncRequests)
  }

  // The steps recorded so far lead to the current state, the indexes are consistent, and
  // the application has been given the chain from genesis to the last commit.
  ghost predicate Valid(me: Identity, s: State, g: Record) {
    && Sound(me, s, g) && s.output == g.chain.blocks
  }

  ghost predicate Sound(me: Identity, s: State, g: Record) {
    && 1 <= s.round && Told(me, s, g.c) && QcsKnown(g.commitQcs, g.c.books.certs)
    && BlocksOk(s.blocks, s.store) && QcsOk(s.qcs) && CommittableOk(s.committable, g.commitQcs)
    && Stored(s.store, Hash(s.lastCommit)) && g.chain.tip == s.lastCommit
    && forall r :: r in s.timeoutSyncs ==> r <= s.lastTimeout
  }

  // The chronicle leads to the node's state, its messages and its makers, and the node knows its lock and its WQC.
  ghost predicate Told(me: Identity, s: State, c: Chronicle) {
    && c.me == me && c.log == s.sent && c.state == View(s)
    && c.books.votes == s.votesMakers && c.books.commits == s.commitMakers && c.books.timeouts == s.timeoutMakers
    && OfQc(s.locked) in c.books.certs && OfWqc(s.highWqc) in c.books.certs
  }

  ghost predicate QcsKnown(qcs: map<Digest, QC>, certs: set<Cert>) {
    forall d :: d in qcs ==> OfQc(qcs[d]) in certs
  }

  // The node has received or made the QC.
  ghost predicate Knows(g: Record, qc: QC) {
    OfQc(qc) in g.c.books.certs
  }

  // ... or the TC with the certificates in it.
  ghost predicate KnowsTc(g: Record, tc: TC) {
    OfTc(tc) in g.c.books.certs && Knows(g, tc.highQc) && OfWqc(tc.highWqc) in g.c.books.certs
  }

  // The certificate lets a node enter round r.
  predicate Opens(c: Cert, r: Round) {
    match c
    case OfQc(qc) => qc.round + 1 == r
    case OfTc(tc) => tc.round + 1 == r
    case OfWqc(_) => false
  }

  ghost predicate MayEnter(g: Record, r: Round) {
    exists c :: c in g.c.books.certs && Opens(c, r)
  }

  ghost predicate Orderly(s: State) {
    Tidy(s.blocks, s.pending, s.store, s.lastCommit.round) && DescendsTo(s.lastCommit, GENESIS)
  }

  // The QC names a block of its own round.
  predicate RightRound(qc: QC) {
    qc.blkHash.Hash? ==> qc.blkHash.block.round == qc.round
  }

  ghost predicate RightRounds(g: Record) {
    forall qc :: Knows(g, qc) ==> RightRound(qc)
  }

  // The block certified for an uncommitted round is neither held nor asked for.
  predicate Lost(s: State, r: Round) {
    && r in s.qcs && r > s.lastCommit.round
    && !(RightRound(s.qcs[r]) && (s.qcs[r].blkHash in s.blocks || s.qcs[r].blkHash in s.syncRequests))
  }

  ghost predicate NoneLost(s: State) {
    forall r :: !Lost(s, r)
  }

  ghost predicate NoMoreLost(s: State, s': State) {
    forall r :: Lost(s', r) ==> Lost(s, r)
  }

  lemma LosesNone(s: State, s': State)
    requires s'.qcs == s.qcs && s'.lastCommit == s.lastCommit && s.blocks.Keys <= s'.blocks.Keys && s.syncRequests <= s'.syncRequests
    ensures NoMoreLost(s, s')
  {}

  // A committing QC is for a block that does not descend from the last commit.
  ghost predicate ForkedBy(s: State, qc: QC) {
    && (qc.kind == Commit || qc.fastQuorum) && qc.round > s.lastCommit.round
    && qc.blkHash.Hash? && !DescendsTo(qc.blkHash.block, s.lastCommit)
  }

  ghost predicate Forked(s: State, g: Record) {
    exists qc :: Knows(g, qc) && ForkedBy(s, qc)
  }

  // If the process panicked, that was on a vote by a stranger or on a fork.
  ghost predicate Explained(out: Outcome, s: State, g: Record) {
    match out
    case Panicked(UnknownAuthor) => true
    case Panicked(WrongChain) => Forked(s, g)
    case Panicked(MissingAncestor) => Forked(s, g)
    case Panicked(_) => false
    case _ => true
  }

  // Where parent rounds decrease and QCs name blocks of their own round, every panic is explained
  // and no certified block gets lost.
  ghost predicate Accounted(s: State, out: Outcome, s': State, g': Record) {
    Orderly(s) && RightRounds(g') ==> Explained(out, s', g') && (!out.Panicked? ==> NoMoreLost(s, s'))
  }

  // What every handler keeps, besides Valid.
  ghost predicate Kept(s: State, g: Record, s': State, g': Record) {
    && Continues(g.c, g'.c) && g.c.books.certs <= g'.c.books.certs
    && s.round <= s'.round && s.locked.round <= s'.locked.round && s.lastCommit.round <= s'.lastCommit.round && s.lastTimeout <= s'.lastTimeout
    && s.highWqc.round <= s'.highWqc.round && s.timeoutSyncs <= s'.timeoutSyncs
    && Within(s'.pending, s.pending) && s.output <= s'.output && s.triggers <= s'.triggers
    && QcsKept(s.qcs, s'.qcs, s'.lastCommit.round)
  }

  ghost predicate Within(pending': map<Round, Digest>, pending: map<Round, Digest>) {
    forall r :: r in pending' ==> r in pending && pending'[r] == pending[r]
  }

  ghost predicate QcsKept(qcs: map<Round, QC>, qcs': map<Round, QC>, r: Round) {
    forall x :: x in qcs && x > r ==> x in qcs' && qcs'[x] == qcs[x]
  }

  // Order is kept unless the process panics, and then not for want of a pending block.
  ghost predicate KeepsOrder(s: State, out: Outcome, s': State) {
    Orderly(s) ==> out != Panicked(MissingPending) && (!out.Panicked? ==> Orderly(s'))
  }

  // The node has voted for the block that is pending for its round, unless it has timed out.
  predicate VotedPending(name: Node, s: State) {
    s.round in s.pending && s.lastTimeout < s.round ==> V(Vote(name, s.pending[s.round], Normal, s.round)) in s.sent
  }

  // A round is entered only on a QC or TC of the round before it, and where parent rounds decrease the
  // block that is pending for it gets a vote.
  ghost predicate WellEntered(name: Node, s: State, out: Outcome, s': State, g': Record) {
    !out.Panicked? && s.round < s'.round ==> MayEnter(g', s'.round) && (Orderly(s) ==> VotedPending(name, s'))
  }

  // Counted timeouts of rounds above the lock stay as they are, and the others may go.
  ghost predicate TimeoutsKept(s: State, s': State) {
    && (forall r :: r > s'.locked.round ==> TcMakerFor(s', r) == TcMakerFor(s, r))
    && s'.timeoutMakers.Keys <= s.timeoutMakers.Keys
  }

  // A part of a handler of proposals, votes and QCs ran from s to s'. It never asked for a block
  // without a QC (core.rs:205).
  ghost predicate Worked(me: Identity, s: State, g: Record, out: Outcome, s': State, g': Record) {
    Partly(me, s, g, out, s', g') && WellEntered(me.name, s, out, s', g')
  }

  ghost predicate Partly(me: Identity, s: State, g: Record, out: Outcome, s': State, g': Record) {
    && Valid(me, s', g') && Kept(s, g, s', g') && KeepsOrder(s, out, s')
    && s'.timeoutSyncs == s.timeoutSyncs && s'.lastTimeout == s.lastTimeout && s'.store == s.store
    && TimeoutsKept(s, s') && out != Panicked(NotCertified)
  }

  // ... and every panic is explained.
  ghost predicate Handled(me: Identity, s: State, g: Record, out: Outcome, s': State, g': Record) {
    Worked(me, s, g, out, s', g') && Accounted(s, out, s', g')
  }

  lemma WorkedThen(me: Identity, s: State, g: Record, s1: State, g1: Record, out: Outcome, s2: State, g2: Record)
    requires Worked(me, s, g, Done, s1, g1) && Worked(me, s1, g1, out, s2, g2)
    ensures Worked(me, s, g, out, s2, g2)
  {
    ContinuesTransitive(g.c, g1.c, g2.c);
    EnteredThen(me, s, g, s1, g1, out, s2, g2);
  }

  lemma EnteredThen(me: Identity, s: State, g: Record, s1: State, g1: Record, out: Outcome, s2: State, g2: Record)
    requires Valid(me, s1, g1) && Valid(me, s2, g2) && Kept(s, g, s1, g1) && Kept(s1, g1, s2, g2) && KeepsOrder(s, Done, s1)
    requires WellEntered(me.name, s, Done, s1, g1) && WellEntered(me.name, s1, out, s2, g2)
    ensures WellEntered(me.name, s, out, s2, g2)
  {
    if s.round < s1.round == s2.round {
      var c :| c in g1.c.books.certs && Opens(c, s1.round);
      assert c in g2.c.books.certs;
      GoesOn(g1.c, g2.c);
    }
  }

  // What only adds requests, messages, triggers or counted votes handles nothing else.
  lemma StillHandled(me: Identity, s: State, g: Record, s': State, g': Record)
    requires Valid(me, s', g') && Continues(g.c, g'.c) && g.c.books.certs <= g'.c.books.certs
    requires s' == s.(lastVote := s'.lastVote, committable := s'.committable, syncRequests := s'.syncRequests, votesMakers := s'.votesMakers,
                      commitMakers := s'.commitMakers, sent := s'.sent, triggers := s'.triggers)
    requires s.syncRequests <= s'.syncRequests && s.triggers <= s'.triggers
    ensures Handled(me, s, g, Done, s', g')
  {
    LosesNone(s, s');
  }

  // A new round is entered and then there is an attempt to vote.
  lemma EntersAndVotes(me: Identity, s: State, g: Record, s1: State, g1: Record, out: Outcome, s2: State, g2: Record)
    requires Partly(me, s, g, Done, s1, g1) && Accounted(s, Done, s1, g1) && s1 == s.(round := s1.round) && s1.round > 0 && MayEnter(g1, s1.round)
    requires Handled(me, s1, g1, out, s2, g2)
    requires MayVote(s1) ==> V(Vote(me.name, s1.pending[s1.round], Normal, s1.round)) in s2.sent
    ensures Handled(me, s, g, out, s2, g2)
  {
    ContinuesTransitive(g.c, g1.c, g2.c);
    AccountedThen(s, s1, g1, out, s2, g2);
    if s1.round == s2.round {
      var c :| c in g1.c.books.certs && Opens(c, s1.round);
      assert c in g2.c.books.certs;
    }
  }

  lemma HandledThen(me: Identity, s: State, g: Record, s1: State, g1: Record, out: Outcome, s2: State, g2: Record)
    requires Handled(me, s, g, Done, s1, g1) && Handled(me, s1, g1, out, s2, g2)
    ensures Handled(me, s, g, out, s2, g2)
  {
    WorkedThen(me, s, g, s1, g1, out, s2, g2);
    AccountedThen(s, s1, g1, out, s2, g2);
  }

  lemma AccountedThen(s: State, s1: State, g1: Record, out: Outcome, s2: State, g2: Record)
    requires Accounted(s, Done, s1, g1) && KeepsOrder(s, Done, s1) && g1.c.books.certs <= g2.c.books.certs && Accounted(s1, out, s2, g2)
    ensures Accounted(s, out, s2, g2)
  {}

  // A block is pending for the current round and no Timeout for it was sent (core.rs:462-478).
  predicate MayVote(s: State) {
    && s.round in s.pending && s.pending[s.round] in s.blocks
    && s.blocks[s.pending[s.round]].round == s.round && s.lastTimeout < s.round
  }

  /**
   What a new ordinary QC does. The node is locked at least as high and is past its round; it has
   sent a Commit vote for its block unless it was locked higher or had timed out; the QC is
   registered until a commit passes it; a leader of the next round that was not past it has
   been told to propose; and a new lock has dropped the Timeouts up to its round.
   */
  ghost predicate Adopted(me: Identity, s: State, qc: QC, s': State) {
    && s'.locked.round >= qc.round && s'.round > qc.round
    && (s.locked.round < qc.round && s.lastTimeout < qc.round ==> V(Vote(me.name, qc.blkHash, Commit, qc.round)) in s'.sent)
    && (IsRegistered(s', qc) || qc.round <= s'.lastCommit.round)
    && (s.round <= qc.round && me.name == me.leader(qc.round + 1) ==> OnQc(qc) in s'.triggers)
    && (s.locked.round < qc.round ==> forall r :: r in s'.timeoutMakers ==> r > qc.round)
  }

  predicate IsRegistered(s: State, qc: QC) {
    qc.round in s.qcs && s.qcs[qc.round] == qc
  }

  // The block certified for round r is not lost.
  ghost predicate Secured(s: State, out: Outcome, s': State, g': Record, r: Round) {
    Orderly(s) && RightRounds(g') && out == Done ==> !Lost(s', r)
  }

  lemma StaysSecured(me: Identity, s: State, g: Record, s1: State, g1: Record, r: Round, out: Outcome, s2: State, g2: Record)
    requires Handled(me, s, g, Done, s1, g1) && Secured(s, Done, s1, g1, r) && Handled(me, s1, g1, out, s2, g2)
    ensures Handled(me, s, g, out, s2, g2) && Secured(s, out, s2, g2, r)
  {
    HandledThen(me, s, g, s1, g1, out, s2, g2);
  }

  // A new QC is registered, and then its block is secured.
  lemma RegisteredThen(me: Identity, s: State, g: Record, s1: State, g1: Record, r: Round, out: Outcome, s2: State, g2: Record)
    requires Worked(me, s, g, Done, s1, g1) && Handled(me, s1, g1, out, s2, g2) && out != Failed && Secured(s1, out, s2, g2, r)
    requires forall x :: Lost(s1, x) ==> Lost(s, x) || x == r
    ensures Handled(me, s, g, out, s2, g2)
  {
    WorkedThen(me, s, g, s1, g1, out, s2, g2);
  }

  lemma StaysTriggered(s: State, s': State, t: Trigger)
    requires t in s.triggers && s.triggers <= s'.triggers
    ensures t in s'.triggers
  {}

  // What is done after a new QC is registered completes its effect.
  lemma RegisteredAdopted(me: Identity, s: State, s1: State, qc: QC, s2: State)
    requires s1 == WithQc(me, s, qc) && s1.triggers <= s2.triggers
    requires LockedOn(me, s1, qc, s2) && s2.round > qc.round && (IsRegistered(s2, qc) || qc.round <= s2.lastCommit.round)
    ensures Adopted(me, s, qc, s2)
  {
    if s.round <= qc.round && me.name == me.leader(qc.round + 1) {
      StaysTriggered(s1, s2, OnQc(qc));
    }
  }

  // core.rs:668-672: the QC is registered, and a leader of the next round that is not past it is told to propose.
  function WithQc(me: Identity, s: State, qc: QC): State {
    s.(qcs := s.qcs[qc.round := qc],
       triggers := if s.round < qc.round + 1 && me.name == me.leader(qc.round + 1) then s.triggers + [OnQc(qc)] else s.triggers)
  }

  // Registering a QC leaves only its own block to be found.
  lemma RegisterKeeps(me: Identity, s: State, g: Record, qc: QC)
    requires Valid(me, s, g) && qc.round !in s.qcs
    ensures Worked(me, s, g, Done, WithQc(me, s, qc), g)
    ensures forall r :: Lost(WithQc(me, s, qc), r) ==> Lost(s, r) || r == qc.round
  {}

  function Booted(me: Identity, s: State): State {
    s.(triggers := if me.name == me.leader(1) then s.triggers + [OnQc(GENESIS_QC)] else s.triggers)
  }

  // A registered QC stays registered until a commit passes it, and the pending rounds do not grow.
  lemma StillCertified(me: Identity, s: State, g: Record, s': State, g': Record, qc: QC)
    requires Handled(me, s, g, Done, s', g') && Knows(g, qc) && IsRegistered(s, qc)
    ensures Knows(g', qc) && (IsRegistered(s', qc) || qc.round <= s'.lastCommit.round)
    ensures PendingFrom(s'.pending, qc.round + 1) <= PendingFrom(s.pending, qc.round + 1)
  {
    PendingWithin(s.pending, s'.pending, qc.round + 1);
  }

  lemma PendingWithin(pending: map<Round, Digest>, pending': map<Round, Digest>, x: Round)
    requires Within(pending', pending)
    ensures PendingFrom(pending', x) <= PendingFrom(pending, x)
  {
    PendingShrinks(pending, pending', x, x);
  }

  // The node has locked the QC and voted for it.
  ghost predicate LockedOn(me: Identity, s: State, qc: QC, s': State) {
    && s'.locked.round >= qc.round
    && (s.locked.round < qc.round && s.lastTimeout < qc.round ==> V(Vote(me.name, qc.blkHash, Commit, qc.round)) in s'.sent)
    && (s.locked.round < qc.round ==> forall r :: r in s'.timeoutMakers ==> r > qc.round)
  }

  // The rest of what a new QC does, after the lock and the vote.
  lemma FollowedThen(me: Identity, s: State, g: Record, s1: State, g1: Record, qc: QC, out: Outcome, s2: State, g2: Record)
    requires Handled(me, s, g, Done, s1, g1) && Handled(me, s1, g1, out, s2, g2)
    requires LockedOn(me, s, qc, s1) && Secured(s1, out, s2, g2, qc.round)
    ensures Handled(me, s, g, out, s2, g2) && LockedOn(me, s, qc, s2) && Secured(s, out, s2, g2, qc.round)
  {
    HandledThen(me, s, g, s1, g1, out, s2, g2);
    StaysSent(g1.c, g2.c, V(Vote(me.name, qc.blkHash, Commit, qc.round)));
  }

  // A handler of timeouts and TCs ran from s to s'; unlike the others it may send timeouts.
  ghost predicate Ran(me: Identity, s: State, g: Record, out: Outcome, s': State, g': Record) {
    && Valid(me, s', g') && Kept(s, g, s', g') && KeepsOrder(s, out, s') && s'.store == s.store
    && out != Panicked(NotCertified) && Accounted(s, out, s', g') && WellEntered(me.name, s, out, s', g') && SendersKept(s, s')
  }

  // A sender whose Timeout was counted stays counted until the lock passes the round.
  ghost predicate SendersKept(s: State, s': State) {
    forall r :: r > s'.locked.round ==> TcMakerFor(s, r).used <= TcMakerFor(s', r).used
  }

  lemma RanThen(me: Identity, s: State, g: Record, s1: State, g1: Record, out: Outcome, s2: State, g2: Record)
    requires Ran(me, s, g, Done, s1, g1) && Ran(me, s1, g1, out, s2, g2)
    ensures Ran(me, s, g, out, s2, g2)
  {
    ContinuesTransitive(g.c, g1.c, g2.c);
    EnteredThen(me, s, g, s1, g1, out, s2, g2);
    AccountedThen(s, s1, g1, out, s2, g2);
  }

  // What only counts one more Timeout does nothing else.
  lemma CountingRan(me: Identity, s: State, g: Record, s': State, g': Record)
    requires Valid(me, s', g') && Continues(g.c, g'.c) && g.c.books.certs <= g'.c.books.certs
    requires s' == s.(timeoutMakers := s'.timeoutMakers) && SendersKept(s, s')
    ensures Ran(me, s, g, Done, s', g')
  {}

  // How often send_timeout can still recurse: a Timeout for x may be answered by one for
  // the round before the current one, and that by none.
  function TimeoutsLeft(s: State, x: Round): nat {
    if x in s.timeoutSyncs then 0 else if x + 1 == s.round then 1 else 2
  }

  function AnswersLeft(s: State, x: Round): nat {
    if x !in s.timeoutSyncs then 2
    else if x < s.round && s.round - 1 !in s.timeoutSyncs then 1
    else 0
  }

  lemma AnswersFewer(s: State, s1: State, r: Round)
    requires r !in s.timeoutSyncs && s1.timeoutSyncs == s.timeoutSyncs + {r} && s1.round == s.round
    ensures AnswersLeft(s1, r) < TimeoutsLeft(s, r)
  {}

  // QC::eq, messages.rs:437-441
  predicate SameQc(a: QC, b: QC) {
    a.kind == b.kind && a.blkHash == b.blkHash && a.round == b.round
  }

  lemma QuorumCertificate(p: Params, m: Maker, v: Vote, signed: bool, checkFast: bool)
    ensures var r := Append(p, m, v, signed, checkFast).1;
            r.Ok? && r.value.Some? ==> r.value.value.round == v.round && r.value.value.kind == v.kind && r.value.value.blkHash == v.blkHash
  {}

  function TcMakerFor(s: State, r: Round): TcMaker {
    TcMakerIn(s.timeoutMakers, r)
  }

  function MakerFor(s: State, v: Vote): Maker {
    MakerIn(s.votesMakers, s.commitMakers, v)
  }

  // The makers of other votes have not changed.
  ghost predicate OthersKept(s: State, v: Vote, s': State) {
    forall u: Vote :: u.kind != v.kind || u.round != v.round || (v.kind == Normal && u.blkHash != v.blkHash) ==>
      MakerFor(s', u) == MakerFor(s, u)
  }

  function WithMaker(s: State, v: Vote, m: Maker): State {
    s.(votesMakers := WithVotes(s.votesMakers, v, m), commitMakers := WithCommits(s.commitMakers, v, m))
  }

  // A well-formed Timeout of a new sender is counted, and from the view-change size on there is a TC.
  ghost predicate TimeoutAdded(p: Params, s: State, t: Timeout, built: Option<WQC>, s': State, weight: nat, maybe: Option<TC>) {
    && weight == TcMakerFor(s, t.round).weight + 1 && s' == WithTimeout(p, s, t, built)
    && maybe == NewTc(p, s.timeoutMakers, t, built) && (maybe.Some? <==> weight >= p.ViewChange())
  }

  predicate Qualifies(p: Params, votes: seq<Report>, r: Round) {
    |InRound(votes, r)| >= p.WeakCert()
  }

  function NamedAfterFirst(p: Params, votes: seq<Report>, r: Round): (wqc: WQC)
    requires Qualifies(p, votes, r)
    ensures MayCertify(p, votes, wqc)
  {
    var group := InRound(votes, r);
    WQC(group[0].vote.blkHash, r, VotersOf(group))
  }

  // What check_wqc answers if it tries round `pick`: any round with enough reported votes, or none
  // if there is no such round. A vote by a stranger in its group makes it panic, and the group makes
  // a certificate exactly if its signatures cover what the last vote says.
  ghost predicate Checked(p: Params, members: set<Node>, votes: seq<Report>, pick: Option<Round>, out: Outcome, wqc: Option<WQC>) {
    match pick
    case None => (forall r :: !Qualifies(p, votes, r)) && out == Done && wqc == None
    case Some(r) =>
      && Qualifies(p, votes, r)
      && out == (if VotersOf(InRound(votes, r)) <= members then Done else Panicked(UnknownAuthor))
      && wqc == if out == Done && WeakBatchOk(InRound(votes, r)) then Some(NamedAfterFirst(p, votes, r)) else None
  }

  // check_wqc is called from the view-change size on (aggregator.rs:318-324).
  ghost predicate WqcChecked(p: Params, members: set<Node>, m: TcMaker, out: Outcome, wqc: Option<WQC>) {
    if m.weight >= p.ViewChange() then exists pick :: Checked(p, members, m.highVotes, pick, out, wqc)
    else out == Done && wqc == None
  }

  lemma NoneQualifies(p: Params, votes: seq<Report>)
    requires forall k :: 0 <= k < |votes| ==> !Qualifies(p, votes, votes[k].vote.round)
    ensures forall r :: !Qualifies(p, votes, r)
  {
    forall r: Round ensures !Qualifies(p, votes, r) {
      if |InRound(votes, r)| > 0 {
        InRoundIsReported(votes, r, 0);
      }
    }
  }

  lemma OneMakerChanges(s: State, v: Vote, m: Maker)
    ensures MakerFor(WithMaker(s, v, m), v) == m && OthersKept(s, v, WithMaker(s, v, m))
  {}

  // The whole effect of a commit that gathers its ancestors (core.rs:401-433).
  function Committed(s: State, b: Block, left: map<Digest, Block>, output: seq<Block>): State {
    s.(output := output, lastCommit := b, committable := LaterCommittable(s.committable, b.round),
       pending := Prune(s.pending, b.round), blocks := Later(left, b.round), qcs := LaterQcs(s.qcs, b.round))
  }

  lemma IndexesStayOk(blocks: map<Digest, Block>, store: map<Digest, Block>, qcs: map<Round, QC>,
                      committable: map<Digest, Round>, commitQcs: map<Digest, QC>, left: map<Digest, Block>, r: Round)
    requires BlocksOk(blocks, store) && QcsOk(qcs) && CommittableOk(committable, commitQcs)
    requires forall d :: d in left ==> d in blocks && left[d] == blocks[d]
    ensures BlocksOk(Later(left, r), store) && QcsOk(LaterQcs(qcs, r)) && CommittableOk(LaterCommittable(committable, r), commitQcs)
    ensures QcsKept(qcs, LaterQcs(qcs, r), r)
  {}

  lemma RecordCommit(me: Identity, s: State, g: Record, b: Block, qc: QC) returns (g': Record)
    requires Told(me, s, g.c) && g.chain.tip == s.lastCommit && Knows(g, qc)
    requires Commits(qc, Hash(b)) && b.round > s.lastCommit.round && Extends(b, s.lastCommit)
    ensures Continues(g.c, g'.c) && g'.c.books == g.c.books && g'.c.log == s.sent
    ensures g'.c.state == View(s).(lastCommit := b, pending := Prune(s.pending, b.round))
    ensures g'.chain == Segment(b, g.chain.blocks + Path(s.lastCommit, b)) && g'.commitQcs == g.commitQcs
  {
    var c := TakeCommit(g.c, b, qc);
    g' := g.(c := c, chain := Grow(g.chain, b));
  }

  // Only blocks of committed rounds are dropped.
  lemma CommitLosesNone(s: State, b: Block, left: map<Digest, Block>)
    requires Orderly(s) && BlocksOk(s.blocks, s.store) && QcsOk(s.qcs) && b.round > s.lastCommit.round && ParentLower(b)
    requires Gather(s.blocks, s.lastCommit, b) == Gathered(left)
    ensures NoMoreLost(s, Committed(s, b, left, s.output + Path(s.lastCommit, b)))
  {
    GatheredIsChain(s.blocks, s.lastCommit, b);
    var s' := Committed(s, b, left, s.output + Path(s.lastCommit, b));
    forall r | r in s.qcs && r > b.round && !Lost(s, r) ensures !Lost(s', r) {
      var d := s.qcs[r].blkHash;
      assert d in s.blocks ==> s.blocks[d].round == r && d in left;
    }
  }

  lemma CommittedKeeps(me: Identity, s: State, g: Record, b: Block, qc: QC, left: map<Digest, Block>) returns (g': Record)
    requires Valid(me, s, g) && Knows(g, qc) && Commits(qc, Hash(b)) && Stored(s.store, Hash(b)) && b.round > s.lastCommit.round
    requires Gather(s.blocks, s.lastCommit, b) == Gathered(left)
    ensures Valid(me, Committed(s, b, left, s.output + Path(s.lastCommit, b)), g')
    ensures Kept(s, g, Committed(s, b, left, s.output + Path(s.lastCommit, b)), g')
    ensures KeepsOrderIf(ParentLower(b), s, Committed(s, b, left, s.output + Path(s.lastCommit, b)))
  {
    GatheredIsChain(s.blocks, s.lastCommit, b);
    IndexesStayOk(s.blocks, s.store, s.qcs, s.committable, g.commitQcs, left, b.round);
    CommitKeepsOrder(s, b, left);
    g' := RecordCommit(me, s, g, b, qc);
  }

  lemma CommitKeepsOrder(s: State, b: Block, left: map<Digest, Block>)
    requires BlocksOk(s.blocks, s.store) && QcsOk(s.qcs) && b.round > s.lastCommit.round
    requires Gather(s.blocks, s.lastCommit, b) == Gathered(left)
    ensures KeepsOrderIf(ParentLower(b), s, Committed(s, b, left, s.output + Path(s.lastCommit, b)))
  {
    if Orderly(s) && ParentLower(b) {
      CommitKeepsTidy(s.blocks, s.pending, s.store, s.lastCommit, b);
      DescendsTransitive(b, s.lastCommit, GENESIS);
      CommitLosesNone(s, b, left);
    }
  }

  ghost predicate KeepsOrderIf(cond: bool, s: State, s': State) {
    Orderly(s) && cond ==> Orderly(s') && NoMoreLost(s, s')
  }

  // How get_block ends (core.rs:202-228).
  function FetchOutcome(s: State, d: Digest, r: Round): Outcome {
    if r <= s.lastCommit.round then Done
    else if r !in s.qcs then Panicked(NotCertified)
    else if d !in s.blocks && Lookup(s.blocks, s.store, d) != None then Panicked(OnDiskOnly)
    else Done
  }

  // The answer of have_all_ancestors (core.rs:230-282).
  function Ancestry(s: State, b: Block): (Outcome, bool)
    requires Consistent(s.blocks) && Consistent(s.store)
  {
    if b.round == 0 || b.parent == Hash(s.lastCommit) then (Done, true)
    else if b.round <= s.lastCommit.round then (Panicked(NotUncommitted), false)
    else if Hash(b) !in s.committable then (Panicked(NotCommittable), false)
    else match Search(s.blocks, s.store, s.lastCommit, b)
      case Complete => (Done, true)
      case Astray => (Panicked(WrongChain), false)
      case Missing(_) => (Done, false)
  }

  // Whether a commit completes (core.rs:362-399).
  function CommitOutcome(s: State, b: Block): Outcome
    requires Consistent(s.blocks)
  {
    if b.round == 0 then Done
    else if b.round <= s.lastCommit.round then Panicked(NotUncommitted)
    else match Gather(s.blocks, s.lastCommit, b)
      case Gathered(_) => Done
      case Gap => Panicked(MissingAncestor)
      case OffChain => Panicked(WrongChain)
  }

  /**
   For a committable descendant of the last commit through decreasing rounds: the search for
   ancestors never panics, it answers yes exactly when every uncommitted ancestor is in
   memory, and then the commit completes.
   */
  lemma AncestryThenCommit(me: Identity, s: State, g: Record, b: Block)
    requires Valid(me, s, g) && Orderly(s)
    requires DescendsTo(b, s.lastCommit) && b != s.lastCommit && Hash(b) in s.committable
    ensures Ancestry(s, b) == (Done, Held(s.blocks, s.lastCommit, b))
    ensures Ancestry(s, b) == (Done, true) ==> CommitOutcome(s, b) == Done
  {
    DescendantIsLater(b, s.lastCommit);
    SearchFindsChain(s.blocks, s.store, s.lastCommit, b);
    if Held(s.blocks, s.lastCommit, b) {
      HeldIsGathered(s.blocks, s.lastCommit, b);
    }
  }

  /**
   Where parent rounds decrease, neither the search for the ancestors of a committable block nor
   the commit panics, unless the block does not descend from the last commit.
   */
  lemma CommitExplained(me: Identity, s: State, g: Record, b: Block, qc: QC)
    requires Valid(me, s, g) && Orderly(s) && Hash(b) in s.committable && b.round > s.lastCommit.round
    requires Knows(g, qc) && Commits(qc, Hash(b)) && RightRound(qc)
    ensures Explained(Ancestry(s, b).0, s, g)
    ensures Ancestry(s, b) == (Done, true) ==> Explained(CommitOutcome(s, b), s, g)
  {
    if DescendsTo(b, s.lastCommit) {
      AncestryThenCommit(me, s, g, b);
    } else {
      assert ForkedBy(s, qc);
    }
  }

  lemma StaysExplained(out: Outcome, s: State, g: Record, g': Record)
    requires Explained(out, s, g) && g.c.books.certs <= g'.c.books.certs
    ensures Explained(out, s, g')
  {
    if Forked(s, g) {
      var qc :| Knows(g, qc) && ForkedBy(s, qc);
      assert Knows(g', qc);
    }
  }

  // b was committed with all its uncommitted ancestors, oldest first.
  ghost predicate JustCommitted(s: State, b: Block, s': State) {
    s'.lastCommit == b && s'.output == s.output + Path(s.lastCommit, b)
  }

  // The block is held with all its uncommitted ancestors and descends from the last commit
  // through decreasing rounds.
  ghost predicate Ready(s: State, b: Block) {
    && Orderly(s) && Hash(b) in s.blocks && b != s.lastCommit
    && DescendsTo(b, s.lastCommit) && Held(s.blocks, s.lastCommit, b)
  }

  lemma ReadyCommits(me: Identity, s: State, g: Record, b: Block)
    requires Valid(me, s, g) && Hash(b) in s.committable
    ensures Ready(s, b) ==> Ancestry(s, b) == (Done, true) && CommitOutcome(s, b) == Done && b.round > 0
  {
    if Ready(s, b) {
      DescendantIsLater(b, s.lastCommit);
      AncestryThenCommit(me, s, g, b);
    }
  }

  lemma ReadyIsLater(s: State, b: Block)
    ensures Ready(s, b) ==> b.round > s.lastCommit.round
  {
    if Ready(s, b) {
      DescendantIsLater(b, s.lastCommit);
    }
  }

  // The indexes that the walks along chains read agree with the digests.
  predicate Tables(s: State) {
    Consistent(s.blocks) && Consistent(s.store)
  }

  // The search for the ancestors of a block, and its commit if they are all there (core.rs:291-295 and 444-447).
  function CommitStep(s: State, b: Block): (Outcome, State)
    requires Tables(s)
  {
    match Ancestry(s, b)
    case (Done, true) => (CommitOutcome(s, b), AfterCommit(s, b))
    case (Done, false) => (Done, s.(syncRequests := s.syncRequests + {Search(s.blocks, s.store, s.lastCommit, b).d}))
    case (out, _) => (out, s)
  }

  function AfterCommit(s: State, b: Block): State
    requires Tables(s)
  {
    if CommitOutcome(s, b) == Done && b.round > 0 then
      Committed(s, b, Gather(s.blocks, s.lastCommit, b).left, s.output + Path(s.lastCommit, b))
    else s
  }

  // A commit of b forgets exactly what was kept for rounds up to that of b, and the committed blocks.
  ghost predicate Cleared(s: State, b: Block, s': State) {
    && (forall d :: d in s'.committable <==> d in s.committable && s.committable[d] > b.round)
    && (forall d :: d in s'.committable ==> s'.committable[d] == s.committable[d])
    && (forall r :: r in s'.pending <==> r in s.pending && r > b.round)
    && (forall r :: r in s'.qcs <==> r in s.qcs && r > b.round)
    && (forall d :: d in s'.blocks <==> d in s.blocks && s.blocks[d].round > b.round && s.blocks[d] !in Path(s.lastCommit, b))
  }

  lemma CommitClears(s: State, b: Block)
    requires Tables(s) && QcsOk(s.qcs) && CommitOutcome(s, b) == Done && b.round > s.lastCommit.round
    ensures Cleared(s, b, AfterCommit(s, b))
  {
    GatheredLeft(s.blocks, s.lastCommit, b);
    GatheredIsChain(s.blocks, s.lastCommit, b);
    PathOf(s.lastCommit, b);
  }

  lemma CommitAccounted(me: Identity, s: State, g: Record, b: Block, qc: QC, out: Outcome, s': State, g': Record)
    requires Valid(me, s, g) && Hash(b) in s.committable
    requires Knows(g, qc) && Commits(qc, Hash(b)) && g.c.books.certs <= g'.c.books.certs
    requires (out, s') == CommitStep(s, b) && (!out.Panicked? && Orderly(s) ==> NoMoreLost(s, s'))
    ensures b.round > s.lastCommit.round ==> Accounted(s, out, s', g')
    ensures Ready(s, b) ==> out == Done && JustCommitted(s, b, s')
  {
    ReadyCommits(me, s, g, b);
    if Orderly(s) && RightRounds(g') && b.round > s.lastCommit.round {
      assert Knows(g', qc);
      CommitExplained(me, s, g, b, qc);
      if out.Panicked? {
        StaysExplained(out, s, g, g');
      }
    }
  }

  // A certified block that is not in memory is not on disk either.
  lemma NotOnDiskOnly(me: Identity, s: State, g: Record, qc: QC)
    requires Valid(me, s, g) && Orderly(s) && RightRound(qc)
    ensures FetchOutcome(s, qc.blkHash, qc.round) != Panicked(OnDiskOnly)
  {}

  /**
   What every run of the node keeps. The messages it sent obey the voting rules; the blocks
   given to the application are the chain from genesis to the last commit, linked by parents;
   and where parent rounds decrease, their rounds increase.
   */
  lemma ValidNode(me: Identity, s: State, g: Record)
    requires Valid(me, s, g)
    ensures NodeInv(me.name, View(s), s.sent)
    ensures Extends(s.lastCommit, GENESIS) && s.output == Path(GENESIS, s.lastCommit) && Linked(GENESIS, s.output)
    ensures Orderly(s) ==> RoundsIncrease(GENESIS, s.output)
  {
    HistoryIsRun(me, g.c.h);
    RunKeepsInv(me.name, LabelsOf(g.c.h));
    PathIsLinked(GENESIS, s.lastCommit);
  }

  /** From one handler to the next, no round goes back, no accepted block is replaced and no output is withdrawn. */
  lemma ReceivedIsOnward(me: Identity, s: State, g: Record, lower: bool, out: Outcome, s': State, g': Record)
    requires Valid(me, s, g) && Received(me, s, g, lower, out, s', g')
    ensures NoEarlier(View(s), View(s')) && s.sent <= s'.sent && s.output <= s'.output
  {
    GoesOn(g.c, g'.c);
  }

  // ---------------------------------------------------------------- blocks

  // Why a block may be accepted: what came with it. The certificate is checked against the
  // block as in messages.rs:122-136 and 178-202.
  predicate Justification(b: Block, why: Why) {
    match why
    case ByQc(qc) => qc.blkHash == b.parent && qc.round + 1 == b.round
    case ByTc(tc) => tc.round + 1 == b.round && b.parent == SafeHash(tc)
    case BySync => false
  }

  // Block::is_well_formed, messages.rs:58-72
  predicate BlockWellFormed(members: set<Node>, b: Block, signed: bool) {
    b == GENESIS || (b.author in members && signed)
  }

  // store_block, core.rs:336-360, and the removal from sync_requests that precedes it
  function WithBlock(s: State, b: Block): State {
    s.(pending := if b.round in s.pending then s.pending else s.pending[b.round := Hash(b)],
       blocks := s.blocks[Hash(b) := b], store := s.store[Hash(b) := b], syncRequests := s.syncRequests - {Hash(b)})
  }

  // The block may be stored on the strength of what came with it.
  ghost predicate MayAccept(me: Identity, s: State, g: Record, b: Block, why: Why) {
    Enabled(View(s), Accept(b, why)) && Needs(Accept(b, why)) <= g.c.books.certs && ByLeader(me, Accept(b, why))
  }

  lemma BlocksStayOk(blocks: map<Digest, Block>, store: map<Digest, Block>, b: Block)
    requires BlocksOk(blocks, store)
    ensures BlocksOk(blocks[Hash(b) := b], store[Hash(b) := b])
  {}

  lemma BlockKeepsTidy(blocks: map<Digest, Block>, pending: map<Round, Digest>, store: map<Digest, Block>, r: Round, b: Block)
    requires Consistent(blocks) && Tidy(blocks, pending, store, r) && ParentLower(b)
    ensures Tidy(blocks[Hash(b) := b], if b.round in pending then pending else pending[b.round := Hash(b)], store[Hash(b) := b], r)
  {
    assert forall d :: d in blocks && d == Hash(b) ==> blocks[d] == b;
  }

  lemma RecordBlock(me: Identity, s: State, g: Record, b: Block, why: Why) returns (g': Record)
    requires Told(me, s, g.c) && MayAccept(me, s, g, b, why)
    ensures Continues(g.c, g'.c) && Told(me, WithBlock(s, b), g'.c) && g'.c.books == g.c.books
    ensures g'.chain == g.chain && g'.commitQcs == g.commitQcs
  {
    var c := TakeAccept(g.c, b, why);
    g' := g.(c := c);
  }

  // A top-level handler ran from s to s'. If `lower`, what it received has decreasing parent rounds.
  ghost predicate Received(me: Identity, s: State, g: Record, lower: bool, out: Outcome, s': State, g': Record) {
    && Valid(me, s', g') && Continues(g.c, g'.c) && g.c.books.certs <= g'.c.books.certs && s.output <= s'.output
    && s.round <= s'.round && (!out.Panicked? && s.round < s'.round ==> MayEnter(g', s'.round))
    && (lower ==> KeepsOrder(s, out, s') && (NoneLost(s) ==> Sane(s, out, s', g'))) && out != Panicked(NotCertified)
  }

  // Where parent rounds decrease and QCs name blocks of their own round, every panic is explained
  // and every certified block is held or asked for.
  ghost predicate Sane(s: State, out: Outcome, s': State, g': Record) {
    Orderly(s) && RightRounds(g') ==> Explained(out, s', g') && (!out.Panicked? ==> NoneLost(s'))
  }

  lemma ReceivedThen(me: Identity, s: State, g: Record, s1: State, g1: Record, lower: bool, out: Outcome, s2: State, g2: Record)
    requires Received(me, s, g, lower, Done, s1, g1) && Received(me, s1, g1, lower, out, s2, g2)
    ensures Received(me, s, g, lower, out, s2, g2)
  {
    ContinuesTransitive(g.c, g1.c, g2.c);
    if s.round < s1.round == s2.round {
      var c :| c in g1.c.books.certs && Opens(c, s1.round);
      assert c in g2.c.books.certs;
    }
  }

  lemma BlockLosesNone(s: State, b: Block)
    ensures NoMoreLost(s, WithBlock(s, b))
  {}

  lemma WithBlockKeeps(me: Identity, s: State, g: Record, b: Block, why: Why) returns (g': Record)
    requires Valid(me, s, g) && MayAccept(me, s, g, b, why)
    ensures Received(me, s, g, ParentLower(b), Done, WithBlock(s, b), g')
    ensures Orderly(WithBlock(s, b)) ==> ParentLower(b)
  {
    BlocksStayOk(s.blocks, s.store, b);
    BlockLosesNone(s, b);
    g' := RecordBlock(me, s, g, b, why);
    if Orderly(s) && ParentLower(b) {
      BlockKeepsTidy(s.blocks, s.pending, s.store, s.lastCommit.round, b);
    }
    assert Hash(b) in WithBlock(s, b).blocks;
  }

  datatype Input =
    | NormalProposal(block: Block, qc: QC, signed: bool, payloadOk: bool)
    | FallbackProposal(block: Block, tc: TC, signed: bool, tcSigned: bool, payloadOk: bool)
    | Certificate(qc: QC)
    | SyncResponse(block: Block)
    | TimeoutCertificate(tc: TC, signed: bool)
    | Expiry(timeout: Timeout, signed: bool)
    | VoteCast(vote: Vote, signed: bool)
    | Loopback(block: Block)
    | Timer

  // The certificates that a message carries.
  function CertsIn(i: Input): seq<Cert> {
    match i
    case NormalProposal(_, qc, _, _) => [OfQc(qc)]
    case FallbackProposal(_, tc, _, _, _) => [OfTc(tc), OfQc(tc.highQc), OfWqc(tc.highWqc)]
    case Certificate(qc) => [OfQc(qc)]
    case TimeoutCertificate(tc, _) => [OfTc(tc), OfQc(tc.highQc), OfWqc(tc.highWqc)]
    case Expiry(t, _) => [OfQc(t.highQc), OfWqc(t.highWqc)]
    case _ => []
  }

  predicate Lower(i: Input) {
    match i
    case NormalProposal(b, _, _, _) => ParentLower(b)
    case FallbackProposal(b, _, _, _, _) => ParentLower(b)
    case SyncResponse(b) => ParentLower(b)
    case _ => true
  }

  predicate AllLower(inputs: seq<Input>) {
    forall k :: 0 <= k < |inputs| ==> Lower(inputs[k])
  }

  // ---------------------------------------------------------------- the effect of a QC

  // core.rs:284-301
  function LateCommit(s: State, b: Block): (Outcome, State)
    requires Tables(s)
  {
    if b.round <= s.lastCommit.round then (Panicked(NotUncommitted), s)
    else if Hash(b) in s.committable then CommitStep(s, b)
    else (Done, s)
  }

  // core.rs:439-460
  function Schedule(s: State, d: Digest, r: Round): (Outcome, State)
    requires Tables(s)
  {
    var s1 := s.(committable := s.committable[d := r]);
    if d in s1.blocks then CommitStep(s1, s1.blocks[d]) else (Done, s1)
  }

  // The makers of votes of rounds up to r are gone, and the others are as they were (aggregator.rs:68-73).
  ghost predicate VotesDropped(s: State, r: Round, s': State) {
    && s' == s.(votesMakers := s'.votesMakers, commitMakers := s'.commitMakers)
    && forall v :: MakerFor(s', v) == if v.round > r then MakerFor(s, v) else EMPTY_MAKER
  }

  lemma NewerMakers(s: State, r: Round)
    ensures VotesDropped(s, r, s.(votesMakers := Newer(s.votesMakers, r), commitMakers := Newer(s.commitMakers, r)))
  {}

  // core.rs:695-706
  ghost predicate CommitQcEffect(s: State, qc: QC, out: Outcome, s': State)
    requires Tables(s)
  {
    if qc.blkHash in s.committable then s' == s && out == Done
    else
      var (o, s1) := Schedule(s, qc.blkHash, qc.round);
      out == o && if o == Done then VotesDropped(s1, qc.round, s') else s' == s1
  }

  // core.rs:709-720
  ghost predicate QcEffect(me: Identity, s: State, qc: QC, out: Outcome, s': State)
    requires Tables(s)
  {
    if qc.round <= s.lastCommit.round then s' == s && out == Done
    else if qc.kind == Commit || qc.fastQuorum then CommitQcEffect(s, qc, out, s')
    else if qc.round in s.qcs then s' == s && out == Done
    else out == Done ==> Adopted(me, s, qc, s')
  }

  /** A new committing QC for a block that is ready commits it. */
  lemma CommitQcCommits(me: Identity, s: State, g: Record, qc: QC, out: Outcome, s': State)
    requires Valid(me, s, g) && QcEffect(me, s, qc, out, s')
    requires (qc.kind == Commit || qc.fastQuorum) && qc.round > s.lastCommit.round && qc.blkHash !in s.committable && Knows(g, qc)
    requires qc.blkHash.Hash? && Ready(s, qc.blkHash.block)
    ensures out == Done && JustCommitted(s, qc.blkHash.block, s')
  {
    MarkedIsValid(me, s, g, qc);
    ReadyCommits(me, s.(committable := s.committable[qc.blkHash := qc.round]), g.(commitQcs := g.commitQcs[qc.blkHash := qc]), qc.blkHash.block);
  }

  lemma MarkedIsValid(me: Identity, s: State, g: Record, qc: QC)
    requires Valid(me, s, g) && Knows(g, qc) && Commits(qc, qc.blkHash)
    ensures Valid(me, s.(committable := s.committable[qc.blkHash := qc.round]), g.(commitQcs := g.commitQcs[qc.blkHash := qc]))
  {}

  /** If there is no commit, the block of a new committing QC is committable from then on. */
  lemma CommitQcMarks(me: Identity, s: State, qc: QC, s': State)
    requires Tables(s) && QcEffect(me, s, qc, Done, s')
    requires (qc.kind == Commit || qc.fastQuorum) && qc.round > s.lastCommit.round && qc.blkHash !in s.committable
    ensures s'.lastCommit == s.lastCommit ==> qc.blkHash in s'.committable && s'.committable[qc.blkHash] == qc.round
  {
    if qc.blkHash in s.blocks {
      StepMarks(s.(committable := s.committable[qc.blkHash := qc.round]), s.blocks[qc.blkHash], qc.blkHash);
    }
  }

  // What is committable stays so unless there is a commit.
  lemma StepMarks(s: State, b: Block, d: Digest)
    requires Tables(s) && d in s.committable
    ensures var (out, s') := CommitStep(s, b);
            out == Done && s'.lastCommit == s.lastCommit ==> d in s'.committable && s'.committable[d] == s.committable[d]
  {}

  // ---------------------------------------------------------------- the effect of a vote

  // What a vote does, by the answer of its maker: nothing more, an error, or a QC to follow (core.rs:552-558).
  ghost predicate Answered(me: Identity, s: State, v: Vote, signed: bool, out: Outcome, s': State)
    requires Tables(s)
  {
    var (m, answer) := Append(me.p, MakerFor(s, v), v, signed, v.kind == Normal);
    match answer
    case Err => out == Failed && s' == WithMaker(s, v, m)
    case Ok(None) => out == Done && s' == WithMaker(s, v, m)
    case Ok(Some(qc)) => QcEffect(me, WithMaker(s, v, m), qc, out, s')
  }

  // core.rs:547-568
  ghost predicate VoteEffect(me: Identity, s: State, v: Vote, signed: bool, out: Outcome, s': State)
    requires Tables(s)
  {
    if v.round <= s.lastCommit.round then out == Done && s' == s
    else if v.author !in me.members then out == Panicked(UnknownAuthor) && s' == s
    else Answered(me, s, v, signed, out, s')
  }

  // A vote that is cast is counted by the node itself, whose errors are dropped (core.rs:496-513).
  function WithVote(s: State, v: Vote): State {
    s.(lastVote := if v.kind == Normal then v else s.lastVote, sent := s.sent + [V(v)])
  }

  ghost predicate OwnVoteEffect(me: Identity, s: State, v: Vote, out: Outcome, s': State)
    requires Tables(s)
  {
    || (out != Failed && VoteEffect(me, WithVote(s, v), v, true, out, s'))
    || (out == Done && VoteEffect(me, WithVote(s, v), v, true, Failed, s'))
  }

  // core.rs:466-479
  ghost predicate TryVoteEffect(me: Identity, s: State, out: Outcome, s': State)
    requires Tables(s)
  {
    if s.round !in s.pending then out == Done && s' == s
    else if s.pending[s.round] !in s.blocks then out == Panicked(MissingPending) && s' == s
    else if MayVote(s) then OwnVoteEffect(me, s, Vote(me.name, s.pending[s.round], Normal, s.round), out, s')
    else out == Done && s' == s
  }

  // ---------------------------------------------------------------- the effect of timeouts and TCs

  // Nothing is taken back.
  ghost predicate Onward(s: State, s': State) {
    && s.round <= s'.round && s.locked.round <= s'.locked.round && s.highWqc.round <= s'.highWqc.round
    && s.lastTimeout <= s'.lastTimeout && s.lastCommit.round <= s'.lastCommit.round
    && s.sent <= s'.sent && s.triggers <= s'.triggers && s.output <= s'.output
  }

  lemma KeptIsOnward(me: Identity, s: State, g: Record, s': State, g': Record)
    requires Valid(me, s, g) && Valid(me, s', g') && Kept(s, g, s', g')
    ensures Onward(s, s')
  {
    GoesOn(g.c, g'.c);
  }

  function OwnTimeout(me: Identity, s: State, r: Round): Timeout {
    Timeout(s.lastVote, CoversOf(s.lastVote), s.locked, s.highWqc, r, me.name)
  }

  // Within a timer period one Timeout is sent for a round, and the node counts it itself (core.rs:515-536).
  ghost predicate SendTimeoutEffect(me: Identity, s: State, r: Round, out: Outcome, s': State) {
    if r in s.timeoutSyncs then s' == s && out == Done
    else
      && r in s'.timeoutSyncs && s'.lastTimeout >= r && T(OwnTimeout(me, s, r)) in s'.sent && Onward(s, s')
      && (out == Done && r >= s.round && r > s'.locked.round ==> me.name in TcMakerFor(s', r).used)
  }

  // A Timeout was sent in state s1 and has been handled.
  lemma SentThen(me: Identity, s: State, g: Record, s1: State, g1: Record, r: Round, out: Outcome, s2: State, g2: Record)
    requires Valid(me, s, g) && Ran(me, s, g, Done, s1, g1) && Ran(me, s1, g1, out, s2, g2) && r !in s.timeoutSyncs
    requires r in s1.timeoutSyncs && r <= s1.lastTimeout && T(OwnTimeout(me, s, r)) in s1.sent && s1.round == s.round
    requires out == Done && r >= s1.round && r > s2.locked.round ==> me.name in TcMakerFor(s2, r).used
    ensures Ran(me, s, g, out, s2, g2) && SendTimeoutEffect(me, s, r, out, s2)
  {
    RanThen(me, s, g, s1, g1, out, s2, g2);
    KeptIsOnward(me, s1, g1, s2, g2);
    KeptIsOnward(me, s, g, s2, g2);
  }

  // What follows a TC once its QC has been handled in state s (core.rs:734-753).
  ghost predicate TcFollowed(me: Identity, s: State, tc: TC, signed: bool, out: Outcome, s': State) {
    if !TcWellFormed(me.p, me.members, tc, signed) then
      out == Failed && s' == s.(highWqc := if tc.highWqc.round > s.highWqc.round then tc.highWqc else s.highWqc)
    else
      && Onward(s, s') && s'.highWqc.round >= tc.highWqc.round && tc.round in s'.timeoutSyncs && s'.lastTimeout >= tc.round
      && (me.name == me.leader(tc.round + 1) ==> OnTc(tc) in s'.triggers)
      && (out == Done ==> s'.round > tc.round)
  }

  // core.rs:729-756
  ghost predicate TcEffect(me: Identity, s: State, tc: TC, signed: bool, mid: State, out: Outcome, s': State)
    requires Tables(s)
  {
    if tc.round < s.round then s' == s && out == Done
    else
      || (out.Panicked? && QcEffect(me, s, tc.highQc, out, s'))
      || (QcEffect(me, s, tc.highQc, Done, mid) && TcFollowed(me, mid, tc, signed, out, s'))
  }

  // Timeout::is_well_formed, messages.rs:559-569
  predicate TimeoutWellFormed(me: Identity, qcOk: QC -> bool, t: Timeout, signed: bool) {
    t.author in me.members && signed && (SameQc(t.highQc, GENESIS_QC) || qcOk(t.highQc))
  }

  // What Aggregator::add_timeout does (aggregator.rs:58-66 and 286-343).
  ghost predicate TimeoutTaken(me: Identity, qcOk: QC -> bool, s: State, t: Timeout, signed: bool, built: Option<WQC>,
                               out: Outcome, weight: nat, maybe: Option<TC>, s': State) {
    var m := TcMakerFor(s, t.round);
    if t.author in m.used then s' == s && out == Done && maybe == None && weight == m.weight
    else if !(t.author in me.members && signed && (SameQc(t.highQc, GENESIS_QC) || qcOk(t.highQc))) then s' == s && out == Failed && maybe == None
    else
      && WqcChecked(me.p, me.members, Count(m, t), out, built)
      && if out == Done then TimeoutAdded(me.p, s, t, built, s', weight, maybe) else s' == s && maybe == None
  }

  // From f + 1 Timeouts on the node sends one too, and a TC is followed (core.rs:589-601).
  ghost predicate TimeoutsAnswered(me: Identity, s: State, r: Round, weight: nat, maybe: Option<TC>, out: Outcome, s': State) {
    if weight < me.p.Validity() then s' == s && out == Done
    else if maybe == None then SendTimeoutEffect(me, s, r, out, s')
    else Onward(s, s') && r in s'.timeoutSyncs && (out == Done ==> s'.round > r)
  }

  // A Timeout is counted, and the answer ends in state s2.
  lemma CollectedThen(me: Identity, qcOk: QC -> bool, s: State, t: Timeout, signed: bool, built: Option<WQC>, weight: nat, maybe: Option<TC>,
                      s1: State, out: Outcome, s2: State)
    requires TimeoutTaken(me, qcOk, s, t, signed, built, Done, weight, maybe, s1)
    requires TimeoutsAnswered(me, s1, t.round, weight, maybe, out, s2)
    ensures Collected(me, qcOk, s, t, signed, built, out, s2)
  {
    assert me.p.Validity() <= me.p.ViewChange() by { QuorumArithmetic(me.p); }
  }

  // A Timeout is counted in state s (core.rs:588-601). From f + 1 on the node sends one too, and a TC that
  // results from it is followed.
  ghost predicate Collected(me: Identity, qcOk: QC -> bool, s: State, t: Timeout, signed: bool, built: Option<WQC>, out: Outcome, s': State) {
    var m := TcMakerFor(s, t.round);
    if t.author in m.used then
      if m.weight >= me.p.Validity() then SendTimeoutEffect(me, s, t.round, out, s') else s' == s && out == Done
    else if !(t.author in me.members && signed && (SameQc(t.highQc, GENESIS_QC) || qcOk(t.highQc))) then s' == s && out == Failed
    else
      || (out == Panicked(UnknownAuthor) && s' == s && WqcChecked(me.p, me.members, Count(m, t), out, built))
      || (WqcChecked(me.p, me.members, Count(m, t), Done, built) && CountedEffect(me, WithTimeout(me.p, s, t, built), t.round, m.weight + 1, out, s'))
  }

  // What follows when a new sender's Timeout makes the weight of its round n.
  ghost predicate CountedEffect(me: Identity, s: State, r: Round, n: nat, out: Outcome, s': State) {
    if n < me.p.Validity() then s' == s && out == Done
    else if n < me.p.ViewChange() then SendTimeoutEffect(me, s, r, out, s')
    else Onward(s, s') && r in s'.timeoutSyncs && (out == Done ==> s'.round > r)
  }

  function WithTimeout(p: Params, s: State, t: Timeout, built: Option<WQC>): State {
    s.(timeoutMakers := s.timeoutMakers[t.round := AfterTimeout(p, s.timeoutMakers, t, built)])
  }

  // core.rs:571-623
  ghost predicate TimeoutEffect(me: Identity, qcOk: QC -> bool, s: State, t: Timeout, signed: bool, mid: State, built: Option<WQC>, out: Outcome, s': State)
    requires Tables(s)
  {
    if t.round <= s.locked.round then s' == s && out == if t.author in me.members then Done else Failed
    else if t.round < s.round then SendTimeoutEffect(me, s, s.round - 1, out, s')
    else
      || (out.Panicked? && QcEffect(me, s, t.highQc, out, s'))
      || (QcEffect(me, s, t.highQc, Done, mid) && Collected(me, qcOk, mid, t, signed, built, out, s'))
  }

  // ---------------------------------------------------------------- the effect of blocks

  // core.rs:762-819: a block is accepted if it was requested by its digest, or if it is the leader's
  // first proposal for a round without a QC. Then it is stored, committed if that was due, and voted for.
  ghost predicate BlockEffect(me: Identity, s: State, b: Block, payloadOk: bool, out: Outcome, s': State)
    requires Tables(s)
  {
    if b.round <= s.lastCommit.round then s' == s && out == Done
    else if Hash(b) in s.syncRequests then StoredEffect(me, s, b, out, s')
    else if b.round in s.qcs then
      s' == s && out == if s.qcs[b.round].blkHash == Hash(b) && Hash(b) !in s.blocks then Panicked(MissingCertified) else Done
    else if b.author != me.leader(b.round) || !payloadOk then s' == s && out == Failed
    else if b.round in s.pending then s' == s && out == Done
    else StoredEffect(me, s, b, out, s')
  }

  ghost predicate StoredEffect(me: Identity, s: State, b: Block, out: Outcome, s': State)
    requires Tables(s) && b.round > s.lastCommit.round
  {
    var (o, s1) := LateCommit(WithBlock(s, b), b);
    if o != Done then out == o && s' == s1 else Tables(s1) && TryVoteEffect(me, s1, out, s')
  }

  // core.rs:821-831
  ghost predicate NormalEffect(me: Identity, s: State, b: Block, qc: QC, signed: bool, payloadOk: bool, mid: State, out: Outcome, s': State)
    requires Tables(s)
  {
    || (out.Panicked? && QcEffect(me, s, qc, out, s'))
    || (&& QcEffect(me, s, qc, Done, mid) && Tables(mid)
        && if (b == GENESIS || (b.author in me.members && signed)) && b.parent == qc.blkHash && b.round == qc.round + 1
           then BlockEffect(me, mid, b, payloadOk, out, s')
           else out == Failed && s' == mid)
  }

  // core.rs:833-848; `first` is the state after the TC's own QC, `mid` that after the TC
  ghost predicate FallbackEffect(me: Identity, s: State, b: Block, tc: TC, signed: bool, tcSigned: bool, payloadOk: bool, first: State, mid: State, out: Outcome, s': State)
    requires Tables(s)
  {
    || (out != Done && TcEffect(me, s, tc, tcSigned, first, out, s'))
    || (&& TcEffect(me, s, tc, tcSigned, first, Done, mid) && Tables(mid)
        && if (b == GENESIS || (b.author in me.members && signed)) && b.parent == SafeHash(tc) && b.round == tc.round + 1
           then BlockEffect(me, mid, b, payloadOk, out, s')
           else out == Failed && s' == mid)
  }

  // core.rs:857-883
  ghost predicate SyncEffect(s: State, b: Block, out: Outcome, s': State)
    requires Tables(s)
  {
    if Hash(b) !in s.syncRequests then s' == s && out == Done
    else if b.round <= s.lastCommit.round then s' == s.(syncRequests := s.syncRequests - {Hash(b)}) && out == Done
    else (out, s') == LateCommit(WithBlock(s, b), b)
  }

  // core.rs:885-900, for blocks that the node gave to the synchronizer, which it had stored
  ghost predicate LoopbackEffect(s: State, b: Block, out: Outcome, s': State)
    requires Tables(s)
  {
    if Hash(b) in s.store && b.round > s.lastCommit.round then (out, s') == LateCommit(s, b) else s' == s && out == Done
  }

  // core.rs:902-920 and 935-940: a recent QC that is not yet known for its kind must be well formed.
  ghost predicate CertificateEffect(me: Identity, qcOk: QC -> bool, s: State, qc: QC, out: Outcome, s': State)
    requires Tables(s)
  {
    if qc.round > s.lastCommit.round && (if qc.kind == Commit then qc.blkHash !in s.committable else qc.round !in s.qcs) && !qcOk(qc)
    then out == Failed && s' == s
    else QcEffect(me, s, qc, out, s')
  }

  // ---------------------------------------------------------------- the effect of an input

  // One turn of the main loop, core.rs:930-951
  ghost predicate Effect(me: Identity, qcOk: QC -> bool, s: State, i: Input, out: Outcome, s': State) {
    Tables(s) &&
    match i
    case NormalProposal(b, qc, signed, payloadOk) => exists mid :: NormalEffect(me, s, b, qc, signed, payloadOk, mid, out, s')
    case FallbackProposal(b, tc, signed, tcSigned, payloadOk) =>
      exists first, mid :: FallbackEffect(me, s, b, tc, signed, tcSigned, payloadOk, first, mid, out, s')
    case Certificate(qc) => CertificateEffect(me, qcOk, s, qc, out, s')
    case SyncResponse(b) => SyncEffect(s, b, out, s')
    case TimeoutCertificate(tc, signed) => exists mid :: TcEffect(me, s, tc, signed, mid, out, s')
    case Expiry(t, signed) => exists mid, built :: TimeoutEffect(me, qcOk, s, t, signed, mid, built, out, s')
    case VoteCast(v, signed) => VoteEffect(me, s, v, signed, out, s')
    case Loopback(b) => LoopbackEffect(s, b, out, s')
    case Timer => SendTimeoutEffect(me, s.(timeoutSyncs := {}), s.round, out, s')
  }

  ghost function EffectOf(me: Identity, qcOk: QC -> bool): (State, Input, Outcome, State) -> bool {
    (s, i, out, s') => Effect(me, qcOk, s, i, out, s')
  }

  // The inputs were handled one after the other by these steps, up to the first panic.
  ghost predicate Traced(step: (State, Input, Outcome, State) -> bool, inputs: seq<Input>, trace: seq<State>, outs: seq<Outcome>) {
    && |trace| == |outs| + 1 && |outs| <= |inputs|
    && (forall k :: 0 <= k < |outs| ==> step(trace[k], inputs[k], outs[k], trace[k + 1]))
    && (forall k :: 0 <= k < |outs| - 1 ==> !outs[k].Panicked?)
    && (|outs| < |inputs| ==> outs != [] && outs[|outs| - 1].Panicked?)
  }

  // The first k inputs were handled without a panic and led to state s.
  ghost predicate TracedTo(step: (State, Input, Outcome, State) -> bool, inputs: seq<Input>, k: nat, trace: seq<State>, outs: seq<Outcome>, s: State)
    requires k <= |inputs|
  {
    && |outs| == k && Traced(step, inputs[..k], trace, outs) && trace[k] == s
    && (outs != [] ==> !outs[k - 1].Panicked?)
  }

  lemma TracedFurther(step: (State, Input, Outcome, State) -> bool, inputs: seq<Input>, k: nat, trace: seq<State>, outs: seq<Outcome>, s: State, out: Outcome, s': State)
    requires k < |inputs| && TracedTo(step, inputs, k, trace, outs, s) && step(s, inputs[k], out, s')
    ensures if out.Panicked? then Traced(step, inputs, trace + [s'], outs + [out])
            else TracedTo(step, inputs, k + 1, trace + [s'], outs + [out], s')
  {
    var trace', outs' := trace + [s'], outs + [out];
    forall j | 0 <= j <= k ensures step(trace'[j], inputs[j], outs'[j], trace'[j + 1]) {
      if j < k {
        assert inputs[..k][j] == inputs[j];
      }
    }
    var inputs' := inputs[..k + 1];
    assert forall j :: 0 <= j <= k ==> inputs'[j] == inputs[j];
  }

  // Where a run of the main loop stands before input k, ...
  ghost predicate Sofar(me: Identity, step: (State, Input, Outcome, State) -> bool, inputs: seq<Input>, k: nat, s0: State, g0: Record,
                        trace: seq<State>, outs: seq<Outcome>, s: State, g: Record)
    requires k <= |inputs|
  {
    Received(me, s0, g0, AllLower(inputs), Done, s, g) && TracedTo(step, inputs, k, trace, outs, s) && trace[0] == Booted(me, s0)
  }

  // ... and at its end.
  ghost predicate Finished(me: Identity, step: (State, Input, Outcome, State) -> bool, inputs: seq<Input>, s0: State, g0: Record,
                           trace: seq<State>, outs: seq<Outcome>, out: Outcome, s: State, g: Record) {
    && Received(me, s0, g0, AllLower(inputs), out, s, g)
    && Traced(step, inputs, trace, outs) && trace[0] == Booted(me, s0) && trace[|trace| - 1] == s
    && out == if outs != [] && outs[|outs| - 1].Panicked? then outs[|outs| - 1] else Done
  }

  lemma SofarThen(me: Identity, step: (State, Input, Outcome, State) -> bool, inputs: seq<Input>, k: nat, s0: State, g0: Record,
                  trace: seq<State>, outs: seq<Outcome>, s1: State, g1: Record, out: Outcome, s2: State, g2: Record)
    requires k < |inputs| && Sofar(me, step, inputs, k, s0, g0, trace, outs, s1, g1)
    requires Received(me, s1, g1, Lower(inputs[k]), out, s2, g2) && step(s1, inputs[k], out, s2)
    ensures if out.Panicked? then Finished(me, step, inputs, s0, g0, trace + [s2], outs + [out], out, s2, g2)
            else Sofar(me, step, inputs, k + 1, s0, g0, trace + [s2], outs + [out], s2, g2)
  {
    ReceivedThen(me, s0, g0, s1, g1, AllLower(inputs), out, s2, g2);
    TracedFurther(step, inputs, k, trace, outs, s1, out, s2);
  }

  lemma SofarAll(me: Identity, step: (State, Input, Outcome, State) -> bool, inputs: seq<Input>, s0: State, g0: Record,
                 trace: seq<State>, outs: seq<Outcome>, s: State, g: Record)
    requires Sofar(me, step, inputs, |inputs|, s0, g0, trace, outs, s, g)
    ensures Finished(me, step, inputs, s0, g0, trace, outs, Done, s, g)
  {
    assert inputs[..|inputs|] == inputs;
  }
}
