/**
 The steps of one Hydrangea node, as far as they matter for safety: what a node may
 accept, vote for, lock, time out on and commit, and what each step sends. `Core` (the
 imperative node) is proved to be a sequence of these steps; `Network` runs many nodes.
 */
module Steps {
  import opened Types

  datatype Msg = V(vote: Vote) | T(timeout: Timeout)

  // Why a block may be accepted for its round.
  datatype Why =
    | ByQc(qc: QC)    // normal proposal, core.rs:821-831
    | ByTc(tc: TC)    // fallback proposal, core.rs:833-848
    | BySync          // requested by digest, core.rs:770-773 and 857-883

  datatype Label =
    | Accept(block: Block, why: Why)   // store_block, core.rs:336-360
    | Prepare(block: Block)            // try_vote, core.rs:466-479
    | Lock(qc: QC)                     // handle_prepare_qc, core.rs:674-676
    | CommitVote                       // handle_prepare_qc, core.rs:680-684
    | SendTimeout(r: Round)            // send_timeout, core.rs:515-536
    | Advance(r: Round)                // advance_to_round, core.rs:481-494
    | RaiseWqc(wqc: WQC)               // handle_wqc, core.rs:722-727
    | CommitTo(block: Block, qc: QC)   // commit, core.rs:425-433
    | Request(d: Digest, qc: QC)       // sync_requests.insert, core.rs:222 and 278
    | Forget(d: Digest)                // sync_requests.remove, core.rs:865

  datatype NodeState = NodeState(
    round: Round,
    locked: QC,
    highWqc: WQC,
    lastTimeout: Round,
    lastVote: Vote,
    lastCommit: Block,
    pending: map<Round, Digest>,
    requested: set<Digest>)

  // core.rs:105-157
  function Init(name: Node): NodeState {
    NodeState(1, GENESIS_QC, GENESIS_WQC, 0, Vote(name, Hash(GENESIS), Normal, 0), GENESIS,
              map[0 := Hash(GENESIS)], {})
  }

  predicate Enabled(s: NodeState, l: Label) {
    match l
    case Accept(b, why) =>
      && b.round > s.lastCommit.round
      && (match why
          case ByQc(qc) => b.round !in s.pending && qc.blkHash == b.parent && qc.round + 1 == b.round
          case ByTc(tc) => b.round !in s.pending && tc.round + 1 == b.round && b.parent == SafeHash(tc)
          case BySync => Hash(b) in s.requested)
    case Prepare(b) =>
      && s.round in s.pending && s.pending[s.round] == Hash(b)
      && b.round == s.round && s.lastTimeout < b.round
    case Lock(qc) => s.locked.round < qc.round && qc.kind == Normal && !qc.fastQuorum
    case CommitVote => s.lastTimeout < s.locked.round
    case SendTimeout(_) => true
    case Advance(r) => s.round < r
    case RaiseWqc(wqc) => s.highWqc.round < wqc.round
    case CommitTo(b, qc) =>
      && b.round > s.lastCommit.round
      && qc.blkHash == Hash(b) && (qc.kind == Commit || qc.fastQuorum)
    case Request(d, qc) =>
      d == qc.blkHash || (qc.blkHash.Hash? && AncestorDigest(qc.blkHash.block, d))
    case Forget(_) => true
  }

  function Apply(name: Node, s: NodeState, l: Label): NodeState {
    match l
    case Accept(b, why) =>
      s.(pending := if b.round in s.pending then s.pending else s.pending[b.round := Hash(b)],
         requested := s.requested - {Hash(b)})
    case Prepare(b) => s.(lastVote := Vote(name, Hash(b), Normal, b.round))
    case Lock(qc) => s.(locked := qc)
    case CommitVote => s
    case SendTimeout(r) => s.(lastTimeout := if r > s.lastTimeout then r else s.lastTimeout)
    case Advance(r) => s.(round := r)
    case RaiseWqc(wqc) => s.(highWqc := wqc)
    case CommitTo(b, _) => s.(lastCommit := b, pending := Prune(s.pending, b.round))
    case Request(d, _) => s.(requested := s.requested + {d})
    case Forget(d) => s.(requested := s.requested - {d})
  }

  // Entries for rounds up to r are dropped (core.rs:429).
  function Prune(pending: map<Round, Digest>, r: Round): map<Round, Digest> {
    map x | x in pending && x > r :: pending[x]
  }

  function Sent(name: Node, s: NodeState, l: Label): seq<Msg> {
    match l
    case Prepare(b) => [V(Vote(name, Hash(b), Normal, b.round))]
    case CommitVote => [V(Vote(name, s.locked.blkHash, Commit, s.locked.round))]
    case SendTimeout(r) => [T(Timeout(s.lastVote, CoversOf(s.lastVote), s.locked, s.highWqc, r, name))]
    case _ => []
  }

  // ---------------------------------------------------------------- runs of one node

  function Exec(name: Node, labels: seq<Label>): NodeState {
    if labels == [] then Init(name)
    else Apply(name, Exec(name, labels[..|labels| - 1]), labels[|labels| - 1])
  }

  predicate Legal(name: Node, labels: seq<Label>) {
    labels == [] ||
    (Legal(name, labels[..|labels| - 1]) && Enabled(Exec(name, labels[..|labels| - 1]), labels[|labels| - 1]))
  }

  function Log(name: Node, labels: seq<Label>): seq<Msg> {
    if labels == [] then []
    else Log(name, labels[..|labels| - 1])
         + Sent(name, Exec(name, labels[..|labels| - 1]), labels[|labels| - 1])
  }

  // Nothing a node remembers about rounds ever goes back, and the block accepted for a round
  // is never replaced: it stays until a commit passes it, and no other comes after that.
  ghost predicate NoEarlier(s: NodeState, s': NodeState) {
    && s.round <= s'.round
    && s.locked.round <= s'.locked.round
    && s.highWqc.round <= s'.highWqc.round
    && s.lastTimeout <= s'.lastTimeout
    && s.lastCommit.round <= s'.lastCommit.round
    && (forall r :: r in s.pending && r > s'.lastCommit.round ==> r in s'.pending && s'.pending[r] == s.pending[r])
    && (forall r :: r in s'.pending && r <= s.lastCommit.round ==> r in s.pending && s'.pending[r] == s.pending[r])
  }

  lemma StepNoEarlier(name: Node, s: NodeState, l: Label)
    requires Enabled(s, l)
    ensures NoEarlier(s, Apply(name, s, l))
  {}

  /** Over every run of a node, its rounds never decrease. */
  lemma {:induction false} RunNoEarlier(name: Node, labels: seq<Label>, k: nat)
    requires Legal(name, labels) && k <= |labels|
    ensures NoEarlier(Exec(name, labels[..k]), Exec(name, labels))
    decreases |labels|
  {
    if k == |labels| {
      assert labels[..k] == labels;
    } else {
      var rest := labels[..|labels| - 1];
      RunNoEarlier(name, rest, k);
      assert rest[..k] == labels[..k];
      StepNoEarlier(name, Exec(name, rest), labels[|labels| - 1]);
    }
  }

  // What one node's messages and state have in common at any time of a run.
  ghost predicate NodeInv(name: Node, s: NodeState, log: seq<Msg>) {
    && 1 <= s.round
    && s.lastVote.round <= s.round
    && (s.locked.round > 0 ==> s.locked.kind == Normal && !s.locked.fastQuorum)
    && (forall r :: r in s.pending ==> r == 0 || r > s.lastCommit.round)
    && (forall v :: V(v) in log && v.author == name ==> VoteInv(s, v))
    && (forall t :: T(t) in log && t.author == name ==> t.round <= s.lastTimeout)
    && SameRoundSameBlock(name, log)
    && VotesPrecedeTimeouts(name, log)
    && TimeoutsReportVotes(name, log)
  }

  ghost predicate VoteInv(s: NodeState, v: Vote) {
    match v.kind
    case Normal =>
      && v.blkHash.Hash? && v.blkHash.block.round == v.round
      && 1 <= v.round <= s.lastVote.round
      && (v.round > s.lastCommit.round ==> v.round in s.pending && s.pending[v.round] == v.blkHash)
    case Commit => 1 <= v.round <= s.locked.round
  }

  ghost predicate SameRoundSameBlock(name: Node, log: seq<Msg>) {
    forall v, v' :: V(v) in log && V(v') in log && v.author == name && v'.author == name
                    && v.kind == Normal && v'.kind == Normal && v.round == v'.round
                    ==> v.blkHash == v'.blkHash
  }

  ghost predicate VotesPrecedeTimeouts(name: Node, log: seq<Msg>) {
    forall j, k :: 0 <= j < |log| && 0 <= k < |log| && log[j].V? && log[k].T?
                   && log[j].vote.author == name && log[k].timeout.author == name
                   && log[j].vote.round <= log[k].timeout.round
                   ==> j < k
  }

  ghost predicate TimeoutsReportVotes(name: Node, log: seq<Msg>) {
    forall v, t :: V(v) in log && T(t) in log && v.author == name && t.author == name && v.round <= t.round
                   ==> v.round <= (if v.kind == Commit then t.highQc.round else t.highVote.round)
  }

  // Messages of other authors do not disturb the invariant.
  lemma OthersKeepInv(name: Node, s: NodeState, log: seq<Msg>, m: Msg)
    requires NodeInv(name, s, log)
    requires (if m.V? then m.vote.author else m.timeout.author) != name
    ensures NodeInv(name, s, log + [m])
  {
    var log' := log + [m];
    assert forall v :: V(v) in log' && v.author == name ==> V(v) in log;
    assert forall t :: T(t) in log' && t.author == name ==> T(t) in log;
  }

  lemma QuietKeepsInv(name: Node, s: NodeState, log: seq<Msg>, l: Label)
    requires NodeInv(name, s, log) && Enabled(s, l) && Sent(name, s, l) == []
    ensures NodeInv(name, Apply(name, s, l), log)
  {}

  lemma PrepareKeepsInv(name: Node, s: NodeState, log: seq<Msg>, l: Label)
    requires NodeInv(name, s, log) && Enabled(s, l) && l.Prepare?
    ensures NodeInv(name, Apply(name, s, l), log + Sent(name, s, l))
  {
    var m := Sent(name, s, l)[0];
    assert Sent(name, s, l) == [m];
    assert forall x :: x in log + [m] <==> x in log || x == m;
  }

  lemma CommitVoteKeepsInv(name: Node, s: NodeState, log: seq<Msg>, l: Label)
    requires NodeInv(name, s, log) && Enabled(s, l) && l.CommitVote?
    ensures NodeInv(name, Apply(name, s, l), log + Sent(name, s, l))
  {
    var m := Sent(name, s, l)[0];
    assert Sent(name, s, l) == [m];
    assert forall x :: x in log + [m] <==> x in log || x == m;
  }

  lemma TimeoutKeepsInv(name: Node, s: NodeState, log: seq<Msg>, l: Label)
    requires NodeInv(name, s, log) && l.SendTimeout?
    ensures NodeInv(name, Apply(name, s, l), log + Sent(name, s, l))
  {
    var m := Sent(name, s, l)[0];
    assert Sent(name, s, l) == [m];
    assert forall x :: x in log + [m] <==> x in log || x == m;
  }

  lemma StepKeepsInv(name: Node, s: NodeState, log: seq<Msg>, l: Label)
    requires NodeInv(name, s, log) && Enabled(s, l)
    ensures NodeInv(name, Apply(name, s, l), log + Sent(name, s, l))
  {
    if l.Prepare? {
      PrepareKeepsInv(name, s, log, l);
    } else if l.CommitVote? {
      CommitVoteKeepsInv(name, s, log, l);
    } else if l.SendTimeout? {
      TimeoutKeepsInv(name, s, log, l);
    } else {
      QuietKeepsInv(name, s, log, l);
      assert log + [] == log;
    }
  }

  /**
   Over every run of one node: all Normal votes for a round name one block; each vote for
   a round precedes every Timeout for that or a later round; and every such Timeout reports
   a lock (after a Commit vote) or a last vote (after a Normal vote) at least as recent.
   */
  lemma {:induction false} RunKeepsInv(name: Node, labels: seq<Label>)
    requires Legal(name, labels)
    ensures NodeInv(name, Exec(name, labels), Log(name, labels))
  {
    if labels != [] {
      var rest := labels[..|labels| - 1];
      RunKeepsInv(name, rest);
      StepKeepsInv(name, Exec(name, rest), Log(name, rest), labels[|labels| - 1]);
    }
  }

  // ---------------------------------------------------------------- what a node reports about its votes

  // The vote in a node's Timeout is its own, was sent before, and is signed for what it says.
  ghost predicate TruthfulAt(name: Node, log: seq<Msg>, k: nat)
    requires k < |log| && log[k].T?
  {
    var t := log[k].timeout;
    && t.highVote.author == name && t.highVote.kind == Normal && t.covers == CoversOf(t.highVote)
    && (t.highVote.round > 0 ==> V(t.highVote) in log[..k])
  }

  ghost predicate Truthful(name: Node, log: seq<Msg>) {
    forall k :: 0 <= k < |log| && log[k].T? && log[k].timeout.author == name ==> TruthfulAt(name, log, k)
  }

  ghost predicate LastVoteSent(name: Node, s: NodeState, log: seq<Msg>) {
    s.lastVote.author == name && s.lastVote.kind == Normal && (s.lastVote.round > 0 ==> V(s.lastVote) in log)
  }

  lemma TruthfulGrows(name: Node, log: seq<Msg>, m: Msg)
    requires Truthful(name, log)
    requires m.T? && m.timeout.author == name ==> TruthfulAt(name, log + [m], |log|)
    ensures Truthful(name, log + [m])
  {
    var log' := log + [m];
    forall k | 0 <= k < |log'| && log'[k].T? && log'[k].timeout.author == name ensures TruthfulAt(name, log', k) {
      if k < |log| {
        assert log'[..k] == log[..k];
        assert TruthfulAt(name, log, k);
      }
    }
  }

  lemma OwnTimeoutTruthful(name: Node, s: NodeState, log: seq<Msg>, r: Round)
    requires LastVoteSent(name, s, log)
    ensures TruthfulAt(name, log + Sent(name, s, SendTimeout(r)), |log|)
  {
    var log' := log + Sent(name, s, SendTimeout(r));
    assert log'[..|log|] == log;
  }

  /** A node's steps keep its reports truthful. */
  lemma StepKeepsTruthful(name: Node, s: NodeState, log: seq<Msg>, l: Label)
    requires Truthful(name, log) && LastVoteSent(name, s, log) && Enabled(s, l)
    ensures Truthful(name, log + Sent(name, s, l)) && LastVoteSent(name, Apply(name, s, l), log + Sent(name, s, l))
  {
    if Sent(name, s, l) == [] {
      assert log + [] == log;
    } else {
      if l.SendTimeout? {
        OwnTimeoutTruthful(name, s, log, l.r);
      }
      TruthfulGrows(name, log, Sent(name, s, l)[0]);
    }
  }
}
