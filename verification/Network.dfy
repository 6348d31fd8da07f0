/**
 Slow-path agreement. A network of nodes runs the steps of `Steps` in any order, and up
 to f Byzantine nodes send any votes and timeouts at any time. Certificates that honest
 nodes act on are sets of messages that were really sent.

 Two things are left open by a configuration. Honest nodes assemble a TC at the view-change
 size; a faulty node may assemble one of `tcSize` timeouts. And a weak certificate is backed
 by votes for the block it names if `exactWqc`; otherwise it need only be one that the
 TC maker builds. `Disagreement` tells for which of these choices every run is safe.
 */
module Network {
  import opened Types
  import opened Thresholds
  import opened Makers
  import opened Steps

  datatype Config = Config(p: Params, members: set<Node>, byzantine: set<Node>, leader: Round -> Node, tcSize: nat, exactWqc: bool) {
    // At most f members are faulty, and if there are any, TCs are large enough and WQCs exact.
    ghost predicate Valid() {
      && Committee()
      && (byzantine != {} ==> p.SlowCommit() + tcSize >= p.N() + p.f + 1 && exactWqc)
    }
    ghost predicate Committee() {
      |members| == p.N() && byzantine <= members && |byzantine| <= p.f
    }
    ghost predicate Honest(i: Node) {
      i in members && i !in byzantine
    }
  }

  // ---------------------------------------------------------------- genuine certificates

  ghost predicate Voted(log: seq<Msg>, i: Node, d: Digest, kind: VoteType, r: Round) {
    V(Vote(i, d, kind, r)) in log
  }

  ghost predicate AllVoted(cfg: Config, log: seq<Msg>, signers: set<Node>, d: Digest, kind: VoteType, r: Round) {
    signers <= cfg.members && forall i :: i in signers ==> Voted(log, i, d, kind, r)
  }

  ghost predicate GenuineQc(cfg: Config, log: seq<Msg>, qc: QC) {
    if qc.round == 0 then qc.blkHash == Hash(GENESIS)
    else AllVoted(cfg, log, qc.signers, qc.blkHash, qc.kind, qc.round)
         && |qc.signers| >= Size(cfg.p, qc.kind, qc.fastQuorum)
  }

  ghost predicate GenuineWqc(cfg: Config, log: seq<Msg>, wqc: WQC) {
    if wqc.round == 0 then wqc.blkHash == Hash(GENESIS)
    else AllVoted(cfg, log, wqc.signers, wqc.blkHash, Normal, wqc.round)
         && |wqc.signers| >= cfg.p.WeakCert()
  }

  // The author of the vote in a timeout really signed the statement.
  ghost predicate SignedFor(log: seq<Msg>, t: Timeout, of: Statement) {
    t.covers == Some(of) && V(Vote(t.highVote.author, of.blkHash, of.kind, of.round)) in log
  }

  // The timeouts behind a weak certificate that a TC maker builds (aggregator.rs:241-279): it is
  // named after the first vote, and all signatures are checked against the last.
  ghost predicate WqcGroup(cfg: Config, log: seq<Msg>, ts: seq<Timeout>, wqc: WQC) {
    && |ts| >= cfg.p.WeakCert() && DistinctSenders(ts)
    && (forall k :: 0 <= k < |ts| ==> ts[k].author in cfg.members && T(ts[k]) in log)
    && (forall k :: 0 <= k < |ts| ==> ts[k].highVote.author in cfg.members && ts[k].highVote.round == wqc.round)
    && (forall k :: 0 <= k < |ts| ==> SignedFor(log, ts[k], StatementOf(ts[|ts| - 1].highVote)))
    && wqc.blkHash == ts[0].highVote.blkHash && wqc.signers == VoteAuthors(ts)
  }

  ghost predicate BuiltWqc(cfg: Config, log: seq<Msg>, wqc: WQC) {
    exists ts :: WqcGroup(cfg, log, ts, wqc)
  }

  ghost predicate AllowedWqc(cfg: Config, log: seq<Msg>, wqc: WQC) {
    GenuineWqc(cfg, log, wqc) || (!cfg.exactWqc && BuiltWqc(cfg, log, wqc))
  }

  // The author really sent a Timeout for round r that reports a lock of the given round.
  ghost predicate TimedOut(log: seq<Msg>, entry: Locked, r: Round) {
    exists t :: T(t) in log && t.author == entry.author && t.round == r && t.highQc.round == entry.round
  }

  // Somebody may assemble a TC of so many timeouts.
  ghost predicate Assembles(cfg: Config, n: nat) {
    n >= cfg.p.ViewChange() || (n >= cfg.tcSize && cfg.byzantine != {})
  }

  // messages.rs:606-636, with the sizes at which TCs are assembled.
  ghost predicate GenuineTc(cfg: Config, log: seq<Msg>, tc: TC) {
    && GenuineQc(cfg, log, tc.highQc) && AllowedWqc(cfg, log, tc.highWqc)
    && Authors(tc.votes) <= cfg.members && Assembles(cfg, |Authors(tc.votes)|)
    && (forall k :: 0 <= k < |tc.votes| ==> tc.votes[k].round <= tc.highQc.round)
    && (forall k :: 0 <= k < |tc.votes| ==> TimedOut(log, tc.votes[k], tc.round))
  }

  // What the network guarantees about the certificates named by a step. A proposal is its leader's (core.rs:789-796).
  ghost predicate Genuine(cfg: Config, log: seq<Msg>, l: Label) {
    match l
    case Accept(b, ByQc(qc)) => GenuineQc(cfg, log, qc) && b.author == cfg.leader(b.round)
    case Accept(b, ByTc(tc)) => GenuineTc(cfg, log, tc) && b.author == cfg.leader(b.round)
    case Lock(qc) => GenuineQc(cfg, log, qc)
    case RaiseWqc(wqc) => AllowedWqc(cfg, log, wqc)
    case CommitTo(_, qc) => GenuineQc(cfg, log, qc)
    case Request(_, qc) => GenuineQc(cfg, log, qc)
    case _ => true
  }

  // ---------------------------------------------------------------- runs

  datatype Event = NodeStep(i: Node, act: Label) | Adversary(msg: Msg)

  function Sender(m: Msg): Node {
    if m.V? then m.vote.author else m.timeout.author
  }

  datatype Net = Net(nodes: map<Node, NodeState>, log: seq<Msg>)

  ghost predicate CanHappen(cfg: Config, net: Net, e: Event) {
    match e
    case NodeStep(i, l) =>
      cfg.Honest(i) && i in net.nodes && Enabled(net.nodes[i], l) && Genuine(cfg, net.log, l)
    case Adversary(m) => Sender(m) in cfg.byzantine
  }

  function After(net: Net, e: Event): Net {
    match e
    case NodeStep(i, l) =>
      if i in net.nodes then
        Net(net.nodes[i := Apply(i, net.nodes[i], l)], net.log + Sent(i, net.nodes[i], l))
      else net
    case Adversary(m) => net.(log := net.log + [m])
  }

  function Final(cfg: Config, run: seq<Event>): Net {
    if run == [] then Net(map i | i in cfg.members :: Init(i), [])
    else After(Final(cfg, run[..|run| - 1]), run[|run| - 1])
  }

  ghost predicate Run(cfg: Config, run: seq<Event>) {
    run == [] || (Run(cfg, run[..|run| - 1]) && CanHappen(cfg, Final(cfg, run[..|run| - 1]), run[|run| - 1]))
  }

  // ---------------------------------------------------------------- the invariant

  ghost predicate HonestlyVoted(cfg: Config, log: seq<Msg>, d: Digest, r: Round) {
    exists i :: cfg.Honest(i) && Voted(log, i, d, Normal, r)
  }

  // Certified by an ordinary quorum.
  ghost predicate Certified(cfg: Config, log: seq<Msg>, d: Digest, r: Round) {
    exists qc :: GenuineQc(cfg, log, qc) && qc.kind == Normal && !qc.fastQuorum
                 && qc.blkHash == d && qc.round == r && r > 0
  }

  ghost predicate Justifies(cfg: Config, log: seq<Msg>, b: Block, why: Why) {
    match why
    case ByQc(qc) => GenuineQc(cfg, log, qc) && qc.blkHash == b.parent && qc.round + 1 == b.round
    case ByTc(tc) => GenuineTc(cfg, log, tc) && b.parent == SafeHash(tc) && tc.round + 1 == b.round
    case BySync => false
  }

  ghost predicate Justified(cfg: Config, log: seq<Msg>, b: Block) {
    exists why :: Justifies(cfg, log, b, why)
  }

  ghost predicate Known(cfg: Config, log: seq<Msg>, d: Digest) {
    d == Hash(GENESIS) || exists r :: HonestlyVoted(cfg, log, d, r)
  }

  ghost predicate Inv(cfg: Config, net: Net) {
    && net.nodes.Keys == cfg.members
    && (forall i :: cfg.Honest(i) ==> NodeOk(cfg, net.log, i, net.nodes[i]))
    && VotesJustified(cfg, net.log)
    && CommitsCertified(cfg, net.log)
  }

  ghost predicate NodeOk(cfg: Config, log: seq<Msg>, i: Node, s: NodeState) {
    NodeInv(i, s, log) && StateJustified(cfg, log, s)
  }

  ghost predicate StateJustified(cfg: Config, log: seq<Msg>, s: NodeState) {
    && (forall r :: r in s.pending && r > 0 ==>
        s.pending[r].Hash? && s.pending[r].block.round == r && Justified(cfg, log, s.pending[r].block))
    && (forall d :: d in s.requested ==> Known(cfg, log, d))
    && GenuineQc(cfg, log, s.locked)
  }

  // Every honest Normal vote was for a block justified by earlier messages.
  ghost predicate VotesJustified(cfg: Config, log: seq<Msg>) {
    forall k :: 0 <= k < |log| && log[k].V? && log[k].vote.kind == Normal && cfg.Honest(log[k].vote.author) ==>
      && log[k].vote.blkHash.Hash?
      && log[k].vote.blkHash.block.round == log[k].vote.round
      && Justified(cfg, log[..k], log[k].vote.blkHash.block)
  }

  // Every honest Commit vote was for a block certified by earlier messages.
  ghost predicate CommitsCertified(cfg: Config, log: seq<Msg>) {
    forall k :: 0 <= k < |log| && log[k].V? && log[k].vote.kind == Commit && cfg.Honest(log[k].vote.author) ==>
      Certified(cfg, log[..k], log[k].vote.blkHash, log[k].vote.round)
  }

  // ---------------------------------------------------------------- certificates outlive their log

  lemma GenuineQcGrows(cfg: Config, log: seq<Msg>, log': seq<Msg>, qc: QC)
    requires log <= log' && GenuineQc(cfg, log, qc)
    ensures GenuineQc(cfg, log', qc)
  {
    assert forall m :: m in log ==> m in log';
  }

  lemma AllowedWqcGrows(cfg: Config, log: seq<Msg>, log': seq<Msg>, wqc: WQC)
    requires log <= log' && AllowedWqc(cfg, log, wqc)
    ensures AllowedWqc(cfg, log', wqc)
  {
    assert forall m :: m in log ==> m in log';
    if GenuineWqc(cfg, log, wqc) {
      assert GenuineWqc(cfg, log', wqc);
    } else {
      var ts :| WqcGroup(cfg, log, ts, wqc);
      assert WqcGroup(cfg, log', ts, wqc);
    }
  }

  lemma GenuineTcGrows(cfg: Config, log: seq<Msg>, log': seq<Msg>, tc: TC)
    requires log <= log' && GenuineTc(cfg, log, tc)
    ensures GenuineTc(cfg, log', tc)
  {
    GenuineQcGrows(cfg, log, log', tc.highQc);
    AllowedWqcGrows(cfg, log, log', tc.highWqc);
    assert forall m :: m in log ==> m in log';
  }

  lemma JustifiedGrows(cfg: Config, log: seq<Msg>, log': seq<Msg>, b: Block)
    requires log <= log' && Justified(cfg, log, b)
    ensures Justified(cfg, log', b)
  {
    assert forall m :: m in log ==> m in log';
    var why :| Justifies(cfg, log, b, why);
    match why {
      case ByQc(qc) => GenuineQcGrows(cfg, log, log', qc);
      case ByTc(tc) => GenuineTcGrows(cfg, log, log', tc);
    }
    assert Justifies(cfg, log', b, why);
  }

  lemma CertifiedGrows(cfg: Config, log: seq<Msg>, log': seq<Msg>, d: Digest, r: Round)
    requires log <= log' && Certified(cfg, log, d, r)
    ensures Certified(cfg, log', d, r)
  {
    var qc :| GenuineQc(cfg, log, qc) && qc.kind == Normal && !qc.fastQuorum && qc.blkHash == d && qc.round == r;
    GenuineQcGrows(cfg, log, log', qc);
  }

  lemma KnownGrows(cfg: Config, log: seq<Msg>, log': seq<Msg>, d: Digest)
    requires log <= log' && Known(cfg, log, d)
    ensures Known(cfg, log', d)
  {
    assert forall m :: m in log ==> m in log';
    if d != Hash(GENESIS) {
      var r :| HonestlyVoted(cfg, log, d, r);
      assert HonestlyVoted(cfg, log', d, r);
    }
  }

  lemma StateJustifiedGrows(cfg: Config, log: seq<Msg>, log': seq<Msg>, s: NodeState)
    requires log <= log' && StateJustified(cfg, log, s)
    ensures StateJustified(cfg, log', s)
  {
    forall r | r in s.pending && r > 0 ensures Justified(cfg, log', s.pending[r].block) {
      JustifiedGrows(cfg, log, log', s.pending[r].block);
    }
    forall d | d in s.requested ensures Known(cfg, log', d) {
      KnownGrows(cfg, log, log', d);
    }
    GenuineQcGrows(cfg, log, log', s.locked);
  }

  // ---------------------------------------------------------------- what certificates imply

  lemma CommitVoteCertifies(cfg: Config, log: seq<Msg>, i: Node, d: Digest, r: Round)
    requires CommitsCertified(cfg, log) && cfg.Honest(i) && Voted(log, i, d, Commit, r)
    ensures Certified(cfg, log, d, r)
  {
    var k :| 0 <= k < |log| && log[k] == V(Vote(i, d, Commit, r));
    assert log[k].vote.kind == Commit;
    CertifiedGrows(cfg, log[..k], log, d, r);
  }

  lemma CommitsCertifiedBefore(cfg: Config, log: seq<Msg>, k: nat)
    requires CommitsCertified(cfg, log) && k <= |log|
    ensures CommitsCertified(cfg, log[..k])
  {
    var log' := log[..k];
    forall j | 0 <= j < |log'| && log'[j].V? && log'[j].vote.kind == Commit && cfg.Honest(log'[j].vote.author)
      ensures Certified(cfg, log'[..j], log'[j].vote.blkHash, log'[j].vote.round)
    {
      assert log'[..j] == log[..j] && log[j].vote.kind == Commit;
    }
  }

  // Any QC contains an ordinary certificate for the same block.
  lemma QcCertifies(cfg: Config, log: seq<Msg>, qc: QC)
    requires cfg.Valid() && CommitsCertified(cfg, log) && GenuineQc(cfg, log, qc) && qc.round > 0
    ensures Certified(cfg, log, qc.blkHash, qc.round)
  {
    QuorumArithmetic(cfg.p);
    if qc.kind == Commit {
      var i := HonestMember(qc.signers, cfg.byzantine);
      assert Voted(log, i, qc.blkHash, Commit, qc.round);
      CommitVoteCertifies(cfg, log, i, qc.blkHash, qc.round);
    } else {
      assert GenuineQc(cfg, log, qc.(fastQuorum := false));
    }
  }

  lemma CertifiedIsVoted(cfg: Config, log: seq<Msg>, d: Digest, r: Round)
    requires cfg.Valid() && Certified(cfg, log, d, r)
    ensures HonestlyVoted(cfg, log, d, r)
  {
    QuorumArithmetic(cfg.p);
    var qc :| GenuineQc(cfg, log, qc) && qc.kind == Normal && !qc.fastQuorum && qc.blkHash == d && qc.round == r;
    var i := HonestMember(qc.signers, cfg.byzantine);
    assert cfg.Honest(i) && Voted(log, i, d, Normal, r);
  }

  lemma QcIsVoted(cfg: Config, log: seq<Msg>, qc: QC)
    requires cfg.Valid() && CommitsCertified(cfg, log) && GenuineQc(cfg, log, qc) && qc.round > 0
    ensures HonestlyVoted(cfg, log, qc.blkHash, qc.round)
  {
    QcCertifies(cfg, log, qc);
    CertifiedIsVoted(cfg, log, qc.blkHash, qc.round);
  }

  ghost predicate ReportsTruthful(cfg: Config, log: seq<Msg>) {
    forall i :: cfg.Honest(i) ==> Truthful(i, log)
  }

  lemma TruthfulBefore(cfg: Config, log: seq<Msg>, k: nat)
    requires ReportsTruthful(cfg, log) && k <= |log|
    ensures ReportsTruthful(cfg, log[..k])
  {
    forall i | cfg.Honest(i) ensures Truthful(i, log[..k]) {
      forall j | 0 <= j < k && log[..k][j].T? && log[..k][j].timeout.author == i ensures TruthfulAt(i, log[..k], j) {
        assert log[..k][..j] == log[..j];
        assert TruthfulAt(i, log, j);
      }
    }
  }

  lemma ReportIsTruthful(cfg: Config, log: seq<Msg>, t: Timeout)
    requires ReportsTruthful(cfg, log) && cfg.Honest(t.author) && T(t) in log
    ensures t.highVote.author == t.author && t.highVote.kind == Normal && t.covers == CoversOf(t.highVote)
    ensures t.highVote.round > 0 ==> V(t.highVote) in log
  {
    var k :| 0 <= k < |log| && log[k] == T(t);
    assert TruthfulAt(t.author, log, k);
  }

  // Distinct senders that report their own votes are as many voters.
  lemma {:induction false} OwnVoters(ts: seq<Timeout>)
    requires DistinctSenders(ts) && forall k :: 0 <= k < |ts| ==> ts[k].highVote.author == ts[k].author
    ensures |VoteAuthors(ts)| == |ts|
  {
    if ts != [] {
      var rest, last := ts[..|ts| - 1], ts[|ts| - 1];
      OwnVoters(rest);
      assert VoteAuthors(ts) == VoteAuthors(rest) + {last.author};
    }
  }

  /** If every reporter is honest, what the TC maker builds is backed by votes for the block it names. */
  lemma HonestGroupGenuine(cfg: Config, log: seq<Msg>, ts: seq<Timeout>, wqc: WQC)
    requires ReportsTruthful(cfg, log) && WqcGroup(cfg, log, ts, wqc) && wqc.round > 0
    requires forall k :: 0 <= k < |ts| ==> cfg.Honest(ts[k].author)
    ensures GenuineWqc(cfg, log, wqc)
  {
    var of := StatementOf(ts[|ts| - 1].highVote);
    forall k | 0 <= k < |ts|
      ensures ts[k].highVote == Vote(ts[k].author, of.blkHash, Normal, wqc.round) && V(ts[k].highVote) in log
    {
      ReportIsTruthful(cfg, log, ts[k]);
      assert SignedFor(log, ts[k], of);
    }
    OwnVoters(ts);
    forall i | i in wqc.signers ensures Voted(log, i, wqc.blkHash, Normal, wqc.round) {
      var k :| 0 <= k < |ts| && ts[k].highVote.author == i;
    }
  }

  lemma AllowedIsGenuine(cfg: Config, log: seq<Msg>, wqc: WQC)
    requires cfg.Valid() && ReportsTruthful(cfg, log) && AllowedWqc(cfg, log, wqc) && wqc.round > 0
    ensures GenuineWqc(cfg, log, wqc)
  {
    if !GenuineWqc(cfg, log, wqc) {
      var ts :| WqcGroup(cfg, log, ts, wqc);
      HonestGroupGenuine(cfg, log, ts, wqc);
    }
  }

  lemma WqcIsVoted(cfg: Config, log: seq<Msg>, wqc: WQC)
    requires cfg.Valid() && ReportsTruthful(cfg, log) && AllowedWqc(cfg, log, wqc) && wqc.round > 0
    ensures HonestlyVoted(cfg, log, wqc.blkHash, wqc.round)
  {
    QuorumArithmetic(cfg.p);
    AllowedIsGenuine(cfg, log, wqc);
    var i := HonestMember(wqc.signers, cfg.byzantine);
    assert cfg.Honest(i) && Voted(log, i, wqc.blkHash, Normal, wqc.round);
  }

  ghost predicate OneVotePerRound(cfg: Config, log: seq<Msg>) {
    forall i :: cfg.Honest(i) ==> SameRoundSameBlock(i, log)
  }

  /** At most one block is certified in a round. */
  lemma CertifiedUnique(cfg: Config, log: seq<Msg>, d: Digest, d': Digest, r: Round)
    requires cfg.Valid() && OneVotePerRound(cfg, log)
    requires Certified(cfg, log, d, r) && Certified(cfg, log, d', r)
    ensures d == d'
  {
    QuorumArithmetic(cfg.p);
    var qc :| GenuineQc(cfg, log, qc) && qc.kind == Normal && !qc.fastQuorum && qc.blkHash == d && qc.round == r;
    var qc' :| GenuineQc(cfg, log, qc') && qc'.kind == Normal && !qc'.fastQuorum && qc'.blkHash == d' && qc'.round == r;
    var i := CommonHonest(qc.signers, qc'.signers, cfg.members, cfg.byzantine);
    var v, v' := Vote(i, d, Normal, r), Vote(i, d', Normal, r);
    assert Voted(log, i, d, Normal, r) && Voted(log, i, d', Normal, r);
    assert cfg.Honest(i) && V(v) in log && V(v') in log;
  }

  // The parent of an honestly voted block was honestly voted, and so on down to genesis.
  lemma ParentKnown(cfg: Config, log: seq<Msg>, b: Block)
    requires cfg.Valid() && CommitsCertified(cfg, log) && ReportsTruthful(cfg, log) && Justified(cfg, log, b)
    ensures Known(cfg, log, b.parent)
  {
    var why :| Justifies(cfg, log, b, why);
    match why {
      case ByQc(qc) =>
        if qc.round > 0 { QcIsVoted(cfg, log, qc); }
      case ByTc(tc) =>
        if tc.highWqc.round > tc.highQc.round {
          WqcIsVoted(cfg, log, tc.highWqc);
        } else if tc.highQc.round > 0 {
          QcIsVoted(cfg, log, tc.highQc);
        }
    }
  }

  lemma KnownJustified(cfg: Config, log: seq<Msg>, d: Digest)
    requires VotesJustified(cfg, log) && Known(cfg, log, d) && d != Hash(GENESIS)
    ensures d.Hash? && Justified(cfg, log, d.block)
  {
    var r :| HonestlyVoted(cfg, log, d, r);
    var i :| cfg.Honest(i) && Voted(log, i, d, Normal, r);
    var k :| 0 <= k < |log| && log[k] == V(Vote(i, d, Normal, r));
    assert log[k].vote.kind == Normal && cfg.Honest(log[k].vote.author);
    JustifiedGrows(cfg, log[..k], log, d.block);
  }

  lemma {:induction false} AncestorsKnown(cfg: Config, log: seq<Msg>, b: Block, d: Digest)
    requires cfg.Valid() && CommitsCertified(cfg, log) && VotesJustified(cfg, log) && ReportsTruthful(cfg, log)
    requires Known(cfg, log, Hash(b)) && AncestorDigest(b, d)
    ensures Known(cfg, log, d)
    decreases b
  {
    KnownJustified(cfg, log, Hash(b));
    ParentKnown(cfg, log, b);
    if b.parent != d {
      AncestorsKnown(cfg, log, b.parent.block, d);
    }
  }

  // ---------------------------------------------------------------- the invariant is kept

  lemma SentByOthersKeepInv(name: Node, s: NodeState, log: seq<Msg>, i: Node, s': NodeState, l: Label)
    requires NodeInv(name, s, log) && i != name
    ensures NodeInv(name, s, log + Sent(i, s', l))
  {
    var sent := Sent(i, s', l);
    if sent == [] {
      assert log + sent == log;
    } else {
      OthersKeepInv(name, s, log, sent[0]);
      assert sent == [sent[0]];
    }
  }

  lemma StateStaysJustified(cfg: Config, log: seq<Msg>, s: NodeState, i: Node, l: Label)
    requires cfg.Valid() && CommitsCertified(cfg, log) && VotesJustified(cfg, log) && ReportsTruthful(cfg, log)
    requires StateJustified(cfg, log, s) && Enabled(s, l) && Genuine(cfg, log, l)
    ensures StateJustified(cfg, log, Apply(i, s, l))
  {
    match l {
      case Accept(b, ByQc(qc)) =>
        assert Justifies(cfg, log, b, l.why);
      case Accept(b, ByTc(tc)) =>
        assert Justifies(cfg, log, b, l.why);
      case Accept(b, BySync) =>
        if b != GENESIS {
          KnownJustified(cfg, log, Hash(b));
        }
      case Request(d, qc) =>
        RequestedKnown(cfg, log, d, qc);
      case _ =>
    }
  }

  lemma RequestedKnown(cfg: Config, log: seq<Msg>, d: Digest, qc: QC)
    requires cfg.Valid() && CommitsCertified(cfg, log) && VotesJustified(cfg, log) && ReportsTruthful(cfg, log)
    requires GenuineQc(cfg, log, qc)
    requires d == qc.blkHash || (qc.blkHash.Hash? && AncestorDigest(qc.blkHash.block, d))
    ensures Known(cfg, log, d)
  {
    if qc.round > 0 {
      QcIsVoted(cfg, log, qc);
      if d != qc.blkHash {
        AncestorsKnown(cfg, log, qc.blkHash.block, d);
      }
    }
  }

  lemma VotesStayJustified(cfg: Config, log: seq<Msg>, s: NodeState, i: Node, l: Label)
    requires VotesJustified(cfg, log) && StateJustified(cfg, log, s) && Enabled(s, l) && 1 <= s.round
    ensures VotesJustified(cfg, log + Sent(i, s, l))
  {
    var log' := log + Sent(i, s, l);
    forall k | 0 <= k < |log'| && log'[k].V? && log'[k].vote.kind == Normal && cfg.Honest(log'[k].vote.author)
      ensures log'[k].vote.blkHash.Hash? && log'[k].vote.blkHash.block.round == log'[k].vote.round
      ensures Justified(cfg, log'[..k], log'[k].vote.blkHash.block)
    {
      if k < |log| {
        assert log'[..k] == log[..k];
        assert log[k].vote.kind == Normal;
      } else {
        assert log'[..k] == log;
      }
    }
  }

  lemma CommitsStayCertified(cfg: Config, log: seq<Msg>, s: NodeState, i: Node, l: Label)
    requires CommitsCertified(cfg, log) && StateJustified(cfg, log, s) && Enabled(s, l)
    requires s.locked.round > 0 ==> s.locked.kind == Normal && !s.locked.fastQuorum
    ensures CommitsCertified(cfg, log + Sent(i, s, l))
  {
    var log' := log + Sent(i, s, l);
    forall k | 0 <= k < |log'| && log'[k].V? && log'[k].vote.kind == Commit && cfg.Honest(log'[k].vote.author)
      ensures Certified(cfg, log'[..k], log'[k].vote.blkHash, log'[k].vote.round)
    {
      if k < |log| {
        assert log'[..k] == log[..k] && log[k].vote.kind == Commit;
      } else {
        assert log'[..k] == log;
      }
    }
  }

  // A step of node i, seen from node j.
  lemma StepSeenBy(cfg: Config, net: Net, i: Node, l: Label, j: Node)
    requires cfg.Valid() && Inv(cfg, net) && ReportsTruthful(cfg, net.log) && CanHappen(cfg, net, NodeStep(i, l)) && cfg.Honest(j)
    ensures NodeOk(cfg, After(net, NodeStep(i, l)).log, j, After(net, NodeStep(i, l)).nodes[j])
  {
    var s, log := net.nodes[i], net.log;
    var net' := After(net, NodeStep(i, l));
    assert NodeOk(cfg, log, j, net.nodes[j]) && NodeOk(cfg, log, i, s);
    if j == i {
      StepKeepsInv(i, s, log, l);
      StateStaysJustified(cfg, log, s, i, l);
    } else {
      SentByOthersKeepInv(j, net.nodes[j], log, i, s, l);
    }
    StateJustifiedGrows(cfg, log, net'.log, net'.nodes[j]);
  }

  lemma NodeStepKeepsInv(cfg: Config, net: Net, i: Node, l: Label)
    requires cfg.Valid() && Inv(cfg, net) && ReportsTruthful(cfg, net.log) && CanHappen(cfg, net, NodeStep(i, l))
    ensures Inv(cfg, After(net, NodeStep(i, l)))
  {
    var net' := After(net, NodeStep(i, l));
    forall j | cfg.Honest(j) ensures NodeOk(cfg, net'.log, j, net'.nodes[j]) {
      StepSeenBy(cfg, net, i, l, j);
    }
    LogStaysJustified(cfg, net, i, l);
  }

  lemma LogStaysJustified(cfg: Config, net: Net, i: Node, l: Label)
    requires Inv(cfg, net) && cfg.Honest(i) && i in net.nodes && Enabled(net.nodes[i], l)
    ensures VotesJustified(cfg, After(net, NodeStep(i, l)).log) && CommitsCertified(cfg, After(net, NodeStep(i, l)).log)
  {
    assert NodeOk(cfg, net.log, i, net.nodes[i]);
    VotesStayJustified(cfg, net.log, net.nodes[i], i, l);
    CommitsStayCertified(cfg, net.log, net.nodes[i], i, l);
  }

  lemma AdversaryKeepsInv(cfg: Config, net: Net, m: Msg)
    requires Inv(cfg, net) && Sender(m) in cfg.byzantine
    ensures Inv(cfg, After(net, Adversary(m)))
  {
    var log, log' := net.log, net.log + [m];
    forall j | cfg.Honest(j) ensures NodeOk(cfg, log', j, net.nodes[j]) {
      assert NodeOk(cfg, log, j, net.nodes[j]);
      OthersKeepInv(j, net.nodes[j], log, m);
      StateJustifiedGrows(cfg, log, log', net.nodes[j]);
    }
    forall k | 0 <= k < |log'| && log'[k].V? && log'[k].vote.kind == Normal && cfg.Honest(log'[k].vote.author)
      ensures log'[k].vote.blkHash.Hash? && log'[k].vote.blkHash.block.round == log'[k].vote.round
      ensures Justified(cfg, log'[..k], log'[k].vote.blkHash.block)
    {
      assert k < |log| && log'[..k] == log[..k];
      assert log[k].vote.kind == Normal;
    }
    forall k | 0 <= k < |log'| && log'[k].V? && log'[k].vote.kind == Commit && cfg.Honest(log'[k].vote.author)
      ensures Certified(cfg, log'[..k], log'[k].vote.blkHash, log'[k].vote.round)
    {
      assert k < |log| && log'[..k] == log[..k];
      assert log[k].vote.kind == Commit;
    }
  }

  // In every run, honest nodes report their own votes truthfully.
  lemma {:induction false} RunTruthful(cfg: Config, run: seq<Event>)
    requires Run(cfg, run)
    ensures ReportsTruthful(cfg, Final(cfg, run).log)
    ensures forall i :: cfg.Honest(i) ==> i in Final(cfg, run).nodes && LastVoteSent(i, Final(cfg, run).nodes[i], Final(cfg, run).log)
  {
    if run != [] {
      var rest, e := run[..|run| - 1], run[|run| - 1];
      RunTruthful(cfg, rest);
      var net := Final(cfg, rest);
      forall i | cfg.Honest(i)
        ensures Truthful(i, After(net, e).log) && i in After(net, e).nodes && LastVoteSent(i, After(net, e).nodes[i], After(net, e).log)
      {
        EventKeepsTruthful(cfg, net, e, i);
      }
    }
  }

  lemma EventKeepsTruthful(cfg: Config, net: Net, e: Event, i: Node)
    requires cfg.Honest(i) && i in net.nodes && CanHappen(cfg, net, e)
    requires Truthful(i, net.log) && LastVoteSent(i, net.nodes[i], net.log)
    ensures Truthful(i, After(net, e).log) && i in After(net, e).nodes && LastVoteSent(i, After(net, e).nodes[i], After(net, e).log)
  {
    match e {
      case NodeStep(j, l) =>
        if j == i {
          StepKeepsTruthful(i, net.nodes[i], net.log, l);
        } else {
          OthersKeepTruthful(i, net.nodes[i], net.log, Sent(j, net.nodes[j], l), j);
        }
      case Adversary(m) => OthersKeepTruthful(i, net.nodes[i], net.log, [m], Sender(m));
    }
  }

  lemma OthersKeepTruthful(i: Node, s: NodeState, log: seq<Msg>, sent: seq<Msg>, j: Node)
    requires Truthful(i, log) && LastVoteSent(i, s, log) && j != i
    requires |sent| <= 1 && forall k :: 0 <= k < |sent| ==> Sender(sent[k]) == j
    ensures Truthful(i, log + sent) && LastVoteSent(i, s, log + sent)
  {
    if sent == [] {
      assert log + sent == log;
    } else {
      assert sent == [sent[0]];
      TruthfulGrows(i, log, sent[0]);
    }
  }

  lemma EventKeepsInv(cfg: Config, net: Net, e: Event)
    requires cfg.Valid() && Inv(cfg, net) && ReportsTruthful(cfg, net.log) && CanHappen(cfg, net, e)
    ensures Inv(cfg, After(net, e))
  {
    match e {
      case NodeStep(i, l) => NodeStepKeepsInv(cfg, net, i, l);
      case Adversary(m) => AdversaryKeepsInv(cfg, net, m);
    }
  }

  lemma InitInv(cfg: Config)
    ensures Inv(cfg, Final(cfg, []))
  {}

  lemma {:induction false} RunInv(cfg: Config, run: seq<Event>)
    requires cfg.Valid() && Run(cfg, run)
    ensures Inv(cfg, Final(cfg, run))
  {
    if run == [] {
      InitInv(cfg);
    } else {
      var rest := run[..|run| - 1];
      RunInv(cfg, rest);
      RunTruthful(cfg, rest);
      EventKeepsInv(cfg, Final(cfg, rest), run[|run| - 1]);
    }
  }

  // ---------------------------------------------------------------- agreement

  // Enough nodes sent Commit votes for block b in round r.
  ghost predicate SlowCommitted(cfg: Config, log: seq<Msg>, b: Block, r: Round, voters: set<Node>) {
    AllVoted(cfg, log, voters, Hash(b), Commit, r) && |voters| >= cfg.p.SlowCommit()
  }

  lemma SlowCommittedCertified(cfg: Config, log: seq<Msg>, b: Block, r: Round, voters: set<Node>)
    requires cfg.Valid() && CommitsCertified(cfg, log) && SlowCommitted(cfg, log, b, r, voters)
    ensures Certified(cfg, log, Hash(b), r) && r > 0
  {
    QuorumArithmetic(cfg.p);
    var i := HonestMember(voters, cfg.byzantine);
    assert Voted(log, i, Hash(b), Commit, r);
    CommitVoteCertifies(cfg, log, i, Hash(b), r);
  }

  ghost predicate LocksReported(cfg: Config, log: seq<Msg>) {
    forall i :: cfg.Honest(i) ==> TimeoutsReportVotes(i, log)
  }

  ghost predicate SafeLog(cfg: Config, log: seq<Msg>) {
    && VotesJustified(cfg, log) && CommitsCertified(cfg, log) && OneVotePerRound(cfg, log)
    && LocksReported(cfg, log) && ReportsTruthful(cfg, log)
  }

  // A TC for round r or later contains a lock of round r or later.
  lemma TcReportsCommit(cfg: Config, log: seq<Msg>, k: nat, tc: TC, b: Block, r: Round, voters: set<Node>)
    requires cfg.Valid() && LocksReported(cfg, log) && SlowCommitted(cfg, log, b, r, voters)
    requires k <= |log| && GenuineTc(cfg, log[..k], tc) && r <= tc.round
    ensures r <= tc.highQc.round
  {
    QuorumArithmetic(cfg.p);
    var i := CommonHonest(voters, Authors(tc.votes), cfg.members, cfg.byzantine);
    var j :| 0 <= j < |tc.votes| && tc.votes[j].author == i;
    assert Voted(log, i, Hash(b), Commit, r);
    LockReported(cfg, log, k, i, Hash(b), r, tc.votes[j], tc.round);
  }

  lemma LockReported(cfg: Config, log: seq<Msg>, k: nat, i: Node, d: Digest, r: Round, entry: Locked, r': Round)
    requires LocksReported(cfg, log) && cfg.Honest(i) && Voted(log, i, d, Commit, r)
    requires k <= |log| && TimedOut(log[..k], entry, r') && entry.author == i && r <= r'
    ensures r <= entry.round
  {
    var t :| T(t) in log[..k] && t.author == entry.author && t.round == r' && t.highQc.round == entry.round;
    var v := Vote(i, d, Commit, r);
    assert TimeoutsReportVotes(i, log);
    assert V(v) in log && T(t) in log;
  }

  lemma WhyVoted(cfg: Config, log: seq<Msg>, k: nat) returns (why: Why)
    requires VotesJustified(cfg, log)
    requires k < |log| && log[k].V? && log[k].vote.kind == Normal && cfg.Honest(log[k].vote.author)
    ensures log[k].vote.blkHash.Hash? && log[k].vote.blkHash.block.round == log[k].vote.round
    ensures Justifies(cfg, log[..k], log[k].vote.blkHash.block, why)
  {
    assert Justified(cfg, log[..k], log[k].vote.blkHash.block);
    why :| Justifies(cfg, log[..k], log[k].vote.blkHash.block, why);
  }

  // A certificate of the commit round is for the committed block.
  lemma SameRoundCertificate(cfg: Config, log: seq<Msg>, k: nat, qc: QC, b: Block, voters: set<Node>)
    requires cfg.Valid() && CommitsCertified(cfg, log) && OneVotePerRound(cfg, log)
    requires SlowCommitted(cfg, log, b, qc.round, voters)
    requires k <= |log| && GenuineQc(cfg, log[..k], qc)
    ensures qc.blkHash == Hash(b)
  {
    SlowCommittedCertified(cfg, log, b, qc.round, voters);
    GenuineQcGrows(cfg, log[..k], log, qc);
    QcCertifies(cfg, log, qc);
    CertifiedUnique(cfg, log, qc.blkHash, Hash(b), qc.round);
  }

  lemma EarlierCertificateVoted(cfg: Config, log: seq<Msg>, k: nat, qc: QC)
    requires cfg.Valid() && CommitsCertified(cfg, log)
    requires k <= |log| && GenuineQc(cfg, log[..k], qc) && qc.round > 0
    ensures HonestlyVoted(cfg, log[..k], qc.blkHash, qc.round)
  {
    CommitsCertifiedBefore(cfg, log, k);
    QcIsVoted(cfg, log[..k], qc);
  }

  lemma EarlierVote(cfg: Config, log: seq<Msg>, k: nat, d: Digest, r: Round) returns (j: nat)
    requires k <= |log| && HonestlyVoted(cfg, log[..k], d, r)
    ensures j < k && log[j].V? && cfg.Honest(log[j].vote.author)
    ensures log[j].vote.kind == Normal && log[j].vote.blkHash == d && log[j].vote.round == r
  {
    var i :| cfg.Honest(i) && Voted(log[..k], i, d, Normal, r);
    j :| 0 <= j < k && log[j] == V(Vote(i, d, Normal, r));
  }

  // By induction on time: an honest Normal vote in a later round is for an extension of b.
  lemma {:induction false} VotedExtendsCommitted(cfg: Config, log: seq<Msg>, k: nat, b: Block, r: Round, voters: set<Node>)
    requires cfg.Valid() && SafeLog(cfg, log) && SlowCommitted(cfg, log, b, r, voters)
    requires k < |log| && log[k].V? && log[k].vote.kind == Normal && cfg.Honest(log[k].vote.author)
    requires log[k].vote.round > r
    ensures log[k].vote.blkHash.Hash? && Extends(log[k].vote.blkHash.block, b)
    decreases k, 1
  {
    var why := WhyVoted(cfg, log, k);
    match why {
      case ByQc(qc) =>
        CertificateExtendsCommitted(cfg, log, k, qc, b, r, voters);
      case ByTc(tc) =>
        TcReportsCommit(cfg, log, k, tc, b, r, voters);
        if tc.highWqc.round > tc.highQc.round {
          TruthfulBefore(cfg, log, k);
          WqcIsVoted(cfg, log[..k], tc.highWqc);
          var j := EarlierVote(cfg, log, k, tc.highWqc.blkHash, tc.highWqc.round);
          VotedExtendsCommitted(cfg, log, j, b, r, voters);
        } else {
          CertificateExtendsCommitted(cfg, log, k, tc.highQc, b, r, voters);
        }
    }
  }

  lemma {:induction false} CertificateExtendsCommitted(cfg: Config, log: seq<Msg>, k: nat, qc: QC, b: Block, r: Round, voters: set<Node>)
    requires cfg.Valid() && SafeLog(cfg, log) && SlowCommitted(cfg, log, b, r, voters)
    requires k <= |log| && GenuineQc(cfg, log[..k], qc) && qc.round >= r
    ensures qc.blkHash.Hash? && Extends(qc.blkHash.block, b)
    decreases k, 0
  {
    SlowCommittedCertified(cfg, log, b, r, voters);
    if qc.round == r {
      SameRoundCertificate(cfg, log, k, qc, b, voters);
    } else {
      EarlierCertificateVoted(cfg, log, k, qc);
      var j := EarlierVote(cfg, log, k, qc.blkHash, qc.round);
      VotedExtendsCommitted(cfg, log, j, b, r, voters);
    }
  }

  lemma InvGivesSafeLog(cfg: Config, net: Net)
    requires Inv(cfg, net) && ReportsTruthful(cfg, net.log)
    ensures SafeLog(cfg, net.log)
  {
    forall i | cfg.Honest(i) ensures SameRoundSameBlock(i, net.log) && TimeoutsReportVotes(i, net.log) {
      assert NodeOk(cfg, net.log, i, net.nodes[i]);
    }
  }

  /**
   Slow-path safety. In every run, once enough nodes have sent Commit votes for b in round r,
   every block any honest node Normal-votes for in a later round has b as an ancestor, and
   every certificate of round r or later, of any kind, certifies b or a descendant of b.
   */
  lemma CommittedBlockIsFinal(cfg: Config, run: seq<Event>, b: Block, r: Round, voters: set<Node>)
    requires cfg.Valid() && Run(cfg, run)
    requires SlowCommitted(cfg, Final(cfg, run).log, b, r, voters)
    ensures forall v :: V(v) in Final(cfg, run).log && cfg.Honest(v.author) && v.kind == Normal && v.round > r ==>
              v.blkHash.Hash? && Extends(v.blkHash.block, b)
    ensures forall qc :: GenuineQc(cfg, Final(cfg, run).log, qc) && qc.round >= r ==>
              qc.blkHash.Hash? && Extends(qc.blkHash.block, b)
  {
    RunInv(cfg, run);
    RunTruthful(cfg, run);
    InvGivesSafeLog(cfg, Final(cfg, run));
    LogExtendsCommitted(cfg, Final(cfg, run).log, b, r, voters);
  }

  lemma LogExtendsCommitted(cfg: Config, log: seq<Msg>, b: Block, r: Round, voters: set<Node>)
    requires cfg.Valid() && SafeLog(cfg, log) && SlowCommitted(cfg, log, b, r, voters)
    ensures forall v :: V(v) in log && cfg.Honest(v.author) && v.kind == Normal && v.round > r ==>
              v.blkHash.Hash? && Extends(v.blkHash.block, b)
    ensures forall qc :: GenuineQc(cfg, log, qc) && qc.round >= r ==> qc.blkHash.Hash? && Extends(qc.blkHash.block, b)
  {
    forall v | V(v) in log && cfg.Honest(v.author) && v.kind == Normal && v.round > r
      ensures v.blkHash.Hash? && Extends(v.blkHash.block, b)
    {
      var k :| 0 <= k < |log| && log[k] == V(v);
      VotedExtendsCommitted(cfg, log, k, b, r, voters);
    }
    forall qc | GenuineQc(cfg, log, qc) && qc.round >= r
      ensures qc.blkHash.Hash? && Extends(qc.blkHash.block, b)
    {
      assert log[..|log|] == log;
      CertificateExtendsCommitted(cfg, log, |log|, qc, b, r, voters);
    }
  }

  /** Agreement: any two blocks with genuine Commit QCs lie on one chain. */
  lemma Agreement(cfg: Config, run: seq<Event>, qc: QC, qc': QC)
    requires cfg.Valid() && Run(cfg, run)
    requires qc.kind == Commit && qc'.kind == Commit
    requires GenuineQc(cfg, Final(cfg, run).log, qc) && GenuineQc(cfg, Final(cfg, run).log, qc')
    ensures qc.blkHash.Hash? && qc'.blkHash.Hash?
    ensures if qc.round <= qc'.round then Extends(qc'.blkHash.block, qc.blkHash.block)
            else Extends(qc.blkHash.block, qc'.blkHash.block)
  {
    var low, high := if qc.round <= qc'.round then qc else qc', if qc.round <= qc'.round then qc' else qc;
    LaterExtends(cfg, run, low, high);
  }

  lemma LaterExtends(cfg: Config, run: seq<Event>, low: QC, high: QC)
    requires cfg.Valid() && Run(cfg, run) && low.kind == Commit && low.round <= high.round
    requires GenuineQc(cfg, Final(cfg, run).log, low) && GenuineQc(cfg, Final(cfg, run).log, high)
    ensures low.blkHash.Hash? && high.blkHash.Hash? && Extends(high.blkHash.block, low.blkHash.block)
  {
    var log := Final(cfg, run).log;
    RunInv(cfg, run);
    RunTruthful(cfg, run);
    if low.round == 0 {
      if high.round > 0 {
        QcIsVoted(cfg, log, high);
        VotedExtendsGenesis(cfg, log, high.blkHash);
      }
    } else {
      QcIsVoted(cfg, log, low);
      KnownJustified(cfg, log, low.blkHash) by { assert Known(cfg, log, low.blkHash); }
      CommittedBlockIsFinal(cfg, run, low.blkHash.block, low.round, low.signers);
    }
  }

  // Every honestly voted block has genesis as an ancestor.
  lemma {:induction false} VotedExtendsGenesis(cfg: Config, log: seq<Msg>, d: Digest)
    requires cfg.Valid() && CommitsCertified(cfg, log) && VotesJustified(cfg, log) && ReportsTruthful(cfg, log) && Known(cfg, log, d)
    ensures d.Hash? && Extends(d.block, GENESIS)
    decreases d
  {
    if d != Hash(GENESIS) {
      KnownJustified(cfg, log, d);
      ParentKnown(cfg, log, d.block);
      VotedExtendsGenesis(cfg, log, d.block.parent);
    }
  }
}
