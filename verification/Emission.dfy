/**
 What a QC maker emits over a whole stream of votes, with duplicates and in any order: which
 vote completes which certificate, that each is made once, and that it is genuine.
 */
module Emission {
  import opened Types
  import opened Thresholds
  import opened Steps
  import opened Makers
  import opened Network

  // A vote as it reaches a maker, and whether its signature is valid.
  datatype Cast = Cast(vote: Vote, signed: bool)

  // The first vote of each author among the first k votes of the stream.
  function Ballots(s: seq<Cast>, k: nat): map<Node, Ballot>
    requires k <= |s|
  {
    if k == 0 then map[]
    else
      var rest, last := Ballots(s, k - 1), s[k - 1];
      if last.vote.author in rest then rest
      else rest[last.vote.author := Ballot(last.vote.blkHash, last.signed)]
  }

  // The number of distinct voters among the first k votes.
  function Voters(s: seq<Cast>, k: nat): nat
    requires k <= |s|
  {
    if k == 0 then 0 else Voters(s, k - 1) + if s[k - 1].vote.author in Ballots(s, k - 1) then 0 else 1
  }

  // A maker sees votes of one kind and one round (aggregator.rs:34-56).
  predicate OneKind(s: seq<Cast>, kind: VoteType, r: Round) {
    forall k :: 0 <= k < |s| ==> s[k].vote.kind == kind && s[k].vote.round == r
  }

  // The maker after the first k votes.
  function Feed(p: Params, s: seq<Cast>, kind: VoteType, k: nat): Maker
    requires k <= |s|
  {
    if k == 0 then EMPTY_MAKER
    else Append(p, Feed(p, s, kind, k - 1), s[k - 1].vote, s[k - 1].signed, kind == Normal).0
  }

  // What the maker answers to vote k of the stream.
  function Answer(p: Params, s: seq<Cast>, kind: VoteType, k: nat): Result<Option<QC>>
    requires k < |s|
  {
    Append(p, Feed(p, s, kind, k), s[k].vote, s[k].signed, kind == Normal).1
  }

  // The answer told by the number of distinct voters alone.
  function Expected(p: Params, s: seq<Cast>, kind: VoteType, k: nat): Result<Option<QC>>
    requires k < |s|
  {
    var ballots := Ballots(s, k + 1);
    if s[k].vote.author in Ballots(s, k) then Ok(None)
    else if Voters(s, k + 1) == Size(p, kind, false) then Certify(ballots, s[k].vote, false)
    else if kind == Normal && Voters(s, k + 1) == Size(p, kind, true) then Certify(ballots, s[k].vote, true)
    else Ok(None)
  }

  // Whether the maker is done after n distinct votes.
  predicate Closed(p: Params, kind: VoteType, n: nat) {
    if kind == Commit then n >= p.SlowCommit() else p.Quorum() < p.FastCommit() <= n
  }

  lemma {:induction false} VotersCount(s: seq<Cast>, k: nat)
    requires k <= |s|
    ensures |Ballots(s, k)| == Voters(s, k) == |Ballots(s, k).Keys|
  {
    if k > 0 {
      VotersCount(s, k - 1);
      var x := s[k - 1].vote.author;
      if x !in Ballots(s, k - 1) {
        OneMoreKey(Ballots(s, k - 1), x, Ballot(s[k - 1].vote.blkHash, s[k - 1].signed));
      }
    }
  }

  // The state of a maker in terms of the distinct votes it has seen.
  ghost predicate MakerInv(p: Params, kind: VoteType, m: Maker, ballots: map<Node, Ballot>) {
    && m.used == ballots.Keys
    && (m.formed <==> Closed(p, kind, |ballots|))
    && (!m.formed ==> m.ballots == ballots && m.weight == |ballots|)
  }

  lemma AppendKeepsInv(p: Params, kind: VoteType, m: Maker, ballots: map<Node, Ballot>, v: Vote, signed: bool)
    requires MakerInv(p, kind, m, ballots) && v.kind == kind && v.author !in ballots
    ensures MakerInv(p, kind, Append(p, m, v, signed, kind == Normal).0, ballots[v.author := Ballot(v.blkHash, signed)])
  {
    OneMoreKey(ballots, v.author, Ballot(v.blkHash, signed));
    assert p.Quorum() <= p.FastCommit() && p.SlowCommit() > 0 by { QuorumArithmetic(p); }
  }

  lemma {:induction false} FeedState(p: Params, s: seq<Cast>, kind: VoteType, r: Round, k: nat)
    requires OneKind(s, kind, r) && k <= |s|
    ensures MakerInv(p, kind, Feed(p, s, kind, k), Ballots(s, k))
  {
    if k == 0 {
      QuorumArithmetic(p);
    } else {
      FeedState(p, s, kind, r, k - 1);
      if s[k - 1].vote.author !in Ballots(s, k - 1) {
        AppendKeepsInv(p, kind, Feed(p, s, kind, k - 1), Ballots(s, k - 1), s[k - 1].vote, s[k - 1].signed);
      }
    }
  }

  /**
   For every stream of votes: a new voter that completes an ordinary quorum, a slow-commit
   quorum or a fast quorum gets that certificate over exactly the distinct voters so far, if
   the batch check passes, and no other vote gets anything.
   */
  lemma MakerEmits(p: Params, s: seq<Cast>, kind: VoteType, r: Round, k: nat)
    requires OneKind(s, kind, r) && k < |s|
    ensures Answer(p, s, kind, k) == Expected(p, s, kind, k)
  {
    FeedState(p, s, kind, r, k);
    VotersCount(s, k);
    QuorumArithmetic(p);
  }

  predicate Emitted(p: Params, s: seq<Cast>, kind: VoteType, k: nat, fast: bool) {
    k < |s| && match Answer(p, s, kind, k) case Ok(Some(qc)) => qc.fastQuorum == fast case _ => false
  }

  lemma {:induction false} VotersGrow(s: seq<Cast>, j: nat, k: nat)
    requires j <= k <= |s|
    ensures Voters(s, j) <= Voters(s, k)
    decreases k
  {
    if j < k {
      VotersGrow(s, j, k - 1);
    }
  }

  lemma EmittedAt(p: Params, s: seq<Cast>, kind: VoteType, r: Round, k: nat, fast: bool)
    requires OneKind(s, kind, r) && Emitted(p, s, kind, k, fast)
    ensures Voters(s, k + 1) == Size(p, kind, fast) == Voters(s, k) + 1
    ensures fast ==> kind == Normal
    ensures Answer(p, s, kind, k) == Ok(Some(QC(s[k].vote.blkHash, kind, r, Ballots(s, k + 1).Keys, fast)))
    ensures BatchOk(Ballots(s, k + 1), s[k].vote.blkHash)
  {
    MakerEmits(p, s, kind, r, k);
  }

  /** Each kind of certificate is emitted at most once. */
  lemma EmittedOnce(p: Params, s: seq<Cast>, kind: VoteType, r: Round, j: nat, k: nat, fast: bool)
    requires OneKind(s, kind, r) && Emitted(p, s, kind, j, fast) && Emitted(p, s, kind, k, fast)
    ensures j == k
  {
    EmittedAt(p, s, kind, r, j, fast);
    EmittedAt(p, s, kind, r, k, fast);
    if j < k {
      VotersGrow(s, j + 1, k);
    } else if k < j {
      VotersGrow(s, k + 1, j);
    }
  }

  /** The fast certificate comes strictly after the ordinary one. */
  lemma FastIsLater(p: Params, s: seq<Cast>, r: Round, j: nat, k: nat)
    requires OneKind(s, Normal, r) && Emitted(p, s, Normal, j, false) && Emitted(p, s, Normal, k, true)
    ensures j < k
  {
    EmittedAt(p, s, Normal, r, j, false);
    EmittedAt(p, s, Normal, r, k, true);
    QuorumArithmetic(p);
    if k < j {
      VotersGrow(s, k + 1, j);
    }
  }

  // Every vote is for block d and is validly signed.
  predicate AllGood(s: seq<Cast>, d: Digest) {
    forall k :: 0 <= k < |s| ==> s[k].signed && s[k].vote.blkHash == d
  }

  lemma {:induction false} GoodBallots(s: seq<Cast>, d: Digest, k: nat)
    requires AllGood(s, d) && k <= |s|
    ensures BatchOk(Ballots(s, k), d)
  {
    if k > 0 {
      GoodBallots(s, d, k - 1);
    }
  }

  // The vote that raises the number of distinct voters to n.
  lemma {:induction false} VoteNumber(s: seq<Cast>, n: nat, j: nat) returns (k: nat)
    requires j <= |s| && 1 <= n <= Voters(s, j)
    ensures k < j && s[k].vote.author !in Ballots(s, k) && Voters(s, k + 1) == n
  {
    k := j - 1;
    if n < Voters(s, j) || s[k].vote.author in Ballots(s, k) {
      k := VoteNumber(s, n, k);
    }
  }

  /**
   With valid votes for one block, each certificate is emitted as soon as enough distinct
   votes have arrived, and its signers are exactly those voters. A fast certificate needs
   a fast quorum that is larger than an ordinary one.
   */
  lemma EmittedInTime(p: Params, s: seq<Cast>, kind: VoteType, r: Round, d: Digest, fast: bool) returns (k: nat)
    requires OneKind(s, kind, r) && AllGood(s, d)
    requires Size(p, kind, fast) <= Voters(s, |s|)
    requires fast ==> kind == Normal && p.Quorum() < p.FastCommit()
    ensures k < |s| && |Ballots(s, k + 1).Keys| == Size(p, kind, fast)
    ensures Answer(p, s, kind, k) == Ok(Some(QC(d, kind, r, Ballots(s, k + 1).Keys, fast)))
  {
    QuorumArithmetic(p);
    k := VoteNumber(s, Size(p, kind, fast), |s|);
    GoodBallots(s, d, k + 1);
    VotersCount(s, k + 1);
    MakerEmits(p, s, kind, r, k);
  }

  /** One bad vote before the threshold makes a Commit maker useless: it never emits anything. */
  lemma SpoiltMaker(p: Params, s: seq<Cast>, r: Round, i: Node, d: Digest, j: nat, k: nat)
    requires OneKind(s, Commit, r) && j <= |s| && Voters(s, j) <= p.SlowCommit()
    requires i in Ballots(s, j) && Ballots(s, j)[i] != Ballot(d, true)
    requires k < |s| && s[k].vote.blkHash == d
    ensures !Emitted(p, s, Commit, k, false)
  {
    if Emitted(p, s, Commit, k, false) {
      EmittedAt(p, s, Commit, r, k, false);
      if j <= k + 1 {
        FirstBallotStays(s, j, k + 1, i);
      } else {
        VotersGrow(s, k + 1, j);
        SameBallots(s, k + 1, j);
      }
    }
  }

  lemma {:induction false} FirstBallotStays(s: seq<Cast>, j: nat, k: nat, i: Node)
    requires j <= k <= |s| && i in Ballots(s, j)
    ensures i in Ballots(s, k) && Ballots(s, k)[i] == Ballots(s, j)[i]
    decreases k
  {
    if j < k {
      FirstBallotStays(s, j, k - 1, i);
    }
  }

  lemma {:induction false} SameBallots(s: seq<Cast>, j: nat, k: nat)
    requires j <= k <= |s| && Voters(s, j) == Voters(s, k)
    ensures Ballots(s, j) == Ballots(s, k)
    decreases k
  {
    if j < k {
      VotersGrow(s, j, k - 1);
      SameBallots(s, j, k - 1);
    }
  }

  lemma {:induction false} BallotWasCast(s: seq<Cast>, kind: VoteType, r: Round, k: nat, i: Node) returns (j: nat)
    requires OneKind(s, kind, r) && k <= |s| && i in Ballots(s, k)
    ensures j < k && s[j] == Cast(Vote(i, Ballots(s, k)[i].blkHash, kind, r), Ballots(s, k)[i].signed)
  {
    if i in Ballots(s, k - 1) {
      j := BallotWasCast(s, kind, r, k - 1, i);
    } else {
      j := k - 1;
    }
  }

  /**
   Whatever the stream, an emitted certificate is genuine: its signers are as many as its kind
   requires, and each of them signed a vote for its block, kind and round.
   */
  lemma EmittedIsGenuine(cfg: Config, log: seq<Msg>, s: seq<Cast>, kind: VoteType, r: Round, k: nat, fast: bool)
    requires OneKind(s, kind, r) && Emitted(cfg.p, s, kind, k, fast) && r > 0
    requires forall j :: 0 <= j < |s| && s[j].signed ==> s[j].vote.author in cfg.members && V(s[j].vote) in log
    ensures GenuineQc(cfg, log, Answer(cfg.p, s, kind, k).value.value)
  {
    EmittedAt(cfg.p, s, kind, r, k, fast);
    var d := s[k].vote.blkHash;
    forall i | i in Ballots(s, k + 1) ensures i in cfg.members && Voted(log, i, d, kind, r) {
      var j := BallotWasCast(s, kind, r, k + 1, i);
      assert s[j].signed;
    }
    VotersCount(s, k + 1);
  }

  // ---------------------------------------------------------------- the votes of given signers

  // One valid vote of each signer.
  lemma {:induction false} VotesOf(signers: set<Node>, d: Digest, kind: VoteType, r: Round) returns (s: seq<Cast>)
    ensures OneKind(s, kind, r) && AllGood(s, d) && |s| == |signers|
    ensures Ballots(s, |s|).Keys == signers
    ensures forall k :: 0 <= k < |s| ==> s[k].vote.author in signers
  {
    if signers == {} {
      s := [];
    } else {
      var i :| i in signers;
      var rest := VotesOf(signers - {i}, d, kind, r);
      s := rest + [Cast(Vote(i, d, kind, r), true)];
      SameStart(rest, s, |rest|);
    }
  }

  lemma {:induction false} SameStart(s: seq<Cast>, s': seq<Cast>, k: nat)
    requires k <= |s| && s <= s'
    ensures Ballots(s', k) == Ballots(s, k)
  {
    if k > 0 {
      SameStart(s, s', k - 1);
    }
  }

  /** Every QC with exactly as many signers as its kind needs is emitted by a maker that counts their votes. */
  lemma QcIsEmitted(p: Params, qc: QC) returns (s: seq<Cast>)
    requires |qc.signers| == Size(p, qc.kind, qc.fastQuorum) && (qc.fastQuorum ==> qc.kind == Normal && p.Quorum() < p.FastCommit())
    ensures OneKind(s, qc.kind, qc.round) && |s| == |qc.signers| > 0 && Answer(p, s, qc.kind, |s| - 1) == Ok(Some(qc))
    ensures forall k :: 0 <= k < |s| ==> s[k].signed && s[k].vote == Vote(s[k].vote.author, qc.blkHash, qc.kind, qc.round) && s[k].vote.author in qc.signers
  {
    assert p.Quorum() > 0 && p.FastCommit() > 0 by { QuorumArithmetic(p); }
    s := VotesOf(qc.signers, qc.blkHash, qc.kind, qc.round);
    VotersCount(s, |s|);
    VotersAtMost(s, |s| - 1);
    GoodBallots(s, qc.blkHash, |s|);
    MakerEmits(p, s, qc.kind, qc.round, |s| - 1);
  }

  lemma {:induction false} VotersAtMost(s: seq<Cast>, k: nat)
    requires k <= |s|
    ensures Voters(s, k) <= k
  {
    if k > 0 {
      VotersAtMost(s, k - 1);
    }
  }
}
