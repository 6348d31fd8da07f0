/**
 The two certificate makers of hydrangea/src/aggregator.rs as values: what a maker has
 counted so far and what one more message makes of it. `Aggregation` proves the
 imperative makers, with their bitmaps and group arithmetic, equal to these.
 */
module Makers {
  import opened Types
  import opened Thresholds

  datatype Result<+T> = Ok(value: T) | Err

  // A vote counted by a QC maker: the block it names and whether its signature is valid.
  datatype Ballot = Ballot(blkHash: Digest, signed: bool)

  datatype Maker = Maker(used: set<Node>, ballots: map<Node, Ballot>, weight: nat, formed: bool)

  const EMPTY_MAKER := Maker({}, map[], 0, false)

  // The batch check is ideal: it passes iff every counted signature is valid for this block.
  predicate BatchOk(ballots: map<Node, Ballot>, d: Digest) {
    forall i :: i in ballots ==> ballots[i] == Ballot(d, true)
  }

  function Certify(ballots: map<Node, Ballot>, v: Vote, fastQuorum: bool): Result<Option<QC>> {
    if BatchOk(ballots, v.blkHash) then Ok(Some(QC(v.blkHash, v.kind, v.round, ballots.Keys, fastQuorum))) else Err
  }

  // QCMaker::append, aggregator.rs:106-208, for an author in the committee.
  function Append(p: Params, m: Maker, v: Vote, signed: bool, checkFast: bool): (Maker, Result<Option<QC>>) {
    if v.author in m.used then (m, Ok(None))
    else if m.formed then (m.(used := m.used + {v.author}), Ok(None))
    else Conclude(p, Tally(m, v, signed), v, checkFast)
  }

  function Tally(m: Maker, v: Vote, signed: bool): Maker {
    m.(used := m.used + {v.author}, ballots := m.ballots[v.author := Ballot(v.blkHash, signed)], weight := m.weight + 1)
  }

  // aggregator.rs:139-204
  function Conclude(p: Params, m: Maker, v: Vote, checkFast: bool): (Maker, Result<Option<QC>>) {
    if m.weight == (if v.kind == Normal then p.Quorum() else p.SlowCommit()) then
      (m.(formed := !checkFast), Certify(m.ballots, v, false))
    else if v.kind == Normal && m.weight == p.FastCommit() then
      (m.(weight := 0, formed := true), Certify(m.ballots, v, true))
    else (m, Ok(None))
  }

  // A vote with its signature. Where signatures are ideal, all that matters of one is what it covers.
  datatype SignedVote<+S> = SignedVote(vote: Vote, sig: S)
  type Report = SignedVote<Option<Statement>>

  datatype TcMaker = TcMaker(highQc: QC, highWqc: WQC, used: set<Node>, votes: seq<Locked>, highVotes: seq<Report>, weight: nat)

  const EMPTY_TC_MAKER := TcMaker(GENESIS_QC, GENESIS_WQC, {}, [], [], 0)

  // TCMaker::append, aggregator.rs:300-316, for a new and well-formed timeout.
  function Count(m: TcMaker, t: Timeout): TcMaker {
    TcMaker(if t.highQc.round > m.highQc.round then t.highQc else m.highQc,
            if t.highWqc.round > m.highWqc.round then t.highWqc else m.highWqc,
            m.used + {t.author},
            m.votes + [Locked(t.author, t.highQc.round)],
            m.highVotes + [SignedVote(t.highVote, t.covers)],
            m.weight + 1)
  }

  // The votes reported for one round, in order of arrival (aggregator.rs:234-240).
  function InRound<S>(votes: seq<SignedVote<S>>, r: Round): seq<SignedVote<S>> {
    if votes == [] then []
    else
      var rest, last := InRound(votes[..|votes| - 1], r), votes[|votes| - 1];
      if last.vote.round == r then rest + [last] else rest
  }

  function VotersOf<S>(votes: seq<SignedVote<S>>): set<Node> {
    set k | 0 <= k < |votes| :: votes[k].vote.author
  }

  // A certificate named after the first of enough votes of one round. Which round is tried
  // first depends on the hash map's order.
  predicate MayCertify<S>(p: Params, votes: seq<SignedVote<S>>, wqc: WQC) {
    var group := InRound(votes, wqc.round);
    |group| >= p.WeakCert() && wqc.blkHash == group[0].vote.blkHash && wqc.signers == VotersOf(group)
  }

  // The ideal batch check of a group: every signature covers what the last vote says (aggregator.rs:272-274).
  predicate WeakBatchOk(group: seq<Report>) {
    group != [] && forall k :: 0 <= k < |group| ==> group[k].sig == Some(StatementOf(group[|group| - 1].vote))
  }

  // What check_wqc may build. A vote by a stranger in the group would have made it panic.
  predicate Builds(p: Params, members: set<Node>, votes: seq<Report>, wqc: WQC) {
    MayCertify(p, votes, wqc) && WeakBatchOk(InRound(votes, wqc.round)) && wqc.signers <= members
  }

  lemma {:induction false} InRoundIsReported<S>(votes: seq<SignedVote<S>>, r: Round, k: nat)
    requires k < |InRound(votes, r)|
    ensures InRound(votes, r)[k] in votes && InRound(votes, r)[k].vote.round == r
  {
    if votes != [] {
      var rest := InRound(votes[..|votes| - 1], r);
      if k < |rest| {
        InRoundIsReported(votes[..|votes| - 1], r, k);
      }
    }
  }

  // TC::is_well_formed, messages.rs:606-637; `signed` says whether every signature in the TC is valid
  function TcWellFormed(p: Params, members: set<Node>, tc: TC, signed: bool): bool {
    && (forall k :: 0 <= k < |tc.votes| ==> tc.votes[k].round <= tc.highQc.round && tc.votes[k].author in members)
    && (forall j, k :: 0 <= j < k < |tc.votes| ==> tc.votes[j].author != tc.votes[k].author)
    && |tc.votes| >= p.Quorum()
    && signed
  }

  // Votes of distinct authors are as many as their authors.
  lemma {:induction false} AuthorsCount(votes: seq<Locked>)
    requires forall j, k :: 0 <= j < k < |votes| ==> votes[j].author != votes[k].author
    ensures |Authors(votes)| == |votes|
  {
    if votes != [] {
      var rest, last := votes[..|votes| - 1], votes[|votes| - 1];
      AuthorsCount(rest);
      assert Authors(votes) == Authors(rest) + {last.author};
    }
  }

  lemma {:induction false} FewerAuthors(votes: seq<Locked>, j: nat, k: nat)
    requires j < k < |votes| && votes[j].author == votes[k].author
    ensures |Authors(votes)| < |votes|
  {
    var rest := votes[..k] + votes[k + 1..];
    assert votes[..k][j] == votes[j];
    AtMostAuthors(rest);
    forall i | i in Authors(votes) ensures i in Authors(rest) {
      var m :| 0 <= m < |votes| && votes[m].author == i;
      assert rest[if m < k then m else if m == k then j else m - 1].author == i;
    }
    SubsetSize(Authors(votes), Authors(rest));
  }

  lemma {:induction false} AtMostAuthors(votes: seq<Locked>)
    ensures |Authors(votes)| <= |votes|
  {
    if votes != [] {
      var last := |votes| - 1;
      AtMostAuthors(votes[..last]);
      assert Authors(votes) == Authors(votes[..last]) + {votes[last].author};
    }
  }

  /**
   A TC is accepted exactly if its authors are a quorum of members, each with one vote, none of
   them reports a lock above the high QC, and all signatures are valid.
   */
  lemma AcceptedIff(p: Params, members: set<Node>, tc: TC, signed: bool)
    ensures TcWellFormed(p, members, tc, signed) <==>
            && Authors(tc.votes) <= members && |Authors(tc.votes)| >= p.Quorum() && |Authors(tc.votes)| == |tc.votes|
            && (forall k :: 0 <= k < |tc.votes| ==> tc.votes[k].round <= tc.highQc.round) && signed
  {
    if forall j, k :: 0 <= j < k < |tc.votes| ==> tc.votes[j].author != tc.votes[k].author {
      AuthorsCount(tc.votes);
    } else {
      var j, k :| 0 <= j < k < |tc.votes| && tc.votes[j].author == tc.votes[k].author;
      FewerAuthors(tc.votes, j, k);
    }
    assert forall k :: 0 <= k < |tc.votes| ==> tc.votes[k].author in Authors(tc.votes);
  }

  /** Whichever f nodes are faulty, an accepted TC has an honest author in every quorum. */
  lemma AcceptedMeetsQuorum(p: Params, members: set<Node>, tc: TC, signed: bool, quorum: set<Node>, faulty: set<Node>) returns (i: Node)
    requires |members| == p.N() && |faulty| <= p.f && quorum <= members && |quorum| >= p.Quorum()
    requires TcWellFormed(p, members, tc, signed)
    ensures i in Authors(tc.votes) && i in quorum && i !in faulty
  {
    AcceptedIff(p, members, tc, signed);
    QuorumArithmetic(p);
    i := CommonHonest(Authors(tc.votes), quorum, members, faulty);
  }

  // The loop over the votes of TC::is_well_formed, messages.rs:608-637.
  method TcIsWellFormed(p: Params, members: set<Node>, tc: TC, signed: bool) returns (ok: bool)
    ensures ok <==>
            && Authors(tc.votes) <= members && |Authors(tc.votes)| >= p.Quorum() && |Authors(tc.votes)| == |tc.votes|
            && (forall k :: 0 <= k < |tc.votes| ==> tc.votes[k].round <= tc.highQc.round) && signed
    ensures ok <==> TcWellFormed(p, members, tc, signed)
  {
    AcceptedIff(p, members, tc, signed);
    var weight, used := 0, {};
    for i := 0 to |tc.votes|
      invariant weight == i && used == set k | 0 <= k < i :: tc.votes[k].author
      invariant forall k :: 0 <= k < i ==> tc.votes[k].round <= tc.highQc.round && tc.votes[k].author in members
      invariant forall j, k :: 0 <= j < k < i ==> tc.votes[j].author != tc.votes[k].author
    {
      var v := tc.votes[i];
      if v.round > tc.highQc.round || v.author in used || v.author !in members {
        return false;
      }
      used := used + {v.author};
      weight := weight + 1;
    }
    ok := weight >= p.Quorum() && signed;
  }

  // The TC assembled at the view-change threshold, with the maker's own WQC or a newly built one.
  function Assemble(m: TcMaker, wqc: Option<WQC>, r: Round): TC {
    TC(m.highQc, if wqc.Some? && wqc.value.round > m.highWqc.round then wqc.value else m.highWqc, r, m.votes)
  }

  // From the view-change size on, the maker keeps the WQC of the TC it assembles (aggregator.rs:318-328).
  function Adopt(p: Params, m: TcMaker, wqc: Option<WQC>, r: Round): TcMaker {
    if m.weight >= p.ViewChange() then m.(highWqc := Assemble(m, wqc, r).highWqc) else m
  }

  // What check_wqc may add to a counted timeout.
  predicate MayBuild(p: Params, members: set<Node>, m: TcMaker, wqc: Option<WQC>) {
    wqc.Some? ==> m.weight >= p.ViewChange() && Builds(p, members, m.highVotes, wqc.value)
  }

  // ---------------------------------------------------------------- lists of timeouts

  function Senders(ts: seq<Timeout>): set<Node> {
    set k | 0 <= k < |ts| :: ts[k].author
  }

  predicate DistinctSenders(ts: seq<Timeout>) {
    forall j, k :: 0 <= j < k < |ts| ==> ts[j].author != ts[k].author
  }

  function VoteAuthors(ts: seq<Timeout>): set<Node> {
    set k | 0 <= k < |ts| :: ts[k].highVote.author
  }

  // The votes that the timeouts report.
  function ReportsOf(ts: seq<Timeout>): seq<Report> {
    seq(|ts|, k requires 0 <= k < |ts| => SignedVote(ts[k].highVote, ts[k].covers))
  }

  function Authors(votes: seq<Locked>): set<Node> {
    set k | 0 <= k < |votes| :: votes[k].author
  }
}
