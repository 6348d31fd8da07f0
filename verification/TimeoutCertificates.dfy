/**
 What a TC maker assembles from a stream of timeouts for one round, with duplicates and in
 any order (hydrangea/src/aggregator.rs:211-343).
 */
module TimeoutCertificates {
  import opened Types
  import opened Thresholds
  import opened Steps
  import opened Makers
  import opened Network

  // A well-formed timeout as it reaches the maker, and the WQC that check_wqc builds then, if any.
  datatype Arrival = Arrival(t: Timeout, built: Option<WQC>)

  function TimeoutsOf(xs: seq<Arrival>): seq<Timeout> {
    seq(|xs|, k requires 0 <= k < |xs| => xs[k].t)
  }

  // The first timeout of each author.
  function Firsts(ts: seq<Timeout>): seq<Timeout> {
    if ts == [] then []
    else
      var rest, last := Firsts(ts[..|ts| - 1]), ts[|ts| - 1];
      if last.author in Senders(rest) then rest else rest + [last]
  }

  // The maker after a stream (aggregator.rs:286-343).
  function MakerAfter(p: Params, xs: seq<Arrival>): TcMaker {
    if xs == [] then EMPTY_TC_MAKER
    else
      var m, last := MakerAfter(p, xs[..|xs| - 1]), xs[|xs| - 1];
      if last.t.author in m.used then m else Adopt(p, Count(m, last.t), last.built, last.t.round)
  }

  // The timeouts that it has counted.
  function CountedIn(xs: seq<Arrival>): seq<Timeout> {
    Firsts(TimeoutsOf(xs))
  }

  // The TC that it has assembled last, once it has enough timeouts.
  function TcOf(m: TcMaker, r: Round): TC {
    TC(m.highQc, m.highWqc, r, m.votes)
  }

  // The maker's contents in terms of the timeouts it counted; only its WQC also depends on what it built.
  ghost predicate Holds(m: TcMaker, ts: seq<Timeout>) {
    && m.used == Senders(ts) && m.weight == |ts| == |m.votes| && m.highVotes == ReportsOf(ts)
    && (forall k :: 0 <= k < |ts| ==> m.votes[k] == Locked(ts[k].author, ts[k].highQc.round))
    && (forall k :: 0 <= k < |ts| ==> ts[k].highQc.round <= m.highQc.round && ts[k].highWqc.round <= m.highWqc.round)
    && ((m.highQc == GENESIS_QC && forall k :: 0 <= k < |ts| ==> ts[k].highQc.round == 0) || exists k :: FirstHighest(ts, k, m.highQc))
  }

  ghost predicate FirstHighest(ts: seq<Timeout>, k: nat, qc: QC) {
    k < |ts| && ts[k].highQc == qc && qc.round > 0 && forall j :: 0 <= j < k ==> ts[j].highQc.round < qc.round
  }

  lemma CountHolds(m: TcMaker, ts: seq<Timeout>, t: Timeout)
    requires Holds(m, ts)
    ensures Holds(Count(m, t), ts + [t])
  {
    var ts', m' := ts + [t], Count(m, t);
    assert Senders(ts') == Senders(ts) + {t.author} by {
      assert ts'[|ts|] == t;
      assert forall k :: 0 <= k < |ts| ==> ts'[k] == ts[k];
    }
    if t.highQc.round > m.highQc.round {
      assert FirstHighest(ts', |ts|, m'.highQc);
    } else if k :| FirstHighest(ts, k, m.highQc) {
      assert FirstHighest(ts', k, m'.highQc);
    }
  }

  lemma {:induction false} FirstsAre(ts: seq<Timeout>)
    ensures DistinctSenders(Firsts(ts)) && forall t :: t in Firsts(ts) ==> t in ts
  {
    if ts != [] {
      FirstsAre(ts[..|ts| - 1]);
    }
  }

  /**
   For every stream: the maker holds the first timeout of each sender, in order of arrival, the
   highest QC among them, and a WQC at least as high as theirs.
   */
  lemma {:induction false} MakerHolds(p: Params, xs: seq<Arrival>)
    ensures Holds(MakerAfter(p, xs), CountedIn(xs)) && DistinctSenders(CountedIn(xs))
  {
    FirstsAre(TimeoutsOf(xs));
    if xs != [] {
      var rest, last := xs[..|xs| - 1], xs[|xs| - 1];
      MakerHolds(p, rest);
      assert TimeoutsOf(xs)[..|xs| - 1] == TimeoutsOf(rest);
      if last.t.author !in Senders(CountedIn(rest)) {
        CountHolds(MakerAfter(p, rest), CountedIn(rest), last.t);
      }
    }
  }

  /** Every TC that the maker assembles passes the receiver's check: a quorum of distinct members, none locked above its high QC. */
  lemma AssembledIsWellFormed(p: Params, members: set<Node>, xs: seq<Arrival>, r: Round)
    requires MakerAfter(p, xs).weight >= p.ViewChange()
    requires forall k :: 0 <= k < |xs| ==> xs[k].t.author in members
    ensures TcWellFormed(p, members, TcOf(MakerAfter(p, xs), r), true)
  {
    MakerHolds(p, xs);
    FirstsAre(TimeoutsOf(xs));
    AcceptedTcSuffices(p);
    var votes := MakerAfter(p, xs).votes;
    forall k | 0 <= k < |votes| ensures votes[k].author in members {
      assert CountedIn(xs)[k] in TimeoutsOf(xs);
    }
  }

  // ---------------------------------------------------------------- weak certificates

  // The timeouts whose votes are of round r.
  function ReportingIn(ts: seq<Timeout>, r: Round): seq<Timeout> {
    if ts == [] then []
    else
      var rest, last := ReportingIn(ts[..|ts| - 1], r), ts[|ts| - 1];
      if last.highVote.round == r then rest + [last] else rest
  }

  // The group that check_wqc forms is that of these timeouts.
  lemma {:induction false} GroupOfRound(ts: seq<Timeout>, r: Round)
    ensures InRound(ReportsOf(ts), r) == ReportsOf(ReportingIn(ts, r))
  {
    if ts != [] {
      var rest, last := ts[..|ts| - 1], ts[|ts| - 1];
      GroupOfRound(rest, r);
      assert ReportsOf(ts)[..|ts| - 1] == ReportsOf(rest);
      if last.highVote.round == r {
        assert ReportsOf(ReportingIn(rest, r) + [last]) == ReportsOf(ReportingIn(rest, r)) + [SignedVote(last.highVote, last.covers)];
      }
    }
  }

  lemma {:induction false} ReportingAre(ts: seq<Timeout>, r: Round, k: nat)
    requires k < |ReportingIn(ts, r)|
    ensures ReportingIn(ts, r)[k] in ts && ReportingIn(ts, r)[k].highVote.round == r
  {
    var rest := ts[..|ts| - 1];
    if k < |ReportingIn(rest, r)| {
      ReportingAre(rest, r, k);
    }
  }

  lemma {:induction false} ReportingDistinct(ts: seq<Timeout>, r: Round)
    requires DistinctSenders(ts)
    ensures DistinctSenders(ReportingIn(ts, r))
  {
    if ts != [] {
      var rest, last := ts[..|ts| - 1], ts[|ts| - 1];
      ReportingDistinct(rest, r);
      forall k | 0 <= k < |ReportingIn(rest, r)| ensures ReportingIn(rest, r)[k].author != last.author {
        ReportingAre(rest, r, k);
      }
    }
  }

  // Each timeout embeds its author's own vote.
  predicate OwnVotes(ts: seq<Timeout>) {
    forall k :: 0 <= k < |ts| ==> ts[k].highVote.author == ts[k].author
  }

  lemma OwnReporting(ts: seq<Timeout>, r: Round)
    requires OwnVotes(ts)
    ensures OwnVotes(ReportingIn(ts, r))
  {
    forall k | 0 <= k < |ReportingIn(ts, r)| ensures ReportingIn(ts, r)[k].highVote.author == ReportingIn(ts, r)[k].author {
      ReportingAre(ts, r, k);
      var j :| 0 <= j < |ts| && ts[j] == ReportingIn(ts, r)[k];
    }
  }

  lemma VotersAreAuthors(ts: seq<Timeout>)
    ensures VotersOf(ReportsOf(ts)) == VoteAuthors(ts)
  {
    var rs := ReportsOf(ts);
    forall i | i in VoteAuthors(ts) ensures i in VotersOf(rs) {
      var k :| 0 <= k < |ts| && ts[k].highVote.author == i;
      assert rs[k].vote.author == i;
    }
  }

  /**
   Whatever was counted, a WQC that check_wqc builds has f + p + 1 distinct voters when each
   timeout embeds its author's own vote.
   */
  lemma WqcVoters(p: Params, ts: seq<Timeout>, wqc: WQC)
    requires DistinctSenders(ts) && OwnVotes(ts) && MayCertify(p, ReportsOf(ts), wqc)
    ensures |wqc.signers| == |ReportingIn(ts, wqc.round)| >= p.WeakCert()
    ensures wqc.signers == VoteAuthors(ReportingIn(ts, wqc.round))
  {
    GroupOfRound(ts, wqc.round);
    VotersAreAuthors(ReportingIn(ts, wqc.round));
    ReportingDistinct(ts, wqc.round);
    OwnReporting(ts, wqc.round);
    OwnVoters(ReportingIn(ts, wqc.round));
  }

  // The timeouts are from distinct members and were really sent, and the signatures in them are not forged.
  ghost predicate ReallySent(cfg: Config, log: seq<Msg>, ts: seq<Timeout>) {
    && DistinctSenders(ts)
    && (forall k :: 0 <= k < |ts| ==> ts[k].author in cfg.members && T(ts[k]) in log)
    && (forall k :: 0 <= k < |ts| && ts[k].covers.Some? ==> SignedFor(log, ts[k], ts[k].covers.value))
  }

  /** What check_wqc builds from timeouts that were sent is a weak certificate of the network model. */
  lemma BuiltFromSent(cfg: Config, log: seq<Msg>, ts: seq<Timeout>, wqc: WQC)
    requires ReallySent(cfg, log, ts) && Builds(cfg.p, cfg.members, ReportsOf(ts), wqc)
    ensures WqcGroup(cfg, log, ReportingIn(ts, wqc.round), wqc)
  {
    var group := ReportingIn(ts, wqc.round);
    GroupOfRound(ts, wqc.round);
    ReportingDistinct(ts, wqc.round);
    VotersAreAuthors(group);
    var reports := ReportsOf(group);
    forall k | 0 <= k < |group|
      ensures group[k].author in cfg.members && T(group[k]) in log && group[k].highVote.round == wqc.round
      ensures group[k].highVote.author in cfg.members && SignedFor(log, group[k], StatementOf(group[|group| - 1].highVote))
    {
      ReportingAre(ts, wqc.round, k);
      var j :| 0 <= j < |ts| && ts[j] == group[k];
      assert reports[k].sig == Some(StatementOf(reports[|group| - 1].vote));
      assert group[k].highVote.author in VoteAuthors(group);
    }
  }

  // The first and the last vote of the group name one block, and the group has enough distinct
  // voters: what check_wqc would have to ask before it builds a certificate.
  predicate Guard(p: Params, votes: seq<Report>, r: Round) {
    var group := InRound(votes, r);
    group != [] && group[0].vote.blkHash == group[|group| - 1].vote.blkHash && |VotersOf(group)| >= p.WeakCert()
  }

  // An honest reporter signed a Normal vote, of a round above 0, for what the last one says.
  lemma HonestSigned(cfg: Config, log: seq<Msg>, t: Timeout, of: Statement)
    requires ReportsTruthful(cfg, log) && cfg.Honest(t.author) && T(t) in log && SignedFor(log, t, of)
    ensures of.kind == Normal && of.round == t.highVote.round > 0
  {
    ReportIsTruthful(cfg, log, t);
  }

  lemma {:induction false} SendersCount(ts: seq<Timeout>)
    requires DistinctSenders(ts)
    ensures |Senders(ts)| == |ts|
  {
    if ts != [] {
      var rest, last := ts[..|ts| - 1], ts[|ts| - 1];
      SendersCount(rest);
      assert Senders(ts) == Senders(rest) + {last.author};
    }
  }

  // All voters of a group signed Normal votes for the block that the last one names.
  lemma GroupSignedLast(cfg: Config, log: seq<Msg>, group: seq<Timeout>, wqc: WQC)
    requires cfg.Committee() && ReportsTruthful(cfg, log) && WqcGroup(cfg, log, group, wqc)
    ensures wqc.round > 0 && AllVoted(cfg, log, wqc.signers, group[|group| - 1].highVote.blkHash, Normal, wqc.round)
  {
    SendersCount(group);
    QuorumArithmetic(cfg.p);
    var i := HonestMember(Senders(group), cfg.byzantine);
    var of := StatementOf(group[|group| - 1].highVote);
    var k :| 0 <= k < |group| && group[k].author == i;
    HonestSigned(cfg, log, group[k], of);
    forall v | v in wqc.signers ensures v in cfg.members && Voted(log, v, of.blkHash, Normal, wqc.round) {
      var m :| 0 <= m < |group| && group[m].highVote.author == v;
      assert SignedFor(log, group[m], of);
    }
  }

  /**
   What the guard buys: in the log of a run, a WQC that check_wqc builds from a group that
   passes the guard is backed by votes for the block it names.
   */
  lemma GuardSuffices(cfg: Config, log: seq<Msg>, ts: seq<Timeout>, wqc: WQC)
    requires cfg.Committee() && ReportsTruthful(cfg, log) && ReallySent(cfg, log, ts)
    requires Builds(cfg.p, cfg.members, ReportsOf(ts), wqc) && Guard(cfg.p, ReportsOf(ts), wqc.round)
    ensures GenuineWqc(cfg, log, wqc)
  {
    BuiltFromSent(cfg, log, ts, wqc);
    GroupOfRound(ts, wqc.round);
    GroupSignedLast(cfg, log, ReportingIn(ts, wqc.round), wqc);
  }

  // What holds of the log of every run (Network.RunInv and RunTruthful).
  ghost predicate HonestLog(cfg: Config, log: seq<Msg>) {
    cfg.Committee() && ReportsTruthful(cfg, log) && OneVotePerRound(cfg, log)
  }

  /**
   Soundness of weak certificates. In the log of any run, a WQC that check_wqc builds is backed by
   votes for the block it names if and only if its group passes the guard; and when each timeout
   embeds its author's own vote it has f + p + 1 distinct voters, so that the guard comes down
   to the first and the last vote naming the same block.
   */
  lemma WeakCertificateSound(cfg: Config, log: seq<Msg>, ts: seq<Timeout>, wqc: WQC)
    requires HonestLog(cfg, log) && ReallySent(cfg, log, ts) && Builds(cfg.p, cfg.members, ReportsOf(ts), wqc)
    ensures GenuineWqc(cfg, log, wqc) <==> Guard(cfg.p, ReportsOf(ts), wqc.round)
    ensures OwnVotes(ts) ==> |wqc.signers| >= cfg.p.WeakCert()
  {
    BuiltFromSent(cfg, log, ts, wqc);
    GroupOfRound(ts, wqc.round);
    var group := ReportingIn(ts, wqc.round);
    GroupSignedLast(cfg, log, group, wqc);
    if GenuineWqc(cfg, log, wqc) {
      BackedTwice(cfg, log, wqc, group[|group| - 1].highVote.blkHash);
    } else if Guard(cfg.p, ReportsOf(ts), wqc.round) {
      GuardSuffices(cfg, log, ts, wqc);
    }
    if OwnVotes(ts) {
      WqcVoters(cfg.p, ts, wqc);
    }
  }

  // Voters that include an honest one vote for one block in a round.
  lemma BackedTwice(cfg: Config, log: seq<Msg>, wqc: WQC, d: Digest)
    requires HonestLog(cfg, log) && GenuineWqc(cfg, log, wqc) && wqc.round > 0
    requires AllVoted(cfg, log, wqc.signers, d, Normal, wqc.round)
    ensures wqc.blkHash == d
  {
    QuorumArithmetic(cfg.p);
    var i := HonestMember(wqc.signers, cfg.byzantine);
    assert Voted(log, i, d, Normal, wqc.round) && Voted(log, i, wqc.blkHash, Normal, wqc.round);
    assert SameRoundSameBlock(i, log);
  }

  // ---------------------------------------------------------------- assembled certificates

  // The timeouts that a maker of round r has counted, and its QC.
  ghost predicate CountedAre(cfg: Config, log: seq<Msg>, m: TcMaker, ts: seq<Timeout>, r: Round) {
    && ReallySent(cfg, log, ts) && m.used == Senders(ts) && m.weight == |ts| == |m.votes| && m.highVotes == ReportsOf(ts)
    && (forall k :: 0 <= k < |ts| ==> ts[k].round == r)
    && (forall k :: 0 <= k < |ts| ==> m.votes[k] == Locked(ts[k].author, ts[k].highQc.round) && ts[k].highQc.round <= m.highQc.round)
    && GenuineQc(cfg, log, m.highQc)
  }

  /** Of a TC that a maker assembles, everything is genuine if its WQC is. */
  lemma AssembledButWqc(cfg: Config, log: seq<Msg>, m: TcMaker, ts: seq<Timeout>, r: Round)
    requires CountedAre(cfg, log, m, ts, r) && m.weight >= cfg.p.ViewChange()
    ensures GenuineTc(cfg, log, TcOf(m, r)) <==> AllowedWqc(cfg, log, m.highWqc)
  {
    AuthorsCount(m.votes);
    forall k | 0 <= k < |m.votes| ensures TimedOut(log, m.votes[k], r) {
      assert T(ts[k]) in log;
    }
  }

  // Each WQC is one that check_wqc may have built when its timeout arrived.
  ghost predicate ProperlyBuilt(p: Params, members: set<Node>, xs: seq<Arrival>) {
    forall k :: 0 <= k < |xs| ==> MayBuild(p, members, Count(MakerAfter(p, xs[..k]), xs[k].t), xs[k].built)
  }

  ghost predicate EmbeddedGenuine(cfg: Config, log: seq<Msg>, xs: seq<Arrival>, r: Round) {
    forall k :: 0 <= k < |xs| ==>
      xs[k].t.round == r && GenuineQc(cfg, log, xs[k].t.highQc) && AllowedWqc(cfg, log, xs[k].t.highWqc)
  }

  // Where the WQC that the maker carries was built, unless it came in a timeout.
  function Origin(p: Params, xs: seq<Arrival>): Option<nat> {
    if xs == [] then None
    else
      var rest, last := xs[..|xs| - 1], xs[|xs| - 1];
      var m := MakerAfter(p, rest);
      if last.t.author in m.used then Origin(p, rest)
      else
        var m' := Count(m, last.t);
        if m'.weight >= p.ViewChange() && last.built.Some? && last.built.value.round > m'.highWqc.round then Some(|xs| - 1)
        else if last.t.highWqc.round > m.highWqc.round then None
        else Origin(p, rest)
  }

  lemma {:induction false} OriginIs(p: Params, xs: seq<Arrival>)
    ensures Origin(p, xs).Some? ==>
            var k := Origin(p, xs).value;
            && k < |xs| && xs[k].built == Some(MakerAfter(p, xs).highWqc) && xs[k].t.author !in MakerAfter(p, xs[..k]).used
            && MakerAfter(p, xs).highWqc.round > 0
    ensures Origin(p, xs) == None ==>
            MakerAfter(p, xs).highWqc == GENESIS_WQC || exists k :: 0 <= k < |xs| && xs[k].t.highWqc == MakerAfter(p, xs).highWqc
  {
    if xs != [] {
      var rest, last := xs[..|xs| - 1], xs[|xs| - 1];
      OriginIs(p, rest);
      if Origin(p, xs).Some? && Origin(p, xs).value < |rest| {
        assert xs[..Origin(p, xs).value] == rest[..Origin(p, xs).value];
      }
      if Origin(p, xs) == None && Origin(p, rest) == None && MakerAfter(p, xs).highWqc == MakerAfter(p, rest).highWqc != GENESIS_WQC {
        var k :| 0 <= k < |rest| && rest[k].t.highWqc == MakerAfter(p, rest).highWqc;
        assert xs[k].t.highWqc == MakerAfter(p, xs).highWqc;
      }
    }
  }

  // The votes from which the WQC of arrival k was built.
  function VotesAt(xs: seq<Arrival>, k: nat): seq<Report>
    requires k < |xs|
  {
    ReportsOf(CountedIn(xs[..k + 1]))
  }

  lemma VotesAtAre(p: Params, xs: seq<Arrival>, k: nat)
    requires k < |xs| && xs[k].t.author !in MakerAfter(p, xs[..k]).used
    ensures Count(MakerAfter(p, xs[..k]), xs[k].t).highVotes == VotesAt(xs, k)
  {
    MakerHolds(p, xs[..k + 1]);
    assert xs[..k + 1][..k] == xs[..k];
  }

  lemma {:induction false} FirstsSent(cfg: Config, log: seq<Msg>, ts: seq<Timeout>)
    requires forall k :: 0 <= k < |ts| ==> ts[k].author in cfg.members && T(ts[k]) in log
    requires forall k :: 0 <= k < |ts| && ts[k].covers.Some? ==> SignedFor(log, ts[k], ts[k].covers.value)
    ensures ReallySent(cfg, log, Firsts(ts))
  {
    FirstsAre(ts);
    forall k | 0 <= k < |Firsts(ts)|
      ensures Firsts(ts)[k].author in cfg.members && T(Firsts(ts)[k]) in log
      ensures Firsts(ts)[k].covers.Some? ==> SignedFor(log, Firsts(ts)[k], Firsts(ts)[k].covers.value)
    {
      assert Firsts(ts)[k] in ts;
      var j :| 0 <= j < |ts| && ts[j] == Firsts(ts)[k];
    }
  }

  // Every timeout of the stream is from a member and was sent, with signatures that are not forged.
  ghost predicate ArrivalsSent(cfg: Config, log: seq<Msg>, xs: seq<Arrival>) {
    forall k :: 0 <= k < |xs| ==>
      && xs[k].t.author in cfg.members && T(xs[k].t) in log
      && (xs[k].t.covers.Some? ==> SignedFor(log, xs[k].t, xs[k].t.covers.value))
  }

  lemma StreamCounted(cfg: Config, log: seq<Msg>, xs: seq<Arrival>, r: Round)
    requires ArrivalsSent(cfg, log, xs) && EmbeddedGenuine(cfg, log, xs, r)
    ensures CountedAre(cfg, log, MakerAfter(cfg.p, xs), CountedIn(xs), r)
  {
    var m, ts, first := MakerAfter(cfg.p, xs), TimeoutsOf(xs), CountedIn(xs);
    MakerHolds(cfg.p, xs);
    FirstsSent(cfg, log, ts);
    FirstsAre(ts);
    forall k | 0 <= k < |first| ensures first[k].round == r {
      assert first[k] in ts;
    }
    if m.highQc != GENESIS_QC {
      var k :| 0 <= k < |first| && first[k].highQc == m.highQc;
      assert first[k] in ts;
    }
  }

  // The WQC built at arrival k is backed iff its group passed the guard.
  lemma BuiltAt(cfg: Config, log: seq<Msg>, xs: seq<Arrival>, k: nat)
    requires HonestLog(cfg, log) && ArrivalsSent(cfg, log, xs) && ProperlyBuilt(cfg.p, cfg.members, xs)
    requires k < |xs| && xs[k].built.Some? && xs[k].t.author !in MakerAfter(cfg.p, xs[..k]).used
    ensures BuiltWqc(cfg, log, xs[k].built.value)
    ensures GenuineWqc(cfg, log, xs[k].built.value) <==> Guard(cfg.p, VotesAt(xs, k), xs[k].built.value.round)
  {
    VotesAtAre(cfg.p, xs, k);
    var ts := CountedIn(xs[..k + 1]);
    FirstsSent(cfg, log, TimeoutsOf(xs[..k + 1]));
    BuiltFromSent(cfg, log, ts, xs[k].built.value);
    WeakCertificateSound(cfg, log, ts, xs[k].built.value);
  }

  /**
   The TC that a maker has assembled last from timeouts that were sent, with genuine certificates
   in them. If WQCs need only be built, it is genuine. If they must be exact, it is genuine if and
   only if the WQC it carries, where the maker built that, now or earlier, came from a group that
   passed the guard. Its high QC is the highest that any included timeout reports.
   */
  lemma AssembledIsGenuine(cfg: Config, log: seq<Msg>, xs: seq<Arrival>, r: Round)
    requires MakerAfter(cfg.p, xs).weight >= cfg.p.ViewChange() && HonestLog(cfg, log)
    requires ArrivalsSent(cfg, log, xs) && EmbeddedGenuine(cfg, log, xs, r) && ProperlyBuilt(cfg.p, cfg.members, xs)
    ensures !cfg.exactWqc ==> GenuineTc(cfg, log, TcOf(MakerAfter(cfg.p, xs), r))
    ensures cfg.exactWqc ==>
            (GenuineTc(cfg, log, TcOf(MakerAfter(cfg.p, xs), r)) <==>
             match Origin(cfg.p, xs) {
               case None => true
               case Some(k) => k < |xs| && Guard(cfg.p, VotesAt(xs, k), MakerAfter(cfg.p, xs).highWqc.round)
             })
    ensures forall k :: 0 <= k < |CountedIn(xs)| ==> CountedIn(xs)[k].highQc.round <= TcOf(MakerAfter(cfg.p, xs), r).highQc.round
  {
    MakerHolds(cfg.p, xs);
    StreamCounted(cfg, log, xs, r);
    AssembledButWqc(cfg, log, MakerAfter(cfg.p, xs), CountedIn(xs), r);
    OriginIs(cfg.p, xs);
    if Origin(cfg.p, xs).Some? {
      BuiltAt(cfg, log, xs, Origin(cfg.p, xs).value);
    }
  }

  // ---------------------------------------------------------------- a misnamed certificate

  // Node j, locked at qc, reports a vote for d in round r, with a signature for b.
  function Reporting(j: Node, d: Digest, b: Digest, r: Round, qc: QC): Timeout {
    Timeout(Vote(j, d, Normal, r), Some(Statement(b, Normal, r)), qc, GENESIS_WQC, r, j)
  }

  // The first of n nodes reports a vote for a, the others for b, and all signatures are for b.
  function Misreports(a: Digest, b: Digest, r: Round, qc: QC, n: nat): (ts: seq<Timeout>)
    ensures |ts| == n && forall j: nat :: j < n ==> ts[j] == Reporting(j, if j == 0 then a else b, b, r, qc)
  {
    seq(n, (j: nat) => Reporting(j, if j == 0 then a else b, b, r, qc))
  }

  lemma {:induction false} FirstsOfDistinct(ts: seq<Timeout>)
    requires DistinctSenders(ts)
    ensures Firsts(ts) == ts
  {
    if ts != [] {
      FirstsOfDistinct(ts[..|ts| - 1]);
      assert ts == ts[..|ts| - 1] + [ts[|ts| - 1]];
    }
  }

  lemma MisreportsDistinct(a: Digest, b: Digest, r: Round, qc: QC, n: nat)
    ensures DistinctSenders(Misreports(a, b, r, qc, n)) && OwnVotes(Misreports(a, b, r, qc, n))
  {}

  // The stream of these timeouts in which a WQC is built when the last of them arrives.
  function BuiltLast(ts: seq<Timeout>, wqc: WQC): (xs: seq<Arrival>)
    ensures |xs| == |ts| && forall k :: 0 <= k < |xs| ==> xs[k] == Arrival(ts[k], if k == |ts| - 1 then Some(wqc) else None)
  {
    seq(|ts|, k requires 0 <= k < |ts| => Arrival(ts[k], if k == |ts| - 1 then Some(wqc) else None))
  }

  lemma BuiltLastCounts(ts: seq<Timeout>, wqc: WQC)
    requires DistinctSenders(ts)
    ensures TimeoutsOf(BuiltLast(ts, wqc)) == ts && CountedIn(BuiltLast(ts, wqc)) == ts
  {
    assert TimeoutsOf(BuiltLast(ts, wqc)) == ts;
    FirstsOfDistinct(ts);
  }

  lemma {:induction false} AllReporting(ts: seq<Timeout>, r: Round)
    requires forall k :: 0 <= k < |ts| ==> ts[k].highVote.round == r
    ensures ReportingIn(ts, r) == ts
  {
    if ts != [] {
      AllReporting(ts[..|ts| - 1], r);
      assert ts == ts[..|ts| - 1] + [ts[|ts| - 1]];
    }
  }

  /**
   One report that is not signed for the block it names can give that name to the certificate,
   though every other report is honest and all signatures are for another block.
   */
  lemma MisnamedCertificate(p: Params, members: set<Node>, a: Digest, b: Digest, r: Round, qc: QC, n: nat) returns (wqc: WQC)
    requires a != b && p.f >= 1 && n >= p.WeakCert()
    ensures OwnVotes(Misreports(a, b, r, qc, n)) && DistinctSenders(Misreports(a, b, r, qc, n))
    ensures forall k :: 1 <= k < n && r > 0 ==> Misreports(a, b, r, qc, n)[k].covers == CoversOf(Misreports(a, b, r, qc, n)[k].highVote)
    ensures wqc == WQC(a, r, VoteAuthors(Misreports(a, b, r, qc, n)))
    ensures wqc.signers <= members ==> Builds(p, members, ReportsOf(Misreports(a, b, r, qc, n)), wqc)
    ensures !Guard(p, ReportsOf(Misreports(a, b, r, qc, n)), r)
  {
    var ts := Misreports(a, b, r, qc, n);
    AllReporting(ts, r);
    GroupOfRound(ts, r);
    VotersAreAuthors(ts);
    wqc := WQC(a, r, VotersOf(ReportsOf(ts)));
  }
}
