/**
 State machine replication: the nodes of a fleet run the imperative `Core`, what any two of them
 hand to their applications agrees, and their assertions hold. A node takes part in a run with
 the acts that it recorded.
 */
module Replicas {
  import opened Types
  import opened Network
  import opened Steps
  import opened Provenance
  import opened Fleet
  import opened Chains
  import opened Handlers

  lemma {:induction false} NodesStay(cfg: Config, run: seq<Event>)
    ensures Final(cfg, run).nodes.Keys == cfg.members
  {
    if run != [] {
      NodesStay(cfg, run[..|run| - 1]);
    }
  }

  // Every commit of the run is on the slow path.
  ghost predicate SlowPath(run: seq<Event>) {
    forall k :: 0 <= k < |run| && run[k].NodeStep? && run[k].act.CommitTo? ==> run[k].act.qc.kind == Commit
  }

  lemma LogGrowsByOne(cfg: Config, run: seq<Event>)
    requires run != []
    ensures Final(cfg, run[..|run| - 1]).log <= Final(cfg, run).log
  {}

  // A genuine Commit QC stands behind every last commit.
  lemma {:induction false} LastCommitCertified(cfg: Config, run: seq<Event>, i: Node) returns (qc: QC)
    requires Run(cfg, run) && SlowPath(run) && cfg.Honest(i)
    ensures i in Final(cfg, run).nodes
    ensures qc.kind == Commit && qc.blkHash == Hash(Final(cfg, run).nodes[i].lastCommit)
    ensures GenuineQc(cfg, Final(cfg, run).log, qc)
  {
    NodesStay(cfg, run);
    if run == [] {
      qc := GENESIS_QC;
    } else {
      var rest, e := run[..|run| - 1], run[|run| - 1];
      if e.NodeStep? && e.i == i && e.act.CommitTo? {
        qc := e.act.qc;
        assert run[|run| - 1].act.CommitTo?;
        GenuineQcGrows(cfg, Final(cfg, rest).log, Final(cfg, run).log, qc);
      } else {
        qc := LastCommitCertified(cfg, rest, i);
        LogGrowsByOne(cfg, run);
        GenuineQcGrows(cfg, Final(cfg, rest).log, Final(cfg, run).log, qc);
      }
    }
  }

  /** The last commits of any two honest nodes lie on one chain. */
  lemma LastCommitsAgree(cfg: Config, run: seq<Event>, i: Node, j: Node)
    requires cfg.Valid() && Run(cfg, run) && SlowPath(run) && cfg.Honest(i) && cfg.Honest(j)
    ensures i in Final(cfg, run).nodes && j in Final(cfg, run).nodes
    ensures var a, b := Final(cfg, run).nodes[i].lastCommit, Final(cfg, run).nodes[j].lastCommit;
            Extends(a, b) || Extends(b, a)
  {
    var qc := LastCommitCertified(cfg, run, i);
    var qc' := LastCommitCertified(cfg, run, j);
    Agreement(cfg, run, qc, qc');
  }

  // ---------------------------------------------------------------- the assertions of a node

  lemma VotedForItsRound(cfg: Config, log: seq<Msg>, d: Digest, r: Round)
    requires VotesJustified(cfg, log) && HonestlyVoted(cfg, log, d, r)
    ensures d.Hash? && d.block.round == r
  {
    var i :| cfg.Honest(i) && Voted(log, i, d, Normal, r);
    var k :| 0 <= k < |log| && log[k] == V(Vote(i, d, Normal, r));
    assert log[k].vote.kind == Normal;
  }

  lemma GenuineRightRound(cfg: Config, run: seq<Event>, qc: QC)
    requires cfg.Valid() && Run(cfg, run) && GenuineQc(cfg, Final(cfg, run).log, qc)
    ensures qc.blkHash.Hash? && RightRound(qc)
  {
    if qc.round > 0 {
      RunInv(cfg, run);
      QcIsVoted(cfg, Final(cfg, run).log, qc);
      VotedForItsRound(cfg, Final(cfg, run).log, qc.blkHash, qc.round);
    }
  }

  // What a node of the fleet knows is genuine in the network.
  lemma KnownGenuine(cfg: Config, run: seq<Happening>, i: Node, s: State, g: Record, qc: QC)
    requires cfg.Valid() && FleetRun(cfg, run) && cfg.Honest(i) && i in Reach(cfg, run).nodes
    requires Valid(Me(cfg, i), s, g) && g.c.h == Reach(cfg, run).nodes[i] && Knows(g, qc)
    ensures Run(cfg, Seen(run)) && GenuineQc(cfg, Final(cfg, Seen(run)).log, qc)
    ensures qc.blkHash.Hash? && RightRound(qc)
  {
    FleetIsNetwork(cfg, run);
    FleetGenuine(cfg, run, i, OfQc(qc));
    GenuineRightRound(cfg, Seen(run), qc);
  }

  // Honest nodes voted only for blocks with parents of lower rounds.
  ghost predicate LowerVotes(cfg: Config, log: seq<Msg>) {
    forall v :: V(v) in log && cfg.Honest(v.author) && v.kind == Normal && v.blkHash.Hash? ==> ParentLower(v.blkHash.block)
  }

  lemma {:induction false} KnownDescends(cfg: Config, net: Net, d: Digest)
    requires cfg.Valid() && Inv(cfg, net) && ReportsTruthful(cfg, net.log) && LowerVotes(cfg, net.log) && Network.Known(cfg, net.log, d)
    ensures d.Hash? && DescendsTo(d.block, GENESIS)
    decreases d
  {
    if d != Hash(GENESIS) {
      KnownJustified(cfg, net.log, d);
      ParentKnown(cfg, net.log, d.block);
      KnownDescends(cfg, net, d.block.parent);
      var r :| HonestlyVoted(cfg, net.log, d, r);
      var i :| cfg.Honest(i) && Voted(net.log, i, d, Normal, r);
      assert V(Vote(i, d, Normal, r)) in net.log;
    }
  }

  lemma {:induction false} DescendsThrough(c: Block, b: Block)
    requires DescendsTo(c, GENESIS) && Extends(c, b)
    ensures DescendsTo(c, b)
  {
    if c != b {
      DescendsThrough(c.parent.block, b);
    }
  }

  // A later Commit QC is for a descendant of the last commit.
  lemma NotForked(cfg: Config, run: seq<Event>, i: Node, s: State, qc: QC)
    requires cfg.Valid() && Run(cfg, run) && SlowPath(run) && LowerVotes(cfg, Final(cfg, run).log)
    requires cfg.Honest(i) && i in Final(cfg, run).nodes && Final(cfg, run).nodes[i] == View(s)
    requires qc.kind == Commit && GenuineQc(cfg, Final(cfg, run).log, qc)
    ensures !ForkedBy(s, qc)
  {
    if qc.round > s.lastCommit.round {
      var last := LastCommitCertified(cfg, run, i);
      GenuineRightRound(cfg, run, last);
      Agreement(cfg, run, last, qc);
      RunInv(cfg, run);
      RunTruthful(cfg, run);
      QcIsVoted(cfg, Final(cfg, run).log, qc);
      KnownDescends(cfg, Final(cfg, run), qc.blkHash);
      DescendsThrough(qc.blkHash.block, s.lastCommit);
    }
  }

  /**
   No assertion of the core fails in a run of the fleet on the slow path where parent rounds
   decrease: the only panic of a node, from its start on, is on a vote by a stranger.
   */
  lemma AssertionsHold(cfg: Config, run: seq<Happening>, i: Node, s: State, g: Record, out: Outcome, s': State, g': Record)
    requires cfg.Valid() && FleetRun(cfg, run) && SlowPath(Seen(run)) && LowerVotes(cfg, Reach(cfg, run).log)
    requires cfg.Honest(i) && i in Reach(cfg, run).nodes && g'.c.h == Reach(cfg, run).nodes[i]
    requires forall qc :: Knows(g', qc) ==> !qc.fastQuorum
    requires Orderly(s) && NoneLost(s) && Received(Me(cfg, i), s, g, true, out, s', g')
    ensures out.Panicked? ==> out == Panicked(UnknownAuthor)
  {
    forall qc | Knows(g', qc) ensures RightRound(qc) && !ForkedBy(s', qc) {
      KnownGenuine(cfg, run, i, s', g', qc);
      if qc.kind == Commit {
        FleetIsNetwork(cfg, run);
        NotForked(cfg, Seen(run), i, s', qc);
      }
    }
  }

  /** A round above the first that an honest node has entered is opened by a genuine QC or TC of the round before it. */
  lemma EntersByCertificate(cfg: Config, run: seq<Happening>, i: Node, s: State, g: Record, lower: bool, s': State, g': Record) returns (c: Cert)
    requires cfg.Valid() && FleetRun(cfg, run) && cfg.Honest(i) && i in Reach(cfg, run).nodes && g'.c.h == Reach(cfg, run).nodes[i]
    requires Received(Me(cfg, i), s, g, lower, Done, s', g') && s.round < s'.round
    ensures Opens(c, s'.round) && CertGenuine(cfg, Reach(cfg, run).log, c)
  {
    c :| c in g'.c.books.certs && Opens(c, s'.round);
    FleetGenuine(cfg, run, i, c);
  }

  /**
   Of two honest nodes, one has given its application a prefix of what the other has, in every
   run of the fleet on the slow path. The nodes run the imperative `Core`. Assumed are genuine
   certificates in messages, unforged signatures and, if a node is faulty, the guard on the groups
   from which nodes build weak certificates.
   */
  lemma OutputsAgree(cfg: Config, run: seq<Happening>, i: Node, s: State, g: Record, j: Node, s': State, g': Record)
    requires cfg.Valid() && FleetRun(cfg, run) && SlowPath(Seen(run)) && cfg.Honest(i) && cfg.Honest(j)
    requires i in Reach(cfg, run).nodes && Valid(Me(cfg, i), s, g) && g.c.h == Reach(cfg, run).nodes[i]
    requires j in Reach(cfg, run).nodes && Valid(Me(cfg, j), s', g') && g'.c.h == Reach(cfg, run).nodes[j]
    ensures s.output <= s'.output || s'.output <= s.output
  {
    FleetIsNetwork(cfg, run);
    LastCommitsAgree(cfg, Seen(run), i, j);
    ValidNode(Me(cfg, i), s, g);
    ValidNode(Me(cfg, j), s', g');
    assert Final(cfg, Seen(run)).nodes[i] == View(s) && Final(cfg, Seen(run)).nodes[j] == View(s');
    PrefixesAgree(s.lastCommit, s'.lastCommit);
  }

  lemma PrefixesAgree(a: Block, b: Block)
    requires Extends(a, GENESIS) && Extends(b, GENESIS) && (Extends(a, b) || Extends(b, a))
    ensures Path(GENESIS, a) <= Path(GENESIS, b) || Path(GENESIS, b) <= Path(GENESIS, a)
  {
    if Extends(a, b) {
      PathThrough(GENESIS, b, a);
    } else {
      PathThrough(GENESIS, a, b);
    }
  }
}
