/**
 A weak certificate is named after the first vote of its group, but its signatures are
 checked against the last (hydrangea/src/aggregator.rs:249-274). Here is, for every committee
 with f >= 1 and every leader schedule, a run in which one faulty node reports a vote that is
 not signed for the block it names, an honest TC maker assembles its first TC from the first
 view-change quorum of timeouts, and two conflicting blocks get Commit QCs. With
 `Network.Agreement` this settles when the certificates that the code builds are safe: if and
 only if f = 0.
 */
module Misnaming {
  import opened Types
  import opened Thresholds
  import opened Steps
  import opened Makers
  import opened Network
  import opened Playing
  import opened TimeoutCertificates

  // The blocks, each by the leader of its round. The fork is never proposed.
  datatype Setting = Setting(p: Params, leader: Round -> Node) {
    function First(): Block {
      Block(leader(1), Hash(GENESIS), [], 1)
    }
    function Second(): Block {
      Block(leader(2), Hash(First()), [], 2)
    }
    function Fork(): Block {
      Block(leader(2), Hash(GENESIS), [], 2)
    }
    function Third(): Block {
      Block(leader(3), Hash(Fork()), [], 3)
    }
  }

  // One faulty node, TCs of the view-change size, and weak certificates as the TC maker builds them.
  ghost function Building(x: Setting): Config {
    Config(x.p, Interval(0, x.p.N()), {0}, x.leader, x.p.ViewChange(), false)
  }

  // A QC with as many signers as a maker puts into one.
  ghost function QcOf(x: Setting, b: Block, kind: VoteType): QC {
    QC(Hash(b), kind, b.round, Interval(0, Size(x.p, kind, false)), false)
  }

  // The first timeouts of round 2 to arrive, as many as make a TC: node 0 reports a vote for the
  // fork with its signature for the second block.
  ghost function Timeouts(x: Setting): seq<Timeout> {
    Misreports(Hash(x.Fork()), Hash(x.Second()), 2, QcOf(x, x.First(), Normal), x.p.ViewChange())
  }

  ghost function Wqc(x: Setting): WQC {
    WQC(Hash(x.Fork()), 2, VoteAuthors(Timeouts(x)))
  }

  // They reach a maker, which builds the weak certificate when the last of them arrives.
  ghost function Arrivals(x: Setting): seq<Arrival> {
    BuiltLast(Timeouts(x), Wqc(x))
  }

  // The first TC that the maker assembles.
  ghost function Tc(x: Setting): TC {
    TcOf(MakerAfter(x.p, Arrivals(x)), 2)
  }

  // ---------------------------------------------------------------- the TC

  lemma Sizes(x: Setting)
    requires x.p.f >= 1
    ensures |Interval(0, x.p.N())| == x.p.N() && 2 <= x.p.WeakCert() <= x.p.ViewChange() <= x.p.N()
    ensures x.p.Quorum() <= x.p.N() && x.p.SlowCommit() <= x.p.N()
    ensures Building(x).Committee()
  {
    IntervalSize(0, x.p.N());
  }

  lemma ArrivalsAre(x: Setting)
    ensures TimeoutsOf(Arrivals(x)) == Timeouts(x) && DistinctSenders(Timeouts(x)) && CountedIn(Arrivals(x)) == Timeouts(x)
  {
    MisreportsDistinct(Hash(x.Fork()), Hash(x.Second()), 2, QcOf(x, x.First(), Normal), x.p.ViewChange());
    BuiltLastCounts(Timeouts(x), Wqc(x));
  }

  lemma WqcIsBuilt(x: Setting)
    requires x.p.f >= 1
    ensures Builds(x.p, Interval(0, x.p.N()), ReportsOf(Timeouts(x)), Wqc(x))
  {
    Sizes(x);
    var wqc := MisnamedCertificate(x.p, Interval(0, x.p.N()), Hash(x.Fork()), Hash(x.Second()), 2, QcOf(x, x.First(), Normal), x.p.ViewChange());
  }

  // Before the last arrival the maker has built nothing.
  lemma {:induction false} NothingBuilt(p: Params, xs: seq<Arrival>)
    requires forall k :: 0 <= k < |xs| ==> xs[k].built == None && xs[k].t.highWqc == GENESIS_WQC
    ensures MakerAfter(p, xs).highWqc == GENESIS_WQC
  {
    if xs != [] {
      NothingBuilt(p, xs[..|xs| - 1]);
    }
  }

  // All arrivals but the last.
  ghost function Earlier(x: Setting): seq<Arrival>
    requires x.p.f >= 1
  {
    Sizes(x);
    Arrivals(x)[..x.p.ViewChange() - 1]
  }

  lemma EarlierAre(x: Setting)
    requires x.p.f >= 1
    ensures CountedIn(Earlier(x)) == Timeouts(x)[..x.p.ViewChange() - 1]
    ensures forall k :: 0 <= k < |Earlier(x)| ==> Earlier(x)[k].built == None && Earlier(x)[k].t.highWqc == GENESIS_WQC
  {
    var n := x.p.ViewChange() - 1;
    ArrivalsAre(x);
    assert TimeoutsOf(Earlier(x)) == Timeouts(x)[..n];
    FirstsOfDistinct(Timeouts(x)[..n]);
  }

  // The last arrival is new and completes the view-change size.
  lemma LastIsNew(x: Setting)
    requires x.p.f >= 1
    ensures Timeouts(x)[x.p.ViewChange() - 1].author !in MakerAfter(x.p, Earlier(x)).used
    ensures MakerAfter(x.p, Earlier(x)).weight == x.p.ViewChange() - 1 && MakerAfter(x.p, Earlier(x)).highWqc == GENESIS_WQC
  {
    EarlierAre(x);
    MakerHolds(x.p, Earlier(x));
    NothingBuilt(x.p, Earlier(x));
  }

  lemma LastArrival(x: Setting)
    requires x.p.f >= 1
    ensures var n := |Arrivals(x)| - 1;
            && n == x.p.ViewChange() - 1 >= 1 && Arrivals(x)[..n] == Earlier(x)
            && Arrivals(x)[n] == Arrival(Timeouts(x)[n], Some(Wqc(x))) && Arrivals(x)[..n + 1] == Arrivals(x)
  {
    Sizes(x);
  }

  lemma LastVotes(x: Setting)
    requires x.p.f >= 1
    ensures Count(MakerAfter(x.p, Earlier(x)), Timeouts(x)[x.p.ViewChange() - 1]).highVotes == ReportsOf(Timeouts(x))
  {
    LastIsNew(x);
    LastArrival(x);
    ArrivalsAre(x);
    VotesAtAre(x.p, Arrivals(x), x.p.ViewChange() - 1);
  }

  // The TC has the timeouts of a view-change quorum, the first block's QC, and the misnamed WQC, which is newer.
  lemma TcIs(x: Setting)
    requires x.p.f >= 1
    ensures MakerAfter(x.p, Arrivals(x)).weight == x.p.ViewChange() && Tc(x).round == 2
    ensures Tc(x).highQc == QcOf(x, x.First(), Normal) && Tc(x).highWqc == Wqc(x) && SafeHash(Tc(x)) == Hash(x.Fork())
  {
    LastIsNew(x);
    LastArrival(x);
    ArrivalsAre(x);
    MakerHolds(x.p, Arrivals(x));
    assert Timeouts(x)[1].highQc == QcOf(x, x.First(), Normal);
  }

  /** The weak certificate is one that check_wqc builds when the last timeout arrives. */
  lemma ArrivalsProper(x: Setting)
    requires x.p.f >= 1
    ensures ProperlyBuilt(x.p, Interval(0, x.p.N()), Arrivals(x))
  {
    LastArrival(x);
    LastIsNew(x);
    LastVotes(x);
    WqcIsBuilt(x);
    var xs := Arrivals(x);
    forall k | 0 <= k < |xs| ensures MayBuild(x.p, Interval(0, x.p.N()), Count(MakerAfter(x.p, xs[..k]), xs[k].t), xs[k].built) {
      if k < |xs| - 1 {
        assert xs[k].built == None;
      }
    }
  }

  lemma TimeoutsSent(x: Setting, log: seq<Msg>)
    requires x.p.f >= 1 && forall j: Node :: j < x.p.N() ==> Word(x, 3, j) in log && Word(x, 4, j) in log
    ensures ArrivalsSent(Building(x), log, Arrivals(x)) && ReallySent(Building(x), log, Timeouts(x))
  {
    var cfg, ts := Building(x), Timeouts(x);
    Sizes(x);
    ArrivalsAre(x);
    forall k | 0 <= k < |ts|
      ensures ts[k].author in cfg.members && T(ts[k]) in log && ts[k].covers.Some? && SignedFor(log, ts[k], ts[k].covers.value)
    {
      assert Word(x, 3, k) in log && Word(x, 4, k) in log;
    }
  }

  lemma TcIsGenuine(x: Setting, log: seq<Msg>)
    requires x.p.f >= 1 && GenuineQc(Building(x), log, QcOf(x, x.First(), Normal))
    requires ArrivalsSent(Building(x), log, Arrivals(x)) && ReallySent(Building(x), log, Timeouts(x))
    ensures GenuineTc(Building(x), log, Tc(x)) && AllowedWqc(Building(x), log, Wqc(x))
  {
    var cfg, xs, ts := Building(x), Arrivals(x), Timeouts(x);
    WqcIsBuilt(x);
    TcIs(x);
    ArrivalsAre(x);
    StreamCounted(cfg, log, xs, 2);
    BuiltFromSent(cfg, log, ts, Wqc(x));
    AssembledButWqc(cfg, log, MakerAfter(x.p, xs), ts, 2);
  }

  // ---------------------------------------------------------------- the six phases

  // What node j says in a phase.
  ghost function Word(x: Setting, phase: nat, j: Node): Msg {
    if phase == 1 then V(Vote(j, Hash(x.First()), Normal, 1))
    else if phase == 2 then V(Vote(j, Hash(x.First()), Commit, 1))
    else if phase == 3 then V(Vote(j, Hash(x.Second()), Normal, 2))
    else if phase == 4 then
      T(Reporting(j, if j == 0 then Hash(x.Fork()) else Hash(x.Second()), Hash(x.Second()), 2, QcOf(x, x.First(), Normal)))
    else if phase == 5 then V(Vote(j, Hash(x.Third()), Normal, 3))
    else V(Vote(j, Hash(x.Third()), Commit, 3))
  }

  // What an honest node does: it votes for the first block and sees its QC; it votes for the
  // second and times out; it receives the fallback proposal and sees the QC of that.
  ghost function Acts(x: Setting, phase: nat): seq<Label> {
    if phase == 1 then [Accept(x.First(), ByQc(GENESIS_QC)), Prepare(x.First())]
    else if phase == 2 then [Lock(QcOf(x, x.First(), Normal)), CommitVote, Advance(2)]
    else if phase == 3 then [Accept(x.Second(), ByQc(QcOf(x, x.First(), Normal))), Prepare(x.Second())]
    else if phase == 4 then [SendTimeout(2)]
    else if phase == 5 then [RaiseWqc(Wqc(x)), Advance(3), Accept(x.Third(), ByTc(Tc(x))), Prepare(x.Third())]
    else [Lock(QcOf(x, x.Third(), Normal)), CommitVote, Advance(4)]
  }

  // The state of an honest node after a phase.
  ghost function Stage(x: Setting, phase: nat, j: Node): NodeState {
    if phase == 0 then Init(j)
    else
      var s := Stage(x, phase - 1, j);
      if phase == 1 then s.(pending := s.pending[1 := Hash(x.First())], lastVote := Vote(j, Hash(x.First()), Normal, 1))
      else if phase == 2 then s.(locked := QcOf(x, x.First(), Normal), round := 2)
      else if phase == 3 then s.(pending := s.pending[2 := Hash(x.Second())], lastVote := Vote(j, Hash(x.Second()), Normal, 2))
      else if phase == 4 then s.(lastTimeout := 2)
      else if phase == 5 then
        s.(highWqc := Wqc(x), round := 3, pending := s.pending[3 := Hash(x.Third())], lastVote := Vote(j, Hash(x.Third()), Normal, 3))
      else s.(locked := QcOf(x, x.Third(), Normal), round := 4)
  }

  // The fields of the stages that the next acts look at.
  lemma StageFacts(x: Setting, phase: nat, j: Node)
    requires phase <= 5
    ensures var s := Stage(x, phase, j);
            && s.lastCommit == GENESIS && s.requested == {}
            && s.round == (if phase <= 1 then 1 else if phase <= 4 then 2 else 3)
            && s.locked == (if phase <= 1 then GENESIS_QC else QcOf(x, x.First(), Normal))
            && s.lastTimeout == (if phase <= 3 then 0 else 2)
            && (phase <= 4 ==> s.highWqc == GENESIS_WQC && 3 !in s.pending)
            && (phase <= 2 ==> 2 !in s.pending) && (phase == 0 ==> 1 !in s.pending)
            && (3 <= phase <= 4 ==> s.lastVote == Vote(j, Hash(x.Second()), Normal, 2))
  {
    if phase > 0 {
      StageFacts(x, phase - 1, j);
    }
  }

  // The acts of a phase lead an honest node from one stage to the next, and it says its word.
  lemma PhaseActs(x: Setting, phase: nat, j: Node)
    requires 1 <= phase <= 6 && x.p.f >= 1 && j != 0
    ensures Plays(j, Stage(x, phase - 1, j), Acts(x, phase), Stage(x, phase, j), Word(x, phase, j))
  {
    StageFacts(x, phase - 1, j);
    var s, acts := Stage(x, phase - 1, j), Acts(x, phase);
    match phase {
      case 1 => TwoActs(j, s, acts[0], acts[1]);
      case 3 => TwoActs(j, s, acts[0], acts[1]);
      case 4 => OneAct(j, s, acts[0]);
      case 5 =>
        TcIs(x);
        FourActs(j, s, acts[0], acts[1], acts[2], acts[3]);
      case _ => ThreeActs(j, s, acts[0], acts[1], acts[2]);
    }
  }

  ghost function Script6(x: Setting): Script {
    Script(x.p.N(), (j: Node) => j == 0, (k: nat) => Acts(x, k), (k: nat, j: Node) => true,
           (k: nat, j: Node) => Stage(x, k, j), (k: nat, j: Node) => Word(x, k, j))
  }

  lemma ScriptLeads(x: Setting, k: nat)
    requires x.p.f >= 1 && 1 <= k <= 6
    ensures Leads(Script6(x), Building(x), k)
  {
    var sc := Script6(x);
    forall j: Node ensures Sender(sc.word(k, j)) == j {
      assert Sender(Word(x, k, j)) == j;
    }
    forall j: Node | j < sc.n && !sc.faulty(j) && sc.takes(k, j)
      ensures Plays(j, sc.stage(k - 1, j), sc.acts(k), sc.stage(k, j), sc.word(k, j))
    {
      PhaseActs(x, k, j);
    }
  }

  lemma Said(x: Setting, log: seq<Msg>, k: nat)
    requires Spoken(Script6(x), log, k)
    ensures forall j: Node :: j < x.p.N() ==> Word(x, k, j) in log
  {
    var sc := Script6(x);
    forall j: Node | j < x.p.N() ensures Word(x, k, j) in log {
      assert sc.takes(k, j) && sc.word(k, j) in log;
    }
  }

  // The votes of all nodes make a QC.
  lemma Certified(x: Setting, log: seq<Msg>, k: nat, b: Block, kind: VoteType)
    requires x.p.f >= 1 && Spoken(Script6(x), log, k) && b.round > 0
    requires forall j: Node :: Word(x, k, j) == V(Vote(j, Hash(b), kind, b.round))
    ensures GenuineQc(Building(x), log, QcOf(x, b, kind))
  {
    Sizes(x);
    IntervalSize(0, Size(x.p, kind, false));
    Said(x, log, k);
    forall j | j in Interval(0, Size(x.p, kind, false)) ensures Voted(log, j, Hash(b), kind, b.round) {
      assert Word(x, k, j) in log;
    }
  }

  // Which acts need which certificates.
  lemma ActsGenuine(x: Setting, log: seq<Msg>, phase: nat)
    requires 1 <= phase <= 6 && phase != 5
    requires 2 <= phase <= 3 ==> GenuineQc(Building(x), log, QcOf(x, x.First(), Normal))
    requires phase == 6 ==> GenuineQc(Building(x), log, QcOf(x, x.Third(), Normal))
    ensures AllGenuine(Building(x), log, Acts(x, phase))
  {
    var cfg, none := Building(x), Forget(Raw(0));
    match phase {
      case 1 => AllFour(cfg, log, Accept(x.First(), ByQc(GENESIS_QC)), Prepare(x.First()), none, none);
      case 2 => AllFour(cfg, log, Lock(QcOf(x, x.First(), Normal)), CommitVote, Advance(2), none);
      case 3 => AllFour(cfg, log, Accept(x.Second(), ByQc(QcOf(x, x.First(), Normal))), Prepare(x.Second()), none, none);
      case 4 =>
      case _ => AllFour(cfg, log, Lock(QcOf(x, x.Third(), Normal)), CommitVote, Advance(4), none);
    }
  }

  lemma FallbackGenuine(x: Setting, log: seq<Msg>)
    requires GenuineTc(Building(x), log, Tc(x)) && AllowedWqc(Building(x), log, Wqc(x))
    ensures AllGenuine(Building(x), log, Acts(x, 5))
  {
    AllFour(Building(x), log, RaiseWqc(Wqc(x)), Advance(3), Accept(x.Third(), ByTc(Tc(x))), Prepare(x.Third()));
  }

  // ---------------------------------------------------------------- the run

  lemma Phase(x: Setting, h: Story, k: nat) returns (h': Story)
    requires x.p.f >= 1 && 1 <= k <= 6 && h.cfg == Building(x) && AtStage(Script6(x), h.net.nodes, k - 1)
    requires AllGenuine(Building(x), h.net.log, Acts(x, k))
    ensures h'.cfg == Building(x) && AtStage(Script6(x), h'.net.nodes, k) && h.net.log <= h'.net.log
    ensures Spoken(Script6(x), h'.net.log, k)
  {
    ScriptLeads(x, k);
    h' := NextPhase(Script6(x), h, k);
  }

  // All nodes vote for the first block and then send Commit votes for it.
  lemma FirstCommitted(x: Setting) returns (h: Story)
    requires x.p.f >= 1
    ensures h.cfg == Building(x) && AtStage(Script6(x), h.net.nodes, 2)
    ensures Spoken(Script6(x), h.net.log, 1) && Spoken(Script6(x), h.net.log, 2)
  {
    var h0 := Opening(Script6(x), Building(x));
    ActsGenuine(x, h0.net.log, 1);
    var h1 := Phase(x, h0, 1);
    Certified(x, h1.net.log, 1, x.First(), Normal);
    ActsGenuine(x, h1.net.log, 2);
    h := Phase(x, h1, 2);
    SpokenGrows(Script6(x), h1.net.log, h.net.log, 1);
  }

  // They vote for the second block and time out.
  lemma TimedOutInTwo(x: Setting, h: Story) returns (h': Story)
    requires x.p.f >= 1 && h.cfg == Building(x) && AtStage(Script6(x), h.net.nodes, 2) && Spoken(Script6(x), h.net.log, 1)
    ensures h'.cfg == Building(x) && AtStage(Script6(x), h'.net.nodes, 4) && h.net.log <= h'.net.log
    ensures Spoken(Script6(x), h'.net.log, 1) && Spoken(Script6(x), h'.net.log, 3) && Spoken(Script6(x), h'.net.log, 4)
  {
    Certified(x, h.net.log, 1, x.First(), Normal);
    ActsGenuine(x, h.net.log, 3);
    var h3 := Phase(x, h, 3);
    ActsGenuine(x, h3.net.log, 4);
    h' := Phase(x, h3, 4);
    SpokenGrows(Script6(x), h.net.log, h'.net.log, 1);
    SpokenGrows(Script6(x), h3.net.log, h'.net.log, 3);
  }

  // So the TC can be assembled.
  lemma TcMade(x: Setting, log: seq<Msg>)
    requires x.p.f >= 1
    requires Spoken(Script6(x), log, 1) && Spoken(Script6(x), log, 3) && Spoken(Script6(x), log, 4)
    ensures GenuineTc(Building(x), log, Tc(x)) && AllowedWqc(Building(x), log, Wqc(x))
  {
    Certified(x, log, 1, x.First(), Normal);
    Said(x, log, 3);
    Said(x, log, 4);
    TimeoutsSent(x, log);
    TcIsGenuine(x, log);
  }

  // On the strength of it they vote for the third block.
  lemma ThirdVoted(x: Setting, h: Story) returns (h': Story)
    requires x.p.f >= 1 && h.cfg == Building(x) && AtStage(Script6(x), h.net.nodes, 4)
    requires GenuineTc(Building(x), h.net.log, Tc(x)) && AllowedWqc(Building(x), h.net.log, Wqc(x))
    ensures h'.cfg == Building(x) && AtStage(Script6(x), h'.net.nodes, 5) && Spoken(Script6(x), h'.net.log, 5)
    ensures h.net.log <= h'.net.log
  {
    FallbackGenuine(x, h.net.log);
    h' := Phase(x, h, 5);
  }

  lemma ThirdCommitted(x: Setting, h: Story) returns (h': Story)
    requires x.p.f >= 1 && h.cfg == Building(x) && AtStage(Script6(x), h.net.nodes, 5) && Spoken(Script6(x), h.net.log, 5)
    ensures h'.cfg == Building(x) && Spoken(Script6(x), h'.net.log, 6) && h.net.log <= h'.net.log
  {
    Certified(x, h.net.log, 5, x.Third(), Normal);
    ActsGenuine(x, h.net.log, 6);
    h' := Phase(x, h, 6);
  }

  lemma WholeRun(x: Setting) returns (h: Story)
    requires x.p.f >= 1
    ensures h.cfg == Building(x) && Spoken(Script6(x), h.net.log, 2) && Spoken(Script6(x), h.net.log, 6)
    ensures GenuineTc(Building(x), h.net.log, Tc(x))
  {
    var h2 := FirstCommitted(x);
    var h4 := TimedOutInTwo(x, h2);
    TcMade(x, h4.net.log);
    var h5 := ThirdVoted(x, h4);
    h := ThirdCommitted(x, h5);
    SpokenGrows(Script6(x), h2.net.log, h.net.log, 2);
    GenuineTcGrows(Building(x), h4.net.log, h.net.log, Tc(x));
  }

  lemma Apart(x: Setting)
    ensures !Extends(x.First(), x.Third()) && !Extends(x.Third(), x.First())
  {
    assert !Extends(GENESIS, x.First()) && !Extends(GENESIS, x.Third());
    assert !Extends(x.Fork(), x.First());
  }

  /**
   For every f >= 1 and every leader schedule: a run with one faulty node, a TC in it that a TC
   maker assembles when the timeouts arrive that the nodes sent, and two genuine Commit QCs for
   blocks, each proposed by the leader of its round, neither of which extends the other.
   */
  lemma BuiltWqcsDisagree(x: Setting) returns (run: seq<Event>, qc: QC, qc': QC)
    requires x.p.f >= 1
    ensures Building(x).Committee() && Run(Building(x), run)
    ensures MadeByMaker(x) && GenuineTc(Building(x), Final(Building(x), run).log, Tc(x))
    ensures qc.kind == Commit && qc'.kind == Commit && qc.blkHash == Hash(x.First()) && qc'.blkHash == Hash(x.Third())
    ensures GenuineQc(Building(x), Final(Building(x), run).log, qc) && GenuineQc(Building(x), Final(Building(x), run).log, qc')
    ensures !Extends(x.First(), x.Third()) && !Extends(x.Third(), x.First())
  {
    Sizes(x);
    var h := WholeRun(x);
    qc, qc' := QcOf(x, x.First(), Commit), QcOf(x, x.Third(), Commit);
    CommitsGenuine(x, h.net.log);
    run := h.run;
    Apart(x);
    MakersTc(x);
  }

  lemma CommitsGenuine(x: Setting, log: seq<Msg>)
    requires x.p.f >= 1 && Spoken(Script6(x), log, 2) && Spoken(Script6(x), log, 6)
    ensures GenuineQc(Building(x), log, QcOf(x, x.First(), Commit)) && GenuineQc(Building(x), log, QcOf(x, x.Third(), Commit))
  {
    Certified(x, log, 2, x.First(), Commit);
    Certified(x, log, 6, x.Third(), Commit);
  }

  // The TC is the first that a maker assembles from a stream of timeouts.
  ghost predicate MadeByMaker(x: Setting) {
    && ProperlyBuilt(x.p, Building(x).members, Arrivals(x)) && MakerAfter(x.p, Arrivals(x)).weight == x.p.ViewChange()
    && Tc(x) == TcOf(MakerAfter(x.p, Arrivals(x)), 2)
  }

  lemma MakersTc(x: Setting)
    requires x.p.f >= 1
    ensures MadeByMaker(x)
  {
    ArrivalsProper(x);
    TcIs(x);
  }

  // Weak certificates as they are built, TCs of the view-change size, any members and any faulty ones.
  ghost predicate SafeWhenBuilt(p: Params, leader: Round -> Node) {
    forall members: set<Node>, byzantine: set<Node> ::
      Config(p, members, byzantine, leader, p.ViewChange(), false).Committee() ==>
        Safe(Config(p, members, byzantine, leader, p.ViewChange(), false))
  }

  /**
   Even if TCs have the view-change size, the weak certificates that the code builds keep every
   run of every committee safe if and only if no node is faulty.
   */
  lemma BuiltWqcsSafe(p: Params, leader: Round -> Node)
    ensures SafeWhenBuilt(p, leader) <==> p.f == 0
  {
    if p.f == 0 {
      forall members: set<Node>, byzantine: set<Node> | Config(p, members, byzantine, leader, p.ViewChange(), false).Committee()
        ensures Safe(Config(p, members, byzantine, leader, p.ViewChange(), false))
      {
        ValidIsSafe(Config(p, members, byzantine, leader, p.ViewChange(), false));
      }
    } else {
      var x := Setting(p, leader);
      var run, qc, qc' := BuiltWqcsDisagree(x);
      assert !OnOneChain(qc.blkHash, qc'.blkHash);
      assert !Safe(Config(p, Building(x).members, Building(x).byzantine, leader, p.ViewChange(), false));
    }
  }
}
