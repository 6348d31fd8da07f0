/**
 TCs are accepted at the ordinary quorum size (hydrangea/src/messages.rs:623-626), which is
 smaller than the view-change size at which honest nodes assemble them. Here is, for every
 committee with k >= 2 and f >= 1 and every leader schedule, a run in which a TC of the
 accepted size, sent by a faulty leader, lets two conflicting blocks get Commit QCs. With
 `Network.Agreement` this settles when the accepted size is safe: if and only if k <= 1 or f = 0.
 */
module Disagreement {
  import opened Types
  import opened Thresholds
  import opened Makers
  import opened Steps
  import opened Network
  import opened Playing

  // A committee of the nodes 0, ..., n - 1 and its leaders.
  datatype Setting = Setting(p: Params, leader: Round -> Node) {
    ghost predicate Valid() {
      p.k >= 2 && p.f >= 1 && leader(2) < p.N()
    }
    // The two blocks, each by the leader of its round.
    function First(): Block {
      Block(leader(1), Hash(GENESIS), [], 1)
    }
    function Second(): Block {
      Block(leader(2), Hash(GENESIS), [], 2)
    }
    // Nodes are ranked so that the leader of round 2 comes first. Ranks below f are faulty,
    // those below `Cut` commit the first block, and the faulty ones with those from `Cut` to
    // `End` time out and go on with the second.
    function Rank(j: Node): Node {
      if j == leader(2) then 0 else if j == 0 then leader(2) else j
    }
    function Cut(): nat {
      p.SlowCommit()
    }
    function End(): nat {
      p.SlowCommit() + p.Quorum() - p.f
    }
    function Few(): nat {
      p.SlowCommit() + p.SlowCommit() - p.f
    }
  }

  // The nodes of rank lo, ..., hi - 1.
  ghost function Ranked(x: Setting, lo: nat, hi: nat): set<Node>
    decreases hi
  {
    if hi <= lo then {} else Ranked(x, lo, hi - 1) + {x.Rank(hi - 1)}
  }

  lemma {:induction false} InRanked(x: Setting, lo: nat, hi: nat, j: Node)
    ensures j in Ranked(x, lo, hi) <==> lo <= x.Rank(j) < hi
    decreases hi
  {
    if lo < hi {
      InRanked(x, lo, hi - 1, j);
      assert j == x.Rank(hi - 1) <==> x.Rank(j) == hi - 1;
    }
  }

  lemma {:induction false} RankedSize(x: Setting, lo: nat, hi: nat)
    requires lo <= hi
    ensures |Ranked(x, lo, hi)| == hi - lo
    decreases hi
  {
    if lo < hi {
      RankedSize(x, lo, hi - 1);
      InRanked(x, lo, hi - 1, x.Rank(hi - 1));
    }
  }

  // TCs of the accepted size, which some faulty node may send, with exact weak certificates.
  ghost function Accepting(x: Setting): Config {
    Config(x.p, Interval(0, x.p.N()), Ranked(x, 0, x.p.f), x.leader, x.p.Quorum(), true)
  }

  ghost function Early(x: Setting): set<Node> {
    Ranked(x, 0, x.Cut())
  }

  ghost function Late(x: Setting): set<Node> {
    Ranked(x, 0, x.p.f) + Ranked(x, x.Cut(), x.End())
  }

  // Enough of the late nodes for a Commit QC.
  ghost function LateFew(x: Setting): set<Node> {
    Ranked(x, 0, x.p.f) + Ranked(x, x.Cut(), x.Few())
  }

  lemma Bounds(x: Setting)
    requires x.Valid()
    ensures x.p.f <= x.Cut() <= x.Few() <= x.End() <= x.p.N()
    ensures x.p.SlowCommit() <= x.p.Quorum() <= x.p.N()
  {}

  lemma Sizes(x: Setting)
    requires x.Valid()
    ensures |Interval(0, x.p.N())| == x.p.N() && |Ranked(x, 0, x.p.f)| == x.p.f
    ensures |Early(x)| == x.p.SlowCommit() && |Late(x)| == x.p.Quorum()
  {
    Bounds(x);
    IntervalSize(0, x.p.N());
    RankedSize(x, 0, x.p.f);
    RankedSize(x, 0, x.Cut());
    FaultyAnd(x, x.End());
  }

  lemma FewSize(x: Setting)
    requires x.Valid()
    ensures |LateFew(x)| == x.p.SlowCommit()
  {
    Bounds(x);
    FaultyAnd(x, x.Few());
  }

  lemma FewAreLate(x: Setting, j: Node)
    requires x.Valid() && j in LateFew(x)
    ensures j in Late(x)
  {
    Bounds(x);
    InRanked(x, 0, x.p.f, j);
    InRanked(x, x.Cut(), x.Few(), j);
    InRanked(x, x.Cut(), x.End(), j);
  }

  // The faulty nodes and those of rank Cut to hi.
  lemma FaultyAnd(x: Setting, hi: nat)
    requires x.p.f <= x.Cut() <= hi
    ensures |Ranked(x, 0, x.p.f) + Ranked(x, x.Cut(), hi)| == x.p.f + (hi - x.Cut())
  {
    RankedSize(x, 0, x.p.f);
    RankedSize(x, x.Cut(), hi);
    forall j | j in Ranked(x, 0, x.p.f) ensures j !in Ranked(x, x.Cut(), hi) {
      InRanked(x, 0, x.p.f, j);
      InRanked(x, x.Cut(), hi, j);
    }
    assert Ranked(x, 0, x.p.f) !! Ranked(x, x.Cut(), hi);
  }

  // ---------------------------------------------------------------- certificates of the run
  //
  // Each has as many signers as a maker puts into a certificate of its kind.

  ghost function FirstQc(x: Setting): QC {
    QC(Hash(x.First()), Normal, 1, Interval(0, x.p.Quorum()), false)
  }

  ghost function SecondQc(x: Setting): QC {
    QC(Hash(x.Second()), Normal, 2, Late(x), false)
  }

  // Entries of the nodes ranked below f and from lo to hi, none of which is locked.
  function EntryList(x: Setting, f: nat, lo: nat, hi: nat): seq<Locked> {
    if lo < hi then EntryList(x, f, lo, hi - 1) + [Locked(x.Rank(hi - 1), 0)]
    else if f > 0 then EntryList(x, f - 1, lo, hi) + [Locked(x.Rank(f - 1), 0)]
    else []
  }

  function ShortTc(x: Setting): TC {
    TC(GENESIS_QC, GENESIS_WQC, 1, EntryList(x, x.p.f, x.Cut(), x.End()))
  }

  // ---------------------------------------------------------------- the five phases

  predicate Takes(x: Setting, phase: nat, j: Node) {
    if phase == 1 then true
    else if phase == 2 then x.Rank(j) < x.Cut()
    else x.Rank(j) < x.p.f || x.Cut() <= x.Rank(j) < x.End()
  }

  // What node j says in a phase it takes part in.
  function Word(x: Setting, phase: nat, j: Node): Msg {
    if phase == 1 then V(Vote(j, Hash(x.First()), Normal, 1))
    else if phase == 2 then V(Vote(j, Hash(x.First()), Commit, 1))
    else if phase == 3 then T(TimeoutOf(x, j))
    else if phase == 4 then V(Vote(j, Hash(x.Second()), Normal, 2))
    else V(Vote(j, Hash(x.Second()), Commit, 2))
  }

  function TimeoutOf(x: Setting, j: Node): Timeout {
    var v := Vote(j, Hash(x.First()), Normal, 1);
    Timeout(v, CoversOf(v), GENESIS_QC, GENESIS_WQC, 1, j)
  }

  // What an honest node does: it votes for the first block; it sees its QC; it times out
  // without seeing it; it receives the fallback proposal; it sees the QC of that.
  ghost function Acts(x: Setting, phase: nat): seq<Label> {
    if phase == 1 then [Accept(x.First(), ByQc(GENESIS_QC)), Prepare(x.First())]
    else if phase == 2 then [Lock(FirstQc(x)), CommitVote, Advance(2)]
    else if phase == 3 then [SendTimeout(1)]
    else if phase == 4 then [Advance(2), Accept(x.Second(), ByTc(ShortTc(x))), Prepare(x.Second())]
    else [Lock(SecondQc(x)), CommitVote, Advance(3)]
  }

  // The state of an honest node after a phase.
  ghost function Stage(x: Setting, phase: nat, j: Node): NodeState {
    if phase == 0 then Init(j)
    else
      var s := Stage(x, phase - 1, j);
      if !Takes(x, phase, j) then s
      else if phase == 1 then
        s.(pending := s.pending[1 := Hash(x.First())], lastVote := Vote(j, Hash(x.First()), Normal, 1))
      else if phase == 2 then s.(locked := FirstQc(x), round := 2)
      else if phase == 3 then s.(lastTimeout := 1)
      else if phase == 4 then
        s.(pending := s.pending[2 := Hash(x.Second())], round := 2, lastVote := Vote(j, Hash(x.Second()), Normal, 2))
      else s.(locked := SecondQc(x), round := 3)
  }

  // The fields of the stages that the next acts look at.
  lemma StageFacts(x: Setting, phase: nat, j: Node)
    requires phase <= 4 && x.p.f <= x.Rank(j)
    ensures var s := Stage(x, phase, j);
            && s.lastCommit == GENESIS && s.requested == {} && s.highWqc == GENESIS_WQC
            && (phase == 0 ==> s == Init(j))
            && (phase == 1 ==> s.round == 1 && s.locked == GENESIS_QC && s.lastTimeout == 0 && 2 !in s.pending
                               && s.lastVote == Vote(j, Hash(x.First()), Normal, 1))
            && (phase == 2 && x.Cut() <= x.Rank(j) ==> s == Stage(x, 1, j))
            && (phase == 3 && x.Cut() <= x.Rank(j) < x.End() ==> s == Stage(x, 1, j).(lastTimeout := 1))
            && (phase == 4 && x.Cut() <= x.Rank(j) < x.End() ==> s.round == 2 && s.locked == GENESIS_QC && s.lastTimeout == 1)
  {
    if phase > 0 {
      StageFacts(x, phase - 1, j);
      if phase > 1 {
        StageFacts(x, 1, j);
      }
    }
  }

  // The acts of a phase lead an honest node from one stage to the next, and it says its word.
  lemma PhaseActs(x: Setting, phase: nat, j: Node)
    requires 1 <= phase <= 5 && Takes(x, phase, j) && x.p.f <= x.Rank(j)
    ensures Plays(j, Stage(x, phase - 1, j), Acts(x, phase), Stage(x, phase, j), Word(x, phase, j))
  {
    StageFacts(x, phase - 1, j);
    if phase > 1 {
      StageFacts(x, 1, j);
    }
    var s, acts := Stage(x, phase - 1, j), Acts(x, phase);
    match phase {
      case 1 => TwoActs(j, s, acts[0], acts[1]);
      case 3 => OneAct(j, s, acts[0]);
      case _ => ThreeActs(j, s, acts[0], acts[1], acts[2]);
    }
  }

  ghost function Script5(x: Setting): Script {
    Script(x.p.N(), (j: Node) => x.Rank(j) < x.p.f, (k: nat) => Acts(x, k), (k: nat, j: Node) => Takes(x, k, j),
           (k: nat, j: Node) => Stage(x, k, j), (k: nat, j: Node) => Word(x, k, j))
  }

  lemma HonestAre(x: Setting, j: Node)
    requires x.Valid()
    ensures Accepting(x).Honest(j) <==> j < x.p.N() && x.p.f <= x.Rank(j)
    ensures x.Rank(j) < x.p.f ==> j in Accepting(x).byzantine
  {
    Bounds(x);
    InRanked(x, 0, x.p.f, j);
  }

  // What one node contributes to a phase.
  lemma NodeLeads(x: Setting, k: nat, j: Node)
    requires x.Valid() && 1 <= k <= 5
    ensures Sender(Word(x, k, j)) == j
    ensures !Takes(x, k, j) ==> Stage(x, k, j) == Stage(x, k - 1, j)
    ensures x.p.f <= x.Rank(j) && Takes(x, k, j) ==> Plays(j, Stage(x, k - 1, j), Acts(x, k), Stage(x, k, j), Word(x, k, j))
  {
    if x.p.f <= x.Rank(j) && Takes(x, k, j) {
      PhaseActs(x, k, j);
    }
  }

  lemma ScriptLeads(x: Setting, k: nat)
    requires x.Valid() && 1 <= k <= 5
    ensures Leads(Script5(x), Accepting(x), k)
  {
    var sc, cfg := Script5(x), Accepting(x);
    forall j: Node
      ensures cfg.Honest(j) <==> j < sc.n && !sc.faulty(j)
      ensures j < sc.n && sc.faulty(j) ==> j in cfg.byzantine
    {
      HonestAre(x, j);
    }
    forall j: Node
      ensures Sender(sc.word(k, j)) == j
      ensures !sc.faulty(j) && !sc.takes(k, j) ==> sc.stage(k, j) == sc.stage(k - 1, j)
      ensures !sc.faulty(j) && sc.takes(k, j) ==> Plays(j, sc.stage(k - 1, j), sc.acts(k), sc.stage(k, j), sc.word(k, j))
    {
      NodeLeads(x, k, j);
    }
  }

  // ---------------------------------------------------------------- the certificates are genuine

  lemma AuthorsPush(votes: seq<Locked>, v: Locked)
    ensures Authors(votes + [v]) == Authors(votes) + {v.author}
  {
    assert (votes + [v])[|votes|] == v;
    assert forall k :: 0 <= k < |votes| ==> (votes + [v])[k] == votes[k];
  }

  lemma {:induction false} EntryAuthors(x: Setting, f: nat, lo: nat, hi: nat)
    ensures Authors(EntryList(x, f, lo, hi)) == Ranked(x, 0, f) + Ranked(x, lo, hi)
  {
    if lo < hi {
      EntryAuthors(x, f, lo, hi - 1);
      AuthorsPush(EntryList(x, f, lo, hi - 1), Locked(x.Rank(hi - 1), 0));
    } else if f > 0 {
      EntryAuthors(x, f - 1, lo, hi);
      AuthorsPush(EntryList(x, f - 1, lo, hi), Locked(x.Rank(f - 1), 0));
    }
  }

  lemma {:induction false} EntryRounds(x: Setting, f: nat, lo: nat, hi: nat, k: nat)
    requires k < |EntryList(x, f, lo, hi)|
    ensures EntryList(x, f, lo, hi)[k].round == 0
  {
    if k < |EntryList(x, f, lo, hi)| - 1 {
      if lo < hi {
        EntryRounds(x, f, lo, hi - 1, k);
      } else if f > 0 {
        EntryRounds(x, f - 1, lo, hi, k);
      }
    }
  }

  lemma LateTakes(x: Setting, phase: nat, j: Node)
    requires x.Valid() && 3 <= phase
    ensures j in Late(x) ==> j < x.p.N() && Takes(x, phase, j)
  {
    Bounds(x);
    InRanked(x, 0, x.p.f, j);
    InRanked(x, x.Cut(), x.End(), j);
  }

  lemma Said(x: Setting, log: seq<Msg>, k: nat, j: Node)
    requires Spoken(Script5(x), log, k) && j < x.p.N() && Takes(x, k, j)
    ensures Word(x, k, j) in log
  {
    var sc := Script5(x);
    assert sc.takes(k, j) && sc.word(k, j) in log;
  }

  lemma EntryTimedOut(x: Setting, log: seq<Msg>, e: Locked)
    requires x.Valid() && Spoken(Script5(x), log, 3) && e.author in Late(x) && e.round == 0
    ensures TimedOut(log, e, 1)
  {
    LateTakes(x, 3, e.author);
    Said(x, log, 3, e.author);
    assert T(TimeoutOf(x, e.author)) in log;
  }

  // The short TC has an ordinary quorum of members that really timed out.
  lemma TimeoutsMakeTc(x: Setting, log: seq<Msg>)
    requires x.Valid() && Spoken(Script5(x), log, 3)
    ensures GenuineTc(Accepting(x), log, ShortTc(x))
  {
    var es := ShortTc(x).votes;
    EntryAuthors(x, x.p.f, x.Cut(), x.End());
    forall j | j in Late(x) ensures j in Accepting(x).members {
      LateTakes(x, 3, j);
    }
    forall k | 0 <= k < |es| ensures es[k].round == 0 && TimedOut(log, es[k], 1) {
      EntryRounds(x, x.p.f, x.Cut(), x.End(), k);
      assert es[k].author in Authors(es);
      EntryTimedOut(x, log, es[k]);
    }
    SomeFaulty(x);
  }

  lemma SomeFaulty(x: Setting)
    requires x.Valid()
    ensures Assembles(Accepting(x), |Late(x)|)
  {
    Sizes(x);
  }

  lemma FirstCertified(x: Setting, log: seq<Msg>)
    requires x.Valid() && Spoken(Script5(x), log, 1)
    ensures GenuineQc(Accepting(x), log, FirstQc(x))
  {
    IntervalSize(0, x.p.Quorum());
    Bounds(x);
    forall j | j in Interval(0, x.p.Quorum()) ensures Voted(log, j, Hash(x.First()), Normal, 1) {
      Said(x, log, 1, j);
    }
  }

  // Late nodes of the right number make a QC for the second block.
  lemma LateCertified(x: Setting, log: seq<Msg>, k: nat, kind: VoteType, signers: set<Node>)
    requires x.Valid() && 4 <= k <= 5 && Spoken(Script5(x), log, k) && kind == (if k == 4 then Normal else Commit)
    requires |signers| >= Size(x.p, kind, false) && forall j :: j in signers ==> j < x.p.N() && Takes(x, k, j)
    ensures GenuineQc(Accepting(x), log, QC(Hash(x.Second()), kind, 2, signers, false))
  {
    forall j | j in signers ensures j in Interval(0, x.p.N()) && Voted(log, j, Hash(x.Second()), kind, 2) {
      Said(x, log, k, j);
    }
  }

  lemma SecondCertified(x: Setting, log: seq<Msg>)
    requires x.Valid() && Spoken(Script5(x), log, 4)
    ensures GenuineQc(Accepting(x), log, SecondQc(x))
  {
    Sizes(x);
    forall j | j in Late(x) ensures j < x.p.N() && Takes(x, 4, j) {
      LateTakes(x, 4, j);
    }
    LateCertified(x, log, 4, Normal, Late(x));
  }

  lemma SecondCommits(x: Setting, log: seq<Msg>, qc: QC)
    requires x.Valid() && Spoken(Script5(x), log, 5) && qc == QC(Hash(x.Second()), Commit, 2, LateFew(x), false)
    ensures GenuineQc(Accepting(x), log, qc)
  {
    FewSize(x);
    forall j | j in LateFew(x) ensures j < x.p.N() && Takes(x, 5, j) {
      FewAreLate(x, j);
      LateTakes(x, 5, j);
    }
    LateCertified(x, log, 5, Commit, LateFew(x));
  }

  lemma FirstCommits(x: Setting, log: seq<Msg>, qc: QC)
    requires x.Valid() && Spoken(Script5(x), log, 2) && qc == QC(Hash(x.First()), Commit, 1, Early(x), false)
    ensures GenuineQc(Accepting(x), log, qc)
  {
    Sizes(x);
    Bounds(x);
    forall j | j in Early(x) ensures j in Interval(0, x.p.N()) && Voted(log, j, qc.blkHash, Commit, 1) {
      InRanked(x, 0, x.Cut(), j);
      Said(x, log, 2, j);
    }
  }

  // Which acts need which certificates.
  lemma ActsGenuine(x: Setting, log: seq<Msg>, phase: nat)
    requires 1 <= phase <= 5
    requires phase == 2 ==> GenuineQc(Accepting(x), log, FirstQc(x))
    requires phase == 4 ==> GenuineTc(Accepting(x), log, ShortTc(x))
    requires phase == 5 ==> GenuineQc(Accepting(x), log, SecondQc(x))
    ensures AllGenuine(Accepting(x), log, Acts(x, phase))
  {}

  // ---------------------------------------------------------------- the run

  lemma Phase(x: Setting, h: Story, k: nat) returns (h': Story)
    requires x.Valid() && 1 <= k <= 5 && h.cfg == Accepting(x) && AtStage(Script5(x), h.net.nodes, k - 1)
    requires AllGenuine(Accepting(x), h.net.log, Acts(x, k))
    ensures h'.cfg == Accepting(x) && AtStage(Script5(x), h'.net.nodes, k) && h.net.log <= h'.net.log
    ensures Spoken(Script5(x), h'.net.log, k)
  {
    ScriptLeads(x, k);
    h' := NextPhase(Script5(x), h, k);
  }

  // The first block is certified, then committed by the early nodes.
  lemma FirstCommitted(x: Setting) returns (h: Story)
    requires x.Valid()
    ensures h.cfg == Accepting(x) && AtStage(Script5(x), h.net.nodes, 2) && Spoken(Script5(x), h.net.log, 2)
  {
    var h0 := Opening(Script5(x), Accepting(x));
    ActsGenuine(x, h0.net.log, 1);
    var h1 := Phase(x, h0, 1);
    FirstCertified(x, h1.net.log);
    ActsGenuine(x, h1.net.log, 2);
    h := Phase(x, h1, 2);
  }

  // The late nodes time out and vote for the second block on the strength of the short TC.
  lemma SecondVoted(x: Setting, h: Story) returns (h': Story)
    requires x.Valid() && h.cfg == Accepting(x) && AtStage(Script5(x), h.net.nodes, 2)
    ensures h'.cfg == Accepting(x) && AtStage(Script5(x), h'.net.nodes, 4)
    ensures Spoken(Script5(x), h'.net.log, 4) && h.net.log <= h'.net.log
  {
    ActsGenuine(x, h.net.log, 3);
    var h3 := Phase(x, h, 3);
    TimeoutsMakeTc(x, h3.net.log);
    ActsGenuine(x, h3.net.log, 4);
    h' := Phase(x, h3, 4);
  }

  lemma BothCommitted(x: Setting) returns (h: Story)
    requires x.Valid()
    ensures h.cfg == Accepting(x) && Spoken(Script5(x), h.net.log, 2) && Spoken(Script5(x), h.net.log, 5)
  {
    var h2 := FirstCommitted(x);
    var h4 := SecondVoted(x, h2);
    SecondCertified(x, h4.net.log);
    ActsGenuine(x, h4.net.log, 5);
    h := Phase(x, h4, 5);
    SpokenGrows(Script5(x), h2.net.log, h.net.log, 2);
  }

  lemma Siblings(x: Setting)
    ensures !Extends(x.First(), x.Second()) && !Extends(x.Second(), x.First())
  {
    assert !Extends(GENESIS, x.First()) && !Extends(GENESIS, x.Second());
  }

  /**
   For every k >= 2 and f >= 1 and every leader schedule: a run with f faulty nodes, one of
   them the leader of round 2, and two genuine Commit QCs in it for blocks, each proposed by
   the leader of its round, neither of which extends the other.
   */
  lemma AcceptedTcsDisagree(x: Setting) returns (run: seq<Event>, qc: QC, qc': QC)
    requires x.Valid()
    ensures Accepting(x).Committee() && x.leader(2) in Accepting(x).byzantine && Run(Accepting(x), run)
    ensures qc.kind == Commit && qc'.kind == Commit && qc.blkHash == Hash(x.First()) && qc'.blkHash == Hash(x.Second())
    ensures GenuineQc(Accepting(x), Final(Accepting(x), run).log, qc) && GenuineQc(Accepting(x), Final(Accepting(x), run).log, qc')
    ensures !Extends(x.First(), x.Second()) && !Extends(x.Second(), x.First())
  {
    CommitteeOf(x);
    var h := BothCommitted(x);
    qc := QC(Hash(x.First()), Commit, 1, Early(x), false);
    qc' := QC(Hash(x.Second()), Commit, 2, LateFew(x), false);
    FirstCommits(x, h.net.log, qc);
    SecondCommits(x, h.net.log, qc');
    run := h.run;
    Siblings(x);
  }

  lemma CommitteeOf(x: Setting)
    requires x.Valid()
    ensures Accepting(x).Committee() && x.leader(2) in Accepting(x).byzantine
  {
    Sizes(x);
    Bounds(x);
    InRanked(x, 0, x.p.f, x.leader(2));
    forall j | j in Ranked(x, 0, x.p.f) ensures j in Interval(0, x.p.N()) {
      InRanked(x, 0, x.p.f, j);
    }
  }

  // TCs of the accepted size count, whoever the members and the faulty ones are.
  ghost predicate SafeWhenAccepting(p: Params, leader: Round -> Node) {
    forall members: set<Node>, byzantine: set<Node> ::
      Config(p, members, byzantine, leader, p.Quorum(), true).Committee() ==>
        Safe(Config(p, members, byzantine, leader, p.Quorum(), true))
  }

  /**
   The size at which TCs are accepted keeps every run of every committee safe if and only if
   k <= 1 or no node is faulty.
   */
  lemma AcceptedTcsSafe(p: Params, leader: Round -> Node)
    requires leader(2) < p.N()
    ensures SafeWhenAccepting(p, leader) <==> p.k <= 1 || p.f == 0
  {
    if p.k <= 1 || p.f == 0 {
      forall members: set<Node>, byzantine: set<Node> | Config(p, members, byzantine, leader, p.Quorum(), true).Committee()
        ensures Safe(Config(p, members, byzantine, leader, p.Quorum(), true))
      {
        AcceptedTcSuffices(p);
        ValidIsSafe(Config(p, members, byzantine, leader, p.Quorum(), true));
      }
    } else {
      var x := Setting(p, leader);
      var run, qc, qc' := AcceptedTcsDisagree(x);
      assert !OnOneChain(qc.blkHash, qc'.blkHash);
      assert !Safe(Config(p, Accepting(x).members, Accepting(x).byzantine, leader, p.Quorum(), true));
    }
  }
}
