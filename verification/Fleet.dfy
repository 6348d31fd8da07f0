/**
 A network of nodes with their makers. Each honest node acts as in `Provenance`. Three things
 are assumed: a vote or a timeout that counts as signed was sent, a certificate that arrives
 in a message is genuine, and, where weak certificates are to be exact, the groups from which
 the nodes build theirs pass the guard that check_wqc lacks. It follows that the QCs, WQCs and
 TCs that the nodes make themselves are genuine, so that the steps among the acts are a run
 of `Network`, and all that is proved of such runs holds.
 */
module Fleet {
  import opened Types
  import opened Thresholds
  import opened Makers
  import opened Steps
  import opened Network
  import opened Provenance
  import opened TimeoutCertificates
  import Playing

  function Me(cfg: Config, i: Node): Identity {
    Identity(i, cfg.p, cfg.members, cfg.leader)
  }

  ghost predicate CertGenuine(cfg: Config, log: seq<Msg>, c: Cert) {
    match c
    case OfQc(qc) => GenuineQc(cfg, log, qc)
    case OfWqc(wqc) => AllowedWqc(cfg, log, wqc)
    case OfTc(tc) => GenuineTc(cfg, log, tc)
  }

  // Signatures are not forged, and certificates from others are genuine.
  ghost predicate Trusted(cfg: Config, log: seq<Msg>, a: Act) {
    match a
    case CountVote(v, signed) => signed ==> V(v) in log
    case CountTimeout(t, _) => T(t) in log && (t.covers.Some? ==> SignedFor(log, t, t.covers.value))
    case Learn(c) => CertGenuine(cfg, log, c)
    case _ => true
  }

  // Where weak certificates are to be exact, a node builds one only from a group that passes the
  // guard. It can check that itself, on the votes that it has counted; the code does not.
  predicate Guarded(cfg: Config, b: Books, a: Act) {
    cfg.exactWqc && a.CountTimeout? && a.wqc.Some? ==>
      Guard(cfg.p, Count(TcMakerIn(b.timeouts, a.t.round), a.t).highVotes, a.wqc.value.round)
  }

  // What is known of the log where weak certificates are to be exact.
  ghost predicate Reliable(cfg: Config, log: seq<Msg>) {
    cfg.exactWqc ==> cfg.Committee() && ReportsTruthful(cfg, log)
  }

  // ---------------------------------------------------------------- what a node's makers hold

  ghost predicate MakerGenuine(cfg: Config, log: seq<Msg>, m: Maker, v: Vote) {
    && (forall i :: i in m.ballots ==> i in cfg.members)
    && (forall i :: i in m.ballots && m.ballots[i].signed ==> Voted(log, i, m.ballots[i].blkHash, v.kind, v.round))
    && (!m.formed ==> m.weight == |m.ballots| && m.used == m.ballots.Keys)
  }

  ghost predicate MakersGenuine(cfg: Config, log: seq<Msg>, votes: map<Round, map<Digest, Maker>>, commits: map<Round, Maker>) {
    forall v :: MakerGenuine(cfg, log, MakerIn(votes, commits, v), v)
  }

  ghost predicate TcMakerGenuine(cfg: Config, log: seq<Msg>, m: TcMaker, r: Round) {
    AllowedWqc(cfg, log, m.highWqc) && exists ts :: CountedAre(cfg, log, m, ts, r)
  }

  ghost predicate TcMakersGenuine(cfg: Config, log: seq<Msg>, timeouts: map<Round, TcMaker>) {
    forall r :: TcMakerGenuine(cfg, log, TcMakerIn(timeouts, r), r)
  }

  ghost predicate CertsGenuine(cfg: Config, log: seq<Msg>, certs: set<Cert>) {
    forall c :: c in certs ==> CertGenuine(cfg, log, c)
  }

  ghost predicate BooksGenuine(cfg: Config, log: seq<Msg>, b: Books) {
    MakersGenuine(cfg, log, b.votes, b.commits) && TcMakersGenuine(cfg, log, b.timeouts) && CertsGenuine(cfg, log, b.certs)
  }

  // ---------------------------------------------------------------- a longer log

  lemma CertGrows(cfg: Config, log: seq<Msg>, log': seq<Msg>, c: Cert)
    requires log <= log' && CertGenuine(cfg, log, c)
    ensures CertGenuine(cfg, log', c)
  {
    match c {
      case OfQc(qc) => GenuineQcGrows(cfg, log, log', qc);
      case OfWqc(wqc) => AllowedWqcGrows(cfg, log, log', wqc);
      case OfTc(tc) => GenuineTcGrows(cfg, log, log', tc);
    }
  }

  lemma MakersGrow(cfg: Config, log: seq<Msg>, log': seq<Msg>, votes: map<Round, map<Digest, Maker>>, commits: map<Round, Maker>)
    requires log <= log' && MakersGenuine(cfg, log, votes, commits)
    ensures MakersGenuine(cfg, log', votes, commits)
  {
    assert forall m :: m in log ==> m in log';
    forall v: Vote ensures MakerGenuine(cfg, log', MakerIn(votes, commits, v), v) {
      assert MakerGenuine(cfg, log, MakerIn(votes, commits, v), v);
    }
  }

  lemma CountedGrow(cfg: Config, log: seq<Msg>, log': seq<Msg>, m: TcMaker, ts: seq<Timeout>, r: Round)
    requires log <= log' && CountedAre(cfg, log, m, ts, r)
    ensures CountedAre(cfg, log', m, ts, r)
  {
    assert forall x :: x in log ==> x in log';
    GenuineQcGrows(cfg, log, log', m.highQc);
  }

  lemma BooksGrow(cfg: Config, log: seq<Msg>, log': seq<Msg>, b: Books)
    requires log <= log' && BooksGenuine(cfg, log, b)
    ensures BooksGenuine(cfg, log', b)
  {
    MakersGrow(cfg, log, log', b.votes, b.commits);
    forall r: Round ensures TcMakerGenuine(cfg, log', TcMakerIn(b.timeouts, r), r) {
      assert TcMakerGenuine(cfg, log, TcMakerIn(b.timeouts, r), r);
      var ts :| CountedAre(cfg, log, TcMakerIn(b.timeouts, r), ts, r);
      CountedGrow(cfg, log, log', TcMakerIn(b.timeouts, r), ts, r);
      AllowedWqcGrows(cfg, log, log', TcMakerIn(b.timeouts, r).highWqc);
    }
    forall c | c in b.certs ensures CertGenuine(cfg, log', c) {
      CertGrows(cfg, log, log', c);
    }
  }

  lemma FirstBooksGenuine(cfg: Config, log: seq<Msg>)
    ensures BooksGenuine(cfg, log, FIRST_BOOKS)
  {
    forall r: Round ensures TcMakerGenuine(cfg, log, EMPTY_TC_MAKER, r) {
      assert CountedAre(cfg, log, EMPTY_TC_MAKER, [], r);
    }
  }

  // ---------------------------------------------------------------- counting votes

  lemma TallyGenuine(cfg: Config, log: seq<Msg>, m: Maker, v: Vote, signed: bool)
    requires MakerGenuine(cfg, log, m, v) && !m.formed && v.author !in m.used && v.author in cfg.members && (signed ==> V(v) in log)
    ensures MakerGenuine(cfg, log, Tally(m, v, signed), v)
  {
    OneMoreKey(m.ballots, v.author, Ballot(v.blkHash, signed));
  }

  /** What the maker certifies is a genuine QC. */
  lemma CertifiedGenuine(cfg: Config, log: seq<Msg>, m: Maker, v: Vote, fastQuorum: bool)
    requires MakerGenuine(cfg, log, m, v) && v.round > 0
    requires |m.ballots| == Size(cfg.p, v.kind, fastQuorum)
    requires Certify(m.ballots, v, fastQuorum).Ok?
    ensures GenuineQc(cfg, log, Certify(m.ballots, v, fastQuorum).value.value)
  {
    forall i | i in m.ballots ensures Voted(log, i, v.blkHash, v.kind, v.round) {
      assert m.ballots[i] == Ballot(v.blkHash, true);
    }
    assert |m.ballots| == |m.ballots.Keys|;
  }

  lemma AppendGenuine(cfg: Config, log: seq<Msg>, m: Maker, v: Vote, signed: bool)
    requires MakerGenuine(cfg, log, m, v) && v.author in cfg.members && (signed ==> V(v) in log) && v.round > 0
    ensures var (m', r) := Append(cfg.p, m, v, signed, v.kind == Normal);
            MakerGenuine(cfg, log, m', v) && forall c :: c in NewQc(r) ==> CertGenuine(cfg, log, c)
  {
    if v.author !in m.used && !m.formed {
      TallyGenuine(cfg, log, m, v, signed);
      var t := Tally(m, v, signed);
      if t.weight == Size(cfg.p, v.kind, false) && Certify(t.ballots, v, false).Ok? {
        CertifiedGenuine(cfg, log, t, v, false);
      } else if v.kind == Normal && t.weight == Size(cfg.p, v.kind, true) && Certify(t.ballots, v, true).Ok? {
        CertifiedGenuine(cfg, log, t, v, true);
      }
    }
  }

  lemma OtherMakers(b: Books, v: Vote, m: Maker, u: Vote)
    ensures MakerIn(WithVotes(b.votes, v, m), WithCommits(b.commits, v, m), u)
            == if u.kind == v.kind && u.round == v.round && (v.kind == Commit || u.blkHash == v.blkHash) then m
               else MakerIn(b.votes, b.commits, u)
  {}

  lemma VoteKeepsGenuine(cfg: Config, log: seq<Msg>, b: Books, v: Vote, signed: bool)
    requires BooksGenuine(cfg, log, b) && v.author in cfg.members && (signed ==> V(v) in log) && v.round > 0
    ensures BooksGenuine(cfg, log, OnVote(cfg.p, b, v, signed))
  {
    var (m, r) := Counted(cfg.p, b, v, signed);
    assert MakerGenuine(cfg, log, MakerIn(b.votes, b.commits, v), v);
    AppendGenuine(cfg, log, MakerIn(b.votes, b.commits, v), v, signed);
    var b' := OnVote(cfg.p, b, v, signed);
    forall u: Vote ensures MakerGenuine(cfg, log, MakerIn(b'.votes, b'.commits, u), u) {
      OtherMakers(b, v, m, u);
      assert MakerGenuine(cfg, log, MakerIn(b.votes, b.commits, u), u);
    }
  }

  // ---------------------------------------------------------------- counting timeouts

  lemma CountOneMore(cfg: Config, log: seq<Msg>, m: TcMaker, ts: seq<Timeout>, t: Timeout)
    requires CountedAre(cfg, log, m, ts, t.round) && t.author !in m.used && t.author in cfg.members
    requires T(t) in log && (t.covers.Some? ==> SignedFor(log, t, t.covers.value)) && GenuineQc(cfg, log, t.highQc)
    ensures CountedAre(cfg, log, Count(m, t), ts + [t], t.round)
  {
    var ts', m' := ts + [t], Count(m, t);
    assert forall k :: 0 <= k < |ts| ==> ts'[k] == ts[k];
    assert ts'[|ts|] == t;
    assert Senders(ts') == Senders(ts) + {t.author};
    assert forall k :: 0 <= k < |ts| ==> ts[k].author in Senders(ts);
    assert ReportsOf(ts') == ReportsOf(ts) + [SignedVote(t.highVote, t.covers)];
  }

  /** A WQC that a node builds from what it has counted is a weak certificate of the network model. */
  lemma BuiltAllowed(cfg: Config, log: seq<Msg>, m: TcMaker, ts: seq<Timeout>, r: Round, wqc: WQC)
    requires CountedAre(cfg, log, m, ts, r) && Builds(cfg.p, cfg.members, m.highVotes, wqc)
    requires Reliable(cfg, log) && (cfg.exactWqc ==> Guard(cfg.p, m.highVotes, wqc.round))
    ensures AllowedWqc(cfg, log, wqc)
  {
    if cfg.exactWqc {
      GuardSuffices(cfg, log, ts, wqc);
    } else {
      BuiltFromSent(cfg, log, ts, wqc);
    }
  }

  // What counting one more timeout leads to.
  lemma TimeoutCounted(cfg: Config, log: seq<Msg>, m0: TcMaker, t: Timeout, wqc: Option<WQC>)
    requires TcMakerGenuine(cfg, log, m0, t.round) && Trusted(cfg, log, CountTimeout(t, wqc)) && Reliable(cfg, log)
    requires t.author in cfg.members && t.author !in m0.used && GenuineQc(cfg, log, t.highQc) && AllowedWqc(cfg, log, t.highWqc)
    requires MayBuild(cfg.p, cfg.members, Count(m0, t), wqc)
    requires cfg.exactWqc && wqc.Some? ==> Guard(cfg.p, Count(m0, t).highVotes, wqc.value.round)
    ensures TcMakerGenuine(cfg, log, Adopt(cfg.p, Count(m0, t), wqc, t.round), t.round)
    ensures Count(m0, t).weight >= cfg.p.ViewChange() ==> GenuineTc(cfg, log, Assemble(Count(m0, t), wqc, t.round))
  {
    var m := Count(m0, t);
    var ts0 :| CountedAre(cfg, log, m0, ts0, t.round);
    CountOneMore(cfg, log, m0, ts0, t);
    var ts := ts0 + [t];
    if wqc.Some? {
      BuiltAllowed(cfg, log, m, ts, t.round, wqc.value);
    }
    var m' := Adopt(cfg.p, m, wqc, t.round);
    assert CountedAre(cfg, log, m', ts, t.round);
    if m.weight >= cfg.p.ViewChange() {
      AssembledButWqc(cfg, log, m', ts, t.round);
    }
  }

  lemma OneTcMaker(cfg: Config, log: seq<Msg>, timeouts: map<Round, TcMaker>, r: Round, m: TcMaker)
    requires TcMakersGenuine(cfg, log, timeouts) && TcMakerGenuine(cfg, log, m, r)
    ensures TcMakersGenuine(cfg, log, timeouts[r := m])
  {
    var timeouts' := timeouts[r := m];
    forall x: Round ensures TcMakerGenuine(cfg, log, TcMakerIn(timeouts', x), x) {
      assert TcMakerGenuine(cfg, log, TcMakerIn(timeouts, x), x);
    }
  }

  lemma TcCertsGenuine(cfg: Config, log: seq<Msg>, tc: TC)
    requires GenuineTc(cfg, log, tc)
    ensures CertsGenuine(cfg, log, TcCerts(Some(tc)))
  {}

  lemma TimeoutKeepsGenuine(cfg: Config, log: seq<Msg>, b: Books, t: Timeout, wqc: Option<WQC>)
    requires BooksGenuine(cfg, log, b) && Trusted(cfg, log, CountTimeout(t, wqc))
    requires Reliable(cfg, log) && Guarded(cfg, b, CountTimeout(t, wqc))
    requires t.author in cfg.members && t.author !in TcMakerIn(b.timeouts, t.round).used
    requires OfQc(t.highQc) in b.certs && OfWqc(t.highWqc) in b.certs
    requires MayBuild(cfg.p, cfg.members, Count(TcMakerIn(b.timeouts, t.round), t), wqc)
    ensures BooksGenuine(cfg, log, OnTimeout(cfg.p, b, t, wqc))
  {
    var m0 := TcMakerIn(b.timeouts, t.round);
    assert TcMakerGenuine(cfg, log, m0, t.round);
    assert CertGenuine(cfg, log, OfQc(t.highQc)) && CertGenuine(cfg, log, OfWqc(t.highWqc));
    TimeoutCounted(cfg, log, m0, t, wqc);
    OneTcMaker(cfg, log, b.timeouts, t.round, AfterTimeout(cfg.p, b.timeouts, t, wqc));
    var tc := NewTc(cfg.p, b.timeouts, t, wqc);
    if tc.Some? {
      TcCertsGenuine(cfg, log, tc.value);
    }
  }

  // ---------------------------------------------------------------- every act

  lemma DropKeepsGenuine(cfg: Config, log: seq<Msg>, b: Books, r: Round)
    requires BooksGenuine(cfg, log, b)
    ensures BooksGenuine(cfg, log, b.(votes := Newer(b.votes, r), commits := Newer(b.commits, r)))
    ensures BooksGenuine(cfg, log, b.(timeouts := Newer(b.timeouts, r)))
  {
    forall v: Vote ensures MakerGenuine(cfg, log, MakerIn(Newer(b.votes, r), Newer(b.commits, r), v), v) {
      assert MakerGenuine(cfg, log, MakerIn(b.votes, b.commits, v), v);
    }
    forall x: Round ensures TcMakerGenuine(cfg, log, TcMakerIn(Newer(b.timeouts, r), x), x) {
      assert TcMakerGenuine(cfg, log, TcMakerIn(b.timeouts, x), x);
      assert CountedAre(cfg, log, EMPTY_TC_MAKER, [], x);
    }
  }

  /** Every act of a node keeps its makers and its certificates genuine. */
  lemma ActKeepsGenuine(cfg: Config, log: seq<Msg>, i: Node, s: NodeState, b: Books, a: Act)
    requires BooksGenuine(cfg, log, b) && MayDo(Me(cfg, i), s, b, a) && Trusted(cfg, log, a)
    requires Reliable(cfg, log) && Guarded(cfg, b, a)
    ensures BooksGenuine(cfg, log, BooksAfter(Me(cfg, i), b, a))
  {
    match a {
      case Do(_) =>
      case CountVote(v, signed) => VoteKeepsGenuine(cfg, log, b, v, signed);
      case CountTimeout(t, wqc) => TimeoutKeepsGenuine(cfg, log, b, t, wqc);
      case Learn(_) =>
      case DropVotes(r) => DropKeepsGenuine(cfg, log, b, r);
      case DropTimeouts(r) => DropKeepsGenuine(cfg, log, b, r);
    }
  }

  // ---------------------------------------------------------------- runs

  datatype Happening = By(i: Node, a: Act) | Attack(m: Msg)

  datatype Ships = Ships(nodes: map<Node, History>, log: seq<Msg>)

  ghost predicate CanOccur(cfg: Config, x: Ships, e: Happening) {
    match e
    case By(i, a) =>
      && cfg.Honest(i) && i in x.nodes
      && MayDo(Me(cfg, i), StateOf(Me(cfg, i), x.nodes[i]), BooksOf(Me(cfg, i), x.nodes[i]), a)
      && Trusted(cfg, x.log, a) && Guarded(cfg, BooksOf(Me(cfg, i), x.nodes[i]), a)
    case Attack(m) => Sender(m) in cfg.byzantine
  }

  function Says(cfg: Config, i: Node, h: History, a: Act): seq<Msg> {
    match a
    case Do(l) => Sent(i, StateOf(Me(cfg, i), h), l)
    case _ => []
  }

  function Next(cfg: Config, x: Ships, e: Happening): Ships {
    match e
    case By(i, a) =>
      if i in x.nodes then Ships(x.nodes[i := Then(x.nodes[i], a)], x.log + Says(cfg, i, x.nodes[i], a)) else x
    case Attack(m) => x.(log := x.log + [m])
  }

  function Reach(cfg: Config, run: seq<Happening>): Ships {
    if run == [] then Ships(map i | i in cfg.members :: Start, [])
    else Next(cfg, Reach(cfg, run[..|run| - 1]), run[|run| - 1])
  }

  ghost predicate FleetRun(cfg: Config, run: seq<Happening>) {
    run == [] || (FleetRun(cfg, run[..|run| - 1]) && CanOccur(cfg, Reach(cfg, run[..|run| - 1]), run[|run| - 1]))
  }

  // The steps and attacks of a run.
  function Seen(run: seq<Happening>): seq<Event> {
    if run == [] then []
    else
      var rest := Seen(run[..|run| - 1]);
      match run[|run| - 1]
      case By(i, Do(l)) => rest + [NodeStep(i, l)]
      case By(_, _) => rest
      case Attack(m) => rest + [Adversary(m)]
  }

  // The fleet and the network are in the same state.
  ghost predicate Same(cfg: Config, x: Ships, net: Net) {
    && x.log == net.log && x.nodes.Keys == net.nodes.Keys
    && forall i :: i in x.nodes ==> net.nodes[i] == StateOf(Me(cfg, i), x.nodes[i])
  }

  ghost predicate AllGenuine(cfg: Config, x: Ships) {
    forall i :: cfg.Honest(i) && i in x.nodes ==>
      Proper(Me(cfg, i), x.nodes[i]) && BooksGenuine(cfg, x.log, BooksOf(Me(cfg, i), x.nodes[i]))
  }

  // A step that rests on known certificates rests on genuine ones.
  lemma NeedsAreGenuine(cfg: Config, log: seq<Msg>, i: Node, b: Books, l: Label)
    requires CertsGenuine(cfg, log, b.certs) && Needs(l) <= b.certs && ByLeader(Me(cfg, i), l)
    ensures Genuine(cfg, log, l)
  {
    forall c | c in Needs(l) ensures CertGenuine(cfg, log, c) {
      assert c in b.certs;
    }
    match l {
      case Accept(_, ByQc(qc)) => assert OfQc(qc) in Needs(l);
      case Accept(_, ByTc(tc)) => assert OfTc(tc) in Needs(l);
      case Lock(qc) => assert OfQc(qc) in Needs(l);
      case RaiseWqc(wqc) => assert OfWqc(wqc) in Needs(l);
      case CommitTo(_, qc) => assert OfQc(qc) in Needs(l);
      case Request(_, qc) => assert OfQc(qc) in Needs(l);
      case _ =>
    }
  }

  lemma OneOccurs(cfg: Config, x: Ships, e: Happening)
    requires AllGenuine(cfg, x) && CanOccur(cfg, x, e) && Reliable(cfg, x.log)
    ensures AllGenuine(cfg, Next(cfg, x, e))
  {
    var x' := Next(cfg, x, e);
    forall j | cfg.Honest(j) && j in x'.nodes
      ensures Proper(Me(cfg, j), x'.nodes[j]) && BooksGenuine(cfg, x'.log, BooksOf(Me(cfg, j), x'.nodes[j]))
    {
      assert Proper(Me(cfg, j), x.nodes[j]) && BooksGenuine(cfg, x.log, BooksOf(Me(cfg, j), x.nodes[j]));
      if e.By? && e.i == j {
        ActKeepsGenuine(cfg, x.log, j, StateOf(Me(cfg, j), x.nodes[j]), BooksOf(Me(cfg, j), x.nodes[j]), e.a);
      }
      BooksGrow(cfg, x.log, x'.log, BooksOf(Me(cfg, j), x'.nodes[j]));
    }
  }

  // A step of the fleet is a step of the network or leaves it as it is.
  lemma OneSeen(cfg: Config, x: Ships, net: Net, e: Happening)
    requires AllGenuine(cfg, x) && CanOccur(cfg, x, e) && Same(cfg, x, net)
    ensures e.Attack? ==> CanHappen(cfg, net, Adversary(e.m)) && Same(cfg, Next(cfg, x, e), After(net, Adversary(e.m)))
    ensures e.By? && e.a.Do? ==> CanHappen(cfg, net, NodeStep(e.i, e.a.l)) && Same(cfg, Next(cfg, x, e), After(net, NodeStep(e.i, e.a.l)))
    ensures e.By? && !e.a.Do? ==> Same(cfg, Next(cfg, x, e), net)
  {
    if e.By? {
      var b := BooksOf(Me(cfg, e.i), x.nodes[e.i]);
      assert BooksGenuine(cfg, x.log, b);
      if e.a.Do? {
        NeedsAreGenuine(cfg, x.log, e.i, b, e.a.l);
      } else {
        assert x.log + [] == x.log;
      }
    }
  }

  lemma SeenGoesOn(seen: seq<Event>, e: Event, cfg: Config)
    requires Run(cfg, seen) && CanHappen(cfg, Final(cfg, seen), e)
    ensures Run(cfg, seen + [e]) && Final(cfg, seen + [e]) == After(Final(cfg, seen), e)
  {
    assert (seen + [e])[..|seen + [e]| - 1] == seen;
  }

  lemma FleetBegins(cfg: Config)
    ensures AllGenuine(cfg, Reach(cfg, [])) && Same(cfg, Reach(cfg, []), Final(cfg, []))
  {
    FirstBooksGenuine(cfg, []);
  }

  // Genuine certificates give a run of the network, and that gives the truthful reports which
  // make the next certificates genuine.
  lemma {:induction false} FleetOk(cfg: Config, run: seq<Happening>)
    requires FleetRun(cfg, run) && (cfg.exactWqc ==> cfg.Committee())
    ensures AllGenuine(cfg, Reach(cfg, run)) && Run(cfg, Seen(run)) && Same(cfg, Reach(cfg, run), Final(cfg, Seen(run)))
  {
    if run == [] {
      FleetBegins(cfg);
    } else {
      var rest, e := run[..|run| - 1], run[|run| - 1];
      FleetOk(cfg, rest);
      RunTruthful(cfg, Seen(rest));
      OneOccurs(cfg, Reach(cfg, rest), e);
      OneSeen(cfg, Reach(cfg, rest), Final(cfg, Seen(rest)), e);
      if e.Attack? {
        SeenGoesOn(Seen(rest), Adversary(e.m), cfg);
      } else if e.a.Do? {
        SeenGoesOn(Seen(rest), NodeStep(e.i, e.a.l), cfg);
      }
    }
  }

  /** In every run of the fleet, all certificates that honest nodes know are genuine, also those they made. */
  lemma FleetGenuine(cfg: Config, run: seq<Happening>, i: Node, c: Cert)
    requires FleetRun(cfg, run) && (cfg.exactWqc ==> cfg.Committee()) && cfg.Honest(i) && i in Reach(cfg, run).nodes
    requires c in BooksOf(Me(cfg, i), Reach(cfg, run).nodes[i]).certs
    ensures CertGenuine(cfg, Reach(cfg, run).log, c)
  {
    FleetOk(cfg, run);
    assert BooksGenuine(cfg, Reach(cfg, run).log, BooksOf(Me(cfg, i), Reach(cfg, run).nodes[i]));
  }

  /**
   The steps of every run of the fleet are a run of the network model that reaches the same
   states and sends the same messages.
   */
  lemma FleetIsNetwork(cfg: Config, run: seq<Happening>)
    requires FleetRun(cfg, run) && (cfg.exactWqc ==> cfg.Committee())
    ensures Run(cfg, Seen(run)) && Same(cfg, Reach(cfg, run), Final(cfg, Seen(run)))
  {
    FleetOk(cfg, run);
  }

  // ---------------------------------------------------------------- the other way round

  // A genuine step needs at most one certificate, and that is genuine.
  lemma NeededIsGenuine(cfg: Config, log: seq<Msg>, l: Label, c: Cert)
    requires Genuine(cfg, log, l) && c in Needs(l)
    ensures CertGenuine(cfg, log, c) && Needs(l) == {c}
  {}

  lemma FleetGoesOn(cfg: Config, run: seq<Happening>, e: Happening)
    requires FleetRun(cfg, run) && CanOccur(cfg, Reach(cfg, run), e)
    ensures FleetRun(cfg, run + [e]) && Reach(cfg, run + [e]) == Next(cfg, Reach(cfg, run), e)
    ensures Seen(run + [e]) == match e {
              case By(i, Do(l)) => Seen(run) + [NodeStep(i, l)]
              case By(_, _) => Seen(run)
              case Attack(m) => Seen(run) + [Adversary(m)]
            }
  {
    assert (run + [e])[..|run + [e]| - 1] == run;
  }

  // A node receives a certificate, and nothing else changes.
  lemma OneLearnt(cfg: Config, run: seq<Happening>, net: Net, i: Node, c: Cert)
    requires FleetRun(cfg, run) && Same(cfg, Reach(cfg, run), net) && cfg.Honest(i) && i in net.nodes && CertGenuine(cfg, net.log, c)
    ensures var run' := run + [By(i, Learn(c))];
            FleetRun(cfg, run') && Seen(run') == Seen(run) && Same(cfg, Reach(cfg, run'), net)
            && c in BooksOf(Me(cfg, i), Reach(cfg, run').nodes[i]).certs
  {
    FleetGoesOn(cfg, run, By(i, Learn(c)));
    assert Reach(cfg, run).log + [] == Reach(cfg, run).log;
  }

  // A node receives what a step needs before it takes the step.
  lemma Learnt(cfg: Config, run: seq<Happening>, net: Net, i: Node, l: Label) returns (run': seq<Happening>)
    requires FleetRun(cfg, run) && Same(cfg, Reach(cfg, run), net) && cfg.Honest(i) && i in net.nodes && Genuine(cfg, net.log, l)
    ensures FleetRun(cfg, run') && Seen(run') == Seen(run) && Same(cfg, Reach(cfg, run'), net)
    ensures Needs(l) <= BooksOf(Me(cfg, i), Reach(cfg, run').nodes[i]).certs
  {
    run' := run;
    if c :| c in Needs(l) {
      NeededIsGenuine(cfg, net.log, l, c);
      OneLearnt(cfg, run, net, i, c);
      run' := run + [By(i, Learn(c))];
    }
  }

  lemma StepTaken(cfg: Config, x: Ships, net: Net, i: Node, l: Label)
    requires Same(cfg, x, net) && CanHappen(cfg, net, NodeStep(i, l)) && Needs(l) <= BooksOf(Me(cfg, i), x.nodes[i]).certs
    ensures CanOccur(cfg, x, By(i, Do(l))) && Same(cfg, Next(cfg, x, By(i, Do(l))), After(net, NodeStep(i, l)))
  {}

  lemma OneMoreEvent(cfg: Config, run: seq<Happening>, net: Net, e: Event) returns (run': seq<Happening>)
    requires FleetRun(cfg, run) && Same(cfg, Reach(cfg, run), net) && CanHappen(cfg, net, e)
    ensures FleetRun(cfg, run') && Seen(run') == Seen(run) + [e] && Same(cfg, Reach(cfg, run'), After(net, e))
  {
    match e {
      case NodeStep(i, l) =>
        var learnt := Learnt(cfg, run, net, i, l);
        StepTaken(cfg, Reach(cfg, learnt), net, i, l);
        FleetGoesOn(cfg, learnt, By(i, Do(l)));
        run' := learnt + [By(i, Do(l))];
      case Adversary(m) =>
        FleetGoesOn(cfg, run, Attack(m));
        run' := run + [Attack(m)];
    }
  }

  /**
   Every run of the network model, such as those of `Disagreement` and `Misnaming`, is one of the
   fleet, in which the nodes receive the certificates that they act on.
   */
  lemma {:induction false} NetworkIsFleet(cfg: Config, run: seq<Event>) returns (run': seq<Happening>)
    requires Run(cfg, run)
    ensures FleetRun(cfg, run') && Seen(run') == run && Same(cfg, Reach(cfg, run'), Final(cfg, run))
  {
    if run == [] {
      run' := [];
      FleetBegins(cfg);
    } else {
      var rest, e := run[..|run| - 1], run[|run| - 1];
      var rest' := NetworkIsFleet(cfg, rest);
      run' := OneMoreEvent(cfg, rest', Final(cfg, rest), e);
      assert rest + [e] == run;
    }
  }

  // Any two genuine Commit QCs of any run of the fleet are for blocks on one chain.
  ghost predicate SafeFleet(cfg: Config) {
    forall run, qc: QC, qc': QC ::
      (FleetRun(cfg, run) && qc.kind == Commit && qc'.kind == Commit
       && GenuineQc(cfg, Reach(cfg, run).log, qc) && GenuineQc(cfg, Reach(cfg, run).log, qc')) ==>
        Playing.OnOneChain(qc.blkHash, qc'.blkHash)
  }

  /**
   A configuration is safe for fleets exactly if it is safe for networks, so the exact conditions of
   `Disagreement` and `Misnaming` are also those of nodes with their makers.
   */
  lemma SafeFleetIff(cfg: Config)
    requires cfg.exactWqc ==> cfg.Committee()
    ensures SafeFleet(cfg) <==> Playing.Safe(cfg)
  {
    if Playing.Safe(cfg) {
      forall run, qc: QC, qc': QC | FleetRun(cfg, run) && qc.kind == Commit && qc'.kind == Commit
        && GenuineQc(cfg, Reach(cfg, run).log, qc) && GenuineQc(cfg, Reach(cfg, run).log, qc')
        ensures Playing.OnOneChain(qc.blkHash, qc'.blkHash)
      {
        FleetIsNetwork(cfg, run);
      }
    }
    if SafeFleet(cfg) {
      forall run, qc: QC, qc': QC | Run(cfg, run) && qc.kind == Commit && qc'.kind == Commit
        && GenuineQc(cfg, Final(cfg, run).log, qc) && GenuineQc(cfg, Final(cfg, run).log, qc')
        ensures Playing.OnOneChain(qc.blkHash, qc'.blkHash)
      {
        var run' := NetworkIsFleet(cfg, run);
      }
    }
  }
}
