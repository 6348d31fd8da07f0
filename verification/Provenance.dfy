/**
 Where a node's certificates come from. A chronicle records, besides the steps of `Steps`,
 every vote and timeout that a node counts and every certificate that it receives, and lets
 it act only on certificates that it knows: those it received and those its own makers made.
 `Fleet` proves that these are genuine if the received ones are.
 */
module Provenance {
  import opened Types
  import opened Thresholds
  import opened Makers
  import opened Steps

  datatype Identity = Identity(name: Node, p: Params, members: set<Node>, leader: Round -> Node)

  datatype Cert = OfQc(qc: QC) | OfWqc(wqc: WQC) | OfTc(tc: TC)

  datatype Act =
    | Do(l: Label)                                  // a step
    | CountVote(v: Vote, signed: bool)              // add_normal_vote and add_commit_vote, aggregator.rs:34-56
    | CountTimeout(t: Timeout, wqc: Option<WQC>)    // add_timeout for a new and well-formed timeout, aggregator.rs:58-66
    | Learn(c: Cert)                                // a certificate arrives in a message
    | DropVotes(r: Round)                           // cleanup_prepares, aggregator.rs:68-73
    | DropTimeouts(r: Round)                        // cleanup_timeouts, aggregator.rs:75-77

  // The makers, and the certificates known.
  datatype Books = Books(
    votes: map<Round, map<Digest, Maker>>,
    commits: map<Round, Maker>,
    timeouts: map<Round, TcMaker>,
    certs: set<Cert>)

  const FIRST_BOOKS := Books(map[], map[], map[], {OfQc(GENESIS_QC), OfWqc(GENESIS_WQC)})

  // ---------------------------------------------------------------- makers

  // One maker for each round and block of Normal votes, and one for each round of Commit votes.
  function MakerIn(votes: map<Round, map<Digest, Maker>>, commits: map<Round, Maker>, v: Vote): Maker {
    if v.kind == Commit then
      if v.round in commits then commits[v.round] else EMPTY_MAKER
    else
      if v.round in votes && v.blkHash in votes[v.round] then votes[v.round][v.blkHash] else EMPTY_MAKER
  }

  function WithVotes(votes: map<Round, map<Digest, Maker>>, v: Vote, m: Maker): map<Round, map<Digest, Maker>> {
    if v.kind == Commit then votes
    else votes[v.round := (if v.round in votes then votes[v.round] else map[])[v.blkHash := m]]
  }

  function WithCommits(commits: map<Round, Maker>, v: Vote, m: Maker): map<Round, Maker> {
    if v.kind == Commit then commits[v.round := m] else commits
  }

  function TcMakerIn(timeouts: map<Round, TcMaker>, r: Round): TcMaker {
    if r in timeouts then timeouts[r] else EMPTY_TC_MAKER
  }

  // What counting a vote does.
  function Counted(p: Params, b: Books, v: Vote, signed: bool): (Maker, Result<Option<QC>>) {
    Append(p, MakerIn(b.votes, b.commits, v), v, signed, v.kind == Normal)
  }

  function NewQc(r: Result<Option<QC>>): set<Cert> {
    match r
    case Ok(Some(qc)) => {OfQc(qc)}
    case _ => {}
  }

  function OnVote(p: Params, b: Books, v: Vote, signed: bool): Books {
    var (m, r) := Counted(p, b, v, signed);
    b.(votes := WithVotes(b.votes, v, m), commits := WithCommits(b.commits, v, m),
       certs := b.certs + NewQc(r))
  }

  // The maker of a timeout's round after it is counted, with the WQC built from it if any.
  function AfterTimeout(p: Params, timeouts: map<Round, TcMaker>, t: Timeout, wqc: Option<WQC>): TcMaker {
    Adopt(p, Count(TcMakerIn(timeouts, t.round), t), wqc, t.round)
  }

  // The TC that results from it, if any.
  function NewTc(p: Params, timeouts: map<Round, TcMaker>, t: Timeout, wqc: Option<WQC>): Option<TC> {
    var m := Count(TcMakerIn(timeouts, t.round), t);
    if m.weight >= p.ViewChange() then Some(Assemble(m, wqc, t.round)) else None
  }

  function TcCerts(tc: Option<TC>): set<Cert> {
    match tc
    case Some(tc) => {OfTc(tc), OfQc(tc.highQc), OfWqc(tc.highWqc)}
    case None => {}
  }

  function OnTimeout(p: Params, b: Books, t: Timeout, wqc: Option<WQC>): Books {
    b.(timeouts := b.timeouts[t.round := AfterTimeout(p, b.timeouts, t, wqc)],
       certs := b.certs + TcCerts(NewTc(p, b.timeouts, t, wqc)))
  }

  function Newer<T>(m: map<Round, T>, r: Round): map<Round, T> {
    map x | x in m && x > r :: m[x]
  }

  // ---------------------------------------------------------------- what a node may do

  // The certificates that a step rests on.
  function Needs(l: Label): set<Cert> {
    match l
    case Accept(_, ByQc(qc)) => {OfQc(qc)}
    case Accept(_, ByTc(tc)) => {OfTc(tc)}
    case Lock(qc) => {OfQc(qc)}
    case RaiseWqc(wqc) => {OfWqc(wqc)}
    case CommitTo(_, qc) => {OfQc(qc)}
    case Request(_, qc) => {OfQc(qc)}
    case _ => {}
  }

  // A proposal is by the leader of its round (core.rs:789-796).
  predicate ByLeader(me: Identity, l: Label) {
    l.Accept? && !l.why.BySync? ==> l.block.author == me.leader(l.block.round)
  }

  predicate MayDo(me: Identity, s: NodeState, b: Books, a: Act) {
    match a
    case Do(l) => Enabled(s, l) && Needs(l) <= b.certs && ByLeader(me, l)
    case CountVote(v, _) => v.author in me.members && v.round > 0
    case CountTimeout(t, wqc) =>
      && t.author in me.members && t.author !in TcMakerIn(b.timeouts, t.round).used
      && OfQc(t.highQc) in b.certs && OfWqc(t.highWqc) in b.certs
      && MayBuild(me.p, me.members, Count(TcMakerIn(b.timeouts, t.round), t), wqc)
    case _ => true
  }

  function BooksAfter(me: Identity, b: Books, a: Act): Books {
    match a
    case Do(_) => b
    case CountVote(v, signed) => OnVote(me.p, b, v, signed)
    case CountTimeout(t, wqc) => OnTimeout(me.p, b, t, wqc)
    case Learn(c) => b.(certs := b.certs + {c})
    case DropVotes(r) => b.(votes := Newer(b.votes, r), commits := Newer(b.commits, r))
    case DropTimeouts(r) => b.(timeouts := Newer(b.timeouts, r))
  }

  // ---------------------------------------------------------------- histories

  // What a node has done, the latest act last.
  datatype History = Start | Then(before: History, a: Act)

  function StateOf(me: Identity, h: History): NodeState {
    match h
    case Start => Init(me.name)
    case Then(before, a) =>
      match a
      case Do(l) => Apply(me.name, StateOf(me, before), l)
      case _ => StateOf(me, before)
  }

  function LogOf(me: Identity, h: History): seq<Msg> {
    match h
    case Start => []
    case Then(before, a) =>
      match a
      case Do(l) => LogOf(me, before) + Sent(me.name, StateOf(me, before), l)
      case _ => LogOf(me, before)
  }

  function BooksOf(me: Identity, h: History): Books {
    match h
    case Start => FIRST_BOOKS
    case Then(before, a) => BooksAfter(me, BooksOf(me, before), a)
  }

  predicate Proper(me: Identity, h: History) {
    match h
    case Start => true
    case Then(before, a) => Proper(me, before) && MayDo(me, StateOf(me, before), BooksOf(me, before), a)
  }

  // The steps among the acts.
  function LabelsOf(h: History): seq<Label> {
    match h
    case Start => []
    case Then(before, a) =>
      match a
      case Do(l) => LabelsOf(before) + [l]
      case _ => LabelsOf(before)
  }

  /** The steps of a proper history are a legal run of the node, with the same state and messages. */
  lemma {:induction false} HistoryIsRun(me: Identity, h: History)
    requires Proper(me, h)
    ensures Legal(me.name, LabelsOf(h)) && Exec(me.name, LabelsOf(h)) == StateOf(me, h) && Log(me.name, LabelsOf(h)) == LogOf(me, h)
  {
    if h.Then? {
      HistoryIsRun(me, h.before);
      if h.a.Do? {
        var labels := LabelsOf(h.before);
        assert (labels + [h.a.l])[..|labels + [h.a.l]| - 1] == labels;
      }
    }
  }

  // h' is h or a continuation of it.
  predicate From(h: History, h': History) {
    h' == h || (h'.Then? && From(h, h'.before))
  }

  lemma {:induction false} FromTransitive(h: History, h1: History, h2: History)
    requires From(h, h1) && From(h1, h2)
    ensures From(h, h2)
  {
    if h2 != h1 {
      FromTransitive(h, h1, h2.before);
    }
  }

  lemma {:induction false} FromKeeps(me: Identity, h: History, h': History)
    requires From(h, h') && Proper(me, h')
    ensures NoEarlier(StateOf(me, h), StateOf(me, h')) && LogOf(me, h) <= LogOf(me, h')
  {
    if h' != h {
      FromKeeps(me, h, h'.before);
      if h'.a.Do? {
        StepNoEarlier(me.name, StateOf(me, h'.before), h'.a.l);
      }
    }
  }

  // ---------------------------------------------------------------- chronicles

  // A proper history with what it leads to.
  datatype Annals = Annals(me: Identity, h: History, state: NodeState, log: seq<Msg>, books: Books)

  predicate IsChronicle(c: Annals) {
    Proper(c.me, c.h) && c.state == StateOf(c.me, c.h) && c.log == LogOf(c.me, c.h) && c.books == BooksOf(c.me, c.h)
  }

  type Chronicle = c: Annals | IsChronicle(c)
    ghost witness Annals(Identity(0, Params(0, 0, 0), {}, (r: Round) => 0), Start, Init(0), [], FIRST_BOOKS)

  lemma Opened(me: Identity) returns (c: Chronicle)
    ensures c == Annals(me, Start, Init(me.name), [], FIRST_BOOKS)
  {
    c := Annals(me, Start, Init(me.name), [], FIRST_BOOKS);
  }

  // The chronicle goes on.
  ghost predicate Continues(c: Annals, c': Annals) {
    c'.me == c.me && From(c.h, c'.h)
  }

  lemma ContinuesTransitive(c: Annals, c1: Annals, c2: Annals)
    requires Continues(c, c1) && Continues(c1, c2)
    ensures Continues(c, c2)
  {
    FromTransitive(c.h, c1.h, c2.h);
  }

  // When a chronicle goes on, no round goes back and no message is unsent.
  lemma GoesOn(c: Chronicle, c': Chronicle)
    requires Continues(c, c')
    ensures NoEarlier(c.state, c'.state) && c.log <= c'.log
  {
    FromKeeps(c.me, c.h, c'.h);
  }

  lemma StaysSent(c: Chronicle, c': Chronicle, m: Msg)
    requires Continues(c, c')
    ensures m in c.log ==> m in c'.log
  {
    GoesOn(c, c');
  }

  lemma Note(c: Chronicle, a: Act) returns (c': Chronicle)
    requires !a.Do? && MayDo(c.me, c.state, c.books, a)
    ensures Continues(c, c') && c'.h == Then(c.h, a)
    ensures c'.state == c.state && c'.log == c.log && c'.books == BooksAfter(c.me, c.books, a)
  {
    c' := Annals(c.me, Then(c.h, a), c.state, c.log, BooksAfter(c.me, c.books, a));
  }

  lemma NoteStep(c: Chronicle, l: Label) returns (c': Chronicle)
    requires Enabled(c.state, l) && Needs(l) <= c.books.certs && ByLeader(c.me, l)
    ensures Continues(c, c') && c'.h == Then(c.h, Do(l)) && c'.books == c.books
    ensures c'.state == Apply(c.me.name, c.state, l) && c'.log == c.log + Sent(c.me.name, c.state, l)
  {
    c' := Annals(c.me, Then(c.h, Do(l)), Apply(c.me.name, c.state, l), c.log + Sent(c.me.name, c.state, l), c.books);
  }

  // The steps, each with its effect spelled out.
  lemma TakeAccept(c: Chronicle, b: Block, why: Why) returns (c': Chronicle)
    requires Enabled(c.state, Accept(b, why)) && Needs(Accept(b, why)) <= c.books.certs && ByLeader(c.me, Accept(b, why))
    ensures Continues(c, c') && c'.books == c.books && c'.log == c.log
    ensures c'.state == c.state.(pending := if b.round in c.state.pending then c.state.pending
                                                        else c.state.pending[b.round := Hash(b)],
                                             requested := c.state.requested - {Hash(b)})
  {
    c' := NoteStep(c, Accept(b, why));
  }

  lemma TakePrepare(c: Chronicle, b: Block) returns (c': Chronicle)
    requires Enabled(c.state, Prepare(b))
    ensures Continues(c, c') && c'.books == c.books
    ensures c'.state == c.state.(lastVote := Vote(c.me.name, Hash(b), Normal, b.round))
    ensures c'.log == c.log + [V(Vote(c.me.name, Hash(b), Normal, b.round))]
  {
    c' := NoteStep(c, Prepare(b));
  }

  // A lock, and the timeouts up to its round are dropped.
  lemma TakeLock(c: Chronicle, qc: QC) returns (c': Chronicle)
    requires c.state.locked.round < qc.round && qc.kind == Normal && !qc.fastQuorum && OfQc(qc) in c.books.certs
    ensures Continues(c, c') && c'.books == c.books.(timeouts := Newer(c.books.timeouts, qc.round)) && c'.log == c.log
    ensures c'.state == c.state.(locked := qc)
  {
    var c1 := NoteStep(c, Lock(qc));
    c' := Note(c1, DropTimeouts(qc.round));
    ContinuesTransitive(c, c1, c');
  }

  lemma TakeCommitVote(c: Chronicle) returns (c': Chronicle)
    requires c.state.lastTimeout < c.state.locked.round
    ensures Continues(c, c') && c'.books == c.books && c'.state == c.state
    ensures c'.log == c.log + [V(Vote(c.me.name, c.state.locked.blkHash, Commit, c.state.locked.round))]
  {
    c' := NoteStep(c, CommitVote);
  }

  lemma TakeTimeout(c: Chronicle, r: Round) returns (c': Chronicle)
    ensures Continues(c, c') && c'.books == c.books
    ensures c'.state == c.state.(lastTimeout := if r > c.state.lastTimeout then r else c.state.lastTimeout)
    ensures c'.log == c.log
            + [T(Timeout(c.state.lastVote, CoversOf(c.state.lastVote), c.state.locked, c.state.highWqc, r, c.me.name))]
  {
    c' := NoteStep(c, SendTimeout(r));
  }

  lemma TakeAdvance(c: Chronicle, r: Round) returns (c': Chronicle)
    requires c.state.round < r
    ensures Continues(c, c') && c'.books == c.books && c'.log == c.log
    ensures c'.state == c.state.(round := r)
  {
    c' := NoteStep(c, Advance(r));
  }

  lemma TakeWqc(c: Chronicle, wqc: WQC) returns (c': Chronicle)
    requires c.state.highWqc.round < wqc.round && OfWqc(wqc) in c.books.certs
    ensures Continues(c, c') && c'.books == c.books && c'.log == c.log
    ensures c'.state == c.state.(highWqc := wqc)
  {
    c' := NoteStep(c, RaiseWqc(wqc));
  }

  lemma TakeCommit(c: Chronicle, b: Block, qc: QC) returns (c': Chronicle)
    requires Enabled(c.state, CommitTo(b, qc)) && OfQc(qc) in c.books.certs
    ensures Continues(c, c') && c'.books == c.books && c'.log == c.log
    ensures c'.state == c.state.(lastCommit := b, pending := Prune(c.state.pending, b.round))
  {
    c' := NoteStep(c, CommitTo(b, qc));
  }

  lemma TakeRequest(c: Chronicle, d: Digest, qc: QC) returns (c': Chronicle)
    requires Enabled(c.state, Request(d, qc)) && OfQc(qc) in c.books.certs
    ensures Continues(c, c') && c'.books == c.books && c'.log == c.log
    ensures c'.state == c.state.(requested := c.state.requested + {d})
  {
    c' := NoteStep(c, Request(d, qc));
  }

  lemma TakeForget(c: Chronicle, d: Digest) returns (c': Chronicle)
    ensures Continues(c, c') && c'.books == c.books && c'.log == c.log
    ensures c'.state == c.state.(requested := c.state.requested - {d})
  {
    c' := NoteStep(c, Forget(d));
  }

  lemma TakeVote(c: Chronicle, v: Vote, signed: bool, m: Maker, r: Result<Option<QC>>) returns (c': Chronicle)
    requires v.author in c.me.members && v.round > 0 && (m, r) == Counted(c.me.p, c.books, v, signed)
    ensures Continues(c, c') && c'.state == c.state && c'.log == c.log && c.books.certs <= c'.books.certs
    ensures c'.books.votes == WithVotes(c.books.votes, v, m) && c'.books.commits == WithCommits(c.books.commits, v, m)
    ensures c'.books.timeouts == c.books.timeouts
    ensures r.Ok? && r.value.Some? ==> OfQc(r.value.value) in c'.books.certs
  {
    c' := Note(c, CountVote(v, signed));
  }

  lemma TakeExpiry(c: Chronicle, t: Timeout, wqc: Option<WQC>) returns (c': Chronicle)
    requires MayDo(c.me, c.state, c.books, CountTimeout(t, wqc))
    ensures Continues(c, c') && c'.state == c.state && c'.log == c.log && c.books.certs <= c'.books.certs
    ensures c'.books.votes == c.books.votes && c'.books.commits == c.books.commits
    ensures c'.books.timeouts == c.books.timeouts[t.round := AfterTimeout(c.me.p, c.books.timeouts, t, wqc)]
    ensures TcCerts(NewTc(c.me.p, c.books.timeouts, t, wqc)) <= c'.books.certs
  {
    c' := Note(c, CountTimeout(t, wqc));
  }

  lemma TakeDropVotes(c: Chronicle, r: Round) returns (c': Chronicle)
    ensures Continues(c, c') && c'.state == c.state && c'.log == c.log
    ensures c'.books == c.books.(votes := Newer(c.books.votes, r), commits := Newer(c.books.commits, r))
  {
    c' := Note(c, DropVotes(r));
  }

  lemma LearnOne(c: Chronicle, cert: Cert) returns (c': Chronicle)
    ensures Continues(c, c') && c'.state == c.state && c'.log == c.log
    ensures c'.books == c.books.(certs := c.books.certs + {cert})
  {
    c' := Note(c, Learn(cert));
  }

  // Up to three certificates arrive in one message.
  lemma TakeLearn(c: Chronicle, certs: seq<Cert>) returns (c': Chronicle)
    requires |certs| <= 3
    ensures Continues(c, c') && c'.state == c.state && c'.log == c.log && c.books.certs <= c'.books.certs
    ensures c'.books == c.books.(certs := c'.books.certs)
    ensures forall k :: 0 <= k < |certs| ==> certs[k] in c'.books.certs
  {
    c' := c;
    if |certs| > 0 {
      c' := LearnOne(c, certs[0]);
    }
    if |certs| > 1 {
      var c1 := LearnOne(c', certs[1]);
      ContinuesTransitive(c, c', c1);
      c' := c1;
    }
    if |certs| > 2 {
      var c2 := LearnOne(c', certs[2]);
      ContinuesTransitive(c, c', c2);
      c' := c2;
    }
  }
}
