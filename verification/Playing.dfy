/**
 Building runs of a network. A script lists phases; in each, every honest node that takes
 part goes through the same acts and says one word, and every faulty one says a word. If the
 acts are enabled and their certificates genuine, the phases can be played one after another.
 */
module Playing {
  import opened Types
  import opened Thresholds
  import opened Steps
  import opened Network

  // ---------------------------------------------------------------- steps of one node in a network

  predicate Can(j: Node, s: NodeState, acts: seq<Label>)
    decreases |acts|
  {
    acts == [] || (Enabled(s, acts[0]) && Can(j, Apply(j, s, acts[0]), acts[1..]))
  }

  function EndsIn(j: Node, s: NodeState, acts: seq<Label>): NodeState
    decreases |acts|
  {
    if acts == [] then s else EndsIn(j, Apply(j, s, acts[0]), acts[1..])
  }

  function Says(j: Node, s: NodeState, acts: seq<Label>): seq<Msg>
    decreases |acts|
  {
    if acts == [] then [] else Sent(j, s, acts[0]) + Says(j, Apply(j, s, acts[0]), acts[1..])
  }

  // A run of a network with the state it reaches.
  datatype Telling = Telling(cfg: Config, run: seq<Event>, net: Net)

  ghost predicate IsTold(h: Telling) {
    Run(h.cfg, h.run) && h.net == Final(h.cfg, h.run)
  }

  const NOBODY := Config(Params(0, 0, 0), {}, {}, (r: Round) => 0, 0, true)

  type Story = h: Telling | IsTold(h) ghost witness Telling(NOBODY, [], Net(map[], []))

  lemma Open(cfg: Config) returns (h: Story)
    ensures h.cfg == cfg && h.net == Net(map i | i in cfg.members :: Init(i), [])
  {
    h := Telling(cfg, [], Final(cfg, []));
  }

  lemma GoOn(h: Story, e: Event) returns (h': Story)
    requires CanHappen(h.cfg, h.net, e)
    ensures h'.cfg == h.cfg && h'.net == After(h.net, e)
  {
    assert (h.run + [e])[..|h.run + [e]| - 1] == h.run;
    h' := Telling(h.cfg, h.run + [e], After(h.net, e));
  }

  lemma GenuineGrows(cfg: Config, log: seq<Msg>, log': seq<Msg>, l: Label)
    requires log <= log' && Genuine(cfg, log, l)
    ensures Genuine(cfg, log', l)
  {
    match l {
      case Accept(_, ByQc(qc)) => GenuineQcGrows(cfg, log, log', qc);
      case Accept(_, ByTc(tc)) => GenuineTcGrows(cfg, log, log', tc);
      case Lock(qc) => GenuineQcGrows(cfg, log, log', qc);
      case RaiseWqc(wqc) => AllowedWqcGrows(cfg, log, log', wqc);
      case CommitTo(_, qc) => GenuineQcGrows(cfg, log, log', qc);
      case Request(_, qc) => GenuineQcGrows(cfg, log, log', qc);
      case _ =>
    }
  }

  ghost predicate AllGenuine(cfg: Config, log: seq<Msg>, acts: seq<Label>) {
    forall k :: 0 <= k < |acts| ==> Genuine(cfg, log, acts[k])
  }

  lemma AllFour(cfg: Config, log: seq<Msg>, a: Label, b: Label, c: Label, d: Label)
    requires Genuine(cfg, log, a) && Genuine(cfg, log, b) && Genuine(cfg, log, c) && Genuine(cfg, log, d)
    ensures AllGenuine(cfg, log, [a, b, c, d]) && AllGenuine(cfg, log, [a, b, c]) && AllGenuine(cfg, log, [a, b])
  {}

  // Acts whose certificates are genuine in some log.
  datatype Paper = Paper(cfg: Config, log: seq<Msg>, acts: seq<Label>)

  ghost predicate IsGenuine(w: Paper) {
    AllGenuine(w.cfg, w.log, w.acts)
  }

  type Warrant = w: Paper | IsGenuine(w) ghost witness Paper(NOBODY, [], [])

  // One honest step.
  lemma Act(h: Story, w: Warrant, k: nat, j: Node) returns (h': Story)
    requires w.cfg == h.cfg && w.log <= h.net.log && k < |w.acts|
    requires h.cfg.Honest(j) && j in h.net.nodes && Enabled(h.net.nodes[j], w.acts[k])
    ensures h'.cfg == h.cfg
    ensures h'.net == Net(h.net.nodes[j := Apply(j, h.net.nodes[j], w.acts[k])], h.net.log + Sent(j, h.net.nodes[j], w.acts[k]))
  {
    GenuineGrows(h.cfg, w.log, h.net.log, w.acts[k]);
    h' := GoOn(h, NodeStep(j, w.acts[k]));
  }

  lemma {:induction false} TakeAll(h: Story, w: Warrant, k: nat, j: Node) returns (h': Story)
    requires w.cfg == h.cfg && w.log <= h.net.log && k <= |w.acts|
    requires h.cfg.Honest(j) && j in h.net.nodes && Can(j, h.net.nodes[j], w.acts[k..])
    ensures h'.cfg == h.cfg && h'.net.nodes == h.net.nodes[j := EndsIn(j, h.net.nodes[j], w.acts[k..])]
    ensures h'.net.log == h.net.log + Says(j, h.net.nodes[j], w.acts[k..])
    decreases |w.acts| - k
  {
    var s := h.net.nodes[j];
    if k == |w.acts| {
      h' := h;
    } else {
      assert w.acts[k..][1..] == w.acts[k + 1..];
      var h1 := Act(h, w, k, j);
      h' := TakeAll(h1, w, k + 1, j);
      Overwrite(h.net.nodes, j, h1.net.nodes[j], h'.net.nodes[j]);
      Regroup(h.net.log, Sent(j, s, w.acts[k]), Says(j, h1.net.nodes[j], w.acts[k + 1..]));
    }
  }

  lemma Overwrite(m: map<Node, NodeState>, j: Node, a: NodeState, b: NodeState)
    ensures m[j := a][j := b] == m[j := b]
  {}

  lemma Regroup(a: seq<Msg>, b: seq<Msg>, c: seq<Msg>)
    ensures (a + b) + c == a + (b + c)
  {}

  lemma OneAct(j: Node, s: NodeState, a: Label)
    requires Enabled(s, a)
    ensures Can(j, s, [a]) && EndsIn(j, s, [a]) == Apply(j, s, a) && Says(j, s, [a]) == Sent(j, s, a)
  {
    assert [a][1..] == [];
    assert Says(j, s, [a]) == Sent(j, s, a) + [];
  }

  lemma TwoActs(j: Node, s: NodeState, a: Label, b: Label)
    requires Enabled(s, a) && Enabled(Apply(j, s, a), b)
    ensures Can(j, s, [a, b]) && EndsIn(j, s, [a, b]) == Apply(j, Apply(j, s, a), b)
    ensures Says(j, s, [a, b]) == Sent(j, s, a) + Sent(j, Apply(j, s, a), b)
  {
    assert [a, b][1..] == [b];
    OneAct(j, Apply(j, s, a), b);
  }

  lemma ThreeActs(j: Node, s: NodeState, a: Label, b: Label, c: Label)
    requires Enabled(s, a) && Enabled(Apply(j, s, a), b) && Enabled(Apply(j, Apply(j, s, a), b), c)
    ensures Can(j, s, [a, b, c]) && EndsIn(j, s, [a, b, c]) == Apply(j, Apply(j, Apply(j, s, a), b), c)
    ensures Says(j, s, [a, b, c]) == Sent(j, s, a) + (Sent(j, Apply(j, s, a), b) + Sent(j, Apply(j, Apply(j, s, a), b), c))
  {
    assert [a, b, c][1..] == [b, c];
    TwoActs(j, Apply(j, s, a), b, c);
  }

  lemma FourActs(j: Node, s: NodeState, a: Label, b: Label, c: Label, d: Label)
    requires Enabled(s, a) && Enabled(Apply(j, s, a), b) && Enabled(Apply(j, Apply(j, s, a), b), c)
    requires Enabled(Apply(j, Apply(j, Apply(j, s, a), b), c), d)
    ensures Can(j, s, [a, b, c, d]) && EndsIn(j, s, [a, b, c, d]) == Apply(j, Apply(j, Apply(j, Apply(j, s, a), b), c), d)
    ensures Says(j, s, [a, b, c, d])
            == Sent(j, s, a) + (Sent(j, Apply(j, s, a), b)
               + (Sent(j, Apply(j, Apply(j, s, a), b), c) + Sent(j, Apply(j, Apply(j, Apply(j, s, a), b), c), d)))
  {
    assert [a, b, c, d][1..] == [b, c, d];
    ThreeActs(j, Apply(j, s, a), b, c, d);
  }

  // ---------------------------------------------------------------- phases of the network

  // One phase: the acts of the honest nodes that take part, their states before and after,
  // and what each node that takes part says.
  datatype Phase = Phase(n: nat, faulty: Node -> bool, acts: seq<Label>, takes: Node -> bool,
                         pre: Node -> NodeState, post: Node -> NodeState, word: Node -> Msg)

  ghost predicate Playable(ph: Phase, cfg: Config) {
    && (forall j: Node :: cfg.Honest(j) <==> j < ph.n && !ph.faulty(j))
    && (forall j: Node :: j < ph.n && ph.faulty(j) ==> j in cfg.byzantine)
    && (forall j: Node :: Sender(ph.word(j)) == j)
    && (forall j: Node :: j < ph.n && !ph.faulty(j) && !ph.takes(j) ==> ph.post(j) == ph.pre(j))
    && (forall j: Node :: j < ph.n && !ph.faulty(j) && ph.takes(j) ==> Plays(j, ph.pre(j), ph.acts, ph.post(j), ph.word(j)))
  }

  ghost predicate Plays(j: Node, pre: NodeState, acts: seq<Label>, post: NodeState, word: Msg) {
    Can(j, pre, acts) && EndsIn(j, pre, acts) == post && Says(j, pre, acts) == [word]
  }

  // The first i nodes have gone through the phase.
  ghost predicate Reached(ph: Phase, nodes: map<Node, NodeState>, i: nat) {
    forall j: Node :: j < ph.n && !ph.faulty(j) ==> j in nodes && nodes[j] == if j < i then ph.post(j) else ph.pre(j)
  }

  lemma HonestTurn(ph: Phase, h: Story, w: Warrant, i: nat) returns (h': Story)
    requires Playable(ph, h.cfg) && Reached(ph, h.net.nodes, i) && i < ph.n && !ph.faulty(i) && ph.takes(i)
    requires w.cfg == h.cfg && w.log <= h.net.log && w.acts == ph.acts
    ensures h'.cfg == h.cfg && h'.net == Net(h.net.nodes[i := ph.post(i)], h.net.log + [ph.word(i)])
  {
    assert Plays(i, ph.pre(i), ph.acts, ph.post(i), ph.word(i));
    assert w.acts[0..] == w.acts;
    h' := TakeAll(h, w, 0, i);
  }

  lemma FaultyTurn(ph: Phase, h: Story, i: nat) returns (h': Story)
    requires Playable(ph, h.cfg) && i < ph.n && ph.faulty(i)
    ensures h'.cfg == h.cfg && h'.net == h.net.(log := h.net.log + [ph.word(i)])
  {
    h' := GoOn(h, Adversary(ph.word(i)));
  }

  lemma ReachedNext(ph: Phase, cfg: Config, nodes: map<Node, NodeState>, i: nat)
    requires Playable(ph, cfg) && Reached(ph, nodes, i)
    ensures i < ph.n && (ph.faulty(i) || !ph.takes(i)) ==> Reached(ph, nodes, i + 1)
    ensures Reached(ph, nodes[i := ph.post(i)], i + 1)
  {}

  lemma Turn(ph: Phase, h: Story, w: Warrant, i: nat) returns (h': Story)
    requires Playable(ph, h.cfg) && Reached(ph, h.net.nodes, i) && i < ph.n
    requires w.cfg == h.cfg && w.log <= h.net.log && w.acts == ph.acts
    ensures h'.cfg == h.cfg && Reached(ph, h'.net.nodes, i + 1) && h.net.log <= h'.net.log
    ensures ph.takes(i) ==> ph.word(i) in h'.net.log
  {
    h' := h;
    ReachedNext(ph, h.cfg, h.net.nodes, i);
    if ph.takes(i) {
      if ph.faulty(i) {
        h' := FaultyTurn(ph, h, i);
      } else {
        h' := HonestTurn(ph, h, w, i);
      }
      Last(h.net.log, ph.word(i));
    }
  }

  lemma Last(log: seq<Msg>, m: Msg)
    ensures m in log + [m] && log <= log + [m]
  {}

  ghost predicate Heard(ph: Phase, log: seq<Msg>, lo: nat) {
    forall j: Node :: lo <= j < ph.n && ph.takes(j) ==> ph.word(j) in log
  }

  lemma HeardOneMore(ph: Phase, log: seq<Msg>, log': seq<Msg>, i: nat)
    requires log <= log' && Heard(ph, log', i + 1) && (ph.takes(i) ==> ph.word(i) in log)
    ensures Heard(ph, log', i)
  {
    assert ph.takes(i) ==> ph.word(i) in log';
  }

  /** A phase can be played through, node by node, by a network that has its certificates. */
  lemma {:induction false} Play(ph: Phase, h: Story, w: Warrant, i: nat) returns (h': Story)
    requires Playable(ph, h.cfg) && Reached(ph, h.net.nodes, i) && i <= ph.n
    requires w.cfg == h.cfg && w.log <= h.net.log && w.acts == ph.acts
    ensures h'.cfg == h.cfg && Reached(ph, h'.net.nodes, ph.n) && h.net.log <= h'.net.log
    ensures Heard(ph, h'.net.log, i)
    decreases ph.n - i
  {
    if i == ph.n {
      h' := h;
    } else {
      var h1 := Turn(ph, h, w, i);
      h' := Play(ph, h1, w, i + 1);
      HeardOneMore(ph, h1.net.log, h'.net.log, i);
    }
  }

  // ---------------------------------------------------------------- scripts

  // The phases 1, 2, ... of a run. `stage(k, j)` is the state of honest node j after phase k.
  datatype Script = Script(n: nat, faulty: Node -> bool, acts: nat -> seq<Label>, takes: (nat, Node) -> bool,
                           stage: (nat, Node) -> NodeState, word: (nat, Node) -> Msg)

  ghost function PhaseOf(x: Script, k: nat): Phase
    requires k >= 1
  {
    Phase(x.n, x.faulty, x.acts(k), (j: Node) => x.takes(k, j), (j: Node) => x.stage(k - 1, j),
          (j: Node) => x.stage(k, j), (j: Node) => x.word(k, j))
  }

  // Phase k leads the honest nodes from one stage to the next.
  ghost predicate Leads(x: Script, cfg: Config, k: nat)
    requires k >= 1
  {
    && (forall j: Node :: cfg.Honest(j) <==> j < x.n && !x.faulty(j))
    && (forall j: Node :: j < x.n && x.faulty(j) ==> j in cfg.byzantine)
    && (forall j: Node :: Sender(x.word(k, j)) == j)
    && (forall j: Node :: j < x.n && !x.faulty(j) && !x.takes(k, j) ==> x.stage(k, j) == x.stage(k - 1, j))
    && (forall j: Node :: j < x.n && !x.faulty(j) && x.takes(k, j) ==>
          Plays(j, x.stage(k - 1, j), x.acts(k), x.stage(k, j), x.word(k, j)))
  }

  lemma LeadsIsPlayable(x: Script, cfg: Config, k: nat)
    requires k >= 1 && Leads(x, cfg, k)
    ensures Playable(PhaseOf(x, k), cfg)
  {
    var ph := PhaseOf(x, k);
    forall j: Node | j < ph.n && !ph.faulty(j) && ph.takes(j) ensures Plays(j, ph.pre(j), ph.acts, ph.post(j), ph.word(j)) {
      assert x.takes(k, j);
    }
    forall j: Node | j < ph.n && !ph.faulty(j) && !ph.takes(j) ensures ph.post(j) == ph.pre(j) {
      assert !x.takes(k, j);
    }
    forall j: Node ensures Sender(ph.word(j)) == j {
      assert Sender(x.word(k, j)) == j;
    }
  }

  // All honest nodes have gone through the first k phases.
  ghost predicate AtStage(x: Script, nodes: map<Node, NodeState>, k: nat) {
    forall j: Node :: j < x.n && !x.faulty(j) ==> j in nodes && nodes[j] == x.stage(k, j)
  }

  // Every node that takes part in phase k has said its word.
  ghost predicate Spoken(x: Script, log: seq<Msg>, k: nat) {
    forall j: Node :: j < x.n && x.takes(k, j) ==> x.word(k, j) in log
  }

  lemma StageIsReached(x: Script, nodes: map<Node, NodeState>, k: nat)
    requires k >= 1
    ensures AtStage(x, nodes, k - 1) ==> Reached(PhaseOf(x, k), nodes, 0)
    ensures Reached(PhaseOf(x, k), nodes, x.n) ==> AtStage(x, nodes, k)
  {
    var ph := PhaseOf(x, k);
    forall j: Node | j < x.n && !x.faulty(j) && Reached(ph, nodes, x.n) ensures j in nodes && nodes[j] == x.stage(k, j) {
      assert j < ph.n && !ph.faulty(j);
    }
  }

  lemma HeardIsSpoken(x: Script, log: seq<Msg>, k: nat)
    requires k >= 1 && Heard(PhaseOf(x, k), log, 0)
    ensures Spoken(x, log, k)
  {
    var ph := PhaseOf(x, k);
    forall j: Node | j < x.n && x.takes(k, j) ensures x.word(k, j) in log {
      assert ph.takes(j) && ph.word(j) in log;
    }
  }

  lemma SpokenGrows(x: Script, log: seq<Msg>, log': seq<Msg>, k: nat)
    requires log <= log' && Spoken(x, log, k)
    ensures Spoken(x, log', k)
  {
    assert forall m :: m in log ==> m in log';
  }

  /** From one stage of a script to the next. */
  lemma NextPhase(x: Script, h: Story, k: nat) returns (h': Story)
    requires k >= 1 && Leads(x, h.cfg, k) && AtStage(x, h.net.nodes, k - 1)
    requires AllGenuine(h.cfg, h.net.log, x.acts(k))
    ensures h'.cfg == h.cfg && AtStage(x, h'.net.nodes, k) && h.net.log <= h'.net.log && Spoken(x, h'.net.log, k)
  {
    LeadsIsPlayable(x, h.cfg, k);
    StageIsReached(x, h.net.nodes, k);
    h' := Play(PhaseOf(x, k), h, Paper(h.cfg, h.net.log, x.acts(k)), 0);
    StageIsReached(x, h'.net.nodes, k);
    HeardIsSpoken(x, h'.net.log, k);
  }

  lemma Opening(x: Script, cfg: Config) returns (h: Story)
    requires forall j: Node :: j < x.n && !x.faulty(j) ==> j in cfg.members && x.stage(0, j) == Init(j)
    ensures h.cfg == cfg && AtStage(x, h.net.nodes, 0)
  {
    h := Open(cfg);
  }

  // ---------------------------------------------------------------- safety of a configuration

  // Any two genuine Commit QCs of any run are for blocks on one chain.
  ghost predicate Safe(cfg: Config) {
    forall run, qc: QC, qc': QC ::
      (Run(cfg, run) && qc.kind == Commit && qc'.kind == Commit
       && GenuineQc(cfg, Final(cfg, run).log, qc) && GenuineQc(cfg, Final(cfg, run).log, qc')) ==>
        OnOneChain(qc.blkHash, qc'.blkHash)
  }

  ghost predicate OnOneChain(d: Digest, d': Digest) {
    d.Hash? && d'.Hash? && (Extends(d.block, d'.block) || Extends(d'.block, d.block))
  }

  lemma ValidIsSafe(cfg: Config)
    requires cfg.Valid()
    ensures Safe(cfg)
  {
    forall run, qc: QC, qc': QC | Run(cfg, run) && qc.kind == Commit && qc'.kind == Commit
                          && GenuineQc(cfg, Final(cfg, run).log, qc) && GenuineQc(cfg, Final(cfg, run).log, qc')
      ensures OnOneChain(qc.blkHash, qc'.blkHash)
    {
      Agreement(cfg, run, qc, qc');
    }
  }
}
