/**
 The four thresholds of `Committee::new` (config/src/lib.rs:235-240) and what their
 sizes buy, for every f, c and k with n = 3f + 2c + k + 1 and unit stakes.
 */
module Thresholds {
  import opened Types

  datatype Params = Params(f: nat, c: nat, k: nat) {
    function N(): nat { 3 * f + 2 * c + k + 1 }
    // (c + k) as f64 / 2.0, truncated.
    function P(): nat { (c + k) / 2 }
    // ((n + f + 1) as f64 / 2.0).ceil()
    function Quorum(): nat { (N() + f + 2) / 2 }
    function SlowCommit(): nat { 2 * f + c + 1 }
    function FastCommit(): nat { N() - P() }
    function ViewChange(): nat { N() - f - c }
    function Validity(): nat { f + 1 }
    // aggregator.rs:233
    function WeakCert(): nat { f + P() + 1 }
  }

  // The number of votes that a QC needs.
  function Size(p: Params, kind: VoteType, fastQuorum: bool): nat {
    if kind == Commit then p.SlowCommit() else if fastQuorum then p.FastCommit() else p.Quorum()
  }

  lemma {:induction false} SubsetSize<T>(a: set<T>, b: set<T>)
    requires a <= b
    ensures |a| <= |b|
  {
    if a != {} {
      var x :| x in a;
      SubsetSize(a - {x}, b - {x});
    }
  }

  // A new key makes a map larger by one.
  lemma OneMoreKey<K, V>(m: map<K, V>, k: K, v: V)
    requires k !in m
    ensures m[k := v].Keys == m.Keys + {k} && |m[k := v]| == |m| + 1
  {
    var m' := m[k := v];
    assert m'.Keys == m.Keys + {k};
    assert |m'| == |m'.Keys| && |m| == |m.Keys|;
  }

  // |a intersect b| >= |a| + |b| - |universe|.
  lemma Overlap<T>(a: set<T>, b: set<T>, universe: set<T>)
    requires a <= universe && b <= universe
    ensures |a * b| >= |a| + |b| - |universe|
  {
    assert |a + b| == |a| + |b| - |a * b|;
    SubsetSize(a + b, universe);
  }

  // A set larger than the fault bound has a member outside it.
  lemma HonestMember<T>(a: set<T>, faulty: set<T>) returns (x: T)
    requires |a| > |faulty|
    ensures x in a && x !in faulty
  {
    if a <= faulty {
      SubsetSize(a, faulty);
    }
    x :| x in a && x !in faulty;
  }

  lemma CommonHonest<T>(a: set<T>, b: set<T>, universe: set<T>, faulty: set<T>) returns (x: T)
    requires a <= universe && b <= universe && |a| + |b| > |universe| + |faulty|
    ensures x in a && x in b && x !in faulty
  {
    Overlap(a, b, universe);
    x := HonestMember(a * b, faulty);
  }

  /** Two ordinary quorums always share an honest node, and smaller ones need not; so do a slow-commit quorum and a view-change quorum. */
  lemma QuorumArithmetic(p: Params)
    ensures p.N() + p.f + 1 <= 2 * p.Quorum() <= p.N() + p.f + 2
    ensures p.f < p.Validity() <= p.f + 1 <= p.Quorum() && p.FastCommit() + p.P() == p.N()
    ensures p.SlowCommit() + p.ViewChange() == p.N() + p.f + 1
    ensures p.Quorum() > p.f && p.SlowCommit() > p.f && p.WeakCert() > p.f
    ensures p.Quorum() <= p.FastCommit() <= p.N()
    ensures p.Quorum() < p.FastCommit() <==> p.f + p.c + p.k / 2 > (p.c + p.k) / 2
    ensures p.f >= 1 ==> p.Quorum() < p.FastCommit()
  {}

  /**
   A TC is assembled at the view-change threshold but accepted at the smaller ordinary
   quorum (messages.rs:623-626). The smaller size meets every slow-commit quorum in an
   honest node, whichever f nodes are faulty, exactly when k <= 1.
   */
  lemma AcceptedTcSuffices(p: Params)
    ensures p.SlowCommit() + p.Quorum() >= p.N() + p.f + 1 <==> p.k <= 1
    ensures p.Quorum() <= p.ViewChange()
  {}

  // The nodes lo, ..., hi - 1.
  ghost function Interval(lo: nat, hi: nat): (s: set<nat>)
    ensures forall i :: i in s <==> lo <= i < hi
    decreases hi
  {
    if hi <= lo then {} else Interval(lo, hi - 1) + {hi - 1}
  }

  lemma {:induction false} IntervalSize(lo: nat, hi: nat)
    requires lo <= hi
    ensures |Interval(lo, hi)| == hi - lo
    decreases hi
  {
    if lo < hi {
      IntervalSize(lo, hi - 1);
    }
  }

  /** When k >= 2 there are quorums of the accepted sizes whose only common members are the f faulty nodes. */
  lemma ShortTcMissesCommit(p: Params) returns (commit: set<nat>, tc: set<nat>, faulty: set<nat>)
    requires p.k >= 2
    ensures forall i :: i in commit || i in tc || i in faulty ==> i < p.N()
    ensures |commit| == p.SlowCommit() && |tc| == p.Quorum() && |faulty| == p.f
    ensures commit * tc <= faulty
  {
    // the faulty nodes come first and belong to both quorums
    var s, t := p.SlowCommit(), p.SlowCommit() + p.Quorum() - p.f;
    faulty := Interval(0, p.f);
    commit := Interval(0, s);
    tc := faulty + Interval(s, t);
    IntervalSize(0, p.f);
    IntervalSize(0, s);
    IntervalSize(s, t);
    assert faulty !! Interval(s, t);
  }

  /**
   Fast-path counting. A fast quorum and a view-change quorum share at least f + p + 1
   honest nodes, while at most f + p nodes are faulty or outside the fast quorum, so only
   the fast-committed block can be reported by f + p + 1 nodes.
   */
  lemma FastPathCounting(p: Params, universe: set<Node>, fast: set<Node>, change: set<Node>, faulty: set<Node>)
    requires |universe| == p.N() && |faulty| <= p.f && faulty <= universe
    requires fast <= universe && |fast| >= p.FastCommit()
    requires change <= universe && |change| >= p.ViewChange()
    ensures |fast * change - faulty| >= p.WeakCert()
    ensures |faulty + (universe - fast)| < p.WeakCert()
  {
    Overlap(fast, change, universe);
    var both := fast * change;
    assert both - faulty == both - both * faulty;
    SubsetSize(both * faulty, faulty);
    assert |both - faulty| == |both| - |both * faulty|;
    assert |universe - fast| == |universe| - |fast| by { assert universe * fast == fast; }
    assert |faulty + (universe - fast)| <= |faulty| + |universe - fast|;
  }

  ghost function Reporters(report: map<Node, (Digest, Round)>, what: (Digest, Round)): set<Node> {
    set i | i in report && report[i] == what
  }

  /**
   Hence, if every honest member of the fast quorum inside a view change reports its vote
   `(b, r)`, the reports for `(b, r)` reach the weak-certificate threshold and the reports
   for any other pair do not.
   */
  lemma FastVoteIsOnlyWeakCert(p: Params, universe: set<Node>, fast: set<Node>, change: set<Node>, faulty: set<Node>,
                               report: map<Node, (Digest, Round)>, b: Digest, r: Round, other: (Digest, Round))
    requires |universe| == p.N() && |faulty| <= p.f && faulty <= universe
    requires fast <= universe && |fast| >= p.FastCommit()
    requires change <= universe && |change| >= p.ViewChange() && report.Keys == change
    requires forall i :: i in fast * change - faulty ==> report[i] == (b, r)
    requires other != (b, r)
    ensures |Reporters(report, (b, r))| >= p.WeakCert()
    ensures |Reporters(report, other)| < p.WeakCert()
  {
    FastPathCounting(p, universe, fast, change, faulty);
    SubsetSize(fast * change - faulty, Reporters(report, (b, r)));
    SubsetSize(Reporters(report, other), faulty + (universe - fast));
  }
}
