/**
 What the fair-succession schedule promises (hydrangea/src/leader.rs:55-58, 250-277):
 every ordered pair of leaders is consecutive exactly once per period, every leader
 leads equally often, and no leader waits longer than 3n - 3 rounds for its next turn.
 The source leaves the last claim open ("not sure if it holds for all n"); here it is
 proved for every n, with the sharper bound 2n - 2 for prime n.
 */
module Rotation {
  import opened Divisibility
  import opened Schedule

  // leader.rs:128-132, before the lookup of the node's key.
  function LeaderAt(n: nat, round: nat): nat
    requires n >= 2
  {
    Around(Fair(n), round)
  }

  function Around(schedule: seq<nat>, round: nat): nat
    requires |schedule| > 0
  {
    schedule[round % |schedule|]
  }

  // The schedule read around the corner once, without the modulus.
  function Entry(n: nat, t: nat): nat
    requires n >= 2 && t < 2 * |Fair(n)|
  {
    if t < |Fair(n)| then Fair(n)[t] else Fair(n)[t - |Fair(n)|]
  }

  // ---------------------------------------------------------------- each ordered pair exactly once

  lemma Handover(n: nat, t: nat)
    requires n >= 2 && t < n * (n - 1)
    ensures PlaceAt(n, t).Valid(n) && PlaceAt(n, t).Time(n) == t
    ensures 1 <= PlaceAt(n, t).Handover() < n
    ensures PlaceAt(n, t + 1).Leader(n) == (PlaceAt(n, t).Leader(n) + PlaceAt(n, t).Handover()) % n
  {
    var p := PlaceAt(n, t);
    PlaceAtTime(n, t);
    TimeBounds(n, p);
    LastGcd(n);
    NextIsValid(n, p);
    HandoverResidue(n, p);
  }

  // The walk returns to its start, so the schedule can be read cyclically.
  lemma EntryIsPlace(n: nat, t: nat)
    requires n >= 2 && t <= n * (n - 1)
    ensures t < 2 * |Fair(n)| && Entry(n, t) == PlaceAt(n, t).Leader(n)
  {
    if t < n * (n - 1) {
      PrefixAt(n, n * (n - 1), t);
    } else {
      PrefixAt(n, n * (n - 1), 0);
      PlaceAtTime(n, t);
      TimeBounds(n, PlaceAt(n, t));
      LastPlace(n);
      StartsAtZero(n);
    }
  }

  lemma CyclicSuccessor(n: nat, t: nat)
    requires n >= 2 && t < |Fair(n)|
    ensures Entry(n, t) == PlaceAt(n, t).Leader(n)
    ensures 1 <= PlaceAt(n, t).Handover() < n
    ensures Entry(n, t + 1) == (Entry(n, t) + PlaceAt(n, t).Handover()) % n
  {
    Handover(n, t);
    EntryIsPlace(n, t);
    EntryIsPlace(n, t + 1);
  }

  ghost predicate Succeeds(n: nat, a: nat, b: nat, t: nat)
    requires n >= 2
  {
    t < |Fair(n)| && Entry(n, t) == a && Entry(n, t + 1) == b
  }

  /** Every ordered pair of distinct leaders is consecutive, cyclically, exactly once. */
  lemma EachPairExactlyOnce(n: nat, a: nat, b: nat)
    requires n >= 2 && a < n && b < n && a != b
    ensures exists t :: Succeeds(n, a, b, t)
    ensures forall t, t' :: Succeeds(n, a, b, t) && Succeeds(n, a, b, t') ==> t == t'
  {
    PairOccurs(n, a, b);
    forall t, t' | Succeeds(n, a, b, t) && Succeeds(n, a, b, t')
      ensures t == t'
    {
      PairOccursOnce(n, a, b, t, t');
    }
  }

  lemma PairOccurs(n: nat, a: nat, b: nat)
    requires n >= 2 && a < n && b < n && a != b
    ensures exists t :: Succeeds(n, a, b, t)
  {
    var k := if a < b then b - a else b + n - a;
    SmallMod(a + k, n);
    AfterTurn(n, a, k);
    assert Succeeds(n, a, b, TurnTime(n, a, k));
  }

  // At its k-th turn leader a hands over to a + k.
  lemma AfterTurn(n: nat, a: nat, k: nat)
    requires n >= 2 && a < n && 1 <= k < n
    ensures Entry(n, TurnTime(n, a, k) + 1) == (a + k) % n
  {
    var p := Departure(n, a, k);
    PlaceIsVisited(n, p);
    CyclicSuccessor(n, TurnTime(n, a, k));
  }

  lemma PairOccursOnce(n: nat, a: nat, b: nat, t: nat, t': nat)
    requires n >= 2 && a < n && Succeeds(n, a, b, t) && Succeeds(n, a, b, t')
    ensures t == t'
  {
    var k := TurnIsNumbered(n, a, t);
    var k' := TurnIsNumbered(n, a, t');
    AfterTurn(n, a, k);
    AfterTurn(n, a, k');
    SameHandover(n, a, k, k');
  }

  lemma SameHandover(n: nat, a: nat, j: nat, k: nat)
    requires a < n && 1 <= j < n && 1 <= k < n && (a + j) % n == (a + k) % n
    ensures j == k
  {
    ModEqual(a + j, a + k, n);
    SmallMultiple(n, j - k);
  }

  /** A leader is never its own successor. */
  lemma NeverOwnSuccessor(n: nat, t: nat)
    requires n >= 2 && t < |Fair(n)|
    ensures Entry(n, t + 1) != Entry(n, t)
  {
    CyclicSuccessor(n, t);
    Shifted(n, Entry(n, t), PlaceAt(n, t).Handover());
  }

  lemma Shifted(n: nat, a: nat, k: nat)
    requires a < n && 1 <= k < n
    ensures (a + k) % n != a
  {
    SmallMod(a + k, n);
  }

  // ---------------------------------------------------------------- each leader equally often

  ghost function TurnsOf(n: nat, a: nat): set<nat>
    requires n >= 2
  {
    set t: nat | t < |Fair(n)| && Fair(n)[t] == a
  }

  // The time of leader a's k-th turn.
  ghost function TurnTime(n: nat, a: nat, k: nat): (t: nat)
    requires n >= 2 && a < n && 1 <= k < n
    ensures t < |Fair(n)| && Fair(n)[t] == a
    ensures t == Departure(n, a, k).Time(n)
  {
    EntryAtPlace(n, Departure(n, a, k));
    Departure(n, a, k).Time(n)
  }

  ghost function FirstTurns(n: nat, a: nat, k: nat): (ts: set<nat>)
    requires n >= 2 && a < n && k < n
  {
    if k == 0 then {} else FirstTurns(n, a, k - 1) + {TurnTime(n, a, k)}
  }

  lemma {:induction false} FirstTurnsSize(n: nat, a: nat, k: nat)
    requires n >= 2 && a < n && k < n
    ensures |FirstTurns(n, a, k)| == k
  {
    if k > 0 {
      FirstTurnsSize(n, a, k - 1);
      LaterTurn(n, a, k - 1, k);
    }
  }

  lemma {:induction false} LaterTurn(n: nat, a: nat, k: nat, j: nat)
    requires n >= 2 && a < n && k < j < n
    ensures TurnTime(n, a, j) !in FirstTurns(n, a, k)
  {
    if k > 0 {
      LaterTurn(n, a, k - 1, j);
      TurnsInOrder(n, a, k, j);
    }
  }

  lemma {:induction false} FirstTurnsMembers(n: nat, a: nat, k: nat, t: nat)
    requires n >= 2 && a < n && k < n
    ensures t in FirstTurns(n, a, k) ==> t in TurnsOf(n, a)
    ensures forall j :: 1 <= j <= k && t == TurnTime(n, a, j) ==> t in FirstTurns(n, a, k)
  {
    if k > 0 {
      FirstTurnsMembers(n, a, k - 1, t);
    }
  }

  lemma TurnsInOrder(n: nat, a: nat, j: nat, k: nat)
    requires n >= 2 && a < n && 1 <= j < k < n
    ensures TurnTime(n, a, j) < TurnTime(n, a, k)
  {
    HandoversOrdered(n, a, j, k);
  }

  /** Every leader leads n - 1 of the n(n-1) rounds of a period. */
  lemma LeadsEqually(n: nat, a: nat)
    requires n >= 2 && a < n
    ensures |TurnsOf(n, a)| == n - 1
  {
    FirstTurnsSize(n, a, n - 1);
    forall t: nat
      ensures t in TurnsOf(n, a) <==> t in FirstTurns(n, a, n - 1)
    {
      FirstTurnsMembers(n, a, n - 1, t);
      if t in TurnsOf(n, a) {
        var k := TurnIsNumbered(n, a, t);
      }
    }
    assert TurnsOf(n, a) == FirstTurns(n, a, n - 1);
  }

  lemma TurnIsNumbered(n: nat, a: nat, t: nat) returns (k: nat)
    requires n >= 2 && a < n && t < |Fair(n)| && Fair(n)[t] == a
    ensures 1 <= k < n && t == TurnTime(n, a, k)
  {
    CyclicSuccessor(n, t);
    Handover(n, t);
    k := PlaceAt(n, t).Handover();
    HandoverUnique(n, PlaceAt(n, t), Departure(n, a, k));
  }

  // ---------------------------------------------------------------- the waiting bound

  // The leader of place p leads again at time r, within w handovers.
  ghost predicate ReturnsWithin(n: nat, p: Place, r: int, w: int)
    requires n >= 2
  {
    && 0 <= p.Time(n) < r <= p.Time(n) + w
    && r < 2 * |Fair(n)|
    && Entry(n, r) == p.Leader(n)
  }

  lemma ReturnAtPlace(n: nat, p: Place, q: Place, w: int)
    requires n >= 2 && p.Valid(n) && q.Valid(n) && q.Leader(n) == p.Leader(n)
    requires p.Time(n) < q.Time(n) <= p.Time(n) + w
    ensures ReturnsWithin(n, p, q.Time(n), w)
  {
    PlaceIsVisited(n, p);
    PlaceIsVisited(n, q);
    EntryIsPlace(n, q.Time(n));
  }

  // From a detour: on the path of the same excursion or on a detour of the next.
  lemma ReturnFromDetour(n: nat, p: Place) returns (r: int)
    requires n >= 2 && p.Valid(n) && p.Detour?
    ensures ReturnsWithin(n, p, r, 3 * n - 3)
  {
    var u, x := p.u, p.Leader(n);
    var g := G(u + 1, n);
    GFacts(u + 1, n);
    LastGcd(n);
    TimeInExcursion(n, p);
    var q: Place;
    if x % g == 0 {
      var l := PathOnto(n, u + 1, x);
      q := Path(u, l);
      DetourThenPath(n, u, p.i, p.e, l);
      TimeInExcursion(n, q);
      assert n * u == n * (u - 1) + n;
    } else {
      var e := DetourOnto(n, u + 1, x % g, x);
      q := Detour(u + 1, x % g, e);
      LaterExcursion(n, p, q);
      DetourTime(n, q);
      assert n * (u + 1 - 1) == n * (u - 1) + n;
    }
    ReturnAtPlace(n, p, q, 3 * n - 3);
    r := q.Time(n);
  }

  lemma DetourTime(n: nat, q: Place)
    requires n >= 2 && q.Valid(n) && q.Detour?
    ensures q.Time(n) <= n * (q.u - 1) + n - 1 + G(q.u, n) - 1
  {
    DetourSpan(q.i, q.e, Lap(q.u, n), G(q.u, n));
  }

  // Past its first stop a path place is late enough in its excursion.
  lemma PathTime(n: nat, p: Place)
    requires n >= 2 && p.Valid(n) && p.Path? && p.i >= 1
    ensures p.Time(n) >= n * (p.u - 1) + G(p.u + 2, n) + 1
    ensures p.Time(n) >= n * (p.u - 1) + 3
  {
    var o, g := Lap(p.u, n), G(p.u, n);
    NearlyCoprimeLaps(p.u, n);
    GFacts(p.u + 2, n);
    if p.i < g {
      DetourSpan(1, 0, o, p.i + 1);
    }
  }

  // From leader 0: at the start of the next excursion.
  lemma ReturnFromZero(n: nat, u: nat) returns (r: int)
    requires n >= 2 && u < n - 1 && Path(u, 0).Valid(n)
    ensures ReturnsWithin(n, Path(u, 0), r, 2 * n - 1)
  {
    var p, q := Path(u, 0), Path(u + 1, 0);
    LapAtMost(u + 1, n);
    assert n * (u + 1 - 1) == n * (u - 1) + n;
    LapAtMost(u, n);
    LaterExcursion(n, p, q);
    ReturnAtPlace(n, p, q, 2 * n - 1);
    r := q.Time(n);
  }

  // From the last excursion: in the first excursion of the next period.
  lemma ReturnAcrossPeriods(n: nat, i: nat) returns (r: int)
    requires n >= 2 && 1 <= i && Path(n - 2, i).Valid(n)
    ensures ReturnsWithin(n, Path(n - 2, i), r, 2 * n - 2)
  {
    LastGcd(n);
    LastStops(n, i);
    FirstStops(n, n - i);
    r := |Fair(n)| + n - i;
    AcrossTime(n, i);
  }

  lemma AcrossTime(n: nat, i: nat)
    requires n >= 2 && 1 <= i < n && Path(n - 2, i).Valid(n)
    ensures var t := Path(n - 2, i).Time(n); 0 <= t < |Fair(n)| + n - i <= t + 2 * n - 2
  {
    TimeAtLastExcursion(n, i);
    PeriodSplit(n);
  }

  lemma PeriodSplit(n: nat)
    requires n >= 2
    ensures 0 <= n * (n - 2) && |Fair(n)| == n * (n - 2) + n
  {
    Distribute(n, n - 2, 1);
  }

  lemma LastStops(n: nat, i: nat)
    requires n >= 2 && 1 <= i < n
    ensures (i * (n - 1)) % n == n - i
  {
    assert i * (n - 1) - (n - i) == (i - 1) * n;
    DividesIntro(n, i * (n - 1) - (n - i), i - 1);
    Residue(i * (n - 1), n - i, n);
  }

  lemma FirstStops(n: nat, x: nat)
    requires n >= 2 && x < n
    ensures |Fair(n)| + x < 2 * |Fair(n)|
    ensures Entry(n, |Fair(n)| + x) == x
  {
    Gcd1(n);
    FirstExcursion(n, x);
    EntryAtPlace(n, Path(0, x));
    SmallMod(x, n);
  }

  lemma Gcd1(n: nat)
    requires n >= 2
    ensures G(1, n) == 1 && Lap(1, n) == n
  {
    GcdBounds(1, n);
  }

  lemma TimeAtLastExcursion(n: nat, i: nat)
    requires n >= 2 && 1 <= i && Path(n - 2, i).Valid(n)
    ensures Path(n - 2, i).Time(n) == n * (n - 2) + i
  {
    var g := G(n - 2, n);
    if n > 2 {
      GFacts(n - 2, n);
      DividesAdd(g, n, n - 2);
      DivisorAtMost(g, 2);
    }
    TimeAfterDetours(n, n - 2, i);
  }

  lemma ReturnFromPath(n: nat, p: Place) returns (r: int)
    requires n >= 2 && p.Valid(n) && p.Path? && p.i >= 1 && p.u < n - 2
    ensures ReturnsWithin(n, p, r, 3 * n - 3)
  {
    var q := PlaceAfterPath(n, p);
    ReturnAtPlace(n, p, q, 3 * n - 3);
    r := q.Time(n);
  }

  lemma PlaceAfterPath(n: nat, p: Place) returns (q: Place)
    requires n >= 2 && p.Valid(n) && p.Path? && p.i >= 1 && p.u < n - 2
    ensures q.Valid(n) && q.Leader(n) == p.Leader(n) && p.Time(n) < q.Time(n) <= p.Time(n) + 3 * n - 3
  {
    var u, x := p.u, p.Leader(n);
    var g := G(u + 2, n);
    GFacts(u + 2, n);
    LastGcd(n);
    if x % g == 0 {
      var l := PathOnto(n, u + 2, x);
      q := Path(u + 1, l);
    } else {
      var e := DetourOnto(n, u + 2, x % g, x);
      q := Detour(u + 2, x % g, e);
    }
    LaterExcursion(n, p, q);
    AfterPathInTime(n, p, q);
  }

  lemma AfterPathInTime(n: nat, p: Place, q: Place)
    requires n >= 2 && p.Valid(n) && p.Path? && p.i >= 1 && q.Valid(n)
    requires q.u == if q.Path? then p.u + 1 else p.u + 2
    ensures q.Time(n) <= p.Time(n) + 3 * n - 3
  {
    PathTime(n, p);
    assert n * (p.u + 1) == n * (p.u - 1) + 2 * n;
    if q.Path? {
      TimeInExcursion(n, q);
    } else {
      DetourTime(n, q);
    }
  }

  lemma PlaceReturns(n: nat, p: Place) returns (r: int)
    requires n >= 2 && p.Valid(n) && !Last(p, n)
    ensures ReturnsWithin(n, p, r, 3 * n - 3)
  {
    LastGcd(n);
    if p.Detour? {
      r := ReturnFromDetour(n, p);
    } else if p.i == 0 {
      r := ReturnFromZero(n, p.u);
    } else if p.u == n - 2 {
      r := ReturnAcrossPeriods(n, p.i);
    } else {
      r := ReturnFromPath(n, p);
    }
  }

  ghost predicate LeadsAgain(n: nat, round: nat, d: nat)
    requires n >= 2
  {
    LeaderAt(n, round + d) == LeaderAt(n, round)
  }

  // d rounds after `round` the elector reads the entry d places further on.
  lemma Rebase(schedule: seq<nat>, round: nat, d: nat)
    requires |schedule| > 0 && round % |schedule| + d < 2 * |schedule|
    ensures var t := round % |schedule| + d;
            Around(schedule, round + d) == schedule[if t < |schedule| then t else t - |schedule|]
  {
    WrapOnce(round, |schedule|, d);
  }

  lemma WrapOnce(round: nat, m: nat, d: nat)
    requires m > 0 && round % m + d < 2 * m
    ensures var t := round % m + d; (round + d) % m == if t < m then t else t - m
  {
    var t := round % m;
    ModIsDivides(round, m);
    ModEqual(round + d, t + d, m);
    SmallMod(t + d, m);
  }

  lemma LeadsAgainAfter(n: nat, round: nat, p: Place, r: int, w: nat)
    requires n >= 2 && p.Valid(n) && !Last(p, n) && ReturnsWithin(n, p, r, w)
    requires p.Time(n) == round % |Fair(n)|
    ensures exists d: nat :: 1 <= d <= w && LeadsAgain(n, round, d)
  {
    EntryAtPlace(n, p);
    SameEntry(n, round, p.Time(n), r);
    assert LeadsAgain(n, round, r - p.Time(n));
  }

  lemma SameEntry(n: nat, round: nat, t: nat, r: nat)
    requires n >= 2 && t == round % |Fair(n)| && t < r < 2 * |Fair(n)| && Entry(n, r) == Entry(n, t)
    ensures LeaderAt(n, round + (r - t)) == LeaderAt(n, round)
  {
    Rebase(Fair(n), round, r - t);
  }

  lemma PlaceOfRound(n: nat, round: nat) returns (p: Place)
    requires n >= 2
    ensures p.Valid(n) && !Last(p, n) && p.Time(n) == round % |Fair(n)|
  {
    var t := round % |Fair(n)|;
    p := PlaceAt(n, t);
    PlaceAtTime(n, t);
    TimeBounds(n, p);
  }

  /** No leader waits longer than 3n - 3 rounds: settles leader.rs:264-267 for every n. */
  lemma WaitAtMost(n: nat, round: nat)
    requires n >= 2
    ensures exists d: nat :: 1 <= d <= 3 * n - 3 && LeadsAgain(n, round, d)
  {
    var p := PlaceOfRound(n, round);
    var r := PlaceReturns(n, p);
    LeadsAgainAfter(n, round, p, r, 3 * n - 3);
  }

  // ---------------------------------------------------------------- prime committees

  ghost predicate Prime(n: nat) {
    n >= 2 && forall d :: 2 <= d < n ==> n % d != 0
  }

  lemma PrimeLaps(n: nat, u: nat)
    requires Prime(n) && u < n
    ensures G(u, n) == 1 && Lap(u, n) == n
  {
    GFacts(u, n);
    var g := G(u, n);
    if u > 0 {
      GcdBounds(u, n);
      ModIsDivides(n, g);
    }
  }

  lemma PrimePlace(n: nat, u: nat, i: nat)
    requires Prime(n) && u < n - 1 && i < n
    ensures Path(u, i).Valid(n) && Path(u, i).Time(n) == u * n + i
  {
    PrimeLaps(n, u);
    PrimeLaps(n, u + 1);
    TimeAfterDetours(n, u, i);
    Commute(n, u);
  }

  /** For prime n the schedule is the multiplication table: entry q*n + j is j(q+1) mod n. */
  lemma PrimeClosedForm(n: nat, q: nat, j: nat)
    requires Prime(n) && q < n - 1 && j < n
    ensures q * n + j < |Fair(n)|
    ensures Fair(n)[q * n + j] == (j * (q + 1)) % n
  {
    PrimePlace(n, q, j);
    EntryAtPlace(n, Path(q, j));
  }

  lemma EntryAtPlace(n: nat, p: Place)
    requires n >= 2 && p.Valid(n) && !Last(p, n)
    ensures 0 <= p.Time(n) < |Fair(n)| && Fair(n)[p.Time(n)] == p.Leader(n)
  {
    TimeBounds(n, p);
    PlaceIsVisited(n, p);
    EntryIsPlace(n, p.Time(n));
  }

  /** For prime n no leader waits longer than 2n - 2 rounds. */
  lemma PrimeWaitAtMost(n: nat, round: nat)
    requires Prime(n)
    ensures exists d: nat :: 1 <= d <= 2 * n - 2 && LeadsAgain(n, round, d)
  {
    var p := PlaceOfRound(n, round);
    var r := PrimeReturn(n, p);
    LeadsAgainAfter(n, round, p, r, 2 * n - 2);
  }

  lemma PrimeReturn(n: nat, p: Place) returns (r: int)
    requires Prime(n) && p.Valid(n) && !Last(p, n)
    ensures ReturnsWithin(n, p, r, 2 * n - 2)
  {
    PrimeLaps(n, p.u);
    LastGcd(n);
    assert p.Path? && p.u < n - 1;
    PrimeLaps(n, p.u + 1);
    if p.u == n - 2 && p.i > 0 {
      r := ReturnAcrossPeriods(n, p.i);
    } else {
      var q := PrimeNext(n, p);
      ReturnAtPlace(n, p, q, 2 * n - 2);
      r := q.Time(n);
    }
  }

  // The same leader in the next excursion.
  lemma PrimeNext(n: nat, p: Place) returns (q: Place)
    requires Prime(n) && p.Valid(n) && p.Path? && p.u < n - 1 && (p.u < n - 2 || p.i == 0)
    ensures q.Valid(n) && q.Leader(n) == p.Leader(n) && p.Time(n) < q.Time(n) <= p.Time(n) + 2 * n - 2
  {
    PrimeLaps(n, p.u + 1);
    PrimePlace(n, p.u, p.i);
    Distribute(n, p.u, 1);
    if p.u == n - 2 {
      LastPlace(n);
      q := Path(n - 1, 0);
      SmallMod(0, n);
      Commute(n, n - 1);
    } else {
      PrimeLaps(n, p.u + 2);
      var l := PathOnto(n, p.u + 2, p.Leader(n));
      q := Path(p.u + 1, l);
      PrimePlace(n, p.u + 1, l);
      if p.i == 0 {
        SmallMod(0, n);
        PathInjective(n, p.u + 2, l, 0);
      }
    }
  }
}
