/**
 The fair-succession leader schedule (hydrangea/src/leader.rs).

 The schedule is produced by a greedy walk: the k-th time leader `a` hands over,
 it hands over to (a + k) mod n. The walk is described here in closed form. It
 consists of n - 1 excursions from leader 0 back to leader 0. Excursion `u` follows
 the path 0, s, 2s, ... with s = u + 1, and at the i-th stop, for 0 < i < gcd(u, n),
 it first makes a detour i*s, i*s + u, i*s + 2u, ... through the leaders congruent
 to i modulo gcd(u, n). A `Place` names one position of the walk in these terms.
 */
module Schedule {
  import opened Divisibility

  // gcd(u, n), except that excursion 0 has no detours.
  function G(u: nat, n: nat): (g: nat)
    requires n > 0
    ensures g > 0
  {
    if u == 0 then 1 else Gcd(u, n)
  }

  // Length of one detour of excursion u, n / G(u, n).
  function Lap(u: nat, n: nat): (o: nat)
    requires n > 0
    ensures o > 0 && o * G(u, n) == n
  {
    if u == 0 then n else Order(u, n)
  }

  datatype Place =
    | Path(u: nat, i: nat)
    | Detour(u: nat, i: nat, e: nat)
  {
    ghost predicate Valid(n: nat)
      requires n > 0
    {
      match this
      case Path(u, i) => u < n && i < Lap(u + 1, n)
      case Detour(u, i, e) => u + 1 < n && 0 < i < G(u, n) && e < Lap(u, n)
    }

    // The leader at this place.
    function Leader(n: nat): (a: nat)
      requires n > 0
      ensures a < n
    {
      match this
      case Path(u, i) => (i * (u + 1)) % n
      case Detour(u, i, e) => (i * (u + 1) + e * u) % n
    }

    // Number of handovers made before reaching this place.
    function Time(n: nat): int
      requires n > 0
    {
      match this
      case Path(u, i) => n * (u - 1) + (if i < G(u, n) then (i + 1) * Lap(u, n) else n) + i
      case Detour(u, i, e) => n * (u - 1) + i * Lap(u, n) + e + i
    }

    // How many times the leader has handed over once it leaves this place.
    function Handover(): nat {
      match this
      case Path(u, _) => u + 1
      case Detour(u, _, _) => u
    }

    // The next place of the walk.
    function Next(n: nat): Place
      requires n > 0
    {
      match this
      case Path(u, i) =>
        if i + 1 >= Lap(u + 1, n) then Path(u + 1, 0)
        else if i + 1 < G(u, n) then Detour(u, i + 1, 0)
        else Path(u, i + 1)
      case Detour(u, i, e) =>
        if e + 1 < Lap(u, n) then Detour(u, i, e + 1) else Path(u, i)
    }

    // The place before this one.
    function Prev(n: nat): Place
      requires n > 0 && this != Path(0, 0)
    {
      match this
      case Path(u, i) =>
        if i == 0 then (if u == 0 then this else Path(u - 1, Lap(u, n) - 1))
        else if i < G(u, n) then Detour(u, i, Lap(u, n) - 1)
        else Path(u, i - 1)
      case Detour(u, i, e) =>
        if e > 0 then Detour(u, i, e - 1)
        else if i > 0 then Path(u, i - 1) else this
    }
  }

  ghost predicate Last(p: Place, n: nat) {
    n > 0 && p == Path(n - 1, 0)
  }

  // ---------------------------------------------------------------- arithmetic of one excursion

  lemma SmallMod(x: nat, n: nat)
    requires 0 < n && x < 2 * n
    ensures x % n == if x < n then x else x - n
  {
    if x >= n {
      assert x == 1 * n + (x - n);
      ModEqual(x, x - n, n) by { DividesIntro(n, n, 1); }
    }
  }

  lemma GFacts(u: nat, n: nat)
    requires n > 0
    ensures Divides(G(u, n), n) && Divides(G(u, n), u)
    ensures 1 <= G(u, n) <= n
  {
    if u == 0 {
      DividesIntro(1, n, n);
      DividesIntro(1, 0, 0);
    } else {
      GcdBounds(u, n);
    }
  }

  // Divisors of u and of u + k that also divide n have a product dividing k * n.
  lemma ProductDivides(n: int, u: int, k: int, g: int, g': int)
    requires Divides(g, n) && Divides(g, u) && Divides(g', n) && Divides(g', u + k)
    ensures Divides(g * g', k * n)
  {
    DividesProduct(g, n, g', u + k);
    DividesProduct(g, u, g', n);
    DividesAdd(g * g', n * (u + k), u * n);
    Distribute(n, u, k);
    Commute(n, u);
    Commute(n, k);
  }

  // Consecutive gcds are coprime divisors of n, so their product divides n.
  lemma CoprimeLaps(u: nat, n: nat)
    requires n > 0
    ensures G(u, n) <= Lap(u + 1, n)
  {
    var g, g' := G(u, n), G(u + 1, n);
    GFacts(u, n);
    GFacts(u + 1, n);
    ProductDivides(n, u, 1, g, g');
    ProductAtMost(g, g', n, Lap(u + 1, n));
  }

  // gcd(u, n) and gcd(u + 2, n) share at most a factor two.
  lemma NearlyCoprimeLaps(u: nat, n: nat)
    requires n > 0
    ensures G(u + 2, n) <= 2 * Lap(u, n)
  {
    var g, g' := G(u, n), G(u + 2, n);
    GFacts(u, n);
    GFacts(u + 2, n);
    ProductDivides(n, u, 2, g, g');
    Commute(g, g');
    Twice(Lap(u, n), g);
    ProductAtMost(g', g, 2 * n, 2 * Lap(u, n));
  }

  lemma Twice(o: int, g: int)
    ensures (2 * o) * g == 2 * (o * g)
  {}

  lemma ProductAtMost(a: int, b: int, m: int, c: int)
    requires a > 0 && b > 0 && m > 0 && Divides(a * b, m) && c * b == m
    ensures a <= c
  {
    ProductPositive(a, b);
    DivisorAtMost(a * b, m);
    ProductOrder(a, b, c);
  }

  lemma Distribute(a: int, b: int, c: int)
    ensures a * (b + c) == a * b + a * c
    ensures (b + c) * a == b * a + c * a
    ensures a * (b - c) == a * b - a * c
    ensures (b - c) * a == b * a - c * a
  {}

  lemma Commute(a: int, b: int)
    ensures a * b == b * a
  {}

  lemma ProductPositive(a: int, b: int)
    requires a > 0 && b > 0
    ensures a * b > 0
  {}

  lemma ProductOrder(a: int, b: int, c: int)
    requires b > 0 && a * b <= c * b
    ensures a <= c
  {
    ScaledSize(a - c, b);
    assert (a - c) * b == a * b - c * b;
  }

  lemma LastGcd(n: nat)
    requires n >= 2
    ensures G(n - 1, n) == 1 && Lap(n - 1, n) == n && Lap(n, n) == 1
  {
    var g := Gcd(n - 1, n);
    GcdBounds(n - 1, n);
    DividesAdd(g, n, n - 1);
    DivisorAtMost(g, 1);
    GcdBounds(n, n);
    assert Gcd(n, n) == Gcd(n, 0) == n by { assert n % n == 0; }
    ScaledSize(Order(n, n), n);
    ScaledSize(Order(n, n) - 2, n);
  }

  // Every place of excursion u at stop i is congruent to i modulo G(u, n).
  lemma StopResidue(n: nat, u: nat, i: nat, e: nat)
    requires n > 0
    ensures ((i * (u + 1) + e * u) % n) % G(u, n) == i % G(u, n)
    ensures ((i * (u + 1)) % n) % G(u, n) == i % G(u, n)
  {
    var g := G(u, n);
    GFacts(u, n);
    DividesScale(g, u, i + e);
    DividesScale(g, u, i);
    ModMod(i * (u + 1) + e * u, g, n);
    ModMod(i * (u + 1), g, n);
    assert i * (u + 1) + e * u - i == (i + e) * u;
    assert i * (u + 1) - i == i * u;
    ModEqual(i * (u + 1) + e * u, i, g);
    ModEqual(i * (u + 1), i, g);
  }

  // Stops of the path are distinct multiples of gcd(s, n), and all of them.
  lemma PathInjective(n: nat, s: nat, i: nat, j: nat)
    requires n > 0 && s > 0 && i < Lap(s, n) && j < Lap(s, n)
    requires (i * s) % n == (j * s) % n
    ensures i == j
  {
    ModEqual(i * s, j * s, n);
    assert i * s - j * s == (i - j) * s;
    OrbitInjective(s, n, i - j);
  }

  lemma MultipleOf(y: int, g: int)
    requires g > 0 && y % g == 0
    ensures Divides(g, y)
  {
    ModIsDivides(y, g);
  }

  lemma Residue(a: int, y: int, n: int)
    requires 0 <= y < n && Divides(n, a - y)
    ensures a % n == y
  {
    ModEqual(a, y, n);
  }

  lemma PathOnto(n: nat, s: nat, y: nat) returns (i: nat)
    requires n > 0 && s > 0 && y < n && y % G(s, n) == 0
    ensures i < Lap(s, n) && (i * s) % n == y
  {
    MultipleOf(y, Gcd(s, n));
    i := OrbitOnto(s, n, y);
    Residue(i * s, y, n);
  }

  // Stops of a detour are distinct, and all leaders congruent to i.
  lemma DetourInjective(n: nat, u: nat, b: int, e: nat, e': nat)
    requires n > 0 && e < Lap(u, n) && e' < Lap(u, n) && u > 0
    requires (b + e * u) % n == (b + e' * u) % n
    ensures e == e'
  {
    ModEqual(b + e * u, b + e' * u, n);
    assert (b + e * u) - (b + e' * u) == (e - e') * u;
    OrbitInjective(u, n, e - e');
  }

  lemma DetourOffset(n: nat, u: nat, i: nat, y: nat)
    requires n > 0 && u > 0 && i < G(u, n) && y % G(u, n) == i
    ensures Divides(Gcd(u, n), y - i * (u + 1))
  {
    var g := Gcd(u, n);
    GFacts(u, n);
    ModIsDivides(y, g);
    DividesScale(g, u, i);
    DividesAdd(g, y - i, i * u);
    assert y - i * (u + 1) == (y - i) - i * u;
  }

  lemma DetourOnto(n: nat, u: nat, i: nat, y: nat) returns (e: nat)
    requires n > 0 && u > 0 && y < n && i < G(u, n) && y % G(u, n) == i
    ensures e < Lap(u, n) && (i * (u + 1) + e * u) % n == y
  {
    var b := i * (u + 1);
    DetourOffset(n, u, i, y);
    e := OrbitOnto(u, n, y - b);
    assert e * u - (y - b) == (b + e * u) - y;
    Residue(b + e * u, y, n);
  }

  // ---------------------------------------------------------------- the walk in closed form

  lemma NextIsValid(n: nat, p: Place)
    requires n >= 2 && p.Valid(n) && !Last(p, n)
    ensures p.Next(n).Valid(n) && p.Next(n).Time(n) == p.Time(n) + 1
    ensures p.Next(n).Leader(n) == (p.Leader(n) + p.Handover()) % n
  {
    LastGcd(n);
    match p
    case Path(u, i) => NextOfPath(n, u, i);
    case Detour(u, i, e) => NextOfDetour(n, u, i, e);
  }

  lemma AddMod(a: int, b: int, n: int)
    requires n > 0
    ensures (a % n + b) % n == (a + b) % n
  {
    ModIsDivides(a, n);
    DividesScale(n, a - a % n, -1);
    ModEqual(a % n + b, a + b, n);
  }

  // Once all detours are made the time of a path place is simple.
  lemma TimeAfterDetours(n: nat, u: nat, i: nat)
    requires n > 0 && G(u, n) <= i + 1
    ensures Path(u, i).Time(n) == n * u + i
  {
    Distribute(n, u, 1);
    if i < G(u, n) {
      assert i + 1 == G(u, n);
      Commute(i + 1, Lap(u, n));
    }
  }

  lemma PathStepsOn(n: nat, u: nat, i: nat)
    requires n > 0
    ensures Path(u, i + 1).Leader(n) == (Path(u, i).Leader(n) + (u + 1)) % n
  {
    AddMod(i * (u + 1), u + 1, n);
    Distribute(u + 1, i, 1);
  }

  lemma NextOfPath(n: nat, u: nat, i: nat)
    requires n >= 2 && u < n - 1 && i < Lap(u + 1, n)
    ensures var p := Path(u, i); var q := p.Next(n);
            q.Valid(n) && q.Time(n) == p.Time(n) + 1 && q.Leader(n) == (p.Leader(n) + (u + 1)) % n
  {
    PathStepsOn(n, u, i);
    CoprimeLaps(u, n);
    if i + 1 == Lap(u + 1, n) {
      PathCloses(n, u, i);
    } else if i + 1 < G(u, n) {
      PathToDetour(n, u, i);
    } else {
      TimeAfterDetours(n, u, i);
      TimeAfterDetours(n, u, i + 1);
    }
  }

  lemma PathCloses(n: nat, u: nat, i: nat)
    requires n >= 2 && u < n - 1 && i + 1 == Lap(u + 1, n)
    ensures var q := Path(u + 1, 0);
            q.Valid(n) && q.Time(n) == Path(u, i).Time(n) + 1 && q.Leader(n) == Path(u, i + 1).Leader(n)
  {
    CoprimeLaps(u, n);
    TimeAfterDetours(n, u, i);
    OrbitCloses(u + 1, n);
    ModIsDivides((i + 1) * (u + 1), n);
    SmallMod(0, n);
  }

  lemma PathToDetour(n: nat, u: nat, i: nat)
    requires n >= 2 && u < n - 1 && i + 1 < G(u, n)
    ensures var q := Detour(u, i + 1, 0);
            q.Valid(n) && q.Time(n) == Path(u, i).Time(n) + 1 && q.Leader(n) == Path(u, i + 1).Leader(n)
  {}

  lemma NextOfDetour(n: nat, u: nat, i: nat, e: nat)
    requires n >= 2 && Detour(u, i, e).Valid(n)
    ensures var p := Detour(u, i, e); var q := p.Next(n);
            q.Valid(n) && q.Time(n) == p.Time(n) + 1 && q.Leader(n) == (p.Leader(n) + u) % n
  {
    DetourStepsOn(n, u, i, e, i * (u + 1));
    if e + 1 == Lap(u, n) {
      DetourCloses(n, u, i, e);
    }
  }

  lemma DetourLeader(n: nat, u: nat, i: nat, e: nat, b: nat)
    requires n > 0 && b == i * (u + 1)
    ensures Detour(u, i, e).Leader(n) == (b + e * u) % n
  {}

  // b is the leader from which the detour starts.
  lemma DetourStepsOn(n: nat, u: nat, i: nat, e: nat, b: nat)
    requires n > 0 && b == i * (u + 1)
    ensures (b + (e + 1) * u) % n == (Detour(u, i, e).Leader(n) + u) % n
  {
    DetourLeader(n, u, i, e, b);
    OneMoreStep(b, e, u, n);
  }

  lemma OneMoreStep(b: nat, e: nat, u: nat, n: nat)
    requires n > 0
    ensures (b + (e + 1) * u) % n == ((b + e * u) % n + u) % n
  {
    Distribute(u, e, 1);
    AddMod(b + e * u, u, n);
  }

  lemma DetourCloses(n: nat, u: nat, i: nat, e: nat)
    requires n >= 2 && Detour(u, i, e).Valid(n) && e + 1 == Lap(u, n)
    ensures var q := Path(u, i);
            q.Valid(n) && q.Time(n) == Detour(u, i, e).Time(n) + 1
            && q.Leader(n) == (i * (u + 1) + (e + 1) * u) % n
  {
    CoprimeLaps(u, n);
    Distribute(Lap(u, n), i, 1);
    OrbitCloses(u, n);
    ModEqual(i * (u + 1) + (e + 1) * u, i * (u + 1), n);
  }

  lemma PrevIsValid(n: nat, p: Place)
    requires n >= 2 && p.Valid(n) && p != Path(0, 0)
    ensures var q := p.Prev(n); q.Valid(n) && !Last(q, n) && q.Next(n) == p
  {
    LastGcd(n);
    if p.Path? && p.i == 0 {
    } else if p.Path? {
      CoprimeLaps(p.u, n);
    } else {
      CoprimeLaps(p.u, n);
    }
  }

  // i full detours and a part of another stay below n.
  lemma DetourSpan(i: nat, e: nat, o: nat, g: nat)
    requires i < g && e < o
    ensures i * o + e < g * o
    ensures (i + 1) * o <= g * o
  {
    assert (g - 1 - i) * o >= 0;
    assert (g - 1 - i) * o == g * o - o - i * o;
  }

  lemma LapAtMost(u: nat, n: nat)
    requires n > 0
    ensures Lap(u, n) <= n
  {
    DetourSpan(0, 0, Lap(u, n), G(u, n));
  }

  // Where the time of a place lies within its excursion.
  lemma TimeInExcursion(n: nat, p: Place)
    requires n >= 2 && p.Valid(n)
    ensures n * (p.u - 1) + Lap(p.u, n) <= p.Time(n) <= n * p.u + p.i
    ensures p.i < n
    ensures p.Detour? ==> p.Time(n) > n * (p.u - 1) + Lap(p.u, n)
  {
    var u, o, g := p.u, Lap(p.u, n), G(p.u, n);
    LapAtMost(u + 1, n);
    LapAtMost(u, n);
    assert n * (p.u - 1) + n == n * p.u;
    GFacts(u, n);
    if p.i < g {
      DetourSpan(p.i, if p.Detour? then p.e else 0, o, g);
      DetourSpan(0, 0, o, p.i + 1);
      if p.Detour? { DetourSpan(0, 0, o, p.i); }
    }
  }

  lemma FirstExcursion(n: nat, i: nat)
    requires n >= 2 && Path(0, i).Valid(n)
    ensures Path(0, i).Time(n) == i
  {
    TimeAfterDetours(n, 0, i);
  }

  lemma LastPlace(n: nat)
    requires n >= 2
    ensures Path(n - 1, 0).Valid(n) && Path(n - 1, 0).Time(n) == n * (n - 1) && Path(n - 1, 0).Leader(n) == 0
  {
    LastGcd(n);
    TimeAfterDetours(n, n - 1, 0);
    SmallMod(0, n);
  }

  // The walk starts at time zero and ends at time n(n-1).
  lemma TimeBounds(n: nat, p: Place)
    requires n >= 2 && p.Valid(n)
    ensures 0 <= p.Time(n) <= n * (n - 1)
    ensures p.Time(n) == 0 <==> p == Path(0, 0)
    ensures p.Time(n) == n * (n - 1) <==> Last(p, n)
  {
    LastGcd(n);
    if p.u == 0 {
      TimeInFirst(n, p);
    } else if p.u < n - 1 {
      TimeInExcursion(n, p);
      InnerExcursion(n, p.u, p.Time(n), Lap(p.u, n), p.i);
    } else {
      LastPlace(n);
      ProductPositive(n, n - 1);
    }
  }

  lemma TimeInFirst(n: nat, p: Place)
    requires n >= 2 && p.Valid(n) && p.u == 0
    ensures p.Path? && p.Time(n) == p.i < n <= n * (n - 1)
  {
    FirstExcursion(n, p.i);
    LapAtMost(1, n);
    ScaledSize(n - 1, n);
    Commute(n, n - 1);
  }

  lemma InnerExcursion(n: nat, u: nat, t: int, o: nat, i: nat)
    requires 1 <= u < n - 1 && i < n && o > 0 && n * (u - 1) + o <= t <= n * u + i
    ensures 0 < t < n * (n - 1)
  {
    Distribute(n, n - 1, u);
    Commute(n, n - 1 - u);
    ScaledSize(n - 1 - u, n);
    Distribute(n, u, 1);
    Commute(n, u);
    ScaledSize(u, n);
  }

  // The place reached after t handovers.
  function PlaceAt(n: nat, t: nat): Place
    requires n >= 2
  {
    if t == 0 then Path(0, 0) else PlaceAt(n, t - 1).Next(n)
  }

  lemma {:induction false} PlaceAtTime(n: nat, t: nat)
    requires n >= 2 && t <= n * (n - 1)
    ensures PlaceAt(n, t).Valid(n) && PlaceAt(n, t).Time(n) == t
  {
    if t == 0 {
      FirstExcursion(n, 0);
    } else {
      PlaceAtTime(n, t - 1);
      TimeBounds(n, PlaceAt(n, t - 1));
      NextIsValid(n, PlaceAt(n, t - 1));
    }
  }

  // Every valid place is visited, exactly at its own time.
  lemma {:induction false} PlaceIsVisited(n: nat, p: Place)
    requires n >= 2 && p.Valid(n)
    ensures 0 <= p.Time(n) <= n * (n - 1) && PlaceAt(n, p.Time(n)) == p
    decreases p.Time(n)
  {
    TimeBounds(n, p);
    if p != Path(0, 0) {
      PrevIsValid(n, p);
      NextIsValid(n, p.Prev(n));
      TimeBounds(n, p.Prev(n));
      PlaceIsVisited(n, p.Prev(n));
    }
  }

  // ---------------------------------------------------------------- handovers

  // Leader a's k-th handover happens at one place of the walk.
  ghost predicate IsHandover(n: nat, p: Place, a: nat, k: nat)
    requires n > 0
  {
    p.Valid(n) && p.Leader(n) == a && p.Handover() == k
  }

  lemma HandoverExists(n: nat, a: nat, k: nat)
    requires n >= 2 && a < n && 1 <= k < n
    ensures exists p :: IsHandover(n, p, a, k)
  {
    if a % G(k, n) == 0 {
      var i := PathOnto(n, k, a);
      assert IsHandover(n, Path(k - 1, i), a, k);
    } else {
      LastGcd(n);
      var e := DetourOnto(n, k, a % G(k, n), a);
      assert IsHandover(n, Detour(k, a % G(k, n), e), a, k);
    }
  }

  lemma HandoverUnique(n: nat, p: Place, q: Place)
    requires n >= 2 && p.Valid(n) && q.Valid(n)
    requires p.Leader(n) == q.Leader(n) && p.Handover() == q.Handover()
    ensures p == q
  {
    var a, k := p.Leader(n), p.Handover();
    HandoverResidue(n, p);
    HandoverResidue(n, q);
    if p.Path? {
      PathInjective(n, k, p.i, q.i);
    } else {
      DetourInjective(n, k, p.i * (k + 1), p.e, q.e);
    }
  }

  // A path place hands over at a multiple of the gcd, a detour place elsewhere.
  lemma HandoverResidue(n: nat, p: Place)
    requires n >= 2 && p.Valid(n)
    ensures p.Handover() >= 1
    ensures p.Leader(n) % G(p.Handover(), n) == if p.Path? then 0 else p.i
  {
    if p.Path? {
      PathResidue(n, p.u + 1, p.i);
    } else {
      StopResidue(n, p.u, p.i, p.e);
      SmallMod(p.i, G(p.u, n));
    }
  }

  lemma PathResidue(n: nat, s: nat, i: nat)
    requires n > 0
    ensures ((i * s) % n) % G(s, n) == 0
  {
    var g := G(s, n);
    GFacts(s, n);
    ModMod(i * s, g, n);
    DividesScale(g, s, i);
    ModIsDivides(i * s, g);
  }

  ghost function Departure(n: nat, a: nat, k: nat): (p: Place)
    requires n >= 2 && a < n && 1 <= k < n
    ensures p.Valid(n) && p.Leader(n) == a && p.Handover() == k
  {
    HandoverExists(n, a, k);
    var p :| IsHandover(n, p, a, k);
    p
  }

  // A later excursion is later in time.
  lemma LaterExcursion(n: nat, p: Place, q: Place)
    requires n >= 2 && p.Valid(n) && q.Valid(n) && p.u < q.u
    ensures p.Time(n) < q.Time(n)
  {
    TimeInExcursion(n, p);
    TimeInExcursion(n, q);
    CoprimeLaps(p.u, n);
    ExcursionOrder(n, p.u, p.i, q.u, Lap(q.u, n), Lap(p.u + 1, n));
  }

  lemma ExcursionOrder(n: nat, u: nat, i: nat, v: nat, o: nat, o': nat)
    requires u < v && i < n && 0 < o && i < o' && (v == u + 1 ==> o == o')
    ensures n * u + i < n * (v - 1) + o
  {
    Distribute(n, v - 1, u);
    Commute(n, v - 1 - u);
    ScaledSize(v - 1 - u, n);
  }

  // Handovers of one leader happen in order.
  lemma HandoversInOrder(n: nat, a: nat, k: nat)
    requires n >= 2 && a < n && 1 <= k < n - 1
    ensures Departure(n, a, k).Time(n) < Departure(n, a, k + 1).Time(n)
  {
    var p, q := Departure(n, a, k), Departure(n, a, k + 1);
    if p.u < q.u {
      LaterExcursion(n, p, q);
    } else {
      // the same leader, first on a detour of excursion k and then on its path
      assert p.Detour? && q.Path? && p.u == q.u == k;
      DetourThenPath(n, k, p.i, p.e, q.i);
    }
  }

  lemma DetourThenPath(n: nat, u: nat, i: nat, e: nat, j: nat)
    requires n >= 2 && Detour(u, i, e).Valid(n) && Path(u, j).Valid(n)
    requires Detour(u, i, e).Leader(n) == Path(u, j).Leader(n)
    ensures Detour(u, i, e).Time(n) < Path(u, j).Time(n)
  {
    var o, g := Lap(u, n), G(u, n);
    StopResidue(n, u, i, e);
    StopResidue(n, u, j, 0);
    ResidueAtMost(i, j, g);
    DetourSpan(i, e, o, g);
    DetourSpan(i, e, o, j + 1);
  }

  lemma ResidueAtMost(i: nat, j: nat, g: nat)
    requires i < g && i % g == j % g
    ensures i <= j
  {
    SmallMod(i, g);
    if j < g {
      SmallMod(j, g);
    }
  }

  lemma {:induction false} HandoversOrdered(n: nat, a: nat, j: nat, k: nat)
    requires n >= 2 && a < n && 1 <= j < k < n
    ensures Departure(n, a, j).Time(n) < Departure(n, a, k).Time(n)
  {
    if j + 1 < k {
      HandoversOrdered(n, a, j, k - 1);
    }
    HandoversInOrder(n, a, k - 1);
  }

  // ---------------------------------------------------------------- the greedy walk

  // The queue of successors of leader a: a + 1, a + 2, ..., a + n - 1 modulo n.
  function Queue(n: nat, a: nat): (q: seq<nat>)
    requires n > 0
    ensures |q| == n - 1
  {
    seq(n - 1, k requires 0 <= k => (a + 1 + k) % n)
  }

  // After t handovers every queue has lost exactly the handovers made so far.
  ghost predicate Walk(n: nat, queues: map<nat, seq<nat>>, leader: nat, t: nat)
    requires n >= 2
  {
    && t <= n * (n - 1)
    && leader == PlaceAt(n, t).Leader(n)
    && (forall a: nat :: a < n ==> a in queues)
    && (forall a: nat :: a < n ==> QueueAfter(n, queues[a], a, t))
  }

  ghost predicate QueueAfter(n: nat, queue: seq<nat>, a: nat, t: nat)
    requires n >= 2 && a < n
  {
    && |queue| <= n - 1
    && queue == Queue(n, a)[n - 1 - |queue|..]
    && forall k: nat :: 1 <= k < n ==> (k <= n - 1 - |queue| <==> Departure(n, a, k).Time(n) < t)
  }

  lemma WalkStarts(n: nat, queues: map<nat, seq<nat>>)
    requires n >= 2 && forall a: nat :: a < n ==> a in queues && queues[a] == Queue(n, a)
    ensures Walk(n, queues, 0, 0)
  {
    forall a: nat | a < n
      ensures QueueAfter(n, queues[a], a, 0)
    {
      FullQueue(n, a);
    }
    StartsAtZero(n);
  }

  lemma StartsAtZero(n: nat)
    requires n >= 2
    ensures PlaceAt(n, 0).Leader(n) == 0 && 0 <= n * (n - 1)
  {
    SmallMod(0, n);
  }

  lemma FullQueue(n: nat, a: nat)
    requires n >= 2 && a < n
    ensures QueueAfter(n, Queue(n, a), a, 0)
  {
    assert Queue(n, a) == Queue(n, a)[0..];
    forall k: nat | 1 <= k < n
      ensures !(Departure(n, a, k).Time(n) < 0)
    {
      TimeBounds(n, Departure(n, a, k));
    }
  }

  // The walk is stuck exactly after n(n-1) handovers.
  lemma HeadOfQueue(n: nat, queue: seq<nat>, t: nat)
    requires n >= 2 && t <= n * (n - 1)
    requires QueueAfter(n, queue, PlaceAt(n, t).Leader(n), t)
    ensures t < n * (n - 1) <==> queue != []
    ensures t < n * (n - 1) ==> PlaceAt(n, t).Handover() == n - |queue|
  {
    var p := PlaceAt(n, t);
    PlaceAtTime(n, t);
    TimeBounds(n, p);
    LastGcd(n);
    var a, k := p.Leader(n), p.Handover();
    HandoverResidue(n, p);
    if t == n * (n - 1) {
      LastPlace(n);
      TimeBounds(n, Departure(n, 0, n - 1));
    } else {
      HandoverUnique(n, p, Departure(n, a, k));
      if k > 1 {
        HandoversOrdered(n, a, k - 1, k);
      }
    }
  }

  lemma WalkStep(n: nat, queues: map<nat, seq<nat>>, leader: nat, t: nat)
    requires n >= 2 && t < n * (n - 1) && Walk(n, queues, leader, t)
    ensures leader < n && leader in queues && queues[leader] != []
    ensures Walk(n, queues[leader := queues[leader][1..]], queues[leader][0], t + 1)
  {
    var p := PlaceAt(n, t);
    var queue := queues[leader];
    PlaceAtTime(n, t);
    TimeBounds(n, p);
    NextIsValid(n, p);
    HeadOfQueue(n, queue, t);
    var after := queues[leader := queue[1..]];
    var k0 := p.Handover();
    assert queue[0] == (leader + k0) % n;
    forall a: nat | a < n
      ensures QueueAfter(n, after[a], a, t + 1)
    {
      assert QueueAfter(n, queues[a], a, t);
      forall k: nat | 1 <= k < n
        ensures Departure(n, a, k).Time(n) == t <==> a == leader && k == k0
      {
        if Departure(n, a, k).Time(n) == t {
          PlaceIsVisited(n, Departure(n, a, k));
        }
        if a == leader && k == k0 {
          HandoverUnique(n, p, Departure(n, a, k));
        }
      }
    }
  }

  // leader.rs:86-98
  method FillQueues(n: nat) returns (queues: map<nat, seq<nat>>)
    requires n > 0
    ensures forall a: nat :: a < n ==> a in queues && queues[a] == Queue(n, a)
  {
    queues := map[];
    for i := 0 to n
      invariant forall a: nat :: a < i ==> a in queues && queues[a] == Queue(n, a)
    {
      var queue: seq<nat> := [];
      for j := 0 to n
        invariant queue == if j == 0 then [] else Queue(n, i)[..j - 1]
      {
        SmallMod(i + j, n);
        var next := (i + j) % n;
        if next != i {
          queue := queue + [next];
        }
      }
      queues := queues[i := queue];
    }
  }

  /** The schedule as leader.rs:73-126 builds it: fill the queues, then pop greedily. */
  method GenerateSchedule(n: nat) returns (schedule: seq<nat>)
    ensures n < 2 ==> schedule == []
    ensures n >= 2 ==> schedule == Fair(n)
  {
    if n < 1 {
      return [];
    }
    var queues := FillQueues(n);
    schedule := [];
    var leader := 0;
    if n >= 2 {
      WalkStarts(n, queues);
    }
    while true
      invariant leader in queues
      invariant GoodWalk(n, queues, leader, schedule)
      decreases n * (n - 1) - |schedule|
    {
      WalkAt(n, queues, leader, schedule);
      schedule := schedule + [leader];
      if queues[leader] != [] {
        var successor := queues[leader][0];
        queues := queues[leader := queues[leader][1..]];
        leader := successor;
      } else {
        break;
      }
    }
    assert schedule[0] == schedule[|schedule| - 1];
    schedule := schedule[..|schedule| - 1];
  }

  ghost predicate FollowsWalk(n: nat, schedule: seq<nat>)
    requires n >= 2
  {
    forall t :: 0 <= t < |schedule| ==> schedule[t] == PlaceAt(n, t).Leader(n)
  }

  ghost predicate GoodWalk(n: nat, queues: map<nat, seq<nat>>, leader: nat, schedule: seq<nat>) {
    if n >= 2 then
      Walk(n, queues, leader, |schedule|) && FollowsWalk(n, schedule)
    else
      schedule == [] && leader == 0 && 0 in queues && queues[0] == []
  }

  ghost predicate Closed(n: nat, schedule: seq<nat>) {
    && |schedule| > 0
    && schedule[0] == schedule[|schedule| - 1]
    && schedule[..|schedule| - 1] == if n >= 2 then Fair(n) else []
  }

  // One turn of the loop: either the walk goes on, or it has closed.
  lemma WalkAt(n: nat, queues: map<nat, seq<nat>>, leader: nat, schedule: seq<nat>)
    requires n >= 1 && GoodWalk(n, queues, leader, schedule) && leader in queues
    ensures queues[leader] != [] ==>
      && |schedule| < n * (n - 1)
      && queues[leader][0] in queues
      && GoodWalk(n, queues[leader := queues[leader][1..]], queues[leader][0], schedule + [leader])
    ensures queues[leader] == [] ==> Closed(n, schedule + [leader])
  {
    if n >= 2 {
      var t := |schedule|;
      HeadOfQueue(n, queues[leader], t);
      if t < n * (n - 1) {
        WalkStep(n, queues, leader, t);
        var rest := queues[leader := queues[leader][1..]];
        assert Walk(n, rest, queues[leader][0], t + 1);
        assert PlaceAt(n, t + 1).Leader(n) in rest;
      } else {
        WalkCloses(n, schedule + [leader]);
      }
    }
  }

  lemma WalkCloses(n: nat, schedule: seq<nat>)
    requires n >= 2 && FollowsWalk(n, schedule) && |schedule| == n * (n - 1) + 1
    ensures schedule[0] == schedule[n * (n - 1)]
    ensures schedule[..n * (n - 1)] == Fair(n)
  {
    var m := n * (n - 1);
    PlaceAtTime(n, m);
    TimeBounds(n, PlaceAt(n, m));
    LastPlace(n);
    StartsAtZero(n);
    forall t: nat | t < m ensures schedule[t] == Prefix(n, m)[t] {
      PrefixAt(n, m, t);
    }
  }

  // The leaders of the first t places of the walk.
  function Prefix(n: nat, t: nat): (s: seq<nat>)
    requires n >= 2
    ensures |s| == t
  {
    if t == 0 then [] else Prefix(n, t - 1) + [PlaceAt(n, t - 1).Leader(n)]
  }

  lemma {:induction false} PrefixAt(n: nat, t: nat, k: nat)
    requires n >= 2 && k < t
    ensures Prefix(n, t)[k] == PlaceAt(n, k).Leader(n)
  {
    if k < t - 1 {
      PrefixAt(n, t - 1, k);
    }
  }

  // The fair schedule: the leaders of the n(n-1) places of the walk.
  function Fair(n: nat): (s: seq<nat>)
    requires n >= 2
    ensures |s| == n * (n - 1) && |s| > 0
  {
    Prefix(n, n * (n - 1))
  }
}
