/**
 The three schedules that simulate failures (hydrangea/src/leader.rs:193-248), built from the
 honest and the Byzantine members of the committee.
 */
module FailureSchedules {
  import opened Types
  import opened Rotation

  // The schedule lists every member, as often as the two lists together do.
  ghost predicate Rearranges(schedule: seq<Node>, honest: seq<Node>, byzantine: seq<Node>) {
    multiset(schedule) == multiset(honest) + multiset(byzantine)
  }

  /** leader.rs:193-198: the honest members first. */
  method BestSchedule(honest: seq<Node>, byzantine: seq<Node>) returns (schedule: seq<Node>)
    ensures Rearranges(schedule, honest, byzantine)
    ensures honest <= schedule
  {
    schedule := honest + byzantine;
  }

  // What the loop pushes for position i: an honest member and perhaps a Byzantine one. One
  // comes after every `gap` honest members, for as long as there are any.
  function Pushed(honest: seq<Node>, byzantine: seq<Node>, gap: nat, i: nat): seq<Node>
    requires i < |honest| && 1 <= gap <= 2
  {
    [honest[i]] + if Due(|byzantine|, gap, i) then [byzantine[i / gap]] else []
  }

  predicate Due(byzantine: nat, gap: nat, i: nat)
    requires 1 <= gap <= 2
    ensures Due(byzantine, gap, i) ==> i / gap < byzantine
  {
    if gap == 1 then i < byzantine else i < byzantine * 2 && i % 2 == 1
  }

  function Merged(honest: seq<Node>, byzantine: seq<Node>, gap: nat, i: nat): seq<Node>
    requires i <= |honest| && 1 <= gap <= 2
  {
    if i == 0 then [] else Merged(honest, byzantine, gap, i - 1) + Pushed(honest, byzantine, gap, i - 1)
  }

  // How many Byzantine members have been pushed after i honest ones.
  function Used(byzantine: nat, gap: nat, i: nat): (b: nat)
    requires 1 <= gap <= 2
    ensures b <= byzantine
  {
    if gap == 1 then if i < byzantine then i else byzantine
    else if i < byzantine * 2 then i / 2 else byzantine
  }

  lemma UsedStep(byzantine: nat, gap: nat, i: nat)
    requires 1 <= gap <= 2
    ensures Used(byzantine, gap, i + 1) == Used(byzantine, gap, i) + (if Due(byzantine, gap, i) then 1 else 0)
    ensures Due(byzantine, gap, i) ==> i / gap == Used(byzantine, gap, i)
  {}

  lemma {:induction false} MergedLength(honest: seq<Node>, byzantine: seq<Node>, gap: nat, i: nat)
    requires i <= |honest| && 1 <= gap <= 2
    ensures |Merged(honest, byzantine, gap, i)| == i + Used(|byzantine|, gap, i)
  {
    if i > 0 {
      MergedLength(honest, byzantine, gap, i - 1);
      UsedStep(|byzantine|, gap, i - 1);
    }
  }

  // How often x occurs among the first i of s.
  function Times(s: seq<Node>, i: nat, x: Node): nat
    requires i <= |s|
  {
    if i == 0 then 0 else Times(s, i - 1, x) + (if s[i - 1] == x then 1 else 0)
  }

  lemma {:induction false} TimesIsMultiplicity(s: seq<Node>, i: nat, x: Node)
    requires i <= |s|
    ensures multiset(s[..i])[x] == Times(s, i, x)
  {
    if i > 0 {
      TimesIsMultiplicity(s, i - 1, x);
      assert s[..i] == s[..i - 1] + [s[i - 1]];
    }
  }

  lemma {:induction false} TimesOfPrefix(s: seq<Node>, t: seq<Node>, i: nat, x: Node)
    requires i <= |s| && i <= |t| && forall k :: 0 <= k < i ==> s[k] == t[k]
    ensures Times(s, i, x) == Times(t, i, x)
  {
    if i > 0 {
      TimesOfPrefix(s, t, i - 1, x);
    }
  }

  lemma TimesAppend(s: seq<Node>, t: seq<Node>, x: Node)
    requires 1 <= |t| <= 2
    ensures Times(s + t, |s + t|, x) == Times(s, |s|, x) + Times(t, |t|, x)
  {
    TimesOfPrefix(s + t, s, |s|, x);
    assert Times(t, 1, x) == if t[0] == x then 1 else 0;
    assert Times(s + t, |s| + 1, x) == Times(s, |s|, x) + Times(t, 1, x);
  }

  lemma PushedTimes(honest: seq<Node>, byzantine: seq<Node>, gap: nat, i: nat, x: Node)
    requires i < |honest| && 1 <= gap <= 2
    ensures var p := Pushed(honest, byzantine, gap, i);
            Times(p, |p|, x) == (if honest[i] == x then 1 else 0) + (if Due(|byzantine|, gap, i) && byzantine[i / gap] == x then 1 else 0)
  {
    var p := Pushed(honest, byzantine, gap, i);
    assert Times(p, 1, x) == if honest[i] == x then 1 else 0;
  }

  lemma {:induction false} MergedTimes(honest: seq<Node>, byzantine: seq<Node>, gap: nat, i: nat, x: Node)
    requires i <= |honest| && 1 <= gap <= 2
    ensures Times(Merged(honest, byzantine, gap, i), |Merged(honest, byzantine, gap, i)|, x)
            == Times(honest, i, x) + Times(byzantine, Used(|byzantine|, gap, i), x)
  {
    if i > 0 {
      MergedTimes(honest, byzantine, gap, i - 1, x);
      UsedStep(|byzantine|, gap, i - 1);
      TimesAppend(Merged(honest, byzantine, gap, i - 1), Pushed(honest, byzantine, gap, i - 1), x);
      PushedTimes(honest, byzantine, gap, i - 1, x);
    }
  }

  lemma WholeTimes(s: seq<Node>, x: Node)
    ensures multiset(s)[x] == Times(s, |s|, x)
  {
    TimesIsMultiplicity(s, |s|, x);
    assert s[..|s|] == s;
  }

  lemma MergedCount(honest: seq<Node>, byzantine: seq<Node>, gap: nat, x: Node)
    requires 1 <= gap <= 2 && Enough(|honest|, |byzantine|, gap)
    ensures multiset(Merged(honest, byzantine, gap, |honest|))[x] == multiset(honest)[x] + multiset(byzantine)[x]
  {
    MergedTimes(honest, byzantine, gap, |honest|, x);
    WholeTimes(Merged(honest, byzantine, gap, |honest|), x);
    WholeTimes(honest, x);
    WholeTimes(byzantine, x);
  }

  // The sizes that the source asserts.
  predicate Enough(honest: nat, byzantine: nat, gap: nat) {
    if gap == 1 then honest > byzantine else honest > 2 * byzantine
  }

  lemma MergedRearranges(honest: seq<Node>, byzantine: seq<Node>, gap: nat)
    requires 1 <= gap <= 2 && Enough(|honest|, |byzantine|, gap)
    ensures Rearranges(Merged(honest, byzantine, gap, |honest|), honest, byzantine)
  {
    forall x: Node ensures multiset(Merged(honest, byzantine, gap, |honest|))[x] == (multiset(honest) + multiset(byzantine))[x] {
      MergedCount(honest, byzantine, gap, x);
    }
  }

  // Position i of the honest list comes i places on, after the Byzantine members used so far.
  lemma {:induction false} MergedAt(honest: seq<Node>, byzantine: seq<Node>, gap: nat, i: nat, k: nat)
    requires k < i <= |honest| && 1 <= gap <= 2
    ensures k + Used(|byzantine|, gap, k) < |Merged(honest, byzantine, gap, i)|
    ensures Merged(honest, byzantine, gap, i)[k + Used(|byzantine|, gap, k)] == honest[k]
    ensures Due(|byzantine|, gap, k) ==>
            && k + Used(|byzantine|, gap, k) + 1 < |Merged(honest, byzantine, gap, i)|
            && Merged(honest, byzantine, gap, i)[k + Used(|byzantine|, gap, k) + 1] == byzantine[k / gap]
  {
    MergedLength(honest, byzantine, gap, i - 1);
    if k < i - 1 {
      MergedAt(honest, byzantine, gap, i - 1, k);
    }
  }

  // Every Byzantine member comes right after gap honest ones.
  ghost predicate Spaced(schedule: seq<Node>, honest: seq<Node>, byzantine: seq<Node>, gap: nat) {
    forall j :: 0 <= j < |byzantine| ==> SpacedAt(schedule, honest, byzantine, gap, j)
  }

  ghost predicate SpacedAt(schedule: seq<Node>, honest: seq<Node>, byzantine: seq<Node>, gap: nat, j: nat)
    requires j < |byzantine|
  {
    if gap == 1 then
      2 * j + 1 < |schedule| && j < |honest| && schedule[2 * j] == honest[j] && schedule[2 * j + 1] == byzantine[j]
    else
      && 3 * j + 2 < |schedule| && 2 * j + 1 < |honest|
      && schedule[3 * j] == honest[2 * j] && schedule[3 * j + 1] == honest[2 * j + 1] && schedule[3 * j + 2] == byzantine[j]
  }

  lemma MergedSpaced(honest: seq<Node>, byzantine: seq<Node>, gap: nat, j: nat)
    requires 1 <= gap <= 2 && Enough(|honest|, |byzantine|, gap) && j < |byzantine|
    ensures SpacedAt(Merged(honest, byzantine, gap, |honest|), honest, byzantine, gap, j)
  {
    if gap == 1 {
      MergedAt(honest, byzantine, 1, |honest|, j);
    } else {
      MergedAt(honest, byzantine, 2, |honest|, 2 * j);
      MergedAt(honest, byzantine, 2, |honest|, 2 * j + 1);
    }
  }

  lemma MergedIsSchedule(honest: seq<Node>, byzantine: seq<Node>, gap: nat)
    requires 1 <= gap <= 2 && Enough(|honest|, |byzantine|, gap)
    ensures Rearranges(Merged(honest, byzantine, gap, |honest|), honest, byzantine)
    ensures Spaced(Merged(honest, byzantine, gap, |honest|), honest, byzantine, gap)
  {
    MergedRearranges(honest, byzantine, gap);
    forall j | 0 <= j < |byzantine| ensures SpacedAt(Merged(honest, byzantine, gap, |honest|), honest, byzantine, gap, j) {
      MergedSpaced(honest, byzantine, gap, j);
    }
  }

  /** leader.rs:203-220: Byzantine members lead every other round for as long as there are any. None is the failed assertion. */
  method MidSchedule(honest: seq<Node>, byzantine: seq<Node>) returns (schedule: Option<seq<Node>>)
    ensures schedule == None <==> |honest| <= |byzantine|
    ensures schedule.Some? ==> Rearranges(schedule.value, honest, byzantine) && Spaced(schedule.value, honest, byzantine, 1)
  {
    if |honest| <= |byzantine| {
      return None;
    }
    var s: seq<Node> := [];
    for i := 0 to |honest|
      invariant s == Merged(honest, byzantine, 1, i)
    {
      s := s + [honest[i]];
      if i < |byzantine| {
        s := s + [byzantine[i]];
      }
    }
    MergedIsSchedule(honest, byzantine, 1);
    schedule := Some(s);
  }

  /** leader.rs:225-242: a Byzantine member leads after every two honest ones. None is the failed assertion. */
  method WorstSchedule(honest: seq<Node>, byzantine: seq<Node>) returns (schedule: Option<seq<Node>>)
    ensures schedule == None <==> |honest| <= 2 * |byzantine|
    ensures schedule.Some? ==> Rearranges(schedule.value, honest, byzantine) && Spaced(schedule.value, honest, byzantine, 2)
  {
    if |honest| <= 2 * |byzantine| {
      return None;
    }
    var s: seq<Node> := [];
    for i := 0 to |honest|
      invariant s == Merged(honest, byzantine, 2, i)
    {
      s := s + [honest[i]];
      if i < |byzantine| * 2 && i % 2 == 1 {
        var j := i / 2;
        s := s + [byzantine[j]];
      }
    }
    MergedIsSchedule(honest, byzantine, 2);
    schedule := Some(s);
  }

  // ---------------------------------------------------------------- turns

  ghost predicate Leads(schedule: seq<Node>, start: Round, d: nat, x: Node)
    requires |schedule| > 0
  {
    Around(schedule, start + d) == x
  }

  lemma PositionOf(schedule: seq<Node>, x: Node) returns (k: nat)
    requires x in multiset(schedule)
    ensures k < |schedule| && schedule[k] == x
  {
    assert x in schedule;
    k :| 0 <= k < |schedule| && schedule[k] == x;
  }

  // A value at two positions counts twice.
  lemma TwicePresent(s: seq<Node>, i: nat, j: nat)
    requires i < j < |s| && s[i] == s[j]
    ensures multiset(s)[s[i]] >= 2
  {
    assert s == s[..i] + [s[i]] + s[i + 1..j] + [s[j]] + s[j + 1..];
  }

  /**
   If every member is listed once, then in any |schedule| consecutive rounds, from whichever
   round on, each member leads exactly once.
   */
  lemma EachLeadsOnce(schedule: seq<Node>, honest: seq<Node>, byzantine: seq<Node>, start: Round, x: Node) returns (d: nat)
    requires Rearranges(schedule, honest, byzantine) && |schedule| > 0
    requires forall y :: y in multiset(honest) + multiset(byzantine) ==> (multiset(honest) + multiset(byzantine))[y] == 1
    requires x in honest || x in byzantine
    ensures d < |schedule| && Leads(schedule, start, d, x)
    ensures forall e: nat :: e < |schedule| && Leads(schedule, start, e, x) ==> e == d
  {
    var n := |schedule|;
    var k := PositionOf(schedule, x);
    var t := start % n;
    d := if t <= k then k - t else k + n - t;
    Rebase(schedule, start, d);
    forall e: nat | e < n && Leads(schedule, start, e, x) ensures e == d {
      Rebase(schedule, start, e);
      var j := if t + e < n then t + e else t + e - n;
      if j < k {
        TwicePresent(schedule, j, k);
      } else if k < j {
        TwicePresent(schedule, k, j);
      }
    }
  }
}
