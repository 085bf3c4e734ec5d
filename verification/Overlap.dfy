/** The native observer's verdict on physical overlap: which environments worked in each sampling interval,
    and for how many consecutive intervals enough of the same ones did. */
module Overlap {
  import opened Common

  const MAX_GAP_MS := 5000
  const MIN_CPU_USEC := 100000

  /** A container in a sample; `active` when it was observed, has the expected caps, runs unpaused and reports
      active tasks of its own instance. */
  datatype Container = Container(environment: nat, active: bool, identity: nat, cpu: int)

  datatype Host = Host(boot: nat, id: nat, at: int, supported: bool, containers: seq<Container>)

  datatype Sample = Unknown | Seen(host: Host)

  datatype Usage = Usage(identity: nat, cpu: int)

  // ----- the working environments of one sample -----

  predicate Distinct(cs: seq<Container>)
  {
    forall i, j :: 0 <= i < j < |cs| && cs[i].active && cs[j].active ==> cs[i].environment != cs[j].environment
  }

  function Active(cs: seq<Container>): map<nat, Usage>
  {
    if cs == [] then map[]
    else
      var c := cs[|cs| - 1];
      var rest := Active(cs[..|cs| - 1]);
      if c.active then rest[c.environment := Usage(c.identity, c.cpu)] else rest
  }

  lemma {:induction false} ActiveKeys(cs: seq<Container>, environment: nat)
    ensures environment in Active(cs) <==> exists i :: 0 <= i < |cs| && cs[i].active && cs[i].environment == environment
    decreases |cs|
  {
    if cs != [] {
      var front := cs[..|cs| - 1];
      ActiveKeys(front, environment);
      if i :| 0 <= i < |cs| && cs[i].active && cs[i].environment == environment {
        if i < |front| { assert front[i] == cs[i]; }
      }
      if i :| 0 <= i < |front| && front[i].active && front[i].environment == environment {
        assert cs[i] == front[i];
      }
    }
  }

  /** Every active container by environment; nothing at all when two share an environment. */
  method Working(host: Host) returns (work: map<nat, Usage>)
    ensures work == WorkingOf(host)
  {
    work := map[];
    if !host.supported { return; }
    var cs := host.containers;
    for i := 0 to |cs|
      invariant work == Active(cs[..i]) && Distinct(cs[..i])
    {
      assert cs[..i + 1][..i] == cs[..i];
      ActiveKeys(cs[..i], cs[i].environment);
      if !cs[i].active { continue; }
      if cs[i].environment in work {
        var j :| 0 <= j < i && cs[..i][j].active && cs[..i][j].environment == cs[i].environment;
        assert cs[j].active && cs[i].active;
        return map[];
      }
      forall j | 0 <= j < i && cs[j].active ensures cs[j].environment != cs[i].environment {
        assert cs[..i][j] == cs[j];
      }
      work := work[cs[i].environment := Usage(cs[i].identity, cs[i].cpu)];
    }
    assert cs[..|cs|] == cs;
  }

  function WorkingOf(host: Host): map<nat, Usage>
  {
    if host.supported && Distinct(host.containers) then Active(host.containers) else map[]
  }

  /** Two samples of one boot of one host, at most five seconds apart. */
  predicate Comparable(a: Host, b: Host)
  {
    a.boot == b.boot && a.id == b.id && 0 < b.at - a.at <= MAX_GAP_MS
  }

  /** The environments that worked between two samples: the same instance, with enough processor time. */
  function Between(a: Host, b: Host): set<nat>
  {
    if !Comparable(a, b) then {}
    else
      set e | e in WorkingOf(b) && e in WorkingOf(a) && WorkingOf(a)[e].identity == WorkingOf(b)[e].identity
              && WorkingOf(b)[e].cpu - WorkingOf(a)[e].cpu >= MIN_CPU_USEC
  }

  /** The interval that ends at sample `i`: None at an unknown sample. */
  function IntervalAt(samples: seq<Sample>, i: nat): Option<set<nat>>
    requires i < |samples|
  {
    if samples[i].Unknown? then None
    else if i == 0 || samples[i - 1].Unknown? then Some({})
    else Some(Between(samples[i - 1].host, samples[i].host))
  }

  function Intervals(samples: seq<Sample>): (ws: seq<Option<set<nat>>>)
    ensures |ws| == |samples| && forall i :: 0 <= i < |samples| ==> ws[i] == IntervalAt(samples, i)
  {
    seq(|samples|, i requires 0 <= i < |samples| => IntervalAt(samples, i))
  }

  // ----- streaks -----

  datatype Streak = Streak(length: nat, common: set<nat>)

  function Extended(s: Streak, w: Option<set<nat>>, target: nat): Streak
  {
    if w.None? || |w.value| < target then Streak(0, {})
    else if s.length > 0 && |s.common * w.value| >= target then Streak(s.length + 1, s.common * w.value)
    else Streak(1, w.value)
  }

  function StreakAt(ws: seq<Option<set<nat>>>, n: nat, target: nat): Streak
    requires n <= |ws|
  {
    if n == 0 then Streak(0, {}) else Extended(StreakAt(ws, n - 1, target), ws[n - 1], target)
  }

  function Max(a: nat, b: nat): nat
  {
    if a >= b then a else b
  }

  function Longest(ws: seq<Option<set<nat>>>, n: nat, target: nat): nat
    requires n <= |ws|
  {
    if n == 0 then 0 else Max(Longest(ws, n - 1, target), StreakAt(ws, n, target).length)
  }

  function Peak(ws: seq<Option<set<nat>>>, n: nat): nat
    requires n <= |ws|
  {
    if n == 0 then 0 else Max(Peak(ws, n - 1), if ws[n - 1].Some? then |ws[n - 1].value| else 0)
  }

  method Compare(previous: Option<Host>, previousWork: map<nat, Usage>, host: Host, work: map<nat, Usage>)
    returns (working: set<nat>)
    requires work == WorkingOf(host) && (previous.Some? ==> previousWork == WorkingOf(previous.value))
    ensures working == if previous.Some? then Between(previous.value, host) else {}
  {
    working := {};
    if previous.Some? && Comparable(previous.value, host) {
      working := set e | e in work && e in previousWork && previousWork[e].identity == work[e].identity
                         && work[e].cpu - previousWork[e].cpu >= MIN_CPU_USEC;
    }
  }

  method Continue(streak: Streak, working: set<nat>, target: nat) returns (s: Streak)
    ensures s == Extended(streak, Some(working), target)
  {
    s := Streak(0, {});
    if |working| >= target {
      var overlap := streak.common * working;
      s := if streak.length > 0 && |overlap| >= target then Streak(streak.length + 1, overlap) else Streak(1, working);
    }
  }

  datatype Summary = Summary(verified: bool, peak: nat, consecutive: nat)

  /** None when the target is outside the inventory. */
  method Summarize(samples: seq<Sample>, expected: nat, target: int) returns (r: Option<Summary>)
    ensures r.None? <==> !(1 <= target <= expected)
    ensures r.Some? ==> var ws := Intervals(samples);
              && r.value == Summary(Longest(ws, |ws|, target) >= 2, Peak(ws, |ws|), Longest(ws, |ws|, target))
              && (r.value.verified <==> exists a: nat :: ShareFor(ws, a, 2, target))
  {
    if !(1 <= target <= expected) { return None; }
    var peak, longest := 0, 0;
    var streak := Streak(0, {});
    var previous: Option<Host> := None;
    var previousWork: map<nat, Usage> := map[];
    ghost var ws := Intervals(samples);
    for i := 0 to |samples|
      invariant streak == StreakAt(ws, i, target) && longest == Longest(ws, i, target) && peak == Peak(ws, i)
      invariant previous == if i > 0 && samples[i - 1].Seen? then Some(samples[i - 1].host) else None
      invariant previous.Some? ==> previousWork == WorkingOf(previous.value)
    {
      if samples[i].Unknown? {
        previous, previousWork, streak := None, map[], Streak(0, {});
        continue;
      }
      var host := samples[i].host;
      var work := Working(host);
      var working := Compare(previous, previousWork, host, work);
      assert ws[i] == Some(working);
      peak := Max(peak, |working|);
      streak := Continue(streak, working, target);
      longest := Max(longest, streak.length);
      previous, previousWork := Some(host), work;
    }
    VerifiedExact(ws, target);
    return Some(Summary(longest >= 2, peak, longest));
  }

  // ----- what a streak means -----

  /** Intervals `a` to `b` exclusive, none of them unknown. */
  ghost predicate Known(ws: seq<Option<set<nat>>>, a: nat, b: nat)
  {
    a < b <= |ws| && forall i :: a <= i < b ==> ws[i].Some?
  }

  /** The environments that worked in all of them. */
  ghost function Meet(ws: seq<Option<set<nat>>>, a: nat, b: nat): set<nat>
    requires Known(ws, a, b)
    decreases b
  {
    if a + 1 == b then ws[a].value else Meet(ws, a, b - 1) * ws[b - 1].value
  }

  ghost predicate Share(ws: seq<Option<set<nat>>>, a: nat, b: nat, target: nat)
  {
    Known(ws, a, b) && |Meet(ws, a, b)| >= target
  }

  /** `k` intervals from `a` on. */
  ghost predicate ShareFor(ws: seq<Option<set<nat>>>, a: nat, k: nat, target: nat)
  {
    Share(ws, a, a + k, target)
  }

  /** A running streak is that many consecutive known intervals, and its common set is what they share. */
  lemma {:induction false} StreakSound(ws: seq<Option<set<nat>>>, n: nat, target: nat)
    requires n <= |ws| && target > 0
    ensures var s := StreakAt(ws, n, target);
            s.length <= n && (s.length > 0 ==> Share(ws, n - s.length, n, target) && s.common == Meet(ws, n - s.length, n))
    decreases n
  {
    if n > 0 {
      StreakSound(ws, n - 1, target);
    }
  }

  lemma {:induction false} LongestIsReached(ws: seq<Option<set<nat>>>, n: nat, target: nat)
    requires n <= |ws|
    ensures forall m :: 0 <= m <= n ==> StreakAt(ws, m, target).length <= Longest(ws, n, target)
    ensures exists m :: 0 <= m <= n && StreakAt(ws, m, target).length == Longest(ws, n, target)
    decreases n
  {
    if n == 0 {
      assert StreakAt(ws, 0, target).length == Longest(ws, 0, target);
    } else {
      LongestIsReached(ws, n - 1, target);
      var m :| 0 <= m <= n - 1 && StreakAt(ws, m, target).length == Longest(ws, n - 1, target);
      assert StreakAt(ws, n, target).length <= Longest(ws, n, target);
    }
  }

  /** A reported streak of `k` really has `k` consecutive intervals that share the target. */
  lemma ReportedStreakExists(ws: seq<Option<set<nat>>>, target: nat)
    requires target > 0
    ensures var k := Longest(ws, |ws|, target);
            k > 0 ==> exists a: nat :: ShareFor(ws, a, k, target)
  {
    var k := Longest(ws, |ws|, target);
    LongestIsReached(ws, |ws|, target);
    var m :| 0 <= m <= |ws| && StreakAt(ws, m, target).length == k;
    StreakSound(ws, m, target);
    if k > 0 {
      assert ShareFor(ws, m - k, k, target);
    }
  }

  lemma SubsetSize(a: set<nat>, b: set<nat>)
    requires a <= b
    ensures |a| <= |b|
  {
    assert b == a + (b - a);
  }

  lemma {:induction false} MeetBelow(ws: seq<Option<set<nat>>>, a: nat, b: nat, i: nat)
    requires Known(ws, a, b) && a <= i < b
    ensures Meet(ws, a, b) <= ws[i].value
    decreases b
  {
    if a + 1 < b && i < b - 1 { MeetBelow(ws, a, b - 1, i); }
  }

  lemma LastTwo(ws: seq<Option<set<nat>>>, m: nat, target: nat)
    requires m <= |ws| && target > 0 && StreakAt(ws, m, target).length >= 2
    ensures m >= 2 && Share(ws, m - 2, m, target)
  {
    StreakSound(ws, m, target);
    StreakSound(ws, m - 1, target);
    var s, t := StreakAt(ws, m - 1, target), StreakAt(ws, m, target);
    MeetBelow(ws, m - 1 - s.length, m - 1, m - 2);
    assert Meet(ws, m - 2, m) == ws[m - 2].value * ws[m - 1].value;
    SubsetSize(t.common, Meet(ws, m - 2, m));
  }

  lemma AdjacentCounts(ws: seq<Option<set<nat>>>, a: nat, target: nat)
    requires target > 0 && Share(ws, a, a + 2, target)
    ensures StreakAt(ws, a + 1, target).length >= 2 || StreakAt(ws, a + 2, target).length >= 2
  {
    assert Meet(ws, a, a + 2) == ws[a].value * ws[a + 1].value;
    SubsetSize(Meet(ws, a, a + 2), ws[a].value);
    SubsetSize(Meet(ws, a, a + 2), ws[a + 1].value);
    StreakSound(ws, a + 1, target);
    var s := StreakAt(ws, a + 1, target);
    assert s.length >= 1;
    if s.length == 1 { assert s.common == ws[a].value; }
  }

  /** Overlap is reported exactly when two adjacent intervals, with no unknown sample between them, share the
      target number of working environments. */
  lemma VerifiedExact(ws: seq<Option<set<nat>>>, target: nat)
    requires target > 0
    ensures Longest(ws, |ws|, target) >= 2 <==> exists a: nat :: ShareFor(ws, a, 2, target)
  {
    var k := Longest(ws, |ws|, target);
    LongestIsReached(ws, |ws|, target);
    if k >= 2 {
      var m :| 0 <= m <= |ws| && StreakAt(ws, m, target).length == k;
      LastTwo(ws, m, target);
      assert ShareFor(ws, m - 2, 2, target);
    }
    if a: nat :| ShareFor(ws, a, 2, target) {
      AdjacentCounts(ws, a, target);
    }
  }

  // ----- how far the greedy streak can be from the longest one -----

  /** Inside intervals `a` to `b` that share enough, the streak either runs since `a`, or restarted once, at
      `p`, and keeps everything they share. */
  ghost predicate AtMostOneRestart(ws: seq<Option<set<nat>>>, a: nat, b: nat, n: nat, p: nat, target: nat)
    requires Known(ws, a, b) && a < n <= b
  {
    var s := StreakAt(ws, n, target);
    || s.length >= n - a
    || (a < p < n && s.length >= n - p && StreakAt(ws, p, target).length >= p - a && Meet(ws, a, b) <= s.common)
  }

  lemma {:induction false} OneRestart(ws: seq<Option<set<nat>>>, a: nat, b: nat, n: nat, target: nat) returns (p: nat)
    requires target > 0 && Share(ws, a, b, target) && a < n <= b
    ensures AtMostOneRestart(ws, a, b, n, p, target)
    decreases n
  {
    var shared := Meet(ws, a, b);
    MeetBelow(ws, a, b, n - 1);
    SubsetSize(shared, ws[n - 1].value);
    p := n - 1;
    if n > a + 1 {
      var q := OneRestart(ws, a, b, n - 1, target);
      var s := StreakAt(ws, n - 1, target);
      if s.length < n - 1 - a {
        p := q;
        SubsetSize(shared, s.common * ws[n - 1].value);
      }
    }
  }

  /** The reported streak is at least half of any run of intervals that share the target. */
  lemma GreedyWithinHalf(ws: seq<Option<set<nat>>>, a: nat, b: nat, target: nat)
    requires target > 0 && Share(ws, a, b, target)
    ensures b - a <= 2 * Longest(ws, |ws|, target)
  {
    LongestIsReached(ws, |ws|, target);
    var p := OneRestart(ws, a, b, b, target);
  }

  // ----- when the streak is the longest run -----

  /** No interval has more than `n` working environments. */
  ghost predicate AtMost(ws: seq<Option<set<nat>>>, n: nat)
  {
    forall i :: 0 <= i < |ws| && ws[i].Some? ==> |ws[i].value| <= n
  }

  /** The reported streak is as long as every run of intervals that share the target. */
  ghost predicate Exact(ws: seq<Option<set<nat>>>, target: nat)
  {
    forall a: nat, b: nat :: Share(ws, a, b, target) ==> b - a <= Longest(ws, |ws|, target)
  }

  /** Over every series of samples of an inventory of `n` environments. */
  ghost predicate AlwaysExact(n: nat, target: nat)
  {
    forall samples :: AtMost(Intervals(samples), n) ==> Exact(Intervals(samples), target)
  }

  lemma SameSizeSubset(a: set<nat>, b: set<nat>)
    requires a <= b && |b| <= |a|
    ensures a == b
  {
    assert b == a + (b - a);
    assert |b - a| == 0;
  }

  /** When the target is the whole inventory, intervals that share it are the same set, and the streak that
      covers their start covers them all. */
  lemma {:induction false} FullStreak(ws: seq<Option<set<nat>>>, a: nat, b: nat, m: nat, n: nat)
    requires n > 0 && AtMost(ws, n) && Share(ws, a, b, n) && a < m <= b
    ensures StreakAt(ws, m, n).length >= m - a && StreakAt(ws, m, n).common == Meet(ws, a, b)
    decreases m
  {
    var shared := Meet(ws, a, b);
    MeetBelow(ws, a, b, m - 1);
    SameSizeSubset(shared, ws[m - 1].value);
    StreakSound(ws, m, n);
    if m > a + 1 {
      FullStreak(ws, a, b, m - 1, n);
      assert shared * shared == shared;
    } else {
      var s := StreakAt(ws, m, n);
      assert s.length > 0;
      MeetBelow(ws, m - s.length, m, m - 1);
      SameSizeSubset(s.common, ws[m - 1].value);
    }
  }

  lemma FullIsExact(ws: seq<Option<set<nat>>>, n: nat)
    requires n > 0 && AtMost(ws, n)
    ensures Exact(ws, n)
  {
    forall a: nat, b: nat | Share(ws, a, b, n) ensures b - a <= Longest(ws, |ws|, n) {
      FullStreak(ws, a, b, b, n);
      LongestIsReached(ws, |ws|, n);
    }
  }

  // ----- every known series of intervals comes from some samples -----

  /** In how many of the first intervals an environment worked. */
  function Times(ws: seq<set<nat>>, e: nat, i: nat): nat
    requires i < |ws|
  {
    (if i == 0 then 0 else Times(ws, e, i - 1)) + (if e in ws[i] then 1 else 0)
  }

  /** Environments below `count`, each with the processor time its intervals need. */
  function Inventory(ws: seq<set<nat>>, count: nat, i: nat): seq<Container>
    requires i < |ws|
  {
    seq(count, e requires 0 <= e < count => Container(e, true, e, MIN_CPU_USEC * Times(ws, e, i)))
  }

  function Series(ws: seq<set<nat>>, count: nat): (samples: seq<Sample>)
    ensures |samples| == |ws|
  {
    seq(|ws|, i requires 0 <= i < |ws| => Seen(Host(0, 0, i, true, Inventory(ws, count, i))))
  }

  lemma {:induction false} ActiveInventory(cs: seq<Container>, e: nat)
    requires forall i :: 0 <= i < |cs| ==> cs[i].active && cs[i].environment == i
    ensures e in Active(cs) <==> e < |cs|
    ensures e < |cs| ==> Active(cs)[e] == Usage(cs[e].identity, cs[e].cpu)
    decreases |cs|
  {
    if cs != [] {
      ActiveInventory(cs[..|cs| - 1], e);
    }
  }

  lemma SeriesBetween(ws: seq<set<nat>>, count: nat, i: nat, e: nat)
    requires 0 < i < |ws| && (forall x :: x in ws[i] ==> x < count)
    ensures e in Between(Series(ws, count)[i - 1].host, Series(ws, count)[i].host) <==> e in ws[i]
  {
    var a, b := Inventory(ws, count, i - 1), Inventory(ws, count, i);
    ActiveInventory(a, e);
    ActiveInventory(b, e);
    assert Distinct(a) && Distinct(b);
    if e < count { Increase(Times(ws, e, i - 1), e in ws[i]); }
  }

  lemma Increase(before: nat, worked: bool)
    ensures MIN_CPU_USEC * (before + (if worked then 1 else 0)) - MIN_CPU_USEC * before >= MIN_CPU_USEC <==> worked
  {
  }

  /** Any sets of environments, after a first interval in which nothing can be seen to work yet. */
  lemma SeriesIntervals(ws: seq<set<nat>>, count: nat)
    requires ws != [] && ws[0] == {} && forall i, x :: 0 <= i < |ws| && x in ws[i] ==> x < count
    ensures |Intervals(Series(ws, count))| == |ws|
    ensures forall i :: 0 <= i < |ws| ==> Intervals(Series(ws, count))[i] == Some(ws[i])
  {
    var samples := Series(ws, count);
    forall i | 0 <= i < |ws| ensures IntervalAt(samples, i) == Some(ws[i]) {
      if i > 0 {
        forall e ensures e in Between(samples[i - 1].host, samples[i].host) <==> e in ws[i] {
          SeriesBetween(ws, count, i, e);
        }
        assert Between(samples[i - 1].host, samples[i].host) == ws[i];
      }
    }
  }

  // ----- below the whole inventory the streak can be too short -----

  function UpTo(n: nat): (s: set<nat>)
    ensures |s| == n && forall x: nat :: x in s <==> x < n
  {
    if n == 0 then {} else UpTo(n - 1) + {n - 1}
  }

  /** A streak begins with environments 0 to t-1, t joins, 0 leaves: the last three intervals share t of them,
      but the streak has to begin again. */
  function Swap(t: nat): seq<set<nat>>
    requires t > 0
  {
    [{}, UpTo(t), UpTo(t + 1), UpTo(t + 1) - {0}, UpTo(t + 1) - {0}]
  }

  lemma SwapSizes(t: nat)
    requires t > 0
    ensures var all := UpTo(t + 1);
            && |all - {0}| == t && UpTo(t) * all == UpTo(t) && |UpTo(t) * (all - {0})| == t - 1
            && (all - {0}) * (all - {0}) == all - {0} && all * (all - {0}) == all - {0}
  {
    assert UpTo(t) * (UpTo(t + 1) - {0}) == UpTo(t) - {0};
  }

  lemma SwapStreaks(ws: seq<Option<set<nat>>>, t: nat)
    requires t > 0 && |ws| == 5 && forall i :: 0 <= i < 5 ==> ws[i] == Some(Swap(t)[i])
    ensures Longest(ws, 5, t) == 2
  {
    SwapSizes(t);
    var all, late := UpTo(t + 1), UpTo(t + 1) - {0};
    assert StreakAt(ws, 1, t) == Extended(Streak(0, {}), Some({}), t) == Streak(0, {});
    assert StreakAt(ws, 2, t) == Extended(Streak(0, {}), Some(UpTo(t)), t) == Streak(1, UpTo(t));
    assert StreakAt(ws, 3, t) == Extended(Streak(1, UpTo(t)), Some(all), t) == Streak(2, UpTo(t));
    assert StreakAt(ws, 4, t) == Extended(Streak(2, UpTo(t)), Some(late), t) == Streak(1, late);
    assert StreakAt(ws, 5, t) == Extended(Streak(1, late), Some(late), t) == Streak(2, late);
    assert Longest(ws, 1, t) == 0 && Longest(ws, 2, t) == 1;
    assert Longest(ws, 3, t) == 2 && Longest(ws, 4, t) == 2;
  }

  lemma SwapShares(ws: seq<Option<set<nat>>>, t: nat)
    requires t > 0 && |ws| == 5 && forall i :: 0 <= i < 5 ==> ws[i] == Some(Swap(t)[i])
    ensures Share(ws, 2, 5, t)
  {
    SwapSizes(t);
    var all, late := UpTo(t + 1), UpTo(t + 1) - {0};
    assert Meet(ws, 2, 3) == all;
    assert Meet(ws, 2, 4) == all * late == late;
    assert Meet(ws, 2, 5) == late * late == late;
  }

  lemma SwapSmall(ws: seq<Option<set<nat>>>, t: nat)
    requires t > 0 && |ws| == 5 && forall i :: 0 <= i < 5 ==> ws[i] == Some(Swap(t)[i])
    ensures AtMost(ws, t + 1)
  {
    SwapSizes(t);
  }

  lemma SwapBelow(t: nat)
    requires t > 0
    ensures Swap(t) != [] && Swap(t)[0] == {}
    ensures forall i, x :: 0 <= i < |Swap(t)| && x in Swap(t)[i] ==> x < t + 1
  {
  }

  /** Samples of t + 1 environments for which the reported streak is two although three intervals share t. */
  lemma GreedyMissesLongest(t: nat) returns (samples: seq<Sample>)
    requires t > 0
    ensures AtMost(Intervals(samples), t + 1)
    ensures Longest(Intervals(samples), |Intervals(samples)|, t) == 2 && Share(Intervals(samples), 2, 5, t)
  {
    samples := Series(Swap(t), t + 1);
    SwapBelow(t);
    SeriesIntervals(Swap(t), t + 1);
    SwapSmall(Intervals(samples), t);
    SwapStreaks(Intervals(samples), t);
    SwapShares(Intervals(samples), t);
  }

  /** For an inventory of `n` environments the reported streak is the longest shared run, for every series of
      samples, exactly when the target is all of them. */
  lemma StreakExact(n: nat, target: nat)
    requires 1 <= target <= n
    ensures AlwaysExact(n, target) <==> target == n
  {
    if target == n {
      forall samples | AtMost(Intervals(samples), n) ensures Exact(Intervals(samples), n) {
        FullIsExact(Intervals(samples), n);
      }
    } else {
      var samples := GreedyMissesLongest(target);
      assert AtMost(Intervals(samples), n);
      assert !Exact(Intervals(samples), target);
    }
  }
}
