/** The order in which a controller prefers to delete pods: `ActivePodsWithRanks`. */
module PodOrder {
  import opened Common
  import opened Ordering

  datatype Phase = Pending | Running | Succeeded | Failed | Unknown

  /** A pod condition; `ready` says whether it is of type PodReady. */
  datatype Condition = Condition(ready: bool, isTrue: bool, lastTransition: int)

  /**
   Times are integers, with 0 for Go's zero time; `deletionCost` is the parsed annotation, 0 when it is absent or
   malformed.
   */
  datatype Pod = Pod(nodeName: string, phase: Phase, conditions: seq<Condition>, deletionCost: int, uid: string,
                     restarts: seq<int>, created: int)

  datatype Ranked = Ranked(pod: Pod, rank: int)

  /** The feature gates and the reference time. */
  datatype Settings = Settings(podDeletionCost: bool, logarithmicScaleDown: bool, now: int)

  function Ordinal(phase: Phase): int {
    match phase
    case Pending => 0
    case Unknown => 1
    case Running => 2
    case Succeeded => 0
    case Failed => 0
  }

  function ReadyCondition(conditions: seq<Condition>): Option<Condition> {
    if conditions == [] then None
    else if conditions[0].ready then Some(conditions[0])
    else ReadyCondition(conditions[1..])
  }

  predicate IsReady(pod: Pod) { ReadyCondition(pod.conditions).Some? && ReadyCondition(pod.conditions).value.isTrue }

  function ReadyTime(pod: Pod): int { if IsReady(pod) then ReadyCondition(pod.conditions).value.lastTransition else 0 }

  function MaxRestarts(restarts: seq<int>): int {
    if restarts == [] then 0
    else
      var m, last := MaxRestarts(restarts[..|restarts| - 1]), restarts[|restarts| - 1];
      if last > m then last else m
  }

  predicate AfterOrZero(t1: int, t2: int) {
    if t1 == 0 || t2 == 0 then t1 == 0 else t1 > t2
  }

  function FloorLog2(d: int): int
    requires d >= 1
  {
    if d == 1 then 0 else 1 + FloorLog2(d / 2)
  }

  /** The rank of a timestamp by its age; timestamps that are not in the past all rank -1. */
  function LogRank(now: int, t: int): int { if now - t > 0 then FloorLog2(now - t) else -1 }

  /** Rules 6 and 8, for times that differ. */
  predicate TimeLess(g: Settings, t1: int, t2: int, uid1: string, uid2: string) {
    if !g.logarithmicScaleDown || g.now == 0 || t1 == 0 || t2 == 0 then AfterOrZero(t1, t2)
    else
      var rankDiff := LogRank(g.now, t1) - LogRank(g.now, t2);
      if rankDiff == 0 then StringLess(uid1, uid2) else rankDiff < 0
  }

  predicate Less(g: Settings, a: Ranked, b: Ranked) {
    var p, q := a.pod, b.pod;
    if p.nodeName != q.nodeName && (p.nodeName == "" || q.nodeName == "") then p.nodeName == ""
    else if Ordinal(p.phase) != Ordinal(q.phase) then Ordinal(p.phase) < Ordinal(q.phase)
    else if IsReady(p) != IsReady(q) then !IsReady(p)
    else if g.podDeletionCost && p.deletionCost != q.deletionCost then p.deletionCost < q.deletionCost
    else if a.rank != b.rank then a.rank > b.rank
    else if IsReady(p) && IsReady(q) && ReadyTime(p) != ReadyTime(q) then
      TimeLess(g, ReadyTime(p), ReadyTime(q), p.uid, q.uid)
    else if MaxRestarts(p.restarts) != MaxRestarts(q.restarts) then MaxRestarts(p.restarts) > MaxRestarts(q.restarts)
    else if p.created != q.created then TimeLess(g, p.created, q.created, p.uid, q.uid)
    else false
  }

  // ---------- the lexicographic key ----------

  predicate LexLess(a: seq<int>, b: seq<int>)
    requires |a| == |b|
  {
    a != [] && (a[0] < b[0] || (a[0] == b[0] && LexLess(a[1..], b[1..])))
  }

  lemma {:induction false} LexTransitive(a: seq<int>, b: seq<int>, c: seq<int>)
    requires |a| == |b| == |c| && LexLess(a, b) && LexLess(b, c)
    ensures LexLess(a, c)
  {
    if a[0] == b[0] == c[0] {
      LexTransitive(a[1..], b[1..], c[1..]);
    }
  }

  lemma {:induction false} LexTotal(a: seq<int>, b: seq<int>)
    requires |a| == |b|
    ensures LexLess(a, b) || LexLess(b, a) || a == b
    ensures !(LexLess(a, b) && LexLess(b, a))
    ensures !LexLess(a, a)
  {
    if a != [] {
      LexTotal(a[1..], b[1..]);
      assert a == [a[0]] + a[1..] && b == [b[0]] + b[1..];
    }
  }

  lemma {:induction false} LexAt(a: seq<int>, b: seq<int>, i: nat)
    requires |a| == |b| && i < |a| && a[i] != b[i] && forall k :: 0 <= k < i ==> a[k] == b[k]
    ensures LexLess(a, b) <==> a[i] < b[i]
  {
    if i > 0 {
      LexAt(a[1..], b[1..], i - 1);
    }
  }

  /** Zero before every other time, then later before earlier. */
  function TimeKey(t: int): seq<int> { if t == 0 then [0, 0] else [1, -t] }

  function Flag(b: bool): int { if b then 1 else 0 }

  function Key(g: Settings, a: Ranked): seq<int> {
    var p := a.pod;
    [Flag(p.nodeName != ""), if p.phase == Running then 2 else if p.phase == Unknown then 1 else 0, Flag(IsReady(p)),
     if g.podDeletionCost then p.deletionCost else 0, -a.rank,
     TimeKey(ReadyTime(p))[0], TimeKey(ReadyTime(p))[1], -MaxRestarts(p.restarts),
     TimeKey(p.created)[0], TimeKey(p.created)[1]]
  }

  /** The first place where the keys differ, or 10. */
  function Differ(a: seq<int>, b: seq<int>, i: nat): (d: nat)
    requires |a| == |b| && i <= |a| && forall k :: 0 <= k < i ==> a[k] == b[k]
    ensures d <= |a| && (d < |a| ==> a[d] != b[d]) && forall k :: 0 <= k < d ==> a[k] == b[k]
    decreases |a| - i
  {
    if i == |a| then i else if a[i] != b[i] then i else Differ(a, b, i + 1)
  }

  lemma LexAtDiffer(a: seq<int>, b: seq<int>)
    requires |a| == |b|
    ensures var d := Differ(a, b, 0); LexLess(a, b) <==> d < |a| && a[d] < b[d]
  {}

  lemma TimeDiffers(t1: int, t2: int)
    requires t1 != t2
    ensures var k1, k2 := TimeKey(t1), TimeKey(t2);
      if k1[0] != k2[0] then AfterOrZero(t1, t2) <==> k1[0] < k2[0]
      else k1[1] != k2[1] && (AfterOrZero(t1, t2) <==> k1[1] < k2[1])
  {}

  /** The rule that decides is the one the keys first differ at. */
  lemma LessAtDiffer(g: Settings, a: Ranked, b: Ranked, x: seq<int>, y: seq<int>, d: nat)
    requires x == Key(g, a) && y == Key(g, b)
    requires d <= 10 && (d < 10 ==> x[d] != y[d]) && forall k :: 0 <= k < d ==> x[k] == y[k]
    ensures Less(g, a, b) <==>
            if d == 5 || d == 6 then TimeLess(g, ReadyTime(a.pod), ReadyTime(b.pod), a.pod.uid, b.pod.uid)
            else if d == 8 || d == 9 then TimeLess(g, a.pod.created, b.pod.created, a.pod.uid, b.pod.uid)
            else d < 10 && x[d] < y[d]
  {
    assert (d > 0 ==> x[0] == y[0]) && (d > 1 ==> x[1] == y[1]) && (d > 2 ==> x[2] == y[2]) && (d > 3 ==> x[3] == y[3])
           && (d > 4 ==> x[4] == y[4]) && (d > 5 ==> x[5] == y[5]) && (d > 6 ==> x[6] == y[6])
           && (d > 7 ==> x[7] == y[7]) && (d > 8 ==> x[8] == y[8]) && (d > 9 ==> x[9] == y[9]);
    if ReadyTime(a.pod) != ReadyTime(b.pod) { TimeDiffers(ReadyTime(a.pod), ReadyTime(b.pod)); }
    if a.pod.created != b.pod.created { TimeDiffers(a.pod.created, b.pod.created); }
  }

  /** Without logarithmic scaling the eight rules are one lexicographic comparison of ten numbers. */
  lemma LessIsLexicographic(g: Settings, a: Ranked, b: Ranked)
    requires !g.logarithmicScaleDown || g.now == 0
    ensures Less(g, a, b) <==> LexLess(Key(g, a), Key(g, b))
  {
    var x, y := Key(g, a), Key(g, b);
    LexAtDiffer(x, y);
    var d := Differ(x, y, 0);
    LessAtDiffer(g, a, b, x, y, d);
    assert (d > 5 ==> x[5] == y[5]) && (d > 8 ==> x[8] == y[8]);
    if ReadyTime(a.pod) != ReadyTime(b.pod) { TimeDiffers(ReadyTime(a.pod), ReadyTime(b.pod)); }
    if a.pod.created != b.pod.created { TimeDiffers(a.pod.created, b.pod.created); }
  }

  // ---------- with logarithmic scaling ----------

  function Pow2(n: nat): nat { if n == 0 then 1 else 2 * Pow2(n - 1) }

  lemma {:induction false} FloorLog2IsExponent(d: int)
    requires d >= 1
    ensures FloorLog2(d) >= 0 && Pow2(FloorLog2(d)) <= d < Pow2(FloorLog2(d) + 1)
  {
    if d > 1 {
      FloorLog2IsExponent(d / 2);
    }
  }

  lemma {:induction false} Pow2Monotone(m: nat, n: nat)
    requires m <= n
    ensures Pow2(m) <= Pow2(n)
  {
    if m < n {
      Pow2Monotone(m, n - 1);
    }
  }

  /** Some power of two lies between the ages: the first is younger on the logarithmic scale. */
  ghost predicate Younger(now: int, t1: int, t2: int) { exists k: nat :: now - t1 < Pow2(k) <= now - t2 }

  lemma YoungerIffLowerRank(now: int, t1: int, t2: int)
    ensures Younger(now, t1, t2) <==> LogRank(now, t1) < LogRank(now, t2)
  {
    var d1, d2 := now - t1, now - t2;
    if d1 > 0 { FloorLog2IsExponent(d1); }
    if d2 > 0 { FloorLog2IsExponent(d2); }
    if LogRank(now, t1) < LogRank(now, t2) {
      Pow2Monotone(LogRank(now, t1) + 1, LogRank(now, t2));
      assert d1 < Pow2(LogRank(now, t2)) <= d2;
    }
    if k: nat :| d1 < Pow2(k) <= d2 {
      if k > LogRank(now, t2) {
        Pow2Monotone(LogRank(now, t2) + 1, k);
      }
      if LogRank(now, t1) >= k {
        Pow2Monotone(k, LogRank(now, t1));
      }
    }
  }

  /** Zero first; then the younger of two ages that a power of two separates; else the smaller UID. */
  ghost predicate ScaledLess(now: int, t1: int, t2: int, uid1: string, uid2: string) {
    if t1 == 0 || t2 == 0 then t1 == 0
    else Younger(now, t1, t2) || (!Younger(now, t2, t1) && StringLess(uid1, uid2))
  }

  lemma ScaledTimes(g: Settings, t1: int, t2: int, uid1: string, uid2: string)
    requires g.logarithmicScaleDown && g.now != 0
    ensures TimeLess(g, t1, t2, uid1, uid2) <==> ScaledLess(g.now, t1, t2, uid1, uid2)
  {
    YoungerIffLowerRank(g.now, t1, t2);
    YoungerIffLowerRank(g.now, t2, t1);
  }

  /**
   Logarithmic scaling changes how times are compared and nothing else: the first difference of the keys decides as
   without it, except that two ready or creation times go by the power of two of their ages and then by UID.
   */
  lemma LessWithScaling(g: Settings, a: Ranked, b: Ranked)
    requires g.logarithmicScaleDown && g.now != 0
    ensures var x, y, p, q := Key(g, a), Key(g, b), a.pod, b.pod;
      var d := Differ(x, y, 0);
      Less(g, a, b) <==>
      if d == 5 || d == 6 then ScaledLess(g.now, ReadyTime(p), ReadyTime(q), p.uid, q.uid)
      else if d == 8 || d == 9 then ScaledLess(g.now, p.created, q.created, p.uid, q.uid)
      else d < 10 && x[d] < y[d]
  {
    var x, y, p, q := Key(g, a), Key(g, b), a.pod, b.pod;
    ScaledTimes(g, ReadyTime(p), ReadyTime(q), p.uid, q.uid);
    ScaledTimes(g, p.created, q.created, p.uid, q.uid);
    LessAtDiffer(g, a, b, x, y, Differ(x, y, 0));
  }

  function LessFor(g: Settings): (Ranked, Ranked) -> bool { (a: Ranked, b: Ranked) => Less(g, a, b) }

  /**
   With LogarithmicScaleDown off (or no reference time) Less is a strict weak order on all pods, zero times included.
   */
  lemma LessIsWeakOrder(g: Settings)
    requires !g.logarithmicScaleDown || g.now == 0
    ensures WeakOrder(LessFor(g))
    ensures forall a, b, c :: Less(g, a, b) && Less(g, b, c) ==> Less(g, a, c)
  {
    forall a, b ensures !(Less(g, a, b) && Less(g, b, a)) {
      LessIsLexicographic(g, a, b);
      LessIsLexicographic(g, b, a);
      LexTotal(Key(g, a), Key(g, b));
    }
    forall a, b, c | Less(g, a, b) && Less(g, b, c) ensures Less(g, a, c) {
    }
    forall a, b, c | Less(g, a, c) ensures Less(g, a, b) || Less(g, b, c) {
      LessIsLexicographic(g, a, b);
      LessIsLexicographic(g, b, c);
      LessIsLexicographic(g, a, c);
      LexTotal(Key(g, a), Key(g, b));
      LexTotal(Key(g, b), Key(g, c));
      if LexLess(Key(g, b), Key(g, a)) {
        LexTransitive(Key(g, b), Key(g, a), Key(g, c));
      }
    }
  }

  /** With any settings, no two pods are each before the other. */
  lemma LessIsAsymmetric(g: Settings, a: Ranked, b: Ranked)
    ensures !(Less(g, a, b) && Less(g, b, a))
  {
    StringLessTotal(a.pod.uid, b.pod.uid);
  }

  function Sample(uid: string, readySince: int, restarts: int): Ranked {
    Ranked(Pod("node", Running, [Condition(true, true, readySince)], 0, uid, [restarts], 1), 0)
  }

  /**
   With logarithmic scaling Less has cycles: of three pods with the same logarithmic rank, the two that became
   ready at the same instant are compared by restarts and every other pair by UID.
   */
  lemma EqualRanksMakeACycle(g: Settings, t: int, u: int)
    requires g.logarithmicScaleDown && g.now != 0 && t != 0 && u != 0 && t != u
    requires LogRank(g.now, t) == LogRank(g.now, u)
    ensures var a, b, c := Sample("c", t, 2), Sample("a", t, 1), Sample("b", u, 0);
      Less(g, a, b) && Less(g, b, c) && Less(g, c, a)
  {}

  /** Less is a strict weak order on all pods exactly when LogarithmicScaleDown is off or there is no reference time. */
  lemma LessIsWeakOrderIff(g: Settings)
    ensures WeakOrder(LessFor(g)) <==> !g.logarithmicScaleDown || g.now == 0
  {
    if !g.logarithmicScaleDown || g.now == 0 {
      LessIsWeakOrder(g);
    } else {
      var t := if g.now > 0 then g.now else 1;
      var a, b, c := Sample("c", t, 2), Sample("a", t, 1), Sample("b", t + 1, 0);
      EqualRanksMakeACycle(g, t, t + 1);
      LessIsAsymmetric(g, a, c);
      var less := LessFor(g);
      assert less(a, b) && less(b, c) && less(c, a);
      assert less(c, a) && !less(c, b) && !less(b, a) by {
        LessIsAsymmetric(g, b, c);
        LessIsAsymmetric(g, a, b);
      }
    }
  }

  // ---------- the loops and the sortable lists ----------

  /** The first condition of type PodReady decides whether the pod is ready, and since when. */
  lemma {:induction false} ReadyByFirstCondition(pod: Pod, i: nat)
    requires i < |pod.conditions| && pod.conditions[i].ready && forall j :: 0 <= j < i ==> !pod.conditions[j].ready
    ensures IsReady(pod) <==> pod.conditions[i].isTrue
    ensures ReadyTime(pod) == if pod.conditions[i].isTrue then pod.conditions[i].lastTransition else 0
    decreases i
  {
    if i > 0 {
      ReadyByFirstCondition(pod.(conditions := pod.conditions[1..]), i - 1);
    }
  }

  lemma {:induction false} NotReadyWithoutCondition(pod: Pod)
    requires forall c :: c in pod.conditions ==> !c.ready
    ensures !IsReady(pod) && ReadyTime(pod) == 0
    decreases |pod.conditions|
  {
    if pod.conditions != [] {
      NotReadyWithoutCondition(pod.(conditions := pod.conditions[1..]));
    }
  }

  method PodReadyTime(pod: Pod) returns (t: int)
    ensures t == ReadyTime(pod)
  {
    if IsReady(pod) {
      for i := 0 to |pod.conditions|
        invariant ReadyCondition(pod.conditions) == ReadyCondition(pod.conditions[i..])
      {
        var c := pod.conditions[i];
        if c.ready && c.isTrue { return c.lastTransition; }
      }
    }
    return 0;
  }

  /** The largest restart count of any container, and 0 for none or if all are negative. */
  lemma {:induction false} MaxRestartsIsLargest(restarts: seq<int>)
    ensures var max := MaxRestarts(restarts);
      max >= 0 && (forall r :: r in restarts ==> r <= max) && (max == 0 || max in restarts)
  {
    if restarts != [] {
      var front := restarts[..|restarts| - 1];
      assert restarts == front + [restarts[|restarts| - 1]];
      MaxRestartsIsLargest(front);
    }
  }

  method MaxContainerRestarts(pod: Pod) returns (max: int)
    ensures max == MaxRestarts(pod.restarts)
  {
    max := 0;
    for i := 0 to |pod.restarts|
      invariant max == MaxRestarts(pod.restarts[..i])
    {
      assert pod.restarts[..i + 1][..i] == pod.restarts[..i];
      if pod.restarts[i] > max { max := pod.restarts[i]; }
    }
    assert pod.restarts[..|pod.restarts|] == pod.restarts;
  }

  function Pairs(pods: seq<Pod>, ranks: seq<int>): seq<Ranked>
    requires |pods| == |ranks|
  {
    seq(|pods|, i requires 0 <= i < |pods| => Ranked(pods[i], ranks[i]))
  }

  function Swapped<T>(xs: seq<T>, i: nat, j: nat): seq<T>
    requires i < |xs| && j < |xs|
  {
    xs[i := xs[j]][j := xs[i]]
  }

  method Swap(pods: array<Pod>, ranks: array<int>, i: nat, j: nat)
    requires pods.Length == ranks.Length && i < pods.Length && j < pods.Length
    modifies pods, ranks
    ensures Pairs(pods[..], ranks[..]) == Swapped(old(Pairs(pods[..], ranks[..])), i, j)
    ensures pods[i] == old(pods[j]) && pods[j] == old(pods[i]) && ranks[i] == old(ranks[j]) && ranks[j] == old(ranks[i])
    ensures forall k :: 0 <= k < pods.Length && k != i && k != j ==>
              pods[k] == old(pods[k]) && ranks[k] == old(ranks[k])
  {
    pods[i], pods[j] := pods[j], pods[i];
    ranks[i], ranks[j] := ranks[j], ranks[i];
  }

  function SwappedAll(xs: seq<Ranked>, swaps: seq<(nat, nat)>): seq<Ranked>
    requires forall s :: s in swaps ==> s.0 < |xs| && s.1 < |xs|
    decreases |swaps|
  {
    if swaps == [] then xs
    else
      assert forall s :: s in swaps[1..] ==> s in swaps;
      SwappedAll(Swapped(xs, swaps[0].0, swaps[0].1), swaps[1..])
  }

  /** However a sort swaps, every rank stays with its pod. */
  lemma {:induction false} SwapsKeepPairs(xs: seq<Ranked>, swaps: seq<(nat, nat)>)
    requires forall s :: s in swaps ==> s.0 < |xs| && s.1 < |xs|
    ensures multiset(SwappedAll(xs, swaps)) == multiset(xs)
    decreases |swaps|
  {
    if swaps != [] {
      SwapsKeepPairs(Swapped(xs, swaps[0].0, swaps[0].1), swaps[1..]);
      SwapKeepsPairs(xs, swaps[0].0, swaps[0].1);
    }
  }

  lemma SwapKeepsPairs(xs: seq<Ranked>, i: nat, j: nat)
    requires i < |xs| && j < |xs|
    ensures multiset(Swapped(xs, i, j)) == multiset(xs)
  {}
}
