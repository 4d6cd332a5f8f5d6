/**
 The scheduler's assume / reserve / permit / bind cycle. One loop calls scheduleOne for one pod after the other; each
 pod that passes Permit goes on in a binding goroutine of its own. Plugin outcomes are arbitrary, and so is the
 interleaving of the loop with any number of binding cycles. The scheduler cache is what its users see of it: assuming
 a pod that is already there fails, forgetting one removes it.
 */
module Scheduler {
  import opened Common

  type PodID = string
  type Node = string

  /** The calls that scheduleOne makes; Report is recordSchedulingFailure. */
  datatype Call =
    Schedule | Assume | Reserve | Permit | WaitOnPermit | PreBind | Bind | PostBind | Unreserve | Forget | Report

  /** The calls on the way to a bound pod, in order; all but the last can fail. */
  const FORWARD := [Schedule, Assume, Reserve, Permit, WaitOnPermit, PreBind, Bind, PostBind]

  const SCHEDULE := 0
  const ASSUME := 1
  const PERMIT := 3
  const POST_BIND := 7

  /** The block that follows when a call fails, as written in its own branch of the source. */
  function Block(call: nat): seq<Call> {
    match call
    case 0 => [Report]
    case 1 => [Report]
    case 2 => [Unreserve, Forget, Report]
    case 3 => [Unreserve, Forget, Report]
    case 4 => [Unreserve, Forget, Report]
    case 5 => [Unreserve, Forget, Report]
    case 6 => [Unreserve, Forget, Report]
    case _ => []
  }

  /** Before the checks; before a call on the way; before a call of the block after a failed one; or at an end. */
  datatype Location =
    | AtCheck
    | At(call: nat)
    | Failing(call: nat, next: nat)
    | Skipped
    | Failed(call: nat)
    | Bound

  type Place = p: Location | WellPlaced(p) witness AtCheck

  predicate WellPlaced(p: Location) {
    match p
    case At(c) => c <= POST_BIND
    case Failing(c, j) => c < POST_BIND && j < |Block(c)|
    case Failed(c) => c < POST_BIND
    case _ => true
  }

  predicate Done(p: Place) { p.Skipped? || p.Failed? || p.Bound? }

  /**
   The place is in the part of scheduleOne that the loop itself runs: everything up to Permit and the blocks after
   it.
   */
  predicate InLoop(p: Place) { p.AtCheck? || (p.At? && p.call <= PERMIT) || (p.Failing? && p.call <= PERMIT) }

  /** The call made at the place; the checks make none. */
  function CallsAt(p: Place): seq<Call> {
    match p
    case At(c) => [FORWARD[c]]
    case Failing(c, j) => [Block(c)[j]]
    case _ => []
  }

  /**
   Where the attempt goes next; `ok` is the outcome of the check or call, and matters only where the source looks at
   it.
   */
  function After(p: Place, ok: bool): Place
    requires !Done(p)
  {
    match p
    case AtCheck => if ok then At(SCHEDULE) else Skipped
    case At(c) => if c == POST_BIND then Bound else if ok then At(c + 1) else Failing(c, 0)
    case Failing(c, j) => if j + 1 < |Block(c)| then Failing(c, j + 1) else Failed(c)
  }

  /** One call of scheduleOne that got a pod from the queue. */
  datatype Attempt = Attempt(pod: PodID, node: Node, place: Place)

  datatype Entry = Entry(attempt: nat, place: Place)

  /** `popped` lists what NextPod returned and `log` the calls made; history only. */
  datatype State = State(cache: map<PodID, Node>, attempts: seq<Attempt>, current: Option<nat>,
                         popped: seq<PodID>, log: seq<Entry>)

  /** Requests and capacities in one resource. */
  datatype Cluster = Cluster(request: PodID -> nat, capacity: Node -> nat)

  const INIT := State(map[], [], None, [], [])

  /** The load the cache puts on a node. */
  ghost function Load(k: Cluster, cache: map<PodID, Node>, node: Node): nat
    decreases |cache|
  {
    if cache == map[] then 0
    else
      var p :| p in cache;
      Load(k, cache - {p}, node) + if cache[p] == node then k.request(p) else 0
  }

  // ---------- the steps ----------

  /**
   NextPod, or attempt `i` making the call it is at; `node` is the node picked, where it is Schedule that succeeds.
   */
  datatype Step = Pop(pod: PodID) | Advance(i: nat, ok: bool, node: Node)

  /** The loop pops only between two calls of scheduleOne; AssumePod fails exactly on a pod the cache has. */
  ghost predicate Enabled(k: Cluster, s: State, step: Step) {
    match step
    case Pop(_) => s.current.None?
    case Advance(i, ok, node) =>
      && i < |s.attempts| && !Done(s.attempts[i].place)
      && (s.attempts[i].place == At(SCHEDULE) && ok ==>
            Load(k, s.cache, node) + k.request(s.attempts[i].pod) <= k.capacity(node))
      && (s.attempts[i].place == At(ASSUME) ==> (ok <==> s.attempts[i].pod !in s.cache))
  }

  function Moved(a: Attempt, ok: bool, node: Node): Attempt
    requires !Done(a.place)
  {
    Attempt(a.pod, if a.place == At(SCHEDULE) && ok then node else a.node, After(a.place, ok))
  }

  function CacheAfter(cache: map<PodID, Node>, a: Attempt, ok: bool): map<PodID, Node> {
    if a.place == At(ASSUME) && ok then cache[a.pod := a.node]
    else if CallsAt(a.place) == [Forget] then cache - {a.pod}
    else cache
  }

  function Logged(i: nat, p: Place): seq<Entry> { if CallsAt(p) == [] then [] else [Entry(i, p)] }

  function Next(s: State, step: Step): State
    requires step.Advance? ==> step.i < |s.attempts| && !Done(s.attempts[step.i].place)
  {
    match step
    case Pop(pod) =>
      s.(attempts := s.attempts + [Attempt(pod, "", AtCheck)], current := Some(|s.attempts|),
         popped := s.popped + [pod])
    case Advance(i, ok, node) =>
      var a := s.attempts[i];
      var b := Moved(a, ok, node);
      State(CacheAfter(s.cache, a, ok), s.attempts[i := b],
            if s.current == Some(i) && !InLoop(b.place) then None else s.current,
            s.popped, s.log + Logged(i, a.place))
  }

  ghost predicate Reaches(k: Cluster, s: State, run: seq<Step>, t: State)
    decreases |run|
  {
    if run == [] then t == s
    else Enabled(k, s, run[0]) && Reaches(k, Next(s, run[0]), run[1..], t)
  }

  // ---------- the loop is serial ----------

  /** The loop's calls are in the order of the attempts, and only the latest attempt can still make one. */
  ghost predicate SerialInv(s: State) {
    && (s.current.Some? ==> s.current.value == |s.attempts| - 1)
    && (forall i :: 0 <= i < |s.attempts| && InLoop(s.attempts[i].place) ==> s.current == Some(i))
    && (forall a :: 0 <= a < |s.log| ==> s.log[a].attempt < |s.attempts|)
    && LoopInOrder(s.log)
  }

  ghost predicate LoopInOrder(log: seq<Entry>) {
    forall a, b :: 0 <= a < b < |log| && InLoop(log[a].place) && InLoop(log[b].place) ==>
      log[a].attempt <= log[b].attempt
  }

  lemma StepKeepsSerialInv(k: Cluster, s: State, step: Step)
    requires SerialInv(s) && Enabled(k, s, step)
    ensures SerialInv(Next(s, step))
  {
    if step.Advance? {
      var t := Next(s, step);
      if InLoop(s.attempts[step.i].place) {
        assert s.current == Some(step.i);
      } else {
        assert !InLoop(t.attempts[step.i].place);
      }
    }
  }

  lemma {:induction false} RunKeepsSerialInv(k: Cluster, s: State, run: seq<Step>, t: State)
    requires SerialInv(s) && Reaches(k, s, run, t)
    ensures SerialInv(t)
    decreases |run|
  {
    if run != [] {
      StepKeepsSerialInv(k, s, run[0]);
      RunKeepsSerialInv(k, Next(s, run[0]), run[1..], t);
    }
  }

  // ---------- the cache holds the live attempts ----------

  /** The attempt's pod is in the cache: it was assumed and has not been forgotten. */
  predicate Live(p: Place) {
    match p
    case At(c) => c > ASSUME
    case Failing(c, j) => c > ASSUME && Forget !in Block(c)[..j]
    case Failed(c) => c > ASSUME && Forget !in Block(c)
    case Bound => true
    case _ => false
  }

  ghost predicate LiveAttempt(attempts: seq<Attempt>, pod: PodID, i: int) {
    0 <= i < |attempts| && attempts[i].pod == pod && Live(attempts[i].place)
  }

  ghost predicate OneLive(attempts: seq<Attempt>) {
    forall pod, i, j :: LiveAttempt(attempts, pod, i) && LiveAttempt(attempts, pod, j) ==> i == j
  }

  ghost predicate CacheIsLive(cache: map<PodID, Node>, attempts: seq<Attempt>) {
    && (forall pod :: pod in cache ==> exists i :: LiveAttempt(attempts, pod, i))
    && (forall pod, i :: LiveAttempt(attempts, pod, i) ==> pod in cache && cache[pod] == attempts[i].node)
  }

  ghost predicate CacheInv(s: State) { OneLive(s.attempts) && CacheIsLive(s.cache, s.attempts) }

  /** What a move does to being live: assuming makes live, forgetting ends it, everything else leaves it. */
  lemma MoveLive(a: Attempt, ok: bool, node: Node)
    requires !Done(a.place)
    ensures Live(Moved(a, ok, node).place) <==>
            (a.place == At(ASSUME) && ok) || (Live(a.place) && CallsAt(a.place) != [Forget])
    ensures CallsAt(a.place) == [Forget] ==> Live(a.place)
    ensures Live(a.place) ==> Moved(a, ok, node).node == a.node
  {}

  lemma AdvanceKeepsOneLive(s: State, i: nat, ok: bool, node: Node)
    requires CacheInv(s) && i < |s.attempts| && !Done(s.attempts[i].place)
    requires s.attempts[i].place == At(ASSUME) ==> (ok <==> s.attempts[i].pod !in s.cache)
    ensures CacheInv(Next(s, Advance(i, ok, node)))
  {
    var a, t := s.attempts[i], Next(s, Advance(i, ok, node));
    MoveLive(a, ok, node);
    forall pod, j
      ensures LiveAttempt(t.attempts, pod, j) <==>
              if j == i then pod == a.pod && Live(t.attempts[i].place) else LiveAttempt(s.attempts, pod, j) {}
    if a.place == At(ASSUME) && ok {
      assert forall j :: !LiveAttempt(s.attempts, a.pod, j);
    }
    forall pod | pod in t.cache ensures exists j :: LiveAttempt(t.attempts, pod, j) {
      if a.place == At(ASSUME) && ok && pod == a.pod {
        assert LiveAttempt(t.attempts, pod, i);
      } else {
        var j :| LiveAttempt(s.attempts, pod, j);
        assert LiveAttempt(t.attempts, pod, j);
      }
    }
    if CallsAt(a.place) == [Forget] {
      assert LiveAttempt(s.attempts, a.pod, i);
    }
  }

  lemma StepKeepsCacheInv(k: Cluster, s: State, step: Step)
    requires CacheInv(s) && Enabled(k, s, step)
    ensures CacheInv(Next(s, step))
  {
    match step
    case Pop(_) =>
      var t := Next(s, step);
      forall pod, i ensures LiveAttempt(t.attempts, pod, i) <==> LiveAttempt(s.attempts, pod, i) {}
    case Advance(i, ok, node) => AdvanceKeepsOneLive(s, i, ok, node);
  }

  lemma {:induction false} RunKeepsCacheInv(k: Cluster, s: State, run: seq<Step>, t: State)
    requires CacheInv(s) && Reaches(k, s, run, t)
    ensures CacheInv(t)
    decreases |run|
  {
    if run != [] {
      StepKeepsCacheInv(k, s, run[0]);
      RunKeepsCacheInv(k, Next(s, run[0]), run[1..], t);
    }
  }

  // ---------- what the log says of an attempt ----------

  /** The calls made for one attempt. */
  function CallsOf(log: seq<Entry>, i: nat): seq<Call> {
    if log == [] then []
    else
      var last := log[|log| - 1];
      CallsOf(log[..|log| - 1], i) + if last.attempt == i then CallsAt(last.place) else []
  }

  /** The calls an attempt has made when it is at the place. */
  function Made(p: Place): seq<Call> {
    match p
    case AtCheck => []
    case Skipped => []
    case At(c) => FORWARD[..c]
    case Failing(c, j) => FORWARD[..c + 1] + Block(c)[..j]
    case Failed(c) => FORWARD[..c + 1] + Block(c)
    case Bound => FORWARD
  }

  lemma MadeMore(p: Place, ok: bool)
    requires !Done(p)
    ensures Made(After(p, ok)) == Made(p) + CallsAt(p)
  {}

  ghost predicate LogInv(s: State) {
    && |s.popped| == |s.attempts|
    && (forall i :: 0 <= i < |s.attempts| ==> s.attempts[i].pod == s.popped[i])
    && (forall i: nat :: Accounted(s, i))
  }

  /** The calls logged for the attempt are those it has made on its way to its place. */
  ghost predicate Accounted(s: State, i: nat) {
    CallsOf(s.log, i) == if i < |s.attempts| then Made(s.attempts[i].place) else []
  }

  lemma CallsMore(log: seq<Entry>, i: nat, p: Place, j: nat)
    ensures CallsOf(log + Logged(i, p), j) == CallsOf(log, j) + if i == j then CallsAt(p) else []
  {
    if CallsAt(p) == [] {
      assert log + Logged(i, p) == log;
    } else {
      assert (log + [Entry(i, p)])[..|log|] == log;
    }
  }

  lemma AdvanceAccounts(s: State, i: nat, ok: bool, node: Node, j: nat)
    requires i < |s.attempts| && !Done(s.attempts[i].place) && Accounted(s, j)
    ensures Accounted(Next(s, Advance(i, ok, node)), j)
  {
    MadeMore(s.attempts[i].place, ok);
    CallsMore(s.log, i, s.attempts[i].place, j);
  }

  lemma StepKeepsLogInv(k: Cluster, s: State, step: Step)
    requires LogInv(s) && Enabled(k, s, step)
    ensures LogInv(Next(s, step))
  {
    forall j: nat ensures Accounted(Next(s, step), j) {
      assert Accounted(s, j);
      if step.Advance? {
        AdvanceAccounts(s, step.i, step.ok, step.node, j);
      }
    }
  }

  lemma {:induction false} RunKeepsLogInv(k: Cluster, s: State, run: seq<Step>, t: State)
    requires LogInv(s) && Reaches(k, s, run, t)
    ensures LogInv(t)
    decreases |run|
  {
    if run != [] {
      StepKeepsLogInv(k, s, run[0]);
      RunKeepsLogInv(k, Next(s, run[0]), run[1..], t);
    }
  }

  // ---------- no node is overcommitted ----------

  /** The load does not depend on the order the pods are summed in. */
  lemma {:induction false} LoadWithout(k: Cluster, cache: map<PodID, Node>, node: Node, p: PodID)
    requires p in cache
    ensures Load(k, cache, node) == Load(k, cache - {p}, node) + if cache[p] == node then k.request(p) else 0
    decreases |cache|
  {
    var q :| q in cache
      && Load(k, cache, node) == Load(k, cache - {q}, node) + if cache[q] == node then k.request(q) else 0;
    if q != p {
      LoadWithout(k, cache - {q}, node, p);
      LoadWithout(k, cache - {p}, node, q);
      assert cache - {q} - {p} == cache - {p} - {q};
    }
  }

  lemma LoadWith(k: Cluster, cache: map<PodID, Node>, node: Node, p: PodID, n: Node)
    requires p !in cache
    ensures Load(k, cache[p := n], node) == Load(k, cache, node) + if n == node then k.request(p) else 0
  {
    LoadWithout(k, cache[p := n], node, p);
    assert cache[p := n] - {p} == cache;
  }

  ghost predicate Fits(k: Cluster, cache: map<PodID, Node>, a: Attempt) {
    a.place == At(ASSUME) ==> Load(k, cache, a.node) + k.request(a.pod) <= k.capacity(a.node)
  }

  ghost predicate RoomInv(k: Cluster, s: State) {
    && (forall node :: Load(k, s.cache, node) <= k.capacity(node))
    && (forall i :: 0 <= i < |s.attempts| ==> Fits(k, s.cache, s.attempts[i]))
  }

  lemma LoadAfter(k: Cluster, cache: map<PodID, Node>, a: Attempt, ok: bool, node: Node)
    requires a.place == At(ASSUME) ==> (ok <==> a.pod !in cache)
    ensures Load(k, CacheAfter(cache, a, ok), node) <=
            Load(k, cache, node) + if a.place == At(ASSUME) && ok && a.node == node then k.request(a.pod) else 0
  {
    if a.place == At(ASSUME) && ok {
      LoadWith(k, cache, node, a.pod, a.node);
    } else if CallsAt(a.place) == [Forget] && a.pod in cache {
      LoadWithout(k, cache, node, a.pod);
    } else {
      assert CacheAfter(cache, a, ok) == cache;
    }
  }

  /** Only the loop assumes, and it is at one attempt: no other pick can be invalidated by an assumption. */
  lemma StepKeepsRoom(k: Cluster, s: State, step: Step)
    requires RoomInv(k, s) && SerialInv(s) && Enabled(k, s, step)
    ensures RoomInv(k, Next(s, step))
  {
    if step.Advance? {
      var a, t := s.attempts[step.i], Next(s, step);
      assert Fits(k, s.cache, a);
      forall node
        ensures Load(k, t.cache, node) <= Load(k, s.cache, node) +
                if a.place == At(ASSUME) && step.ok && a.node == node then k.request(a.pod) else 0
      {
        LoadAfter(k, s.cache, a, step.ok, node);
      }
      forall j | 0 <= j < |t.attempts| ensures Fits(k, t.cache, t.attempts[j]) {
        if j != step.i {
          assert Fits(k, s.cache, s.attempts[j]);
          assert s.attempts[j].place == At(ASSUME) ==> s.current == Some(j);
        }
      }
    }
  }

  lemma {:induction false} RunKeepsRoom(k: Cluster, s: State, run: seq<Step>, t: State)
    requires RoomInv(k, s) && SerialInv(s) && Reaches(k, s, run, t)
    ensures RoomInv(k, t)
    decreases |run|
  {
    if run != [] {
      StepKeepsRoom(k, s, run[0]);
      StepKeepsSerialInv(k, s, run[0]);
      RunKeepsRoom(k, Next(s, run[0]), run[1..], t);
    }
  }

  // ---------- the results ----------

  /**
   Scheduling is serial: whatever binding cycles run beside it, the loop's calls for one pod all come before its calls
   for any pod popped later, clean-up after a failed Reserve or Permit included.
   */
  lemma SchedulingIsSerial(k: Cluster, run: seq<Step>, t: State, a: nat, b: nat)
    requires Reaches(k, INIT, run, t) && a < b < |t.log|
    requires InLoop(t.log[a].place) && InLoop(t.log[b].place)
    ensures t.log[a].attempt <= t.log[b].attempt
  {
    RunKeepsSerialInv(k, INIT, run, t);
  }

  /** In every run the cache holds exactly the pods of live attempts, each on the node its one live attempt chose. */
  lemma CacheHoldsLiveAttempts(k: Cluster, run: seq<Step>, t: State, pod: PodID)
    requires Reaches(k, INIT, run, t)
    ensures pod in t.cache <==> exists i :: LiveAttempt(t.attempts, pod, i)
    ensures forall i :: LiveAttempt(t.attempts, pod, i) ==> t.cache[pod] == t.attempts[i].node
    ensures forall i, j :: LiveAttempt(t.attempts, pod, i) && LiveAttempt(t.attempts, pod, j) ==> i == j
  {
    RunKeepsCacheInv(k, INIT, run, t);
  }

  /** No pod is bound by two attempts. */
  lemma NeverBoundTwice(k: Cluster, run: seq<Step>, t: State, i: nat, j: nat)
    requires Reaches(k, INIT, run, t) && i < j < |t.attempts|
    requires t.attempts[i].place == Bound && t.attempts[j].place == Bound
    ensures t.attempts[i].pod != t.attempts[j].pod
  {
    RunKeepsCacheInv(k, INIT, run, t);
    assert LiveAttempt(t.attempts, t.attempts[i].pod, i) && LiveAttempt(t.attempts, t.attempts[j].pod, j);
  }

  const CLEAN_UP := [Unreserve, Forget, Report]

  /** The ways an attempt can end, by the calls made for it; `failed` is the last call on the way. */
  datatype Fate = WasSkipped | WasRejected(failed: nat) | WasCleanedUp(failed: nat) | WasBound

  predicate Has(calls: seq<Call>, fate: Fate) {
    match fate
    case WasSkipped => calls == []
    case WasRejected(c) => c <= ASSUME && calls == FORWARD[..c + 1] + [Report]
    case WasCleanedUp(c) => ASSUME < c < POST_BIND && calls == FORWARD[..c + 1] + CLEAN_UP
    case WasBound => calls == FORWARD
  }

  lemma FateIsUnique(calls: seq<Call>, f: Fate, g: Fate)
    requires Has(calls, f) && Has(calls, g)
    ensures f == g
  {
    var n := |calls|;
    assert f.WasRejected? || g.WasRejected? ==> 2 <= n <= 3 && calls[n - 1] == Report;
    assert f.WasCleanedUp? || g.WasCleanedUp? ==> n >= 6 && calls[n - 1] == Report;
    assert f.WasBound? || g.WasBound? ==> n == 8 && calls[n - 1] == PostBind;
  }

  function FateOf(p: Place): Fate
    requires Done(p)
  {
    match p
    case Skipped => WasSkipped
    case Failed(c) => if c <= ASSUME then WasRejected(c) else WasCleanedUp(c)
    case Bound => WasBound
  }

  lemma MadeHasFate(p: Place)
    requires Done(p)
    ensures Has(Made(p), FateOf(p))
  {}

  /**
   Every pod popped has exactly one fate, told by the calls made for it: skipped with no call at all, reported to
   Error once without ever being assumed, assumed once and cleaned up after, or assumed once and bound.
   */
  lemma EveryPopHasOneFate(k: Cluster, run: seq<Step>, t: State, i: nat)
    requires Reaches(k, INIT, run, t) && i < |t.popped|
    ensures i < |t.attempts| && t.attempts[i].pod == t.popped[i]
    ensures Done(t.attempts[i].place) ==>
              exists f :: Has(CallsOf(t.log, i), f) && forall g :: Has(CallsOf(t.log, i), g) ==> g == f
  {
    RunKeepsLogInv(k, INIT, run, t);
    assert Accounted(t, i);
    if Done(t.attempts[i].place) {
      var f := FateOf(t.attempts[i].place);
      MadeHasFate(t.attempts[i].place);
      forall g | Has(CallsOf(t.log, i), g) ensures g == f {
        FateIsUnique(CallsOf(t.log, i), f, g);
      }
    }
  }

  /** The first `n` calls on the way were made, and then `m` calls of the clean-up. */
  predicate CleansUp(calls: seq<Call>, n: nat, m: nat) {
    ASSUME < n <= |FORWARD| && m <= |CLEAN_UP| && calls == FORWARD[..n] + CLEAN_UP[..m]
  }

  /**
   Whichever of the five calls after Assume fails, the attempt makes no further call on the way: it unreserves, forgets
   and reports, in that order and once each. An attempt that was assumed and has not failed has made none of these
   calls. Until it forgets its pod, the cache has the pod on the attempt's node; from then on, if the cache has the pod
   at all, that is the work of another attempt.
   */
  lemma FailureCleansUpOnce(k: Cluster, run: seq<Step>, t: State, i: nat)
    requires Reaches(k, INIT, run, t) && i < |t.attempts| && WasAssumed(t.attempts[i].place)
    ensures exists n, m :: CleansUp(CallsOf(t.log, i), n, m)
    ensures Forget in CallsOf(t.log, i) <==> !Live(t.attempts[i].place)
    ensures var a := t.attempts[i];
      if Forget !in CallsOf(t.log, i) then a.pod in t.cache && t.cache[a.pod] == a.node
      else a.pod in t.cache ==> exists j :: j != i && LiveAttempt(t.attempts, a.pod, j)
    ensures t.attempts[i].place.Failed? ==> CleansUp(CallsOf(t.log, i), t.attempts[i].place.call + 1, |CLEAN_UP|)
  {
    RunKeepsLogInv(k, INIT, run, t);
    assert Accounted(t, i);
    MadeCleansUp(t.attempts[i].place);
    RunKeepsCacheInv(k, INIT, run, t);
    assert LiveAttempt(t.attempts, t.attempts[i].pod, i) <==> Live(t.attempts[i].place);
  }

  /** Assume succeeded. */
  predicate WasAssumed(p: Place) { p.Bound? || ((p.At? || p.Failing? || p.Failed?) && p.call > ASSUME) }

  lemma MadeCleansUp(p: Place)
    requires WasAssumed(p)
    ensures exists n, m :: CleansUp(Made(p), n, m)
    ensures Forget in Made(p) <==> !Live(p)
    ensures p.Failed? ==> CleansUp(Made(p), p.call + 1, |CLEAN_UP|)
  {
    assert Forget !in FORWARD;
    match p
    case At(c) => assert CleansUp(Made(p), c, 0);
    case Failing(c, j) =>
      assert Block(c) == CLEAN_UP;
      assert CleansUp(Made(p), c + 1, j);
    case Failed(c) =>
      assert Block(c) == CLEAN_UP && CLEAN_UP[1] == Forget;
      assert CleansUp(Made(p), c + 1, |CLEAN_UP|);
    case Bound => assert CleansUp(Made(p), |FORWARD|, 0);
  }

  /**
   If Schedule picks only nodes that have room in the cache at that moment, no node is ever overcommitted,
   although pods come and go from the cache before the pick is assumed.
   */
  lemma NeverOvercommits(k: Cluster, run: seq<Step>, t: State, node: Node)
    requires Reaches(k, INIT, run, t)
    ensures Load(k, t.cache, node) <= k.capacity(node)
  {
    RunKeepsRoom(k, INIT, run, t);
  }
}
