/**
 `scheduleOne` and its binding goroutine as they are written, branch by branch, with the outcomes of the calls given.
 Their calls are those of an attempt of the step machine that sees the same outcomes, and the machine logs no others.
 */
module ScheduleOne {
  import opened Common
  import opened Scheduler

  datatype PermitStatus = PermitSuccess | PermitWait | PermitUnschedulable | PermitError

  datatype Outcomes = Outcomes(framework: bool, skip: bool, schedule: Option<Node>, assumed: bool, reserved: bool,
                               permit: PermitStatus, allowed: bool, preBound: bool, bound: bool)

  /** The outcome of a call on the way; a pod that has to wait has passed Permit. */
  predicate Succeeds(o: Outcomes, call: nat) {
    match call
    case 0 => o.schedule.Some?
    case 1 => o.assumed
    case 2 => o.reserved
    case 3 => o.permit == PermitSuccess || o.permit == PermitWait
    case 4 => o.allowed
    case 5 => o.preBound
    case 6 => o.bound
    case _ => true
  }

  ghost predicate SucceedsUpTo(o: Outcomes, call: nat) {
    o.framework && !o.skip && forall c: nat :: c < call ==> Succeeds(o, c)
  }

  /** An attempt that sees these outcomes comes through the place. */
  ghost predicate Passes(o: Outcomes, p: Place) {
    match p
    case AtCheck => true
    case Skipped => !o.framework || o.skip
    case At(c) => SucceedsUpTo(o, c)
    case Failing(c, _) => SucceedsUpTo(o, c) && !Succeeds(o, c)
    case Failed(c) => SucceedsUpTo(o, c) && !Succeeds(o, c)
    case Bound => SucceedsUpTo(o, POST_BIND)
  }

  /** The attempt is at the place, having made the calls. */
  ghost predicate Arrived(o: Outcomes, calls: seq<Call>, p: Place) { Passes(o, p) && calls == Made(p) }

  /** Each move of the step machine with the outcome seen keeps to the places that are passed. */
  lemma MoveArrives(o: Outcomes, calls: seq<Call>, p: Place, ok: bool)
    requires Arrived(o, calls, p) && !Done(p)
    requires p.AtCheck? ==> (ok <==> o.framework && !o.skip)
    requires p.At? && p.call < POST_BIND ==> (ok <==> Succeeds(o, p.call))
    ensures Arrived(o, calls + CallsAt(p), After(p, ok))
  {
    MadeMore(p, ok);
  }

  /** Where an attempt ends that got past the checks and the calls before `call`. */
  function FirstFailure(o: Outcomes, call: nat): Place
    requires call <= POST_BIND
    decreases POST_BIND - call
  {
    if call == POST_BIND then Bound else if !Succeeds(o, call) then Failed(call) else FirstFailure(o, call + 1)
  }

  function EndOf(o: Outcomes): Place { if !o.framework || o.skip then Skipped else FirstFailure(o, SCHEDULE) }

  lemma {:induction false} FirstFailurePasses(o: Outcomes, call: nat)
    requires call <= POST_BIND && SucceedsUpTo(o, call)
    ensures Passes(o, FirstFailure(o, call)) && Done(FirstFailure(o, call))
    decreases POST_BIND - call
  {
    if call < POST_BIND && Succeeds(o, call) {
      FirstFailurePasses(o, call + 1);
    }
  }

  lemma EndPasses(o: Outcomes)
    ensures Passes(o, EndOf(o)) && Done(EndOf(o))
  {
    if o.framework && !o.skip {
      FirstFailurePasses(o, SCHEDULE);
    }
  }

  /** The outcomes determine the end. */
  lemma OneEnd(o: Outcomes, p: Place, q: Place)
    requires Passes(o, p) && Passes(o, q) && Done(p) && Done(q)
    ensures p == q
  {}

  /** Every check has to pass and every call but PostBind to succeed; to wait for permission is not to fail. */
  predicate AllSucceed(o: Outcomes) {
    && o.framework && !o.skip && o.schedule.Some? && o.assumed && o.reserved
    && (o.permit == PermitSuccess || o.permit == PermitWait)
    && o.allowed && o.preBound && o.bound
  }

  lemma BoundIffAllSucceed(o: Outcomes)
    ensures EndOf(o) == Bound <==> AllSucceed(o)
  {
    EndPasses(o);
    if EndOf(o) == Bound {
      assert Succeeds(o, 0) && Succeeds(o, 1) && Succeeds(o, 2) && Succeeds(o, 3) && Succeeds(o, 4) && Succeeds(o, 5)
             && Succeeds(o, 6);
    }
  }

  /** The part of scheduleOne that the loop runs; `binding` says whether it starts the binding goroutine. */
  method ScheduleOne(o: Outcomes) returns (calls: seq<Call>, binding: bool)
    ensures binding <==>
            && o.framework && !o.skip && o.schedule.Some? && o.assumed && o.reserved
            && (o.permit == PermitSuccess || o.permit == PermitWait)
    ensures calls ==
            if !o.framework || o.skip then []
            else if o.schedule.None? then [Schedule, Report]
            else if !o.assumed then [Schedule, Assume, Report]
            else if !o.reserved then [Schedule, Assume, Reserve, Unreserve, Forget, Report]
            else if !binding then [Schedule, Assume, Reserve, Permit, Unreserve, Forget, Report]
            else [Schedule, Assume, Reserve, Permit]
    ensures binding <==> SucceedsUpTo(o, PERMIT + 1)
    ensures Arrived(o, calls, if binding then At(PERMIT + 1) else EndOf(o))
    ensures !binding ==> Done(EndOf(o)) && Has(calls, FateOf(EndOf(o)))
  {
    EndPasses(o);
    MadeHasFate(EndOf(o));
    calls, binding := [], false;
    if !o.framework { return; }
    if o.skip { return; }
    calls := calls + [Schedule];
    if o.schedule.None? {
      calls := calls + [Report];
      OneEnd(o, EndOf(o), Failed(0));
      return;
    }
    calls := calls + [Assume];
    if !o.assumed {
      calls := calls + [Report];
      OneEnd(o, EndOf(o), Failed(1));
      return;
    }
    calls := calls + [Reserve];
    if !o.reserved {
      calls := calls + [Unreserve];
      calls := calls + [Forget];
      calls := calls + [Report];
      OneEnd(o, EndOf(o), Failed(2));
      return;
    }
    calls := calls + [Permit];
    if o.permit != PermitWait && o.permit != PermitSuccess {
      calls := calls + [Unreserve];
      calls := calls + [Forget];
      calls := calls + [Report];
      OneEnd(o, EndOf(o), Failed(3));
      return;
    }
    binding := true;
  }

  /** The binding goroutine, after the calls the loop made for its pod. */
  method BindingCycle(o: Outcomes, before: seq<Call>) returns (calls: seq<Call>)
    requires Arrived(o, before, At(PERMIT + 1))
    ensures calls == before +
            if !o.allowed then [WaitOnPermit, Unreserve, Forget, Report]
            else if !o.preBound then [WaitOnPermit, PreBind, Unreserve, Forget, Report]
            else if !o.bound then [WaitOnPermit, PreBind, Bind, Unreserve, Forget, Report]
            else [WaitOnPermit, PreBind, Bind, PostBind]
    ensures PostBind in calls <==> o.allowed && o.preBound && o.bound
    ensures EndOf(o) ==
            if !o.allowed then Failed(4) else if !o.preBound then Failed(5) else if !o.bound then Failed(6) else Bound
    ensures Arrived(o, calls, EndOf(o)) && Done(EndOf(o)) && Has(calls, FateOf(EndOf(o)))
  {
    EndPasses(o);
    MadeHasFate(EndOf(o));
    calls := before + [WaitOnPermit];
    if !o.allowed {
      calls := calls + [Unreserve];
      calls := calls + [Forget];
      calls := calls + [Report];
      OneEnd(o, EndOf(o), Failed(4));
      return;
    }
    calls := calls + [PreBind];
    if !o.preBound {
      calls := calls + [Unreserve];
      calls := calls + [Forget];
      calls := calls + [Report];
      OneEnd(o, EndOf(o), Failed(5));
      return;
    }
    calls := calls + [Bind];
    if !o.bound {
      calls := calls + [Unreserve];
      calls := calls + [Forget];
      calls := calls + [Report];
      OneEnd(o, EndOf(o), Failed(6));
    } else {
      calls := calls + [PostBind];
      OneEnd(o, EndOf(o), Bound);
    }
  }

  // ---------- the step machine makes no other calls ----------

  /** What `o` says of the check (0) and of the calls on the way (1 and up). */
  predicate Outcome(o: Outcomes, j: nat) { if j == 0 then o.framework && !o.skip else Succeeds(o, j - 1) }

  /** How many outcomes an attempt has seen when it is at the place. */
  function Seen(p: Place): nat {
    match p
    case AtCheck => 0
    case Skipped => 1
    case At(c) => c + 1
    case Failing(c, _) => c + 2
    case Failed(c) => c + 2
    case Bound => POST_BIND + 1
  }

  ghost predicate Agree(o: Outcomes, o': Outcomes, n: nat) {
    && (forall j: nat :: j < n ==> (Outcome(o, j) <==> Outcome(o', j)))
    && (n > 1 ==> o.schedule == o'.schedule)
  }

  /** The outcome `o` gives for the place is the one seen in this step, the node picked included. */
  predicate Fits(o: Outcomes, p: Place, ok: bool, node: Node) {
    && (p.AtCheck? ==> (ok <==> Outcome(o, 0)))
    && (p.At? && p.call < POST_BIND ==> (ok <==> Succeeds(o, p.call)))
    && (p == At(SCHEDULE) && ok ==> o.schedule == Some(node))
  }

  /** Every step that attempt `i` takes in the run has the outcome that `o` gives. */
  ghost predicate Saw(s: State, run: seq<Step>, i: nat, o: Outcomes)
    decreases |run|
  {
    run != [] ==>
      var step := run[0];
      && (step.Advance? ==> step.i < |s.attempts| && !Done(s.attempts[step.i].place))
      && (step.Advance? && step.i == i ==> Fits(o, s.attempts[i].place, step.ok, step.node))
      && Saw(Next(s, step), run[1..], i, o)
  }

  function WithCall(o: Outcomes, call: nat, ok: bool, node: Node): Outcomes {
    Outcomes(o.framework, o.skip,
             if call == 0 then if ok then Some(node) else None else o.schedule,
             if call == 1 then ok else o.assumed,
             if call == 2 then ok else o.reserved,
             if call == 3 then if ok then PermitSuccess else PermitError else o.permit,
             if call == 4 then ok else o.allowed,
             if call == 5 then ok else o.preBound,
             if call == 6 then ok else o.bound)
  }

  lemma WithCallFits(o: Outcomes, call: nat, ok: bool, node: Node)
    ensures var o' := WithCall(o, call, ok, node);
      && (call < POST_BIND ==> (Succeeds(o', call) <==> ok))
      && (call != SCHEDULE ==> o'.schedule == o.schedule)
      && o'.framework == o.framework && o'.skip == o.skip
  {}

  lemma WithCallKeeps(o: Outcomes, call: nat, ok: bool, node: Node, c: nat)
    requires c != call
    ensures Succeeds(WithCall(o, call, ok, node), c) <==> Succeeds(o, c)
  {}

  /** `o` with the outcome seen at the place. */
  function With(o: Outcomes, p: Place, ok: bool, node: Node): Outcomes {
    if p.AtCheck? then o.(framework := ok, skip := false)
    else if p.At? then WithCall(o, p.call, ok, node)
    else o
  }

  lemma WithFits(o: Outcomes, p: Place, ok: bool, node: Node)
    requires !Done(p)
    ensures Fits(With(o, p, ok, node), p, ok, node)
    ensures Agree(With(o, p, ok, node), o, Seen(p))
  {
    if p.At? {
      WithCallFits(o, p.call, ok, node);
      forall j: nat | j < Seen(p) ensures Outcome(With(o, p, ok, node), j) <==> Outcome(o, j) {
        if j > 0 {
          WithCallKeeps(o, p.call, ok, node, j - 1);
        }
      }
    }
  }

  lemma AgreeFits(o: Outcomes, o': Outcomes, p: Place, ok: bool, node: Node)
    requires !Done(p) && Fits(o, p, ok, node) && Agree(o', o, Seen(After(p, ok)))
    ensures Fits(o', p, ok, node)
  {
    assert p.AtCheck? ==> (Outcome(o', 0) <==> Outcome(o, 0));
    assert p.At? && p.call < POST_BIND ==> (Outcome(o', p.call + 1) <==> Outcome(o, p.call + 1));
  }

  lemma AgreeLess(o: Outcomes, o': Outcomes, o'': Outcomes, m: nat, n: nat)
    requires m <= n && Agree(o, o', n) && Agree(o', o'', m)
    ensures Agree(o, o'', m)
  {}

  lemma AgreePasses(o: Outcomes, o': Outcomes, p: Place)
    requires Passes(o, p) && Agree(o', o, Seen(p))
    ensures Passes(o', p)
  {
    assert p != AtCheck ==> (Outcome(o', 0) <==> Outcome(o, 0));
    forall c: nat | c + 1 < Seen(p) ensures Succeeds(o', c) <==> Succeeds(o, c) {
      assert Outcome(o', c + 1) <==> Outcome(o, c + 1);
    }
  }

  lemma SeenGrows(p: Place, ok: bool)
    requires !Done(p)
    ensures Seen(p) <= Seen(After(p, ok))
  {}

  lemma SeesOne(past: Outcomes, p: Place, ok: bool, node: Node)
    requires Passes(past, p) && !Done(p)
    ensures Passes(With(past, p, ok, node), After(p, ok))
  {
    var now := With(past, p, ok, node);
    WithFits(past, p, ok, node);
    AgreePasses(past, now, p);
    MoveArrives(now, Made(p), p, ok);
  }

  lemma SeenStays(past: Outcomes, o: Outcomes, p: Place, ok: bool, node: Node)
    requires !Done(p) && Agree(o, With(past, p, ok, node), Seen(After(p, ok)))
    ensures Fits(o, p, ok, node) && Agree(o, past, Seen(p))
  {
    var now := With(past, p, ok, node);
    WithFits(past, p, ok, node);
    AgreeFits(now, o, p, ok, node);
    SeenGrows(p, ok);
    AgreeLess(o, now, past, Seen(p), Seen(After(p, ok)));
  }

  /** Whatever an attempt has seen so far, some outcomes go on to fit all it sees in the run. */
  lemma {:induction false} SeesOutcomes(k: Cluster, s: State, run: seq<Step>, t: State, i: nat, past: Outcomes)
    returns (o: Outcomes)
    requires Reaches(k, s, run, t) && i < |t.attempts|
    requires i < |s.attempts| ==> Passes(past, s.attempts[i].place)
    ensures Saw(s, run, i, o) && Passes(o, t.attempts[i].place)
    ensures i < |s.attempts| ==> Agree(o, past, Seen(s.attempts[i].place))
    decreases |run|
  {
    o := past;
    if run != [] {
      var step := run[0];
      var s' := Next(s, step);
      if step.Advance? && step.i == i {
        var p := s.attempts[i].place;
        var now := With(past, p, step.ok, step.node);
        SeesOne(past, p, step.ok, step.node);
        o := SeesOutcomes(k, s', run[1..], t, i, now);
        SeenStays(past, o, p, step.ok, step.node);
      } else {
        o := SeesOutcomes(k, s', run[1..], t, i, past);
      }
    }
  }

  /**
   Interleaved with any number of others, an attempt makes the calls that scheduleOne makes for the outcomes that the
   attempt itself sees in the run, as far as it has come.
   */
  lemma LogIsScheduleOne(k: Cluster, run: seq<Step>, t: State, i: nat)
    requires Reaches(k, INIT, run, t) && i < |t.attempts|
    ensures exists o ::
              && Saw(INIT, run, i, o) && Arrived(o, CallsOf(t.log, i), t.attempts[i].place)
              && (Done(t.attempts[i].place) ==>
                    t.attempts[i].place == EndOf(o) && (PostBind in CallsOf(t.log, i) <==> AllSucceed(o)))
  {
    var o := SeesOutcomes(k, INIT, run, t, i, Outcomes(true, false, None, true, true, PermitSuccess, true, true, true));
    RunKeepsLogInv(k, INIT, run, t);
    assert Accounted(t, i);
    if Done(t.attempts[i].place) {
      EndPasses(o);
      OneEnd(o, EndOf(o), t.attempts[i].place);
      BoundIffAllSucceed(o);
    }
  }
}
