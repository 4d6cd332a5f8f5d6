/**
 What the pod workers do to the calls made for one pod. All the channels, flags and goroutine
 generations of a pod are shown to move like a six-column ledger with four kinds of entry; order,
 conservation and the fate of kill requests are then properties of the ledger.
 */
module PodWorkerHistory {
  import opened PodWorkers

  /** The updates a worker has taken on and not yet finished: buffered, or in hand before its sync returned. */
  function Hand(w: Worker): seq<Update> {
    w.buffer + if w.phase.Fetching? || w.phase.Syncing? then [w.phase.update] else []
  }

  function InFlight(ws: seq<Worker>, uid: UID): seq<Update> {
    if ws == [] then []
    else InFlight(ws[..|ws| - 1], uid) + if ws[|ws| - 1].uid == uid then Hand(ws[|ws| - 1]) else []
  }

  function Updates(ps: seq<Processed>): seq<Update> {
    seq(|ps|, i requires 0 <= i < |ps| => ps[i].update)
  }

  function Chosen(ps: seq<Processed>, synced: bool): seq<Update> {
    if ps == [] then []
    else Chosen(ps[..|ps| - 1], synced) + if ps[|ps| - 1].synced == synced then [ps[|ps| - 1].update] else []
  }

  /** The updates `syncPodFn` was run on, in the order it was run. */
  function Synced(s: State, uid: UID): seq<Update> { Chosen(LogOf(s, uid).processed, true) }

  /** The updates given up because the pod cache returned an error. */
  function FetchFailed(s: State, uid: UID): seq<Update> { Chosen(LogOf(s, uid).processed, false) }

  function Pending(s: State, uid: UID): seq<Update> {
    if uid in s.lastUndelivered then [s.lastUndelivered[uid]] else []
  }

  datatype Ledger = Ledger(issued: seq<Update>, delivered: seq<Update>, pending: seq<Update>,
                           superseded: seq<Update>, refused: seq<Update>, dropped: seq<Update>)

  /** Every update ever put into one of the pod's channels, in order, is either finished or still in flight. */
  function LedgerOf(s: State, uid: UID): Ledger {
    var l := LogOf(s, uid);
    Ledger(l.issued, Updates(l.processed) + InFlight(s.workers, uid), Pending(s, uid),
           l.superseded, l.refused, l.dropped)
  }

  // ---------- the ledger machine ----------

  predicate HasKill(pending: seq<Update>) { pending != [] && pending[0].kind == SyncPodKill }

  predicate Calls(a: Ledger, b: Ledger, u: Update) {
    var issued := a.issued + [u];
    || (a.pending == [] && b == a.(issued := issued, delivered := a.delivered + [u]))
    || (HasKill(a.pending) && b == a.(issued := issued, refused := a.refused + [u]))
    || (!HasKill(a.pending) && b == a.(issued := issued, pending := [u], superseded := a.superseded + a.pending))
  }

  predicate Forgets(a: Ledger, b: Ledger) {
    b == a.(pending := [], dropped := a.dropped + a.pending)
  }

  predicate HandsOver(a: Ledger, b: Ledger) {
    a.pending != [] && b == a.(delivered := a.delivered + a.pending, pending := [])
  }

  ghost predicate LedgerStep(a: Ledger, b: Ledger, uid: UID, forgotten: bool) {
    if forgotten then Forgets(a, b)
    else b == a || HandsOver(a, b) || exists kind :: Calls(a, b, Update(uid, kind, |a.issued|))
  }

  predicate ForgetsPod(step: Step, uid: UID) {
    match step
    case CallForgetWorker(v) => v == uid
    case CallForgetNonExisting(_, order) => uid in order
    case _ => false
  }

  ghost predicate Numbered(issued: seq<Update>, uid: UID) {
    forall k :: 0 <= k < |issued| ==> issued[k].uid == uid && issued[k].call == k
  }

  ghost predicate InOrder(us: seq<Update>) {
    forall i, j :: 0 <= i < j < |us| ==> us[i].call < us[j].call
  }

  /** `us` is a subsequence of `issued`: in the same order, each at its own place. */
  ghost predicate SubsequenceOf(us: seq<Update>, issued: seq<Update>) {
    && InOrder(us)
    && (forall i :: 0 <= i < |us| ==> us[i].call < |issued| && issued[us[i].call] == us[i])
  }

  ghost predicate Conserved(l: Ledger) {
    multiset(l.issued) == multiset(l.delivered) + multiset(l.pending) + multiset(l.superseded)
                          + multiset(l.refused) + multiset(l.dropped)
  }

  ghost predicate LedgerInv(l: Ledger, uid: UID) {
    && Numbered(l.issued, uid)
    && SubsequenceOf(l.delivered + l.pending, l.issued)
    && |l.pending| <= 1
    && Conserved(l)
  }

  lemma SubsequenceOfMore(us: seq<Update>, issued: seq<Update>, u: Update)
    requires SubsequenceOf(us, issued) && u.call == |issued|
    ensures SubsequenceOf(us, issued + [u]) && SubsequenceOf(us + [u], issued + [u])
  {}

  lemma SubsequencePrefix(us: seq<Update>, n: nat, issued: seq<Update>)
    requires SubsequenceOf(us, issued) && n <= |us|
    ensures SubsequenceOf(us[..n], issued)
  {}

  lemma CallConserves(a: Ledger, b: Ledger, u: Update)
    requires Conserved(a) && Calls(a, b, u)
    ensures Conserved(b)
  {}

  lemma CallKeepsOrder(a: Ledger, b: Ledger, u: Update)
    requires LedgerInv(a, u.uid) && u.call == |a.issued| && Calls(a, b, u)
    ensures Numbered(b.issued, u.uid) && SubsequenceOf(b.delivered + b.pending, b.issued)
  {
    var line := a.delivered + a.pending;
    SubsequenceOfMore(line, a.issued, u);
    if b.delivered == a.delivered + [u] {
      assert b.delivered + b.pending == line + [u];
    } else if b.pending == a.pending {
      assert b.delivered + b.pending == line;
    } else {
      DeliveredInOrder(a, u.uid);
      SubsequenceOfMore(a.delivered, a.issued, u);
    }
  }

  lemma DeliveredInOrder(l: Ledger, uid: UID)
    requires LedgerInv(l, uid)
    ensures SubsequenceOf(l.delivered, l.issued)
  {
    var line := l.delivered + l.pending;
    assert line[..|l.delivered|] == l.delivered;
    SubsequencePrefix(line, |l.delivered|, l.issued);
  }

  lemma LedgerStepKeepsInv(a: Ledger, b: Ledger, uid: UID, forgotten: bool)
    requires LedgerInv(a, uid) && LedgerStep(a, b, uid, forgotten)
    ensures LedgerInv(b, uid)
  {
    if Forgets(a, b) {
      DeliveredInOrder(a, uid);
      assert b.delivered + b.pending == a.delivered;
    } else if HandsOver(a, b) {
      assert b.delivered + b.pending == a.delivered + a.pending;
    } else if b != a {
      var kind :| Calls(a, b, Update(uid, kind, |a.issued|));
      CallKeepsOrder(a, b, Update(uid, kind, |a.issued|));
      CallConserves(a, b, Update(uid, kind, |a.issued|));
    }
  }

  // ---------- the workers follow the ledger ----------

  lemma {:induction false} InFlightFrame(ws: seq<Worker>, vs: seq<Worker>, uid: UID)
    requires |ws| == |vs|
    requires forall c :: 0 <= c < |ws| ==> ws[c].uid == vs[c].uid && (ws[c].uid == uid ==> Hand(ws[c]) == Hand(vs[c]))
    ensures InFlight(ws, uid) == InFlight(vs, uid)
  {
    if ws != [] {
      InFlightFrame(ws[..|ws| - 1], vs[..|vs| - 1], uid);
    }
  }

  lemma {:induction false} InFlightNone(ws: seq<Worker>, uid: UID)
    requires forall c :: 0 <= c < |ws| && ws[c].uid == uid ==> Hand(ws[c]) == []
    ensures InFlight(ws, uid) == []
  {
    if ws != [] {
      InFlightNone(ws[..|ws| - 1], uid);
    }
  }

  /** With every other worker of the pod empty-handed, what is in flight is what `c` holds. */
  lemma {:induction false} InFlightOne(ws: seq<Worker>, uid: UID, c: nat)
    requires c < |ws| && ws[c].uid == uid
    requires forall d :: 0 <= d < |ws| && d != c && ws[d].uid == uid ==> Hand(ws[d]) == []
    ensures InFlight(ws, uid) == Hand(ws[c])
  {
    var n := |ws| - 1;
    if c == n {
      InFlightNone(ws[..n], uid);
    } else {
      InFlightOne(ws[..n], uid, c);
    }
  }

  lemma HolderAlone(ws: seq<Worker>, uid: UID, c: nat)
    requires OneToken(ws) && c < |ws| && ws[c].uid == uid && Holds(ws[c])
    ensures InFlight(ws, uid) == Hand(ws[c])
  {
    assert HolderOf(ws, uid, c);
    forall d | 0 <= d < |ws| && d != c && ws[d].uid == uid ensures Hand(ws[d]) == [] {
      assert !HolderOf(ws, uid, d);
    }
    InFlightOne(ws, uid, c);
  }

  lemma NobodyHolds(ws: seq<Worker>, uid: UID)
    requires !TokenOut(ws, uid)
    ensures InFlight(ws, uid) == []
  {
    forall d | 0 <= d < |ws| && ws[d].uid == uid ensures Hand(ws[d]) == [] {
      assert !HolderOf(ws, uid, d);
    }
    InFlightNone(ws, uid);
  }

  lemma SendInFlight(ws: seq<Worker>, c: nat, u: Update, v: UID)
    requires c < |ws| && !Holds(ws[c]) && !TokenOut(ws, ws[c].uid)
    ensures InFlight(ws[c := ws[c].(buffer := [u])], v) == if v == ws[c].uid then [u] else InFlight(ws, v)
  {
    var uid, ws' := ws[c].uid, ws[c := ws[c].(buffer := [u])];
    if v == uid {
      forall d | 0 <= d < |ws'| && d != c && ws'[d].uid == uid ensures Hand(ws'[d]) == [] {
        assert !HolderOf(ws, uid, d);
      }
      InFlightOne(ws', uid, c);
    } else {
      InFlightFrame(ws, ws', v);
    }
  }

  /** Sending adds the update at the end of the pod's delivered line, and touches no other pod. */
  lemma SendLedger(s: State, uid: UID, u: Update, v: UID)
    requires ChannelsMatch(s.podUpdates, s.workers) && WorkersOk(s.workers) && s.fault == NoFault
    requires uid in s.podUpdates && !TokenOut(s.workers, uid)
    ensures var a, b := LedgerOf(s, v), LedgerOf(Send(s, Channel(s, uid), u), v);
      b == if v == uid then a.(delivered := a.delivered + [u]) else a
  {
    SendSucceeds(s, uid, u);
    SendInFlight(s.workers, s.podUpdates[uid], u, v);
    NobodyHolds(s.workers, uid);
  }

  lemma PostponeLedger(s: State, u: Update, v: UID)
    ensures var a, b := LedgerOf(s, v), LedgerOf(Postpone(s, u), v);
      if v != u.uid then b == a
      else if HasKill(a.pending) then b == a.(refused := a.refused + [u])
      else b == a.(pending := [u], superseded := a.superseded + a.pending)
  {}

  lemma EnsureWorkerLedger(s: State, uid: UID, v: UID)
    ensures LedgerOf(EnsureWorker(s, uid), v) == LedgerOf(s, v)
  {}

  lemma UpdatePodLedger(s: State, uid: UID, kind: SyncPodType, v: UID)
    requires Inv(s)
    ensures var a, b := LedgerOf(s, v), LedgerOf(UpdatePod(s, uid, kind), v);
      if v == uid then Calls(a, b, NextUpdate(s, uid, kind)) else b == a
  {
    var u := NextUpdate(s, uid, kind);
    var s0 := Issue(s, u);
    var s1 := EnsureWorker(s0, uid);
    EnsureWorkerLedger(s0, uid, v);
    if Working(s1, uid) {
      PostponeLedger(s1, u, v);
    } else {
      IssueKeepsInv(s, u);
      EnsureWorkerKeepsInv(s0, uid);
      SendLedger(s1.(isWorking := s1.isWorking[uid := true]), uid, u, v);
    }
  }

  lemma RemoveWorkerInFlight(s: State, uid: UID, v: UID)
    ensures InFlight(RemoveWorker(s, uid).workers, v) == InFlight(s.workers, v)
  {
    if uid in s.podUpdates && s.podUpdates[uid] < |s.workers| {
      InFlightFrame(s.workers, RemoveWorker(s, uid).workers, v);
    }
  }

  lemma RemoveWorkerLedger(s: State, uid: UID, v: UID)
    requires ChannelsMatch(s.podUpdates, s.workers) && PendingOk(s)
    ensures var a, b := LedgerOf(s, v), LedgerOf(RemoveWorker(s, uid), v);
      if v == uid then Forgets(a, b) else b == a
  {
    RemoveWorkerInFlight(s, uid, v);
  }

  lemma {:induction false} RemoveWorkersLedger(s: State, uids: seq<UID>, v: UID)
    requires Inv(s)
    ensures var a, b := LedgerOf(s, v), LedgerOf(RemoveWorkers(s, uids), v);
      if v in uids then Forgets(a, b) else b == a
  {
    if uids != [] {
      var rest, last := uids[..|uids| - 1], uids[|uids| - 1];
      assert uids == rest + [last];
      RemoveWorkersLedger(s, rest, v);
      RemoveWorkersKeepsInv(s, rest);
      RemoveWorkerLedger(RemoveWorkers(s, rest), last, v);
    }
  }

  /** Moving an update from the buffer to the worker's hand, or starting its sync, changes nothing on the ledger. */
  lemma QuietWorkerStep(s: State, c: nat, w: Worker, v: UID)
    requires c < |s.workers| && w.uid == s.workers[c].uid && Hand(w) == Hand(s.workers[c])
    ensures LedgerOf(s.(workers := s.workers[c := w]), v) == LedgerOf(s, v)
  {
    InFlightFrame(s.workers, s.workers[c := w], v);
  }

  lemma FinishInFlight(ws: seq<Worker>, c: nat, v: UID)
    requires OneToken(ws) && c < |ws| && WorkerOk(ws[c]) && (ws[c].phase.Fetching? || ws[c].phase.Syncing?)
    ensures var u := ws[c].phase.update;
      var was, now := InFlight(ws, v), InFlight(ws[c := ws[c].(phase := WrappingUp(u))], v);
      if v == ws[c].uid then was == [u] && now == [] else now == was
  {
    var u := ws[c].phase.update;
    var ws' := ws[c := ws[c].(phase := WrappingUp(u))];
    if v == ws[c].uid {
      HolderAlone(ws, v, c);
      NoNewToken(ws, c, ws'[c]);
      HolderAlone(ws', v, c);
    } else {
      InFlightFrame(ws, ws', v);
    }
  }

  /** Finishing an update moves it from in flight to processed without leaving its place in the line. */
  lemma FinishLedger(s: State, c: nat, synced: bool, v: UID)
    requires OneToken(s.workers) && c < |s.workers| && WorkerOk(s.workers[c])
    requires s.workers[c].phase.Fetching? || s.workers[c].phase.Syncing?
    ensures var u := s.workers[c].phase.update;
      LedgerOf(Record(SetPhase(s, c, WrappingUp(u)), Processed(u, synced)), v) == LedgerOf(s, v)
  {
    FinishInFlight(s.workers, c, v);
    UpdatesAppend(LogOf(s, v).processed, Processed(s.workers[c].phase.update, synced));
  }

  lemma UpdatesAppend(ps: seq<Processed>, p: Processed)
    ensures Updates(ps + [p]) == Updates(ps) + [p.update]
  {}

  lemma CheckForUpdatesLedger(s: State, c: nat, v: UID)
    requires Inv(s) && c < |s.workers| && s.workers[c].phase.WrappingUp?
    ensures var a, b := LedgerOf(s, v), LedgerOf(CheckForUpdates(SetPhase(s, c, Idle), s.workers[c].uid), v);
      if v == s.workers[c].uid && v in s.lastUndelivered then HandsOver(a, b) else b == a
  {
    var uid := s.workers[c].uid;
    var t := SetPhase(s, c, Idle);
    LettingGo(s, c);
    QuietWorkerStep(s, c, t.workers[c], v);
    if uid in s.lastUndelivered {
      SendLedger(t, uid, s.lastUndelivered[uid], v);
      SendSucceeds(t, uid, s.lastUndelivered[uid]);
    }
  }

  /** Refinement: each step of the concurrent machine is one ledger entry, or none. */
  lemma StepFollowsLedger(s: State, step: Step, v: UID)
    requires Inv(s) && Enabled(s, step)
    ensures LedgerStep(LedgerOf(s, v), LedgerOf(Next(s, step), v), v, ForgetsPod(step, v))
  {
    match step
    case CallUpdatePod(uid, kind) => UpdatePodLedger(s, uid, kind, v);
    case CallForgetWorker(uid) => RemoveWorkerLedger(s, uid, v);
    case CallForgetNonExisting(_, order) => RemoveWorkersLedger(s, order, v);
    case WorkerReceive(c) =>
      assert WorkerOk(s.workers[c]);
      QuietWorkerStep(s, c, Receive(s, c).workers[c], v);
    case WorkerStartSync(c) =>
      QuietWorkerStep(s, c, s.workers[c].(phase := Syncing(s.workers[c].phase.update)), v);
    case WorkerFetchFails(c) => FinishLedger(s, c, false, v);
    case WorkerSyncReturns(c) => FinishLedger(s, c, true, v);
    case WorkerCheckForUpdates(c) =>
      assert WorkerOk(s.workers[c]);
      CheckForUpdatesLedger(s, c, v);
    case WorkerExit(c) => QuietWorkerStep(s, c, s.workers[c].(phase := Exited), v);
  }

  lemma {:induction false} RunKeepsLedgerInv(s: State, run: seq<Step>, t: State, v: UID)
    requires Inv(s) && LedgerInv(LedgerOf(s, v), v) && Reaches(s, run, t)
    ensures LedgerInv(LedgerOf(t, v), v)
    decreases |run|
  {
    if run != [] {
      var s' := Next(s, run[0]);
      StepKeepsInv(s, run[0]);
      StepFollowsLedger(s, run[0], v);
      LedgerStepKeepsInv(LedgerOf(s, v), LedgerOf(s', v), v, ForgetsPod(run[0], v));
      RunKeepsLedgerInv(s', run[1..], t, v);
    }
  }

  // ---------- the results ----------

  /**
   In every run: no send blocks, meets a closed channel or a missing one; `isWorking` is up exactly when
   the pod has a token, never two; and so `syncPodFn` never runs twice at once for one pod.
   */
  lemma AtMostOneSync(run: seq<Step>, t: State, uid: UID, c: nat, d: nat)
    requires Reaches(INIT, run, t)
    ensures t.fault == NoFault
    ensures Working(t, uid) <==> TokenOut(t.workers, uid)
    ensures HolderOf(t.workers, uid, c) && HolderOf(t.workers, uid, d) ==> c == d
    ensures c < |t.workers| && d < |t.workers| && c != d && t.workers[c].uid == t.workers[d].uid ==>
              !(t.workers[c].phase.Syncing? && t.workers[d].phase.Syncing?)
  {
    RunKeepsInv(INIT, run, t);
    if c < |t.workers| && d < |t.workers| && t.workers[c].phase.Syncing? && t.workers[d].phase.Syncing?
       && t.workers[c].uid == t.workers[d].uid {
      assert HolderOf(t.workers, t.workers[c].uid, c) && HolderOf(t.workers, t.workers[c].uid, d);
    }
  }

  lemma SubsequenceAppend(us: seq<Update>, u: Update, issued: seq<Update>)
    requires SubsequenceOf(us, issued) && u.call < |issued| && issued[u.call] == u
    requires us != [] ==> us[|us| - 1].call < u.call
    ensures SubsequenceOf(us + [u], issued)
  {}

  lemma {:induction false} ChosenAreUpdates(ps: seq<Processed>, synced: bool, issued: seq<Update>)
    requires SubsequenceOf(Updates(ps), issued)
    ensures var us := Chosen(ps, synced);
      SubsequenceOf(us, issued) && (us != [] ==> ps != [] && us[|us| - 1].call <= ps[|ps| - 1].update.call)
  {
    if ps != [] {
      var n := |ps| - 1;
      var front, us := ps[..n], Updates(ps);
      assert us[n] == ps[n].update && (n > 0 ==> us[n - 1] == front[n - 1].update);
      assert Updates(front) == us[..n];
      SubsequencePrefix(us, n, issued);
      ChosenAreUpdates(front, synced, issued);
      if ps[n].synced == synced {
        SubsequenceAppend(Chosen(front, synced), ps[n].update, issued);
      }
    }
  }

  lemma {:induction false} ChosenSplit(ps: seq<Processed>)
    ensures multiset(Updates(ps)) == multiset(Chosen(ps, true)) + multiset(Chosen(ps, false))
  {
    if ps != [] {
      var n := |ps| - 1;
      ChosenSplit(ps[..n]);
      assert Updates(ps) == Updates(ps[..n]) + [ps[n].update];
    }
  }

  lemma EmptyLedger(v: UID)
    ensures LedgerInv(LedgerOf(INIT, v), v)
  {}

  /** Across every generation of worker, the pod's syncs are an in-order subsequence of the calls made for it. */
  lemma SyncsAreInOrder(run: seq<Step>, t: State, uid: UID)
    requires Reaches(INIT, run, t)
    ensures Numbered(LogOf(t, uid).issued, uid)
    ensures SubsequenceOf(Synced(t, uid), LogOf(t, uid).issued)
  {
    EmptyLedger(uid);
    RunKeepsLedgerInv(INIT, run, t, uid);
    DeliveredInOrder(LedgerOf(t, uid), uid);
    var l := LogOf(t, uid);
    var line, n := LedgerOf(t, uid).delivered, |l.processed|;
    assert line[..n] == Updates(l.processed);
    SubsequencePrefix(line, n, l.issued);
    ChosenAreUpdates(l.processed, true, l.issued);
  }

  lemma {:induction false} NumberedOnce(issued: seq<Update>, uid: UID, k: nat)
    requires Numbered(issued, uid) && k < |issued|
    ensures multiset(issued)[issued[k]] == 1
  {
    var n := |issued| - 1;
    var front := issued[..n];
    assert issued == front + [issued[n]];
    if k == n {
      assert issued[n] !in front;
    } else {
      NumberedOnce(front, uid, k);
    }
  }

  /** The update whose turn at the pod's worker ends with the step, after a sync or for want of a pod status. */
  ghost function EndedBy(s: State, step: Step, uid: UID, synced: bool): seq<Update>
    requires Enabled(s, step)
  {
    match step
    case WorkerSyncReturns(c) => if synced && s.workers[c].uid == uid then [s.workers[c].phase.update] else []
    case WorkerFetchFails(c) => if !synced && s.workers[c].uid == uid then [s.workers[c].phase.update] else []
    case _ => []
  }

  function Turns(s: State, uid: UID, synced: bool): seq<Update> {
    if synced then Synced(s, uid) else FetchFailed(s, uid)
  }

  ghost function Ended(s: State, run: seq<Step>, t: State, uid: UID, synced: bool): seq<Update>
    requires Reaches(s, run, t)
    decreases |run|
  {
    if run == [] then []
    else EndedBy(s, run[0], uid, synced) + Ended(Next(s, run[0]), run[1..], t, uid, synced)
  }

  lemma RecordChosen(s: State, p: Processed, uid: UID, synced: bool)
    ensures Chosen(LogOf(Record(s, p), uid).processed, synced) ==
            Chosen(LogOf(s, uid).processed, synced)
            + if p.update.uid == uid && p.synced == synced then [p.update] else []
  {
    var ps := LogOf(s, uid).processed;
    assert (ps + [p])[..|ps|] == ps;
  }

  lemma StepProcesses(s: State, step: Step, uid: UID)
    requires Inv(s) && Enabled(s, step) && !step.WorkerSyncReturns? && !step.WorkerFetchFails?
    ensures LogOf(Next(s, step), uid).processed == LogOf(s, uid).processed
  {
    match step
    case CallUpdatePod(v, kind) => UpdatePodProcesses(s, v, kind, uid);
    case CallForgetWorker(v) =>
    case CallForgetNonExisting(_, order) => RemoveWorkersProcesses(s, order, uid);
    case WorkerReceive(c) =>
    case WorkerStartSync(c) =>
    case WorkerCheckForUpdates(c) => SendProcesses(SetPhase(s, c, Idle), s.workers[c].phase.update.uid, uid);
    case WorkerExit(c) =>
  }

  lemma UpdatePodProcesses(s: State, v: UID, kind: SyncPodType, uid: UID)
    ensures LogOf(UpdatePod(s, v, kind), uid).processed == LogOf(s, uid).processed
  {
    var u := NextUpdate(s, v, kind);
    var s1 := EnsureWorker(Issue(s, u), v);
    assert LogOf(s1, uid).processed == LogOf(s, uid).processed;
    assert LogOf(Postpone(s1, u), uid).processed == LogOf(s1, uid).processed;
  }

  lemma SendProcesses(s: State, v: UID, uid: UID)
    ensures LogOf(CheckForUpdates(s, v), uid).processed == LogOf(s, uid).processed
  {}

  lemma {:induction false} RemoveWorkersProcesses(s: State, uids: seq<UID>, uid: UID)
    ensures LogOf(RemoveWorkers(s, uids), uid).processed == LogOf(s, uid).processed
  {
    if uids != [] {
      RemoveWorkersProcesses(s, uids[..|uids| - 1], uid);
    }
  }

  lemma StepEnds(s: State, step: Step, uid: UID, synced: bool)
    requires Inv(s) && Enabled(s, step)
    ensures Turns(Next(s, step), uid, synced) == Turns(s, uid, synced) + EndedBy(s, step, uid, synced)
  {
    if step.WorkerSyncReturns? || step.WorkerFetchFails? {
      var u := s.workers[step.worker].phase.update;
      assert WorkerOk(s.workers[step.worker]);
      RecordChosen(SetPhase(s, step.worker, WrappingUp(u)), Processed(u, step.WorkerSyncReturns?), uid, synced);
    } else {
      StepProcesses(s, step, uid);
    }
  }

  /** Synced are exactly the updates whose sync returned, and given up those the pod cache failed for, in that order. */
  lemma {:induction false} ProcessedAreEnded(s: State, run: seq<Step>, t: State, uid: UID, synced: bool)
    requires Inv(s) && Reaches(s, run, t)
    ensures Turns(t, uid, synced) == Turns(s, uid, synced) + Ended(s, run, t, uid, synced)
    decreases |run|
  {
    if run != [] {
      StepKeepsInv(s, run[0]);
      StepEnds(s, run[0], uid, synced);
      var s' := Next(s, run[0]);
      ProcessedAreEnded(s', run[1..], t, uid, synced);
      Appended(Turns(s, uid, synced), EndedBy(s, run[0], uid, synced), Turns(s', uid, synced),
               Ended(s', run[1..], t, uid, synced), Turns(t, uid, synced));
    }
  }

  lemma Appended(a: seq<Update>, b: seq<Update>, ab: seq<Update>, c: seq<Update>, abc: seq<Update>)
    requires ab == a + b && abc == ab + c
    ensures abc == a + (b + c)
  {}

  /** Conservation: every call is in exactly one of seven places. */
  lemma EveryCallHasOneFate(run: seq<Step>, t: State, uid: UID, k: nat)
    requires Reaches(INIT, run, t) && k < |LogOf(t, uid).issued|
    ensures var l := LogOf(t, uid);
      var u := l.issued[k];
      multiset(Synced(t, uid))[u] + multiset(FetchFailed(t, uid))[u] + multiset(InFlight(t.workers, uid))[u]
      + multiset(Pending(t, uid))[u] + multiset(l.superseded)[u] + multiset(l.refused)[u] + multiset(l.dropped)[u] == 1
  {
    EmptyLedger(uid);
    RunKeepsLedgerInv(INIT, run, t, uid);
    ChosenSplit(LogOf(t, uid).processed);
    NumberedOnce(LogOf(t, uid).issued, uid, k);
  }

  /** What was delivered, refused or dropped stays so. */
  ghost predicate Grows(a: Ledger, b: Ledger) {
    a.delivered <= b.delivered && a.refused <= b.refused && a.dropped <= b.dropped && a.issued <= b.issued
  }

  lemma LedgerGrows(a: Ledger, b: Ledger, uid: UID, forgotten: bool)
    requires LedgerStep(a, b, uid, forgotten)
    ensures Grows(a, b)
  {}

  lemma {:induction false} RunGrows(s: State, run: seq<Step>, t: State, uid: UID)
    requires Inv(s) && Reaches(s, run, t)
    ensures Grows(LedgerOf(s, uid), LedgerOf(t, uid))
    decreases |run|
  {
    if run != [] {
      var s' := Next(s, run[0]);
      StepKeepsInv(s, run[0]);
      StepFollowsLedger(s, run[0], uid);
      LedgerGrows(LedgerOf(s, uid), LedgerOf(s', uid), uid, ForgetsPod(run[0], uid));
      RunGrows(s', run[1..], t, uid);
    }
  }

  lemma LedgerKeepsKill(a: Ledger, b: Ledger, uid: UID, k: Update)
    requires a.pending == [k] && k.kind == SyncPodKill && LedgerStep(a, b, uid, false)
    ensures || (b.pending == [k] && b.delivered == a.delivered)
            || (b.pending == [] && b.delivered == a.delivered + [k])
  {}

  /**
   While nobody forgets the pod, a pending kill either still waits and nothing else was delivered, or it
   was the very next update delivered after those delivered before it.
   */
  lemma PendingKillIsNext(before: seq<Step>, s: State, run: seq<Step>, t: State, uid: UID)
    requires Reaches(INIT, before, s) && Reaches(s, run, t) && KillPending(s, uid)
    requires forall i :: 0 <= i < |run| ==> !ForgetsPod(run[i], uid)
    ensures var k, a, b := s.lastUndelivered[uid], LedgerOf(s, uid), LedgerOf(t, uid);
      || (b.pending == [k] && b.delivered == a.delivered)
      || a.delivered + [k] <= b.delivered
  {
    RunKeepsInv(INIT, before, s);
    PendingKillWaits(s, run, t, uid);
  }

  lemma {:induction false} PendingKillWaits(s: State, run: seq<Step>, t: State, uid: UID)
    requires Inv(s) && Reaches(s, run, t) && KillPending(s, uid)
    requires forall i :: 0 <= i < |run| ==> !ForgetsPod(run[i], uid)
    ensures var k, a, b := s.lastUndelivered[uid], LedgerOf(s, uid), LedgerOf(t, uid);
      || (b.pending == [k] && b.delivered == a.delivered)
      || a.delivered + [k] <= b.delivered
    decreases |run|
  {
    if run != [] {
      assert !ForgetsPod(run[0], uid);
      var s' := Next(s, run[0]);
      StepKeepsInv(s, run[0]);
      StepFollowsLedger(s, run[0], uid);
      var k := s.lastUndelivered[uid];
      LedgerKeepsKill(LedgerOf(s, uid), LedgerOf(s', uid), uid, k);
      if Pending(s', uid) == [k] {
        forall i | 0 <= i < |run[1..]| ensures !ForgetsPod(run[1..][i], uid) {
          assert run[1..][i] == run[i + 1];
        }
        PendingKillWaits(s', run[1..], t, uid);
      } else {
        RunGrows(s', run[1..], t, uid);
      }
    }
  }

  // ---------- the fate of a kill request ----------

  /** The state before step `i` of the run. */
  ghost function StateAt(s: State, run: seq<Step>, t: State, i: nat): State
    requires Reaches(s, run, t) && i <= |run|
    decreases |run|
  {
    if i == 0 then s else StateAt(Next(s, run[0]), run[1..], t, i - 1)
  }

  /** Step `i` forgets the pod while `k` is its pending update. */
  ghost predicate ForgottenAt(s: State, run: seq<Step>, t: State, uid: UID, k: Update, i: nat)
    requires Reaches(s, run, t)
  {
    i < |run| && ForgetsPod(run[i], uid) && Pending(StateAt(s, run, t, i), uid) == [k]
  }

  ghost predicate Forgotten(s: State, run: seq<Step>, t: State, uid: UID, k: Update)
    requires Reaches(s, run, t)
  {
    exists i: nat :: ForgottenAt(s, run, t, uid, k, i)
  }

  lemma ForgottenNowOrLater(s: State, run: seq<Step>, t: State, uid: UID, k: Update)
    requires Reaches(s, run, t) && run != []
    ensures Forgotten(s, run, t, uid, k) <==>
            || (ForgetsPod(run[0], uid) && Pending(s, uid) == [k])
            || Forgotten(Next(s, run[0]), run[1..], t, uid, k)
  {
    var s' := Next(s, run[0]);
    assert ForgottenAt(s, run, t, uid, k, 0) <==> ForgetsPod(run[0], uid) && Pending(s, uid) == [k];
    forall i: nat ensures ForgottenAt(s, run, t, uid, k, i + 1) <==> ForgottenAt(s', run[1..], t, uid, k, i) {}
    if Forgotten(s, run, t, uid, k) {
      var i: nat :| ForgottenAt(s, run, t, uid, k, i);
      if i > 0 {
        assert ForgottenAt(s', run[1..], t, uid, k, i - 1);
      }
    }
    if Forgotten(s', run[1..], t, uid, k) {
      var i: nat :| ForgottenAt(s', run[1..], t, uid, k, i);
      assert ForgottenAt(s, run, t, uid, k, i + 1);
    }
  }

  /** An update on the ledger is in one place only. */
  lemma OnePlace(l: Ledger, uid: UID, k: Update)
    requires LedgerInv(l, uid) && k in l.issued
    ensures multiset(l.delivered)[k] + multiset(l.pending)[k] + multiset(l.superseded)[k]
            + multiset(l.refused)[k] + multiset(l.dropped)[k] == 1
  {
    var i :| 0 <= i < |l.issued| && l.issued[i] == k;
    NumberedOnce(l.issued, uid, i);
  }

  /** The update has been delivered or is the pending one. */
  ghost predicate Accepted(l: Ledger, uid: UID, k: Update) {
    LedgerInv(l, uid) && k in l.issued && (k in l.delivered || l.pending == [k])
  }

  lemma AcceptedKillStep(a: Ledger, b: Ledger, uid: UID, forgotten: bool, k: Update)
    requires Accepted(a, uid, k) && k.kind == SyncPodKill && LedgerStep(a, b, uid, forgotten)
    ensures if forgotten && a.pending == [k] then k in b.dropped else Accepted(b, uid, k)
  {
    LedgerStepKeepsInv(a, b, uid, forgotten);
    LedgerGrows(a, b, uid, forgotten);
    if a.pending == [k] && !forgotten {
      LedgerKeepsKill(a, b, uid, k);
    }
  }

  /**
   An accepted kill is dropped if the pod is forgotten while it is pending, and otherwise stays delivered or pending.
   */
  lemma {:induction false} AcceptedKillFate(s: State, run: seq<Step>, t: State, uid: UID, k: Update)
    requires Inv(s) && Accepted(LedgerOf(s, uid), uid, k) && k.kind == SyncPodKill && Reaches(s, run, t)
    ensures if Forgotten(s, run, t, uid, k) then k in LedgerOf(t, uid).dropped else Accepted(LedgerOf(t, uid), uid, k)
    decreases |run|
  {
    if run == [] {
      assert forall i: nat :: !ForgottenAt(s, run, t, uid, k, i);
    } else {
      var s', forgotten := Next(s, run[0]), ForgetsPod(run[0], uid);
      StepKeepsInv(s, run[0]);
      StepFollowsLedger(s, run[0], uid);
      AcceptedKillStep(LedgerOf(s, uid), LedgerOf(s', uid), uid, forgotten, k);
      ForgottenNowOrLater(s, run, t, uid, k);
      if forgotten && Pending(s, uid) == [k] {
        RunGrows(s', run[1..], t, uid);
      } else {
        AcceptedKillFate(s', run[1..], t, uid, k);
      }
    }
  }

  /** At the call: a kill is refused if another kill is pending for the pod, and otherwise accepted. */
  lemma KillCall(before: seq<Step>, s: State, uid: UID)
    requires Reaches(INIT, before, s)
    ensures var k, s1 := NextUpdate(s, uid, SyncPodKill), UpdatePod(s, uid, SyncPodKill);
      var b := LedgerOf(s1, uid);
      && Inv(s1) && LedgerInv(b, uid) && k in b.issued
      && if KillPending(s, uid) then k in b.refused else Accepted(b, uid, k)
  {
    EmptyLedger(uid);
    RunKeepsInv(INIT, before, s);
    RunKeepsLedgerInv(INIT, before, s, uid);
    UpdatePodKeepsInv(s, uid, SyncPodKill);
    UpdatePodLedger(s, uid, SyncPodKill, uid);
    LedgerStepKeepsInv(LedgerOf(s, uid), LedgerOf(UpdatePod(s, uid, SyncPodKill), uid), uid, false);
  }

  /**
   When the documented promise fails that a kill request "is always delivered". Whatever happens after the call,
   the kill is lost exactly when another kill was pending at the call, or some later step forgot the pod while this
   kill was its pending update; in every other case it is delivered or still pending.
   */
  lemma KillLostIff(before: seq<Step>, s: State, run: seq<Step>, t: State, uid: UID)
    requires Reaches(INIT, before, s) && Reaches(UpdatePod(s, uid, SyncPodKill), run, t)
    ensures var k, l := NextUpdate(s, uid, SyncPodKill), LedgerOf(t, uid);
      var lost := KillPending(s, uid) || Forgotten(UpdatePod(s, uid, SyncPodKill), run, t, uid, k);
      && (k in l.refused + l.dropped <==> lost)
      && (k in l.delivered + l.pending <==> !lost)
  {
    var s1, k := UpdatePod(s, uid, SyncPodKill), NextUpdate(s, uid, SyncPodKill);
    KillCall(before, s, uid);
    RunKeepsLedgerInv(s1, run, t, uid);
    RunGrows(s1, run, t, uid);
    if !KillPending(s, uid) {
      AcceptedKillFate(s1, run, t, uid, k);
    }
    KillInOnePlace(LedgerOf(t, uid), uid, k);
  }

  lemma KillInOnePlace(l: Ledger, uid: UID, k: Update)
    requires LedgerInv(l, uid) && k in l.issued
    ensures k in l.delivered + l.pending ==> k !in l.refused + l.dropped
  {
    OnePlace(l, uid, k);
    assert k in l.delivered <==> k in multiset(l.delivered);
    assert k in l.pending <==> k in multiset(l.pending);
    assert k in l.refused <==> k in multiset(l.refused);
    assert k in l.dropped <==> k in multiset(l.dropped);
  }

  ghost predicate CanStep(s: State, c: nat) {
    || Enabled(s, WorkerReceive(c))
    || Enabled(s, WorkerStartSync(c))
    || Enabled(s, WorkerSyncReturns(c))
    || Enabled(s, WorkerCheckForUpdates(c))
  }

  /** Whoever holds a token can always take its next step, so no pod is left marked as working with nobody working. */
  lemma WorkingPodCanStep(run: seq<Step>, s: State, uid: UID)
    requires Reaches(INIT, run, s) && Working(s, uid)
    ensures exists c: nat :: HolderOf(s.workers, uid, c) && CanStep(s, c)
  {
    RunKeepsInv(INIT, run, s);
    var c: nat :| HolderOf(s.workers, uid, c);
    assert WorkerOk(s.workers[c]);
    assert CanStep(s, c);
  }

  /** A run that loses an accepted kill: the pod is forgotten while the kill waits behind a sync. */
  lemma ForgettingLosesAKill(uid: UID)
    ensures var run := [CallUpdatePod(uid, SyncPodSync), CallUpdatePod(uid, SyncPodKill), CallForgetWorker(uid)];
      exists t :: Reaches(INIT, run, t) && LogOf(t, uid).dropped == [Update(uid, SyncPodKill, 1)]
  {
    var s1 := UpdatePod(INIT, uid, SyncPodSync);
    var s2 := UpdatePod(s1, uid, SyncPodKill);
    var s3 := RemoveWorker(s2, uid);
    var run := [CallUpdatePod(uid, SyncPodSync), CallUpdatePod(uid, SyncPodKill), CallForgetWorker(uid)];
    assert run[1..][1..][1..] == [];
    assert Reaches(s3, run[1..][1..][1..], s3);
    assert Reaches(s2, run[1..][1..], s3);
    assert Reaches(s1, run[1..], s3);
    assert Reaches(INIT, run, s3);
  }
}
