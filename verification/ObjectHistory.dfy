/**
 Histories of the API objects that kube-proxy's Service and Endpoints trackers watch, and what they mean for the
 shared bookkeeping: after every sync the table is the union of the tables of the objects that exist.
 */
module ObjectHistory {
  import opened Common
  import opened Patching
  import CT = ChangeTracking

  /** What a tracker reads off an object: its name, the table it maps to, and its trigger time. */
  datatype Kind<!O, T> = Kind(name: O -> NamespacedName, snapshot: O -> CT.Snapshot<T>, time: O -> Option<int>)

  datatype Event<O> = Update(previous: Option<O>, current: Option<O>) | Checkout | TakeTimes

  datatype History<O> = Start | Then(before: History<O>, event: Event<O>)

  ghost predicate OwnKind<O(!new), T(!new)>(kind: Kind<O, T>) {
    forall o: O :: OwnPorts(CT.TableOf(kind.snapshot(o)), kind.name(o))
  }

  function SnapshotOf<O, T>(kind: Kind<O, T>, o: Option<O>): CT.Snapshot<T> {
    if o.None? then None else kind.snapshot(o.value)
  }

  predicate Names<O>(e: Event<O>) { e.Update? && (e.current.Some? || e.previous.Some?) }

  /** The object an update is about. */
  function NameOf<O, T>(kind: Kind<O, T>, e: Event<O>): NamespacedName
    requires Names(e)
  {
    kind.name(if e.current.Some? then e.current.value else e.previous.value)
  }

  /** The version of the object last passed as current, if it exists. */
  function Latest<O, T>(kind: Kind<O, T>, h: History<O>, n: NamespacedName): Option<O> {
    match h
    case Start => None
    case Then(before, e) => if Names(e) && NameOf(kind, e) == n then e.current else Latest(kind, before, n)
  }

  /** What the informers guarantee: every update starts from the version last seen of the same object. */
  ghost predicate Chained<O, T>(kind: Kind<O, T>, h: History<O>) {
    match h
    case Start => true
    case Then(before, e) =>
      Chained(kind, before) && (Names(e) ==> e.previous == Latest(kind, before, NameOf(kind, e)))
  }

  /** The history as the bookkeeping sees it; an update without objects is ignored. */
  function Tracked<O, T>(kind: Kind<O, T>, h: History<O>): CT.History<T> {
    match h
    case Start => CT.Start
    case Then(before, e) =>
      match e
      case Checkout => CT.Then(Tracked(kind, before), CT.Checkout)
      case TakeTimes => CT.Then(Tracked(kind, before), CT.TakeTimes)
      case Update(previous, current) =>
        if !Names(e) then Tracked(kind, before)
        else
          CT.Then(Tracked(kind, before),
                  CT.Update(NameOf(kind, e), SnapshotOf(kind, previous), SnapshotOf(kind, current),
                            if current.Some? then kind.time(current.value) else None))
  }

  lemma {:induction false} TrackedLatest<O, T>(kind: Kind<O, T>, h: History<O>, n: NamespacedName)
    requires Chained(kind, h)
    ensures CT.Latest(Tracked(kind, h), n) == SnapshotOf(kind, Latest(kind, h, n))
    ensures Latest(kind, h, n).Some? ==> kind.name(Latest(kind, h, n).value) == n
  {
    if h.Then? {
      TrackedLatest(kind, h.before, n);
    }
  }

  lemma {:induction false} TrackedChained<O(!new), T(!new)>(kind: Kind<O, T>, h: History<O>)
    requires Chained(kind, h) && OwnKind(kind)
    ensures CT.Chained(Tracked(kind, h))
  {
    if h.Then? {
      TrackedChained(kind, h.before);
      if Names(h.event) {
        TrackedLatest(kind, h.before, NameOf(kind, h.event));
      }
    }
  }

  /** After every checkout the table is the union of the tables of the objects that exist. */
  lemma TableMatchesObjects<O(!new), T(!new)>(kind: Kind<O, T>, h: History<O>, t: CT.State<T>, p: ServicePortName)
    requires Chained(kind, h) && OwnKind(kind) && CT.Reaches(CT.Then(Tracked(kind, h), CT.Checkout), t)
    ensures var own := CT.TableOf(SnapshotOf(kind, Latest(kind, h, p.service)));
      (p in t.table <==> p in own) && (p in t.table ==> t.table[p] == own[p])
  {
    TrackedChained(kind, h);
    TrackedLatest(kind, h, p.service);
    CT.SyncMatchesLatest(Tracked(kind, h), t, p);
  }
}
