/**
 The bookkeeping that kube-proxy's service tracker and its Endpoints-mode tracker share: one pending change
 per object, from the state last applied to the state last seen, dropped when the two are equal again.
 `T` is what a service port maps to.
 */
module ChangeTracking {
  import opened Common
  import opened Patching

  /**
   What an object maps to: nothing at all (a nil map), or a table, perhaps empty. The tracker's DeepEqual tells the
   two apart.
   */
  type Snapshot<T> = Option<Table<T>>

  function TableOf<T>(s: Snapshot<T>): Table<T> { if s.Some? then s.value else map[] }

  datatype Delta<T> = Delta(previous: Snapshot<T>, current: Snapshot<T>)

  function ChangeOf<T>(d: Delta<T>): Change<T> { Change(TableOf(d.previous), TableOf(d.current)) }

  type Items<T> = map<NamespacedName, Delta<T>>

  function Changes<T>(items: Items<T>): map<NamespacedName, Change<T>> { map n | n in items :: ChangeOf(items[n]) }

  type Times = map<NamespacedName, seq<int>>

  function TimesOf(times: Times, name: NamespacedName): seq<int> { if name in times then times[name] else [] }

  /** The change kept once the object has gone from `previous` to `current`. */
  function Collapsed<T>(items: Items<T>, name: NamespacedName, previous: Snapshot<T>, current: Snapshot<T>): Delta<T> {
    Delta(if name in items then items[name].previous else previous, current)
  }

  function Record<T(==)>(items: Items<T>, name: NamespacedName, previous: Snapshot<T>, current: Snapshot<T>): Items<T> {
    var d := Collapsed(items, name, previous, current);
    if d.previous == d.current then items - {name} else items[name := d]
  }

  ghost predicate OwnItems<T>(items: Items<T>) {
    forall n :: n in items ==> OwnChange(ChangeOf(items[n]), n)
  }

  lemma ChangesOwn<T>(items: Items<T>)
    requires OwnItems(items)
    ensures forall n :: n in Changes(items) ==> OwnChange(Changes(items)[n], n)
  {}

  lemma RecordOwns<T>(items: Items<T>, name: NamespacedName, previous: Snapshot<T>, current: Snapshot<T>)
    requires OwnItems(items) && OwnPorts(TableOf(previous), name) && OwnPorts(TableOf(current), name)
    ensures OwnItems(Record(items, name, previous, current))
  {}

  /** The trigger times kept: cleared when the updates cancelled out. */
  function RecordTime<T(==)>(items: Items<T>, times: Times, name: NamespacedName,
                             previous: Snapshot<T>, current: Snapshot<T>, time: Option<int>): Times {
    var d := Collapsed(items, name, previous, current);
    if d.previous == d.current then times - {name}
    else if time.Some? then times[name := TimesOf(times, name) + [time.value]]
    else times
  }

  // ---------- histories ----------

  /** A sync is a Checkout, which applies all the changes, and later TakeTimes; updates can fall in between. */
  datatype Event<T> =
    | Update(name: NamespacedName, previous: Snapshot<T>, current: Snapshot<T>, time: Option<int>)
    | Checkout
    | TakeTimes

  datatype History<T> = Start | Then(before: History<T>, event: Event<T>)

  datatype State<T> = State(items: Items<T>, times: Times, table: Table<T>)

  ghost predicate Step<T(!new)>(s: State<T>, e: Event<T>, t: State<T>) {
    match e
    case Update(name, previous, current, time) =>
      t == s.(items := Record(s.items, name, previous, current),
              times := RecordTime(s.items, s.times, name, previous, current, time))
    case Checkout => t.items == map[] && t.times == s.times && Patched(s.table, Changes(s.items), t.table)
    case TakeTimes => t == s.(times := map[])
  }

  ghost predicate Reaches<T(!new)>(h: History<T>, t: State<T>) {
    match h
    case Start => t == State(map[], map[], map[])
    case Then(before, e) => exists s :: Reaches(before, s) && Step(s, e, t)
  }

  /** The state of an object last seen, and the one last synced. */
  function Latest<T>(h: History<T>, name: NamespacedName): Snapshot<T> {
    match h
    case Start => None
    case Then(before, e) => if e.Update? && e.name == name then e.current else Latest(before, name)
  }

  function Applied<T>(h: History<T>, name: NamespacedName): Snapshot<T> {
    match h
    case Start => None
    case Then(before, e) => if e.Checkout? then Latest(before, name) else Applied(before, name)
  }

  /**
   The trigger times due: those seen since times were last taken, or since the object was last back at its applied
   state.
   */
  function Due<T(==)>(h: History<T>, name: NamespacedName): seq<int> {
    match h
    case Start => []
    case Then(before, Checkout) => Due(before, name)
    case Then(before, TakeTimes) => []
    case Then(before, Update(n, _, current, time)) =>
      if n != name then Due(before, name)
      else if current == Applied(before, name) then []
      else Due(before, name) + if time.Some? then [time.value] else []
  }

  /** A sync has applied its changes and not yet taken its times. */
  predicate Midway<T>(h: History<T>) {
    match h
    case Start => false
    case Then(before, Checkout) => true
    case Then(before, TakeTimes) => false
    case Then(before, Update(_, _, _, _)) => Midway(before)
  }

  /**
   What the informers guarantee: each update starts from the state last seen, and an object has ports of its own
   only.
   */
  ghost predicate Chained<T(!new)>(h: History<T>) {
    match h
    case Start => true
    case Then(before, e) =>
      Chained(before) && (e.Update? ==> e.previous == Latest(before, e.name) && OwnPorts(TableOf(e.current), e.name))
  }

  lemma {:induction false} LatestOwnsPorts<T(!new)>(h: History<T>, name: NamespacedName)
    requires Chained(h)
    ensures OwnPorts(TableOf(Latest(h, name)), name) && OwnPorts(TableOf(Applied(h, name)), name)
  {
    if h.Then? {
      LatestOwnsPorts(h.before, name);
    }
  }

  /**
   A pending item is exactly the whole sequence of updates since the last sync, and there is none when they cancel
   out.
   */
  ghost predicate ItemExact<T>(s: State<T>, h: History<T>, name: NamespacedName) {
    if Applied(h, name) == Latest(h, name) then name !in s.items
    else name in s.items && s.items[name] == Delta(Applied(h, name), Latest(h, name))
  }

  ghost predicate NameInv<T>(s: State<T>, h: History<T>, name: NamespacedName) {
    && ItemExact(s, h, name)
    && Restrict(s.table, name) == TableOf(Applied(h, name))
    && TimesOf(s.times, name) == Due(h, name)
    && (name in s.times ==> name in s.items || Midway(h))
  }

  lemma CheckoutKeepsInv<T(!new)>(s: State<T>, before: History<T>, t: State<T>, name: NamespacedName)
    requires Chained(before) && NameInv(s, before, name) && Step(s, Checkout, t)
    ensures NameInv(t, Then(before, Checkout), name)
  {
    LatestOwnsPorts(before, name);
    var m := Changes(s.items);
    assert Restrict(t.table, name) == Restrict(if name in m then Patch(s.table, m[name]) else s.table, name);
    if name in s.items {
      PatchReplaces(s.table, ChangeOf(s.items[name]), name);
    }
  }

  lemma UpdateKeepsInv<T(!new)>(s: State<T>, before: History<T>, e: Event<T>, t: State<T>, name: NamespacedName)
    requires e.Update? && e.previous == Latest(before, e.name) && NameInv(s, before, name) && Step(s, e, t)
    requires NameInv(s, before, e.name)
    ensures NameInv(t, Then(before, e), name)
  {
    var d := Collapsed(s.items, e.name, e.previous, e.current);
    assert d == Delta(Applied(before, e.name), e.current);
    if e.name != name {
      assert name in t.items <==> name in s.items;
      assert TimesOf(t.times, name) == TimesOf(s.times, name);
    }
  }

  lemma {:induction false} HistoryKeepsInv<T(!new)>(h: History<T>, t: State<T>, name: NamespacedName)
    requires Reaches(h, t) && Chained(h)
    ensures NameInv(t, h, name)
  {
    match h
    case Start => assert Restrict(t.table, name) == map[];
    case Then(before, e) =>
      var s :| Reaches(before, s) && Step(s, e, t);
      HistoryKeepsInv(before, s, name);
      match e {
        case Checkout => CheckoutKeepsInv(s, before, t, name);
        case TakeTimes =>
        case Update(_, _, _, _) =>
          HistoryKeepsInv(before, s, e.name);
          UpdateKeepsInv(s, before, e, t, name);
      }
  }

  /** Every history can happen. */
  lemma {:induction false} HistoryRuns<T(!new)>(h: History<T>) returns (t: State<T>)
    ensures Reaches(h, t)
  {
    match h
    case Start => t := State(map[], map[], map[]);
    case Then(before, e) =>
      var s := HistoryRuns(before);
      match e {
        case Checkout =>
          SplicedIsPatched(s.table, Changes(s.items));
          t := State(map[], s.times, Spliced(s.table, Changes(s.items)));
        case TakeTimes => t := s.(times := map[]);
        case Update(name, previous, current, time) =>
          t := s.(items := Record(s.items, name, previous, current),
                  times := RecordTime(s.items, s.times, name, previous, current, time));
      }
      assert Step(s, e, t);
  }

  // ---------- the results ----------

  /** After a checkout the table holds, for every object, exactly its latest state. */
  lemma SyncMatchesLatest<T(!new)>(before: History<T>, t: State<T>, p: ServicePortName)
    requires Reaches(Then(before, Checkout), t) && Chained(before)
    ensures var own := TableOf(Latest(before, p.service));
      (p in t.table <==> p in own) && (p in t.table ==> t.table[p] == own[p])
  {
    HistoryKeepsInv(Then(before, Checkout), t, p.service);
    var own := Restrict(t.table, p.service);
    assert p in own <==> p in t.table;
  }

  /** The updates between two syncs collapse to one equivalent change, or to none; the times cached are the ones due. */
  lemma UpdatesCollapse<T(!new)>(h: History<T>, t: State<T>, name: NamespacedName)
    requires Reaches(h, t) && Chained(h)
    ensures ItemExact(t, h, name)
    ensures TimesOf(t.times, name) == Due(h, name)
  {
    HistoryKeepsInv(h, t, name);
  }

  /** A sync that no update falls into reports times for an object only if it applied a change of that object. */
  lemma TimesTakenAreApplied<T(!new)>(before: History<T>, s: State<T>, name: NamespacedName)
    requires Reaches(Then(before, Checkout), s) && Chained(before) && !Midway(before) && TimesOf(s.times, name) != []
    ensures TimesOf(s.times, name) == Due(before, name) && Applied(before, name) != Latest(before, name)
  {
    var s0 :| Reaches(before, s0) && Step(s0, Checkout, s);
    HistoryKeepsInv(before, s0, name);
  }

  /** A sync that is halfway, with the updates that have come since its checkout, the latest outermost. */
  function Since<T>(checkout: History<T>, updates: seq<Event<T>>): History<T> {
    if updates == [] then checkout else Then(Since(checkout, updates[..|updates| - 1]), updates[|updates| - 1])
  }

  /** The times of an object's updates since it was last back at `base`, after those in `due`. */
  function TimesSince<T(==)>(base: Snapshot<T>, due: seq<int>, updates: seq<Event<T>>, name: NamespacedName): seq<int> {
    if updates == [] then due
    else
      var e, times := updates[|updates| - 1], TimesSince(base, due, updates[..|updates| - 1], name);
      if !e.Update? || e.name != name then times
      else if e.current == base then []
      else times + if e.time.Some? then [e.time.value] else []
  }

  lemma {:induction false} SinceCheckout<T>(before: History<T>, updates: seq<Event<T>>, name: NamespacedName)
    requires forall e :: e in updates ==> e.Update?
    ensures var h := Since(Then(before, Checkout), updates);
      Applied(h, name) == Latest(before, name)
      && Due(h, name) == TimesSince(Latest(before, name), Due(before, name), updates, name)
  {
    if updates != [] {
      var front := updates[..|updates| - 1];
      assert updates[|updates| - 1] in updates && forall e :: e in front ==> e in updates;
      SinceCheckout(before, front, name);
    }
  }

  predicate Of<T>(updates: seq<Event<T>>, name: NamespacedName, i: int) {
    0 <= i < |updates| && updates[i].Update? && updates[i].name == name
  }

  /** The update brings the object back to what was checked out. */
  predicate BackAt<T(==)>(base: Snapshot<T>, updates: seq<Event<T>>, name: NamespacedName, i: int) {
    Of(updates, name, i) && updates[i].current == base
  }

  ghost predicate Returns<T>(base: Snapshot<T>, updates: seq<Event<T>>, name: NamespacedName) {
    exists i :: BackAt(base, updates, name, i)
  }

  /** The update brings a time for a state that is not checked out, and the object does not come back after it. */
  ghost predicate LateAt<T>(base: Snapshot<T>, updates: seq<Event<T>>, name: NamespacedName, i: int) {
    && Of(updates, name, i) && updates[i].current != base && updates[i].time.Some?
    && forall j :: i < j < |updates| ==> !BackAt(base, updates, name, j)
  }

  ghost predicate LateTime<T>(base: Snapshot<T>, updates: seq<Event<T>>, name: NamespacedName, time: int) {
    exists i :: LateAt(base, updates, name, i) && updates[i].time == Some(time)
  }

  /** One more update, last in the list. */
  lemma LateMore<T>(base: Snapshot<T>, front: seq<Event<T>>, e: Event<T>, name: NamespacedName, time: int)
    ensures var updates := front + [e];
      var mine := e.Update? && e.name == name;
      && (Returns(base, updates, name) <==> Returns(base, front, name) || (mine && e.current == base))
      && (LateTime(base, updates, name, time) <==>
            !(mine && e.current == base) && (LateTime(base, front, name, time) || (mine && e.time == Some(time))))
  {
    var updates, n := front + [e], |front|;
    forall i | 0 <= i < n
      ensures Of(updates, name, i) <==> Of(front, name, i)
      ensures BackAt(base, updates, name, i) <==> BackAt(base, front, name, i)
    {
      assert updates[i] == front[i];
    }
    assert updates[n] == e && (Of(updates, name, n) <==> e.Update? && e.name == name);
    if i :| BackAt(base, front, name, i) { assert BackAt(base, updates, name, i); }
    if BackAt(base, updates, name, n) {
      assert forall i :: 0 <= i < n ==> !LateAt(base, updates, name, i);
    } else {
      forall i | 0 <= i < n ensures LateAt(base, updates, name, i) <==> LateAt(base, front, name, i) {
        if LateAt(base, updates, name, i) {
          forall j | i < j < |front| ensures !BackAt(base, front, name, j) {
            assert !BackAt(base, updates, name, j);
          }
        }
      }
    }
    if LateTime(base, front, name, time) && !BackAt(base, updates, name, n) {
      var i :| LateAt(base, front, name, i) && front[i].time == Some(time);
      assert LateAt(base, updates, name, i);
    }
    if Of(updates, name, n) && e.current != base && e.time == Some(time) {
      assert LateAt(base, updates, name, n);
    }
  }

  /** The times of the late updates, in order. */
  function LateTimes<T(==)>(base: Snapshot<T>, updates: seq<Event<T>>, name: NamespacedName): seq<int> {
    TimesSince(base, [], updates, name)
  }

  lemma {:induction false} LateTimesAreLate<T>(base: Snapshot<T>, updates: seq<Event<T>>, name: NamespacedName,
                                               time: int)
    ensures time in LateTimes(base, updates, name) <==> LateTime(base, updates, name, time)
  {
    if updates != [] {
      var front, e := updates[..|updates| - 1], updates[|updates| - 1];
      assert updates == front + [e];
      LateTimesAreLate(base, front, name, time);
      LateMore(base, front, e, name, time);
    }
  }

  lemma NoneLateIff<T>(base: Snapshot<T>, updates: seq<Event<T>>, name: NamespacedName)
    ensures LateTimes(base, updates, name) != [] <==> exists i :: LateAt(base, updates, name, i)
  {
    var late := LateTimes(base, updates, name);
    if late != [] {
      LateTimesAreLate(base, updates, name, late[0]);
    }
    if i :| LateAt(base, updates, name, i) {
      LateTimesAreLate(base, updates, name, updates[i].time.value);
    }
  }

  /** The times kept are those that were due, unless the object came back, and then those of the late updates. */
  lemma {:induction false} TimesAreDueThenLate<T>(base: Snapshot<T>, due: seq<int>, updates: seq<Event<T>>,
                                                  name: NamespacedName)
    ensures TimesSince(base, due, updates, name) ==
            (if Returns(base, updates, name) then [] else due) + LateTimes(base, updates, name)
  {
    if updates != [] {
      var front, e := updates[..|updates| - 1], updates[|updates| - 1];
      assert updates == front + [e];
      TimesAreDueThenLate(base, due, front, name);
      LateMore(base, front, e, name, 0);
    }
  }

  /** `s` is the state in which a sync takes its times: after its checkout and the updates that fell in between. */
  ghost predicate TakesTimesIn<T(!new)>(before: History<T>, updates: seq<Event<T>>, s: State<T>) {
    var h := Since(Then(before, Checkout), updates);
    (forall e :: e in updates ==> e.Update?) && Reaches(h, s) && Chained(h)
  }

  /**
   The lock is let go between the two halves of a sync. Whatever updates fall in between, the table stays as checked
   out and they stay pending. The times reported for an object are those due for what the sync applied, unless an
   update in between brought the object back to what was checked out, and then those of the updates in between that
   the sync does not apply and that nothing took back.
   */
  lemma UpdatesInsideSync<T(!new)>(before: History<T>, updates: seq<Event<T>>, s: State<T>, name: NamespacedName,
                                   time: int)
    requires TakesTimesIn(before, updates, s)
    ensures Restrict(s.table, name) == TableOf(Latest(before, name))
    ensures ItemExact(s, Since(Then(before, Checkout), updates), name)
    ensures var base := Latest(before, name);
      && TimesOf(s.times, name) ==
           (if Returns(base, updates, name) then [] else Due(before, name)) + LateTimes(base, updates, name)
      && (time in LateTimes(base, updates, name) <==> LateTime(base, updates, name, time))
  {
    var base := Latest(before, name);
    SinceCheckout(before, updates, name);
    HistoryKeepsInv(Since(Then(before, Checkout), updates), s, name);
    TimesAreDueThenLate(base, Due(before, name), updates, name);
    LateTimesAreLate(base, updates, name, time);
  }

  lemma {:induction false} SinceIsAfter<T(!new)>(checkout: History<T>, updates: seq<Event<T>>)
    requires Chained(Since(checkout, updates))
    ensures Chained(checkout)
  {
    if updates != [] {
      SinceIsAfter(checkout, updates[..|updates| - 1]);
    }
  }

  /** No times are due for an object that the sync has nothing to apply for, once the sync before is over. */
  lemma UnchangedHasNoneDue<T(!new)>(before: History<T>, name: NamespacedName)
    requires Chained(before) && !Midway(before) && Applied(before, name) == Latest(before, name)
    ensures Due(before, name) == []
  {
    var s := HistoryRuns(before);
    HistoryKeepsInv(before, s, name);
  }

  /**
   Where syncs do not overlap, which the proxiers' own lock sees to, a sync reports times for an object it did not
   change exactly when an update in between brought one to stay.
   */
  lemma UnchangedIsReportedIff<T(!new)>(before: History<T>, updates: seq<Event<T>>, s: State<T>, name: NamespacedName)
    requires TakesTimesIn(before, updates, s) && !Midway(before) && Applied(before, name) == Latest(before, name)
    ensures TimesOf(s.times, name) != [] <==> exists i :: LateAt(Latest(before, name), updates, name, i)
  {
    SinceIsAfter(Then(before, Checkout), updates);
    UnchangedHasNoneDue(before, name);
    UpdatesInsideSync(before, updates, s, name, 0);
    NoneLateIff(Latest(before, name), updates, name);
  }

  /**
   The documented promise is that a sync returns the times of what it changed, that is, the times due for it. It keeps
   the promise for an object exactly when no update in between brought a time to stay; or, if one brought the object
   back, when the times brought since happen to be the ones that were due.
   */
  lemma TimesAsDocumentedIff<T(!new)>(before: History<T>, updates: seq<Event<T>>, s: State<T>, name: NamespacedName)
    requires TakesTimesIn(before, updates, s)
    ensures var base, due := Latest(before, name), Due(before, name);
      TimesOf(s.times, name) == due <==>
      if Returns(base, updates, name) then LateTimes(base, updates, name) == due
      else !exists i :: LateAt(base, updates, name, i)
  {
    UpdatesInsideSync(before, updates, s, name, 0);
    NoneLateIff(Latest(before, name), updates, name);
    assert |TimesOf(s.times, name)| == |if Returns(Latest(before, name), updates, name) then [] else Due(before, name)|
                                       + |LateTimes(Latest(before, name), updates, name)|;
  }

  /** A first sync has nothing to change; the update that falls into it has its time reported all the same. */
  lemma TimeIsReportedEarly<T(!new)>(name: NamespacedName, table: Table<T>, time: int) returns (s: State<T>)
    requires OwnPorts(table, name)
    ensures TakesTimesIn(Start, [Update(name, None, Some(table), Some(time))], s)
    ensures s.table == map[] && TimesOf(s.times, name) == [time]
  {
    var e := Update(name, None, Some(table), Some(time));
    var h: History<T> := Then(Start, Checkout);
    assert Since(h, [e]) == Then(h, e) by { assert [e][..0] == []; }
    s := HistoryRuns(Then(h, e));
    assert Latest(h, name) == None && Chained(h);
    assert Applied(h, name) == None && Due(h, name) == [];
    HistoryKeepsInv(Then(h, e), s, name);
    forall p ensures p !in s.table {
      HistoryKeepsInv(Then(h, e), s, p.service);
      assert Applied(h, p.service) == None;
      assert p in Restrict(s.table, p.service) <==> p in s.table;
    }
  }

  /** A sync applies a change that brought a time; an update in between that changes nothing makes it report none. */
  lemma AppliedTimeIsLost<T(!new)>(name: NamespacedName, table: Table<T>, time: int) returns (s: State<T>)
    requires OwnPorts(table, name)
    ensures var before := Then(Start, Update(name, None, Some(table), Some(time)));
      && TakesTimesIn(before, [Update(name, Some(table), Some(table), None)], s)
      && Due(before, name) == [time] && Applied(before, name) != Latest(before, name)
      && Restrict(s.table, name) == table && TimesOf(s.times, name) == []
  {
    var u: Event<T> := Update(name, None, Some(table), Some(time));
    var e: Event<T> := Update(name, Some(table), Some(table), None);
    var before: History<T> := Then(Start, u);
    var h: History<T> := Then(before, Checkout);
    assert Since(h, [e]) == Then(h, e) by { assert [e][..0] == []; }
    s := HistoryRuns(Then(h, e));
    assert Latest<T>(Start, name) == None && Applied<T>(Start, name) == None && Chained<T>(Start);
    assert Due<T>(Start, name) == [] && [] + [time] == [time];
    assert Applied(before, name) == None && Latest(before, name) == Some(table);
    assert Due(before, name) == [time];
    assert TableOf(u.current) == table && TableOf(e.current) == table;
    assert Chained(before);
    assert Latest(h, name) == Latest(before, name) && Applied(h, name) == Latest(before, name);
    HistoryKeepsInv(Then(h, e), s, name);
  }
}
