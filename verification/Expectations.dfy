/**
 Controller expectations that track the UIDs of the pods a controller deletes, so that a deletion seen
 twice (as an update that sets the deletion timestamp, then as the delete itself) is counted once.
 */
module Expectations {
  import opened Common

  /** `ControlleeExpectations`, without its timestamp. */
  datatype Expectation = Expectation(add: int, del: int)

  datatype State = State(store: map<string, Expectation>, uids: map<string, set<string>>)

  const INIT := State(map[], map[])

  predicate Fulfilled(e: Expectation) { e.add <= 0 && e.del <= 0 }

  /** `SatisfiedExpectations`; whether the expectation has expired is up to the clock. */
  predicate Satisfied(s: State, key: string, expired: bool) {
    key in s.store ==> Fulfilled(s.store[key]) || expired
  }

  function SetOf(keys: seq<string>): set<string> { set k | k in keys }

  function ExpectCreations(s: State, key: string, adds: int): State {
    s.(store := s.store[key := Expectation(adds, 0)])
  }

  function ExpectDeletions(s: State, key: string, deleted: seq<string>): State {
    State(s.store[key := Expectation(0, |SetOf(deleted)|)], s.uids[key := SetOf(deleted)])
  }

  function Lower(s: State, key: string, add: int, del: int): State {
    if key !in s.store then s
    else s.(store := s.store[key := Expectation(s.store[key].add - add, s.store[key].del - del)])
  }

  function DeletionObserved(s: State, key: string, uid: string): State {
    if key in s.uids && uid in s.uids[key] then Lower(s, key, 0, 1).(uids := s.uids[key := s.uids[key] - {uid}]) else s
  }

  function DeleteExpectations(s: State, key: string): State {
    State(s.store - {key}, s.uids - {key})
  }

  datatype Event =
    | ExpectsCreations(key: string, adds: int)
    | ExpectsDeletions(key: string, deleted: seq<string>)
    | SeesCreation(key: string)
    | SeesDeletion(key: string, uid: string)
    | Drops(key: string)

  datatype History = Start | Then(before: History, event: Event)

  function After(h: History): State {
    match h
    case Start => INIT
    case Then(before, ExpectsCreations(key, adds)) => ExpectCreations(After(before), key, adds)
    case Then(before, ExpectsDeletions(key, deleted)) => ExpectDeletions(After(before), key, deleted)
    case Then(before, SeesCreation(key)) => Lower(After(before), key, 1, 0)
    case Then(before, SeesDeletion(key, uid)) => DeletionObserved(After(before), key, uid)
    case Then(before, Drops(key)) => DeleteExpectations(After(before), key)
  }

  // ---------- what the controller is waiting for ----------

  /** The UIDs last expected to be deleted, unless the expectation was dropped since. */
  function Expected(h: History, key: string): Option<set<string>> {
    match h
    case Start => None
    case Then(before, e) =>
      if e.key != key then Expected(before, key)
      else if e.ExpectsDeletions? then Some(SetOf(e.deleted))
      else if e.Drops? then None
      else Expected(before, key)
  }

  /** The UIDs whose deletion was seen, once or more, since then. */
  function Observed(h: History, key: string): set<string> {
    match h
    case Start => {}
    case Then(before, e) =>
      if e.key != key then Observed(before, key)
      else if e.ExpectsDeletions? then {}
      else if e.SeesDeletion? then Observed(before, key) + {e.uid}
      else Observed(before, key)
  }

  /**
   What the controller last expected under the key, and has not dropped since: so many creations still to be seen, or
   deletions.
   */
  datatype Wait = Nothing | ForCreations(left: int) | ForDeletions

  function LastExpected(h: History, key: string): Wait {
    match h
    case Start => Nothing
    case Then(before, e) =>
      var w := LastExpected(before, key);
      if e.key != key then w
      else
        match e
        case ExpectsCreations(_, adds) => ForCreations(adds)
        case ExpectsDeletions(_, _) => ForDeletions
        case SeesCreation(_) => if w.ForCreations? then ForCreations(w.left - 1) else w
        case SeesDeletion(_, _) => w
        case Drops(_) => Nothing
  }

  ghost predicate TracksOutstanding(h: History, key: string) {
    var s := After(h);
    && (key in s.uids <==> Expected(h, key).Some?)
    && (key in s.uids ==> s.uids[key] == Expected(h, key).value - Observed(h, key))
  }

  lemma {:induction false} UidsAreOutstanding(h: History, key: string)
    ensures TracksOutstanding(h, key)
  {
    if h.Then? {
      UidsAreOutstanding(h.before, key);
    }
  }

  /**
   The counters say what is still awaited: after deletions, as many as there are UIDs left; after creations, no
   deletion.
   */
  ghost predicate CountsWait(h: History, key: string) {
    var s := After(h);
    match LastExpected(h, key)
    case Nothing => key !in s.store && key !in s.uids
    case ForCreations(left) => key in s.store && s.store[key].add == left && s.store[key].del <= 0
    case ForDeletions => key in s.store && key in s.uids && s.store[key].add <= 0 && s.store[key].del == |s.uids[key]|
  }

  lemma {:induction false} CountersAreExact(h: History, key: string)
    ensures CountsWait(h, key)
  {
    if h.Then? {
      CountersAreExact(h.before, key);
    }
  }

  lemma NoneLeftIff(h: History, key: string)
    requires key in After(h).uids
    ensures After(h).uids[key] == {} <==> Expected(h, key).Some? && Expected(h, key).value <= Observed(h, key)
  {
    UidsAreOutstanding(h, key);
    if After(h).uids[key] == {} {
      forall u | u in Expected(h, key).value ensures u in Observed(h, key) {
        assert u !in After(h).uids[key];
      }
    }
  }

  /**
   Whatever the order and the duplicates, an expectation is satisfied exactly when it has expired, when nothing is
   expected, when all the UIDs last expected have been seen deleted, or when all the creations expected since have been
   seen.
   */
  lemma SatisfiedIffAllObserved(h: History, key: string, expired: bool)
    ensures Satisfied(After(h), key, expired) <==>
            expired || match LastExpected(h, key)
                       case Nothing => true
                       case ForCreations(left) => left <= 0
                       case ForDeletions => Expected(h, key).Some? && Expected(h, key).value <= Observed(h, key)
  {
    CountersAreExact(h, key);
    if LastExpected(h, key).ForDeletions? {
      NoneLeftIff(h, key);
    }
  }

  /** Expecting creations overwrites the deletion count and keeps the UIDs, so the wait for deletions can end early. */
  lemma CreationsClobberDeletions(key: string, uid: string)
    ensures var h := Then(Then(Start, ExpectsDeletions(key, [uid])), ExpectsCreations(key, 0));
      Satisfied(After(h), key, false) && After(h).uids == map[key := {uid}] && uid !in Observed(h, key)
  {
    var h0 := Then(Start, ExpectsDeletions(key, [uid]));
    assert SetOf([uid]) == {uid};
    assert After(h0) == ExpectDeletions(After(Start), key, [uid]);
    assert After(Then(h0, ExpectsCreations(key, 0))) == ExpectCreations(After(h0), key, 0);
  }
}

module ExpectationsObject {
  import opened E = Expectations

  /** The `UIDTrackingControllerExpectations` object with the store it wraps. */
  class UIDTrackingControllerExpectations {
    var store: map<string, Expectation>
    var uidStore: map<string, set<string>>

    ghost function Abs(): State
      reads this
    {
      State(store, uidStore)
    }

    constructor ()
      ensures Abs() == INIT
    {
      store, uidStore := map[], map[];
    }

    method ExpectDeletions(key: string, deleted: seq<string>)
      modifies this
      ensures Abs() == E.ExpectDeletions(old(Abs()), key, deleted)
    {
      var expectedUIDs: set<string> := {};
      for i := 0 to |deleted|
        invariant expectedUIDs == SetOf(deleted[..i]) && Abs() == old(Abs())
      {
        expectedUIDs := expectedUIDs + {deleted[i]};
      }
      assert deleted[..|deleted|] == deleted;
      uidStore := uidStore[key := expectedUIDs];
      store := store[key := Expectation(0, |expectedUIDs|)];
    }

    method DeletionObserved(key: string, uid: string)
      modifies this
      ensures Abs() == E.DeletionObserved(old(Abs()), key, uid)
    {
      if key in uidStore && uid in uidStore[key] {
        if key in store {
          store := store[key := store[key].(del := store[key].del - 1)];
        }
        uidStore := uidStore[key := uidStore[key] - {uid}];
      }
    }

    method SatisfiedExpectations(key: string, expired: bool) returns (satisfied: bool)
      ensures satisfied == Satisfied(Abs(), key, expired)
      ensures satisfied <==> expired || key !in store || (store[key].add <= 0 && store[key].del <= 0)
    {
      if key !in store { return true; }
      satisfied := (store[key].add <= 0 && store[key].del <= 0) || expired;
    }

    method DeleteExpectations(key: string)
      modifies this
      ensures Abs() == E.DeleteExpectations(old(Abs()), key)
    {
      store := store - {key};
      uidStore := uidStore - {key};
    }
  }
}
