/**
 Tables keyed by service port that are brought up to date by patching out an object's old ports and patching in its
 new ones.
 */
module Patching {
  import opened Common

  type Table<T> = map<ServicePortName, T>

  /** `endpointsChange` and `serviceChange`. */
  datatype Change<T> = Change(previous: Table<T>, current: Table<T>)

  function Restrict<T>(table: Table<T>, name: NamespacedName): Table<T> {
    map p | p in table && p.service == name :: table[p]
  }

  /** unmerge(previous) followed by merge(current). */
  function Patch<T>(table: Table<T>, c: Change<T>): Table<T> {
    (table - c.previous.Keys) + c.current
  }

  ghost predicate OwnPorts<T>(table: Table<T>, name: NamespacedName) {
    forall p :: p in table ==> p.service == name
  }

  ghost predicate OwnChange<T>(c: Change<T>, name: NamespacedName) {
    OwnPorts(c.previous, name) && OwnPorts(c.current, name)
  }

  /** The patches of the objects in `done`, in whatever order: the ports of one object see only that object's patch. */
  ghost predicate PatchedFor<T(!new)>(table: Table<T>, changes: map<NamespacedName, Change<T>>,
                                      done: set<NamespacedName>, table': Table<T>) {
    forall n ::
      Restrict(table', n) == Restrict(if n in changes && n in done then Patch(table, changes[n]) else table, n)
  }

  ghost predicate Patched<T(!new)>(table: Table<T>, changes: map<NamespacedName, Change<T>>, table': Table<T>) {
    PatchedFor(table, changes, changes.Keys, table')
  }

  lemma PatchOneMore<T(!new)>(table: Table<T>, changes: map<NamespacedName, Change<T>>,
                              done: set<NamespacedName>, table': Table<T>, name: NamespacedName)
    requires PatchedFor(table, changes, done, table') && name in changes && name !in done
    requires OwnChange(changes[name], name)
    ensures PatchedFor(table, changes, done + {name}, Patch(table', changes[name]))
  {
    forall n ensures Restrict(Patch(table', changes[name]), n) ==
                     Restrict(if n in changes && n in done + {name} then Patch(table, changes[n]) else table, n) {
      assert Restrict(table', n) == Restrict(if n in changes && n in done then Patch(table, changes[n]) else table, n);
      if n == name {
        PatchOwn(table, table', changes[name], name);
      } else {
        PatchOther(table', changes[name], name, n);
      }
    }
  }

  lemma SameAtPort<T>(table: Table<T>, table': Table<T>, p: ServicePortName)
    requires Restrict(table, p.service) == Restrict(table', p.service)
    ensures p in table <==> p in table'
    ensures p in table ==> table[p] == table'[p]
  {
    assert p in Restrict(table, p.service) <==> p in table;
    assert p in Restrict(table', p.service) <==> p in table';
    if p in table {
      assert Restrict(table, p.service)[p] == Restrict(table', p.service)[p];
    }
  }

  lemma PatchOwn<T>(table: Table<T>, table': Table<T>, c: Change<T>, name: NamespacedName)
    requires Restrict(table, name) == Restrict(table', name)
    ensures Restrict(Patch(table', c), name) == Restrict(Patch(table, c), name)
  {
    forall p: ServicePortName | p.service == name
      ensures (p in table <==> p in table') && (p in table ==> table[p] == table'[p])
    {
      SameAtPort(table, table', p);
    }
  }

  lemma PatchOther<T>(table: Table<T>, c: Change<T>, name: NamespacedName, other: NamespacedName)
    requires OwnChange(c, name) && other != name
    ensures Restrict(Patch(table, c), other) == Restrict(table, other)
  {}

  /** Taking away all the ports an object has and adding its new ones leaves exactly the new ones. */
  lemma PatchReplaces<T>(table: Table<T>, c: Change<T>, name: NamespacedName)
    requires Restrict(table, name).Keys == c.previous.Keys && OwnPorts(c.current, name)
    ensures Restrict(Patch(table, c), name) == c.current
  {}

  lemma RestrictOwn<T>(table: Table<T>, name: NamespacedName)
    requires OwnPorts(table, name)
    ensures Restrict(table, name) == table
  {}

  // ---------- some table results from any changes ----------

  function Source<T>(table: Table<T>, changes: map<NamespacedName, Change<T>>, n: NamespacedName): Table<T> {
    if n in changes then Patch(table, changes[n]) else table
  }

  function Added<T>(changes: map<NamespacedName, Change<T>>): set<ServicePortName> {
    set n, p | n in changes && p in changes[n].current :: p
  }

  function Spliced<T>(table: Table<T>, changes: map<NamespacedName, Change<T>>): Table<T> {
    map p | p in table.Keys + Added(changes) && p in Source(table, changes, p.service) ::
      Source(table, changes, p.service)[p]
  }

  lemma SplicedAt<T>(table: Table<T>, changes: map<NamespacedName, Change<T>>, p: ServicePortName)
    ensures p in Spliced(table, changes) <==> p in Source(table, changes, p.service)
  {
    if p.service in changes && p in changes[p.service].current {
      assert p in Added(changes);
    }
  }

  lemma SplicedIsPatched<T(!new)>(table: Table<T>, changes: map<NamespacedName, Change<T>>)
    ensures Patched(table, changes, Spliced(table, changes))
  {
    var table' := Spliced(table, changes);
    forall n ensures Restrict(table', n) == Restrict(Source(table, changes, n), n) {
      var a, b := Restrict(table', n), Restrict(Source(table, changes, n), n);
      forall p ensures p in a <==> p in b {
        SplicedAt(table, changes, p);
      }
      assert forall p :: p in a ==> a[p] == b[p];
      assert a == b;
    }
    assert forall n :: n in changes <==> n in changes && n in changes.Keys;
  }
}
