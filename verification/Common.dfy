/** Value types shared by the models. */
module Common {

  datatype Option<+T> = None | Some(value: T)

  /** A namespaced object name (`types.NamespacedName`). */
  datatype NamespacedName = NamespacedName(namespace: string, name: string)

  datatype Protocol = TCP | UDP | SCTP

  /** One named port of a service (`proxy.ServicePortName`). */
  datatype ServicePortName = ServicePortName(service: NamespacedName, port: string, protocol: Protocol)

  /** One way to visit every element once, as Go's iteration over a map does. */
  ghost predicate Enumerates<T(!new)>(order: seq<T>, items: set<T>) {
    && (forall i, j :: 0 <= i < j < |order| ==> order[i] != order[j])
    && (forall x :: x in order <==> x in items)
  }
}
