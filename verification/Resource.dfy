/** The stored resource, its types and its canonical statuses. */
module Resource {

  datatype Option<+T> = None | Some(value: T) {
    predicate IsFailure() {
      None?
    }

    function PropagateFailure<U>(): Option<U>
      requires None?
    {
      None
    }

    function Extract(): T
      requires Some?
    {
      value
    }
  }

  /** A row of the state store. `kind` is the row's "type" field, `createdAt` an instant in nanoseconds. */
  datatype Entry = Entry(id: string, kcliName: string, kind: string, status: string, createdAt: int)

  const VM := "vm"
  const CLUSTER := "cluster"

  const PROVISIONING := "PROVISIONING"
  const RUNNING := "RUNNING"
  const STOPPED := "STOPPED"
  const PAUSED := "PAUSED"
  const STOPPING := "STOPPING"
  const ERROR := "ERROR"
  const CREATING := "CREATING"
  const ACTIVE := "ACTIVE"
  const DELETING := "DELETING"
  const DELETED := "DELETED"

  predicate KnownKind(kind: string) {
    kind == VM || kind == CLUSTER
  }

  /** The provider's prefix on names in kweb. */
  const DCM_PREFIX := "dcm-"

  /** The status under which a new resource is stored. */
  function FirstStatus(kind: string): string {
    if kind == CLUSTER then CREATING else PROVISIONING
  }

  /** Statuses under which a missing VM or cluster is left to whoever is deleting it. */
  predicate Leaving(status: string) {
    status == DELETED || status == DELETING
  }

  ghost predicate Distinct(ids: seq<string>) {
    forall i, j :: 0 <= i < j < |ids| ==> ids[i] != ids[j]
  }

  function Lookup<V>(m: map<string, V>, key: string): Option<V> {
    if key in m then Some(m[key]) else None
  }
}
