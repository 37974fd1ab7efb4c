/** The recorded outcome of archiving one object, and the two predicates every
    durability class and every gate rule is built from (pkg/manifest/status.go). */
module Statuses {
  datatype Status =
    | Done
    | Absent
    | Skipped
    | NotApplicable
    | ReferenceCleared
    | ReferenceAbsent
    | Errored
    | Forbidden
    | Pending
  {
    /** A normal re-run leaves the object alone. */
    predicate Settled() {
      !(Errored? || Forbidden? || Pending?)
    }

    /** A reference-gate proxy rather than an archived object. */
    predicate IsGate() {
      ReferenceCleared? || ReferenceAbsent? || Pending?
    }
  }
}
