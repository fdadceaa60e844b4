/** Where the evidence of a lease is found in the custody directory of its target (src/d1_migration_lease.rs). */
module LeasePlaces {

  /** The name of the lease file; an aborted or retired one carries the nonce of the lease. */
  datatype Place = Absent | Aborted | Active | Retiring | Retired

  /** Evidence under these names keeps every other invocation of the target out. */
  predicate Blocking(p: Place) {
    p == Active || p == Retiring
  }
}
