/** The task statuses every component shares. */
module Tasks {
  datatype Status = Waiting | Active | Paused | Complete | Errored | Removed

  predicate IsStopped(s: Status) {
    s == Complete || s == Errored || s == Removed
  }
}
