/** Transaction states and the compare-and-swap discipline on the shared status word:
    core/include/pathguard/mount_transaction.h and TransitionSharedState. */
module MountTransaction {

  datatype Status =
    | Pending | Applying | Complete | CancelRequested
    | Cancelled | Failed | RollbackComplete | NamespaceTainted

  predicate HasResult(s: Status) {
    (s.Complete? || s.Failed? || s.RollbackComplete? || s.NamespaceTainted?)
  }

  predicate TransitionAllowed(from: Status, to: Status) {
    match from
    case Pending => (to.Applying? || to.Complete? || to.CancelRequested? || to.Failed?)
    case Applying => (to.Complete? || to.CancelRequested? || to.RollbackComplete? || to.NamespaceTainted?)
    case CancelRequested => (to.Cancelled? || to.RollbackComplete? || to.NamespaceTainted?)
    case Failed => to == RollbackComplete
    case _ => false
  }

  /** One compare-and-swap: refused when the table forbids the edge or another
      process changed the word first. */
  predicate Swaps(current: Status, from: Status, to: Status) {
    TransitionAllowed(from, to) && current == from
  }

  function CompareAndSwap(current: Status, from: Status, to: Status): Status {
    if Swaps(current, from, to) then to else current
  }
}
