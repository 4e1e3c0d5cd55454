/** Status values of campaigns, of their sub-tasks and of push records,
    with the predicates that decide which moves are allowed. */
module Status {

  datatype Option<+T> = None | Some(value: T)

  /** Status of a main task or of a sub-task row. */
  datatype TaskStatus =
    Draft | Pending | Running | Paused | Success | Partial | Failed | Cancelled | Retrying
  {
    predicate IsTerminal() {
      Success? || Partial? || Failed? || Cancelled?
    }

    predicate IsCancellable() {
      Pending? || Running? || Paused? || Retrying?
    }

    predicate IsPausable() {
      Pending? || Running? || Retrying?
    }

    predicate IsResumable() {
      Paused?
    }

    predicate IsRetryable() {
      Failed? || Partial?
    }
  }

  /** Status of one push record (one user, one campaign, one channel). */
  datatype PushStatus =
    | Queued | Sending | Sent | Delivered | Clicked | SendFailed
    | SendCancelled | Suppressed | Unreachable | Expired | QuotaRejected
  {
    /** Already delivered: a new claim must be skipped. */
    predicate DeliveredOK() {
      Sent? || Delivered? || Clicked?
    }

    predicate IsSuppressedLike() {
      Suppressed? || Unreachable? || Expired? || QuotaRejected?
    }

    predicate SoftTerminal() {
      SendFailed? || SendCancelled? || IsSuppressedLike()
    }

    predicate CanTransitTo(to: PushStatus) {
      if this == to then true else
      match this
      case Queued => to.Sending? || to.SoftTerminal()
      case Sending => to.Sent? || to.Queued? || to.SoftTerminal()
      case Sent => to.Delivered? || to.Clicked? || to.SendFailed?
      case Delivered => to.Clicked? || to.SendFailed?
      case Clicked => false
      case _ => to.Sending? || to.Queued?
    }
  }

  /** Events a provider reports about a sent message. */
  datatype ReceiptEvent = ReceiptDelivered | ReceiptClicked | ReceiptFailed
  {
    function Status(): PushStatus {
      match this
      case ReceiptDelivered => Delivered
      case ReceiptClicked => Clicked
      case ReceiptFailed => SendFailed
    }
  }

  type Channel = string
}
