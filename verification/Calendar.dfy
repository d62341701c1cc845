/** The sale calendar of an event, and the queue status it asks for. */
module Calendar {
  import opened Measures

  /** The status column of the event; Planned, OnSale, AllSold and Ended follow the queue. */
  datatype EventStatus = Draft | Planned | OnSale | AllSold | Ended

  /** The status key that the waiting room reads. */
  datatype QueueStatus = Scheduled | PreQueue | Opened | Paused | SoldOut | Closed

  /** The columns of the event row that the status depends on. */
  datatype Schedule = Schedule(status: EventStatus, preQueueAt: int, saleOpensAt: int, startsAt: int)

  // ---------- The pure rules ----------

  function ScheduledStatus(meta: Schedule, now: int): QueueStatus {
    if meta.status == Draft || meta.status == Ended || now >= meta.startsAt then Closed
    else if now < meta.preQueueAt then Scheduled
    else if now < meta.saleOpensAt then PreQueue
    else Opened
  }

  function NextStatus(current: Option<QueueStatus>, scheduled: QueueStatus): QueueStatus {
    if scheduled == Closed then Closed
    else if current == Some(SoldOut) then SoldOut
    else if current == Some(Paused) && scheduled == Opened then Paused
    else scheduled
  }

  function EventStatusFor(status: QueueStatus, current: EventStatus): EventStatus {
    if current == Draft then Draft
    else
      match status
      case Opened => OnSale
      case Paused => OnSale
      case SoldOut => AllSold
      case Closed => Ended
      case Scheduled => Planned
      case PreQueue => Planned
  }

  // ---------- A fixed schedule only moves forward ----------

  function Phase(status: QueueStatus): nat {
    match status
    case Scheduled => 0
    case PreQueue => 1
    case Opened => 2
    case Paused => 2
    case SoldOut => 3
    case Closed => 4
  }

  lemma ScheduleAdvances(meta: Schedule, now: int, later: int)
    requires now <= later
    ensures Phase(ScheduledStatus(meta, now)) <= Phase(ScheduledStatus(meta, later))
  {
  }
}
