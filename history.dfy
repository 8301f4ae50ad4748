/**
 * The record of one graded problem that the adaptive client keeps and sends back
 * with every problem request.
 */
module History {
  import opened Optional

  /** One graded problem, as the client reports it; `difficulty` is `None` when the client had none. */
  datatype HistoryEntry = HistoryEntry(correct: bool, difficulty: Option<int>)
}
