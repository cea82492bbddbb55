/** Failure outcomes of the quantized NMS operator. Every enforce failure of
    the source is fatal for the whole call, so a single error value suffices. */
module Status {

  datatype Error =
    | ScoresRank          // scores are neither 2-D nor (N, 1, 1, C)
    | ScoresType          // scores are not uint8
    | BoxesRank           // boxes are neither 2-D nor (N, 1, 1, W)
    | BoxesType           // boxes are not uint16
    | RoiCountMismatch    // scores and boxes disagree on the number of RoIs
    | BoxWidthMismatch    // boxes row width is not 4 * num_classes
    | SplitsRank          // batch_splits is not 1-D
    | SplitsType          // batch_splits is not int32
    | UnknownSoftNmsMethod(name: string)
    | NoBestCandidate     // the debug check on best_score_pos fails

  datatype Result<+T> = Ok(value: T) | Err(error: Error) {
    predicate IsFailure() { Err? }

    function PropagateFailure<U>(): Result<U>
      requires Err?
    {
      Err(error)
    }

    function Extract(): T
      requires Ok?
    {
      value
    }
  }

  datatype Option<+T> = None | Some(value: T)

  function GetOr<T>(o: Option<T>, default: T): T {
    match o
    case Some(v) => v
    case None => default
  }
}
