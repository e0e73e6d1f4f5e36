/** Success and failure values: what the modelled code returns instead of raising. */
module Results {

  datatype Option<+T> = None | Some(value: T) {

    function GetOr(other: T): T {
      if Some? then value else other
    }
  }

  datatype Result<+T, +E> = Success(value: T) | Failure(error: E) {

    /** What is left of a result when the reason for a failure does not matter. */
    function ToOption(): Option<T> {
      match this
      case Success(v) => Some(v)
      case Failure(_) => None
    }
  }
}
