/** Optional values and results with an error, used where the planner's
    JavaScript has `null`, `undefined` or a thrown exception. */
module Results {

  datatype Option<+T> = None | Some(value: T)

  datatype Result<+T, +E> = Success(value: T) | Failure(error: E)
}
