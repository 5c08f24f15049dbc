/** Optional values and error-carrying results shared by every module of the model.
    JavaScript's `undefined` results and thrown errors are modelled with these. */
module Common {

  datatype Option<+T> = None | Some(value: T)

  datatype Result<+T, +E> = Success(value: T) | Failure(error: E)
}
