/** Outcome types shared by the design stages. */
module Results {

  datatype Result<T, E> = Success(value: T) | Failure(error: E)
}
