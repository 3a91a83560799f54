/** The two shapes of partial answer the models share. */
module Options {

  datatype Option<+T> = None | Some(value: T)

  /** A computation that either answers or throws. */
  datatype Attempt<+T> = Done(value: T) | Threw
}
