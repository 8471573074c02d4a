/**
 * The item record shared by the actor and its clients
 * (TodoActor.Interfaces/TodoItem.cs). `DateTime` values are kept as
 * their tick counts; `DateTime.MinValue` is tick 0.
 */
module TodoItems {

  /** Ticks of `DateTime.MinValue`, the "not finished yet" marker. */
  const MinValue: int := 0

  datatype TodoItem = TodoItem(
    description: string,
    dateAdded: int,
    dateFinished: int,
    finished: bool)
}
