/** Entities, filters and actions shared by every slice of the todo store. */
module Types {

  /** Todo ids are strings: the seeded ones are "1" .. "10", new ones come from the caller. */
  type Id = string

  /** One todo record as stored in the normalized entity table. */
  datatype Todo = Todo(id: Id, name: string, completed: bool)

  /** The visibility filter is a closed three-valued enum. Each value carries the predicate
      that the visible-ids selector applies to a todo (the VISIBILITY_FILTERS table). */
  datatype Filter = ShowAll | ShowCompleted | ShowIncompleted {
    predicate Admits(t: Todo) {
      match this
      case ShowCompleted => t.completed
      case ShowIncompleted => !t.completed
      case ShowAll => true
    }
  }

  /** The closed union of actions the store accepts. `TodoAddWithNotification` is the
      intent the saga reacts to; no reducer handles it. */
  datatype Action =
    | TodoAdd(id: Id, name: string)
    | TodoToggle(id: Id)
    | FilterSet(filter: Filter)
    | NotificationHide(id: Id)
    | TodoAddWithNotification(id: Id, name: string)

  /** The one failure a reducer can run into: toggling a todo that is not in the table. */
  datatype Error = NotFound(id: Id)

  datatype Result<+T> = Ok(value: T) | Err(error: Error)

  datatype Option<+T> = None | Some(value: T)
}
