/** The root state as combineReducers builds it: one field per slice, each slice reduced by its
    own reducer, and "dispatch" as applying the root reducer to the current state. */
module Root {
  import opened Types
  import TodoReducer
  import FilterReducer
  import NotificationReducer

  /** One field per slice, named as in the combined reducer. */
  datatype State = State(
    todoState: TodoReducer.TodoState,
    filterState: Filter,
    notificationState: NotificationReducer.Notifications)

  /** The ten seeded todos. The seed records carry no completion flag; an absent flag reads as
      false everywhere it is used, so they are stored as uncompleted. */
  const InitialTodoState: TodoReducer.TodoState := TodoReducer.TodoState(
    map[
      "1" := Todo("1", "Hands On: Redux Standalone with advanced Actions", false),
      "2" := Todo("2", "Hands On: Redux Standalone with advanced Reducers", false),
      "3" := Todo("3", "Hands On: Bootstrap App with Redux", false),
      "4" := Todo("4", "Hands On: Naive Todo with React and Redux", false),
      "5" := Todo("5", "Hands On: Sophisticated Todo with React and Redux", false),
      "6" := Todo("6", "Hands On: Connecting State Everywhere", false),
      "7" := Todo("7", "Hands On: Todo with advanced Redux", false),
      "8" := Todo("8", "Hands On: Todo but more Features", false),
      "9" := Todo("9", "Hands On: Todo with Notifications", false),
      "10" := Todo("10", "Hands On: Hacker News with Redux", false)
    ],
    ["1", "2", "3", "4", "5", "6", "7", "8", "9", "10"])

  /** The store's state before any dispatch: the seeded table, SHOW_ALL, no notification. */
  const InitialState: State :=
    State(InitialTodoState, FilterReducer.InitialFilter, NotificationReducer.InitialNotifications)

  /** The combined reducer. The slices are reduced independently; when the todo reducer fails
      the whole reduction fails. */
  function RootReducer(s: State, a: Action): (r: Result<State>)
    ensures r.Err? <==> a.TodoToggle? && a.id !in s.todoState.entities
    ensures r.Ok? ==> r.value.filterState == FilterReducer.Reduce(s.filterState, a)
    ensures r.Ok? ==> r.value.notificationState == NotificationReducer.Reduce(s.notificationState, a)
    ensures r.Ok? ==> Ok(r.value.todoState) == TodoReducer.Reduce(s.todoState, a)
  {
    match TodoReducer.Reduce(s.todoState, a)
    case Err(e) => Err(e)
    case Ok(todoState) =>
      Ok(State(
        todoState,
        FilterReducer.Reduce(s.filterState, a),
        NotificationReducer.Reduce(s.notificationState, a)))
  }

  /** One dispatch: the store keeps its previous state when the reducer fails. */
  function Dispatch(s: State, a: Action): (r: State)
    ensures RootReducer(s, a).Err? ==> r == s
    ensures RootReducer(s, a).Ok? ==> r == RootReducer(s, a).value
  {
    match RootReducer(s, a)
    case Ok(s') => s'
    case Err(_) => s
  }

  /** Dispatch a sequence of actions in order. */
  function DispatchAll(s: State, actions: seq<Action>): (r: State)
    ensures actions == [] ==> r == s
    ensures |actions| == 1 ==> r == Dispatch(s, actions[0])
    decreases |actions|
  {
    if actions == [] then s else DispatchAll(Dispatch(s, actions[0]), actions[1..])
  }

  /** Every TODO_ADD in `actions` uses an id not yet in the table when it is dispatched. */
  predicate FreshAdds(s: State, actions: seq<Action>)
    decreases |actions|
  {
    actions == [] ||
    (TodoReducer.Admissible(s.todoState, actions[0]) && FreshAdds(Dispatch(s, actions[0]), actions[1..]))
  }

  /** The seeded id list has no duplicates. */
  lemma InitialIdsDistinct()
    ensures TodoReducer.Distinct(InitialTodoState.ids)
  {
  }

  /** The seeded table satisfies the table invariant. */
  lemma InitialStateValid()
    ensures TodoReducer.Valid(InitialState.todoState)
  {
    InitialIdsDistinct();
    assert TodoReducer.Resolves(InitialTodoState);
    assert TodoReducer.OwnIds(InitialTodoState);
  }

  /** A single dispatch of an admissible action keeps the table invariant, whether or not the
      reducer fails. */
  lemma DispatchPreservesValid(s: State, a: Action)
    requires TodoReducer.Valid(s.todoState)
    requires TodoReducer.Admissible(s.todoState, a)
    ensures TodoReducer.Valid(Dispatch(s, a).todoState)
  {
    if RootReducer(s, a).Ok? {
      TodoReducer.ReducePreservesValid(s.todoState, a);
    }
  }

  /** Every state reached from a valid one by admissible dispatches is valid. */
  lemma {:induction false} DispatchAllPreservesValid(s: State, actions: seq<Action>)
    requires TodoReducer.Valid(s.todoState)
    requires FreshAdds(s, actions)
    ensures TodoReducer.Valid(DispatchAll(s, actions).todoState)
    decreases |actions|
  {
    if actions != [] {
      DispatchPreservesValid(s, actions[0]);
      DispatchAllPreservesValid(Dispatch(s, actions[0]), actions[1..]);
    }
  }

  /** Every state reachable from the seeded store by admissible dispatches is valid. */
  lemma ReachableValid(actions: seq<Action>)
    requires FreshAdds(InitialState, actions)
    ensures TodoReducer.Valid(DispatchAll(InitialState, actions).todoState)
  {
    InitialStateValid();
    DispatchAllPreservesValid(InitialState, actions);
  }

  /** Dispatching `a` and then `b` is dispatching `a + b`. */
  lemma {:induction false} DispatchAllAppend(s: State, a: seq<Action>, b: seq<Action>)
    ensures DispatchAll(s, a + b) == DispatchAll(DispatchAll(s, a), b)
    decreases |a|
  {
    if a == [] {
      assert a + b == b;
    } else {
      assert (a + b)[0] == a[0] && (a + b)[1..] == a[1..] + b;
      DispatchAllAppend(Dispatch(s, a[0]), a[1..], b);
    }
  }

  /** The store starts with the ten seeded todos listed in order, all uncompleted, every
      todo visible and no notification pending. */
  lemma InitialStateShape()
    ensures InitialState.todoState.ids == ["1", "2", "3", "4", "5", "6", "7", "8", "9", "10"]
    ensures InitialState.todoState.entities.Keys == {"1", "2", "3", "4", "5", "6", "7", "8", "9", "10"}
    ensures forall id :: id in InitialState.todoState.entities ==> !InitialState.todoState.entities[id].completed
    ensures InitialState.filterState == ShowAll
    ensures InitialState.notificationState == map[]
  {
  }

  /** Every dispatch keeps each listed id resolvable, duplicate adds and failed toggles
      included. */
  lemma DispatchPreservesResolves(s: State, a: Action)
    requires TodoReducer.Resolves(s.todoState)
    ensures TodoReducer.Resolves(Dispatch(s, a).todoState)
  {
  }

  /** Every state reached by any sequence of dispatches from one whose listed ids resolve keeps
      them resolvable; no freshness is needed. */
  lemma {:induction false} DispatchAllPreservesResolves(s: State, actions: seq<Action>)
    requires TodoReducer.Resolves(s.todoState)
    ensures TodoReducer.Resolves(DispatchAll(s, actions).todoState)
    decreases |actions|
  {
    if actions != [] {
      DispatchPreservesResolves(s, actions[0]);
      DispatchAllPreservesResolves(Dispatch(s, actions[0]), actions[1..]);
    }
  }

  /** Every state reachable from the seeded store, by any dispatches, resolves its listed ids. */
  lemma ReachableResolves(actions: seq<Action>)
    ensures TodoReducer.Resolves(DispatchAll(InitialState, actions).todoState)
  {
    InitialStateValid();
    DispatchAllPreservesResolves(InitialState, actions);
  }

  /** Every dispatch keeps each entity stored under its own id, duplicate adds included. */
  lemma DispatchPreservesOwnIds(s: State, a: Action)
    requires TodoReducer.OwnIds(s.todoState)
    ensures TodoReducer.OwnIds(Dispatch(s, a).todoState)
  {
  }

  /** Any sequence of dispatches keeps each entity stored under its own id. */
  lemma {:induction false} DispatchAllPreservesOwnIds(s: State, actions: seq<Action>)
    requires TodoReducer.OwnIds(s.todoState)
    ensures TodoReducer.OwnIds(DispatchAll(s, actions).todoState)
    decreases |actions|
  {
    if actions != [] {
      DispatchPreservesOwnIds(s, actions[0]);
      DispatchAllPreservesOwnIds(Dispatch(s, actions[0]), actions[1..]);
    }
  }

  /** Every state reachable from the seeded store, by any dispatches, stores each entity
      under its own id. */
  lemma ReachableOwnIds(actions: seq<Action>)
    ensures TodoReducer.OwnIds(DispatchAll(InitialState, actions).todoState)
  {
    InitialStateValid();
    DispatchAllPreservesOwnIds(InitialState, actions);
  }

  /** The add-with-notification intent itself passes through every reducer unchanged. */
  lemma IntentIgnoredByReducers(s: State, id: Id, name: string)
    ensures RootReducer(s, TodoAddWithNotification(id, name)) == Ok(s)
  {
  }

  /** A failed toggle leaves the store's state as it was. */
  lemma FailedToggleKeepsState(s: State, id: Id)
    requires id !in s.todoState.entities
    ensures RootReducer(s, TodoToggle(id)) == Err(NotFound(id))
    ensures Dispatch(s, TodoToggle(id)) == s
  {
  }
}
