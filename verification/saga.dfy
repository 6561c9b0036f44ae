/** The add-with-notification workflow. The saga reacts to the intent by dispatching TODO_ADD,
    waits, then dispatches NOTIFICATION_HIDE for the same id. The wait is not modelled: what
    remains is the ordered pair of actions it puts into the store. */
module Saga {
  import opened Types
  import TodoReducer
  import NotificationReducer
  import Root
  import Selectors

  /** The actions one saga run dispatches, in order. */
  function HandleAddTodoWithNotification(id: Id, name: string): (r: seq<Action>)
    ensures |r| == 2
    ensures r[0].TodoAdd? && r[0].id == id && r[0].name == name
    ensures r[1].NotificationHide? && r[1].id == id
  {
    [TodoAdd(id, name), NotificationHide(id)]
  }

  /** The full workflow as the store sees it: the intent, which no reducer handles, followed by
      the saga's two actions with no other dispatch in between. */
  function AddTodoWithNotification(s: Root.State, id: Id, name: string): (r: Root.State)
    ensures r == Root.DispatchAll(s, HandleAddTodoWithNotification(id, name))
  {
    var intent := [TodoAddWithNotification(id, name)];
    var saga := HandleAddTodoWithNotification(id, name);
    Root.IntentIgnoredByReducers(s, id, name);
    Root.DispatchAllAppend(s, intent, saga);
    Root.DispatchAll(s, intent + saga)
  }

  /** After the saga's first step the new todo is listed, uncompleted, and its creation
      message is pending. */
  lemma SagaFirstStep(s: Root.State, id: Id, name: string)
    requires TodoReducer.Valid(s.todoState)
    requires id !in s.todoState.entities
    requires id !in s.notificationState
    ensures var mid := Root.Dispatch(s, HandleAddTodoWithNotification(id, name)[0]);
            && TodoReducer.Valid(mid.todoState)
            && Selectors.GetTodo(mid, id) == Some(Todo(id, name, false))
            && mid.todoState.ids == s.todoState.ids + [id]
            && Selectors.GetNotifications(mid)
               == Selectors.GetNotifications(s) + multiset{NotificationReducer.CreatedPrefix + name}
  {
    TodoReducer.AddPreservesValid(s.todoState, id, name);
    Selectors.MessagesAfterAdd(s.notificationState, id, name);
  }

  /** Running both of the saga's steps from a valid state with a fresh id leaves the todo added
      and uncompleted, the filter untouched and the notification map as it was. */
  lemma SagaEffect(s: Root.State, id: Id, name: string)
    requires TodoReducer.Valid(s.todoState)
    requires id !in s.todoState.entities
    requires id !in s.notificationState
    ensures var r := Root.DispatchAll(s, HandleAddTodoWithNotification(id, name));
            && TodoReducer.Valid(r.todoState)
            && r.todoState.ids == s.todoState.ids + [id]
            && Selectors.GetTodo(r, id) == Some(Todo(id, name, false))
            && r.filterState == s.filterState
            && r.notificationState == s.notificationState
  {
    var actions := HandleAddTodoWithNotification(id, name);
    var mid := Root.Dispatch(s, actions[0]);
    TodoReducer.AddPreservesValid(s.todoState, id, name);
    NotificationReducer.HideAfterAddRestores(s.notificationState, id, name);
    assert Root.DispatchAll(s, actions) == Root.DispatchAll(mid, actions[1..]);
    assert actions[1..][0] == actions[1] && actions[1..][1..] == [];
    assert Root.DispatchAll(mid, actions[1..]) == Root.Dispatch(mid, actions[1]);
  }

  /** Dispatching the intent runs the same two state changes as the saga alone, and from a
      valid state with a fresh id it adds the todo and restores the notification map. */
  lemma AddTodoWithNotificationEffect(s: Root.State, id: Id, name: string)
    requires TodoReducer.Valid(s.todoState)
    requires id !in s.todoState.entities
    requires id !in s.notificationState
    ensures AddTodoWithNotification(s, id, name) == Root.DispatchAll(s, HandleAddTodoWithNotification(id, name))
    ensures var r := AddTodoWithNotification(s, id, name);
            && TodoReducer.Valid(r.todoState)
            && r.todoState.ids == s.todoState.ids + [id]
            && Selectors.GetTodo(r, id) == Some(Todo(id, name, false))
            && r.filterState == s.filterState
            && r.notificationState == s.notificationState
  {
    SagaEffect(s, id, name);
  }
}
