/** The notification slice: a map from todo id to the message shown for it. */
module NotificationReducer {
  import opened Types

  type Notifications = map<Id, string>

  const InitialNotifications: Notifications := map[]

  /** The text every creation notification starts with. */
  const CreatedPrefix: string := "Todo Created: "

  /** TODO_ADD: announce the new todo under its id, overwriting any message already there. */
  function ApplySetNotifyAboutAddTodo(n: Notifications, id: Id, name: string): (r: Notifications)
    ensures r.Keys == n.Keys + {id}
    ensures r[id] == CreatedPrefix + name
    ensures forall k :: k in n && k != id ==> r[k] == n[k]
  {
    n[id := CreatedPrefix + name]
  }

  /** NOTIFICATION_HIDE: drop exactly the entry for `id`; an absent id changes nothing. */
  function ApplyRemoveNotification(n: Notifications, id: Id): (r: Notifications)
    ensures r.Keys == n.Keys - {id}
    ensures forall k :: k in r ==> r[k] == n[k]
    ensures id in n ==> |r| == |n| - 1
    ensures id !in n ==> r == n
  {
    n - {id}
  }

  /** The notification slice reducer: TODO_ADD announces, NOTIFICATION_HIDE removes. */
  function Reduce(n: Notifications, a: Action): (r: Notifications)
    ensures a.TodoAdd? ==> r.Keys == n.Keys + {a.id} && r[a.id] == CreatedPrefix + a.name
    ensures a.NotificationHide? ==> a.id !in r && r.Keys == n.Keys - {a.id}
    ensures !a.TodoAdd? && !a.NotificationHide? ==> r == n
    ensures forall k :: k in n && ((a.TodoAdd? || a.NotificationHide?) ==> k != a.id) ==> k in r && r[k] == n[k]
  {
    match a
    case TodoAdd(id, name) => ApplySetNotifyAboutAddTodo(n, id, name)
    case NotificationHide(id) => ApplyRemoveNotification(n, id)
    case _ => n
  }

  /** Hiding the notification of a freshly announced todo restores the map it started from. */
  lemma HideAfterAddRestores(n: Notifications, id: Id, name: string)
    requires id !in n
    ensures Reduce(Reduce(n, TodoAdd(id, name)), NotificationHide(id)) == n
  {
  }

  /** Hiding twice is hiding once. */
  lemma HideIdempotent(n: Notifications, id: Id)
    ensures Reduce(Reduce(n, NotificationHide(id)), NotificationHide(id)) == Reduce(n, NotificationHide(id))
  {
  }
}
