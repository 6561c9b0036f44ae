# Normalized todo store: reducers, selectors and the notification saga

This project models the state layer of the Redux todo application in `src/index.js`:

- the normalized todo slice, an entity table keyed by id plus an insertion-ordered id list, and its reducer (`todoReducer`, `applyAddTodo`, `applyToggleTodo`);
- the visibility-filter slice (`filterReducer`, `applySetFilter`);
- the notification slice, a map from todo id to message (`notificationReducer`, `applySetNotifyAboutAddTodo`, `applyRemoveNotification`);
- the root state as `combineReducers` builds it, with "dispatch" read as applying the root reducer;
- the selectors (`VISIBILITY_FILTERS`, `getTodosAsIds`, `getTodo`, `getNotifications`);
- the add-with-notification saga (`handleAddTodoWithNotification`), reduced to the ordered pair of actions it dispatches.

Modules, leaf to root:

| file | module | contents |
|---|---|---|
| `types.dfy` | `Types` | `Todo`, the closed `Filter` enum with its predicate table, the closed `Action` union, `Result`/`Option` |
| `todo_reducer.dfy` | `TodoReducer` | `TodoState`, the table invariant `Valid`, add and toggle, their invariant and involution lemmas |
| `filter_reducer.dfy` | `FilterReducer` | filter replacement and its idempotence |
| `notification_reducer.dfy` | `NotificationReducer` | announce and hide, hide-after-add round trip |
| `root.dfy` | `Root` | root state, seeded initial state, root reducer, dispatch, invariant of reachable states |
| `selectors.dfy` | `Selectors` | the visible-ids pipeline, its reference definition and properties, `GetTodo`, the message multiset |
| `saga.dfy` | `Saga` | the saga's two-action sequence and its effect on the store |

Modelling decisions:

- Toggling an id that has no entry in the entity table throws (src/index.js:75-76): the lookup yields `undefined` and reading its `completed` flag fails. The model returns `Err(NotFound(id))`. Redux does not replace its state when a reducer throws, so `Root.Dispatch` keeps the previous state in that case. Entity tables are modelled as pure maps; "## Left out" covers ids that name `Object.prototype` members.
- A TODO_ADD whose id is already in the table is modelled as written: the entity is overwritten and the id is listed a second time. `TodoReducer.AddDuplicateBreaksValid` shows that this breaks the table invariant. Every invariant lemma therefore requires the added id to be fresh (`TodoReducer.Admissible`, `Root.FreshAdds`).
- The seeded todos (src/index.js:34-45) have no `completed` field. Every use of the flag reads an absent flag as false: the filter predicates, and the negation in toggle. So the seeds are stored with `completed = false`.
- `getTodosAsIds` dereferences every listed id. A listed id without an entity makes it throw. Its precondition `Resolves` says every listed id has an entity. The table invariant implies it, and `Root.ReachableResolves` shows that it holds in every reachable state, duplicate adds included.
- The selector returns the `id` field of each admitted entity. `Selectors.PipelineIsVisibleIds` shows that this equals a filter over `ids` itself whenever entities are stored under their own ids (`TodoReducer.OwnIds`). Every dispatch keeps that true, duplicate adds included, so `Selectors.ReachableView` states the equality for every reachable state.

## Model

| member | source | states |
|---|---|---|
| Types.Filter.Admits | src/index.js:14-18 | SHOW_COMPLETED admits exactly the completed todos, SHOW_INCOMPLETED exactly the uncompleted ones, SHOW_ALL every todo |
| TodoReducer.ApplyAddTodo | src/index.js:66-71 | the id is appended to `ids`; the entity under it is `{id, name, completed: false}`; the key set grows by that id; every other entity is unchanged |
| TodoReducer.ApplyToggleTodo | src/index.js:73-79 | succeeds exactly when the id has an entity and otherwise fails with NotFound; `completed` is flipped, `id` and `name` are kept; `ids`, the key set and every other entity are unchanged |
| TodoReducer.Reduce | src/index.js:54-64 | fails only on a toggle of an absent id; TODO_ADD is exactly `ApplyAddTodo` and TODO_TOGGLE exactly `ApplyToggleTodo`, so their table contracts carry over; every other action leaves the slice unchanged |
| TodoReducer.AddPreservesValid | src/index.js:66-71 | adding under a fresh id keeps `ids` duplicate-free, equal to the entity keys, with each entity stored under its own id |
| TodoReducer.AddDuplicateBreaksValid | src/index.js:66-71 | adding under an id already present breaks the table invariant |
| TodoReducer.TogglePreservesValid | src/index.js:73-79 | a successful toggle keeps the table invariant |
| TodoReducer.ToggleInvolution | src/index.js:73-79 | toggling the same id twice returns the original todo slice |
| TodoReducer.ReduceToggleInvolution | src/index.js:54-64 | dispatching TODO_TOGGLE twice through the slice reducer is the identity on a present id |
| TodoReducer.ReducePreservesValid | src/index.js:54-79 | every successful reduction whose added id is fresh keeps the table invariant |
| FilterReducer.Reduce | src/index.js:81-92 | FILTER_SET yields its filter; every other action keeps the current filter |
| FilterReducer.ApplySetFilter | src/index.js:90-92 | the new filter value is the action's filter, whatever the current value |
| FilterReducer.SetFilterIdempotent | src/index.js:81-92 | setting the same filter twice equals setting it once |
| FilterReducer.SetFilterForgetsPrevious | src/index.js:90-92 | the result of FILTER_SET does not depend on the filter it replaces |
| NotificationReducer.ApplySetNotifyAboutAddTodo | src/index.js:106-109 | the id maps to "Todo Created: " followed by the name; the key set grows by the id; other keys are unchanged |
| NotificationReducer.ApplyRemoveNotification | src/index.js:111-117 | exactly the key `id` is removed; other entries are unchanged; the size drops by one if the key was present; an absent id is a no-op |
| NotificationReducer.Reduce | src/index.js:94-104 | TODO_ADD adds exactly the key `id`, mapped to its creation message; NOTIFICATION_HIDE removes exactly that key; other actions leave the map unchanged; entries for other ids always survive |
| NotificationReducer.HideAfterAddRestores | src/index.js:94-117 | hiding the notification of a todo just added under a fresh id restores the original map |
| NotificationReducer.HideIdempotent | src/index.js:111-117 | hiding twice equals hiding once |
| Root.RootReducer | src/index.js:193-197 | fails exactly on a toggle of an absent id; otherwise each slice is the result of its own slice reducer on its own slice |
| Root.Dispatch | src/index.js:202-206 | the store's state after a dispatch is the root reducer's result, or the previous state when the reducer fails |
| Root.DispatchAll | src/index.js:193-197 | dispatching no actions keeps the state; dispatching one action is a single dispatch |
| Root.DispatchAllAppend | src/index.js:193-197 | dispatching `a` and then `b` gives the same state as dispatching `a + b` |
| Root.InitialStateShape | src/index.js:34-52 | the initial state lists the ten seeded ids "1" to "10" in order, all uncompleted, with filter SHOW_ALL and no notification pending |
| Root.InitialIdsDistinct | src/index.js:34-45 | the ten seeded ids are pairwise different |
| Root.InitialStateValid | src/index.js:34-52 | the ten seeded todos form a valid table |
| Root.DispatchPreservesValid | src/index.js:193-197 | one dispatch whose added id is fresh keeps the table invariant, whether or not the reducer fails |
| Root.DispatchAllPreservesValid | src/index.js:193-197 | any sequence of dispatches that adds only fresh ids keeps the table invariant |
| Root.ReachableValid | src/index.js:34-52 | every state reached from the seeded store by such dispatches satisfies the table invariant |
| Root.DispatchPreservesResolves | src/index.js:54-79 | every dispatch, duplicate adds and failed toggles included, keeps each listed id resolvable |
| Root.DispatchAllPreservesResolves | src/index.js:54-79 | any sequence of dispatches keeps each listed id resolvable, with no freshness condition |
| Root.ReachableResolves | src/index.js:158-163 | in every state reachable from the seeded store, each listed id has an entity, so the visible-ids selector's precondition holds |
| Root.DispatchPreservesOwnIds | src/index.js:54-79 | every dispatch, duplicate adds and failed toggles included, keeps each entity stored under its own id |
| Root.DispatchAllPreservesOwnIds | src/index.js:54-79 | any sequence of dispatches keeps each entity stored under its own id |
| Root.ReachableOwnIds | src/index.js:34-79 | in every state reachable from the seeded store, by any dispatches, each entity is stored under its own id |
| Root.IntentIgnoredByReducers | src/index.js:54-104 | the TODO_ADD_WITH_NOTIFICATION intent leaves all three slices unchanged |
| Root.FailedToggleKeepsState | src/index.js:73-79 | toggling an absent id fails with NotFound and leaves the store's state unchanged |
| Selectors.Lookup | src/index.js:160 | the result has one entity per listed id, in list order |
| Selectors.Keep | src/index.js:161 | every kept todo is admitted by the filter, and the result is no longer than the input |
| Selectors.KeepAppend | src/index.js:161 | filtering a concatenation is the concatenation of the filtered parts, so kept todos stay in input order |
| Selectors.KeepSingleton | src/index.js:161 | a single todo is kept exactly when the filter admits it |
| Selectors.KeepMembership | src/index.js:161 | a todo is in the result exactly when it is in the input and the filter admits it |
| Selectors.KeepCount | src/index.js:161 | an admitted todo is kept as many times as it occurs in the input; any other todo is dropped |
| Selectors.IdsOf | src/index.js:162 | position by position, the result holds the ids of the input todos |
| Selectors.PipelineIsVisibleIds | src/index.js:158-163 | the lookup, filter and projection pipeline equals the reference filter over `ids` when entities are stored under their own ids |
| Selectors.GetTodosAsIds | src/index.js:158-163 | the result is no longer than `ids`, and whenever every entity is stored under its own id it equals the reference filter over `ids` by the active filter's predicate |
| Selectors.ReachableView | src/index.js:158-163 | in every state reachable from the seeded store, by any dispatches, the selector is defined and equals the reference filter over `ids` |
| Selectors.VisibleIdsMembership | src/index.js:158-163 | an id is visible exactly when it is listed and the active filter admits its entity |
| Selectors.VisibleIdsEmbedding | src/index.js:158-163 | the visible ids sit at strictly increasing positions of `ids` |
| Selectors.VisibleIdsSubsequence | src/index.js:158-163 | the visible ids are an order-preserving subsequence of `ids` |
| Selectors.ShowAllIsIds | src/index.js:14-18 | under SHOW_ALL the visible ids are exactly `ids` |
| Selectors.CompletedIncompletedPartition | src/index.js:14-18 | the SHOW_COMPLETED and SHOW_INCOMPLETED views together hold `ids` as a multiset and share no id |
| Selectors.VisibleIdsAppend | src/index.js:158-163 | the view of a concatenation of id lists is the concatenation of their views |
| Selectors.VisibleIdsFrame | src/index.js:158-163 | changing the entity of an unlisted id leaves the view unchanged |
| Selectors.VisibleIdsAfterAdd | src/index.js:158-163 | listing a new id with a new entity keeps the old view and appends the id exactly when the filter admits its entity |
| Selectors.AddAppearsLast | src/index.js:158-163 | after adding under a fresh id, the visible ids are the old ones followed by the new id, except under SHOW_COMPLETED where they are unchanged |
| Selectors.ToggleSwitchesView | src/index.js:14-18 | after a toggle the id is in the completed view exactly when it was in the uncompleted view before |
| Selectors.GetTodo | src/index.js:165-167 | a todo is found exactly when the table has an entity under the id, and it is that stored entity; on a valid state that means the id is listed and the todo carries it |
| Selectors.Messages | src/index.js:169-175 | one message per pending notification |
| Selectors.GetNotifications | src/index.js:169-171 | one message per pending notification, and a message is listed exactly when some pending notification carries it |
| Selectors.MessagesRemove | src/index.js:173-174 | the message multiset is the messages of the other keys plus the message under any chosen key |
| Selectors.MessagesContents | src/index.js:169-175 | a message is listed exactly when some pending notification carries it |
| Selectors.MessagesAfterAdd | src/index.js:106-109 | announcing a todo under a fresh id adds its creation message to the list |
| Selectors.MessagesAfterHide | src/index.js:111-117 | hiding a pending notification removes exactly its message from the list |
| Saga.HandleAddTodoWithNotification | src/index.js:183-189 | the saga dispatches TODO_ADD with the intent's id and name, then NOTIFICATION_HIDE with the same id |
| Saga.SagaFirstStep | src/index.js:183-186 | after the first step the new todo is listed last, uncompleted and valid, and its creation message is pending |
| Saga.SagaEffect | src/index.js:183-189 | from a valid state with a fresh id and no notification for it, both steps leave the todo present and uncompleted, the filter unchanged and the notification map equal to its original value |
| Saga.AddTodoWithNotification | src/index.js:179-189 | dispatching the intent and then the saga's two actions yields the same state as the saga's actions alone, for every state |
| Saga.AddTodoWithNotificationEffect | src/index.js:179-189 | the whole workflow equals the saga-only run; from a valid state with a fresh id and no notification for it, the id is appended to `ids`, the todo is present and uncompleted, the filter is unchanged and the notification map is restored |

## Left out

- React components, `connect` mappings and `ReactDOM.render` (src/index.js:210-365): UI rendering and DOM wiring.
- Store construction, `applyMiddleware`, the logger and the saga middleware runtime (src/index.js:199-208): library code. Dispatch is modelled as applying the root reducer, keeping the old state when it fails.
- The 5000 ms `delay` and the interleaving of concurrent saga instances (src/index.js:187): the workflow is modelled as its two actions dispatched back to back. Other actions dispatched during the wait are not modelled.
- `uuid()` id generation (src/index.js:338): ids are parameters.
- The `normalizr` call that builds the initial state (src/index.js:22, 47-52): a library call. The seeded table is written out as a literal.
- Selectors.GetNotifications: the order of the returned array depends on JavaScript key-ordering rules, so the messages are modelled as a multiset.
- JavaScript plain objects are modelled as pure maps, so ids are assumed not to name `Object.prototype` members such as `"toString"` or `"constructor"`. For such an id, `state.entities[id]` yields the inherited function instead of `undefined`. Toggling it then stores `{completed: true}` under a key missing from `ids` instead of throwing, and `getTodo` returns that function. The application only toggles listed ids and adds `uuid()` ids, so neither case arises there.
- Filter strings outside the three known values: the filter is a closed enum. Most unknown strings make `getTodosAsIds` throw, because `VISIBILITY_FILTERS[filter]` is `undefined`. Names of `Object.prototype` members behave differently. For `"constructor"` the lookup yields `Object`, and for `"toString"` it yields `Object.prototype.toString`. Both return a truthy value for every todo, so the selector keeps every todo, as SHOW_ALL does. Neither path is modelled; the application only dispatches the three known values.
- Redux's internal initialisation action and the `state = default` parameters are folded into `Root.InitialState`.
- The action creators (src/index.js:121-154) are the constructors of `Types.Action`.
