/** The normalized todo slice: an entity table keyed by id plus the insertion-ordered id list. */
module TodoReducer {
  import opened Types

  datatype TodoState = TodoState(entities: map<Id, Todo>, ids: seq<Id>)

  /** No id is listed twice. */
  predicate Distinct(ids: seq<Id>) {
    forall i, j :: 0 <= i < j < |ids| ==> ids[i] != ids[j]
  }

  /** Every listed id has an entity; the selectors dereference each one. */
  predicate Resolves(ts: TodoState) {
    forall i :: 0 <= i < |ts.ids| ==> ts.ids[i] in ts.entities
  }

  /** Every entity is stored under its own id. Unlike distinctness, this survives duplicate adds. */
  predicate OwnIds(ts: TodoState) {
    forall id :: id in ts.entities ==> ts.entities[id].id == id
  }

  /** The table invariant: `ids` has no duplicates, lists exactly the keys of `entities`,
      and every entity is stored under its own id. */
  predicate Valid(ts: TodoState) {
    && Distinct(ts.ids)
    && Resolves(ts)
    && (forall id :: id in ts.entities ==> id in ts.ids && ts.entities[id].id == id)
  }

  /** TODO_ADD: store a fresh, uncompleted todo and append its id. A duplicate id is not
      rejected: the entity is overwritten and the id is listed a second time. */
  function ApplyAddTodo(ts: TodoState, id: Id, name: string): (r: TodoState)
    ensures r.ids == ts.ids + [id]
    ensures r.entities.Keys == ts.entities.Keys + {id}
    ensures r.entities[id] == Todo(id, name, false)
    ensures forall k :: k in ts.entities && k != id ==> r.entities[k] == ts.entities[k]
  {
    TodoState(ts.entities[id := Todo(id, name, false)], ts.ids + [id])
  }

  /** TODO_TOGGLE: flip `completed` on the entity stored under `id`. Reading the flag of a
      missing entity fails, which is reported as `NotFound`. */
  function ApplyToggleTodo(ts: TodoState, id: Id): (r: Result<TodoState>)
    ensures r.Ok? <==> id in ts.entities
    ensures r.Err? ==> r.error == NotFound(id)
    ensures r.Ok? ==> r.value.ids == ts.ids && r.value.entities.Keys == ts.entities.Keys
    ensures r.Ok? ==>
              var before := ts.entities[id];
              var after := r.value.entities[id];
              after.id == before.id && after.name == before.name && after.completed == !before.completed
    ensures r.Ok? ==> forall k :: k in ts.entities && k != id ==> r.value.entities[k] == ts.entities[k]
  {
    if id !in ts.entities then Err(NotFound(id))
    else
      var todo := ts.entities[id];
      Ok(ts.(entities := ts.entities[id := todo.(completed := !todo.completed)]))
  }

  /** The todo slice reducer: only TODO_ADD and TODO_TOGGLE touch it. */
  function Reduce(ts: TodoState, a: Action): (r: Result<TodoState>)
    ensures r.Err? <==> a.TodoToggle? && a.id !in ts.entities
    ensures !a.TodoAdd? && !a.TodoToggle? ==> r == Ok(ts)
    ensures a.TodoAdd? ==> r == Ok(ApplyAddTodo(ts, a.id, a.name))
    ensures a.TodoToggle? ==> r == ApplyToggleTodo(ts, a.id)
  {
    match a
    case TodoAdd(id, name) => Ok(ApplyAddTodo(ts, id, name))
    case TodoToggle(id) => ApplyToggleTodo(ts, id)
    case _ => Ok(ts)
  }

  /** Adding a todo under a fresh id keeps the table invariant. */
  lemma AddPreservesValid(ts: TodoState, id: Id, name: string)
    requires Valid(ts)
    requires id !in ts.entities
    ensures Valid(ApplyAddTodo(ts, id, name))
  {
  }

  /** Adding a todo whose id is already listed breaks the invariant: the id appears twice. */
  lemma AddDuplicateBreaksValid(ts: TodoState, id: Id, name: string)
    requires Valid(ts)
    requires id in ts.entities
    ensures !Valid(ApplyAddTodo(ts, id, name))
  {
    var r := ApplyAddTodo(ts, id, name);
    var i :| 0 <= i < |ts.ids| && ts.ids[i] == id;
    assert r.ids[i] == r.ids[|ts.ids|];
  }

  /** Toggling keeps the table invariant. */
  lemma TogglePreservesValid(ts: TodoState, id: Id)
    requires Valid(ts)
    requires ApplyToggleTodo(ts, id).Ok?
    ensures Valid(ApplyToggleTodo(ts, id).value)
  {
  }

  /** Toggling the same todo twice restores the todo slice exactly. */
  lemma ToggleInvolution(ts: TodoState, id: Id)
    requires id in ts.entities
    ensures ApplyToggleTodo(ts, id).Ok?
    ensures ApplyToggleTodo(ApplyToggleTodo(ts, id).value, id) == Ok(ts)
  {
    var once := ApplyToggleTodo(ts, id).value;
    var twice := ApplyToggleTodo(once, id).value;
    assert twice.entities == ts.entities;
  }

  /** The reducer-level form: dispatching TODO_TOGGLE twice is the identity on valid ids. */
  lemma ReduceToggleInvolution(ts: TodoState, id: Id)
    requires id in ts.entities
    ensures Reduce(ts, TodoToggle(id)).Ok?
    ensures Reduce(Reduce(ts, TodoToggle(id)).value, TodoToggle(id)) == Ok(ts)
  {
    ToggleInvolution(ts, id);
  }

  /** Actions that add a todo must use a fresh id for the invariant to survive. */
  predicate Admissible(ts: TodoState, a: Action) {
    a.TodoAdd? ==> a.id !in ts.entities
  }

  /** Every successful, admissible reduction keeps the table invariant. */
  lemma ReducePreservesValid(ts: TodoState, a: Action)
    requires Valid(ts)
    requires Admissible(ts, a)
    requires Reduce(ts, a).Ok?
    ensures Valid(Reduce(ts, a).value)
  {
    match a
    case TodoAdd(id, name) => AddPreservesValid(ts, id, name);
    case TodoToggle(id) => TogglePreservesValid(ts, id);
    case _ =>
  }
}
