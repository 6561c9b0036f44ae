/** Derived views over the root state: the visible todo ids, a single todo, and the messages
    of the pending notifications. */
module Selectors {
  import opened Types
  import opened TodoReducer
  import NotificationReducer
  import Root

  /** Look each id up in the entity table, keeping the order of `ids`. */
  function Lookup(entities: map<Id, Todo>, ids: seq<Id>): (r: seq<Todo>)
    requires forall i :: 0 <= i < |ids| ==> ids[i] in entities
    ensures |r| == |ids|
    ensures forall i :: 0 <= i < |ids| ==> r[i] == entities[ids[i]]
  {
    if ids == [] then [] else [entities[ids[0]]] + Lookup(entities, ids[1..])
  }

  /** Concatenation is associative. */
  lemma AppendAssoc<T>(x: seq<T>, y: seq<T>, z: seq<T>)
    ensures x + (y + z) == (x + y) + z
  {
  }

  /** Keep the todos the filter admits, in order. */
  function Keep(todos: seq<Todo>, f: Filter): (r: seq<Todo>)
    ensures |r| <= |todos|
    ensures forall i :: 0 <= i < |r| ==> f.Admits(r[i])
  {
    if todos == [] then []
    else (if f.Admits(todos[0]) then [todos[0]] else []) + Keep(todos[1..], f)
  }

  /** Filtering distributes over concatenation and decides each todo on its own, so the kept
      todos appear in their original order. */
  lemma {:induction false} KeepAppend(a: seq<Todo>, b: seq<Todo>, f: Filter)
    ensures Keep(a + b, f) == Keep(a, f) + Keep(b, f)
    decreases |a|
  {
    if a == [] {
      assert a + b == b;
    } else {
      var tail := a[1..];
      var ab := a + b;
      assert ab[0] == a[0];
      assert ab[1..] == tail + b;
      KeepAppend(tail, b, f);
      AppendAssoc(if f.Admits(a[0]) then [a[0]] else [], Keep(tail, f), Keep(b, f));
    }
  }

  /** An admitted todo is kept as many times as it occurs; any other is dropped. */
  lemma {:induction false} KeepCount(todos: seq<Todo>, f: Filter, t: Todo)
    ensures multiset(Keep(todos, f))[t] == if f.Admits(t) then multiset(todos)[t] else 0
    decreases |todos|
  {
    if todos != [] {
      assert todos == [todos[0]] + todos[1..];
      KeepCount(todos[1..], f, t);
    }
  }

  /** A todo is kept exactly when it is in the input and the filter admits it. */
  lemma {:induction false} KeepMembership(todos: seq<Todo>, f: Filter, t: Todo)
    ensures t in Keep(todos, f) <==> t in todos && f.Admits(t)
    decreases |todos|
  {
    if todos != [] {
      KeepMembership(todos[1..], f, t);
      assert t in todos <==> t == todos[0] || t in todos[1..];
    }
  }

  /** A single todo is kept exactly when the filter admits it. */
  lemma KeepSingleton(t: Todo, f: Filter)
    ensures Keep([t], f) == if f.Admits(t) then [t] else []
  {
    assert [t][1..] == [];
  }

  /** Project each todo to its id. */
  function IdsOf(todos: seq<Todo>): (r: seq<Id>)
    ensures |r| == |todos|
    ensures forall i :: 0 <= i < |todos| ==> r[i] == todos[i].id
  {
    if todos == [] then [] else [todos[0].id] + IdsOf(todos[1..])
  }

  /** The visible-ids selector as the store computes it: ids to entities, filter by the active
      filter's predicate, entities back to ids. A listed id without an entity makes the
      selector fail, so every listed id must resolve. When every entity carries its own id the
      result is the reference filter over `ids`. */
  function GetTodosAsIds(s: Root.State): (r: seq<Id>)
    requires Resolves(s.todoState)
    ensures |r| <= |s.todoState.ids|
    ensures OwnIds(s.todoState) ==> r == VisibleIds(s.todoState.entities, s.todoState.ids, s.filterState)
  {
    var r := IdsOf(Keep(Lookup(s.todoState.entities, s.todoState.ids), s.filterState));
    assert OwnIds(s.todoState) ==> r == VisibleIds(s.todoState.entities, s.todoState.ids, s.filterState) by {
      if OwnIds(s.todoState) {
        PipelineIsVisibleIds(s.todoState.entities, s.todoState.ids, s.filterState);
      }
    }
    r
  }

  /** Reference definition: the ids, in list order, whose entity the filter admits. */
  function VisibleIds(entities: map<Id, Todo>, ids: seq<Id>, f: Filter): (r: seq<Id>)
    requires forall i :: 0 <= i < |ids| ==> ids[i] in entities
    ensures |r| <= |ids|
  {
    if ids == [] then []
    else (if f.Admits(entities[ids[0]]) then [ids[0]] else []) + VisibleIds(entities, ids[1..], f)
  }

  /** `idx` lists, in strictly increasing order, the positions in `b` that spell out `a`. */
  ghost predicate Embeds<T>(idx: seq<nat>, a: seq<T>, b: seq<T>) {
    && |idx| == |a|
    && (forall i :: 0 <= i < |idx| ==> idx[i] < |b| && a[i] == b[idx[i]])
    && (forall i, j :: 0 <= i < j < |idx| ==> idx[i] < idx[j])
  }

  /** `a` is `b` with some elements left out and the rest in their original order. */
  ghost predicate IsSubsequence<T>(a: seq<T>, b: seq<T>) {
    exists idx: seq<nat> :: Embeds(idx, a, b)
  }

  /** The store's selector agrees with the reference definition whenever entities are stored
      under their own ids. */
  lemma {:induction false} PipelineIsVisibleIds(entities: map<Id, Todo>, ids: seq<Id>, f: Filter)
    requires forall i :: 0 <= i < |ids| ==> ids[i] in entities && entities[ids[i]].id == ids[i]
    ensures IdsOf(Keep(Lookup(entities, ids), f)) == VisibleIds(entities, ids, f)
    decreases |ids|
  {
    if ids != [] {
      var todos := Lookup(entities, ids);
      assert todos[1..] == Lookup(entities, ids[1..]);
      PipelineIsVisibleIds(entities, ids[1..], f);
      var kept := (if f.Admits(todos[0]) then [todos[0]] else []);
      IdsOfAppend(kept, Keep(todos[1..], f));
    }
  }

  /** Projecting ids distributes over concatenation. */
  lemma {:induction false} IdsOfAppend(a: seq<Todo>, b: seq<Todo>)
    ensures IdsOf(a + b) == IdsOf(a) + IdsOf(b)
  {
    var l, r := IdsOf(a + b), IdsOf(a) + IdsOf(b);
    assert |l| == |r|;
    forall i | 0 <= i < |l|
      ensures l[i] == r[i]
    {
      if i < |a| {
        assert (a + b)[i] == a[i];
      } else {
        assert (a + b)[i] == b[i - |a|];
      }
    }
  }

  /** A visible id is a listed id whose entity the filter admits, and conversely. */
  lemma {:induction false} VisibleIdsMembership(entities: map<Id, Todo>, ids: seq<Id>, f: Filter, x: Id)
    requires forall i :: 0 <= i < |ids| ==> ids[i] in entities
    ensures x in VisibleIds(entities, ids, f) <==> x in ids && f.Admits(entities[x])
    decreases |ids|
  {
    if ids != [] {
      VisibleIdsMembership(entities, ids[1..], f, x);
      assert x in ids <==> x == ids[0] || x in ids[1..];
    }
  }

  /** Every position moved one place to the right. */
  function Shift(idx: seq<nat>): (r: seq<nat>)
    ensures |r| == |idx|
    ensures forall i :: 0 <= i < |idx| ==> r[i] == idx[i] + 1
  {
    seq(|idx|, i requires 0 <= i < |idx| => idx[i] + 1)
  }

  /** An embedding survives putting a new element in front of the host sequence. */
  lemma EmbedsSkip<T>(idx: seq<nat>, a: seq<T>, b: seq<T>, x: T)
    requires Embeds(idx, a, b)
    ensures Embeds(Shift(idx), a, [x] + b)
  {
    var r := Shift(idx);
    forall i | 0 <= i < |r|
      ensures r[i] < |[x] + b| && a[i] == ([x] + b)[r[i]]
    {
      assert ([x] + b)[idx[i] + 1] == b[idx[i]];
    }
  }

  /** An embedding extends when the same element is put in front of both sequences. */
  lemma EmbedsTake<T>(idx: seq<nat>, a: seq<T>, b: seq<T>, x: T)
    requires Embeds(idx, a, b)
    ensures Embeds([0] + Shift(idx), [x] + a, [x] + b)
  {
    EmbedsSkip(idx, a, b, x);
    var r := [0] + Shift(idx);
    forall i | 0 <= i < |r|
      ensures r[i] < |[x] + b| && ([x] + a)[i] == ([x] + b)[r[i]]
    {
      if i > 0 {
        assert r[i] == Shift(idx)[i - 1];
        assert ([x] + a)[i] == a[i - 1];
      }
    }
  }

  /** The visible ids keep the relative order of `ids`: the witness positions are increasing. */
  lemma {:induction false} VisibleIdsEmbedding(entities: map<Id, Todo>, ids: seq<Id>, f: Filter)
    returns (idx: seq<nat>)
    requires forall i :: 0 <= i < |ids| ==> ids[i] in entities
    ensures Embeds(idx, VisibleIds(entities, ids, f), ids)
    decreases |ids|
  {
    if ids == [] {
      idx := [];
    } else {
      var tail := ids[1..];
      var rest := VisibleIdsEmbedding(entities, tail, f);
      var v := VisibleIds(entities, tail, f);
      assert ids == [ids[0]] + tail;
      if f.Admits(entities[ids[0]]) {
        EmbedsTake(rest, v, tail, ids[0]);
        idx := [0] + Shift(rest);
      } else {
        EmbedsSkip(rest, v, tail, ids[0]);
        idx := Shift(rest);
      }
    }
  }

  /** The visible ids are an order-preserving subsequence of `ids`. */
  lemma VisibleIdsSubsequence(entities: map<Id, Todo>, ids: seq<Id>, f: Filter)
    requires forall i :: 0 <= i < |ids| ==> ids[i] in entities
    ensures IsSubsequence(VisibleIds(entities, ids, f), ids)
  {
    var idx := VisibleIdsEmbedding(entities, ids, f);
  }

  /** Under SHOW_ALL every listed id is visible, in order. */
  lemma {:induction false} ShowAllIsIds(entities: map<Id, Todo>, ids: seq<Id>)
    requires forall i :: 0 <= i < |ids| ==> ids[i] in entities
    ensures VisibleIds(entities, ids, ShowAll) == ids
    decreases |ids|
  {
    if ids != [] {
      ShowAllIsIds(entities, ids[1..]);
    }
  }

  /** The completed and the uncompleted views split `ids`: together they hold every listed id
      exactly as often as `ids` does, and no id is in both. */
  lemma {:induction false} CompletedIncompletedPartition(entities: map<Id, Todo>, ids: seq<Id>)
    requires forall i :: 0 <= i < |ids| ==> ids[i] in entities
    ensures multiset(VisibleIds(entities, ids, ShowCompleted)) + multiset(VisibleIds(entities, ids, ShowIncompleted))
            == multiset(ids)
    ensures forall x :: x in VisibleIds(entities, ids, ShowCompleted) ==> x !in VisibleIds(entities, ids, ShowIncompleted)
    decreases |ids|
  {
    if ids != [] {
      CompletedIncompletedPartition(entities, ids[1..]);
      assert ids == [ids[0]] + ids[1..];
      forall x | x in VisibleIds(entities, ids, ShowCompleted)
        ensures x !in VisibleIds(entities, ids, ShowIncompleted)
      {
        VisibleIdsMembership(entities, ids, ShowCompleted, x);
        VisibleIdsMembership(entities, ids, ShowIncompleted, x);
      }
    }
  }

  /** The view of a list with a first id is that id, when admitted, followed by the view of
      the rest. */
  lemma VisibleIdsCons(entities: map<Id, Todo>, x: Id, rest: seq<Id>, f: Filter)
    requires x in entities
    requires forall i :: 0 <= i < |rest| ==> rest[i] in entities
    ensures VisibleIds(entities, [x] + rest, f)
            == (if f.Admits(entities[x]) then [x] else []) + VisibleIds(entities, rest, f)
  {
  }

  /** The view of a concatenation of id lists is the concatenation of their views. */
  lemma {:induction false} VisibleIdsAppend(entities: map<Id, Todo>, a: seq<Id>, b: seq<Id>, f: Filter)
    requires forall i :: 0 <= i < |a| ==> a[i] in entities
    requires forall i :: 0 <= i < |b| ==> b[i] in entities
    ensures VisibleIds(entities, a + b, f) == VisibleIds(entities, a, f) + VisibleIds(entities, b, f)
    decreases |a|
  {
    if a == [] {
      assert a + b == b;
    } else {
      var x, tail := a[0], a[1..];
      var tb := tail + b;
      assert a == [x] + tail;
      assert a + b == [x] + tb;
      VisibleIdsCons(entities, x, tail, f);
      VisibleIdsCons(entities, x, tb, f);
      VisibleIdsAppend(entities, tail, b, f);
      AppendAssoc(if f.Admits(entities[x]) then [x] else [], VisibleIds(entities, tail, f), VisibleIds(entities, b, f));
    }
  }

  /** Storing an entity under an id that is not listed does not change the view of the list. */
  lemma {:induction false} VisibleIdsFrame(entities: map<Id, Todo>, ids: seq<Id>, f: Filter, id: Id, t: Todo)
    requires forall i :: 0 <= i < |ids| ==> ids[i] in entities
    requires id !in ids
    ensures VisibleIds(entities[id := t], ids, f) == VisibleIds(entities, ids, f)
    decreases |ids|
  {
    if ids != [] {
      assert ids[0] != id;
      VisibleIdsFrame(entities, ids[1..], f, id, t);
    }
  }

  /** Listing a new id with a new entity adds it at the end of the view when admitted. */
  lemma VisibleIdsAfterAdd(entities: map<Id, Todo>, ids: seq<Id>, f: Filter, id: Id, t: Todo)
    requires forall i :: 0 <= i < |ids| ==> ids[i] in entities
    requires id !in ids
    ensures VisibleIds(entities[id := t], ids + [id], f)
            == VisibleIds(entities, ids, f) + (if f.Admits(t) then [id] else [])
  {
    var e' := entities[id := t];
    VisibleIdsAppend(e', ids, [id], f);
    VisibleIdsFrame(entities, ids, f, id, t);
    assert [id][1..] == [];
  }

  /** After TODO_ADD with a fresh id, the visible ids are the old ones followed by the new id
      when the active filter admits an uncompleted todo, and are unchanged otherwise. */
  lemma AddAppearsLast(s: Root.State, id: Id, name: string)
    requires Valid(s.todoState)
    requires id !in s.todoState.entities
    ensures Resolves(ApplyAddTodo(s.todoState, id, name))
    ensures GetTodosAsIds(s.(todoState := ApplyAddTodo(s.todoState, id, name)))
            == GetTodosAsIds(s) + (if s.filterState == ShowCompleted then [] else [id])
  {
    var ts := s.todoState;
    var t := Todo(id, name, false);
    var ts' := ApplyAddTodo(ts, id, name);
    assert OwnIds(ts) && id !in ts.ids;
    assert ts'.entities == ts.entities[id := t] && ts'.ids == ts.ids + [id];
    assert OwnIds(ts') && Resolves(ts');
    VisibleIdsAfterAdd(ts.entities, ts.ids, s.filterState, id, t);
  }

  /** In every state reachable from the seeded store, by any dispatches, the selector yields
      the reference filter over `ids`. */
  lemma ReachableView(actions: seq<Action>)
    ensures var s := Root.DispatchAll(Root.InitialState, actions);
            && Resolves(s.todoState)
            && GetTodosAsIds(s) == VisibleIds(s.todoState.entities, s.todoState.ids, s.filterState)
  {
    Root.ReachableResolves(actions);
    Root.ReachableOwnIds(actions);
  }

  /** TODO_TOGGLE moves a listed todo between the completed and the uncompleted views. */
  lemma ToggleSwitchesView(s: Root.State, id: Id)
    requires Valid(s.todoState)
    requires id in s.todoState.entities
    ensures ApplyToggleTodo(s.todoState, id).Ok?
    ensures var ts' := ApplyToggleTodo(s.todoState, id).value;
            id in VisibleIds(ts'.entities, ts'.ids, ShowCompleted)
            <==> id in VisibleIds(s.todoState.entities, s.todoState.ids, ShowIncompleted)
  {
    var ts := s.todoState;
    var ts' := ApplyToggleTodo(ts, id).value;
    VisibleIdsMembership(ts'.entities, ts'.ids, ShowCompleted, id);
    VisibleIdsMembership(ts.entities, ts.ids, ShowIncompleted, id);
  }

  /** The todo stored under `id`, if any. On a valid state it is present exactly when `id` is
      listed, and it carries that id. */
  function GetTodo(s: Root.State, id: Id): (r: Option<Todo>)
    ensures r.Some? <==> id in s.todoState.entities
    ensures r.Some? ==> r.value == s.todoState.entities[id]
    ensures Valid(s.todoState) ==> (r.Some? <==> id in s.todoState.ids)
    ensures Valid(s.todoState) && r.Some? ==> r.value.id == id
  {
    if id in s.todoState.entities then Some(s.todoState.entities[id]) else None
  }

  /** The messages of the pending notifications, counted with multiplicity; the order in
      which the store lists them is not modelled. */
  ghost function Messages(n: NotificationReducer.Notifications): (r: multiset<string>)
    ensures |r| == |n|
    decreases |n|
  {
    if n == map[] then multiset{}
    else
      var k :| k in n;
      assert n.Keys == (n - {k}).Keys + {k};
      Messages(n - {k}) + multiset{n[k]}
  }

  /** The notification selector: the pending messages, one per notification, as a multiset. */
  ghost function GetNotifications(s: Root.State): (r: multiset<string>)
    ensures |r| == |s.notificationState|
    ensures forall m :: m in r <==> m in s.notificationState.Values
  {
    assert forall m :: m in Messages(s.notificationState) <==> m in s.notificationState.Values by {
      forall m
        ensures m in Messages(s.notificationState) <==> m in s.notificationState.Values
      {
        MessagesContents(s.notificationState, m);
      }
    }
    Messages(s.notificationState)
  }

  /** A non-empty map's messages are those of the other keys plus the message under the key
      the definition picks. */
  lemma MessagesUnfold(n: NotificationReducer.Notifications)
    requires n != map[]
    ensures exists k :: k in n && Messages(n) == Messages(n - {k}) + multiset{n[k]}
  {
  }

  /** Removing a key leaves a strictly smaller map that agrees on every other key. */
  lemma RemoveShrinks(n: NotificationReducer.Notifications, k: Id, k': Id)
    requires k in n && k' in n && k != k'
    ensures |n - {k}| < |n|
    ensures k' in n - {k} && (n - {k})[k'] == n[k']
  {
  }

  /** Removing two keys gives the same map in either order. */
  lemma RemoveCommutes(n: NotificationReducer.Notifications, a: Id, b: Id)
    ensures n - {a} - {b} == n - {b} - {a}
  {
  }

  /** Removing any one key removes exactly its message, whichever key the definition picks. */
  lemma {:induction false} MessagesRemove(n: NotificationReducer.Notifications, k: Id)
    requires k in n
    ensures Messages(n) == Messages(n - {k}) + multiset{n[k]}
    decreases |n|
  {
    MessagesUnfold(n);
    var k' :| k' in n && Messages(n) == Messages(n - {k'}) + multiset{n[k']};
    if k' != k {
      var n1, n2 := n - {k'}, n - {k};
      RemoveShrinks(n, k', k);
      RemoveShrinks(n, k, k');
      var m := n1 - {k};
      RemoveCommutes(n, k', k);
      MessagesRemove(n1, k);
      MessagesRemove(n2, k');
      SwapLast(Messages(n1), Messages(n2), Messages(m), n[k], n[k']);
    }
  }

  /** Two multisets that extend a common part by one element each agree once each is extended
      by the other's element. */
  lemma SwapLast(m1: multiset<string>, m2: multiset<string>, rest: multiset<string>, a: string, b: string)
    requires m1 == rest + multiset{a}
    requires m2 == rest + multiset{b}
    ensures m1 + multiset{b} == m2 + multiset{a}
  {
  }

  /** The values of a map are the values of the other keys plus the value under any chosen key. */
  lemma ValuesRemove(n: NotificationReducer.Notifications, k: Id)
    requires k in n
    ensures n.Values == (n - {k}).Values + {n[k]}
  {
    var rest := n - {k};
    forall v | v in n.Values
      ensures v in rest.Values + {n[k]}
    {
      var j :| j in n && n[j] == v;
      if j != k {
        assert j in rest && rest[j] == v;
      }
    }
    forall v | v in rest.Values
      ensures v in n.Values
    {
      var j :| j in rest && rest[j] == v;
      assert j in n && n[j] == v;
    }
  }

  /** A message is listed exactly when some pending notification carries it. */
  lemma {:induction false} MessagesContents(n: NotificationReducer.Notifications, m: string)
    ensures m in Messages(n) <==> m in n.Values
    decreases |n|
  {
    if n != map[] {
      var k :| k in n;
      var rest := n - {k};
      assert rest.Keys == n.Keys - {k};
      MessagesRemove(n, k);
      ValuesRemove(n, k);
      MessagesContents(rest, m);
    }
  }

  /** Announcing a todo under a fresh id adds its message to the list. */
  lemma MessagesAfterAdd(n: NotificationReducer.Notifications, id: Id, name: string)
    requires id !in n
    ensures Messages(NotificationReducer.Reduce(n, TodoAdd(id, name)))
            == Messages(n) + multiset{NotificationReducer.CreatedPrefix + name}
  {
    var r := NotificationReducer.Reduce(n, TodoAdd(id, name));
    MessagesRemove(r, id);
    NotificationReducer.HideAfterAddRestores(n, id, name);
    assert r - {id} == NotificationReducer.Reduce(r, NotificationHide(id));
  }

  /** Hiding a pending notification removes exactly its message from the list. */
  lemma MessagesAfterHide(n: NotificationReducer.Notifications, id: Id)
    requires id in n
    ensures Messages(NotificationReducer.Reduce(n, NotificationHide(id))) == Messages(n) - multiset{n[id]}
  {
    MessagesRemove(n, id);
  }
}
