/** The task-list hook: the displayed list, the set of ids this client has
    just created (so that their subscription echo is not shown twice), and
    the add, toggle, delete, subscription, expiry and cleanup actions. The
    backend is a set of functions that return the stored row or fail. */
module UseTodo {
  import opened Options
  import opened TodoTypes
  import opened Seqs

  /** Whatever a backend call rejected with. */
  datatype BackendError = BackendError(message: string)

  /** The object `addTodoListItem` hands to the backend. */
  datatype NewTodoInput = NewTodoInput(
    id: string,
    content: string,
    done: bool,
    category: Category,
    projectName: Option<string>,
    waitingFor: Option<string>,
    dueDate: Option<string>)

  /** The hook's state: `todoList` and `recentlyAddedRef.current`. */
  datatype StoreState = StoreState(todoList: seq<Todo>, recent: set<string>)

  /** The stored-row oracles standing for `addTodoData`, `updateTodoData`
      (with the requested `done`) and `deleteTodoData`. */
  type Create = NewTodoInput -> Result<Todo, BackendError>
  type Update = (string, bool) -> Result<Todo, BackendError>
  type Remove = string -> Result<string, BackendError>

  /** The object built on add: a fresh id, the given content and optional
      fields, not done whatever the caller asked, and the given category or
      the inbox. */
  function NewTodo(freshId: string, partial: PartialTodo): (n: NewTodoInput)
    ensures n.id == freshId && n.content == partial.content && !n.done
    ensures n.category == (if partial.category.Some? then partial.category.value else Inbox)
    ensures n.projectName == partial.projectName && n.waitingFor == partial.waitingFor
      && n.dueDate == partial.dueDate
  {
    NewTodoInput(freshId, partial.content, false, partial.category.GetOr(Inbox),
                 partial.projectName, partial.waitingFor, partial.dueDate)
  }

  /** Whether a task has id `id`, and its negation, as filter predicates. */
  function HasId(id: string): Todo -> bool {
    (t: Todo) => t.id == id
  }

  function NotId(id: string): Todo -> bool {
    (t: Todo) => t.id != id
  }

  /** How many tasks with id `id` the list holds. */
  function Occurrences(list: seq<Todo>, id: string): nat {
    Count(list, HasId(id))
  }

  /** `list.map(item => item.id === u.id ? u : item)`: same length, each
      task with `u`'s id replaced by `u`, every other task kept in place. */
  function ReplaceById(list: seq<Todo>, u: Todo): (r: seq<Todo>)
    ensures |r| == |list|
    ensures forall i :: 0 <= i < |list| ==> r[i] == if list[i].id == u.id then u else list[i]
  {
    seq(|list|, i requires 0 <= i < |list| => if list[i].id == u.id then u else list[i])
  }

  /** `list.filter(item => item.id !== id)` */
  function RemoveById(list: seq<Todo>, id: string): (r: seq<Todo>)
    ensures forall t: Todo :: multiset(r)[t] == if t.id == id then 0 else multiset(list)[t]
  {
    Filter(list, NotId(id))
  }

  // ---------------------------------------------------------------------
  // The state after each action

  /** The initial load: the fetched rows in reverse order; `recent` stays. */
  function Loaded(s: StoreState, fetched: seq<Todo>): (r: StoreState)
    ensures r.recent == s.recent && |r.todoList| == |fetched|
    ensures forall i :: 0 <= i < |fetched| ==> r.todoList[i] == fetched[|fetched| - 1 - i]
  {
    StoreState(Reverse(fetched), s.recent)
  }

  /** A create event from the subscription: an id this client just created
      is dropped from `recent` and the list is left alone; any other task
      goes to the front. */
  function Echo(s: StoreState, t: Todo): (r: StoreState)
    ensures t.id in s.recent ==> r == StoreState(s.todoList, s.recent - {t.id})
    ensures t.id !in s.recent ==> r == StoreState([t] + s.todoList, s.recent)
  {
    if t.id in s.recent then s.(recent := s.recent - {t.id})
    else s.(todoList := [t] + s.todoList)
  }

  /** The outcome of an add: the stored row goes to the front and its id into
      `recent`; a failure changes nothing. */
  function AfterAdd(s: StoreState, result: Result<Todo, BackendError>): (r: StoreState)
    ensures result.Err? ==> r == s
    ensures result.Ok? ==> r == StoreState([result.value] + s.todoList, s.recent + {result.value.id})
  {
    match result
    case Ok(added) => StoreState([added] + s.todoList, s.recent + {added.id})
    case Err(_) => s
  }

  /** The outcome of a toggle: the returned row replaces its id's tasks; a
      failure is swallowed and changes nothing. */
  function AfterToggle(s: StoreState, result: Result<Todo, BackendError>): (r: StoreState)
    ensures result.Err? ==> r == s
    ensures result.Ok? ==> r == s.(todoList := ReplaceById(s.todoList, result.value))
  {
    match result
    case Ok(updated) => s.(todoList := ReplaceById(s.todoList, updated))
    case Err(_) => s
  }

  /** The outcome of a delete: the tasks with that id leave the list; a
      failure changes nothing. */
  function AfterDelete(s: StoreState, id: string, result: Result<string, BackendError>): (r: StoreState)
    ensures result.Err? ==> r == s
    ensures result.Ok? ==> r == s.(todoList := RemoveById(s.todoList, id))
  {
    if result.Ok? then s.(todoList := RemoveById(s.todoList, id)) else s
  }

  /** The five-second timer of an add: removes exactly that id. */
  function Expired(s: StoreState, id: string): (r: StoreState)
    ensures r.todoList == s.todoList && r.recent == s.recent - {id}
  {
    s.(recent := s.recent - {id})
  }

  /** Unmounting clears `recent`. */
  function CleanedUp(s: StoreState): (r: StoreState)
    ensures r.todoList == s.todoList && r.recent == {}
  {
    s.(recent := {})
  }

  // ---------------------------------------------------------------------
  // Facts about the list operations

  /** Replacing by id never changes which id sits where. */
  lemma ReplaceKeepsIds(list: seq<Todo>, u: Todo)
    ensures forall i :: 0 <= i < |list| ==> ReplaceById(list, u)[i].id == list[i].id
  {
  }

  /** Removal keeps the survivors in order: it distributes over
      concatenation, so whatever came before another task still does. */
  lemma RemoveKeepsOrder(a: seq<Todo>, b: seq<Todo>, id: string)
    ensures RemoveById(a + b, id) == RemoveById(a, id) + RemoveById(b, id)
  {
    FilterAppend(a, b, NotId(id));
  }

  /** Removal takes out exactly the occurrences of the id. */
  lemma {:induction false} RemoveLength(list: seq<Todo>, id: string)
    ensures |RemoveById(list, id)| == |list| - Occurrences(list, id)
    decreases |list|
  {
    if list != [] {
      RemoveLength(list[1..], id);
    }
  }

  /** A list without the id is left as it is. */
  lemma {:induction false} RemoveAbsent(list: seq<Todo>, id: string)
    requires Occurrences(list, id) == 0
    ensures RemoveById(list, id) == list
    decreases |list|
  {
    if list != [] {
      RemoveAbsent(list[1..], id);
    }
  }

  /** Adding and then deleting another id is deleting and then adding. */
  lemma AddDeleteCommute(s: StoreState, added: Todo, id: string)
    requires added.id != id
    ensures AfterDelete(AfterAdd(s, Ok(added)), id, Ok(id)) == AfterAdd(AfterDelete(s, id, Ok(id)), Ok(added))
  {
    RemoveKeepsOrder([added], s.todoList, id);
    assert [added][1..] == [];
    assert !HasId(id)(added);
    assert Count([added], HasId(id)) == 0;
    RemoveAbsent([added], id);
    assert [added] + s.todoList == AfterAdd(s, Ok(added)).todoList;
  }

  /** The echo of one's own add is suppressed: after the add and its echo the
      new task is in the list once, and its id has left `recent`. */
  lemma EchoSuppressed(s: StoreState, added: Todo)
    requires added.id !in s.recent
    ensures Echo(AfterAdd(s, Ok(added)), added) == StoreState([added] + s.todoList, s.recent)
  {
  }

  /** An echo that arrives after the five-second expiry shows the task twice. */
  lemma EchoAfterExpiryDuplicates(s: StoreState, added: Todo)
    requires added.id !in s.recent
    ensures Echo(Expired(AfterAdd(s, Ok(added)), added.id), added)
         == StoreState([added, added] + s.todoList, s.recent)
  {
  }

  /** An echo that arrives before the add's response shows the task twice,
      and its id then stays in `recent` until it expires. */
  lemma EchoBeforeResponseDuplicates(s: StoreState, added: Todo)
    requires added.id !in s.recent
    ensures AfterAdd(Echo(s, added), Ok(added))
         == StoreState([added, added] + s.todoList, s.recent + {added.id})
  {
  }

  /** Re-entering a task that the list holds once, with a new task of a
      fresh id: the list keeps its length, the original id is gone and the
      new task is at the front. */
  lemma ReentryReplacesTask(s: StoreState, added: Todo, id: string)
    requires Occurrences(s.todoList, id) == 1 && added.id != id
    ensures var r := AfterDelete(AfterAdd(s, Ok(added)), id, Ok(id));
      |r.todoList| == |s.todoList| && Occurrences(r.todoList, id) == 0
      && r.todoList[0] == added && added.id in r.recent
  {
    var r := AfterDelete(AfterAdd(s, Ok(added)), id, Ok(id));
    var rest := RemoveById(s.todoList, id);
    AddDeleteCommute(s, added, id);
    assert r.todoList == [added] + rest;
    RemoveLength(s.todoList, id);
    forall t | t in rest ensures t.id != id {
      assert multiset(rest)[t] > 0;
    }
    NoneLeft(rest, id);
    assert ([added] + rest)[1..] == rest;
    assert !HasId(id)(added);
  }

  /** After removal no occurrence is left. */
  lemma {:induction false} NoneLeft(list: seq<Todo>, id: string)
    requires forall t :: t in list ==> t.id != id
    ensures Occurrences(list, id) == 0
    decreases |list|
  {
    if list != [] {
      NoneLeft(list[1..], id);
    }
  }

  // ---------------------------------------------------------------------

  /** The hook's state, updated in place by its actions. */
  class TodoStore {
    var todoList: seq<Todo>
    var recent: set<string>

    function State(): StoreState
      reads this
    {
      StoreState(todoList, recent)
    }

    constructor ()
      ensures State() == StoreState([], {})
    {
      todoList := [];
      recent := {};
    }

    /** `fetchTodos` with the rows the backend returned. */
    method Load(fetched: seq<Todo>)
      modifies this
      ensures State() == Loaded(old(State()), fetched)
    {
      todoList := Reverse(fetched);
    }

    /** The subscription callback. */
    method OnCreateEvent(t: Todo)
      modifies this
      ensures State() == Echo(old(State()), t)
    {
      if t.id in recent {
        recent := recent - {t.id};
        return;
      }
      todoList := [t] + todoList;
    }

    /** `toggleTodoListItemStatus(id, done)` */
    method ToggleStatus(id: string, done: bool, update: Update)
      modifies this
      ensures State() == AfterToggle(old(State()), update(id, !done))
    {
      var result := update(id, !done);
      if result.Ok? {
        var updated := result.value;
        todoList := ReplaceById(todoList, updated);
      }
    }

    /** `addTodoListItem(partial)`, with `freshId` for `ulid()`; a backend
        failure is passed on. */
    method AddItem(partial: PartialTodo, freshId: string, create: Create) returns (r: Result<Todo, BackendError>)
      modifies this
      ensures r == create(NewTodo(freshId, partial))
      ensures State() == AfterAdd(old(State()), r)
    {
      var newTodo := NewTodo(freshId, partial);
      r := create(newTodo);
      if r.Ok? {
        var added := r.value;
        recent := recent + {added.id};
        todoList := [added] + todoList;
      }
    }

    /** The `setTimeout` callback scheduled by a successful add. */
    method ExpireRecent(id: string)
      modifies this
      ensures State() == Expired(old(State()), id)
    {
      recent := recent - {id};
    }

    /** `deleteTodoListItem(id)`: yields `id` on success; a backend failure
        is passed on. */
    method DeleteItem(id: string, remove: Remove) returns (r: Result<string, BackendError>)
      modifies this
      ensures remove(id).Ok? ==> r == Ok(id)
      ensures remove(id).Err? ==> r == Err(remove(id).error)
      ensures State() == AfterDelete(old(State()), id, remove(id))
    {
      var result := remove(id);
      match result {
        case Ok(_) =>
          todoList := RemoveById(todoList, id);
          r := Ok(id);
        case Err(e) =>
          r := Err(e);
      }
    }

    /** The effect's cleanup on unmount. */
    method Cleanup()
      modifies this
      ensures State() == CleanedUp(old(State()))
    {
      recent := {};
    }
  }
}
