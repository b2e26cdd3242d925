/**
  The to-do application's logic (examples/todomvc/src/App.js): the DOM
  events it listens to, the intents `createIntent` reads from them, the
  reducers `createReducers` turns them into, the derived values of
  `createState`, and the view values `createSelector` hands to the
  component.

  The streams are replaced by what flows through them: one event gives at
  most one intent, and one intent gives the new `todos` and `editTodoId`
  that `run` stores into the value cells.
 */
module TodoMvc {
  import opened JsObject
  import opened JsText
  import opened JsArray
  import opened TodoUtil
  import CreateStreams

  const KeyEnter := 13
  const KeyEscape := 27

  const RouteAll := "/"
  const RouteActive := "/active"
  const RouteCompleted := "/completed"

  datatype Todo = Todo(id: string, title: string, completed: bool)

  /** The value cells of `createValues`. */
  datatype AppState = AppState(currentRoute: string, editTodoId: Option<string>, todos: seq<Todo>)

  predicate IsActive(t: Todo) { !t.completed }

  predicate IsCompleted(t: Todo) { t.completed }

  // ---------------------------------------------------------------------
  // createState: derived values

  function Active(todos: seq<Todo>): seq<Todo>
  {
    Filter(todos, IsActive)
  }

  function Completed(todos: seq<Todo>): seq<Todo>
  {
    Filter(todos, IsCompleted)
  }

  /** `todos.length` */
  function Count(todos: seq<Todo>): nat { |todos| }

  function ActiveCount(todos: seq<Todo>): nat { |Active(todos)| }

  function CompletedCount(todos: seq<Todo>): nat { |Completed(todos)| }

  /**
    The active and the completed filters split the list: every todo is in
    exactly one of them, so their counts add up to the count.
   */
  lemma {:induction false} Partition(todos: seq<Todo>)
    ensures ActiveCount(todos) + CompletedCount(todos) == Count(todos)
  {
    if todos != [] {
      Partition(todos[1..]);
    }
  }

  /** `hasActiveTodos` (and likewise `hasCompletedTodos`) is true exactly when such a todo exists. */
  lemma HasTodosOfKind(todos: seq<Todo>)
    ensures ActiveCount(todos) > 0 <==> exists i :: 0 <= i < |todos| && !todos[i].completed
    ensures CompletedCount(todos) > 0 <==> exists i :: 0 <= i < |todos| && todos[i].completed
  {
    if exists i :: 0 <= i < |todos| && !todos[i].completed {
      var i :| 0 <= i < |todos| && !todos[i].completed;
      assert todos[i] in Active(todos);
    }
    if exists i :: 0 <= i < |todos| && todos[i].completed {
      var i :| 0 <= i < |todos| && todos[i].completed;
      assert todos[i] in Completed(todos);
    }
    if ActiveCount(todos) > 0 {
      assert Active(todos)[0] in todos;
    }
    if CompletedCount(todos) > 0 {
      assert Completed(todos)[0] in todos;
    }
  }

  /**
    `todoRoutes[route]` inside `switchMap`: the list shown for the route.
    A route outside the table gives `undefined`, which `switchMap` cannot
    subscribe to (`None`).
   */
  function FilteredTodos(route: string, todos: seq<Todo>): (r: Option<seq<Todo>>)
    ensures r.Some? <==> route in {RouteAll, RouteActive, RouteCompleted}
  {
    if route == RouteAll then Some(todos)
    else if route == RouteActive then Some(Active(todos))
    else if route == RouteCompleted then Some(Completed(todos))
    else None
  }

  /** Each route shows exactly the todos of its kind. */
  lemma FilteredTodosSpec(todos: seq<Todo>, t: Todo)
    ensures t in FilteredTodos(RouteAll, todos).value <==> t in todos
    ensures t in FilteredTodos(RouteActive, todos).value <==> t in todos && !t.completed
    ensures t in FilteredTodos(RouteCompleted, todos).value <==> t in todos && t.completed
  {
  }

  // ---------------------------------------------------------------------
  // createEvents / createIntent

  /** The DOM events of `createEvents`, with what the intents read from their targets. */
  datatype Event =
    | BlurEditTodo(id: string, value: string)
    | ChangeCheckTodo(id: string, checked: bool)
    | ChangeToggleAllTodos(checked: bool)
    | ClickClearCompletedTodos
    | ClickRemoveTodo(id: string)
    | DoubleClickTodo(id: string)
    | KeyDownEditTodo(keyCode: int, id: string, value: string)
    | KeyDownNewTodo(keyCode: int, value: string)

  /** The intent streams of `createIntent`. */
  datatype Intent =
    | AddTodo(title: string)
    | CancelEditTodo
    | ClearCompletedTodos
    | CompleteTodo(id: string, completed: bool)
    | EditTodo(id: string)
    | RemoveTodo(id: string)
    | SaveTodo(id: string, title: string)
    | ToggleTodos(completed: bool)

  /**
    `updateTodo$` and what follows it: an edited title that trims to nothing
    removes the todo, any other is saved trimmed.
   */
  function UpdateTodo(id: string, value: string): Intent
  {
    var title := Trim(value);
    if |title| == 0 then RemoveTodo(id) else SaveTodo(id, title)
  }

  /** The intents one event produces, in the order of `createIntent`. */
  function Intents(e: Event): (r: seq<Intent>)
    ensures |r| <= 1
    ensures r == [] <==>
              || (e.KeyDownNewTodo? && (e.keyCode != KeyEnter || |Trim(e.value)| == 0))
              || (e.KeyDownEditTodo? && e.keyCode != KeyEscape && e.keyCode != KeyEnter)
    ensures e.KeyDownNewTodo? && r != [] ==> r == [AddTodo(Trim(e.value))]
    ensures e.KeyDownEditTodo? && e.keyCode == KeyEscape ==> r == [CancelEditTodo]
    ensures e.KeyDownEditTodo? && e.keyCode == KeyEnter ==> r == [UpdateTodo(e.id, e.value)]
    ensures e.BlurEditTodo? ==> r == [UpdateTodo(e.id, e.value)]
    ensures e.ClickClearCompletedTodos? ==> r == [ClearCompletedTodos]
    ensures e.ChangeCheckTodo? ==> r == [CompleteTodo(e.id, e.checked)]
    ensures e.DoubleClickTodo? ==> r == [EditTodo(e.id)]
    ensures e.ClickRemoveTodo? ==> r == [RemoveTodo(e.id)]
    ensures e.ChangeToggleAllTodos? ==> r == [ToggleTodos(e.checked)]
  {
    match e
    case KeyDownNewTodo(keyCode, value) =>
      if keyCode == KeyEnter && |Trim(value)| > 0 then [AddTodo(Trim(value))] else []
    case KeyDownEditTodo(keyCode, id, value) =>
      if keyCode == KeyEscape then [CancelEditTodo]
      else if keyCode == KeyEnter then [UpdateTodo(id, value)]
      else []
    case BlurEditTodo(id, value) => [UpdateTodo(id, value)]
    case ClickClearCompletedTodos => [ClearCompletedTodos]
    case ChangeCheckTodo(id, checked) => [CompleteTodo(id, checked)]
    case DoubleClickTodo(id) => [EditTodo(id)]
    case ClickRemoveTodo(id) => [RemoveTodo(id)]
    case ChangeToggleAllTodos(checked) => [ToggleTodos(checked)]
  }

  /**
    A key press in the new-todo field adds a todo exactly when it is Enter
    and the field holds something besides white space; the title is the
    trimmed text.
   */
  lemma NewTodoOnlyOnEnterWithText(keyCode: int, value: string)
    ensures Intents(KeyDownNewTodo(keyCode, value)) != [] <==> keyCode == KeyEnter && !AllWhiteSpace(value)
    ensures Intents(KeyDownNewTodo(keyCode, value)) != [] ==>
              Intents(KeyDownNewTodo(keyCode, value)) == [AddTodo(Trim(value))]
  {
    TrimEmpty(value);
  }

  /**
    Finishing an edit (Enter or leaving the field) removes the todo when
    the field holds only white space, and otherwise saves the trimmed title,
    which neither starts nor ends with white space.
   */
  lemma FinishEdit(id: string, value: string)
    ensures AllWhiteSpace(value) ==> UpdateTodo(id, value) == RemoveTodo(id)
    ensures !AllWhiteSpace(value) ==>
              && UpdateTodo(id, value) == SaveTodo(id, Trim(value))
              && !IsWhiteSpace(Trim(value)[0]) && !IsWhiteSpace(Trim(value)[|Trim(value)| - 1])
  {
    TrimEmpty(value);
    TrimSpec(value);
  }

  // ---------------------------------------------------------------------
  // createReducers

  /** `[ ...todos, { id: uuid(), title, completed: false } ]`; `id` is the identifier `uuid` drew. */
  function AddTodoReducer(todos: seq<Todo>, id: string, title: string): seq<Todo>
  {
    todos + [Todo(id, title, false)]
  }

  /** Keeps the todos that are not completed. */
  function ClearCompletedReducer(todos: seq<Todo>): seq<Todo>
  {
    Filter(todos, IsActive)
  }

  /** `todo.id === id ? { ...todo, completed } : todo` over the list. */
  function CompleteTodoReducer(todos: seq<Todo>, id: string, completed: bool): (r: seq<Todo>)
    ensures |r| == |todos|
    ensures forall i :: 0 <= i < |todos| ==>
              r[i].id == todos[i].id && r[i].title == todos[i].title
              && r[i].completed == if todos[i].id == id then completed else todos[i].completed
  {
    if todos == [] then []
    else [if todos[0].id == id then todos[0].(completed := completed) else todos[0]] + CompleteTodoReducer(todos[1..], id, completed)
  }

  /** Drops the todos with the given id. */
  function RemoveTodoReducer(todos: seq<Todo>, id: string): seq<Todo>
  {
    Filter(todos, (t: Todo) => t.id != id)
  }

  /** `todo.id === id ? { ...todo, title } : todo` over the list. */
  function SaveTodoReducer(todos: seq<Todo>, id: string, title: string): (r: seq<Todo>)
    ensures |r| == |todos|
    ensures forall i :: 0 <= i < |todos| ==>
              r[i].id == todos[i].id && r[i].completed == todos[i].completed
              && r[i].title == if todos[i].id == id then title else todos[i].title
  {
    if todos == [] then []
    else [if todos[0].id == id then todos[0].(title := title) else todos[0]] + SaveTodoReducer(todos[1..], id, title)
  }

  /** `{ ...todo, completed }` for every todo. */
  function ToggleTodosReducer(todos: seq<Todo>, completed: bool): (r: seq<Todo>)
    ensures |r| == |todos|
    ensures forall i :: 0 <= i < |todos| ==>
              r[i].id == todos[i].id && r[i].title == todos[i].title && r[i].completed == completed
  {
    if todos == [] then [] else [todos[0].(completed := completed)] + ToggleTodosReducer(todos[1..], completed)
  }

  /**
    What `run` stores for one intent: the new `todos`, the new
    `editTodoId`, or both (a save also clears the todo being edited).
    `freshId` is what `uuid()` returns for an added todo.
   */
  function Reduce(s: AppState, intent: Intent, freshId: string): AppState
  {
    match intent
    case AddTodo(title) => s.(todos := AddTodoReducer(s.todos, freshId, title))
    case ClearCompletedTodos => s.(todos := ClearCompletedReducer(s.todos))
    case CompleteTodo(id, completed) => s.(todos := CompleteTodoReducer(s.todos, id, completed))
    case RemoveTodo(id) => s.(todos := RemoveTodoReducer(s.todos, id))
    case SaveTodo(id, title) => s.(todos := SaveTodoReducer(s.todos, id, title), editTodoId := None)
    case ToggleTodos(completed) => s.(todos := ToggleTodosReducer(s.todos, completed))
    case CancelEditTodo => s.(editTodoId := None)
    case EditTodo(id) => s.(editTodoId := Some(id))
  }

  /** One DOM event, through its intents and reducers. */
  function Dispatch(s: AppState, e: Event, freshId: string): AppState
  {
    var intents := Intents(e);
    if intents == [] then s else Reduce(s, intents[0], freshId)
  }

  /** Adding puts exactly one new, active todo at the end and leaves the rest as they were. */
  lemma AddTodoSpec(todos: seq<Todo>, id: string, title: string)
    ensures var r := AddTodoReducer(todos, id, title);
      && Count(r) == Count(todos) + 1
      && ActiveCount(r) == ActiveCount(todos) + 1
      && CompletedCount(r) == CompletedCount(todos)
      && r[..|todos|] == todos && r[|todos|] == Todo(id, title, false)
  {
    var r := AddTodoReducer(todos, id, title);
    FilterAppend(todos, [Todo(id, title, false)], IsActive);
    FilterAppend(todos, [Todo(id, title, false)], IsCompleted);
  }

  /**
    Clearing completed todos keeps exactly the active ones in their order:
    none completed remains, the active count does not change, and clearing
    again changes nothing.
   */
  lemma ClearCompletedSpec(todos: seq<Todo>)
    ensures var r := ClearCompletedReducer(todos);
      && r == Active(todos)
      && CompletedCount(r) == 0
      && ActiveCount(r) == ActiveCount(todos)
      && ClearCompletedReducer(r) == r
      && forall t :: t in r <==> t in todos && !t.completed
  {
    var r := ClearCompletedReducer(todos);
    FilterIdempotent(todos, IsActive);
    Partition(r);
  }

  /** Removing drops every todo with the id and keeps every other todo. */
  lemma RemoveTodoSpec(todos: seq<Todo>, id: string)
    ensures forall t :: t in RemoveTodoReducer(todos, id) <==> t in todos && t.id != id
    ensures |RemoveTodoReducer(todos, id)| <= |todos|
  {
  }

  /** Toggling all to `completed` leaves no todo of the other kind. */
  lemma {:induction false} ToggleTodosSpec(todos: seq<Todo>, completed: bool)
    ensures ActiveCount(ToggleTodosReducer(todos, completed)) == if completed then 0 else Count(todos)
    ensures CompletedCount(ToggleTodosReducer(todos, completed)) == if completed then Count(todos) else 0
  {
    if todos != [] {
      ToggleTodosSpec(todos[1..], completed);
      assert ToggleTodosReducer(todos, completed)[1..] == ToggleTodosReducer(todos[1..], completed);
    }
  }

  // ---------------------------------------------------------------------
  // Identifiers

  function Ids(todos: seq<Todo>): (ids: seq<string>)
    ensures |ids| == |todos| && forall i :: 0 <= i < |todos| ==> ids[i] == todos[i].id
  {
    seq(|todos|, i requires 0 <= i < |todos| => todos[i].id)
  }

  predicate DistinctIds(todos: seq<Todo>)
  {
    forall i, j :: 0 <= i < j < |todos| ==> todos[i].id != todos[j].id
  }

  lemma {:induction false} FilterKeepsDistinctIds(todos: seq<Todo>, keep: Todo -> bool)
    requires DistinctIds(todos)
    ensures DistinctIds(Filter(todos, keep))
  {
    if todos != [] {
      var rest := todos[1..];
      assert DistinctIds(rest);
      FilterKeepsDistinctIds(rest, keep);
      if keep(todos[0]) {
        var r := Filter(todos, keep);
        assert r[1..] == Filter(rest, keep);
        forall j | 0 < j < |r|
          ensures r[0].id != r[j].id
        {
          assert r[j] in rest;
        }
      }
    }
  }

  lemma SameIdsKeepDistinct(a: seq<Todo>, b: seq<Todo>)
    requires DistinctIds(a) && |a| == |b| && forall i :: 0 <= i < |a| ==> a[i].id == b[i].id
    ensures DistinctIds(b)
  {
  }

  lemma AddKeepsDistinctIds(todos: seq<Todo>, id: string, title: string)
    requires DistinctIds(todos) && id !in Ids(todos)
    ensures DistinctIds(AddTodoReducer(todos, id, title))
  {
    var r := AddTodoReducer(todos, id, title);
    forall i, j | 0 <= i < j < |r|
      ensures r[i].id != r[j].id
    {
      if j == |todos| { assert r[i].id == Ids(todos)[i]; }
    }
  }

  /**
    Every intent keeps the todo identifiers distinct, as long as the
    identifier drawn for a new todo is not already in use.
   */
  lemma ReduceKeepsDistinctIds(s: AppState, intent: Intent, freshId: string)
    requires DistinctIds(s.todos) && freshId !in Ids(s.todos)
    ensures DistinctIds(Reduce(s, intent, freshId).todos)
  {
    var t := s.todos;
    match intent
    case AddTodo(title) => AddKeepsDistinctIds(t, freshId, title);
    case ClearCompletedTodos => FilterKeepsDistinctIds(t, IsActive);
    case RemoveTodo(id) => FilterKeepsDistinctIds(t, (x: Todo) => x.id != id);
    case CompleteTodo(id, completed) => SameIdsKeepDistinct(t, CompleteTodoReducer(t, id, completed));
    case SaveTodo(id, title) => SameIdsKeepDistinct(t, SaveTodoReducer(t, id, title));
    case ToggleTodos(completed) => SameIdsKeepDistinct(t, ToggleTodosReducer(t, completed));
    case CancelEditTodo =>
    case EditTodo(_) =>
  }

  lemma DispatchKeepsDistinctIds(s: AppState, e: Event, freshId: string)
    requires DistinctIds(s.todos) && freshId !in Ids(s.todos)
    ensures DistinctIds(Dispatch(s, e, freshId).todos)
  {
    var intents := Intents(e);
    if intents != [] {
      ReduceKeepsDistinctIds(s, intents[0], freshId);
    }
  }

  // ---------------------------------------------------------------------
  // createSelector and the footer

  /** The properties `createSelector` combines for the component (without `handlers`). */
  datatype View = View(
    currentRoute: string,
    editTodoId: Option<string>,
    todos: seq<Todo>,
    count: nat,
    hasTodos: bool,
    hasActiveTodos: bool,
    hasCompletedTodos: bool)

  /**
    The selector's value for a state whose route is one of the three
    routes, once every combined stream has emitted.
   */
  function Select(s: AppState): (v: View)
    requires s.currentRoute in {RouteAll, RouteActive, RouteCompleted}
    ensures v.currentRoute == s.currentRoute && v.editTodoId == s.editTodoId
    ensures v.todos == FilteredTodos(s.currentRoute, s.todos).value
    ensures v.count == |s.todos|
    ensures v.hasTodos <==> v.count > 0
    ensures v.hasActiveTodos <==> exists i :: 0 <= i < |s.todos| && !s.todos[i].completed
    ensures v.hasCompletedTodos <==> exists i :: 0 <= i < |s.todos| && s.todos[i].completed
  {
    HasTodosOfKind(s.todos);
    View(s.currentRoute, s.editTodoId, FilteredTodos(s.currentRoute, s.todos).value, Count(s.todos),
         Count(s.todos) > 0, ActiveCount(s.todos) > 0, CompletedCount(s.todos) > 0)
  }

  /** The footer's counter text, `<count> item(s) left`. */
  function FooterText(count: nat): string
  {
    DecimalString(count) + " " + Pluralize(count, "item", None) + " left"
  }

  /** The counter as written: it shows `count`, the number of all todos. */
  function FooterAsWritten(s: AppState): string
    requires s.currentRoute in {RouteAll, RouteActive, RouteCompleted}
  {
    FooterText(Select(s).count)
  }

  /**
    A single completed todo is reported as "1 item left" although no todo
    is left to do.
   */
  lemma FooterCountsCompletedTodos()
    ensures var s := AppState(RouteAll, None, [Todo("a", "done", true)]);
      ActiveCount(s.todos) == 0 && FooterAsWritten(s) == "1 item left"
  {
    var s := AppState(RouteAll, None, [Todo("a", "done", true)]);
    assert Active(s.todos) == [];
    assert DecimalString(1) == "1";
  }

  /** The counter as intended: the number of active todos, which `createState` derives as `activeCount`. */
  function Footer(s: AppState): string
  {
    FooterText(ActiveCount(s.todos))
  }

  /**
    The intended counter shows the todos not yet completed: all of them
    after everything is marked active, none after everything is marked
    completed, and one more after a todo is added.
   */
  lemma FooterCountsActiveTodos(s: AppState, id: string, title: string)
    ensures Footer(s) == FooterText(Count(s.todos) - CompletedCount(s.todos))
    ensures Footer(s.(todos := ToggleTodosReducer(s.todos, true))) == FooterText(0)
    ensures Footer(s.(todos := ToggleTodosReducer(s.todos, false))) == FooterText(Count(s.todos))
    ensures Footer(s.(todos := AddTodoReducer(s.todos, id, title))) == FooterText(ActiveCount(s.todos) + 1)
  {
    Partition(s.todos);
    ToggleTodosSpec(s.todos, true);
    ToggleTodosSpec(s.todos, false);
    AddTodoSpec(s.todos, id, title);
  }
}
