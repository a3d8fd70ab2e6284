/**
  The `TodoApp` component's state and its four handlers. Each handler is a
  method of `TodoApp` that takes the outcome of its remote call as an input
  instead of performing the call, and returns the request body it would
  send. The list updaters it hands to `setTodos` are the functions of
  module TodoList.
 */
module TodoApp {
  import opened Wrappers
  import opened JsText
  import opened TodoList

  /**
    How one `fetch` ends: an ok response carrying the decoded JSON body, a
    response whose `ok` flag is false, or a thrown error (the network
    failed, or the body did not decode).
   */
  datatype Outcome<+T> = Ok(value: T) | NotOk(status: int) | Thrown

  /** The POST body: a record without an ID. */
  datatype NewTodo = NewTodo(title: string, completed: bool)

  /** What the component renders. */
  datatype Screen =
    | Loading
    | Failed(message: string)
    | Listing(items: seq<Todo>, showsEmptyNotice: bool)

  /** The message the initial load stores in `error` when it fails. */
  const LoadErrorMessage: string := "Todoリストの読み込みに失敗しました。"

  /** JavaScript truthiness of the `error` state: `null` and `""` are falsy. */
  predicate IsTruthy(error: Option<string>) {
    error.Some? && error.value != ""
  }

  /**
    The body `createTodo` posts: nothing when the typed title is blank, and
    otherwise the trimmed title, not completed.
   */
  function CreateBody(newTitle: string): (r: Option<NewTodo>)
    ensures r.None? <==> IsBlank(newTitle)
    ensures r.Some? ==> r.value.title == Trim(newTitle) && !r.value.completed
    ensures r.Some? ==> r.value.title != ""
  {
    TrimEmptyIffBlank(newTitle);
    var title := Trim(newTitle);
    if title == "" then None else Some(NewTodo(title, false))
  }

  /**
    The body `toggleTodo` puts: the first snapshot item with that ID with
    `completed` negated, or nothing (and no request) when the snapshot has
    no item with that ID.
   */
  function PutBody(snapshot: seq<Todo>, id: int): (r: Option<Todo>)
    ensures r.None? <==> !HasId(snapshot, id)
    ensures r.Some? ==> exists k :: (IsFirstWithId(snapshot, id, k) && r.value.id == id
      && r.value.title == snapshot[k].title && r.value.completed == !snapshot[k].completed)
  {
    match Find(snapshot, id)
    case None => None
    case Some(t) => Some(t.(completed := !t.completed))
  }

  /**
    The render's choice: the loading indicator wins over the error, the
    error wins over the list, and the list shows the empty notice exactly
    when it is empty.
   */
  function ScreenOf(loading: bool, error: Option<string>, todos: seq<Todo>): (v: Screen)
    ensures v.Loading? <==> loading
    ensures v.Failed? <==> !loading && IsTruthy(error)
    ensures v.Failed? ==> v.message == error.value
    ensures v.Listing? ==> v.items == todos && (v.showsEmptyNotice <==> todos == [])
  {
    if loading then Loading
    else if IsTruthy(error) then Failed(error.value)
    else Listing(todos, |todos| == 0 && !loading)
  }

  /** Padding a title with white space does not change what is posted. */
  lemma CreateBodyIgnoresPadding(p: string, title: string, q: string)
    requires IsBlank(p) && IsBlank(q)
    ensures CreateBody(p + title + q) == CreateBody(title)
  {
    var m := Trim(title);
    TrimSurrounds(title);
    var p', q' :| Surrounds(title, p', m, q');
    BlankConcat(p, p');
    BlankConcat(q', q);
    Regroup(p, p', m, q', q);
    assert Surrounds(p + title + q, p + p', m, q' + q);
    TrimUnique(p + title + q, p + p', m, q' + q);
    assert Trim(p + title + q) == m;
  }

  /** Concatenation regrouped: a padded decomposition is again a decomposition. */
  lemma Regroup(a: string, b: string, c: string, d: string, e: string)
    ensures a + (b + c + d) + e == (a + b) + c + (d + e)
  {
  }

  /**
    The PUT body is what the optimistic update shows: when the snapshot is
    the list the flip was applied to, the body equals the first item with
    that ID in the flipped list.
   */
  lemma {:induction false} PutBodyIsOptimisticItem(s: seq<Todo>, id: int)
    ensures PutBody(s, id) == Find(FlipById(s, id), id)
  {
    if s != [] && s[0].id != id {
      PutBodyIsOptimisticItem(s[1..], id);
      assert FlipById(s, id)[1..] == FlipById(s[1..], id);
    }
  }

  /** The component's state: the four `useState` hooks. */
  class TodoApp {
    var todos: seq<Todo>
    var newTitle: string
    var loading: bool
    var error: Option<string>

    /** Initial state: no items, empty input, loading, no error. */
    constructor ()
      ensures todos == [] && newTitle == "" && loading && error == None
    {
      todos, newTitle, loading, error := [], "", true, None;
    }

    /** What the component renders in its present state. */
    function View(): (v: Screen)
      reads this
    {
      ScreenOf(loading, error, todos)
    }

    /**
      `fetchTodos`: sets `loading` and clears `error`; an ok response
      replaces the list, anything else records the error message; `loading`
      is cleared at the end in every case.
     */
    method Load(outcome: Outcome<seq<Todo>>)
      modifies this`todos, this`loading, this`error
      ensures !loading
      ensures outcome.Ok? ==> todos == outcome.value && error == None
      ensures !outcome.Ok? ==> todos == old(todos) && error == Some(LoadErrorMessage)
      ensures View() == if outcome.Ok? then Listing(outcome.value, outcome.value == []) else Failed(LoadErrorMessage)
    {
      loading := true;
      error := None;
      match outcome {
        case Ok(data) =>
          todos := data;
        case NotOk(_) =>
          error := Some(LoadErrorMessage);
        case Thrown =>
          error := Some(LoadErrorMessage);
      }
      loading := false;
    }

    /** The input's change handler: the typed text becomes `newTitle`. */
    method EditTitle(text: string)
      modifies this`newTitle
      ensures newTitle == text
    {
      newTitle := text;
    }

    /**
      `createTodo`: a blank title sends nothing and changes nothing. Otherwise
      the trimmed title is posted; an ok response appends the returned record
      and clears the input, any failure leaves the state as it was.
     */
    method Create(outcome: Outcome<Todo>) returns (request: Option<NewTodo>)
      modifies this`todos, this`newTitle
      ensures request == CreateBody(old(newTitle))
      ensures request.Some? && outcome.Ok? ==> todos == Append(old(todos), outcome.value) && newTitle == ""
      ensures request.None? || !outcome.Ok? ==> todos == old(todos) && newTitle == old(newTitle)
    {
      request := CreateBody(newTitle);
      if request.None? {
        return;
      } else if outcome.Ok? {
        todos, newTitle := Append(todos, outcome.value), "";
      }
    }

    /**
      First half of `toggleTodo`, up to the request: flips the current list
      and looks the item up in the snapshot the handler closed over.
     */
    method ToggleBegin(snapshot: seq<Todo>, id: int) returns (original: Option<Todo>)
      modifies this`todos
      ensures todos == FlipById(old(todos), id)
      ensures original == Find(snapshot, id)
    {
      todos := FlipById(todos, id);
      original := Find(snapshot, id);
    }

    /**
      Second half of `toggleTodo`, once the PUT has ended: a response that is
      not ok sets the item back to the snapshot's value in whatever the list
      is by then; an ok response or a thrown error leaves the list alone.
     */
    method ToggleSettle(id: int, original: Todo, outcome: Outcome<()>)
      modifies this`todos
      ensures todos == if outcome.NotOk? then SetCompletedById(old(todos), id, original.completed) else old(todos)
    {
      if outcome.NotOk? {
        todos := SetCompletedById(todos, id, original.completed);
      }
    }

    /**
      `toggleTodo` with nothing happening between its two halves. The flip
      stays unless the response is not ok; then the rollback restores the
      list when the snapshot was the list clicked on and IDs are unique.
     */
    method Toggle(snapshot: seq<Todo>, id: int, outcome: Outcome<()>) returns (request: Option<Todo>)
      modifies this`todos
      ensures request == PutBody(snapshot, id)
      ensures request.None? || !outcome.NotOk? ==> todos == FlipById(old(todos), id)
      ensures request.Some? && outcome.NotOk? ==>
                todos == SetCompletedById(FlipById(old(todos), id), id, !request.value.completed)
      ensures request.Some? && outcome.NotOk? && snapshot == old(todos) && UniqueIds(snapshot) ==>
                todos == old(todos)
    {
      var original := ToggleBegin(snapshot, id);
      if original.None? {
        return None;
      }
      request := Some(original.value.(completed := !original.value.completed));
      ToggleSettle(id, original.value, outcome);
      if outcome.NotOk? && snapshot == old(todos) && UniqueIds(snapshot) {
        RollbackRestores(snapshot, id);
      }
    }

    /**
      `deleteTodo`: nothing is removed before the server answers; an ok
      response drops every item with that ID, anything else keeps the list.
     */
    method Delete(id: int, outcome: Outcome<()>)
      modifies this`todos
      ensures todos == if outcome.Ok? then RemoveById(old(todos), id) else old(todos)
    {
      if outcome.Ok? {
        todos := RemoveById(todos, id);
      }
    }
  }

  /**
    The first mount: the initial state followed by `fetchTodos`. A failed
    load leaves the list empty and shows the error.
   */
  method Mount(outcome: Outcome<seq<Todo>>) returns (app: TodoApp)
    ensures fresh(app)
    ensures !app.loading && app.newTitle == ""
    ensures app.todos == if outcome.Ok? then outcome.value else []
    ensures app.View() == if outcome.Ok? then Listing(outcome.value, outcome.value == []) else Failed(LoadErrorMessage)
  {
    app := new TodoApp();
    app.Load(outcome);
  }
}
