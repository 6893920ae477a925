/** The local to-do list: an array of to-do strings, the text of the input, and a flag that
    stops the list from being written to the browser's store before it has been read from it. */
module LocalTodoList {
  import opened Wrappers
  import JsText
  import opened Keys

  /** `store` is the entry kept under the key "todos": absent (or empty, which reads the same),
      or the array it holds. */
  datatype TodoState = TodoState(todos: seq<string>, newTodo: string, isInitialized: bool, store: Option<seq<string>>)

  /** The state of the first render, over whatever the store already holds. */
  function Initial(saved: Option<seq<string>>): TodoState
  {
    TodoState([], "", false, saved)
  }

  /** The store holds exactly the list on screen, and the first read has happened. */
  predicate Synced(s: TodoState)
  {
    s.isInitialized && s.store == Some(s.todos)
  }

  /** Every to-do is non-blank. */
  predicate AllNonBlank(todos: seq<string>)
  {
    forall i :: 0 <= i < |todos| ==> !JsText.IsBlank(todos[i])
  }

  /** The mount effect: take the stored array when there is one, and mark the list initialised. */
  function Load(s: TodoState): (r: TodoState)
    ensures r.isInitialized && r.store == s.store && r.newTodo == s.newTodo
    ensures r.todos == if s.store.Some? then s.store.value else s.todos
  {
    s.(todos := if s.store.Some? then s.store.value else s.todos, isInitialized := true)
  }

  /** The persistence effect: once initialised, write the list to the store; before that, nothing. */
  function Persist(s: TodoState): (r: TodoState)
    ensures !s.isInitialized ==> r == s
    ensures s.isInitialized ==> Synced(r)
    ensures r.todos == s.todos && r.newTodo == s.newTodo && r.isInitialized == s.isInitialized
  {
    if s.isInitialized then s.(store := Some(s.todos)) else s
  }

  /** The effects of mounting. The first render's persistence effect sees that render's
      uninitialised flag, so it runs on the state before the stored array is read; the
      second render, with the flag set, persists. */
  function Mount(s: TodoState): (r: TodoState)
    ensures Synced(r) && r.newTodo == s.newTodo
    ensures !s.isInitialized ==> r.todos == if s.store.Some? then s.store.value else s.todos
    ensures s.isInitialized ==> r.todos == s.todos
  {
    Persist(Load(Persist(s)))
  }

  /** Adding: a non-blank draft is appended as typed and the input cleared; a blank one is ignored. */
  function Added(s: TodoState): (r: TodoState)
    ensures !JsText.IsBlank(s.newTodo) ==>
      && |r.todos| == |s.todos| + 1 && r.todos[..|s.todos|] == s.todos
      && r.todos[|s.todos|] == s.newTodo && r.newTodo == ""
    ensures JsText.IsBlank(s.newTodo) ==> r == s
    ensures r.isInitialized == s.isInitialized && r.store == s.store
  {
    if !JsText.IsBlank(s.newTodo) then s.(todos := s.todos + [s.newTodo], newTodo := "") else s
  }

  /** The events of the list's input. */
  datatype TodoEvent = NewTodoChange(value: string) | KeyDown(key: string)

  function Step(s: TodoState, e: TodoEvent): (r: TodoState)
    ensures e.KeyDown? && e.key != EnterKey ==> r == s
    ensures r.todos == s.todos || r.todos == s.todos + [s.newTodo]
    ensures r.isInitialized == s.isInitialized && r.store == s.store
  {
    match e
    case NewTodoChange(v) => s.(newTodo := v)
    case KeyDown(k) => if k == EnterKey then Added(s) else s
  }

  /** One user event followed by the persistence effect it triggers. */
  function Interact(s: TodoState, e: TodoEvent): (r: TodoState)
    ensures r.todos == s.todos || r.todos == s.todos + [s.newTodo]
    ensures r.isInitialized == s.isInitialized
    ensures s.isInitialized ==> Synced(r)
    ensures !s.isInitialized ==> r.store == s.store
  {
    Persist(Step(s, e))
  }

  /** The state after a sequence of user events. */
  function Session(s: TodoState, es: seq<TodoEvent>): (r: TodoState)
    ensures r.isInitialized == s.isInitialized
    ensures !s.isInitialized ==> r.store == s.store
    ensures s.isInitialized && es != [] ==> Synced(r)
    decreases |es|
  {
    if es == [] then s else Session(Interact(s, es[0]), es[1..])
  }

  /** Mounting leaves the stored list on screen (or the empty list when nothing was stored),
      the list initialised, and the store holding that list: data already saved is never
      overwritten with the empty list. */
  lemma MountKeepsSavedTodos(saved: Option<seq<string>>)
    ensures var m := Mount(Initial(saved));
      && m.todos == (if saved.Some? then saved.value else [])
      && Synced(m)
      && (saved.Some? ==> m.store == saved)
  {
  }

  /** The first render's persistence effect writes nothing. */
  lemma NoWriteBeforeInitialized(saved: Option<seq<string>>)
    ensures Persist(Initial(saved)).store == saved
  {
  }

  /** The effect reruns only when the list changes; when it does not, running it changes nothing,
      so modelling it after every event is faithful. */
  lemma UnchangedListNeedsNoWrite(s: TodoState, e: TodoEvent)
    requires Synced(s) && Step(s, e).todos == s.todos
    ensures Interact(s, e) == Step(s, e)
  {
  }

  /** A blank draft is one made only of white space. */
  lemma BlankDraftIsWhiteSpace(s: TodoState)
    ensures Added(s) == s <==> forall i :: 0 <= i < |s.newTodo| ==> JsText.IsWhiteSpace(s.newTodo[i])
  {
  }

  /** Only Enter adds; any other key leaves everything as it was. */
  lemma OnlyEnterAdds(s: TodoState, key: string)
    ensures Step(s, KeyDown(key)) == if key == EnterKey then Added(s) else s
  {
  }

  /** One event and its persistence effect keep the store in sync, and the list either stays
      as it was or gains the non-blank draft at its end. */
  lemma InteractKeeps(s: TodoState, e: TodoEvent)
    requires Synced(s)
    ensures var t := Interact(s, e);
      && Synced(t)
      && (t.todos == s.todos || (t.todos == s.todos + [s.newTodo] && !JsText.IsBlank(s.newTodo)))
      && |s.todos| <= |t.todos| && t.todos[..|s.todos|] == s.todos
      && (AllNonBlank(s.todos) ==> AllNonBlank(t.todos))
  {
    var t := Interact(s, e);
    if AllNonBlank(s.todos) && t.todos != s.todos {
      forall i | 0 <= i < |t.todos|
        ensures !JsText.IsBlank(t.todos[i])
      {
        if i < |s.todos| {
          assert t.todos[i] == s.todos[i];
        }
      }
    }
  }

  /** Over any session after mounting the list only grows at its end. */
  lemma {:induction false} SessionOnlyAppends(s: TodoState, es: seq<TodoEvent>)
    requires Synced(s)
    ensures var r := Session(s, es); |s.todos| <= |r.todos| && r.todos[..|s.todos|] == s.todos
    decreases |es|
  {
    if es != [] {
      var t := Interact(s, es[0]);
      InteractKeeps(s, es[0]);
      SessionOnlyAppends(t, es[1..]);
      var r := Session(t, es[1..]);
      assert r.todos[..|s.todos|] == r.todos[..|t.todos|][..|s.todos|];
    }
  }

  /** Over any session after mounting no blank to-do is added. */
  lemma {:induction false} SessionAddsNoBlank(s: TodoState, es: seq<TodoEvent>)
    requires Synced(s) && AllNonBlank(s.todos)
    ensures AllNonBlank(Session(s, es).todos)
    decreases |es|
  {
    if es != [] {
      InteractKeeps(s, es[0]);
      SessionAddsNoBlank(Interact(s, es[0]), es[1..]);
    }
  }

  /** Over any session after mounting the store keeps mirroring the list, the list only grows
      at its end, and what the user adds is never blank. */
  lemma SessionKeepsStoreInSync(s: TodoState, es: seq<TodoEvent>)
    requires Synced(s)
    ensures var r := Session(s, es);
      && Synced(r)
      && |s.todos| <= |r.todos| && r.todos[..|s.todos|] == s.todos
      && (AllNonBlank(s.todos) ==> AllNonBlank(r.todos))
  {
    SessionOnlyAppends(s, es);
    if AllNonBlank(s.todos) {
      SessionAddsNoBlank(s, es);
    }
  }

  /** The component together with the store entry it reads and writes. */
  class TodoList {
    var todos: seq<string>
    var newTodo: string
    var isInitialized: bool
    var store: Option<seq<string>>

    function State(): TodoState
      reads this
    {
      TodoState(todos, newTodo, isInitialized, store)
    }

    constructor (saved: Option<seq<string>>)
      ensures todos == [] && newTodo == "" && !isInitialized && store == saved
      ensures State() == Initial(saved)
    {
      todos, newTodo, isInitialized, store := [], "", false, saved;
    }

    method LoadEffect()
      modifies this`todos, this`isInitialized
      ensures store.Some? ==> todos == store.value
      ensures store.None? ==> todos == old(todos)
      ensures isInitialized
      ensures State() == Load(old(State()))
    {
      if store.Some? {
        todos := store.value;
      }
      isInitialized := true;
    }

    method PersistEffect()
      modifies this`store
      ensures old(isInitialized) ==> store == Some(todos)
      ensures !old(isInitialized) ==> store == old(store)
      ensures State() == Persist(old(State()))
    {
      if isInitialized {
        store := Some(todos);
      }
    }

    /** The input's change handler. */
    method SetNewTodo(value: string)
      modifies this`newTodo
      ensures newTodo == value
      ensures State() == Step(old(State()), NewTodoChange(value))
    {
      newTodo := value;
    }

    method AddTodo()
      modifies this`todos, this`newTodo
      ensures !JsText.IsBlank(old(newTodo)) ==> todos == old(todos) + [old(newTodo)] && newTodo == ""
      ensures JsText.IsBlank(old(newTodo)) ==> todos == old(todos) && newTodo == old(newTodo)
      ensures State() == Added(old(State()))
    {
      if JsText.Trim(newTodo) != [] {
        todos := todos + [newTodo];
        newTodo := "";
      }
    }

    method HandleKeyDown(key: string)
      modifies this`todos, this`newTodo
      ensures key != EnterKey ==> State() == old(State())
      ensures State() == Step(old(State()), KeyDown(key))
    {
      if key == EnterKey {
        AddTodo();
      }
    }
  }
}
