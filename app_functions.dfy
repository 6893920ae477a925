/** The application state that the remote calls update. Each call is reduced to its outcome:
    the response data on success, or a failure that is logged and otherwise ignored. */
module AppFunctions {
  import opened Wrappers
  import BackgroundSelector

  /** A to-do list as the server returns it; the server assigns `id`. */
  datatype TodoListRecord = TodoListRecord(id: string, title: string, todos: seq<string>)

  /** The body posted to create a list. */
  datatype NewTodoList = NewTodoList(title: string, todos: seq<string>)

  /** Every new list is created from this skeleton. */
  const NewListSkeleton: NewTodoList := NewTodoList("New Todo List", [])

  /** The profile as the server returns it; the palette may be missing. */
  datatype UserProfile = UserProfile(
    username: string,
    backgroundType: BackgroundSelector.BackgroundType,
    backgroundValue: string,
    customBackgroundColors: Option<seq<string>>)

  /** The palette taken from a profile: a missing one reads as empty. */
  function ColorsOrEmpty(colors: Option<seq<string>>): (r: seq<string>)
    ensures colors.Some? ==> r == colors.value
    ensures colors.None? ==> r == []
  {
    if colors.Some? then colors.value else []
  }

  /** The lists after creating one: the snapshot the caller passed, in order, then the new list. */
  function AppendCreated(snapshot: seq<TodoListRecord>, created: TodoListRecord): (r: seq<TodoListRecord>)
    ensures |r| == |snapshot| + 1
    ensures r[..|snapshot|] == snapshot && r[|snapshot|] == created
  {
    snapshot + [created]
  }

  /** True when some list of `lists` has id `listId`. */
  predicate HasId(lists: seq<TodoListRecord>, listId: string)
  {
    exists i :: 0 <= i < |lists| && lists[i].id == listId
  }

  /** The lists whose id differs from `listId`, in their original order. */
  function RemoveById(lists: seq<TodoListRecord>, listId: string): (r: seq<TodoListRecord>)
    ensures |r| <= |lists|
    ensures forall i :: 0 <= i < |r| ==> r[i].id != listId
    ensures forall l :: l in r <==> l in lists && l.id != listId
    ensures |r| == |lists| <==> !HasId(lists, listId)
    ensures !HasId(lists, listId) ==> r == lists
  {
    if lists == [] then []
    else
      var rest := RemoveById(lists[1..], listId);
      assert HasId(lists, listId) <==> lists[0].id == listId || HasId(lists[1..], listId) by {
        if HasId(lists[1..], listId) {
          var i :| 0 <= i < |lists[1..]| && lists[1..][i].id == listId;
          assert lists[i + 1].id == listId;
        }
        if HasId(lists, listId) && lists[0].id != listId {
          var i :| 0 <= i < |lists| && lists[i].id == listId;
          assert lists[1..][i - 1].id == listId;
        }
      }
      assert lists == [lists[0]] + lists[1..];
      if lists[0].id == listId then rest else [lists[0]] + rest
  }

  /** Removing distributes over concatenation, so the kept lists stay in their original order. */
  lemma {:induction false} RemoveByIdAppend(a: seq<TodoListRecord>, b: seq<TodoListRecord>, listId: string)
    ensures RemoveById(a + b, listId) == RemoveById(a, listId) + RemoveById(b, listId)
    decreases |a|
  {
    if a == [] {
      assert a + b == b;
    } else {
      assert (a + b)[0] == a[0];
      assert (a + b)[1..] == a[1..] + b;
      RemoveByIdAppend(a[1..], b, listId);
    }
  }

  /** Removing the same id twice is removing it once. */
  lemma RemoveByIdIdempotent(lists: seq<TodoListRecord>, listId: string)
    ensures RemoveById(RemoveById(lists, listId), listId) == RemoveById(lists, listId)
  {
  }

  /** Creating a list and then deleting it by its server-assigned id gives back the lists as they
      were, as long as that id was not already in use. */
  lemma AddThenRemoveRestores(lists: seq<TodoListRecord>, created: TodoListRecord)
    requires !HasId(lists, created.id)
    ensures RemoveById(AppendCreated(lists, created), created.id) == lists
  {
    RemoveByIdAppend(lists, [created], created.id);
    assert RemoveById([created], created.id) == [];
  }

  /** Two lists that share an id are both dropped by one delete. */
  lemma RemoveByIdDropsDuplicates(l: TodoListRecord)
    ensures RemoveById([l, l], l.id) == []
  {
    assert [l, l] == [l] + [l];
    RemoveByIdAppend([l], [l], l.id);
  }

  /** The state the root component holds and the remote calls update. */
  class AppState {
    var todoLists: seq<TodoListRecord>
    var isSidebarOpen: bool
    var username: string
    var backgroundType: BackgroundSelector.BackgroundType
    var backgroundValue: string
    var customBackgroundColors: seq<string>
    var activeListIndex: nat

    constructor ()
      ensures todoLists == [] && !isSidebarOpen && username == ""
      ensures backgroundType == BackgroundSelector.Solid && backgroundValue == "#2f2c5c"
      ensures customBackgroundColors == [] && activeListIndex == 0
    {
      todoLists, isSidebarOpen, username := [], false, "";
      backgroundType, backgroundValue := BackgroundSelector.Solid, "#2f2c5c";
      customBackgroundColors, activeListIndex := [], 0;
    }

    /** Fetching the lists replaces them wholesale; a failure leaves them as they were. */
    method FetchTodoLists(response: Outcome<seq<TodoListRecord>>)
      modifies this`todoLists
      ensures response.Ok? ==> todoLists == response.data
      ensures response.Err? ==> todoLists == old(todoLists)
    {
      if response.Ok? {
        todoLists := response.data;
      }
    }

    /** Fetching the profile sets all four profile fields from the one response; a failure sets none. */
    method FetchUserProfile(response: Outcome<UserProfile>)
      modifies this`username, this`backgroundType, this`backgroundValue, this`customBackgroundColors
      ensures response.Ok? ==>
        && username == response.data.username
        && backgroundType == response.data.backgroundType
        && backgroundValue == response.data.backgroundValue
        && customBackgroundColors == ColorsOrEmpty(response.data.customBackgroundColors)
      ensures response.Err? ==>
        && username == old(username) && backgroundType == old(backgroundType)
        && backgroundValue == old(backgroundValue) && customBackgroundColors == old(customBackgroundColors)
    {
      if response.Ok? {
        var profile := response.data;
        username := profile.username;
        backgroundType := profile.backgroundType;
        backgroundValue := profile.backgroundValue;
        customBackgroundColors := ColorsOrEmpty(profile.customBackgroundColors);
      }
    }

    /** Creating a list posts the skeleton; on success the lists become the caller's snapshot
        followed by the created list, on failure they stay as they were. */
    method AddTodoList(snapshot: seq<TodoListRecord>, response: Outcome<TodoListRecord>)
      returns (request: NewTodoList)
      modifies this`todoLists
      ensures request == NewListSkeleton && request.title == "New Todo List" && request.todos == []
      ensures response.Ok? ==> todoLists == AppendCreated(snapshot, response.data)
      ensures response.Err? ==> todoLists == old(todoLists)
    {
      request := NewListSkeleton;
      if response.Ok? {
        todoLists := AppendCreated(snapshot, response.data);
      }
    }

    /** Deleting a list drops, once the server confirms, every list with that id. */
    method RemoveTodoList(listId: string, response: Outcome<()>)
      modifies this`todoLists
      ensures response.Ok? ==> todoLists == RemoveById(old(todoLists), listId)
      ensures response.Ok? ==> !HasId(todoLists, listId) && |todoLists| <= |old(todoLists)|
      ensures response.Err? ==> todoLists == old(todoLists)
    {
      if response.Ok? {
        todoLists := RemoveById(todoLists, listId);
      }
    }

    /** The root component's delete handler: remove, then select the first list whatever happened. */
    method RemoveTodoListAndResetIndex(listId: string, response: Outcome<()>)
      modifies this`todoLists, this`activeListIndex
      ensures todoLists == if response.Ok? then RemoveById(old(todoLists), listId) else old(todoLists)
      ensures activeListIndex == 0
    {
      RemoveTodoList(listId, response);
      activeListIndex := 0;
    }

    method OpenSidebar()
      modifies this`isSidebarOpen
      ensures isSidebarOpen
    {
      isSidebarOpen := true;
    }

    method CloseSidebar()
      modifies this`isSidebarOpen
      ensures !isSidebarOpen
    {
      isSidebarOpen := false;
    }
  }
}
