/** The edit-in-place username field of the sidebar: a committed name, a draft shown in the
    input, and whether the field is being edited. */
module UserNameEditor {
  import opened Keys

  /** The name shown before the user has chosen one. */
  const DefaultUsername: string := "Stranger"

  datatype EditorState = EditorState(username: string, tempUsername: string, isEditing: bool)

  /** The events the field's handlers react to. */
  datatype EditorEvent =
    | UsernameChange(value: string)
    | EditClick
    | SaveClick
    | ClearClick
    | KeyPress(key: string)
    | DoubleClick

  /** The state the component starts in. */
  const Initial: EditorState := EditorState(DefaultUsername, DefaultUsername, false)

  /** Outside editing the input shows exactly the committed name. */
  predicate Valid(s: EditorState)
  {
    !s.isEditing ==> s.tempUsername == s.username
  }

  /** What the rendered field allows: the input is read-only outside editing, so it raises change
      events only while editing; the check and clear icons exist only while editing, the edit icon
      only outside it; key presses and double-clicks reach the input in either mode. */
  predicate Enabled(s: EditorState, e: EditorEvent)
  {
    match e
    case UsernameChange(_) => s.isEditing
    case EditClick => !s.isEditing
    case SaveClick => s.isEditing
    case ClearClick => s.isEditing
    case KeyPress(_) => true
    case DoubleClick => true
  }

  /** The state after one handler has run; every event the UI can raise keeps `Valid`. */
  function Step(s: EditorState, e: EditorEvent): (r: EditorState)
    ensures Valid(s) && Enabled(s, e) ==> Valid(r)
    ensures e.UsernameChange? ==> r.username == s.username && r.isEditing == s.isEditing
    ensures !e.UsernameChange? && !(e.KeyPress? && e.key != EnterKey) ==> Valid(r)
  {
    match e
    case UsernameChange(v) => s.(tempUsername := v)
    case EditClick => s.(tempUsername := s.username, isEditing := true)
    case SaveClick => s.(username := s.tempUsername, isEditing := false)
    case ClearClick => s.(tempUsername := s.username, isEditing := false)
    case KeyPress(k) =>
      if k == EnterKey then s.(username := s.tempUsername, isEditing := false) else s
    case DoubleClick => s.(tempUsername := s.username, isEditing := true)
  }

  /** The state after a sequence of events, handled one at a time. */
  function Run(s: EditorState, es: seq<EditorEvent>): EditorState
    decreases |es|
  {
    if es == [] then s else Run(Step(s, es[0]), es[1..])
  }

  /** Every event of `es` can be raised in the state it meets. */
  predicate Admissible(s: EditorState, es: seq<EditorEvent>)
    decreases |es|
  {
    es == [] || (Enabled(s, es[0]) && Admissible(Step(s, es[0]), es[1..]))
  }

  /** Every event of `es` is a keystroke in the input. */
  predicate AllTyping(es: seq<EditorEvent>)
  {
    forall i :: 0 <= i < |es| ==> es[i].UsernameChange?
  }

  /** Handling one more event after a sequence is one more step. */
  lemma {:induction false} RunSnoc(s: EditorState, es: seq<EditorEvent>, e: EditorEvent)
    ensures Run(s, es + [e]) == Step(Run(s, es), e)
    decreases |es|
  {
    if es != [] {
      assert (es + [e])[1..] == es[1..] + [e];
      RunSnoc(Step(s, es[0]), es[1..], e);
    } else {
      assert es + [e] == [e];
    }
  }

  /** Any sequence of events the UI can raise keeps the invariant. */
  lemma {:induction false} RunPreservesValid(s: EditorState, es: seq<EditorEvent>)
    requires Valid(s) && Admissible(s, es)
    ensures Valid(Run(s, es))
    decreases |es|
  {
    if es != [] {
      RunPreservesValid(Step(s, es[0]), es[1..]);
    }
  }

  /** Keystrokes change only the draft, which ends as the last value typed. */
  lemma {:induction false} TypingChangesOnlyDraft(s: EditorState, es: seq<EditorEvent>)
    requires AllTyping(es)
    ensures Run(s, es).username == s.username && Run(s, es).isEditing == s.isEditing
    ensures Run(s, es).tempUsername == if es == [] then s.tempUsername else es[|es| - 1].value
    decreases |es|
  {
    if es != [] {
      assert AllTyping(es[1..]) by {
        forall i | 0 <= i < |es[1..]| ensures es[1..][i].UsernameChange? { assert es[1..][i] == es[i + 1]; }
      }
      TypingChangesOnlyDraft(Step(s, es[0]), es[1..]);
      if |es| > 1 { assert es[1..][|es[1..]| - 1] == es[|es| - 1]; }
    }
  }

  /** Save by the check icon and save by Enter end in the same state. */
  lemma SaveClickAndEnterAgree(s: EditorState)
    ensures Step(s, SaveClick) == Step(s, KeyPress(EnterKey))
    ensures Step(s, SaveClick).username == s.tempUsername == Step(s, SaveClick).tempUsername
    ensures !Step(s, SaveClick).isEditing
  {
  }

  /** The edit icon and a double-click on the name enter editing the same way. */
  lemma EditClickAndDoubleClickAgree(s: EditorState)
    ensures Step(s, EditClick) == Step(s, DoubleClick)
    ensures Step(s, EditClick) == EditorState(s.username, s.username, true)
  {
  }

  /** Enter on the read-only field commits nothing new. */
  lemma EnterWhileViewingIsNoOp(s: EditorState)
    requires Valid(s) && !s.isEditing
    ensures Step(s, KeyPress(EnterKey)) == s
  {
  }

  /** Editing, then any number of keystrokes, then Clear restores the committed name. */
  lemma {:induction false} TypingThenClearRestores(s: EditorState, es: seq<EditorEvent>)
    requires AllTyping(es)
    ensures Run(s, es + [ClearClick]) == EditorState(s.username, s.username, false)
  {
    RunSnoc(s, es, ClearClick);
    TypingChangesOnlyDraft(s, es);
  }

  /** Keystrokes followed by Save commit the last value typed. */
  lemma {:induction false} TypingThenSaveCommits(s: EditorState, es: seq<EditorEvent>)
    requires AllTyping(es) && es != []
    ensures Run(s, es + [SaveClick]) == EditorState(es[|es| - 1].value, es[|es| - 1].value, false)
  {
    RunSnoc(s, es, SaveClick);
    TypingChangesOnlyDraft(s, es);
  }

  /** A double-click in the middle of an edit discards what was typed but keeps editing. */
  lemma {:induction false} DoubleClickMidEditDiscards(s: EditorState, es: seq<EditorEvent>)
    requires s.isEditing && AllTyping(es)
    ensures Run(s, es + [DoubleClick]) == EditorState(s.username, s.username, true)
  {
    RunSnoc(s, es, DoubleClick);
    TypingChangesOnlyDraft(s, es);
  }

  /** The component: its three pieces of state and one method per handler. */
  class UserName {
    var username: string
    var tempUsername: string
    var isEditing: bool

    function State(): EditorState
      reads this
    {
      EditorState(username, tempUsername, isEditing)
    }

    constructor ()
      ensures username == DefaultUsername && tempUsername == username && !isEditing
      ensures State() == Initial && Valid(State())
    {
      username := DefaultUsername;
      tempUsername := DefaultUsername;
      isEditing := false;
    }

    /** Typing replaces the draft; possible only while editing, since the input is read-only otherwise. */
    method HandleUsernameChange(value: string)
      requires Valid(State()) && Enabled(State(), UsernameChange(value))
      modifies this
      ensures tempUsername == value && username == old(username) && isEditing == old(isEditing)
      ensures State() == Step(old(State()), UsernameChange(value)) && Valid(State())
    {
      tempUsername := value;
    }

    /** The edit icon, rendered only outside editing. */
    method HandleEditClick()
      requires Valid(State()) && Enabled(State(), EditClick)
      modifies this
      ensures tempUsername == username == old(username) && isEditing
      ensures State() == Step(old(State()), EditClick) && Valid(State())
    {
      tempUsername := username;
      isEditing := true;
    }

    /** The check icon, rendered only while editing. */
    method HandleSaveClick()
      requires Valid(State()) && Enabled(State(), SaveClick)
      modifies this
      ensures username == tempUsername == old(tempUsername) && !isEditing
      ensures State() == Step(old(State()), SaveClick) && Valid(State())
    {
      username := tempUsername;
      isEditing := false;
    }

    /** The clear icon, rendered only while editing. */
    method HandleClearClick()
      requires Valid(State()) && Enabled(State(), ClearClick)
      modifies this
      ensures tempUsername == username == old(username) && !isEditing
      ensures State() == Step(old(State()), ClearClick) && Valid(State())
    {
      tempUsername := username;
      isEditing := false;
    }

    /** Enter saves the draft; every other key changes nothing. */
    method HandleKeyPress(key: string)
      requires Valid(State())
      modifies this
      ensures key == EnterKey ==> username == tempUsername == old(tempUsername) && !isEditing
      ensures key != EnterKey ==> State() == old(State())
      ensures State() == Step(old(State()), KeyPress(key)) && Valid(State())
    {
      if key == EnterKey {
        username := tempUsername;
        isEditing := false;
      }
    }

    method HandleDoubleClick()
      requires Valid(State())
      modifies this
      ensures tempUsername == username == old(username) && isEditing
      ensures State() == Step(old(State()), DoubleClick) && Valid(State())
    {
      tempUsername := username;
      isEditing := true;
    }
  }
}
