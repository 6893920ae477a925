/** The background selector of the sidebar. The parent owns the committed background type
    and value; the selector keeps the selected radio mode, one draft per mode and a flag
    saying whether the search draft differs from the committed value. */
module BackgroundSelector {
  import opened Keys

  /** The two mutually exclusive background modes: a preset colour, or an image search query. */
  datatype BackgroundType = Solid | Custom

  function Other(t: BackgroundType): (r: BackgroundType)
    ensures r != t
  {
    if t == Solid then Custom else Solid
  }

  /** The solid draft when the committed background is not a colour. */
  const DefaultSolidValue: string := "#000000"

  /** The search draft when the committed background is not a search. */
  const DefaultUnsplashValue: string := ""

  /** The colour boxes offered in solid mode. */
  const PresetColors: seq<string> := ["#7C0902", "#2F2C5C", "#3E4125", "#121010"]

  datatype SelectorState = SelectorState(
    backgroundType: BackgroundType,
    backgroundValue: string,
    selectedBackground: BackgroundType,
    solidValue: string,
    unsplashValue: string,
    isUnsplashValueChanged: bool)

  /** The draft kept for `mode`. */
  function DraftOf(s: SelectorState, mode: BackgroundType): string
  {
    if mode == Solid then s.solidValue else s.unsplashValue
  }

  /** The state on mount, derived from the committed background. */
  function Init(t: BackgroundType, v: string): (r: SelectorState)
    ensures r.backgroundType == t && r.backgroundValue == v && r.selectedBackground == t
    ensures DraftOf(r, t) == v && !r.isUnsplashValueChanged
    ensures DraftOf(r, Other(t)) == if t == Solid then DefaultUnsplashValue else DefaultSolidValue
  {
    SelectorState(t, v, t,
      if t == Solid then v else DefaultSolidValue,
      if t == Custom then v else DefaultUnsplashValue,
      false)
  }

  /** The effect that runs when the committed type or value changes: select the committed mode
      and copy the committed value into that mode's draft only. */
  function Sync(s: SelectorState): (r: SelectorState)
    ensures r.selectedBackground == s.backgroundType
    ensures DraftOf(r, s.backgroundType) == s.backgroundValue
    ensures DraftOf(r, Other(s.backgroundType)) == DraftOf(s, Other(s.backgroundType))
    ensures r.backgroundType == s.backgroundType && r.backgroundValue == s.backgroundValue
    ensures r.isUnsplashValueChanged == s.isUnsplashValueChanged
  {
    var selected := s.(selectedBackground := s.backgroundType);
    if s.backgroundType == Solid then selected.(solidValue := s.backgroundValue)
    else selected.(unsplashValue := s.backgroundValue)
  }

  /** The parent passes a committed background; the effect reruns only when it differs. */
  function CommittedChange(s: SelectorState, t: BackgroundType, v: string): (r: SelectorState)
    ensures r.backgroundType == t && r.backgroundValue == v
    ensures t == s.backgroundType && v == s.backgroundValue ==> r == s
    ensures t != s.backgroundType || v != s.backgroundValue ==>
      r.selectedBackground == t && DraftOf(r, t) == v && DraftOf(r, Other(t)) == DraftOf(s, Other(t))
    ensures r.isUnsplashValueChanged == s.isUnsplashValueChanged
  {
    if t == s.backgroundType && v == s.backgroundValue then s
    else Sync(s.(backgroundType := t, backgroundValue := v))
  }

  /** The events the selector's handlers react to. */
  datatype SelectorEvent =
    | RadioChange(mode: BackgroundType)
    | SolidColorBoxClick(color: string)
    | UnsplashInputChange(value: string)
    | UnsplashInputKeyDown(key: string)
    | SaveButtonClick
    | ClickOutside(insideInput: bool)

  /** What the rendered controls allow: colour boxes exist in solid mode only, the search box
      in search mode only, and the Save button only while the draft is marked changed. */
  predicate Enabled(s: SelectorState, e: SelectorEvent)
  {
    match e
    case RadioChange(_) => true
    case SolidColorBoxClick(c) => s.selectedBackground == Solid && c in PresetColors
    case UnsplashInputChange(_) => s.selectedBackground == Custom
    case UnsplashInputKeyDown(_) => s.selectedBackground == Custom
    case SaveButtonClick => s.selectedBackground == Custom && s.isUnsplashValueChanged
    case ClickOutside(_) => true
  }

  /** Commit the search draft as a custom background. */
  function Commit(s: SelectorState): (r: SelectorState)
    ensures r.backgroundType == Custom && r.backgroundValue == s.unsplashValue == r.unsplashValue
    ensures !r.isUnsplashValueChanged
    ensures r.selectedBackground == s.selectedBackground && r.solidValue == s.solidValue
  {
    s.(backgroundType := Custom, backgroundValue := s.unsplashValue, isUnsplashValueChanged := false)
  }

  /** Throw the search draft away and show the committed value again. */
  function Discard(s: SelectorState): (r: SelectorState)
    ensures r.unsplashValue == s.backgroundValue && !r.isUnsplashValueChanged
    ensures r.backgroundType == s.backgroundType && r.backgroundValue == s.backgroundValue
    ensures r.selectedBackground == s.selectedBackground && r.solidValue == s.solidValue
  {
    s.(unsplashValue := s.backgroundValue, isUnsplashValueChanged := false)
  }

  /** The state after one handler has run. The click-outside handler is the corrected one,
      which resets the search draft to the current committed value. */
  function Step(s: SelectorState, e: SelectorEvent): (r: SelectorState)
    ensures !(e.SolidColorBoxClick? || e.SaveButtonClick? || (e.UnsplashInputKeyDown? && e.key == EnterKey))
      ==> r.backgroundType == s.backgroundType && r.backgroundValue == s.backgroundValue
    ensures !e.RadioChange? ==> r.selectedBackground == s.selectedBackground
  {
    match e
    case RadioChange(m) => s.(selectedBackground := m)
    case SolidColorBoxClick(c) => s.(solidValue := c, backgroundType := Solid, backgroundValue := c)
    case UnsplashInputChange(v) => s.(unsplashValue := v, isUnsplashValueChanged := v != s.backgroundValue)
    case UnsplashInputKeyDown(k) =>
      if k == EnterKey then Commit(s) else if k == EscapeKey then Discard(s) else s
    case SaveButtonClick => Commit(s)
    case ClickOutside(inside) => if s.selectedBackground == Custom && !inside then Discard(s) else s
  }

  /** The click-outside handler as the component registers it: the listener is installed once,
      on mount, so it resets the draft to the committed value it saw then, `mountValue`. */
  function ClickOutsideAsWritten(s: SelectorState, mountValue: string, insideInput: bool): (r: SelectorState)
    ensures s.selectedBackground == Custom && !insideInput ==> r.unsplashValue == mountValue && !r.isUnsplashValueChanged
    ensures !(s.selectedBackground == Custom && !insideInput) ==> r == s
    ensures r.backgroundType == s.backgroundType && r.backgroundValue == s.backgroundValue
  {
    if s.selectedBackground == Custom && !insideInput
    then s.(unsplashValue := mountValue, isUnsplashValueChanged := false)
    else s
  }

  /** The state after a sequence of events, handled one at a time. */
  function Run(s: SelectorState, es: seq<SelectorEvent>): SelectorState
    decreases |es|
  {
    if es == [] then s else Run(Step(s, es[0]), es[1..])
  }

  predicate AllTyping(es: seq<SelectorEvent>)
  {
    forall i :: 0 <= i < |es| ==> es[i].UnsplashInputChange?
  }

  predicate AllRadio(es: seq<SelectorEvent>)
  {
    forall i :: 0 <= i < |es| ==> es[i].RadioChange?
  }

  lemma {:induction false} RunAppend(s: SelectorState, a: seq<SelectorEvent>, b: seq<SelectorEvent>)
    ensures Run(s, a + b) == Run(Run(s, a), b)
    decreases |a|
  {
    if a != [] {
      assert (a + b)[1..] == a[1..] + b;
      RunAppend(Step(s, a[0]), a[1..], b);
    } else {
      assert a + b == b;
    }
  }

  /** On mount the sync effect finds the state already synchronised. */
  lemma MountSyncIsNoOp(t: BackgroundType, v: string)
    ensures Sync(Init(t, v)) == Init(t, v)
    ensures Init(t, v).selectedBackground == t && DraftOf(Init(t, v), t) == v
  {
  }

  lemma SyncIsIdempotent(s: SelectorState)
    ensures Sync(Sync(s)) == Sync(s)
  {
  }

  /** A handler that changes the committed background leaves nothing for the sync effect to do,
      so the effect never undoes or alters what the handler did. */
  lemma HandlersNeedNoSync(s: SelectorState, e: SelectorEvent)
    requires Enabled(s, e)
    ensures var r := Step(s, e);
      (r.backgroundType == s.backgroundType && r.backgroundValue == s.backgroundValue) || Sync(r) == r
  {
  }

  /** Switching modes any number of times changes only the selected mode: both drafts and the
      committed background survive, so solid, custom, solid restores the solid draft. */
  lemma {:induction false} RadioChangesOnlySelection(s: SelectorState, es: seq<SelectorEvent>)
    requires AllRadio(es)
    ensures Run(s, es) == if es == [] then s else s.(selectedBackground := es[|es| - 1].mode)
    decreases |es|
  {
    if es != [] {
      assert AllRadio(es[1..]) by {
        forall i | 0 <= i < |es[1..]| ensures es[1..][i].RadioChange? { assert es[1..][i] == es[i + 1]; }
      }
      RadioChangesOnlySelection(Step(s, es[0]), es[1..]);
      if |es| > 1 { assert es[1..][|es[1..]| - 1] == es[|es| - 1]; }
    }
  }

  lemma SolidCustomSolidRestoresDraft(s: SelectorState)
    ensures Run(s, [RadioChange(Custom), RadioChange(Solid)]) == s.(selectedBackground := Solid)
  {
    RadioChangesOnlySelection(s, [RadioChange(Custom), RadioChange(Solid)]);
  }

  /** A mouse switch away from search mode and back, with the corrected click-outside handler:
      the press on each radio button first reaches the document's listener, so the search draft
      comes back as the current committed value, not as it was typed; the solid draft and the
      committed background survive. */
  lemma MouseSwitchResetsSearchDraft(s: SelectorState)
    requires s.selectedBackground == Custom
    ensures Run(s, [ClickOutside(false), RadioChange(Solid), ClickOutside(false), RadioChange(Custom)])
      == s.(unsplashValue := s.backgroundValue, isUnsplashValueChanged := false)
  {
  }

  /** The same mouse switch with the listener as the component registers it: the box comes back
      showing the value captured at mount, whatever has been committed since. */
  lemma MouseSwitchAsWrittenShowsMountValue(s: SelectorState, mountValue: string)
    requires s.selectedBackground == Custom
    ensures var pressOnSolid := ClickOutsideAsWritten(s, mountValue, false);
      var onSolid := Step(pressOnSolid, RadioChange(Solid));
      var pressOnCustom := ClickOutsideAsWritten(onSolid, mountValue, false);
      Step(pressOnCustom, RadioChange(Custom)) == s.(unsplashValue := mountValue, isUnsplashValueChanged := false)
  {
  }

  /** Keystrokes in the search box change only the search draft and the changed flag,
      which says whether the last value typed differs from the committed value. */
  lemma {:induction false} TypingChangesOnlySearchDraft(s: SelectorState, es: seq<SelectorEvent>)
    requires AllTyping(es)
    ensures es == [] ==> Run(s, es) == s
    ensures es != [] ==>
      Run(s, es) == s.(unsplashValue := es[|es| - 1].value,
                       isUnsplashValueChanged := es[|es| - 1].value != s.backgroundValue)
    decreases |es|
  {
    if es != [] {
      assert AllTyping(es[1..]) by {
        forall i | 0 <= i < |es[1..]| ensures es[1..][i].UnsplashInputChange? { assert es[1..][i] == es[i + 1]; }
      }
      TypingChangesOnlySearchDraft(Step(s, es[0]), es[1..]);
      if |es| > 1 { assert es[1..][|es[1..]| - 1] == es[|es| - 1]; }
    }
  }

  /** Enter in the search box and the Save button commit the same way. */
  lemma EnterAndSaveAgree(s: SelectorState)
    ensures Step(s, UnsplashInputKeyDown(EnterKey)) == Step(s, SaveButtonClick)
  {
  }

  /** Escape and a click outside the mounted search box discard the same way (corrected handler). */
  lemma EscapeAndClickOutsideAgree(s: SelectorState)
    requires s.selectedBackground == Custom
    ensures Step(s, UnsplashInputKeyDown(EscapeKey)) == Step(s, ClickOutside(false))
  {
  }

  /** Any number of keystrokes followed by Escape restore the committed value in the search box,
      clear the flag and leave the committed background and the solid draft alone. */
  lemma {:induction false} TypingThenEscapeRestores(s: SelectorState, es: seq<SelectorEvent>)
    requires AllTyping(es)
    ensures Run(s, es + [UnsplashInputKeyDown(EscapeKey)]) ==
      s.(unsplashValue := s.backgroundValue, isUnsplashValueChanged := false)
  {
    RunAppend(s, es, [UnsplashInputKeyDown(EscapeKey)]);
    TypingChangesOnlySearchDraft(s, es);
  }

  /** Keystrokes followed by Enter commit the last value typed as a custom background. */
  lemma {:induction false} TypingThenEnterCommits(s: SelectorState, es: seq<SelectorEvent>)
    requires AllTyping(es) && es != []
    ensures var v := es[|es| - 1].value;
      Run(s, es + [UnsplashInputKeyDown(EnterKey)]) ==
      s.(backgroundType := Custom, backgroundValue := v, unsplashValue := v, isUnsplashValueChanged := false)
  {
    RunAppend(s, es, [UnsplashInputKeyDown(EnterKey)]);
    TypingChangesOnlySearchDraft(s, es);
  }

  /** Typing "beach" into the search box and pressing Enter makes the background a "beach" search. */
  lemma BeachScenario(t: BackgroundType, v: string)
    ensures var r := Run(Init(t, v), [RadioChange(Custom), UnsplashInputChange("beach"), UnsplashInputKeyDown(EnterKey)]);
      r.backgroundType == Custom && r.backgroundValue == "beach" && !r.isUnsplashValueChanged
  {
    var s := Step(Init(t, v), RadioChange(Custom));
    RunAppend(s, [UnsplashInputChange("beach")], [UnsplashInputKeyDown(EnterKey)]);
    assert [RadioChange(Custom), UnsplashInputChange("beach"), UnsplashInputKeyDown(EnterKey)][1..]
      == [UnsplashInputChange("beach")] + [UnsplashInputKeyDown(EnterKey)];
    TypingThenEnterCommits(s, [UnsplashInputChange("beach")]);
  }

  /** The registered click-outside handler resets the search box to a stale value: mounted on a
      "beach" search, the user commits "mountain", and a click outside shows "beach" again while
      the background stays "mountain". The corrected handler shows "mountain". */
  lemma ClickOutsideAsWrittenIsStale()
    ensures var mounted := Init(Custom, "beach");
      var committed := Run(mounted, [UnsplashInputChange("mountain"), UnsplashInputKeyDown(EnterKey)]);
      && committed.backgroundValue == "mountain"
      && ClickOutsideAsWritten(committed, mounted.backgroundValue, false).unsplashValue == "beach"
      && ClickOutsideAsWritten(committed, mounted.backgroundValue, false).unsplashValue != committed.backgroundValue
      && Step(committed, ClickOutside(false)).unsplashValue == committed.backgroundValue
  {
    var mounted := Init(Custom, "beach");
    TypingThenEnterCommits(mounted, [UnsplashInputChange("mountain")]);
    assert [UnsplashInputChange("mountain")] + [UnsplashInputKeyDown(EnterKey)]
      == [UnsplashInputChange("mountain"), UnsplashInputKeyDown(EnterKey)];
    assert "beach" != "mountain";
  }

  /** The selector together with the parent's committed background it reads and sets. */
  class BackgroundSettings {
    var backgroundType: BackgroundType
    var backgroundValue: string
    var selectedBackground: BackgroundType
    var solidValue: string
    var unsplashValue: string
    var isUnsplashValueChanged: bool

    function State(): SelectorState
      reads this
    {
      SelectorState(backgroundType, backgroundValue, selectedBackground, solidValue, unsplashValue, isUnsplashValueChanged)
    }

    constructor (t: BackgroundType, v: string)
      ensures backgroundType == t && backgroundValue == v && selectedBackground == t
      ensures solidValue == (if t == Solid then v else DefaultSolidValue)
      ensures unsplashValue == (if t == Custom then v else DefaultUnsplashValue)
      ensures !isUnsplashValueChanged
      ensures State() == Init(t, v)
    {
      backgroundType, backgroundValue, selectedBackground := t, v, t;
      solidValue := if t == Solid then v else DefaultSolidValue;
      unsplashValue := if t == Custom then v else DefaultUnsplashValue;
      isUnsplashValueChanged := false;
    }

    /** The parent's committed background changes; the sync effect follows when it differs. */
    method ReceiveCommitted(t: BackgroundType, v: string)
      modifies this
      ensures State() == CommittedChange(old(State()), t, v)
    {
      if t != backgroundType || v != backgroundValue {
        backgroundType, backgroundValue := t, v;
        selectedBackground := t;
        if t == Solid {
          solidValue := v;
        } else {
          unsplashValue := v;
        }
      }
    }

    method HandleRadioChange(mode: BackgroundType)
      modifies this`selectedBackground
      ensures selectedBackground == mode
      ensures State() == Step(old(State()), RadioChange(mode))
    {
      selectedBackground := mode;
    }

    method HandleSolidColorBoxClick(color: string)
      requires Enabled(State(), SolidColorBoxClick(color))
      modifies this`solidValue, this`backgroundType, this`backgroundValue
      ensures solidValue == color && backgroundType == Solid && backgroundValue == color
      ensures State() == Step(old(State()), SolidColorBoxClick(color))
    {
      solidValue := color;
      backgroundType := Solid;
      backgroundValue := color;
    }

    method HandleUnsplashInputChange(value: string)
      requires Enabled(State(), UnsplashInputChange(value))
      modifies this`unsplashValue, this`isUnsplashValueChanged
      ensures unsplashValue == value && isUnsplashValueChanged == (value != backgroundValue)
      ensures State() == Step(old(State()), UnsplashInputChange(value))
    {
      unsplashValue := value;
      isUnsplashValueChanged := value != backgroundValue;
    }

    /** Enter commits the search draft, Escape discards it, every other key changes nothing. */
    method HandleUnsplashInputKeyDown(key: string)
      requires Enabled(State(), UnsplashInputKeyDown(key))
      modifies this`backgroundType, this`backgroundValue, this`unsplashValue, this`isUnsplashValueChanged
      ensures key == EnterKey ==>
        backgroundType == Custom && backgroundValue == unsplashValue == old(unsplashValue) && !isUnsplashValueChanged
      ensures key == EscapeKey ==>
        backgroundType == old(backgroundType) && unsplashValue == backgroundValue == old(backgroundValue)
        && !isUnsplashValueChanged
      ensures key != EnterKey && key != EscapeKey ==> State() == old(State())
      ensures State() == Step(old(State()), UnsplashInputKeyDown(key))
    {
      if key == EnterKey {
        backgroundType := Custom;
        backgroundValue := unsplashValue;
        isUnsplashValueChanged := false;
      } else if key == EscapeKey {
        unsplashValue := backgroundValue;
        isUnsplashValueChanged := false;
      }
    }

    method HandleSaveButtonClick()
      requires Enabled(State(), SaveButtonClick)
      modifies this`backgroundType, this`backgroundValue, this`isUnsplashValueChanged
      ensures backgroundType == Custom && backgroundValue == unsplashValue && !isUnsplashValueChanged
      ensures State() == Step(old(State()), SaveButtonClick)
    {
      backgroundType := Custom;
      backgroundValue := unsplashValue;
      isUnsplashValueChanged := false;
    }

    /** A mouse press outside the mounted search box discards the draft (corrected handler). */
    method HandleClickOutside(insideInput: bool)
      modifies this`unsplashValue, this`isUnsplashValueChanged
      ensures old(selectedBackground) == Custom && !insideInput ==>
        unsplashValue == backgroundValue && !isUnsplashValueChanged
      ensures State() == Step(old(State()), ClickOutside(insideInput))
    {
      if selectedBackground == Custom && !insideInput {
        unsplashValue := backgroundValue;
        isUnsplashValueChanged := false;
      }
    }
  }
}
