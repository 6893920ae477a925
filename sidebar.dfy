/** The sidebar's visibility: open and close are separate commands, and a click on the dimmed
    overlay closes the sidebar only when it lands on the overlay itself. */
module SidebarVisibility {

  /** The commands that reach the sidebar. `OverlayClick(onContainer)` is a click that bubbles to
      the overlay container; `onContainer` says whether the container itself was clicked. */
  datatype SidebarCommand = Open | Close | OverlayClick(onContainer: bool)

  /** Whether the sidebar is open after `cmd`. */
  function Apply(isOpen: bool, cmd: SidebarCommand): (r: bool)
    ensures cmd.Open? ==> r
    ensures cmd.Close? ==> !r
    ensures cmd.OverlayClick? ==> r == (isOpen && !cmd.onContainer)
  {
    match cmd
    case Open => true
    case Close => false
    case OverlayClick(onContainer) => if onContainer then false else isOpen
  }

  function Run(isOpen: bool, cmds: seq<SidebarCommand>): bool
    decreases |cmds|
  {
    if cmds == [] then isOpen else Run(Apply(isOpen, cmds[0]), cmds[1..])
  }

  /** Open and close do not depend on the prior state, and repeating them changes nothing. */
  lemma OpenCloseIdempotent(isOpen: bool)
    ensures Apply(Apply(isOpen, Open), Open) == Apply(isOpen, Open) == Apply(!isOpen, Open)
    ensures Apply(Apply(isOpen, Close), Close) == Apply(isOpen, Close) == Apply(!isOpen, Close)
  {
  }

  /** The close icon sits inside the overlay, so its click closes the sidebar and then bubbles to
      the overlay from an inner element: the sidebar ends closed. */
  lemma CloseIconCloses(isOpen: bool)
    ensures !Run(isOpen, [Close, OverlayClick(false)])
  {
  }

  /** Any number of clicks on inner elements leave the sidebar as it was. */
  lemma {:induction false} InnerClicksChangeNothing(isOpen: bool, cmds: seq<SidebarCommand>)
    requires forall i :: 0 <= i < |cmds| ==> cmds[i] == OverlayClick(false)
    ensures Run(isOpen, cmds) == isOpen
    decreases |cmds|
  {
    if cmds != [] {
      InnerClicksChangeNothing(isOpen, cmds[1..]);
    }
  }

  /** The component's state and handlers. */
  class Sidebar {
    var isOpen: bool

    constructor ()
      ensures !isOpen
    {
      isOpen := false;
    }

    method OpenSidebar()
      modifies this
      ensures isOpen
      ensures isOpen == Apply(old(isOpen), Open)
    {
      isOpen := true;
    }

    /** Also the close icon's click handler. */
    method CloseSidebar()
      modifies this
      ensures !isOpen
      ensures isOpen == Apply(old(isOpen), Close)
    {
      isOpen := false;
    }

    /** Closes only when the click landed on the overlay container itself. */
    method HandleOverlayClick(targetIsCurrentTarget: bool)
      modifies this
      ensures targetIsCurrentTarget ==> !isOpen
      ensures !targetIsCurrentTarget ==> isOpen == old(isOpen)
      ensures isOpen == Apply(old(isOpen), OverlayClick(targetIsCurrentTarget))
    {
      if targetIsCurrentTarget {
        CloseSidebar();
      }
    }
  }
}
