/**
 * The display mode of src/context/ThemeContext.tsx: one of two personas,
 * read once from local storage (falling back to graduation), changed by
 * `setMode` and `toggleMode`, and written back to storage after every change.
 */
module Theme {
  import opened Products

  /** `ThemeMode`: 'graduation' | 'corporate'. */
  datatype Mode = Graduation | Corporate

  /** The string the mode is stored as. */
  function ModeName(m: Mode): (s: string)
    ensures s == "graduation" || s == "corporate"
  {
    match m
    case Graduation => "graduation"
    case Corporate => "corporate"
  }

  /**
   * getInitialMode: the stored string when it names a mode, graduation in every
   * other case (no window, no value, any other string).
   */
  function InitialMode(hasWindow: bool, stored: Option<string>): (m: Mode)
    ensures m == Corporate <==> hasWindow && stored == Some("corporate")
    ensures hasWindow && stored.Some? && (stored.value == "graduation" || stored.value == "corporate") ==>
      ModeName(m) == stored.value
  {
    if !hasWindow then Graduation
    else if stored == Some("graduation") then Graduation
    else if stored == Some("corporate") then Corporate
    else Graduation
  }

  /** The toggle: graduation and corporate swap. */
  function Toggled(m: Mode): (r: Mode)
    ensures r != m
  {
    if m == Graduation then Corporate else Graduation
  }

  /** Toggling twice is the identity. */
  lemma ToggleTwice(m: Mode)
    ensures Toggled(Toggled(m)) == m
  {
  }

  /** What the persistence effect writes is read back as the same mode. */
  lemma SavedModeReloads(m: Mode)
    ensures InitialMode(true, Some(ModeName(m))) == m
  {
  }

  /** The mode state together with the value of its storage key. */
  class ModeStore {
    const hasWindow: bool
    var mode: Mode
    /** The storage key, as last written (or as found when nothing was written). */
    var persisted: Option<string>

    /** The storage key names the current mode whenever there is a window. */
    ghost predicate Saved()
      reads this
    {
      hasWindow ==> persisted == Some(ModeName(mode))
    }

    /** Reloading the page would restore the current mode. */
    lemma Reloads()
      requires Saved() && hasWindow
      ensures InitialMode(hasWindow, persisted) == mode
    {
      SavedModeReloads(mode);
    }

    /** The provider mounts: the mode is loaded, then the effect writes it back. */
    constructor (hasWindow: bool, stored: Option<string>)
      ensures this.hasWindow == hasWindow
      ensures mode == InitialMode(hasWindow, stored)
      ensures persisted == if hasWindow then Some(ModeName(mode)) else stored
      ensures Saved()
    {
      this.hasWindow := hasWindow;
      mode := InitialMode(hasWindow, stored);
      persisted := stored;
      new;
      Save();
    }

    /** The persistence effect. */
    method Save()
      modifies this`persisted
      ensures persisted == if hasWindow then Some(ModeName(mode)) else old(persisted)
      ensures Saved()
    {
      if hasWindow {
        persisted := Some(ModeName(mode));
      }
    }

    method SetMode(m: Mode)
      modifies this
      ensures mode == m
      ensures Saved() && (!hasWindow ==> persisted == old(persisted))
    {
      mode := m;
      Save();
    }

    method ToggleMode()
      modifies this
      ensures mode == Toggled(old(mode)) && mode != old(mode)
      ensures Saved() && (!hasWindow ==> persisted == old(persisted))
    {
      mode := Toggled(mode);
      Save();
    }
  }
}
