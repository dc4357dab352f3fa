/**
 * The floating control panel (src/components/Sidebar.tsx): the buttons that
 * step the focus and break durations, the one-open-panel rule, dragging and
 * window-resize clamping of the panel's position, and the storage of the
 * notes text and the two feature flags.
 */
module Sidebar {
  import opened Wrappers

  // ---------------------------------------------------------------------
  // Duration steps (the four -/+ buttons of the Timer Settings panel)
  // ---------------------------------------------------------------------

  const FocusStep: int := 300
  const FocusMin: int := 300
  const FocusMax: int := 3600
  const BreakStep: int := 60
  const BreakMin: int := 60
  const BreakMax: int := 1800

  /** `Math.max(lo, t - step)`: one step down, never below `lo`. */
  function StepDown(t: int, step: nat, lo: int): (r: int)
    ensures lo <= r
    ensures lo <= t ==> r <= t
    ensures t - step >= lo ==> r == t - step
    ensures t - step < lo ==> r == lo
  {
    if t - step > lo then t - step else lo
  }

  /** `Math.min(hi, t + step)`: one step up, never above `hi`. */
  function StepUp(t: int, step: nat, hi: int): (r: int)
    ensures r <= hi
    ensures t <= hi ==> t <= r
    ensures t + step <= hi ==> r == t + step
    ensures t + step > hi ==> r == hi
  {
    if t + step < hi then t + step else hi
  }

  /** A duration the settings buttons can produce: within the bounds and on the step grid. */
  predicate OnGrid(t: int, step: nat, lo: int, hi: int) {
    lo <= t <= hi && (step > 0 ==> t % step == 0)
  }

  /** The focus "-" button: `Math.max(300, focusTime - 300)`. */
  function FocusDecrement(t: int): (r: int)
    ensures FocusMin <= r
    ensures FocusMin <= t ==> r <= t
    ensures OnGrid(t, FocusStep, FocusMin, FocusMax) ==> OnGrid(r, FocusStep, FocusMin, FocusMax)
    ensures t == FocusMin ==> r == FocusMin
  {
    StepDown(t, FocusStep, FocusMin)
  }

  /** The focus "+" button: `Math.min(3600, focusTime + 300)`. */
  function FocusIncrement(t: int): (r: int)
    ensures r <= FocusMax
    ensures t <= FocusMax ==> t <= r
    ensures OnGrid(t, FocusStep, FocusMin, FocusMax) ==> OnGrid(r, FocusStep, FocusMin, FocusMax)
    ensures t == FocusMax ==> r == FocusMax
  {
    StepUp(t, FocusStep, FocusMax)
  }

  /** The break "-" button: `Math.max(60, breakTime - 60)`. */
  function BreakDecrement(b: int): (r: int)
    ensures BreakMin <= r
    ensures BreakMin <= b ==> r <= b
    ensures OnGrid(b, BreakStep, BreakMin, BreakMax) ==> OnGrid(r, BreakStep, BreakMin, BreakMax)
    ensures b == BreakMin ==> r == BreakMin
  {
    StepDown(b, BreakStep, BreakMin)
  }

  /** The break "+" button: `Math.min(1800, breakTime + 60)`. */
  function BreakIncrement(b: int): (r: int)
    ensures r <= BreakMax
    ensures b <= BreakMax ==> b <= r
    ensures OnGrid(b, BreakStep, BreakMin, BreakMax) ==> OnGrid(r, BreakStep, BreakMin, BreakMax)
    ensures b == BreakMax ==> r == BreakMax
  {
    StepUp(b, BreakStep, BreakMax)
  }

  /** Away from the bounds, "+" undoes "-" and "-" undoes "+". */
  lemma StepsUndoEachOther(t: int, step: nat, lo: int, hi: int)
    requires lo <= t - step && t + step <= hi
    ensures StepUp(StepDown(t, step, lo), step, hi) == t
    ensures StepDown(StepUp(t, step, hi), step, lo) == t
  {
  }

  // ---------------------------------------------------------------------
  // Panels: at most one of "notes", "tasks", "settings" is open
  // ---------------------------------------------------------------------

  /** `toggleSection`: close the panel when it is the open one, otherwise open it alone. */
  function ToggledSection(active: Option<string>, section: string): (r: Option<string>)
    ensures active == Some(section) <==> r == None
    ensures r != None ==> r == Some(section)
  {
    if active == Some(section) then None else Some(section)
  }

  /**
   * Pressing the same icon twice restores the panel state when that panel or
   * none was open; when a different panel was open, it ends with all closed.
   */
  lemma ToggleSectionTwice(active: Option<string>, section: string)
    ensures ToggledSection(ToggledSection(active, section), section) ==
            if active == None || active == Some(section) then active else None
  {
  }

  // ---------------------------------------------------------------------
  // Position of the floating panel (CSS pixels)
  // ---------------------------------------------------------------------

  /** Room kept to the right of and below the panel. */
  const RightMargin: real := 60.0
  const BottomMargin: real := 100.0

  function Min(a: real, b: real): real { if a <= b then a else b }
  function Max(a: real, b: real): real { if a >= b then a else b }

  /**
   * One coordinate while dragging: `Math.min(extent - margin, Math.max(0, pointer - offset))`.
   * The pointer position minus the grab offset, held inside the window.
   */
  function DragCoordinate(pointer: real, offset: real, extent: real, margin: real): (r: real)
    ensures r <= extent - margin
    ensures margin <= extent ==> 0.0 <= r
    ensures 0.0 <= pointer - offset <= extent - margin ==> r == pointer - offset
    ensures pointer - offset < 0.0 && margin <= extent ==> r == 0.0
    ensures pointer - offset > extent - margin || extent < margin ==> r == extent - margin
  {
    Min(extent - margin, Max(0.0, pointer - offset))
  }

  /** One coordinate on window resize: `Math.min(extent - margin, prev)`. */
  function ResizeCoordinate(prev: real, extent: real, margin: real): (r: real)
    ensures r <= prev && r <= extent - margin
    ensures prev <= extent - margin ==> r == prev
    ensures 0.0 <= prev && margin <= extent ==> 0.0 <= r
    ensures prev > extent - margin ==> r == extent - margin
  {
    Min(extent - margin, prev)
  }

  /** Resizing twice to the same window is the same as resizing once. */
  lemma ResizeIdempotent(prev: real, extent: real, margin: real)
    ensures ResizeCoordinate(ResizeCoordinate(prev, extent, margin), extent, margin) ==
            ResizeCoordinate(prev, extent, margin)
  {
  }

  // ---------------------------------------------------------------------
  // Flags, notes and local storage
  // ---------------------------------------------------------------------

  type Store = map<string, string>

  const NotesKey: string := "pomodoro-notes"
  const NotificationsKey: string := "pomodoro-notifications"
  const SoundKey: string := "pomodoro-sound"

  /** `localStorage.getItem(key)`: `null` when the key is absent. */
  function GetItem(store: Store, key: string): (r: Option<string>)
    ensures r.Some? <==> key in store
    ensures r.Some? ==> r.value == store[key]
  {
    if key in store then Some(store[key]) else None
  }

  /** How a stored flag is read: `getItem(key) === "true"`. */
  function DecodeFlag(stored: Option<string>): (b: bool)
    ensures b <==> stored == Some("true")
  {
    match stored
    case Some(s) => s == "true"
    case None => false
  }

  /** How a flag is written: `flag.toString()`. */
  function EncodeFlag(b: bool): (s: string)
    ensures DecodeFlag(Some(s)) == b
    ensures s == "true" || s == "false"
  {
    if b then "true" else "false"
  }

  /** How the notes are read: `getItem("pomodoro-notes") || ""`. */
  function LoadNotes(stored: Option<string>): (notes: string)
    ensures stored.None? ==> notes == ""
    ensures stored.Some? ==> notes == stored.value
  {
    stored.GetOr("")
  }

  /**
   * The effect that runs when the notes or a flag change: the notes are
   * written only when non-empty, both flags always; no other key is touched.
   */
  function PersistSettings(store: Store, notes: string, notifications: bool, sound: bool): (r: Store)
    ensures NotificationsKey in r && r[NotificationsKey] == EncodeFlag(notifications)
    ensures SoundKey in r && r[SoundKey] == EncodeFlag(sound)
    ensures notes != "" ==> NotesKey in r && r[NotesKey] == notes
    ensures notes == "" ==> GetItem(r, NotesKey) == GetItem(store, NotesKey)
    ensures r.Keys == store.Keys + {NotificationsKey, SoundKey} + (if notes != "" then {NotesKey} else {})
    ensures forall k :: k in store && k != NotesKey && k != NotificationsKey && k != SoundKey ==>
              k in r && r[k] == store[k]
  {
    var withNotes := if notes != "" then store[NotesKey := notes] else store;
    withNotes[NotificationsKey := EncodeFlag(notifications)][SoundKey := EncodeFlag(sound)]
  }

  /**
   * What a reload reads back after the settings were written: both flags as
   * they were; the notes as they were when non-empty, and the previously
   * stored notes when they had been cleared.
   */
  lemma PersistThenLoad(store: Store, notes: string, notifications: bool, sound: bool)
    ensures var r := PersistSettings(store, notes, notifications, sound);
      && DecodeFlag(GetItem(r, NotificationsKey)) == notifications
      && DecodeFlag(GetItem(r, SoundKey)) == sound
      && LoadNotes(GetItem(r, NotesKey)) == (if notes != "" then notes else LoadNotes(GetItem(store, NotesKey)))
  {
    var r := PersistSettings(store, notes, notifications, sound);
    assert GetItem(r, NotificationsKey) == Some(EncodeFlag(notifications));
    assert GetItem(r, SoundKey) == Some(EncodeFlag(sound));
  }

  // ---------------------------------------------------------------------
  // Notification and sound switches
  // ---------------------------------------------------------------------

  /** What `Notification.requestPermission()` gave: a permission, or a thrown error. */
  datatype PermissionOutcome = Granted | Denied | Default | Failed

  /**
   * The notifications switch. Turning it off is unconditional; turning it on
   * asks for permission and succeeds only when permission is granted.
   */
  function ToggledNotifications(enabled: bool, outcome: PermissionOutcome): (r: bool)
    ensures r <==> !enabled && outcome == Granted
    ensures enabled ==> !r
  {
    if !enabled then
      match outcome
      case Granted => true
      case _ => enabled
    else false
  }

  // ---------------------------------------------------------------------
  // The component's state
  // ---------------------------------------------------------------------

  class Sidebar {
    var activeSection: Option<string>
    var x: real
    var y: real
    var isMounted: bool
    var notes: string
    var notificationsEnabled: bool
    var soundEnabled: bool
    var isDragging: bool
    /** The grab offset inside the panel, fixed when a drag starts. */
    var offsetX: real
    var offsetY: real
    /** The browser's local storage as this component sees it. */
    var store: Store

    /** First render: panels closed, default position, notes and flags read from storage. */
    constructor (stored: Store)
      ensures activeSection == None && x == 0.0 && y == 100.0 && !isMounted && !isDragging
      ensures notes == LoadNotes(GetItem(stored, NotesKey))
      ensures notificationsEnabled == DecodeFlag(GetItem(stored, NotificationsKey))
      ensures soundEnabled == DecodeFlag(GetItem(stored, SoundKey))
      ensures store == stored
    {
      activeSection := None;
      x, y := 0.0, 100.0;
      isMounted := false;
      notes := LoadNotes(GetItem(stored, NotesKey));
      notificationsEnabled := DecodeFlag(GetItem(stored, NotificationsKey));
      soundEnabled := DecodeFlag(GetItem(stored, SoundKey));
      isDragging := false;
      offsetX, offsetY := 0.0, 0.0;
      store := stored;
    }

    /** The mount effect: the panel moves 80 pixels in from the right edge. */
    method Mount(innerWidth: real)
      modifies this`x, this`y, this`isMounted
      ensures x == innerWidth - 80.0 && y == 100.0 && isMounted
    {
      x, y := innerWidth - 80.0, 100.0;
      isMounted := true;
    }

    /** A press on the icon bar starts a drag, unless the panel element is not there yet. */
    method MouseDown(hasElement: bool, clientX: real, clientY: real, rectLeft: real, rectTop: real)
      modifies this`isDragging, this`offsetX, this`offsetY
      ensures !hasElement ==> unchanged(this)
      ensures hasElement ==> isDragging && offsetX == clientX - rectLeft && offsetY == clientY - rectTop
    {
      if !hasElement {
        return;
      }
      isDragging := true;
      offsetX, offsetY := clientX - rectLeft, clientY - rectTop;
    }

    /** Pointer movement while dragging moves the panel, held inside the window. */
    method MouseMove(clientX: real, clientY: real, innerWidth: real, innerHeight: real)
      modifies this`x, this`y
      ensures !isDragging ==> x == old(x) && y == old(y)
      ensures isDragging ==> x == DragCoordinate(clientX, offsetX, innerWidth, RightMargin)
      ensures isDragging ==> y == DragCoordinate(clientY, offsetY, innerHeight, BottomMargin)
      ensures isDragging ==> x <= innerWidth - RightMargin && y <= innerHeight - BottomMargin
    {
      if !isDragging {
        return;
      }
      x := DragCoordinate(clientX, offsetX, innerWidth, RightMargin);
      y := DragCoordinate(clientY, offsetY, innerHeight, BottomMargin);
    }

    method MouseUp()
      modifies this`isDragging
      ensures !isDragging
    {
      isDragging := false;
    }

    /** A window resize pulls the panel back inside; it never moves right or down. */
    method Resize(innerWidth: real, innerHeight: real)
      modifies this`x, this`y
      ensures x == ResizeCoordinate(old(x), innerWidth, RightMargin)
      ensures y == ResizeCoordinate(old(y), innerHeight, BottomMargin)
      ensures x <= old(x) && y <= old(y)
      ensures x <= innerWidth - RightMargin && y <= innerHeight - BottomMargin
    {
      x := ResizeCoordinate(x, innerWidth, RightMargin);
      y := ResizeCoordinate(y, innerHeight, BottomMargin);
    }

    /** One of the three icons: notes, tasks or settings. Specified by `ToggledSection`. */
    method ToggleSection(section: string)
      modifies this`activeSection
      ensures activeSection == ToggledSection(old(activeSection), section)
    {
      if activeSection == Some(section) {
        activeSection := None;
      } else {
        activeSection := Some(section);
      }
    }

    /** The close button of a panel. */
    method CloseSection()
      modifies this`activeSection
      ensures activeSection == None
    {
      activeSection := None;
    }

    /** Typing in the notes text area. */
    method EditNotes(text: string)
      modifies this`notes
      ensures notes == text
    {
      notes := text;
    }

    /** "Save & Close": writes the notes even when empty, then closes the panel. */
    method SaveAndClose()
      modifies this`store, this`activeSection
      ensures store == old(store)[NotesKey := notes]
      ensures activeSection == None
    {
      store := store[NotesKey := notes];
      activeSection := None;
    }

    /**
     * The notifications switch, given what the permission request produced.
     * Specified by `ToggledNotifications`.
     */
    method ToggleNotifications(outcome: PermissionOutcome)
      modifies this`notificationsEnabled
      ensures notificationsEnabled == ToggledNotifications(old(notificationsEnabled), outcome)
    {
      if !notificationsEnabled {
        if outcome == Granted {
          notificationsEnabled := true;
        }
      } else {
        notificationsEnabled := false;
      }
    }

    /** The sound switch. */
    method ToggleSound()
      modifies this`soundEnabled
      ensures soundEnabled == !old(soundEnabled)
    {
      soundEnabled := !soundEnabled;
    }

    /** The effect that follows a change of the notes or a flag. Specified by `PersistSettings`. */
    method Persist()
      modifies this`store
      ensures store == PersistSettings(old(store), notes, notificationsEnabled, soundEnabled)
    {
      if notes != "" {
        store := store[NotesKey := notes];
      }
      store := store[NotificationsKey := EncodeFlag(notificationsEnabled)];
      store := store[SoundKey := EncodeFlag(soundEnabled)];
    }
  }
}
