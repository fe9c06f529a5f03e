/** Persistence side of `winFactory`: reading the stored record, merging it
    over the default size, capturing the live geometry, and the close-time
    save that writes once and detaches itself. */
module WindowPersistence {
  import opened Options
  import opened Geometry

  /** The persisted JSON object: each of the four fields may be missing. */
  datatype Record = Record(x: Option<real>, y: Option<real>, width: Option<int>, height: Option<int>)

  /** What the user-data directory holds under one file name: a parsed JSON
      record, or text whose parse throws. */
  datatype FileContent = Json(record: Record) | Unparseable

  /** The user-data directory, by file name. */
  type Store = map<string, FileContent>

  /** The one file name used for window state, whatever the window's name. */
  const StateFile: string := "window-state.json"

  /** The read inside `restore`: nothing usable when the file is missing (the
      read yields undefined, which the merge ignores) or when parsing throws
      (the catch leaves the empty object). */
  function ReadRecord(store: Store): (r: Option<Record>)
    ensures r.Some? <==> StateFile in store && store[StateFile].Json?
    ensures r.Some? ==> r.value == store[StateFile].record
  {
    if StateFile in store then
      match store[StateFile]
      case Json(rec) => Some(rec)
      case Unparseable => None
    else None
  }

  /** The JSON object written for a state: a missing coordinate stays missing. */
  function ToRecord(s: WindowState): (r: Record)
    ensures r.width == Some(s.width) && r.height == Some(s.height)
  {
    Record(s.x, s.y, Some(s.width), Some(s.height))
  }

  /** `restore`: `Object.assign({}, defaultSize, restoredState)`. */
  function Restore(defaults: Size, stored: Option<Record>): (r: WindowState)
    ensures stored.None? ==> r == WindowState(None, None, defaults.width, defaults.height)
    ensures stored.Some? ==> r.x == stored.value.x && r.y == stored.value.y
    ensures stored.Some? ==> r.width == stored.value.width.GetOr(defaults.width)
    ensures stored.Some? ==> r.height == stored.value.height.GetOr(defaults.height)
  {
    match stored
    case None => WindowState(None, None, defaults.width, defaults.height)
    case Some(rec) => WindowState(rec.x, rec.y, rec.width.GetOr(defaults.width), rec.height.GetOr(defaults.height))
  }

  /** Field-by-field merge: a field the record carries wins over the default,
      a size field it lacks keeps the default, a position field it lacks stays
      unset, and a missing or unreadable record gives exactly the defaults. */
  lemma RestoreMergesFieldByField(defaults: Size, stored: Option<Record>)
    ensures var r := Restore(defaults, stored);
      && (stored.Some? && stored.value.width.Some? ==> r.width == stored.value.width.value)
      && (stored.Some? && stored.value.height.Some? ==> r.height == stored.value.height.value)
      && (stored.None? || stored.value.width.None? ==> r.width == defaults.width)
      && (stored.None? || stored.value.height.None? ==> r.height == defaults.height)
      && (stored.Some? && stored.value.x.Some? ==> r.x == stored.value.x)
      && (stored.Some? && stored.value.y.Some? ==> r.y == stored.value.y)
      && (stored.None? || stored.value.x.None? ==> r.x.None?)
      && (stored.None? || stored.value.y.None? ==> r.y.None?)
  {
  }

  /** Restoring the record written for a state gives that state back,
      whatever the defaults. */
  lemma RestoreToRecordRoundTrip(defaults: Size, s: WindowState)
    ensures Restore(defaults, Some(ToRecord(s))) == s
  {
  }

  /** The live window as the host reports it at close time. */
  datatype LiveWindow = LiveWindow(position: (int, int), size: (int, int), minimized: bool, maximized: bool)

  /** `getCurrentPosition`: position and size pairs become x, y, width, height. */
  function CurrentPosition(w: LiveWindow): (r: WindowState)
    ensures HasPosition(r)
    ensures r.x.value == w.position.0 as real && r.y.value == w.position.1 as real
    ensures r.width == w.size.0 && r.height == w.size.1
    ensures ToRecord(r) == Record(Some(w.position.0 as real), Some(w.position.1 as real), Some(w.size.0), Some(w.size.1))
  {
    WindowState(Some(w.position.0 as real), Some(w.position.1 as real), w.size.0, w.size.1)
  }

  /** One window's persistence context: the in-memory state, the user-data
      directory, and whether the close listener is still attached. */
  datatype Session = Session(state: WindowState, store: Store, listening: bool)

  /** Window creation (app/utils/util.js:132-134): the initial state is the restored
      record made visible; the listener is attached; nothing is written.
      `name` is accepted and ignored, as in the source. */
  function Open(name: string, options: Size, store: Store, displays: seq<Rect>, primary: Rect): (r: Session)
    ensures r.store == store && r.listening
    ensures HasPosition(r.state)
    ensures var candidate := Restore(options, ReadRecord(store));
      (exists i :: 0 <= i < |displays| && WithinBounds(candidate, displays[i])) ==> r.state == candidate
    ensures var candidate := Restore(options, ReadRecord(store));
      (forall i :: 0 <= i < |displays| ==> !WithinBounds(candidate, displays[i])) ==>
        r.state == ResetToDefaults(options, primary)
  {
    Session(EnsureVisible(Restore(options, ReadRecord(store)), displays, primary, options), store, true)
  }

  /** `saveState`: take the live geometry unless minimised or maximised,
      write the state in either case, and detach the listener. */
  function SaveState(s: Session, w: LiveWindow): (r: Session)
    ensures !r.listening
    ensures !w.minimized && !w.maximized ==> r.state == CurrentPosition(w)
    ensures w.minimized || w.maximized ==> r.state == s.state
    ensures ReadRecord(r.store) == Some(ToRecord(r.state))
    ensures forall k :: k in s.store && k != StateFile ==> k in r.store && r.store[k] == s.store[k]
    ensures forall k :: k in r.store && k != StateFile ==> k in s.store
  {
    var state := if !w.minimized && !w.maximized then CurrentPosition(w) else s.state;
    Session(state, s.store[StateFile := Json(ToRecord(state))], false)
  }

  /** A 'close' event: runs `saveState` if it is still attached. */
  function OnClose(s: Session, w: LiveWindow): Session {
    if s.listening then SaveState(s, w) else s
  }

  /** A sequence of 'close' events, each with the window's live geometry. */
  function CloseEvents(s: Session, events: seq<LiveWindow>): Session
    decreases |events|
  {
    if |events| == 0 then s else CloseEvents(OnClose(s, events[0]), events[1..])
  }

  /** Once detached, further close events change nothing. */
  lemma {:induction false} DetachedIgnoresCloses(s: Session, events: seq<LiveWindow>)
    requires !s.listening
    ensures CloseEvents(s, events) == s
    decreases |events|
  {
    if |events| > 0 {
      DetachedIgnoresCloses(s, events[1..]);
    }
  }

  /** The state is written at most once per window: over any sequence of
      close events only the first one saves, and later ones change nothing. */
  lemma {:induction false} SavedAtMostOnce(s: Session, events: seq<LiveWindow>)
    requires s.listening
    ensures |events| == 0 ==> CloseEvents(s, events) == s
    ensures |events| > 0 ==> CloseEvents(s, events) == SaveState(s, events[0])
  {
    if |events| > 0 {
      DetachedIgnoresCloses(SaveState(s, events[0]), events[1..]);
    }
  }

  /** Round trip across runs: a geometry saved at close from a normal window
      and still inside some display is the initial state of the next run,
      whatever that run's window name and default size. */
  lemma SaveThenOpenRoundTrip(s: Session, w: LiveWindow, name: string, options: Size,
                               displays: seq<Rect>, primary: Rect)
    requires !w.minimized && !w.maximized
    requires exists i :: 0 <= i < |displays| && WithinBounds(CurrentPosition(w), displays[i])
    ensures Open(name, options, SaveState(s, w).store, displays, primary).state == CurrentPosition(w)
  {
  }

  /** Closing a minimised or maximised window writes the prior in-memory state
      unchanged, so the next run with the same displays and defaults starts
      exactly where this one started. */
  lemma MinimisedCloseKeepsState(name: string, options: Size, store: Store,
                                  displays: seq<Rect>, primary: Rect, w: LiveWindow)
    requires w.minimized || w.maximized
    ensures var first := Open(name, options, store, displays, primary);
      && ReadRecord(SaveState(first, w).store) == Some(ToRecord(first.state))
      && Open(name, options, SaveState(first, w).store, displays, primary).state == first.state
  {
  }

  /** The window's name plays no part: every window reads and writes the one
      state file, so two windows opened over the same directory start alike
      and a save touches no other file. */
  lemma StorageKeyIgnoresName(n1: string, n2: string, options: Size, store: Store,
                              displays: seq<Rect>, primary: Rect, w: LiveWindow)
    ensures Open(n1, options, store, displays, primary) == Open(n2, options, store, displays, primary)
    ensures var saved := SaveState(Open(n1, options, store, displays, primary), w).store;
      saved.Keys == store.Keys + {StateFile} && ReadRecord(saved).Some?
  {
  }

  /** A first run, or a run after the record became unreadable, places the
      default size at ((W - w) / 2, (H - h) / 2) on the primary display. */
  lemma FirstRunIsCentred(name: string, options: Size, store: Store, displays: seq<Rect>, primary: Rect)
    requires ReadRecord(store).None?
    ensures var r := Open(name, options, store, displays, primary).state;
      && r.width == options.width && r.height == options.height
      && 2.0 * r.x.value == (primary.width - options.width) as real
      && 2.0 * r.y.value == (primary.height - options.height) as real
  {
  }

  /** A 500 x 500 window on a 1920 x 1080 primary display with no stored
      state opens at (710, 290). */
  lemma FirstRunExample()
    ensures var d := Rect(0, 0, 1920, 1080);
      Open("main", Size(500, 500), map[], [d], d).state == WindowState(Some(710.0), Some(290.0), 500, 500)
  {
  }

  /** A stored 800 x 600 window at (100, 100) on a 1920 x 1080 display is
      reopened verbatim. */
  lemma StoredStateExample()
    ensures var d := Rect(0, 0, 1920, 1080);
      var store := map[StateFile := Json(Record(Some(100.0), Some(100.0), Some(800), Some(600)))];
      Open("main", Size(500, 500), store, [d], d).state == WindowState(Some(100.0), Some(100.0), 800, 600)
  {
  }
}
