/** The library panel keys (src/app/inputs/library.rs): queue reordering,
    the tab cycle between queue, directory browser and playlists, the
    rename, save and tag-editor prompts, deletion, descending into and out
    of folders, leaving search, and list navigation. MPD replies and the
    album tag read from the file arrive in `LibraryEnv`; adding to the
    queue only talks to MPD and shows a toast, so it changes no modelled
    state. */
module LibraryInput {
  import opened Wrappers
  import Keys
  import S = AppState

  /** What the outside world answers during one key press. */
  datatype LibraryEnv = LibraryEnv(
    controller: bool,                       // the `--controller` flag: no MPD
    shiftOk: bool,                          // whether MPD moved the queue entry
    playlists: Option<seq<string>>,         // MPD's playlist names, if the query succeeded
    dirItems: Option<seq<S.LibraryItem>>,   // a directory listing, if the fetch succeeded
    album: string)                          // the album tag read from the file, "" if none

  // ---------------------------------------------------------------------
  // Tabs
  // ---------------------------------------------------------------------

  /** The next tab: Queue, Directory, Playlists, Queue; search leaves to
      the playlists. */
  function NextTab(m: S.LibraryMode): (r: S.LibraryMode)
    ensures r != S.Search && r != m
  {
    match m
    case Queue => S.Directory
    case Directory => S.Playlists
    case Search => S.Playlists
    case Playlists => S.Queue
  }

  /** The previous tab: Queue, Playlists, Directory, Queue; search leaves
      to the directory browser. */
  function PrevTab(m: S.LibraryMode): (r: S.LibraryMode)
    ensures r != S.Search && r != m
  {
    match m
    case Queue => S.Playlists
    case Directory => S.Queue
    case Search => S.Directory
    case Playlists => S.Directory
  }

  /** On the three tabs the two directions undo each other and three
      presses come back; from search, next and previous lead to different
      tabs. */
  lemma TabCycle(m: S.LibraryMode)
    ensures m != S.Search ==> PrevTab(NextTab(m)) == m && NextTab(PrevTab(m)) == m
    ensures m != S.Search ==> NextTab(NextTab(NextTab(m))) == m
    ensures NextTab(S.Search) != PrevTab(S.Search)
  {
  }

  /** What a tab switch resets: the selection, the listed items, the
      browse path and the query. */
  predicate Reset(r: S.LibraryState) {
    r.selected == 0 && r.browsePath == [] && r.searchQuery == ""
  }

  /** The listing a forward switch to `mode` fetches: the root directory
      for the browser (kept empty when the fetch fails or there is no MPD),
      nothing otherwise. */
  function TabItems(mode: S.LibraryMode, env: LibraryEnv): (r: seq<S.LibraryItem>)
    ensures mode != S.Directory || env.controller || env.dirItems.None? ==> r == []
  {
    if mode == S.Directory && !env.controller && env.dirItems.Some? then env.dirItems.value else []
  }

  /** The playlist names after a switch to `mode`: refreshed from MPD on
      the playlists tab when the query succeeds, kept otherwise. */
  function TabPlaylists(lib: S.LibraryState, mode: S.LibraryMode, env: LibraryEnv): (r: seq<string>)
    ensures mode != S.Playlists || env.controller || env.playlists.None? ==> r == lib.playlists
  {
    if mode == S.Playlists && !env.controller && env.playlists.Some? then env.playlists.value else lib.playlists
  }

  /** Switch tab (`forward` for the next-tab key). Both keys clear the
      listing; only the next-tab key fetches the root directory for the
      browser, and only it ends search typing. The queue and the
      remembered search origin are untouched. */
  function SwitchTab(lib: S.LibraryState, env: LibraryEnv, forward: bool): (r: S.LibraryState)
    ensures r.mode == (if forward then NextTab(lib.mode) else PrevTab(lib.mode))
    ensures Reset(r) && r.mode != S.Search
    ensures forward ==> !r.searchActive
    ensures !forward ==> r.searchActive == lib.searchActive
    ensures forward ==> r.items == TabItems(r.mode, env)
    ensures !forward ==> r.items == []
    ensures r.playlists == TabPlaylists(lib, r.mode, env)
    ensures r.queue == lib.queue && r.previousMode == lib.previousMode
  {
    var mode := if forward then NextTab(lib.mode) else PrevTab(lib.mode);
    lib.(mode := mode, selected := 0, items := if forward then TabItems(mode, env) else [], browsePath := [], searchQuery := "",
         searchActive := if forward then false else lib.searchActive,
         playlists := TabPlaylists(lib, mode, env))
  }

  // ---------------------------------------------------------------------
  // Navigation
  // ---------------------------------------------------------------------

  /** How many rows the current tab lists. */
  function RowCount(lib: S.LibraryState): nat {
    match lib.mode
    case Queue => |lib.queue|
    case Playlists => |lib.playlists|
    case _ => |lib.items|
  }

  /** The selection is on a row, or 0 in an empty list. */
  predicate InRange(lib: S.LibraryState) {
    lib.selected == 0 || lib.selected < RowCount(lib)
  }

  /** Up: one row up, stopping at the top. */
  function NavUp(sel: nat): (r: nat)
    ensures sel > 0 ==> r + 1 == sel
    ensures sel == 0 ==> r == 0
  {
    if sel > 0 then sel - 1 else 0
  }

  /** Down: one row down while below the last of `max(count, 1)` rows. */
  function NavDown(sel: nat, count: nat): (r: nat)
    ensures sel + 1 < count ==> r == sel + 1
    ensures sel + 1 >= count ==> r == sel
  {
    var rows := if count > 1 then count else 1;
    if sel < rows - 1 then sel + 1 else sel
  }

  /** Navigation keeps the selection below `max(count, 1)`; down then up
      returns to the same row away from the bottom, and up then down away
      from the top. */
  lemma NavBounds(sel: nat, count: nat)
    ensures sel < count || sel == 0 ==> NavUp(sel) < count || NavUp(sel) == 0
    ensures sel < count || sel == 0 ==> NavDown(sel, count) < count || NavDown(sel, count) == 0
    ensures sel + 1 < count ==> NavUp(NavDown(sel, count)) == sel
    ensures 0 < sel < count ==> NavDown(NavUp(sel), count) == sel
  {
  }

  /** Move the selected queue entry down (`down`) or up. MPD shifts the
      entry; the selection follows only when the shift succeeded, and
      never leaves the queue. */
  function MoveQueueEntry(lib: S.LibraryState, env: LibraryEnv, down: bool): (r: S.LibraryState)
    ensures r == lib.(selected := r.selected)
    ensures down && lib.selected + 1 < |lib.queue| && !env.controller && env.shiftOk ==>
              r.selected == lib.selected + 1
    ensures !down && lib.selected > 0 && !env.controller && env.shiftOk ==>
              r.selected + 1 == lib.selected
    ensures env.controller || !env.shiftOk ==> r == lib
    ensures InRange(lib) && lib.mode == S.Queue ==> InRange(r)
  {
    if env.controller || !env.shiftOk then lib
    else if down && lib.selected + 1 < |lib.queue| then lib.(selected := lib.selected + 1)
    else if !down && lib.selected > 0 then lib.(selected := lib.selected - 1)
    else lib
  }

  /** A successful move down followed by a successful move up leaves the
      selection where it was. */
  lemma MoveDownThenUp(lib: S.LibraryState, env: LibraryEnv)
    requires lib.selected + 1 < |lib.queue| && !env.controller && env.shiftOk
    ensures MoveQueueEntry(MoveQueueEntry(lib, env, true), env, false) == lib
  {
  }

  // ---------------------------------------------------------------------
  // Prompts
  // ---------------------------------------------------------------------

  /** The rename prompt: offered for the selected playlist, pre-filled
      with its name; nothing when the selection is past the list. */
  function RenamePrompt(lib: S.LibraryState): (r: Option<S.InputState>)
    ensures r.Some? <==> lib.selected < |lib.playlists|
    ensures r.Some? ==>
      var name := lib.playlists[lib.selected];
      r.value.mode == S.PlaylistRename(name) && r.value.value == name
  {
    if lib.selected < |lib.playlists| then
      var name := lib.playlists[lib.selected];
      Some(S.InputState(S.PlaylistRename(name), "Rename Playlist", name))
    else None
  }

  /** The tag editor for the selected row: a queue entry, or a song with a
      path in the directory browser. The album comes from the file unless
      there is no MPD. */
  function TagEditFor(lib: S.LibraryState, env: LibraryEnv): (r: Option<S.TagEditState>)
    ensures r.Some? ==> lib.mode in {S.Queue, S.Directory} && r.value.activeField == 0
    ensures r.Some? ==> r.value.album == (if env.controller then "" else env.album)
    ensures lib.mode == S.Queue ==>
      (r.Some? <==> lib.selected < |lib.queue|)
    ensures lib.mode == S.Queue && r.Some? ==>
      var q := lib.queue[lib.selected];
      r.value.filePath == q.filePath && r.value.title == q.title && r.value.artist == q.artist
    ensures lib.mode == S.Directory ==>
      (r.Some? <==> lib.selected < |lib.items| && lib.items[lib.selected].itemType == S.Song
                    && lib.items[lib.selected].path.Some?)
    ensures lib.mode == S.Directory && r.Some? ==>
      var it := lib.items[lib.selected];
      && r.value.filePath == it.path.value && r.value.title == it.name
      && r.value.artist == (if it.artist.Some? then it.artist.value else "")
  {
    var album := if env.controller then "" else env.album;
    match lib.mode
    case Queue =>
      if lib.selected < |lib.queue| then
        var q := lib.queue[lib.selected];
        Some(S.NewTagEdit(q.filePath, q.title, q.artist, album))
      else None
    case Directory =>
      if lib.selected < |lib.items| && lib.items[lib.selected].itemType == S.Song
         && lib.items[lib.selected].path.Some? then
        var it := lib.items[lib.selected];
        Some(S.NewTagEdit(it.path.value, it.name, if it.artist.Some? then it.artist.value else "", album))
      else None
    case _ => None
  }

  // ---------------------------------------------------------------------
  // Deleting
  // ---------------------------------------------------------------------

  /** Delete the selected entry through MPD. On the playlists tab the list
      is refreshed when MPD answers, and a selection past the new end moves
      up one row. The queue itself is refreshed by the status poll, not
      here. */
  function DeleteItem(lib: S.LibraryState, env: LibraryEnv): (r: S.LibraryState)
    ensures env.controller || lib.mode != S.Playlists ==> r == lib
    ensures r == lib.(playlists := r.playlists, selected := r.selected)
    ensures lib.mode == S.Playlists && !env.controller ==>
      && r.playlists == (if env.playlists.Some? && lib.selected < |lib.playlists| then env.playlists.value
                         else lib.playlists)
      && (lib.selected > 0 && lib.selected >= |r.playlists| ==> r.selected + 1 == lib.selected)
      && (lib.selected == 0 || lib.selected < |r.playlists| ==> r.selected == lib.selected)
  {
    if env.controller || lib.mode != S.Playlists then lib
    else
      var pls := if env.playlists.Some? && lib.selected < |lib.playlists| then env.playlists.value
                 else lib.playlists;
      var sel := if lib.selected > 0 && lib.selected >= |pls| then lib.selected - 1 else lib.selected;
      lib.(playlists := pls, selected := sel)
  }

  /** The reloaded playlist list is at most one shorter than the old one:
      what this client's own deletion does to a server nobody else edits. */
  predicate ShrinksByAtMostOne(lib: S.LibraryState, env: LibraryEnv) {
    env.playlists.Some? ==> |env.playlists.value| + 1 >= |lib.playlists|
  }

  /** When the reload is at most one shorter, the selection stays on a row. */
  lemma DeleteKeepsSelection(lib: S.LibraryState, env: LibraryEnv)
    ensures InRange(lib) && ShrinksByAtMostOne(lib, env) ==> InRange(DeleteItem(lib, env))
  {
  }

  /** The single step back is not enough when another client removed
      playlists too: with the sixth of six playlists selected and a reload
      of one, the selection lands on the fifth row of a one-row list. */
  lemma DeleteCanLeaveSelectionPastEnd(lib: S.LibraryState, env: LibraryEnv)
    requires lib.mode == S.Playlists && |lib.playlists| == 6 && lib.selected == 5
    requires !env.controller && env.playlists == Some(["a"])
    ensures InRange(lib)
    ensures DeleteItem(lib, env).selected == 4 && !InRange(DeleteItem(lib, env))
  {
  }

  // ---------------------------------------------------------------------
  // Folders and search
  // ---------------------------------------------------------------------

  /** Enter the selected folder in the directory browser: when its listing
      arrives, its name is pushed on the browse path, the listing replaces
      the items and the selection goes to the top. Every other outcome
      (songs, other tabs, failed fetches) only talks to MPD. */
  function EnterFolder(lib: S.LibraryState, env: LibraryEnv): (r: S.LibraryState)
    ensures var ok := !env.controller && lib.mode == S.Directory && lib.selected < |lib.items|
                      && lib.items[lib.selected].itemType == S.Folder
                      && lib.items[lib.selected].path.Some? && env.dirItems.Some?;
      && (ok ==> r == lib.(browsePath := lib.browsePath + [lib.items[lib.selected].name],
                           items := env.dirItems.value, selected := 0))
      && (!ok ==> r == lib)
  {
    if !env.controller && lib.mode == S.Directory && lib.selected < |lib.items| then
      var it := lib.items[lib.selected];
      if it.itemType == S.Folder && it.path.Some? && env.dirItems.Some? then
        lib.(browsePath := lib.browsePath + [it.name], items := env.dirItems.value, selected := 0)
      else lib
    else lib
  }

  /** Back in the directory browser: drop the last path element, clear the
      listing and go to the top; the parent's listing replaces it when the
      fetch succeeds. */
  function BackDir(lib: S.LibraryState, env: LibraryEnv): (r: S.LibraryState)
    ensures |lib.browsePath| > 0 ==> r.browsePath + [lib.browsePath[|lib.browsePath| - 1]] == lib.browsePath
    ensures lib.browsePath == [] ==> r.browsePath == []
    ensures r.selected == 0
    ensures r.items == (if !env.controller && env.dirItems.Some? then env.dirItems.value else [])
    ensures r == lib.(browsePath := r.browsePath, items := r.items, selected := 0)
  {
    var path := if |lib.browsePath| > 0 then lib.browsePath[..|lib.browsePath| - 1] else [];
    lib.(browsePath := path, items := if !env.controller && env.dirItems.Some? then env.dirItems.value else [],
         selected := 0)
  }

  /** Entering a folder and going back restores the browse path. */
  lemma EnterThenBack(lib: S.LibraryState, env: LibraryEnv, env2: LibraryEnv)
    requires EnterFolder(lib, env) != lib
    ensures BackDir(EnterFolder(lib, env), env2).browsePath == lib.browsePath
  {
    var e := EnterFolder(lib, env);
    assert e.browsePath[..|e.browsePath| - 1] == lib.browsePath;
  }

  /** A playlist name as a library row. */
  function PlaylistRow(name: string): S.LibraryItem {
    S.LibraryItem(name, S.Playlist, None, None, None)
  }

  /** Leave search: back to the tab search was opened from (the directory
      browser if unknown), which is forgotten; the query is cleared and the
      selection goes to the top. The new tab's rows are fetched: the
      current directory's listing, or the playlists both as names and as
      rows; a return to the queue clears the rows. */
  function LeaveSearch(lib: S.LibraryState, env: LibraryEnv): (r: S.LibraryState)
    ensures r.mode == (if lib.previousMode.Some? then lib.previousMode.value else S.Directory)
    ensures r.previousMode.None? && r.searchQuery == "" && r.selected == 0
    ensures r.browsePath == lib.browsePath && r.queue == lib.queue && r.searchActive == lib.searchActive
    ensures !env.controller && r.mode == S.Queue ==> r.items == []
    ensures !env.controller && r.mode == S.Playlists && env.playlists.Some? ==>
      && r.playlists == env.playlists.value
      && |r.items| == |r.playlists|
      && forall i :: 0 <= i < |r.items| ==> r.items[i] == PlaylistRow(r.playlists[i])
    ensures r.playlists != lib.playlists ==> !env.controller && r.mode == S.Playlists
  {
    var mode := if lib.previousMode.Some? then lib.previousMode.value else S.Directory;
    var l1 := lib.(mode := mode, previousMode := None, searchQuery := "", selected := 0);
    if env.controller then l1
    else match mode
      case Directory => if env.dirItems.Some? then l1.(items := env.dirItems.value) else l1
      case Playlists =>
        if env.playlists.Some? then
          l1.(items := seq(|env.playlists.value|, i requires 0 <= i < |env.playlists.value| =>
                            PlaylistRow(env.playlists.value[i])),
              playlists := env.playlists.value)
        else l1
      case Queue => l1.(items := [])
      case Search => l1
  }

  // ---------------------------------------------------------------------
  // The handler
  // ---------------------------------------------------------------------

  /** The handler's result: whether the key was consumed and the new state. */
  datatype Outcome = Outcome(handled: bool, app: S.App)

  /** The keys that switch, reorder or prompt, in the handler's order. */
  function FirstKeys(app: S.App, key: Keys.KeyEvent, env: LibraryEnv): (r: Option<S.App>)
    ensures r.Some? ==> r.value == app.(library := r.value.library, tagEdit := r.value.tagEdit,
                                         inputState := r.value.inputState)
    ensures r.Some? && InRange(app.library) ==> InRange(r.value.library)
  {
    var k := app.keys;
    var lib := app.library;
    if Keys.Matches(key, k.moveDown) && lib.mode == S.Queue then
      Some(app.(library := MoveQueueEntry(lib, env, true)))
    else if Keys.Matches(key, k.moveUp) && lib.mode == S.Queue then
      Some(app.(library := MoveQueueEntry(lib, env, false)))
    else if Keys.Matches(key, k.tabNext) then Some(app.(library := SwitchTab(lib, env, true)))
    else if Keys.Matches(key, k.tabPrev) then Some(app.(library := SwitchTab(lib, env, false)))
    else if Keys.Matches(key, k.savePlaylist) then
      Some(app.(inputState := Some(S.InputState(S.PlaylistSave, "Save Playlist As:", ""))))
    else if Keys.Matches(key, k.renamePlaylist) && lib.mode == S.Playlists then
      match RenamePrompt(lib)
      case Some(p) => Some(app.(inputState := Some(p)))
      case None => Some(app)
    else if Keys.Matches(key, k.editTags) then
      match TagEditFor(lib, env)
      case Some(t) => Some(app.(tagEdit := Some(t)))
      case None => Some(app)
    else None
  }

  /** The keys that delete, open, go back or move the selection, in the
      handler's order. */
  function LaterKeys(app: S.App, key: Keys.KeyEvent, env: LibraryEnv): (r: Option<S.App>)
    ensures r.Some? ==> r.value == app.(library := r.value.library)
    ensures r.Some? && InRange(app.library) && ShrinksByAtMostOne(app.library, env) ==> InRange(r.value.library)
  {
    var k := app.keys;
    var lib := app.library;
    if Keys.Matches(key, k.deleteItem) then
      DeleteKeepsSelection(lib, env);
      Some(app.(library := DeleteItem(lib, env)))
    else if Keys.Matches(key, k.addToQueue) && lib.mode in {S.Directory, S.Search} then Some(app)
    else if Keys.Matches(key, k.enterDir) then Some(app.(library := EnterFolder(lib, env)))
    else if (Keys.Matches(key, k.backDirAlt) || Keys.Matches(key, k.backDir)) && lib.mode == S.Search then
      Some(app.(library := LeaveSearch(lib, env)))
    else if (Keys.Matches(key, k.backDir) || Keys.Matches(key, k.backDirAlt)) && lib.mode == S.Directory then
      Some(app.(library := BackDir(lib, env)))
    else NavKeys(app, key)
  }

  /** The cursor keys that close the handler's order. */
  function NavKeys(app: S.App, key: Keys.KeyEvent): (r: Option<S.App>)
    ensures r.Some? ==> r.value == app.(library := r.value.library)
    ensures r.Some? && InRange(app.library) ==> InRange(r.value.library)
  {
    var k := app.keys;
    var lib := app.library;
    if Keys.Matches(key, k.navUp) || Keys.Matches(key, k.navUpAlt) then
      Some(app.(library := lib.(selected := NavUp(lib.selected))))
    else if Keys.Matches(key, k.navDown) || Keys.Matches(key, k.navDownAlt) then
      NavBounds(lib.selected, RowCount(lib));
      Some(app.(library := lib.(selected := NavDown(lib.selected, RowCount(lib)))))
    else None
  }

  /** `handle_library_events`: only active in the library view; the first
      binding that matches decides. Only the library panel, the tag editor
      and the prompt change, and the selection stays on a row provided a
      refreshed playlist list is at most one shorter than the old one. */
  function HandleLibraryKey(app: S.App, key: Keys.KeyEvent, env: LibraryEnv): (r: Outcome)
    ensures app.viewMode != S.Library ==> !r.handled
    ensures !r.handled ==> r.app == app
    ensures r.app == app.(library := r.app.library, tagEdit := r.app.tagEdit, inputState := r.app.inputState)
    ensures InRange(app.library) && ShrinksByAtMostOne(app.library, env) ==> InRange(r.app.library)
  {
    if app.viewMode != S.Library then Outcome(false, app)
    else match FirstKeys(app, key, env)
      case Some(a) => Outcome(true, a)
      case None =>
        match LaterKeys(app, key, env)
        case Some(a) => Outcome(true, a)
        case None => Outcome(false, app)
  }

  // ---------------------------------------------------------------------
  // Which operation each binding runs
  // ---------------------------------------------------------------------

  /** The reorder keys, live only on the queue tab. */
  predicate ReorderKey(lib: S.LibraryState, k: Keys.KeyConfig, key: Keys.KeyEvent) {
    lib.mode == S.Queue && (Keys.Matches(key, k.moveDown) || Keys.Matches(key, k.moveUp))
  }

  /** The two tab keys. */
  predicate TabKey(k: Keys.KeyConfig, key: Keys.KeyEvent) {
    Keys.Matches(key, k.tabNext) || Keys.Matches(key, k.tabPrev)
  }

  /** The keys that open a prompt or the tag editor. */
  predicate PromptKey(lib: S.LibraryState, k: Keys.KeyConfig, key: Keys.KeyEvent) {
    || Keys.Matches(key, k.savePlaylist)
    || (Keys.Matches(key, k.renamePlaylist) && lib.mode == S.Playlists)
    || Keys.Matches(key, k.editTags)
  }

  /** Every key `FirstKeys` consumes. */
  predicate EarlyKey(lib: S.LibraryState, k: Keys.KeyConfig, key: Keys.KeyEvent) {
    ReorderKey(lib, k, key) || TabKey(k, key) || PromptKey(lib, k, key)
  }

  /** The delete, add and open keys. */
  predicate ItemKey(lib: S.LibraryState, k: Keys.KeyConfig, key: Keys.KeyEvent) {
    || Keys.Matches(key, k.deleteItem)
    || (Keys.Matches(key, k.addToQueue) && lib.mode in {S.Directory, S.Search})
    || Keys.Matches(key, k.enterDir)
  }

  /** Either back binding. */
  predicate BackPressed(k: Keys.KeyConfig, key: Keys.KeyEvent) {
    Keys.Matches(key, k.backDir) || Keys.Matches(key, k.backDirAlt)
  }

  /** In the library view each of the first bindings runs its operation
      when no binding before it matches. */
  lemma FirstBindingsRun(app: S.App, key: Keys.KeyEvent, env: LibraryEnv)
    requires app.viewMode == S.Library
    ensures var k := app.keys; var lib := app.library; var r := HandleLibraryKey(app, key, env);
      && (Keys.Matches(key, k.moveDown) && lib.mode == S.Queue ==>
            r == Outcome(true, app.(library := MoveQueueEntry(lib, env, true))))
      && (Keys.Matches(key, k.moveUp) && lib.mode == S.Queue && !Keys.Matches(key, k.moveDown) ==>
            r == Outcome(true, app.(library := MoveQueueEntry(lib, env, false))))
      && (Keys.Matches(key, k.tabNext) && !ReorderKey(lib, k, key) ==>
            r == Outcome(true, app.(library := SwitchTab(lib, env, true))))
      && (Keys.Matches(key, k.tabPrev) && !ReorderKey(lib, k, key) && !Keys.Matches(key, k.tabNext) ==>
            r == Outcome(true, app.(library := SwitchTab(lib, env, false))))
      && (Keys.Matches(key, k.savePlaylist) && !ReorderKey(lib, k, key) && !TabKey(k, key) ==>
            r == Outcome(true, app.(inputState := Some(S.InputState(S.PlaylistSave, "Save Playlist As:", "")))))
      && (Keys.Matches(key, k.renamePlaylist) && lib.mode == S.Playlists
          && !ReorderKey(lib, k, key) && !TabKey(k, key) && !Keys.Matches(key, k.savePlaylist) ==>
            r.handled && r.app.inputState == (if RenamePrompt(lib).Some? then RenamePrompt(lib) else app.inputState)
            && r.app == app.(inputState := r.app.inputState))
      && (Keys.Matches(key, k.editTags) && !ReorderKey(lib, k, key) && !TabKey(k, key)
          && !Keys.Matches(key, k.savePlaylist) && !(Keys.Matches(key, k.renamePlaylist) && lib.mode == S.Playlists) ==>
            r.handled && r.app.tagEdit == (if TagEditFor(lib, env).Some? then TagEditFor(lib, env) else app.tagEdit)
            && r.app == app.(tagEdit := r.app.tagEdit))
  {
  }

  /** In the library view each of the later bindings runs its operation
      when no binding before it matches; a key bound to nothing is passed
      on. */
  lemma LaterBindingsRun(app: S.App, key: Keys.KeyEvent, env: LibraryEnv)
    requires app.viewMode == S.Library && !EarlyKey(app.library, app.keys, key)
    ensures var k := app.keys; var lib := app.library; var r := HandleLibraryKey(app, key, env);
      && (Keys.Matches(key, k.deleteItem) ==> r == Outcome(true, app.(library := DeleteItem(lib, env))))
      && (Keys.Matches(key, k.addToQueue) && lib.mode in {S.Directory, S.Search} ==> r.handled && r.app == app)
      && (Keys.Matches(key, k.enterDir) && !Keys.Matches(key, k.deleteItem)
          && !(Keys.Matches(key, k.addToQueue) && lib.mode in {S.Directory, S.Search}) ==>
            r == Outcome(true, app.(library := EnterFolder(lib, env))))
      && (BackPressed(k, key) && lib.mode == S.Search && !ItemKey(lib, k, key) ==>
            r == Outcome(true, app.(library := LeaveSearch(lib, env))))
      && (BackPressed(k, key) && lib.mode == S.Directory && !ItemKey(lib, k, key) ==>
            r == Outcome(true, app.(library := BackDir(lib, env))))
      && ((Keys.Matches(key, k.navUp) || Keys.Matches(key, k.navUpAlt)) && !ItemKey(lib, k, key)
          && !(BackPressed(k, key) && lib.mode in {S.Search, S.Directory}) ==>
            r == Outcome(true, app.(library := lib.(selected := NavUp(lib.selected)))))
      && ((Keys.Matches(key, k.navDown) || Keys.Matches(key, k.navDownAlt)) && !ItemKey(lib, k, key)
          && !(BackPressed(k, key) && lib.mode in {S.Search, S.Directory})
          && !(Keys.Matches(key, k.navUp) || Keys.Matches(key, k.navUpAlt)) ==>
            r == Outcome(true, app.(library := lib.(selected := NavDown(lib.selected, RowCount(lib))))))
      && (!ItemKey(lib, k, key) && !(BackPressed(k, key) && lib.mode in {S.Search, S.Directory})
          && !Keys.Matches(key, k.navUp) && !Keys.Matches(key, k.navUpAlt)
          && !Keys.Matches(key, k.navDown) && !Keys.Matches(key, k.navDownAlt) ==>
            r == Outcome(false, app))
  {
  }
}
