# OneNote desktop shell: window-visibility and session controller

This project models the controller in `src/electron/app.js` of the OneNote
desktop shell, an Electron application that hosts the OneNote web site in
one window with a tray icon. The controller:

- shows and hides the main window (`setVisible`) and persists the choice
  under the `visible` setting;
- rebuilds the tray's context menu and the application menu, whose toggle
  entry reads "Hide" or "Show" (`menus.default`);
- runs the menu actions restart, home, corporate, last-page,
  toggleVisible and quit;
- handles the window's minimize, close and page-title-updated events;
- handles the page's `save` and `did-finish-load` messages;
- remembers the last visited page (`lastUrl`), the window bounds
  (`windowBounds`) and a page payload (`toHost`) in a settings store.

## Files

| File | Module | What it holds |
|---|---|---|
| `values.dfy` | `Values` | Stored values, reading a key (`undefined` is `None`), JavaScript truthiness |
| `menus.dfy` | `Menus` | Menu actions and entries, `menus.default`, and a built menu |
| `session.dfy` | `Session` | The application state as a datatype; one pure transition per action and per event; runs of events; the invariant |
| `properties.dfy` | `SessionProperties` | Lemmas that relate several transitions or hold over whole runs |
| `controller.dfy` | `App` | Class `Controller`, whose fields are the module-level state of `app.js` |

Each `Controller` method updates the fields step by step in the source's
order. Each ensures that `State()` equals the matching `Session`
transition applied to the old state. Each one that takes an event also
preserves the invariant `Session.Inv`.

## How the model reads the code

- **Menus.** `menus.default` returns seven entries. Only the toggle
  entry's label depends on the window, so a built menu
  (`Menu.buildFromTemplate`) is modelled as `Menus.Menu(offersHide)`.
  `Menus.Entries` gives the full entry list of a built menu.
- **`setVisible`.**
  - An undefined or null argument becomes `true`.
  - The window is shown or hidden by the argument's truthiness, and the
    argument itself is stored.
  - Both menus are rebuilt from the window's visibility.
  - Then a stored `lastUrl` that is a string not starting with "file" is
    loaded, whatever the argument was.
  - The load dereferences the window without checking that it exists. The
    model therefore requires a window whenever such a `lastUrl` is stored.
- **Startup does not hide the window.** A persisted `visible` of false
  does not start the window hidden:
  - `createWindow` calls `setVisible(conf.get('visible'))`, which hides the
    window and builds a "Show" entry;
  - then it calls `action.home()`, which calls `show()` and does not
    rebuild the menus.

  So the window starts visible under a "Show"
  entry (`SessionProperties.HiddenPreferenceStartsVisibleUnderShow`).
- **Clearing storage.** `action.home`, `action.corporate` and
  `action.restart` clear the browsing storage. A callback then erases the
  settings and loads a page. The model takes the clearing and its callback
  as one step.
  - Inside `createWindow`, that callback runs only after `createWindow`
    returns.
  - So the `windowBounds` restore at the end of `createWindow` reads the
    settings before they are erased. The model keeps that order.
- **Events.**
  - The ready event comes once, before any window exists.
  - Besides the handlers of `app.js`, the user can move or resize the
    window (`Session.MoveWindow`); the save handler reads that geometry
    back with `getBounds()`.
  - Every other event needs the window.
  - No event arrives after the window has really closed.

## Model

| member | source | states |
|---|---|---|
| Values.Get | src/electron/app.js:218-222 | A read yields a value exactly when the key is stored, and that value is the stored one |
| Values.Truthy | src/electron/app.js:212-216 | A value is falsy exactly when it is null, false, 0 or the empty string |
| Menus.Entries | src/electron/app.js:94-124 | A built menu has the seven entries in order, with the six fixed ones around the toggle entry, whose click is toggleVisible |
| Menus.DefaultMenu | src/electron/app.js:88-125 | The toggle label is "Hide" exactly when the window exists and is visible, and "Show" otherwise; every other entry is fixed |
| Menus.MenusDifferOnlyInToggle | src/electron/app.js:94-124 | Any two results of menus.default agree on every entry except the toggle entry |
| Session.RestorableUrl | src/electron/app.js:222-224 | Yields the stored lastUrl exactly when it is a string that does not start with "file" |
| Session.PendingPayload | src/electron/app.js:266-267 | Yields the stored toHost exactly when it is neither undefined nor null |
| Session.Defaulted | src/electron/app.js:207-210 | Undefined and null become true; any other argument is kept |
| Session.SetVisible | src/electron/app.js:207-225 | Shows or hides an existing window by truthiness; stores the defaulted flag; rebuilds both menus from the visibility; loads a restorable lastUrl; changes nothing else |
| Session.ToggleVisible | src/electron/app.js:56-61 | Without a window nothing changes; otherwise the visibility flips, the new flag is stored, both menus are rebuilt and offer "Hide" exactly when the window is now visible, a restorable lastUrl is reloaded, and nothing else changes |
| Session.OnMinimize | src/electron/app.js:239-242 | Minimizing hides the window, stores false, rebuilds both menus to offer "Show", reloads a restorable lastUrl, and changes nothing else |
| Session.OnClose | src/electron/app.js:244-250 | The window really closes exactly when quitting, and then nothing else changes; otherwise it is hidden, false is stored, both menus offer "Show", a restorable lastUrl is reloaded, and nothing else changes |
| Session.OnTitleUpdated | src/electron/app.js:252-257 | The last history entry becomes lastUrl; a missing or empty history changes nothing; no other key or field changes |
| Session.OnSave | src/electron/app.js:272-275 | toHost becomes the payload (absent when undefined) and windowBounds the current bounds; nothing else changes |
| Session.OnDidFinishLoad | src/electron/app.js:265-270 | A pending payload is appended to what the page received; otherwise nothing is sent; nothing else changes |
| Session.Restart | src/electron/app.js:28-33 | Every setting is erased and the placeholder page loaded; nothing else changes |
| Session.Login | src/electron/app.js:34-48 | The window is shown, every setting erased and the login page loaded; the menus are not rebuilt |
| Session.LastPage | src/electron/app.js:49-55 | Loads the restorable lastUrl, or else the placeholder; a local page loaded is always the placeholder |
| Session.Quit | src/electron/app.js:62-65 | Raises the quitting flag and requests the quit; nothing else changes |
| Session.CreateWindow | src/electron/app.js:228-263 | The window exists, is visible, shows the home page over erased settings, takes persisted rectangle bounds, and its menus follow the persisted flag |
| Session.Perform | src/electron/app.js:27-65 | A menu action keeps the window and its closed state; it raises the quitting flag exactly for quit |
| Session.BlankUrl | src/electron/app.js:53 | The placeholder page's address is local (starts with "file") and ends in "/blank.html" under the install directory |
| Session.IsLocal | src/electron/app.js:50 | An address is local exactly when its first four characters are "file" |
| Session.CloseCancelled | src/electron/app.js:245-246 | For an open window, the close is cancelled exactly when the window stays open after the close event |
| Session.Show | src/electron/app.js:35 | The window becomes visible; nothing else changes (the menus are not rebuilt) |
| Session.ClearSession | src/electron/app.js:29-32 | Every setting is erased and the target loaded, so no last page is restorable and no payload pending; nothing else changes |
| Session.OpenWindow | src/electron/app.js:229-233 | The new window exists, is shown, has nothing loaded and the toolkit's bounds; nothing else changes |
| Session.RestoreBounds | src/electron/app.js:259-262 | A persisted rectangle becomes the window's bounds; otherwise the bounds stay; nothing else changes |
| Session.MoveWindow | src/electron/app.js:274 | The window takes the geometry the user gave it, which getBounds() then reports; nothing else changes |
| Session.Apply | src/electron/app.js:197-277 | Dispatches each event to its handler (ready, tray click, window and page events); after any event the window exists |
| Menus.Build | src/electron/app.js:193-203 | The built menu's toggle entry reads "Hide" exactly when the window exists and is visible |
| SessionProperties.SetVisibleDefaultsToTrue | src/electron/app.js:207-210 | setVisible(), setVisible(null) and setVisible(true) give the same state |
| SessionProperties.SetVisibleIsIdempotent | src/electron/app.js:207-225 | Repeating setVisible with the same argument leaves the modelled state unchanged |
| SessionProperties.MenusFollowSetVisible | src/electron/app.js:219-220 | After setVisible, the tray and the application menu list exactly what menus.default gives for the window |
| SessionProperties.ToggleTwiceRestoresVisibility | src/electron/app.js:56-61 | Toggling twice restores the visibility; the state equals setVisible of the original visibility |
| SessionProperties.CloseHidesLikeMinimize | src/electron/app.js:239-250 | A cancelled close does exactly what minimize does |
| SessionProperties.QuitLetsCloseThrough | src/electron/app.js:244-250 | After quit, a close is not cancelled and the window closes |
| SessionProperties.LastPageReturnsToRecordedPage | src/electron/app.js:49-55 | A recorded non-local page is what "Your last page" loads next |
| SessionProperties.RecordedPlaceholderIsNotRestored | src/electron/app.js:222-224 | A recorded placeholder page is never restored: last-page shows the placeholder, and setVisible keeps the loaded page |
| SessionProperties.ResetForgetsLastPage | src/electron/app.js:28-48 | After restart or a login, "Your last page" shows the placeholder |
| SessionProperties.SavedPayloadIsDelivered | src/electron/app.js:265-275 | A saved non-null payload is handed to the page on the next load, and the saved bounds read back |
| SessionProperties.MovedBoundsAreSaved | src/electron/app.js:272-275 | A save after the user moves the window stores the new geometry |
| SessionProperties.SavedBoundsRestoredAtLaunch | src/electron/app.js:259-275 | The next launch over the settings a save left gives the window the geometry it had at that save |
| SessionProperties.ClearedSessionDeliversNothing | src/electron/app.js:28-33 | After restart, the next page load sends nothing |
| SessionProperties.HiddenPreferenceStartsVisibleUnderShow | src/electron/app.js:228-237 | With a persisted visible of false, the window starts visible under a "Show" entry |
| SessionProperties.InitialInv | src/electron/app.js:10-12 | The invariant holds before the window exists |
| SessionProperties.SetVisibleKeepsInv | src/electron/app.js:207-225 | setVisible keeps the invariant |
| SessionProperties.CreateWindowKeepsInv | src/electron/app.js:228-263 | createWindow keeps the invariant |
| SessionProperties.PerformKeepsInv | src/electron/app.js:27-65 | Every menu action keeps the invariant |
| SessionProperties.StepPreservesInv | src/electron/app.js:228-277 | Every event that can arrive keeps the invariant |
| SessionProperties.RunPreservesInv | src/electron/app.js:228-277 | The invariant holds after any run of events |
| SessionProperties.StepKeepsWindowAndQuitting | src/electron/app.js:62-65 | No event removes the window or lowers the quitting flag, and only quit raises it |
| SessionProperties.RunKeepsWindowAndQuitting | src/electron/app.js:62-65 | Over any run, the window stays and the quitting flag stays raised |
| SessionProperties.QuittingNeedsQuitAction | src/electron/app.js:62-65 | A run that raises the quitting flag contains the quit entry |
| SessionProperties.RealCloseNeedsQuit | src/electron/app.js:244-250 | From launch, the window really closes only in a run that used the quit entry |
| App.Controller.constructor | src/electron/app.js:8-12 | The process before the window exists, over the persisted settings; the invariant holds |
| App.Controller.CreateMenu | src/electron/app.js:128-195 | The application menu is rebuilt from menus.default for the current window |
| App.Controller.CreateTray | src/electron/app.js:197-205 | The tray's context menu is rebuilt from menus.default for the current window |
| App.Controller.SetVisible | src/electron/app.js:207-225 | Performs Session.SetVisible on the fields |
| App.Controller.CreateWindow | src/electron/app.js:228-263 | Performs Session.CreateWindow on the fields and keeps the invariant |
| App.Controller.OpenWindow | src/electron/app.js:229-233 | The new window exists, shown, with nothing loaded and the toolkit's bounds |
| App.Controller.Show | src/electron/app.js:35 | The window becomes visible |
| App.Controller.RestoreBounds | src/electron/app.js:259-262 | Persisted rectangle bounds become the window's bounds |
| App.Controller.ClearSession | src/electron/app.js:29-32 | Every setting is erased and the target page loaded |
| App.Controller.ToggleVisible | src/electron/app.js:56-61 | Performs Session.ToggleVisible and keeps the invariant |
| App.Controller.Restart | src/electron/app.js:28-33 | Performs Session.Restart and keeps the invariant |
| App.Controller.Login | src/electron/app.js:34-48 | Performs Session.Login and keeps the invariant |
| App.Controller.LastPage | src/electron/app.js:49-55 | Performs Session.LastPage and keeps the invariant |
| App.Controller.Quit | src/electron/app.js:62-65 | Performs Session.Quit and keeps the invariant |
| App.Controller.Perform | src/electron/app.js:27-65 | Performs Session.Perform and keeps the invariant |
| App.Controller.OnMinimize | src/electron/app.js:239-242 | Performs Session.OnMinimize and keeps the invariant |
| App.Controller.OnClose | src/electron/app.js:244-250 | Reports whether the close is cancelled (exactly when not quitting), performs Session.OnClose and keeps the invariant |
| App.Controller.OnTitleUpdated | src/electron/app.js:252-257 | Performs Session.OnTitleUpdated and keeps the invariant |
| App.Controller.OnSave | src/electron/app.js:272-275 | Performs Session.OnSave and keeps the invariant |
| App.Controller.OnDidFinishLoad | src/electron/app.js:265-270 | Performs Session.OnDidFinishLoad and keeps the invariant |
| App.Controller.OnMoved | src/electron/app.js:274 | Performs Session.MoveWindow and keeps the invariant |

## Left out

- The actions github, patrik, p3x, corifeus, npm and download open a link in the system browser (`shell.openExternal`). That is outside the modelled state, so the download entry changes nothing here.
- The Edit, View and Help submenus of the application menu are made of toolkit roles and links. Only the title submenu built from `menus.default` is modelled.
- The single-instance guard and its second-instance focus are left out. They are process-level and involve no modelled state.
- The `window-all-closed` and `activate` handlers are left out. `activate` compares the window with null, which it never is.
- The IPC transport is not modelled. `webContents.send('onload-user', …)` appears as an entry appended to `sent`.
- The contents of the browsing storage are not modelled. Clearing that storage and running its callback are taken as one atomic step.
- The tray's icon file, its tooltip and the window's title are left out, as are the `title` argument of page-title-updated and the BrowserWindow options.
- The application menu before the first `createMenu`, which is the toolkit's default, is `None`.
- JavaScript numbers are modelled as integers. Any object or array other than a rectangle is an opaque identity.
- Session.SetVisible: requires a window whenever a restorable `lastUrl` is stored. In that case the source's `loadURL` on a missing window throws a TypeError, which the model does not represent.
- SessionProperties.SetVisibleIsIdempotent: a load is modelled as setting the loaded address, so reloading the address already loaded is invisible. Each setVisible with a restorable `lastUrl` reloads that page, and the model does not record reloads.
- Session.CreateWindow: requires a stored `windowBounds` to be a rectangle or null. The toolkit's reaction to other values is not modelled.
- Session.OnTitleUpdated: the history is modelled as a list of strings or its absence. The source's `Array.isArray` test on arbitrary values is not modelled.
- Session.Run: after the window has really closed, no further events are modelled. Closing happens only while quitting.
- The window's own `isVisible()` is the `visible` field. Visibility changes made by the operating system outside these handlers are not modelled. Of the geometry, only whole moves or resizes (`Session.MoveWindow`) are modelled, not the toolkit's intermediate events.
