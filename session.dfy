/**
 * The window-visibility and session controller of the desktop shell, as pure
 * transitions over an abstract application state: one function per action and
 * per window or page event. The class in module App performs the same
 * transitions step by step on its fields.
 */
module Session {
  import opened Values
  import Menus

  const HomeUrl: string := "https://www.onenote.com/notebooks"
  const CorporateUrl: string := "https://www.onenote.com/notebooks?auth=2&auth_upn=my_corporate_email_address"

  /** The bundled placeholder page, under the application's install directory. */
  function BlankUrl(appDir: string): (r: string)
    ensures IsLocal(r)
    ensures |r| == |appDir| + 18 && r[|r| - 11..] == "/blank.html"
  {
    var r := "file://" + appDir + "/blank.html";
    assert r[..4] == "file";
    assert r[|r| - 11..] == "/blank.html";
    r
  }

  /** A local page: its address starts with "file". */
  predicate IsLocal(url: string): (r: bool)
    ensures r <==> |url| >= 4 && url[..4] == "file"
  {
    "file" <= url
  }

  /**
   * The stored `lastUrl` when it is a string that does not start with "file";
   * only such a page is ever navigated back to.
   */
  function RestorableUrl(store: Store): (r: Option<string>)
    ensures r.Some? ==> Get(store, LastUrlKey) == Some(Str(r.value)) && !IsLocal(r.value)
    ensures r.None? ==> forall u :: Get(store, LastUrlKey) == Some(Str(u)) ==> IsLocal(u)
  {
    match Get(store, LastUrlKey)
    case Some(Str(u)) => if IsLocal(u) then None else Some(u)
    case _ => None
  }

  /** The payload `did-finish-load` hands to the page: a stored `toHost` that is neither undefined nor null. */
  function PendingPayload(store: Store): (r: Option<Value>)
    ensures r.Some? <==> ToHostKey in store && store[ToHostKey] != Null
    ensures r.Some? ==> r.value == store[ToHostKey]
  {
    if ToHostKey in store && store[ToHostKey] != Null then Some(store[ToHostKey]) else None
  }

  /** A stored `windowBounds` is a rectangle or null; the toolkit accepts nothing else. */
  predicate BoundsWellFormed(store: Store) {
    BoundsKey in store ==> store[BoundsKey].Rect? || store[BoundsKey] == Null
  }

  datatype AppState = AppState(
    appDir: string,                  // install directory of the bundled pages
    hasWindow: bool,                 // the main window has been created
    closed: bool,                    // the main window was really closed (only while quitting)
    visible: bool,                   // the window is shown
    url: string,                     // the address last loaded into the window ("" before any)
    bounds: Bounds,                  // the window's current geometry
    store: Store,                    // the persisted settings
    isQuitting: bool,                // the application's quitting flag
    quitRequested: bool,             // the application was asked to quit
    tray: Option<Menus.Menu>,        // the tray icon with its context menu (None until created)
    appMenu: Option<Menus.Menu>,     // the application menu's title submenu (None until first built)
    sent: seq<Value>                 // payloads handed to the page on load, oldest first
  )

  /** The process before the window exists, with the settings persisted by earlier runs. */
  function Initial(appDir: string, persisted: Store): AppState {
    AppState(appDir, false, false, false, "", Bounds(0, 0, 0, 0), persisted,
             false, false, None, None, [])
  }

  /** The value `setVisible` works with: an undefined or null argument becomes `true`. */
  function Defaulted(arg: Option<Value>): (v: Value)
    ensures v != Null
    ensures arg.Some? && arg.value != Null ==> v == arg.value
    ensures v == Bool(true) <==> arg == None || arg == Some(Null) || arg == Some(Bool(true))
  {
    match arg
    case None => Bool(true)
    case Some(Null) => Bool(true)
    case Some(v) => v
  }

  /**
   * setVisible: shows or hides an existing window, persists the flag, rebuilds
   * the menus, and then loads the restorable last page whatever the flag was.
   * Loading dereferences the window without checking it exists.
   */
  function SetVisible(s: AppState, arg: Option<Value>): (r: AppState)
    requires s.hasWindow || RestorableUrl(s.store).None?
    ensures s.hasWindow ==> r.visible == Truthy(Defaulted(arg))
    ensures !s.hasWindow ==> r.visible == s.visible
    ensures r.store == s.store[VisibleKey := Defaulted(arg)]
    ensures RestorableUrl(s.store).Some? ==> r.url == RestorableUrl(s.store).value
    ensures RestorableUrl(s.store).None? ==> r.url == s.url
    ensures r.tray == r.appMenu == Some(Menus.Build(r.hasWindow, r.visible))
    ensures r.appDir == s.appDir && r.hasWindow == s.hasWindow && r.closed == s.closed
    ensures r.bounds == s.bounds && r.sent == s.sent
    ensures r.isQuitting == s.isQuitting && r.quitRequested == s.quitRequested
  {
    var v := Defaulted(arg);
    var shown := if s.hasWindow then Truthy(v) else s.visible;
    var menu := Menus.Build(s.hasWindow, shown);
    var last := RestorableUrl(s.store);   // writing `visible` leaves `lastUrl` as it was
    s.(visible := shown, store := s.store[VisibleKey := v], appMenu := Some(menu), tray := Some(menu),
       url := if last.Some? then last.value else s.url)
  }

  /** action.toggleVisible: nothing without a window, otherwise setVisible of the opposite visibility. */
  function ToggleVisible(s: AppState): (r: AppState)
    ensures !s.hasWindow ==> r == s
    ensures s.hasWindow ==> r.visible == !s.visible && r.store == s.store[VisibleKey := Bool(!s.visible)]
    ensures s.hasWindow ==> r.appMenu.Some? && (r.appMenu.value.offersHide <==> r.visible) && r.tray == r.appMenu
    ensures s.hasWindow && RestorableUrl(s.store).Some? ==> r.url == RestorableUrl(s.store).value
    ensures RestorableUrl(s.store).None? ==> r.url == s.url
    ensures r.(visible := s.visible, store := s.store, url := s.url, tray := s.tray, appMenu := s.appMenu) == s
  {
    if !s.hasWindow then s else SetVisible(s, Some(Bool(!s.visible)))
  }

  /** The window's minimize event: the window is hidden instead, and the flag persisted. */
  function OnMinimize(s: AppState): (r: AppState)
    requires s.hasWindow
    ensures !r.visible && r.store == s.store[VisibleKey := Bool(false)]
    ensures r.tray == r.appMenu == Some(Menus.Menu(false))
    ensures RestorableUrl(s.store).Some? ==> r.url == RestorableUrl(s.store).value
    ensures RestorableUrl(s.store).None? ==> r.url == s.url
    ensures r.(visible := s.visible, store := s.store, url := s.url, tray := s.tray, appMenu := s.appMenu) == s
  {
    SetVisible(s, Some(Bool(false)))
  }

  /**
   * The window's close event: cancelled, and the window hidden, unless the
   * application is quitting, in which case the window really closes.
   */
  function OnClose(s: AppState): (r: AppState)
    requires s.hasWindow
    ensures r.closed <==> s.closed || s.isQuitting
    ensures !s.isQuitting ==> !r.visible && r.store == s.store[VisibleKey := Bool(false)]
    ensures !s.isQuitting ==> r.tray == r.appMenu == Some(Menus.Menu(false))
    ensures !s.isQuitting && RestorableUrl(s.store).Some? ==> r.url == RestorableUrl(s.store).value
    ensures !s.isQuitting && RestorableUrl(s.store).None? ==> r.url == s.url
    ensures !s.isQuitting ==>
              r.(visible := s.visible, store := s.store, url := s.url, tray := s.tray, appMenu := s.appMenu) == s
    ensures s.isQuitting ==> r == s.(closed := true)
  {
    if !s.isQuitting then SetVisible(s, Some(Bool(false))) else s.(closed := true)
  }

  /** Whether the close event is cancelled: exactly when the window stays open. */
  predicate CloseCancelled(s: AppState): (r: bool)
    ensures s.hasWindow && !s.closed ==> (r <==> !OnClose(s).closed)
  {
    !s.isQuitting
  }

  /**
   * page-title-updated: the last entry of the window's history becomes
   * `lastUrl`; a history that is missing or empty changes nothing.
   */
  function OnTitleUpdated(s: AppState, history: Option<seq<string>>): (r: AppState)
    ensures history.Some? && |history.value| > 0 ==>
              Get(r.store, LastUrlKey) == Some(Str(history.value[|history.value| - 1]))
    ensures history.None? || history.value == [] ==> r == s
    ensures forall k :: k != LastUrlKey ==> Get(r.store, k) == Get(s.store, k)
    ensures r.(store := s.store) == s
  {
    match history
    case Some(h) => if |h| > 0 then s.(store := s.store[LastUrlKey := Str(h[|h| - 1])]) else s
    case None => s
  }

  /**
   * The page's save message: its payload becomes `toHost` (an undefined payload
   * leaves the key absent) and the window's current bounds become `windowBounds`.
   */
  function OnSave(s: AppState, data: Option<Value>): (r: AppState)
    requires s.hasWindow
    ensures Get(r.store, ToHostKey) == data
    ensures Get(r.store, BoundsKey) == Some(Rect(s.bounds))
    ensures forall k :: k != ToHostKey && k != BoundsKey ==> Get(r.store, k) == Get(s.store, k)
    ensures r.(store := s.store) == s
  {
    var withData := match data
      case Some(d) => s.store[ToHostKey := d]
      case None => s.store - {ToHostKey};
    s.(store := withData[BoundsKey := Rect(s.bounds)])
  }

  /** The page's did-finish-load message: a pending payload is handed back to the page. */
  function OnDidFinishLoad(s: AppState): (r: AppState)
    requires s.hasWindow || PendingPayload(s.store).None?
    ensures PendingPayload(s.store).Some? ==> r.sent == s.sent + [PendingPayload(s.store).value]
    ensures PendingPayload(s.store).None? ==> r.sent == s.sent
    ensures r.(sent := s.sent) == s
  {
    match PendingPayload(s.store)
    case Some(v) => s.(sent := s.sent + [v])
    case None => s
  }

  /**
   * action.restart, its storage-clearing callback taken as one step: every
   * setting is erased and the placeholder page loaded; visibility is untouched.
   */
  function Restart(s: AppState): (r: AppState)
    requires s.hasWindow
    ensures r.store == map[] && r.url == BlankUrl(s.appDir)
    ensures r.(store := s.store, url := s.url) == s
  {
    ClearSession(s, BlankUrl(s.appDir))
  }

  /** The window's show(): it becomes visible; the menus are not rebuilt. */
  function Show(s: AppState): (r: AppState)
    ensures r.visible && r.(visible := s.visible) == s
  {
    s.(visible := true)
  }

  /** The callback of clearing the browsing storage: every setting is erased, then `target` is loaded. */
  function ClearSession(s: AppState, target: string): (r: AppState)
    ensures r.store == map[] && r.url == target
    ensures RestorableUrl(r.store).None? && PendingPayload(r.store).None?
    ensures r.(store := s.store, url := s.url) == s
  {
    s.(store := map[], url := target)
  }

  /**
   * action.home and action.corporate: the window is shown, then (after the
   * storage is cleared) every setting is erased and the login page loaded.
   * The menus are not rebuilt.
   */
  function Login(s: AppState, target: string): (r: AppState)
    requires s.hasWindow
    ensures r.visible && r.store == map[] && r.url == target
    ensures r.appMenu == s.appMenu && r.tray == s.tray
    ensures r.(visible := s.visible, store := s.store, url := s.url) == s
  {
    ClearSession(Show(s), target)
  }

  /** action['last-page']: the restorable last page, or else the placeholder. */
  function LastPage(s: AppState): (r: AppState)
    requires s.hasWindow
    ensures RestorableUrl(s.store).Some? ==> r.url == RestorableUrl(s.store).value
    ensures RestorableUrl(s.store).None? ==> r.url == BlankUrl(s.appDir)
    ensures IsLocal(r.url) ==> r.url == BlankUrl(s.appDir)
    ensures r.(url := s.url) == s
  {
    match RestorableUrl(s.store)
    case Some(u) => s.(url := u)
    case None => s.(url := BlankUrl(s.appDir))
  }

  /** action.quit: raises the quitting flag and asks the application to quit. */
  function Quit(s: AppState): (r: AppState)
    ensures r.isQuitting && r.quitRequested
    ensures r.(isQuitting := s.isQuitting, quitRequested := s.quitRequested) == s
  {
    s.(isQuitting := true, quitRequested := true)
  }

  /**
   * createWindow, on the application's ready event: the window is created
   * (shown, as the toolkit does by default), setVisible is applied to the
   * persisted flag, action.home shows the window, persisted bounds are
   * restored, and only then does home's storage-clearing callback erase the
   * settings and load the home page.
   */
  function CreateWindow(s: AppState, initial: Bounds): (r: AppState)
    requires !s.hasWindow && BoundsWellFormed(s.store)
    ensures r.hasWindow && r.visible && r.url == HomeUrl && r.store == map[]
    ensures Get(s.store, BoundsKey).Some? && s.store[BoundsKey].Rect? ==> r.bounds == s.store[BoundsKey].r
    ensures !(Get(s.store, BoundsKey).Some? && s.store[BoundsKey].Rect?) ==> r.bounds == initial
    ensures r.tray == r.appMenu == Some(Menus.Build(true, Truthy(Defaulted(Get(s.store, VisibleKey)))))
    ensures r.appDir == s.appDir && r.closed == s.closed && r.sent == s.sent
    ensures r.isQuitting == s.isQuitting && r.quitRequested == s.quitRequested
  {
    var restored := SetVisible(OpenWindow(s, initial), Get(s.store, VisibleKey));
    ClearSession(RestoreBounds(Show(restored)), HomeUrl)
  }

  /** A new window, shown as the toolkit does by default, with nothing loaded and the toolkit's bounds. */
  function OpenWindow(s: AppState, initial: Bounds): (r: AppState)
    ensures r.hasWindow && r.visible && r.url == "" && r.bounds == initial
    ensures r.(hasWindow := s.hasWindow, visible := s.visible, url := s.url, bounds := s.bounds) == s
  {
    s.(hasWindow := true, visible := true, url := "", bounds := initial)
  }

  /** A rectangle stored under `windowBounds` becomes the window's bounds. */
  function RestoreBounds(s: AppState): (r: AppState)
    ensures Get(s.store, BoundsKey).Some? && s.store[BoundsKey].Rect? ==> r.bounds == s.store[BoundsKey].r
    ensures !(Get(s.store, BoundsKey).Some? && s.store[BoundsKey].Rect?) ==> r.bounds == s.bounds
    ensures r.(bounds := s.bounds) == s
  {
    match Get(s.store, BoundsKey)
    case Some(Rect(b)) => s.(bounds := b)
    case _ => s
  }

  /**
   * The user moves or resizes the window: the toolkit changes its geometry,
   * which the save handler reads back with getBounds().
   */
  function MoveWindow(s: AppState, b: Bounds): (r: AppState)
    requires s.hasWindow
    ensures r.bounds == b && r.(bounds := s.bounds) == s
  {
    s.(bounds := b)
  }

  /** action: the effect of a menu entry on the modelled state. */
  function Perform(s: AppState, a: Menus.Action): (r: AppState)
    requires s.hasWindow
    ensures r.hasWindow && r.closed == s.closed
    ensures r.isQuitting <==> s.isQuitting || a == Menus.Quit
  {
    match a
    case Home => Login(s, HomeUrl)
    case Corporate => Login(s, CorporateUrl)
    case LastPage => LastPage(s)
    case Restart => Restart(s)
    case ToggleVisible => ToggleVisible(s)
    case Download => s      // opens a link in the system browser; no modelled state changes
    case Quit => Quit(s)
  }

  /** What reaches the controller from the application, the window, its page and the menus. */
  datatype Event =
    | Ready(initial: Bounds)
    | MenuClick(action: Menus.Action)
    | TrayClick
    | Minimize
    | Close
    | TitleUpdated(history: Option<seq<string>>)
    | SaveMessage(data: Option<Value>)
    | FinishLoad
    | Moved(bounds: Bounds)

  /**
   * What the handler for an event needs: the ready event comes once, before
   * any window, with well-formed persisted bounds; every other event comes
   * from the window, its page or the menus built with it.
   */
  predicate Admissible(s: AppState, e: Event) {
    match e
    case Ready(_) => !s.hasWindow && BoundsWellFormed(s.store)
    case _ => s.hasWindow
  }

  /** Which events can arrive: nothing arrives once the window has really closed. */
  predicate Enabled(s: AppState, e: Event) {
    !s.closed && Admissible(s, e)
  }

  function Apply(s: AppState, e: Event): (r: AppState)
    requires Admissible(s, e)
    ensures r.hasWindow && r.appDir == s.appDir
  {
    match e
    case Ready(b) => CreateWindow(s, b)
    case MenuClick(a) => Perform(s, a)
    case TrayClick => ToggleVisible(s)
    case Minimize => OnMinimize(s)
    case Close => OnClose(s)
    case TitleUpdated(h) => OnTitleUpdated(s, h)
    case SaveMessage(d) => OnSave(s, d)
    case FinishLoad => OnDidFinishLoad(s)
    case Moved(b) => MoveWindow(s, b)
  }

  /** Runs events one after another on the single event loop; None when one cannot arrive. */
  function Run(s: AppState, events: seq<Event>): Option<AppState>
    decreases |events|
  {
    if events == [] then Some(s)
    else if Enabled(s, events[0]) then Run(Apply(s, events[0]), events[1..])
    else None
  }

  /**
   * What stays true of the controller: once the window exists, the store holds
   * only the four known keys and well-formed bounds, and the tray exists; the
   * tray and the application menu are built together, from the same template;
   * the window closes only while quitting.
   */
  predicate Inv(s: AppState) {
    (s.hasWindow ==> s.tray.Some? && s.store.Keys <= KnownKeys && BoundsWellFormed(s.store)) &&
    s.tray == s.appMenu &&
    (s.closed ==> s.hasWindow && s.isQuitting) &&
    (s.isQuitting ==> s.quitRequested)
  }
}
