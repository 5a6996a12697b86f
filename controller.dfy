/**
 * The controller as the application runs it: module-level state (the main
 * window, the settings store, the tray and the quitting flag) held in the
 * fields of one object and updated step by step. Each method performs the
 * transition its namesake in module Session describes, and keeps Session.Inv.
 */
module App {
  import opened Values
  import Menus
  import Session
  import SessionProperties

  class Controller {
    const appDir: string
    var hasWindow: bool
    var closed: bool
    var visible: bool
    var url: string
    var bounds: Bounds
    var store: Store
    var isQuitting: bool
    var quitRequested: bool
    var tray: Option<Menus.Menu>
    var appMenu: Option<Menus.Menu>
    var sent: seq<Value>

    /** The abstract state these fields stand for. */
    function State(): Session.AppState
      reads this
    {
      Session.AppState(appDir, hasWindow, closed, visible, url, bounds, store,
                       isQuitting, quitRequested, tray, appMenu, sent)
    }

    ghost predicate Valid()
      reads this
    {
      Session.Inv(State())
    }

    /** The process at start-up, before the window exists, over the persisted settings. */
    constructor (dir: string, persisted: Store)
      ensures State() == Session.Initial(dir, persisted)
      ensures Valid()
    {
      appDir := dir;
      hasWindow, closed, visible := false, false, false;
      url := "";
      bounds := Bounds(0, 0, 0, 0);
      store := persisted;
      isQuitting, quitRequested := false, false;
      tray, appMenu := None, None;
      sent := [];
    }

    /** createMenu: the application menu's title submenu is rebuilt from menus.default. */
    method CreateMenu()
      modifies this`appMenu
      ensures appMenu == Some(Menus.Build(hasWindow, visible))
    {
      appMenu := Some(Menus.Build(hasWindow, visible));
    }

    /** createTray: the icon is created the first time (its tooltip and click handler are not modelled), and its context menu rebuilt. */
    method CreateTray()
      modifies this`tray
      ensures tray == Some(Menus.Build(hasWindow, visible))
    {
      tray := Some(Menus.Build(hasWindow, visible));
    }

    /** setVisible; loading the last page dereferences the window unchecked. */
    method SetVisible(arg: Option<Value>)
      requires hasWindow || Session.RestorableUrl(store).None?
      modifies this`visible, this`store, this`appMenu, this`tray, this`url
      ensures State() == Session.SetVisible(old(State()), arg)
    {
      var target := Session.Defaulted(arg);
      if hasWindow {
        visible := Truthy(target);        // show() or hide()
      }
      var last := Session.RestorableUrl(store);
      store := store[VisibleKey := target];
      CreateMenu();
      CreateTray();
      if last.Some? {
        url := last.value;
      }
    }

    /** createWindow, run on the application's ready event. */
    method CreateWindow(initial: Bounds)
      requires Valid() && !hasWindow && Session.BoundsWellFormed(store)
      modifies this
      ensures State() == Session.CreateWindow(old(State()), initial)
      ensures Valid()
    {
      ghost var before := State();
      OpenWindow(initial);
      SetVisible(Get(store, VisibleKey));
      Show();                             // action.home shows the window, ...
      RestoreBounds();
      ClearSession(Session.HomeUrl);      // ... and its storage-clearing callback runs last
      SessionProperties.CreateWindowKeepsInv(before, initial);
    }

    /** new BrowserWindow: shown, as the toolkit does by default, with nothing loaded. */
    method OpenWindow(initial: Bounds)
      modifies this`hasWindow, this`visible, this`url, this`bounds
      ensures State() == Session.OpenWindow(old(State()), initial)
    {
      hasWindow, visible, url, bounds := true, true, "", initial;
    }

    /** The window's show(). */
    method Show()
      modifies this`visible
      ensures State() == Session.Show(old(State()))
    {
      visible := true;
    }

    /** createWindow's last step: persisted bounds other than null are applied to the window. */
    method RestoreBounds()
      modifies this`bounds
      ensures State() == Session.RestoreBounds(old(State()))
    {
      match Get(store, BoundsKey) {
        case Some(Rect(b)) => bounds := b;
        case _ =>
      }
    }

    /** action.toggleVisible, also the tray icon's click. */
    method ToggleVisible()
      requires Valid()
      modifies this
      ensures State() == Session.ToggleVisible(old(State()))
      ensures Valid()
    {
      if !hasWindow {
        return;
      }
      ghost var before := State();
      SetVisible(Some(Bool(!visible)));
      SessionProperties.StepPreservesInv(before, Session.TrayClick);
    }

    /** The storage-clearing callback: the settings are erased, then `target` is loaded. */
    method ClearSession(target: string)
      modifies this`store, this`url
      ensures State() == Session.ClearSession(old(State()), target)
    {
      store := map[];
      url := target;
    }

    /** action.restart, with its storage-clearing callback as one step. */
    method Restart()
      requires Valid() && hasWindow
      modifies this
      ensures State() == Session.Restart(old(State()))
      ensures Valid()
    {
      ClearSession(Session.BlankUrl(appDir));
    }

    /** action.home and action.corporate, with the storage-clearing callback as one step. */
    method Login(target: string)
      requires Valid() && hasWindow
      modifies this
      ensures State() == Session.Login(old(State()), target)
      ensures Valid()
    {
      Show();
      ClearSession(target);
    }

    /** action['last-page']. */
    method LastPage()
      requires Valid() && hasWindow
      modifies this
      ensures State() == Session.LastPage(old(State()))
      ensures Valid()
    {
      var last := Session.RestorableUrl(store);
      if last.Some? {
        url := last.value;
      } else {
        url := Session.BlankUrl(appDir);
      }
    }

    /** action.quit. */
    method Quit()
      requires Valid()
      modifies this
      ensures State() == Session.Quit(old(State()))
      ensures Valid()
    {
      isQuitting := true;
      quitRequested := true;
    }

    /** A click on a menu entry. */
    method Perform(a: Menus.Action)
      requires Valid() && hasWindow
      modifies this
      ensures State() == Session.Perform(old(State()), a)
      ensures Valid()
    {
      match a {
        case Home => Login(Session.HomeUrl);
        case Corporate => Login(Session.CorporateUrl);
        case LastPage => LastPage();
        case Restart => Restart();
        case ToggleVisible => ToggleVisible();
        case Download =>   // opens a link in the system browser
        case Quit => Quit();
      }
    }

    /** The window's minimize handler. */
    method OnMinimize()
      requires Valid() && hasWindow
      modifies this
      ensures State() == Session.OnMinimize(old(State()))
      ensures Valid()
    {
      ghost var before := State();
      SetVisible(Some(Bool(false)));
      SessionProperties.StepPreservesInv(before, Session.Minimize);
    }

    /** The window's close handler; `cancelled` is whether it prevents the close. */
    method OnClose() returns (cancelled: bool)
      requires Valid() && hasWindow
      modifies this
      ensures cancelled == !old(isQuitting)
      ensures State() == Session.OnClose(old(State()))
      ensures Valid()
    {
      ghost var before := State();
      if !isQuitting {
        cancelled := true;
        SetVisible(Some(Bool(false)));
      } else {
        cancelled := false;
        closed := true;
      }
      SessionProperties.StepPreservesInv(before, Session.Close);
    }

    /** The window's page-title-updated handler, given the page's navigation history. */
    method OnTitleUpdated(history: Option<seq<string>>)
      requires Valid()
      modifies this
      ensures State() == Session.OnTitleUpdated(old(State()), history)
      ensures Valid()
    {
      ghost var before := State();
      if history.Some? && |history.value| > 0 {
        store := store[LastUrlKey := Str(history.value[|history.value| - 1])];
      }
      assert store.Keys <= before.store.Keys + {LastUrlKey};
      assert Get(store, BoundsKey) == Get(before.store, BoundsKey);
    }

    /** The page's save message. */
    method OnSave(data: Option<Value>)
      requires Valid() && hasWindow
      modifies this
      ensures State() == Session.OnSave(old(State()), data)
      ensures Valid()
    {
      ghost var before := State();
      match data {
        case Some(d) => store := store[ToHostKey := d];
        case None => store := store - {ToHostKey};
      }
      store := store[BoundsKey := Rect(bounds)];
      SessionProperties.StepPreservesInv(before, Session.SaveMessage(data));
    }

    /** The user moves or resizes the window; the toolkit updates its geometry. */
    method OnMoved(b: Bounds)
      requires Valid() && hasWindow
      modifies this
      ensures State() == Session.MoveWindow(old(State()), b)
      ensures Valid()
    {
      bounds := b;
    }

    /** The page's did-finish-load message. */
    method OnDidFinishLoad()
      requires Valid()
      requires hasWindow || Session.PendingPayload(store).None?
      modifies this
      ensures State() == Session.OnDidFinishLoad(old(State()))
      ensures Valid()
    {
      var hostData := Get(store, ToHostKey);
      if hostData.Some? && hostData.value != Null {
        sent := sent + [hostData.value];
      }
    }
  }
}
