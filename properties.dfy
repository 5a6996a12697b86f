/** Properties of the controller that relate several transitions, or hold over whole runs. */
module SessionProperties {
  import opened Values
  import Menus
  import opened Session

  /** setVisible() and setVisible(null) do exactly what setVisible(true) does. */
  lemma SetVisibleDefaultsToTrue(s: AppState)
    requires s.hasWindow || RestorableUrl(s.store).None?
    ensures SetVisible(s, None) == SetVisible(s, Some(Bool(true)))
    ensures SetVisible(s, Some(Null)) == SetVisible(s, Some(Bool(true)))
  {
  }

  /**
   * Toggling twice restores the window's visibility; the whole state is then
   * what setVisible of the original visibility gives.
   */
  lemma ToggleTwiceRestoresVisibility(s: AppState)
    requires s.hasWindow
    ensures ToggleVisible(ToggleVisible(s)).visible == s.visible
    ensures ToggleVisible(ToggleVisible(s)) == SetVisible(s, Some(Bool(s.visible)))
  {
    var once := SetVisible(s, Some(Bool(!s.visible)));
    assert RestorableUrl(once.store) == RestorableUrl(s.store) by {
      assert Get(once.store, LastUrlKey) == Get(s.store, LastUrlKey);
    }
    assert once.store[VisibleKey := Bool(s.visible)] == s.store[VisibleKey := Bool(s.visible)];
  }

  /** A second setVisible with the same argument changes nothing more. */
  lemma SetVisibleIsIdempotent(s: AppState, arg: Option<Value>)
    requires s.hasWindow || RestorableUrl(s.store).None?
    ensures SetVisible(s, arg).hasWindow || RestorableUrl(SetVisible(s, arg).store).None?
    ensures SetVisible(SetVisible(s, arg), arg) == SetVisible(s, arg)
  {
    var once := SetVisible(s, arg);
    assert RestorableUrl(once.store) == RestorableUrl(s.store) by {
      assert Get(once.store, LastUrlKey) == Get(s.store, LastUrlKey);
    }
    assert once.store[VisibleKey := Defaulted(arg)] == once.store;
  }

  /**
   * Right after setVisible, the tray and the application menu list exactly
   * what menus.default gives for the window, so the toggle entry reads "Hide"
   * exactly when the window exists and is visible.
   */
  lemma MenusFollowSetVisible(s: AppState, arg: Option<Value>)
    requires s.hasWindow || RestorableUrl(s.store).None?
    ensures var r := SetVisible(s, arg);
      r.appMenu.Some? && r.tray == r.appMenu &&
      Menus.Entries(r.appMenu.value) == Menus.DefaultMenu(r.hasWindow, r.visible) &&
      (Menus.Entries(r.appMenu.value)[Menus.ToggleIndex].text == "Hide" <==> r.hasWindow && r.visible)
  {
  }

  /** A close event outside quitting does exactly what minimizing does. */
  lemma CloseHidesLikeMinimize(s: AppState)
    requires s.hasWindow && CloseCancelled(s)
    ensures OnClose(s) == OnMinimize(s)
  {
  }

  /** After the quit action, a close event is no longer cancelled and the window really closes. */
  lemma QuitLetsCloseThrough(s: AppState)
    requires s.hasWindow
    ensures !CloseCancelled(Quit(s))
    ensures OnClose(Quit(s)).closed
  {
  }

  /** A recorded external page is what "Your last page" loads afterwards. */
  lemma LastPageReturnsToRecordedPage(s: AppState, history: seq<string>)
    requires s.hasWindow && |history| > 0 && !IsLocal(history[|history| - 1])
    ensures LastPage(OnTitleUpdated(s, Some(history))).url == history[|history| - 1]
  {
  }

  /**
   * The placeholder page is never a restart target: once it is recorded as the
   * last page, "Your last page" shows the placeholder and setVisible keeps the
   * loaded page.
   */
  lemma RecordedPlaceholderIsNotRestored(s: AppState, history: seq<string>, arg: Option<Value>)
    requires s.hasWindow && |history| > 0 && history[|history| - 1] == BlankUrl(s.appDir)
    ensures RestorableUrl(OnTitleUpdated(s, Some(history)).store).None?
    ensures LastPage(OnTitleUpdated(s, Some(history))).url == BlankUrl(s.appDir)
    ensures SetVisible(OnTitleUpdated(s, Some(history)), arg).url == s.url
  {
  }

  /** After clearing the session or logging in, "Your last page" shows the placeholder. */
  lemma ResetForgetsLastPage(s: AppState, target: string)
    requires s.hasWindow
    ensures LastPage(Restart(s)).url == BlankUrl(s.appDir)
    ensures LastPage(Login(s, target)).url == BlankUrl(s.appDir)
  {
  }

  /** A saved payload other than null is handed back on the next page load, and the bounds read back. */
  lemma SavedPayloadIsDelivered(s: AppState, data: Value)
    requires s.hasWindow && data != Null
    ensures OnDidFinishLoad(OnSave(s, Some(data))).sent == s.sent + [data]
    ensures Get(OnSave(s, Some(data)).store, BoundsKey) == Some(Rect(s.bounds))
  {
  }

  /** A save after the user moves the window stores the new geometry, not the one the window started with. */
  lemma MovedBoundsAreSaved(s: AppState, b: Bounds, data: Option<Value>)
    requires s.hasWindow
    ensures Get(OnSave(MoveWindow(s, b), data).store, BoundsKey) == Some(Rect(b))
  {
  }

  /**
   * The next launch over the settings a save left behind gives the window the
   * geometry it had at that save.
   */
  lemma SavedBoundsRestoredAtLaunch(s: AppState, data: Option<Value>, appDir: string, initial: Bounds)
    requires s.hasWindow
    ensures BoundsWellFormed(OnSave(s, data).store)
    ensures CreateWindow(Initial(appDir, OnSave(s, data).store), initial).bounds == s.bounds
  {
  }

  /** Clearing the session stops the saved payload from being delivered. */
  lemma ClearedSessionDeliversNothing(s: AppState)
    requires s.hasWindow
    ensures OnDidFinishLoad(Restart(s)).sent == s.sent
  {
  }

  /**
   * Launching with a persisted `visible` of false: setVisible hides the window
   * and builds a "Show" entry, then action.home shows it again without
   * rebuilding the menus, so the window starts visible under a "Show" entry.
   */
  lemma HiddenPreferenceStartsVisibleUnderShow(appDir: string, persisted: Store, initial: Bounds)
    requires BoundsWellFormed(persisted) && Get(persisted, VisibleKey) == Some(Bool(false))
    ensures var r := CreateWindow(Initial(appDir, persisted), initial);
      r.visible && r.appMenu.Some? && Menus.Entries(r.appMenu.value)[Menus.ToggleIndex].text == "Show"
  {
  }

  lemma InitialInv(appDir: string, persisted: Store)
    ensures Inv(Initial(appDir, persisted))
  {
  }

  lemma {:induction false} SetVisibleKeepsInv(s: AppState, arg: Option<Value>)
    requires Inv(s) && (s.hasWindow || RestorableUrl(s.store).None?)
    ensures Inv(SetVisible(s, arg))
  {
    var r := SetVisible(s, arg);
    assert r.store.Keys == s.store.Keys + {VisibleKey};
    assert Get(r.store, BoundsKey) == Get(s.store, BoundsKey);
  }

  /** Creating the window keeps the invariant: home's clearing of the settings comes last. */
  lemma CreateWindowKeepsInv(s: AppState, initial: Bounds)
    requires Inv(s) && !s.hasWindow && BoundsWellFormed(s.store)
    ensures Inv(CreateWindow(s, initial))
  {
  }

  /** Every menu entry keeps the invariant. */
  lemma {:induction false} PerformKeepsInv(s: AppState, a: Menus.Action)
    requires Inv(s) && s.hasWindow
    ensures Inv(Perform(s, a))
  {
    if a == Menus.ToggleVisible {
      SetVisibleKeepsInv(s, Some(Bool(!s.visible)));
    }
  }

  /** Every event that can arrive keeps the invariant. */
  lemma {:induction false} StepPreservesInv(s: AppState, e: Event)
    requires Inv(s) && Admissible(s, e)
    ensures Inv(Apply(s, e))
  {
    match e
    case Ready(b) => CreateWindowKeepsInv(s, b);
    case MenuClick(a) => PerformKeepsInv(s, a);
    case TrayClick => SetVisibleKeepsInv(s, Some(Bool(!s.visible)));
    case Minimize => SetVisibleKeepsInv(s, Some(Bool(false)));
    case Close =>
      if CloseCancelled(s) { SetVisibleKeepsInv(s, Some(Bool(false))); }
    case TitleUpdated(h) =>
      var r := Apply(s, e);
      assert r.store.Keys <= s.store.Keys + {LastUrlKey};
      assert Get(r.store, BoundsKey) == Get(s.store, BoundsKey);
    case SaveMessage(d) =>
      var r := Apply(s, e);
      assert r.store.Keys <= s.store.Keys + {ToHostKey, BoundsKey};
    case FinishLoad =>
    case Moved(b) =>
  }

  /** The invariant holds after any run of events. */
  lemma {:induction false} RunPreservesInv(s: AppState, events: seq<Event>, t: AppState)
    requires Inv(s) && Run(s, events) == Some(t)
    ensures Inv(t)
    decreases |events|
  {
    if events != [] {
      StepPreservesInv(s, events[0]);
      RunPreservesInv(Apply(s, events[0]), events[1..], t);
    }
  }

  /** One event never removes the window, never lowers the quitting flag, and raises it only for the quit entry. */
  lemma {:induction false} StepKeepsWindowAndQuitting(s: AppState, e: Event)
    requires Admissible(s, e)
    ensures s.hasWindow ==> Apply(s, e).hasWindow
    ensures s.isQuitting ==> Apply(s, e).isQuitting
    ensures !s.isQuitting && Apply(s, e).isQuitting ==> e == MenuClick(Menus.Quit)
  {
    match e
    case Ready(b) =>
    case MenuClick(a) =>
    case TrayClick =>
    case Minimize =>
    case Close =>
    case TitleUpdated(h) =>
    case SaveMessage(d) =>
    case FinishLoad =>
    case Moved(b) =>
  }

  /** Once created, the window stays; once raised, the quitting flag stays raised. */
  lemma {:induction false} RunKeepsWindowAndQuitting(s: AppState, events: seq<Event>, t: AppState)
    requires Run(s, events) == Some(t)
    ensures s.hasWindow ==> t.hasWindow
    ensures s.isQuitting ==> t.isQuitting
    decreases |events|
  {
    if events != [] {
      StepKeepsWindowAndQuitting(s, events[0]);
      RunKeepsWindowAndQuitting(Apply(s, events[0]), events[1..], t);
    }
  }

  /** The quit entry is the only event that raises the quitting flag. */
  lemma {:induction false} QuittingNeedsQuitAction(s: AppState, events: seq<Event>, t: AppState)
    requires !s.isQuitting && Run(s, events) == Some(t) && t.isQuitting
    ensures MenuClick(Menus.Quit) in events
    decreases |events|
  {
    var e := events[0];
    var next := Apply(s, e);
    StepKeepsWindowAndQuitting(s, e);
    assert events == [e] + events[1..];
    if !next.isQuitting {
      QuittingNeedsQuitAction(next, events[1..], t);
    }
  }

  /** From launch, the window really closes only in a run where the quit entry was used. */
  lemma RealCloseNeedsQuit(appDir: string, persisted: Store, events: seq<Event>, t: AppState)
    requires Run(Initial(appDir, persisted), events) == Some(t) && t.closed
    ensures MenuClick(Menus.Quit) in events
  {
    InitialInv(appDir, persisted);
    RunPreservesInv(Initial(appDir, persisted), events, t);
    QuittingNeedsQuitAction(Initial(appDir, persisted), events, t);
  }
}
