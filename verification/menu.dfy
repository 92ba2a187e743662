// src/menu.js: anchored placement of popups above their button, the popup
// menu with its modal grab and closing rules, menu items, and the window and
// system menus built from them.
module Menu {
  import opened Common
  import opened Elements
  import opened Shell

  // ---------------------------------------------------------------------
  // Anchored.set_location_near_anchor

  /** Gap, in pixels, kept between a popup and the monitor's side edges. */
  const Padding: real := 10.0

  /** The primary monitor's geometry (`Main.layoutManager.primaryMonitor`). */
  datatype Monitor = Monitor(y: real, width: real, height: real)

  /** The anchor's transformed extents: its top-left and bottom-right corners on screen. */
  datatype Extents = Extents(left: real, top: real, right: real, bottom: real)

  /**
   * Everything the placement reads: the anchor's extents, its own `y`, its
   * `_unmamaging` flag, the monitor, and the popup's size.
   */
  datatype Placement = Placement(
    extents: Extents, anchorY: real, unmamaging: bool, monitor: Monitor, width: real, height: real)

  datatype Point = Point(x: real, y: real)

  /** The x that centres the popup over its anchor. */
  function Centred(p: Placement): real
  {
    (p.extents.left + p.extents.right - p.width) / 2.0
  }

  /** The largest x that keeps `Padding` free at the monitor's right edge. */
  function RightmostX(p: Placement): real
  {
    p.monitor.width - p.width - Padding
  }

  function Min(a: real, b: real): real { if a <= b then a else b }
  function Max(a: real, b: real): real { if a >= b then a else b }

  /**
   * The position `set_location_near_anchor` writes, or None when the anchor
   * is unmanaging and nothing is written. x is the centred value clamped into
   * [Padding, RightmostX], where the left bound wins when the two cross; the
   * popup's bottom edge sits `Padding` above the anchor's row.
   */
  function LocationNearAnchor(p: Placement): (r: Option<Point>)
    ensures r.None? <==> p.unmamaging
    ensures r.Some? ==> r.value.x >= Padding
    ensures r.Some? && Padding <= RightmostX(p) ==> r.value.x <= RightmostX(p)
    ensures r.Some? && RightmostX(p) < Padding ==> r.value.x == Padding
    ensures r.Some? && Padding <= Centred(p) <= RightmostX(p) ==> r.value.x == Centred(p)
    ensures r.Some? && Padding <= RightmostX(p) < Centred(p) ==> r.value.x == RightmostX(p)
    ensures r.Some? && Centred(p) < Padding ==> r.value.x == Padding
    ensures r.Some? ==>
      r.value.y + p.height
      == p.monitor.y + p.monitor.height - (p.extents.bottom - p.extents.top) - 2.0 * p.anchorY - Padding
  {
    if p.unmamaging then None
    else
      var h := p.extents.bottom - p.extents.top;
      var x := Max(Min(Centred(p), RightmostX(p)), Padding);
      var y := p.monitor.y + p.monitor.height - h - 2.0 * p.anchorY - Padding - p.height;
      Some(Point(x, y))
  }

  // ---------------------------------------------------------------------
  // MenuItem

  /** The callbacks the extension's menus attach to their items. */
  datatype Action =
    | AddToFavourites | RemoveFromFavourites
    | ToggleMaximise | ToggleMinimise | CloseWindow
    | PowerOff | Restart | Logout | SystemSettings | DashSettings | ShowOverview | MinimiseAllWindows

  /** `MenuItem`: a Button with a label, and the callback its 'clicked' signal runs. */
  class MenuItem {
    const text: string
    const action: Action
    var reactive: bool
    var canFocus: bool
    var classes: set<string>
    /** The style classes of the item's label. */
    var captionClasses: set<string>

    constructor (text: string, action: Action)
      ensures this.text == text && this.action == action
      ensures reactive && canFocus
      ensures classes == {"classic-button", "width-12", "height-2"} && captionClasses == {"classic-label"}
    {
      this.text := text;
      this.action := action;
      reactive, canFocus := true, true;
      classes := {"classic-button", "width-12", "height-2"};
      captionClasses := {"classic-label"};
    }

    /**
     * `set_sensitive(s)`: the item reacts and takes focus exactly when `s`,
     * and carries "insensitive" (on itself and its label) exactly when not.
     */
    method SetSensitive(sensitive: bool)
      modifies this
      ensures reactive == sensitive && canFocus == sensitive
      ensures classes == WithClass(old(classes), !sensitive, "insensitive")
      ensures captionClasses == WithClass(old(captionClasses), !sensitive, "insensitive")
    {
      reactive := sensitive;
      canFocus := sensitive;
      captionClasses := WithClass(captionClasses, !sensitive, "insensitive");
      classes := WithClass(classes, !sensitive, "insensitive");
    }
  }

  // ---------------------------------------------------------------------
  // PopupMenu

  /** A child of a popup's container. */
  datatype Entry = Item(item: MenuItem) | Separator | Custom

  /** What a container child shows: text, callback and sensitivity of an item. */
  datatype EntryView = ItemView(text: string, action: Action, sensitive: bool) | SeparatorView | CustomView

  datatype Key = Escape | OtherKey(symbol: int)

  class PopupMenu {
    const autoclose: bool
    var visible: bool
    /** Holds the modal grab taken by `Main.pushModal`. */
    var grab: bool
    var position: Option<Point>
    var entries: seq<Entry>
    var destroyed: bool
    /** The 'hide' handlers an owning PushButton has connected to this menu. */
    var hideHandlers: nat

    /** A grab is held only while visible, and only by an autoclose menu. */
    ghost predicate Valid()
      reads this
    {
      grab ==> visible && autoclose
    }

    ghost function Items(): set<object>
      reads this
    {
      set e | e in entries && e.Item? :: e.item as object
    }

    /** The callback a click on child `i` runs: the item's own, if it is reactive. */
    function ClickedAction(i: nat): (r: Option<Action>)
      reads this, Items()
      ensures r.Some? <==> i < |entries| && entries[i].Item? && entries[i].item.reactive
      ensures r.Some? ==> r.value == entries[i].item.action
    {
      if i < |entries| && entries[i].Item? && entries[i].item.reactive then Some(entries[i].item.action) else None
    }

    /** `new PopupMenu(anchor, autoclose)`: `autoclose` defaults to true when omitted. */
    constructor (autoclose: Option<bool>)
      ensures Valid()
      ensures this.autoclose == (autoclose != Some(false))
      ensures !visible && !grab && position == None && entries == [] && !destroyed && hideHandlers == 0
    {
      this.autoclose := autoclose != Some(false);
      visible, grab, position, entries, destroyed, hideHandlers := false, false, None, [], false, 0;
    }

    /**
     * `show()` with its 'show' handler `_showing`: placed near the anchor,
     * and an autoclose menu takes the modal grab. Showing a visible menu
     * emits nothing.
     */
    method Show(placement: Placement)
      requires Valid()
      modifies this
      ensures Valid() && visible
      ensures !old(visible) ==> grab == autoclose
      ensures !old(visible) ==> position == (if placement.unmamaging then old(position) else LocationNearAnchor(placement))
      ensures old(visible) ==> grab == old(grab) && position == old(position)
      ensures entries == old(entries) && destroyed == old(destroyed) && hideHandlers == old(hideHandlers)
    {
      if visible {
        return;
      }
      visible := true;
      var location := LocationNearAnchor(placement);
      if location.Some? {
        position := location;
      }
      if autoclose {
        grab := true;
      }
    }

    /** `hide()` with its 'hide' handler `_hiding`: an autoclose menu releases its grab. */
    method Hide()
      requires Valid()
      modifies this
      ensures Valid() && !visible && !grab
      ensures position == old(position) && entries == old(entries)
      ensures destroyed == old(destroyed) && hideHandlers == old(hideHandlers)
    {
      if !visible {
        return;
      }
      visible := false;
      if autoclose {
        grab := false;
      }
    }

    /** `close_menu` */
    method CloseMenu()
      requires Valid()
      modifies this
      ensures Valid() && !visible && !grab
      ensures position == old(position) && entries == old(entries)
      ensures destroyed == old(destroyed) && hideHandlers == old(hideHandlers)
    {
      Hide();
    }

    /** `_key_pressed`: Escape hides the menu whatever its autoclose mode; other keys do nothing. */
    method KeyPressed(key: Key)
      requires Valid()
      modifies this
      ensures Valid()
      ensures key == Escape ==> !visible && !grab
      ensures key != Escape ==> visible == old(visible) && grab == old(grab)
      ensures position == old(position) && entries == old(entries)
      ensures destroyed == old(destroyed) && hideHandlers == old(hideHandlers)
    {
      if key == Escape {
        Hide();
      }
    }

    /** A button press on the menu: only an autoclose menu listens, and it closes. */
    method ButtonPressed()
      requires Valid()
      modifies this
      ensures Valid()
      ensures autoclose ==> !visible && !grab
      ensures !autoclose ==> visible == old(visible) && grab == old(grab)
      ensures position == old(position) && entries == old(entries)
      ensures destroyed == old(destroyed) && hideHandlers == old(hideHandlers)
    {
      if autoclose {
        CloseMenu();
      }
    }

    /** 'in-fullscreen-changed' on the display: the menu always closes. */
    method FullscreenChanged()
      requires Valid()
      modifies this
      ensures Valid() && !visible && !grab
      ensures position == old(position) && entries == old(entries)
      ensures destroyed == old(destroyed) && hideHandlers == old(hideHandlers)
    {
      CloseMenu();
    }

    /** `add_menu_item(text, callback)`: a new item appended after every existing child. */
    method AddMenuItem(text: string, action: Action) returns (item: MenuItem)
      modifies this
      ensures fresh(item) && item.text == text && item.action == action
      ensures item.reactive && item.canFocus
      ensures entries == old(entries) + [Item(item)]
      ensures visible == old(visible) && grab == old(grab) && position == old(position)
      ensures destroyed == old(destroyed) && hideHandlers == old(hideHandlers)
    {
      item := new MenuItem(text, action);
      entries := entries + [Item(item)];
    }

    /** `add_separator_menu_item` */
    method AddSeparator()
      modifies this
      ensures entries == old(entries) + [Separator]
      ensures visible == old(visible) && grab == old(grab) && position == old(position)
      ensures destroyed == old(destroyed) && hideHandlers == old(hideHandlers)
    {
      entries := entries + [Separator];
    }

    /** `add_custom_item` */
    method AddCustomItem()
      modifies this
      ensures entries == old(entries) + [Custom]
      ensures visible == old(visible) && grab == old(grab) && position == old(position)
      ensures destroyed == old(destroyed) && hideHandlers == old(hideHandlers)
    {
      entries := entries + [Custom];
    }

    /** `destroy()` */
    method Destroy()
      modifies this
      ensures destroyed
      ensures visible == old(visible) && grab == old(grab) && position == old(position)
      ensures entries == old(entries) && hideHandlers == old(hideHandlers)
    {
      destroyed := true;
    }
  }

  /** Container child `e` shows `v`. */
  ghost predicate Shows(e: Entry, v: EntryView)
    reads if e.Item? then {e.item} else {}
  {
    match e
    case Item(it) => v == ItemView(it.text, it.action, it.reactive)
    case Separator => v == SeparatorView
    case Custom => v == CustomView
  }

  /** The container children `es` show the views `vs`, one for one. */
  ghost predicate ShowsAll(es: seq<Entry>, vs: seq<EntryView>)
    reads set e | e in es && e.Item? :: e.item
  {
    |es| == |vs| && forall i :: 0 <= i < |es| ==> Shows(es[i], vs[i])
  }

  /**
   * `add_menu_item` on `p`, followed by `set_sensitive` on the new item when
   * `sensitive` is given; `views` is what `p` showed before.
   */
  method AddItem(p: PopupMenu, text: string, action: Action, sensitive: Option<bool>, ghost views: seq<EntryView>)
    returns (item: MenuItem)
    requires ShowsAll(p.entries, views)
    modifies p
    ensures fresh(item)
    ensures p.entries == old(p.entries) + [Item(item)]
    ensures ShowsAll(p.entries, views + [ItemView(text, action, sensitive != Some(false))])
    ensures p.visible == old(p.visible) && p.grab == old(p.grab) && p.position == old(p.position)
    ensures p.destroyed == old(p.destroyed) && p.hideHandlers == old(p.hideHandlers)
  {
    item := p.AddMenuItem(text, action);
    if sensitive.Some? {
      item.SetSensitive(sensitive.value);
    }
    assert Shows(Item(item), ItemView(text, action, sensitive != Some(false)));
    ShowsAllConcat(old(p.entries), views, [Item(item)], [ItemView(text, action, sensitive != Some(false))]);
  }

  /** `add_separator_menu_item` on `p`; `views` is what `p` showed before. */
  method AddSeparator(p: PopupMenu, ghost views: seq<EntryView>)
    requires ShowsAll(p.entries, views)
    modifies p
    ensures p.entries == old(p.entries) + [Separator]
    ensures ShowsAll(p.entries, views + [SeparatorView])
    ensures p.visible == old(p.visible) && p.grab == old(p.grab) && p.position == old(p.position)
    ensures p.destroyed == old(p.destroyed) && p.hideHandlers == old(p.hideHandlers)
  {
    p.AddSeparator();
    ShowsAllConcat(old(p.entries), views, [Separator], [SeparatorView]);
  }

  lemma ShowsAllConcat(es1: seq<Entry>, vs1: seq<EntryView>, es2: seq<Entry>, vs2: seq<EntryView>)
    requires ShowsAll(es1, vs1) && ShowsAll(es2, vs2)
    ensures ShowsAll(es1 + es2, vs1 + vs2)
  {
    forall i | 0 <= i < |es1 + es2|
      ensures Shows((es1 + es2)[i], (vs1 + vs2)[i])
    {
      if i >= |es1| {
        assert Shows(es2[i - |es1|], vs2[i - |es1|]);
      }
    }
  }

  // ---------------------------------------------------------------------
  // WinButtonMenu

  /**
   * The children of a window's menu: "Add to Favourites" and a separator
   * when the window's app is known and not a favourite, then maximise and
   * minimise toggles, a separator, and close.
   */
  function WinMenuViews(offerFavourite: bool, maximized: bool, minimized: bool,
                        canMaximize: bool, canMinimize: bool, canClose: bool): seq<EntryView>
  {
    (if offerFavourite then [ItemView("Add to Favourites", AddToFavourites, true), SeparatorView] else [])
    + [ ItemView(if maximized then "Unmaximise" else "Maximise", ToggleMaximise, canMaximize),
        ItemView(if minimized then "Unminimise" else "Minimise", ToggleMinimise, canMinimize),
        SeparatorView,
        ItemView("Close Window", CloseWindow, canClose) ]
  }

  /**
   * What a window's menu offers: "Add to Favourites" exactly when asked
   * for, "Close Window" last and nowhere else, and each toggle labelled
   * by the window's current state and sensitive by its capability.
   */
  lemma WinMenuViewsFacts(offerFavourite: bool, maximized: bool, minimized: bool,
                          canMaximize: bool, canMinimize: bool, canClose: bool)
    ensures var r := WinMenuViews(offerFavourite, maximized, minimized, canMaximize, canMinimize, canClose);
      && |r| == (if offerFavourite then 6 else 4)
      && (offerFavourite ==> r[0] == ItemView("Add to Favourites", AddToFavourites, true) && r[1] == SeparatorView)
      && (forall i :: 0 <= i < |r| && r[i].ItemView? && r[i].action == AddToFavourites ==> offerFavourite)
      && (forall i :: 0 <= i < |r| && r[i].ItemView? ==> (r[i].action == CloseWindow <==> i == |r| - 1))
      && r[|r| - 1] == ItemView("Close Window", CloseWindow, canClose)
      && r[|r| - 2] == SeparatorView
      && r[|r| - 3] == ItemView(if minimized then "Unminimise" else "Minimise", ToggleMinimise, canMinimize)
      && r[|r| - 4] == ItemView(if maximized then "Unmaximise" else "Maximise", ToggleMaximise, canMaximize)
  {
  }

  /** The views regrouped one child at a time, the order in which the constructor adds them. */
  lemma WinMenuViewsShape(offerFavourite: bool, maximized: bool, minimized: bool,
                          canMaximize: bool, canMinimize: bool, canClose: bool)
    ensures WinMenuViews(offerFavourite, maximized, minimized, canMaximize, canMinimize, canClose)
      == (if offerFavourite then [ItemView("Add to Favourites", AddToFavourites, true), SeparatorView] else [])
         + [ItemView(if maximized then "Unmaximise" else "Maximise", ToggleMaximise, canMaximize)]
         + [ItemView(if minimized then "Unminimise" else "Minimise", ToggleMinimise, canMinimize)]
         + [SeparatorView]
         + [ItemView("Close Window", CloseWindow, canClose)]
  {
  }

  /** The item-adding part of the `WinButtonMenu` constructor, on an empty popup. */
  method FillWinMenu(p: PopupMenu, offer: bool, maximized: bool, minimized: bool,
                     canMaximize: bool, canMinimize: bool, canClose: bool)
    requires p.entries == []
    modifies p
    ensures ShowsAll(p.entries, WinMenuViews(offer, maximized, minimized, canMaximize, canMinimize, canClose))
    ensures p.visible == old(p.visible) && p.grab == old(p.grab) && p.position == old(p.position)
    ensures p.destroyed == old(p.destroyed) && p.hideHandlers == old(p.hideHandlers)
  {
    ghost var views: seq<EntryView> := [];
    if offer {
      var _ := AddItem(p, "Add to Favourites", Action.AddToFavourites, None, views);
      AddSeparator(p, views + [ItemView("Add to Favourites", Action.AddToFavourites, true)]);
      views := [ItemView("Add to Favourites", Action.AddToFavourites, true), SeparatorView];
    }
    var maxText := if maximized then "Unmaximise" else "Maximise";
    var _ := AddItem(p, maxText, Action.ToggleMaximise, Some(canMaximize), views);
    views := views + [ItemView(maxText, Action.ToggleMaximise, canMaximize)];
    var minText := if minimized then "Unminimise" else "Minimise";
    var _ := AddItem(p, minText, Action.ToggleMinimise, Some(canMinimize), views);
    views := views + [ItemView(minText, Action.ToggleMinimise, canMinimize)];
    AddSeparator(p, views);
    views := views + [SeparatorView];
    var _ := AddItem(p, "Close Window", Action.CloseWindow, Some(canClose), views);
    views := views + [ItemView("Close Window", Action.CloseWindow, canClose)];
    WinMenuViewsShape(offer, maximized, minimized, canMaximize, canMinimize, canClose);
  }

  /** `WinButtonMenu`: the context menu of one window's button. */
  class WinButtonMenu {
    const popup: PopupMenu
    const favourites: Favourites
    /** The window, until it unmanages; null afterwards. */
    var window: Window?

    constructor (w: Window, favourites: Favourites)
      ensures fresh(popup) && popup.Valid() && popup.autoclose && !popup.visible
      ensures window == w && this.favourites == favourites
      ensures ShowsAll(popup.entries, WinMenuViews(
        w.app.Some? && !favourites.IsFavourite(w.app.value.id),
        w.maximized, w.minimized, w.canMaximize, w.canMinimize, w.canClose))
    {
      this.favourites := favourites;
      window := w;
      var offer := w.app.Some? && !favourites.IsFavourite(w.app.value.id);
      var maximized, minimized := w.maximized, w.minimized;
      var p := new PopupMenu(None);
      popup := p;
      new;
      FillWinMenu(p, offer, maximized, minimized, w.canMaximize, w.canMinimize, w.canClose);
    }

    /** The window's 'unmanaging' handler: the menu forgets its window. */
    method SetUnmanageable()
      modifies this
      ensures window == null
    {
      window := null;
    }

    /**
     * `_toggle_minimise`: a minimised window is unminimised and activated,
     * any other is minimised; nothing happens once the window is gone.
     */
    method ToggleMinimise()
      modifies window
      ensures old(window) == null ==> window == null
      ensures window != null && old(window.minimized) ==>
        !window.minimized && window.activations == old(window.activations) + 1
      ensures window != null && !old(window.minimized) ==>
        window.minimized && window.activations == old(window.activations)
      ensures window != null ==> window.maximized == old(window.maximized) && window.deleted == old(window.deleted)
    {
      if window == null {
        return;
      }
      if window.minimized {
        window.Unminimize();
        window.Activate();
      } else {
        window.Minimize();
      }
    }

    /** `_toggle_maximise`: flip maximised, then activate; nothing once the window is gone. */
    method ToggleMaximise()
      modifies window
      ensures window != null ==> window.maximized == !old(window.maximized)
      ensures window != null ==> window.activations == old(window.activations) + 1
      ensures window != null ==> window.minimized == old(window.minimized) && window.deleted == old(window.deleted)
    {
      if window == null {
        return;
      }
      window.SetMaximized(!window.maximized);
      window.Activate();
    }

    /** `_close_window`: ask the window to close; nothing once it is gone. */
    method CloseWindow()
      modifies window
      ensures window != null ==> window.deleted
      ensures window != null ==> window.minimized == old(window.minimized) && window.maximized == old(window.maximized)
      ensures window != null ==> window.activations == old(window.activations)
    {
      if window == null {
        return;
      }
      window.Delete();
    }

    /** `_add_to_favs`: add the window's app, if it has one; nothing once the window is gone. */
    method AddToFavourites()
      modifies favourites
      ensures window == null || window.app.None? ==> favourites.ids == old(favourites.ids)
      ensures window != null && window.app.Some? ==> window.app.value.id in favourites.ids
      ensures forall x :: x in old(favourites.ids) ==> x in favourites.ids
    {
      if window == null {
        return;
      }
      if window.app.Some? {
        favourites.Add(window.app.value.id);
      }
    }

    /**
     * A click on child `i`: the callback of a reactive item runs, then the
     * menu closes; a click on anything else does nothing.
     */
    method ClickItem(i: nat)
      requires popup.Valid()
      modifies popup, window, favourites
      ensures popup.Valid() && (old(popup.ClickedAction(i)).Some? ==> !popup.visible)
      ensures old(popup.ClickedAction(i)).None? ==> popup.visible == old(popup.visible) && popup.grab == old(popup.grab)
      ensures window != null && old(popup.ClickedAction(i)) == Some(Action.ToggleMinimise) ==>
        window.minimized == !old(window.minimized) &&
        window.activations == old(window.activations) + (if old(window.minimized) then 1 else 0) &&
        window.maximized == old(window.maximized) && window.deleted == old(window.deleted)
      ensures window != null && old(popup.ClickedAction(i)) == Some(Action.ToggleMaximise) ==>
        window.maximized == !old(window.maximized) && window.activations == old(window.activations) + 1 &&
        window.minimized == old(window.minimized) && window.deleted == old(window.deleted)
      ensures window != null && old(popup.ClickedAction(i)) == Some(Action.CloseWindow) ==>
        window.deleted && window.activations == old(window.activations) &&
        window.minimized == old(window.minimized) && window.maximized == old(window.maximized)
      // the other actions, and a click that runs none, leave the window alone
      ensures var a := old(popup.ClickedAction(i));
        window != null && a !in {Some(Action.ToggleMinimise), Some(Action.ToggleMaximise), Some(Action.CloseWindow)} ==>
        window.minimized == old(window.minimized) && window.maximized == old(window.maximized) &&
        window.activations == old(window.activations) && window.deleted == old(window.deleted)
      ensures window != null && window.app.Some? && old(popup.ClickedAction(i)) == Some(Action.AddToFavourites) ==>
        window.app.value.id in favourites.ids && forall x :: x in old(favourites.ids) ==> x in favourites.ids
      ensures window == null || window.app.None? || old(popup.ClickedAction(i)) != Some(Action.AddToFavourites) ==>
        favourites.ids == old(favourites.ids)
    {
      var action := popup.ClickedAction(i);
      if action.None? {
        return;
      }
      match action.value {
        case ToggleMaximise => this.ToggleMaximise();
        case ToggleMinimise => this.ToggleMinimise();
        case CloseWindow => this.CloseWindow();
        case AddToFavourites => this.AddToFavourites();
        case _ =>
      }
      popup.CloseMenu();
    }
  }

  // ---------------------------------------------------------------------
  // SysButtonMenu

  /**
   * `_minimise_all_windows`: every window that is not skip-taskbar ends up
   * minimised; skip-taskbar windows are left as they were.
   */
  method MinimiseAll(windows: seq<Window>)
    modifies set w | w in windows
    ensures forall w :: w in windows && !w.skipTaskbar ==> w.minimized
    ensures forall w :: w in windows && w.skipTaskbar ==> w.minimized == old(w.minimized)
    ensures forall w :: w in windows ==>
      w.maximized == old(w.maximized) && w.activations == old(w.activations) && w.deleted == old(w.deleted)
    ensures forall w :: w in windows ==> w.title == old(w.title)
  {
    for i := 0 to |windows|
      invariant forall j :: 0 <= j < i && !windows[j].skipTaskbar ==> windows[j].minimized
      invariant forall w :: w in windows && w.skipTaskbar ==> w.minimized == old(w.minimized)
      invariant forall w :: w in windows ==>
        w.maximized == old(w.maximized) && w.activations == old(w.activations) && w.deleted == old(w.deleted)
      invariant forall w :: w in windows ==> w.title == old(w.title)
    {
      if !windows[i].skipTaskbar {
        windows[i].Minimize();
      }
    }
  }
}
