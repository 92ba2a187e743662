// src/buttons.js: the push button every panel button derives from. It owns a
// tooltip text, shown through the shared tooltip scheduler while the pointer
// is over it, and an optional popup menu that listed mouse buttons toggle.
//
// `set_menu(create_fun, destroy_fun, buttons)` receives two callbacks; the
// extension passes one of two pairs, modelled together as `MenuFactory`:
//  - a fresh menu per press, destroyed when it hides (window, favourite and
//    system buttons);
//  - a cached menu, built on the first press and only hidden when it hides,
//    destroyed by the owning button's `_destroy_menu` (calendar and
//    applications buttons).
module Buttons {
  import opened Common
  import opened Menu
  import Tooltip

  /** The `create_fun`/`destroy_fun` pair a button's owner passes to `set_menu`. */
  class MenuFactory {
    /** Whether `create_fun` keeps and returns one menu (`_create_menu` of CalButton and AppButton). */
    const cached: bool
    /** The autoclose mode of the menus this factory builds. */
    const autoclose: bool
    /** The kept menu (`_calendar`, `_app_menu`); always null when not cached. */
    var cache: PopupMenu?

    ghost predicate Valid()
      reads this, cache
    {
      (cache != null ==> cached && cache.Valid() && !cache.destroyed)
    }

    constructor (cached: bool, autoclose: bool)
      ensures Valid() && this.cached == cached && this.autoclose == autoclose && cache == null
    {
      this.cached := cached;
      this.autoclose := autoclose;
      cache := null;
    }

    /** `create_fun`: the kept menu when there is one, otherwise a new hidden menu (kept when caching). */
    method Create() returns (m: PopupMenu)
      requires Valid()
      modifies this
      ensures Valid() && m.Valid() && !m.destroyed
      ensures old(cache) != null ==> m == old(cache) && cache == old(cache)
      ensures old(cache) == null ==>
        fresh(m) && !m.visible && !m.grab && m.autoclose == autoclose && m.hideHandlers == 0
      ensures old(cache) == null ==> cache == (if cached then m else null)
    {
      if cache != null {
        return cache;
      }
      m := new PopupMenu(Some(autoclose));
      if cached {
        cache := m;
      }
    }

    /** `destroy_fun`: a cached menu is only hidden (`_hide_menu`); any other is destroyed. */
    method Release(m: PopupMenu)
      requires m.Valid()
      modifies m
      ensures m.Valid()
      ensures cached ==> !m.visible && m.destroyed == old(m.destroyed)
      ensures !cached ==> m.destroyed && m.visible == old(m.visible)
      ensures m.hideHandlers == old(m.hideHandlers) && m.entries == old(m.entries)
    {
      if cached {
        m.Hide();
      } else {
        m.Destroy();
      }
    }

    /** `_destroy_menu`, run when the owning button hides or is destroyed: the kept menu is destroyed and forgotten. */
    method DestroyCache()
      requires Valid()
      modifies this, cache
      ensures Valid() && cache == null
      ensures old(cache) != null ==> old(cache).destroyed
    {
      if cache != null {
        cache.Destroy();
      }
      cache := null;
    }
  }

  class PushButton {
    /** The process-wide tooltip scheduler. */
    const tooltips: Tooltip.Scheduler
    /** `_tooltip_text` */
    var tooltipText: Option<string>
    /** How many times the 'enter-event'/'leave-event' pair has been connected. */
    var hoverConnections: nat
    /** `_menu_create_fun`/`_menu_destroy_fun` */
    var factory: MenuFactory?
    /** `_menu_buttons`: the mouse buttons that toggle the menu. */
    var menuButtons: seq<int>
    /** How many times 'button-press-event' has been connected. */
    var pressConnections: nat
    /** `_menu`: the menu this button last opened, until its 'hide' handler runs. */
    var menu: PopupMenu?
    /** How many times `destroy_fun` has run. */
    ghost var releases: nat
    /** Whether the button has been destroyed. */
    var destroyed: bool

    ghost predicate Valid()
      reads this, tooltips, factory, menu, if factory != null then {factory.cache} else {}
    {
      && tooltips.Valid()
      && (factory != null ==> factory.Valid())
      && (menu != null ==> factory != null && menu.Valid())
      && hoverConnections == (if tooltipText.Some? then 1 else 0)
      && pressConnections == (if factory != null then 1 else 0)
    }

    constructor (tooltips: Tooltip.Scheduler)
      requires tooltips.Valid()
      ensures Valid() && this.tooltips == tooltips
      ensures tooltipText == None && factory == null && menu == null && menuButtons == [] && !destroyed
    {
      this.tooltips := tooltips;
      tooltipText, hoverConnections := None, 0;
      factory, menuButtons, pressConnections := null, [], 0;
      menu := null;
      releases := 0;
      destroyed := false;
    }

    /**
     * `set_tooltip_text`: the text may change any number of times, but the
     * hover handlers are connected once, on the first call.
     */
    method SetTooltipText(text: string)
      requires Valid()
      modifies this
      ensures Valid() && tooltipText == Some(text) && hoverConnections == 1
      ensures factory == old(factory) && menu == old(menu) && menuButtons == old(menuButtons)
      ensures destroyed == old(destroyed)
    {
      if tooltipText == None {
        hoverConnections := hoverConnections + 1;
      }
      tooltipText := Some(text);
    }

    /** `set_menu`: the first call wins; later calls change nothing. */
    method SetMenu(f: MenuFactory, buttons: seq<int>)
      requires Valid() && f.Valid()
      modifies this
      ensures Valid()
      ensures old(factory) == null ==> factory == f && menuButtons == buttons
      ensures old(factory) != null ==> factory == old(factory) && menuButtons == old(menuButtons)
      ensures pressConnections == 1
      ensures tooltipText == old(tooltipText) && menu == old(menu) && destroyed == old(destroyed)
    {
      if factory != null {
        return;
      }
      factory := f;
      menuButtons := buttons;
      pressConnections := pressConnections + 1;
    }

    /** `_show_tooltip` ('enter-event'): request the tooltip, unless this button's menu is showing. */
    method ShowTooltip()
      requires Valid()
      modifies tooltips
      ensures Valid()
      ensures menu != null && menu.visible ==> tooltips.timers == old(tooltips.timers) && tooltips.displaying == old(tooltips.displaying)
      ensures !(menu != null && menu.visible) && tooltipText.Some? ==>
        tooltips.displaying == None && tooltips.timeoutId == Some(old(tooltips.nextTimerId)) &&
        tooltips.timers[old(tooltips.nextTimerId)] == Tooltip.Timer(Tooltip.ShowTimeout, Tooltip.ShowCallback(tooltipText.value, this))
    {
      if menu != null && menu.visible {
        return;
      }
      tooltips.ShowTooltip(tooltipText, this);
    }

    /** `_hide_tooltip` ('leave-event', and `_destroy` on 'destroy'). */
    method HideTooltip()
      requires Valid()
      modifies tooltips
      ensures Valid()
      ensures tooltips.displaying == None && tooltips.timeoutId == None
    {
      tooltips.HideTooltip();
    }

    /**
     * The button is destroyed: its 'destroy' handler `_destroy` runs
     * `_hide_tooltip`, so a tooltip shown or pending for any button goes.
     */
    method Destroy()
      requires tooltips.Valid()
      modifies this, tooltips
      ensures destroyed && tooltips.Valid()
      ensures tooltips.displaying == None && tooltips.timeoutId == None
      ensures tooltips.timers == Tooltip.PendingCleared(old(tooltips.timers), old(tooltips.timeoutId))
      ensures tooltipText == old(tooltipText) && factory == old(factory) && menu == old(menu)
      ensures menuButtons == old(menuButtons) && hoverConnections == old(hoverConnections)
      ensures pressConnections == old(pressConnections)
    {
      destroyed := true;
      // `_hide_tooltip`
      tooltips.HideTooltip();
    }

    /**
     * The 'hide' handler `_button_pressed` connects on the menu: release the
     * menu and forget it, unless that was done already.
     */
    method OnMenuHide()
      requires Valid()
      modifies this, menu
      ensures Valid() && menu == null
      ensures old(menu) == null ==> releases == old(releases)
      ensures factory == old(factory) && tooltipText == old(tooltipText) && menuButtons == old(menuButtons)
      ensures old(menu) != null ==> releases == old(releases) + 1 && factory != null
      ensures old(menu) != null && factory.cached ==> !old(menu).visible && old(menu).destroyed == old(menu.destroyed)
      ensures old(menu) != null && !factory.cached ==> old(menu).destroyed
      ensures old(menu) != null ==> old(menu).hideHandlers == old(menu.hideHandlers)
      ensures destroyed == old(destroyed)
    {
      if menu == null {
        return;
      }
      factory.Release(menu);
      releases := releases + 1;
      menu := null;
    }

    /**
     * The menu `m` emits 'hide': every 'hide' handler this button has
     * connected on it runs in turn. Only the first finds `_menu` set, so
     * `destroy_fun` runs at most once whatever the number of handlers.
     */
    method DeliverHide(m: PopupMenu)
      requires Valid() && menu == m && m.hideHandlers >= 1
      modifies this, m
      ensures Valid() && menu == null
      ensures factory == old(factory) && factory != null
      ensures tooltipText == old(tooltipText) && menuButtons == old(menuButtons)
      ensures releases == old(releases) + 1
      ensures factory.cached ==> !m.visible && m.destroyed == old(m.destroyed)
      ensures !factory.cached ==> m.destroyed
      ensures destroyed == old(destroyed)
    {
      var n := m.hideHandlers;
      OnMenuHide();
      for k := 1 to n
        invariant Valid() && menu == null
        invariant factory == old(factory) && factory != null
        invariant tooltipText == old(tooltipText) && menuButtons == old(menuButtons)
        invariant releases == old(releases) + 1
        invariant factory.cached ==> !m.visible && m.destroyed == old(m.destroyed)
        invariant !factory.cached ==> m.destroyed
        invariant destroyed == old(destroyed)
      {
        OnMenuHide();
      }
    }

    /**
     * The part of `_button_pressed` after a press is accepted: obtain the
     * menu from the factory, connect a 'hide' handler on it, and toggle it.
     */
    method Toggle(placement: Placement)
      requires Valid() && factory != null
      requires tooltips.displaying == None && tooltips.timeoutId == None
      modifies this, tooltips, factory, menu, factory.cache
      ensures Valid()
      ensures tooltips.displaying == None && tooltips.timeoutId == None
      ensures factory == old(factory) && tooltipText == old(tooltipText) && menuButtons == old(menuButtons)
      ensures destroyed == old(destroyed)
      ensures !factory.cached ==> menu != null && fresh(menu) && menu.visible && menu.grab == factory.autoclose
      // the first press on a caching factory builds the menu, keeps it and shows it
      ensures factory.cached && old(factory.cache) == null ==>
        menu != null && fresh(menu) && factory.cache == menu && menu.visible && menu.grab == factory.autoclose
      ensures old(factory.cache) != null && old(factory.cache.visible) ==>
        menu == null && factory.cache == old(factory.cache) && !factory.cache.visible && releases == old(releases) + 1
      ensures old(factory.cache) != null && !old(factory.cache.visible) ==>
        menu == old(factory.cache) && factory.cache == menu && menu.visible && menu.grab == menu.autoclose
    {
      var m := factory.Create();
      menu := m;
      m.hideHandlers := m.hideHandlers + 1;
      if m.visible {
        m.Hide();
        DeliverHide(m);
      } else {
        m.Show(placement);
        // the 'show' handler
        tooltips.HideTooltip();
      }
    }

    /**
     * `_button_pressed`: hide the tooltip; with a menu set up and a listed
     * mouse button, obtain the menu, connect its handlers, and toggle it.
     */
    method Pressed(button: int, placement: Placement)
      requires Valid()
      modifies this, tooltips, factory, menu, if factory != null then {factory.cache} else {}
      ensures Valid()
      ensures tooltips.displaying == None && tooltips.timeoutId == None
      ensures factory == old(factory) && tooltipText == old(tooltipText) && menuButtons == old(menuButtons)
      ensures old(factory) == null || button !in menuButtons ==> menu == old(menu) && releases == old(releases)
      // an ignored press only hides the tooltip: the button, its factory, the kept menu and the current menu are untouched
      ensures old(factory) == null || button !in menuButtons ==>
        unchanged(this) && (factory != null ==> unchanged(factory) && (factory.cache != null ==> unchanged(factory.cache)))
        && (menu != null ==> unchanged(menu))
      ensures destroyed == old(destroyed)
      // a fresh-per-press menu is never visible when obtained, so a press always opens a new one
      ensures old(factory) != null && button in menuButtons && !factory.cached ==>
        menu != null && fresh(menu) && menu.visible && menu.grab == factory.autoclose
      ensures old(factory) != null && button in menuButtons && factory.cached && old(factory.cache) == null ==>
        menu != null && fresh(menu) && factory.cache == menu && menu.visible && menu.grab == factory.autoclose
      // a kept menu is toggled: shown when hidden, hidden and released when shown
      ensures old(factory) != null && button in menuButtons && old(factory.cache) != null && old(factory.cache.visible) ==>
        menu == null && factory.cache == old(factory.cache) && !factory.cache.visible && releases == old(releases) + 1
      ensures old(factory) != null && button in menuButtons && old(factory.cache) != null && !old(factory.cache.visible) ==>
        menu == old(factory.cache) && factory.cache == menu && menu.visible && menu.grab == menu.autoclose
    {
      tooltips.HideTooltip();
      if factory == null || button !in menuButtons {
        return;
      }
      Toggle(placement);
    }
  }
}
