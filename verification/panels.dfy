// src/panels.js: the taskbar's panels. The window panel keeps one button per
// window that is not skip-taskbar, in the order windows were added, and the
// favourites panel one launcher per favourite app; the calendar button owns
// a kept calendar menu.
module Panels {
  import opened Common
  import opened Shell
  import opened Elements
  import Buttons
  import Tooltip
  import Apps

  // ---------------------------------------------------------------------
  // FavButton and FavPanel

  /** `FavButton`: a launcher for one favourite app, with a fresh app menu on button 3. */
  class FavButton {
    const app: App
    const push: Buttons.PushButton

    constructor (app: App, tooltips: Tooltip.Scheduler)
      requires tooltips.Valid()
      ensures this.app == app && fresh(push) && push.Valid() && push.tooltips == tooltips && !push.destroyed
      ensures push.tooltipText == Some(app.name) && push.menuButtons == [3]
      ensures push.factory != null && !push.factory.cached
    {
      this.app := app;
      var p := new Buttons.PushButton(tooltips);
      p.SetTooltipText(app.name);
      var f := new Buttons.MenuFactory(false, true);
      p.SetMenu(f, [3]);
      push := p;
    }

    /** `_launch` on 'clicked': the same choice the applications menu makes. */
    method Launch() returns (r: Launch)
      ensures r == OpenNewWindow <==> app.running && app.canOpenNewWindow
    {
      r := Apps.LaunchOf(app);
    }

    /** Destroying the launcher runs its push button's `_destroy`, which hides the tooltip. */
    method Destroy()
      requires push.tooltips.Valid()
      modifies push, push.tooltips
      ensures push.destroyed && push.tooltips.Valid()
      ensures push.tooltips.displaying == None && push.tooltips.timeoutId == None
    {
      push.Destroy();
    }
  }

  class FavPanel {
    /** The process-wide tooltip scheduler the launchers share. */
    const tooltips: Tooltip.Scheduler
    var buttons: seq<FavButton>

    /** Every launcher reports to the shared scheduler. */
    ghost predicate Valid()
      reads this
    {
      forall i :: 0 <= i < |buttons| ==> buttons[i].push.tooltips == tooltips
    }

    constructor (tooltips: Tooltip.Scheduler)
      ensures Valid() && this.tooltips == tooltips && buttons == []
    {
      this.tooltips := tooltips;
      buttons := [];
    }

    /**
     * `_update`, on 'changed' of the favourites: every old launcher is
     * destroyed and one new launcher per favourite is added, in the
     * favourites' order.
     */
    method Update(favs: seq<App>)
      requires Valid() && tooltips.Valid()
      modifies this, tooltips, set b | b in buttons :: b.push
      ensures Valid() && tooltips.Valid()
      ensures |buttons| == |favs| && forall i :: 0 <= i < |favs| ==> buttons[i].app == favs[i]
      ensures forall i :: 0 <= i < |buttons| ==> fresh(buttons[i]) && !buttons[i].push.destroyed
      ensures forall b :: b in old(buttons) ==> b.push.destroyed
      // every destroyed launcher hides the tooltip; with none there is nothing to hide
      ensures old(buttons) != [] ==> tooltips.displaying == None && tooltips.timeoutId == None
      ensures old(buttons) == [] ==>
        tooltips.displaying == old(tooltips.displaying) && tooltips.timeoutId == old(tooltips.timeoutId) &&
        tooltips.timers == old(tooltips.timers)
    {
      var old_buttons := buttons;
      for k := 0 to |old_buttons|
        invariant buttons == old_buttons && Valid() && tooltips.Valid()
        invariant forall j :: 0 <= j < k ==> old_buttons[j].push.destroyed
        invariant k > 0 ==> tooltips.displaying == None && tooltips.timeoutId == None
        invariant k == 0 ==>
          tooltips.displaying == old(tooltips.displaying) && tooltips.timeoutId == old(tooltips.timeoutId) &&
          tooltips.timers == old(tooltips.timers)
      {
        old_buttons[k].Destroy();
      }
      buttons := [];
      for i := 0 to |favs|
        invariant |buttons| == i && forall j :: 0 <= j < i ==> buttons[j].app == favs[j]
        invariant forall j :: 0 <= j < i ==> fresh(buttons[j]) && !buttons[j].push.destroyed
        invariant forall j :: 0 <= j < i ==> buttons[j].push.tooltips == tooltips
        invariant forall b :: b in old_buttons ==> b.push.destroyed
        invariant tooltips.Valid()
        invariant |old_buttons| > 0 ==> tooltips.displaying == None && tooltips.timeoutId == None
        invariant |old_buttons| == 0 ==>
          tooltips.displaying == old(tooltips.displaying) && tooltips.timeoutId == old(tooltips.timeoutId) &&
          tooltips.timers == old(tooltips.timers)
      {
        var b := new FavButton(favs[i], tooltips);
        buttons := buttons + [b];
      }
    }
  }

  // ---------------------------------------------------------------------
  // WinButton

  /** `window_title`: the window's title, or "..." when it has none or it is empty. */
  function WindowTitle(title: Option<string>): (r: string)
    ensures r != ""
    ensures title.Some? && title.value != "" ==> r == title.value
    ensures title.None? || title.value == "" ==> r == "..."
  {
    if title.None? || title.value == "" then "..." else title.value
  }

  /**
   * The style classes `_update_style` leaves on a button (and its label):
   * "bg" exactly when minimised, "fg" exactly when focused, "normal" exactly
   * when neither; focus clears "attention", which otherwise stays as it was.
   * No other class changes.
   */
  function Styled(classes: set<string>, minimised: bool, selected: bool): (r: set<string>)
    ensures "bg" in r <==> minimised
    ensures "fg" in r <==> selected
    ensures "normal" in r <==> !selected && !minimised
    ensures selected ==> "attention" !in r
    ensures !selected ==> ("attention" in r <==> "attention" in classes)
    ensures forall c :: c !in {"bg", "fg", "normal", "attention"} ==> (c in r <==> c in classes)
  {
    var s := WithClass(WithClass(WithClass(classes, minimised, "bg"), selected, "fg"), !selected && !minimised, "normal");
    if selected then WithClass(s, false, "attention") else s
  }

  /** What a click with mouse button `button` does to the button's window. */
  datatype ClickEffect = NoEffect | MinimiseWindow | ActivateWindow

  /** `_clicked`: a left click minimises the focused window and activates any other; other buttons do nothing. */
  function ClickOf(button: int, focused: bool): (r: ClickEffect)
    ensures r != NoEffect <==> button == 1
    ensures r == MinimiseWindow <==> button == 1 && focused
  {
    if button != 1 then NoEffect else if focused then MinimiseWindow else ActivateWindow
  }

  /** `WinButton`: one window's taskbar button. */
  class WinButton {
    const window: Window
    const push: Buttons.PushButton
    /** The button's style classes. */
    var classes: set<string>
    /** The label's text and style classes. */
    var caption: string
    var captionClasses: set<string>
    /** Whether the button shows the app's icon. */
    const hasIcon: bool

    /**
     * The constructor: "width-12", the app's icon when there is an app, the
     * title as label and tooltip, a fresh window menu on button 3, and the
     * style for the current focus.
     */
    constructor (window: Window, focus: Window?, tooltips: Tooltip.Scheduler)
      requires tooltips.Valid()
      ensures this.window == window && hasIcon == window.app.Some?
      ensures caption == WindowTitle(window.title)
      ensures classes == Styled({"classic-button", "width-12"}, window.minimized, focus == window)
      ensures captionClasses == Styled({"classic-label"}, window.minimized, focus == window)
      ensures fresh(push) && push.Valid() && push.tooltipText == Some(WindowTitle(window.title))
      ensures push.tooltips == tooltips && !push.destroyed
      ensures push.menuButtons == [3] && push.factory != null && !push.factory.cached
    {
      this.window := window;
      hasIcon := window.app.Some?;
      var title := WindowTitle(window.title);
      caption := title;
      var p := new Buttons.PushButton(tooltips);
      p.SetTooltipText(title);
      var f := new Buttons.MenuFactory(false, true);
      p.SetMenu(f, [3]);
      push := p;
      classes := Styled({"classic-button", "width-12"}, window.minimized, focus == window);
      captionClasses := Styled({"classic-label"}, window.minimized, focus == window);
    }

    /** `style_class_name`: on the button and on its label. */
    method StyleClassName(active: bool, c: string)
      modifies this
      ensures classes == WithClass(old(classes), active, c)
      ensures captionClasses == WithClass(old(captionClasses), active, c)
      ensures caption == old(caption)
    {
      classes := WithClass(classes, active, c);
      captionClasses := WithClass(captionClasses, active, c);
    }

    /** `_update_style`, on 'notify::minimized' and 'notify::focus-window'. */
    method UpdateStyle(focus: Window?)
      modifies this
      ensures classes == Styled(old(classes), window.minimized, focus == window)
      ensures captionClasses == Styled(old(captionClasses), window.minimized, focus == window)
      ensures caption == old(caption)
    {
      var minimised := window.minimized;
      var selected := focus == window;
      StyleClassName(minimised, "bg");
      StyleClassName(selected, "fg");
      StyleClassName(!selected && !minimised, "normal");
      if selected {
        StyleClassName(false, "attention");
      }
    }

    /** `_update_title`, on 'notify::title': label and tooltip follow the title. */
    method UpdateTitle()
      requires push.Valid()
      modifies this, push
      ensures push.Valid()
      ensures caption == WindowTitle(window.title) && push.tooltipText == Some(caption)
      ensures classes == old(classes) && captionClasses == old(captionClasses)
    {
      caption := WindowTitle(window.title);
      push.SetTooltipText(caption);
    }

    /** `_clicked`, on 'button-press-event', with `focus` the display's focus window. */
    method Clicked(button: int, focus: Window?)
      modifies window
      ensures ClickOf(button, focus == window) == MinimiseWindow ==> window.minimized && window.activations == old(window.activations)
      ensures ClickOf(button, focus == window) == ActivateWindow ==>
        window.activations == old(window.activations) + 1 && window.minimized == old(window.minimized)
      ensures ClickOf(button, focus == window) == NoEffect ==>
        window.minimized == old(window.minimized) && window.activations == old(window.activations)
      ensures window.maximized == old(window.maximized) && window.deleted == old(window.deleted)
    {
      if button == 1 {
        if focus == window {
          window.Minimize();
        } else {
          window.Activate();
        }
      }
    }
  }

  // ---------------------------------------------------------------------
  // WinPanel

  /** The windows `bs` stand for, in order. */
  function WindowsOf(bs: seq<WinButton>): (r: seq<Window>)
    ensures |r| == |bs| && forall i :: 0 <= i < |bs| ==> r[i] == bs[i].window
  {
    seq(|bs|, i requires 0 <= i < |bs| => bs[i].window)
  }

  ghost predicate Distinct(ws: seq<Window>)
  {
    forall i, j :: 0 <= i < j < |ws| ==> ws[i] != ws[j]
  }

  /** The window list after `_add_window(w)`: skip-taskbar and present windows are ignored, others go last. */
  function Added(present: seq<Window>, w: Window): (r: seq<Window>)
    ensures Distinct(present) ==> Distinct(r)
    ensures w in r <==> w in present || !w.skipTaskbar
    ensures forall x :: x in r && x != w ==> x in present
    ensures forall x :: x in present ==> x in r
  {
    if w.skipTaskbar || w in present then present else present + [w]
  }

  /** The window list after `_add_window` of each of `ws`, in turn. */
  function AddedAll(present: seq<Window>, ws: seq<Window>): (r: seq<Window>)
    ensures Distinct(present) ==> Distinct(r)
    ensures (forall x :: x in present ==> !x.skipTaskbar) ==> forall x :: x in r ==> !x.skipTaskbar
  {
    if ws == [] then present else Added(AddedAll(present, ws[..|ws| - 1]), ws[|ws| - 1])
  }

  /** After adding `ws`, the panel holds what it held and every window of `ws` that is not skip-taskbar, no more. */
  lemma {:induction false} AddedAllHolds(present: seq<Window>, ws: seq<Window>, x: Window)
    ensures x in AddedAll(present, ws) <==> x in present || (x in ws && !x.skipTaskbar)
  {
    if ws != [] {
      var init := ws[..|ws| - 1];
      AddedAllHolds(present, init, x);
      assert ws == init + [ws[|ws| - 1]];
    }
  }

  predicate SortedByStable(ws: seq<Window>)
  {
    forall i, j :: 0 <= i < j < |ws| ==> ws[i].stableSequence <= ws[j].stableSequence
  }

  /**
   * Adding windows in stable-sequence order to an empty panel leaves the
   * buttons in stable-sequence order.
   */
  lemma {:induction false} AddedAllSorted(ws: seq<Window>)
    requires SortedByStable(ws)
    ensures SortedByStable(AddedAll([], ws))
  {
    if ws != [] {
      var init, last := ws[..|ws| - 1], ws[|ws| - 1];
      AddedAllSorted(init);
      var before := AddedAll([], init);
      forall x | x in before
        ensures x.stableSequence <= last.stableSequence
      {
        AddedAllHolds([], init, x);
        var i :| 0 <= i < |init| && init[i] == x;
        assert ws[i] == x;
      }
      assert SortedByStable(Added(before, last)) by {
        if !(last.skipTaskbar || last in before) {
          var r := before + [last];
          forall i, j | 0 <= i < j < |r|
            ensures r[i].stableSequence <= r[j].stableSequence
          {
            if j == |before| {
              assert r[i] in before;
            }
          }
        }
      }
    }
  }

  /** `w` inserted into `ws` before the first window whose stable sequence is not smaller. */
  function Insert(w: Window, ws: seq<Window>): (r: seq<Window>)
    ensures multiset(r) == multiset(ws) + multiset{w}
    ensures forall x :: x in r ==> x in ws || x == w
    ensures w in r && forall x :: x in ws ==> x in r
  {
    if ws == [] || w.stableSequence <= ws[0].stableSequence then [w] + ws
    else
      assert ws == [ws[0]] + ws[1..];
      [ws[0]] + Insert(w, ws[1..])
  }

  /** Inserting into a sorted list keeps it sorted. */
  lemma {:induction false} InsertSorted(w: Window, ws: seq<Window>)
    requires SortedByStable(ws)
    ensures SortedByStable(Insert(w, ws))
  {
    if ws != [] && w.stableSequence > ws[0].stableSequence {
      var rest := Insert(w, ws[1..]);
      InsertSorted(w, ws[1..]);
      forall k | 0 <= k < |rest|
        ensures ws[0].stableSequence <= rest[k].stableSequence
      {
        var x := rest[k];
        assert x in rest;
        if x != w {
          assert x in ws[1..];
          var m :| 0 <= m < |ws[1..]| && ws[1..][m] == x;
          assert ws[m + 1] == x;
        }
      }
      ConsSorted(ws[0], rest);
    }
  }

  /** A sorted list stays sorted with a window in front that is not larger than any of it. */
  lemma ConsSorted(x: Window, rest: seq<Window>)
    requires SortedByStable(rest)
    requires forall k :: 0 <= k < |rest| ==> x.stableSequence <= rest[k].stableSequence
    ensures SortedByStable([x] + rest)
  {
    var r := [x] + rest;
    forall i, j | 0 <= i < j < |r|
      ensures r[i].stableSequence <= r[j].stableSequence
    {
      assert r[j] == rest[j - 1];
      if i > 0 {
        assert r[i] == rest[i - 1];
      }
    }
  }

  /**
   * The `sort` of `_update`, by ascending stable sequence: a sorted
   * permutation of its input.
   */
  function SortByStable(ws: seq<Window>): (r: seq<Window>)
    ensures multiset(r) == multiset(ws)
    ensures SortedByStable(r)
  {
    if ws == [] then []
    else
      assert ws == [ws[0]] + ws[1..];
      InsertSorted(ws[0], SortByStable(ws[1..]));
      Insert(ws[0], SortByStable(ws[1..]))
  }

  /**
   * The window panel's invariant on its buttons: one per window, none for a
   * skip-taskbar window, each with its own push button on `tooltips`.
   */
  ghost predicate PanelButtons(bs: seq<WinButton>, tooltips: Tooltip.Scheduler)
  {
    && Distinct(WindowsOf(bs))
    && (forall i :: 0 <= i < |bs| ==> !bs[i].window.skipTaskbar && bs[i].push.tooltips == tooltips)
    && (forall i, j :: 0 <= i < j < |bs| ==> bs[i].push != bs[j].push)
  }

  /**
   * Taking the button at `i` out of the panel keeps the invariant, removes
   * exactly that button's window, and leaves buttons whose push buttons all
   * differ from the removed one.
   */
  lemma RemoveButton(bs: seq<WinButton>, i: nat, tooltips: Tooltip.Scheduler)
    requires PanelButtons(bs, tooltips) && i < |bs|
    ensures PanelButtons(bs[..i] + bs[i + 1..], tooltips)
    ensures WindowsOf(bs[..i] + bs[i + 1..]) == Without(WindowsOf(bs), bs[i].window)
    ensures forall b :: b in bs[..i] + bs[i + 1..] ==> b in bs && b.push != bs[i].push
  {
    var r := bs[..i] + bs[i + 1..];
    var ws := WindowsOf(bs);
    WithoutDistinct(ws, i);
    assert WindowsOf(r) == ws[..i] + ws[i + 1..];
    forall j | 0 <= j < |r|
      ensures r[j] == bs[if j < i then j else j + 1]
    {
    }
  }

  class WinPanel {
    /** The process-wide tooltip scheduler the buttons share. */
    const tooltips: Tooltip.Scheduler
    var buttons: seq<WinButton>

    /**
     * One button per window, never one for a skip-taskbar window, each with
     * its own push button reporting to the shared scheduler.
     */
    ghost predicate Valid()
      reads this
    {
      PanelButtons(buttons, tooltips)
    }

    /**
     * The constructor's `_update`: the existing windows, sorted by stable
     * sequence, are added in turn.
     */
    constructor (windows: seq<Window>, focus: Window?, tooltips: Tooltip.Scheduler)
      requires tooltips.Valid()
      ensures Valid() && this.tooltips == tooltips && WindowsOf(buttons) == AddedAll([], SortByStable(windows))
    {
      this.tooltips := tooltips;
      buttons := [];
      new;
      Update(windows, focus);
    }

    /** `_update`: add every window, in stable-sequence order. */
    method Update(windows: seq<Window>, focus: Window?)
      requires Valid() && tooltips.Valid()
      modifies this
      ensures Valid() && WindowsOf(buttons) == AddedAll(old(WindowsOf(buttons)), SortByStable(windows))
    {
      var sorted := SortByStable(windows);
      ghost var start := WindowsOf(buttons);
      for i := 0 to |sorted|
        invariant Valid() && WindowsOf(buttons) == AddedAll(start, sorted[..i])
      {
        assert sorted[..i + 1][..i] == sorted[..i];
        AddWindow(sorted[i], focus);
      }
      assert sorted[..|sorted|] == sorted;
    }

    /** The index of `w`'s button (`children.find(child => child._window === window)`). */
    method Find(w: Window) returns (r: Option<nat>)
      ensures r.Some? ==> r.value < |buttons| && buttons[r.value].window == w
      ensures r.None? <==> w !in WindowsOf(buttons)
    {
      var i := 0;
      while i < |buttons|
        invariant 0 <= i <= |buttons|
        invariant forall k :: 0 <= k < i ==> buttons[k].window != w
      {
        if buttons[i].window == w {
          return Some(i);
        }
        i := i + 1;
      }
      return None;
    }

    /** `_add_window`, on 'window-created'. */
    method AddWindow(w: Window, focus: Window?)
      requires Valid() && tooltips.Valid()
      modifies this
      ensures Valid() && WindowsOf(buttons) == Added(old(WindowsOf(buttons)), w)
      ensures forall i :: 0 <= i < |old(buttons)| ==> buttons[i] == old(buttons[i])
      ensures |buttons| > |old(buttons)| ==> fresh(buttons[|buttons| - 1])
    {
      if w.skipTaskbar {
        return;
      }
      var found := Find(w);
      if found.Some? {
        return;
      }
      var b := new WinButton(w, focus, tooltips);
      buttons := buttons + [b];
      assert WindowsOf(buttons) == WindowsOf(old(buttons)) + [w];
    }

    /**
     * `_attention`, on 'window-demands-attention' and 'window-marked-urgent':
     * the button of an unfocused window that is not skip-taskbar gets
     * "attention"; nothing else changes.
     */
    method Attention(w: Window?, focus: Window?)
      requires Valid()
      modifies set b | b in buttons
      ensures Valid()
      ensures forall i :: 0 <= i < |buttons| ==>
        buttons[i].classes == (if w != null && w != focus && buttons[i].window == w
                               then old(buttons[i].classes) + {"attention"} else old(buttons[i].classes))
      ensures forall i :: 0 <= i < |buttons| ==>
        buttons[i].captionClasses == (if w != null && w != focus && buttons[i].window == w
                                      then old(buttons[i].captionClasses) + {"attention"} else old(buttons[i].captionClasses))
      ensures forall i :: 0 <= i < |buttons| ==> buttons[i].caption == old(buttons[i].caption)
    {
      if w == null || w == focus || w.skipTaskbar {
        return;
      }
      var found := Find(w);
      if found.Some? {
        buttons[found.value].StyleClassName(true, "attention");
      }
    }

    /**
     * A window unmanages: its button's `_set_unmanageable` destroys the
     * button, whose `_destroy` hides the tooltip, and the button leaves the
     * panel. Every other button stays, in order, and is not destroyed.
     */
    method Unmanaging(w: Window)
      requires Valid() && tooltips.Valid()
      modifies this, tooltips, set b | b in buttons :: b.push
      ensures Valid() && tooltips.Valid() && WindowsOf(buttons) == Without(old(WindowsOf(buttons)), w)
      ensures forall b :: b in old(buttons) && b.window == w ==> b.push.destroyed
      ensures forall b :: b in buttons ==> b in old(buttons) && b.push.destroyed == old(b.push.destroyed)
      ensures w in old(WindowsOf(buttons)) ==> tooltips.displaying == None && tooltips.timeoutId == None
      ensures w !in old(WindowsOf(buttons)) ==>
        buttons == old(buttons) && tooltips.displaying == old(tooltips.displaying) &&
        tooltips.timeoutId == old(tooltips.timeoutId) && tooltips.timers == old(tooltips.timers)
    {
      var found := Find(w);
      if found.None? {
        return;
      }
      var i := found.value;
      RemoveButton(buttons, i, tooltips);
      buttons[i].push.Destroy();
      buttons := buttons[..i] + buttons[i + 1..];
    }
  }

  /** Removing the window at `i` from a list without repeats is removing that window. */
  lemma {:induction false} WithoutDistinct(ws: seq<Window>, i: nat)
    requires Distinct(ws) && i < |ws|
    ensures Without(ws, ws[i]) == ws[..i] + ws[i + 1..]
    ensures Distinct(ws[..i] + ws[i + 1..])
    decreases |ws|
  {
    var last := |ws| - 1;
    var init := ws[..last];
    DistinctPrefix(ws);
    if i == last {
      assert ws[..i] + ws[i + 1..] == init;
      assert ws[i] !in init;
    } else {
      assert init[i] == ws[i];
      WithoutDistinct(init, i);
      assert ws[last] != ws[i];
      assert ws[..i] + ws[i + 1..] == (init[..i] + init[i + 1..]) + [ws[last]];
      DistinctAppend(init[..i] + init[i + 1..], ws[last]);
    }
  }

  lemma DistinctPrefix(ws: seq<Window>)
    requires Distinct(ws) && ws != []
    ensures Distinct(ws[..|ws| - 1]) && ws[|ws| - 1] !in ws[..|ws| - 1]
  {
  }

  lemma DistinctAppend(ws: seq<Window>, w: Window)
    requires Distinct(ws) && w !in ws
    ensures Distinct(ws + [w])
  {
    var r := ws + [w];
    forall i, j | 0 <= i < j < |r|
      ensures r[i] != r[j]
    {
      assert r[i] == ws[i];
      if j < |ws| {
        assert r[j] == ws[j];
      }
    }
  }

  // ---------------------------------------------------------------------
  // CalButton

  /**
   * `CalButton`: the clock. Its calendar menu opens on buttons 1 and 3, is
   * built once and only hidden when it closes, and is destroyed when the
   * button hides or is destroyed.
   */
  class CalButton {
    const push: Buttons.PushButton
    const factory: Buttons.MenuFactory

    constructor (tooltips: Tooltip.Scheduler, date: string)
      requires tooltips.Valid()
      ensures fresh(push) && fresh(factory) && push.Valid() && factory.Valid()
      ensures push.factory == factory && push.menuButtons == [1, 3] && push.tooltipText == Some(date)
      ensures factory.cached && !factory.autoclose && factory.cache == null
    {
      var p := new Buttons.PushButton(tooltips);
      p.SetTooltipText(date);
      var f := new Buttons.MenuFactory(true, false);
      p.SetMenu(f, [1, 3]);
      push := p;
      factory := f;
    }

    /** `_destroy_menu`, on the button's 'hide' and 'destroy'. */
    method DestroyMenu()
      requires factory.Valid()
      modifies factory, factory.cache
      ensures factory.Valid() && factory.cache == null
      ensures old(factory.cache) != null ==> old(factory.cache).destroyed
    {
      factory.DestroyCache();
    }
  }
}
