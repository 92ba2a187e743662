// src/apps.js: the applications menu. The menu tree is walked into an
// ordered map from category id to the apps shown under it, Favourites first;
// the map is laid out as a column of category rows and one pane of app rows
// per category, padded with inert rows so that every pane fits the height of
// the tallest column and starts, where it can, level with its category row.
module Apps {
  import opened Common
  import opened Shell
  import opened Elements
  import Buttons
  import Tooltip

  // ---------------------------------------------------------------------
  // _load_category

  /**
   * A node of the applications menu tree, as its iterator yields it. An
   * entry carries the app it resolves to (looked up, or made from the
   * entry's app info); `Other` stands for every type the walk skips.
   */
  datatype TreeItem =
    | Entry(app: App)
    | Directory(menuId: string, noDisplay: bool, children: seq<TreeItem>)
    | Other

  /** The apps collected from a directory whose children are `items`, in order. */
  function Flatten(items: seq<TreeItem>): seq<App>
    decreases items
  {
    if items == [] then []
    else Flatten(items[..|items| - 1]) + Collect(items[|items| - 1])
  }

  /** What one child adds: a shown entry's app, or everything under a displayed subdirectory. */
  function Collect(item: TreeItem): seq<App>
    decreases item
  {
    match item
    case Entry(app) => if app.shouldShow then [app] else []
    case Directory(_, noDisplay, children) => if noDisplay then [] else Flatten(children)
    case Other => []
  }

  /** `app` is a shown entry somewhere under `items`, through displayed directories only. */
  ghost predicate Listed(items: seq<TreeItem>, app: App)
    decreases items
  {
    exists i :: 0 <= i < |items| && ListedIn(items[i], app)
  }

  ghost predicate ListedIn(item: TreeItem, app: App)
    decreases item
  {
    match item
    case Entry(a) => a == app && a.shouldShow
    case Directory(_, noDisplay, children) => !noDisplay && Listed(children, app)
    case Other => false
  }

  /** The walk collects exactly the listed apps. */
  lemma {:induction false} FlattenListed(items: seq<TreeItem>, app: App)
    ensures app in Flatten(items) <==> Listed(items, app)
    decreases items
  {
    if items == [] {
    } else {
      var init, last := items[..|items| - 1], items[|items| - 1];
      FlattenListed(init, app);
      CollectListed(last, app);
      assert items == init + [last];
      if Listed(items, app) {
        var i :| 0 <= i < |items| && ListedIn(items[i], app);
        if i < |init| {
          assert ListedIn(init[i], app);
        }
      }
      if Listed(init, app) {
        var i :| 0 <= i < |init| && ListedIn(init[i], app);
        assert ListedIn(items[i], app);
      }
      if ListedIn(last, app) {
        assert ListedIn(items[|items| - 1], app);
      }
    }
  }

  lemma {:induction false} CollectListed(item: TreeItem, app: App)
    ensures app in Collect(item) <==> ListedIn(item, app)
    decreases item
  {
    match item
    case Entry(a) =>
    case Directory(_, noDisplay, children) =>
      if !noDisplay {
        FlattenListed(children, app);
      }
    case Other =>
  }

  /** Every collected app is one that should be shown. */
  lemma {:induction false} FlattenShown(items: seq<TreeItem>, app: App)
    requires app in Flatten(items)
    ensures app.shouldShow
    decreases items
  {
    var init, last := items[..|items| - 1], items[|items| - 1];
    if app in Flatten(init) {
      FlattenShown(init, app);
    } else {
      assert app in Collect(last);
      match last
      case Entry(a) =>
      case Directory(_, _, children) => FlattenShown(children, app);
      case Other =>
    }
  }

  /**
   * `_load_category(dir)`: walk the children of `dir` in order; a shown
   * entry adds its app, a displayed subdirectory adds everything below it.
   */
  method LoadCategory(items: seq<TreeItem>) returns (apps: seq<App>)
    ensures apps == Flatten(items)
    decreases items
  {
    apps := [];
    var i := 0;
    while i < |items|
      invariant 0 <= i <= |items|
      invariant apps == Flatten(items[..i])
    {
      match items[i] {
        case Entry(app) =>
          if app.shouldShow {
            apps := apps + [app];
          }
        case Directory(_, noDisplay, children) =>
          if !noDisplay {
            var sub := LoadCategory(children);
            apps := apps + sub;
          }
        case Other =>
      }
      assert items[..i + 1][..i] == items[..i];
      i := i + 1;
    }
    assert items[..i] == items;
  }

  // ---------------------------------------------------------------------
  // _get_categories

  const FavouritesId: string := "Favourites"

  /** A JavaScript `Map` from category id to apps: the keys in insertion order, and the values. */
  datatype Categories = Categories(order: seq<string>, apps: map<string, seq<App>>)

  /** Each key once in `order`, and exactly the keys of `apps`. */
  ghost predicate WellFormed(c: Categories)
  {
    && (forall i, j :: 0 <= i < j < |c.order| ==> c.order[i] != c.order[j])
    && (forall k :: k in c.apps <==> k in c.order)
  }

  /** `Map.set(id, apps)`: a known key keeps its place and takes the new value; a new key goes last. */
  function Set(c: Categories, id: string, apps: seq<App>): (r: Categories)
    ensures WellFormed(c) ==> WellFormed(r)
    ensures r.apps == c.apps[id := apps]
    ensures |c.order| <= |r.order| && r.order[..|c.order|] == c.order
  {
    if id in c.order then Categories(c.order, c.apps[id := apps])
    else Categories(c.order + [id], c.apps[id := apps])
  }

  /** What one child of the root adds: a displayed directory with at least one app. */
  function AddDirectory(c: Categories, item: TreeItem): Categories
  {
    if item.Directory? && !item.noDisplay && Flatten(item.children) != []
    then Set(c, item.menuId, Flatten(item.children))
    else c
  }

  /**
   * The categories `_get_categories` returns for the favourite apps `favs`
   * and the root directory's children `root`: a well-formed map, Favourites
   * first, and every category but Favourites holds at least one app.
   */
  function CategoriesOf(favs: seq<App>, root: seq<TreeItem>): (r: Categories)
    ensures WellFormed(r)
    ensures |r.order| >= 1 && r.order[0] == FavouritesId
    ensures forall id :: id in r.apps && id != FavouritesId ==> r.apps[id] != []
  {
    if root == [] then Categories([FavouritesId], map[FavouritesId := favs])
    else AddDirectory(CategoriesOf(favs, root[..|root| - 1]), root[|root| - 1])
  }

  /** `id` names a displayed top-level directory with at least one app. */
  ghost predicate HasCategory(root: seq<TreeItem>, id: string)
  {
    exists i :: 0 <= i < |root| && root[i].Directory? && !root[i].noDisplay
      && root[i].menuId == id && Flatten(root[i].children) != []
  }

  /** The keys are Favourites and the ids of the displayed, non-empty top-level directories, no more. */
  lemma {:induction false} CategoriesKeys(favs: seq<App>, root: seq<TreeItem>, id: string)
    ensures id in CategoriesOf(favs, root).apps <==> id == FavouritesId || HasCategory(root, id)
  {
    if root != [] {
      var init := root[..|root| - 1];
      CategoriesKeys(favs, init, id);
      if HasCategory(init, id) {
        var i :| 0 <= i < |init| && init[i].Directory? && !init[i].noDisplay
          && init[i].menuId == id && Flatten(init[i].children) != [];
        assert root[i] == init[i];
      }
      if HasCategory(root, id) {
        var i :| 0 <= i < |root| && root[i].Directory? && !root[i].noDisplay
          && root[i].menuId == id && Flatten(root[i].children) != [];
        if i < |init| {
          assert init[i] == root[i];
        }
      }
    }
  }

  /**
   * With no top-level directory named Favourites, the Favourites category
   * holds exactly the favourite apps, even when there are none.
   */
  lemma {:induction false} FavouritesKept(favs: seq<App>, root: seq<TreeItem>)
    requires forall i :: 0 <= i < |root| && root[i].Directory? ==> root[i].menuId != FavouritesId
    ensures CategoriesOf(favs, root).apps[FavouritesId] == favs
  {
    if root != [] {
      FavouritesKept(favs, root[..|root| - 1]);
    }
  }

  /**
   * `_get_categories(tree)`: Favourites first, then each displayed top-level
   * directory whose walk finds at least one app.
   */
  method GetCategories(favs: seq<App>, root: seq<TreeItem>) returns (cats: Categories)
    ensures cats == CategoriesOf(favs, root)
  {
    cats := Categories([FavouritesId], map[FavouritesId := favs]);
    var i := 0;
    while i < |root|
      invariant 0 <= i <= |root|
      invariant cats == CategoriesOf(favs, root[..i])
    {
      assert root[..i + 1][..i] == root[..i];
      var item := root[i];
      if item.Directory? && !item.noDisplay {
        var apps := LoadCategory(item.children);
        if |apps| > 0 {
          cats := Set(cats, item.menuId, apps);
        }
      }
      i := i + 1;
    }
    assert root[..i] == root;
  }

  // ---------------------------------------------------------------------
  // ApplicationsMenu._update and _hide_panes

  /** A row of the menu's columns. */
  datatype Cell = Dummy | CategoryCell(id: string) | AppCell(app: App) | ShowAllApps

  /** A vertical box of rows, and whether it is shown. */
  datatype Pane = Pane(cells: seq<Cell>, visible: bool)

  function Dummies(n: nat): (r: seq<Cell>)
    ensures |r| == n && forall k :: 0 <= k < n ==> r[k] == Dummy
  {
    seq(n, _ => Dummy)
  }

  /** The value `id` has in the map, or nothing. */
  function AppsOf(c: Categories, id: string): seq<App>
  {
    if id in c.apps then c.apps[id] else []
  }

  /** The rows of a category's pane before padding: its apps, and "Show All Applications" under Favourites. */
  function Content(id: string, apps: seq<App>): (r: seq<Cell>)
    ensures |r| == |apps| + (if id == FavouritesId then 1 else 0)
  {
    seq(|apps|, k requires 0 <= k < |apps| => AppCell(apps[k])) + (if id == FavouritesId then [ShowAllApps] else [])
  }

  /** A pane lists its category's apps in order, then "Show All Applications" under Favourites. */
  lemma ContentRows(id: string, apps: seq<App>)
    ensures forall k :: 0 <= k < |apps| ==> Content(id, apps)[k] == AppCell(apps[k])
    ensures id == FavouritesId ==> Content(id, apps)[|apps|] == ShowAllApps
  {
  }

  /** The unpadded pane of the `i`-th category. */
  function PaneContent(c: Categories, i: nat): seq<Cell>
    requires i < |c.order|
  {
    Content(c.order[i], AppsOf(c, c.order[i]))
  }

  /** The row count of the tallest unpadded pane among the first `n`. */
  function TallestPane(c: Categories, n: nat): nat
    requires n <= |c.order|
  {
    if n == 0 then 0
    else
      var m := TallestPane(c, n - 1);
      if |PaneContent(c, n - 1)| >= m then |PaneContent(c, n - 1)| else m
  }

  /** No pane among the first `n` is taller than the tallest. */
  lemma {:induction false} TallestPaneBound(c: Categories, n: nat, i: nat)
    requires i < n <= |c.order|
    ensures |PaneContent(c, i)| <= TallestPane(c, n)
  {
    assert TallestPane(c, n) >= TallestPane(c, n - 1) && TallestPane(c, n) >= |PaneContent(c, n - 1)|;
    if i < n - 1 {
      TallestPaneBound(c, n - 1, i);
    }
  }

  /** The tallest height is the height of one of the panes. */
  lemma {:induction false} TallestPaneAttained(c: Categories, n: nat)
    requires 0 < n <= |c.order|
    ensures exists i :: 0 <= i < n && |PaneContent(c, i)| == TallestPane(c, n)
  {
    var m := TallestPane(c, n - 1);
    if |PaneContent(c, n - 1)| >= m {
      assert 0 <= n - 1 < n;
    } else {
      TallestPaneAttained(c, n - 1);
      var i :| 0 <= i < n - 1 && |PaneContent(c, i)| == TallestPane(c, n - 1);
      assert 0 <= i < n;
    }
  }

  /** `max_height`: rows in the tallest of the category column and the panes. */
  function Height(c: Categories): nat
  {
    var t := TallestPane(c, |c.order|);
    if t >= |c.order| then t else |c.order|
  }

  /** `extra`: dummy rows above the category rows. */
  function Extra(c: Categories): nat
  {
    Height(c) - |c.order|
  }

  /** `pad` for pane `i`: enough to start level with its category row, as far as the height allows. */
  function Pad(c: Categories, i: nat): nat
    requires i < |c.order|
  {
    var level := Extra(c) + i;
    var room := Height(c) - |PaneContent(c, i)|;
    assert room >= 0 by { TallestPaneBound(c, |c.order|, i); }
    if level <= room then level else room
  }

  /** The category column after `_update`. */
  function LaidOutSections(c: Categories): seq<Cell>
  {
    Dummies(Extra(c)) + seq(|c.order|, k requires 0 <= k < |c.order| => CategoryCell(c.order[k]))
  }

  /** Pane `i` after `_update`: padded at the top; shown at first only for Favourites. */
  function LaidOutPane(c: Categories, i: nat): Pane
    requires i < |c.order|
  {
    Pane(Dummies(Pad(c, i)) + PaneContent(c, i), c.order[i] == FavouritesId)
  }

  /** The category column is exactly as tall as the menu, its category rows at the bottom in map order. */
  lemma SectionsFillHeight(c: Categories)
    ensures |LaidOutSections(c)| == Height(c)
    ensures forall i :: 0 <= i < |c.order| ==> LaidOutSections(c)[Extra(c) + i] == CategoryCell(c.order[i])
    ensures forall k :: 0 <= k < Extra(c) ==> LaidOutSections(c)[k] == Dummy
  {
  }

  /**
   * Every pane fits the menu's height and keeps its rows in order below the
   * padding. A pane with room starts level with its category row; one
   * without ends at the menu's bottom.
   */
  lemma PaneFits(c: Categories, i: nat)
    requires i < |c.order|
    ensures |LaidOutPane(c, i).cells| <= Height(c)
    ensures LaidOutPane(c, i).cells[Pad(c, i)..] == PaneContent(c, i)
    ensures Extra(c) + i + |PaneContent(c, i)| <= Height(c) ==> Pad(c, i) == Extra(c) + i
    ensures Extra(c) + i + |PaneContent(c, i)| > Height(c) ==> |LaidOutPane(c, i).cells| == Height(c)
  {
    TallestPaneBound(c, |c.order|, i);
  }

  /**
   * In a well-formed map only the Favourites pane is shown after `_update`,
   * and it is the first.
   */
  lemma {:induction false} OnlyFavouritesShown(c: Categories, i: nat)
    requires WellFormed(c) && |c.order| >= 1 && c.order[0] == FavouritesId
    requires i < |c.order|
    ensures LaidOutPane(c, i).visible <==> i == 0
  {
    if i != 0 {
      assert c.order[0] != c.order[i];
    }
  }

  /** The first `n` panes before padding; only the Favourites pane is shown. */
  function UnpaddedPanes(c: Categories, n: nat): (r: seq<Pane>)
    requires n <= |c.order|
    ensures |r| == n
  {
    if n == 0 then [] else UnpaddedPanes(c, n - 1) + [Pane(PaneContent(c, n - 1), c.order[n - 1] == FavouritesId)]
  }

  lemma {:induction false} UnpaddedPanesAt(c: Categories, n: nat, k: nat)
    requires k < n <= |c.order|
    ensures UnpaddedPanes(c, n)[k] == Pane(PaneContent(c, k), c.order[k] == FavouritesId)
  {
    if k < n - 1 {
      UnpaddedPanesAt(c, n - 1, k);
    }
  }

  /** After `_update` at most one pane is shown. */
  lemma AtMostOneShown(c: Categories, panes: seq<Pane>)
    requires WellFormed(c) && |c.order| >= 1 && c.order[0] == FavouritesId
    requires |panes| == |c.order| && forall i :: 0 <= i < |panes| ==> panes[i] == LaidOutPane(c, i)
    ensures forall j1, j2 :: 0 <= j1 < |panes| && 0 <= j2 < |panes| && panes[j1].visible && panes[j2].visible ==> j1 == j2
  {
    forall j1, j2 | 0 <= j1 < |panes| && 0 <= j2 < |panes| && panes[j1].visible && panes[j2].visible
      ensures j1 == j2
    {
      OnlyFavouritesShown(c, j1);
      OnlyFavouritesShown(c, j2);
    }
  }

  /** The unpadded category rows and panes of `_update`, and `max_height`. */
  method Unpadded(cats: Categories) returns (column: seq<Cell>, built: seq<Pane>, maxHeight: nat)
    ensures |column| == |cats.order| && |built| == |cats.order|
    ensures column == seq(|cats.order|, k requires 0 <= k < |cats.order| => CategoryCell(cats.order[k]))
    ensures built == UnpaddedPanes(cats, |cats.order|)
    ensures maxHeight == Height(cats)
  {
    var n := |cats.order|;
    column := [];
    built := [];
    maxHeight := 0;
    for i := 0 to n
      invariant |column| == i && |built| == i
      invariant forall k :: 0 <= k < i ==> column[k] == CategoryCell(cats.order[k])
      invariant built == UnpaddedPanes(cats, i)
      invariant maxHeight == TallestPane(cats, i)
    {
      var id := cats.order[i];
      var content := PaneContent(cats, i);
      built := built + [Pane(content, id == FavouritesId)];
      column := column + [CategoryCell(id)];
      if |content| >= maxHeight {
        maxHeight := |content|;
      }
    }
    if n >= maxHeight {
      maxHeight := n;
    }
    assert column == seq(n, k requires 0 <= k < n => CategoryCell(cats.order[k]));
  }

  /** `extra` dummy rows inserted, one at a time, at the top of the category column. */
  method PadColumn(column: seq<Cell>, extra: nat) returns (padded: seq<Cell>)
    ensures padded == Dummies(extra) + column
  {
    padded := column;
    for k := 0 to extra
      invariant padded == Dummies(k) + column
    {
      padded := [Dummy] + padded;
    }
  }

  /** Pane `i` padded at the top with `min(extra + i, max_height - size)` dummy rows. */
  method PadPane(cats: Categories, i: nat, pane: Pane) returns (padded: Pane)
    requires i < |cats.order| && pane == Pane(PaneContent(cats, i), cats.order[i] == FavouritesId)
    ensures padded == LaidOutPane(cats, i)
  {
    var maxHeight, extra := Height(cats), Extra(cats);
    var size := |pane.cells|;
    assert size <= maxHeight by {
      TallestPaneBound(cats, |cats.order|, i);
    }
    var pad := if extra + i <= maxHeight - size then extra + i else maxHeight - size;
    assert pad == Pad(cats, i);
    var cells := PadColumn(pane.cells, pad);
    padded := pane.(cells := cells);
  }

  /** `this._panes.forEach(...)`: every pane padded at the top. */
  method PadPanes(cats: Categories, built: seq<Pane>) returns (padded: seq<Pane>)
    requires built == UnpaddedPanes(cats, |cats.order|)
    ensures |padded| == |cats.order| && forall k :: 0 <= k < |padded| ==> padded[k] == LaidOutPane(cats, k)
  {
    padded := built;
    for i := 0 to |built|
      invariant |padded| == |built|
      invariant forall k :: 0 <= k < i ==> padded[k] == LaidOutPane(cats, k)
      invariant forall k :: i <= k < |built| ==> padded[k] == built[k]
    {
      UnpaddedPanesAt(cats, |cats.order|, i);
      var pane := PadPane(cats, i, padded[i]);
      padded := padded[i := pane];
    }
  }

  class ApplicationsMenu {
    /** Whether the popup holding this menu is shown. */
    var menuVisible: bool
    /** The category column (`sections`). */
    var sections: seq<Cell>
    /** `_panes`, in map order. */
    var panes: seq<Pane>
    /** The category of each pane. */
    var categories: Categories

    ghost predicate Valid()
      reads this
    {
      && |panes| == |categories.order|
      && forall j1, j2 :: 0 <= j1 < |panes| && 0 <= j2 < |panes| && panes[j1].visible && panes[j2].visible ==> j1 == j2
    }

    constructor (favs: seq<App>, root: seq<TreeItem>)
      ensures Valid() && !menuVisible && categories == CategoriesOf(favs, root)
      ensures sections == LaidOutSections(categories)
      ensures |panes| == |categories.order| && forall i :: 0 <= i < |panes| ==> panes[i] == LaidOutPane(categories, i)
    {
      menuVisible := false;
      sections := [];
      panes := [];
      categories := Categories([], map[]);
      new;
      Update(favs, root);
    }

    /**
     * `_update`: close the popup, rebuild both columns from the tree and the
     * favourites, then pad the category column and each pane at the top.
     */
    method Update(favs: seq<App>, root: seq<TreeItem>)
      modifies this
      ensures Valid() && !menuVisible && categories == CategoriesOf(favs, root)
      ensures sections == LaidOutSections(categories)
      ensures |panes| == |categories.order| && forall i :: 0 <= i < |panes| ==> panes[i] == LaidOutPane(categories, i)
    {
      menuVisible := false;
      var cats := GetCategories(favs, root);
      var column, built, maxHeight := Unpadded(cats);
      var extra := maxHeight - |cats.order|;
      column := PadColumn(column, extra);
      built := PadPanes(cats, built);
      categories := cats;
      sections := column;
      panes := built;
      AtMostOneShown(cats, panes);
    }

    /**
     * `_hide_panes(shown)`, the 'show' handler of every pane: every pane but
     * `shown` is hidden.
     */
    method HidePanes(shown: nat)
      modifies this
      ensures |panes| == |old(panes)|
      ensures forall j :: 0 <= j < |panes| ==> panes[j].cells == old(panes[j].cells)
      ensures forall j :: 0 <= j < |panes| ==> panes[j].visible == (j == shown && old(panes[j].visible))
      ensures sections == old(sections) && categories == old(categories) && menuVisible == old(menuVisible)
    {
      var j := 0;
      while j < |panes|
        invariant 0 <= j <= |panes| && |panes| == |old(panes)|
        invariant forall k :: 0 <= k < |panes| ==> panes[k].cells == old(panes[k].cells)
        invariant forall k :: 0 <= k < j ==> panes[k].visible == (k == shown && old(panes[k].visible))
        invariant forall k :: j <= k < |panes| ==> panes[k].visible == old(panes[k].visible)
        invariant sections == old(sections) && categories == old(categories) && menuVisible == old(menuVisible)
      {
        if j != shown {
          panes := panes[j := panes[j].(visible := false)];
        }
        j := j + 1;
      }
    }

    /**
     * The pointer enters the `i`-th category row (`_show_category`): its
     * pane is shown and, when that emits 'show', every other is hidden.
     * Afterwards exactly that pane is shown.
     */
    method ShowCategory(i: nat)
      requires Valid() && i < |panes|
      modifies this
      ensures Valid()
      ensures forall j :: 0 <= j < |panes| ==> (panes[j].visible <==> j == i)
      ensures |panes| == |old(panes)| && forall j :: 0 <= j < |panes| ==> panes[j].cells == old(panes[j].cells)
      ensures sections == old(sections) && categories == old(categories) && menuVisible == old(menuVisible)
    {
      if panes[i].visible {
        // already shown: no 'show' is emitted, and by Valid() no other pane is shown
        assert forall j :: 0 <= j < |panes| && panes[j].visible ==> j == i;
        return;
      }
      panes := panes[i := panes[i].(visible := true)];
      HidePanes(i);
    }
  }

  // ---------------------------------------------------------------------
  // AppMenuItem._launch

  /**
   * `_launch` (also `FavButton._launch`): a running app that can open a new
   * window gets one; any other app is activated.
   */
  function LaunchOf(app: App): (r: Launch)
    ensures r == OpenNewWindow <==> app.running && app.canOpenNewWindow
    ensures r == Activate <==> !app.running || !app.canOpenNewWindow
  {
    if app.running && app.canOpenNewWindow then OpenNewWindow else Activate
  }

  // ---------------------------------------------------------------------
  // AppButton

  const IconPrefix: string := "icon:"

  /** The icon name an 'applications-button-text' value asks for, if it starts with "icon:". */
  function IconNameOf(value: string): (r: Option<string>)
    ensures r.Some? <==> |value| >= |IconPrefix| && value[..|IconPrefix|] == IconPrefix
    ensures r.Some? ==> value == IconPrefix + r.value
  {
    if |value| >= |IconPrefix| && value[..|IconPrefix|] == IconPrefix
    then Some(value[|IconPrefix|..])
    else None
  }

  /** A setting written as "icon:" followed by a name reads back as that name. */
  lemma IconNameRoundTrip(name: string)
    ensures IconNameOf(IconPrefix + name) == Some(name)
  {
    assert (IconPrefix + name)[..|IconPrefix|] == IconPrefix;
    assert (IconPrefix + name)[|IconPrefix|..] == name;
  }

  /**
   * `_set_label_text_or_icon` as written: the text branch calls
   * `set_label_text_bold`, which no class of the extension defines, so the
   * call throws and `delete_icon` is never reached. `completed` says whether
   * the method ran to its end.
   */
  method SetLabelTextOrIconAsWritten(b: Button, value: string) returns (completed: bool)
    requires b.Valid()
    modifies b, b.caption, b.icon
    ensures b.Valid()
    ensures IconNameOf(value).Some? ==>
      completed && b.icon != null && b.icon.image == Themed(IconNameOf(value).value) && b.caption == null
    ensures IconNameOf(value).None? ==>
      !completed && b.caption != null && b.caption.text == value && b.icon == old(b.icon)
  {
    var name := IconNameOf(value);
    if name.Some? {
      b.SetIconName(name.value);
      b.DeleteLabelText();
      return true;
    }
    b.SetLabelText(value);
    return false;
  }

  /**
   * A button showing an icon, switched to plain text by the as-written
   * method, keeps its icon beside the new text.
   */
  method IconSurvivesTextSetting() returns (b: Button)
    ensures b.Valid() && b.caption != null && b.caption.text == "Applications"
    ensures b.icon != null
  {
    b := new Button();
    b.SetIconName("view-app-grid-symbolic");
    assert "Applications"[..|IconPrefix|] != IconPrefix by {
      assert "Applications"[0] != IconPrefix[0];
    }
    var completed := SetLabelTextOrIconAsWritten(b, "Applications");
    assert !completed;
  }

  /**
   * `_set_label_text_or_icon`, with `set_label_text_bold` taken to make the
   * label bold: "icon:NAME" shows the themed icon NAME and no text; any
   * other value shows that text in bold and no icon.
   */
  method SetLabelTextOrIcon(b: Button, value: string)
    requires b.Valid()
    modifies b, b.caption, b.icon
    ensures b.Valid()
    ensures IconNameOf(value).Some? ==>
      b.icon != null && b.icon.image == Themed(IconNameOf(value).value) && b.caption == null
    ensures IconNameOf(value).None? ==>
      b.caption != null && b.caption.text == value && "bold" in b.caption.classes && b.icon == null
  {
    var name := IconNameOf(value);
    if name.Some? {
      b.SetIconName(name.value);
      b.DeleteLabelText();
    } else {
      b.SetLabelText(value);
      b.AddLabelStyleClassName("bold");
      b.DeleteIcon();
    }
  }

  /**
   * `AppButton`: a push button labelled from the settings, whose
   * applications menu is built on the first press of button 1 or 3 and kept.
   */
  class AppButton {
    const button: Button
    const push: Buttons.PushButton
    /** `_create_menu`/`_hide_menu`, keeping `_app_menu` */
    const factory: Buttons.MenuFactory

    constructor (tooltips: Tooltip.Scheduler, text: string)
      requires tooltips.Valid()
      ensures button.Valid() && push.Valid() && fresh(button) && fresh(push) && fresh(factory)
      ensures push.factory == factory && factory.cached && factory.autoclose && factory.cache == null
      ensures push.menuButtons == [1, 3]
      ensures IconNameOf(text).Some? ==> button.icon != null && button.icon.image == Themed(IconNameOf(text).value) && button.caption == null
      ensures IconNameOf(text).None? ==>
        button.caption != null && button.caption.text == text && "bold" in button.caption.classes && button.icon == null
    {
      var b := new Button();
      b.StyleClassName(true, "sysbtn");
      SetLabelTextOrIcon(b, text);
      var p := new Buttons.PushButton(tooltips);
      var f := new Buttons.MenuFactory(true, true);
      p.SetMenu(f, [1, 3]);
      button := b;
      push := p;
      factory := f;
    }

    /** 'changed::applications-button-text': the label or icon follows the new setting. */
    method TextChanged(value: string)
      requires button.Valid()
      modifies button, button.caption, button.icon
      ensures button.Valid()
      ensures IconNameOf(value).Some? ==>
        button.icon != null && button.icon.image == Themed(IconNameOf(value).value) && button.caption == null
      ensures IconNameOf(value).None? ==>
        button.caption != null && button.caption.text == value && "bold" in button.caption.classes && button.icon == null
    {
      SetLabelTextOrIcon(button, value);
    }

    /** `_destroy_menu`, on the button's 'hide' and 'destroy': the kept menu is destroyed and forgotten. */
    method DestroyMenu()
      requires factory.Valid()
      modifies factory, factory.cache
      ensures factory.Valid() && factory.cache == null
      ensures old(factory.cache) != null ==> old(factory.cache).destroyed
    {
      factory.DestroyCache();
    }
  }
}
