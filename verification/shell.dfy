// The GNOME Shell collaborators the extension talks to, reduced to the state
// the extension reads or changes. Their own behaviour is not verified: each
// method here stands for one shell call and says only what that call changes.
module Shell {
  import opened Common

  type AppId = string

  /** What a `Shell.App` exposes to the extension. */
  datatype App = App(id: AppId, name: string, running: bool, canOpenNewWindow: bool, shouldShow: bool)

  /** What launching an app does: open a new window of it, or activate it. */
  datatype Launch = OpenNewWindow | Activate

  /** A `Meta.Window`. Identity is object identity, as with `===` in the source. */
  class Window {
    const stableSequence: int
    const skipTaskbar: bool
    const app: Option<App>
    const canMaximize: bool
    const canMinimize: bool
    const canClose: bool
    var title: Option<string>
    var minimized: bool
    var maximized: bool
    var activations: nat
    var deleted: bool

    constructor (stableSequence: int, skipTaskbar: bool, app: Option<App>, title: Option<string>,
                 canMaximize: bool, canMinimize: bool, canClose: bool)
      ensures this.stableSequence == stableSequence && this.skipTaskbar == skipTaskbar
      ensures this.app == app && this.title == title
      ensures this.canMaximize == canMaximize && this.canMinimize == canMinimize && this.canClose == canClose
      ensures !minimized && !maximized && activations == 0 && !deleted
    {
      this.stableSequence := stableSequence;
      this.skipTaskbar := skipTaskbar;
      this.app := app;
      this.title := title;
      this.canMaximize, this.canMinimize, this.canClose := canMaximize, canMinimize, canClose;
      minimized, maximized, activations, deleted := false, false, 0, false;
    }

    method Minimize()
      modifies this
      ensures minimized
      ensures maximized == old(maximized) && activations == old(activations) && deleted == old(deleted)
      ensures title == old(title)
    {
      minimized := true;
    }

    method Unminimize()
      modifies this
      ensures !minimized
      ensures maximized == old(maximized) && activations == old(activations) && deleted == old(deleted)
      ensures title == old(title)
    {
      minimized := false;
    }

    method SetMaximized(on: bool)
      modifies this
      ensures maximized == on
      ensures minimized == old(minimized) && activations == old(activations) && deleted == old(deleted)
      ensures title == old(title)
    {
      maximized := on;
    }

    method Activate()
      modifies this
      ensures activations == old(activations) + 1
      ensures minimized == old(minimized) && maximized == old(maximized) && deleted == old(deleted)
      ensures title == old(title)
    {
      activations := activations + 1;
    }

    method Delete()
      modifies this
      ensures deleted
      ensures minimized == old(minimized) && maximized == old(maximized) && activations == old(activations)
      ensures title == old(title)
    {
      deleted := true;
    }
  }

  /** The shell's favourites list (`AppFavorites`), in its own order. */
  class Favourites {
    var ids: seq<AppId>

    constructor (ids: seq<AppId>)
      ensures this.ids == ids
    {
      this.ids := ids;
    }

    predicate IsFavourite(id: AppId)
      reads this
    {
      id in ids
    }

    method Add(id: AppId)
      modifies this
      ensures id in ids
      ensures forall x :: x in old(ids) ==> x in ids
    {
      if id !in ids {
        ids := ids + [id];
      }
    }

    method Remove(id: AppId)
      modifies this
      ensures ids == Without(old(ids), id)
    {
      ids := Without(ids, id);
    }
  }
}
