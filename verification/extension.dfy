// extension.js: the extension's entry point. `enable` patches the overview's
// `runStartupAnimation` so that the shell starts on the desktop with the top
// bar hidden, and builds the dash; `disable` undoes both and shows the top
// bar again.
//
// A JavaScript object's properties are a map from names to values; the only
// thing `_inject` asks of a value is whether it is a function.
module Extension {
  import opened Common

  /** The name of the patched method. */
  const StartupAnimation := "runStartupAnimation"

  /** A property value: the shell's own function, a wrapper built by `enable`, or anything else. */
  datatype Value = Native(id: nat) | StartupWrapper(serial: nat) | Other
  {
    /** `instanceof Function` */
    predicate IsFunction()
    {
      Native? || StartupWrapper?
    }
  }

  /**
   * What `_inject(target, key, fun)` does to the target's properties and
   * what it returns: when the property holds a function it is replaced by
   * `fun` and the old function is returned; otherwise nothing changes and
   * the result is null.
   */
  function Injected(props: map<string, Value>, key: string, fun: Value): (r: (map<string, Value>, Option<Value>))
    ensures r.0.Keys == props.Keys
    ensures r.1.Some? <==> key in props && props[key].IsFunction()
    ensures r.1.Some? ==> r.1.value == props[key] && r.0[key] == fun
    ensures r.1.None? ==> r.0 == props
    ensures forall k :: k in props && k != key ==> r.0[k] == props[k]
  {
    if key in props && props[key].IsFunction() then (props[key := fun], Some(props[key])) else (props, None)
  }

  /** Injecting back the function `_inject` returned restores the target exactly. */
  lemma InjectUndone(props: map<string, Value>, key: string, fun: Value)
    requires fun.IsFunction()
    requires Injected(props, key, fun).1.Some?
    ensures Injected(Injected(props, key, fun).0, key, Injected(props, key, fun).1.value) == (props, Some(fun))
  {
    var (patched, old_) := Injected(props, key, fun);
    assert patched[key := old_.value] == props;
  }

  /**
   * Injecting twice before undoing: the second call hands back the first
   * wrapper, not the original function, so undoing with it does not restore
   * the original.
   */
  lemma InjectTwiceLosesOriginal(props: map<string, Value>, key: string, w1: Value, w2: Value)
    requires w1.IsFunction() && w2.IsFunction() && w1 != w2
    requires key in props && props[key].IsFunction() && props[key] != w1
    ensures Injected(Injected(props, key, w1).0, key, w2).1 == Some(w1)
    ensures Injected(Injected(Injected(props, key, w1).0, key, w2).0, key, w1).0[key] != props[key]
  {
    var p1 := Injected(props, key, w1).0;
    assert p1[key] == w1;
    var p2 := Injected(p1, key, w2).0;
    assert p2[key] == w2;
  }

  /** A JavaScript object whose properties `_inject` overwrites (`Overview.prototype`). */
  class Prototype {
    var props: map<string, Value>

    constructor (props: map<string, Value>)
      ensures this.props == props
    {
      this.props := props;
    }
  }

  /** `_inject(target, key, fun)` */
  method Inject(target: Prototype, key: string, fun: Value) returns (r: Option<Value>)
    modifies target
    ensures (target.props, r) == Injected(old(target.props), key, fun)
  {
    var f := if key in target.props then target.props[key] else Other;
    if f.IsFunction() {
      target.props := target.props[key := fun];
      return Some(f);
    }
    return None;
  }

  /** The dash the extension builds; its panels are not part of this model. */
  class Dash {
    var destroyed: bool

    constructor ()
      ensures !destroyed
    {
      destroyed := false;
    }

    method Destroy()
      modifies this
      ensures destroyed
    {
      destroyed := true;
    }
  }

  /** `ClassicDashExtension` */
  class ClassicDash {
    /** `Overview.prototype` */
    const overview: Prototype
    var dash: Dash?
    /** `_replaced`: the overview's own startup animation, while patched. */
    var replaced: Option<Value>
    /** Whether the top bar is shown. */
    var topBarShown: bool
    /** How many startup wrappers `enable` has built; each is a new closure. */
    var wrappers: nat

    /** The constructor (`init`): neither a dash nor a replaced function. */
    constructor (overview: Prototype, topBarShown: bool)
      ensures this.overview == overview && dash == null && replaced == None
      ensures this.topBarShown == topBarShown && wrappers == 0
    {
      this.overview := overview;
      dash := null;
      replaced := None;
      this.topBarShown := topBarShown;
      wrappers := 0;
    }

    /**
     * `enable`: inject a new startup wrapper, keeping what `_inject` returns
     * (the previous value is overwritten even when it was set), and build a
     * new dash (a previous one is dropped without being destroyed).
     */
    method Enable()
      modifies this, overview
      ensures var w := StartupWrapper(old(wrappers));
        (overview.props, replaced) == Injected(old(overview.props), StartupAnimation, w)
      ensures wrappers == old(wrappers) + 1 && topBarShown == old(topBarShown)
      ensures dash != null && fresh(dash) && !dash.destroyed
    {
      var w := StartupWrapper(wrappers);
      wrappers := wrappers + 1;
      replaced := Inject(overview, StartupAnimation, w);
      dash := new Dash();
    }

    /**
     * `disable`: inject back the replaced function if there is one, destroy
     * the dash if there is one, and show the top bar in every case.
     */
    method Disable()
      modifies this, overview, dash
      ensures replaced == None && dash == null && topBarShown && wrappers == old(wrappers)
      ensures old(replaced).Some? ==>
        overview.props == Injected(old(overview.props), StartupAnimation, old(replaced).value).0
      ensures old(replaced).None? ==> overview.props == old(overview.props)
      ensures old(dash) != null ==> old(dash).destroyed
    {
      if replaced.Some? {
        var _ := Inject(overview, StartupAnimation, replaced.value);
        replaced := None;
      }
      if dash != null {
        dash.Destroy();
        dash := null;
      }
      topBarShown := true;
    }

    /**
     * The overview runs its startup animation: the wrapper `enable`
     * installed hides the top bar before handing over to the callback;
     * the shell's own animation is not part of this model.
     */
    method RunStartupAnimation()
      modifies this
      ensures StartupAnimation in overview.props && overview.props[StartupAnimation].StartupWrapper? ==> !topBarShown
      ensures !(StartupAnimation in overview.props && overview.props[StartupAnimation].StartupWrapper?) ==>
        topBarShown == old(topBarShown)
      ensures dash == old(dash) && replaced == old(replaced) && wrappers == old(wrappers)
    {
      if StartupAnimation in overview.props && overview.props[StartupAnimation].StartupWrapper? {
        topBarShown := false;
      }
    }
  }

  /** `enable` then `disable` leaves the overview as it was and shows the top bar. */
  method EnableThenDisable(ext: ClassicDash)
    modifies ext, ext.overview, ext.dash
    ensures ext.overview.props == old(ext.overview.props)
    ensures ext.replaced == None && ext.dash == null && ext.topBarShown
  {
    ghost var before := ext.overview.props;
    ext.Enable();
    ghost var w := StartupWrapper(ext.wrappers - 1);
    if ext.replaced.Some? {
      InjectUndone(before, StartupAnimation, w);
    }
    ext.Disable();
  }

  /**
   * A second `disable` restores nothing and destroys nothing: the two calls
   * together restore and destroy exactly what the first one did.
   */
  method DisableTwice(ext: ClassicDash)
    modifies ext, ext.overview, ext.dash
    ensures ext.replaced == None && ext.dash == null && ext.topBarShown
    ensures old(ext.replaced).None? ==> ext.overview.props == old(ext.overview.props)
    ensures old(ext.replaced).Some? ==>
      ext.overview.props == Injected(old(ext.overview.props), StartupAnimation, old(ext.replaced).value).0
    ensures old(ext.dash) != null ==> old(ext.dash).destroyed
  {
    ext.Disable();
    ghost var props := ext.overview.props;
    ext.Disable();
    assert ext.overview.props == props;
  }

  /**
   * `enable` twice, then `disable`: the overview's own animation is lost and
   * the first wrapper stays installed.
   */
  method EnableTwiceThenDisable(ext: ClassicDash)
    requires StartupAnimation in ext.overview.props && ext.overview.props[StartupAnimation].Native?
    modifies ext, ext.overview, ext.dash
    ensures StartupAnimation in ext.overview.props
    ensures ext.overview.props[StartupAnimation] == StartupWrapper(old(ext.wrappers))
    ensures ext.overview.props[StartupAnimation] != old(ext.overview.props[StartupAnimation])
  {
    ext.Enable();
    ext.Enable();
    ext.Disable();
  }
}
