// src/tooltip.js: the process-wide tooltip scheduler. Its state is two
// static fields of the Tooltip class, the tooltip on screen and the id of the
// pending show timer. Timers are modelled explicitly: `timers` is the set of
// callbacks the main loop still has armed, and the main loop firing one of
// them is the event `Fire`.
module Tooltip {
  import opened Common

  /** Delay, in ms, between a show request and the tooltip appearing. */
  const ShowTimeout: nat := 900
  /** Delay, in ms, after which a displayed tooltip is hidden anyway. */
  const HideTimeout: nat := 6000

  /** What an armed timer runs when it fires. */
  datatype Callback = ShowCallback(text: string, anchor: object) | HideCallback

  datatype Timer = Timer(delay: nat, callback: Callback)

  /** A constructed tooltip: a serial number standing for its identity, its text and its anchor. */
  datatype Tip = Tip(serial: nat, text: string, anchor: object)

  class Scheduler {
    /** `tooltip_displaying` */
    var displaying: Option<Tip>
    /** `tooltip_timeout_id` */
    var timeoutId: Option<nat>
    /** Every timer the main loop has armed and not yet fired or cleared. */
    var timers: map<nat, Timer>
    var nextTimerId: nat
    var nextSerial: nat
    /** Serials of the tooltips constructed and not yet destroyed. */
    ghost var live: set<nat>

    ghost predicate Valid()
      reads this
    {
      && (forall id :: id in timers ==> id < nextTimerId)
      && (timeoutId.Some? ==> timeoutId.value in timers && timers[timeoutId.value].callback.ShowCallback?)
      && (forall id :: id in timers && timers[id].callback.ShowCallback? ==> timeoutId == Some(id))
      && live == (if displaying.Some? then {displaying.value.serial} else {})
      && (forall s :: s in live ==> s < nextSerial)
    }

    /** At most one show timer is pending: the one `timeoutId` names. */
    ghost predicate OnePendingShow()
      reads this
    {
      forall id1, id2 ::
        id1 in timers && id2 in timers && timers[id1].callback.ShowCallback? && timers[id2].callback.ShowCallback?
        ==> id1 == id2
    }

    constructor ()
      ensures Valid()
      ensures displaying == None && timeoutId == None && timers == map[] && live == {}
    {
      displaying := None;
      timeoutId := None;
      timers := map[];
      nextTimerId := 0;
      nextSerial := 0;
      live := {};
    }

    /**
     * `hide_tooltip`: cancel the pending show timer and destroy the displayed
     * tooltip. Auto-hide timers are not tracked and stay armed.
     */
    method HideTooltip()
      requires Valid()
      modifies this
      ensures Valid() && OnePendingShow()
      ensures displaying == None && timeoutId == None && live == {}
      ensures forall id :: id in timers ==> !timers[id].callback.ShowCallback?
      ensures timers == PendingCleared(old(timers), old(timeoutId))
      ensures nextTimerId == old(nextTimerId) && nextSerial == old(nextSerial)
      ensures old(timeoutId) == None && old(displaying) == None ==> timers == old(timers) && live == old(live)
    {
      if timeoutId.Some? {
        timers := timers - {timeoutId.value};
      }
      timeoutId := None;
      displaying := None;
      live := {};
    }

    /**
     * `show_tooltip(text, anchor)`: with no text, nothing changes. Otherwise
     * whatever is pending or shown goes, and exactly one new show timer is
     * armed, with the 900 ms delay.
     */
    method ShowTooltip(text: Option<string>, anchor: object)
      requires Valid()
      modifies this
      ensures Valid() && OnePendingShow()
      ensures text == None ==> timers == old(timers) && timeoutId == old(timeoutId) && displaying == old(displaying)
      ensures text == None ==> live == old(live) && nextTimerId == old(nextTimerId)
      ensures text.Some? ==> displaying == None && live == {}
      ensures text.Some? ==> timeoutId == Some(old(nextTimerId)) && old(nextTimerId) !in old(timers)
      ensures text.Some? ==>
        timers == PendingCleared(old(timers), old(timeoutId))[old(nextTimerId) := Timer(ShowTimeout, ShowCallback(text.value, anchor))]
    {
      if text == None {
        return;
      }
      HideTooltip();
      var id := nextTimerId;
      timers := timers[id := Timer(ShowTimeout, ShowCallback(text.value, anchor))];
      timeoutId := Some(id);
      nextTimerId := nextTimerId + 1;
    }

    /**
     * The main loop fires the armed timer `id`. A show timer destroys whatever
     * is displayed, displays exactly one new tooltip and arms an untracked
     * 6000 ms auto-hide. An auto-hide runs `hide_tooltip` unconditionally, so
     * it also cancels a show requested after it was armed.
     */
    method Fire(id: nat)
      requires Valid() && id in timers
      modifies this
      ensures Valid() && OnePendingShow()
      ensures timeoutId == None
      ensures old(timers[id]).callback.HideCallback? ==>
        displaying == None && live == {} &&
        timers == PendingCleared(old(timers) - {id}, old(timeoutId))
      ensures old(timers[id]).callback.ShowCallback? ==>
        && old(timeoutId) == Some(id)
        && displaying == Some(Tip(old(nextSerial), old(timers[id]).callback.text, old(timers[id]).callback.anchor))
        && live == {old(nextSerial)}
        && timers == (old(timers) - {id})[old(nextTimerId) := Timer(HideTimeout, HideCallback)]
    {
      match timers[id].callback
      case HideCallback =>
        timers := timers - {id};
        HideTooltip();
      case ShowCallback(text, anchor) =>
        // the firing timer is the pending show timer, which hide_tooltip clears
        HideTooltip();
        displaying := Some(Tip(nextSerial, text, anchor));
        live := {nextSerial};
        nextSerial := nextSerial + 1;
        timers := timers[nextTimerId := Timer(HideTimeout, HideCallback)];
        nextTimerId := nextTimerId + 1;
    }
  }

  /** The armed timers once `clearTimeout(tooltip_timeout_id)` has run. */
  function PendingCleared(timers: map<nat, Timer>, timeoutId: Option<nat>): map<nat, Timer>
  {
    if timeoutId.Some? then timers - {timeoutId.value} else timers
  }
}
