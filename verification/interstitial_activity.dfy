/** `MeganetInterstitialActivity`: the receiving half of the hand-off through the
    process-wide slot. `onCreate` takes the view out of the slot and displays it;
    `onDestroy` ends the presentation by clearing the showing flag. */
module InterstitialActivity {
  import opened Platform
  import opened Meganet

  /** The slot after `onCreate` and the view the activity displays. */
  datatype Created = Created(slot: Slot, displayed: Option<View>)

  /** `onCreate()`: display the view found in the slot at entry and empty the
      slot; the showing flag is not touched. */
  function OnCreate(slot: Slot): (r: Created)
    ensures r.displayed == slot.view
    ensures r.slot.view.None?
    ensures r.slot.showingNow == slot.showingNow
  {
    Created(slot.(view := None), slot.view)
  }

  /** `onDestroy()`: the showing flag is cleared unconditionally; the view is not touched. */
  function OnDestroy(slot: Slot): (r: Slot)
    ensures !r.showingNow
    ensures r.view == slot.view
  {
    slot.(showingNow := false)
  }

  /** A successful `startInterstitial` hands its adaptor's view to the activity
      that `onCreate` then builds. */
  lemma HandOffDisplaysAdaptorView(a: Adaptor, slot: Slot)
    requires !slot.showingNow && a.context.Some?
    ensures OnCreate(StartInterstitial(a, slot, Launched).slot).displayed == a.view
  {
  }

  /** When the adaptor is destroyed between the start of the activity and its
      `onCreate`, the activity finds an empty slot. */
  lemma DestroyBeforeCreateEmptiesHandOff(a: Adaptor, b: Adaptor, slot: Slot)
    requires !slot.showingNow && a.context.Some?
    ensures var shown := StartInterstitial(a, slot, Launched).slot;
      OnCreate(Destroy(b, shown).slot).displayed.None?
  {
  }

  /** Two interstitials cannot be shown at once: after one starts, a second
      `startInterstitial`, from any adaptor and whatever the launch would do,
      is rejected as already showing and changes nothing. */
  lemma SecondStartRejected(a: Adaptor, b: Adaptor, slot: Slot, launch: Launch)
    requires !slot.showingNow && a.context.Some?
    ensures var s1 := StartInterstitial(a, slot, Launched);
      && s1.slot.showingNow
      && StartInterstitial(b, s1.slot, launch) ==
           Step(b, s1.slot, [FailedToLoad(b.name, true, Some(AlreadyShowingCause))], false, None)
  {
  }

  /** Once the activity is dismissed, whether or not it got to `onCreate`, a new
      `startInterstitial` is no longer rejected: with a context it shows the new
      adaptor's view. */
  lemma StartAgainAfterDismiss(a: Adaptor, b: Adaptor, slot: Slot, created: bool)
    requires !slot.showingNow && a.context.Some? && b.context.Some?
    ensures var s1 := StartInterstitial(a, slot, Launched).slot;
      var s2 := OnDestroy(if created then OnCreate(s1).slot else s1);
      && !s2.showingNow
      && StartInterstitial(b, s2, Launched) == Step(b, Slot(b.view, true), [DidLoad(b.name, true)], true, None)
  {
  }
}
