/** Call sequences on fresh HUDs, each ending in what a caller can observe. They
    state the behaviour of several calls together, as the class exhibits it. */
module Scenarios {
  import opened Basics
  import opened Timers
  import opened Indicators
  import opened ProgressHud

  /** With no grace time, `showAnimated` shows at once and arms no timer. */
  method ShowWithoutGrace(now: real) returns (alpha: real, started: Option<real>, graceArmed: bool)
    ensures alpha == 1.0 && started == Some(now) && !graceArmed
  {
    var hud := new Hud();
    hud.ShowAnimated(true, now);
    alpha, started := hud.alpha, hud.showStarted;
    graceArmed := hud.graceTimer.current.Some?;
  }

  /** A hide requested during the grace period: the HUD never becomes visible,
      the grace timer is cancelled and cannot fire, and the teardown runs at once
      (not when the grace period would have ended). */
  method HideDuringGrace(graceTime: real, t0: real, t1: real)
    returns (alphaWhileWaiting: real, alphaAfter: real, graceTimersPending: nat, teardowns: nat)
    requires graceTime > 0.0
    ensures alphaWhileWaiting == 0.0 && alphaAfter == 0.0
    ensures graceTimersPending == 0 && teardowns == 1
  {
    var hud := new Hud();
    hud.graceTime := graceTime;
    hud.ShowAnimated(true, t0);
    alphaWhileWaiting := hud.alpha;
    hud.HideAnimated(true, t1);
    alphaAfter := hud.alpha;
    graceTimersPending := |Scheduled(hud.graceTimer)|;
    teardowns := |hud.teardowns|;
  }

  /** With a grace time the HUD stays invisible until the grace timer fires,
      and is then shown from the moment it fires. */
  method ShowAfterGrace(graceTime: real, t0: real, t1: real)
    returns (alphaWhileWaiting: real, armed: Option<Timer>, alpha: real, started: Option<real>)
    requires graceTime > 0.0
    ensures alphaWhileWaiting == 0.0 && armed == Some(Timer(graceTime, false))
    ensures alpha == 1.0 && started == Some(t1)
  {
    var hud := new Hud();
    hud.graceTime := graceTime;
    hud.ShowAnimated(false, t0);
    alphaWhileWaiting, armed := hud.alpha, hud.graceTimer.current;
    hud.FireGraceTimer(FireCurrent, t1);
    alpha, started := hud.alpha, hud.showStarted;
  }

  /** Hiding twice runs the teardown twice: the completion block is called once
      per hide, not once in total. */
  method HideTwice(now: real) returns (completions: nat, alpha: real)
    ensures completions == 2 && alpha == 0.0
  {
    var hud := new Hud();
    hud.hasCompletionBlock := true;
    hud.ShowAnimated(true, now);
    hud.HideAnimated(true, now);
    hud.HideAnimated(true, now);
    completions := |hud.teardowns|;
    assert hud.teardowns == [Teardown(true, false), Teardown(true, false)];
    alpha := hud.alpha;
  }

  /** Hiding before the minimum show time has passed postpones the teardown by
      exactly the time that remains; the minimum-show timer then tears down. */
  method MinShowPostpones(minShowTime: real, t0: real, t1: real)
    returns (delay: real, teardownsBefore: nat, alphaBefore: real, teardownsAfter: nat, alphaAfter: real)
    requires t0 <= t1 < t0 + minShowTime
    ensures delay == minShowTime - (t1 - t0) && delay > 0.0
    ensures teardownsBefore == 0 && alphaBefore == 1.0
    ensures teardownsAfter == 1 && alphaAfter == 0.0
  {
    var hud := new Hud();
    hud.minShowTime := minShowTime;
    hud.ShowAnimated(false, t0);
    hud.HideAnimated(false, t1);
    delay := hud.minShowTimer.current.value.interval;
    teardownsBefore, alphaBefore := |hud.teardowns|, hud.alpha;
    hud.FireMinShowTimer(FireCurrent);
    teardownsAfter, alphaAfter := |hud.teardowns|, hud.alpha;
  }

  /** A hide after the minimum show time has passed is not postponed. */
  method MinShowElapsed(minShowTime: real, t0: real, t1: real) returns (minShowArmed: bool, teardowns: nat)
    requires minShowTime > 0.0 && t1 >= t0 + minShowTime
    ensures !minShowArmed && teardowns == 1
  {
    var hud := new Hud();
    hud.minShowTime := minShowTime;
    hud.ShowAnimated(false, t0);
    hud.HideAnimated(false, t1);
    minShowArmed := hud.minShowTimer.current.Some?;
    teardowns := |hud.teardowns|;
  }

  /** A HUD shown on a host in determinate mode: the round view shows each
      progress value set. */
  method DeterminateOnHost(now: real) returns (first: Option<real>, second: Option<real>, trapped: bool)
    ensures first == Some(0.3) && second == Some(0.75) && !trapped
  {
    var host := new Host();
    var hud := ShowHud(host, true, now);
    hud.SetMode(Determinate);
    var trapped1 := hud.SetProgress(0.3);
    first := ShownProgress(hud.indicator);
    var trapped2 := hud.SetProgress(0.75);
    second := ShownProgress(hud.indicator);
    trapped := trapped1 || trapped2;
  }

  /** Hiding through the host, with no minimum show time, detaches the HUD before
      the call returns; the host then has no HUD left to find. */
  method HideOnHost(now: real) returns (found: bool, childrenLeft: nat, detached: bool, foundAgain: bool)
    ensures found
    ensures childrenLeft == 0
    ensures detached
    ensures !foundAgain
  {
    var host := new Host();
    var hud := ShowHud(host, true, now);
    assert host.subviews == [HudView(hud)];
    assert LastLiveHud(host.subviews) == Some(hud);
    found := HideHud(host, false, now);
    assert Without([HudView(hud)], hud) == [];
    childrenLeft := |host.subviews|;
    detached := hud.superview == null;
    var again := FindHud(host);
    foundAgain := again.Some?;
  }

  /** In text mode no indicator is mounted, and a new progress value traps. */
  method ProgressInTextMode(p: real) returns (trapped: bool, stored: real)
    requires p != 0.0
    ensures trapped && stored == p
  {
    var hud := new Hud();
    hud.SetMode(Text);
    trapped := hud.SetProgress(p);
    stored := hud.progress;
  }

  /** Determinate, then indeterminate, then determinate again: the second round
      view is a new one. */
  method ModeRoundTrip() returns (before: Option<ViewId>, after: Option<ViewId>)
    ensures before.Some? && after.Some? && before != after
  {
    var hud := new Hud();
    hud.SetMode(Determinate);
    before := Identity(hud.indicator);
    hud.SetMode(Indeterminate);
    hud.SetMode(Determinate);
    after := Identity(hud.indicator);
  }

  /** Annular, then plain determinate: the same round view, still annular. */
  method AnnularThenDeterminate() returns (sameView: bool, stillAnnular: bool)
    ensures sameView && stillAnnular
  {
    var hud := new Hud();
    hud.SetMode(AnnularDeterminate);
    var before := Identity(hud.indicator);
    hud.SetMode(Determinate);
    sameView := Identity(hud.indicator) == before;
    stillAnnular := hud.indicator.Round? && hud.indicator.annular;
  }

  /** A new content colour on an annular round view: the same view, still
      annular, now drawn in the new colour. */
  method RecolorAnnular(c: Color) returns (sameView: bool, stillAnnular: bool, tint: Color)
    requires c != DefaultContentColor
    ensures sameView && stillAnnular && tint == c
  {
    var hud := new Hud();
    hud.SetMode(AnnularDeterminate);
    var before := Identity(hud.indicator);
    hud.SetContentColor(c);
    sameView := Identity(hud.indicator) == before;
    stillAnnular := hud.indicator.Round? && hud.indicator.annular;
    tint := if hud.indicator.Round? then hud.indicator.progressTintColor else DefaultContentColor;
  }

  /** A fresh HUD with a completion block, shown at `now`. */
  method ShownWithCompletion(now: real) returns (hud: Hud)
    ensures fresh(hud) && hud.hideDelayTimer == NoTimers
    ensures hud.teardowns == [] && hud.minShowTime == 0.0 && hud.superview == null
  {
    hud := new Hud();
    hud.hasCompletionBlock := true;
    hud.ShowAnimated(true, now);
  }

  /** A delayed hide rescheduled to an earlier time, as written: both delayed
      hides are pending, and only the later request can still be cancelled. */
  method RescheduleDelayedHide(now: real) returns (hud: Hud, pending: nat)
    ensures fresh(hud) && pending == 2
    ensures hud.hideDelayTimer == TimerSlot(Some(Timer(1.0, true)), [Timer(5.0, true)])
    ensures hud.teardowns == [] && hud.minShowTime == 0.0 && hud.superview == null
  {
    hud := ShownWithCompletion(now);
    hud.HideAfterDelay(true, 5.0);
    assert hud.hideDelayTimer == TimerSlot(Some(Timer(5.0, true)), []);
    hud.HideAfterDelay(true, 1.0);
    assert multiset(hud.hideDelayTimer.unreferenced) == multiset{Timer(5.0, true)};
    pending := |Scheduled(hud.hideDelayTimer)|;
  }

  /** The earlier delayed hide fires and tears the HUD down; the dropped one is
      still scheduled afterwards. */
  method RescheduledDelayedHideFirstFiring(now: real) returns (hud: Hud, pendingBefore: nat)
    ensures fresh(hud) && pendingBefore == 2
    ensures hud.hideDelayTimer == TimerSlot(None, [Timer(5.0, true)])
    ensures |hud.teardowns| == 1 && hud.showStarted == None && hud.superview == null
  {
    hud, pendingBefore := RescheduleDelayedHide(now);
    hud.FireHideDelayTimer(FireCurrent, now + 1.0);
  }

  /** The dropped delayed hide then fires as well and tears the HUD down a second
      time: the completion block runs twice. */
  method RescheduledDelayedHide(now: real) returns (pendingBefore: nat, completions: nat)
    ensures pendingBefore == 2 && completions == 2
  {
    var hud;
    hud, pendingBefore := RescheduledDelayedHideFirstFiring(now);
    hud.FireHideDelayTimer(FireUnreferenced(0), now + 5.0);
    completions := |hud.teardowns|;
  }

  /** The same requests with the earlier delayed hide cancelled first: only the
      latest is pending, and it tears the HUD down once. */
  method RescheduledDelayedHideReplacing(now: real) returns (pendingBefore: nat, completions: nat, pendingAfter: nat)
    ensures pendingBefore == 1 && completions == 1 && pendingAfter == 0
  {
    var hud := new Hud();
    hud.hasCompletionBlock := true;
    hud.ShowAnimated(true, now);
    hud.HideAfterDelayReplacing(true, 5.0);
    hud.HideAfterDelayReplacing(true, 1.0);
    pendingBefore := |Scheduled(hud.hideDelayTimer)|;
    hud.FireHideDelayTimer(FireCurrent, now + 1.0);
    completions := |hud.teardowns|;
    pendingAfter := |Scheduled(hud.hideDelayTimer)|;
  }
}
