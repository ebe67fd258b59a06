/** The HUD itself (`DKProgressViewHUD`): its show/hide state machine driven by
    three one-shot timers, its appearance setters, the indicator swap, the padding
    pass of its layout, and the class functions that find and hide the HUD on a
    host view. Times are passed in as `now` instead of being read from a clock. */
module ProgressHud {
  import opened Basics
  import opened Timers
  import opened Indicators
  import opened Layout

  /** What one teardown (`done`) invoked: the completion block and the delegate's
      `hudWasHidden`, each when it is set. */
  datatype Teardown = Teardown(ranCompletionBlock: bool, notifiedDelegate: bool)

  /** A child of a host view: a HUD, or some other view. */
  datatype Subview = OtherView(id: nat) | HudView(hud: Hud)

  /** A view the HUD is added to; only its list of children matters here. */
  class Host {
    var subviews: seq<Subview>

    constructor ()
      ensures subviews == []
    {
      subviews := [];
    }
  }

  /** `removeFromSuperview`, seen from the parent: the HUD leaves the child list
      and every other child stays. */
  function Without(s: seq<Subview>, h: Hud): (r: seq<Subview>)
    ensures HudView(h) !in r
    ensures forall x :: x in r ==> x in s && x != HudView(h)
    ensures forall x :: x in s && x != HudView(h) ==> x in r
    ensures HudView(h) !in s ==> r == s
  {
    if s == [] then []
    else (if s[0] == HudView(h) then [] else [s[0]]) + Without(s[1..], h)
  }

  function HudsIn(s: seq<Subview>): set<Hud>
  {
    set i | 0 <= i < |s| && s[i].HudView? :: s[i].hud
  }

  predicate IsLiveHud(s: Subview)
    reads if s.HudView? then {s.hud} else {}
  {
    s.HudView? && !s.hud.isFinished
  }

  /** The most recently added HUD among `s` that has not been asked to hide. */
  function LastLiveHud(s: seq<Subview>): Option<Hud>
    reads HudsIn(s)
  {
    if s == [] then None
    else if IsLiveHud(s[|s| - 1]) then Some(s[|s| - 1].hud)
    else
      HudsInPrefix(s, |s| - 1);
      LastLiveHud(s[..|s| - 1])
  }

  lemma HudsInPrefix(s: seq<Subview>, n: nat)
    requires n <= |s|
    ensures HudsIn(s[..n]) <= HudsIn(s)
  {
  }

  /** `LastLiveHud` finds nothing exactly when no child is a live HUD, and
      otherwise a live HUD child with no live HUD after it. */
  lemma {:induction false} LastLiveHudFound(s: seq<Subview>)
    ensures LastLiveHud(s).None? <==> forall i :: 0 <= i < |s| ==> !IsLiveHud(s[i])
    ensures LastLiveHud(s).Some? ==>
      exists i :: 0 <= i < |s| && s[i] == HudView(LastLiveHud(s).value) && IsLiveHud(s[i]) &&
        forall j :: i < j < |s| ==> !IsLiveHud(s[j])
  {
    if s == [] {
    } else if IsLiveHud(s[|s| - 1]) {
      assert s[|s| - 1] == HudView(LastLiveHud(s).value);
    } else {
      var p := s[..|s| - 1];
      assert LastLiveHud(s) == LastLiveHud(p);
      LastLiveHudFound(p);
      if LastLiveHud(p).None? {
        forall i | 0 <= i < |s| ensures !IsLiveHud(s[i]) {
          if i < |p| { assert s[i] == p[i]; }
        }
      } else {
        var i :| 0 <= i < |p| && p[i] == HudView(LastLiveHud(p).value) && IsLiveHud(p[i]) &&
          forall j :: i < j < |p| ==> !IsLiveHud(p[j]);
        assert s[i] == p[i];
        forall j | i < j < |s| ensures !IsLiveHud(s[j]) {
          if j < |p| { assert s[j] == p[j]; }
        }
      }
    }
  }

  /** Every HUD among the host's children has the host as its superview. */
  ghost predicate WellParented(host: Host)
    reads host, HudsIn(host.subviews)
  {
    forall i :: 0 <= i < |host.subviews| && host.subviews[i].HudView? ==> host.subviews[i].hud.superview == host
  }

  class Hud {
    // Configuration, set by the caller.
    var graceTime: real
    var minShowTime: real
    var removeFromSuperViewOnHide: bool
    var hasCompletionBlock: bool
    var hasDelegate: bool

    // Appearance.
    var mode: Mode
    var contentColor: Color
    var progress: real
    var progressObject: Option<ProgressSource>
    /** Whether the display link that polls `progressObject` exists. */
    var polling: bool
    var customView: Option<ViewRef>
    var indicator: Indicator
    /** Number given to the next view the HUD builds. */
    var nextViewId: nat
    var labelColor: Color
    var detailsLabelColor: Color
    var buttonTitleColor: Color

    // Show and hide.
    var isUseAnimation: bool
    var isFinished: bool
    var showStarted: Option<real>
    var alpha: real
    var superview: Host?
    var graceTimer: TimerSlot
    var minShowTimer: TimerSlot
    var hideDelayTimer: TimerSlot
    var teardowns: seq<Teardown>

    // Layout.
    var needsUpdateConstraints: bool
    var paddingLinks: seq<PaddingLink>
    var paddingConstants: seq<real>

    /** The content colour is on every label and on the indicator. */
    ghost predicate ColorsApplied(c: Color)
      reads this`labelColor, this`detailsLabelColor, this`buttonTitleColor, this`indicator
    {
      labelColor == c && detailsLabelColor == c && buttonTitleColor == c && Tinted(indicator, c)
    }

    /** Everything `Valid` asks except that the indicator agrees with the mode,
        which a mode or custom view change breaks until `updateIndicators` runs. */
    ghost predicate ValidUpToIndicator()
      reads this`indicator, this`nextViewId, this`contentColor, this`labelColor,
            this`detailsLabelColor, this`buttonTitleColor, this`paddingLinks, this`paddingConstants
    {
      && BuiltBelow(indicator, nextViewId)
      && ColorsApplied(contentColor)
      && |paddingConstants| == |paddingLinks|
    }

    ghost predicate Valid()
      reads this`indicator, this`nextViewId, this`contentColor, this`labelColor,
            this`detailsLabelColor, this`buttonTitleColor, this`paddingLinks, this`paddingConstants,
            this`mode, this`customView
    {
      && ValidUpToIndicator()
      && ModeMatches(mode, indicator, customView)
    }

    /** `init(frame:)` with `commonInit`: invisible, indeterminate, with a spinner. */
    constructor ()
      ensures Valid()
      ensures graceTime == 0.0 && minShowTime == 0.0
      ensures !removeFromSuperViewOnHide && !hasCompletionBlock && !hasDelegate
      ensures mode == Indeterminate && contentColor == DefaultContentColor && progress == 0.0
      ensures progressObject == None && !polling && customView == None
      ensures indicator == Activity(0, DefaultContentColor) && nextViewId == 1
      ensures !isUseAnimation && !isFinished && showStarted == None && alpha == 0.0 && superview == null
      ensures graceTimer == NoTimers && minShowTimer == NoTimers && hideDelayTimer == NoTimers
      ensures teardowns == []
      ensures needsUpdateConstraints && paddingLinks == [] && paddingConstants == []
    {
      graceTime, minShowTime := 0.0, 0.0;
      removeFromSuperViewOnHide, hasCompletionBlock, hasDelegate := false, false, false;
      mode, contentColor, progress := Indeterminate, DefaultContentColor, 0.0;
      progressObject, polling, customView := None, false, None;
      indicator, nextViewId := NoIndicator, 0;
      labelColor, detailsLabelColor, buttonTitleColor := DefaultContentColor, DefaultContentColor, DefaultContentColor;
      isUseAnimation, isFinished, showStarted, alpha, superview := false, false, None, 0.0, null;
      graceTimer, minShowTimer, hideDelayTimer := NoTimers, NoTimers, NoTimers;
      teardowns := [];
      needsUpdateConstraints, paddingLinks, paddingConstants := false, [], [];
      new;
      UpdateIndicators();
    }

    // ---------------------------------------------------------------- appearance

    /** `mode` setter. */
    method SetMode(newValue: Mode)
      requires Valid()
      modifies this`mode, this`indicator, this`nextViewId, this`labelColor, this`detailsLabelColor,
               this`buttonTitleColor, this`needsUpdateConstraints
      ensures Valid() && mode == newValue
      ensures newValue == old(mode) ==> unchanged(this)
      ensures newValue != old(mode) ==>
        && indicator == Substitute(newValue, old(indicator), customView, progress, contentColor, old(nextViewId))
        && nextViewId == old(nextViewId) + 1 && needsUpdateConstraints
    {
      if newValue != mode {
        mode := newValue;
        UpdateIndicators();
      }
    }

    /** `customView` setter: the indicator is swapped only in custom-view mode. */
    method SetCustomView(newValue: Option<ViewRef>)
      requires Valid()
      modifies this`customView, this`indicator, this`nextViewId, this`labelColor, this`detailsLabelColor,
               this`buttonTitleColor, this`needsUpdateConstraints
      ensures Valid() && customView == newValue
      ensures newValue == old(customView) || mode != CustomView ==>
        indicator == old(indicator) && nextViewId == old(nextViewId) &&
        needsUpdateConstraints == old(needsUpdateConstraints)
      ensures newValue != old(customView) && mode == CustomView ==>
        && indicator == Substitute(CustomView, old(indicator), newValue, progress, contentColor, old(nextViewId))
        && nextViewId == old(nextViewId) + 1 && needsUpdateConstraints
    {
      if newValue != customView {
        customView := newValue;
        if mode == CustomView {
          UpdateIndicators();
        }
      }
    }

    /** `contentColor` setter. */
    method SetContentColor(newValue: Color)
      requires Valid()
      modifies this`contentColor, this`labelColor, this`detailsLabelColor, this`buttonTitleColor, this`indicator
      ensures Valid() && contentColor == newValue
      ensures Identity(indicator) == Identity(old(indicator))
      ensures ShownProgress(indicator) == ShownProgress(old(indicator))
      ensures newValue != old(contentColor) ==> indicator == Recolor(old(indicator), newValue)
      ensures newValue == old(contentColor) ==> unchanged(this)
    {
      if newValue != contentColor {
        contentColor := newValue;
        UpdateViewsForColor(newValue);
      }
    }

    /** `progress` setter. A changed value is forwarded to an indicator that takes
        it; with no indicator mounted the force-unwrapped probe traps, after the
        new value has been stored. */
    method SetProgress(newValue: real) returns (trapped: bool)
      requires Valid()
      modifies this`progress, this`indicator
      ensures Valid() && progress == newValue
      ensures trapped <==> newValue != old(progress) && old(indicator).NoIndicator?
      ensures trapped ==> mode == Text || (mode == CustomView && customView == None)
      ensures newValue == old(progress) || trapped ==> indicator == old(indicator)
      ensures newValue != old(progress) ==> indicator == ForwardProgress(old(indicator), newValue)
    {
      trapped := false;
      if newValue != progress {
        progress := newValue;
        if indicator.NoIndicator? {
          trapped := true;
          return;
        }
        if AcceptsProgress(indicator) {
          indicator := ForwardProgress(indicator, progress);
        }
      }
    }

    /** `progressObject` setter: polling is (re)started for a new object and
        stopped when the object is cleared. */
    method SetProgressObject(newValue: Option<ProgressSource>)
      modifies this`progressObject, this`polling
      ensures progressObject == newValue
      ensures newValue != old(progressObject) ==> polling == newValue.Some?
      ensures newValue == old(progressObject) ==> polling == old(polling)
    {
      if newValue != progressObject {
        progressObject := newValue;
        SetNSProgressDisplayLinkEnabled(true);
      }
    }

    /** `setNSProgressDisplayLinkEnabled`: polling runs exactly when asked for and
        there is a progress object; an existing display link is kept. */
    method SetNSProgressDisplayLinkEnabled(enabled: bool)
      modifies this`polling
      ensures polling == (enabled && progressObject.Some?)
    {
      if enabled && progressObject.Some? {
        if !polling {
          polling := true;
        }
      } else {
        polling := false;
      }
    }

    /** One display-link frame: the progress object's completed fraction, read by
        the caller, goes through the `progress` setter. */
    method UpdateProgressFromProgressObject(fractionCompleted: real) returns (trapped: bool)
      requires Valid() && polling
      modifies this`progress, this`indicator
      ensures Valid() && progress == fractionCompleted
      ensures trapped <==> fractionCompleted != old(progress) && old(indicator).NoIndicator?
      ensures fractionCompleted == old(progress) || trapped ==> indicator == old(indicator)
      ensures fractionCompleted != old(progress) ==> indicator == ForwardProgress(old(indicator), fractionCompleted)
    {
      trapped := SetProgress(fractionCompleted);
    }

    /** `updateIndicators`: swap the indicator to match the mode, forward the
        progress to it, and re-apply the content colour. */
    method UpdateIndicators()
      requires ValidUpToIndicator()
      modifies this`indicator, this`nextViewId, this`labelColor, this`detailsLabelColor,
               this`buttonTitleColor, this`needsUpdateConstraints
      ensures Valid()
      ensures indicator == Substitute(mode, old(indicator), customView, progress, contentColor, old(nextViewId))
      ensures nextViewId == old(nextViewId) + 1
      ensures needsUpdateConstraints
    {
      var newId := nextViewId;
      nextViewId := nextViewId + 1;
      MountForMode(newId);
      if AcceptsProgress(indicator) {
        indicator := ForwardProgress(indicator, progress);
      }
      UpdateViewsForColor(contentColor);
      assert indicator == Substitute(mode, old(indicator), customView, progress, contentColor, newId);
      needsUpdateConstraints := true;
    }

    /** The mode switch at the start of `updateIndicators`: keep or build the view
        the mode calls for; a view built here is numbered `newId`. */
    method MountForMode(newId: nat)
      modifies this`indicator
      ensures indicator == Mounted(mode, old(indicator), customView, newId)
    {
      var isActivityIndicator := indicator.Activity?;
      var isRoundIndicator := indicator.Round?;
      if mode == Indeterminate {
        if !isActivityIndicator {
          indicator := NewActivity(newId);
        }
      } else if mode == DeterminateHorizontalBar {
        indicator := NewBar(newId);
      } else if mode == Determinate || mode == AnnularDeterminate {
        if !isRoundIndicator {
          indicator := NewRound(newId);
        }
        if mode == AnnularDeterminate {
          indicator := indicator.(annular := true);
        }
      } else if mode == CustomView && !IsMounted(customView, indicator) {
        indicator := if customView.Some? then Custom(customView.value, None, None) else NoIndicator;
      } else if mode == Text {
        indicator := NoIndicator;
      }
    }

    /** `updateViewsForColor`: the labels' and the button's text colours, and the
        colours of whichever indicator is mounted. */
    method UpdateViewsForColor(color: Color)
      modifies this`labelColor, this`detailsLabelColor, this`buttonTitleColor, this`indicator
      ensures ColorsApplied(color)
      ensures indicator == Recolor(old(indicator), color)
    {
      labelColor := color;
      detailsLabelColor := color;
      buttonTitleColor := color;
      if indicator.Activity? {
        indicator := indicator.(color := color);
      } else if indicator.Round? {
        indicator := indicator.(progressTintColor := color, backgroundTintColor := WithAlphaComponent(color, 0.1));
      } else if indicator.Bar? {
        indicator := indicator.(progressColor := color, lineColor := color);
      } else if indicator.Custom? {
        indicator := indicator.(tintColor := Some(color));
      }
    }

    // ----------------------------------------------------------- show and hide

    /** The state `showUsingAnimation` leaves: the delayed hide the property refers
        to cancelled (earlier, unreferenced ones stay pending), shown since `now`,
        fully opaque, polling resumed if there is a source. */
    twostate predicate ShownAt(now: real)
      reads this
    {
      && hideDelayTimer == Invalidate(old(hideDelayTimer))
      && showStarted == Some(now)
      && alpha == 1.0
      && polling == progressObject.Some?
    }

    /** The state `done` leaves, given the delayed-hide slot just before it ran:
        the HUD is made transparent and detached only when a hide was requested
        (and, for detaching, `removeFromSuperViewOnHide` is set); the completion
        block and the delegate run once per teardown in every case. */
    twostate predicate TornDown(host: Host?, delayed: TimerSlot)
      reads this, host
    {
      && hideDelayTimer == Invalidate(delayed)
      && !polling
      && alpha == (if isFinished then 0.0 else old(alpha))
      && teardowns == old(teardowns) + [Teardown(hasCompletionBlock, hasDelegate)]
      && if isFinished && removeFromSuperViewOnHide then
           superview == null && (host != null ==> host.subviews == Without(old(host.subviews), this))
         else
           superview == old(superview) && (host != null ==> host.subviews == old(host.subviews))
    }

    /** `hideAnimated` postpones the teardown when the HUD has been shown for less
        than the minimum show time. */
    predicate MinShowPending(started: Option<real>, now: real)
      reads this`minShowTime
    {
      minShowTime > 0.0 && started.Some? && now - started.value < minShowTime
    }

    /** The state `hideAnimated(animated)` leaves at time `now`, given the host and
        the delayed-hide slot it started from. */
    twostate predicate HideRequested(animated: bool, now: real, host: Host?, delayed: TimerSlot)
      reads this, host
    {
      && graceTimer == Invalidate(old(graceTimer))
      && isUseAnimation == animated && isFinished
      && if MinShowPending(old(showStarted), now) then
           && minShowTimer == Replace(old(minShowTimer), Timer(minShowTime - (now - old(showStarted).value), false))
           && showStarted == old(showStarted) && hideDelayTimer == delayed && polling == old(polling)
           && alpha == old(alpha) && teardowns == old(teardowns) && superview == old(superview)
           && (host != null ==> host.subviews == old(host.subviews))
         else
           && minShowTimer == old(minShowTimer) && showStarted == None
           && TornDown(host, delayed)
    }

    /** `showAnimated`: with a grace time only the grace timer is armed; otherwise
        the HUD is shown at once. Either way a pending minimum-show hide is
        cancelled and the HUD counts as running again. */
    method ShowAnimated(animated: bool, now: real)
      modifies this`minShowTimer, this`isUseAnimation, this`isFinished, this`graceTimer,
               this`hideDelayTimer, this`showStarted, this`alpha, this`polling
      ensures minShowTimer == Invalidate(old(minShowTimer))
      ensures isUseAnimation == animated && !isFinished
      ensures graceTime > 0.0 ==>
        && graceTimer == Replace(old(graceTimer), Timer(graceTime, false))
        && hideDelayTimer == old(hideDelayTimer) && showStarted == old(showStarted)
        && alpha == old(alpha) && polling == old(polling)
      ensures graceTime <= 0.0 ==> graceTimer == old(graceTimer) && ShownAt(now)
    {
      minShowTimer := Invalidate(minShowTimer);
      isUseAnimation := animated;
      isFinished := false;
      if graceTime > 0.0 {
        graceTimer := Replace(graceTimer, Timer(graceTime, false));
      } else {
        ShowUsingAnimation(isUseAnimation, now);
      }
    }

    /** `hideAnimated`: the grace timer is cancelled and the HUD counts as finished;
        the teardown runs now unless the minimum show time has not yet passed, in
        which case the minimum-show timer is armed for the time that remains. */
    method HideAnimated(animated: bool, now: real)
      modifies this`graceTimer, this`isUseAnimation, this`isFinished, this`minShowTimer,
               this`showStarted, this`hideDelayTimer, this`polling, this`alpha, this`superview,
               this`teardowns, superview
      ensures HideRequested(animated, now, old(superview), old(hideDelayTimer))
    {
      graceTimer := Invalidate(graceTimer);
      isUseAnimation := animated;
      isFinished := true;
      if minShowTime > 0.0 && showStarted.Some? {
        var interv := now - showStarted.value;
        if interv < minShowTime {
          minShowTimer := Replace(minShowTimer, Timer(minShowTime - interv, false));
          return;
        }
      }
      HideUsingAnimation(isUseAnimation);
    }

    /** `hideAnimated(_:afterDelay:)` as written: the delayed-hide property is
        reassigned without invalidating the timer it referred to, which therefore
        still fires. */
    method HideAfterDelay(animated: bool, delay: real)
      modifies this`hideDelayTimer
      ensures hideDelayTimer == Replace(old(hideDelayTimer), Timer(delay, animated))
    {
      hideDelayTimer := Replace(hideDelayTimer, Timer(delay, animated));
    }

    /** `hideAnimated(_:afterDelay:)` with the earlier request cancelled first, so
        that only the latest delayed hide is pending. */
    method HideAfterDelayReplacing(animated: bool, delay: real)
      modifies this`hideDelayTimer
      ensures hideDelayTimer == Replace(Invalidate(old(hideDelayTimer)), Timer(delay, animated))
    {
      hideDelayTimer := Invalidate(hideDelayTimer);
      hideDelayTimer := Replace(hideDelayTimer, Timer(delay, animated));
    }

    /** The run loop fires a grace timer (`handleGraceTimer`): the HUD appears only
        if no hide was requested meanwhile. */
    method FireGraceTimer(f: Firing, now: real)
      requires CanFire(graceTimer, f)
      modifies this`graceTimer, this`hideDelayTimer, this`showStarted, this`alpha, this`polling
      ensures graceTimer == AfterFiring(old(graceTimer), f)
      ensures isFinished ==>
        hideDelayTimer == old(hideDelayTimer) && showStarted == old(showStarted) &&
        alpha == old(alpha) && polling == old(polling)
      ensures !isFinished ==> ShownAt(now)
    {
      graceTimer := AfterFiring(graceTimer, f);
      if !isFinished {
        ShowUsingAnimation(isUseAnimation, now);
      }
    }

    /** The run loop fires a minimum-show timer (`handleMinShowTimer`): teardown. */
    method FireMinShowTimer(f: Firing)
      requires CanFire(minShowTimer, f)
      modifies this`minShowTimer, this`showStarted, this`hideDelayTimer, this`polling, this`alpha,
               this`superview, this`teardowns, superview
      ensures minShowTimer == AfterFiring(old(minShowTimer), f)
      ensures showStarted == None && TornDown(old(superview), old(hideDelayTimer))
    {
      minShowTimer := AfterFiring(minShowTimer, f);
      HideUsingAnimation(isUseAnimation);
    }

    /** The run loop fires a delayed-hide timer (`handleHideTimer`): `hideAnimated`
        with the flag the timer carries. */
    method FireHideDelayTimer(f: Firing, now: real)
      requires CanFire(hideDelayTimer, f)
      modifies this`graceTimer, this`isUseAnimation, this`isFinished, this`minShowTimer,
               this`showStarted, this`hideDelayTimer, this`polling, this`alpha, this`superview,
               this`teardowns, superview
      ensures HideRequested(Fired(old(hideDelayTimer), f).animated, now, old(superview),
                            AfterFiring(old(hideDelayTimer), f))
    {
      var timer := Fired(hideDelayTimer, f);
      hideDelayTimer := AfterFiring(hideDelayTimer, f);
      HideAnimated(timer.animated, now);
    }

    /** `showUsingAnimation`; the fade-in itself is not modelled. */
    method ShowUsingAnimation(animated: bool, now: real)
      modifies this`hideDelayTimer, this`showStarted, this`alpha, this`polling
      ensures ShownAt(now)
    {
      hideDelayTimer := Invalidate(hideDelayTimer);
      showStarted := Some(now);
      alpha := 1.0;
      SetNSProgressDisplayLinkEnabled(true);
    }

    /** `hideUsingAnimation`: the animated and the immediate path both clear the
        show time and end in `done`; here `done` runs at once on both. */
    method HideUsingAnimation(animated: bool)
      modifies this`showStarted, this`hideDelayTimer, this`polling, this`alpha, this`superview,
               this`teardowns, superview
      ensures showStarted == None
      ensures TornDown(old(superview), old(hideDelayTimer))
    {
      showStarted := None;
      Done();
    }

    /** `done`. */
    method Done()
      modifies this`hideDelayTimer, this`polling, this`alpha, this`superview, this`teardowns, superview
      ensures TornDown(old(superview), old(hideDelayTimer))
    {
      hideDelayTimer := Invalidate(hideDelayTimer);
      SetNSProgressDisplayLinkEnabled(false);
      if isFinished {
        alpha := 0.0;
        if removeFromSuperViewOnHide {
          RemoveFromSuperview();
        }
      }
      teardowns := teardowns + [Teardown(hasCompletionBlock, hasDelegate)];
    }

    /** `removeFromSuperview`. */
    method RemoveFromSuperview()
      modifies this`superview, superview
      ensures superview == null
      ensures old(superview) != null ==> old(superview).subviews == Without(old(superview.subviews), this)
    {
      if superview != null {
        superview.subviews := Without(superview.subviews, this);
        superview := null;
      }
    }

    // ------------------------------------------------------------------ layout

    /** `updateConstraints`, padding part: one padding link per pair of
        neighbouring children, each padding then set by the visibility rule. */
    method UpdateConstraints(v: Visibility)
      requires Valid()
      modifies this`paddingLinks, this`paddingConstants, this`needsUpdateConstraints
      ensures Valid() && !needsUpdateConstraints
      ensures LinksNeighbours(paddingLinks, ChildList(!indicator.NoIndicator?))
      ensures forall k :: 0 <= k < |paddingLinks| ==> paddingConstants[k] == PaddingConstant(paddingLinks, v, k)
    {
      var subview := ChildList(!indicator.NoIndicator?);
      var links: seq<PaddingLink> := [];
      var constants: seq<real> := [];
      var index := 0;
      while index < |subview|
        invariant 0 <= index <= |subview|
        invariant |links| == |constants| == if index == 0 then 0 else index - 1
        invariant forall k :: 0 <= k < |links| ==> links[k] == PaddingLink(subview[k + 1], subview[k])
      {
        if index > 0 {
          links := links + [PaddingLink(subview[index], subview[index - 1])];
          constants := constants + [0.0];
        }
        index := index + 1;
      }
      paddingLinks := links;
      paddingConstants := constants;
      UpdatePaddingConstraints(v);
      needsUpdateConstraints := false;
    }

    /** `layoutSubviews`: the paddings are refreshed unless a full constraint
        update is pending anyway. */
    method LayoutSubviews(v: Visibility)
      requires Valid()
      modifies this`paddingConstants
      ensures Valid()
      ensures needsUpdateConstraints ==> paddingConstants == old(paddingConstants)
      ensures !needsUpdateConstraints ==>
        forall k :: 0 <= k < |paddingLinks| ==> paddingConstants[k] == PaddingConstant(paddingLinks, v, k)
    {
      if !needsUpdateConstraints {
        UpdatePaddingConstraints(v);
      }
    }

    /** `updatePaddingConstraints`: one pass over the padding links with a running
        flag that records whether a visible view has been passed. */
    method UpdatePaddingConstraints(v: Visibility)
      requires Valid()
      modifies this`paddingConstants
      ensures Valid()
      ensures forall k :: 0 <= k < |paddingLinks| ==> paddingConstants[k] == PaddingConstant(paddingLinks, v, k)
    {
      var hasVisibleAncestors := false;
      var i := 0;
      while i < |paddingLinks|
        invariant 0 <= i <= |paddingLinks| == |paddingConstants|
        invariant hasVisibleAncestors == exists j :: 0 <= j < i && Visible(paddingLinks[j].second, v)
        invariant forall k :: 0 <= k < i ==> paddingConstants[k] == PaddingConstant(paddingLinks, v, k)
      {
        var padding := paddingLinks[i];
        var firstVisible := Visible(padding.first, v);
        var secondVisible := Visible(padding.second, v);
        var constant := if firstVisible && (secondVisible || hasVisibleAncestors) then DefaultPadding else 0.0;
        paddingConstants := paddingConstants[i := constant];
        hasVisibleAncestors := NextAncestorFlag(secondVisible, hasVisibleAncestors);
        i := i + 1;
      }
    }
  }

  // ---------------------------------------------------------- class functions

  /** `HUD(view:)`: the host's children, newest first, up to the first HUD that
      has not been asked to hide. */
  method FindHud(host: Host) returns (r: Option<Hud>)
    ensures r == LastLiveHud(host.subviews)
  {
    var subviews := host.subviews;
    var i := |subviews|;
    assert subviews[..i] == subviews;
    while i > 0
      invariant 0 <= i <= |subviews|
      invariant LastLiveHud(subviews) == LastLiveHud(subviews[..i])
    {
      var subView := subviews[i - 1];
      if subView.HudView? && !subView.hud.isFinished {
        assert subviews[..i][i - 1] == subView;
        return Some(subView.hud);
      }
      assert subviews[..i][..i - 1] == subviews[..i - 1];
      i := i - 1;
    }
    assert subviews[..0] == [];
    r := None;
  }

  /** `hideHUD(view:animated:)`: hides the HUD `HUD(view:)` finds, after marking it
      to leave the host; reports whether there was one. */
  method HideHud(host: Host, animated: bool, now: real) returns (found: bool)
    requires WellParented(host)
    modifies host, HudsIn(host.subviews)`removeFromSuperViewOnHide, HudsIn(host.subviews)`graceTimer,
             HudsIn(host.subviews)`isUseAnimation, HudsIn(host.subviews)`isFinished,
             HudsIn(host.subviews)`minShowTimer, HudsIn(host.subviews)`showStarted,
             HudsIn(host.subviews)`hideDelayTimer, HudsIn(host.subviews)`polling, HudsIn(host.subviews)`alpha,
             HudsIn(host.subviews)`superview, HudsIn(host.subviews)`teardowns
    ensures found == old(LastLiveHud(host.subviews)).Some?
    ensures !found ==> unchanged(host) && unchanged(old(HudsIn(host.subviews)))
    ensures found ==>
      var hud := old(LastLiveHud(host.subviews)).value;
      && hud.removeFromSuperViewOnHide
      && hud.HideRequested(animated, now, host, old(LastLiveHud(host.subviews).value.hideDelayTimer))
      && forall h :: h in old(HudsIn(host.subviews)) && h != hud ==> unchanged(h)
  {
    var hud := FindHud(host);
    if hud.Some? {
      var h := hud.value;
      LastLiveHudFound(host.subviews);
      assert h in HudsIn(host.subviews);
      h.removeFromSuperViewOnHide := true;
      h.HideAnimated(animated, now);
      return true;
    }
    return false;
  }

  /** `showHUD(view:animated:)`: a new HUD, marked to leave the host when hidden,
      added as the host's top child and shown. */
  method ShowHud(host: Host, animated: bool, now: real) returns (hud: Hud)
    modifies host
    ensures fresh(hud) && hud.Valid()
    ensures host.subviews == old(host.subviews) + [HudView(hud)]
    ensures hud.superview == host && hud.removeFromSuperViewOnHide
    ensures !hud.isFinished && hud.isUseAnimation == animated
    ensures hud.showStarted == Some(now) && hud.alpha == 1.0 && !hud.polling
    ensures hud.mode == Indeterminate && hud.indicator.Activity? && hud.progress == 0.0
    ensures hud.graceTimer == NoTimers && hud.minShowTimer == NoTimers && hud.hideDelayTimer == NoTimers
    ensures hud.teardowns == [] && hud.graceTime == 0.0 && hud.minShowTime == 0.0
  {
    hud := new Hud();
    hud.removeFromSuperViewOnHide := true;
    host.subviews := host.subviews + [HudView(hud)];
    hud.superview := host;
    hud.ShowAnimated(animated, now);
  }
}
