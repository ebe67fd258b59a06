# DKProgressViewHUD: the HUD's control logic, in Dafny

`DKProgressViewHUD` is a Swift port of MBProgressHUD. It is a view added on top of
a host view to show an activity spinner, a round or bar progress view, a custom
view or text alone, together with a label, a details label and a button. This
project models the control logic of the `DKProgressViewHUD` class and proves
properties of that model. The model covers four parts:

- **The show/hide state machine.** `showAnimated`, `hideAnimated` and
  `hideAnimated(_:afterDelay:)` drive three one-shot timers (grace, minimum show
  time, delayed hide) and end in the teardown `done`. The current time is a
  parameter `now` instead of `Date()`. A run-loop timer firing is an explicit
  method call that names which pending timer fires.
- **Timer slots.** Each timer role is a `TimerSlot`: the timer the property refers
  to, plus the timers that are still scheduled but no longer referred to. Swift
  assigns a new timer to the property without invalidating the old one, and the
  old one then still fires. The slot makes that visible (`Timers.Scheduled`).
- **Mode and indicator substitution.** The `mode`, `customView`, `progress` and
  `contentColor` setters, `updateIndicators` and `updateViewsForColor`. The
  mounted indicator is a tagged union, `Indicators.Indicator`. The views the HUD
  builds carry a build number, so the contracts can say whether a view was reused
  or freshly built. The class invariant `Hud.Valid` includes that the mounted
  indicator agrees with the mode (`Indicators.ModeMatches`), which every setter
  keeps.
- **Layout padding and lookup.** The padding rule of `updatePaddingConstraints`
  runs over the child list built in `updateConstraints`. `HUD(view:)`,
  `hideHUD(view:animated:)` and `showHUD(view:animated:)` search and update a
  host's list of children.

Files:

- `basics.dfy`: shared value types (colours as opaque tokens, modes, caller views).
- `timers.dfy`: timer slots, replace, invalidate and firing.
- `indicators.dfy`: the indicator union and the substitution rule as functions.
- `layout.dfy`: the child list, padding links and the padding rule.
- `hud.dfy`: `class Hud`, with the source's fields and one method per modelled
  source method, plus `class Host` and the class functions.
- `scenarios.dfy`: call sequences on fresh HUDs, with what a caller observes.

Three behaviours of the code may surprise a caller. The model follows the code:

- Hiding during the grace period tears the HUD down immediately. `hideAnimated`
  invalidates the grace timer, so the timer never fires and the HUD is never
  shown, as the `graceTime` comment promises (`DKProgressViewHUD.swift` lines 466-470); the teardown, with
  its completion block, runs at the hide, not when the grace period would end.
- Hiding twice runs the teardown twice. Nothing guards `done` against a second
  run, so the completion block and the delegate are called once per teardown
  (`Scenarios.HideTwice`).
- A new delayed hide does not cancel the earlier one, although `showUsingAnimation`
  and `done` both invalidate the delayed-hide timer, with comments saying this
  cancels pending delayed hides (`DKProgressViewHUD.swift` lines 874 and 939).
  See Findings.

## Model

| member | source | states |
|---|---|---|
| Timers.Replace | DKProgressViewHUD/DKProgressViewHUD.swift:811-813 | after scheduling a timer and assigning it to the role's property, the property refers to the new timer |
| Timers.ReplaceKeepsPending | DKProgressViewHUD/DKProgressViewHUD.swift:841-843 | assigning without invalidating adds exactly the new timer to the pending ones; the timer referred to before is still pending |
| Timers.Invalidate | DKProgressViewHUD/DKProgressViewHUD.swift:807 | `invalidate` leaves the property with no pending timer and leaves the unreferenced timers pending |
| Timers.InvalidateCancelsCurrent | DKProgressViewHUD/DKProgressViewHUD.swift:822 | invalidating removes exactly the referred timer from the pending ones |
| Timers.AfterFiring | DKProgressViewHUD/DKProgressViewHUD.swift:847-860 | a one-shot timer is gone once fired: firing the referred timer clears the reference, and firing an unreferenced one removes it from that list |
| Timers.FiringConsumes | DKProgressViewHUD/DKProgressViewHUD.swift:847-860 | a firing timer was pending, and exactly that timer leaves the pending ones |
| Timers.InvalidateThenReplace | DKProgressViewHUD/DKProgressViewHUD.swift:840-844 | invalidate-then-assign leaves exactly the new timer pending besides the timers that were already unreferenced |
| Indicators.ForwardProgress | DKProgressViewHUD/DKProgressViewHUD.swift:1072-1077 | `setValue(progress, forKey:)` reaches only a view that responds to `progress`, which then shows the value; the view's identity, tint and annular flag are kept |
| Indicators.Recolor | DKProgressViewHUD/DKProgressViewHUD.swift:1090-1114 | after the colour pass the indicator carries the content colour in its kind's fields (background tint at one-tenth alpha for the round view), with identity and progress unchanged |
| Indicators.Substitute | DKProgressViewHUD/DKProgressViewHUD.swift:1033-1083 | the indicator after `updateIndicators`: a spinner for indeterminate (the mounted one if any), always a new bar, a round view for determinate/annular (the mounted one if any, annular set by annular mode and never cleared), the caller's view for custom mode (kept if already mounted), nothing for text; it shows the HUD's progress if it accepts one and carries the content colour, so the indicator agrees with the mode (`ModeMatches`) |
| Indicators.NoIndicatorOnlyWithoutView | DKProgressViewHUD/DKProgressViewHUD.swift:1036-1071 | with the indicator agreeing with the mode, no indicator is mounted exactly in text mode and in custom-view mode without a custom view |
| Indicators.AnnularSticks | DKProgressViewHUD/DKProgressViewHUD.swift:1051-1060 | going from annular back to determinate reuses the same round view with `annular` still set |
| Indicators.RoundRebuiltAfterLeaving | DKProgressViewHUD/DKProgressViewHUD.swift:1036-1060 | determinate, then a mode that unmounts the round view, then determinate again: the new round view is a newly built one, different from the original, and not annular |
| Layout.ChildList | DKProgressViewHUD/DKProgressViewHUD.swift:1156-1159 | the children are top spacer, indicator (only when one is mounted, at index 1), label, details label, button, bottom spacer |
| Layout.NextAncestorFlag | DKProgressViewHUD/DKProgressViewHUD.swift:1266-1270 | the running flag becomes the disjunction of "second view visible" and its old value, so it never goes from true to false |
| Layout.PaddingConstant | DKProgressViewHUD/DKProgressViewHUD.swift:1265 | every padding constant is either the default gap 4 or 0 |
| Layout.PaddingRule | DKProgressViewHUD/DKProgressViewHUD.swift:1255-1272 | the padding above child k+1 is the gap exactly when child k+1 is visible and child k or an earlier child is visible |
| Layout.NoPaddingUnlessBothSides | DKProgressViewHUD/DKProgressViewHUD.swift:1265 | no padding above a hidden child, nor above the first visible child |
| Layout.OneGapAcrossHidden | DKProgressViewHUD/DKProgressViewHUD.swift:1255-1272 | between two visible children with only hidden children between them, the paddings add up to exactly one gap |
| ProgressHud.Without | DKProgressViewHUD/DKProgressViewHUD.swift:946-948 | after `removeFromSuperview` the HUD is no longer among the host's children, every other child stays, and nothing changes if it was not there |
| ProgressHud.LastLiveHudFound | DKProgressViewHUD/DKProgressViewHUD.swift:762-772 | the lookup finds nothing exactly when no child is an unfinished HUD; otherwise it finds an unfinished HUD child after which no unfinished HUD follows |
| ProgressHud.FindHud | DKProgressViewHUD/DKProgressViewHUD.swift:762-772 | the reverse scan with early return yields the last unfinished HUD among the host's children |
| ProgressHud.HideHud | DKProgressViewHUD/DKProgressViewHUD.swift:752-760 | returns true exactly when a HUD is found; that HUD is marked to leave the host and hidden, and no other HUD changes; without one nothing changes |
| ProgressHud.ShowHud | DKProgressViewHUD/DKProgressViewHUD.swift:744-750 | a new HUD marked to leave the host on hide, appended as the host's last child, and shown at once (no grace time by default) in indeterminate mode |
| ProgressHud.Hud.constructor | DKProgressViewHUD/DKProgressViewHUD.swift:790-797 | a new HUD is transparent, indeterminate, with a spinner carrying the default content colour, no timers, no teardowns and a constraint update pending |
| ProgressHud.Hud.SetMode | DKProgressViewHUD/DKProgressViewHUD.swift:493-502 | setting the current mode changes nothing; a new mode is stored and the indicator becomes the substitution for it |
| ProgressHud.Hud.SetCustomView | DKProgressViewHUD/DKProgressViewHUD.swift:681-692 | a new custom view is stored and remounted only in custom-view mode; otherwise the indicator is untouched |
| ProgressHud.Hud.SetContentColor | DKProgressViewHUD/DKProgressViewHUD.swift:511-520 | a new colour reaches the labels and the button, and the indicator becomes the old one recoloured (same kind, identity, progress and annular flag); the same colour changes nothing |
| ProgressHud.Hud.SetProgress | DKProgressViewHUD/DKProgressViewHUD.swift:616-627 | a changed value is stored and forwarded to the indicator; with no indicator the force-unwrap traps after storing, which can only happen in text mode or in custom-view mode without a custom view; an unchanged value does nothing |
| ProgressHud.Hud.SetProgressObject | DKProgressViewHUD/DKProgressViewHUD.swift:635-644 | a different progress object is stored and polling then runs exactly when there is one; the same object changes nothing |
| ProgressHud.Hud.SetNSProgressDisplayLinkEnabled | DKProgressViewHUD/DKProgressViewHUD.swift:647-658 | polling runs exactly when enabled and a progress object is set |
| ProgressHud.Hud.UpdateProgressFromProgressObject | DKProgressViewHUD/DKProgressViewHUD.swift:660-662 | a display-link frame sets the progress to the object's completed fraction through the setter: a changed fraction is forwarded to the indicator (or traps with none mounted), an unchanged one leaves the indicator as it was |
| ProgressHud.Hud.UpdateIndicators | DKProgressViewHUD/DKProgressViewHUD.swift:1033-1083 | the indicator becomes the substitution for the current mode, colours are re-applied, and the invariant holds again, including that the indicator agrees with the mode; a constraint update is requested |
| ProgressHud.Hud.MountForMode | DKProgressViewHUD/DKProgressViewHUD.swift:1034-1071 | the mode switch of `updateIndicators` leaves exactly the view `Mounted` prescribes: the spinner or round view kept when one is mounted, otherwise a view built with the given number, the caller's view in custom-view mode, nothing in text mode |
| ProgressHud.Hud.UpdateViewsForColor | DKProgressViewHUD/DKProgressViewHUD.swift:1085-1117 | both labels and the button title take the colour, and the indicator is recoloured by its kind |
| ProgressHud.Hud.ShowAnimated | DKProgressViewHUD/DKProgressViewHUD.swift:805-818 | the min-show timer is cancelled and the HUD is running again; with a grace time only the grace timer is armed (nothing else changes), otherwise the HUD is shown at once |
| ProgressHud.Hud.HideAnimated | DKProgressViewHUD/DKProgressViewHUD.swift:820-838 | the grace timer is cancelled and the HUD is finished; if shown for less than the minimum show time, a min-show timer is armed for the remaining time and nothing else changes; otherwise the teardown runs at once |
| ProgressHud.Hud.HideAfterDelay | DKProgressViewHUD/DKProgressViewHUD.swift:840-844 | the delayed-hide timer is scheduled and assigned without invalidating the earlier one |
| ProgressHud.Hud.HideAfterDelayReplacing | DKProgressViewHUD/DKProgressViewHUD.swift:840-844 | corrected: the earlier delayed hide is invalidated before the new one is assigned |
| ProgressHud.Hud.FireGraceTimer | DKProgressViewHUD/DKProgressViewHUD.swift:847-852 | the fired grace timer is consumed; the HUD is shown only if no hide was requested, and otherwise nothing changes |
| ProgressHud.Hud.FireMinShowTimer | DKProgressViewHUD/DKProgressViewHUD.swift:854-856 | the fired min-show timer is consumed, the show time is cleared and the teardown runs |
| ProgressHud.Hud.FireHideDelayTimer | DKProgressViewHUD/DKProgressViewHUD.swift:858-860 | the fired delayed-hide timer is consumed and `hideAnimated` runs with the flag that timer carries |
| ProgressHud.Hud.ShowUsingAnimation | DKProgressViewHUD/DKProgressViewHUD.swift:870-889 | the delayed hide the property refers to is cancelled (earlier, unreferenced ones stay pending), the show time is `now`, alpha is 1 and polling resumes if a progress object is set |
| ProgressHud.Hud.HideUsingAnimation | DKProgressViewHUD/DKProgressViewHUD.swift:891-903 | the show time is cleared and the teardown runs |
| ProgressHud.Hud.Done | DKProgressViewHUD/DKProgressViewHUD.swift:938-955 | the delayed hide the property refers to is cancelled (earlier, unreferenced ones stay pending) and polling stops; alpha becomes 0 only for a finished HUD, which leaves its host only if marked to; one completion/delegate notification is recorded |
| ProgressHud.Hud.RemoveFromSuperview | DKProgressViewHUD/DKProgressViewHUD.swift:946-948 | the HUD has no superview and its former host no longer lists it |
| ProgressHud.Hud.UpdateConstraints | DKProgressViewHUD/DKProgressViewHUD.swift:1154-1246 | one padding link per pair of neighbouring children, in order, each padding set by the padding rule; no constraint update remains pending |
| ProgressHud.Hud.LayoutSubviews | DKProgressViewHUD/DKProgressViewHUD.swift:1248-1253 | the paddings are recomputed by the padding rule unless a constraint update is pending, in which case they are untouched |
| ProgressHud.Hud.UpdatePaddingConstraints | DKProgressViewHUD/DKProgressViewHUD.swift:1255-1272 | the single pass with the running flag sets every padding to the closed-form rule's value |
| Scenarios.ShowWithoutGrace | DKProgressViewHUD/DKProgressViewHUD.swift:805-818 | without a grace time the HUD is opaque and shown from `now` at once, with no grace timer |
| Scenarios.HideDuringGrace | DKProgressViewHUD/DKProgressViewHUD.swift:820-838 | a hide during the grace period: the HUD was never opaque, no grace timer stays pending, and exactly one teardown has run |
| Scenarios.ShowAfterGrace | DKProgressViewHUD/DKProgressViewHUD.swift:847-852 | with a grace time the HUD stays transparent until the grace timer fires, and is then shown from the firing time |
| Scenarios.HideTwice | DKProgressViewHUD/DKProgressViewHUD.swift:938-955 | two hides call the completion block twice |
| Scenarios.MinShowPostpones | DKProgressViewHUD/DKProgressViewHUD.swift:826-833 | a hide before the minimum show time is postponed by exactly the remaining time (a positive delay), with no teardown until the min-show timer fires, which tears down |
| Scenarios.MinShowElapsed | DKProgressViewHUD/DKProgressViewHUD.swift:826-837 | a hide after the minimum show time tears down at once, with no min-show timer |
| Scenarios.DeterminateOnHost | DKProgressViewHUD/DKProgressViewHUD.swift:616-627 | a HUD shown on a host in determinate mode shows 0.3 and then 0.75 without trapping |
| Scenarios.HideOnHost | DKProgressViewHUD/DKProgressViewHUD.swift:752-760 | hiding through the host with no minimum show time detaches the HUD before returning, and the host then has no HUD to find |
| Scenarios.ProgressInTextMode | DKProgressViewHUD/DKProgressViewHUD.swift:619-624 | in text mode a new progress value is stored and then traps |
| Scenarios.ModeRoundTrip | DKProgressViewHUD/DKProgressViewHUD.swift:1033-1060 | determinate, indeterminate, determinate: the second round view is not the first |
| Scenarios.AnnularThenDeterminate | DKProgressViewHUD/DKProgressViewHUD.swift:1051-1060 | annular then determinate keeps the same round view, still annular |
| Scenarios.RecolorAnnular | DKProgressViewHUD/DKProgressViewHUD.swift:1103-1106 | a new content colour keeps the mounted annular round view, still annular, and draws it in the new colour |
| Scenarios.RescheduleDelayedHide | DKProgressViewHUD/DKProgressViewHUD.swift:840-844 | two delayed hides in a row leave both pending, the later one referred to and the earlier one unreferenced |
| Scenarios.RescheduledDelayedHideFirstFiring | DKProgressViewHUD/DKProgressViewHUD.swift:938-941 | when the earlier-due delayed hide fires, the HUD is torn down once, and the teardown's invalidate misses the dropped timer, which stays pending |
| Scenarios.RescheduledDelayedHide | DKProgressViewHUD/DKProgressViewHUD.swift:840-844 | rescheduling a delayed hide leaves two pending; both fire and the completion block runs twice |
| Scenarios.RescheduledDelayedHideReplacing | DKProgressViewHUD/DKProgressViewHUD.swift:840-844 | with the earlier request cancelled first, one delayed hide is pending, it tears down once, and none remains |

## Left out

- Drawing of the round and bar views, the blurred background, the rounded button, motion effects, orientation handling and animation timing are left out. They are floating-point graphics and UIKit calls with no control logic.
- The solver-facing constraints of `updateConstraints` (centring, margins, minimum size, square aspect) are left out. Only the child list and the padding links and constants are modelled.
- Which children are visible (hidden flag and intrinsic content size) is the parameter `Visibility`. The spacers are always hidden.
- The clock, the run loop and the display link are left out. Times are parameters, a timer firing is a method call that names the timer, and the display link is the boolean `polling`.
- The `Thread.isMainThread` assertions and `init(coder:)` are left out.
- Colours are opaque tokens. Only `withAlphaComponent` is modelled.
- ProgressHud.Hud.HideUsingAnimation: the animated path runs `done` when the fade-out finishes. The model runs it at once on both paths, so a HUD never sits between the call and the end of its animation.
- ProgressHud.Hud.ShowUsingAnimation: the fade-in and the bezel's own alpha are not modelled. Only the HUD's alpha is.
- ProgressHud.Hud.SetProgress: progress is a Swift `Float`. The model uses `real`, so 32-bit rounding of stored values is not modelled.
- ProgressHud.Hud.UpdateProgressFromProgressObject: the completed fraction of the progress object is a parameter. The `Progress` object is only an identity token.
- ProgressHud.Hud.UpdateIndicators: a newly built view takes the next build number even when none is built. Only the identity comparisons matter.
- Indicators.Substitute: a caller's custom view carries no class. The source's `isKind(of:)` checks (lines 1034-1035 and 1092-1109) also match a caller's view; for example, a caller's `UIActivityIndicatorView` mounted in custom-view mode is kept when the mode changes to indeterminate and coloured through its `color`, and a caller's `DKRoundProgressView` is reused, and may be made annular, in the round-view modes. The model builds a new view in those cases and only sets a tint colour on a mounted caller view.
- ProgressHud.FindHud: a HUD is recognised by its tag in `Subview`. Subclasses of the HUD class are not modelled separately.
- ProgressHud.Hud.Done: the completion block and the delegate are recorded as a `Teardown` entry. What they do is not modelled.

## Findings

| source | as written | input that shows it | evidently intended | confidence | as-written member | corrected member |
|---|---|---|---|---|---|---|
| DKProgressViewHUD/DKProgressViewHUD.swift:840-844 | `hideAnimated(_:afterDelay:)` schedules a timer and assigns it to `hideDelayTimer` without invalidating the timer assigned before, which stays scheduled | show with no grace time, then `hideAnimated(true, afterDelay: 5)`, then `hideAnimated(true, afterDelay: 1)`: the 1 s timer tears the HUD down, then the 5 s timer hides it again and the completion block runs a second time | a new delayed hide replaces the pending one, so one teardown and one completion call | not executed | Scenarios.RescheduledDelayedHide | Scenarios.RescheduledDelayedHideReplacing |
