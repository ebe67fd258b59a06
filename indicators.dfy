/** The indicator mounted in the HUD's bezel, and the rules by which
    `updateIndicators` swaps it when the mode changes. The source probes the
    mounted view at run time (`isKind(of:)`, `responds(to:)`); here the view is a
    tagged union, and identity says whether a view was kept or freshly built. */
module Indicators {
  import opened Basics

  /** Identity of a mounted view: one the HUD built (numbered in build order) or
      the caller's custom view. */
  datatype ViewId = HudBuilt(n: nat) | CallerOwned(view: ViewRef)

  /** The indicator slot. `Activity` is the spinner (`UIActivityIndicatorView`),
      `Round` the pie or ring view (`DKRoundProgressView`), `Bar` the horizontal
      bar (`DKBarProgressView`), `Custom` the caller's view together with what
      the HUD last set on it (nothing yet: `None`). */
  datatype Indicator =
    | NoIndicator
    | Activity(id: nat, color: Color)
    | Round(id: nat, annular: bool, progress: real, progressTintColor: Color, backgroundTintColor: Color)
    | Bar(id: nat, progress: real, progressColor: Color, lineColor: Color)
    | Custom(view: ViewRef, tintColor: Option<Color>, forwardedProgress: Option<real>)

  function Identity(ind: Indicator): Option<ViewId>
  {
    match ind
    case NoIndicator => None
    case Activity(id, _) => Some(HudBuilt(id))
    case Round(id, _, _, _, _) => Some(HudBuilt(id))
    case Bar(id, _, _, _) => Some(HudBuilt(id))
    case Custom(v, _, _) => Some(CallerOwned(v))
  }

  /** Every view the HUD built so far is numbered below `next`. */
  predicate BuiltBelow(ind: Indicator, next: nat)
  {
    match Identity(ind)
    case Some(HudBuilt(n)) => n < next
    case _ => true
  }

  /** Freshly built views, with the defaults of their classes. */
  function NewActivity(id: nat): Indicator { Activity(id, White) }
  function NewRound(id: nat): Indicator { Round(id, false, 0.0, White, WithAlphaComponent(White, 0.1)) }
  function NewBar(id: nat): Indicator { Bar(id, 0.0, White, White) }

  /** Whether the mounted view answers to a `progress` setter. */
  predicate AcceptsProgress(ind: Indicator)
  {
    ind.Round? || ind.Bar? || (ind.Custom? && ind.view.acceptsProgress)
  }

  /** The progress value the mounted view holds, if the HUD has set one. */
  function ShownProgress(ind: Indicator): Option<real>
  {
    match ind
    case Round(_, _, p, _, _) => Some(p)
    case Bar(_, p, _, _) => Some(p)
    case Custom(_, _, fp) => fp
    case _ => None
  }

  /** `self.customView != indicator` is false: the custom view (or nothing) is
      exactly what is mounted. */
  predicate IsMounted(customView: Option<ViewRef>, ind: Indicator)
  {
    match customView
    case None => ind.NoIndicator?
    case Some(v) => ind.Custom? && ind.view == v
  }

  /** The indicator agrees with the mode: a spinner, a round view (annular in
      the annular mode), a bar, the caller's view, or nothing in text mode. */
  predicate ModeMatches(mode: Mode, ind: Indicator, customView: Option<ViewRef>)
  {
    match mode
    case Indeterminate => ind.Activity?
    case Determinate => ind.Round?
    case AnnularDeterminate => ind.Round? && ind.annular
    case DeterminateHorizontalBar => ind.Bar?
    case CustomView => IsMounted(customView, ind)
    case Text => ind.NoIndicator?
  }

  /** When the indicator agrees with the mode, nothing is mounted exactly in text
      mode and in custom-view mode without a custom view. */
  lemma NoIndicatorOnlyWithoutView(mode: Mode, ind: Indicator, customView: Option<ViewRef>)
    requires ModeMatches(mode, ind, customView)
    ensures ind.NoIndicator? <==> mode == Text || (mode == CustomView && customView == None)
  {
  }

  /** The colours `updateViewsForColor` leaves on each kind of indicator. */
  predicate Tinted(ind: Indicator, c: Color)
  {
    match ind
    case NoIndicator => true
    case Activity(_, color) => color == c
    case Round(_, _, _, pt, bt) => pt == c && bt == WithAlphaComponent(c, 0.1)
    case Bar(_, _, pc, lc) => pc == c && lc == c
    case Custom(_, t, _) => t == Some(c)
  }

  /** `ind.setValue(progress, forKey: "progress")` when the view responds to it. */
  function ForwardProgress(ind: Indicator, p: real): (r: Indicator)
    ensures Identity(r) == Identity(ind)
    ensures AcceptsProgress(r) == AcceptsProgress(ind)
    ensures AcceptsProgress(ind) ==> ShownProgress(r) == Some(p)
    ensures !AcceptsProgress(ind) ==> r == ind
    ensures forall c :: Tinted(ind, c) ==> Tinted(r, c)
    ensures r.Round? <==> ind.Round?
    ensures r.Round? ==> r.annular == ind.annular
  {
    match ind
    case Round(id, a, _, pt, bt) => Round(id, a, p, pt, bt)
    case Bar(id, _, pc, lc) => Bar(id, p, pc, lc)
    case Custom(v, t, fp) => if v.acceptsProgress then Custom(v, t, Some(p)) else ind
    case _ => ind
  }

  /** The indicator part of `updateViewsForColor`: the spinner's colour, the round
      view's progress tint and (one-tenth alpha) background tint, the bar's
      progress and line colours, or a custom view's tint colour. */
  function Recolor(ind: Indicator, c: Color): (r: Indicator)
    ensures Tinted(r, c)
    ensures Identity(r) == Identity(ind)
    ensures ShownProgress(r) == ShownProgress(ind)
    ensures AcceptsProgress(r) == AcceptsProgress(ind)
    ensures r.Round? <==> ind.Round?
    ensures r.Round? ==> r.annular == ind.annular
  {
    match ind
    case NoIndicator => NoIndicator
    case Activity(id, _) => Activity(id, c)
    case Round(id, a, p, _, _) => Round(id, a, p, c, WithAlphaComponent(c, 0.1))
    case Bar(id, p, _, _) => Bar(id, p, c, c)
    case Custom(v, _, fp) => Custom(v, Some(c), fp)
  }

  /** The view mounted by the mode switch of `updateIndicators`, before progress
      and colour are forwarded to it. A view the HUD builds is numbered `freshId`. */
  function Mounted(mode: Mode, current: Indicator, customView: Option<ViewRef>, freshId: nat): Indicator
  {
    match mode
    case Indeterminate =>
      if current.Activity? then current else NewActivity(freshId)
    case DeterminateHorizontalBar =>
      NewBar(freshId)
    case Determinate =>
      if current.Round? then current else NewRound(freshId)
    case AnnularDeterminate =>
      var round := if current.Round? then current else NewRound(freshId);
      round.(annular := true)
    case CustomView =>
      if IsMounted(customView, current) then current
      else if customView.Some? then Custom(customView.value, None, None)
      else NoIndicator
    case Text =>
      NoIndicator
  }

  /** The whole of `updateIndicators` on the indicator slot: swap by mode, forward
      the HUD's progress, apply the content colour. */
  function Substitute(mode: Mode, current: Indicator, customView: Option<ViewRef>,
                      progress: real, color: Color, freshId: nat): (r: Indicator)
    // indeterminate: a spinner, the mounted one if there is one
    ensures mode == Indeterminate ==>
      r.Activity? && Identity(r) == (if current.Activity? then Identity(current) else Some(HudBuilt(freshId)))
    // horizontal bar: always a newly built bar
    ensures mode == DeterminateHorizontalBar ==> r.Bar? && Identity(r) == Some(HudBuilt(freshId))
    // determinate or annular: a round view, the mounted one if there is one;
    // annular is set for the annular mode and never cleared
    ensures mode == Determinate || mode == AnnularDeterminate ==>
      && r.Round?
      && Identity(r) == (if current.Round? then Identity(current) else Some(HudBuilt(freshId)))
      && r.annular == (mode == AnnularDeterminate || (current.Round? && current.annular))
    // custom view: the caller's view (or nothing), replaced only if it differs
    ensures mode == CustomView ==> IsMounted(customView, r)
    ensures mode == CustomView && IsMounted(customView, current) && !AcceptsProgress(current) ==>
      ShownProgress(r) == ShownProgress(current)
    // text: no indicator
    ensures mode == Text ==> r == NoIndicator
    // the mounted view shows the HUD's progress if it can, and the content colour
    ensures AcceptsProgress(r) ==> ShownProgress(r) == Some(progress)
    ensures Tinted(r, color)
    ensures ModeMatches(mode, r, customView)
  {
    Recolor(ForwardProgress(Mounted(mode, current, customView, freshId), progress), color)
  }

  /** Switching from annular back to plain determinate keeps the ring drawing:
      the round view is reused with `annular` still set. */
  lemma AnnularSticks(current: Indicator, customView: Option<ViewRef>, p: real, c: Color, freshId: nat)
    requires current.Round? && current.annular
    ensures Substitute(Determinate, current, customView, p, c, freshId).annular
    ensures Identity(Substitute(Determinate, current, customView, p, c, freshId)) == Identity(current)
  {
  }

  /** Leaving a progress mode for another kind and coming back builds a new view:
      the original round view is not remembered. */
  lemma RoundRebuiltAfterLeaving(current: Indicator, other: Mode, customView: Option<ViewRef>,
                                  p: real, c: Color, id1: nat, id2: nat)
    requires current.Round? && BuiltBelow(current, id1) && id1 < id2
    requires other == Indeterminate || other == DeterminateHorizontalBar || other == Text
    ensures var away := Substitute(other, current, customView, p, c, id1);
            var back := Substitute(Determinate, away, customView, p, c, id2);
            Identity(back) == Some(HudBuilt(id2)) && Identity(back) != Identity(current) && !back.annular
  {
  }
}
