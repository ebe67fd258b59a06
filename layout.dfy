/** The part of the HUD's layout pass that is not left to the constraint solver:
    the order of the bezel's children and the vertical padding between neighbours,
    which is the default gap or nothing depending on which children are visible. */
module Layout {

  /** `DKDefaultPadding`. */
  const DefaultPadding: real := 4.0

  /** The children stacked in the bezel. The two spacers are hidden views that
      only even out the top and bottom margins. */
  datatype Child = TopSpacer | IndicatorView | Label | DetailsLabel | Button | BottomSpacer

  /** Which children currently have a non-zero intrinsic size and are not hidden.
      The spacers are always hidden. */
  datatype Visibility = Visibility(indicator: bool, mainLabel: bool, detailsLabel: bool, button: bool)

  predicate Visible(c: Child, v: Visibility)
  {
    match c
    case TopSpacer => false
    case IndicatorView => v.indicator
    case Label => v.mainLabel
    case DetailsLabel => v.detailsLabel
    case Button => v.button
    case BottomSpacer => false
  }

  /** The child list of `updateConstraints`: spacers around the labels and the
      button, with the indicator inserted second when one is mounted. */
  function ChildList(hasIndicator: bool): (cs: seq<Child>)
    ensures |cs| == if hasIndicator then 6 else 5
    ensures cs[0] == TopSpacer && cs[|cs| - 1] == BottomSpacer
    ensures cs[|cs| - 4..] == [Label, DetailsLabel, Button, BottomSpacer]
    ensures (IndicatorView in cs) == hasIndicator
    ensures hasIndicator ==> cs[1] == IndicatorView
  {
    var base := [TopSpacer, Label, DetailsLabel, Button, BottomSpacer];
    if hasIndicator then base[..1] + [IndicatorView] + base[1..] else base
  }

  /** A padding constraint: the top of `first` sits `constant` below the bottom
      of `second`, the child before it. */
  datatype PaddingLink = PaddingLink(first: Child, second: Child)

  /** One padding link per pair of neighbours, in order. */
  predicate LinksNeighbours(links: seq<PaddingLink>, cs: seq<Child>)
  {
    && |cs| >= 1
    && |links| == |cs| - 1
    && forall k :: 0 <= k < |links| ==> links[k] == PaddingLink(cs[k + 1], cs[k])
  }

  /** The running flag of `updatePaddingConstraints`, written as the source does.
      It is the disjunction of its inputs, so it never goes from true to false. */
  function NextAncestorFlag(secondVisible: bool, hasVisibleAncestors: bool): (r: bool)
    ensures r == (secondVisible || hasVisibleAncestors)
    ensures hasVisibleAncestors ==> r
  {
    if !secondVisible && !hasVisibleAncestors then false else true
  }

  /** Some link up to and including `k` has a visible second view. */
  predicate SeenVisible(links: seq<PaddingLink>, v: Visibility, k: int)
    requires k < |links|
  {
    exists j :: 0 <= j <= k && Visible(links[j].second, v)
  }

  /** The padding rule, in closed form: the gap goes above a visible view that has
      a visible view somewhere above it. */
  function PaddingConstant(links: seq<PaddingLink>, v: Visibility, k: nat): (r: real)
    requires k < |links|
    ensures r == DefaultPadding || r == 0.0
  {
    if Visible(links[k].first, v) && SeenVisible(links, v, k) then DefaultPadding else 0.0
  }

  /** The sum of the paddings of links `lo` up to (not including) `hi`. */
  function TotalPadding(links: seq<PaddingLink>, v: Visibility, lo: int, hi: int): real
    requires 0 <= lo <= hi <= |links|
    decreases hi - lo
  {
    if lo == hi then 0.0 else PaddingConstant(links, v, lo) + TotalPadding(links, v, lo + 1, hi)
  }

  /** On the child list: the padding between child k+1 and child k is the gap
      exactly when child k+1 is visible and child k or an earlier one is. */
  lemma PaddingRule(cs: seq<Child>, links: seq<PaddingLink>, v: Visibility, k: nat)
    requires LinksNeighbours(links, cs) && k < |links|
    ensures PaddingConstant(links, v, k) == DefaultPadding <==>
            Visible(cs[k + 1], v) && exists j :: 0 <= j <= k && Visible(cs[j], v)
  {
    assert links[k] == PaddingLink(cs[k + 1], cs[k]);
    if SeenVisible(links, v, k) {
      var j :| 0 <= j <= k && Visible(links[j].second, v);
      assert links[j] == PaddingLink(cs[j + 1], cs[j]);
    }
    if exists j :: 0 <= j <= k && Visible(cs[j], v) {
      var j :| 0 <= j <= k && Visible(cs[j], v);
      assert links[j] == PaddingLink(cs[j + 1], cs[j]);
      assert SeenVisible(links, v, k);
    }
  }

  /** No padding is put above the first visible child, nor above a hidden one. */
  lemma NoPaddingUnlessBothSides(cs: seq<Child>, links: seq<PaddingLink>, v: Visibility, k: nat)
    requires LinksNeighbours(links, cs) && k < |links|
    requires !Visible(cs[k + 1], v) || forall j :: 0 <= j <= k ==> !Visible(cs[j], v)
    ensures PaddingConstant(links, v, k) == 0.0
  {
    PaddingRule(cs, links, v, k);
  }

  /** Between two visible children with only hidden ones between them, the
      paddings add up to exactly one gap: not zero, not one per hidden child. */
  lemma {:induction false} OneGapAcrossHidden(cs: seq<Child>, links: seq<PaddingLink>, v: Visibility, i: nat, k: nat)
    requires LinksNeighbours(links, cs)
    requires i < k < |cs|
    requires Visible(cs[i], v) && Visible(cs[k], v)
    requires forall j :: i < j < k ==> !Visible(cs[j], v)
    ensures TotalPadding(links, v, i, k) == DefaultPadding
  {
    assert links[i] == PaddingLink(cs[i + 1], cs[i]);
    if k == i + 1 {
      assert TotalPadding(links, v, k, k) == 0.0;
      assert PaddingConstant(links, v, i) == DefaultPadding;
    } else {
      assert PaddingConstant(links, v, i) == 0.0;
      HiddenThenGap(cs, links, v, i, i + 1, k);
    }
  }

  /** Helper of OneGapAcrossHidden: from a hidden child `m` on, the paddings up to
      the next visible child `k` add up to one gap, given a visible child `i`
      above. */
  lemma {:induction false} HiddenThenGap(cs: seq<Child>, links: seq<PaddingLink>, v: Visibility, i: nat, m: nat, k: nat)
    requires LinksNeighbours(links, cs)
    requires i < m < k < |cs|
    requires Visible(cs[i], v) && Visible(cs[k], v)
    requires forall j :: i < j < k ==> !Visible(cs[j], v)
    ensures TotalPadding(links, v, m, k) == DefaultPadding
    decreases k - m
  {
    assert links[i] == PaddingLink(cs[i + 1], cs[i]);
    if m == k - 1 {
      assert links[m] == PaddingLink(cs[m + 1], cs[m]);
      assert TotalPadding(links, v, k, k) == 0.0;
      assert SeenVisible(links, v, m);
      assert PaddingConstant(links, v, m) == DefaultPadding;
    } else {
      assert links[m] == PaddingLink(cs[m + 1], cs[m]);
      assert PaddingConstant(links, v, m) == 0.0;
      HiddenThenGap(cs, links, v, i, m + 1, k);
    }
  }
}
