/** Value types shared by the HUD model: optional values, colours, display modes
    and references to views the caller owns. */
module Basics {

  datatype Option<T> = None | Some(value: T)

  /** A colour is opaque to the HUD except for its alpha component, the only part
      it ever changes (`withAlphaComponent`). `rgb` is a token for the rest. */
  datatype Color = Color(rgb: nat, alpha: real)

  const BlackRgb: nat := 0
  const WhiteRgb: nat := 1

  /** `UIColor(white: 0, alpha: 0.7)`, the initial content colour. */
  const DefaultContentColor: Color := Color(BlackRgb, 0.7)
  const White: Color := Color(WhiteRgb, 1.0)

  /** `color.withAlphaComponent(alpha)`. */
  function WithAlphaComponent(c: Color, alpha: real): Color
  {
    Color(c.rgb, alpha)
  }

  /** The HUD's operation modes (`DKProgressHUDMode`). */
  datatype Mode =
    | Indeterminate
    | Determinate
    | DeterminateHorizontalBar
    | AnnularDeterminate
    | CustomView
    | Text

  /** A view supplied by the caller as the custom view. `acceptsProgress` records
      whether the view answers to a `progress` setter, which the HUD probes for. */
  datatype ViewRef = ViewRef(id: nat, acceptsProgress: bool)

  /** An external progress object (`Progress`), known only by identity. */
  type ProgressSource = nat
}
