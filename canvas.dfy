/** The drawing surface of the trail and its 2D context, as far as the trail
    uses them: the surface size, the drawing state the trail sets, and the
    list of drawing calls made so far. Pixels are not modelled; what a frame
    shows is the list of calls after its last `ClearRect`. */
module Canvas {

  datatype DrawCall =
    | ClearRect(width: nat, height: nat)
      /** A full circle filled with `fill` at opacity `alpha`, with a shadow
          of colour `glow` blurred by `blur` pixels. */
    | FillCircle(x: real, y: real, radius: real, fill: string, alpha: real, blur: real, glow: string)

  class Context2D {
    var width: nat
    var height: nat
    var globalAlpha: real
    var shadowBlur: real
    var shadowColor: string
    var fillStyle: string
    var calls: seq<DrawCall>

    /** A fresh surface of the given size, with the default drawing state. */
    constructor (width: nat, height: nat)
      ensures this.width == width && this.height == height
      ensures globalAlpha == 1.0 && shadowBlur == 0.0
      ensures shadowColor == "rgba(0, 0, 0, 0)" && fillStyle == "#000000"
      ensures calls == []
    {
      this.width := width;
      this.height := height;
      globalAlpha := 1.0;
      shadowBlur := 0.0;
      shadowColor := "rgba(0, 0, 0, 0)";
      fillStyle := "#000000";
      calls := [];
    }

    /** Sets the surface to a new size. */
    method Resize(width: nat, height: nat)
      modifies this`width, this`height
      ensures this.width == width && this.height == height
    {
      this.width := width;
      this.height := height;
    }

    /** Clears the whole surface. */
    method Clear()
      modifies this`calls
      ensures calls == old(calls) + [ClearRect(width, height)]
    {
      calls := calls + [ClearRect(width, height)];
    }

    /** `beginPath`, a full `arc` and `fill`: one circle drawn with the
        current fill style, opacity and shadow. */
    method FillCircle(x: real, y: real, radius: real)
      modifies this`calls
      ensures calls == old(calls) + [DrawCall.FillCircle(x, y, radius, fillStyle, globalAlpha, shadowBlur, shadowColor)]
    {
      calls := calls + [DrawCall.FillCircle(x, y, radius, fillStyle, globalAlpha, shadowBlur, shadowColor)];
    }
  }
}
