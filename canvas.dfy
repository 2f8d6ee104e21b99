/**
 * ProxyCanvas: a Canvas that records whether any of the methods it overrides was ever
 * called.
 * The drawing behaviour of the underlying Canvas is not modelled; only the flag is.
 */
module Canvas {

  /**
   * Every method ProxyCanvas overrides, one constructor per method name (overloads
   * share one). The arguments and the value the superclass returns are not modelled.
   */
  datatype CanvasOp =
    // clipping
    | ClipPath | ClipRect | ClipRegion
    // drawing
    | DrawARGB | DrawArc | DrawBitmap | DrawBitmapMesh | DrawCircle | DrawColor
    | DrawLine | DrawLines | DrawOval | DrawPaint | DrawPath | DrawPicture
    | DrawPoint | DrawPoints | DrawPosText | DrawRGB | DrawRect | DrawRoundRect
    | DrawText | DrawTextOnPath | DrawVertices
    // queries
    | GetClipBounds | GetDensity | GetDrawFilter | GetHeight | GetMatrix
    | GetMaximumBitmapHeight | GetMaximumBitmapWidth | GetSaveCount | GetWidth
    | IsHardwareAccelerated | IsOpaque | QuickReject
    // save / restore and transforms
    | Concat | Restore | RestoreToCount | Rotate | Save | SaveLayer | SaveLayerAlpha
    | Scale | Skew | Translate | SetMatrix
    // state setters
    | SetBitmap | SetDensity | SetDrawFilter
    // java.lang.Object
    | Clone | Equals | Finalize | HashCode | ToString

  /** The flag after a canvas whose flag was `touched` receives `ops` in order. */
  function TouchedAfter(touched: bool, ops: seq<CanvasOp>): bool
    decreases |ops|
  {
    if ops == [] then touched else TouchedAfter(true, ops[1..])
  }

  /** The flag is touched after the calls exactly when it was before or a call was made. */
  lemma {:induction false} TouchedAfterIff(touched: bool, ops: seq<CanvasOp>)
    ensures TouchedAfter(touched, ops) <==> touched || ops != []
    decreases |ops|
  {
    if ops != [] {
      TouchedAfterIff(true, ops[1..]);
    }
  }

  /** Once touched, no sequence of calls clears the flag. */
  lemma {:induction false} TouchedIsMonotonic(ops: seq<CanvasOp>, more: seq<CanvasOp>)
    ensures TouchedAfter(false, ops) ==> TouchedAfter(false, ops + more)
  {
    TouchedAfterIff(false, ops);
    TouchedAfterIff(false, ops + more);
  }

  class ProxyCanvas {
    var touched: bool

    /** Both Java constructors: the field initialiser runs after the super constructor. */
    constructor ()
      ensures !touched
    {
      touched := false;
    }

    /** wasTouched(): reports the flag and changes nothing. */
    method WasTouched() returns (t: bool)
      ensures t == touched
    {
      t := touched;
    }

    /** Any overridden method: sets the flag, then delegates to Canvas. */
    method Call(op: CanvasOp)
      modifies this
      ensures touched
    {
      touched := true;
    }

    /** Issues `ops` one after another, as a view's drawing code does. */
    method Receive(ops: seq<CanvasOp>)
      modifies this
      ensures touched == TouchedAfter(old(touched), ops)
    {
      var i := 0;
      while i < |ops|
        invariant 0 <= i <= |ops|
        invariant TouchedAfter(touched, ops[i..]) == TouchedAfter(old(touched), ops)
      {
        assert ops[i..][1..] == ops[i + 1..];
        Call(ops[i]);
        i := i + 1;
      }
    }
  }
}
