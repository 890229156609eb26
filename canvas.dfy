/** The canvas viewport store (src/stores/canvas.ts): a pan offset and a zoom
    factor mapping world coordinates (image pixels) to canvas pixels by
    screen = zoom * world + pan on each axis. The canvas element is present
    and its on-screen rectangle has the canvas's own size. */
module Canvas {
  import opened Types

  const MinZoom: real := 1.0
  const MaxZoom: real := 10.0
  /** The margin `fitToView` leaves on every side. */
  const FitPadding: real := 40.0

  function Min(a: real, b: real): real
  {
    if a < b then a else b
  }

  function Max(a: real, b: real): real
  {
    if a < b then b else a
  }

  /** The canvas transform applied to one world coordinate. */
  function ToScreen(world: real, pan: real, zoom: real): real
  {
    zoom * world + pan
  }

  /** The inverse mapping used for pointer positions. */
  function ToWorld(screen: real, pan: real, zoom: real): real
    requires zoom != 0.0
  {
    (screen - pan) / zoom
  }

  /** The two mappings undo each other for any non-zero zoom. */
  lemma ScreenWorldInverse(screen: real, world: real, pan: real, zoom: real)
    requires zoom != 0.0
    ensures ToScreen(ToWorld(screen, pan, zoom), pan, zoom) == screen
    ensures ToWorld(ToScreen(world, pan, zoom), pan, zoom) == world
  {
  }

  /** The clamped zoom [MinZoom, MaxZoom] makes of a requested factor. */
  function ClampZoom(z: real): (r: real)
    ensures MinZoom <= r <= MaxZoom
    ensures MinZoom <= z <= MaxZoom ==> r == z
    ensures z < MinZoom ==> r == MinZoom
    ensures z > MaxZoom ==> r == MaxZoom
  {
    Max(MinZoom, Min(MaxZoom, z))
  }

  /** A falsy optional image dimension: missing or zero. */
  predicate Truthy(v: Option<real>)
  {
    v.Some? && v.value != 0.0
  }

  /** The pan one axis may take for an image of the given scaled size: a
      centred image when it fits, otherwise the requested pan clamped so the
      image still covers the canvas. */
  function BoundedPan(requested: real, canvasSize: real, scaledSize: real): (r: real)
  {
    if scaledSize <= canvasSize then (canvasSize - scaledSize) / 2.0
    else Max(canvasSize - scaledSize, Min(0.0, requested))
  }

  /** An image that fits is centred whatever was requested; a larger one has its
      pan in [canvas - scaled, 0], so it covers the whole canvas, and a
      requested pan already in that range is kept. */
  lemma BoundedPanProperties(requested: real, canvasSize: real, scaledSize: real)
    ensures scaledSize <= canvasSize ==>
              BoundedPan(requested, canvasSize, scaledSize) + scaledSize / 2.0 == canvasSize / 2.0
    ensures scaledSize > canvasSize ==>
              canvasSize - scaledSize <= BoundedPan(requested, canvasSize, scaledSize) <= 0.0 &&
              BoundedPan(requested, canvasSize, scaledSize) + scaledSize >= canvasSize
    ensures scaledSize > canvasSize && canvasSize - scaledSize <= requested <= 0.0 ==>
              BoundedPan(requested, canvasSize, scaledSize) == requested
  {
  }

  /** Clamping a bounded pan again changes nothing, so `clampPan` right after a
      bounded `pan` is a no-op. */
  lemma BoundedPanIdempotent(requested: real, canvasSize: real, scaledSize: real)
    ensures BoundedPan(BoundedPan(requested, canvasSize, scaledSize), canvasSize, scaledSize)
            == BoundedPan(requested, canvasSize, scaledSize)
  {
  }

  class Viewport {
    const canvasWidth: real
    const canvasHeight: real
    var panX: real
    var panY: real
    var zoom: real

    constructor (canvasWidth: real, canvasHeight: real)
      ensures this.canvasWidth == canvasWidth && this.canvasHeight == canvasHeight
      ensures panX == 0.0 && panY == 0.0 && zoom == 1.0
    {
      this.canvasWidth := canvasWidth;
      this.canvasHeight := canvasHeight;
      panX, panY, zoom := 0.0, 0.0, 1.0;
    }

    /** `getCanvasCoords` for a pointer already in canvas pixels. */
    function CanvasCoords(screenX: real, screenY: real): (world: (real, real))
      reads this
      requires zoom != 0.0
      ensures ToScreen(world.0, panX, zoom) == screenX && ToScreen(world.1, panY, zoom) == screenY
    {
      ScreenWorldInverse(screenX, 0.0, panX, zoom);
      ScreenWorldInverse(screenY, 0.0, panY, zoom);
      (ToWorld(screenX, panX, zoom), ToWorld(screenY, panY, zoom))
    }

    /** `pan`: move by the deltas, then, when both image dimensions are given
        and non-zero, bound the result on each axis. */
    method Pan(deltaX: real, deltaY: real, imageWidth: Option<real>, imageHeight: Option<real>)
      modifies this
      ensures zoom == old(zoom)
      ensures !(Truthy(imageWidth) && Truthy(imageHeight)) ==>
                panX == old(panX) + deltaX && panY == old(panY) + deltaY
      ensures Truthy(imageWidth) && Truthy(imageHeight) ==>
                panX == BoundedPan(old(panX) + deltaX, canvasWidth, imageWidth.value * zoom) &&
                panY == BoundedPan(old(panY) + deltaY, canvasHeight, imageHeight.value * zoom)
    {
      var newPanX := panX + deltaX;
      var newPanY := panY + deltaY;
      if !Truthy(imageWidth) || !Truthy(imageHeight) {
        panX := newPanX;
        panY := newPanY;
        return;
      }
      var scaledImageWidth := imageWidth.value * zoom;
      var scaledImageHeight := imageHeight.value * zoom;
      if scaledImageWidth <= canvasWidth && scaledImageHeight <= canvasHeight {
        panX := (canvasWidth - scaledImageWidth) / 2.0;
        panY := (canvasHeight - scaledImageHeight) / 2.0;
        return;
      }
      var maxPanX, minPanX, maxPanY, minPanY;
      if scaledImageWidth <= canvasWidth {
        maxPanX := (canvasWidth - scaledImageWidth) / 2.0;
        minPanX := maxPanX;
      } else {
        maxPanX := 0.0;
        minPanX := canvasWidth - scaledImageWidth;
      }
      if scaledImageHeight <= canvasHeight {
        maxPanY := (canvasHeight - scaledImageHeight) / 2.0;
        minPanY := maxPanY;
      } else {
        maxPanY := 0.0;
        minPanY := canvasHeight - scaledImageHeight;
      }
      panX := Max(minPanX, Min(maxPanX, newPanX));
      panY := Max(minPanY, Min(maxPanY, newPanY));
    }

    /** `clampPan`: a zero move with the image bounds. */
    method ClampPan(imageWidth: real, imageHeight: real)
      modifies this
      ensures zoom == old(zoom)
      ensures imageWidth != 0.0 && imageHeight != 0.0 ==>
                panX == BoundedPan(old(panX), canvasWidth, imageWidth * zoom) &&
                panY == BoundedPan(old(panY), canvasHeight, imageHeight * zoom)
      ensures imageWidth == 0.0 || imageHeight == 0.0 ==> panX == old(panX) && panY == old(panY)
    {
      ghost var px, py := panX, panY;
      assert Truthy(Some(imageWidth)) <==> imageWidth != 0.0;
      assert Truthy(Some(imageHeight)) <==> imageHeight != 0.0;
      Pan(0.0, 0.0, Some(imageWidth), Some(imageHeight));
      assert px + 0.0 == px && py + 0.0 == py;
    }

    /** `zoomAt`: scale the zoom by delta within [MinZoom, MaxZoom], keeping the
        world point under the cursor in place, then bound the pan when both
        image dimensions are given. When the clamped zoom equals the current one
        nothing changes. */
    method ZoomAt(screenX: real, screenY: real, delta: real, imageWidth: Option<real>, imageHeight: Option<real>)
      requires zoom != 0.0
      modifies this
      ensures zoom == ClampZoom(old(zoom) * delta)
      ensures zoom == old(zoom) ==> panX == old(panX) && panY == old(panY)
      ensures zoom != old(zoom) && !(Truthy(imageWidth) && Truthy(imageHeight)) ==>
                panX == AnchoredPan(screenX, old(panX), old(zoom), zoom) &&
                panY == AnchoredPan(screenY, old(panY), old(zoom), zoom)
      ensures zoom != old(zoom) && Truthy(imageWidth) && Truthy(imageHeight) ==>
                panX == BoundedPan(AnchoredPan(screenX, old(panX), old(zoom), zoom), canvasWidth, imageWidth.value * zoom) &&
                panY == BoundedPan(AnchoredPan(screenY, old(panY), old(zoom), zoom), canvasHeight, imageHeight.value * zoom)
    {
      var worldX := (screenX - panX) / zoom;
      var worldY := (screenY - panY) / zoom;
      var newZoom := Max(MinZoom, Min(MaxZoom, zoom * delta));
      if newZoom != zoom {
        ghost var oldPanX, oldPanY, oldZoom := panX, panY, zoom;
        zoom := newZoom;
        panX := screenX - worldX * zoom;
        panY := screenY - worldY * zoom;
        ghost var ax, ay := panX, panY;
        assert ax == AnchoredPan(screenX, oldPanX, oldZoom, zoom);
        assert ay == AnchoredPan(screenY, oldPanY, oldZoom, zoom);
        if Truthy(imageWidth) && Truthy(imageHeight) {
          ClampPan(imageWidth.value, imageHeight.value);
        }
      }
    }

    /** `resetView`. */
    method ResetView()
      modifies this
      ensures panX == 0.0 && panY == 0.0 && zoom == 1.0
    {
      panX := 0.0;
      panY := 0.0;
      zoom := 1.0;
    }

    /** `fitToView`: the largest zoom, never above 1, at which the image fits
        inside the canvas less the padding, with the image centred. */
    method FitToView(imageWidth: real, imageHeight: real)
      requires imageWidth > 0.0 && imageHeight > 0.0
      modifies this
      ensures zoom == Min(Min((canvasWidth - 2.0 * FitPadding) / imageWidth,
                              (canvasHeight - 2.0 * FitPadding) / imageHeight), 1.0)
      ensures zoom <= 1.0
      ensures imageWidth * zoom <= canvasWidth - 2.0 * FitPadding
      ensures imageHeight * zoom <= canvasHeight - 2.0 * FitPadding
      ensures panX + imageWidth * zoom / 2.0 == canvasWidth / 2.0
      ensures panY + imageHeight * zoom / 2.0 == canvasHeight / 2.0
    {
      var availableWidth := canvasWidth - FitPadding * 2.0;
      var availableHeight := canvasHeight - FitPadding * 2.0;
      var scaleX := availableWidth / imageWidth;
      var scaleY := availableHeight / imageHeight;
      zoom := Min(Min(scaleX, scaleY), 1.0);
      FitsWithin(imageWidth, availableWidth, zoom);
      FitsWithin(imageHeight, availableHeight, zoom);
      panX := (canvasWidth - imageWidth * zoom) / 2.0;
      panY := (canvasHeight - imageHeight * zoom) / 2.0;
    }
  }

  /** A zoom no larger than available / size scales the size to at most
      the available length. */
  lemma FitsWithin(size: real, available: real, z: real)
    requires size > 0.0 && z <= available / size
    ensures size * z <= available
  {
    assert size * (available / size) == available;
    assert size * (available / size - z) >= 0.0 by {
      MulNonNegative(size, available / size - z);
    }
  }

  /** The pan that puts world point w under screen point s at zoom z. */
  lemma Anchored(s: real, w: real, z: real)
    ensures ToScreen(w, s - w * z, z) == s
  {
  }

  lemma MulNonNegative(a: real, b: real)
    requires a >= 0.0 && b >= 0.0
    ensures a * b >= 0.0
  {
  }

  /** The pan `zoomAt` picks: the world point under the cursor at the old
      pan and zoom, scaled by the new zoom, subtracted from the cursor. */
  function AnchoredPan(screen: real, pan: real, zoom: real, newZoom: real): real
    requires zoom != 0.0
  {
    screen - ToWorld(screen, pan, zoom) * newZoom
  }

  /** With the anchored pan, the world point under the cursor before the zoom
      maps to the cursor after it, and the pointer mapping at the cursor gives
      that same world point. */
  lemma CursorAnchored(screen: real, pan: real, zoom: real, newZoom: real)
    requires zoom != 0.0
    ensures ToScreen(ToWorld(screen, pan, zoom), AnchoredPan(screen, pan, zoom, newZoom), newZoom) == screen
    ensures newZoom != 0.0 ==>
              ToWorld(screen, AnchoredPan(screen, pan, zoom, newZoom), newZoom) == ToWorld(screen, pan, zoom)
  {
    Anchored(screen, ToWorld(screen, pan, zoom), newZoom);
    if newZoom != 0.0 {
      ScreenWorldInverse(screen, ToWorld(screen, pan, zoom), AnchoredPan(screen, pan, zoom, newZoom), newZoom);
    }
  }
}
