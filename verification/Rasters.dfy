/** The pixel limit that every raster image is held to. */
module Rasters {
  datatype Dimensions = Dimensions(width: nat, height: nat)

  predicate ValidDimensions(d: Dimensions, maxPixels: nat) {
    d.width > 0 && d.height > 0 && d.width <= maxPixels / d.height
  }

  /** The quotient form is the pixel limit itself. */
  lemma ValidDimensionsIsPixelLimit(d: Dimensions, maxPixels: nat)
    ensures ValidDimensions(d, maxPixels) <==> d.width > 0 && d.height > 0 && d.width * d.height <= maxPixels
  {
    if d.height > 0 {
      var w, h, q, r := d.width, d.height, maxPixels / d.height, maxPixels % d.height;
      assert maxPixels == q * h + r && 0 <= r < h;
      if w <= q { Products(w, q, h); } else { Products(q + 1, w, h); assert (q + 1) * h == q * h + h; }
    }
  }

  lemma PositiveProduct(a: nat, b: nat)
    ensures a * b > 0 <==> a > 0 && b > 0
  {
  }

  lemma Products(a: nat, b: nat, h: nat)
    requires a <= b
    ensures a * h <= b * h
  {
  }
}
