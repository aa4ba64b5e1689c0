/** Where a display's picture goes in the buffer of a virtual display. */
module Letterbox {
  import opened Arithmetic
  import opened DisplayModes

  datatype Rect = Rect(x: int, y: int, width: int, height: int)

  /** Clears the last bit. */
  function AlignDown2(v: int): int {
    v - v % 2
  }

  /** The picture is wider, in relation, than the buffer. */
  predicate Wider(ww: int, wh: int, bw: int, bh: int) {
    ww * bh > wh * bw
  }

  /** The side that is fitted; the product wraps in 32 bits before it is divided. */
  function FittedSide(side: int, num: int, den: int): int
    requires den > 0
  {
    (side * num) % U32 / den
  }

  function Unaligned(ww: int, wh: int, bw: int, bh: int): Rect
    requires ww > 0 && wh > 0
  {
    if ww == bw && wh == bh then Rect(0, 0, bw, bh)
    else if Wider(ww, wh, bw, bh) then
      var h := FittedSide(bw, wh, ww);
      Rect(0, (bh - h) / 2, bw, h)
    else
      var w := FittedSide(bh, ww, wh);
      Rect((bw - w) / 2, 0, w, bh)
  }

  function Target(ww: int, wh: int, bw: int, bh: int): Rect
    requires ww > 0 && wh > 0
  {
    var r := Unaligned(ww, wh, bw, bh);
    Rect(AlignDown2(r.x), AlignDown2(r.y), AlignDown2(r.width), AlignDown2(r.height))
  }

  /** A fitted side is no longer than a side that the exact one does not exceed. */
  lemma FittedFits(side: int, num: int, den: int, limit: int)
    requires side > 0 && num > 0 && den > 0 && limit >= 0 && side * num <= limit * den
    ensures 0 <= FittedSide(side, num, den) <= limit
  {
    var p, q := (side * num) % U32, FittedSide(side, num, den);
    assert side * num >= 0;
    assert p <= side * num;
    DivMod(p, den);
    assert den * (limit + 1) == limit * den + den;
    CancelStrictly(den, q, limit + 1);
    CancelStrictly(den, -1, q);
  }

  /** The comparison of doubles, over exact quotients, is the comparison of products. */
  lemma WiderByReals(ww: int, wh: int, bw: int, bh: int)
    requires bw > 0 && bh > 0
    ensures ww as real / bw as real > wh as real / bh as real <==> Wider(ww, wh, bw, bh)
  {
    var a, b := ww as real / bw as real, wh as real / bh as real;
    var m := bw as real * bh as real;
    assert a * bw as real == ww as real && b * bh as real == wh as real;
    assert a * m == ww as real * bh as real == (ww * bh) as real;
    assert b * m == wh as real * bw as real == (wh * bw) as real;
    if a > b {
      assert (a - b) * m > 0.0;
    } else {
      assert (b - a) * m >= 0.0;
    }
  }

  /** The product in 32 bits, divided as doubles, which are taken as exact, and cast to an integer. */
  method Fit(side: int, num: int, den: int) returns (r: int)
    requires den > 0
    ensures r == FittedSide(side, num, den)
  {
    var p := (side * num) % U32;
    FloorOfQuotient(p, den);
    r := (p as real / den as real).Floor;
  }

  method FitTarget(ww: u32, wh: u32, bw: int, bh: int) returns (r: Rect)
    requires ww > 0 && wh > 0 && 0 < bw < 0x8000_0000 && 0 < bh < 0x8000_0000
    ensures r == Target(ww, wh, bw, bh)
    ensures ww == bw && wh == bh ==> r == Rect(0, 0, bw - bw % 2, bh - bh % 2)
  {
    WiderByReals(ww, wh, bw, bh);
    hide FittedSide, AlignDown2, Wider;
    if ww != bw || wh != bh {
      if ww as real / bw as real > wh as real / bh as real {
        var height := Fit(bw, wh, ww);
        r := Rect(0, (bh - height) / 2, bw, height);
      } else {
        var width := Fit(bh, ww, wh);
        r := Rect((bw - width) / 2, 0, width, bh);
      }
    } else {
      r := Rect(0, 0, bw, bh);
    }
    r := r.(x := AlignDown2(r.x));
    r := r.(y := AlignDown2(r.y));
    r := r.(width := AlignDown2(r.width));
    r := r.(height := AlignDown2(r.height));
  }

  /** One axis: a side in the middle of a total, both aligned down. */
  lemma AlignedCentre(total: int, side: int)
    requires 0 <= side <= total
    ensures var off, s := AlignDown2((total - side) / 2), AlignDown2(side);
            off % 2 == 0 && s % 2 == 0 && 0 <= off && 0 <= s && off + s <= total && 0 <= (total - s - off) - off <= 4
  {
  }

  /** Always inside the buffer, on even pixels, and centred up to the alignment. */
  lemma TargetIsInside(ww: u32, wh: u32, bw: int, bh: int)
    requires ww > 0 && wh > 0 && bw > 0 && bh > 0
    ensures var r := Target(ww, wh, bw, bh);
            && r.x % 2 == 0 && r.y % 2 == 0 && r.width % 2 == 0 && r.height % 2 == 0
            && 0 <= r.x && 0 <= r.y && 0 <= r.width && 0 <= r.height
            && r.x + r.width <= bw && r.y + r.height <= bh
            && 0 <= (bw - r.width - r.x) - r.x <= 4 && 0 <= (bh - r.height - r.y) - r.y <= 4
  {
    var u := Unaligned(ww, wh, bw, bh);
    if Wider(ww, wh, bw, bh) {
      FittedFits(bw, wh, ww, bh);
    } else {
      FittedFits(bh, ww, wh, bw);
    }
    assert u.x == (bw - u.width) / 2 && u.y == (bh - u.height) / 2 && 0 <= u.width <= bw && 0 <= u.height <= bh;
    AlignedCentre(bw, u.width);
    AlignedCentre(bh, u.height);
    hide Unaligned, FittedSide, Wider, AlignDown2;
  }

  /**
   * One side fills the buffer up to alignment, and the other is less than two pixels short of what keeps the
   * picture's shape: the width fills when the picture is the wider one, else the height.
   */
  predicate Close(ww: int, wh: int, bw: int, bh: int, r: Rect) {
    if ww * bh > wh * bw then
      r.x == 0 && r.width == bw - bw % 2 && 0 <= bw * wh - ww * r.height < 2 * ww
    else
      r.y == 0 && r.height == bh - bh % 2 && 0 <= bh * ww - wh * r.width < 2 * wh
  }

  lemma FittedIsClose(side: int, num: int, den: int)
    requires side > 0 && num > 0 && den > 0
    ensures var q := AlignDown2(FittedSide(side, num, den));
            && (side * num < U32 ==> 0 <= side * num - den * q < 2 * den)
            && (den <= 0x8000_0000 && side * num - den * q < 2 * den ==> side * num < U32)
  {
    var p, full := (side * num) % U32, FittedSide(side, num, den);
    assert side * num > 0;
    DivMod(p, den);
    var q := AlignDown2(full);
    assert q == full || q == full - 1;
    assert den * q == if q == full then den * full else den * full - den;
    if side * num >= U32 {
      Wraps(side * num);
    }
  }

  lemma Wraps(x: int)
    requires x >= U32
    ensures x % U32 + U32 <= x
  {
  }

  /** The product of the fitted side, if one is formed, is below 2^32. */
  predicate ProductFits(ww: int, wh: int, bw: int, bh: int) {
    (ww == bw && wh == bh) || (if ww * bh > wh * bw then bw * wh < 0x1_0000_0000 else bh * ww < 0x1_0000_0000)
  }

  /**
   * The picture keeps its shape to two pixels whenever the product does not wrap, whatever the sizes; a picture
   * of the buffer's size takes the whole buffer, where no product is formed. A product that wraps loses the
   * shape, for sides up to 2^31.
   */
  lemma AspectIsKept(ww: u32, wh: u32, bw: int, bh: int)
    requires ww > 0 && wh > 0 && bw > 0 && bh > 0
    ensures ProductFits(ww, wh, bw, bh) ==> Close(ww, wh, bw, bh, Target(ww, wh, bw, bh))
    ensures ww <= 0x8000_0000 && wh <= 0x8000_0000 && Close(ww, wh, bw, bh, Target(ww, wh, bw, bh)) ==>
              ProductFits(ww, wh, bw, bh)
    ensures ww == bw && wh == bh ==> Target(ww, wh, bw, bh) == Rect(0, 0, bw - bw % 2, bh - bh % 2)
  {
    if ww == bw && wh == bh {
      SameSizeIsClose(wh, bw);
    } else if Wider(ww, wh, bw, bh) {
      FittedIsClose(bw, wh, ww);
    } else {
      FittedIsClose(bh, ww, wh);
    }
  }

  lemma SameSizeIsClose(h: int, w: int)
    requires h > 0
    ensures 0 <= h * w - h * (w - w % 2) < 2 * h
  {
    assert h * w - h * (w - w % 2) == h * (w % 2);
  }
}
