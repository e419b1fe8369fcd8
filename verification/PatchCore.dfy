/** Shrinking a large suspicious region around its centre before a template is matched. */
module PatchCore {

  const MAX_AREA := 3600
  const SIDE := 60
  const STEP := 3

  datatype Rect = Rect(ltx: int, lty: int, rbx: int, rby: int) {
    function Width(): int {
      rbx - ltx
    }

    function Height(): int {
      rby - lty
    }

    function Area(): int {
      Width() * Height()
    }

    predicate Inside(outer: Rect) {
      outer.ltx <= ltx && rbx <= outer.rbx && outer.lty <= lty && rby <= outer.rby
    }
  }

  /** A side after n rounds: it loses 3 a round until it is at most 60. */
  function Side(x: int, n: nat): (y: int)
    ensures y <= x && (x <= SIDE ==> y == x) && (x > SIDE ==> y > SIDE - STEP)
  {
    if x <= SIDE then x
    else
      var most := (x - SIDE + STEP - 1) / STEP;
      x - STEP * if n < most then n else most
  }

  /** One more round takes 3 from a side that is still over 60. */
  lemma SideStep(x: int, n: nat)
    ensures Side(x, 0) == x
    ensures Side(x, n + 1) == if Side(x, n) > 60 then Side(x, n) - 3 else Side(x, n)
  {
  }

  lemma SideSettles(x: int, n: nat)
    requires n >= x
    ensures Side(x, n) <= SIDE
  {
  }

  function AreaAfter(w: int, h: int, n: nat): int {
    Side(w, n) * Side(h, n)
  }

  /** The first round after which the area is small enough. */
  ghost predicate FirstSmall(w: int, h: int, n: nat) {
    AreaAfter(w, h, n) <= MAX_AREA && forall m: nat :: m < n ==> AreaAfter(w, h, m) > MAX_AREA
  }

  ghost predicate Stops(w: int, h: int) {
    exists n: nat :: AreaAfter(w, h, n) <= MAX_AREA
  }

  lemma SmallSides(x: nat, y: nat)
    requires x <= SIDE && y <= SIDE
    ensures x * y <= MAX_AREA
  {
    MoreTimes(x, SIDE, y);
  }

  lemma MoreTimes(x: int, y: int, p: nat)
    requires x <= y
    ensures x * p <= y * p
  {
  }

  /** The loop ends exactly for sides that are not both negative. */
  lemma StopsIff(w: int, h: int)
    requires w * h > MAX_AREA
    ensures Stops(w, h) <==> w > 0
  {
    SameSign(w, h);
    if w > 0 {
      var n := w + h;
      SideSettles(w, n);
      SideSettles(h, n);
      SmallSides(Side(w, n), Side(h, n));
      assert AreaAfter(w, h, n) <= MAX_AREA;
    } else {
      assert forall n: nat :: AreaAfter(w, h, n) == w * h;
    }
  }

  lemma SameSign(w: int, h: int)
    requires w * h > 0
    ensures w != 0 && h != 0 && (w > 0 <==> h > 0)
  {
  }

  function Max(x: int, y: int): int {
    if x >= y then x else y
  }

  function Min(x: int, y: int): int {
    if x <= y then x else y
  }

  /** Sides w and h around the centre of r, cut at the image's edges. */
  function Around(r: Rect, w: int, h: int, cols: int, rows: int): Rect
    requires r.Width() > 0 && r.Height() > 0 && w > 0 && h > 0
  {
    var x, y := r.ltx + r.Width() / 2, r.lty + r.Height() / 2;
    Rect(Max(x - w / 2, 0), Max(y - h / 2, 0), Min(x + w / 2, cols), Min(y + h / 2, rows))
  }

  predicate InImage(r: Rect, cols: int, rows: int) {
    0 <= r.ltx && 0 <= r.lty && r.rbx <= cols && r.rby <= rows
  }

  lemma HalfProduct(w: nat, h: nat, area: int)
    requires w * h <= area
    ensures (2 * (w / 2)) * (2 * (h / 2)) <= area
  {
    MoreTimes(2 * (w / 2), w, h);
    MoreTimes(2 * (h / 2), h, 2 * (w / 2));
  }

  /** Within the image, the region ends up inside the old one and small; it is empty exactly
      when a side was a single pixel. */
  lemma ShrunkRegion(r: Rect, n: nat, cols: int, rows: int)
    requires r.Area() > MAX_AREA && r.Width() > 0 && r.Height() > 0 && InImage(r, cols, rows)
      && FirstSmall(r.Width(), r.Height(), n)
    ensures var q := Around(r, Side(r.Width(), n), Side(r.Height(), n), cols, rows);
      && q.Inside(r) && 0 <= q.Area() <= MAX_AREA && q.Width() >= 0 && q.Height() >= 0
      && (q.Area() > 0 <==> r.Width() >= 2 && r.Height() >= 2)
      && q.ltx + q.Width() / 2 == r.ltx + r.Width() / 2 && q.lty + q.Height() / 2 == r.lty + r.Height() / 2
      && q.Width() == Side(r.Width(), n) / 2 * 2 && q.Height() == Side(r.Height(), n) / 2 * 2
  {
    var w, h := Side(r.Width(), n), Side(r.Height(), n);
    var q := Around(r, w, h, cols, rows);
    assert q.Width() == 2 * (w / 2) && q.Height() == 2 * (h / 2);
    HalfProduct(w, h, MAX_AREA);
    Positive(q.Width(), q.Height());
  }

  /** A region one pixel wide: after one round its height is still large, after the last it
      is small enough, and nothing is left of the width. */
  lemma OnePixelWide()
    ensures var r := Rect(10, 0, 11, 3601);
      && FirstSmall(r.Width(), r.Height(), 1) && InImage(r, 5000, 5000)
      && Around(r, Side(r.Width(), 1), Side(r.Height(), 1), 5000, 5000) == Rect(10, 1, 10, 3599)
  {
    assert Side(3601, 0) == 3601 && Side(3601, 1) == 3598 && Side(1, 0) == 1 && Side(1, 1) == 1;
  }

  lemma Positive(x: nat, y: nat)
    ensures x * y >= 0 && (x * y > 0 <==> x > 0 && y > 0)
  {
  }

  class PatchCoreResult {
    var ltx: int
    var lty: int
    var rbx: int
    var rby: int

    ghost function Region(): Rect
      reads this
    {
      Rect(ltx, lty, rbx, rby)
    }

    /** `n` is the number of rounds. A region whose sides are both negative and whose area
        is large would never be done. */
    method Shrink(cols: int, rows: int) returns (ghost n: nat)
      requires Region().Area() > MAX_AREA ==> Stops(Region().Width(), Region().Height())
      modifies this
      ensures old(Region().Area()) <= MAX_AREA ==> Region() == old(Region())
      ensures old(Region().Area()) > MAX_AREA ==>
        var r := old(Region());
        var w, h := Side(r.Width(), n), Side(r.Height(), n);
        && FirstSmall(r.Width(), r.Height(), n) && r.Width() > 0 && r.Height() > 0
        && Region() == Around(r, w, h, cols, rows)
    {
      hide Side, FirstSmall, Stops, AreaAfter;
      n := 0;
      var area := (rbx - ltx) * (rby - lty);
      if area > MAX_AREA {
        var width, height := rbx - ltx, rby - lty;
        ghost var w, h := width, height;
        StopsIff(w, h);
        SameSign(w, h);
        var centerX, centerY := ltx + width / 2, lty + height / 2;
        SideStep(w, 0);
        SideStep(h, 0);
        while width * height > MAX_AREA
          invariant width == Side(w, n) && height == Side(h, n) && width > 0 && height > 0
          invariant forall m: nat :: m < n ==> AreaAfter(w, h, m) > MAX_AREA
          decreases width + height
        {
          OneIsLong(width, height);
          SideStep(w, n);
          SideStep(h, n);
          assert AreaAfter(w, h, n) > MAX_AREA by { AreaIs(w, h, n, width, height); }
          if width > SIDE {
            width := width - STEP;
          }
          if height > SIDE {
            height := height - STEP;
          }
          n := n + 1;
        }
        FirstSmallIs(w, h, n, width, height);
        ltx := Max(centerX - width / 2, 0);
        lty := Max(centerY - height / 2, 0);
        rbx := Min(centerX + width / 2, cols);
        rby := Min(centerY + height / 2, rows);
      }
    }
  }

  lemma AreaIs(w: int, h: int, n: nat, x: int, y: int)
    requires x == Side(w, n) && y == Side(h, n)
    ensures AreaAfter(w, h, n) == x * y
  {
  }

  lemma FirstSmallIs(w: int, h: int, n: nat, x: int, y: int)
    requires x == Side(w, n) && y == Side(h, n) && x * y <= MAX_AREA
    requires forall m: nat :: m < n ==> AreaAfter(w, h, m) > MAX_AREA
    ensures FirstSmall(w, h, n)
  {
  }

  lemma OneIsLong(w: nat, h: nat)
    requires w * h > MAX_AREA
    ensures w > SIDE || h > SIDE
  {
    if w <= SIDE && h <= SIDE {
      SmallSides(w, h);
    }
  }
}
