/** The top-down column scan both chunk forms use to find the surface. */
module Heights {
  import opened Common

  /** A block that ends the scan: present, and neither air nor cave air. */
  predicate IsSurface(b: Option<Block>) {
    b.Some? && b.value.name != "minecraft:air" && b.value.name != "minecraft:cave_air"
  }

  /** Scanning y = top, top - 1, ..., bottom and looking at the block at
      y - 1 (`solid[b]` says whether block b ends the scan): the first such
      y whose block is solid, or 0 when none of them is. The reported
      height is one above the surface block. */
  function ScanDown(solid: seq<bool>, top: int, bottom: nat): (h: int)
    requires 1 <= bottom && top <= |solid|
    ensures h == 0 || bottom <= h <= top
    decreases top - bottom
  {
    if top < bottom then 0
    else if solid[top - 1] then top
    else ScanDown(solid, top - 1, bottom)
  }

  /** The scan stops at the highest solid block of the range, and reports
      0 only when the whole range is clear. */
  lemma {:induction false} ScanDownSpec(solid: seq<bool>, top: int, bottom: nat)
    requires 1 <= bottom && top <= |solid|
    ensures var h := ScanDown(solid, top, bottom);
      (h != 0 ==> solid[h - 1] && forall b :: h <= b < top ==> !solid[b]) &&
      (h == 0 ==> forall b :: bottom - 1 <= b < top ==> !solid[b])
    decreases top - bottom
  {
    if top >= bottom && !solid[top - 1] {
      ScanDownSpec(solid, top - 1, bottom);
    }
  }

  /** Lowering the bottom of the scan by one looks at one more block, and
      only when nothing above it was solid. */
  lemma {:induction false} ScanDownExtend(solid: seq<bool>, top: int, bottom: nat)
    requires 2 <= bottom && bottom - 1 <= top <= |solid|
    ensures ScanDown(solid, top, bottom - 1) ==
      if ScanDown(solid, top, bottom) != 0 then ScanDown(solid, top, bottom)
      else if solid[bottom - 2] then bottom - 1
      else 0
    decreases top - bottom
  {
    if top >= bottom && !solid[top - 1] {
      ScanDownExtend(solid, top - 1, bottom);
    }
  }

  /** Once the scan has found a height, scanning further down does not
      change it. */
  lemma {:induction false} ScanDownLower(solid: seq<bool>, top: int, bottom: nat, lower: nat)
    requires 1 <= lower <= bottom && top <= |solid|
    requires ScanDown(solid, top, bottom) != 0
    ensures ScanDown(solid, top, lower) == ScanDown(solid, top, bottom)
    decreases top - bottom
  {
    if !solid[top - 1] {
      ScanDownLower(solid, top - 1, bottom, lower);
    }
  }

  /** One step of a top-down scan that has found nothing above y: block
      y - 1 either ends the whole scan at y or leaves it still empty. */
  lemma ScanDownStep(solid: seq<bool>, top: int, y: nat)
    requires 1 <= y <= top <= |solid|
    requires ScanDown(solid, top, y + 1) == 0
    ensures solid[y - 1] ==> ScanDown(solid, top, 1) == y
    ensures !solid[y - 1] ==> ScanDown(solid, top, y) == 0
  {
    ScanDownExtend(solid, top, y + 1);
    if solid[y - 1] {
      ScanDownLower(solid, top, y, 1);
    }
  }

  /** Conversely, a height that is solid below and clear above, up to the
      top, is the scan's result. */
  lemma ScanDownUnique(solid: seq<bool>, top: int, bottom: nat, h: int)
    requires 1 <= bottom <= h <= top <= |solid| && solid[h - 1]
    requires forall b :: h <= b < top ==> !solid[b]
    ensures ScanDown(solid, top, bottom) == h
  {
    ScanDownSpec(solid, top, bottom);
  }

  /** A column with nothing solid in the scanned range scans to 0. */
  lemma ScanDownClear(solid: seq<bool>, top: int, bottom: nat)
    requires 1 <= bottom && top <= |solid|
    requires forall b :: bottom - 1 <= b < top ==> !solid[b]
    ensures ScanDown(solid, top, bottom) == 0
  {
    ScanDownSpec(solid, top, bottom);
  }
}
