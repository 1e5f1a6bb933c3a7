/** The chunk query layer of the older, borrowed chunk form (fastanvil
    types.rs): sections found by y through a lazily built y-to-index map,
    block lookup through a write-once cache of unpacked block states, a
    write-once height-map cache, the byte-buffer biome lookup, and the
    top-down surface scan. */
module Anvil {
  import opened Common
  import opened Heights
  import Borrow

  /** Rust's `usize`. */
  type Usize = n: int | 0 <= n < 0x1_0000_0000_0000_0000

  /** A 16x16x16 section with its cache of unpacked block states. */
  datatype Section = Section(
    y: I8,
    blockStates: Option<PackedBits>,
    palette: seq<Block>,
    unpackedStates: Option<StateBuffer>)

  /** The height maps Minecraft keeps, with the cache of the unpacked
      motion-blocking map. */
  datatype Heightmaps = Heightmaps(
    motionBlocking: Option<PackedBits>,
    motionBlockingNoLeaves: Option<PackedBits>,
    oceanFloor: Option<PackedBits>,
    worldSurface: Option<PackedBits>,
    unpackedMotionBlocking: Option<HeightBuffer>)

  // ---------------------------------------------------------------------
  // Locating a section by y
  // ---------------------------------------------------------------------

  /** The sections' heights, in order. */
  function Ys(secs: seq<Section>): (ys: seq<I8>)
    ensures |ys| == |secs|
  {
    if secs == [] then [] else Ys(secs[..|secs| - 1]) + [secs[|secs| - 1].y]
  }

  lemma {:induction false} YsSpec(secs: seq<Section>)
    ensures forall i :: 0 <= i < |secs| ==> Ys(secs)[i] == secs[i].y
  {
    if secs != [] {
      YsSpec(secs[..|secs| - 1]);
    }
  }

  /** The map calculate_sec_map builds from the section heights, one
      insertion per section in order. */
  function KeyIndex(ys: seq<I8>): map<I8, nat> {
    if ys == [] then map[] else KeyIndex(ys[..|ys| - 1])[ys[|ys| - 1] := |ys| - 1]
  }

  /** Every height that occurs is mapped to the position of its LAST
      occurrence, and nothing else is mapped. */
  lemma {:induction false} KeyIndexSpec(ys: seq<I8>)
    ensures forall k :: k in KeyIndex(ys) <==> k in ys
    ensures forall k :: k in KeyIndex(ys) ==> KeyIndex(ys)[k] < |ys| && ys[KeyIndex(ys)[k]] == k
    ensures forall k, j :: k in KeyIndex(ys) && KeyIndex(ys)[k] < j < |ys| ==> ys[j] != k
  {
    if ys != [] {
      var init := ys[..|ys| - 1];
      KeyIndexSpec(init);
      assert forall k :: k in ys <==> k in init || k == ys[|ys| - 1];
    }
  }

  lemma KeyIndexStep(ys: seq<I8>, i: nat)
    requires i < |ys|
    ensures KeyIndex(ys[..i + 1]) == KeyIndex(ys[..i])[ys[i] := i]
  {
    assert ys[..i + 1][..i] == ys[..i];
  }

  lemma MergeUpdate<K, V>(m: map<K, V>, n: map<K, V>, k: K, v: V)
    ensures (m + n)[k := v] == m + n[k := v]
  {
  }

  /** get_section_for_y, as a function of the sections: the position the
      map gives for `(y / 16) as i8`, if it is a position of `sections`;
      None when the key is missing or there are no sections. */
  function SectionIndex(secs: Option<seq<Section>>, y: nat): (r: Option<nat>)
    ensures r.Some? ==> secs.Some? && r.value < |secs.value|
  {
    if secs.None? || secs.value == [] then None
    else
      var m := KeyIndex(Ys(secs.value));
      var key := WrapI8(y / 16);
      if key in m && m[key] < |secs.value| then Some(m[key]) else None
  }

  /** The section found holds y's key and is the LAST one that does; None
      means no section has that key. */
  lemma SectionIndexSpec(secs: Option<seq<Section>>, y: nat)
    ensures var r := SectionIndex(secs, y);
      (r.Some? ==> secs.value[r.value].y == WrapI8(y / 16) &&
                   forall j :: r.value < j < |secs.value| ==> secs.value[j].y != WrapI8(y / 16)) &&
      (r.None? ==> secs.None? || forall i :: 0 <= i < |secs.value| ==> secs.value[i].y != WrapI8(y / 16))
  {
    if secs.Some? && secs.value != [] {
      var ys := Ys(secs.value);
      KeyIndexSpec(ys);
      YsSpec(secs.value);
      assert forall i :: 0 <= i < |ys| ==> ys[i] in ys;
    }
  }

  // ---------------------------------------------------------------------
  // Block lookup
  // ---------------------------------------------------------------------

  /** What the block-state cache of a section holds once filled: the
      unpacked states when there are block states, else the zero fill. */
  function Expected(ext: External, sec: Section): StateBuffer {
    if sec.blockStates.Some? then ext.unpackInto(sec.blockStates.value, ext.bitsPerBlock(|sec.palette|))
    else Zeros(4096)
  }

  /** Position of block (x, secY, z) in a section's state buffer. */
  function StateIndex(secY: int, x: int, z: int): int {
    secY * 256 + z * 16 + x
  }

  /** The block at (x, y, z) read through a filled cache. */
  function SettledBlockIn(ext: External, secs: Option<seq<Section>>, x: nat, y: nat, z: nat): Option<Block> {
    match SectionIndex(secs, y)
    case None => None
    case Some(i) =>
      var sec := secs.value[i];
      var idx := StateIndex(y - sec.y * 16, x, z);
      if 0 <= idx < 4096 then Get(sec.palette, Expected(ext, sec)[idx]) else None
  }

  /** What `block` returns in a given state: None for a section whose
      cache is empty and which has no block states (the cache is zero
      filled first, so only the FIRST such call gives None); otherwise the
      palette entry named by the unpacked states. */
  function BlockIn(ext: External, secs: Option<seq<Section>>, x: nat, y: nat, z: nat): Option<Block> {
    match SectionIndex(secs, y)
    case None => None
    case Some(i) =>
      var sec := secs.value[i];
      if sec.blockStates.None? && sec.unpackedStates.None? then None
      else SettledBlockIn(ext, secs, x, y, z)
  }

  /** `block` does not panic: the section's y is not negative and not
      above y, the state index fits a `usize`, and it is inside the
      4096-entry buffer whenever the buffer is read. */
  predicate BlockNoPanic(secs: Option<seq<Section>>, x: nat, y: nat, z: nat) {
    match SectionIndex(secs, y)
    case None => true
    case Some(i) =>
      var sec := secs.value[i];
      var idx := StateIndex(y - sec.y * 16, x, z);
      0 <= sec.y && sec.y * 16 <= y && idx < 0x1_0000_0000_0000_0000 &&
      (sec.blockStates.Some? || sec.unpackedStates.Some? ==> idx < 4096)
  }

  /** Within the 16x16 columns and below y = 2048 (so that `y / 16` fits
      an i8), `block` never panics. */
  lemma BlockSafeInChunk(secs: Option<seq<Section>>, x: nat, y: nat, z: nat)
    requires x < 16 && z < 16 && y < 2048
    ensures BlockNoPanic(secs, x, y, z)
  {
    var si := SectionIndex(secs, y);
    SectionIndexSpec(secs, y);
    if si.Some? {
      var sec := secs.value[si.value];
      assert sec.y == y / 16;
      assert y - sec.y * 16 == y % 16;
    }
  }

  /** The sections after `block` has filled the cache of the section it
      looked in (if that cache was empty). */
  function Filled(ext: External, secs: Option<seq<Section>>, si: Option<nat>): (r: Option<seq<Section>>)
    requires si.Some? ==> secs.Some? && si.value < |secs.value|
  {
    if si.None? || secs.value[si.value].unpackedStates.Some? then secs
    else
      var sec := secs.value[si.value];
      Some(secs.value[si.value := sec.(unpackedStates := Some(Expected(ext, sec)))])
  }

  /** Every filled cache holds what unpacking gives. */
  predicate CachesCoherent(ext: External, secs: Option<seq<Section>>) {
    secs.Some? ==>
      forall i :: 0 <= i < |secs.value| && secs.value[i].unpackedStates.Some? ==>
        secs.value[i].unpackedStates.value == Expected(ext, secs.value[i])
  }

  /** No section is in the state where `block` answers None once and
      then palette[0]: each has block states, a filled cache, or an empty
      palette. */
  predicate Settled(secs: Option<seq<Section>>) {
    secs.Some? ==>
      forall i :: 0 <= i < |secs.value| ==>
        secs.value[i].blockStates.Some? || secs.value[i].unpackedStates.Some? || secs.value[i].palette == []
  }

  /** The sections with every cache emptied: what deserialization gives. */
  function Strip(secs: Option<seq<Section>>): (r: Option<seq<Section>>)
    ensures r.Some? <==> secs.Some?
    ensures secs.Some? ==> r.value == StripAll(secs.value)
  {
    if secs.None? then None
    else Some(StripAll(secs.value))
  }

  function StripAll(secs: seq<Section>): (r: seq<Section>)
    ensures |r| == |secs|
  {
    if secs == [] then [] else StripAll(secs[..|secs| - 1]) + [secs[|secs| - 1].(unpackedStates := None)]
  }

  /** Stripping empties each cache and keeps everything else. */
  lemma {:induction false} StripAllSpec(secs: seq<Section>)
    ensures forall i :: 0 <= i < |secs| ==> StripAll(secs)[i] == secs[i].(unpackedStates := None)
  {
    if secs != [] {
      StripAllSpec(secs[..|secs| - 1]);
    }
  }

  /** Caches are invisible once the sections are settled. */
  lemma SettledBlockAgrees(ext: External, secs: Option<seq<Section>>, x: nat, y: nat, z: nat)
    requires Settled(secs)
    ensures BlockIn(ext, secs, x, y, z) == SettledBlockIn(ext, secs, x, y, z)
  {
  }

  /** A filled cache never shows in a settled lookup: only the heights,
      block states and palettes matter. */
  lemma SettledBlockIgnoresCaches(ext: External, secs: Option<seq<Section>>, x: nat, y: nat, z: nat)
    ensures SettledBlockIn(ext, secs, x, y, z) == SettledBlockIn(ext, Strip(secs), x, y, z)
  {
    if secs.Some? {
      StripKeepsYs(secs.value);
      StripAllSpec(secs.value);
      assert SectionIndex(Strip(secs), y) == SectionIndex(secs, y);
    }
  }

  lemma StripKeepsYs(secs: seq<Section>)
    ensures Ys(StripAll(secs)) == Ys(secs)
  {
    var a, b := Ys(StripAll(secs)), Ys(secs);
    YsSpec(StripAll(secs));
    YsSpec(secs);
    StripAllSpec(secs);
    assert |a| == |b|;
    forall i | 0 <= i < |a| ensures a[i] == b[i] {
    }
  }

  /** Filling a cache keeps the caches coherent, keeps the settled shape
      and changes nothing but that cache. */
  lemma FilledKeeps(ext: External, secs: Option<seq<Section>>, si: Option<nat>)
    requires si.Some? ==> secs.Some? && si.value < |secs.value|
    requires CachesCoherent(ext, secs)
    ensures CachesCoherent(ext, Filled(ext, secs, si))
    ensures Strip(Filled(ext, secs, si)) == Strip(secs)
    ensures Settled(secs) ==> Settled(Filled(ext, secs, si))
    ensures secs.Some? ==> Filled(ext, secs, si).Some? && Ys(Filled(ext, secs, si).value) == Ys(secs.value)
  {
    var secs' := Filled(ext, secs, si);
    FilledKeepsYs(ext, secs, si);
    if secs != secs' {
      StripAllSpec(secs.value);
      StripAllSpec(secs'.value);
      var a, b := StripAll(secs'.value), StripAll(secs.value);
      forall i | 0 <= i < |a| ensures a[i] == b[i] {
      }
      assert a == b;
    }
  }

  /** Filling a cache never changes an answer `block` has already given. */
  lemma FilledKeepsAnswer(ext: External, secs: Option<seq<Section>>, si: Option<nat>, x: nat, y: nat, z: nat)
    requires si.Some? ==> secs.Some? && si.value < |secs.value|
    requires BlockIn(ext, secs, x, y, z).Some?
    ensures BlockIn(ext, Filled(ext, secs, si), x, y, z) == BlockIn(ext, secs, x, y, z)
  {
    var secs' := Filled(ext, secs, si);
    if secs != secs' {
      FilledKeepsYs(ext, secs, si);
      assert SectionIndex(secs', y) == SectionIndex(secs, y);
    }
  }

  /** Where an answer does change: a section with a palette,
      no block states and an empty cache answers None on the first lookup,
      because the zero-filled cache is stored before the missing states are
      noticed, and palette[0] on every lookup after that. */
  lemma FirstLookupThenPaletteZero(ext: External, secs: Option<seq<Section>>, x: nat, y: nat, z: nat)
    requires SectionIndex(secs, y).Some?
    requires var sec := secs.value[SectionIndex(secs, y).value];
      sec.blockStates.None? && sec.unpackedStates.None? && sec.palette != [] &&
      0 <= StateIndex(y - sec.y * 16, x, z) < 4096
    ensures BlockIn(ext, secs, x, y, z) == None
    ensures BlockIn(ext, Filled(ext, secs, SectionIndex(secs, y)), x, y, z) == Some(secs.value[SectionIndex(secs, y).value].palette[0])
  {
    var si := SectionIndex(secs, y);
    var secs' := Filled(ext, secs, si);
    FilledKeepsYs(ext, secs, si);
    assert SectionIndex(secs', y) == si;
  }

  /** Filling a cache keeps every section's y. */
  lemma FilledKeepsYs(ext: External, secs: Option<seq<Section>>, si: Option<nat>)
    requires si.Some? ==> secs.Some? && si.value < |secs.value|
    ensures secs.Some? ==> Filled(ext, secs, si).Some? && Ys(Filled(ext, secs, si).value) == Ys(secs.value)
  {
    var secs' := Filled(ext, secs, si);
    if secs != secs' {
      var a, b := Ys(secs'.value), Ys(secs.value);
      YsSpec(secs.value);
      YsSpec(secs'.value);
      forall i | 0 <= i < |a| ensures a[i] == b[i] {
      }
      assert a == b;
    }
  }

  // ---------------------------------------------------------------------
  // Height lookup
  // ---------------------------------------------------------------------

  /** `v as usize` for an i32: sign extension to 64 bits. */
  function UsizeOfI32(v: I32): (r: Usize)
    ensures (r - v) % 0x1_0000_0000_0000_0000 == 0
    ensures v >= 0 ==> r == v
  {
    if v < 0 then v + 0x1_0000_0000_0000_0000 else v
  }

  /** What `height_of` returns in a given state. */
  function HeightIn(ext: External, hm: Option<Heightmaps>, old_: Option<seq<I32>>, x: nat, z: nat): Option<nat> {
    var idx := z * 16 + x;
    match hm
    case Some(maps) =>
      if maps.unpackedMotionBlocking.Some? then
        (if idx < 256 then Some(maps.unpackedMotionBlocking.value[idx]) else None)
      else if maps.motionBlocking.None? then None
      else if idx < 256 then Some(ext.unpackHeightsInto(maps.motionBlocking.value)[idx])
      else None
    case None =>
      if old_.Some? && idx < |old_.value| then Some(UsizeOfI32(old_.value[idx])) else None
  }

  /** `height_of` does not panic: the column index is inside whichever
      buffer it reads. */
  predicate HeightNoPanic(hm: Option<Heightmaps>, old_: Option<seq<I32>>, x: nat, z: nat) {
    match hm
    case Some(maps) =>
      maps.unpackedMotionBlocking.Some? || maps.motionBlocking.Some? ==> z * 16 + x < 256
    case None =>
      old_.Some? ==> z * 16 + x < |old_.value|
  }

  /** The height maps after `height_of` has filled the cache. */
  function HeightsFilled(ext: External, hm: Option<Heightmaps>): Option<Heightmaps> {
    if hm.None? || hm.value.unpackedMotionBlocking.Some? then hm
    else
      var heights := if hm.value.motionBlocking.Some? then ext.unpackHeightsInto(hm.value.motionBlocking.value) else Zeros(256);
      Some(hm.value.(unpackedMotionBlocking := Some(heights)))
  }

  /** Filling the height cache keeps every height already given. */
  lemma HeightsFilledKeeps(ext: External, hm: Option<Heightmaps>, old_: Option<seq<I32>>, x: nat, z: nat)
    requires HeightIn(ext, hm, old_, x, z).Some?
    ensures HeightIn(ext, HeightsFilled(ext, hm), old_, x, z) == HeightIn(ext, hm, old_, x, z)
  {
  }

  // ---------------------------------------------------------------------
  // The surface scan
  // ---------------------------------------------------------------------

  /** Which of the blocks y = 0 to n - 1 of column (x, z) end the surface
      scan. */
  function SolidBelow(ext: External, secs: Option<seq<Section>>, x: nat, z: nat, n: nat): (col: seq<bool>)
    ensures |col| == n
  {
    if n == 0 then [] else SolidBelow(ext, secs, x, z, n - 1) + [IsSurface(SettledBlockIn(ext, secs, x, n - 1, z))]
  }

  /** Entry y of the column is the scan's verdict on block (x, y, z). */
  lemma {:induction false} SolidBelowAt(ext: External, secs: Option<seq<Section>>, x: nat, z: nat, n: nat, y: nat)
    requires y < n
    ensures SolidBelow(ext, secs, x, z, n)[y] == IsSurface(SettledBlockIn(ext, secs, x, y, z))
  {
    if y < n - 1 {
      SolidBelowAt(ext, secs, x, z, n - 1, y);
    }
  }

  /** The whole scanned column, y = 0 to 255. */
  function SolidIn(ext: External, secs: Option<seq<Section>>, x: nat, z: nat): (col: seq<bool>)
    ensures |col| == 256
  {
    SolidBelow(ext, secs, x, z, 256)
  }

  /** The height the scan records for column (x, z): scanning y = 256
      down to 2 and looking at block y - 1. */
  function ColumnHeight(ext: External, secs: Option<seq<Section>>, x: nat, z: nat): (h: U16)
    ensures h == 0 || 2 <= h <= 256
  {
    ScanDown(SolidIn(ext, secs, x, z), 256, 2)
  }

  /** The first n entries of the map recalculate_heightmap builds,
      addressed z * 16 + x. */
  function HeightsBelow(ext: External, secs: Option<seq<Section>>, n: nat): (hs: seq<U16>)
    requires n <= 256
    ensures |hs| == n
  {
    if n == 0 then [] else HeightsBelow(ext, secs, n - 1) + [ColumnHeight(ext, secs, (n - 1) % 16, (n - 1) / 16)]
  }

  /** The whole map. */
  function SurfaceHeights(ext: External, secs: Option<seq<Section>>): HeightBuffer {
    HeightsBelow(ext, secs, 256)
  }

  lemma {:induction false} HeightsBelowAt(ext: External, secs: Option<seq<Section>>, n: nat, j: nat)
    requires j < n <= 256
    ensures HeightsBelow(ext, secs, n)[j] == ColumnHeight(ext, secs, j % 16, j / 16)
  {
    if j < n - 1 {
      HeightsBelowAt(ext, secs, n - 1, j);
    }
  }

  /** Entry z * 16 + x of the map is the scanned height of column (x, z). */
  lemma SurfaceHeightsAt(ext: External, secs: Option<seq<Section>>, x: nat, z: nat)
    requires x < 16 && z < 16
    ensures SurfaceHeights(ext, secs)[z * 16 + x] == ColumnHeight(ext, secs, x, z)
  {
    ColumnIndex(x, z);
    HeightsBelowAt(ext, secs, 256, z * 16 + x);
  }

  /** In a settled chunk, what `block` answers for y is what the scan of
      the deserialized sections sees. */
  lemma SolidAgrees(ext: External, secs: Option<seq<Section>>, x: nat, y: nat, z: nat)
    requires Settled(secs)
    requires y < 256
    ensures SolidIn(ext, Strip(secs), x, z)[y] == IsSurface(BlockIn(ext, secs, x, y, z))
  {
    SettledBlockAgrees(ext, secs, x, y, z);
    SettledBlockIgnoresCaches(ext, secs, x, y, z);
    SolidBelowAt(ext, Strip(secs), x, z, 256, y);
  }

  /** What a `block` call leaves behind for the surface scan. */
  lemma AfterBlockCall(ext: External, before: Option<seq<Section>>, after: Option<seq<Section>>, x: nat, y: nat, z: nat)
    requires after == Filled(ext, before, SectionIndex(before, y))
    requires CachesCoherent(ext, before)
    ensures Strip(after) == Strip(before)
    ensures Settled(before) ==> Settled(after)
  {
    FilledKeeps(ext, before, SectionIndex(before, y));
  }

  /** Every entry is 0 (no surface found) or a height from 2 to 256. */
  predicate InRange(heights: seq<U16>) {
    forall j :: 0 <= j < |heights| ==> heights[j] == 0 || 2 <= heights[j] <= 256
  }

  /** Recording column k's height extends a correct prefix of the map by
      one entry and keeps every entry in range. */
  lemma RowStep(ext: External, secs: Option<seq<Section>>, heights: seq<U16>, k: nat, h: U16)
    requires |heights| == 256 && k < 256 && InRange(heights) && (h == 0 || 2 <= h <= 256)
    ensures |heights[k := h]| == 256 && InRange(heights[k := h])
    ensures heights[..k] == HeightsBelow(ext, secs, k) && h == ColumnHeight(ext, secs, k % 16, k / 16) ==>
      heights[k := h][..k + 1] == HeightsBelow(ext, secs, k + 1)
  {
    assert heights[k := h][..k + 1] == heights[..k] + [h];
  }

  lemma ColumnIndex(x: nat, z: nat)
    requires x < 16 && z < 16
    ensures 0 <= z * 16 + x < 256 && (z * 16 + x) % 16 == x && (z * 16 + x) / 16 == z
  {
  }

  // ---------------------------------------------------------------------
  // The chunk
  // ---------------------------------------------------------------------

  class Chunk {
    const dataVersion: I32
    const xPos: I32
    const zPos: I32
    const biomes: Option<seq<Byte>>
    const oldHeightmap: Option<seq<I32>>
    const status: string
    /** The collaborators defined elsewhere in the library. */
    const ext: External
    var sections: Option<seq<Section>>
    var heightmaps: Option<Heightmaps>
    /** Section y to position in `sections`; empty until first needed. */
    var secMap: map<I8, nat>

    ghost predicate Valid()
      reads this
    {
      (secMap == map[] || (sections.Some? && secMap == KeyIndex(Ys(sections.value)))) &&
      CachesCoherent(ext, sections)
    }

    /** The chunk is valid, its sections differ from `secs0` at most in
        their caches, it is still settled if it was, and its height maps
        are `hm0`: what a run of block lookups leaves behind. */
    ghost predicate Probed(secs0: Option<seq<Section>>, settled0: bool, hm0: Option<Heightmaps>)
      reads this
    {
      Valid() && Strip(sections) == secs0 && (settled0 ==> Settled(sections)) && heightmaps == hm0
    }

    /** A freshly deserialized chunk: every cache empty, no section map. */
    constructor (dataVersion: I32, xPos: I32, zPos: I32, biomes: Option<seq<Byte>>,
                 heightmaps: Option<Heightmaps>, oldHeightmap: Option<seq<I32>>,
                 sections: Option<seq<Section>>, status: string, ext: External)
      ensures Valid()
      ensures this.dataVersion == dataVersion && this.xPos == xPos && this.zPos == zPos
      ensures this.biomes == biomes && this.oldHeightmap == oldHeightmap
      ensures this.status == status && this.ext == ext
      ensures this.sections == Strip(sections) && this.secMap == map[]
      ensures this.heightmaps == if heightmaps.Some? then Some(heightmaps.value.(unpackedMotionBlocking := None)) else None
    {
      this.dataVersion := dataVersion;
      this.xPos := xPos;
      this.zPos := zPos;
      this.biomes := biomes;
      this.oldHeightmap := oldHeightmap;
      this.status := status;
      this.ext := ext;
      this.sections := Strip(sections);
      if sections.Some? {
        StripAllSpec(sections.value);
      }
      this.heightmaps := if heightmaps.Some? then Some(heightmaps.value.(unpackedMotionBlocking := None)) else None;
      this.secMap := map[];
    }

    /** calculate_sec_map: insert every section's y with its position, in
        order, into the existing map. */
    method CalculateSecMap()
      modifies this
      ensures secMap == old(secMap) + (if sections.Some? then KeyIndex(Ys(sections.value)) else map[])
      ensures sections == old(sections) && heightmaps == old(heightmaps)
    {
      if sections.Some? {
        var secs := sections.value;
        ghost var ys := Ys(secs);
        YsSpec(secs);
        var i := 0;
        while i < |secs|
          invariant 0 <= i <= |secs|
          invariant secMap == old(secMap) + KeyIndex(ys[..i])
          invariant sections == old(sections) && heightmaps == old(heightmaps)
        {
          KeyIndexStep(ys, i);
          MergeUpdate(old(secMap), KeyIndex(ys[..i]), secs[i].y, i);
          secMap := secMap[secs[i].y := i];
          i := i + 1;
        }
        assert ys[..i] == ys;
      }
    }

    /** get_section_for_y: position of the section holding y. */
    method GetSectionForY(y: Usize) returns (r: Option<nat>)
      requires Valid()
      modifies this
      ensures Valid()
      ensures r == SectionIndex(sections, y)
      ensures sections == old(sections) && heightmaps == old(heightmaps)
      ensures secMap == if sections.None? || sections.value == [] then old(secMap) else KeyIndex(Ys(sections.value))
    {
      if sections.None? || sections.value == [] {
        return None;
      }
      if secMap == map[] {
        CalculateSecMap();
        assert secMap == KeyIndex(Ys(sections.value));
      }
      var key := WrapI8(y / 16);
      if key !in secMap {
        return None;
      }
      var idx := secMap[key];
      if idx < |sections.value| {
        r := Some(idx);
      } else {
        r := None;
      }
    }

    /** block: the palette entry for (x, y, z), unpacking the section's
        block states into its cache on first use. */
    method Block(x: Usize, y: Usize, z: Usize) returns (r: Option<Block>)
      requires Valid() && BlockNoPanic(sections, x, y, z)
      modifies this
      ensures Valid()
      ensures r == old(BlockIn(ext, sections, x, y, z))
      ensures sections == old(Filled(ext, sections, SectionIndex(sections, y)))
      ensures heightmaps == old(heightmaps)
      ensures secMap == if sections.None? || sections.value == [] then old(secMap) else KeyIndex(Ys(sections.value))
    {
      ghost var secs0 := sections;
      var si := GetSectionForY(y);
      if si.None? {
        return None;
      }
      FilledKeeps(ext, secs0, si);
      var i := si.value;
      var secs := sections.value;
      var sec := secs[i];
      var secY := y - sec.y * 16;
      var stateIndex := secY * 256 + z * 16 + x;
      if sec.unpackedStates.None? {
        var bitsPerItem := ext.bitsPerBlock(|sec.palette|);
        sec := sec.(unpackedStates := Some(Zeros(4096)));
        sections := Some(secs[i := sec]);
        if sec.blockStates.None? {
          assert sections == Filled(ext, secs0, si);
          return None;
        }
        sec := sec.(unpackedStates := Some(ext.unpackInto(sec.blockStates.value, bitsPerItem)));
        assert sec == secs[i].(unpackedStates := Some(Expected(ext, secs[i])));
        sections := Some(secs[i := sec]);
      }
      assert sections == Filled(ext, secs0, si);
      var palIndex := sec.unpackedStates.value[stateIndex];
      r := Get(sec.palette, palIndex);
    }

    /** height_of: the motion-blocking height of column (x, z), unpacked
        into the cache on first use; the old per-column map when the chunk
        has no height maps. */
    method HeightOf(x: Usize, z: Usize) returns (r: Option<nat>)
      requires HeightNoPanic(heightmaps, oldHeightmap, x, z)
      modifies this
      ensures r == old(HeightIn(ext, heightmaps, oldHeightmap, x, z))
      ensures heightmaps == old(HeightsFilled(ext, heightmaps))
      ensures sections == old(sections) && secMap == old(secMap)
    {
      match heightmaps {
        case Some(maps) =>
          var maps' := maps;
          if maps.unpackedMotionBlocking.None? {
            maps' := maps.(unpackedMotionBlocking := Some(Zeros(256)));
            heightmaps := Some(maps');
            if maps.motionBlocking.None? {
              return None;
            }
            maps' := maps.(unpackedMotionBlocking := Some(ext.unpackHeightsInto(maps.motionBlocking.value)));
            heightmaps := Some(maps');
          }
          r := Some(maps'.unpackedMotionBlocking.value[z * 16 + x]);
        case None =>
          if oldHeightmap.Some? {
            r := Some(UsizeOfI32(oldHeightmap.value[z * 16 + x]));
          } else {
            r := None;
          }
      }
    }

    /** biome_of: the biome code read from the raw buffer, laid out by its
        length; y is not used. */
    function BiomeOf(x: Usize, y: Usize, z: Usize): (r: Option<Biome>)
      requires biomes.Some? && |biomes.value| == 4096 ==> 4 * ((z / 4) * 4 + x / 4) <= 4096
      requires biomes.Some? && |biomes.value| == 1024 ==> 4 * (z * 16 + x) <= 1024
      ensures biomes.None? || (|biomes.value| != 4096 && |biomes.value| != 1024) ==> r.None?
    {
      if biomes.None? then None
      else
        var buf := biomes.value;
        if |buf| == 1024 * 4 then
          var i := 4 * ((z / 4) * 4 + x / 4);
          match ReadI32(buf, i)
          case None => None
          case Some(code) => ext.biomeFromCode(code)
        else if |buf| == 256 * 4 then
          var i := 4 * (z * 16 + x);
          match ReadI32(buf, i)
          case None => None
          case Some(code) => ext.biomeFromCode(code)
        else None
    }

    /** Within the 16x16 columns the biome is element `(z/4)*4 + x/4` (4096
        bytes) or `z*16 + x` (1024 bytes) of the buffer read as an int
        array, whatever y is. */
    lemma BiomeCells(x: Usize, y: Usize, z: Usize)
      requires x < 16 && z < 16 && biomes.Some?
      requires |biomes.value| == 4096 || |biomes.value| == 1024
      ensures |Borrow.DecodeInts(biomes.value)| == |biomes.value| / 4
      ensures |biomes.value| == 4096 ==>
        BiomeOf(x, y, z) == ext.biomeFromCode(Borrow.DecodeInts(biomes.value)[(z / 4) * 4 + x / 4])
      ensures |biomes.value| == 1024 ==>
        BiomeOf(x, y, z) == ext.biomeFromCode(Borrow.DecodeInts(biomes.value)[z * 16 + x])
    {
      var buf := biomes.value;
      var k := if |buf| == 4096 then (z / 4) * 4 + x / 4 else z * 16 + x;
      assert k < |buf| / 4;
      Borrow.DecodeIntsAt(buf, k);
      Borrow.DecodeIntsLength(buf);
    }

    /** One probe of the surface scan: is block (x, y, z) present and
        neither air nor cave air? */
    method ProbeSurface(x: Usize, y: Usize, z: Usize) returns (surface: bool)
      requires Valid() && x < 16 && z < 16 && y < 256
      modifies this
      ensures Valid() && Strip(sections) == old(Strip(sections)) && heightmaps == old(heightmaps)
      ensures old(Settled(sections)) ==> Settled(sections)
      ensures old(Settled(sections)) ==> surface == SolidIn(ext, old(Strip(sections)), x, z)[y]
    {
      BlockSafeInChunk(sections, x, y, z);
      ghost var before := sections;
      if Settled(before) {
        SolidAgrees(ext, before, x, y, z);
      }
      var block := Block(x, y, z);
      AfterBlockCall(ext, before, sections, x, y, z);
      surface := IsSurface(block);
    }

    /** The innermost loop of recalculate_heightmap for column (x, z):
        y = 256 down to 2, stopping at the first y whose block y - 1 is
        neither absent nor air. */
    method ScanColumn(x: Usize, z: Usize) returns (h: U16)
      requires Valid() && x < 16 && z < 16
      modifies this
      ensures Valid() && Strip(sections) == old(Strip(sections)) && heightmaps == old(heightmaps)
      ensures old(Settled(sections)) ==> Settled(sections)
      ensures h == 0 || 2 <= h <= 256
      ensures old(Settled(sections)) ==> h == ColumnHeight(ext, old(Strip(sections)), x, z)
    {
      ghost var secs0 := Strip(sections);
      ghost var settled0 := Settled(sections);
      ghost var solid := SolidIn(ext, secs0, x, z);
      h := 0;
      var i := 0;
      while i < 255
        invariant 0 <= i <= 255
        invariant Probed(secs0, settled0, old(heightmaps))
        invariant settled0 ==> ScanDown(solid, 256, 257 - i) == 0
      {
        var y := 256 - i;
        var surface := ProbeSurface(x, y - 1, z);
        ScanDownExtend(solid, 256, 257 - i);
        if surface {
          h := y;
          if settled0 {
            ScanDownLower(solid, 256, y, 2);
          }
          break;
        }
        i := i + 1;
      }
    }

    /** Scan column (x, z) and record its height at z * 16 + x. */
    method RecordColumn(x: Usize, z: Usize, heights0: seq<U16>) returns (heights: seq<U16>)
      requires Valid() && x < 16 && z < 16 && |heights0| == 256 && InRange(heights0)
      modifies this
      ensures Valid() && Strip(sections) == old(Strip(sections)) && heightmaps == old(heightmaps)
      ensures old(Settled(sections)) ==> Settled(sections)
      ensures |heights| == 256 && InRange(heights)
      ensures old(Settled(sections)) && heights0[..z * 16 + x] == HeightsBelow(ext, old(Strip(sections)), z * 16 + x) ==>
        heights[..z * 16 + x + 1] == HeightsBelow(ext, old(Strip(sections)), z * 16 + x + 1)
    {
      ghost var secs0 := Strip(sections);
      ColumnIndex(x, z);
      var h := ScanColumn(x, z);
      RowStep(ext, secs0, heights0, z * 16 + x, h);
      heights := heights0[z * 16 + x := h];
    }

    /** One row (fixed z) of recalculate_heightmap: the sixteen columns
        x = 0 to 15. */
    method RecalculateRow(z: Usize, heights0: seq<U16>) returns (heights: seq<U16>)
      requires Valid() && z < 16 && |heights0| == 256 && InRange(heights0)
      modifies this
      ensures Valid() && Strip(sections) == old(Strip(sections)) && heightmaps == old(heightmaps)
      ensures old(Settled(sections)) ==> Settled(sections)
      ensures |heights| == 256 && InRange(heights)
      ensures old(Settled(sections)) && heights0[..z * 16] == HeightsBelow(ext, old(Strip(sections)), z * 16) ==>
        heights[..z * 16 + 16] == HeightsBelow(ext, old(Strip(sections)), z * 16 + 16)
    {
      ghost var secs0 := Strip(sections);
      ghost var settled0 := Settled(sections);
      ghost var good := settled0 && heights0[..z * 16] == HeightsBelow(ext, secs0, z * 16);
      heights := heights0;
      var x := 0;
      while x < 16
        invariant 0 <= x <= 16
        invariant Probed(secs0, settled0, old(heightmaps))
        invariant |heights| == 256 && InRange(heights)
        invariant good ==> heights[..z * 16 + x] == HeightsBelow(ext, secs0, z * 16 + x)
      {
        heights := RecordColumn(x, z, heights);
        x := x + 1;
      }
    }

    /** recalculate_heightmap: for every column, scan y = 256 down to 2 and
        record the first y whose block y - 1 is neither absent nor air;
        store the map only when the chunk has height maps. */
    method RecalculateHeightmap()
      requires Valid()
      modifies this
      ensures Valid()
      ensures Strip(sections) == old(Strip(sections))
      ensures heightmaps.Some? <==> old(heightmaps).Some?
      ensures heightmaps.Some? ==>
        var hm := heightmaps.value;
        hm.unpackedMotionBlocking.Some? &&
        hm == old(heightmaps).value.(unpackedMotionBlocking := hm.unpackedMotionBlocking) &&
        InRange(hm.unpackedMotionBlocking.value) &&
        (old(Settled(sections)) ==> hm.unpackedMotionBlocking.value == SurfaceHeights(ext, old(Strip(sections))))
    {
      ghost var secs0 := Strip(sections);
      ghost var settled0 := Settled(sections);
      var heights: seq<U16> := Zeros(256);
      var z := 0;
      while z < 16
        invariant 0 <= z <= 16
        invariant Probed(secs0, settled0, old(heightmaps))
        invariant |heights| == 256 && InRange(heights)
        invariant settled0 ==> heights[..z * 16] == HeightsBelow(ext, secs0, z * 16)
      {
        heights := RecalculateRow(z, heights);
        z := z + 1;
      }
      assert heights[..256] == heights;
      match heightmaps {
        case Some(m) =>
          heightmaps := Some(m.(unpackedMotionBlocking := Some(heights)));
        case None =>
      }
    }
  }
}
