/** The chunk query layer of the pre-1.18 Java chunk form (fastanvil
    java/pre18.rs): block lookup through a section tower, block states
    unpacked at most once behind a `done` flag, the y range, the int-array
    biome lookup, and the memoised surface height map built from the
    stored height map (Trust) or by a top-down scan (Calculate). */
module Pre18 {
  import opened Common
  import opened Heights

  /** The packed block states of one section and the buffer they are
      unpacked into on first use. */
  class Pre18Blockstates {
    var done: bool
    const unpacked: array<U16>
    const packed: PackedBits

    /** The buffer has 4096 entries and stays all zero until unpacked. */
    ghost predicate Valid()
      reads this, unpacked
    {
      unpacked.Length == 4096 &&
      (!done ==> forall i :: 0 <= i < 4096 ==> unpacked[i] == 0)
    }

    /** The buffer holds what unpacking with the palette's bit width
        gives, once it has been filled. */
    ghost predicate Coherent(ext: External, palLen: nat)
      reads this, unpacked
    {
      Valid() && (done ==> unpacked[..] == Unpacked(ext, packed, palLen))
    }

    /** Deserialization: `done` is false and the buffer is all zero. */
    constructor (packed: PackedBits)
      ensures Valid() && !done && this.packed == packed && fresh(unpacked)
      ensures unpacked[..] == Zeros(4096)
    {
      this.packed := packed;
      this.done := false;
      var buf := new U16[4096](_ => 0);
      this.unpacked := buf;
      new;
      assert unpacked[..] == Zeros(4096);
    }

    /** state: unpack into the buffer if that has not happened yet, then
        read entry `secY * 256 + z * 16 + x`. A later call never unpacks
        again, whatever palette length it passes. */
    method State(ext: External, x: nat, secY: nat, z: nat, palLen: nat) returns (r: nat)
      requires Valid() && StateIndex(secY, x, z) < 4096
      modifies this, unpacked
      ensures Valid() && done
      ensures unpacked[..] == if old(done) then old(unpacked[..]) else Unpacked(ext, packed, palLen)
      ensures r == unpacked[StateIndex(secY, x, z)]
    {
      if !done {
        var bitsPerItem := ext.bitsPerBlock(palLen);
        var buf := ext.unpackBlockstates(packed, bitsPerItem);
        forall i | 0 <= i < 4096 {
          unpacked[i] := buf[i];
        }
        assert unpacked[..] == buf;
        done := true;
      }
      r := unpacked[StateIndex(secY, x, z)];
    }
  }

  /** What unpacking the packed states with the palette's bit width gives. */
  function Unpacked(ext: External, packed: PackedBits, palLen: nat): StateBuffer {
    ext.unpackBlockstates(packed, ext.bitsPerBlock(palLen))
  }

  /** Position of block (x, secY, z) in a section's state buffer. */
  function StateIndex(secY: int, x: int, z: int): int {
    secY * 256 + z * 16 + x
  }

  /** A 16x16x16 section before 1.18. */
  datatype Pre18Section = Pre18Section(y: I8, blockStates: Option<Pre18Blockstates>, palette: seq<Block>)

  /** is_terminator: a section with neither a palette nor block states
      marks the end of the stored sections; no block can be read from it,
      whatever palette index is asked for. */
  predicate IsTerminator(sec: Pre18Section): (r: bool)
    ensures r ==> sec.blockStates.None? && forall k :: Get(sec.palette, k).None?
    ensures !r ==> sec.blockStates.Some? || exists k :: Get(sec.palette, k).Some?
  {
    if sec.palette == [] then sec.blockStates.None?
    else assert Get(sec.palette, 0).Some?; false
  }

  /** The section tower the chunk's sections are deserialized into. Its
      internals live elsewhere in the library; the model keeps its
      sections, its `y_min`/`y_max`, and its y lookup as a function. */
  datatype SectionTower = SectionTower(
    sections: seq<Pre18Section>,
    yMin: int,
    yMax: int,
    /// get_section_for_y, as a position in `sections`
    index: int -> Option<nat>)

  /** What the model relies on of the tower: it holds no terminator (the
      tower skips those while it is built), a section found for y is one
      of its sections, its 16-block span contains y, and y lies in
      `[y_min, y_max)`. */
  ghost predicate TowerValid(t: SectionTower) {
    (forall i :: 0 <= i < |t.sections| ==> !IsTerminator(t.sections[i])) &&
    forall y :: t.index(y).Some? ==>
      t.index(y).value < |t.sections| &&
      t.sections[t.index(y).value].y * 16 <= y < t.sections[t.index(y).value].y * 16 + 16 &&
      t.yMin <= y < t.yMax
  }

  /** The section covering y, if any. */
  function SectionFor(t: Option<SectionTower>, y: int): (r: Option<Pre18Section>)
    requires t.Some? ==> TowerValid(t.value)
    ensures r.Some? ==> r.value.y * 16 <= y < r.value.y * 16 + 16
  {
    if t.None? then None
    else match t.value.index(y)
      case None => None
      case Some(i) => Some(t.value.sections[i])
  }

  /** The block at (x, y, z), whatever the state of the unpacking caches:
      AIR for a section without block states, else the palette entry the
      unpacked states name. */
  function BlockAt(ext: External, t: Option<SectionTower>, x: nat, y: int, z: nat): Option<Block>
    requires t.Some? ==> TowerValid(t.value)
  {
    match SectionFor(t, y)
    case None => None
    case Some(sec) =>
      if sec.blockStates.None? then Some(ext.air)
      else
        var idx := StateIndex(y - sec.y * 16, x, z);
        if idx < 4096 then Get(sec.palette, Unpacked(ext, sec.blockStates.value.packed, |sec.palette|)[idx]) else None
  }

  /** `block` does not panic: the state index is inside the buffer
      whenever the buffer is read. */
  predicate BlockNoPanic(t: Option<SectionTower>, x: nat, y: int, z: nat)
    requires t.Some? ==> TowerValid(t.value)
  {
    match SectionFor(t, y)
    case None => true
    case Some(sec) => sec.blockStates.Some? ==> StateIndex(y - sec.y * 16, x, z) < 4096
  }

  /** Within the 16x16 columns `block` never panics. */
  lemma BlockSafeInColumns(t: Option<SectionTower>, x: nat, y: int, z: nat)
    requires t.Some? ==> TowerValid(t.value)
    requires x < 16 && z < 16
    ensures BlockNoPanic(t, x, y, z)
  {
  }

  /** y_range: `[y_min, y_max)` of the tower, `[0, 0)` without one. */
  function YRange(t: Option<SectionTower>): (r: (int, int))
    ensures t.None? ==> r == (0, 0)
  {
    if t.None? then (0, 0) else (t.value.yMin, t.value.yMax)
  }

  /** A block is only ever found inside the y range. This is the tower's
      own promise about its lookup, carried over to `block` and
      `y_range`. */
  lemma BlockInRange(ext: External, t: Option<SectionTower>, x: nat, y: int, z: nat)
    requires t.Some? ==> TowerValid(t.value)
    requires BlockAt(ext, t, x, y, z).Some?
    ensures YRange(t).0 <= y < YRange(t).1
  {
  }

  /** `block` never lands on a terminator: the AIR answered for a section
      without block states comes from a section that has a palette. */
  lemma FoundIsNoTerminator(ext: External, t: Option<SectionTower>, x: nat, y: int, z: nat)
    requires t.Some? ==> TowerValid(t.value)
    ensures SectionFor(t, y).Some? ==> !IsTerminator(SectionFor(t, y).value)
    ensures SectionFor(t, y).Some? && SectionFor(t, y).value.blockStates.None? ==>
      SectionFor(t, y).value.palette != [] && BlockAt(ext, t, x, y, z) == Some(ext.air)
  {
  }

  // ---------------------------------------------------------------------
  // The surface scan
  // ---------------------------------------------------------------------

  /** Number of scan steps: the length of the y range. */
  function Span(t: Option<SectionTower>): nat {
    var (start, end) := YRange(t);
    if start < end then end - start else 0
  }

  /** Which of the blocks y = 0 to n - 1 of column (x, z) end the scan. */
  function SolidBelow(ext: External, t: Option<SectionTower>, x: nat, z: nat, n: nat): (col: seq<bool>)
    requires t.Some? ==> TowerValid(t.value)
    ensures |col| == n
  {
    if n == 0 then [] else SolidBelow(ext, t, x, z, n - 1) + [IsSurface(BlockAt(ext, t, x, n - 1, z))]
  }

  lemma {:induction false} SolidBelowAt(ext: External, t: Option<SectionTower>, x: nat, z: nat, n: nat, y: nat)
    requires t.Some? ==> TowerValid(t.value)
    requires y < n
    ensures SolidBelow(ext, t, x, z, n)[y] == IsSurface(BlockAt(ext, t, x, y, z))
  {
    if y < n - 1 {
      SolidBelowAt(ext, t, x, z, n - 1, y);
    }
  }

  /** The height Calculate mode records for column (x, z): with
      `y = y_end - i` for i over the y range, the first y (from the top)
      whose block y - 1 ends the scan, cast to i16; 0 when none does. The
      blocks looked at are y = 0 to span - 1. */
  function ColumnHeight(ext: External, t: Option<SectionTower>, x: nat, z: nat): I16
    requires t.Some? ==> TowerValid(t.value)
  {
    WrapI16(ScanDown(SolidBelow(ext, t, x, z, Span(t)), Span(t), 1))
  }

  /** What Calculate mode's column height means: with `y = y_end - i` the
      blocks looked at are y = 0 to span - 1, whatever the y range is. A
      non-zero height sits on the highest surface block of that window;
      0 means the window holds none. */
  lemma {:induction false} ColumnHeightWindow(ext: External, t: Option<SectionTower>, x: nat, z: nat)
    requires t.Some? ==> TowerValid(t.value)
    ensures var h := ScanDown(SolidBelow(ext, t, x, z, Span(t)), Span(t), 1);
      ColumnHeight(ext, t, x, z) == WrapI16(h) &&
      (h != 0 ==>
         1 <= h <= Span(t) && IsSurface(BlockAt(ext, t, x, h - 1, z)) &&
         forall y :: h <= y < Span(t) ==> !IsSurface(BlockAt(ext, t, x, y, z))) &&
      (h == 0 ==> forall y :: 0 <= y < Span(t) ==> !IsSurface(BlockAt(ext, t, x, y, z)))
  {
    var span := Span(t);
    var solid := SolidBelow(ext, t, x, z, span);
    var h := ScanDown(solid, span, 1);
    ScanDownSpec(solid, span, 1);
    forall y | 0 <= y < span
      ensures solid[y] == IsSurface(BlockAt(ext, t, x, y, z))
    {
      SolidBelowAt(ext, t, x, z, span, y);
    }
  }

  /** The first n entries of the map Calculate mode builds, addressed
      z * 16 + x. */
  function HeightsBelow(ext: External, t: Option<SectionTower>, n: nat): (hs: seq<I16>)
    requires t.Some? ==> TowerValid(t.value)
    requires n <= 256
    ensures |hs| == n
  {
    if n == 0 then [] else HeightsBelow(ext, t, n - 1) + [ColumnHeight(ext, t, (n - 1) % 16, (n - 1) / 16)]
  }

  lemma {:induction false} HeightsBelowAt(ext: External, t: Option<SectionTower>, n: nat, j: nat)
    requires t.Some? ==> TowerValid(t.value)
    requires j < n <= 256
    ensures HeightsBelow(ext, t, n)[j] == ColumnHeight(ext, t, j % 16, j / 16)
  {
    if j < n - 1 {
      HeightsBelowAt(ext, t, n - 1, j);
    }
  }

  /** The map Calculate mode builds. */
  function CalculatedHeights(ext: External, t: Option<SectionTower>): SignedHeightBuffer
    requires t.Some? ==> TowerValid(t.value)
  {
    HeightsBelow(ext, t, 256)
  }

  /** Entry z * 16 + x of the calculated map is column (x, z)'s height. */
  lemma CalculatedHeightsAt(ext: External, t: Option<SectionTower>, x: nat, z: nat)
    requires t.Some? ==> TowerValid(t.value)
    requires x < 16 && z < 16
    ensures CalculatedHeights(ext, t)[z * 16 + x] == ColumnHeight(ext, t, x, z)
  {
    ColumnIndex(x, z);
    HeightsBelowAt(ext, t, 256, z * 16 + x);
  }

  lemma ColumnIndex(x: nat, z: nat)
    requires x < 16 && z < 16
    ensures 0 <= z * 16 + x < 256 && (z * 16 + x) % 16 == x && (z * 16 + x) / 16 == z
  {
  }

  /** Recording column k's height extends a correct prefix of the map by
      one entry. */
  lemma RowStep(ext: External, t: Option<SectionTower>, heights: seq<I16>, k: nat, h: I16)
    requires t.Some? ==> TowerValid(t.value)
    requires |heights| == 256 && k < 256
    ensures |heights[k := h]| == 256
    ensures heights[..k] == HeightsBelow(ext, t, k) && h == ColumnHeight(ext, t, k % 16, k / 16) ==>
      heights[k := h][..k + 1] == HeightsBelow(ext, t, k + 1)
  {
    assert heights[k := h][..k + 1] == heights[..k] + [h];
  }

  /** HeightMode: take the stored height map when there is one, or always
      scan the blocks. */
  datatype HeightMode = Trust | Calculate

  /** The part of the chunk's height maps this form reads. */
  datatype StoredHeightmaps = StoredHeightmaps(motionBlocking: Option<PackedBits>)

  // ---------------------------------------------------------------------
  // The chunk
  // ---------------------------------------------------------------------

  class JavaChunk {
    const dataVersion: I32
    const xPos: I32
    const zPos: I32
    const biomes: Option<seq<I32>>
    const sections: Option<SectionTower>
    const heightmaps: Option<StoredHeightmaps>
    const status: string
    /** The collaborators defined elsewhere in the library. */
    const ext: External
    /** The memoised surface height map. */
    var lazyHeightmap: Option<SignedHeightBuffer>

    /** The tower keeps its promise, every section has its own block-state
        object and buffer, and every buffer is coherent with its
        section's palette. */
    ghost predicate Valid()
      reads this, States(sections), Buffers(sections)
    {
      (sections.Some? ==> TowerValid(sections.value)) &&
      (sections.Some? ==>
        var secs := sections.value.sections;
        (forall i, j :: 0 <= i < j < |secs| && secs[i].blockStates.Some? && secs[j].blockStates.Some? ==>
           secs[i].blockStates.value != secs[j].blockStates.value &&
           secs[i].blockStates.value.unpacked != secs[j].blockStates.value.unpacked) &&
        (forall i :: 0 <= i < |secs| && secs[i].blockStates.Some? ==>
           secs[i].blockStates.value.Coherent(ext, |secs[i].palette|)))
    }

    /** A freshly deserialized chunk: no memoised map, and sections whose
        block-state objects are fresh from deserialization and not shared. */
    constructor (dataVersion: I32, xPos: I32, zPos: I32, biomes: Option<seq<I32>>,
                 sections: Option<SectionTower>, heightmaps: Option<StoredHeightmaps>,
                 status: string, ext: External)
      requires sections.Some? ==> TowerValid(sections.value)
      requires sections.Some? ==>
        var secs := sections.value.sections;
        (forall i, j :: 0 <= i < j < |secs| && secs[i].blockStates.Some? && secs[j].blockStates.Some? ==>
           secs[i].blockStates.value != secs[j].blockStates.value &&
           secs[i].blockStates.value.unpacked != secs[j].blockStates.value.unpacked) &&
        (forall i :: 0 <= i < |secs| && secs[i].blockStates.Some? ==>
           secs[i].blockStates.value.Valid() && !secs[i].blockStates.value.done)
      ensures Valid() && lazyHeightmap.None?
      ensures this.dataVersion == dataVersion && this.xPos == xPos && this.zPos == zPos
      ensures this.biomes == biomes && this.sections == sections && this.heightmaps == heightmaps
      ensures this.status == status && this.ext == ext
    {
      this.dataVersion := dataVersion;
      this.xPos := xPos;
      this.zPos := zPos;
      this.biomes := biomes;
      this.sections := sections;
      this.heightmaps := heightmaps;
      this.status := status;
      this.ext := ext;
      this.lazyHeightmap := None;
    }

    /** The heights `recalculate_heightmap` stores for a mode. */
    function ComputedHeightmap(mode: HeightMode): SignedHeightBuffer
      requires sections.Some? ==> TowerValid(sections.value)
      requires RecalcNoPanic(mode)
    {
      if mode == Trust && heightmaps.Some? && heightmaps.value.motionBlocking.Some? then
        ext.expandHeightmap(heightmaps.value.motionBlocking.value, sections.value.yMin, dataVersion)
      else CalculatedHeights(ext, sections)
    }

    /** Trust mode unwraps the sections whenever there is a stored
        motion-blocking map. */
    predicate RecalcNoPanic(mode: HeightMode) {
      mode == Trust && heightmaps.Some? && heightmaps.value.motionBlocking.Some? ==> sections.Some?
    }

    /** block: the section covering y, AIR when it has no block states,
        else the palette entry its (lazily unpacked) states name. */
    method Block(x: nat, y: int, z: nat) returns (r: Option<Block>)
      requires Valid() && BlockNoPanic(sections, x, y, z)
      modifies States(sections), Buffers(sections)
      ensures Valid()
      ensures r == BlockAt(ext, sections, x, y, z)
      ensures StatesFor(sections, y).Some? ==> StatesFor(sections, y).value.done
      ensures forall s :: s in States(sections) && old(s.done) ==> s.done && s.unpacked[..] == old(s.unpacked[..])
      ensures forall s :: s in States(sections) && StatesFor(sections, y) != Some(s) ==>
        s.done == old(s.done) && s.unpacked[..] == old(s.unpacked[..])
    {
      if sections.None? {
        return None;
      }
      var t := sections.value;
      var si := t.index(y);
      if si.None? {
        return None;
      }
      var sec := t.sections[si.value];
      match sec.blockStates {
        case None =>
          r := Some(ext.air);
        case Some(blockstates) =>
          var secY := y - sec.y * 16;
          var palIndex := blockstates.State(ext, x, secY, z, |sec.palette|);
          r := Get(sec.palette, palIndex);
          forall s | s in States(sections) && s != blockstates
            ensures s.done == old(s.done) && s.unpacked[..] == old(s.unpacked[..])
          {
            var j :| 0 <= j < |t.sections| && t.sections[j].blockStates == Some(s);
            OtherBuffer(j, si.value);
          }
      }
    }

    /** Two different sections never share a buffer. */
    lemma OtherBuffer(i: nat, j: nat)
      requires Valid() && sections.Some? && i < |sections.value.sections| && j < |sections.value.sections|
      requires sections.value.sections[i].blockStates.Some? && sections.value.sections[j].blockStates.Some?
      requires sections.value.sections[i].blockStates != sections.value.sections[j].blockStates
      ensures sections.value.sections[i].blockStates.value.unpacked != sections.value.sections[j].blockStates.value.unpacked
    {
    }

    /** biome: `biomes[z * 16 + x]` for the 256-entry per-column layout;
        otherwise y is clamped into the y range and the 4x4x4 cube index
        `(z / 4) * 4 + x / 4 + (y_shifted / 4) * 16` is read when it is in
        range. An unknown code gives None. */
    function Biome(x: nat, y: int, z: nat): (r: Option<Biome>)
      requires biomes.Some? && |biomes.value| == 256 ==> z * 16 + x < 256
      requires biomes.Some? && |biomes.value| != 256 ==> YRange(sections).0 < YRange(sections).1
      ensures biomes.None? ==> r.None?
      ensures biomes.Some? && |biomes.value| == 256 ==> r == ext.biomeFromCode(biomes.value[z * 16 + x])
    {
      if biomes.None? then None
      else
        var codes := biomes.value;
        if |codes| == 256 then ext.biomeFromCode(codes[z * 16 + x])
        else
          var (start, end) := YRange(sections);
          var yShifted := Clamp(y, start, end - 1) - start;
          var i := (z / 4) * 4 + x / 4 + (yShifted / 4) * 16;
          match Get(codes, i)
          case None => None
          case Some(code) => ext.biomeFromCode(code)
    }

    /** The cube layout: a y below the range reads like its start, one
        above it like its last y; inside the range the cube cell is read
        when the array has it, and a cell past the array's end gives None. */
    lemma BiomeCubes(x: nat, y: int, z: nat)
      requires biomes.Some? && |biomes.value| != 256
      requires YRange(sections).0 < YRange(sections).1
      requires x < 16 && z < 16
      ensures y < YRange(sections).0 ==> Biome(x, y, z) == Biome(x, YRange(sections).0, z)
      ensures y >= YRange(sections).1 ==> Biome(x, y, z) == Biome(x, YRange(sections).1 - 1, z)
      ensures var (start, end) := YRange(sections);
        start <= y < end && |biomes.value| >= ((end - start - 1) / 4 + 1) * 16 ==>
        Biome(x, y, z) == ext.biomeFromCode(biomes.value[(z / 4) * 4 + x / 4 + ((y - start) / 4) * 16])
      ensures var (start, end) := YRange(sections);
        start <= y < end ==>
          var i := (z / 4) * 4 + x / 4 + ((y - start) / 4) * 16;
          Biome(x, y, z) == if i < |biomes.value| then ext.biomeFromCode(biomes.value[i]) else None
    {
      var (start, end) := YRange(sections);
      if start <= y < end {
        var k := (y - start) / 4;
        assert k <= (end - start - 1) / 4;
        assert (z / 4) * 4 + x / 4 < 16;
      }
    }

    /** recalculate_heightmap: in Trust mode with a stored motion-blocking
        map, store its expansion; otherwise scan every column top-down.
        Either way the result replaces the memoised map. */
    method RecalculateHeightmap(mode: HeightMode)
      requires Valid() && RecalcNoPanic(mode)
      modifies this, States(sections), Buffers(sections)
      ensures Valid()
      ensures forall s :: s in States(sections) && old(s.done) ==> s.done && s.unpacked[..] == old(s.unpacked[..])
      ensures lazyHeightmap == Some(ComputedHeightmap(mode))
    {
      if mode == Trust && heightmaps.Some? && heightmaps.value.motionBlocking.Some? {
        var yMin := sections.value.yMin;
        var stored := ext.expandHeightmap(heightmaps.value.motionBlocking.value, yMin, dataVersion);
        lazyHeightmap := Some(stored);
        return;
      }
      var heights: seq<I16> := Zeros(256);
      var z := 0;
      while z < 16
        invariant 0 <= z <= 16
        invariant Valid() && |heights| == 256
        invariant heights[..z * 16] == HeightsBelow(ext, sections, z * 16)
        invariant forall s :: s in States(sections) && old(s.done) ==> s.done && s.unpacked[..] == old(s.unpacked[..])
      {
        heights := RecalculateRow(z, heights);
        z := z + 1;
      }
      assert heights[..256] == heights;
      lazyHeightmap := Some(heights);
    }

    /** One row (fixed z) of the Calculate scan. */
    method RecalculateRow(z: nat, heights0: seq<I16>) returns (heights: seq<I16>)
      requires Valid() && z < 16 && |heights0| == 256
      requires heights0[..z * 16] == HeightsBelow(ext, sections, z * 16)
      modifies States(sections), Buffers(sections)
      ensures Valid() && |heights| == 256
      ensures forall s :: s in States(sections) && old(s.done) ==> s.done && s.unpacked[..] == old(s.unpacked[..])
      ensures heights[..z * 16 + 16] == HeightsBelow(ext, sections, z * 16 + 16)
    {
      heights := heights0;
      var x := 0;
      while x < 16
        invariant 0 <= x <= 16
        invariant Valid() && |heights| == 256
        invariant heights[..z * 16 + x] == HeightsBelow(ext, sections, z * 16 + x)
        invariant forall s :: s in States(sections) && old(s.done) ==> s.done && s.unpacked[..] == old(s.unpacked[..])
      {
        heights := RecordColumn(x, z, heights);
        x := x + 1;
      }
    }

    /** Scan column (x, z) and record its height at z * 16 + x. */
    method RecordColumn(x: nat, z: nat, heights0: seq<I16>) returns (heights: seq<I16>)
      requires Valid() && x < 16 && z < 16 && |heights0| == 256
      requires heights0[..z * 16 + x] == HeightsBelow(ext, sections, z * 16 + x)
      modifies States(sections), Buffers(sections)
      ensures Valid() && |heights| == 256
      ensures forall s :: s in States(sections) && old(s.done) ==> s.done && s.unpacked[..] == old(s.unpacked[..])
      ensures heights[..z * 16 + x + 1] == HeightsBelow(ext, sections, z * 16 + x + 1)
    {
      ColumnIndex(x, z);
      var h := ScanColumn(x, z);
      RowStep(ext, sections, heights0, z * 16 + x, h);
      heights := heights0[z * 16 + x := h];
    }

    /** The innermost loop: `y = y_end - i` for i over the y range,
        stopping at the first y whose block y - 1 is neither absent nor
        air. */
    method ScanColumn(x: nat, z: nat) returns (h: I16)
      requires Valid() && x < 16 && z < 16
      modifies States(sections), Buffers(sections)
      ensures Valid()
      ensures forall s :: s in States(sections) && old(s.done) ==> s.done && s.unpacked[..] == old(s.unpacked[..])
      ensures h == ColumnHeight(ext, sections, x, z)
    {
      var start := YRange(sections).0;
      var end := YRange(sections).1;
      ghost var span := Span(sections);
      ghost var solid := SolidBelow(ext, sections, x, z, span);
      assert span == if start < end then end - start else 0;
      h := 0;
      var i := start;
      while i < end
        invariant start < end ==> start <= i <= end
        invariant Valid()
        invariant start < end ==> ScanDown(solid, span, end - i + 1) == 0
        invariant forall s :: s in States(sections) && old(s.done) ==> s.done && s.unpacked[..] == old(s.unpacked[..])
      {
        var y := end - i;
        SolidBelowAt(ext, sections, x, z, span, y - 1);
        var surface := ProbeSurface(x, y - 1, z);
        ScanDownStep(solid, span, y);
        if surface {
          h := WrapI16(y);
          return;
        }
        i := i + 1;
      }
    }

    /** One probe of the scan: is block (x, y, z) present and neither air
        nor cave air? */
    method ProbeSurface(x: nat, y: int, z: nat) returns (surface: bool)
      requires Valid() && x < 16 && z < 16
      modifies States(sections), Buffers(sections)
      ensures Valid()
      ensures forall s :: s in States(sections) && old(s.done) ==> s.done && s.unpacked[..] == old(s.unpacked[..])
      ensures surface == IsSurface(BlockAt(ext, sections, x, y, z))
    {
      BlockSafeInColumns(sections, x, y, z);
      var block := Block(x, y, z);
      surface := IsSurface(block);
    }

    /** surface_height: build the map only when none is memoised, then read
        entry z * 16 + x; once memoised, the mode passed is ignored. */
    method SurfaceHeight(x: nat, z: nat, mode: HeightMode) returns (h: int)
      requires Valid() && z * 16 + x < 256
      requires lazyHeightmap.None? ==> RecalcNoPanic(mode)
      modifies this, States(sections), Buffers(sections)
      ensures Valid()
      ensures forall s :: s in States(sections) && old(s.done) ==> s.done && s.unpacked[..] == old(s.unpacked[..])
      ensures lazyHeightmap == if old(lazyHeightmap).Some? then old(lazyHeightmap) else Some(ComputedHeightmap(mode))
      ensures h == lazyHeightmap.value[z * 16 + x]
    {
      if lazyHeightmap.None? {
        RecalculateHeightmap(mode);
      }
      h := lazyHeightmap.value[z * 16 + x];
    }
  }

  /** The block-state objects of the tower's sections. */
  function States(t: Option<SectionTower>): set<Pre18Blockstates> {
    if t.None? then {}
    else set i | 0 <= i < |t.value.sections| && t.value.sections[i].blockStates.Some? :: t.value.sections[i].blockStates.value
  }

  /** The block-state object of the section covering y, if it has one. */
  function StatesFor(t: Option<SectionTower>, y: int): Option<Pre18Blockstates>
    requires t.Some? ==> TowerValid(t.value)
  {
    match SectionFor(t, y)
    case None => None
    case Some(sec) => sec.blockStates
  }

  /** Their unpacking buffers. */
  function Buffers(t: Option<SectionTower>): set<array<U16>> {
    if t.None? then {}
    else set i | 0 <= i < |t.value.sections| && t.value.sections[i].blockStates.Some? :: t.value.sections[i].blockStates.value.unpacked
  }

  /** `y.clamp(lo, hi)`. */
  function Clamp(y: int, lo: int, hi: int): (r: int)
    requires lo <= hi
    ensures lo <= r <= hi
    ensures lo <= y <= hi ==> r == y
  {
    if y < lo then lo else if y > hi then hi else y
  }
}
