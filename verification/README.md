# fastanvil / fastnbt chunk core in Dafny

This project models the query core of the `fastanvil` Minecraft region
library and the two value layers of `fastnbt` it builds on. It covers:

- **The older, borrowed chunk form** (`fastanvil/src/types.rs`, module
  `Anvil`, plus `Blocks` for `Block::encoded_description`):
  - sections are found by y through a lazily built y-to-index map;
  - `block` reads through a write-once cache of unpacked block states;
  - `height_of` reads through a write-once cache of the unpacked
    motion-blocking height map;
  - `biome_of` reads the raw biome buffer by its length;
  - `recalculate_heightmap` scans every column from the top down.
- **The pre-1.18 Java chunk form** (`fastanvil/src/java/pre18.rs`, module
  `Pre18`):
  - block lookup goes through a section tower;
  - per-section block states are unpacked at most once into a mutable
    buffer behind a `done` flag;
  - the y range and the int-array biome lookup with y clamping;
  - a memoised surface height map is built either from the stored map
    (`HeightMode::Trust`) or by a top-down scan (`HeightMode::Calculate`).
- **Zero-copy array views** (`fastnbt/src/borrow.rs`, module `Borrow`):
  - `ByteArray`, `IntArray` and `LongArray` and their iterators, which read
    big-endian elements off a byte slice and silently drop a short tail;
  - the `Cow` string visitor, which lends a string when the input allows it
    and copies it otherwise.
- **The dynamic NBT value** (`fastnbt/src/value.rs`, module `Values`):
  - `Value` and `BorrowedValue` are decoded "untagged", first matching
    variant wins;
  - the strict `i8`/`i16`/`i32` hooks keep every integer in the variant of
    its own wire width.

The surface scan shared by both chunk forms is in module `Heights`. Fixed-width
integers, big-endian reads and the collaborators defined elsewhere in the
library are in module `Common`.

The state each form mutates is imperative Dafny. In `Anvil` a `Chunk`
class owns its sections, height maps and section map. In `Pre18`,
`Pre18Blockstates` is a class holding a `done` flag and a 4096-entry
`array`, and a `JavaChunk` class holds the memoised height map. The
iterators are classes over the slice they still have to read.

Each method is specified by a function of the state it starts from:
- `BlockIn` / `BlockAt` for `block`;
- `HeightIn` for `height_of`;
- `SurfaceHeights` / `ComputedHeightmap` for the height maps;
- `DecodeInts` / `DecodeLongs` / `DecodeBytes` for the iterators;
- `Description` for the block description.

Lemmas then relate those functions to the source's promises: round trips,
where caches are invisible, scan correctness, sortedness and uniqueness.

Code that cannot be seen from these files is passed in as the fields of
`Common.External`:
- `bits_per_block`;
- `PackedBits::unpack_into`, `unpack_heights_into` and `unpack_blockstates`;
- `expand_heightmap`;
- `Biome::try_from`;
- the `AIR` constant.

The model knows only the shape of what these return.

## Model

| member | source | states |
|---|---|---|
| Common.Get | fastanvil/src/types.rs:144 | `slice.get(i)`: Some exactly for an index inside the slice, and then that element |
| Common.ByteToI8 | fastnbt/src/borrow.rs:71-73 | a byte read as i8 is its two's-complement reading, congruent to the byte mod 256 |
| Common.WrapI8 | fastanvil/src/types.rs:214-215 | `(y / 16) as i8` keeps the low 8 bits: congruent mod 256, unchanged below 128 |
| Common.WrapI16 | fastanvil/src/java/pre18.rs:161 | `y as i16` keeps the low 16 bits: congruent mod 65536, unchanged inside the i16 range |
| Common.ReadI32 | fastanvil/src/types.rs:184 | `read_i32::<BigEndian>().ok()` on a sub-slice succeeds exactly when four bytes remain |
| Common.EncodeI32 | fastnbt/src/borrow.rs:97-99 | the big-endian encoding of an i32 is four bytes that read back as that i32 |
| Common.EncodeI64 | fastnbt/src/borrow.rs:123-125 | the big-endian encoding of an i64 is eight bytes that read back as that i64 |
| Heights.ScanDown | fastanvil/src/types.rs:101-115 | the top-down scan reports 0 or a height inside the scanned range |
| Heights.ScanDownSpec | fastanvil/src/types.rs:101-115 | a non-zero result sits directly on a solid block with only non-solid blocks above it; 0 means the whole range is non-solid |
| Heights.ScanDownExtend | fastanvil/src/types.rs:101-115 | one more loop iteration looks at exactly one more block, and only when nothing above was solid |
| Heights.ScanDownLower | fastanvil/src/types.rs:113 | after `break`, scanning further down would not change the height |
| Heights.ScanDownStep | fastanvil/src/java/pre18.rs:149-162 | one iteration either ends the scan at y (block y - 1 solid) or leaves it still empty |
| Heights.ScanDownUnique | fastanvil/src/types.rs:101-115 | conversely, a height solid below and clear above is the one the scan returns |
| Heights.ScanDownClear | fastanvil/src/types.rs:101-115 | a column with nothing solid in range scans to 0, the map's initial value |
| Borrow.DecodeBytesAt | fastnbt/src/borrow.rs:66-74 | the k-th item of a byte iteration is byte k read as i8 |
| Borrow.DecodeBytesLength | fastnbt/src/borrow.rs:66-74 | a byte iteration yields one item per byte |
| Borrow.DecodeIntsLength | fastnbt/src/borrow.rs:92-100 | an int iteration yields `len / 4` items: a short tail is dropped |
| Borrow.DecodeIntsAt | fastnbt/src/borrow.rs:92-100 | the k-th int is the big-endian reading of bytes 4k..4k+4 |
| Borrow.DecodeLongsLength | fastnbt/src/borrow.rs:118-126 | a long iteration yields `len / 8` items |
| Borrow.DecodeLongsAt | fastnbt/src/borrow.rs:118-126 | the k-th long is the big-endian reading of bytes 8k..8k+8 |
| Borrow.EncodeInts | fastnbt/src/borrow.rs:76-83 | an IntArray payload of n ints is 4n bytes |
| Borrow.EncodeLongs | fastnbt/src/borrow.rs:102-109 | a LongArray payload of n longs is 8n bytes |
| Borrow.DecodeIntsCons | fastnbt/src/borrow.rs:97-99 | a leading 4-byte group is read as one int and the rest continues after it |
| Borrow.DecodeLongsCons | fastnbt/src/borrow.rs:123-125 | a leading 8-byte group is read as one long and the rest continues after it |
| Borrow.IntsRoundTrip | fastnbt/src/borrow.rs:92-100 | iterating encoded ints gives them back, whatever short tail follows |
| Borrow.LongsRoundTrip | fastnbt/src/borrow.rs:118-126 | iterating encoded longs gives them back, whatever short tail follows |
| Borrow.ByteIter.constructor | fastnbt/src/borrow.rs:59-63 | `iter()` starts from the whole view: the items still to come are all its bytes |
| Borrow.ByteIter.Next | fastnbt/src/borrow.rs:71-73 | `next` yields the first remaining item and drops it, or None once nothing remains |
| Borrow.IntIter.constructor | fastnbt/src/borrow.rs:85-89 | `iter()` starts from the whole view: every complete int is still to come |
| Borrow.IntIter.Next | fastnbt/src/borrow.rs:97-99 | `next` yields the first remaining int and drops it, or None once fewer than four bytes remain |
| Borrow.LongIter.constructor | fastnbt/src/borrow.rs:111-115 | `iter()` starts from the whole view: every complete long is still to come |
| Borrow.LongIter.Next | fastnbt/src/borrow.rs:123-125 | `next` yields the first remaining long and drops it, or None once fewer than eight bytes remain |
| Borrow.CollectBytes | fastnbt/src/borrow.rs:59-74 | draining a fresh byte iterator yields exactly the decoded bytes, one per byte |
| Borrow.CollectInts | fastnbt/src/borrow.rs:85-100 | draining a fresh int iterator yields exactly the decoded ints, `len / 4` of them |
| Borrow.CollectLongs | fastnbt/src/borrow.rs:111-126 | draining a fresh long iterator yields exactly the decoded longs, `len / 8` of them |
| Borrow.ExhaustedStaysExhausted | fastnbt/src/borrow.rs:97-99 | once `next` has returned None it returns None again |
| Borrow.IterRestarts | fastnbt/src/borrow.rs:79-89 | the view is `Copy`: a second `iter()` starts again from the first int, which exists exactly when the view has four bytes |
| Borrow.VisitStr | fastnbt/src/borrow.rs:139-174 | every string path succeeds with the same text and borrows only a borrowed slice; any other value is an error |
| Borrow.DeserializeCowStr | fastnbt/src/borrow.rs:176-182 | the unwrapped `Cow` has the offered text and is borrowed exactly when the input was lent; non-strings fail expecting "a string" |
| Values.StrictI8 | fastnbt/src/value.rs:75-96 | accepts exactly an 8-bit integer, returns it unchanged, else an `invalid_type` error expecting "exactly i8" |
| Values.StrictI16 | fastnbt/src/value.rs:98-119 | accepts exactly a 16-bit integer, returns it unchanged, else the "exactly i16" error |
| Values.StrictI32 | fastnbt/src/value.rs:121-142 | accepts exactly a 32-bit integer, returns it unchanged, else the "exactly i32" error |
| Values.PlainI64 | fastnbt/src/value.rs:38 | the plain i64 visitor of `Long` accepts every integer width |
| Values.MapOf | fastnbt/src/value.rs:46 | a compound's map has exactly the keys of its entries |
| Values.MapOfLastWins | fastnbt/src/value.rs:46 | on a repeated key the map holds the last entry's value |
| Values.Decode | fastnbt/src/value.rs:29-47 | each wire integer lands in the variant of its own width, strings in `String`, lists keep their length |
| Values.DecodeItems | fastnbt/src/value.rs:45 | a decoded list has one value per element |
| Values.DecodeEntries | fastnbt/src/value.rs:46 | a decoded compound has one entry per field read |
| Values.WidthsStayDistinct | fastnbt/src/value.rs:31-38 | two integers decode to equal Values exactly when their widths and values agree |
| Values.FirstMatchWins | fastnbt/src/value.rs:30-38 | an i8 that `Long` would also accept is taken by `Byte`, declared first |
| Values.DecodeItemsElementwise | fastnbt/src/value.rs:45 | a list decodes exactly when every element does, and then element by element in order |
| Values.DecodeBorrowed | fastnbt/src/value.rs:49-73 | strings keep their text and are borrowed exactly when lent; lists keep their length |
| Values.DecodeBorrowedItems | fastnbt/src/value.rs:70 | a decoded borrowed list has one value per element |
| Values.DecodeBorrowedEntries | fastnbt/src/value.rs:72 | a decoded borrowed compound has one entry per field read |
| Values.FlavoursAgree | fastnbt/src/value.rs:29-73 | both flavours accept the same inputs and put every integer in the same width with the same value |
| Values.IntegersAgree | fastnbt/src/value.rs:31-58 | an accepted input has the same integer reading in both flavours |
| Values.FlavoursAgreeOnItems | fastnbt/src/value.rs:45-70 | a list is accepted by one flavour exactly when by the other |
| Values.FlavoursAgreeOnEntries | fastnbt/src/value.rs:46-72 | a compound is accepted by one flavour exactly when by the other |
| Blocks.LessIrreflexive | fastanvil/src/types.rs:238 | no key sorts before itself |
| Blocks.LessTransitive | fastanvil/src/types.rs:238 | the string order used by `sort` is transitive |
| Blocks.LessTotal | fastanvil/src/types.rs:238 | any two distinct keys are ordered one way or the other |
| Blocks.LessAsymmetric | fastanvil/src/types.rs:238 | two keys are never each before the other |
| Blocks.LeastExists | fastanvil/src/types.rs:238 | every non-empty key set has a least key |
| Blocks.LeastUnique | fastanvil/src/types.rs:238 | that least key is unique |
| Blocks.SortedKeysSpec | fastanvil/src/types.rs:237-238 | the sorted listing holds every key exactly once, strictly increasing |
| Blocks.SortedKeysUnique | fastanvil/src/types.rs:237-238 | any strictly increasing listing of the keys is that listing, so the id does not depend on map order |
| Blocks.EncodedDescription | fastanvil/src/types.rs:227-245 | the method builds exactly the description: name, a bar, then the sorted `k=v` pairs without `waterlogged` |
| Blocks.CollectKeys | fastanvil/src/types.rs:231-235 | the filter keeps every key but `waterlogged`, each once, in any order |
| Blocks.SortKeys | fastanvil/src/types.rs:238 | sorting gives the same keys, strictly increasing |
| Blocks.JoinPairs | fastanvil/src/types.rs:228-243 | the loop appends `k=v` pairs with "," only between them |
| Blocks.InsertSorted | fastanvil/src/types.rs:238 | inserting a new key keeps the listing strictly increasing and adds only that key |
| Blocks.LessAllAbove | fastanvil/src/types.rs:238 | a key below the head of an increasing listing may be put in front of it |
| Blocks.DescriptionShape | fastanvil/src/types.rs:227-245 | the id starts with the name and a bar, is exactly that without properties, and otherwise ends with the last pair's value (no trailing separator) |
| Blocks.WaterloggedIgnored | fastanvil/src/types.rs:234 | changing or adding `waterlogged` never changes the id |
| Blocks.PairsAgree | fastanvil/src/types.rs:240-243 | the pairs depend only on the listed keys' values |
| Blocks.DoorExample | fastanvil/src/types.rs:227-245 | a waterlogged door facing north is described as the name, a bar and `facing=north` alone |
| Anvil.Ys | fastanvil/src/types.rs:200-202 | one section height per section |
| Anvil.YsSpec | fastanvil/src/types.rs:200-202 | the i-th height is section i's `y` |
| Anvil.KeyIndexSpec | fastanvil/src/types.rs:197-203 | the section map holds exactly the heights that occur, each mapped to its LAST position |
| Anvil.SectionIndex | fastanvil/src/types.rs:205-219 | a section found is a position inside the sections |
| Anvil.SectionIndexSpec | fastanvil/src/types.rs:205-219 | the section found carries key `(y / 16) as i8` and is the last to do so; None means no section carries it |
| Anvil.BlockSafeInChunk | fastanvil/src/types.rs:125-145 | inside the 16x16 columns and below y = 2048, `block` neither underflows nor indexes past the buffer |
| Anvil.StripAllSpec | fastanvil/src/types.rs:80-82 | deserialization leaves every section's cache empty and everything else as read |
| Anvil.SettledBlockAgrees | fastanvil/src/types.rs:132-144 | once no section can answer None-then-palette[0], `block` answers through the filled cache |
| Anvil.SettledBlockIgnoresCaches | fastanvil/src/types.rs:132-144 | the settled answer does not depend on which caches are filled |
| Anvil.StripKeepsYs | fastanvil/src/types.rs:197-203 | emptying caches keeps every section height |
| Anvil.FilledKeeps | fastanvil/src/types.rs:132-141 | filling a cache keeps the caches coherent, the data read, settledness and the heights |
| Anvil.FilledKeepsAnswer | fastanvil/src/types.rs:132-144 | a `block` answer that was Some is given again after the cache is filled |
| Anvil.FirstLookupThenPaletteZero | fastanvil/src/types.rs:132-144 | a section with a palette, no block states and an empty cache answers None on the first `block` call and `palette[0]` once the zero-filled cache is stored |
| Anvil.FilledKeepsYs | fastanvil/src/types.rs:132-141 | filling a cache keeps every section height |
| Anvil.UsizeOfI32 | fastanvil/src/types.rs:166 | `v as usize` for an i32 is congruent to v mod 2^64, and v itself when non-negative |
| Anvil.HeightsFilledKeeps | fastanvil/src/types.rs:147-168 | a height `height_of` has given is given again after its cache is filled |
| Anvil.SolidBelow | fastanvil/src/types.rs:101-115 | the verdicts for blocks 0 to n - 1 of a column, one per block |
| Anvil.SolidBelowAt | fastanvil/src/types.rs:103-110 | verdict y is whether block (x, y, z) is present and neither air nor cave air |
| Anvil.SolidIn | fastanvil/src/types.rs:101-115 | the scanned column covers y = 0 to 255 |
| Anvil.ColumnHeight | fastanvil/src/types.rs:101-115 | a recorded height is 0 or between 2 and 256 |
| Anvil.HeightsBelow | fastanvil/src/types.rs:97-117 | the first n entries of the map |
| Anvil.HeightsBelowAt | fastanvil/src/types.rs:98-112 | entry j is the height of column (j % 16, j / 16) |
| Anvil.SurfaceHeightsAt | fastanvil/src/types.rs:112 | entry `z * 16 + x` of the map is column (x, z)'s height |
| Anvil.SolidAgrees | fastanvil/src/types.rs:103-110 | in settled sections, what `block` answers is what the scan specification sees |
| Anvil.AfterBlockCall | fastanvil/src/types.rs:125-145 | a `block` call changes caches only and keeps the sections settled |
| Anvil.Chunk.constructor | fastanvil/src/types.rs:21-83 | a deserialized chunk has every cache and the section map empty, and the fields as read |
| Anvil.Chunk.CalculateSecMap | fastanvil/src/types.rs:197-203 | inserts each section's y with its position, in order, into the existing map |
| Anvil.Chunk.GetSectionForY | fastanvil/src/types.rs:205-219 | builds the map when it is empty and returns the position `SectionIndex` gives; None without sections |
| Anvil.Chunk.Block | fastanvil/src/types.rs:125-145 | returns `BlockIn` of the state before the call, and fills exactly the looked-up section's cache |
| Anvil.Chunk.HeightOf | fastanvil/src/types.rs:147-168 | returns `HeightIn` of the state before the call and fills only the height cache |
| Anvil.Chunk.BiomeOf | fastanvil/src/types.rs:170-195 | None without biomes or for any buffer that is neither 4096 nor 1024 bytes |
| Anvil.Chunk.BiomeCells | fastanvil/src/types.rs:179-194 | the biome is the int at cell `(z/4)*4 + x/4` (4096 bytes) or `z*16 + x` (1024 bytes), whatever y is |
| Anvil.Chunk.ProbeSurface | fastanvil/src/types.rs:103-110 | one probe changes only caches and, in settled sections, answers the specification's verdict |
| Anvil.Chunk.ScanColumn | fastanvil/src/types.rs:101-115 | the inner loop records 0 or a height from 2 to 256, the column's scan height in settled sections |
| Anvil.Chunk.RecordColumn | fastanvil/src/types.rs:99-115 | records column (x, z) at `z * 16 + x`, extending a correct prefix of the map |
| Anvil.Chunk.RecalculateRow | fastanvil/src/types.rs:99-116 | the sixteen columns of row z extend a correct prefix of the map by sixteen entries |
| Anvil.Chunk.RecalculateHeightmap | fastanvil/src/types.rs:96-123 | stores the scanned map only when there are height maps, keeps the other maps, every entry in range, and exact for settled sections |
| Pre18.Pre18Blockstates.constructor | fastanvil/src/java/pre18.rs:221-233 | deserialization: `done` false and a fresh all-zero 4096-entry buffer |
| Pre18.Pre18Blockstates.State | fastanvil/src/java/pre18.rs:203-218 | unpacks only on the first call, with that call's palette length, then reads entry `secY*256 + z*16 + x` |
| Pre18.SectionFor | fastanvil/src/java/pre18.rs:62 | the section found for y spans y |
| Pre18.BlockSafeInColumns | fastanvil/src/java/pre18.rs:61-74 | inside the 16x16 columns `block` never reads past the buffer |
| Pre18.YRange | fastanvil/src/java/pre18.rs:76-84 | without sections the range is `[0, 0)` |
| Pre18.BlockInRange | fastanvil/src/java/pre18.rs:61-84 | a block is found only inside the y range; this is the tower's promise about its lookup (`TowerValid`) carried over to `block` and `y_range` |
| Pre18.IsTerminator | fastanvil/src/java/pre18.rs:185-187 | a terminator has no block states and no palette entry any index could name; any other section has one or the other |
| Pre18.FoundIsNoTerminator | fastanvil/src/java/pre18.rs:62-67 | the section `block` finds is never a terminator, so the AIR answered for missing block states comes from a section with a palette |
| Pre18.ColumnHeightWindow | fastanvil/src/java/pre18.rs:149-162 | with `y = y_end - i` the scan reads blocks 0 to span - 1 whatever the y range: a non-zero height sits on the highest surface block of that window, 0 means the window has none |
| Pre18.SolidBelow | fastanvil/src/java/pre18.rs:149-162 | the verdicts for blocks 0 to n - 1 of a column, one per block |
| Pre18.SolidBelowAt | fastanvil/src/java/pre18.rs:151-161 | verdict y is whether block (x, y, z) is present and neither air nor cave air |
| Pre18.HeightsBelow | fastanvil/src/java/pre18.rs:146-164 | the first n entries of the Calculate map |
| Pre18.HeightsBelowAt | fastanvil/src/java/pre18.rs:146-164 | entry j is the height of column (j % 16, j / 16) |
| Pre18.CalculatedHeightsAt | fastanvil/src/java/pre18.rs:159 | entry `z * 16 + x` of the Calculate map is column (x, z)'s height |
| Pre18.Clamp | fastanvil/src/java/pre18.rs:52 | `y.clamp(lo, hi)` is within `[lo, hi]` and y itself when already inside |
| Pre18.JavaChunk.constructor | fastanvil/src/java/pre18.rs:87-111 | a deserialized chunk with unshared, not yet unpacked block states is valid and has no memoised map |
| Pre18.JavaChunk.Block | fastanvil/src/java/pre18.rs:61-74 | returns `BlockAt`: None outside the tower, AIR without block states, else the palette entry, whichever caches are filled; afterwards the section found has its states unpacked (`done`), a section already unpacked keeps its buffer, and every other section keeps its flag and buffer |
| Pre18.JavaChunk.Biome | fastanvil/src/java/pre18.rs:33-59 | None without biomes; for the 256-entry per-column layout, the biome of code `biomes[z*16 + x]` |
| Pre18.JavaChunk.BiomeCubes | fastanvil/src/java/pre18.rs:49-57 | y below the range reads like its start and above it like its last y; inside, the cell `(z/4)*4 + x/4 + ((y-start)/4)*16` is read when the array has it and None is answered when it does not |
| Pre18.JavaChunk.RecalculateHeightmap | fastanvil/src/java/pre18.rs:114-169 | replaces the memoised map with the stored expansion (Trust with a stored map) or the scanned map; a section already unpacked stays unpacked with the same buffer |
| Pre18.JavaChunk.RecalculateRow | fastanvil/src/java/pre18.rs:146-166 | the columns of row z extend a correct prefix of the map by sixteen entries; a section already unpacked stays unpacked with the same buffer |
| Pre18.JavaChunk.RecordColumn | fastanvil/src/java/pre18.rs:147-164 | records column (x, z) at `z * 16 + x`, extending a correct prefix; a section already unpacked stays unpacked with the same buffer |
| Pre18.JavaChunk.ScanColumn | fastanvil/src/java/pre18.rs:149-163 | the inner loop records the column's scan height, cast to i16; a section already unpacked stays unpacked with the same buffer |
| Pre18.JavaChunk.ProbeSurface | fastanvil/src/java/pre18.rs:151-161 | one probe answers whether the block is present and neither air nor cave air; a section already unpacked stays unpacked with the same buffer |
| Pre18.JavaChunk.SurfaceHeight | fastanvil/src/java/pre18.rs:25-31 | builds the map only when none is memoised (then the mode is ignored) and reads entry `z * 16 + x`; a section already unpacked stays unpacked with the same buffer |

## Left out

- Floating-point values: `Double` and `Float` are kept as opaque payloads, and no wire value decodes to them.
- `fastnbt/src/error.rs` is not part of this model. Errors are the single `invalid_type` shape: what was found and what was expected.
- The serde machinery is not modelled. This covers derived `Serialize`/`Deserialize`, tag checking and buffering for untagged enums. A value as read is the `Wire` datatype, with its width and whether a string could be lent.
- Code defined elsewhere in the library is a field of `Common.External`, known only by the shape of its result: `bits_per_block`, the `PackedBits` unpackers, `expand_heightmap`, `Biome::try_from` and `AIR`.
- The section tower of the pre-1.18 form is defined elsewhere. The model keeps its sections, `y_min`, `y_max` and lookup, and relies on `TowerValid`: the tower holds no terminator sections (it skips them while it is built), a section found for y spans y, and y lies in `[y_min, y_max)`.
- `Cell`/`RefCell` borrow panics and lifetimes are not modelled. Views hold the bytes themselves, so zero-copy sharing of the input is not captured.
- `HashMap` iteration order in `encoded_description` is an arbitrary choice, so every order is covered. Duplicate compound keys keep the last entry.
- Pre18.JavaChunk.Block: the `sec_y * 256 + z * 16 + x` arithmetic is unbounded. `usize` overflow cannot occur inside the 16x16 columns, which is where the model proves `block` safe.
- Anvil.Chunk.RecalculateHeightmap: exact heights are stated only when every section is settled. A section with a palette but neither block states nor a cache answers None on the first `block` call and `palette[0]` on later calls. Its scan result then depends on the order of probes, and only the range of the heights is stated.
- Anvil.Chunk.ScanColumn, Anvil.Chunk.RecordColumn, Anvil.Chunk.RecalculateRow, Anvil.Chunk.ProbeSurface: the same settled-sections condition applies to their exact results.
- Anvil.Chunk.RecalculateHeightmap: the section caches the scan fills are stated only as coherent with unpacking. The sections are otherwise unchanged.
- The pre-1.18 height maps keep only `motion_blocking`, the one map the source reads.
- The chunk `status` is a plain field in both forms. `status()` only clones it, so the model reads the field directly.
- The `Chunk` and `SectionLike` trait dispatch is not modelled. Each form's methods are called directly.
- Borrow.IntIter.Next, Borrow.LongIter.Next: when fewer than four (eight) bytes remain, the model empties the slice. Some standard-library versions leave it unchanged instead, and either way the iterator yields nothing more.
