/** Zero-copy array views and their iterators (fastnbt borrow.rs).

    A view is a value holding the raw payload bytes of a ByteArray, IntArray
    or LongArray tag. Its iterator holds its own copy of the view and
    advances a slice over the bytes on every `next`; a trailing group too
    short for one element ends the iteration silently. */
module Borrow {
  import opened Common

  // ---------------------------------------------------------------------
  // What an iteration yields, as functions of the bytes
  // ---------------------------------------------------------------------

  /** The bytes read as consecutive i8s. */
  function DecodeBytes(data: seq<Byte>): (r: seq<I8>)
    decreases |data|
  {
    if |data| == 0 then [] else [ByteToI8(data[0])] + DecodeBytes(data[1..])
  }

  /** One i8 per byte, each the byte reinterpreted in two's complement. */
  lemma {:induction false} DecodeBytesAt(data: seq<Byte>, k: nat)
    requires k < |data|
    ensures |DecodeBytes(data)| == |data|
    ensures DecodeBytes(data)[k] == ByteToI8(data[k])
    decreases |data|
  {
    DecodeBytesLength(data);
    if k > 0 {
      DecodeBytesAt(data[1..], k - 1);
    }
  }

  /** Exactly `|data|` bytes. */
  lemma {:induction false} DecodeBytesLength(data: seq<Byte>)
    ensures |DecodeBytes(data)| == |data|
    decreases |data|
  {
    if |data| > 0 {
      DecodeBytesLength(data[1..]);
    }
  }

  /** The bytes read as consecutive big-endian i32s; a short tail is dropped. */
  function DecodeInts(data: seq<Byte>): (r: seq<I32>)
    decreases |data|
  {
    if |data| < 4 then [] else [BeI32(data[0], data[1], data[2], data[3])] + DecodeInts(data[4..])
  }

  /** The bytes read as consecutive big-endian i64s; a short tail is dropped. */
  function DecodeLongs(data: seq<Byte>): (r: seq<I64>)
    decreases |data|
  {
    if |data| < 8 then [] else [BeI64(data[..8])] + DecodeLongs(data[8..])
  }

  /** Exactly `|data| / 4` ints. */
  lemma {:induction false} DecodeIntsLength(data: seq<Byte>)
    ensures |DecodeInts(data)| == |data| / 4
    decreases |data|
  {
    if |data| >= 4 {
      DecodeIntsLength(data[4..]);
    }
  }

  /** The k-th int is read from bytes 4k..4k+4. */
  lemma {:induction false} DecodeIntsAt(data: seq<Byte>, k: nat)
    requires k < |data| / 4
    ensures |DecodeInts(data)| == |data| / 4
    ensures DecodeInts(data)[k] == BeI32(data[4 * k], data[4 * k + 1], data[4 * k + 2], data[4 * k + 3])
    decreases k
  {
    DecodeIntsLength(data);
    if k > 0 {
      DecodeIntsAt(data[4..], k - 1);
      assert data[4..][4 * (k - 1)] == data[4 * k];
    }
  }

  /** Exactly `|data| / 8` longs. */
  lemma {:induction false} DecodeLongsLength(data: seq<Byte>)
    ensures |DecodeLongs(data)| == |data| / 8
    decreases |data|
  {
    if |data| >= 8 {
      DecodeLongsLength(data[8..]);
    }
  }

  /** The k-th long is read from bytes 8k..8k+8. */
  lemma {:induction false} DecodeLongsAt(data: seq<Byte>, k: nat)
    requires k < |data| / 8
    ensures |DecodeLongs(data)| == |data| / 8
    ensures DecodeLongs(data)[k] == BeI64(data[8 * k .. 8 * k + 8])
    decreases k
  {
    DecodeLongsLength(data);
    if k > 0 {
      DecodeLongsAt(data[8..], k - 1);
      SliceOfSlice(data, 8, 8 * k - 8, 8 * k);
    }
  }

  lemma SliceOfSlice<T>(s: seq<T>, n: nat, i: nat, j: nat)
    requires i <= j && n + j <= |s|
    ensures s[n..][i..j] == s[n + i..n + j]
  {
  }

  /** The big-endian bytes of a sequence of ints. */
  function EncodeInts(xs: seq<I32>): (r: seq<Byte>)
    ensures |r| == 4 * |xs|
  {
    if xs == [] then [] else EncodeI32(xs[0]) + EncodeInts(xs[1..])
  }

  /** The big-endian bytes of a sequence of longs. */
  function EncodeLongs(xs: seq<I64>): (r: seq<Byte>)
    ensures |r| == 8 * |xs|
  {
    if xs == [] then [] else EncodeI64(xs[0]) + EncodeLongs(xs[1..])
  }

  /** A leading group of four bytes is read as one int. */
  lemma DecodeIntsCons(e: seq<Byte>, rest: seq<Byte>)
    requires |e| == 4
    ensures DecodeInts(e + rest) == [BeI32(e[0], e[1], e[2], e[3])] + DecodeInts(rest)
  {
    assert (e + rest)[4..] == rest;
  }

  /** A leading group of eight bytes is read as one long. */
  lemma DecodeLongsCons(e: seq<Byte>, rest: seq<Byte>)
    requires |e| == 8
    ensures DecodeLongs(e + rest) == [BeI64(e)] + DecodeLongs(rest)
  {
    assert (e + rest)[..8] == e;
    assert (e + rest)[8..] == rest;
  }

  /** Reading back encoded ints gives them back, whatever short tail (fewer
      than four bytes) follows them. */
  lemma {:induction false} IntsRoundTrip(xs: seq<I32>, tail: seq<Byte>)
    requires |tail| < 4
    ensures DecodeInts(EncodeInts(xs) + tail) == xs
  {
    if xs != [] {
      var e := EncodeI32(xs[0]);
      var rest := EncodeInts(xs[1..]) + tail;
      assert EncodeInts(xs) + tail == e + rest;
      DecodeIntsCons(e, rest);
      IntsRoundTrip(xs[1..], tail);
    } else {
      assert EncodeInts(xs) + tail == tail;
    }
  }

  /** Reading back encoded longs gives them back, whatever short tail
      (fewer than eight bytes) follows them. */
  lemma {:induction false} LongsRoundTrip(xs: seq<I64>, tail: seq<Byte>)
    requires |tail| < 8
    ensures DecodeLongs(EncodeLongs(xs) + tail) == xs
  {
    if xs != [] {
      var e := EncodeI64(xs[0]);
      var rest := EncodeLongs(xs[1..]) + tail;
      assert EncodeLongs(xs) + tail == e + rest;
      DecodeLongsCons(e, rest);
      LongsRoundTrip(xs[1..], tail);
    } else {
      assert EncodeLongs(xs) + tail == tail;
    }
  }

  // ---------------------------------------------------------------------
  // The views. They are `Copy` values: iterating never changes them.
  // ---------------------------------------------------------------------

  datatype ByteArray = ByteArray(data: seq<Byte>)
  datatype IntArray = IntArray(data: seq<Byte>)
  datatype LongArray = LongArray(data: seq<Byte>)

  // ---------------------------------------------------------------------
  // The iterators. Each holds the slice still to be read.
  // ---------------------------------------------------------------------

  class ByteIter {
    var data: seq<Byte>

    /** `ByteArray::iter`: a new iterator over a copy of the view. */
    constructor (a: ByteArray)
      ensures data == a.data
      ensures Remaining() == DecodeBytes(a.data)
    {
      data := a.data;
    }

    /** The items the iterator has still to yield. */
    function Remaining(): seq<I8>
      reads this
    {
      DecodeBytes(data)
    }

    /** `read_i8().ok()`: the next byte, or None once the slice is empty. */
    method Next() returns (r: Option<I8>)
      modifies this
      ensures old(Remaining()) == [] ==> r == None && Remaining() == []
      ensures old(Remaining()) != [] ==> r == Some(old(Remaining())[0]) && Remaining() == old(Remaining())[1..]
    {
      if |data| >= 1 {
        r := Some(ByteToI8(data[0]));
        data := data[1..];
      } else {
        r := None;
      }
    }
  }

  class IntIter {
    var data: seq<Byte>

    /** `IntArray::iter`: a new iterator over a copy of the view. */
    constructor (a: IntArray)
      ensures data == a.data
      ensures Remaining() == DecodeInts(a.data)
    {
      data := a.data;
    }

    function Remaining(): seq<I32>
      reads this
    {
      DecodeInts(data)
    }

    /** `read_i32::<BigEndian>().ok()`: the next four bytes as an i32, or
        None when fewer than four remain (the short slice is consumed, as
        the standard library's `read_exact` on a slice does). */
    method Next() returns (r: Option<I32>)
      modifies this
      ensures old(Remaining()) == [] ==> r == None && Remaining() == []
      ensures old(Remaining()) != [] ==> r == Some(old(Remaining())[0]) && Remaining() == old(Remaining())[1..]
    {
      if |data| >= 4 {
        r := Some(BeI32(data[0], data[1], data[2], data[3]));
        data := data[4..];
      } else {
        r := None;
        data := [];
      }
    }
  }

  class LongIter {
    var data: seq<Byte>

    /** `LongArray::iter`: a new iterator over a copy of the view. */
    constructor (a: LongArray)
      ensures data == a.data
      ensures Remaining() == DecodeLongs(a.data)
    {
      data := a.data;
    }

    function Remaining(): seq<I64>
      reads this
    {
      DecodeLongs(data)
    }

    /** `read_i64::<BigEndian>().ok()`: the next eight bytes as an i64, or
        None when fewer than eight remain. */
    method Next() returns (r: Option<I64>)
      modifies this
      ensures old(Remaining()) == [] ==> r == None && Remaining() == []
      ensures old(Remaining()) != [] ==> r == Some(old(Remaining())[0]) && Remaining() == old(Remaining())[1..]
    {
      if |data| >= 8 {
        r := Some(BeI64(data[..8]));
        data := data[8..];
      } else {
        r := None;
        data := [];
      }
    }
  }

  // ---------------------------------------------------------------------
  // Draining an iterator: `for v in array.iter() { ... }`
  // ---------------------------------------------------------------------

  /** Everything a fresh IntIter yields before its first None: one i32 per
      complete 4-byte group, in order. */
  method CollectInts(a: IntArray) returns (xs: seq<I32>)
    ensures xs == DecodeInts(a.data)
    ensures |xs| == |a.data| / 4
  {
    var it := new IntIter(a);
    xs := [];
    while true
      invariant xs + it.Remaining() == DecodeInts(a.data)
      decreases |it.Remaining()|
    {
      ghost var rest := it.Remaining();
      var r := it.Next();
      if r.None? {
        break;
      }
      assert rest == [r.value] + it.Remaining();
      xs := xs + [r.value];
    }
    DecodeIntsLength(a.data);
  }

  /** Everything a fresh LongIter yields before its first None. */
  method CollectLongs(a: LongArray) returns (xs: seq<I64>)
    ensures xs == DecodeLongs(a.data)
    ensures |xs| == |a.data| / 8
  {
    var it := new LongIter(a);
    xs := [];
    while true
      invariant xs + it.Remaining() == DecodeLongs(a.data)
      decreases |it.Remaining()|
    {
      ghost var rest := it.Remaining();
      var r := it.Next();
      if r.None? {
        break;
      }
      assert rest == [r.value] + it.Remaining();
      xs := xs + [r.value];
    }
    DecodeLongsLength(a.data);
  }

  /** Everything a fresh ByteIter yields before its first None. */
  method CollectBytes(a: ByteArray) returns (xs: seq<I8>)
    ensures xs == DecodeBytes(a.data)
    ensures |xs| == |a.data|
  {
    var it := new ByteIter(a);
    xs := [];
    while true
      invariant xs + it.Remaining() == DecodeBytes(a.data)
      decreases |it.Remaining()|
    {
      ghost var rest := it.Remaining();
      var r := it.Next();
      if r.None? {
        break;
      }
      assert rest == [r.value] + it.Remaining();
      xs := xs + [r.value];
    }
    DecodeBytesLength(a.data);
  }

  /** Once `next` has answered None it keeps answering None. */
  method ExhaustedStaysExhausted(it: IntIter) returns (first: Option<I32>, second: Option<I32>)
    modifies it
    ensures first.None? ==> second.None?
  {
    first := it.Next();
    second := it.Next();
  }

  /** `iter()` copies the view: an iterator made after another has been
      advanced still starts from the first element. */
  method IterRestarts(a: IntArray) returns (first: Option<I32>, again: Option<I32>)
    ensures first == again
    ensures |a.data| >= 4 <==> first.Some?
  {
    var it := new IntIter(a);
    first := it.Next();
    var it2 := new IntIter(a);
    again := it2.Next();
  }

  // ---------------------------------------------------------------------
  // Strings: CowStrVisitor and deserialize_cow_str
  // ---------------------------------------------------------------------

  /** Where a string's bytes live once decoded. */
  datatype CowStr = Borrowed(borrowed: string) | Owned(owned: string) {
    function Content(): string {
      match this
      case Borrowed(s) => s
      case Owned(s) => s
    }
  }

  /** How the decoding framework hands a string value to a visitor; any
      other kind of value is offered as `NotAString`. */
  datatype StrOffer =
    | BorrowedStr(s: string)   // visit_borrowed_str: a slice of the input
    | TransientStr(s: string)  // visit_str: a temporary buffer
    | OwnedString(s: string)   // visit_string: already owned
    | NotAString(kind: string)

  datatype StrResult = StrOk(cow: CowStr) | StrErr(err: DeError)

  /** CowStrVisitor: borrows a borrowed slice, copies anything else. */
  function VisitStr(offer: StrOffer): (r: StrResult)
    ensures offer.NotAString? <==> r.StrErr?
    ensures r.StrOk? ==> r.cow.Content() == offer.s
    ensures r.StrOk? ==> (r.cow.Borrowed? <==> offer.BorrowedStr?)
  {
    match offer
    case BorrowedStr(s) => StrOk(Borrowed(s))
    case TransientStr(s) => StrOk(Owned(s))
    case OwnedString(s) => StrOk(Owned(s))
    case NotAString(kind) => StrErr(InvalidType(kind, "a string"))
  }

  datatype CowResult = CowOk(cow: CowStr) | CowErr(err: DeError)

  /** deserialize_cow_str: the visitor's `Cow`, unwrapped from CowStr; the
      same text whichever of the three string paths the framework took,
      lent only when the input slice was. */
  function DeserializeCowStr(offer: StrOffer): (r: CowResult)
    ensures offer.NotAString? <==> r.CowErr?
    ensures r.CowOk? ==> r.cow.Content() == offer.s && (r.cow.Borrowed? <==> offer.BorrowedStr?)
    ensures r.CowErr? ==> r.err.expected == "a string"
  {
    match VisitStr(offer)
    case StrOk(cow) => CowOk(cow)
    case StrErr(e) => CowErr(e)
  }
}
