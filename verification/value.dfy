/** The dynamic NBT value (fastnbt value.rs), owning and borrowing flavours.

    Both enums are decoded "untagged": the framework buffers what it read
    and offers it to each variant in declaration order, keeping the first
    variant that accepts. The first three variants carry strict hooks that
    accept only their own integer width, so narrow integers are not widened
    into a later variant. */
module Values {
  import opened Common
  import Borrow

  /** What the decoding framework read for one value, with its wire width.
      A string remembers whether the framework could lend it from the input
      (`borrowed`) or had to copy it. Floating-point values are not part of
      this model. */
  datatype Wire =
    | WireI8(i8: I8)
    | WireI16(i16: I16)
    | WireI32(i32: I32)
    | WireI64(i64: I64)
    | WireStr(s: string, borrowed: bool)
    | WireByteArray(bytes: seq<Byte>)
    | WireIntArray(bytes: seq<Byte>)
    | WireLongArray(bytes: seq<Byte>)
    | WireList(items: seq<Wire>)
    | WireCompound(entries: seq<Entry>)
  {
    predicate IsInteger() {
      WireI8? || WireI16? || WireI32? || WireI64?
    }

    /** How the framework names the value in an `invalid_type` error. */
    function Kind(): string {
      match this
      case WireI8(_) => "i8"
      case WireI16(_) => "i16"
      case WireI32(_) => "i32"
      case WireI64(_) => "i64"
      case WireStr(_, _) => "string"
      case WireByteArray(_) => "byte array"
      case WireIntArray(_) => "int array"
      case WireLongArray(_) => "long array"
      case WireList(_) => "sequence"
      case WireCompound(_) => "map"
    }
  }

  /** One named field of a compound, as read. */
  datatype Entry = Entry(key: string, value: Wire)

  datatype Result<+T> = Ok(value: T) | Err(error: DeError)

  // ---------------------------------------------------------------------
  // The strict hooks
  // ---------------------------------------------------------------------

  /** strict_i8: only an 8-bit integer is accepted, and returned unchanged. */
  function StrictI8(w: Wire): (r: Result<I8>)
    ensures r.Ok? <==> w.WireI8?
    ensures r.Ok? ==> r.value == w.i8
    ensures r.Err? ==> r.error == InvalidType(w.Kind(), "expecting exactly i8")
  {
    if w.WireI8? then Ok(w.i8) else Err(InvalidType(w.Kind(), "expecting exactly i8"))
  }

  /** strict_i16: only a 16-bit integer is accepted, and returned unchanged. */
  function StrictI16(w: Wire): (r: Result<I16>)
    ensures r.Ok? <==> w.WireI16?
    ensures r.Ok? ==> r.value == w.i16
    ensures r.Err? ==> r.error == InvalidType(w.Kind(), "expecting exactly i16")
  {
    if w.WireI16? then Ok(w.i16) else Err(InvalidType(w.Kind(), "expecting exactly i16"))
  }

  /** strict_i32: only a 32-bit integer is accepted, and returned unchanged. */
  function StrictI32(w: Wire): (r: Result<I32>)
    ensures r.Ok? <==> w.WireI32?
    ensures r.Ok? ==> r.value == w.i32
    ensures r.Err? ==> r.error == InvalidType(w.Kind(), "expecting exactly i32")
  {
    if w.WireI32? then Ok(w.i32) else Err(InvalidType(w.Kind(), "expecting exactly i32"))
  }

  /** The framework's ordinary i64 visitor, used by `Long`: every signed
      integer width is accepted and widened. */
  function PlainI64(w: Wire): (r: Result<I64>)
    ensures r.Ok? <==> w.IsInteger()
  {
    match w
    case WireI8(v) => Ok(v)
    case WireI16(v) => Ok(v)
    case WireI32(v) => Ok(v)
    case WireI64(v) => Ok(v)
    case _ => Err(InvalidType(w.Kind(), "i64"))
  }

  /** A floating-point payload, kept opaque. */
  datatype FloatBits = FloatBits(bits: nat)

  /** Compound entries into a map; on a repeated key the later entry wins,
      as the framework's map insertion does. */
  function MapOf<V>(entries: seq<(string, V)>): (m: map<string, V>)
    ensures m.Keys == set e | e in entries :: e.0
  {
    if entries == [] then map[]
    else
      var last := entries[|entries| - 1];
      var m := MapOf(entries[..|entries| - 1]);
      assert entries == entries[..|entries| - 1] + [last];
      m[last.0 := last.1]
  }

  /** The value of a repeated key is that of its last entry. */
  lemma {:induction false} MapOfLastWins<V>(entries: seq<(string, V)>, i: nat)
    requires i < |entries|
    requires forall j :: i < j < |entries| ==> entries[j].0 != entries[i].0
    ensures MapOf(entries)[entries[i].0] == entries[i].1
    decreases |entries|
  {
    if i < |entries| - 1 {
      MapOfLastWins(entries[..|entries| - 1], i);
    }
  }

  // ---------------------------------------------------------------------
  // The owning flavour
  // ---------------------------------------------------------------------

  datatype Value =
    | Byte(b: I8)
    | Short(s: I16)
    | Int(i: I32)
    | Long(l: I64)
    | Double(d: FloatBits)
    | Float(f: FloatBits)
    | String(str: string)
    | ByteArray(byteData: seq<Byte>)
    | IntArray(intData: seq<Byte>)
    | LongArray(longData: seq<Byte>)
    | List(items: seq<Value>)
    | Compound(fields: map<string, Value>)

  /** Untagged decoding of a Value: the first variant, in declaration order,
      whose decoder accepts. None is the framework's "did not match any
      variant" error. */
  function Decode(w: Wire): (r: Option<Value>)
    decreases w
    ensures w.WireI8? ==> r == Some(Byte(w.i8))
    ensures w.WireI16? ==> r == Some(Short(w.i16))
    ensures w.WireI32? ==> r == Some(Int(w.i32))
    ensures w.WireI64? ==> r == Some(Long(w.i64))
    ensures w.WireStr? ==> r == Some(String(w.s))
    ensures r.Some? && w.WireList? ==> r.value.List? && |r.value.items| == |w.items|
    ensures r.Some? && w.WireCompound? ==> r.value.Compound?
  {
    if StrictI8(w).Ok? then Some(Byte(StrictI8(w).value))
    else if StrictI16(w).Ok? then Some(Short(StrictI16(w).value))
    else if StrictI32(w).Ok? then Some(Int(StrictI32(w).value))
    else if PlainI64(w).Ok? then Some(Long(PlainI64(w).value))
    else match w
      case WireStr(s, _) => Some(String(s))
      case WireByteArray(bytes) => Some(ByteArray(bytes))
      case WireIntArray(bytes) => Some(IntArray(bytes))
      case WireLongArray(bytes) => Some(LongArray(bytes))
      case WireList(items) =>
        (match DecodeItems(items)
         case Some(vs) => Some(List(vs))
         case None => None)
      case WireCompound(entries) =>
        (match DecodeEntries(entries)
         case Some(es) => Some(Compound(MapOf(es)))
         case None => None)
      case _ => None
  }

  /** The elements of a list, each decoded; None if any element fails. */
  function DecodeItems(items: seq<Wire>): (r: Option<seq<Value>>)
    decreases items
    ensures r.Some? ==> |r.value| == |items|
  {
    if items == [] then Some([])
    else match (Decode(items[0]), DecodeItems(items[1..]))
      case (Some(v), Some(vs)) => Some([v] + vs)
      case _ => None
  }

  /** The entries of a compound, each value decoded; None if any fails. */
  function DecodeEntries(entries: seq<Entry>): (r: Option<seq<(string, Value)>>)
    decreases entries
    ensures r.Some? ==> |r.value| == |entries|
  {
    if entries == [] then Some([])
    else
      match (Decode(entries[0].value), DecodeEntries(entries[1..]))
      case (Some(v), Some(vs)) => Some([(entries[0].key, v)] + vs)
      case _ => None
  }

  /** The width on the wire decides the variant: two integers decode to
      equal Values exactly when they had the same width and value, so
      `Byte(1)`, `Short(1)` and `Int(1)` never compare equal. */
  lemma WidthsStayDistinct(w1: Wire, w2: Wire)
    requires w1.IsInteger() && w2.IsInteger()
    ensures Decode(w1) == Decode(w2) <==> w1 == w2
  {
  }

  /** Declaration order matters: Long's own decoder would take a narrow
      integer, but the strict variant before it takes it first. */
  lemma FirstMatchWins(v: I8)
    ensures PlainI64(WireI8(v)).Ok?
    ensures Decode(WireI8(v)) == Some(Byte(v))
  {
  }

  /** A list decodes exactly when every element does, and then element by
      element, in order. */
  lemma {:induction false} DecodeItemsElementwise(items: seq<Wire>)
    ensures DecodeItems(items).Some? <==> forall k :: 0 <= k < |items| ==> Decode(items[k]).Some?
    ensures DecodeItems(items).Some? ==>
      forall k :: 0 <= k < |items| ==> DecodeItems(items).value[k] == Decode(items[k]).value
    decreases items
  {
    if items != [] {
      DecodeItemsElementwise(items[1..]);
      assert forall k :: 1 <= k < |items| ==> items[1..][k - 1] == items[k];
    }
  }

  // ---------------------------------------------------------------------
  // The borrowing flavour
  // ---------------------------------------------------------------------

  datatype BorrowedValue =
    | BByte(b: I8)
    | BShort(s: I16)
    | BInt(i: I32)
    | BLong(l: I64)
    | BDouble(d: FloatBits)
    | BFloat(f: FloatBits)
    | BString(cow: Borrow.CowStr)
    | BByteArray(byteView: Borrow.ByteArray)
    | BIntArray(intView: Borrow.IntArray)
    | BLongArray(longView: Borrow.LongArray)
    | BList(items: seq<BorrowedValue>)
    | BCompound(fields: map<string, BorrowedValue>)

  /** Untagged decoding of a BorrowedValue: same variant order and the same
      strict hooks on the first three variants; strings are lent from the
      input when the framework can lend them, and arrays are views. */
  function DecodeBorrowed(w: Wire): (r: Option<BorrowedValue>)
    decreases w
    ensures w.WireStr? ==> r.Some? && r.value.BString? && r.value.cow.Content() == w.s
    ensures w.WireStr? ==> (r.value.cow.Borrowed? <==> w.borrowed)
    ensures r.Some? && w.WireList? ==> r.value.BList? && |r.value.items| == |w.items|
  {
    if StrictI8(w).Ok? then Some(BByte(StrictI8(w).value))
    else if StrictI16(w).Ok? then Some(BShort(StrictI16(w).value))
    else if StrictI32(w).Ok? then Some(BInt(StrictI32(w).value))
    else if PlainI64(w).Ok? then Some(BLong(PlainI64(w).value))
    else match w
      case WireStr(s, borrowed) =>
        var offer := if borrowed then Borrow.BorrowedStr(s) else Borrow.OwnedString(s);
        Some(BString(Borrow.VisitStr(offer).cow))
      case WireByteArray(bytes) => Some(BByteArray(Borrow.ByteArray(bytes)))
      case WireIntArray(bytes) => Some(BIntArray(Borrow.IntArray(bytes)))
      case WireLongArray(bytes) => Some(BLongArray(Borrow.LongArray(bytes)))
      case WireList(items) =>
        (match DecodeBorrowedItems(items)
         case Some(vs) => Some(BList(vs))
         case None => None)
      case WireCompound(entries) =>
        (match DecodeBorrowedEntries(entries)
         case Some(es) => Some(BCompound(MapOf(es)))
         case None => None)
      case _ => None
  }

  function DecodeBorrowedItems(items: seq<Wire>): (r: Option<seq<BorrowedValue>>)
    decreases items
    ensures r.Some? ==> |r.value| == |items|
  {
    if items == [] then Some([])
    else match (DecodeBorrowed(items[0]), DecodeBorrowedItems(items[1..]))
      case (Some(v), Some(vs)) => Some([v] + vs)
      case _ => None
  }

  function DecodeBorrowedEntries(entries: seq<Entry>): (r: Option<seq<(string, BorrowedValue)>>)
    decreases entries
    ensures r.Some? ==> |r.value| == |entries|
  {
    if entries == [] then Some([])
    else
      match (DecodeBorrowed(entries[0].value), DecodeBorrowedEntries(entries[1..]))
      case (Some(v), Some(vs)) => Some([(entries[0].key, v)] + vs)
      case _ => None
  }

  /** The integer part of a value of either flavour, tagged with its width
      in bits. */
  function IntegerOf(v: Value): Option<(nat, int)> {
    match v
    case Byte(x) => Some((8, x))
    case Short(x) => Some((16, x))
    case Int(x) => Some((32, x))
    case Long(x) => Some((64, x))
    case _ => None
  }

  function BorrowedIntegerOf(v: BorrowedValue): Option<(nat, int)> {
    match v
    case BByte(x) => Some((8, x))
    case BShort(x) => Some((16, x))
    case BInt(x) => Some((32, x))
    case BLong(x) => Some((64, x))
    case _ => None
  }

  /** Both flavours put every wire integer in the variant of the same width
      with the same value, and decode a list of the same length. */
  lemma {:induction false} FlavoursAgree(w: Wire)
    ensures Decode(w).Some? <==> DecodeBorrowed(w).Some?
    ensures Decode(w).Some? ==> IntegerOf(Decode(w).value) == BorrowedIntegerOf(DecodeBorrowed(w).value)
    decreases w
  {
    match w
    case WireList(items) => FlavoursAgreeOnItems(items);
    case WireCompound(entries) => FlavoursAgreeOnEntries(entries);
    case _ =>
    if Decode(w).Some? {
      IntegersAgree(w);
    }
  }

  /** An integer is read by the same strict reader in both flavours. */
  lemma IntegersAgree(w: Wire)
    requires Decode(w).Some? && DecodeBorrowed(w).Some?
    ensures IntegerOf(Decode(w).value) == BorrowedIntegerOf(DecodeBorrowed(w).value)
  {
    if StrictI8(w).Ok? {
    } else if StrictI16(w).Ok? {
    } else if StrictI32(w).Ok? {
    } else if PlainI64(w).Ok? {
    }
  }

  lemma {:induction false} FlavoursAgreeOnItems(items: seq<Wire>)
    ensures DecodeItems(items).Some? <==> DecodeBorrowedItems(items).Some?
    decreases items
  {
    if items != [] {
      FlavoursAgree(items[0]);
      FlavoursAgreeOnItems(items[1..]);
    }
  }

  lemma {:induction false} FlavoursAgreeOnEntries(entries: seq<Entry>)
    ensures DecodeEntries(entries).Some? <==> DecodeBorrowedEntries(entries).Some?
    decreases entries
  {
    if entries != [] {
      FlavoursAgree(entries[0].value);
      FlavoursAgreeOnEntries(entries[1..]);
    }
  }
}
