/**
 * GGUF key/value entries (ggml `docs/gguf.md`, section "File Structure"): the thirteen value
 * types, and the encoding a writer produces.
 */
module GgufFormat {
  import opened Wrappers
  import opened Bytes
  import Utf8

  datatype Value =
    | U8(n: int) | I8(n: int) | U16(n: int) | I16(n: int) | U32(n: int) | I32(n: int)
    | F32(bits: int) | Bool(b: bool) | Str(text: string)
    | Arr(elemTag: nat, elems: seq<Value>)
    | U64(n: int) | I64(n: int) | F64(bits: int)

  function Tag(v: Value): nat {
    match v
    case U8(_) => 0 case I8(_) => 1 case U16(_) => 2 case I16(_) => 3 case U32(_) => 4
    case I32(_) => 5 case F32(_) => 6 case Bool(_) => 7 case Str(_) => 8 case Arr(_, _) => 9
    case U64(_) => 10 case I64(_) => 11 case F64(_) => 12
  }

  const MAX_STRING: nat := 1_000_000
  const MAX_ENTRIES: nat := 10_000

  predicate StringFits(s: string) { |Utf8.Encode(s)| <= MAX_STRING }

  /** Numbers are within their width, strings within the reader's limit, arrays homogeneous. */
  ghost predicate WellTyped(v: Value) {
    match v
    case U8(n) => 0 <= n < 256
    case I8(n) => -128 <= n < 128
    case U16(n) => 0 <= n < 0x1_0000
    case I16(n) => -0x8000 <= n < 0x8000
    case U32(n) => 0 <= n < TWO32
    case I32(n) => -0x8000_0000 <= n < 0x8000_0000
    case F32(bits) => 0 <= bits < TWO32
    case Bool(_) => true
    case Str(text) => StringFits(text)
    case Arr(elemTag, elems) =>
      elemTag <= 12 && |elems| < TWO64
      && forall i :: 0 <= i < |elems| ==> Tag(elems[i]) == elemTag && WellTyped(elems[i])
    case U64(n) => 0 <= n < TWO64
    case I64(n) => -0x8000_0000_0000_0000 <= n < 0x8000_0000_0000_0000
    case F64(bits) => 0 <= bits < TWO64
  }

  /** Two's complement of `n` in `width` bytes, least significant byte first. */
  function Twos(n: int, width: nat): seq<Byte> {
    ToLE(if n < 0 then Abs(n + Pow256(width)) else n, width)
  }

  function Abs(n: int): nat { if n < 0 then -n else n }

  function EncodeString(s: string): seq<Byte> {
    ToLE(|Utf8.Encode(s)|, 8) + Utf8.Encode(s)
  }

  function EncodeValue(v: Value): seq<Byte> {
    match v
    case U8(n) => Twos(n, 1)
    case I8(n) => Twos(n, 1)
    case U16(n) => Twos(n, 2)
    case I16(n) => Twos(n, 2)
    case U32(n) => Twos(n, 4)
    case I32(n) => Twos(n, 4)
    case F32(bits) => Twos(bits, 4)
    case Bool(b) => [if b then 1 else 0]
    case Str(text) => EncodeString(text)
    case Arr(elemTag, elems) => ToLE(elemTag, 4) + ToLE(|elems|, 8) + EncodeAll(elems)
    case U64(n) => Twos(n, 8)
    case I64(n) => Twos(n, 8)
    case F64(bits) => Twos(bits, 8)
  }

  function EncodeAll(vs: seq<Value>): seq<Byte> {
    if vs == [] then [] else EncodeValue(vs[0]) + EncodeAll(vs[1..])
  }

  datatype Entry = Entry(key: string, value: Value)

  ghost predicate WellTypedEntry(e: Entry) { StringFits(e.key) && WellTyped(e.value) }

  function EncodeEntry(e: Entry): seq<Byte> {
    EncodeString(e.key) + ToLE(Tag(e.value), 4) + EncodeValue(e.value)
  }

  function EncodeEntries(es: seq<Entry>): seq<Byte> {
    if es == [] then [] else EncodeEntry(es[0]) + EncodeEntries(es[1..])
  }

  const MAGIC: seq<Byte> := [0x47, 0x47, 0x55, 0x46]  // "GGUF"

  function EncodeFile(version: nat, tensors: nat, es: seq<Entry>): seq<Byte> {
    MAGIC + ToLE(version, 4) + ToLE(tensors, 8) + ToLE(|es|, 8) + EncodeEntries(es)
  }
}
