/**
 * The GGUF metadata reader as functions on the bytes that remain. Every function either fails
 * or returns a value together with what is left of the input.
 */
module GgufReader {
  import opened Wrappers
  import opened Bytes
  import opened GgufFormat
  import Utf8

  datatype Parsed<+T> = Fail | Ok(value: T, rest: seq<Byte>)

  /** `read_exact`: all of the bytes, or an error. */
  function Take(data: seq<Byte>, n: nat): Parsed<seq<Byte>> {
    if |data| < n then Fail else Ok(data[..n], data[n..])
  }

  function ReadNumber(data: seq<Byte>, width: nat): Parsed<nat> {
    match Take(data, width)
    case Fail => Fail
    case Ok(bytes, rest) => Ok(FromLE(bytes), rest)
  }

  function ReadString(data: seq<Byte>): Parsed<string> {
    match ReadNumber(data, 8)
    case Fail => Fail
    case Ok(len, rest) =>
      if len > MAX_STRING then Fail
      else
        match Take(rest, len)
        case Fail => Fail
        case Ok(bytes, rest') =>
          match Utf8.Decode(bytes)
          case None => Fail
          case Some(s) => Ok(s, rest')
  }

  /** Byte width of the integer types the reader understands; 0 for every other type. */
  function IntWidth(vtype: nat): nat {
    if vtype == 4 || vtype == 5 then 4 else if vtype == 10 || vtype == 11 then 8 else 0
  }

  /** An integer, cast to u32; for other types nothing is read. */
  function ReadIntValue(data: seq<Byte>, vtype: nat): Parsed<Option<nat>> {
    if IntWidth(vtype) == 0 then Ok(None, data)
    else
      match ReadNumber(data, IntWidth(vtype))
      case Fail => Fail
      case Ok(n, rest) => Ok(Some(n % TWO32), rest)
  }

  /** Byte width of the types skipped with one read; 0 for every other type. */
  function FixedWidth(vtype: nat): nat {
    if vtype == 0 || vtype == 1 || vtype == 7 then 1
    else if vtype == 2 || vtype == 3 then 2
    else if 4 <= vtype <= 6 then 4
    else if 10 <= vtype <= 12 then 8
    else 0
  }

  /** Array header: element type and element count. */
  function ReadHeader(data: seq<Byte>): Parsed<(nat, nat)> {
    match ReadNumber(data, 4)
    case Fail => Fail
    case Ok(atype, rest) =>
      match ReadNumber(rest, 8)
      case Fail => Fail
      case Ok(count, rest') => Ok((atype, count), rest')
  }

  lemma HeaderTakesTwelve(data: seq<Byte>)
    ensures ReadHeader(data).Ok? ==> |data| >= 12 && ReadHeader(data).rest == data[12..]
    ensures ReadHeader(data).Ok? <==> |data| >= 12
  {
    if |data| >= 12 { assert data[4..][8..] == data[12..]; }
  }

  /** Outcome of skipping: whether it succeeded, what is left, and how many array elements were
      begun on the way, over all nesting levels. */
  datatype Walk = Walk(ok: bool, rest: seq<Byte>, begun: nat)

  function Skip(data: seq<Byte>, vtype: nat): (w: Walk)
    ensures w.ok ==> |w.rest| < |data|
    decreases |data|, 0
  {
    if FixedWidth(vtype) > 0 then
      match Take(data, FixedWidth(vtype))
      case Fail => Walk(false, data, 0)
      case Ok(_, rest) => Walk(true, rest, 0)
    else if vtype == 8 then
      match ReadString(data)
      case Fail => Walk(false, data, 0)
      case Ok(_, rest) => StringConsumes(data); Walk(true, rest, 0)
    else if vtype == 9 then
      match ReadHeader(data)
      case Fail => Walk(false, data, 0)
      case Ok((atype, count), rest) =>
        HeaderTakesTwelve(data);
        SkipMany(rest, atype, count)
    else Walk(false, data, 0)
  }

  function SkipMany(data: seq<Byte>, atype: nat, count: nat): (w: Walk)
    ensures w.ok ==> |w.rest| <= |data|
    decreases |data|, 1
  {
    if count == 0 then Walk(true, data, 0)
    else
      var first := Skip(data, atype);
      if !first.ok then Walk(false, first.rest, 1 + first.begun)
      else
        var more := SkipMany(first.rest, atype, count - 1);
        Walk(more.ok, more.rest, 1 + first.begun + more.begun)
  }

  lemma StringConsumes(data: seq<Byte>)
    ensures ReadString(data).Ok? ==>
      |ReadString(data).rest| < |data| && ReadString(data).rest == data[|data| - |ReadString(data).rest|..]
  {
    if ReadString(data).Ok? {
      var len := FromLE(data[..8]);
      assert data[8..][len..] == data[8 + len..];
    }
  }

  /** Skipping a value on arbitrary bytes terminates, and on success leaves a proper suffix of them. */
  lemma {:induction false} SkipLeavesSuffix(data: seq<Byte>, vtype: nat)
    ensures var w := Skip(data, vtype); w.ok ==> |w.rest| < |data| && w.rest == data[|data| - |w.rest|..]
    decreases |data|, 0
  {
    if FixedWidth(vtype) == 0 && vtype == 8 {
      StringConsumes(data);
    } else if vtype == 9 && ReadHeader(data).Ok? {
      HeaderTakesTwelve(data);
      var (atype, count) := ReadHeader(data).value;
      SkipManyLeavesSuffix(data[12..], atype, count);
      var w := SkipMany(data[12..], atype, count);
      if w.ok { SuffixOfSuffix(data, 12, |w.rest|); }
    }
  }

  /** The same for any number of elements. */
  lemma {:induction false} SkipManyLeavesSuffix(data: seq<Byte>, atype: nat, count: nat)
    ensures var w := SkipMany(data, atype, count); w.ok ==> |w.rest| <= |data| && w.rest == data[|data| - |w.rest|..]
    decreases |data|, 1
  {
    if count > 0 {
      SkipLeavesSuffix(data, atype);
      var first := Skip(data, atype);
      if first.ok {
        SkipManyLeavesSuffix(first.rest, atype, count - 1);
        var w := SkipMany(first.rest, atype, count - 1);
        if w.ok { SuffixOfSuffix(data, |data| - |first.rest|, |w.rest|); }
      }
    }
  }

  lemma SuffixOfSuffix(data: seq<Byte>, from: nat, left: nat)
    requires from <= |data| && left <= |data| - from
    ensures data[from..][|data[from..]| - left..] == data[|data| - left..]
  {
  }

  /** The work done on arbitrary bytes is linear in their number: a count of 2^64 - 1 in an array
      header cannot make the reader iterate more often than there are bytes left. */
  lemma {:induction false} SkipWorkIsBounded(data: seq<Byte>, vtype: nat)
    ensures var w := Skip(data, vtype);
      if w.ok then w.begun < |data| - |w.rest| else w.begun <= |data|
    decreases |data|, 0
  {
    if vtype == 9 && ReadHeader(data).Ok? {
      HeaderTakesTwelve(data);
      var (atype, count) := ReadHeader(data).value;
      SkipManyWorkIsBounded(ReadHeader(data).rest, atype, count);
    }
  }

  lemma {:induction false} SkipManyWorkIsBounded(data: seq<Byte>, atype: nat, count: nat)
    ensures var w := SkipMany(data, atype, count);
      if w.ok then count <= w.begun <= |data| - |w.rest| else w.begun <= |data| + 1
    decreases |data|, 1
  {
    if count > 0 {
      SkipWorkIsBounded(data, atype);
      var first := Skip(data, atype);
      if first.ok { SkipManyWorkIsBounded(first.rest, atype, count - 1); }
    }
  }

  // ---- Arrays that are kept -----------------------------------------------------------------

  /** Running result of the integer-array loop. */
  datatype IntArray = IntArray(max: Option<nat>, values: seq<nat>, allInteger: bool)

  function Maximum(max: Option<nat>, v: nat): nat {
    if max.Some? && max.value > v then max.value else v
  }

  /** One round of the loop: an integer is kept, anything else is skipped. */
  function ReadIntElement(data: seq<Byte>, atype: nat, acc: IntArray): Parsed<IntArray> {
    match ReadIntValue(data, atype)
    case Fail => Fail
    case Ok(Some(v), rest) => Ok(acc.(max := Some(Maximum(acc.max, v)), values := acc.values + [v]), rest)
    case Ok(None, rest) =>
      var w := Skip(rest, atype);
      if w.ok then Ok(acc.(allInteger := false), w.rest) else Fail
  }

  function ReadInts(data: seq<Byte>, atype: nat, count: nat, acc: IntArray): Parsed<IntArray>
    decreases count
  {
    if count == 0 then Ok(acc, data)
    else
      match ReadIntElement(data, atype, acc)
      case Fail => Fail
      case Ok(acc', rest) => ReadInts(rest, atype, count - 1, acc')
  }

  /** `(maximum or scalar, full array)`. */
  function ReadIntScalarOrArray(data: seq<Byte>, vtype: nat): Parsed<(Option<nat>, Option<seq<nat>>)> {
    if vtype == 9 then
      match ReadHeader(data)
      case Fail => Fail
      case Ok((atype, count), rest) =>
        match ReadInts(rest, atype, count, IntArray(None, [], true))
        case Fail => Fail
        case Ok(a, rest') => Ok((a.max, if a.allInteger then Some(a.values) else None), rest')
    else
      match ReadIntValue(data, vtype)
      case Fail => Fail
      case Ok(v, rest) => Ok((v, None), rest)
  }

  function ReadBools(data: seq<Byte>, count: nat, acc: seq<bool>): Parsed<seq<bool>>
    decreases |data|
  {
    if count == 0 then Ok(acc, data)
    else if data == [] then Fail
    else ReadBools(data[1..], count - 1, acc + [data[0] != 0])
  }

  function ReadBoolArray(data: seq<Byte>, vtype: nat): Parsed<Option<seq<bool>>> {
    if vtype != 9 then Ok(None, data)
    else
      match ReadHeader(data)
      case Fail => Fail
      case Ok((atype, count), rest) =>
        if atype != 7 then
          var w := SkipMany(rest, atype, count);
          if w.ok then Ok(None, w.rest) else Fail
        else
          match ReadBools(rest, count, [])
          case Fail => Fail
          case Ok(bs, rest') => Ok(Some(bs), rest')
  }

  // ---- Metadata -----------------------------------------------------------------------------

  datatype Field =
    | ContextLength | BlockCount | EmbeddingLength | HeadCount | HeadCountKv | KeyLength | ValueLength
    | KeyLengthSwa | ValueLengthSwa | SlidingWindow | SlidingWindowPattern | ExpertCount

  function Suffix(f: Field): string {
    match f
    case ContextLength => ".context_length"
    case BlockCount => ".block_count"
    case EmbeddingLength => ".embedding_length"
    case HeadCount => ".attention.head_count"
    case HeadCountKv => ".attention.head_count_kv"
    case KeyLength => ".attention.key_length"
    case ValueLength => ".attention.value_length"
    case KeyLengthSwa => ".attention.key_length_swa"
    case ValueLengthSwa => ".attention.value_length_swa"
    case SlidingWindow => ".attention.sliding_window"
    case SlidingWindowPattern => ".attention.sliding_window_pattern"
    case ExpertCount => ".expert_count"
  }

  predicate EndsWith(s: string, suffix: string) {
    |suffix| <= |s| && s[|s| - |suffix|..] == suffix
  }

  /** The order in which the reader tests the suffixes. */
  const TEST_ORDER := [HeadCountKv, SlidingWindowPattern, ContextLength, BlockCount, EmbeddingLength, HeadCount,
                       KeyLengthSwa, ValueLengthSwa, KeyLength, ValueLength, SlidingWindow, ExpertCount]

  function FirstMatch(key: string, fields: seq<Field>): Option<Field> {
    if fields == [] then None
    else if EndsWith(key, Suffix(fields[0])) then Some(fields[0])
    else FirstMatch(key, fields[1..])
  }

  lemma {:induction false} FirstMatchMeans(key: string, fields: seq<Field>)
    ensures var r := FirstMatch(key, fields); r.Some? ==> r.value in fields && EndsWith(key, Suffix(r.value))
    ensures FirstMatch(key, fields).None? ==> forall f :: f in fields ==> !EndsWith(key, Suffix(f))
  {
    if fields != [] && !EndsWith(key, Suffix(fields[0])) { FirstMatchMeans(key, fields[1..]); }
  }

  /** The field a key names. */
  function FieldOf(key: string): Option<Field> { FirstMatch(key, TEST_ORDER) }

  datatype Metadata = Metadata(
    contextLength: Option<nat>, blockCount: Option<nat>, embeddingLength: Option<nat>, headCount: Option<nat>,
    headCountKv: Option<nat>, keyLength: Option<nat>, valueLength: Option<nat>, keyLengthSwa: Option<nat>,
    valueLengthSwa: Option<nat>, slidingWindow: Option<nat>, expertCount: Option<nat>,
    headCountKvPerLayer: Option<seq<nat>>, slidingWindowPattern: Option<seq<bool>>)
  {
    /** The integer field `f`; the pattern is not one. */
    function Get(f: Field): Option<nat> {
      match f
      case ContextLength => contextLength
      case BlockCount => blockCount
      case EmbeddingLength => embeddingLength
      case HeadCount => headCount
      case HeadCountKv => headCountKv
      case KeyLength => keyLength
      case ValueLength => valueLength
      case KeyLengthSwa => keyLengthSwa
      case ValueLengthSwa => valueLengthSwa
      case SlidingWindow => slidingWindow
      case SlidingWindowPattern => None
      case ExpertCount => expertCount
    }

    function Set(f: Field, v: nat): Metadata {
      match f
      case ContextLength => this.(contextLength := Some(v))
      case BlockCount => this.(blockCount := Some(v))
      case EmbeddingLength => this.(embeddingLength := Some(v))
      case HeadCount => this.(headCount := Some(v))
      case HeadCountKv => this.(headCountKv := Some(v))
      case KeyLength => this.(keyLength := Some(v))
      case ValueLength => this.(valueLength := Some(v))
      case KeyLengthSwa => this.(keyLengthSwa := Some(v))
      case ValueLengthSwa => this.(valueLengthSwa := Some(v))
      case SlidingWindow => this.(slidingWindow := Some(v))
      case SlidingWindowPattern => this
      case ExpertCount => this.(expertCount := Some(v))
    }
  }

  const EMPTY := Metadata(None, None, None, None, None, None, None, None, None, None, None, None, None)

  /** One entry's value, read into `meta`. */
  function ReadInto(data: seq<Byte>, vtype: nat, field: Option<Field>, meta: Metadata): Parsed<Metadata> {
    match field
    case None => PassOver(data, vtype, meta)
    case Some(HeadCountKv) => ReadHeadCountKv(data, vtype, meta)
    case Some(SlidingWindowPattern) => ReadPattern(data, vtype, meta)
    case Some(f) => ReadPlain(data, vtype, f, meta)
  }

  /** The value is skipped and the metadata stays as it is. */
  function PassOver(data: seq<Byte>, vtype: nat, meta: Metadata): Parsed<Metadata> {
    var w := Skip(data, vtype);
    if w.ok then Ok(meta, w.rest) else Fail
  }

  function ReadPlain(data: seq<Byte>, vtype: nat, f: Field, meta: Metadata): Parsed<Metadata> {
    match ReadIntValue(data, vtype)
    case Fail => Fail
    case Ok(Some(v), rest) => Ok(meta.Set(f, v), rest)
    case Ok(None, rest) => PassOver(rest, vtype, meta)
  }

  function ReadHeadCountKv(data: seq<Byte>, vtype: nat, meta: Metadata): Parsed<Metadata> {
    match ReadIntScalarOrArray(data, vtype)
    case Fail => Fail
    case Ok((max, arr), rest) =>
      var meta1 := if max.Some? then meta.Set(HeadCountKv, max.value) else meta;
      var meta2 := if arr.Some? then meta1.(headCountKvPerLayer := arr) else meta1;
      if max.None? && arr.None? then
        var w := Skip(rest, vtype);
        if w.ok then Ok(meta2, w.rest) else Fail
      else Ok(meta2, rest)
  }

  function ReadPattern(data: seq<Byte>, vtype: nat, meta: Metadata): Parsed<Metadata> {
    match ReadBoolArray(data, vtype)
    case Fail => Fail
    case Ok(Some(pattern), rest) => Ok(meta.(slidingWindowPattern := Some(pattern)), rest)
    case Ok(None, rest) =>
      if vtype == 9 then Ok(meta, rest)
      else var w := Skip(rest, vtype); if w.ok then Ok(meta, w.rest) else Fail
  }

  function ReadEntry(data: seq<Byte>, meta: Metadata): Parsed<Metadata> {
    match ReadString(data)
    case Fail => Fail
    case Ok(key, rest) =>
      match ReadNumber(rest, 4)
      case Fail => Fail
      case Ok(vtype, rest') => ReadInto(rest', vtype, FieldOf(key), meta)
  }

  /** `for _ in 0..n`, every round reading on where the last one stopped. */
  function Rounds<S(!new)>(round: (seq<Byte>, S) -> Parsed<S>, data: seq<Byte>, n: nat, s: S): Parsed<S>
    decreases n
  {
    if n == 0 then Ok(s, data)
    else
      match round(data, s)
      case Fail => Fail
      case Ok(s', rest) => Rounds(round, rest, n - 1, s')
  }

  function ReadEntries(data: seq<Byte>, n: nat, meta: Metadata): Parsed<Metadata> {
    Rounds(ReadEntry, data, n, meta)
  }

  function ReadMetadata(data: seq<Byte>): Parsed<Metadata> {
    match Take(data, 4)
    case Fail => Fail
    case Ok(magic, rest0) =>
      if magic != MAGIC then Fail
      else
        match Take(rest0, 4)
        case Fail => Fail
        case Ok(_, rest1) =>
          match Take(rest1, 8)
          case Fail => Fail
          case Ok(_, rest2) =>
            match ReadNumber(rest2, 8)
            case Fail => Fail
            case Ok(n, rest3) => if n > MAX_ENTRIES then Fail else ReadEntries(rest3, n, EMPTY)
  }

  // ---- Arbitrary input ----------------------------------------------------------------------

  /** `rest` is what remains of `data` after at least `least` bytes. */
  ghost predicate IsTail(rest: seq<Byte>, data: seq<Byte>, least: nat) {
    |rest| + least <= |data| && rest == data[|data| - |rest|..]
  }

  /** `p` failed, or consumed a prefix of `data` of at least `least` bytes. */
  ghost predicate Consumes<T>(p: Parsed<T>, data: seq<Byte>, least: nat) {
    p.Ok? ==> IsTail(p.rest, data, least)
  }

  lemma TailOfTail(data: seq<Byte>, a: nat, mid: seq<Byte>, b: nat, rest: seq<Byte>)
    requires IsTail(mid, data, a) && IsTail(rest, mid, b)
    ensures IsTail(rest, data, a + b)
  {
  }

  lemma IntValueConsumes(data: seq<Byte>, vtype: nat)
    ensures Consumes(ReadIntValue(data, vtype), data, 0)
    ensures ReadIntValue(data, vtype).Ok? && ReadIntValue(data, vtype).value.Some? ==>
              Consumes(ReadIntValue(data, vtype), data, 1)
  {
  }

  lemma SkipConsumes(data: seq<Byte>, vtype: nat)
    ensures Skip(data, vtype).ok ==> IsTail(Skip(data, vtype).rest, data, 1)
  {
    SkipLeavesSuffix(data, vtype);
  }

  lemma IntElementConsumes(data: seq<Byte>, atype: nat, acc: IntArray)
    ensures Consumes(ReadIntElement(data, atype, acc), data, 1)
  {
    IntValueConsumes(data, atype);
    SkipConsumes(data, atype);
  }

  /** Every element of an integer array costs at least one byte. */
  lemma {:induction false} ReadIntsConsumes(data: seq<Byte>, atype: nat, count: nat, acc: IntArray)
    ensures Consumes(ReadInts(data, atype, count, acc), data, count)
    decreases count
  {
    if count > 0 {
      IntElementConsumes(data, atype, acc);
      match ReadIntElement(data, atype, acc) {
        case Fail =>
        case Ok(acc', rest) =>
          ReadIntsConsumes(rest, atype, count - 1, acc');
          var result := ReadInts(rest, atype, count - 1, acc');
          if result.Ok? { TailOfTail(data, 1, rest, count - 1, result.rest); }
      }
    }
  }

  lemma {:induction false} ReadBoolsConsumes(data: seq<Byte>, count: nat, acc: seq<bool>)
    ensures Consumes(ReadBools(data, count, acc), data, count)
    decreases |data|
  {
    if count > 0 && data != [] { ReadBoolsConsumes(data[1..], count - 1, acc + [data[0] != 0]); }
  }

  lemma ReadIntoConsumes(data: seq<Byte>, vtype: nat, field: Option<Field>, meta: Metadata)
    ensures Consumes(ReadInto(data, vtype, field, meta), data, 1)
  {
    if field == Some(HeadCountKv) {
      HeadCountKvConsumes(data, vtype, meta);
    } else if field == Some(SlidingWindowPattern) {
      PatternConsumes(data, vtype, meta);
    } else if field.Some? {
      PlainConsumes(data, vtype, field.value, meta);
    } else {
      SkipConsumes(data, vtype);
    }
  }

  lemma PlainConsumes(data: seq<Byte>, vtype: nat, f: Field, meta: Metadata)
    ensures Consumes(ReadPlain(data, vtype, f, meta), data, 1)
  {
    IntValueConsumes(data, vtype);
    SkipConsumes(data, vtype);
  }

  lemma IntScalarOrArrayConsumes(data: seq<Byte>, vtype: nat)
    ensures Consumes(ReadIntScalarOrArray(data, vtype), data, 0)
    ensures var p := ReadIntScalarOrArray(data, vtype);
      p.Ok? && (p.value.0.Some? || p.value.1.Some?) ==> Consumes(p, data, 1)
  {
    if vtype == 9 {
      HeaderTakesTwelve(data);
      match ReadHeader(data) {
        case Fail =>
        case Ok((atype, count), rest) =>
          var ints := ReadInts(rest, atype, count, IntArray(None, [], true));
          ReadIntsConsumes(rest, atype, count, IntArray(None, [], true));
          if ints.Ok? { TailOfTail(data, 12, rest, count, ints.rest); }
      }
    } else {
      IntValueConsumes(data, vtype);
    }
  }

  lemma HeadCountKvConsumes(data: seq<Byte>, vtype: nat, meta: Metadata)
    ensures Consumes(ReadHeadCountKv(data, vtype, meta), data, 1)
  {
    IntScalarOrArrayConsumes(data, vtype);
    match ReadIntScalarOrArray(data, vtype) {
      case Fail =>
      case Ok(_, rest) =>
        var w := Skip(rest, vtype);
        SkipConsumes(rest, vtype);
        if w.ok { TailOfTail(data, 0, rest, 1, w.rest); }
    }
  }

  lemma PatternConsumes(data: seq<Byte>, vtype: nat, meta: Metadata)
    ensures Consumes(ReadPattern(data, vtype, meta), data, 1)
  {
    HeaderTakesTwelve(data);
    if vtype == 9 {
      match ReadHeader(data) {
        case Fail =>
        case Ok((atype, count), rest) =>
          ReadBoolsConsumes(rest, count, []);
          SkipManyLeavesSuffix(rest, atype, count);
      }
    } else {
      SkipConsumes(data, vtype);
    }
  }

  lemma ReadEntryConsumes(data: seq<Byte>, meta: Metadata)
    ensures Consumes(ReadEntry(data, meta), data, 1)
  {
    StringConsumes(data);
    match ReadString(data) {
      case Fail =>
      case Ok(key, rest) =>
        match ReadNumber(rest, 4) {
          case Fail =>
          case Ok(vtype, rest') =>
            ReadIntoConsumes(rest', vtype, FieldOf(key), meta);
        }
    }
  }

  lemma {:induction false} RoundsConsume<S(!new)>(round: (seq<Byte>, S) -> Parsed<S>, data: seq<Byte>, n: nat, s: S)
    requires forall data', s' :: Consumes(round(data', s'), data', 1)
    ensures Consumes(Rounds(round, data, n, s), data, n)
    decreases n
  {
    if n > 0 {
      match round(data, s) {
        case Fail =>
        case Ok(s', rest) =>
          assert Consumes(round(data, s), data, 1);
          RoundsConsume(round, rest, n - 1, s');
          var result := Rounds(round, rest, n - 1, s');
          if result.Ok? { TailOfTail(data, 1, rest, n - 1, result.rest); }
      }
    }
  }

  lemma ReadEntriesConsumes(data: seq<Byte>, n: nat, meta: Metadata)
    ensures Consumes(ReadEntries(data, n, meta), data, n)
  {
    forall data', meta' { ReadEntryConsumes(data', meta'); }
    RoundsConsume(ReadEntry, data, n, meta);
  }

  /** On arbitrary bytes the reader fails or consumes a prefix of the input. */
  lemma ReaderConsumesPrefix(data: seq<Byte>)
    ensures Consumes(ReadMetadata(data), data, 24)
  {
    if |data| >= 24 {
      assert data[4..][4..] == data[8..] && data[8..][8..] == data[16..] && data[16..][8..] == data[24..];
      var n := FromLE(data[16..][..8]);
      ReadEntriesConsumes(data[24..], n, EMPTY);
    }
  }
}
