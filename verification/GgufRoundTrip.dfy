/**
 * Reading an encoded GGUF header gives back, for each recognised suffix, the last usable value
 * written under it, and stops exactly at the end of the encoding.
 */
module GgufRoundTrip {
  import opened Wrappers
  import opened Bytes
  import opened GgufFormat
  import opened GgufReader
  import Utf8

  // ---- Numbers and strings ------------------------------------------------------------------

  lemma TakeEncoded(bytes: seq<Byte>, rest: seq<Byte>)
    ensures Take(bytes + rest, |bytes|) == Ok(bytes, rest)
  {
    assert (bytes + rest)[..|bytes|] == bytes && (bytes + rest)[|bytes|..] == rest;
  }

  lemma NumberRoundTrip(n: nat, width: nat, rest: seq<Byte>)
    requires n < Pow256(width)
    ensures ReadNumber(ToLE(n, width) + rest, width) == Ok(n, rest)
  {
    TakeEncoded(ToLE(n, width), rest);
    FromToLE(n, width);
  }

  lemma StringRoundTrip(s: string, rest: seq<Byte>)
    requires StringFits(s)
    ensures ReadString(EncodeString(s) + rest) == Ok(s, rest)
  {
    var bytes := Utf8.Encode(s);
    assert EncodeString(s) + rest == ToLE(|bytes|, 8) + (bytes + rest);
    Widths();
    NumberRoundTrip(|bytes|, 8, bytes + rest);
    TakeEncoded(bytes, rest);
    Utf8.DecodeOfEncode(s);
  }

  lemma HeaderRoundTrip(atype: nat, count: nat, rest: seq<Byte>)
    requires atype < TWO32 && count < TWO64
    ensures ReadHeader(ToLE(atype, 4) + ToLE(count, 8) + rest) == Ok((atype, count), rest)
  {
    assert ToLE(atype, 4) + ToLE(count, 8) + rest == ToLE(atype, 4) + (ToLE(count, 8) + rest);
    Widths();
    NumberRoundTrip(atype, 4, ToLE(count, 8) + rest);
    NumberRoundTrip(count, 8, rest);
  }

  lemma ArrayBytes(v: Value, rest: seq<Byte>)
    requires v.Arr?
    ensures EncodeValue(v) + rest == ToLE(v.elemTag, 4) + ToLE(|v.elems|, 8) + (EncodeAll(v.elems) + rest)
  {
  }

  // ---- Skipping -----------------------------------------------------------------------------

  lemma FixedBytes(v: Value)
    requires !v.Str? && !v.Arr?
    ensures |EncodeValue(v)| == FixedWidth(Tag(v)) > 0
  {
  }

  lemma SkipFixed(v: Value, rest: seq<Byte>)
    requires !v.Str? && !v.Arr?
    ensures Skip(EncodeValue(v) + rest, Tag(v)) == Walk(true, rest, 0)
  {
    FixedBytes(v);
    TakeEncoded(EncodeValue(v), rest);
  }

  lemma SkipArray(atype: nat, count: nat, body: seq<Byte>)
    requires atype < TWO32 && count < TWO64
    ensures Skip(ToLE(atype, 4) + ToLE(count, 8) + body, 9) == SkipMany(body, atype, count)
  {
    HeaderRoundTrip(atype, count, body);
    SkipAfterHeader(ToLE(atype, 4) + ToLE(count, 8) + body, atype, count, body);
  }

  lemma SkipAfterHeader(data: seq<Byte>, atype: nat, count: nat, body: seq<Byte>)
    requires ReadHeader(data) == Ok((atype, count), body)
    ensures Skip(data, 9) == SkipMany(body, atype, count)
  {
    SkipIsByHeader(data, 9, ReadHeader(data));
  }

  lemma SkipIsByHeader(data: seq<Byte>, vtype: nat, header: Parsed<(nat, nat)>)
    requires vtype == 9 && header == ReadHeader(data)
    ensures Skip(data, vtype) == match header
      case Fail => Walk(false, data, 0)
      case Ok((atype, count), rest) => SkipMany(rest, atype, count)
  {
  }

  /** Skipping an encoded value consumes its encoding and nothing else, at every nesting depth. */
  lemma {:induction false} SkipEncoded(v: Value, rest: seq<Byte>)
    requires WellTyped(v)
    ensures Skip(EncodeValue(v) + rest, Tag(v)).ok && Skip(EncodeValue(v) + rest, Tag(v)).rest == rest
    decreases v, 1
  {
    if v.Str? {
      StringRoundTrip(v.text, rest);
    } else if v.Arr? {
      ArrayBytes(v, rest);
      SkipArray(v.elemTag, |v.elems|, EncodeAll(v.elems) + rest);
      SkipAllEncoded(v, v.elems, rest);
    } else {
      SkipFixed(v, rest);
    }
  }

  lemma {:induction false} SkipAllEncoded(v: Value, elems: seq<Value>, rest: seq<Byte>)
    requires v.Arr? && WellTyped(v) && |elems| <= |v.elems| && elems == v.elems[|v.elems| - |elems|..]
    ensures SkipMany(EncodeAll(elems) + rest, v.elemTag, |elems|).ok
    ensures SkipMany(EncodeAll(elems) + rest, v.elemTag, |elems|).rest == rest
    decreases v, 0, |elems|
  {
    if elems == [] {
      assert EncodeAll(elems) + rest == rest;
    } else {
      assert elems[0] in v.elems && Tag(elems[0]) == v.elemTag && WellTyped(elems[0]);
      assert EncodeAll(elems) + rest == EncodeValue(elems[0]) + (EncodeAll(elems[1..]) + rest);
      SkipEncoded(elems[0], EncodeAll(elems[1..]) + rest);
      SkipAllEncoded(v, elems[1..], rest);
    }
  }

  // ---- What the values mean -------------------------------------------------------------------

  /** The reader's view of a value as an unsigned 32-bit integer: the integer types of 32 and 64
      bits, reduced modulo 2^32. */
  function AsU32(v: Value): Option<nat> {
    match v
    case U32(n) => Some(n % TWO32)
    case I32(n) => Some(n % TWO32)
    case U64(n) => Some(n % TWO32)
    case I64(n) => Some(n % TWO32)
    case _ => None
  }

  predicate IntTag(tag: nat) { IntWidth(tag) > 0 }

  lemma IntRoundTrip(v: Value, rest: seq<Byte>)
    requires WellTyped(v) && IntTag(Tag(v))
    ensures AsU32(v).Some? && ReadIntValue(EncodeValue(v) + rest, Tag(v)) == Ok(AsU32(v), rest)
  {
    Widths();
    var width := IntWidth(Tag(v));
    var n := match v case U32(n) => n case I32(n) => n case U64(n) => n case I64(n) => n;
    var raw := if n < 0 then n + Pow256(width) else n;
    NumberRoundTrip(raw, width, rest);
    assert raw % TWO32 == n % TWO32 by { WrapLow(n, width); }
  }

  lemma WrapLow(n: int, width: nat)
    requires width == 4 || width == 8
    ensures (n + Pow256(width)) % TWO32 == n % TWO32
  {
    Widths();
    assert TWO64 == TWO32 * TWO32;
  }

  /** Per-layer values of an integer array; an empty array of any type counts as one. */
  function LayersOf(v: Value): Option<seq<nat>> {
    if v.Arr? && (v.elems == [] || IntTag(v.elemTag)) then Some(U32s(v.elems)) else None
  }

  function U32s(vs: seq<Value>): seq<nat> {
    if vs == [] then [] else U32s(vs[..|vs| - 1]) + [AsU32(vs[|vs| - 1]).GetOr(0)]
  }

  function MaxOf(ns: seq<nat>): Option<nat> {
    if ns == [] then None else Some(Maximum(MaxOf(ns[..|ns| - 1]), ns[|ns| - 1]))
  }

  lemma {:induction false} MaxOfIsMaximum(ns: seq<nat>)
    ensures MaxOf(ns).None? <==> ns == []
    ensures MaxOf(ns).Some? ==> MaxOf(ns).value in ns && forall n :: n in ns ==> n <= MaxOf(ns).value
  {
    if ns != [] {
      MaxOfIsMaximum(ns[..|ns| - 1]);
      assert ns == ns[..|ns| - 1] + [ns[|ns| - 1]];
    }
  }

  /** The head count of a value: the integer itself, or the maximum of an integer array. */
  function HeadCountOf(v: Value): Option<nat> {
    if v.Arr? then (if IntTag(v.elemTag) then MaxOf(U32s(v.elems)) else None) else AsU32(v)
  }

  function PatternOf(v: Value): Option<seq<bool>> {
    if v.Arr? && v.elemTag == 7 then Some(Bools(v.elems)) else None
  }

  function Bools(vs: seq<Value>): seq<bool> {
    if vs == [] then [] else Bools(vs[..|vs| - 1]) + [vs[|vs| - 1].Bool? && vs[|vs| - 1].b]
  }

  // ---- Arrays that are kept -----------------------------------------------------------------

  /** The suffix `elems` of a well-typed array, with the result for the elements before it. */
  ghost predicate ArraySuffix(v: Value, elems: seq<Value>) {
    v.Arr? && WellTyped(v) && |elems| <= |v.elems| && elems == v.elems[|v.elems| - |elems|..]
  }

  function Before(v: Value, elems: seq<Value>): seq<Value>
    requires v.Arr? && |elems| <= |v.elems|
  {
    v.elems[..|v.elems| - |elems|]
  }

  lemma BeforeNext(v: Value, elems: seq<Value>)
    requires ArraySuffix(v, elems) && elems != []
    ensures ArraySuffix(v, elems[1..]) && Before(v, elems[1..]) == Before(v, elems) + [elems[0]]
    ensures Tag(elems[0]) == v.elemTag && WellTyped(elems[0])
    ensures U32s(Before(v, elems[1..])) == U32s(Before(v, elems)) + [AsU32(elems[0]).GetOr(0)]
    ensures Bools(Before(v, elems[1..])) == Bools(Before(v, elems)) + [elems[0].Bool? && elems[0].b]
  {
    var before := Before(v, elems);
    assert elems[0] in v.elems;
    assert (before + [elems[0]])[..|before + [elems[0]]| - 1] == before;
  }

  function IntsSoFar(v: Value, elems: seq<Value>): IntArray
    requires v.Arr? && |elems| <= |v.elems|
  {
    var ns := U32s(Before(v, elems));
    IntArray(MaxOf(ns), ns, true)
  }

  lemma {:induction false} IntsRoundTrip(v: Value, elems: seq<Value>, rest: seq<Byte>)
    requires ArraySuffix(v, elems) && IntTag(v.elemTag)
    ensures ReadInts(EncodeAll(elems) + rest, v.elemTag, |elems|, IntsSoFar(v, elems))
         == Ok(IntArray(MaxOf(U32s(v.elems)), U32s(v.elems), true), rest)
    decreases |elems|
  {
    if elems == [] {
      assert EncodeAll(elems) + rest == rest && Before(v, elems) == v.elems;
    } else {
      var tail := EncodeAll(elems[1..]) + rest;
      assert EncodeAll(elems) + rest == EncodeValue(elems[0]) + tail;
      BeforeNext(v, elems);
      IntRoundTrip(elems[0], tail);
      var ns, n := U32s(Before(v, elems)), AsU32(elems[0]).value;
      assert (ns + [n])[..|ns + [n]| - 1] == ns;
      ReadIntsStep(EncodeAll(elems) + rest, v.elemTag, |elems|, IntsSoFar(v, elems), n, tail);
      assert IntsSoFar(v, elems[1..]) == IntArray(Some(Maximum(MaxOf(ns), n)), ns + [n], true);
      IntsRoundTrip(v, elems[1..], rest);
    }
  }

  lemma ReadIntsStep(data: seq<Byte>, atype: nat, count: nat, acc: IntArray, n: nat, rest: seq<Byte>)
    requires count > 0 && ReadIntValue(data, atype) == Ok(Some(n), rest)
    ensures ReadInts(data, atype, count, acc)
         == ReadInts(rest, atype, count - 1, acc.(max := Some(Maximum(acc.max, n)), values := acc.values + [n]))
  {
  }

  lemma {:induction false} BoolsRoundTrip(v: Value, elems: seq<Value>, rest: seq<Byte>)
    requires ArraySuffix(v, elems) && v.elemTag == 7
    ensures ReadBools(EncodeAll(elems) + rest, |elems|, Bools(Before(v, elems))) == Ok(Bools(v.elems), rest)
    decreases |elems|
  {
    if elems == [] {
      assert EncodeAll(elems) + rest == rest && Before(v, elems) == v.elems;
    } else {
      var tail := EncodeAll(elems[1..]) + rest;
      BeforeNext(v, elems);
      var data := EncodeAll(elems) + rest;
      assert data == EncodeValue(elems[0]) + tail;
      BoolByte(elems[0], tail);
      ReadBoolsStep(data, |elems|, Bools(Before(v, elems)));
      BoolsRoundTrip(v, elems[1..], rest);
    }
  }

  lemma BoolByte(v: Value, tail: seq<Byte>)
    requires Tag(v) == 7
    ensures var data := EncodeValue(v) + tail; data != [] && data[1..] == tail && (data[0] != 0 <==> v.Bool? && v.b)
  {
  }

  lemma ReadBoolsStep(data: seq<Byte>, count: nat, acc: seq<bool>)
    requires count > 0 && data != []
    ensures ReadBools(data, count, acc) == ReadBools(data[1..], count - 1, acc + [data[0] != 0])
  {
  }

  /** An array of another type is consumed element by element and leaves neither maximum nor array. */
  lemma {:induction false} OthersRoundTrip(v: Value, elems: seq<Value>, rest: seq<Byte>, acc: IntArray)
    requires ArraySuffix(v, elems) && !IntTag(v.elemTag)
    ensures ReadInts(EncodeAll(elems) + rest, v.elemTag, |elems|, acc)
         == Ok(acc.(allInteger := acc.allInteger && elems == []), rest)
    decreases |elems|
  {
    if elems == [] {
      assert EncodeAll(elems) + rest == rest;
    } else {
      var tail := EncodeAll(elems[1..]) + rest;
      assert EncodeAll(elems) + rest == EncodeValue(elems[0]) + tail;
      BeforeNext(v, elems);
      SkipEncoded(elems[0], tail);
      OthersRoundTrip(v, elems[1..], rest, acc.(allInteger := false));
    }
  }

  // ---- head_count_kv --------------------------------------------------------------------------

  /** The one value the reader consumes twice: a non-empty array of a non-integer type. */
  predicate SkippedTwice(v: Value) { v.Arr? && v.elems != [] && !IntTag(v.elemTag) }

  function WithHeadCountKv(meta: Metadata, v: Value): Metadata {
    var meta1 := if HeadCountOf(v).Some? then meta.Set(HeadCountKv, HeadCountOf(v).value) else meta;
    if LayersOf(v).Some? then meta1.(headCountKvPerLayer := LayersOf(v)) else meta1
  }

  lemma IntOrArrayRoundTrip(v: Value, rest: seq<Byte>)
    requires WellTyped(v)
    ensures ReadIntScalarOrArray(EncodeValue(v) + rest, Tag(v))
         == Ok((HeadCountOf(v), LayersOf(v)), if v.Arr? || IntTag(Tag(v)) then rest else EncodeValue(v) + rest)
  {
    if v.Arr? {
      ArrayBytes(v, rest);
      HeaderRoundTrip(v.elemTag, |v.elems|, EncodeAll(v.elems) + rest);
      assert ArraySuffix(v, v.elems) && Before(v, v.elems) == [];
      if IntTag(v.elemTag) {
        IntsRoundTrip(v, v.elems, rest);
      } else {
        OthersRoundTrip(v, v.elems, rest, IntArray(None, [], true));
      }
    } else if IntTag(Tag(v)) {
      IntRoundTrip(v, rest);
    }
  }

  /** The value is consumed exactly, with its meaning stored, if and only if it is not skipped twice. */
  lemma HeadCountKvRoundTripIff(v: Value, rest: seq<Byte>, meta: Metadata)
    requires WellTyped(v)
    ensures ReadHeadCountKv(EncodeValue(v) + rest, Tag(v), meta) == Ok(WithHeadCountKv(meta, v), rest)
       <==> !SkippedTwice(v)
  {
    IntOrArrayRoundTrip(v, rest);
    SkipEncoded(v, rest);
    if SkippedTwice(v) {
      assert HeadCountOf(v).None? && LayersOf(v).None?;
      var w := Skip(rest, 9);
      assert w.ok ==> |w.rest| < |rest|;
    } else {
      EmptyHasNoMaximum(v);
    }
  }

  lemma EmptyHasNoMaximum(v: Value)
    ensures v.Arr? && HeadCountOf(v).None? && LayersOf(v).None? ==> SkippedTwice(v)
  {
  }

  // ---- One entry ------------------------------------------------------------------------------

  /** What an entry for field `f` does to the metadata. */
  function Updated(meta: Metadata, field: Option<Field>, v: Value): Metadata {
    match field
    case None => meta
    case Some(HeadCountKv) => WithHeadCountKv(meta, v)
    case Some(SlidingWindowPattern) =>
      if PatternOf(v).Some? then meta.(slidingWindowPattern := PatternOf(v)) else meta
    case Some(f) => if AsU32(v).Some? then meta.Set(f, AsU32(v).value) else meta
  }

  predicate Misread(e: Entry) { FieldOf(e.key) == Some(HeadCountKv) && SkippedTwice(e.value) }

  lemma BoolArrayBody(atype: nat, count: nat, body: seq<Byte>)
    requires atype < TWO32 && count < TWO64
    ensures var p := ReadBoolArray(ToLE(atype, 4) + ToLE(count, 8) + body, 9);
      && (atype != 7 ==> var w := SkipMany(body, atype, count); p == if w.ok then Ok(None, w.rest) else Fail)
      && (atype == 7 ==> var b := ReadBools(body, count, []); p == if b.Ok? then Ok(Some(b.value), b.rest) else Fail)
  {
    HeaderRoundTrip(atype, count, body);
  }

  lemma PatternArrayRoundTrip(v: Value, rest: seq<Byte>)
    requires WellTyped(v) && v.Arr?
    ensures ReadBoolArray(EncodeValue(v) + rest, 9) == Ok(PatternOf(v), rest)
  {
    ArrayBytes(v, rest);
    BoolArrayBody(v.elemTag, |v.elems|, EncodeAll(v.elems) + rest);
    if v.elemTag == 7 {
      assert Before(v, v.elems) == [];
      BoolsRoundTrip(v, v.elems, rest);
    } else {
      SkipAllEncoded(v, v.elems, rest);
    }
  }

  lemma PatternRoundTrip(v: Value, rest: seq<Byte>, meta: Metadata)
    requires WellTyped(v)
    ensures ReadPattern(EncodeValue(v) + rest, Tag(v), meta) == Ok(Updated(meta, Some(SlidingWindowPattern), v), rest)
  {
    if v.Arr? {
      PatternArrayRoundTrip(v, rest);
    } else {
      SkipEncoded(v, rest);
    }
  }

  lemma ValueRoundTrip(v: Value, rest: seq<Byte>, field: Option<Field>, meta: Metadata)
    requires WellTyped(v) && !(field == Some(HeadCountKv) && SkippedTwice(v))
    ensures ReadInto(EncodeValue(v) + rest, Tag(v), field, meta) == Ok(Updated(meta, field, v), rest)
  {
    if field == Some(HeadCountKv) {
      HeadCountKvRoundTripIff(v, rest, meta);
    } else if field == Some(SlidingWindowPattern) {
      PatternRoundTrip(v, rest, meta);
    } else {
      PlainFieldRoundTrip(v, rest, field, meta);
    }
  }

  lemma PassOverRoundTrip(v: Value, rest: seq<Byte>, meta: Metadata)
    requires WellTyped(v)
    ensures PassOver(EncodeValue(v) + rest, Tag(v), meta) == Ok(meta, rest)
  {
    SkipEncoded(v, rest);
  }

  lemma PlainRoundTrip(v: Value, rest: seq<Byte>, f: Field, meta: Metadata)
    requires WellTyped(v)
    ensures ReadPlain(EncodeValue(v) + rest, Tag(v), f, meta)
         == Ok(if AsU32(v).Some? then meta.Set(f, AsU32(v).value) else meta, rest)
  {
    if IntTag(Tag(v)) { IntRoundTrip(v, rest); } else { PassOverRoundTrip(v, rest, meta); }
  }

  /** Integer fields and unknown keys. */
  lemma PlainFieldRoundTrip(v: Value, rest: seq<Byte>, field: Option<Field>, meta: Metadata)
    requires WellTyped(v) && field != Some(HeadCountKv) && field != Some(SlidingWindowPattern)
    ensures ReadInto(EncodeValue(v) + rest, Tag(v), field, meta) == Ok(Updated(meta, field, v), rest)
  {
    if field.Some? { PlainRoundTrip(v, rest, field.value, meta); } else { PassOverRoundTrip(v, rest, meta); }
  }

  lemma EntryBytes(e: Entry, rest: seq<Byte>)
    requires StringFits(e.key)
    ensures ReadString(EncodeEntry(e) + rest) == Ok(e.key, ToLE(Tag(e.value), 4) + (EncodeValue(e.value) + rest))
    ensures ReadNumber(ToLE(Tag(e.value), 4) + (EncodeValue(e.value) + rest), 4) == Ok(Tag(e.value), EncodeValue(e.value) + rest)
  {
    var tail := EncodeValue(e.value) + rest;
    assert EncodeEntry(e) + rest == EncodeString(e.key) + (ToLE(Tag(e.value), 4) + tail);
    StringRoundTrip(e.key, ToLE(Tag(e.value), 4) + tail);
    Widths();
    NumberRoundTrip(Tag(e.value), 4, tail);
  }

  lemma EntryRoundTrip(e: Entry, rest: seq<Byte>, meta: Metadata)
    requires WellTypedEntry(e) && !Misread(e)
    ensures ReadEntry(EncodeEntry(e) + rest, meta) == Ok(Updated(meta, FieldOf(e.key), e.value), rest)
  {
    EntryBytes(e, rest);
    ValueRoundTrip(e.value, rest, FieldOf(e.key), meta);
  }

  // ---- Which field a key names ------------------------------------------------------------------

  lemma SuffixChar(key: string, suffix: string, k: nat)
    requires EndsWith(key, suffix) && 1 <= k <= |suffix|
    ensures key[|key| - k] == suffix[|suffix| - k]
  {
    assert key[|key| - |suffix|..][|suffix| - k] == key[|key| - k];
  }

  /** Four characters near the end of a suffix tell it apart from the others. */
  function Signature(s: string): (char, char, char, char)
    requires |s| >= 12
  {
    (s[|s| - 1], s[|s| - 7], s[|s| - 8], s[|s| - 12])
  }

  /** The signatures of the suffixes. */
  function SignatureTable(f: Field): (char, char, char, char) {
    match f
    case ContextLength => ('h', '_', 't', 'n')
    case BlockCount => ('t', 'k', 'c', '.')
    case EmbeddingLength => ('h', '_', 'g', 'd')
    case HeadCount => ('t', 'd', 'a', 'n')
    case HeadCountKv => ('v', 'o', 'c', 'e')
    case KeyLength => ('h', '_', 'y', 'n')
    case ValueLength => ('h', '_', 'e', 'v')
    case KeyLengthSwa => ('a', 'g', 'n', 'y')
    case ValueLengthSwa => ('a', 'g', 'n', 'e')
    case SlidingWindow => ('w', '_', 'g', 'i')
    case SlidingWindowPattern => ('n', 'p', '_', 'n')
    case ExpertCount => ('t', 't', 'r', 'e')
  }

  predicate IsSigned(f: Field) { |Suffix(f)| >= 12 && Signature(Suffix(f)) == SignatureTable(f) }

  lemma PlainSignatures()
    ensures IsSigned(ContextLength) && IsSigned(BlockCount) && IsSigned(EmbeddingLength) && IsSigned(ExpertCount)
  {
  }

  lemma HeadSignatures()
    ensures IsSigned(HeadCount) && IsSigned(HeadCountKv) && IsSigned(SlidingWindow) && IsSigned(SlidingWindowPattern)
  {
  }

  lemma LengthSignatures()
    ensures IsSigned(KeyLength) && IsSigned(ValueLength) && IsSigned(KeyLengthSwa) && IsSigned(ValueLengthSwa)
  {
  }

  lemma SignatureOf(f: Field)
    ensures IsSigned(f)
  {
    PlainSignatures();
    HeadSignatures();
    LengthSignatures();
  }

  lemma KeyHasSignature(key: string, f: Field)
    requires EndsWith(key, Suffix(f))
    ensures |key| >= 12 && Signature(key) == SignatureTable(f)
  {
    SignatureOf(f);
    SuffixChar(key, Suffix(f), 1);
    SuffixChar(key, Suffix(f), 7);
    SuffixChar(key, Suffix(f), 8);
    SuffixChar(key, Suffix(f), 12);
  }

  /** No key ends with two of the twelve suffixes, so the order in which they are tested is
      irrelevant: a key names a field exactly when it ends with that field's suffix. */
  lemma FieldOfIsItsSuffix(key: string, f: Field)
    ensures FieldOf(key) == Some(f) <==> EndsWith(key, Suffix(f))
  {
    InTestOrder(f);
    FirstMatchMeans(key, TEST_ORDER);
    if EndsWith(key, Suffix(f)) {
      var g := FieldOf(key).value;
      KeyHasSignature(key, f);
      KeyHasSignature(key, g);
      SignaturesDiffer(f, g);
    }
  }

  lemma SignaturesDiffer(f: Field, g: Field)
    ensures SignatureTable(f) == SignatureTable(g) ==> f == g
  {
  }

  lemma InTestOrder(f: Field)
    ensures f in TEST_ORDER
  {
    assert TEST_ORDER[0] == HeadCountKv && TEST_ORDER[1] == SlidingWindowPattern && TEST_ORDER[2] == ContextLength
      && TEST_ORDER[3] == BlockCount && TEST_ORDER[4] == EmbeddingLength && TEST_ORDER[5] == HeadCount
      && TEST_ORDER[6] == KeyLengthSwa && TEST_ORDER[7] == ValueLengthSwa && TEST_ORDER[8] == KeyLength
      && TEST_ORDER[9] == ValueLength && TEST_ORDER[10] == SlidingWindow && TEST_ORDER[11] == ExpertCount;
  }

  // ---- All entries ------------------------------------------------------------------------------

  /** The last usable value written under a suffix. */
  function LastUnder<T>(es: seq<Entry>, suffix: string, use: Value -> Option<T>): Option<T> {
    if es == [] then None
    else
      var e := es[|es| - 1];
      if EndsWith(e.key, suffix) && use(e.value).Some? then use(e.value)
      else LastUnder(es[..|es| - 1], suffix, use)
  }

  /** The metadata of a list of entries, field by field. */
  ghost predicate IsMetadataOf(meta: Metadata, es: seq<Entry>) {
    && (forall f: Field :: f != HeadCountKv && f != SlidingWindowPattern ==>
          meta.Get(f) == LastUnder(es, Suffix(f), AsU32))
    && meta.headCountKv == LastUnder(es, Suffix(HeadCountKv), HeadCountOf)
    && meta.headCountKvPerLayer == LastUnder(es, Suffix(HeadCountKv), LayersOf)
    && meta.slidingWindowPattern == LastUnder(es, Suffix(SlidingWindowPattern), PatternOf)
  }

  lemma LastUnderSnoc<T>(es: seq<Entry>, e: Entry, f: Field, use: Value -> Option<T>)
    ensures LastUnder(es + [e], Suffix(f), use)
         == if FieldOf(e.key) == Some(f) && use(e.value).Some? then use(e.value) else LastUnder(es, Suffix(f), use)
  {
    assert (es + [e])[..|es + [e]| - 1] == es;
    FieldOfIsItsSuffix(e.key, f);
  }

  lemma SetGets(meta: Metadata, f: Field, v: nat, g: Field)
    requires f != SlidingWindowPattern
    ensures meta.Set(f, v).Get(g) == if f == g then Some(v) else meta.Get(g)
    ensures meta.Set(f, v).headCountKvPerLayer == meta.headCountKvPerLayer
    ensures meta.Set(f, v).slidingWindowPattern == meta.slidingWindowPattern
  {
    match f
    case ContextLength => case BlockCount => case EmbeddingLength => case HeadCount => case HeadCountKv =>
    case KeyLength => case ValueLength => case KeyLengthSwa => case ValueLengthSwa => case SlidingWindow =>
    case ExpertCount =>
  }

  /** How an entry changes an integer field other than the head count. */
  lemma UpdatedInt(meta: Metadata, field: Option<Field>, v: Value, f: Field)
    requires f != HeadCountKv && f != SlidingWindowPattern
    ensures Updated(meta, field, v).Get(f) == if field == Some(f) && AsU32(v).Some? then AsU32(v) else meta.Get(f)
  {
    if field == Some(HeadCountKv) {
      if HeadCountOf(v).Some? { SetGets(meta, HeadCountKv, HeadCountOf(v).value, f); }
      SameInts(meta, HeadCountOf(v), LayersOf(v), f);
    } else if field.Some? && field != Some(SlidingWindowPattern) {
      if AsU32(v).Some? { SetGets(meta, field.value, AsU32(v).value, f); }
    }
  }

  lemma SameInts(meta: Metadata, max: Option<nat>, layers: Option<seq<nat>>, f: Field)
    ensures meta.(headCountKvPerLayer := layers).Get(f) == meta.Get(f)
    ensures max.Some? ==> (var m := meta.Set(HeadCountKv, max.value); m.(headCountKvPerLayer := layers).Get(f) == m.Get(f))
  {
  }

  /** How an entry changes the head count, the layers and the pattern. */
  lemma UpdatedOthers(meta: Metadata, field: Option<Field>, v: Value)
    ensures var u := Updated(meta, field, v);
      && u.headCountKv == (if field == Some(HeadCountKv) && HeadCountOf(v).Some? then HeadCountOf(v) else meta.headCountKv)
      && u.headCountKvPerLayer == (if field == Some(HeadCountKv) && LayersOf(v).Some? then LayersOf(v) else meta.headCountKvPerLayer)
      && u.slidingWindowPattern == (if field == Some(SlidingWindowPattern) && PatternOf(v).Some? then PatternOf(v) else meta.slidingWindowPattern)
  {
    if field.Some? && field != Some(HeadCountKv) && field != Some(SlidingWindowPattern) && AsU32(v).Some? {
      SetGets(meta, field.value, AsU32(v).value, HeadCountKv);
    }
  }

  lemma UpdatedIsMetadata(meta: Metadata, es: seq<Entry>, e: Entry)
    requires IsMetadataOf(meta, es)
    ensures IsMetadataOf(Updated(meta, FieldOf(e.key), e.value), es + [e])
  {
    var u := Updated(meta, FieldOf(e.key), e.value);
    forall f: Field | f != HeadCountKv && f != SlidingWindowPattern
      ensures u.Get(f) == LastUnder(es + [e], Suffix(f), AsU32)
    {
      LastUnderSnoc(es, e, f, AsU32);
      UpdatedInt(meta, FieldOf(e.key), e.value, f);
    }
    UpdatedOthers(meta, FieldOf(e.key), e.value);
    LastUnderSnoc(es, e, HeadCountKv, HeadCountOf);
    LastUnderSnoc(es, e, HeadCountKv, LayersOf);
    LastUnderSnoc(es, e, SlidingWindowPattern, PatternOf);
  }

  ghost predicate Readable(es: seq<Entry>) {
    forall i :: 0 <= i < |es| ==> WellTypedEntry(es[i]) && !Misread(es[i])
  }

  lemma RoundsStep<S(!new)>(round: (seq<Byte>, S) -> Parsed<S>, data: seq<Byte>, n: nat, s: S, s': S, rest: seq<Byte>)
    requires n > 0 && round(data, s) == Ok(s', rest)
    ensures Rounds(round, data, n, s) == Rounds(round, rest, n - 1, s')
  {
  }

  /** `n` rounds over a concatenation of encodings, when every round undoes one encoding. */
  ghost predicate Undoes(round: (seq<Byte>, Metadata) -> Parsed<Metadata>, es: seq<Entry>) {
    forall e, rest, meta :: e in es ==> round(EncodeEntry(e) + rest, meta) == Ok(Updated(meta, FieldOf(e.key), e.value), rest)
  }

  /** The metadata after reading entry after entry. */
  function UpdatedAll(meta: Metadata, es: seq<Entry>): Metadata
    decreases |es|
  {
    if es == [] then meta else UpdatedAll(Updated(meta, FieldOf(es[0].key), es[0].value), es[1..])
  }

  lemma {:induction false} RoundsUndo(round: (seq<Byte>, Metadata) -> Parsed<Metadata>, es: seq<Entry>, rest: seq<Byte>,
                                      meta: Metadata)
    requires Undoes(round, es)
    ensures Rounds(round, EncodeEntries(es) + rest, |es|, meta) == Ok(UpdatedAll(meta, es), rest)
    decreases |es|
  {
    if es == [] {
      assert EncodeEntries(es) + rest == rest;
    } else {
      var e, tail := es[0], EncodeEntries(es[1..]) + rest;
      var meta' := Updated(meta, FieldOf(e.key), e.value);
      assert EncodeEntries(es) + rest == EncodeEntry(e) + tail;
      assert round(EncodeEntry(e) + tail, meta) == Ok(meta', tail);
      RoundsStep(round, EncodeEntries(es) + rest, |es|, meta, meta', tail);
      RoundsUndo(round, es[1..], rest, meta');
    }
  }

  /** What every update keeps, a sequence of updates keeps. */
  lemma {:induction false} UpdatesKeep(p: (Metadata, seq<Entry>) -> bool, meta: Metadata, done: seq<Entry>, es: seq<Entry>)
    requires p(meta, done)
    requires forall m: Metadata, d: seq<Entry>, e: Entry :: p(m, d) ==> p(Updated(m, FieldOf(e.key), e.value), d + [e])
    ensures p(UpdatedAll(meta, es), done + es)
    decreases |es|
  {
    if es == [] {
      assert done + es == done;
    } else {
      assert p(Updated(meta, FieldOf(es[0].key), es[0].value), done + [es[0]]);
      assert (done + [es[0]]) + es[1..] == done + es;
      UpdatesKeep(p, Updated(meta, FieldOf(es[0].key), es[0].value), done + [es[0]], es[1..]);
    }
  }

  lemma UpdatedAllIsMetadata(meta: Metadata, done: seq<Entry>, es: seq<Entry>)
    requires IsMetadataOf(meta, done)
    ensures IsMetadataOf(UpdatedAll(meta, es), done + es)
  {
    var p := (m, d) => IsMetadataOf(m, d);
    forall m: Metadata, d: seq<Entry>, e: Entry | p(m, d) ensures p(Updated(m, FieldOf(e.key), e.value), d + [e]) {
      UpdatedIsMetadata(m, d, e);
    }
    UpdatesKeep(p, meta, done, es);
  }

  lemma EntriesRoundTrip(es: seq<Entry>, rest: seq<Byte>)
    requires Readable(es)
    ensures var p := ReadEntries(EncodeEntries(es) + rest, |es|, EMPTY);
      p.Ok? && p.rest == rest && IsMetadataOf(p.value, es)
  {
    forall e, rest, meta | e in es
      ensures ReadEntry(EncodeEntry(e) + rest, meta) == Ok(Updated(meta, FieldOf(e.key), e.value), rest)
    {
      EntryRoundTrip(e, rest, meta);
    }
    assert IsMetadataOf(EMPTY, []);
    UpdatedAllIsMetadata(EMPTY, [], es);
    RoundsUndo(ReadEntry, es, rest, EMPTY);
    assert [] + es == es;
  }

  lemma FileBytes(a: seq<Byte>, b: seq<Byte>, c: seq<Byte>, d: seq<Byte>, e: seq<Byte>, rest: seq<Byte>)
    ensures a + b + c + d + e + rest == a + (b + (c + (d + (e + rest))))
  {
  }

  lemma PreambleRoundTrip(version: nat, tensors: nat, es: seq<Entry>, rest: seq<Byte>)
    requires |es| <= MAX_ENTRIES
    ensures ReadMetadata(EncodeFile(version, tensors, es) + rest) == ReadEntries(EncodeEntries(es) + rest, |es|, EMPTY)
  {
    var rest3 := EncodeEntries(es) + rest;
    var rest2 := ToLE(|es|, 8) + rest3;
    var rest1 := ToLE(tensors, 8) + rest2;
    var rest0 := ToLE(version, 4) + rest1;
    FileBytes(MAGIC, ToLE(version, 4), ToLE(tensors, 8), ToLE(|es|, 8), EncodeEntries(es), rest);
    TakeEncoded(MAGIC, rest0);
    TakeEncoded(ToLE(version, 4), rest1);
    TakeEncoded(ToLE(tensors, 8), rest2);
    Widths();
    NumberRoundTrip(|es|, 8, rest3);
    AfterPreamble(EncodeFile(version, tensors, es) + rest, ToLE(version, 4), ToLE(tensors, 8), |es|, rest0, rest1, rest2, rest3);
  }

  lemma AfterPreamble(data: seq<Byte>, version: seq<Byte>, tensors: seq<Byte>, n: nat,
                      rest0: seq<Byte>, rest1: seq<Byte>, rest2: seq<Byte>, rest3: seq<Byte>)
    requires Take(data, 4) == Ok(MAGIC, rest0) && Take(rest0, 4) == Ok(version, rest1) && Take(rest1, 8) == Ok(tensors, rest2)
    requires ReadNumber(rest2, 8) == Ok(n, rest3) && n <= MAX_ENTRIES
    ensures ReadMetadata(data) == ReadEntries(rest3, n, EMPTY)
  {
  }

  /** The round trip: every field is the last usable value under its suffix, and what follows the
      entries is left untouched. */
  lemma FileRoundTrip(version: nat, tensors: nat, es: seq<Entry>, rest: seq<Byte>)
    requires |es| <= MAX_ENTRIES && Readable(es)
    ensures var p := ReadMetadata(EncodeFile(version, tensors, es) + rest);
      p.Ok? && p.rest == rest && IsMetadataOf(p.value, es)
  {
    PreambleRoundTrip(version, tensors, es, rest);
    EntriesRoundTrip(es, rest);
  }

  lemma {:induction false} EncodeLength(s: string)
    ensures |Utf8.Encode(s)| <= 4 * |s|
  {
    if s != "" { EncodeLength(s[1..]); }
  }
}
