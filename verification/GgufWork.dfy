/**
 * How long the reader works on arbitrary bytes: the rounds its loops begin, over array elements at every nesting
 * level and over entries, whether the read succeeds or fails.
 */
module GgufWork {
  import opened Wrappers
  import opened Bytes
  import opened GgufFormat
  import opened GgufReader

  /** Elements begun while skipping one element that is not an integer. */
  function IntElementWork(data: seq<Byte>, atype: nat): nat {
    match ReadIntValue(data, atype)
    case Ok(None, rest) => Skip(rest, atype).begun
    case _ => 0
  }

  /** Elements begun by the integer-array loop, those of skipped arrays within it included. */
  function IntsWork(data: seq<Byte>, atype: nat, count: nat, acc: IntArray): nat
    decreases count
  {
    if count == 0 then 0
    else
      1 + IntElementWork(data, atype)
      + match ReadIntElement(data, atype, acc)
        case Fail => 0
        case Ok(acc', rest) => IntsWork(rest, atype, count - 1, acc')
  }

  function BoolsWork(data: seq<Byte>, count: nat): nat
    decreases |data|
  {
    if count == 0 then 0 else if data == [] then 1 else 1 + BoolsWork(data[1..], count - 1)
  }

  function IntScalarOrArrayWork(data: seq<Byte>, vtype: nat): nat {
    if vtype != 9 then 0
    else
      match ReadHeader(data)
      case Fail => 0
      case Ok((atype, count), rest) => IntsWork(rest, atype, count, IntArray(None, [], true))
  }

  function BoolArrayWork(data: seq<Byte>, vtype: nat): nat {
    if vtype != 9 then 0
    else
      match ReadHeader(data)
      case Fail => 0
      case Ok((atype, count), rest) => if atype != 7 then SkipMany(rest, atype, count).begun else BoolsWork(rest, count)
  }

  function HeadCountKvWork(data: seq<Byte>, vtype: nat): nat {
    IntScalarOrArrayWork(data, vtype)
    + match ReadIntScalarOrArray(data, vtype)
      case Fail => 0
      case Ok((max, arr), rest) => if max.None? && arr.None? then Skip(rest, vtype).begun else 0
  }

  function PatternWork(data: seq<Byte>, vtype: nat): nat {
    BoolArrayWork(data, vtype)
    + match ReadBoolArray(data, vtype)
      case Fail => 0
      case Ok(pattern, rest) => if pattern.None? && vtype != 9 then Skip(rest, vtype).begun else 0
  }

  function PlainWork(data: seq<Byte>, vtype: nat): nat {
    match ReadIntValue(data, vtype)
    case Ok(None, rest) => Skip(rest, vtype).begun
    case _ => 0
  }

  function ValueWork(data: seq<Byte>, vtype: nat, field: Option<Field>): nat {
    match field
    case None => Skip(data, vtype).begun
    case Some(HeadCountKv) => HeadCountKvWork(data, vtype)
    case Some(SlidingWindowPattern) => PatternWork(data, vtype)
    case Some(_) => PlainWork(data, vtype)
  }

  function EntryWork(data: seq<Byte>): nat {
    match ReadString(data)
    case Fail => 0
    case Ok(key, rest) =>
      match ReadNumber(rest, 4)
      case Fail => 0
      case Ok(vtype, rest') => ValueWork(rest', vtype, FieldOf(key))
  }

  function RoundsWork<S(!new)>(round: (seq<Byte>, S) -> Parsed<S>, work: seq<Byte> -> nat, data: seq<Byte>, n: nat, s: S): nat
    decreases n
  {
    if n == 0 then 0
    else
      1 + work(data)
      + match round(data, s)
        case Fail => 0
        case Ok(s', rest) => RoundsWork(round, work, rest, n - 1, s')
  }

  function EntriesWork(data: seq<Byte>, n: nat): nat { RoundsWork(ReadEntry, EntryWork, data, n, EMPTY) }

  /** Rounds begun by a whole read. */
  function MetadataWork(data: seq<Byte>): nat {
    if |data| < 24 || data[..4] != MAGIC || FromLE(data[16..24]) > MAX_ENTRIES then 0
    else EntriesWork(data[24..], FromLE(data[16..24]))
  }

  // ---- Bounds -----------------------------------------------------------------------------------

  /** Work is paid for by bytes: consumed ones on success, and all that were there, plus `extra`, on failure. */
  ghost predicate Paid<T>(work: nat, p: Parsed<T>, data: seq<Byte>, extra: nat) {
    if p.Ok? then |p.rest| + work <= |data| else work <= |data| + extra
  }

  /** A round of a loop is paid for by the bytes it consumes. */
  ghost predicate RoundPaid<T>(work: nat, p: Parsed<T>, data: seq<Byte>) {
    if p.Ok? then |p.rest| + 1 + work <= |data| else work <= |data|
  }

  lemma IntElementWorkIsBounded(data: seq<Byte>, atype: nat, acc: IntArray)
    ensures RoundPaid(IntElementWork(data, atype), ReadIntElement(data, atype, acc), data)
  {
    IntValueConsumes(data, atype);
    var p := ReadIntValue(data, atype);
    if p.Ok? { SkipWorkIsBounded(p.rest, atype); }
  }

  /** The integer-array loop begins no more elements than there are bytes, and one more when it fails. */
  lemma {:induction false} IntsWorkIsBounded(data: seq<Byte>, atype: nat, count: nat, acc: IntArray)
    ensures Paid(IntsWork(data, atype, count, acc), ReadInts(data, atype, count, acc), data, 1)
    ensures ReadInts(data, atype, count, acc).Ok? ==> count <= IntsWork(data, atype, count, acc)
    decreases count
  {
    if count > 0 {
      IntElementWorkIsBounded(data, atype, acc);
      var p := ReadIntElement(data, atype, acc);
      if p.Ok? { IntsWorkIsBounded(p.rest, atype, count - 1, p.value); }
    }
  }

  lemma {:induction false} BoolsWorkIsBounded(data: seq<Byte>, count: nat, acc: seq<bool>)
    ensures Paid(BoolsWork(data, count), ReadBools(data, count, acc), data, 1)
    ensures ReadBools(data, count, acc).Ok? ==> BoolsWork(data, count) == count
    decreases |data|
  {
    if count > 0 && data != [] { BoolsWorkIsBounded(data[1..], count - 1, acc + [data[0] != 0]); }
  }

  lemma IntScalarOrArrayWorkIsBounded(data: seq<Byte>, vtype: nat)
    ensures Paid(IntScalarOrArrayWork(data, vtype), ReadIntScalarOrArray(data, vtype), data, 0)
  {
    IntScalarOrArrayConsumes(data, vtype);
    if vtype == 9 && ReadHeader(data).Ok? {
      HeaderTakesTwelve(data);
      var (atype, count) := ReadHeader(data).value;
      IntsWorkIsBounded(ReadHeader(data).rest, atype, count, IntArray(None, [], true));
    }
  }

  lemma BoolArrayWorkIsBounded(data: seq<Byte>, vtype: nat)
    ensures Paid(BoolArrayWork(data, vtype), ReadBoolArray(data, vtype), data, 0)
  {
    if vtype == 9 && ReadHeader(data).Ok? {
      HeaderTakesTwelve(data);
      var (atype, count) := ReadHeader(data).value;
      SkipManyWorkIsBounded(ReadHeader(data).rest, atype, count);
      BoolsWorkIsBounded(ReadHeader(data).rest, count, []);
    }
  }

  lemma HeadCountKvWorkIsBounded(data: seq<Byte>, vtype: nat, meta: Metadata)
    ensures Paid(HeadCountKvWork(data, vtype), ReadHeadCountKv(data, vtype, meta), data, 0)
  {
    IntScalarOrArrayWorkIsBounded(data, vtype);
    var p := ReadIntScalarOrArray(data, vtype);
    if p.Ok? { SkipWorkIsBounded(p.rest, vtype); }
  }

  lemma PatternWorkIsBounded(data: seq<Byte>, vtype: nat, meta: Metadata)
    ensures Paid(PatternWork(data, vtype), ReadPattern(data, vtype, meta), data, 0)
  {
    BoolArrayWorkIsBounded(data, vtype);
    var p := ReadBoolArray(data, vtype);
    if p.Ok? { SkipWorkIsBounded(p.rest, vtype); }
  }

  lemma PlainWorkIsBounded(data: seq<Byte>, vtype: nat, f: Field, meta: Metadata)
    ensures Paid(PlainWork(data, vtype), ReadPlain(data, vtype, f, meta), data, 0)
  {
    IntValueConsumes(data, vtype);
    var p := ReadIntValue(data, vtype);
    if p.Ok? { SkipWorkIsBounded(p.rest, vtype); }
  }

  lemma ValueWorkIsBounded(data: seq<Byte>, vtype: nat, field: Option<Field>, meta: Metadata)
    ensures Paid(ValueWork(data, vtype, field), ReadInto(data, vtype, field, meta), data, 0)
  {
    if field == Some(HeadCountKv) {
      HeadCountKvWorkIsBounded(data, vtype, meta);
    } else if field == Some(SlidingWindowPattern) {
      PatternWorkIsBounded(data, vtype, meta);
    } else if field.Some? {
      PlainWorkIsBounded(data, vtype, field.value, meta);
    } else {
      SkipWorkIsBounded(data, vtype);
    }
  }

  lemma EntryWorkIsBounded(data: seq<Byte>, meta: Metadata)
    ensures RoundPaid(EntryWork(data), ReadEntry(data, meta), data)
  {
    StringConsumes(data);
    match ReadString(data) {
      case Fail =>
      case Ok(key, rest) =>
        match ReadNumber(rest, 4) {
          case Fail =>
          case Ok(vtype, rest') => ValueWorkIsBounded(rest', vtype, FieldOf(key), meta);
        }
    }
  }

  lemma {:induction false} RoundsWorkIsBounded<S(!new)>(round: (seq<Byte>, S) -> Parsed<S>, work: seq<Byte> -> nat,
                                                        data: seq<Byte>, n: nat, s: S)
    requires forall data', s' :: RoundPaid(work(data'), round(data', s'), data')
    ensures Paid(RoundsWork(round, work, data, n, s), Rounds(round, data, n, s), data, 1)
    decreases n
  {
    if n > 0 {
      assert RoundPaid(work(data), round(data, s), data);
      match round(data, s) {
        case Fail =>
        case Ok(s', rest) => RoundsWorkIsBounded(round, work, rest, n - 1, s');
      }
    }
  }

  lemma EntriesWorkIsBounded(data: seq<Byte>, n: nat)
    ensures Paid(EntriesWork(data, n), ReadEntries(data, n, EMPTY), data, 1)
  {
    forall data', meta' { EntryWorkIsBounded(data', meta'); }
    RoundsWorkIsBounded(ReadEntry, EntryWork, data, n, EMPTY);
  }

  /** On arbitrary bytes, and whether it succeeds or fails, a whole read begins at most as many rounds of its loops
      as the file has bytes. */
  lemma MetadataWorkIsBounded(data: seq<Byte>)
    ensures MetadataWork(data) <= |data|
  {
    if |data| >= 24 { EntriesWorkIsBounded(data[24..], FromLE(data[16..24])); }
  }
}
