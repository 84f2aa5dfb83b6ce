/**
 * The reader as it runs: one cursor on an open file, moved by exact reads.
 */
module GgufFile {
  import opened Wrappers
  import opened Bytes
  import opened GgufFormat
  import opened GgufReader
  import opened GgufWork
  import Utf8

  class File {
    const data: seq<Byte>
    var pos: nat
    /** Rounds of loops begun so far: array elements, over all nesting levels, and entries. */
    ghost var begun: nat

    constructor (data: seq<Byte>)
      ensures this.data == data && Valid() && Rest() == data && begun == 0
    {
      this.data := data;
      pos, begun := 0, 0;
    }

    ghost predicate Valid()
      reads this
    {
      pos <= |data|
    }

    ghost function Rest(): seq<Byte>
      requires Valid()
      reads this
    {
      data[pos..]
    }

    /** The call returned what the specification parses from the bytes that were left. */
    ghost predicate Agrees<T>(r: Option<T>, p: Parsed<T>)
      reads this
    {
      Valid() && match p
        case Fail => r.None?
        case Ok(v, rest) => r == Some(v) && Rest() == rest
    }

    method ReadExact(n: nat) returns (r: Option<seq<Byte>>)
      requires Valid()
      modifies this`pos
      ensures Agrees(r, Take(old(Rest()), n))
    {
      if |data| - pos < n { return None; }
      r := Some(data[pos..pos + n]);
      assert data[pos..][..n] == data[pos..pos + n] && data[pos..][n..] == data[pos + n..];
      pos := pos + n;
    }

    method ReadNumberLE(width: nat) returns (r: Option<nat>)
      requires Valid()
      modifies this`pos
      ensures Agrees(r, ReadNumber(old(Rest()), width))
    {
      var bytes := ReadExact(width);
      if bytes.None? { return None; }
      r := Some(FromLE(bytes.value));
    }

    method ReadText() returns (r: Option<string>)
      requires Valid()
      modifies this`pos
      ensures Agrees(r, ReadString(old(Rest())))
    {
      var len := ReadNumberLE(8);
      if len.None? || len.value > MAX_STRING { return None; }
      var bytes := ReadExact(len.value);
      if bytes.None? { return None; }
      r := Utf8.Decode(bytes.value);
    }

    /** The outer option is the read error, the inner one tells integer types from others. */
    method ReadInt(vtype: nat) returns (r: Option<Option<nat>>)
      requires Valid()
      modifies this`pos
      ensures Agrees(r, ReadIntValue(old(Rest()), vtype))
    {
      if vtype == 4 || vtype == 5 {
        var n := ReadNumberLE(4);
        if n.None? { return None; }
        r := Some(Some(n.value % TWO32));
      } else if vtype == 10 || vtype == 11 {
        var n := ReadNumberLE(8);
        if n.None? { return None; }
        r := Some(Some(n.value % TWO32));
      } else {
        r := Some(None);
      }
    }

    method ReadArrayHeader() returns (r: Option<(nat, nat)>)
      requires Valid()
      modifies this`pos
      ensures Agrees(r, ReadHeader(old(Rest())))
    {
      var atype := ReadNumberLE(4);
      if atype.None? { return None; }
      var count := ReadNumberLE(8);
      if count.None? { return None; }
      r := Some((atype.value, count.value));
    }

    /** The call did what the specification's walk does, work included. */
    ghost predicate Walked(ok: bool, w: Walk, begunBefore: nat)
      reads this
    {
      Valid() && ok == w.ok && begun == begunBefore + w.begun && (w.ok ==> Rest() == w.rest)
    }

    method SkipValue(vtype: nat) returns (ok: bool)
      requires Valid()
      modifies this
      ensures Walked(ok, Skip(old(Rest()), vtype), old(begun))
      decreases |Rest()|, 0
    {
      if vtype == 0 || vtype == 1 || vtype == 7 {
        var b := ReadExact(1);
        ok := b.Some?;
      } else if vtype == 2 || vtype == 3 {
        var b := ReadExact(2);
        ok := b.Some?;
      } else if 4 <= vtype <= 6 {
        var b := ReadExact(4);
        ok := b.Some?;
      } else if vtype == 8 {
        var s := ReadText();
        ok := s.Some?;
      } else if vtype == 9 {
        HeaderTakesTwelve(Rest());
        var header := ReadArrayHeader();
        if header.None? { return false; }
        ok := SkipElements(header.value.0, header.value.1);
      } else if 10 <= vtype <= 12 {
        var b := ReadExact(8);
        ok := b.Some?;
      } else {
        ok := false;
      }
    }

    /** The counted loop over the elements of a skipped array. */
    method SkipElements(atype: nat, count: nat) returns (ok: bool)
      requires Valid()
      modifies this
      ensures Walked(ok, SkipMany(old(Rest()), atype, count), old(begun))
      decreases |Rest()|, 2
    {
      ghost var goal, start := SkipMany(Rest(), atype, count), begun;
      for i := 0 to count
        invariant Valid() && |Rest()| <= old(|Rest()|) && begun >= start
        invariant goal == Continued(begun - start, SkipMany(Rest(), atype, count - i))
      {
        ok := SkipElement(atype, count - i);
        if !ok { return; }
      }
      ok := true;
    }

    /** One round of that loop, `n` rounds before its end. */
    method SkipElement(atype: nat, ghost n: nat) returns (ok: bool)
      requires Valid() && n > 0
      modifies this
      ensures Valid() && begun > old(begun) && (ok ==> |Rest()| <= old(|Rest()|))
      ensures ok ==> SkipMany(old(Rest()), atype, n) == Continued(begun - old(begun), SkipMany(Rest(), atype, n - 1))
      ensures !ok ==> !SkipMany(old(Rest()), atype, n).ok && begun == old(begun) + SkipMany(old(Rest()), atype, n).begun
      decreases |Rest()|, 1
    {
      SkipManyUnfold(Rest(), atype, n);
      begun := begun + 1;
      ok := SkipValue(atype);
    }

    /** The call agrees with the specification, work included. */
    ghost predicate Worked<T>(r: Option<T>, p: Parsed<T>, begunBefore: nat, work: nat)
      reads this
    {
      Agrees(r, p) && begun == begunBefore + work
    }

    method ReadIntElements(atype: nat, count: nat) returns (r: Option<IntArray>)
      requires Valid()
      modifies this
      ensures Worked(r, ReadInts(old(Rest()), atype, count, IntArray(None, [], true)),
        old(begun), IntsWork(old(Rest()), atype, count, IntArray(None, [], true)))
    {
      ghost var goal := ReadInts(Rest(), atype, count, IntArray(None, [], true));
      ghost var work := begun + IntsWork(Rest(), atype, count, IntArray(None, [], true));
      var values, maxVal, allInteger := [], None, true;
      for i := 0 to count
        invariant Valid()
        invariant goal == ReadInts(Rest(), atype, count - i, IntArray(maxVal, values, allInteger))
        invariant work == begun + IntsWork(Rest(), atype, count - i, IntArray(maxVal, values, allInteger))
      {
        begun := begun + 1;
        var v := ReadInt(atype);
        if v.None? { return None; }
        if v.value.Some? {
          maxVal := Some(Maximum(maxVal, v.value.value));
          values := values + [v.value.value];
        } else {
          var ok := SkipValue(atype);
          if !ok { return None; }
          allInteger := false;
        }
      }
      r := Some(IntArray(maxVal, values, allInteger));
    }

    method ReadIntOrArray(vtype: nat) returns (r: Option<(Option<nat>, Option<seq<nat>>)>)
      requires Valid()
      modifies this
      ensures Worked(r, ReadIntScalarOrArray(old(Rest()), vtype), old(begun), IntScalarOrArrayWork(old(Rest()), vtype))
    {
      if vtype == 9 {
        var header := ReadArrayHeader();
        if header.None? { return None; }
        var a := ReadIntElements(header.value.0, header.value.1);
        if a.None? { return None; }
        r := Some((a.value.max, if a.value.allInteger then Some(a.value.values) else None));
      } else {
        var v := ReadInt(vtype);
        if v.None? { return None; }
        r := Some((v.value, None));
      }
    }

    method ReadBoolElements(count: nat) returns (r: Option<seq<bool>>)
      requires Valid()
      modifies this
      ensures Worked(r, ReadBools(old(Rest()), count, []), old(begun), BoolsWork(old(Rest()), count))
    {
      ghost var goal, work := ReadBools(Rest(), count, []), begun + BoolsWork(Rest(), count);
      var values: seq<bool> := [];
      for i := 0 to count
        invariant Valid() && goal == ReadBools(Rest(), count - i, values)
        invariant work == begun + BoolsWork(Rest(), count - i)
      {
        begun := begun + 1;
        var b := ReadExact(1);
        if b.None? { return None; }
        values := values + [b.value[0] != 0];
      }
      r := Some(values);
    }

    method ReadBoolArrayValue(vtype: nat) returns (r: Option<Option<seq<bool>>>)
      requires Valid()
      modifies this
      ensures Worked(r, ReadBoolArray(old(Rest()), vtype), old(begun), BoolArrayWork(old(Rest()), vtype))
    {
      if vtype != 9 { return Some(None); }
      var header := ReadArrayHeader();
      if header.None? { return None; }
      if header.value.0 != 7 {
        var ok := SkipElements(header.value.0, header.value.1);
        return if ok then Some(None) else None;
      }
      var bools := ReadBoolElements(header.value.1);
      r := if bools.Some? then Some(bools) else None;
    }

    method ReadHeadCount(vtype: nat, meta: Metadata) returns (r: Option<Metadata>)
      requires Valid()
      modifies this
      ensures Worked(r, ReadHeadCountKv(old(Rest()), vtype, meta), old(begun), HeadCountKvWork(old(Rest()), vtype))
    {
      var v := ReadIntOrArray(vtype);
      if v.None? { return None; }
      var (max, arr) := v.value;
      var m := meta;
      if max.Some? {
        m := m.(headCountKv := max);
      } else if arr.None? {
        var ok := SkipValue(vtype);
        if !ok { return None; }
      }
      if arr.Some? { m := m.(headCountKvPerLayer := arr); }
      r := Some(m);
    }

    method ReadSlidingPattern(vtype: nat, meta: Metadata) returns (r: Option<Metadata>)
      requires Valid()
      modifies this
      ensures Worked(r, ReadPattern(old(Rest()), vtype, meta), old(begun), PatternWork(old(Rest()), vtype))
    {
      var pattern := ReadBoolArrayValue(vtype);
      if pattern.None? { return None; }
      if pattern.value.Some? { return Some(meta.(slidingWindowPattern := pattern.value)); }
      if vtype != 9 {
        var ok := SkipValue(vtype);
        if !ok { return None; }
      }
      r := Some(meta);
    }

    method ReadValueInto(vtype: nat, field: Option<Field>, meta: Metadata) returns (r: Option<Metadata>)
      requires Valid()
      modifies this
      ensures Worked(r, ReadInto(old(Rest()), vtype, field, meta), old(begun), ValueWork(old(Rest()), vtype, field))
    {
      if field == Some(HeadCountKv) {
        r := ReadHeadCount(vtype, meta);
      } else if field == Some(SlidingWindowPattern) {
        r := ReadSlidingPattern(vtype, meta);
      } else if field.Some? {
        r := ReadPlainValue(vtype, field.value, meta);
      } else {
        r := PassOverValue(vtype, meta);
      }
    }

    method ReadPlainValue(vtype: nat, f: Field, meta: Metadata) returns (r: Option<Metadata>)
      requires Valid()
      modifies this
      ensures Worked(r, ReadPlain(old(Rest()), vtype, f, meta), old(begun), PlainWork(old(Rest()), vtype))
    {
      var v := ReadInt(vtype);
      if v.None? { return None; }
      if v.value.Some? { return Some(meta.Set(f, v.value.value)); }
      r := PassOverValue(vtype, meta);
    }

    method PassOverValue(vtype: nat, meta: Metadata) returns (r: Option<Metadata>)
      requires Valid()
      modifies this
      ensures Worked(r, PassOver(old(Rest()), vtype, meta), old(begun), Skip(old(Rest()), vtype).begun)
    {
      var ok := SkipValue(vtype);
      r := if ok then Some(meta) else None;
    }

    method ReadOneEntry(meta: Metadata) returns (r: Option<Metadata>)
      requires Valid()
      modifies this
      ensures Worked(r, ReadEntry(old(Rest()), meta), old(begun), EntryWork(old(Rest())))
    {
      var key := ReadText();
      if key.None? { return None; }
      var vtype := ReadNumberLE(4);
      if vtype.None? { return None; }
      r := ReadValueInto(vtype.value, FieldOf(key.value), meta);
    }

    /** With `left` rounds to go, the loop over entries gives `goal`, with `total` rounds begun in all. */
    ghost predicate EntriesLeft(round: (seq<Byte>, Metadata) -> Parsed<Metadata>, work: seq<Byte> -> nat,
                                left: nat, meta: Metadata, goal: Parsed<Metadata>, total: nat)
      reads this
    {
      && Valid()
      && goal == Rounds(round, Rest(), left, meta)
      && total == begun + RoundsWork(round, work, Rest(), left, meta)
    }

    /** One round of that loop. */
    method ReadNextEntry(ghost round: (seq<Byte>, Metadata) -> Parsed<Metadata>, ghost work: seq<Byte> -> nat,
                         ghost left: nat, meta: Metadata, ghost goal: Parsed<Metadata>, ghost total: nat)
      returns (r: Option<Metadata>)
      requires AreEntryRounds(round, work) && left > 0 && EntriesLeft(round, work, left, meta, goal, total)
      modifies this
      ensures r.Some? ==> EntriesLeft(round, work, left - 1, r.value, goal, total)
      ensures r.None? ==> Valid() && goal == Fail && total == begun
    {
      RoundsUnfold(round, work, Rest(), left, meta);
      begun := begun + 1;
      r := ReadOneEntry(meta);
    }

    /** The loop over the entries. */
    method RunEntries(ghost round: (seq<Byte>, Metadata) -> Parsed<Metadata>, ghost work: seq<Byte> -> nat,
                      n: nat, ghost goal: Parsed<Metadata>, ghost total: nat)
      returns (r: Option<Metadata>)
      requires AreEntryRounds(round, work) && EntriesLeft(round, work, n, EMPTY, goal, total)
      modifies this
      ensures r.Some? ==> EntriesLeft(round, work, 0, r.value, goal, total)
      ensures r.None? ==> Valid() && goal == Fail && total == begun
    {
      ghost var left := n;
      var meta := EMPTY;
      for i := 0 to n
        invariant left == n - i && EntriesLeft(round, work, left, meta, goal, total)
      {
        var next := ReadNextEntry(round, work, left, meta, goal, total);
        if next.None? { return None; }
        meta, left := next.value, left - 1;
      }
      r := Some(meta);
    }

    method ReadAllEntries(n: nat) returns (r: Option<Metadata>)
      requires Valid()
      modifies this
      ensures Worked(r, ReadEntries(old(Rest()), n, EMPTY), old(begun), EntriesWork(old(Rest()), n))
    {
      r := RunEntries(ReadEntry, EntryWork, n, ReadEntries(Rest(), n, EMPTY), begun + EntriesWork(Rest(), n));
      if r.Some? { RoundsEnd(ReadEntry, EntryWork, Rest(), r.value); }
    }

    /** The whole read, and the work it took: never more rounds than the file has bytes. */
    method Read() returns (r: Option<Metadata>)
      requires Valid() && pos == 0
      modifies this
      ensures Worked(r, ReadMetadata(data), old(begun), MetadataWork(data))
      ensures begun <= old(begun) + |data|
    {
      assert Rest() == data;
      MetadataWorkIsBounded(data);
      if |data| >= 24 {
        assert data[4..][4..] == data[8..] && data[8..][8..] == data[16..];
        assert data[16..][..8] == data[16..24] && data[16..][8..] == data[24..];
      }
      var magic := ReadExact(4);
      if magic.None? || magic.value != MAGIC { return None; }
      var version := ReadExact(4);
      if version.None? { return None; }
      var tensors := ReadExact(8);
      if tensors.None? { return None; }
      var n := ReadNumberLE(8);
      if n.None? || n.value > MAX_ENTRIES { return None; }
      r := ReadAllEntries(n.value);
    }
  }

  /** Stand-ins for the functions that read one entry and count its work. */
  ghost predicate AreEntryRounds(round: (seq<Byte>, Metadata) -> Parsed<Metadata>, work: seq<Byte> -> nat) {
    && (forall data: seq<Byte>, meta: Metadata {:trigger ReadEntry(data, meta)} :: round(data, meta) == ReadEntry(data, meta))
    && (forall data: seq<Byte> {:trigger EntryWork(data)} :: work(data) == EntryWork(data))
  }

  /** The walk `w` after `begun` elements. */
  function Continued(begun: nat, w: Walk): Walk { Walk(w.ok, w.rest, begun + w.begun) }

  lemma SkipManyUnfold(data: seq<Byte>, atype: nat, n: nat)
    requires n > 0
    ensures SkipMany(data, atype, n) == var first := Skip(data, atype);
      if first.ok then Continued(1 + first.begun, SkipMany(first.rest, atype, n - 1)) else Walk(false, first.rest, 1 + first.begun)
  {
  }

  lemma RoundsEnd<S(!new)>(round: (seq<Byte>, S) -> Parsed<S>, work: seq<Byte> -> nat, data: seq<Byte>, s: S)
    ensures Rounds(round, data, 0, s) == Ok(s, data) && RoundsWork(round, work, data, 0, s) == 0
  {
  }

  lemma RoundsUnfold<S(!new)>(round: (seq<Byte>, S) -> Parsed<S>, work: seq<Byte> -> nat, data: seq<Byte>, n: nat, s: S)
    requires n > 0
    ensures RoundsWork(round, work, data, n, s)
         == 1 + work(data) + match round(data, s) case Fail => 0 case Ok(s', rest) => RoundsWork(round, work, rest, n - 1, s')
    ensures Rounds(round, data, n, s)
         == match round(data, s) case Fail => Fail case Ok(s', rest) => Rounds(round, rest, n - 1, s')
  {
  }
}
