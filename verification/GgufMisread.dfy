/**
 * What becomes of a file with a `head_count_kv` array of a non-integer type: the reader consumes it, and then skips
 * what follows as if it were another array.
 */
module GgufMisread {
  import opened Wrappers
  import opened Bytes
  import opened GgufFormat
  import opened GgufReader
  import opened GgufRoundTrip
  import Utf8

  // ---- One entry --------------------------------------------------------------------------------

  lemma ValueThenFollowing(v: Value, follow: seq<Byte>, meta: Metadata)
    requires WellTyped(v) && SkippedTwice(v)
    ensures ReadHeadCountKv(EncodeValue(v) + follow, Tag(v), meta)
         == var w := Skip(follow, 9); if w.ok then Ok(meta, w.rest) else Fail
  {
    IntOrArrayRoundTrip(v, follow);
    assert HeadCountOf(v).None? && LayersOf(v).None?;
  }

  /** A misread entry leaves the metadata as it was, and an array is skipped in the bytes that follow the entry. */
  lemma MisreadSkipsFollowing(e: Entry, follow: seq<Byte>, meta: Metadata)
    requires WellTypedEntry(e) && Misread(e)
    ensures ReadEntry(EncodeEntry(e) + follow, meta)
         == var w := Skip(follow, 9); if w.ok then Ok(meta, w.rest) else Fail
  {
    EntryBytes(e, follow);
    ValueThenFollowing(e.value, follow, meta);
  }

  /** So it never leaves the cursor at its end: the reader fails or runs at least twelve bytes into what follows. */
  lemma MisreadOverruns(e: Entry, follow: seq<Byte>, meta: Metadata)
    requires WellTypedEntry(e) && Misread(e)
    ensures var p := ReadEntry(EncodeEntry(e) + follow, meta); p.Ok? ==> |p.rest| + 12 <= |follow|
  {
    MisreadSkipsFollowing(e, follow, meta);
    HeaderTakesTwelve(follow);
  }

  // ---- Files --------------------------------------------------------------------------------------

  lemma {:induction false} RoundsCompose<S(!new)>(round: (seq<Byte>, S) -> Parsed<S>, data: seq<Byte>, n: nat, m: nat, s: S)
    ensures var p := Rounds(round, data, n, s);
      Rounds(round, data, n + m, s) == if p.Ok? then Rounds(round, p.rest, m, p.value) else Fail
    decreases n
  {
    if n > 0 {
      var p := round(data, s);
      if p.Ok? { RoundsCompose(round, p.rest, n - 1, m, p.value); }
    }
  }

  /** `n` rounds that succeed, one more, and then `m`. */
  lemma RoundAmong<S(!new)>(round: (seq<Byte>, S) -> Parsed<S>, data: seq<Byte>, n: nat, m: nat, s: S, mid: S, tail: seq<Byte>)
    requires Rounds(round, data, n, s) == Ok(mid, tail)
    ensures Rounds(round, data, n + (1 + m), s)
         == match round(tail, mid) case Fail => Fail case Ok(s', rest) => Rounds(round, rest, m, s')
  {
    RoundsCompose(round, data, n, 1 + m, s);
  }

  /** The same when the one round leaves the state as it was. */
  lemma IdleRoundAmong<S(!new)>(round: (seq<Byte>, S) -> Parsed<S>, data: seq<Byte>, n: nat, m: nat, s: S, mid: S,
                                tail: seq<Byte>, w: Walk)
    requires Rounds(round, data, n, s) == Ok(mid, tail)
    requires round(tail, mid) == if w.ok then Ok(mid, w.rest) else Fail
    ensures Rounds(round, data, n + (1 + m), s) == if w.ok then Rounds(round, w.rest, m, mid) else Fail
  {
    RoundAmong(round, data, n, m, s, mid, tail);
  }

  lemma {:induction false} EncodeEntriesConcat(before: seq<Entry>, after: seq<Entry>)
    ensures EncodeEntries(before + after) == EncodeEntries(before) + EncodeEntries(after)
  {
    if before == [] {
      assert before + after == after;
    } else {
      assert (before + after)[1..] == before[1..] + after;
      EncodeEntriesConcat(before[1..], after);
    }
  }

  lemma EntriesAround(before: seq<Entry>, e: Entry, after: seq<Entry>, rest: seq<Byte>)
    ensures EncodeEntries(before + ([e] + after)) + rest
         == EncodeEntries(before) + (EncodeEntry(e) + (EncodeEntries(after) + rest))
  {
    EncodeEntriesConcat(before, [e] + after);
    assert ([e] + after)[1..] == after;
    AppendRest(EncodeEntries(before), EncodeEntry(e), EncodeEntries(after), rest);
  }

  lemma AppendRest(a: seq<Byte>, b: seq<Byte>, c: seq<Byte>, rest: seq<Byte>)
    ensures a + (b + c) + rest == a + (b + (c + rest))
  {
  }

  lemma MisreadRounds(round: (seq<Byte>, Metadata) -> Parsed<Metadata>, before: seq<Entry>, e: Entry, m: nat,
                      follow: seq<Byte>, w: Walk)
    requires Undoes(round, before)
    requires forall meta :: round(EncodeEntry(e) + follow, meta) == if w.ok then Ok(meta, w.rest) else Fail
    ensures Rounds(round, EncodeEntries(before) + (EncodeEntry(e) + follow), |before| + (1 + m), EMPTY)
         == if w.ok then Rounds(round, w.rest, m, UpdatedAll(EMPTY, before)) else Fail
  {
    var tail := EncodeEntry(e) + follow;
    RoundsUndo(round, before, tail, EMPTY);
    IdleRoundAmong(round, EncodeEntries(before) + tail, |before|, m, EMPTY, UpdatedAll(EMPTY, before), tail, w);
  }

  lemma MisreadEntries(before: seq<Entry>, e: Entry, m: nat, follow: seq<Byte>, w: Walk, all: seq<Byte>, n: nat)
    requires Readable(before) && WellTypedEntry(e) && Misread(e) && w == Skip(follow, 9)
    requires all == EncodeEntries(before) + (EncodeEntry(e) + follow) && n == |before| + (1 + m)
    ensures ReadEntries(all, n, EMPTY)
         == if w.ok then ReadEntries(w.rest, m, UpdatedAll(EMPTY, before)) else Fail
  {
    forall e', rest', meta | e' in before
      ensures ReadEntry(EncodeEntry(e') + rest', meta) == Ok(Updated(meta, FieldOf(e'.key), e'.value), rest')
    {
      EntryRoundTrip(e', rest', meta);
    }
    forall meta ensures ReadEntry(EncodeEntry(e) + follow, meta) == if w.ok then Ok(meta, w.rest) else Fail {
      MisreadSkipsFollowing(e, follow, meta);
    }
    MisreadRounds(ReadEntry, before, e, m, follow, w);
  }

  lemma MisreadAround(before: seq<Entry>, e: Entry, after: seq<Entry>, rest: seq<Byte>, w: Walk)
    requires Readable(before) && WellTypedEntry(e) && Misread(e) && w == Skip(EncodeEntries(after) + rest, 9)
    ensures var es := before + ([e] + after);
      ReadEntries(EncodeEntries(es) + rest, |es|, EMPTY)
        == if w.ok then ReadEntries(w.rest, |after|, UpdatedAll(EMPTY, before)) else Fail
  {
    var es := before + ([e] + after);
    EntriesAround(before, e, after, rest);
    MisreadEntries(before, e, |after|, EncodeEntries(after) + rest, w, EncodeEntries(es) + rest, |es|);
  }

  /** A misread entry at any position, after entries that are read: the read of the file is the read of the remaining
      number of entries from wherever the second skip ends, and fails if that skip does. */
  lemma MisreadFile(version: nat, tensors: nat, before: seq<Entry>, e: Entry, after: seq<Entry>, rest: seq<Byte>, w: Walk)
    requires |before| + 1 + |after| <= MAX_ENTRIES && Readable(before) && WellTypedEntry(e) && Misread(e)
    requires w == Skip(EncodeEntries(after) + rest, 9)
    ensures ReadMetadata(EncodeFile(version, tensors, before + ([e] + after)) + rest)
         == if w.ok then ReadEntries(w.rest, |after|, UpdatedAll(EMPTY, before)) else Fail
  {
    MisreadAround(before, e, after, rest, w);
    PreambleRoundTrip(version, tensors, before + ([e] + after), rest);
  }

  // ---- What follows a misread entry -------------------------------------------------------------

  /** Bytes that cannot be the head of an array that is skipped: too few, or elements of an unknown type. */
  predicate Unskippable(follow: seq<Byte>) {
    |follow| < 12 || (FromLE(follow[..4]) > 12 && FromLE(follow[4..12]) > 0)
  }

  lemma UnknownElements(data: seq<Byte>, atype: nat, count: nat)
    requires atype > 12 && count > 0
    ensures !SkipMany(data, atype, count).ok
  {
    assert !Skip(data, atype).ok;
  }

  lemma UnskippableFails(follow: seq<Byte>)
    requires Unskippable(follow)
    ensures !Skip(follow, 9).ok
  {
    HeaderTakesTwelve(follow);
    if |follow| >= 12 {
      assert follow[4..][..8] == follow[4..12];
      assert ReadHeader(follow) == Ok((FromLE(follow[..4]), FromLE(follow[4..12])), follow[12..]);
      SkipAfterHeader(follow, FromLE(follow[..4]), FromLE(follow[4..12]), follow[12..]);
      UnknownElements(follow[12..], FromLE(follow[..4]), FromLE(follow[4..12]));
    }
  }

  lemma {:induction false} LowBytes(n: nat, width: nat, low: nat)
    requires low <= width
    ensures ToLE(n, width)[..low] == ToLE(n, low)
  {
    if low > 0 { LowBytes(n / 256, width - 1, low - 1); }
  }

  lemma {:induction false} NonZeroByte(bs: seq<Byte>, i: nat)
    requires i < |bs| && bs[i] != 0
    ensures FromLE(bs) > 0
  {
    if i > 0 { NonZeroByte(bs[1..], i - 1); }
  }

  /** A key or tensor name of more than twelve bytes that does not begin with NUL. */
  predicate LongName(name: string) {
    12 < |Utf8.Encode(name)| < TWO32 && name[0] != '\0'
  }

  /** The length of a long name reads as an unknown element type, and its first character as part of a count. */
  lemma LongNameIsUnskippable(name: string, more: seq<Byte>)
    requires LongName(name)
    ensures Unskippable(EncodeString(name) + more)
  {
    var bytes := Utf8.Encode(name);
    var follow, len := EncodeString(name) + more, ToLE(|bytes|, 8);
    assert follow == len + (bytes + more);
    LowBytes(|bytes|, 8, 4);
    Widths();
    FromToLE(|bytes|, 4);
    assert follow[..4] == len[..4];
    assert bytes[0] == Utf8.EncodeChar(name[0])[0] != 0;
    assert follow[4..12][4] == bytes[0];
    NonZeroByte(follow[4..12], 4);
  }

  /** A file with a misread entry is rejected when what follows the entry is at most eleven bytes, or begins with a
      long name: the key of the next entry, or the name of the first tensor. */
  lemma MisreadFileFails(version: nat, tensors: nat, before: seq<Entry>, e: Entry, after: seq<Entry>, rest: seq<Byte>)
    requires |before| + 1 + |after| <= MAX_ENTRIES && Readable(before) && WellTypedEntry(e) && Misread(e)
    requires var follow := EncodeEntries(after) + rest;
      |follow| < 12 || exists name, more :: LongName(name) && follow == EncodeString(name) + more
    ensures ReadMetadata(EncodeFile(version, tensors, before + ([e] + after)) + rest) == Fail
  {
    var follow := EncodeEntries(after) + rest;
    if |follow| >= 12 {
      var name, more :| LongName(name) && follow == EncodeString(name) + more;
      LongNameIsUnskippable(name, more);
    }
    UnskippableFails(follow);
    MisreadFile(version, tensors, before, e, after, rest, Skip(follow, 9));
  }

  /** In particular when the next entry has a key of more than twelve bytes. */
  lemma MisreadBeforeLongKeyFails(version: nat, tensors: nat, before: seq<Entry>, e: Entry, after: seq<Entry>, rest: seq<Byte>)
    requires |before| + 1 + |after| <= MAX_ENTRIES && Readable(before) && WellTypedEntry(e) && Misread(e)
    requires after != [] && LongName(after[0].key)
    ensures ReadMetadata(EncodeFile(version, tensors, before + ([e] + after)) + rest) == Fail
  {
    KeyComesFirst(after, rest);
    MisreadFileFails(version, tensors, before, e, after, rest);
  }

  lemma KeyComesFirst(es: seq<Entry>, rest: seq<Byte>)
    requires es != []
    ensures exists more :: EncodeEntries(es) + rest == EncodeString(es[0].key) + more
  {
    var key, tag, value, others := EncodeString(es[0].key), ToLE(Tag(es[0].value), 4), EncodeValue(es[0].value), EncodeEntries(es[1..]);
    FirstOfFour(key, tag, value, others, rest);
  }

  lemma FirstOfFour(a: seq<Byte>, b: seq<Byte>, c: seq<Byte>, d: seq<Byte>, rest: seq<Byte>)
    ensures ((a + b + c) + d) + rest == a + (b + c + d + rest)
  {
  }

  // ---- A concrete family ------------------------------------------------------------------------

  /** A one-string array under the `head_count_kv` key of an architecture. */
  function Deviation(arch: string): Entry { Entry(arch + Suffix(HeadCountKv), Arr(8, [Str("x")])) }

  lemma DeviationIsMisread(arch: string)
    ensures WellTyped(Deviation(arch).value) && Misread(Deviation(arch))
  {
    var key, v := Deviation(arch).key, Deviation(arch).value;
    EncodeLength(v.elems[0].text);
    assert WellTyped(v.elems[0]);
    assert key[|key| - |Suffix(HeadCountKv)|..] == Suffix(HeadCountKv);
    FieldOfIsItsSuffix(key, HeadCountKv);
  }

  /** The deviation on a concrete file: a `head_count_kv` array of one string, then a tensor with a long name. */
  lemma StringArrayHeadCountFails(arch: string, version: nat, name: string, more: seq<Byte>)
    requires StringFits(arch + Suffix(HeadCountKv)) && LongName(name)
    ensures WellTypedEntry(Deviation(arch))
    ensures ReadMetadata(EncodeFile(version, 1, [Deviation(arch)]) + (EncodeString(name) + more)) == Fail
  {
    DeviationIsMisread(arch);
    assert [] + ([Deviation(arch)] + []) == [Deviation(arch)];
    assert EncodeEntries([]) + (EncodeString(name) + more) == EncodeString(name) + more;
    MisreadFileFails(version, 1, [], Deviation(arch), [], EncodeString(name) + more);
  }
}
