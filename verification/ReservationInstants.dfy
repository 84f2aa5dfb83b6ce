/**
 * What the booking rules mean in time: rows are compared as text, but meant as intervals of instants.
 */
module ReservationInstants {
  import opened Wrappers
  import opened Timestamps
  import opened Reservations

  // ---- The exact condition --------------------------------------------------------------------

  /** The instants between two times, as the parser reads them. */
  predicate CoversUnder(parse: string -> Option<Time>, start: string, end: string, instant: int) {
    parse(start).Some? && parse(end).Some? && Seconds(parse(start).value) <= instant < Seconds(parse(end).value)
  }

  /** The handler accepts these times at some moment, if nothing else is booked. */
  ghost predicate Requestable(parse: string -> Option<Time>, start: string, end: string) {
    exists clock :: ValidRequest(parse, start, end, clock)
  }

  /** Any two requests the handler accepts that share an instant overlap as text. */
  ghost predicate TextTellsOverlap(parse: string -> Option<Time>) {
    forall sa, ea, sb, eb, instant ::
      (Requestable(parse, sa, ea) && Requestable(parse, sb, eb)
       && CoversUnder(parse, sa, ea, instant) && CoversUnder(parse, sb, eb, instant))
      ==> TextOverlap(sa, ea, sb, eb)
  }

  /** No instant belongs to two booked rows. */
  ghost predicate InstantsDisjoint(parse: string -> Option<Time>, table: map<string, Row>) {
    forall a, b, instant ::
      (a in table && b in table && a != b && Booked(table[a]) && Booked(table[b])
       && CoversUnder(parse, table[a].start, table[a].end, instant))
      ==> !CoversUnder(parse, table[b].start, table[b].end, instant)
  }

  /** In no reachable state do two booked rows share an instant. */
  ghost predicate NeverDoubleBooked(parse: string -> Option<Time>) {
    forall reqs :: QueriesAnswerThroughout(parse, reqs) ==> InstantsDisjoint(parse, After(parse, reqs).table)
  }

  ghost predicate RowsRequestable(parse: string -> Option<Time>, table: map<string, Row>) {
    forall id :: id in table ==> Requestable(parse, table[id].start, table[id].end)
  }

  lemma HandlerKeepsRequestable(s: State, parse: string -> Option<Time>, req: Request)
    requires QueriesAnswer(s, req) && RowsRequestable(parse, s.table)
    ensures RowsRequestable(parse, Handle(s, parse, req).table)
  {
    var t' := Handle(s, parse, req).table;
    KeysGrowByCreateOnly(s, parse, req);
    forall id | id in t' ensures Requestable(parse, t'[id].start, t'[id].end) {
      if id in s.table { StatusesOnlyMoveForward(s, parse, req, id); }
    }
  }

  lemma {:induction false} ReachableIsRequestable(parse: string -> Option<Time>, reqs: seq<Request>)
    requires QueriesAnswerThroughout(parse, reqs)
    ensures RowsRequestable(parse, After(parse, reqs).table)
  {
    if reqs != [] {
      ThroughoutPrefix(parse, reqs);
      ReachableIsRequestable(parse, reqs[..|reqs| - 1]);
      HandlerKeepsRequestable(After(parse, reqs[..|reqs| - 1]), parse, reqs[|reqs| - 1]);
    }
  }

  lemma HonestTextsKeepInstantsDisjoint(parse: string -> Option<Time>, reqs: seq<Request>)
    requires TextTellsOverlap(parse) && QueriesAnswerThroughout(parse, reqs)
    ensures InstantsDisjoint(parse, After(parse, reqs).table)
  {
    var t := After(parse, reqs).table;
    ReachableIsSafe(parse, reqs);
    ReachableIsRequestable(parse, reqs);
    forall a, b, instant | a in t && b in t && a != b && Booked(t[a]) && Booked(t[b])
      && CoversUnder(parse, t[a].start, t[a].end, instant)
      ensures !CoversUnder(parse, t[b].start, t[b].end, instant)
    {
      assert Disjoint(t[a], t[b]);
    }
  }

  function TwoBookings(sa: string, ea: string, sb: string, eb: string, clock: Time): seq<Request> {
    [Create("a", "u", sa, ea, "", clock), Create("b", "v", sb, eb, "", clock), Approve("a", ""), Approve("b", "")]
  }

  /** Two valid requests for an empty calendar are both approved exactly when their texts do not overlap. */
  lemma BothBookedIff(parse: string -> Option<Time>, sa: string, ea: string, sb: string, eb: string, clock: Time)
    requires ValidRequest(parse, sa, ea, clock) && ValidRequest(parse, sb, eb, clock)
    ensures QueriesAnswerThroughout(parse, TwoBookings(sa, ea, sb, eb, clock))
    ensures var t := After(parse, TwoBookings(sa, ea, sb, eb, clock)).table;
      && t.Keys == {"a", "b"} && (t["a"].start, t["a"].end, t["b"].start, t["b"].end) == (sa, ea, sb, eb)
      && Booked(t["a"]) && (Booked(t["b"]) <==> !TextOverlap(sa, ea, sb, eb))
  {
    var reqs := TwoBookings(sa, ea, sb, eb, clock);
    var rows := [Row("u", Pending, sa, ea), Row("v", Pending, sb, eb)];
    assert reqs[..3][..2] == reqs[..2] && reqs[..2][..1] == reqs[..1] && reqs[..1][..0] == [];
    assert After(parse, []) == State(map[], None);
    assert After(parse, reqs[..1]) == State(map["a" := rows[0]], None);
    assert After(parse, reqs[..2]) == State(map["a" := rows[0], "b" := rows[1]], None);
    assert After(parse, reqs[..3]) == State(map["a" := rows[0].(status := Approved), "b" := rows[1]], None);
    var t := After(parse, reqs[..3]).table;
    assert t - {"b"} == map["a" := t["a"]];
    assert Conflict(t - {"b"}, sb, eb) <==> TextOverlap(sa, ea, sb, eb) by {
      if TextOverlap(sa, ea, sb, eb) { assert ConflictsWith((t - {"b"})["a"], sb, eb); }
    }
  }

  lemma EarlierClock(parse: string -> Option<Time>, sa: string, ea: string, sb: string, eb: string) returns (clock: Time)
    requires Requestable(parse, sa, ea) && Requestable(parse, sb, eb)
    ensures ValidRequest(parse, sa, ea, clock) && ValidRequest(parse, sb, eb, clock)
  {
    var ca :| ValidRequest(parse, sa, ea, ca);
    var cb :| ValidRequest(parse, sb, eb, cb);
    clock := if Seconds(ca) <= Seconds(cb) then ca else cb;
  }

  lemma SafeRunsNeedHonestTexts(parse: string -> Option<Time>, sa: string, ea: string, sb: string, eb: string, instant: int)
    requires NeverDoubleBooked(parse) && Requestable(parse, sa, ea) && Requestable(parse, sb, eb)
    requires CoversUnder(parse, sa, ea, instant) && CoversUnder(parse, sb, eb, instant)
    ensures TextOverlap(sa, ea, sb, eb)
  {
    var clock := EarlierClock(parse, sa, ea, sb, eb);
    BothBookedIff(parse, sa, ea, sb, eb, clock);
    var t := After(parse, TwoBookings(sa, ea, sb, eb, clock)).table;
    assert InstantsDisjoint(parse, t);
    assert "a" in t && "b" in t;
  }

  /** For every parser: no reachable state has an instant booked twice if and only if any two requests the handler
      accepts that share an instant overlap as text. */
  lemma NeverDoubleBookedIff(parse: string -> Option<Time>)
    ensures NeverDoubleBooked(parse) <==> TextTellsOverlap(parse)
  {
    if TextTellsOverlap(parse) {
      forall reqs | QueriesAnswerThroughout(parse, reqs) ensures InstantsDisjoint(parse, After(parse, reqs).table) {
        HonestTextsKeepInstantsDisjoint(parse, reqs);
      }
    }
    if NeverDoubleBooked(parse) {
      forall sa, ea, sb, eb, instant | Requestable(parse, sa, ea) && Requestable(parse, sb, eb)
        && CoversUnder(parse, sa, ea, instant) && CoversUnder(parse, sb, eb, instant)
        ensures TextOverlap(sa, ea, sb, eb)
      {
        SafeRunsNeedHonestTexts(parse, sa, ea, sb, eb, instant);
      }
    }
  }

  // ---- Canonical text --------------------------------------------------------------------------

  /** The parser accepts canonical timestamps only, with their meaning. */
  ghost predicate Strict(parse: string -> Option<Time>) {
    forall s: string :: parse(s).Some? ==> Canonical(s) && parse(s) == Some(FieldsOf(s))
  }

  /** A parser that insists on canonical text never lets an instant be booked twice. */
  lemma StrictParserIsSafe(parse: string -> Option<Time>)
    requires Strict(parse)
    ensures NeverDoubleBooked(parse)
  {
    forall sa, ea, sb, eb, instant | Requestable(parse, sa, ea) && Requestable(parse, sb, eb)
      && CoversUnder(parse, sa, ea, instant) && CoversUnder(parse, sb, eb, instant)
      ensures TextOverlap(sa, ea, sb, eb)
    {
      TextOrderIsChronological(sa, ea);
      TextOrderIsChronological(sb, eb);
      assert Covers(sa, ea, instant) && Covers(sb, eb, instant);
      OverlapTestIsExact(sa, ea, sb, eb);
    }
    NeverDoubleBookedIff(parse);
  }

  /** The parser accepts canonical timestamps with their meaning; it may accept others. */
  ghost predicate ReadsCanonical(parse: string -> Option<Time>) {
    forall s: string :: Canonical(s) ==> parse(s) == Some(FieldsOf(s))
  }

  /** Two booked rows with canonical times never share an instant. */
  lemma BookingsNeverShareAnInstant(parse: string -> Option<Time>, reqs: seq<Request>, a: string, b: string, instant: int)
    requires QueriesAnswerThroughout(parse, reqs) && ReadsCanonical(parse)
    requires var t := After(parse, reqs).table;
      && a in t && b in t && a != b && Booked(t[a]) && Booked(t[b])
      && Canonical(t[a].start) && Canonical(t[a].end) && Canonical(t[b].start) && Canonical(t[b].end)
    ensures var t := After(parse, reqs).table;
      !(Covers(t[a].start, t[a].end, instant) && Covers(t[b].start, t[b].end, instant))
  {
    ReachableIsSafe(parse, reqs);
    var t := After(parse, reqs).table;
    var ra, rb := t[a], t[b];
    assert Disjoint(ra, rb);
    TextOrderIsChronological(ra.start, ra.end);
    TextOrderIsChronological(rb.start, rb.end);
    OverlapTestIsExact(ra.start, ra.end, rb.start, rb.end);
  }

  /** A booked row of `table` and the interval share an instant. */
  ghost predicate SharesInstant(table: map<string, Row>, start: string, end: string)
    requires Canonical(start) && Canonical(end)
    requires forall id :: id in table && Booked(table[id]) ==> Canonical(table[id].start) && Canonical(table[id].end)
  {
    exists id, instant :: id in table && Booked(table[id])
      && Covers(table[id].start, table[id].end, instant) && Covers(start, end, instant)
  }

  /** On canonical times the conflict query answers the question it is meant to: is some instant taken? */
  lemma ConflictIsSharedInstant(table: map<string, Row>, start: string, end: string)
    requires Canonical(start) && Canonical(end) && TextLess(start, end)
    requires forall id :: id in table && Booked(table[id]) ==>
      Canonical(table[id].start) && Canonical(table[id].end) && TextLess(table[id].start, table[id].end)
    ensures Conflict(table, start, end) <==> SharesInstant(table, start, end)
  {
    if Conflict(table, start, end) {
      var id :| id in table && ConflictsWith(table[id], start, end);
      OverlapTestIsExact(table[id].start, table[id].end, start, end);
    }
    if SharesInstant(table, start, end) {
      var id, instant :| id in table && Booked(table[id])
        && Covers(table[id].start, table[id].end, instant) && Covers(start, end, instant);
      OverlapTestIsExact(table[id].start, table[id].end, start, end);
      assert ConflictsWith(table[id], start, end);
    }
  }

  // ---- Unpadded text -----------------------------------------------------------------------------

  /** A parser that also reads an unpadded day fails: two users book two hours and an hour within them. */
  lemma UnpaddedDaysCollide(parse: string -> Option<Time>, year: string, y: nat, clock: Time)
    requires |year| == 4 && Seconds(clock) < Seconds(Time(y, 10, 1, 0, 0, 0))
    requires parse(year + "-10-01T00:00:00") == Some(Time(y, 10, 1, 0, 0, 0))
    requires parse(year + "-10-01T02:00:00") == Some(Time(y, 10, 1, 2, 0, 0))
    requires parse(year + "-10-1T00:30:00") == Some(Time(y, 10, 1, 0, 30, 0))
    requires parse(year + "-10-1T01:30:00") == Some(Time(y, 10, 1, 1, 30, 0))
    ensures var run := TwoBookings(year + "-10-01T00:00:00", year + "-10-01T02:00:00",
                                   year + "-10-1T00:30:00", year + "-10-1T01:30:00", clock);
      var t, instant := After(parse, run).table, Seconds(Time(y, 10, 1, 0, 30, 0));
      && QueriesAnswerThroughout(parse, run)
      && t.Keys == {"a", "b"} && Booked(t["a"]) && Booked(t["b"])
      && CoversUnder(parse, t["a"].start, t["a"].end, instant) && CoversUnder(parse, t["b"].start, t["b"].end, instant)
    ensures !TextTellsOverlap(parse)
  {
    var sa, ea, sb, eb := year + "-10-01T00:00:00", year + "-10-01T02:00:00", year + "-10-1T00:30:00", year + "-10-1T01:30:00";
    FirstDifference(ea, sb, 8);
    TextOrderIsStrict(ea, sb);
    BothBookedIff(parse, sa, ea, sb, eb, clock);
    var instant := Seconds(Time(y, 10, 1, 0, 30, 0));
    assert CoversUnder(parse, sa, ea, instant) && CoversUnder(parse, sb, eb, instant);
    assert Requestable(parse, sa, ea) && Requestable(parse, sb, eb) by {
      assert ValidRequest(parse, sa, ea, clock) && ValidRequest(parse, sb, eb, clock);
    }
  }
}
