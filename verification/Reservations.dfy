/**
 * The reservation lifecycle: the table in the database, the in-memory cache of the active
 * reservation, the request handlers, the background tick and a restart of the proxy.
 */
module Reservations {
  import opened Wrappers
  import opened MapSum
  import opened Timestamps
  import Utf8

  datatype Status = Pending | Approved | Active | Completed | Rejected | Cancelled

  datatype Row = Row(user: string, status: Status, start: string, end: string)

  datatype ActiveReservation = ActiveReservation(id: string, user: string, end: string)

  datatype State = State(table: map<string, Row>, cache: Option<ActiveReservation>)

  predicate Booked(r: Row) { r.status == Approved || r.status == Active }

  predicate ConflictsWith(r: Row, start: string, end: string) {
    Booked(r) && TextOverlap(r.start, r.end, start, end)
  }

  predicate Conflict(table: map<string, Row>, start: string, end: string) {
    exists id :: id in table && ConflictsWith(table[id], start, end)
  }

  // ---- Requests -----------------------------------------------------------------------------

  /** The validation of a new request, in the order of the handler. */
  predicate ValidRequest(parse: string -> Option<Time>, start: string, end: string, now: Time) {
    && parse(start).Some? && parse(end).Some?
    && HalfHour(parse(start).value) && HalfHour(parse(end).value)
    && Seconds(parse(start).value) < Seconds(parse(end).value)
    && Seconds(parse(end).value) - Seconds(parse(start).value) >= 1800
    && Seconds(now) < Seconds(parse(start).value)
  }

  const MAX_DESCRIPTION: nat := 4096

  /** Reasons and notes are limited in bytes. */
  predicate NoteFits(note: string) { |Utf8.Encode(note)| <= MAX_DESCRIPTION }

  datatype Request =
    | Create(id: string, user: string, start: string, end: string, reason: string, clock: Time)
    | CancelOwn(id: string, user: string)
    | Approve(id: string, note: string)
    | Reject(id: string, note: string)
    | ForceActivate(id: string)
    | ForceDeactivate(id: string)
    | AdminDelete(id: string)
    /** The tick at time `now`; `due` is the row the query for a due reservation returned. */
    | Tick(now: string, due: Option<string>)
    /** The proxy restarts; `found` is the row the recovery query returned. */
    | Restart(found: Option<string>)

  function SetStatus(s: State, id: string, status: Status): State
    requires id in s.table
  {
    s.(table := s.table[id := s.table[id].(status := status)])
  }

  function AsActive(id: string, r: Row): ActiveReservation { ActiveReservation(id, r.user, r.end) }

  function Activated(s: State, id: string): State
    requires id in s.table
  {
    SetStatus(s, id, Active).(cache := Some(AsActive(id, s.table[id])))
  }

  // ---- The tick -------------------------------------------------------------------------------

  function Expire(r: Row, now: string): Row {
    if r.status == Active && TextAtMost(r.end, now) then r.(status := Completed) else r
  }

  function Drop(r: Row, now: string): Row {
    if r.status == Pending && TextAtMost(r.start, now) then r.(status := Cancelled) else r
  }

  function ExpireAll(table: map<string, Row>, now: string): map<string, Row> {
    map id | id in table :: Expire(table[id], now)
  }

  function DropAll(table: map<string, Row>, now: string): map<string, Row> {
    map id | id in table :: Drop(table[id], now)
  }

  predicate Due(r: Row, now: string) { r.status == Approved && TextAtMost(r.start, now) }

  /** `due` is an earliest approved row whose start has come, if there is one. */
  predicate IsDue(table: map<string, Row>, now: string, due: Option<string>) {
    match due
    case None => forall id :: id in table ==> !Due(table[id], now)
    case Some(d) =>
      d in table && Due(table[d], now)
      && forall id :: id in table && Due(table[id], now) ==> TextAtMost(table[d].start, table[id].start)
  }

  /** First statement: active reservations that are over are completed, and the cache cleared. */
  function Expired(s: State, now: string): State {
    var some := exists id :: id in s.table && Expire(s.table[id], now) != s.table[id];
    State(ExpireAll(s.table, now), if some then None else s.cache)
  }

  function TickTo(s: State, now: string, due: Option<string>): State {
    var s1 := Expired(s, now);
    var s2 := if s1.cache.None? && due.Some? && due.value in s1.table then Activated(s1, due.value) else s1;
    s2.(table := DropAll(s2.table, now))
  }

  // ---- Handlers ---------------------------------------------------------------------------------

  function Handle(s: State, parse: string -> Option<Time>, req: Request): State {
    match req
    case Create(id, user, start, end, reason, clock) =>
      if ValidRequest(parse, start, end, clock) && !Conflict(s.table, start, end) && NoteFits(reason) && id !in s.table
      then s.(table := s.table[id := Row(user, Pending, start, end)]) else s
    case CancelOwn(id, user) =>
      if id in s.table && s.table[id].user == user && (s.table[id].status == Pending || s.table[id].status == Approved)
      then SetStatus(s, id, Cancelled) else s
    case Approve(id, note) =>
      if NoteFits(note) && id in s.table && s.table[id].status == Pending
         && !Conflict(s.table - {id}, s.table[id].start, s.table[id].end)
      then SetStatus(s, id, Approved) else s
    case Reject(id, note) =>
      if NoteFits(note) && id in s.table && s.table[id].status == Pending then SetStatus(s, id, Rejected) else s
    case ForceActivate(id) =>
      if s.cache.None? && id in s.table && s.table[id].status == Approved then Activated(s, id) else s
    case ForceDeactivate(id) =>
      if id in s.table && s.table[id].status == Active then SetStatus(s, id, Completed).(cache := None) else s
    case AdminDelete(id) =>
      if id in s.table && s.table[id].status != Active then s.(table := s.table - {id}) else s
    case Tick(now, due) => TickTo(s, now, due)
    case Restart(found) =>
      s.(cache := if found.Some? && found.value in s.table then Some(AsActive(found.value, s.table[found.value])) else None)
  }

  /** The queries of the tick and of the recovery return a matching row, or none if there is none. */
  ghost predicate QueriesAnswer(s: State, req: Request) {
    && (req.Tick? ==> IsDue(Expired(s, req.now).table, req.now, req.due))
    && (req.Restart? ==>
         match req.found
         case None => forall id :: id in s.table ==> s.table[id].status != Active
         case Some(id) => id in s.table && s.table[id].status == Active)
  }

  /** The handlers as they run. */
  class Service {
    const parse: string -> Option<Time>
    var table: map<string, Row>
    var cache: Option<ActiveReservation>

    constructor (parse: string -> Option<Time>)
      ensures this.parse == parse && Abs() == State(map[], None)
    {
      this.parse, table, cache := parse, map[], None;
    }

    ghost function Abs(): State
      reads this
    {
      State(table, cache)
    }

    method CreateReservation(id: string, user: string, startTime: string, endTime: string, reason: string, now: Time)
      returns (created: bool)
      modifies this
      ensures Abs() == Handle(old(Abs()), parse, Create(id, user, startTime, endTime, reason, now))
      ensures created ==> Abs().table == old(table)[id := Row(user, Pending, startTime, endTime)]
      ensures !created ==> Abs() == old(Abs())
    {
      var start := parse(startTime);
      if start.None? { return false; }
      var end := parse(endTime);
      if end.None? { return false; }
      if !HalfHour(start.value) || !HalfHour(end.value) { return false; }
      if Seconds(end.value) <= Seconds(start.value) { return false; }
      if Seconds(end.value) - Seconds(start.value) < 1800 { return false; }
      if Seconds(start.value) <= Seconds(now) { return false; }
      if Conflict(table, startTime, endTime) { return false; }
      if !NoteFits(reason) { return false; }
      if id in table { return false; }
      table := table[id := Row(user, Pending, startTime, endTime)];
      created := true;
    }

    method CancelOwnReservation(id: string, user: string) returns (ok: bool)
      modifies this
      ensures Abs() == Handle(old(Abs()), parse, CancelOwn(id, user))
      ensures ok <==> id in old(table) && old(table)[id].user == user && old(table)[id].status in {Pending, Approved}
    {
      ok := id in table && table[id].user == user && (table[id].status == Pending || table[id].status == Approved);
      if ok { table := table[id := table[id].(status := Cancelled)]; }
    }

    method ApproveReservation(id: string, note: string) returns (ok: bool)
      modifies this
      ensures Abs() == Handle(old(Abs()), parse, Approve(id, note))
      ensures ok ==> id in table && table[id].status == Approved
    {
      if !NoteFits(note) { return false; }
      if id !in table || table[id].status != Pending { return false; }
      if Conflict(table - {id}, table[id].start, table[id].end) { return false; }
      table := table[id := table[id].(status := Approved)];
      ok := true;
    }

    method RejectReservation(id: string, note: string) returns (ok: bool)
      modifies this
      ensures Abs() == Handle(old(Abs()), parse, Reject(id, note))
      ensures ok <==> NoteFits(note) && id in old(table) && old(table)[id].status == Pending
    {
      if !NoteFits(note) { return false; }
      ok := id in table && table[id].status == Pending;
      if ok { table := table[id := table[id].(status := Rejected)]; }
    }

    method ForceActivateReservation(id: string) returns (ok: bool)
      modifies this
      ensures Abs() == Handle(old(Abs()), parse, ForceActivate(id))
      ensures ok <==> old(cache).None? && id in old(table) && old(table)[id].status == Approved
    {
      if cache.Some? { return false; }
      if id !in table || table[id].status != Approved { return false; }
      var row := table[id];
      table := table[id := row.(status := Active)];
      cache := Some(ActiveReservation(id, row.user, row.end));
      ok := true;
    }

    method ForceDeactivateReservation(id: string) returns (ok: bool)
      modifies this
      ensures Abs() == Handle(old(Abs()), parse, ForceDeactivate(id))
      ensures ok <==> id in old(table) && old(table)[id].status == Active
    {
      ok := id in table && table[id].status == Active;
      if ok {
        table := table[id := table[id].(status := Completed)];
        cache := None;
      }
    }

    method DeleteReservation(id: string) returns (ok: bool)
      modifies this
      ensures Abs() == Handle(old(Abs()), parse, AdminDelete(id))
      ensures ok <==> id in old(table) && old(table)[id].status != Active
    {
      ok := id in table && table[id].status != Active;
      if ok { table := table - {id}; }
    }

    /** The query for the earliest approved reservation whose start has come. */
    method QueryDue(now: string) returns (due: Option<string>)
      ensures IsDue(table, now, due)
    {
      due := None;
      var unseen := table.Keys;
      while unseen != {}
        invariant unseen <= table.Keys
        invariant due.None? ==> forall id :: id in table.Keys - unseen ==> !Due(table[id], now)
        invariant due.Some? ==> due.value in table && Due(table[due.value], now)
        invariant due.Some? ==> forall id :: id in table.Keys - unseen && Due(table[id], now) ==>
          TextAtMost(table[due.value].start, table[id].start)
        decreases unseen
      {
        var id :| id in unseen;
        if Due(table[id], now) && (due.None? || TextLess(table[id].start, table[due.value].start)) {
          EarlierStaysEarliest(table, now, due, id, table.Keys - unseen);
          TextOrderIsStrict(table[id].start, table[id].start);
          due := Some(id);
        }
        unseen := unseen - {id};
      }
    }

    method TickReservations(now: string) returns (due: Option<string>)
      modifies this
      ensures Abs() == Handle(old(Abs()), parse, Tick(now, due))
      ensures QueriesAnswer(old(Abs()), Tick(now, due))
    {
      var rowsAffected := exists id :: id in table && Expire(table[id], now) != table[id];
      table := map id | id in table :: Expire(table[id], now);
      if rowsAffected { cache := None; }
      assert Abs() == Expired(old(Abs()), now);
      due := QueryDue(now);
      if cache.None? && due.Some? {
        var row := table[due.value];
        table := table[due.value := row.(status := Active)];
        cache := Some(ActiveReservation(due.value, row.user, row.end));
      }
      table := map id | id in table :: Drop(table[id], now);
    }

    /** A new process starts with an empty cache and looks for the active row. */
    method RecoverActiveReservation() returns (found: Option<string>)
      modifies this
      ensures Abs() == Handle(old(Abs()), parse, Restart(found))
      ensures QueriesAnswer(old(Abs()), Restart(found))
    {
      cache, found := None, None;
      if exists id :: id in table && table[id].status == Active {
        var id :| id in table && table[id].status == Active;
        found := Some(id);
        cache := Some(ActiveReservation(id, table[id].user, table[id].end));
      }
    }
  }

  /** A due row that starts before the earliest so far starts no later than every row seen. */
  lemma EarlierStaysEarliest(table: map<string, Row>, now: string, due: Option<string>, id: string, seen: set<string>)
    requires id in table && seen <= table.Keys
    requires due.None? ==> forall other :: other in seen ==> !Due(table[other], now)
    requires due.Some? ==> due.value in table && TextLess(table[id].start, table[due.value].start)
    requires due.Some? ==> forall other :: other in seen && Due(table[other], now) ==>
      TextAtMost(table[due.value].start, table[other].start)
    ensures forall other :: other in seen && Due(table[other], now) ==> TextAtMost(table[id].start, table[other].start)
  {
    forall other | other in seen && Due(table[other], now) ensures TextAtMost(table[id].start, table[other].start) {
      TextOrderIsStrict(table[id].start, table[due.value].start);
      TextAtMostTransitive(table[id].start, table[due.value].start, table[other].start);
    }
  }

  // ---- Invariants ---------------------------------------------------------------------------------

  predicate Disjoint(a: Row, b: Row) { !TextOverlap(a.start, a.end, b.start, b.end) }

  /** Booked intervals do not overlap. */
  ghost predicate NoDoubleBooking(table: map<string, Row>) {
    forall a, b :: a in table && b in table && a != b && Booked(table[a]) && Booked(table[b]) ==> Disjoint(table[a], table[b])
  }

  /** Every row's times parse, start before end. */
  ghost predicate TimesOrdered(table: map<string, Row>, parse: string -> Option<Time>) {
    forall id :: id in table ==>
      && parse(table[id].start).Some? && parse(table[id].end).Some?
      && Seconds(parse(table[id].start).value) < Seconds(parse(table[id].end).value)
  }

  /** The cache names the one active row, or there is none. */
  ghost predicate CacheAgrees(s: State) {
    && (s.cache.Some? ==>
         s.cache.value.id in s.table && s.table[s.cache.value.id].status == Active
         && s.cache.value == AsActive(s.cache.value.id, s.table[s.cache.value.id]))
    && (forall id :: id in s.table && s.table[id].status == Active ==> s.cache.Some? && s.cache.value.id == id)
  }

  ghost predicate Safe(s: State, parse: string -> Option<Time>) {
    NoDoubleBooking(s.table) && TimesOrdered(s.table, parse) && CacheAgrees(s)
  }

  /** The moves of the reservation state machine. */
  predicate Move(a: Status, b: Status) {
    || (a == Pending && (b == Approved || b == Rejected || b == Cancelled))
    || (a == Approved && (b == Active || b == Cancelled))
    || (a == Active && b == Completed)
  }

  /** A row keeps its owner and times, and its status stays or makes one move. */
  predicate Evolves(r: Row, r': Row) {
    r' == r.(status := r'.status) && (r'.status == r.status || Move(r.status, r'.status))
  }

  /** Every row of the new table was there before and makes at most one move. */
  ghost predicate Forward(t: map<string, Row>, t': map<string, Row>) {
    forall id :: id in t' ==> id in t && Evolves(t[id], t'[id])
  }

  /** No row becomes booked: bookings stay disjoint. */
  lemma FewerBookings(t: map<string, Row>, t': map<string, Row>)
    requires NoDoubleBooking(t) && Forward(t, t')
    requires forall id :: id in t' && Booked(t'[id]) ==> Booked(t[id])
    ensures NoDoubleBooking(t')
  {
  }

  lemma TimesStayOrdered(t: map<string, Row>, t': map<string, Row>, parse: string -> Option<Time>)
    requires TimesOrdered(t, parse) && Forward(t, t')
    ensures TimesOrdered(t', parse)
  {
  }

  lemma ApprovalKeepsDisjoint(s: State, id: string)
    requires NoDoubleBooking(s.table) && id in s.table && !Conflict(s.table - {id}, s.table[id].start, s.table[id].end)
    ensures NoDoubleBooking(SetStatus(s, id, Approved).table)
  {
    var t, t' := s.table, SetStatus(s, id, Approved).table;
    forall a, b | a in t' && b in t' && a != b && Booked(t'[a]) && Booked(t'[b]) ensures Disjoint(t'[a], t'[b]) {
      if a == id { NoConflict(s.table - {id}, b, t[id].start, t[id].end); }
      if b == id { NoConflict(s.table - {id}, a, t[id].start, t[id].end); }
    }
  }

  lemma NoConflict(t: map<string, Row>, id: string, start: string, end: string)
    requires !Conflict(t, start, end) && id in t && Booked(t[id])
    ensures !TextOverlap(t[id].start, t[id].end, start, end) && !TextOverlap(start, end, t[id].start, t[id].end)
  {
    assert !ConflictsWith(t[id], start, end);
  }

  lemma ExpireKeepsCache(s: State, now: string)
    requires CacheAgrees(s)
    ensures CacheAgrees(Expired(s, now))
  {
    var s1 := Expired(s, now);
    forall id | id in s1.table && s1.table[id].status == Active ensures s1.cache.Some? && s1.cache.value.id == id {
      assert s.cache.Some? && s.cache.value.id == id;
      forall other | other in s.table ensures Expire(s.table[other], now) == s.table[other] {}
    }
    if s1.cache.Some? {
      var id := s.cache.value.id;
      assert Expire(s.table[id], now) == s.table[id];
    }
  }

  lemma ExpireKeepsSafe(s: State, parse: string -> Option<Time>, now: string)
    requires Safe(s, parse)
    ensures Safe(Expired(s, now), parse) && Forward(s.table, Expired(s, now).table)
  {
    var s1 := Expired(s, now);
    ExpireMovesForward(s.table, now);
    FewerBookings(s.table, s1.table);
    TimesStayOrdered(s.table, s1.table, parse);
    ExpireKeepsCache(s, now);
  }

  lemma ExpireMovesForward(t: map<string, Row>, now: string)
    ensures Forward(t, ExpireAll(t, now)) && ExpireAll(t, now).Keys == t.Keys
    ensures forall id :: id in t && Booked(ExpireAll(t, now)[id]) ==> Booked(t[id])
  {
  }

  lemma DropMovesForward(t: map<string, Row>, now: string)
    ensures Forward(t, DropAll(t, now)) && DropAll(t, now).Keys == t.Keys
    ensures forall id :: id in t && Booked(DropAll(t, now)[id]) ==> Booked(t[id])
    ensures forall id :: id in t && (t[id].status == Active || DropAll(t, now)[id].status == Active) ==> DropAll(t, now)[id] == t[id]
  {
  }

  lemma ActivateKeepsSafe(s: State, parse: string -> Option<Time>, id: string)
    requires Safe(s, parse) && s.cache.None? && id in s.table && s.table[id].status == Approved
    ensures Safe(Activated(s, id), parse) && Forward(s.table, Activated(s, id).table)
  {
    FewerBookings(s.table, Activated(s, id).table);
    TimesStayOrdered(s.table, Activated(s, id).table, parse);
  }

  lemma DropKeepsSafe(s: State, parse: string -> Option<Time>, now: string)
    requires Safe(s, parse)
    ensures Safe(s.(table := DropAll(s.table, now)), parse)
  {
    var t' := DropAll(s.table, now);
    DropMovesForward(s.table, now);
    FewerBookings(s.table, t');
    TimesStayOrdered(s.table, t', parse);
    assert CacheAgrees(State(t', s.cache));
  }

  lemma TickKeepsSafe(s: State, parse: string -> Option<Time>, now: string, due: Option<string>)
    requires Safe(s, parse) && IsDue(Expired(s, now).table, now, due)
    ensures Safe(TickTo(s, now, due), parse)
  {
    ExpireKeepsSafe(s, parse, now);
    var s1 := Expired(s, now);
    if s1.cache.None? && due.Some? { ActivateKeepsSafe(s1, parse, due.value); }
    var s2 := if s1.cache.None? && due.Some? && due.value in s1.table then Activated(s1, due.value) else s1;
    DropKeepsSafe(s2, parse, now);
  }

  lemma NewRowKeepsSafe(s: State, parse: string -> Option<Time>, id: string, r: Row)
    requires Safe(s, parse) && id !in s.table && r.status == Pending
    requires parse(r.start).Some? && parse(r.end).Some? && Seconds(parse(r.start).value) < Seconds(parse(r.end).value)
    ensures Safe(s.(table := s.table[id := r]), parse)
  {
    var t' := s.table[id := r];
    assert forall a :: a in t' && a != id ==> t'[a] == s.table[a];
    assert NoDoubleBooking(t');
  }

  lemma CreateKeepsSafe(s: State, parse: string -> Option<Time>, req: Request)
    requires Safe(s, parse) && req.Create?
    ensures Safe(Handle(s, parse, req), parse)
  {
    if ValidRequest(parse, req.start, req.end, req.clock) && req.id !in s.table {
      NewRowKeepsSafe(s, parse, req.id, Row(req.user, Pending, req.start, req.end));
    }
  }

  /** The requests that touch one row at most, and none into the booked statuses. */
  predicate Simple(req: Request) {
    req.CancelOwn? || req.Reject? || req.ForceDeactivate? || req.AdminDelete? || req.Restart?
  }

  lemma SimpleMovesForward(s: State, parse: string -> Option<Time>, req: Request)
    requires Simple(req)
    ensures var t' := Handle(s, parse, req).table;
      Forward(s.table, t') && forall id :: id in t' && Booked(t'[id]) ==> Booked(s.table[id])
  {
  }

  lemma SimpleKeepsCache(s: State, parse: string -> Option<Time>, req: Request)
    requires CacheAgrees(s) && QueriesAnswer(s, req) && Simple(req)
    ensures CacheAgrees(Handle(s, parse, req))
  {
  }

  lemma SimpleKeepsSafe(s: State, parse: string -> Option<Time>, req: Request)
    requires Safe(s, parse) && QueriesAnswer(s, req) && Simple(req)
    ensures Safe(Handle(s, parse, req), parse)
  {
    SimpleMovesForward(s, parse, req);
    FewerBookings(s.table, Handle(s, parse, req).table);
    TimesStayOrdered(s.table, Handle(s, parse, req).table, parse);
    SimpleKeepsCache(s, parse, req);
  }

  lemma ApproveKeepsSafe(s: State, parse: string -> Option<Time>, id: string, note: string)
    requires Safe(s, parse)
    ensures Safe(Handle(s, parse, Approve(id, note)), parse)
  {
    var s' := Handle(s, parse, Approve(id, note));
    if s' != s {
      ApprovalKeepsDisjoint(s, id);
      TimesStayOrdered(s.table, s'.table, parse);
    }
  }

  /** Every handler, the tick and a restart keep the three invariants. */
  lemma HandlerKeepsSafe(s: State, parse: string -> Option<Time>, req: Request)
    requires Safe(s, parse) && QueriesAnswer(s, req)
    ensures Safe(Handle(s, parse, req), parse)
  {
    match req
    case Create(_, _, _, _, _, _) => CreateKeepsSafe(s, parse, req);
    case Approve(id, note) => ApproveKeepsSafe(s, parse, id, note);
    case ForceActivate(id) =>
      if s.cache.None? && id in s.table && s.table[id].status == Approved { ActivateKeepsSafe(s, parse, id); }
    case Tick(now, due) => TickKeepsSafe(s, parse, now, due);
    case _ => SimpleKeepsSafe(s, parse, req);
  }

  // ---- Runs -----------------------------------------------------------------------------------------

  function After(parse: string -> Option<Time>, reqs: seq<Request>): State {
    if reqs == [] then State(map[], None) else Handle(After(parse, reqs[..|reqs| - 1]), parse, reqs[|reqs| - 1])
  }

  ghost predicate QueriesAnswerThroughout(parse: string -> Option<Time>, reqs: seq<Request>) {
    forall i :: 0 <= i < |reqs| ==> QueriesAnswer(After(parse, reqs[..i]), reqs[i])
  }

  lemma ThroughoutPrefix(parse: string -> Option<Time>, reqs: seq<Request>)
    requires reqs != [] && QueriesAnswerThroughout(parse, reqs)
    ensures QueriesAnswerThroughout(parse, reqs[..|reqs| - 1])
  {
    var front := reqs[..|reqs| - 1];
    forall i | 0 <= i < |front| ensures QueriesAnswer(After(parse, front[..i]), front[i]) {
      assert front[..i] == reqs[..i];
    }
  }

  /** In every reachable state bookings are disjoint, times ordered, and the cache agrees with the table. */
  lemma {:induction false} ReachableIsSafe(parse: string -> Option<Time>, reqs: seq<Request>)
    requires QueriesAnswerThroughout(parse, reqs)
    ensures Safe(After(parse, reqs), parse)
  {
    if reqs != [] {
      ThroughoutPrefix(parse, reqs);
      ReachableIsSafe(parse, reqs[..|reqs| - 1]);
      HandlerKeepsSafe(After(parse, reqs[..|reqs| - 1]), parse, reqs[|reqs| - 1]);
    }
  }

  /** Whether this tick activates the due row `id`. */
  predicate Activates(s: State, now: string, due: Option<string>, id: string) {
    Expired(s, now).cache.None? && due == Some(id) && id in s.table
  }

  lemma TickRow(s: State, now: string, due: Option<string>, id: string)
    requires id in s.table
    ensures id in TickTo(s, now, due).table
    ensures TickTo(s, now, due).table[id] ==
      var r := Expire(s.table[id], now); Drop(if Activates(s, now, due, id) then r.(status := Active) else r, now)
  {
    var s1 := Expired(s, now);
    var s2 := if s1.cache.None? && due.Some? && due.value in s1.table then Activated(s1, due.value) else s1;
    assert TickTo(s, now, due).table == DropAll(s2.table, now);
  }

  /** After a tick no pending request has started, and no row but the one just activated is active past its end. */
  lemma TickLeavesNothingOver(s: State, now: string, due: Option<string>, id: string)
    requires id in s.table && id in TickTo(s, now, due).table
    ensures var r := TickTo(s, now, due).table[id];
      && (r.status == Pending ==> TextLess(now, r.start))
      && (r.status == Active ==> TextLess(now, r.end) || Activates(s, now, due, id))
  {
    TickRow(s, now, due, id);
  }

  lemma TickKeepsCache(s: State, now: string, due: Option<string>)
    requires CacheAgrees(s) && IsDue(Expired(s, now).table, now, due)
    ensures CacheAgrees(TickTo(s, now, due))
  {
    ExpireKeepsCache(s, now);
    var s1 := Expired(s, now);
    var s2 := if s1.cache.None? && due.Some? && due.value in s1.table then Activated(s1, due.value) else s1;
    assert CacheAgrees(s2);
    DropMovesForward(s2.table, now);
    assert CacheAgrees(s2.(table := DropAll(s2.table, now)));
  }

  /**
   * After a tick an approved row is left waiting past its start only while the cache holds a reservation; when the
   * cache agreed with the table before the tick, as it does in every reachable state, that is another, active row.
   */
  lemma TickActivatesWhatIsDue(s: State, now: string, due: Option<string>, id: string)
    requires IsDue(Expired(s, now).table, now, due) && id in s.table && id in TickTo(s, now, due).table
    ensures var s' := TickTo(s, now, due);
      s'.table[id].status == Approved && TextAtMost(s'.table[id].start, now) ==>
        && s'.cache.Some?
        && (CacheAgrees(s) || CacheAgrees(s') ==>
              var other := s'.cache.value.id;
              other != id && other in s'.table && s'.table[other].status == Active)
  {
    TickRow(s, now, due, id);
    assert Expired(s, now).table[id] == Expire(s.table[id], now);
    if CacheAgrees(s) {
      TickKeepsCache(s, now, due);
    }
  }

  // ---- Who may run inference ------------------------------------------------------------------------

  /** The check in front of every inference request. */
  predicate Admitted(cache: Option<ActiveReservation>, user: string, internal: bool) {
    internal || cache.None? || cache.value.user == user
  }

  /** A non-internal request is admitted exactly when no active reservation belongs to someone else. */
  lemma AdmissionFollowsTable(parse: string -> Option<Time>, reqs: seq<Request>, user: string)
    requires QueriesAnswerThroughout(parse, reqs)
    ensures var s := After(parse, reqs);
      Admitted(s.cache, user, false) <==> forall id :: id in s.table && s.table[id].status == Active ==> s.table[id].user == user
  {
    ReachableIsSafe(parse, reqs);
  }

  // ---- Status moves -----------------------------------------------------------------------------------

  /** How many moves a row has left at most. */
  function Rank(r: Row): nat {
    match r.status
    case Pending => 3
    case Approved => 2
    case Active => 1
    case _ => 0
  }

  /** One tick moves a row at most once. */
  lemma TickEvolves(s: State, now: string, due: Option<string>, id: string)
    requires IsDue(Expired(s, now).table, now, due) && id in s.table
    ensures id in TickTo(s, now, due).table && Evolves(s.table[id], TickTo(s, now, due).table[id])
  {
    var s1 := Expired(s, now);
    ExpireMovesForward(s.table, now);
    var s2 := if s1.cache.None? && due.Some? && due.value in s1.table then Activated(s1, due.value) else s1;
    DropMovesForward(s2.table, now);
  }

  /** Every row that survives a request keeps its owner and times and makes at most one move. */
  lemma StatusesOnlyMoveForward(s: State, parse: string -> Option<Time>, req: Request, id: string)
    requires QueriesAnswer(s, req)
    requires id in s.table && id in Handle(s, parse, req).table
    ensures Evolves(s.table[id], Handle(s, parse, req).table[id])
  {
    if req.Tick? { TickEvolves(s, req.now, req.due, id); }
  }

  /** Rows that changed status under a request. */
  ghost function Changed(s: State, s': State): map<string, nat> {
    map id | id in s.table :: if id in s'.table && s'.table[id].status != s.table[id].status then 1 else 0
  }

  ghost function Ranks(table: map<string, Row>): map<string, nat> {
    map id | id in table :: Rank(table[id])
  }

  /** Status changes over a run. */
  ghost function Changes(parse: string -> Option<Time>, reqs: seq<Request>): nat {
    if reqs == [] then 0
    else
      var front := reqs[..|reqs| - 1];
      Changes(parse, front) + Sum(Changed(After(parse, front), After(parse, reqs)))
  }

  /** Rows created over a run. */
  function Created(parse: string -> Option<Time>, reqs: seq<Request>): nat {
    if reqs == [] then 0
    else
      var front := reqs[..|reqs| - 1];
      Created(parse, front) + |After(parse, reqs).table.Keys - After(parse, front).table.Keys|
  }

  /** Pointwise bounds carry over to sums. */
  lemma {:induction false} SumBound(changed: map<string, nat>, after: map<string, nat>, before: map<string, nat>)
    requires changed.Keys == before.Keys && after.Keys <= before.Keys
    requires forall id :: id in before ==> changed[id] + (if id in after then after[id] else 0) <= before[id]
    ensures Sum(changed) + Sum(after) <= Sum(before)
    decreases |before|
  {
    if before != map[] {
      var id :| id in before;
      SumPick(before, id);
      SumPick(changed, id);
      if id in after { SumPick(after, id); } else { assert after - {id} == after; }
      SumBound(changed - {id}, after - {id}, before - {id});
    } else {
      assert changed == map[] && after == map[];
    }
  }

  /** Only a creation adds a row. */
  lemma KeysGrowByCreateOnly(s: State, parse: string -> Option<Time>, req: Request)
    requires QueriesAnswer(s, req)
    ensures var s' := Handle(s, parse, req);
      || s'.table.Keys <= s.table.Keys
      || (req.Create? && ValidRequest(parse, req.start, req.end, req.clock) && req.id !in s.table
          && s' == s.(table := s.table[req.id := Row(req.user, Pending, req.start, req.end)]))
  {
  }

  lemma MovesPay(s: State, s': State)
    requires s'.table.Keys <= s.table.Keys
    requires forall id :: id in s'.table ==> Evolves(s.table[id], s'.table[id])
    ensures Sum(Changed(s, s')) + Sum(Ranks(s'.table)) <= Sum(Ranks(s.table))
  {
    SumBound(Changed(s, s'), Ranks(s'.table), Ranks(s.table));
  }

  /** A status change costs a row one of its moves, and a new row comes with three. */
  lemma RequestPaysForChanges(s: State, parse: string -> Option<Time>, req: Request)
    requires QueriesAnswer(s, req)
    ensures var s' := Handle(s, parse, req);
      Sum(Changed(s, s')) + Sum(Ranks(s'.table)) <= Sum(Ranks(s.table)) + 3 * |s'.table.Keys - s.table.Keys|
  {
    var s' := Handle(s, parse, req);
    KeysGrowByCreateOnly(s, parse, req);
    if s'.table.Keys <= s.table.Keys {
      forall id | id in s'.table ensures Evolves(s.table[id], s'.table[id]) { StatusesOnlyMoveForward(s, parse, req, id); }
      MovesPay(s, s');
    } else {
      NewRowPays(s, s', req.id, Row(req.user, Pending, req.start, req.end));
    }
  }

  lemma NewRowPays(s: State, s': State, id: string, r: Row)
    requires id !in s.table && r.status == Pending && s' == s.(table := s.table[id := r])
    ensures Sum(Changed(s, s')) + Sum(Ranks(s'.table)) <= Sum(Ranks(s.table)) + 3 * |s'.table.Keys - s.table.Keys|
  {
    assert s'.table.Keys - s.table.Keys == {id};
    assert Ranks(s'.table) == Ranks(s.table)[id := 3];
    SumUpdate(Ranks(s.table), id, 3);
    assert Ranks(s.table) - {id} == Ranks(s.table);
    AllZero(Changed(s, s'));
  }

  lemma {:induction false} AllZero(m: map<string, nat>)
    requires forall id :: id in m ==> m[id] == 0
    ensures Sum(m) == 0
    decreases |m|
  {
    if m != map[] {
      var id :| id in m;
      SumPick(m, id);
      AllZero(m - {id});
    }
  }

  lemma {:induction false} ChangesPlusRanks(parse: string -> Option<Time>, reqs: seq<Request>)
    requires QueriesAnswerThroughout(parse, reqs)
    ensures Changes(parse, reqs) + Sum(Ranks(After(parse, reqs).table)) <= 3 * Created(parse, reqs)
  {
    if reqs == [] {
      assert Ranks(After(parse, reqs).table) == map[];
    } else {
      var front := reqs[..|reqs| - 1];
      ThroughoutPrefix(parse, reqs);
      ChangesPlusRanks(parse, front);
      ReachableIsSafe(parse, front);
      RequestPaysForChanges(After(parse, front), parse, reqs[|reqs| - 1]);
    }
  }

  /** Over any run there are at most three status changes per row created. */
  lemma AtMostThreeChangesPerRow(parse: string -> Option<Time>, reqs: seq<Request>)
    requires QueriesAnswerThroughout(parse, reqs)
    ensures Changes(parse, reqs) <= 3 * Created(parse, reqs)
  {
    ChangesPlusRanks(parse, reqs);
  }
}
