/**
 * Container lifecycle against crash recovery. Every handler is a list of statements executed one
 * at a time; containers die at any moment, and the proxy may crash between any two statements.
 */
module Lifecycle {
  import opened Wrappers

  // ---- One model ------------------------------------------------------------------------------

  datatype Stmt =
    | PauseSupervision
    | Launch
    | PutSecret(slots: nat)
    | RegisterGate(slots: nat)
    | SetLoaded
    | ArmSupervision
    /** `required`: a failure of Docker aborts the handler. */
    | StopContainer(required: bool)
    | DropGate
    | DropSupervisor
    | DropSecret
    | ClearLoaded
    | DropRows

  /** Rows in the database (`registered`, `loaded`, `secret`), memory of the proxy (`gate`, `supervised`, `todo`: the
      rest of the handler at work) and the container (`alive`). */
  datatype Model = Model(
    registered: bool, loaded: bool, secret: Option<int>,
    gate: Option<nat>, supervised: bool, todo: seq<Stmt>,
    alive: bool)

  function AtLeastOne(slots: int): nat { if slots < 1 then 1 else slots }

  function Exec(m: Model, stmt: Stmt): Model {
    match stmt
    case PauseSupervision => m.(supervised := true)
    case Launch => m.(alive := true)
    case PutSecret(n) => m.(secret := Some(n))
    case RegisterGate(n) => m.(gate := Some(n))
    case SetLoaded => m.(loaded := m.registered)
    case ArmSupervision => m.(supervised := true)
    case StopContainer(_) => m.(alive := false)
    case DropGate => m.(gate := None)
    case DropSupervisor => m.(supervised := false)
    case DropSecret => m.(secret := None)
    case ClearLoaded => m.(loaded := false)
    case DropRows => m.(registered := false, loaded := false, secret := None)
  }

  function ExecAll(m: Model, stmts: seq<Stmt>): Model
    decreases |stmts|
  {
    if stmts == [] then m else ExecAll(Exec(m, stmts[0]), stmts[1..])
  }

  // ---- Handlers ---------------------------------------------------------------------------------

  function Opening(slots: nat): seq<Stmt> { [RegisterGate(slots), SetLoaded, ArmSupervision] }

  /** Bookkeeping after a container was started. */
  function Bookkeeping(slots: nat): seq<Stmt> { [PutSecret(slots)] + Opening(slots) }

  /** Cleanup after a container was stopped. */
  function Cleanup(): seq<Stmt> { [DropGate, DropSupervisor, DropSecret, ClearLoaded] }

  /** Reconciliation of a backend found dead. */
  function Reconciliation(): seq<Stmt> { [ClearLoaded, DropGate] }

  datatype Job =
    | Start(parallel: Option<nat>)
    | Stop
    | Delete
    /** The supervisor saw a crash; `restart`: the backend had served, so it is launched again. */
    | Crashed(restart: bool)

  predicate MayBegin(m: Model, job: Job) {
    match job
    case Start(_) => m.registered
    case Stop => true
    case Delete => m.registered
    case Crashed(_) => m.supervised
  }

  function Program(m: Model, job: Job): seq<Stmt> {
    match job
    case Start(parallel) => [PauseSupervision, Launch] + Bookkeeping(AtLeastOne(parallel.GetOr(1)))
    case Stop => [StopContainer(true)] + Cleanup()
    case Delete => (if m.loaded then [StopContainer(false)] + Cleanup() else []) + [DropRows]
    case Crashed(restart) =>
      Reconciliation()
      + (if restart && m.registered && m.secret.Some? then [Launch] + Opening(AtLeastOne(m.secret.value)) else [])
  }

  predicate MayFail(stmt: Stmt) { stmt.Launch? || stmt.StopContainer? }

  /** Docker reports an error: the handler gives up, except that a deletion carries on. */
  function Fail(m: Model): Model
    requires m.todo != []
  {
    m.(todo := if m.todo[0] == StopContainer(false) then m.todo[1..] else [])
  }

  function Next(m: Model): Model
    requires m.todo != []
  {
    Exec(m, m.todo[0]).(todo := m.todo[1..])
  }

  // ---- The proxy ------------------------------------------------------------------------------------

  datatype Row = Row(id: string, slots: int)

  datatype Phase = Down | Booting(rows: seq<Row>, alive: set<string>) | Up

  datatype State = State(models: map<string, Model>, phase: Phase)

  datatype Event =
    | AddModel(id: string)
    | Begin(id: string, job: Job)
    | Step(id: string)
    | DockerFails(id: string)
    | Die(id: string)
    | Crash
    /** A new process reads the rows of loaded models with a secret, in some order. */
    | Boot(rows: seq<Row>)
    /** Recovery asks Docker about the next row; no answer counts as dead. */
    | Probe(answered: bool)
    | Serve

  predicate Quiet(s: State) { forall id :: id in s.models ==> s.models[id].todo == [] }

  function Put(s: State, id: string, m: Model): State { s.(models := s.models[id := m]) }

  function Forget(m: Model): Model { m.(gate := None, supervised := false, todo := []) }

  /** The result of the recovery query: each loaded model with a secret once. */
  predicate Answers(models: map<string, Model>, rows: seq<Row>) {
    && (forall i :: 0 <= i < |rows| ==>
         rows[i].id in models && models[rows[i].id].loaded && models[rows[i].id].secret == Some(rows[i].slots))
    && (forall i, j :: 0 <= i < j < |rows| ==> rows[i].id != rows[j].id)
    && (forall id :: id in models && models[id].loaded && models[id].secret.Some? ==> IsPending(rows, id))
  }

  predicate IsPending(rows: seq<Row>, id: string) { exists i :: 0 <= i < |rows| && rows[i].id == id }

  function RecoveryOf(slots: int, found: bool): seq<Stmt> {
    if found then [RegisterGate(AtLeastOne(slots))] else Reconciliation()
  }

  function Handle(s: State, e: Event): State {
    match e
    case AddModel(id) =>
      if s.phase.Up? && id !in s.models then Put(s, id, Model(true, false, None, None, false, [], false)) else s
    case Begin(id, job) =>
      if s.phase.Up? && id in s.models && s.models[id].todo == [] && MayBegin(s.models[id], job)
      then Put(s, id, s.models[id].(todo := Program(s.models[id], job))) else s
    case Step(id) =>
      if id in s.models && s.models[id].todo != [] then Put(s, id, Next(s.models[id])) else s
    case DockerFails(id) =>
      if id in s.models && s.models[id].todo != [] && MayFail(s.models[id].todo[0]) then Put(s, id, Fail(s.models[id])) else s
    case Die(id) =>
      if id in s.models then Put(s, id, s.models[id].(alive := false)) else s
    case Crash => State(map id | id in s.models :: Forget(s.models[id]), Down)
    case Boot(rows) =>
      if s.phase.Down? && Answers(s.models, rows) then s.(phase := Booting(rows, {})) else s
    case Probe(answered) =>
      if s.phase.Booting? && s.phase.rows != [] && Quiet(s) && s.phase.rows[0].id in s.models then
        var row := s.phase.rows[0];
        var found := answered && s.models[row.id].alive;
        Put(s, row.id, s.models[row.id].(todo := RecoveryOf(row.slots, found)))
          .(phase := Booting(s.phase.rows[1..], if found then s.phase.alive + {row.id} else s.phase.alive))
      else s
    case Serve =>
      if s.phase.Booting? && s.phase.rows == [] && Quiet(s)
      then State(map id | id in s.models :: s.models[id].(supervised := id in s.phase.alive), Up) else s
  }

  function After(s0: State, run: seq<Event>): State {
    if run == [] then s0 else Handle(After(s0, run[..|run| - 1]), run[|run| - 1])
  }

  // ---- What every statement keeps -------------------------------------------------------------------

  /** Secrets and loaded flags hang on a model row. */
  predicate DbOk(m: Model) { m.loaded || m.secret.Some? ==> m.registered }

  /** Loaded without a secret: invisible to the recovery query. */
  predicate Torn(m: Model) { m.loaded && m.secret.None? }

  /** A stop, or the stop of a deletion, has deleted the secret but not yet cleared `loaded`. */
  predicate MidStop(m: Model) { m.todo == Cleanup()[3..] || m.todo == Cleanup()[3..] + [DropRows] }

  /** Between handlers: a gate exactly for the loaded models with a secret, of the persisted size, and,
      once the supervisor runs, only for supervised models. */
  predicate Consistent(m: Model, up: bool) {
    && (m.gate.Some? <==> m.loaded && m.secret.Some?)
    && (m.gate.Some? ==> m.gate.value == AtLeastOne(m.secret.value) && (up ==> m.supervised))
  }

  /** The rest of the handler may run, fail or be cut anywhere. */
  predicate Fits(m: Model, up: bool)
    decreases |m.todo|
  {
    && DbOk(m)
    && (MidStop(m) ==> m.secret.None?)
    && (m.todo == [] ==> Consistent(m, up))
    && (m.todo != [] ==>
         && Fits(Next(m), up)
         && (MayFail(m.todo[0]) ==> m.todo[0] == StopContainer(false) || Consistent(m, up))
         && (Torn(Next(m)) ==> Torn(m) || MidStop(Next(m))))
  }

  lemma NextIgnoresAlive(m: Model, alive: bool)
    requires m.todo != []
    ensures Next(m.(alive := alive)) == Next(m).(alive := Next(m.(alive := alive)).alive)
  {
    ExecIgnoresAlive(m, alive, m.todo[0]);
  }

  lemma ExecIgnoresAlive(m: Model, alive: bool, stmt: Stmt)
    ensures Exec(m.(alive := alive), stmt) == Exec(m, stmt).(alive := Exec(m.(alive := alive), stmt).alive)
  {
    match stmt
    case PauseSupervision =>
    case Launch =>
    case PutSecret(_) =>
    case RegisterGate(_) =>
    case SetLoaded =>
    case ArmSupervision =>
    case StopContainer(_) =>
    case DropGate =>
    case DropSupervisor =>
    case DropSecret =>
    case ClearLoaded =>
    case DropRows =>
  }

  /** The next statement alone, or with the one after it, tells that no stop is being finished. */
  predicate ElsewhereThanMidStop(todo: seq<Stmt>) {
    todo != [] && (todo[0] != ClearLoaded || (|todo| > 1 && todo[1] == DropGate))
  }

  lemma NotMidStop(m: Model)
    requires ElsewhereThanMidStop(m.todo)
    ensures !MidStop(m)
  {
    assert Cleanup()[3..] == [ClearLoaded] && Cleanup()[3..] + [DropRows] == [ClearLoaded, DropRows];
  }

  lemma FitsUnfolds(m: Model, up: bool)
    requires m.todo != [] && DbOk(m) && (ElsewhereThanMidStop(m.todo) || m.secret.None?) && Fits(Next(m), up)
    requires MayFail(m.todo[0]) ==> m.todo[0] == StopContainer(false) || Consistent(m, up)
    requires Torn(Next(m)) ==> Torn(m) || MidStop(Next(m))
    ensures Fits(m, up)
  {
    if ElsewhereThanMidStop(m.todo) { NotMidStop(m); }
  }

  lemma {:induction false} DeathFits(m: Model, up: bool, alive: bool)
    requires Fits(m, up)
    ensures Fits(m.(alive := alive), up)
    decreases |m.todo|
  {
    if m.todo != [] {
      NextIgnoresAlive(m, alive);
      DeathFits(Next(m), up, Next(m.(alive := alive)).alive);
    }
  }

  lemma FailFits(m: Model, up: bool)
    requires Fits(m, up) && m.todo != [] && MayFail(m.todo[0])
    ensures Fits(Fail(m), up)
  {
    if m.todo[0] == StopContainer(false) {
      DeathFits(Next(m), up, m.alive);
      assert Fail(m) == Next(m).(alive := m.alive);
    }
  }

  lemma DropSecretFits(m: Model, rest: seq<Stmt>)
    requires DbOk(m) && m.gate.None? && m.todo == Cleanup()[2..] + rest && (rest == [] || rest == [DropRows])
    ensures Fits(m, true)
  {
    var m1 := Next(m);
    assert m1 == m.(secret := None, todo := Cleanup()[3..] + rest);
    assert Cleanup()[3..] + [] == Cleanup()[3..];
    var m2 := Next(m1);
    assert m2 == m1.(loaded := false, todo := rest);
    if rest != [] {
      assert Next(m2) == m2.(registered := false, todo := []);
      FitsUnfolds(m2, true);
    }
    FitsUnfolds(m1, true);
    FitsUnfolds(m, true);
  }

  /** What a stop leaves to do once the container is gone. */
  lemma CleanupFits(m: Model, rest: seq<Stmt>)
    requires DbOk(m) && m.todo == Cleanup() + rest && (rest == [] || rest == [DropRows])
    ensures Fits(m, true)
  {
    var m1 := Next(m);
    assert m1 == m.(gate := None, todo := [DropSupervisor] + (Cleanup()[2..] + rest));
    var m2 := Next(m1);
    assert m2 == m1.(supervised := false, todo := Cleanup()[2..] + rest);
    DropSecretFits(m2, rest);
    FitsUnfolds(m1, true);
    FitsUnfolds(m, true);
  }

  /** From registering the gate on. */
  lemma OpeningFits(m: Model)
    requires DbOk(m) && m.supervised && m.secret.Some? && m.todo == Opening(AtLeastOne(m.secret.value))
    ensures Fits(m, true)
  {
    var slots := AtLeastOne(m.secret.value);
    var m1 := Next(m);
    assert m1 == m.(gate := Some(slots), todo := [SetLoaded, ArmSupervision]);
    var m2 := Next(m1);
    assert m2 == m1.(loaded := true, todo := [ArmSupervision]);
    assert Next(m2) == m2.(todo := []);
    FitsUnfolds(m2, true);
    FitsUnfolds(m1, true);
    FitsUnfolds(m, true);
  }

  lemma StartFits(m: Model, slots: nat)
    requires DbOk(m) && Consistent(m, true) && m.registered && slots >= 1
    requires m.todo == [PauseSupervision, Launch] + Bookkeeping(slots)
    ensures Fits(m, true)
  {
    var m1 := Next(m);
    assert m1 == m.(supervised := true, todo := [Launch] + Bookkeeping(slots));
    var m2 := Next(m1);
    assert m2 == m1.(alive := true, todo := Bookkeeping(slots));
    var m3 := Next(m2);
    assert m3 == m2.(secret := Some(slots), todo := Opening(slots));
    OpeningFits(m3);
    FitsUnfolds(m2, true);
    FitsUnfolds(m1, true);
    FitsUnfolds(m, true);
  }

  lemma CrashedFits(m: Model, rest: seq<Stmt>)
    requires DbOk(m) && m.supervised && m.todo == Reconciliation() + rest
    requires rest == [] || (m.secret.Some? && rest == [Launch] + Opening(AtLeastOne(m.secret.value)))
    ensures Fits(m, true)
  {
    var m1 := Next(m);
    assert m1 == m.(loaded := false, todo := [DropGate] + rest);
    var m2 := Next(m1);
    assert m2 == m1.(gate := None, todo := rest);
    if rest != [] {
      var m3 := Next(m2);
      assert m3 == m2.(alive := true, todo := Opening(AtLeastOne(m.secret.value)));
      OpeningFits(m3);
      FitsUnfolds(m2, true);
    }
    FitsUnfolds(m1, true);
    FitsUnfolds(m, true);
  }

  /** A handler that begins between handlers may run, fail or be cut anywhere. */
  lemma ProgramFits(m: Model, job: Job)
    requires DbOk(m) && Consistent(m, true) && MayBegin(m, job)
    ensures Fits(m.(todo := Program(m, job)), true)
  {
    var m0 := m.(todo := Program(m, job));
    match job
    case Start(parallel) => StartFits(m0, AtLeastOne(parallel.GetOr(1)));
    case Stop =>
      assert Next(m0).todo == Cleanup() == Cleanup() + [];
      CleanupFits(Next(m0), []);
    case Delete =>
      if m.loaded {
        assert m0.todo[1..] == Cleanup() + [DropRows];
        CleanupFits(Next(m0), [DropRows]);
      } else {
        assert m0.todo == [DropRows];
      }
    case Crashed(restart) => CrashedFits(m0, m0.todo[2..]);
  }

  // ---- The invariant ------------------------------------------------------------------------------

  /** During recovery, a model whose row was probed, or had no row. */
  predicate Settling(m: Model, found: bool) {
    && DbOk(m)
    && (|| (m.todo == [] && Consistent(m, false) && (found <==> m.gate.Some?))
        || (found && m.gate.None? && m.loaded && m.secret.Some? && m.todo == [RegisterGate(AtLeastOne(m.secret.value))])
        || (!found && m.gate.None? && ((m.todo == Reconciliation() && m.loaded && m.secret.Some?) || (m.todo == [DropGate] && !m.loaded))))
  }

  predicate PendingOk(m: Model, slots: int) {
    DbOk(m) && m.todo == [] && m.gate.None? && m.loaded && m.secret == Some(slots)
  }

  predicate DownOk(m: Model) { DbOk(m) && m.gate.None? && m.todo == [] }

  ghost predicate BootOk(models: map<string, Model>, rows: seq<Row>, alive: set<string>) {
    && (forall i :: 0 <= i < |rows| ==>
         rows[i].id in models && rows[i].id !in alive && PendingOk(models[rows[i].id], rows[i].slots))
    && (forall i, j :: 0 <= i < j < |rows| ==> rows[i].id != rows[j].id)
    && (forall id :: id in models && !IsPending(rows, id) ==> Settling(models[id], id in alive))
    && alive <= models.Keys
  }

  ghost predicate Inv(s: State) {
    match s.phase
    case Down => forall id :: id in s.models ==> DownOk(s.models[id])
    case Booting(rows, alive) => BootOk(s.models, rows, alive)
    case Up => forall id :: id in s.models ==> Fits(s.models[id], true)
  }

  lemma CrashKeepsInv(s: State)
    requires Inv(s)
    ensures Inv(Handle(s, Crash))
  {
    forall id | id in s.models ensures DbOk(s.models[id]) {
      if s.phase.Booting? && IsPending(s.phase.rows, id) {
        var i :| 0 <= i < |s.phase.rows| && s.phase.rows[i].id == id;
        assert PendingOk(s.models[s.phase.rows[i].id], s.phase.rows[i].slots);
      }
    }
  }

  lemma BootKeepsInv(s: State, rows: seq<Row>)
    requires Inv(s) && s.phase.Down? && Answers(s.models, rows)
    ensures Inv(Handle(s, Boot(rows)))
  {
  }

  lemma ProbeKeepsInv(s: State, answered: bool)
    requires Inv(s) && s.phase.Booting?
    ensures Inv(Handle(s, Probe(answered)))
  {
    var rows, alive := s.phase.rows, s.phase.alive;
    var s' := Handle(s, Probe(answered));
    if s' != s {
      var rest := rows[1..];
      forall id | id in s'.models && !IsPending(rest, id) && id != rows[0].id
        ensures Settling(s'.models[id], id in s'.phase.alive)
      {
        NotPendingBefore(rows, id);
      }
      assert PendingOk(s.models[rows[0].id], rows[0].slots);
      assert Settling(s'.models[rows[0].id], rows[0].id in s'.phase.alive);
    }
  }

  lemma NotPendingBefore(rows: seq<Row>, id: string)
    requires rows != [] && !IsPending(rows[1..], id) && rows[0].id != id
    ensures !IsPending(rows, id)
  {
    forall i | 0 <= i < |rows| ensures rows[i].id != id {
      if i > 0 { assert rows[i] == rows[1..][i - 1]; }
    }
  }

  lemma StepSettles(m: Model, found: bool)
    requires Settling(m, found) && m.todo != []
    ensures Settling(Next(m), found)
  {
  }

  lemma PendingStays(s: State, e: Event, i: nat)
    requires Inv(s) && s.phase.Booting? && (e.Step? || e.DockerFails? || e.Die?) && i < |s.phase.rows|
    ensures s.phase.rows[i].id in Handle(s, e).models
    ensures PendingOk(Handle(s, e).models[s.phase.rows[i].id], s.phase.rows[i].slots)
  {
    assert PendingOk(s.models[s.phase.rows[i].id], s.phase.rows[i].slots);
  }

  /** Steps, deaths and Docker errors during recovery. */
  lemma BootingKeepsInv(s: State, e: Event)
    requires Inv(s) && s.phase.Booting? && (e.Step? || e.DockerFails? || e.Die?)
    ensures Inv(Handle(s, e))
  {
    var rows, alive := s.phase.rows, s.phase.alive;
    var s' := Handle(s, e);
    forall i | 0 <= i < |rows|
      ensures rows[i].id in s'.models && rows[i].id !in alive && PendingOk(s'.models[rows[i].id], rows[i].slots)
    {
      PendingStays(s, e, i);
    }
    forall id | id in s'.models && !IsPending(rows, id) ensures Settling(s'.models[id], id in alive) {
      assert Settling(s.models[id], id in alive);
      if s.models[id].todo != [] { StepSettles(s.models[id], id in alive); }
    }
  }

  lemma ServeKeepsInv(s: State)
    requires Inv(s)
    ensures Inv(Handle(s, Serve))
  {
    if s.phase.Booting? && s.phase.rows == [] && Quiet(s) {
      forall id | id in s.models ensures Consistent(s.models[id].(supervised := id in s.phase.alive), true) {
        assert Settling(s.models[id], id in s.phase.alive);
      }
    }
  }

  lemma UpKeepsInv(s: State, e: Event)
    requires Inv(s) && s.phase.Up? && (e.Begin? || e.Step? || e.DockerFails? || e.Die?)
    ensures Inv(Handle(s, e))
  {
    if e.id in s.models {
      var m := s.models[e.id];
      if e.Begin? && m.todo == [] && MayBegin(m, e.job) { ProgramFits(m, e.job); }
      if e.Die? { DeathFits(m, true, false); }
      if e.DockerFails? && m.todo != [] && MayFail(m.todo[0]) { FailFits(m, true); }
    }
  }

  /** Every event keeps the invariant. */
  lemma EventKeepsInv(s: State, e: Event)
    requires Inv(s)
    ensures Inv(Handle(s, e))
  {
    match e
    case Crash => CrashKeepsInv(s);
    case Boot(rows) => if s.phase.Down? && Answers(s.models, rows) { BootKeepsInv(s, rows); }
    case Probe(answered) => if s.phase.Booting? { ProbeKeepsInv(s, answered); }
    case Serve => ServeKeepsInv(s);
    case AddModel(_) =>
    case Begin(_, _) => if s.phase.Up? { UpKeepsInv(s, e); }
    case _ =>
      if s.phase.Booting? { BootingKeepsInv(s, e); } else if s.phase.Up? { UpKeepsInv(s, e); }
  }

  // ---- Runs -------------------------------------------------------------------------------------------

  /** The database before the first start. */
  ghost predicate Initial(s: State) {
    s.phase.Down? && forall id :: id in s.models ==> DownOk(s.models[id])
  }

  lemma {:induction false} ReachableInv(s0: State, run: seq<Event>)
    requires Initial(s0)
    ensures Inv(After(s0, run))
    decreases |run|
  {
    if run != [] {
      ReachableInv(s0, run[..|run| - 1]);
      EventKeepsInv(After(s0, run[..|run| - 1]), run[|run| - 1]);
    }
  }

  /** When recovery is over, gates and supervision are exactly for the containers found alive, of the persisted
      size; every loaded model with a secret has one. */
  lemma RecoveryRestoresGates(s0: State, run: seq<Event>, id: string)
    requires Initial(s0) && After(s0, run).phase.Booting?
    requires After(s0, run + [Serve]).phase.Up? && id in After(s0, run).models
    ensures var m, found := After(s0, run + [Serve]).models[id], id in After(s0, run).phase.alive;
      && m.todo == [] && (m.supervised <==> found) && (m.gate.Some? <==> found)
      && (found ==> m.loaded && m.secret.Some? && m.gate == Some(AtLeastOne(m.secret.value)))
      && (m.loaded && m.secret.Some? ==> found)
  {
    ReachableInv(s0, run);
    var s := After(s0, run);
    assert (run + [Serve])[..|run|] == run;
    assert After(s0, run + [Serve]) == Handle(s, Serve);
    assert Settling(s.models[id], id in s.phase.alive);
  }

  /** While the proxy serves, a model without a handler at work has a gate exactly when it is loaded and has a
      secret, of the persisted size, and supervised. */
  lemma IdleModelsAgree(s0: State, run: seq<Event>, id: string)
    requires Initial(s0) && After(s0, run).phase.Up? && id in After(s0, run).models && After(s0, run).models[id].todo == []
    ensures var m := After(s0, run).models[id];
      && (m.gate.Some? <==> m.loaded && m.secret.Some?)
      && (m.gate.Some? ==> m.gate == Some(AtLeastOne(m.secret.value)) && m.supervised && m.registered)
  {
    ReachableInv(s0, run);
    assert Fits(After(s0, run).models[id], true);
  }

  /** The step at which a container was found alive. */
  ghost predicate FoundAt(s0: State, run: seq<Event>, id: string, i: nat) {
    && i < |run| && run[i] == Probe(true)
    && After(s0, run[..i]).phase.Booting? && After(s0, run[..i]).phase.rows != [] && After(s0, run[..i]).phase.rows[0].id == id
    && id in After(s0, run[..i]).models && After(s0, run[..i]).models[id].alive
    && forall j :: i < j < |run| ==> run[j] != Crash
  }

  lemma FoundStill(s0: State, run: seq<Event>, id: string, i: nat)
    requires run != [] && run[|run| - 1] != Crash && FoundAt(s0, run[..|run| - 1], id, i)
    ensures FoundAt(s0, run, id, i)
  {
    assert run[..|run| - 1][..i] == run[..i];
  }

  /** Whatever recovery lists as alive, it saw alive since the last crash. */
  lemma {:induction false} ListedWasSeenAlive(s0: State, run: seq<Event>, id: string)
    requires s0.phase.Down? && After(s0, run).phase.Booting? && id in After(s0, run).phase.alive
    ensures exists i: nat :: FoundAt(s0, run, id, i)
    decreases |run|
  {
    var n := |run| - 1;
    var front := After(s0, run[..n]);
    if front.phase.Booting? && id in front.phase.alive {
      ListedWasSeenAlive(s0, run[..n], id);
      var i: nat :| FoundAt(s0, run[..n], id, i);
      FoundStill(s0, run, id, i);
    } else {
      assert FoundAt(s0, run, id, n);
    }
  }
}
