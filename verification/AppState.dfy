/**
 * The lifecycle handlers as they change the database and the memory of the proxy, each proved equal to its
 * program in `Lifecycle`, run without interruption.
 */
module AppState {
  import opened Wrappers
  import opened Lifecycle

  // ---- Uninterrupted handlers ---------------------------------------------------------------

  /** All remaining steps of the handler at work. */
  function Finish(m: Model): Model
    decreases |m.todo|
  {
    if m.todo == [] then m else Finish(Next(m))
  }

  lemma {:induction false} FinishIsExecAll(m: Model)
    ensures Finish(m) == ExecAll(m.(todo := []), m.todo)
    decreases |m.todo|
  {
    if m.todo != [] {
      ExecKeepsTodo(m, [], m.todo[0]);
      FinishIsExecAll(Next(m));
      assert Next(m).(todo := []) == Exec(m.(todo := []), m.todo[0]);
    }
  }

  /** Statements on the rows of the database. */
  predicate OnRows(stmt: Stmt) {
    stmt.PutSecret? || stmt.SetLoaded? || stmt.DropSecret? || stmt.ClearLoaded? || stmt.DropRows?
  }

  lemma RowStatementKeepsTodo(m: Model, todo: seq<Stmt>, stmt: Stmt)
    requires OnRows(stmt)
    ensures Exec(m.(todo := todo), stmt) == Exec(m, stmt).(todo := todo)
  {
  }

  lemma MemoryStatementKeepsTodo(m: Model, todo: seq<Stmt>, stmt: Stmt)
    requires !OnRows(stmt)
    ensures Exec(m.(todo := todo), stmt) == Exec(m, stmt).(todo := todo)
  {
  }

  lemma ExecKeepsTodo(m: Model, todo: seq<Stmt>, stmt: Stmt)
    ensures Exec(m.(todo := todo), stmt) == Exec(m, stmt).(todo := todo)
  {
    if OnRows(stmt) { RowStatementKeepsTodo(m, todo, stmt); } else { MemoryStatementKeepsTodo(m, todo, stmt); }
  }

  lemma {:induction false} FitsFinishes(m: Model, up: bool)
    requires Fits(m, up)
    ensures DbOk(Finish(m)) && Consistent(Finish(m), up) && Finish(m).todo == []
    decreases |m.todo|
  {
    if m.todo != [] { FitsFinishes(Next(m), up); }
  }

  /** A handler that runs to its end leads from one consistent state between handlers to the next. */
  lemma HandlerKeepsConsistent(m: Model, job: Job)
    requires m.todo == [] && DbOk(m) && Consistent(m, true) && MayBegin(m, job)
    ensures var m' := ExecAll(m, Program(m, job)); DbOk(m') && Consistent(m', true) && m'.todo == []
  {
    var m0 := m.(todo := Program(m, job));
    ProgramFits(m, job);
    FitsFinishes(m0, true);
    FinishIsExecAll(m0);
    assert m0.(todo := []) == m;
  }

  lemma {:induction false} ExecAllSplits(m: Model, a: seq<Stmt>, b: seq<Stmt>)
    ensures ExecAll(m, a + b) == ExecAll(ExecAll(m, a), b)
    decreases |a|
  {
    if a == [] {
      assert a + b == b;
    } else {
      assert (a + b)[1..] == a[1..] + b;
      ExecAllSplits(Exec(m, a[0]), a[1..], b);
    }
  }

  lemma ExecOne(m: Model, stmt: Stmt, rest: seq<Stmt>)
    ensures ExecAll(m, [stmt] + rest) == ExecAll(Exec(m, stmt), rest)
  {
    assert ([stmt] + rest)[1..] == rest;
  }

  lemma ExecCleanup(m: Model)
    ensures ExecAll(m, Cleanup()) == m.(gate := None, supervised := false, secret := None, loaded := false)
  {
    assert Cleanup() == [DropGate] + ([DropSupervisor] + ([DropSecret] + ([ClearLoaded] + [])));
    ExecOne(m, DropGate, [DropSupervisor] + ([DropSecret] + ([ClearLoaded] + [])));
    var m1 := m.(gate := None);
    ExecOne(m1, DropSupervisor, [DropSecret] + ([ClearLoaded] + []));
    var m2 := m1.(supervised := false);
    ExecOne(m2, DropSecret, [ClearLoaded] + []);
    ExecOne(m2.(secret := None), ClearLoaded, []);
  }

  lemma ExecReconciliation(m: Model)
    ensures ExecAll(m, Reconciliation()) == m.(loaded := false, gate := None)
  {
    assert Reconciliation()[1..] == [DropGate] && [DropGate][1..] == [];
  }

  lemma ExecOpening(m: Model, slots: nat)
    ensures ExecAll(m, Opening(slots)) == m.(gate := Some(slots), loaded := m.registered, supervised := true)
  {
    assert Opening(slots) == [RegisterGate(slots)] + ([SetLoaded] + ([ArmSupervision] + []));
    ExecOne(m, RegisterGate(slots), [SetLoaded] + ([ArmSupervision] + []));
    var m1 := m.(gate := Some(slots));
    ExecOne(m1, SetLoaded, [ArmSupervision] + []);
    ExecOne(m1.(loaded := m.registered), ArmSupervision, []);
  }

  // ---- Recovery, row by row ---------------------------------------------------------------------

  predicate HasRow(m: Model) { m.registered && m.loaded && m.secret.Some? }

  function Recovered(m: Model, answered: bool): Model {
    if HasRow(m) then ExecAll(m, RecoveryOf(m.secret.value, answered && m.alive)) else m
  }

  /** Recovery makes the state after a crash consistent. */
  lemma RecoveredIsConsistent(m: Model, answered: bool)
    requires DownOk(m)
    ensures Consistent(Recovered(m, answered), false)
    ensures Recovered(m, answered).gate.Some? <==> HasRow(m) && answered && m.alive
  {
    if HasRow(m) {
      ExecReconciliation(m);
      ExecRegister(m, AtLeastOne(m.secret.value));
    }
  }

  // ---- The state of the proxy --------------------------------------------------------------------

  /** An API token: the model it is pinned to, and whether it is neither revoked nor deleted. */
  datatype Token = Token(pin: Option<string>, active: bool)

  datatype Deletion = Missing | Blocked | Deleted

  predicate Blocks(t: Token, id: string) { t.pin == Some(id) && t.active }

  predicate IsBlocked(tokens: map<string, Token>, id: string) { exists t :: t in tokens && Blocks(tokens[t], id) }

  /** The program of a deletion; when Docker fails to stop the container, it stays as it was. */
  function AfterDeletion(m: Model, docker: bool): Model {
    var m' := ExecAll(m, Program(m, Delete));
    if docker then m' else m'.(alive := m.alive)
  }

  /** No token pinned to the model is left, or left active. */
  function Released(tokens: map<string, Token>, id: string): map<string, Token> {
    map t | t in tokens :: if tokens[t].pin == Some(id) then Token(None, false) else tokens[t]
  }

  function Revoked(tokens: map<string, Token>, id: string): map<string, Token> {
    map t | t in tokens :: if tokens[t].pin == Some(id) then tokens[t].(active := false) else tokens[t]
  }

  function Unpinned(tokens: map<string, Token>, id: string): map<string, Token> {
    map t | t in tokens :: if tokens[t].pin == Some(id) then tokens[t].(pin := None) else tokens[t]
  }

  lemma RevokedThenUnpinned(tokens: map<string, Token>, id: string)
    ensures Unpinned(Revoked(tokens, id), id) == Released(tokens, id)
  {
  }

  class AppState {
    /** Table `models`: id and `loaded`. */
    var models: map<string, bool>
    /** Table `container_secrets`: id and `parallel_slots`. */
    var secrets: map<string, int>
    var gate: map<string, nat>
    var supervisor: set<string>
    /** Containers that run. */
    var containers: set<string>
    /** Table `tokens`. */
    var tokens: map<string, Token>

    ghost function View(id: string): Model
      reads this`models, this`secrets, this`gate, this`supervisor, this`containers
    {
      Model(
        id in models, id in models && models[id],
        if id in secrets then Some(secrets[id]) else None,
        if id in gate then Some(gate[id]) else None,
        id in supervisor, [], id in containers)
    }

    method PostStopCleanup(id: string)
      modifies this`models, this`secrets, this`gate, this`supervisor
      ensures View(id) == ExecAll(old(View(id)), Cleanup())
      ensures forall other :: other != id ==> View(other) == old(View(other))
    {
      ExecCleanup(View(id));
      gate := gate - {id};
      supervisor := supervisor - {id};
      secrets := secrets - {id};
      if id in models { models := models[id := false]; }
    }

    method ReconcileState(id: string)
      modifies this`models, this`gate
      ensures View(id) == ExecAll(old(View(id)), Reconciliation())
      ensures forall other :: other != id ==> View(other) == old(View(other))
    {
      ExecReconciliation(View(id));
      if id in models { models := models[id := false]; }
      gate := gate - {id};
    }

    /** `docker`: whether Docker starts the container or finds it running. */
    method StartContainer(id: string, parallel: Option<nat>, docker: bool) returns (started: bool)
      modifies this`models, this`secrets, this`gate, this`supervisor, this`containers
      ensures started <==> old(id in models) && docker
      ensures started ==> View(id) == ExecAll(old(View(id)), Program(old(View(id)), Start(parallel)))
      ensures !started ==> View(id) == if old(id in models) then Exec(old(View(id)), PauseSupervision) else old(View(id))
      ensures forall other :: other != id ==> View(other) == old(View(other))
    {
      if id !in models { return false; }
      supervisor := supervisor + {id};
      if !docker { return false; }
      containers := containers + {id};
      var slots := AtLeastOne(parallel.GetOr(1));
      secrets := secrets[id := slots];
      gate := gate[id := slots];
      models := models[id := true];
      supervisor := supervisor + {id};
      started := true;
      StartedView(old(View(id)), slots);
    }

    /** `docker`: whether Docker stops the container or finds none. */
    method StopContainer(id: string, docker: bool)
      modifies this`models, this`secrets, this`gate, this`supervisor, this`containers
      ensures docker ==> View(id) == ExecAll(old(View(id)), Program(old(View(id)), Stop))
      ensures !docker ==> View(id) == old(View(id))
      ensures forall other :: other != id ==> View(other) == old(View(other))
    {
      if !docker { return; }
      ExecOne(View(id), Stmt.StopContainer(true), Cleanup());
      containers := containers - {id};
      PostStopCleanup(id);
    }

    /** Deletes the model, unless active tokens are pinned to it; with `override_` those are revoked. */
    method DeleteModel(id: string, override_: bool, docker: bool) returns (outcome: Deletion)
      modifies this
      ensures outcome == if old(id !in models) then Missing
                         else if !override_ && IsBlocked(old(tokens), id) then Blocked else Deleted
      ensures tokens == if outcome.Deleted? then Released(old(tokens), id) else old(tokens)
      ensures View(id) == if outcome.Deleted? then AfterDeletion(old(View(id)), docker) else old(View(id))
      ensures forall other :: other != id ==> View(other) == old(View(other))
    {
      if id !in models { return Missing; }
      var blockers := FindBlockers(id);
      if blockers != {} && !override_ { return Blocked; }
      RevokeAll(id, blockers);
      StopAndCleanUp(id, docker);
      NullPins(id);
      RevokedThenUnpinned(old(tokens), id);
      outcome := Deleted;
    }

    method FindBlockers(id: string) returns (blockers: set<string>)
      ensures blockers == set t | t in tokens && Blocks(tokens[t], id)
      ensures blockers != {} <==> IsBlocked(tokens, id)
    {
      blockers := set t | t in tokens && Blocks(tokens[t], id);
      if IsBlocked(tokens, id) {
        ghost var t :| t in tokens && Blocks(tokens[t], id);
        assert t in blockers;
      }
    }

    /** Soft-deletes the blocking tokens one by one. */
    method RevokeAll(id: string, blockers: set<string>)
      requires blockers == set t | t in tokens && Blocks(tokens[t], id)
      modifies this`tokens
      ensures tokens == Revoked(old(tokens), id)
    {
      var left := blockers;
      while left != {}
        invariant left <= blockers && tokens.Keys == old(tokens).Keys
        invariant forall t :: t in tokens ==>
          tokens[t] == if t in blockers - left then old(tokens)[t].(active := false) else old(tokens)[t]
        decreases left
      {
        var t :| t in left;
        tokens := tokens[t := tokens[t].(active := false)];
        left := left - {t};
      }
      assert forall t :: t in tokens && tokens[t].pin == Some(id) && t !in blockers ==> !tokens[t].active;
    }

    method NullPins(id: string)
      modifies this`tokens
      ensures tokens == Unpinned(old(tokens), id)
    {
      tokens := map t | t in tokens :: if tokens[t].pin == Some(id) then tokens[t].(pin := None) else tokens[t];
    }

    /** The part of a deletion that touches the container and the rows. */
    method StopAndCleanUp(id: string, docker: bool)
      requires id in models
      modifies this`models, this`secrets, this`gate, this`supervisor, this`containers
      ensures View(id) == AfterDeletion(old(View(id)), docker)
      ensures forall other :: other != id ==> View(other) == old(View(other))
    {
      DeletedView(View(id));
      if models[id] {
        if docker { containers := containers - {id}; }
        ExecCleanup(View(id));
        PostStopCleanup(id);
      }
      assert forall other :: other != id ==> View(other) == old(View(other));
      secrets := secrets - {id};
      models := models - {id};
    }

    /** The supervisor found the backend crashed. */
    method HandleCrash(id: string, restart: bool, docker: bool)
      modifies this`models, this`gate, this`supervisor, this`containers
      ensures docker || !restart ==> View(id) == ExecAll(old(View(id)), Program(old(View(id)), Crashed(restart)))
      ensures !docker && restart ==> View(id) == ExecAll(old(View(id)), Reconciliation())
      ensures forall other :: other != id ==> View(other) == old(View(other))
    {
      CrashedView(View(id), restart);
      ReconcileState(id);
      if restart && docker && id in models && id in secrets {
        containers := containers + {id};
        gate := gate[id := AtLeastOne(secrets[id])];
        models := models[id := true];
        supervisor := supervisor + {id};
      }
    }

    /** The recovery query: secrets joined with loaded models. */
    method QueryRows() returns (rows: seq<Row>)
      ensures forall i :: 0 <= i < |rows| ==> HasRow(View(rows[i].id)) && View(rows[i].id).secret == Some(rows[i].slots)
      ensures forall i, j :: 0 <= i < j < |rows| ==> rows[i].id != rows[j].id
      ensures forall id :: HasRow(View(id)) ==> IsPending(rows, id)
    {
      rows := [];
      var unseen := secrets.Keys;
      while unseen != {}
        invariant unseen <= secrets.Keys
        invariant forall i :: 0 <= i < |rows| ==>
          rows[i].id !in unseen && HasRow(View(rows[i].id)) && View(rows[i].id).secret == Some(rows[i].slots)
        invariant forall i, j :: 0 <= i < j < |rows| ==> rows[i].id != rows[j].id
        invariant forall id :: HasRow(View(id)) && id !in unseen ==> IsPending(rows, id)
        decreases unseen
      {
        var id :| id in unseen;
        unseen := unseen - {id};
        ghost var before := rows;
        if id in models && models[id] { rows := rows + [Row(id, secrets[id])]; }
        PendingGrows(before, rows);
      }
    }

    method RecoverRow(row: Row, answered: bool) returns (found: bool)
      modifies this`models, this`gate
      ensures found <==> answered && old(View(row.id)).alive
      ensures View(row.id) == ExecAll(old(View(row.id)), RecoveryOf(row.slots, found))
      ensures forall other :: other != row.id ==> View(other) == old(View(other))
    {
      found := answered && row.id in containers;
      if found {
        ExecRegister(View(row.id), AtLeastOne(row.slots));
        gate := gate[row.id := AtLeastOne(row.slots)];
      } else {
        ReconcileState(row.id);
      }
    }

    /** `answering`: the containers for which Docker answers the inspection. */
    method RecoverGateState(answering: set<string>) returns (aliveIds: seq<string>)
      modifies this`models, this`gate
      ensures forall id :: View(id) == Recovered(old(View(id)), id in answering)
      ensures forall id :: id in aliveIds <==> HasRow(old(View(id))) && id in answering && old(View(id)).alive
    {
      var rows := QueryRows();
      aliveIds := [];
      var i := 0;
      while i < |rows|
        invariant 0 <= i <= |rows|
        invariant forall id :: !IsPending(rows[..i], id) ==> View(id) == old(View(id))
        invariant forall id :: IsPending(rows[..i], id) ==> View(id) == Recovered(old(View(id)), id in answering)
        invariant forall id :: id in aliveIds <==> IsPending(rows[..i], id) && id in answering && old(View(id)).alive
      {
        var row := rows[i];
        NotYet(rows, i);
        PendingSnoc(rows, i);
        var found := RecoverRow(row, row.id in answering);
        if found { aliveIds := aliveIds + [row.id]; }
        i := i + 1;
      }
      assert rows[..i] == rows;
    }
  }

  lemma PendingGrows(rows: seq<Row>, rows': seq<Row>)
    requires |rows| <= |rows'| <= |rows| + 1 && rows'[..|rows|] == rows
    ensures forall id :: IsPending(rows, id) ==> IsPending(rows', id)
    ensures |rows'| > |rows| ==> IsPending(rows', rows'[|rows|].id)
  {
    forall id | IsPending(rows, id) ensures IsPending(rows', id) {
      var i :| 0 <= i < |rows| && rows[i].id == id;
      assert rows'[i].id == id;
    }
  }

  lemma NotYet(rows: seq<Row>, i: nat)
    requires i < |rows| && forall j, k :: 0 <= j < k < |rows| ==> rows[j].id != rows[k].id
    ensures !IsPending(rows[..i], rows[i].id)
  {
  }

  lemma PendingSnoc(rows: seq<Row>, i: nat)
    requires i < |rows|
    ensures forall id :: IsPending(rows[..i + 1], id) <==> IsPending(rows[..i], id) || id == rows[i].id
  {
    forall id | IsPending(rows[..i + 1], id) && id != rows[i].id ensures IsPending(rows[..i], id) {
      var k :| 0 <= k < i + 1 && rows[..i + 1][k].id == id;
      assert rows[..i][k].id == id;
    }
    assert rows[..i + 1][i].id == rows[i].id;
    forall id | IsPending(rows[..i], id) ensures IsPending(rows[..i + 1], id) {
      var k :| 0 <= k < i && rows[..i][k].id == id;
      assert rows[..i + 1][k].id == id;
    }
  }

  lemma ExecRegister(m: Model, slots: nat)
    ensures ExecAll(m, [RegisterGate(slots)]) == m.(gate := Some(slots))
  {
    ExecOne(m, RegisterGate(slots), []);
    assert [RegisterGate(slots)] + [] == [RegisterGate(slots)];
  }

  lemma StartedView(m: Model, slots: nat)
    requires m.registered
    ensures ExecAll(m, [PauseSupervision, Launch] + Bookkeeping(slots)) ==
      m.(supervised := true, alive := true, secret := Some(slots), gate := Some(slots), loaded := true)
  {
    assert [PauseSupervision, Launch] + Bookkeeping(slots) == [PauseSupervision] + ([Launch] + ([PutSecret(slots)] + Opening(slots)));
    ExecOne(m, PauseSupervision, [Launch] + ([PutSecret(slots)] + Opening(slots)));
    var m1 := m.(supervised := true);
    ExecOne(m1, Launch, [PutSecret(slots)] + Opening(slots));
    var m2 := m1.(alive := true);
    ExecOne(m2, PutSecret(slots), Opening(slots));
    ExecOpening(m2.(secret := Some(slots)), slots);
  }

  lemma DeletedView(m: Model)
    ensures ExecAll(m, Program(m, Delete)) ==
      if m.loaded then m.(registered := false, loaded := false, secret := None, gate := None, supervised := false, alive := false)
      else m.(registered := false, loaded := false, secret := None)
  {
    var prefix := if m.loaded then [StopContainer(false)] + Cleanup() else [];
    ExecAllSplits(m, prefix, [DropRows]);
    ExecOne(m, StopContainer(false), Cleanup());
    ExecCleanup(m.(alive := false));
    ExecOne(ExecAll(m, prefix), DropRows, []);
    assert [DropRows] + [] == [DropRows];
  }

  lemma CrashedView(m: Model, restart: bool)
    ensures ExecAll(m, Program(m, Crashed(restart))) ==
      if restart && m.registered && m.secret.Some? then
        m.(gate := Some(AtLeastOne(m.secret.value)), loaded := m.registered, supervised := true, alive := true)
      else m.(gate := None, loaded := false)
    ensures ExecAll(m, Reconciliation()) == m.(gate := None, loaded := false)
  {
    ExecReconciliation(m);
    var m1 := m.(gate := None, loaded := false);
    if restart && m.registered && m.secret.Some? {
      var slots := AtLeastOne(m.secret.value);
      ExecAllSplits(m, Reconciliation(), [Launch] + Opening(slots));
      ExecOne(m1, Launch, Opening(slots));
      ExecOpening(m1.(alive := true), slots);
    } else {
      assert Reconciliation() + [] == Reconciliation();
    }
  }
}
