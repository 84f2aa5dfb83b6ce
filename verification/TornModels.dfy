/**
 * The loaded models that recovery does not see: exactly those whose stop a crash has cut before its last statement.
 */
module TornModels {
  import opened Wrappers
  import opened Lifecycle

  predicate IsTorn(s: State, id: string) { id in s.models && Torn(s.models[id]) }

  /** The statements that make a torn model whole again, or remove it. */
  predicate Mending(stmt: Stmt) { stmt.PutSecret? || stmt.ClearLoaded? || stmt.DropRows? }

  /** The event carries out such a statement for the model. */
  predicate Mends(s: State, e: Event, id: string) {
    e == Step(id) && id in s.models && s.models[id].todo != [] && Mending(s.models[id].todo[0])
  }

  // ---- How models tear and mend ---------------------------------------------------------------

  lemma PendingIsWhole(s: State, id: string)
    requires Inv(s) && s.phase.Booting? && IsPending(s.phase.rows, id)
    ensures id in s.models && s.models[id].todo == [] && DbOk(s.models[id]) && !Torn(s.models[id])
  {
    var i :| 0 <= i < |s.phase.rows| && s.phase.rows[i].id == id;
    assert PendingOk(s.models[s.phase.rows[i].id], s.phase.rows[i].slots);
  }

  lemma BootingModel(s: State, id: string)
    requires Inv(s) && s.phase.Booting? && id in s.models
    ensures DbOk(s.models[id]) && !MidStop(s.models[id])
    ensures s.models[id].todo != [] ==> !Torn(s.models[id]) && !Torn(Next(s.models[id]))
  {
    if IsPending(s.phase.rows, id) {
      PendingIsWhole(s, id);
    } else {
      assert Settling(s.models[id], id in s.phase.alive);
      if s.models[id].todo != [] { NotMidStop(s.models[id]); }
    }
  }

  lemma RowsHang(s: State, id: string)
    requires Inv(s) && id in s.models
    ensures DbOk(s.models[id])
  {
    if s.phase.Booting? { BootingModel(s, id); }
    if s.phase.Up? { assert Fits(s.models[id], true); }
  }

  /** In the middle of its stop a model has no secret, so it is torn if it is loaded. */
  lemma MidStopHasNoSecret(s: State, id: string)
    requires Inv(s) && id in s.models && MidStop(s.models[id])
    ensures s.phase.Up? && s.models[id].secret.None?
  {
    if s.phase.Booting? { BootingModel(s, id); }
    if s.phase.Up? { assert Fits(s.models[id], true); }
  }

  /** An event tears a model only by the step of a stop that deletes its secret; a torn model in the middle of its
      stop leaves that point torn only by a crash. */
  lemma HowModelsTear(s: State, e: Event, id: string)
    requires Inv(s) && IsTorn(Handle(s, e), id)
    ensures IsTorn(s, id) || MidStop(Handle(s, e).models[id])
  {
    if s.phase.Up? && e.Step? && e.id == id && id in s.models { assert Fits(s.models[id], true); }
    if s.phase.Booting? && e.Step? && e.id == id && id in s.models { BootingModel(s, id); }
  }

  lemma MidStopEnds(s: State, e: Event, id: string)
    requires Inv(s) && IsTorn(s, id) && MidStop(s.models[id]) && IsTorn(Handle(s, e), id)
    ensures MidStop(Handle(s, e).models[id]) || e == Crash
  {
    MidStopHasNoSecret(s, id);
    MendedIff(s, e, id);
    assert s.models[id].todo[0] == ClearLoaded;
  }

  lemma StatementMends(m: Model, stmt: Stmt)
    requires DbOk(m) && Torn(m)
    ensures Torn(Exec(m, stmt)) <==> !Mending(stmt)
  {
  }

  /** A torn model stays torn under every event but a mending statement of its own. */
  lemma MendedIff(s: State, e: Event, id: string)
    requires Inv(s) && IsTorn(s, id)
    ensures IsTorn(Handle(s, e), id) <==> !Mends(s, e, id)
  {
    RowsHang(s, id);
    if e == Step(id) && s.models[id].todo != [] { StatementMends(s.models[id], s.models[id].todo[0]); }
  }

  /** While the proxy is down or recovers, nothing mends a torn model. */
  lemma NothingMendsBeforeServing(s: State, e: Event, id: string)
    requires Inv(s) && !s.phase.Up? && IsTorn(s, id)
    ensures !Mends(s, e, id) && IsTorn(Handle(s, e), id)
  {
    if s.phase.Booting? { BootingModel(s, id); }
    MendedIff(s, e, id);
  }

  // ---- Runs -------------------------------------------------------------------------------------

  /** At step `i` a crash cut a stop of the loaded model between deleting the secret and clearing `loaded`, and no
      mending statement was carried out after that. */
  ghost predicate CutAt(s0: State, run: seq<Event>, id: string, i: nat) {
    && i < |run| && run[i] == Crash
    && id in After(s0, run[..i]).models && MidStop(After(s0, run[..i]).models[id]) && After(s0, run[..i]).models[id].loaded
    && forall j :: i < j < |run| ==> !Mends(After(s0, run[..j]), run[j], id)
  }

  ghost predicate WasCut(s0: State, run: seq<Event>, id: string) { exists i: nat :: CutAt(s0, run, id, i) }

  predicate LoadedMidStop(s: State, id: string) {
    id in s.models && MidStop(s.models[id]) && s.models[id].loaded
  }

  lemma CutEarlier(s0: State, run: seq<Event>, id: string, i: nat)
    requires CutAt(s0, run, id, i) && i < |run| - 1
    ensures CutAt(s0, run[..|run| - 1], id, i) && !Mends(After(s0, run[..|run| - 1]), run[|run| - 1], id)
  {
    var front := run[..|run| - 1];
    assert front[..i] == run[..i];
    forall j | i < j < |front| ensures !Mends(After(s0, front[..j]), front[j], id) { assert front[..j] == run[..j]; }
  }

  lemma CutLater(s0: State, run: seq<Event>, id: string, i: nat)
    requires run != [] && CutAt(s0, run[..|run| - 1], id, i) && !Mends(After(s0, run[..|run| - 1]), run[|run| - 1], id)
    ensures CutAt(s0, run, id, i)
  {
    var front := run[..|run| - 1];
    assert front[..i] == run[..i];
    forall j | i < j < |run| ensures !Mends(After(s0, run[..j]), run[j], id) {
      if j < |front| { assert front[..j] == run[..j]; }
    }
  }

  lemma CrashKeepsTorn(s: State, id: string)
    requires Inv(s) && LoadedMidStop(s, id)
    ensures IsTorn(Handle(s, Crash), id)
  {
    MidStopHasNoSecret(s, id);
  }

  lemma {:induction false} CutIsTorn(s0: State, run: seq<Event>, id: string, i: nat)
    requires Initial(s0) && CutAt(s0, run, id, i)
    ensures IsTorn(After(s0, run), id)
    decreases |run|
  {
    var front := run[..|run| - 1];
    ReachableInv(s0, front);
    if i == |run| - 1 {
      CrashKeepsTorn(After(s0, front), id);
    } else {
      CutEarlier(s0, run, id, i);
      CutIsTorn(s0, front, id, i);
      MendedIff(After(s0, front), run[|run| - 1], id);
    }
  }

  lemma {:induction false} TornIsCut(s0: State, run: seq<Event>, id: string)
    requires Initial(s0) && !IsTorn(s0, id) && IsTorn(After(s0, run), id)
    ensures LoadedMidStop(After(s0, run), id) || WasCut(s0, run, id)
    decreases |run|
  {
    var n := |run| - 1;
    var front := run[..n];
    var s := After(s0, front);
    ReachableInv(s0, front);
    HowModelsTear(s, run[n], id);
    if !MidStop(After(s0, run).models[id]) {
      TornIsCut(s0, front, id);
      if MidStop(s.models[id]) {
        MidStopEnds(s, run[n], id);
        assert CutAt(s0, run, id, n);
      } else {
        var i: nat :| CutAt(s0, front, id, i);
        MendedIff(s, run[n], id);
        CutLater(s0, run, id, i);
      }
    }
  }

  /** A model is loaded without a secrets row if and only if it is loaded and in the middle of its stop, or a crash
      cut its stop there and no statement has mended it since. */
  lemma TornIff(s0: State, run: seq<Event>, id: string)
    requires Initial(s0) && !IsTorn(s0, id)
    ensures IsTorn(After(s0, run), id) <==> LoadedMidStop(After(s0, run), id) || WasCut(s0, run, id)
  {
    ReachableInv(s0, run);
    if IsTorn(After(s0, run), id) { TornIsCut(s0, run, id); }
    if LoadedMidStop(After(s0, run), id) { MidStopHasNoSecret(After(s0, run), id); }
    if WasCut(s0, run, id) {
      var i: nat :| CutAt(s0, run, id, i);
      CutIsTorn(s0, run, id, i);
    }
  }

  /** When recovery is over, the loaded models without a gate are exactly those whose stop a crash cut between
      deleting the secret and clearing `loaded`, and that no statement has mended since. */
  lemma LoadedWithoutGateIff(s0: State, run: seq<Event>, id: string)
    requires Initial(s0) && !IsTorn(s0, id) && After(s0, run).phase.Booting?
    requires After(s0, run + [Serve]).phase.Up? && id in After(s0, run).models
    ensures var m := After(s0, run + [Serve]).models[id];
      m.loaded && m.gate.None? <==> WasCut(s0, run + [Serve], id)
  {
    RecoveryRestoresGates(s0, run, id);
    TornIff(s0, run + [Serve], id);
    assert !LoadedMidStop(After(s0, run + [Serve]), id);
  }

  // ---- The cut and the recovery after it ----------------------------------------------------------

  ghost predicate NeverUp(s0: State, run: seq<Event>, from: nat) {
    forall j :: from <= j <= |run| ==> !After(s0, run[..j]).phase.Up?
  }

  /** From a cut to the end of the next recovery, whatever happens in between: further crashes, dying containers,
      interrupted recoveries. */
  lemma CutSurvivesRecovery(s0: State, run: seq<Event>, id: string, i: nat)
    requires Initial(s0) && !IsTorn(s0, id) && i < |run| && run[i] == Crash && LoadedMidStop(After(s0, run[..i]), id)
    requires NeverUp(s0, run, i + 1) && After(s0, run).phase.Booting? && After(s0, run + [Serve]).phase.Up?
    ensures id in After(s0, run).models && id in After(s0, run + [Serve]).models
    ensures var m := After(s0, run + [Serve]).models[id]; m.loaded && m.gate.None? && m.todo == []
  {
    StaysTorn(s0, run, id, i, |run|);
    assert run[..|run|] == run;
    ReachableInv(s0, run);
    NothingMendsBeforeServing(After(s0, run), Serve, id);
    assert (run + [Serve])[..|run|] == run;
    RecoveryRestoresGates(s0, run, id);
  }

  lemma {:induction false} StaysTorn(s0: State, run: seq<Event>, id: string, i: nat, j: nat)
    requires Initial(s0) && i < j <= |run| && run[i] == Crash && LoadedMidStop(After(s0, run[..i]), id)
    requires NeverUp(s0, run, i + 1)
    ensures IsTorn(After(s0, run[..j]), id)
    decreases j
  {
    assert run[..j][..j - 1] == run[..j - 1];
    ReachableInv(s0, run[..j - 1]);
    if j == i + 1 {
      CrashKeepsTorn(After(s0, run[..i]), id);
    } else {
      StaysTorn(s0, run, id, i, j - 1);
      NothingMendsBeforeServing(After(s0, run[..j - 1]), run[j - 1], id);
    }
  }

  function Steps(s: State, id: string, n: nat): State { if n == 0 then s else Handle(Steps(s, id, n - 1), Step(id)) }

  lemma StepPuts(s: State, s1: State, id: string, n: nat, m: Model)
    requires id in s.models && m.todo != [] && Steps(s1, id, n) == Put(s, id, m)
    ensures Steps(s1, id, n + 1) == Put(s, id, Next(m))
  {
    assert Handle(Put(s, id, m), Step(id)).models == Put(s, id, Next(m)).models;
  }

  lemma StopByStep(m: Model)
    requires m.todo == [StopContainer(true)] + Cleanup()
    ensures Next(m).todo == Cleanup()
    ensures Next(Next(m)).todo == Cleanup()[1..]
    ensures Next(Next(Next(m))).todo == Cleanup()[2..]
    ensures Next(Next(Next(Next(m)))) == m.(alive := false, gate := None, supervised := false, secret := None, todo := Cleanup()[3..])
  {
    assert Next(m) == m.(alive := false, todo := Cleanup());
    var m1 := Next(m);
    assert Next(m1) == m1.(gate := None, todo := Cleanup()[1..]);
    var m2 := Next(m1);
    assert Next(m2) == m2.(supervised := false, todo := Cleanup()[2..]);
    var m3 := Next(m2);
    assert Next(m3) == m3.(secret := None, todo := Cleanup()[3..]);
  }

  lemma FourSteps(s: State, id: string, m: Model)
    requires id in s.models && m.todo == [StopContainer(true)] + Cleanup()
    ensures Steps(Put(s, id, m), id, 4)
         == Put(s, id, m.(alive := false, gate := None, supervised := false, secret := None, todo := Cleanup()[3..]))
  {
    var s1 := Put(s, id, m);
    StopByStep(m);
    StepPuts(s, s1, id, 0, m);
    StepPuts(s, s1, id, 1, Next(m));
    StepPuts(s, s1, id, 2, Next(Next(m)));
    StepPuts(s, s1, id, 3, Next(Next(Next(m))));
  }

  /** The cut does happen, and recovery does leave the model behind: stop the only model with a secret, crash before
      the last statement, start again. */
  lemma CutStopIsNotRecovered(s: State, id: string)
    requires s.phase.Up? && Quiet(s) && id in s.models && s.models[id].loaded
    requires forall other :: other in s.models && other != id ==> s.models[other].secret.None?
    ensures var cut := Steps(Handle(s, Begin(id, Stop)), id, 4);
      && LoadedMidStop(cut, id)
      && var s' := Handle(Handle(Handle(cut, Crash), Boot([])), Serve);
         s'.phase.Up? && id in s'.models && s'.models[id].loaded && s'.models[id].gate.None? && s'.models[id].todo == []
  {
    var m := s.models[id].(todo := [StopContainer(true)] + Cleanup());
    FourSteps(s, id, m);
    assert Handle(s, Begin(id, Stop)) == Put(s, id, m);
    NothingToRecover(Steps(Put(s, id, m), id, 4), id);
  }

  lemma NothingToRecover(cut: State, id: string)
    requires IsTorn(cut, id) && forall other :: other in cut.models ==> cut.models[other].secret.None?
    ensures var s' := Handle(Handle(Handle(cut, Crash), Boot([])), Serve);
      s'.phase.Up? && id in s'.models && s'.models[id].loaded && s'.models[id].gate.None? && s'.models[id].todo == []
  {
    var down := Handle(cut, Crash);
    assert Answers(down.models, []);
    assert Quiet(Handle(down, Boot([])));
  }
}
