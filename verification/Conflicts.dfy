/** When a create request is refused because its tag is there already. */
module Conflicts {
  import opened Prelude
  import opened Requests
  import opened Numeric
  import opened Hub
  import opened HubInvariant
  import opened HubRuns
  import opened HubTheorems
  import opened GetOrCreate
  import opened Success
  import opened Discards
  import opened Serial
  import opened DiscardWitness

  /** Step k tries to insert the request's row: the drawn id or the name is taken, or the value
      does not fit its column. */
  ghost predicate RefusedAt(run: seq<State>, steps: seq<Step>, k: nat, rid: nat) {
    && MovesAt(run, steps, k, rid) && run[k].requests[rid].stage == AtInsert
    && var input := run[k].requests[rid].input;
       (steps[k].choice.tagId in run[k].db.tags || NameTaken(run[k].db, input) || !InRange(input.payload.columns.value))
  }

  /** Step k breaks that statement for a reason of its own. */
  predicate BrokenAt(run: seq<State>, steps: seq<Step>, k: nat, rid: nat) {
    k < |steps| && k < |run| && steps[k] == Crash(rid) && rid in run[k].requests && run[k].requests[rid].stage == AtInsert
  }

  predicate NoCrash(steps: seq<Step>, i: nat, j: nat, rid: nat)
    requires j <= |steps|
  {
    forall m :: i <= m < j ==> steps[m] != Crash(rid)
  }

  ghost predicate ConflictsAt(run: seq<State>, steps: seq<Step>, k: nat, j: nat, rid: nat)
    requires j <= |steps|
  {
    k < j && (BrokenAt(run, steps, k, rid) || (RefusedAt(run, steps, k, rid) && NoCrash(steps, k, j, rid)))
  }

  /** The request is on its way out with the conflict, or out. */
  predicate Turned(s: State, rid: nat) {
    rid in s.requests && s.requests[rid].stage in {AtRollback(Conflict), Done(Conflict)}
  }

  lemma AdvanceTurns(env: Env, s: State, rid: nat, c: Choice)
    requires rid in s.requests && !s.requests[rid].stage.AtCommit? && !s.requests[rid].stage.Done?
    requires s.requests[rid].stage.AtRollback? ==> s.requests[rid].stage.error != Conflict
    ensures var r := s.requests[rid];
            env.Advance(s.db, s.meta, r, c).1.stage in {AtRollback(Conflict), Done(Conflict)} <==>
              r.stage == AtInsert
              && (c.tagId in s.db.tags || NameTaken(s.db, r.input) || !InRange(r.input.payload.columns.value))
  {
    FitsExactly(s.requests[rid].input.payload.columns.value);
  }

  /** What turns a request, and what keeps it turned. */
  lemma StepTurns(env: Env, run: seq<State>, steps: seq<Step>, i: nat, rid: nat)
    requires IsRun(env, run, steps) && i < |steps|
    ensures Turned(run[i + 1], rid) <==>
              || (Turned(run[i], rid) && steps[i] != Crash(rid))
              || RefusedAt(run, steps, i, rid)
              || BrokenAt(run, steps, i, rid)
  {
    var s := run[i];
    if MovesAt(run, steps, i, rid) && !s.requests[rid].stage.AtCommit? && !Turned(s, rid) {
      AdvanceTurns(env, s, rid, steps[i].choice);
    }
  }

  lemma {:induction false} TurnedBy(env: Env, run: seq<State>, steps: seq<Step>, j: nat, rid: nat) returns (k: nat)
    requires IsRun(env, run, steps) && j < |run| && Turned(run[j], rid)
    ensures ConflictsAt(run, steps, k, j, rid)
  {
    assert run[0].requests == map[];
    assert j > 0;
    StepTurns(env, run, steps, j - 1, rid);
    if Turned(run[j - 1], rid) && steps[j - 1] != Crash(rid) {
      k := TurnedBy(env, run, steps, j - 1, rid);
    } else {
      k := j - 1;
    }
  }

  lemma {:induction false} StaysTurned(env: Env, run: seq<State>, steps: seq<Step>, i: nat, j: nat, rid: nat)
    requires IsRun(env, run, steps) && i <= j < |run| && Turned(run[i], rid)
    requires run[i].requests[rid].stage.Done? || NoCrash(steps, i, j, rid)
    ensures Turned(run[j], rid)
    decreases j
  {
    if run[i].requests[rid].stage.Done? {
      DoneIsFinal(env, run, steps, i, j, rid);
    } else if i < j {
      StaysTurned(env, run, steps, i, j - 1, rid);
      StepTurns(env, run, steps, j - 1, rid);
    }
  }

  /** In every run, a request ends with the name conflict exactly when its insert was broken,
      or was refused (the drawn id taken, a tag committed under its advertiser and name since
      its lookup, a value too large) and the rollback went through. */
  lemma ConflictExactly(env: Env, run: seq<State>, steps: seq<Step>, j: nat, rid: nat)
    requires IsRun(env, run, steps) && j < |run|
    requires rid in run[j].requests && run[j].requests[rid].stage.Done?
    ensures run[j].requests[rid].stage.outcome == Conflict <==> exists k: nat :: ConflictsAt(run, steps, k, j, rid)
  {
    if run[j].requests[rid].stage.outcome == Conflict {
      var k := TurnedBy(env, run, steps, j, rid);
    }
    forall k: nat | ConflictsAt(run, steps, k, j, rid)
      ensures Turned(run[j], rid)
    {
      StepTurns(env, run, steps, k, rid);
      StaysTurned(env, run, steps, k + 1, j, rid);
    }
  }

  lemma StepIsWritten(env: Env, s: State, step: Step)
    requires Inv(env, s) && AllAbout(s) && AllWritten(env, s.db, s.requests) && Enabled(s, step)
    ensures AllWritten(env, Apply(env, s, step).db, Apply(env, s, step).requests)
  {
    var s' := Apply(env, s, step);
    match step
    case Move(rid, c) =>
      var r := s.requests[rid];
      assert RequestOk(env, s.db, s.meta, r) && OutIsAbout(r);
      if r.stage.AtCommit? {
        CommitWrites(env, s.db, s.meta, s.requests, rid);
      } else {
        InputKept(env, s.db, s.meta, r, c);
      }
      WrittenReplaced(env, s'.db, s.requests, rid, s'.requests[rid]);
    case Arrive(rid, input) => WrittenReplaced(env, s.db, s.requests, rid, NewRequest(input));
    case Crash(rid) => WrittenReplaced(env, s.db, s.requests, rid, Broken(s.requests[rid]));
    case _ =>
  }

  /** Every record answers for a request of this run, its hash and its name. */
  lemma {:induction false} RunIsWritten(env: Env, run: seq<State>, steps: seq<Step>, i: nat)
    requires IsRun(env, run, steps) && i < |run|
    ensures AllWritten(env, run[i].db, run[i].requests)
  {
    if i > 0 {
      RunIsWritten(env, run, steps, i - 1);
      RunInv(env, run, steps, i - 1);
      RunIsAbout(env, run, steps, i - 1);
      StepIsWritten(env, run[i - 1], steps[i - 1]);
    }
  }

  /** A twin that looks its key up before the first has recorded it is not answered from the
      record: if it gets as far as the insert, the insert is refused. */
  lemma TwinIsRefused(env: Env, run: seq<State>, steps: seq<Step>, k: nat, rid: nat)
    requires IsRun(env, run, steps) && k < |steps| && HashesTell(env, run[k])
    requires MovesAt(run, steps, k, rid) && run[k].requests[rid].stage == AtInsert
    requires KeyTaken(run[k].db, run[k].requests[rid].input)
    requires run[k].db.records[(ENDPOINT, KeyOf(run[k].requests[rid].input).value)].requestHash
          == env.requestHash(run[k].requests[rid].input)
    ensures RefusedAt(run, steps, k, rid)
  {
    RunIsWritten(env, run, steps, k);
    RunInv(env, run, steps, k);
    var input := run[k].requests[rid].input;
    var record := run[k].db.records[(ENDPOINT, KeyOf(input).value)];
    WrittenIsAbout(env, run[k], rid, record);
    assert Names(run[k].db, record.body);
    assert SameName(run[k].db.tags[record.body.id], input.advertiser, input.payload.columns.name);
  }

  /** The twin waits with its name looked up and nothing flushed, and the first runs to its end. */
  ghost predicate TwinWaits(s: State) {
    && s.requests.Keys == {1, 2}
    && s.requests[1].input == InputFor("A") && s.requests[1].writes == NO_WRITES
    && s.requests[1].stage.Done? && s.requests[1].stage.outcome.Created?
    && s.requests[2] == AfterLoading("A", "tag-2", 3)
    && NameTaken(s.db, InputFor("A"))
  }

  /** The twin at its insert, the first still at its start. */
  lemma TwinLoads(env: Env, r1: Request, r2: Request, n: nat) returns (run: seq<State>, steps: seq<Step>)
    requires env.oauth.Valid() && n <= 5
    requires r1 == AfterLoading("A", "tag-1", 0) && r2 == AfterLoading("A", "tag-2", 0)
    ensures IsRun(env, run, steps) && Last(run) == Both(env, r1, AfterLoading("A", "tag-2", n))
  {
    run, steps := Start(env, "A");
    BothWith(env, r1, r2, AfterLoading("A", "tag-2", n));
    run, steps := Load(env, run, steps, Both(env, r1, r2), 2, "A", "tag-2", n);
  }

  lemma FirstWins(env: Env, s: State, s': State, r: Request)
    requires ReadyToStore(r, "A", "tag-1") && s.db == World(env)
    requires s.requests == map[1 := AfterLoading("A", "tag-1", 0), 2 := AfterLoading("A", "tag-2", 3)]
    requires s'.requests == s.requests[1 := r.(writes := NO_WRITES, stage := Done(Created(r.stage.out)))]
    requires s'.db == Hub.Commit(s.db, r.writes.(record := Some(((ENDPOINT, "key"), env.RecordOf(r, r.stage.out)))))
    ensures TwinWaits(s')
  {
    assert SameName(s'.db.tags["tag-1"], ADVERTISER, "A");
  }

  lemma FirstFinishes(env: Env) returns (run: seq<State>, steps: seq<Step>)
    requires env.oauth.Valid()
    ensures IsRun(env, run, steps) && TwinWaits(Last(run))
  {
    var r1, r2 := AfterLoading("A", "tag-1", 0), AfterLoading("A", "tag-2", 3);
    run, steps := TwinLoads(env, r1, AfterLoading("A", "tag-2", 0), 3);
    var s, meta, r := Both(env, r1, r2), MetaWorld(), r1;
    BothWith(env, r1, r2, r1);
    run, steps, meta, r := UpToStore(env, run, steps, s, 1, "A", "tag-1", 5);
    run, steps := Finish(env, run, steps, s.(meta := meta), 1, r, "A", "tag-1");
    FirstWins(env, s, Last(run), r);
  }

  lemma TwinEnds(env: Env, run: seq<State>, steps: seq<Step>, s: State, r: Request, c: Choice)
    returns (run': seq<State>, steps': seq<Step>, r': Request)
    requires IsRun(env, run, steps) && Alone(s, 2) && Last(run) == With(s, 2, r)
    requires r.stage == AtInsert && r.writes == NO_WRITES && NameTaken(s.db, r.input)
    ensures IsRun(env, run', steps') && Last(run') == With(s, 2, r')
    ensures r'.stage == Done(Conflict) && r'.input == r.input
  {
    var refused := Fail(r, Conflict);
    r' := refused.(stage := Done(Conflict));
    run', steps' := Next(env, run, steps, s, 2, c, r, s.meta, refused);
    run', steps' := Next(env, run', steps', s, 2, c, refused, s.meta, r');
  }

  /** Two requests in flight with one key and one body: the first is answered 201, the second
      409 for its name. */
  lemma TwinIsToldConflict(env: Env) returns (run: seq<State>, steps: seq<Step>)
    requires env.oauth.Valid()
    ensures IsRun(env, run, steps)
    ensures var s := Last(run);
            && 1 in s.requests && 2 in s.requests && s.requests[1].input == s.requests[2].input
            && KeyOf(s.requests[1].input) == Some("key")
            && s.requests[1].stage.Done? && s.requests[1].stage.outcome.Created?
            && s.requests[2].stage == Done(Conflict)
  {
    run, steps := FirstFinishes(env);
    var s, r := Last(run), AfterLoading("A", "tag-2", 3);
    assert s == With(s, 2, r) by {
      assert s.requests[2 := r] == s.requests;
    }
    assert "key" != "";
    var r';
    run, steps, r' := TwinEnds(env, run, steps, s, r, Tick("tag-2"));
  }
}
