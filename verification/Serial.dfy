/** A request served alone, from its arrival to its commit or rollback. */
module Serial {
  import opened Requests
  import opened MetaAdapter
  import opened Hub

  /** What the request leaves behind, how it is answered, and how often it called Meta. */
  datatype Served = Served(db: Db, meta: MetaState, outcome: Outcome, calls: nat) {
    function Calling(n: nat): Served {
      this.(calls := calls + n)
    }
  }

  function CallsAt(stage: Stage): nat {
    if stage.AtMeta? then 1 else 0
  }

  lemma AdvanceFurther(env: Env, db: Db, meta: MetaState, r: Request, c: Choice)
    requires !r.stage.AtCommit? && !r.stage.Done?
    ensures Rank(env.Advance(db, meta, r, c).1.stage) > Rank(r.stage)
  {
  }

  /** Statement after statement, as the outside chooses at each. */
  ghost function Serve(env: Env, db: Db, meta: MetaState, r: Request, choose: nat -> Choice): Served
    decreases 10 - Rank(r.stage)
  {
    match r.stage
    case Done(outcome) => Served(db, meta, outcome, 0)
    case AtCommit(out) => Served(Commit(db, r.writes), meta, Created(out), 0)
    case _ =>
      AdvanceFurther(env, db, meta, r, choose(Rank(r.stage)));
      var (meta', r') := env.Advance(db, meta, r, choose(Rank(r.stage)));
      Serve(env, db, meta', r', choose).Calling(CallsAt(r.stage))
  }

  lemma ServeStep(env: Env, db: Db, meta: MetaState, r: Request, choose: nat -> Choice, meta': MetaState, r': Request)
    requires !r.stage.AtCommit? && !r.stage.Done?
    requires env.Advance(db, meta, r, choose(Rank(r.stage))) == (meta', r')
    ensures Serve(env, db, meta, r, choose) == Serve(env, db, meta', r', choose).Calling(CallsAt(r.stage))
    ensures !r.stage.AtMeta? ==> Serve(env, db, meta, r, choose) == Serve(env, db, meta', r', choose)
  {
  }

  /** A request that ends in an error leaves all tables exactly as they were. */
  lemma {:induction false} ErrorLeavesTables(env: Env, db: Db, meta: MetaState, r: Request, choose: nat -> Choice)
    ensures var served := Serve(env, db, meta, r, choose);
            !served.outcome.Created? ==> served.db == db
    decreases 10 - Rank(r.stage)
  {
    if !r.stage.AtCommit? && !r.stage.Done? {
      var (meta', r') := env.Advance(db, meta, r, choose(Rank(r.stage)));
      AdvanceFurther(env, db, meta, r, choose(Rank(r.stage)));
      ErrorLeavesTables(env, db, meta', r', choose);
    }
  }

  // ----- Serving is a run of the machine -----

  ghost function Last(run: seq<State>): State
    requires run != []
  {
    run[|run| - 1]
  }

  lemma Extend(env: Env, run: seq<State>, steps: seq<Step>, step: Step) returns (run': seq<State>, steps': seq<Step>)
    requires IsRun(env, run, steps) && Enabled(Last(run), step)
    ensures IsRun(env, run', steps') && Last(run') == Apply(env, Last(run), step)
    ensures run <= run' && steps' == steps + [step]
  {
    run', steps' := run + [Apply(env, Last(run), step)], steps + [step];
    forall i | 0 <= i < |steps'|
      ensures Enabled(run'[i], steps'[i]) && run'[i + 1] == Apply(env, run'[i], steps'[i])
    {
      if i < |steps| {
        assert run'[i] == run[i] && run'[i + 1] == run[i + 1] && steps'[i] == steps[i];
      }
    }
  }

  /** No other session holds anything. */
  ghost predicate Alone(s: State, rid: nat) {
    && rid in s.requests
    && (forall other :: other in s.requests && other != rid ==> s.requests[other].writes == NO_WRITES)
  }

  function With(s: State, rid: nat, r: Request): State {
    s.(requests := s.requests[rid := r])
  }

  lemma WithTwice(s: State, rid: nat, r: Request, r': Request)
    ensures With(With(s, rid, r), rid, r') == With(s, rid, r')
  {
    assert s.requests[rid := r][rid := r'] == s.requests[rid := r'];
  }

  /** A request in nobody's way does its next statement. */
  lemma Next(env: Env, run: seq<State>, steps: seq<Step>, s: State, rid: nat, c: Choice, r: Request,
             meta': MetaState, r': Request)
    returns (run': seq<State>, steps': seq<Step>)
    requires IsRun(env, run, steps) && Alone(s, rid) && Last(run) == With(s, rid, r)
    requires Live(r) && !r.stage.AtCommit? && env.Advance(s.db, s.meta, r, c) == (meta', r')
    ensures IsRun(env, run', steps') && Last(run') == With(s.(meta := meta'), rid, r') && run <= run'
  {
    run', steps' := Extend(env, run, steps, Move(rid, c));
    WithTwice(s.(meta := meta'), rid, r, r');
  }

  lemma Conclude(env: Env, run: seq<State>, steps: seq<Step>, s: State, rid: nat, c: Choice, r: Request)
    returns (run': seq<State>, steps': seq<Step>, r': Request)
    requires IsRun(env, run, steps) && Alone(s, rid) && Last(run) == With(s, rid, r) && r.stage.AtCommit?
    ensures r'.stage == Done(Created(r.stage.out)) && r'.input == r.input && run <= run'
    ensures IsRun(env, run', steps') && Last(run') == With(s.(db := Commit(s.db, r.writes)), rid, r')
  {
    run', steps' := Extend(env, run, steps, Move(rid, c));
    r' := r.(writes := NO_WRITES, stage := Done(Created(r.stage.out)));
    WithTwice(s.(db := Commit(s.db, r.writes)), rid, r, r');
  }

  lemma {:induction false} ServeIsRun(env: Env, run: seq<State>, steps: seq<Step>, s: State, rid: nat, r: Request,
                                      choose: nat -> Choice)
    returns (run': seq<State>, steps': seq<Step>, r': Request)
    requires IsRun(env, run, steps) && Alone(s, rid) && Last(run) == With(s, rid, r)
    ensures IsRun(env, run', steps') && run <= run'
    ensures var served := Serve(env, s.db, s.meta, r, choose);
            && r'.stage == Done(served.outcome) && r'.input == r.input
            && Last(run') == With(s.(db := served.db, meta := served.meta), rid, r')
    decreases 10 - Rank(r.stage)
  {
    var c := choose(Rank(r.stage));
    if r.stage.Done? {
      run', steps', r' := run, steps, r;
    } else if r.stage.AtCommit? {
      run', steps', r' := Conclude(env, run, steps, s, rid, c, r);
    } else {
      var (meta', next) := env.Advance(s.db, s.meta, r, c);
      AdvanceFurther(env, s.db, s.meta, r, c);
      InputKept(env, s.db, s.meta, r, c);
      ServeStep(env, s.db, s.meta, r, choose, meta', next);
      run', steps' := Next(env, run, steps, s, rid, c, r, meta', next);
      run', steps', r' := ServeIsRun(env, run', steps', s.(meta := meta'), rid, next, choose);
    }
  }

  lemma InputKept(env: Env, db: Db, meta: MetaState, r: Request, c: Choice)
    requires !r.stage.AtCommit? && !r.stage.Done?
    ensures env.Advance(db, meta, r, c).1.input == r.input
  {
  }

  /** From any reachable state in which no session holds anything, serving one more request
      alone is a run of the machine, so all that is proved of runs is true of it. */
  lemma ServedAlone(env: Env, run: seq<State>, steps: seq<Step>, rid: nat, input: Input, choose: nat -> Choice)
    returns (run': seq<State>, steps': seq<Step>)
    requires IsRun(env, run, steps) && rid !in Last(run).requests && ValidColumns(input.payload.columns)
    requires forall other :: other in Last(run).requests ==> Last(run).requests[other].writes == NO_WRITES
    ensures IsRun(env, run', steps') && run <= run'
    ensures var s, s' := Last(run), Last(run');
            var served := Serve(env, s.db, s.meta, NewRequest(input), choose);
            && s'.db == served.db && s'.meta == served.meta
            && rid in s'.requests && s'.requests[rid].stage == Done(served.outcome) && s'.requests[rid].input == input
            && s'.requests - {rid} == s.requests
  {
    var s := Last(run);
    run', steps' := Extend(env, run, steps, Arrive(rid, input));
    var s1 := Last(run');
    assert s1.requests - {rid} == s.requests;
    var r';
    WithTwice(s, rid, NewRequest(input), NewRequest(input));
    run', steps', r' := ServeIsRun(env, run', steps', s1, rid, NewRequest(input), choose);
    assert s1.requests[rid := r'] - {rid} == s.requests;
  }
}
