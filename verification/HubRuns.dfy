/** The invariant holds in every state of every run, and committed data only grows. */
module HubRuns {
  import opened MetaAdapter
  import opened Hub
  import opened HubInvariant

  /** All that a step may do, seen from the requests it does not touch. */
  ghost predicate Preserves(env: Env, s: State, s': State) {
    Inv(env, s') && Grows(s.db, s'.db) && MetaGrows(s.meta, s'.meta)
  }

  lemma TablesGrow(env: Env, db: Db, meta: MetaState, db': Db, meta': MetaState)
    requires TablesOk(env, db, meta) && Grows(db, db') && MetaGrows(meta, meta') && Indexed(env.digest, meta')
    requires db'.tags == db.tags && db'.records == db.records
    ensures TablesOk(env, db', meta')
  {
    forall id | id in db'.tags
      ensures Settled(db', meta', db'.tags[id])
    {
      SettledGrows(db, meta, db', meta', db.tags[id]);
    }
  }

  /** Steps that leave requests, tags and records alone. */
  lemma OutsideStep(env: Env, s: State, db': Db, meta': MetaState)
    requires Inv(env, s) && Grows(s.db, db') && MetaGrows(s.meta, meta') && Indexed(env.digest, meta')
    requires db'.tags == s.db.tags && db'.records == s.db.records
    ensures Preserves(env, s, State(db', meta', s.requests))
  {
    TablesGrow(env, s.db, s.meta, db', meta');
    forall rid | rid in s.requests
      ensures RequestOk(env, db', meta', s.requests[rid])
    {
      RequestGrows(env, s.db, s.meta, db', meta', s.requests[rid]);
    }
  }

  lemma ApartReplaced(requests: map<nat, Request>, rid: nat, r: Request)
    requires AllApart(requests)
    requires forall other :: other in requests && other != rid ==> Apart(r.writes, requests[other].writes)
    ensures AllApart(requests[rid := r])
  {
  }

  /** A request that arrives, or leaves its session without committing. */
  lemma IdleReplaced(env: Env, s: State, rid: nat, r: Request)
    requires Inv(env, s) && RequestOk(env, s.db, s.meta, r) && r.writes == NO_WRITES
    ensures Preserves(env, s, s.(requests := s.requests[rid := r]))
  {
    ApartReplaced(s.requests, rid, r);
  }

  lemma AdvanceStep(env: Env, s: State, rid: nat, c: Choice)
    requires Inv(env, s) && Enabled(s, Move(rid, c)) && !s.requests[rid].stage.AtCommit?
    ensures Preserves(env, s, MoveRequest(env, s, rid, c))
  {
    var r := s.requests[rid];
    var (meta', r') := env.Advance(s.db, s.meta, r, c);
    AdvanceOk(env, s.db, s.meta, r, c);
    TablesGrow(env, s.db, s.meta, s.db, meta');
    forall other | other in s.requests && other != rid
      ensures RequestOk(env, s.db, meta', s.requests[other]) && Apart(r'.writes, s.requests[other].writes)
    {
      RequestGrows(env, s.db, s.meta, s.db, meta', s.requests[other]);
      AdvanceApart(env, s.db, s.meta, r, c, s.requests[other]);
    }
    ApartReplaced(s.requests, rid, r');
  }

  lemma OthersAfterCommit(env: Env, s: State, rid: nat)
    requires Inv(env, s) && rid in s.requests
    requires Grows(s.db, Commit(s.db, s.requests[rid].writes))
    ensures AllOk(env, Commit(s.db, s.requests[rid].writes), s.meta, s.requests - {rid})
  {
    var w := s.requests[rid].writes;
    forall other | other in s.requests && other != rid
      ensures RequestOk(env, Commit(s.db, w), s.meta, s.requests[other])
    {
      CommitLeavesFree(s.db, w, s.requests[other].writes);
      RequestGrows(env, s.db, s.meta, Commit(s.db, w), s.meta, s.requests[other]);
    }
  }

  lemma OneMoreOk(env: Env, db: Db, meta: MetaState, requests: map<nat, Request>, rid: nat, r: Request)
    requires AllOk(env, db, meta, requests - {rid}) && RequestOk(env, db, meta, r)
    ensures AllOk(env, db, meta, requests[rid := r])
  {
    var all := requests[rid := r];
    forall other | other in all
      ensures RequestOk(env, db, meta, all[other])
    {
      assert other != rid ==> other in requests - {rid};
    }
  }

  lemma CommitStep(env: Env, s: State, rid: nat, c: Choice)
    requires Inv(env, s) && rid in s.requests && s.requests[rid].stage.AtCommit?
    ensures Preserves(env, s, MoveRequest(env, s, rid, c))
  {
    var r := s.requests[rid];
    var r' := r.(writes := NO_WRITES, stage := Done(Created(r.stage.out)));
    CommitTablesOk(env, s.db, s.meta, r);
    OthersAfterCommit(env, s, rid);
    OneMoreOk(env, Commit(s.db, r.writes), s.meta, s.requests, rid, r');
    ApartReplaced(s.requests, rid, r');
  }

  lemma StepPreserves(env: Env, s: State, step: Step)
    requires Inv(env, s) && Enabled(s, step)
    ensures Preserves(env, s, Apply(env, s, step))
  {
    match step
    case Arrive(rid, input) => IdleReplaced(env, s, rid, NewRequest(input));
    case Move(rid, c) =>
      if s.requests[rid].stage.AtCommit? {
        CommitStep(env, s, rid, c);
      } else {
        AdvanceStep(env, s, rid, c);
      }
    case Crash(rid) => IdleReplaced(env, s, rid, Broken(s.requests[rid]));
    case CreateElsewhere(account, conversion) =>
      CreateKeeps(env.digest, s.meta, account, conversion);
      OutsideStep(env, s, s.db, Create(env.digest, s.meta, account, conversion).0);
    case _ =>
      var s' := Apply(env, s, step);
      OutsideStep(env, s, s'.db, s'.meta);
  }

  lemma {:induction false} RunInv(env: Env, run: seq<State>, steps: seq<Step>, i: nat)
    requires IsRun(env, run, steps) && i < |run|
    ensures Inv(env, run[i])
  {
    if i > 0 {
      RunInv(env, run, steps, i - 1);
      StepPreserves(env, run[i - 1], steps[i - 1]);
    }
  }

  /** Both tables and Meta have only grown from one state to another. */
  ghost predicate GrowsInto(s: State, s': State) {
    Grows(s.db, s'.db) && MetaGrows(s.meta, s'.meta)
  }

  lemma GrowsTransitive(a: State, b: State, c: State)
    requires GrowsInto(a, b) && GrowsInto(b, c)
    ensures GrowsInto(a, c)
  {
  }

  lemma StepGrows(env: Env, run: seq<State>, steps: seq<Step>, i: nat)
    requires IsRun(env, run, steps) && i < |steps|
    ensures GrowsInto(run[i], run[i + 1])
  {
    RunInv(env, run, steps, i);
    StepPreserves(env, run[i], steps[i]);
  }

  lemma {:induction false} ChainGrows(run: seq<State>, i: nat, j: nat)
    requires i <= j < |run|
    requires forall k :: i <= k < j ==> GrowsInto(run[k], run[k + 1])
    ensures GrowsInto(run[i], run[j])
    decreases j
  {
    if i < j {
      ChainGrows(run, i, j - 1);
      GrowsTransitive(run[i], run[j - 1], run[j - 1 + 1]);
    }
  }

  lemma RunGrows(env: Env, run: seq<State>, steps: seq<Step>, i: nat, j: nat)
    requires IsRun(env, run, steps) && i <= j < |run|
    ensures Grows(run[i].db, run[j].db) && MetaGrows(run[i].meta, run[j].meta)
  {
    forall k | i <= k < j
      ensures GrowsInto(run[k], run[k + 1])
    {
      StepGrows(env, run, steps, k);
    }
    ChainGrows(run, i, j);
  }
}
