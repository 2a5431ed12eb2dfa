/** Requests in flight never block one another for good. */
module HubProgress {
  import opened MetaAdapter
  import opened Hub
  import opened HubInvariant
  import opened HubRuns
  import opened Serial

  /** A statement only waits for a session that has come further. */
  lemma WaitsForFurther(env: Env, db: Db, meta: MetaState, r: Request, other: Request, c: Choice)
    requires RequestOk(env, db, meta, other) && Waits(r, other, c)
    ensures Live(other) && Rank(other.stage) > Rank(r.stage)
  {
  }

  /** Sessions never wait for one another in a circle: while requests are in flight, one of
      them can do its next statement. */
  lemma {:induction false} SomeoneCanMove(env: Env, s: State, rid: nat) returns (free: nat)
    requires Inv(env, s) && rid in s.requests && Live(s.requests[rid])
    ensures free in s.requests && Live(s.requests[free])
    ensures forall c :: Enabled(s, Move(free, c))
    decreases 10 - Rank(s.requests[rid].stage)
  {
    if forall c :: !Blocked(s, rid, c) {
      free := rid;
    } else {
      var c :| Blocked(s, rid, c);
      var other :| other in s.requests && other != rid && Waits(s.requests[rid], s.requests[other], c);
      WaitsForFurther(env, s.db, s.meta, s.requests[rid], s.requests[other], c);
      free := SomeoneCanMove(env, s, other);
    }
  }

  /** How many statements the requests may still have before them, at most. */
  ghost function Remaining(requests: map<nat, Request>): nat {
    if requests == map[] then 0
    else
      var rid :| rid in requests;
      10 - Rank(requests[rid].stage) + Remaining(requests - {rid})
  }

  lemma {:induction false} RemainingWithout(requests: map<nat, Request>, rid: nat)
    requires rid in requests
    ensures Remaining(requests) == 10 - Rank(requests[rid].stage) + Remaining(requests - {rid})
    decreases |requests|
  {
    var first :| first in requests && Remaining(requests) == 10 - Rank(requests[first].stage) + Remaining(requests - {first});
    if first != rid {
      RemainingWithout(requests - {first}, rid);
      RemainingWithout(requests - {rid}, first);
      assert requests - {first} - {rid} == requests - {rid} - {first};
    }
  }

  /** A statement brings its request further and leaves the others where they are. */
  lemma MoveLeavesLess(env: Env, s: State, rid: nat, c: Choice)
    requires rid in s.requests && Live(s.requests[rid])
    ensures Remaining(MoveRequest(env, s, rid, c).requests) < Remaining(s.requests)
  {
    var s' := MoveRequest(env, s, rid, c);
    if !s.requests[rid].stage.AtCommit? {
      AdvanceFurther(env, s.db, s.meta, s.requests[rid], c);
    }
    RemainingWithout(s.requests, rid);
    RemainingWithout(s'.requests, rid);
    assert s'.requests - {rid} == s.requests - {rid};
  }

  /** While some request is in flight, one of them can move on. */
  lemma OneMoves(env: Env, run: seq<State>, steps: seq<Step>, rid: nat, c: Choice)
    returns (run': seq<State>, steps': seq<Step>)
    requires IsRun(env, run, steps) && rid in Last(run).requests && Live(Last(run).requests[rid])
    ensures IsRun(env, run', steps') && run <= run' && |steps'| == |steps| + 1 && steps <= steps'
    ensures steps'[|steps|].Move? && steps'[|steps|].choice == c
    ensures Remaining(Last(run').requests) < Remaining(Last(run).requests)
  {
    RunInv(env, run, steps, |run| - 1);
    var free := SomeoneCanMove(env, Last(run), rid);
    MoveLeavesLess(env, Last(run), free, c);
    run', steps' := Extend(env, run, steps, Move(free, c));
  }

  /** From every reachable state all requests in flight can be brought to an end, whatever
      the outside decides at each statement. */
  lemma {:induction false} AllCanFinish(env: Env, run: seq<State>, steps: seq<Step>, choose: nat -> Choice)
    returns (run': seq<State>, steps': seq<Step>)
    requires IsRun(env, run, steps)
    ensures IsRun(env, run', steps') && run <= run' && steps <= steps'
    ensures |steps'| - |steps| <= Remaining(Last(run).requests)
    ensures forall i :: |steps| <= i < |steps'| ==> steps'[i].Move? && steps'[i].choice == choose(i)
    ensures forall rid :: rid in Last(run').requests ==> !Live(Last(run').requests[rid])
    decreases Remaining(Last(run).requests)
  {
    if rid :| rid in Last(run).requests && Live(Last(run).requests[rid]) {
      run', steps' := OneMoves(env, run, steps, rid, choose(|steps|));
      run', steps' := AllCanFinish(env, run', steps', choose);
    } else {
      run', steps' := run, steps;
    }
  }

  lemma StepLeavesLess(env: Env, run: seq<State>, steps: seq<Step>, k: nat)
    requires IsRun(env, run, steps) && k < |steps| && steps[k].Move?
    ensures Remaining(run[k + 1].requests) < Remaining(run[k].requests)
  {
    MoveLeavesLess(env, run[k], steps[k].rid, steps[k].choice);
  }

  lemma {:induction false} Shrinks(run: seq<State>, i: nat, j: nat)
    requires i <= j < |run|
    requires forall k :: i <= k < j ==> Remaining(run[k + 1].requests) < Remaining(run[k].requests)
    ensures j - i + Remaining(run[j].requests) <= Remaining(run[i].requests)
    decreases j
  {
    if i < j {
      Shrinks(run, i, j - 1);
      assert Remaining(run[j - 1 + 1].requests) < Remaining(run[j - 1].requests);
    }
  }

  /** Nor can they go on for ever: as long as nothing arrives, the statements are bounded, in
      whatever order the requests take turns. */
  lemma MovesAreBounded(env: Env, run: seq<State>, steps: seq<Step>, i: nat, j: nat)
    requires IsRun(env, run, steps) && i <= j < |run|
    requires forall k :: i <= k < j ==> steps[k].Move?
    ensures j - i + Remaining(run[j].requests) <= Remaining(run[i].requests)
  {
    forall k | i <= k < j
      ensures Remaining(run[k + 1].requests) < Remaining(run[k].requests)
    {
      StepLeavesLess(env, run, steps, k);
    }
    Shrinks(run, i, j);
  }

  /** So the requests can only come to a halt by all being answered. */
  lemma HaltsWhenDone(env: Env, run: seq<State>, steps: seq<Step>, i: nat)
    requires IsRun(env, run, steps) && i < |run|
    ensures (forall rid :: rid in run[i].requests ==> !Live(run[i].requests[rid]))
       <==> (forall rid :: rid in run[i].requests ==> exists c :: !Enabled(run[i], Move(rid, c)))
  {
    RunInv(env, run, steps, i);
    forall rid | rid in run[i].requests && Live(run[i].requests[rid])
      ensures exists free :: free in run[i].requests && forall c :: Enabled(run[i], Move(free, c))
    {
      var free := SomeoneCanMove(env, run[i], rid);
    }
    forall rid | rid in run[i].requests && !Live(run[i].requests[rid])
      ensures !Enabled(run[i], Move(rid, Choice("", 0, Answered)))
    {
    }
  }
}
