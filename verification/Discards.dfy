/** Which 201s are about a tag that the database does not hold. */
module Discards {
  import opened Domain
  import opened Requests
  import opened MetaAdapter
  import opened Hub
  import opened HubInvariant
  import opened HubRuns
  import opened GetOrCreate
  import opened Success

  // ----- Steps of a run -----

  predicate MovesAt(run: seq<State>, steps: seq<Step>, k: nat, rid: nat) {
    k < |steps| && k < |run| && steps[k].Move? && steps[k].rid == rid && rid in run[k].requests
  }

  /** Step k stores the response of the request, or finds its key taken. */
  predicate StoresAt(run: seq<State>, steps: seq<Step>, k: nat, rid: nat) {
    MovesAt(run, steps, k, rid) && run[k].requests[rid].stage.AtStore?
  }

  /** Step k inserts a tag under this drawn id, or tries to. */
  ghost predicate DrawsAt(run: seq<State>, steps: seq<Step>, k: nat, id: Uuid) {
    k < |steps| && steps[k].Move? && MovesAt(run, steps, k, steps[k].rid)
    && run[k].requests[steps[k].rid].stage == AtInsert && steps[k].choice.tagId == id
  }

  /** No UUID is drawn twice. */
  ghost predicate DistinctDraws(run: seq<State>, steps: seq<Step>) {
    forall d, e, id :: DrawsAt(run, steps, d, id) && DrawsAt(run, steps, e, id) ==> d == e
  }

  predicate KeyTaken(db: Db, input: Input) {
    KeyOf(input).Some? && (ENDPOINT, KeyOf(input).value) in db.records
  }

  /** When the response is to be stored, the key has been recorded and no tag is committed
      under the request's own advertiser and name. */
  ghost predicate DiscardsAt(run: seq<State>, steps: seq<Step>, k: nat, rid: nat) {
    && StoresAt(run, steps, k, rid)
    && KeyTaken(run[k].db, run[k].requests[rid].input)
    && !NameTaken(run[k].db, run[k].requests[rid].input)
  }

  // ----- Responses are about what was asked -----

  predicate OutIsAbout(r: Request) {
    match r.stage
    case AtStore(out) => About(out, r.input)
    case AtCommit(out) => About(out, r.input)
    case _ => true
  }

  lemma AdvanceIsAbout(env: Env, db: Db, meta: MetaState, r: Request, c: Choice)
    requires AllSettled(db, meta) && RequestOk(env, db, meta, r) && OutIsAbout(r)
    requires !r.stage.AtCommit? && !r.stage.Done?
    ensures OutIsAbout(env.Advance(db, meta, r, c).1)
  {
    if r.stage == AtName {
      LookUpNameShape(env, db, meta, r);
    }
  }

  ghost predicate AllAbout(s: State) {
    forall rid :: rid in s.requests ==> OutIsAbout(s.requests[rid])
  }

  lemma {:induction false} RunIsAbout(env: Env, run: seq<State>, steps: seq<Step>, i: nat)
    requires IsRun(env, run, steps) && i < |run|
    ensures AllAbout(run[i])
  {
    if i > 0 {
      RunIsAbout(env, run, steps, i - 1);
      RunInv(env, run, steps, i - 1);
      StepIsAbout(env, run[i - 1], steps[i - 1]);
    }
  }

  lemma StepIsAbout(env: Env, s: State, step: Step)
    requires Inv(env, s) && AllAbout(s) && Enabled(s, step)
    ensures AllAbout(Apply(env, s, step))
  {
    if step.Move? && !s.requests[step.rid].stage.AtCommit? {
      assert RequestOk(env, s.db, s.meta, s.requests[step.rid]);
      AdvanceIsAbout(env, s.db, s.meta, s.requests[step.rid], step.choice);
    }
  }

  // ----- A tag that survives -----

  lemma NamesGrow(db: Db, db': Db, out: Body)
    requires Names(db, out) && Grows(db, db')
    ensures Names(db', out)
  {
  }

  /** Where a request is that has been through its store statement, and what that means for
      its answer. */
  ghost predicate Storing(s: State, rid: nat, stored: Request, out: Body) {
    && rid in s.requests
    && (match s.requests[rid].stage
        case AtCommit(_) => s.requests[rid] == stored && (Discarded(stored) ==> Names(s.db, out))
        case Done(outcome) => outcome == Failure || (outcome == Created(out) && Names(s.db, out))
        case _ => false)
  }

  lemma StoredCommits(env: Env, s: State, rid: nat, c: Choice, stored: Request, out: Body)
    requires Inv(env, s) && stored.stage == AtCommit(out) && Storing(s, rid, stored, out) && s.requests[rid] == stored
    ensures Storing(MoveRequest(env, s, rid, c), rid, stored, out)
  {
    var db' := Commit(s.db, stored.writes);
    CommitTablesOk(env, s.db, s.meta, stored);
    if Discarded(stored) {
      NamesGrow(s.db, db', out);
    }
    assert Names(db', out);
  }

  lemma StoringGrows(s: State, s': State, rid: nat, stored: Request, out: Body)
    requires Storing(s, rid, stored, out) && Grows(s.db, s'.db) && rid in s'.requests
    requires s'.requests[rid] == s.requests[rid] || s'.requests[rid].stage == Done(Failure)
    ensures Storing(s', rid, stored, out)
  {
    if Names(s.db, out) {
      NamesGrow(s.db, s'.db, out);
    }
  }

  lemma StoringStep(env: Env, s: State, step: Step, rid: nat, stored: Request, out: Body)
    requires Inv(env, s) && Enabled(s, step) && stored.stage == AtCommit(out) && Storing(s, rid, stored, out)
    ensures Storing(Apply(env, s, step), rid, stored, out)
  {
    if step.Move? && step.rid == rid {
      StoredCommits(env, s, rid, step.choice, stored, out);
    } else {
      StepPreserves(env, s, step);
      StoringGrows(s, Apply(env, s, step), rid, stored, out);
    }
  }

  lemma {:induction false} StoringStays(env: Env, run: seq<State>, steps: seq<Step>, i: nat, j: nat, rid: nat,
                                        stored: Request, out: Body)
    requires IsRun(env, run, steps) && i <= j < |run|
    requires stored.stage == AtCommit(out) && Storing(run[i], rid, stored, out)
    ensures Storing(run[j], rid, stored, out)
    decreases j
  {
    if i < j {
      StoringStays(env, run, steps, i, j - 1, rid, stored, out);
      RunInv(env, run, steps, j - 1);
      StoringStep(env, run[j - 1], steps[j - 1], rid, stored, out);
    }
  }

  /** The request holds a new tag exactly when its name is not committed. */
  lemma NewTagExactly(env: Env, s: State, rid: nat)
    requires Inv(env, s) && AllAbout(s) && rid in s.requests && s.requests[rid].stage.AtStore?
    ensures s.requests[rid].writes.tag.Some? <==> !NameTaken(s.db, s.requests[rid].input)
  {
    var r := s.requests[rid];
    assert RequestOk(env, s.db, s.meta, r) && OutIsAbout(r);
    if r.writes.tag.None? {
      assert SameName(s.db.tags[r.stage.out.id], r.input.advertiser, r.input.payload.columns.name);
    }
  }

  lemma KeptNames(env: Env, s: State, rid: nat, r: Request, out: Body)
    requires Inv(env, s) && AllAbout(s) && rid in s.requests && s.requests[rid] == r && r.stage == AtStore(out)
    requires !(KeyTaken(s.db, r.input) && !NameTaken(s.db, r.input))
    ensures env.StoreRecord(s.db, r, out).stage == AtCommit(out)
    ensures Discarded(env.StoreRecord(s.db, r, out)) ==> Names(s.db, out)
  {
    assert RequestOk(env, s.db, s.meta, r);
    NewTagExactly(env, s, rid);
  }

  lemma StoreStarts(env: Env, s: State, rid: nat, c: Choice, r: Request, out: Body)
    requires Inv(env, s) && AllAbout(s) && rid in s.requests && s.requests[rid] == r && r.stage == AtStore(out)
    requires !(KeyTaken(s.db, r.input) && !NameTaken(s.db, r.input))
    ensures env.StoreRecord(s.db, r, out).stage == AtCommit(out)
    ensures Storing(MoveRequest(env, s, rid, c), rid, env.StoreRecord(s.db, r, out), out)
  {
    KeptNames(env, s, rid, r, out);
  }

  lemma KeptStore(env: Env, run: seq<State>, steps: seq<Step>, k: nat, j: nat, rid: nat)
    requires IsRun(env, run, steps) && k < j < |run| && StoresAt(run, steps, k, rid) && !DiscardsAt(run, steps, k, rid)
    requires rid in run[j].requests && run[j].requests[rid].stage.Done? && run[j].requests[rid].stage.outcome.Created?
    ensures Names(run[j].db, run[j].requests[rid].stage.outcome.body)
  {
    RunInv(env, run, steps, k);
    RunIsAbout(env, run, steps, k);
    var r := run[k].requests[rid];
    StoreStarts(env, run[k], rid, steps[k].choice, r, r.stage.out);
    StoringStays(env, run, steps, k + 1, j, rid, env.StoreRecord(run[k].db, r, r.stage.out), r.stage.out);
  }

  // ----- A tag that is thrown away -----

  /** Nobody has the id, committed or flushed. */
  ghost predicate Gone(s: State, id: Uuid) {
    && id !in s.db.tags
    && forall rid :: rid in s.requests && s.requests[rid].writes.tag.Some? ==> s.requests[rid].writes.tag.value.0 != id
  }

  /** A statement that puts a tag into the session's writes inserts it under the drawn id. */
  lemma AdvanceDraws(env: Env, db: Db, meta: MetaState, r: Request, c: Choice)
    requires AllSettled(db, meta) && RequestOk(env, db, meta, r) && !r.stage.AtCommit? && !r.stage.Done?
    ensures var tag := env.Advance(db, meta, r, c).1.writes.tag;
            tag.Some? ==>
              || (r.writes.tag.Some? && tag.value.0 == r.writes.tag.value.0)
              || (r.stage == AtInsert && tag.value.0 == c.tagId)
  {
    if r.stage == AtName {
      LookUpNameShape(env, db, meta, r);
    }
  }

  lemma GoneStep(env: Env, s: State, step: Step, id: Uuid)
    requires Inv(env, s) && Enabled(s, step) && Gone(s, id)
    requires step.Move? && s.requests[step.rid].stage == AtInsert ==> step.choice.tagId != id
    ensures Gone(Apply(env, s, step), id)
  {
    if step.Move? {
      assert RequestOk(env, s.db, s.meta, s.requests[step.rid]);
      if !s.requests[step.rid].stage.AtCommit? {
        AdvanceDraws(env, s.db, s.meta, s.requests[step.rid], step.choice);
      }
    }
  }

  lemma GoneOn(env: Env, run: seq<State>, steps: seq<Step>, k: nat, id: Uuid)
    requires IsRun(env, run, steps) && k < |steps| && Gone(run[k], id) && !DrawsAt(run, steps, k, id)
    ensures Gone(run[k + 1], id)
  {
    RunInv(env, run, steps, k);
    GoneStep(env, run[k], steps[k], id);
  }

  lemma {:induction false} GoneStays(env: Env, run: seq<State>, steps: seq<Step>, i: nat, j: nat, id: Uuid)
    requires IsRun(env, run, steps) && i <= j < |run| && Gone(run[i], id)
    requires forall k :: i <= k < j ==> !DrawsAt(run, steps, k, id)
    ensures Gone(run[j], id)
    decreases j
  {
    if i < j {
      GoneStays(env, run, steps, i, j - 1, id);
      GoneOn(env, run, steps, j - 1, id);
    }
  }

  predicate Holds(s: State, rid: nat, id: Uuid) {
    rid in s.requests && s.requests[rid].writes.tag.Some? && s.requests[rid].writes.tag.value.0 == id
  }

  lemma StepDraws(env: Env, s: State, step: Step, rid: nat, id: Uuid)
    requires Inv(env, s) && Enabled(s, step) && Holds(Apply(env, s, step), rid, id)
    ensures || Holds(s, rid, id)
            || (step.Move? && step.rid in s.requests && s.requests[step.rid].stage == AtInsert && step.choice.tagId == id)
  {
    if step.Move? && step.rid == rid && !s.requests[rid].stage.AtCommit? {
      assert RequestOk(env, s.db, s.meta, s.requests[rid]);
      AdvanceDraws(env, s.db, s.meta, s.requests[rid], step.choice);
    }
  }

  /** A tag in a session's writes has been inserted by an earlier step. */
  lemma {:induction false} WasDrawn(env: Env, run: seq<State>, steps: seq<Step>, i: nat, rid: nat, id: Uuid) returns (d: nat)
    requires IsRun(env, run, steps) && i < |run| && Holds(run[i], rid, id)
    ensures d < i && DrawsAt(run, steps, d, id)
  {
    assert run[0].requests == map[];
    assert i > 0;
    RunInv(env, run, steps, i - 1);
    StepDraws(env, run[i - 1], steps[i - 1], rid, id);
    if Holds(run[i - 1], rid, id) {
      d := WasDrawn(env, run, steps, i - 1, rid, id);
    } else {
      d := i - 1;
    }
  }

  lemma DiscardEmpties(env: Env, s: State, rid: nat, c: Choice)
    requires Inv(env, s) && AllAbout(s) && rid in s.requests && s.requests[rid].stage.AtStore?
    requires KeyTaken(s.db, s.requests[rid].input) && !NameTaken(s.db, s.requests[rid].input)
    ensures var r := s.requests[rid];
            var s' := MoveRequest(env, s, rid, c);
            && r.writes.tag.Some? && r.writes.tag.value.0 == r.stage.out.id
            && Gone(s', r.stage.out.id)
            && s'.requests[rid] == r.(writes := NO_WRITES, stage := AtCommit(r.stage.out))
  {
    var r := s.requests[rid];
    NewTagExactly(env, s, rid);
    assert RequestOk(env, s.db, s.meta, r);
    StoresNothing(env, s, rid, r, c);
    LeavesGone(s, rid, r.(writes := NO_WRITES, stage := AtCommit(r.stage.out)), r.stage.out.id);
  }

  lemma StoresNothing(env: Env, s: State, rid: nat, r: Request, c: Choice)
    requires rid in s.requests && s.requests[rid] == r && r.stage.AtStore? && KeyTaken(s.db, r.input)
    ensures MoveRequest(env, s, rid, c)
         == s.(requests := s.requests[rid := r.(writes := NO_WRITES, stage := AtCommit(r.stage.out))])
  {
  }

  /** Nobody else has the id that a request lets go of. */
  lemma LeavesGone(s: State, rid: nat, r': Request, id: Uuid)
    requires AllApart(s.requests) && Holds(s, rid, id) && id !in s.db.tags && r'.writes == NO_WRITES
    ensures Gone(s.(requests := s.requests[rid := r']), id)
  {
    forall other | other in s.requests && other != rid && s.requests[other].writes.tag.Some?
      ensures s.requests[other].writes.tag.value.0 != id
    {
      assert Apart(s.requests[rid].writes, s.requests[other].writes);
    }
  }

  /** Once its writes are gone, the answer of the request stays what it was. */
  lemma {:induction false} AnswerStands(env: Env, run: seq<State>, steps: seq<Step>, i: nat, j: nat, rid: nat, out: Body)
    requires IsRun(env, run, steps) && i <= j < |run|
    requires rid in run[i].requests && run[i].requests[rid].stage == AtCommit(out)
    ensures rid in run[j].requests
    ensures run[j].requests[rid].stage in {AtCommit(out), Done(Created(out)), Done(Failure)}
    decreases j
  {
    if i < j {
      AnswerStands(env, run, steps, i, j - 1, rid, out);
    }
  }

  lemma LostStore(env: Env, run: seq<State>, steps: seq<Step>, k: nat, j: nat, rid: nat)
    requires IsRun(env, run, steps) && DistinctDraws(run, steps) && k < j < |run| && DiscardsAt(run, steps, k, rid)
    requires rid in run[j].requests && run[j].requests[rid].stage.Done? && run[j].requests[rid].stage.outcome.Created?
    ensures !Names(run[j].db, run[j].requests[rid].stage.outcome.body)
  {
    RunInv(env, run, steps, k);
    RunIsAbout(env, run, steps, k);
    DiscardEmpties(env, run[k], rid, steps[k].choice);
    var out := run[k].requests[rid].stage.out;
    var d := WasDrawn(env, run, steps, k, rid, out.id);
    AnswerStands(env, run, steps, k + 1, j, rid, out);
    assert forall l :: k + 1 <= l < j ==> !DrawsAt(run, steps, l, out.id);
    GoneStays(env, run, steps, k + 1, j, out.id);
  }

  // ----- Answers that were never stored -----

  ghost predicate NotStored(run: seq<State>, steps: seq<Step>, j: nat, rid: nat) {
    forall k: nat :: k < j ==> !StoresAt(run, steps, k, rid)
  }

  /** The request has not stored anything, and if it is answered 201, then for a committed tag. */
  predicate Unstored(db: Db, r: Request) {
    match r.stage
    case AtCommit(_) => false
    case Done(outcome) => outcome.Created? ==> Names(db, outcome.body)
    case _ => true
  }

  lemma AdvanceUnstored(env: Env, db: Db, meta: MetaState, r: Request, c: Choice)
    requires AllNamed(db) && !r.stage.AtStore? && !r.stage.AtCommit? && !r.stage.Done?
    requires r.stage.AtRollback? ==> !r.stage.error.Created?
    ensures Unstored(db, env.Advance(db, meta, r, c).1)
  {
    if r.stage.AtKey? && env.LookUpKey(db, r).stage.Done? {
      assert Names(db, db.records[(ENDPOINT, KeyOf(r.input).value)].body);
    }
  }

  lemma UnstoredGrows(db: Db, db': Db, r: Request)
    requires Unstored(db, r) && Grows(db, db')
    ensures Unstored(db', r)
  {
    if r.stage.Done? && r.stage.outcome.Created? {
      NamesGrow(db, db', r.stage.outcome.body);
    }
  }

  lemma StepUnstored(env: Env, s: State, step: Step, rid: nat)
    requires Inv(env, s) && Enabled(s, step) && rid in Apply(env, s, step).requests
    requires rid in s.requests ==> Unstored(s.db, s.requests[rid])
    requires rid in s.requests && s.requests[rid].stage.AtStore? ==> !(step.Move? && step.rid == rid)
    ensures Unstored(Apply(env, s, step).db, Apply(env, s, step).requests[rid])
  {
    if step.Move? && step.rid == rid {
      assert RequestOk(env, s.db, s.meta, s.requests[rid]);
      AdvanceUnstored(env, s.db, s.meta, s.requests[rid], step.choice);
    } else if rid in s.requests {
      StepPreserves(env, s, step);
      UnstoredGrows(s.db, Apply(env, s, step).db, s.requests[rid]);
    }
  }

  /** A 201 without a store statement is a replay, and replays name committed tags. */
  lemma {:induction false} NeverStored(env: Env, run: seq<State>, steps: seq<Step>, j: nat, rid: nat)
    requires IsRun(env, run, steps) && j < |run| && NotStored(run, steps, j, rid) && rid in run[j].requests
    ensures Unstored(run[j].db, run[j].requests[rid])
  {
    assert run[0].requests == map[];
    assert j > 0;
    RunInv(env, run, steps, j - 1);
    if rid in run[j - 1].requests {
      NeverStored(env, run, steps, j - 1, rid);
      assert !StoresAt(run, steps, j - 1, rid);
    }
    StepUnstored(env, run[j - 1], steps[j - 1], rid);
  }

  // ----- Exactly which -----

  /** In every run, a 201 is about a tag that is not committed exactly when, at the moment its
      response was to be stored, its key had been recorded and its own advertiser and name had
      no committed tag. */
  lemma DiscardedExactly(env: Env, run: seq<State>, steps: seq<Step>, j: nat, rid: nat)
    requires IsRun(env, run, steps) && DistinctDraws(run, steps) && j < |run|
    requires rid in run[j].requests && run[j].requests[rid].stage.Done? && run[j].requests[rid].stage.outcome.Created?
    ensures !Names(run[j].db, run[j].requests[rid].stage.outcome.body)
       <==> exists k: nat :: k < j && DiscardsAt(run, steps, k, rid)
  {
    if k: nat :| k < j && StoresAt(run, steps, k, rid) {
      if !DiscardsAt(run, steps, k, rid) {
        KeptStore(env, run, steps, k, j, rid);
      }
      forall l: nat | l < j && DiscardsAt(run, steps, l, rid)
        ensures !Names(run[j].db, run[j].requests[rid].stage.outcome.body)
      {
        LostStore(env, run, steps, l, j, rid);
      }
    } else {
      NeverStored(env, run, steps, j, rid);
    }
  }

  /** The request is past its lookup, and not over. */
  predicate Past(s: State, rid: nat, input: Input) {
    rid in s.requests && s.requests[rid].input == input && 1 <= Rank(s.requests[rid].stage) <= 8
  }

  lemma StepPasses(env: Env, s: State, step: Step, rid: nat, input: Input)
    requires Enabled(s, step) && Past(Apply(env, s, step), rid, input)
    ensures || Past(s, rid, input)
            || (step.Move? && step.rid == rid && rid in s.requests && s.requests[rid].stage == AtKey && !KeyTaken(s.db, input))
  {
  }

  /** Past its lookup a request has seen its key free. */
  lemma {:induction false} KeyWasFree(env: Env, run: seq<State>, steps: seq<Step>, i: nat, rid: nat, input: Input)
    returns (l: nat)
    requires IsRun(env, run, steps) && i < |run| && Past(run[i], rid, input)
    ensures l < i && MovesAt(run, steps, l, rid) && run[l].requests[rid].stage == AtKey && !KeyTaken(run[l].db, input)
  {
    assert run[0].requests == map[];
    assert i > 0;
    StepPasses(env, run[i - 1], steps[i - 1], rid, input);
    if Past(run[i - 1], rid, input) {
      l := KeyWasFree(env, run, steps, i - 1, rid, input);
    } else {
      l := i - 1;
    }
  }

  /** Then, and only while the request was in flight, its key was recorded for another
      advertiser or name. */
  lemma DiscardedForAnother(env: Env, run: seq<State>, steps: seq<Step>, k: nat, rid: nat) returns (l: nat)
    requires IsRun(env, run, steps) && DiscardsAt(run, steps, k, rid)
    ensures var input := run[k].requests[rid].input;
            && l < k && MovesAt(run, steps, l, rid) && !KeyTaken(run[l].db, input)
            && KeyTaken(run[k].db, input)
            && !About(run[k].db.records[(ENDPOINT, KeyOf(input).value)].body, input)
  {
    l := KeyWasFree(env, run, steps, k, rid, run[k].requests[rid].input);
    RunInv(env, run, steps, k);
    var input := run[k].requests[rid].input;
    var body := run[k].db.records[(ENDPOINT, KeyOf(input).value)].body;
    assert Names(run[k].db, body);
    assert SameName(run[k].db.tags[body.id], body.advertiser, body.columns.name);
  }
}
