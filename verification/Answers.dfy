/** What a 201 says, field by field, under every interleaving: a request that inserted a tag of
    its own tells what it was asked for; any other tells what a committed row says. */
module Answers {
  import opened Prelude
  import opened Domain
  import opened Requests
  import opened MetaAdapter
  import opened Hub
  import opened HubInvariant
  import opened HubRuns
  import opened HubTheorems

  /** The step is the insert of this request. */
  predicate Inserts(s: State, step: Step, rid: nat) {
    step.Move? && step.rid == rid && rid in s.requests && s.requests[rid].stage == AtInsert
  }

  /** The response repeats the request, the value as it came, under the drawn id, ACTIVE and
      with the Meta id of the advertiser's account and the name. */
  predicate TellsInput(env: Env, db: Db, input: Input, tagId: Uuid, body: Body) {
    && body.id == tagId
    && body.advertiser == input.advertiser
    && body.pixelId == input.payload.pixelId
    && body.columns == input.payload.columns
    && body.status == Active
    && AccountOf(db, input.advertiser) != ""
    && body.metaId == Some(StableId(env.digest, (AccountOf(db, input.advertiser), input.payload.columns.name)))
  }

  // ----- A request with a tag of its own -----

  predicate HoldsId(r: Request, tagId: Uuid) {
    r.writes.tag.Some? && r.writes.tag.value.0 == tagId
  }

  predicate OwnTag(env: Env, db: Db, r: Request, tagId: Uuid) {
    match r.stage
    case AtToken => HoldsId(r, tagId)
    case AtRefresh(_) => HoldsId(r, tagId)
    case AtMeta => HoldsId(r, tagId)
    case AtStore(out) => TellsInput(env, db, r.input, tagId, out)
    case AtCommit(out) => TellsInput(env, db, r.input, tagId, out)
    case AtRollback(error) => !error.Created?
    case Done(outcome) => outcome.Created? ==> TellsInput(env, db, r.input, tagId, outcome.body)
    case _ => false
  }

  lemma InsertOwns(env: Env, db: Db, meta: MetaState, r: Request, c: Choice)
    requires r.stage == AtInsert
    ensures var (meta', r') := env.Advance(db, meta, r, c);
            OwnTag(env, db, r', c.tagId) && r'.input == r.input
  {
  }

  /** A new row under the drawn id, for an advertiser with this account. */
  predicate Holding(db: Db, r: Request, tagId: Uuid) {
    && r.writes.tag == Some((tagId, NewTag(r.input)))
    && r.account == AccountOf(db, r.input.advertiser) != ""
  }

  /** What the call answers tells what was asked for. */
  lemma AnswerTells(env: Env, db: Db, meta: MetaState, r: Request, tagId: Uuid)
    requires Indexed(env.digest, meta) && Holding(db, r, tagId)
    requires env.CallMeta(meta, r, Answered).1.stage.AtStore?
    ensures TellsInput(env, db, r.input, tagId, env.CallMeta(meta, r, Answered).1.stage.out)
  {
    CreateKeeps(env.digest, meta, r.account, MetaInputOf(r));
  }

  lemma CallOwns(env: Env, db: Db, meta: MetaState, r: Request, answer: Answer, tagId: Uuid)
    requires Indexed(env.digest, meta) && RequestOk(env, db, meta, r) && r.stage == AtMeta && HoldsId(r, tagId)
    ensures OwnTag(env, db, env.CallMeta(meta, r, answer).1, tagId)
  {
    assert Holding(db, r, tagId);
    if env.CallMeta(meta, r, answer).1.stage.AtStore? {
      AnswerTells(env, db, meta, r, tagId);
    }
  }

  lemma MetaOwns(env: Env, db: Db, meta: MetaState, r: Request, c: Choice, tagId: Uuid)
    requires Indexed(env.digest, meta) && RequestOk(env, db, meta, r) && r.stage == AtMeta && HoldsId(r, tagId)
    ensures OwnTag(env, db, env.Advance(db, meta, r, c).1, tagId)
  {
    CallOwns(env, db, meta, r, c.answer, tagId);
    assert env.Advance(db, meta, r, c) == env.CallMeta(meta, r, c.answer);
  }

  lemma QuietOwns(env: Env, db: Db, meta: MetaState, r: Request, c: Choice, tagId: Uuid)
    requires OwnTag(env, db, r, tagId) && !r.stage.AtMeta? && !r.stage.AtCommit? && !r.stage.Done?
    ensures OwnTag(env, db, env.Advance(db, meta, r, c).1, tagId)
  {
  }

  lemma OwnStep(env: Env, db: Db, meta: MetaState, r: Request, c: Choice, tagId: Uuid)
    requires Indexed(env.digest, meta) && RequestOk(env, db, meta, r) && OwnTag(env, db, r, tagId)
    requires !r.stage.AtCommit? && !r.stage.Done?
    ensures OwnTag(env, db, env.Advance(db, meta, r, c).1, tagId)
  {
    if r.stage.AtMeta? {
      MetaOwns(env, db, meta, r, c, tagId);
    } else {
      QuietOwns(env, db, meta, r, c, tagId);
    }
  }

  lemma OwnGrows(env: Env, db: Db, db': Db, r: Request, tagId: Uuid)
    requires OwnTag(env, db, r, tagId) && Grows(db, db')
    ensures OwnTag(env, db', r, tagId)
  {
  }

  lemma MoveOwns(env: Env, s: State, rid: nat, c: Choice, tagId: Uuid)
    requires Inv(env, s) && Enabled(s, Move(rid, c)) && OwnTag(env, s.db, s.requests[rid], tagId)
    ensures var s' := MoveRequest(env, s, rid, c);
            if s.requests[rid].stage.AtCommit? then s'.requests[rid].stage == Done(Created(s.requests[rid].stage.out))
            else s'.db == s.db && OwnTag(env, s.db, s'.requests[rid], tagId)
  {
    var r := s.requests[rid];
    if !r.stage.AtCommit? {
      assert RequestOk(env, s.db, s.meta, r);
      OwnStep(env, s.db, s.meta, r, c, tagId);
    }
  }

  lemma GrowsOn(env: Env, s: State, step: Step, s': State)
    requires Inv(env, s) && Enabled(s, step) && Apply(env, s, step) == s'
    ensures Grows(s.db, s'.db)
  {
    StepPreserves(env, s, step);
  }

  lemma StepOwns(env: Env, s: State, step: Step, rid: nat, tagId: Uuid)
    requires Inv(env, s) && Enabled(s, step) && rid in s.requests && OwnTag(env, s.db, s.requests[rid], tagId)
    ensures var s' := Apply(env, s, step);
            rid in s'.requests && s'.requests[rid].input == s.requests[rid].input
            && OwnTag(env, s'.db, s'.requests[rid], tagId)
  {
    var s' := Apply(env, s, step);
    InputStays(env, s, step, rid);
    GrowsOn(env, s, step, s');
    OwnGrows(env, s.db, s'.db, s.requests[rid], tagId);
    if step.Move? && step.rid == rid {
      MoveOwns(env, s, rid, step.choice, tagId);
    }
  }

  lemma {:induction false} OwnAlong(env: Env, run: seq<State>, steps: seq<Step>, k: nat, j: nat, rid: nat)
    requires IsRun(env, run, steps) && k < j < |run| && Inserts(run[k], steps[k], rid)
    ensures rid in run[j].requests && run[j].requests[rid].input == run[k].requests[rid].input
    ensures OwnTag(env, run[j].db, run[j].requests[rid], steps[k].choice.tagId)
    decreases j
  {
    if j == k + 1 {
      InsertOwns(env, run[k].db, run[k].meta, run[k].requests[rid], steps[k].choice);
    } else {
      OwnAlong(env, run, steps, k, j - 1, rid);
      RunInv(env, run, steps, j - 1);
      StepOwns(env, run[j - 1], steps[j - 1], rid, steps[k].choice.tagId);
    }
  }

  /** A request that inserted and is answered 201 is told what it asked for, whatever others did
      meanwhile, and whether or not its tag was then thrown away. */
  lemma CreatedTellsInput(env: Env, run: seq<State>, steps: seq<Step>, k: nat, j: nat, rid: nat)
    requires IsRun(env, run, steps) && k < j < |run| && Inserts(run[k], steps[k], rid)
    requires rid in run[j].requests && run[j].requests[rid].stage.Done? && run[j].requests[rid].stage.outcome.Created?
    ensures TellsInput(env, run[j].db, run[j].requests[rid].input, steps[k].choice.tagId,
                       run[j].requests[rid].stage.outcome.body)
  {
    OwnAlong(env, run, steps, k, j, rid);
  }

  // ----- A request that found a tag, or a recorded response -----

  predicate FoundTag(db: Db, r: Request) {
    match r.stage
    case AtToken => false
    case AtRefresh(_) => false
    case AtMeta => false
    case AtStore(out) => Names(db, out)
    case AtCommit(out) => Names(db, out)
    case AtRollback(error) => !error.Created?
    case Done(outcome) => outcome.Created? ==> Names(db, outcome.body)
    case _ => true
  }

  lemma KeyFinds(env: Env, db: Db, meta: MetaState, r: Request, c: Choice)
    requires AllNamed(db) && r.stage == AtKey
    ensures FoundTag(db, env.Advance(db, meta, r, c).1)
  {
  }

  lemma NameFinds(env: Env, db: Db, meta: MetaState, r: Request, c: Choice)
    requires AllSettled(db, meta) && RequestOk(env, db, meta, r) && r.stage == AtName
    ensures FoundTag(db, env.Advance(db, meta, r, c).1)
  {
    LookUpNameShape(env, db, meta, r);
  }

  lemma QuietFinds(env: Env, db: Db, meta: MetaState, r: Request, c: Choice)
    requires FoundTag(db, r) && !r.stage.AtCommit? && !r.stage.Done?
    requires !r.stage.AtKey? && !r.stage.AtName? && !r.stage.AtInsert?
    ensures FoundTag(db, env.Advance(db, meta, r, c).1)
  {
  }

  lemma FoundStep(env: Env, db: Db, meta: MetaState, r: Request, c: Choice)
    requires AllSettled(db, meta) && AllNamed(db) && RequestOk(env, db, meta, r) && FoundTag(db, r)
    requires !r.stage.AtInsert? && !r.stage.AtCommit? && !r.stage.Done?
    ensures FoundTag(db, env.Advance(db, meta, r, c).1)
  {
    if r.stage.AtKey? {
      KeyFinds(env, db, meta, r, c);
    } else if r.stage.AtName? {
      NameFinds(env, db, meta, r, c);
    } else {
      QuietFinds(env, db, meta, r, c);
    }
  }

  lemma FoundGrows(db: Db, db': Db, r: Request)
    requires FoundTag(db, r) && Grows(db, db')
    ensures FoundTag(db', r)
  {
  }

  lemma MoveFinds(env: Env, s: State, rid: nat, c: Choice)
    requires Inv(env, s) && Enabled(s, Move(rid, c)) && !s.requests[rid].stage.AtInsert? && FoundTag(s.db, s.requests[rid])
    ensures var s' := MoveRequest(env, s, rid, c);
            if s.requests[rid].stage.AtCommit? then s'.requests[rid].stage == Done(Created(s.requests[rid].stage.out))
            else s'.db == s.db && FoundTag(s.db, s'.requests[rid])
  {
    var r := s.requests[rid];
    if !r.stage.AtCommit? {
      assert RequestOk(env, s.db, s.meta, r);
      FoundStep(env, s.db, s.meta, r, c);
    }
  }

  lemma StepFinds(env: Env, s: State, step: Step, rid: nat)
    requires Inv(env, s) && Enabled(s, step) && !Inserts(s, step, rid)
    requires rid in s.requests && FoundTag(s.db, s.requests[rid])
    ensures var s' := Apply(env, s, step);
            rid in s'.requests && FoundTag(s'.db, s'.requests[rid])
  {
    var s' := Apply(env, s, step);
    InputStays(env, s, step, rid);
    GrowsOn(env, s, step, s');
    FoundGrows(s.db, s'.db, s.requests[rid]);
    if step.Move? && step.rid == rid {
      MoveFinds(env, s, rid, step.choice);
    }
  }

  lemma Arrives(env: Env, s: State, step: Step, rid: nat)
    requires Enabled(s, step) && rid !in s.requests && rid in Apply(env, s, step).requests
    ensures Apply(env, s, step).requests[rid].stage == AtKey
  {
  }

  lemma {:induction false} FoundAlong(env: Env, run: seq<State>, steps: seq<Step>, j: nat, rid: nat)
    requires IsRun(env, run, steps) && j < |run| && rid in run[j].requests
    requires forall k :: 0 <= k < j ==> !Inserts(run[k], steps[k], rid)
    ensures FoundTag(run[j].db, run[j].requests[rid])
  {
    assert j > 0;
    if rid in run[j - 1].requests {
      FoundAlong(env, run, steps, j - 1, rid);
      RunInv(env, run, steps, j - 1);
      StepFinds(env, run[j - 1], steps[j - 1], rid);
    } else {
      Arrives(env, run[j - 1], steps[j - 1], rid);
    }
  }

  /** A request that never inserted and is answered 201, from its key or from the name, is told
      what a committed row says, then and ever after. */
  lemma CreatedTellsRow(env: Env, run: seq<State>, steps: seq<Step>, i: nat, j: nat, rid: nat)
    requires IsRun(env, run, steps) && i <= j < |run|
    requires forall k :: 0 <= k < i ==> !Inserts(run[k], steps[k], rid)
    requires rid in run[i].requests && run[i].requests[rid].stage.Done? && run[i].requests[rid].stage.outcome.Created?
    ensures TellsRow(run[j].db, run[i].requests[rid].stage.outcome.body)
  {
    var r := run[i].requests[rid];
    FoundAlong(env, run, steps, i, rid);
    RunGrows(env, run, steps, i, j);
    FoundGrows(run[i].db, run[j].db, r);
    NamesTellsRow(run[j].db, r.stage.outcome.body);
  }
}
