/** Safety of the create protocol under every interleaving of requests, with Meta, the token
    service or the database failing at any point. */
module HubTheorems {
  import opened Prelude
  import opened Domain
  import opened Requests
  import opened MetaAdapter
  import opened Hub
  import opened HubInvariant
  import opened HubRuns
  import Pixels

  /** A committed tag is ACTIVE with a Meta id, is the only one of its advertiser and name,
      and its row never changes again. */
  lemma CommittedTagsAreFinal(env: Env, run: seq<State>, steps: seq<Step>, i: nat, j: nat, id: Uuid)
    requires IsRun(env, run, steps) && i <= j < |run| && id in run[i].db.tags
    ensures run[i].db.tags[id].status == Active && run[i].db.tags[id].metaId.Some?
    ensures id in run[j].db.tags && run[j].db.tags[id] == run[i].db.tags[id]
    ensures forall other :: other in run[j].db.tags
              && SameName(run[j].db.tags[other], run[i].db.tags[id].advertiser, run[i].db.tags[id].columns.name)
              ==> other == id
  {
    RunInv(env, run, steps, i);
    RunInv(env, run, steps, j);
    RunGrows(env, run, steps, i, j);
    assert Settled(run[i].db, run[i].meta, run[i].db.tags[id]);
  }

  /** So the branch that resumes a row which is not ACTIVE is never taken. */
  lemma NothingToResume(env: Env, run: seq<State>, steps: seq<Step>, i: nat, rid: nat)
    requires IsRun(env, run, steps) && i < |run|
    requires rid in run[i].requests && run[i].requests[rid].stage == AtName
    ensures var r' := env.LookUpName(run[i].db, run[i].requests[rid]);
            r'.stage.AtStore? || r'.stage == AtInsert
  {
    RunInv(env, run, steps, i);
    LookUpNameShape(env, run[i].db, run[i].meta, run[i].requests[rid]);
  }

  /** A committed idempotency record is never replaced, names a tag committed no later than
      itself, and its body says what that tag's row says for the rest of the run. */
  lemma RecordsNameCommittedTags(env: Env, run: seq<State>, steps: seq<Step>, i: nat, j: nat, key: RecordKey)
    requires IsRun(env, run, steps) && i <= j < |run| && key in run[i].db.records
    ensures var record := run[i].db.records[key];
            && record.status == 201
            && record.body.id in run[i].db.tags
            && key in run[j].db.records && run[j].db.records[key] == record
            && TellsRow(run[j].db, record.body)
  {
    RunInv(env, run, steps, i);
    RunGrows(env, run, steps, i, j);
    assert Names(run[i].db, run[i].db.records[key].body);
    NamesTellsRow(run[j].db, run[i].db.records[key].body);
  }

  /** A committed tag has the id of the response, and its row agrees with it field by field,
      but for the rounding of the value. */
  ghost predicate TellsRow(db: Db, body: Body) {
    && body.id in db.tags
    && var t := db.tags[body.id];
       && body.advertiser == t.advertiser && body.pixelId == t.pixelId
       && body.metaId == t.metaId && body.status == t.status
       && Holds(t.columns, body.columns)
  }

  lemma NamesTellsRow(db: Db, body: Body)
    ensures Names(db, body) <==> TellsRow(db, body)
  {
    if body.id in db.tags {
      StoredHolds(db.tags[body.id].columns, body.columns);
    }
  }

  /** Hub and Meta agree: the Meta id of a committed tag is that of the conversion Meta holds
      under the advertiser's ad account and the tag's name. */
  lemma HubAndMetaAgree(env: Env, run: seq<State>, steps: seq<Step>, i: nat, id: Uuid)
    requires IsRun(env, run, steps) && i < |run| && id in run[i].db.tags
    ensures var t := run[i].db.tags[id];
            var slot := SlotOf(run[i].db, t);
            && slot.0 != "" && slot in run[i].meta.byName
            && t.metaId == Some(run[i].meta.byName[slot].id) == Some(StableId(env.digest, slot))
  {
    RunInv(env, run, steps, i);
    assert Settled(run[i].db, run[i].meta, run[i].db.tags[id]);
  }

  /** Two committed tags share a Meta id exactly when account and name coincide. */
  lemma SharedMetaId(env: Env, run: seq<State>, steps: seq<Step>, i: nat, a: Uuid, b: Uuid)
    requires IsRun(env, run, steps) && i < |run| && a in run[i].db.tags && b in run[i].db.tags
    requires NoBar(SlotOf(run[i].db, run[i].db.tags[a]).0) && NoBar(SlotOf(run[i].db, run[i].db.tags[b]).0)
    requires MetaAdapter.Separates(env.digest, SlotOf(run[i].db, run[i].db.tags[a]), SlotOf(run[i].db, run[i].db.tags[b]))
    ensures run[i].db.tags[a].metaId == run[i].db.tags[b].metaId
       <==> SlotOf(run[i].db, run[i].db.tags[a]) == SlotOf(run[i].db, run[i].db.tags[b])
  {
    HubAndMetaAgree(env, run, steps, i, a);
    HubAndMetaAgree(env, run, steps, i, b);
    StableIdInjective(env.digest, SlotOf(run[i].db, run[i].db.tags[a]), SlotOf(run[i].db, run[i].db.tags[b]));
  }

  /** A conversion that Meta once created, for a request that was then rolled back or by
      anyone else, is adopted by whichever tag is later committed for its account and name. */
  lemma OrphansAreAdopted(env: Env, run: seq<State>, steps: seq<Step>, i: nat, j: nat, slot: Slot, id: Uuid)
    requires IsRun(env, run, steps) && i <= j < |run| && slot in run[i].meta.byName
    requires id in run[j].db.tags && SlotOf(run[j].db, run[j].db.tags[id]) == slot
    ensures run[j].db.tags[id].metaId == Some(run[i].meta.byName[slot].id)
  {
    HubAndMetaAgree(env, run, steps, j, id);
    RunGrows(env, run, steps, i, j);
  }

  /** The payload of a committed tag mirrors its columns, and names its pixel by Meta id even
      after a sync has moved that pixel to another advertiser. */
  lemma PayloadMirrorsRow(env: Env, run: seq<State>, steps: seq<Step>, i: nat, j: nat, id: Uuid)
    requires IsRun(env, run, steps) && i <= j < |run| && id in run[i].db.tags
    ensures var t := run[i].db.tags[id];
            && t.payload.Some?
            && Holds(t.columns, t.payload.value.columns)
            && t.pixelId in run[j].db.pixels
            && t.payload.value.pixelId == run[j].db.pixels[t.pixelId].metaId
            && (t.columns.value.None? <==> t.columns.currency.None?)
  {
    RunInv(env, run, steps, i);
    RunGrows(env, run, steps, i, j);
    var t := run[i].db.tags[id];
    assert Settled(run[i].db, run[i].meta, t);
    StoredHolds(t.columns, t.payload.value.columns);
  }

  /** No two pixel rows ever share a Meta id. */
  lemma {:induction false} PixelsStayUnique(env: Env, run: seq<State>, steps: seq<Step>, i: nat)
    requires IsRun(env, run, steps) && i < |run|
    ensures Pixels.UniqueMetaIds(run[i].db.pixels)
  {
    if i > 0 {
      PixelsStayUnique(env, run, steps, i - 1);
      RunInv(env, run, steps, i - 1);
      StepPixels(env, run[i - 1], steps[i - 1]);
    }
  }

  /** Only a sync changes the pixel table. */
  lemma StepPixels(env: Env, s: State, step: Step)
    requires AllOk(env, s.db, s.meta, s.requests) && Enabled(s, step)
    ensures Apply(env, s, step).db.pixels == if step.SyncPixels? then step.pixels else s.db.pixels
  {
    if step.Move? {
      assert Committable(s.db, s.requests[step.rid].writes);
    }
  }

  // ----- Errors -----

  lemma {:induction false} DoneIsFinal(env: Env, run: seq<State>, steps: seq<Step>, i: nat, j: nat, rid: nat)
    requires IsRun(env, run, steps) && i <= j < |run|
    requires rid in run[i].requests && run[i].requests[rid].stage.Done?
    ensures rid in run[j].requests && run[j].requests[rid] == run[i].requests[rid]
    decreases j
  {
    if i < j {
      DoneIsFinal(env, run, steps, i, j - 1, rid);
    }
  }

  predicate OfRequest(step: Step, rid: nat) {
    step == Crash(rid) || (step.Move? && step.rid == rid) || (step.Arrive? && step.rid == rid)
  }

  /** A request that ends in an error has left all tables exactly as it found them, step by
      step, whatever failed: tag row, refreshed token and record alike. */
  lemma ErrorsLeaveTables(env: Env, run: seq<State>, steps: seq<Step>, k: nat, j: nat, rid: nat)
    requires IsRun(env, run, steps) && k < j < |run| && OfRequest(steps[k], rid)
    requires rid in run[j].requests && run[j].requests[rid].stage.Done?
    requires !run[j].requests[rid].stage.outcome.Created?
    ensures run[k + 1].db == run[k].db
  {
    if steps[k].Move? && run[k].requests[rid].stage.AtCommit? {
      DoneIsFinal(env, run, steps, k + 1, j, rid);
    }
  }

  // ----- Idempotency -----

  /** Where a request can be whose key was already recorded when it arrived. */
  ghost predicate Replaying(env: Env, record: Record, r: Request) {
    match r.stage
    case AtKey => true
    case AtRollback(error) => error == KeyConflict && record.requestHash != env.requestHash(r.input)
    case Done(outcome) =>
      || outcome == Failure
      || (record.requestHash == env.requestHash(r.input) && outcome == Created(record.body))
      || (record.requestHash != env.requestHash(r.input) && outcome == KeyConflict)
    case _ => false
  }

  ghost predicate ReplayingIn(env: Env, record: Record, s: State, rid: nat, key: string) {
    rid in s.requests && KeyOf(s.requests[rid].input) == Some(key) ==> Replaying(env, record, s.requests[rid])
  }

  /** The request's own statement. */
  lemma ReplayMoves(env: Env, s: State, rid: nat, c: Choice, key: string, record: Record)
    requires Enabled(s, Move(rid, c)) && KeyOf(s.requests[rid].input) == Some(key)
    requires (ENDPOINT, key) in s.db.records && s.db.records[(ENDPOINT, key)] == record
    requires Replaying(env, record, s.requests[rid])
    ensures var s' := MoveRequest(env, s, rid, c);
            && rid in s'.requests && Replaying(env, record, s'.requests[rid])
            && s'.db == s.db && s'.meta == s.meta
  {
  }

  lemma ReplayStep(env: Env, s: State, step: Step, rid: nat, key: string, record: Record)
    requires Enabled(s, step)
    requires (ENDPOINT, key) in s.db.records && s.db.records[(ENDPOINT, key)] == record
    requires ReplayingIn(env, record, s, rid, key)
    ensures ReplayingIn(env, record, Apply(env, s, step), rid, key)
    ensures OfRequest(step, rid) && rid in s.requests && KeyOf(s.requests[rid].input) == Some(key)
        ==> Apply(env, s, step).db == s.db && Apply(env, s, step).meta == s.meta
  {
    if step.Move? && step.rid == rid {
      InputStays(env, s, step, rid);
      if KeyOf(s.requests[rid].input) == Some(key) {
        ReplayMoves(env, s, rid, step.choice, key, record);
      }
    }
  }

  /** Once a key is recorded, every later request with it, at any time after, is answered from
      the record: the recorded body for the same hash, the conflict for another. */
  lemma {:induction false} ReplaysForever(env: Env, run: seq<State>, steps: seq<Step>, i: nat, j: nat, rid: nat, key: string)
    requires IsRun(env, run, steps) && i <= j < |run|
    requires (ENDPOINT, key) in run[i].db.records && rid !in run[i].requests
    ensures ReplayingIn(env, run[i].db.records[(ENDPOINT, key)], run[j], rid, key)
    decreases j
  {
    if i < j {
      ReplaysForever(env, run, steps, i, j - 1, rid, key);
      RecordStays(env, run, steps, i, j - 1, (ENDPOINT, key));
      ReplayStep(env, run[j - 1], steps[j - 1], rid, key, run[i].db.records[(ENDPOINT, key)]);
    }
  }

  lemma RecordStays(env: Env, run: seq<State>, steps: seq<Step>, i: nat, j: nat, key: RecordKey)
    requires IsRun(env, run, steps) && i <= j < |run| && key in run[i].db.records
    ensures key in run[j].db.records && run[j].db.records[key] == run[i].db.records[key]
  {
    RunGrows(env, run, steps, i, j);
  }

  lemma InputStays(env: Env, s: State, step: Step, rid: nat)
    requires Enabled(s, step) && rid in s.requests
    ensures rid in Apply(env, s, step).requests && Apply(env, s, step).requests[rid].input == s.requests[rid].input
  {
  }

  /** And such a request changes no table and calls Meta at no step. */
  lemma ReplaysTouchNothing(env: Env, run: seq<State>, steps: seq<Step>, i: nat, k: nat, rid: nat, key: string)
    requires IsRun(env, run, steps) && i <= k < |steps| && OfRequest(steps[k], rid)
    requires (ENDPOINT, key) in run[i].db.records && rid !in run[i].requests
    requires rid in run[k + 1].requests && KeyOf(run[k + 1].requests[rid].input) == Some(key)
    ensures run[k + 1].db == run[k].db && run[k + 1].meta == run[k].meta
  {
    if rid in run[k].requests {
      InputStays(env, run[k], steps[k], rid);
      ReplaysForever(env, run, steps, i, k, rid, key);
      RecordStays(env, run, steps, i, k, (ENDPOINT, key));
      ReplayStep(env, run[k], steps[k], rid, key, run[i].db.records[(ENDPOINT, key)]);
    }
  }
}
