/** Serving one request after the other: the same request again finds what the first one left. */
module Retries {
  import opened Prelude
  import opened Requests
  import opened MetaAdapter
  import opened Hub
  import opened HubInvariant
  import opened HubRuns
  import opened GetOrCreate
  import opened Serial

  // ----- Serial runs -----

  /** At most one request is in flight. */
  ghost predicate OneAtATime(s: State) {
    forall a, b :: a in s.requests && b in s.requests && Live(s.requests[a]) && Live(s.requests[b]) ==> a == b
  }

  /** In a serial run two 201s for one advertiser and name carry one tag id, whatever keys
      the requests bring, as long as the request hash tells them apart. */
  lemma SerialRunsGetOrCreate(env: Env, run: seq<State>, steps: seq<Step>, i: nat, j: nat, a: nat, b: nat)
    requires IsRun(env, run, steps) && i <= j < |run|
    requires forall k :: 0 <= k < |run| ==> OneAtATime(run[k]) && HashesTell(env, run[k])
    requires a in run[i].requests && run[i].requests[a].stage.Done? && run[i].requests[a].stage.outcome.Created?
    requires b in run[j].requests && run[j].requests[b].stage.Done? && run[j].requests[b].stage.outcome.Created?
    requires var (x, y) := (run[i].requests[a].input, run[j].requests[b].input);
             x.advertiser == y.advertiser && x.payload.columns.name == y.payload.columns.name
    ensures run[i].requests[a].stage.outcome.body.id == run[j].requests[b].stage.outcome.body.id
  {
    forall k | 0 <= k < |run|
      ensures KeysAgree(run[k])
    {
    }
    SameNameSameTag(env, run, steps, i, j, a, b);
  }

  // ----- The same request again -----

  predicate KeyFree(db: Db, r: Request) {
    KeyOf(r.input).Some? ==> (ENDPOINT, KeyOf(r.input).value) !in db.records
  }

  predicate OwnsPixel(db: Db, input: Input) {
    && input.payload.pixelId in db.pixels
    && db.pixels[input.payload.pixelId].advertiser == input.advertiser
  }

  /** What the statements so far have established of the very tables the next one will see. */
  predicate Passed(env: Env, db: Db, r: Request) {
    match r.stage
    case AtKey => true
    case AtAdvertiser => KeyFree(db, r)
    case AtPixel => KeyFree(db, r) && AccountOf(db, r.input.advertiser) != ""
    case AtRollback(_) => true
    case Done(outcome) => !outcome.Created?
    case AtCommit(out) =>
      && KeyFree(db, r) && AccountOf(db, r.input.advertiser) != "" && OwnsPixel(db, r.input)
      && r.writes.record == KeyedRecord(env, r, out)
    case _ => KeyFree(db, r) && AccountOf(db, r.input.advertiser) != "" && OwnsPixel(db, r.input)
  }

  ghost predicate OnTrack(env: Env, db: Db, meta: MetaState, r: Request) {
    && TablesOk(env, db, meta) && RequestOk(env, db, meta, r)
    && AnswerOk(db, r) && Passed(env, db, r)
  }

  /** What a first answer leaves for the next request of the same content. */
  ghost predicate Repeatable(env: Env, db: Db, input: Input, body: Body) {
    && Names(db, body)
    && match KeyOf(input)
       case Some(key) =>
         (ENDPOINT, key) in db.records && db.records[(ENDPOINT, key)] == Record(env.requestHash(input), 201, body)
       case None =>
         About(body, input) && AccountOf(db, input.advertiser) != "" && OwnsPixel(db, input)
  }

  ghost predicate Leaves(env: Env, input: Input, served: Served) {
    && TablesOk(env, served.db, served.meta)
    && (served.outcome.Created? ==> Repeatable(env, served.db, input, served.outcome.body))
  }

  lemma StorePassed(env: Env, db: Db, r: Request)
    requires Passed(env, db, r) && r.stage.AtStore? && r.writes.record.None?
    ensures Passed(env, db, env.StoreRecord(db, r, r.stage.out))
  {
  }

  lemma PassedOn(env: Env, db: Db, meta: MetaState, r: Request, c: Choice)
    requires AllSettled(db, meta) && RequestOk(env, db, meta, r) && Passed(env, db, r)
    requires !r.stage.AtKey? && !r.stage.AtCommit? && !r.stage.Done?
    ensures Passed(env, db, env.Advance(db, meta, r, c).1)
  {
    if r.stage == AtName {
      LookUpNameShape(env, db, meta, r);
    } else if r.stage.AtStore? {
      StorePassed(env, db, r);
    }
  }

  lemma AnsweredOn(env: Env, db: Db, meta: MetaState, r: Request, c: Choice)
    requires OnTrack(env, db, meta, r) && !r.stage.AtKey? && !r.stage.AtCommit? && !r.stage.Done?
    ensures AnswerOk(db, env.Advance(db, meta, r, c).1)
  {
    if r.stage.AtName? {
      NameAnswers(env, db, meta, r, c);
    } else if r.stage.AtMeta? {
      MetaAnswers(env, db, meta, r, c);
    } else if r.stage.AtStore? {
      StoreAnswers(env, db, meta, r, c);
    } else {
      OtherStagesAnswer(env, db, meta, r, c);
    }
  }

  lemma OnTrackOn(env: Env, db: Db, meta: MetaState, r: Request, c: Choice)
    requires OnTrack(env, db, meta, r) && !r.stage.AtKey? && !r.stage.AtCommit? && !r.stage.Done?
    ensures var (meta', r') := env.Advance(db, meta, r, c);
            OnTrack(env, db, meta', r') && r'.input == r.input && !r'.stage.AtKey?
  {
    var (meta', r') := env.Advance(db, meta, r, c);
    AdvanceOk(env, db, meta, r, c);
    AdvanceFurther(env, db, meta, r, c);
    TablesGrow(env, db, meta, db, meta');
    PassedOn(env, db, meta, r, c);
    AnsweredOn(env, db, meta, r, c);
  }

  lemma CommittedRepeats(env: Env, db: Db, db': Db, r: Request, out: Body)
    requires Names(db', out) && About(out, r.input)
    requires db'.records == CommitRecord(db.records, KeyedRecord(env, r, out))
    requires db'.advertisers == db.advertisers && db'.pixels == db.pixels
    requires AccountOf(db, r.input.advertiser) != "" && OwnsPixel(db, r.input)
    ensures Repeatable(env, db', r.input, out)
  {
  }

  /** In a session that was alone nothing is thrown away. */
  lemma NotDiscarded(env: Env, db: Db, r: Request)
    requires r.stage.AtCommit? && Passed(env, db, r)
    ensures !Discarded(r)
  {
    if KeyOf(r.input).Some? {
      assert r.writes.record.Some?;
    }
  }

  lemma CommitIsRepeatable(env: Env, db: Db, meta: MetaState, r: Request, w: Writes, out: Body)
    requires TablesOk(env, db, meta) && RequestOk(env, db, meta, r) && AnswerOk(db, r) && Passed(env, db, r)
    requires r.stage == AtCommit(out) && r.writes == w
    ensures TablesOk(env, Commit(db, w), meta)
    ensures Repeatable(env, Commit(db, w), r.input, out)
  {
    NotDiscarded(env, db, r);
    CommitTablesOk(env, db, meta, r);
    CommittedRepeats(env, db, Commit(db, w), r, out);
  }

  lemma {:induction false} ServeOnTrack(env: Env, db: Db, meta: MetaState, r: Request, choose: nat -> Choice)
    requires OnTrack(env, db, meta, r) && !r.stage.AtKey?
    ensures Leaves(env, r.input, Serve(env, db, meta, r, choose))
    decreases 10 - Rank(r.stage)
  {
    if r.stage.AtCommit? {
      CommitIsRepeatable(env, db, meta, r, r.writes, r.stage.out);
    } else if !r.stage.Done? {
      var c := choose(Rank(r.stage));
      var (meta', r') := env.Advance(db, meta, r, c);
      AdvanceFurther(env, db, meta, r, c);
      ServeStep(env, db, meta, r, choose, meta', r');
      OnTrackOn(env, db, meta, r, c);
      ServeOnTrack(env, db, meta', r', choose);
    }
  }

  /** A request that goes on after its lookup, or ends there for good. */
  lemma StartsOnTrack(env: Env, db: Db, meta: MetaState, r: Request)
    requires TablesOk(env, db, meta) && ValidColumns(r.input.payload.columns) && r.writes == NO_WRITES
    requires (r.stage == AtAdvertiser && KeyFree(db, r)) || r.stage == AtRollback(KeyConflict)
    ensures OnTrack(env, db, meta, r)
  {
  }

  lemma ReplayIsRepeatable(env: Env, db: Db, input: Input, key: string, body: Body)
    requires AllNamed(db) && KeyOf(input) == Some(key) && (ENDPOINT, key) in db.records
    requires db.records[(ENDPOINT, key)].requestHash == env.requestHash(input)
    requires db.records[(ENDPOINT, key)].body == body
    ensures Repeatable(env, db, input, body)
  {
    var record := db.records[(ENDPOINT, key)];
    assert record.status == 201 && Names(db, record.body);
  }

  lemma DoneServed(env: Env, db: Db, meta: MetaState, r: Request, choose: nat -> Choice, outcome: Outcome)
    requires r.stage == Done(outcome)
    ensures Serve(env, db, meta, r, choose) == Served(db, meta, outcome, 0)
  {
  }

  lemma ReplayLeaves(env: Env, db: Db, meta: MetaState, r: Request, choose: nat -> Choice, key: string, body: Body)
    requires TablesOk(env, db, meta) && KeyOf(r.input) == Some(key) && (ENDPOINT, key) in db.records
    requires db.records[(ENDPOINT, key)].requestHash == env.requestHash(r.input)
    requires db.records[(ENDPOINT, key)].body == body && r.stage == Done(Created(body))
    ensures Leaves(env, r.input, Serve(env, db, meta, r, choose))
  {
    ReplayIsRepeatable(env, db, r.input, key, body);
    DoneServed(env, db, meta, r, choose, Created(body));
  }

  lemma StartLeaves(env: Env, db: Db, meta: MetaState, r: Request, choose: nat -> Choice)
    requires TablesOk(env, db, meta) && ValidColumns(r.input.payload.columns) && r.writes == NO_WRITES
    requires (r.stage == AtAdvertiser && KeyFree(db, r)) || r.stage == AtRollback(KeyConflict)
    ensures Leaves(env, r.input, Serve(env, db, meta, r, choose))
  {
    StartsOnTrack(env, db, meta, r);
    ServeOnTrack(env, db, meta, r, choose);
  }

  lemma LookUpKeyShape(env: Env, db: Db, r: Request)
    ensures var r' := env.LookUpKey(db, r);
            if KeyFree(db, r) then r' == r.(stage := AtAdvertiser)
            else
              var record := db.records[(ENDPOINT, KeyOf(r.input).value)];
              r' == r.(stage := if record.requestHash == env.requestHash(r.input) then Done(Created(record.body))
                                else AtRollback(KeyConflict))
  {
  }

  lemma LookUpLeaves(env: Env, db: Db, meta: MetaState, r: Request, choose: nat -> Choice)
    requires TablesOk(env, db, meta) && ValidColumns(r.input.payload.columns)
    requires r.stage == AtKey && r.writes == NO_WRITES
    ensures Leaves(env, r.input, Serve(env, db, meta, env.LookUpKey(db, r), choose))
  {
    LookUpKeyShape(env, db, r);
    if env.LookUpKey(db, r).stage.Done? {
      ReplayLeaves(env, db, meta, env.LookUpKey(db, r), choose, KeyOf(r.input).value,
                   db.records[(ENDPOINT, KeyOf(r.input).value)].body);
    } else {
      StartLeaves(env, db, meta, env.LookUpKey(db, r), choose);
    }
  }

  lemma ServeFromKey(env: Env, db: Db, meta: MetaState, r: Request, choose: nat -> Choice)
    requires TablesOk(env, db, meta) && ValidColumns(r.input.payload.columns)
    requires r.stage == AtKey && r.writes == NO_WRITES
    ensures Leaves(env, r.input, Serve(env, db, meta, r, choose))
  {
    LookUpLeaves(env, db, meta, r, choose);
    ServeStep(env, db, meta, r, choose, meta, env.LookUpKey(db, r));
  }

  lemma KeyedAgain(env: Env, db: Db, meta: MetaState, input: Input, body: Body, choose: nat -> Choice)
    requires Repeatable(env, db, input, body) && KeyOf(input).Some?
    ensures Serve(env, db, meta, NewRequest(input), choose) == Served(db, meta, Created(body), 0)
  {
    var r := NewRequest(input);
    ServeStep(env, db, meta, r, choose, meta, r.(stage := Done(Created(body))));
  }

  lemma LookUpFinds(env: Env, db: Db, meta: MetaState, r: Request, body: Body)
    requires AllSettled(db, meta) && UniqueNames(db.tags) && Names(db, body) && About(body, r.input)
    ensures env.LookUpName(db, r) == r.(stage := AtStore(StoredBody(body)))
  {
    assert SameName(db.tags[body.id], r.input.advertiser, r.input.payload.columns.name);
    assert Settled(db, meta, db.tags[body.id]);
    StoredTwice(db.tags[body.id].payload.value.columns);
  }

  /** From the name lookup on, when the tag is there. */
  lemma FoundAgain(env: Env, db: Db, meta: MetaState, r: Request, body: Body, choose: nat -> Choice)
    requires AllSettled(db, meta) && UniqueNames(db.tags) && Names(db, body) && About(body, r.input)
    requires r.stage == AtName && KeyOf(r.input).None? && r.writes == NO_WRITES
    ensures Serve(env, db, meta, r, choose) == Served(db, meta, Created(StoredBody(body)), 0)
  {
    var found := r.(stage := AtStore(StoredBody(body)));
    var stored := r.(stage := AtCommit(StoredBody(body)));
    LookUpFinds(env, db, meta, r, body);
    ServeStep(env, db, meta, r, choose, meta, found);
    ServeStep(env, db, meta, found, choose, meta, stored);
    assert Commit(db, NO_WRITES) == db;
  }

  /** The statements before the name lookup, when they succeed. */
  lemma Loads(env: Env, db: Db, meta: MetaState, input: Input, choose: nat -> Choice) returns (r: Request)
    requires KeyOf(input).None? && AccountOf(db, input.advertiser) != "" && OwnsPixel(db, input)
    ensures r.stage == AtName && r.input == input && r.writes == NO_WRITES
    ensures Serve(env, db, meta, NewRequest(input), choose) == Serve(env, db, meta, r, choose)
  {
    var r0 := NewRequest(input);
    var r1 := r0.(stage := AtAdvertiser);
    var r2 := r1.(account := AccountOf(db, input.advertiser), stage := AtPixel);
    r := r2.(metaPixel := db.pixels[input.payload.pixelId].metaId, stage := AtName);
    ServeStep(env, db, meta, r0, choose, meta, r1);
    ServeStep(env, db, meta, r1, choose, meta, r2);
    ServeStep(env, db, meta, r2, choose, meta, r);
  }

  lemma KeylessAgain(env: Env, db: Db, meta: MetaState, input: Input, body: Body, choose: nat -> Choice)
    requires TablesOk(env, db, meta) && Repeatable(env, db, input, body) && KeyOf(input).None?
    ensures Serve(env, db, meta, NewRequest(input), choose) == Served(db, meta, Created(StoredBody(body)), 0)
  {
    var r := Loads(env, db, meta, input, choose);
    FoundAgain(env, db, meta, r, body, choose);
  }

  /** A request that was answered 201 can be sent again, whatever the clock says by then,
      whatever Meta has created since and whether it answers or not: it gets the same body
      (without a key, as the row stores it), changes no table, and does not call Meta. */
  lemma ServedAgain(env: Env, db: Db, meta: MetaState, input: Input, choose: nat -> Choice,
                    later: MetaState, again: nat -> Choice)
    requires TablesOk(env, db, meta) && ValidColumns(input.payload.columns)
    requires Indexed(env.digest, later) && MetaGrows(Serve(env, db, meta, NewRequest(input), choose).meta, later)
    ensures var first := Serve(env, db, meta, NewRequest(input), choose);
            first.outcome.Created? ==>
              Serve(env, first.db, later, NewRequest(input), again)
              == Served(first.db, later,
                        Created(if KeyOf(input).Some? then first.outcome.body else StoredBody(first.outcome.body)), 0)
  {
    var first := Serve(env, db, meta, NewRequest(input), choose);
    ServeFromKey(env, db, meta, NewRequest(input), choose);
    TablesGrow(env, first.db, first.meta, first.db, later);
    if first.outcome.Created? {
      if KeyOf(input).Some? {
        KeyedAgain(env, first.db, later, input, first.outcome.body, again);
      } else {
        KeylessAgain(env, first.db, later, input, first.outcome.body, again);
      }
    }
  }
}
