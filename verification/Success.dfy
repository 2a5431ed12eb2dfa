/** How a request served alone is answered: exactly when with which error, when with a 201, and
    what the 201 says; and which rows it touches. */
module Success {
  import opened Prelude
  import opened Domain
  import opened Requests
  import opened MetaAdapter
  import opened Numeric
  import opened Hub
  import opened HubInvariant
  import opened HubTheorems
  import opened Answers
  import opened GetOrCreate
  import opened Serial
  import opened Retries
  import OAuth

  // ----- The answer -----

  ghost predicate NameTaken(db: Db, input: Input) {
    exists id :: id in db.tags && SameName(db.tags[id], input.advertiser, input.payload.columns.name)
  }

  /** From the Meta call on. */
  ghost predicate CallEnds(env: Env, db: Db, meta: MetaState, input: Input, metaPixel: string, choose: nat -> Choice, o: Outcome) {
    match choose(7).answer
    case Lost(_, caught) => o == if caught then Upstream else Failure
    case Answered =>
      if HasPixel(meta, AccountOf(db, input.advertiser), metaPixel) then
        && o.Created?
        && (Indexed(env.digest, meta) ==> TellsInput(env, db, input, choose(4).tagId, o.body))
      else o == Upstream
  }

  ghost predicate TokenEnds(env: Env, db: Db, meta: MetaState, input: Input, metaPixel: string, choose: nat -> Choice, o: Outcome) {
    var key := (input.advertiser, OAuth.META_PROVIDER);
    if OAuth.Missing(db.tokens, key, choose(5).now) then o == NotFound
    else if OAuth.Garbled(env.oauth, db.tokens, key, choose(5).now) then o == Failure
    else CallEnds(env, db, meta, input, metaPixel, choose, o)
  }

  ghost predicate NameEnds(env: Env, db: Db, meta: MetaState, input: Input, metaPixel: string, choose: nat -> Choice, o: Outcome) {
    if NameTaken(db, input) then o.Created? && TellsRow(db, o.body) && About(o.body, input)
    else if choose(4).tagId in db.tags || !InRange(input.payload.columns.value) then o == Conflict
    else TokenEnds(env, db, meta, input, metaPixel, choose, o)
  }

  ghost predicate PixelEnds(env: Env, db: Db, meta: MetaState, input: Input, choose: nat -> Choice, o: Outcome) {
    if !OwnsPixel(db, input) then o == NotFound
    else NameEnds(env, db, meta, input, db.pixels[input.payload.pixelId].metaId, choose, o)
  }

  ghost predicate AdvertiserEnds(env: Env, db: Db, meta: MetaState, input: Input, choose: nat -> Choice, o: Outcome) {
    if input.advertiser !in db.advertisers then o == NotFound
    else if AccountOf(db, input.advertiser) == "" then o == Upstream
    else PixelEnds(env, db, meta, input, choose, o)
  }

  /** The answer, read off the tables and Meta before the request and the outside's choices: a
      recorded key decides; then advertiser, account, pixel, name, id and value, token, and
      Meta's answer, in this order. */
  ghost predicate Ends(env: Env, db: Db, meta: MetaState, input: Input, choose: nat -> Choice, o: Outcome) {
    if input.key.Some? && input.key.value != "" && (ENDPOINT, input.key.value) in db.records then
      var record := db.records[(ENDPOINT, input.key.value)];
      o == if record.requestHash == env.requestHash(input) then Created(record.body) else KeyConflict
    else AdvertiserEnds(env, db, meta, input, choose, o)
  }

  ghost function Ending(env: Env, db: Db, meta: MetaState, r: Request, choose: nat -> Choice): Outcome {
    Serve(env, db, meta, r, choose).outcome
  }

  lemma Rollbacks(env: Env, db: Db, meta: MetaState, r: Request, choose: nat -> Choice, error: Outcome)
    requires r.stage == AtRollback(error)
    ensures Ending(env, db, meta, r, choose) == error
  {
    ServeStep(env, db, meta, r, choose, meta, r.(writes := NO_WRITES, stage := Done(error)));
  }

  lemma Stores(env: Env, db: Db, meta: MetaState, r: Request, choose: nat -> Choice, out: Body)
    requires r.stage == AtStore(out)
    ensures Ending(env, db, meta, r, choose) == Created(out)
  {
    var r' := env.StoreRecord(db, r, out);
    assert r'.stage == AtCommit(out);
    ServeStep(env, db, meta, r, choose, meta, r');
  }

  lemma Calls(env: Env, db: Db, meta: MetaState, r: Request, choose: nat -> Choice)
    requires r.stage == AtMeta && Holding(db, r, choose(4).tagId)
    ensures CallEnds(env, db, meta, r.input, r.metaPixel, choose, Ending(env, db, meta, r, choose))
  {
    var (meta', r') := env.CallMeta(meta, r, choose(7).answer);
    ServeStep(env, db, meta, r, choose, meta', r');
    if r'.stage.AtStore? {
      Stores(env, db, meta', r', choose, r'.stage.out);
      if Indexed(env.digest, meta) {
        AnswerTells(env, db, meta, r, choose(4).tagId);
      }
    } else {
      Rollbacks(env, db, meta', r', choose, r'.stage.error);
    }
  }

  lemma Fetches(env: Env, db: Db, meta: MetaState, r: Request, choose: nat -> Choice)
    requires r.stage == AtToken && Holding(db, r, choose(4).tagId)
    ensures TokenEnds(env, db, meta, r.input, r.metaPixel, choose, Ending(env, db, meta, r, choose))
  {
    var r' := env.FetchToken(db, r, choose(5).now);
    OAuth.OfferedExactly(env.oauth, db.tokens, TokenKey(r), choose(5).now);
    ServeStep(env, db, meta, r, choose, meta, r');
    if r'.stage.AtRollback? {
      Rollbacks(env, db, meta, r', choose, r'.stage.error);
    } else if r'.stage.AtRefresh? {
      var r'' := env.WriteToken(r', r'.stage.access, choose(6).now);
      ServeStep(env, db, meta, r', choose, meta, r'');
      Calls(env, db, meta, r'', choose);
    } else {
      Calls(env, db, meta, r', choose);
    }
  }

  lemma InsertsRow(env: Env, db: Db, meta: MetaState, r: Request, choose: nat -> Choice)
    requires r.stage == AtInsert && !NameTaken(db, r.input) && r.account == AccountOf(db, r.input.advertiser) != ""
    ensures NameEnds(env, db, meta, r.input, r.metaPixel, choose, Ending(env, db, meta, r, choose))
  {
    var r' := env.InsertTag(db, r, choose(4).tagId);
    FitsExactly(r.input.payload.columns.value);
    ServeStep(env, db, meta, r, choose, meta, r');
    if r'.stage.AtRollback? {
      Rollbacks(env, db, meta, r', choose, r'.stage.error);
    } else {
      Fetches(env, db, meta, r', choose);
    }
  }

  /** The lookup of a name that is taken leads to the row's own response. */
  lemma FindsRow(env: Env, db: Db, meta: MetaState, r: Request)
    requires AllSettled(db, meta) && r.stage == AtName
    ensures var r' := env.LookUpName(db, r);
            if NameTaken(db, r.input) then r'.stage.AtStore? && TellsRow(db, r'.stage.out) && About(r'.stage.out, r.input)
            else r' == r.(stage := AtInsert)
  {
    LookUpNameShape(env, db, meta, r);
    var r' := env.LookUpName(db, r);
    if r'.stage.AtStore? {
      NamesTellsRow(db, r'.stage.out);
    }
  }

  lemma LooksUpName(env: Env, db: Db, meta: MetaState, r: Request, choose: nat -> Choice)
    requires AllSettled(db, meta) && r.stage == AtName && r.account == AccountOf(db, r.input.advertiser) != ""
    ensures NameEnds(env, db, meta, r.input, r.metaPixel, choose, Ending(env, db, meta, r, choose))
  {
    var r' := env.LookUpName(db, r);
    FindsRow(env, db, meta, r);
    ServeStep(env, db, meta, r, choose, meta, r');
    if r'.stage.AtStore? {
      Stores(env, db, meta, r', choose, r'.stage.out);
    } else {
      InsertsRow(env, db, meta, r', choose);
    }
  }

  lemma LoadsPixel(env: Env, db: Db, meta: MetaState, r: Request, choose: nat -> Choice)
    requires AllSettled(db, meta) && r.stage == AtPixel && r.account == AccountOf(db, r.input.advertiser) != ""
    ensures PixelEnds(env, db, meta, r.input, choose, Ending(env, db, meta, r, choose))
  {
    var r' := env.LoadPixel(db, r);
    ServeStep(env, db, meta, r, choose, meta, r');
    if r'.stage.AtRollback? {
      Rollbacks(env, db, meta, r', choose, r'.stage.error);
    } else {
      LooksUpName(env, db, meta, r', choose);
    }
  }

  lemma LoadsAdvertiser(env: Env, db: Db, meta: MetaState, r: Request, choose: nat -> Choice)
    requires AllSettled(db, meta) && r.stage == AtAdvertiser
    ensures AdvertiserEnds(env, db, meta, r.input, choose, Ending(env, db, meta, r, choose))
  {
    var r' := env.LoadAdvertiser(db, r);
    ServeStep(env, db, meta, r, choose, meta, r');
    if r'.stage.AtRollback? {
      Rollbacks(env, db, meta, r', choose, r'.stage.error);
    } else {
      LoadsPixel(env, db, meta, r', choose);
    }
  }

  /** Every request served alone is answered as `Ends` says. */
  lemma AnsweredExactly(env: Env, db: Db, meta: MetaState, input: Input, choose: nat -> Choice)
    requires AllSettled(db, meta)
    ensures Ends(env, db, meta, input, choose, Ending(env, db, meta, NewRequest(input), choose))
  {
    var r := NewRequest(input);
    var r' := env.LookUpKey(db, r);
    LookUpKeyShape(env, db, r);
    ServeStep(env, db, meta, r, choose, meta, r');
    if r'.stage.AtRollback? {
      Rollbacks(env, db, meta, r', choose, r'.stage.error);
    } else if r'.stage.AtAdvertiser? {
      LoadsAdvertiser(env, db, meta, r', choose);
    }
  }

  /** What it takes to create a tag that is not there. */
  ghost predicate Creates(env: Env, db: Db, meta: MetaState, input: Input, account: string, metaPixel: string, choose: nat -> Choice) {
    var key := (input.advertiser, OAuth.META_PROVIDER);
    && choose(4).tagId !in db.tags && InRange(input.payload.columns.value)
    && !OAuth.Missing(db.tokens, key, choose(5).now) && !OAuth.Garbled(env.oauth, db.tokens, key, choose(5).now)
    && choose(7).answer == Answered && HasPixel(meta, account, metaPixel)
  }

  /** What an unrecorded request needs. */
  ghost predicate Serves(env: Env, db: Db, meta: MetaState, input: Input, choose: nat -> Choice) {
    var account := AccountOf(db, input.advertiser);
    && account != "" && OwnsPixel(db, input)
    && (NameTaken(db, input)
        || Creates(env, db, meta, input, account, db.pixels[input.payload.pixelId].metaId, choose))
  }

  /** A request is answered 201 exactly when its key is recorded with its hash, or its key is
      free and the advertiser has an ad account and owns the pixel and the tag is either there
      already or can be created: a fresh id, a value that fits, a token, a faultless call. */
  lemma CreatedExactly(env: Env, db: Db, meta: MetaState, input: Input, choose: nat -> Choice)
    requires AllSettled(db, meta)
    ensures var r := NewRequest(input);
            Ending(env, db, meta, r, choose).Created? <==>
              if KeyFree(db, r) then Serves(env, db, meta, input, choose)
              else db.records[(ENDPOINT, KeyOf(input).value)].requestHash == env.requestHash(input)
  {
    AnsweredExactly(env, db, meta, input, choose);
  }

  // ----- The tables -----

  /** Whatever becomes of the request, no row is touched but the tag of the drawn id, the
      advertiser's token and the record of the key. */
  ghost predicate TouchesOnly(db: Db, db': Db, input: Input, tagId: Uuid) {
    && db'.advertisers == db.advertisers && db'.pixels == db.pixels
    && (forall id :: id != tagId ==> Same(db.tags, db'.tags, id))
    && (forall key :: key != (input.advertiser, OAuth.META_PROVIDER) ==> Same(db.tokens, db'.tokens, key))
    && (forall key :: key == "" || input.key != Some(key) ==> Same(db.records, db'.records, (ENDPOINT, key)))
  }

  ghost predicate Same<K(!new), V>(m: map<K, V>, m': map<K, V>, key: K) {
    if key in m then key in m' && m'[key] == m[key] else key !in m'
  }

  /** What the request has flushed. */
  predicate Modest(r: Request, tagId: Uuid) {
    && r.writes.pixels == map[]
    && (r.writes.tag.Some? ==> r.writes.tag.value.0 == tagId)
    && (r.writes.token.Some? ==> r.writes.token.value.key == TokenKey(r))
    && (r.writes.record.Some? ==> KeyOf(r.input).Some? && r.writes.record.value.0 == (ENDPOINT, KeyOf(r.input).value))
  }

  /** No row is left half done. */
  ghost predicate AllActive(db: Db) {
    forall id :: id in db.tags ==> db.tags[id].status == Active
  }

  lemma NameStaysModest(env: Env, db: Db, meta: MetaState, r: Request, c: Choice, tagId: Uuid)
    requires AllActive(db) && Modest(r, tagId) && r.stage == AtName
    ensures Modest(env.Advance(db, meta, r, c).1, tagId)
  {
  }

  lemma CallStaysModest(env: Env, db: Db, meta: MetaState, r: Request, c: Choice, tagId: Uuid)
    requires Modest(r, tagId) && r.stage == AtMeta
    ensures Modest(env.Advance(db, meta, r, c).1, tagId)
  {
  }

  lemma EarlyStaysModest(env: Env, db: Db, meta: MetaState, r: Request, c: Choice, tagId: Uuid)
    requires Modest(r, tagId) && (r.stage.AtKey? || r.stage.AtAdvertiser? || r.stage.AtPixel? || r.stage.AtInsert?)
    requires r.stage.AtInsert? ==> c.tagId == tagId
    ensures Modest(env.Advance(db, meta, r, c).1, tagId)
  {
  }

  lemma LateStaysModest(env: Env, db: Db, meta: MetaState, r: Request, c: Choice, tagId: Uuid)
    requires Modest(r, tagId) && (r.stage.AtToken? || r.stage.AtRefresh? || r.stage.AtStore? || r.stage.AtRollback?)
    ensures Modest(env.Advance(db, meta, r, c).1, tagId)
  {
  }

  lemma StaysModest(env: Env, db: Db, meta: MetaState, r: Request, c: Choice, tagId: Uuid)
    requires AllActive(db) && Modest(r, tagId) && !r.stage.AtCommit? && !r.stage.Done?
    requires r.stage.AtInsert? ==> c.tagId == tagId
    ensures Modest(env.Advance(db, meta, r, c).1, tagId)
  {
    if r.stage.AtName? {
      NameStaysModest(env, db, meta, r, c, tagId);
    } else if r.stage.AtMeta? {
      CallStaysModest(env, db, meta, r, c, tagId);
    } else if r.stage.AtToken? || r.stage.AtRefresh? || r.stage.AtStore? || r.stage.AtRollback? {
      LateStaysModest(env, db, meta, r, c, tagId);
    } else {
      EarlyStaysModest(env, db, meta, r, c, tagId);
    }
  }

  lemma CommitTouches(db: Db, r: Request, tagId: Uuid)
    requires Modest(r, tagId)
    ensures TouchesOnly(db, Commit(db, r.writes), r.input, tagId)
  {
  }

  lemma {:induction false} ServedTouches(env: Env, db: Db, meta: MetaState, r: Request, choose: nat -> Choice)
    requires AllActive(db) && Modest(r, choose(4).tagId)
    ensures TouchesOnly(db, Serve(env, db, meta, r, choose).db, r.input, choose(4).tagId)
    decreases 10 - Rank(r.stage)
  {
    if r.stage.AtCommit? {
      CommitTouches(db, r, choose(4).tagId);
    } else if !r.stage.Done? {
      var c := choose(Rank(r.stage));
      var (meta', r') := env.Advance(db, meta, r, c);
      AdvanceFurther(env, db, meta, r, c);
      InputKept(env, db, meta, r, c);
      StaysModest(env, db, meta, r, c, choose(4).tagId);
      ServeStep(env, db, meta, r, choose, meta', r');
      ServedTouches(env, db, meta', r', choose);
    }
  }

  // ----- Answer and tables -----

  /** The answer that `Ends` reads off the tables before; rows touched by a 201 alone, and none but
      its own; the response stored under the key; and its tag's row, which it repeats. */
  ghost predicate Handled(env: Env, db: Db, meta: MetaState, input: Input, choose: nat -> Choice, db': Db, outcome: Outcome) {
    && Ends(env, db, meta, input, choose, outcome)
    && TouchesOnly(db, db', input, choose(4).tagId)
    && (!outcome.Created? ==> db' == db)
    && (outcome.Created? ==> TellsRow(db', outcome.body) && Keeps(env, db', input, outcome.body))
  }

  /** The response to a request with a key is kept under it; an empty key is none. */
  predicate Keeps(env: Env, db: Db, input: Input, body: Body) {
    input.key.Some? && input.key.value != "" ==>
      && (ENDPOINT, input.key.value) in db.records
      && db.records[(ENDPOINT, input.key.value)] == Record(env.requestHash(input), 201, body)
  }

  lemma HandledInFull(env: Env, db: Db, meta: MetaState, input: Input, choose: nat -> Choice)
    ensures var served := Serve(env, db, meta, NewRequest(input), choose);
            TablesOk(env, db, meta) && ValidColumns(input.payload.columns) ==>
              Handled(env, db, meta, input, choose, served.db, served.outcome)
  {
    if TablesOk(env, db, meta) && ValidColumns(input.payload.columns) {
      var served := Serve(env, db, meta, NewRequest(input), choose);
      AnsweredExactly(env, db, meta, input, choose);
      TouchesAlone(env, db, meta, input, choose);
      ErrorLeavesTables(env, db, meta, NewRequest(input), choose);
      if served.outcome.Created? {
        CreatedKeeps(env, db, meta, input, choose, served);
      }
    }
  }

  lemma TouchesAlone(env: Env, db: Db, meta: MetaState, input: Input, choose: nat -> Choice)
    requires AllSettled(db, meta)
    ensures TouchesOnly(db, Serve(env, db, meta, NewRequest(input), choose).db, input, choose(4).tagId)
  {
    forall id | id in db.tags
      ensures db.tags[id].status == Active
    {
      assert Settled(db, meta, db.tags[id]);
    }
    ServedTouches(env, db, meta, NewRequest(input), choose);
  }

  lemma CreatedKeeps(env: Env, db: Db, meta: MetaState, input: Input, choose: nat -> Choice, served: Served)
    requires TablesOk(env, db, meta) && ValidColumns(input.payload.columns)
    requires served == Serve(env, db, meta, NewRequest(input), choose) && served.outcome.Created?
    ensures TellsRow(served.db, served.outcome.body)
    ensures Keeps(env, served.db, input, served.outcome.body)
  {
    ServeFromKey(env, db, meta, NewRequest(input), choose);
    NamesTellsRow(served.db, served.outcome.body);
  }
}
