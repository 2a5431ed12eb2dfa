/** What every reachable state of the create protocol satisfies. */
module HubInvariant {
  import opened Prelude
  import opened Domain
  import opened Requests
  import opened MetaAdapter
  import opened Hub
  import Pixels

  // ----- The invariant -----

  predicate HasAccount(db: Db, advertiser: Uuid, account: string) {
    && advertiser in db.advertisers
    && db.advertisers[advertiser].account == Some(account)
  }

  /** The ad account of an advertiser; "" when it has none. */
  function AccountOf(db: Db, advertiser: Uuid): string {
    if advertiser in db.advertisers && db.advertisers[advertiser].account.Some? then
      db.advertisers[advertiser].account.value
    else ""
  }

  function SlotOf(db: Db, t: Tag): Slot {
    (AccountOf(db, t.advertiser), t.columns.name)
  }

  /** The row is ACTIVE, and Meta has its conversion where the row says. */
  predicate Registered(db: Db, meta: MetaState, t: Tag) {
    && t.status == Active
    && AccountOf(db, t.advertiser) != ""
    && SlotOf(db, t) in meta.byName
    && t.metaId == Some(meta.byName[SlotOf(db, t)].id)
  }

  /** The payload repeats the row: its columns up to storage, and its pixel by Meta id. */
  predicate Mirrors(db: Db, t: Tag) {
    && t.payload.Some?
    && StoredColumns(t.payload.value.columns) == t.columns
    && t.pixelId in db.pixels
    && t.payload.value.pixelId == db.pixels[t.pixelId].metaId
    && ValidColumns(t.columns)
  }

  predicate Settled(db: Db, meta: MetaState, t: Tag) {
    Registered(db, meta, t) && Mirrors(db, t)
  }

  ghost predicate AllSettled(db: Db, meta: MetaState) {
    forall id :: id in db.tags ==> Settled(db, meta, db.tags[id])
  }

  ghost predicate UniqueNames(tags: map<Uuid, Tag>) {
    forall i, j :: i in tags && j in tags && SameName(tags[i], tags[j].advertiser, tags[j].columns.name) ==> i == j
  }

  /** The response has the row's fields, leaving aside its columns. */
  predicate Repeats(body: Body, id: Uuid, t: Tag) {
    body.id == id && body.advertiser == t.advertiser && body.pixelId == t.pixelId
    && body.metaId == t.metaId && body.status == t.status
  }

  /** The response is about a committed tag, and says what its row says. */
  predicate Names(db: Db, body: Body) {
    && body.id in db.tags
    && Repeats(body, body.id, db.tags[body.id])
    && db.tags[body.id].columns == StoredColumns(body.columns)
  }

  ghost predicate AllNamed(db: Db) {
    forall key :: key in db.records ==> db.records[key].status == 201 && Names(db, db.records[key].body)
  }

  /** No committed row has the id, or the advertiser and name. */
  ghost predicate Fresh(tags: map<Uuid, Tag>, id: Uuid, advertiser: Uuid, name: string) {
    id !in tags && forall j :: j in tags ==> !SameName(tags[j], advertiser, name)
  }

  /** What a create request has flushed can be committed without breaking a unique key. */
  ghost predicate Committable(db: Db, w: Writes) {
    && (w.tag.Some? ==> Fresh(db.tags, w.tag.value.0, w.tag.value.1.advertiser, w.tag.value.1.columns.name))
    && (w.record.Some? ==> w.record.value.0 !in db.records)
    && w.pixels == map[]
  }

  predicate Prepared(db: Db, r: Request) {
    && r.account != ""
    && HasAccount(db, r.input.advertiser, r.account)
  }

  predicate PixelLoaded(db: Db, r: Request) {
    && r.input.payload.pixelId in db.pixels
    && r.metaPixel == db.pixels[r.input.payload.pixelId].metaId
  }

  predicate HoldsPending(r: Request) {
    && r.writes.tag.Some?
    && r.writes.tag.value.1 == NewTag(r.input)
    && r.writes.record.None?
  }

  /** The response is about the tag this request is about to commit, or about a committed one. */
  predicate Backed(db: Db, meta: MetaState, write: Option<(Uuid, Tag)>, out: Body) {
    match write
    case Some((id, tag)) => Settled(db, meta, StoredTag(tag)) && Repeats(out, id, tag) && out.columns == tag.columns
    case None => Names(db, out)
  }

  function KeyedRecord(env: Env, r: Request, out: Body): Option<(RecordKey, Record)> {
    match KeyOf(r.input)
    case None => None
    case Some(key) => Some(((ENDPOINT, key), env.RecordOf(r, out)))
  }

  /** The key was taken when the response was to be stored, so the session was rolled back. */
  predicate Discarded(r: Request) {
    KeyOf(r.input).Some? && r.writes == NO_WRITES
  }

  predicate StageOk(env: Env, db: Db, meta: MetaState, r: Request) {
    match r.stage
    case AtKey => r.writes == NO_WRITES
    case AtAdvertiser => r.writes == NO_WRITES
    case AtPixel => r.writes == NO_WRITES && Prepared(db, r)
    case AtName => r.writes == NO_WRITES && Prepared(db, r) && PixelLoaded(db, r)
    case AtInsert => r.writes == NO_WRITES && Prepared(db, r) && PixelLoaded(db, r)
    case AtToken => HoldsPending(r) && r.writes.token.None? && Prepared(db, r) && PixelLoaded(db, r)
    case AtRefresh(_) => HoldsPending(r) && r.writes.token.None? && Prepared(db, r) && PixelLoaded(db, r)
    case AtMeta => HoldsPending(r) && Prepared(db, r) && PixelLoaded(db, r)
    case AtStore(out) => Backed(db, meta, r.writes.tag, out) && r.writes.record.None?
    case AtCommit(out) =>
      Discarded(r) || (Backed(db, meta, r.writes.tag, out) && r.writes.record == KeyedRecord(env, r, out))
    case AtRollback(error) => !error.Created? && r.writes.record.None?
    case Done(_) => r.writes == NO_WRITES
  }

  ghost predicate RequestOk(env: Env, db: Db, meta: MetaState, r: Request) {
    ValidColumns(r.input.payload.columns) && Committable(db, r.writes) && StageOk(env, db, meta, r)
  }

  /** Two sessions never hold one id, one tag name, one token row or one key. */
  predicate Apart(v: Writes, w: Writes) {
    && (v.tag.Some? && w.tag.Some? ==>
          && v.tag.value.0 != w.tag.value.0
          && !SameName(v.tag.value.1, w.tag.value.1.advertiser, w.tag.value.1.columns.name))
    && (v.token.Some? && w.token.Some? ==> v.token.value.key != w.token.value.key)
    && (v.record.Some? && w.record.Some? ==> v.record.value.0 != w.record.value.0)
  }

  ghost predicate AllApart(requests: map<nat, Request>) {
    forall a, b :: a in requests && b in requests && a != b ==> Apart(requests[a].writes, requests[b].writes)
  }

  ghost predicate TablesOk(env: Env, db: Db, meta: MetaState) {
    && AllSettled(db, meta)
    && UniqueNames(db.tags)
    && AllNamed(db)
    && Indexed(env.digest, meta)
  }

  ghost predicate AllOk(env: Env, db: Db, meta: MetaState, requests: map<nat, Request>) {
    forall rid :: rid in requests ==> RequestOk(env, db, meta, requests[rid])
  }

  ghost predicate Inv(env: Env, s: State) {
    && TablesOk(env, s.db, s.meta)
    && AllOk(env, s.db, s.meta, s.requests)
    && AllApart(s.requests)
  }

  // ----- Growth -----

  /** Nothing committed is ever taken back or rewritten; pixel rows keep their Meta ids. */
  ghost predicate Grows(db: Db, db': Db) {
    && (forall id :: id in db.advertisers ==> id in db'.advertisers && db'.advertisers[id] == db.advertisers[id])
    && Pixels.Evolves(db.pixels, db'.pixels)
    && (forall id :: id in db.tags ==> id in db'.tags && db'.tags[id] == db.tags[id])
    && (forall key :: key in db.records ==> key in db'.records && db'.records[key] == db.records[key])
  }

  /** Meta never forgets a conversion. */
  ghost predicate MetaGrows(m: MetaState, m': MetaState) {
    forall slot :: slot in m.byName ==> slot in m'.byName && m'.byName[slot] == m.byName[slot]
  }

  lemma SettledGrows(db: Db, meta: MetaState, db': Db, meta': MetaState, t: Tag)
    requires Settled(db, meta, t) && Grows(db, db') && MetaGrows(meta, meta')
    ensures Settled(db', meta', t)
  {
    assert t.advertiser in db.advertisers;
    assert SlotOf(db, t) == SlotOf(db', t);
  }

  lemma BackedGrows(db: Db, meta: MetaState, db': Db, meta': MetaState, write: Option<(Uuid, Tag)>, out: Body)
    requires Backed(db, meta, write, out) && Grows(db, db') && MetaGrows(meta, meta')
    ensures Backed(db', meta', write, out)
  {
    if write.Some? {
      SettledGrows(db, meta, db', meta', StoredTag(write.value.1));
    }
  }

  /** A request's state of affairs survives what others commit, as long as its writes stay free. */
  lemma RequestGrows(env: Env, db: Db, meta: MetaState, db': Db, meta': MetaState, r: Request)
    requires RequestOk(env, db, meta, r) && Grows(db, db') && MetaGrows(meta, meta')
    requires Committable(db', r.writes)
    ensures RequestOk(env, db', meta', r)
  {
    if r.stage.AtStore? {
      BackedGrows(db, meta, db', meta', r.writes.tag, r.stage.out);
    } else if r.stage.AtCommit? && !Discarded(r) {
      BackedGrows(db, meta, db', meta', r.writes.tag, r.stage.out);
    }
  }

  // ----- One statement of one request -----

  /** The next statement of the request keeps the request's state of affairs, and Meta's. */
  ghost predicate StepsOk(env: Env, db: Db, meta: MetaState, r: Request, c: Choice)
    requires !r.stage.AtCommit? && !r.stage.Done?
  {
    var (meta', r') := env.Advance(db, meta, r, c);
    Indexed(env.digest, meta') && MetaGrows(meta, meta') && RequestOk(env, db, meta', r') && r'.input == r.input
  }

  /** A statement that leaves Meta alone. */
  lemma QuietStepOk(env: Env, db: Db, meta: MetaState, r: Request, c: Choice, r': Request)
    requires !r.stage.AtCommit? && !r.stage.Done? && env.Advance(db, meta, r, c) == (meta, r')
    requires Indexed(env.digest, meta) && RequestOk(env, db, meta, r') && r'.input == r.input
    ensures StepsOk(env, db, meta, r, c)
  {
  }

  lemma EarlyStageOk(env: Env, db: Db, meta: MetaState, r: Request, c: Choice)
    requires Indexed(env.digest, meta) && RequestOk(env, db, meta, r)
    requires r.stage.AtKey? || r.stage.AtAdvertiser? || r.stage.AtPixel?
    ensures StepsOk(env, db, meta, r, c)
  {
  }

  /** The row found under a name is settled: there is nothing to resume. */
  lemma FoundTagBacks(db: Db, meta: MetaState, id: Uuid)
    requires AllSettled(db, meta) && id in db.tags
    ensures db.tags[id].status == Active
    ensures Backed(db, meta, None, BodyOf(id, db.tags[id]))
  {
    assert Settled(db, meta, db.tags[id]);
    StoredTwice(db.tags[id].payload.value.columns);
  }

  lemma LookUpNameShape(env: Env, db: Db, meta: MetaState, r: Request)
    requires AllSettled(db, meta)
    ensures var r' := env.LookUpName(db, r);
            || r' == r.(stage := AtInsert)
            || (r'.stage.AtStore? && r' == r.(stage := r'.stage) && Backed(db, meta, None, r'.stage.out))
  {
    if id :| id in db.tags && SameName(db.tags[id], r.input.advertiser, r.input.payload.columns.name) {
      forall i | i in db.tags {
        FoundTagBacks(db, meta, i);
      }
    }
  }

  lemma LookUpNameOk(env: Env, db: Db, meta: MetaState, r: Request, c: Choice)
    requires TablesOk(env, db, meta) && RequestOk(env, db, meta, r) && r.stage == AtName
    ensures StepsOk(env, db, meta, r, c)
  {
    LookUpNameShape(env, db, meta, r);
  }

  lemma InsertTagOk(env: Env, db: Db, meta: MetaState, r: Request, c: Choice)
    requires Indexed(env.digest, meta) && RequestOk(env, db, meta, r) && r.stage == AtInsert
    ensures StepsOk(env, db, meta, r, c)
  {
  }

  lemma FetchTokenOk(env: Env, db: Db, meta: MetaState, r: Request, c: Choice)
    requires Indexed(env.digest, meta) && RequestOk(env, db, meta, r) && r.stage == AtToken
    ensures StepsOk(env, db, meta, r, c)
  {
    var stage := env.FetchToken(db, r, c.now).stage;
    assert env.FetchToken(db, r, c.now) == r.(stage := stage);
    assert stage.AtMeta? || stage.AtRefresh? || stage.AtRollback?;
  }

  lemma WriteTokenOk(env: Env, db: Db, meta: MetaState, r: Request, c: Choice)
    requires Indexed(env.digest, meta) && RequestOk(env, db, meta, r) && r.stage.AtRefresh?
    ensures StepsOk(env, db, meta, r, c)
  {
    QuietStepOk(env, db, meta, r, c, env.WriteToken(r, r.stage.access, c.now));
  }

  lemma RollbackOk(env: Env, db: Db, meta: MetaState, r: Request, c: Choice)
    requires Indexed(env.digest, meta) && RequestOk(env, db, meta, r) && r.stage.AtRollback?
    ensures StepsOk(env, db, meta, r, c)
  {
    QuietStepOk(env, db, meta, r, c, r.(writes := NO_WRITES, stage := Done(r.stage.error)));
  }

  /** A failed request may keep anything of the tag but its id and name. */
  lemma FailedOk(env: Env, db: Db, meta: MetaState, meta': MetaState, r: Request, r': Request)
    requires RequestOk(env, db, meta, r) && r.stage == AtMeta
    requires r'.stage.AtRollback? && !r'.stage.error.Created? && r'.input == r.input && r'.writes.record.None? && r'.writes.tag.Some?
    requires r'.writes.tag.value.0 == r.writes.tag.value.0 && r'.writes.pixels == r.writes.pixels
    requires SameName(r'.writes.tag.value.1, r.input.advertiser, r.input.payload.columns.name)
    ensures RequestOk(env, db, meta', r')
  {
  }

  /** The activated row is settled: Meta has its conversion and its payload mirrors it. */
  lemma ActivatedSettled(env: Env, db: Db, meta: MetaState, r: Request)
    requires Indexed(env.digest, meta) && RequestOk(env, db, meta, r) && r.stage == AtMeta
    requires Create(env.digest, meta, r.account, MetaInputOf(r)).1.Ok?
    ensures var (meta', created) := Create(env.digest, meta, r.account, MetaInputOf(r));
            Settled(db, meta', StoredTag(env.Activated(r, r.writes.tag.value.1, created.value.id)))
  {
    CreateKeeps(env.digest, meta, r.account, MetaInputOf(r));
  }

  lemma MetaAnswersOk(env: Env, db: Db, meta: MetaState, r: Request, c: Choice)
    requires Indexed(env.digest, meta) && RequestOk(env, db, meta, r) && r.stage == AtMeta
    requires c.answer == Answered && Create(env.digest, meta, r.account, MetaInputOf(r)).1.Ok?
    ensures StepsOk(env, db, meta, r, c)
  {
    CreateKeeps(env.digest, meta, r.account, MetaInputOf(r));
    ActivatedSettled(env, db, meta, r);
  }

  lemma CallFails(env: Env, meta: MetaState, r: Request, answer: Answer)
    requires Indexed(env.digest, meta) && r.stage == AtMeta && r.writes.tag.Some?
    requires answer == Answered ==> Create(env.digest, meta, r.account, MetaInputOf(r)).1.Err?
    ensures var (meta', r') := env.CallMeta(meta, r, answer);
            && Indexed(env.digest, meta') && MetaGrows(meta, meta')
            && r'.stage.AtRollback? && !r'.stage.error.Created? && r'.input == r.input
            && r'.writes.tag.Some? && r'.writes == r.writes.(tag := r'.writes.tag)
            && r'.writes.tag.value.0 == r.writes.tag.value.0
            && SameName(r'.writes.tag.value.1, r.writes.tag.value.1.advertiser, r.writes.tag.value.1.columns.name)
  {
    CreateKeeps(env.digest, meta, r.account, MetaInputOf(r));
  }

  lemma MetaFailsOk(env: Env, db: Db, meta: MetaState, r: Request, c: Choice)
    requires Indexed(env.digest, meta) && RequestOk(env, db, meta, r) && r.stage == AtMeta
    requires c.answer == Answered ==> Create(env.digest, meta, r.account, MetaInputOf(r)).1.Err?
    ensures StepsOk(env, db, meta, r, c)
  {
    CallFails(env, meta, r, c.answer);
    var (meta', r') := env.CallMeta(meta, r, c.answer);
    FailedOk(env, db, meta, meta', r, r');
    assert env.Advance(db, meta, r, c) == (meta', r');
  }

  lemma StoreRecordOk(env: Env, db: Db, meta: MetaState, r: Request, c: Choice)
    requires Indexed(env.digest, meta) && RequestOk(env, db, meta, r) && r.stage.AtStore?
    ensures StepsOk(env, db, meta, r, c)
  {
    var out := r.stage.out;
    var r' := env.StoreRecord(db, r, out);
    var kept := r.(writes := r.writes.(record := KeyedRecord(env, r, out)), stage := AtCommit(out));
    if KeyOf(r.input).Some? && (ENDPOINT, KeyOf(r.input).value) in db.records {
      assert r' == r.(writes := NO_WRITES, stage := AtCommit(out));
      assert Discarded(r');
    } else {
      assert r' == kept;
      assert KeyedRecord(env, r', out) == KeyedRecord(env, r, out);
      assert Backed(db, meta, r'.writes.tag, out);
    }
    QuietStepOk(env, db, meta, r, c, r');
  }

  lemma AdvanceOk(env: Env, db: Db, meta: MetaState, r: Request, c: Choice)
    requires TablesOk(env, db, meta) && RequestOk(env, db, meta, r) && !r.stage.AtCommit? && !r.stage.Done?
    ensures StepsOk(env, db, meta, r, c)
  {
    if r.stage.AtKey? || r.stage.AtAdvertiser? || r.stage.AtPixel? {
      EarlyStageOk(env, db, meta, r, c);
    } else if r.stage.AtName? {
      LookUpNameOk(env, db, meta, r, c);
    } else if r.stage.AtInsert? {
      InsertTagOk(env, db, meta, r, c);
    } else if r.stage.AtMeta? {
      if c.answer == Answered && Create(env.digest, meta, r.account, MetaInputOf(r)).1.Ok? {
        MetaAnswersOk(env, db, meta, r, c);
      } else {
        MetaFailsOk(env, db, meta, r, c);
      }
    } else if r.stage.AtStore? {
      StoreRecordOk(env, db, meta, r, c);
    } else if r.stage.AtToken? {
      FetchTokenOk(env, db, meta, r, c);
    } else if r.stage.AtRefresh? {
      WriteTokenOk(env, db, meta, r, c);
    } else {
      RollbackOk(env, db, meta, r, c);
    }
  }

  /** What a statement adds to the session's writes, stage by stage. */
  lemma AdvanceWrites(env: Env, db: Db, meta: MetaState, r: Request, c: Choice)
    requires AllSettled(db, meta) && StageOk(env, db, meta, r) && !r.stage.AtCommit? && !r.stage.Done?
    ensures var w := env.Advance(db, meta, r, c).1.writes;
            || w == r.writes || w == NO_WRITES
            || (r.stage == AtInsert && w == r.writes.(tag := Some((c.tagId, NewTag(r.input)))))
            || (r.stage.AtRefresh? && w.token.Some? && w == r.writes.(token := w.token) && w.token.value.key == TokenKey(r))
            || (r.stage == AtMeta && r.writes.tag.Some? && w.tag.Some? && w == r.writes.(tag := w.tag)
                && w.tag.value.0 == r.writes.tag.value.0
                && SameName(w.tag.value.1, r.writes.tag.value.1.advertiser, r.writes.tag.value.1.columns.name))
            || (r.stage.AtStore? && KeyOf(r.input).Some? && w.record.Some? && w == r.writes.(record := w.record)
                && w.record.value.0 == (ENDPOINT, KeyOf(r.input).value))
  {
    if r.stage == AtName {
      LookUpNameShape(env, db, meta, r);
    }
  }

  /** What the statement flushes cannot clash with another session's writes: it would wait. */
  lemma AdvanceApart(env: Env, db: Db, meta: MetaState, r: Request, c: Choice, other: Request)
    requires AllSettled(db, meta) && StageOk(env, db, meta, r) && !r.stage.AtCommit? && !r.stage.Done?
    requires Apart(r.writes, other.writes) && !Waits(r, other, c)
    ensures Apart(env.Advance(db, meta, r, c).1.writes, other.writes)
  {
    AdvanceWrites(env, db, meta, r, c);
  }

  // ----- Commit -----

  lemma CommitGrows(env: Env, db: Db, w: Writes)
    requires Committable(db, w)
    ensures Grows(db, Commit(db, w))
  {
  }

  lemma CommitTagsOk(db: Db, meta: MetaState, w: Writes)
    requires AllSettled(db, meta) && UniqueNames(db.tags) && Committable(db, w)
    requires w.tag.Some? ==> Settled(db, meta, StoredTag(w.tag.value.1))
    requires Grows(db, Commit(db, w))
    ensures AllSettled(Commit(db, w), meta) && UniqueNames(Commit(db, w).tags)
  {
    var db' := Commit(db, w);
    forall id | id in db'.tags
      ensures Settled(db', meta, db'.tags[id])
    {
      var t := if id in db.tags then db.tags[id] else StoredTag(w.tag.value.1);
      SettledGrows(db, meta, db', meta, t);
    }
  }

  lemma CommitRecordsOk(db: Db, w: Writes)
    requires AllNamed(db) && Grows(db, Commit(db, w))
    requires w.record.Some? ==> w.record.value.1.status == 201 && Names(Commit(db, w), w.record.value.1.body)
    ensures AllNamed(Commit(db, w))
  {
    var db' := Commit(db, w);
    forall key | key in db'.records
      ensures db'.records[key].status == 201 && Names(db', db'.records[key].body)
    {
      if w.record.None? || w.record.value.0 != key {
        assert db'.records[key] == db.records[key];
      }
    }
  }

  /** A backed response names a committed tag once its session has committed. */
  lemma CommitNames(db: Db, meta: MetaState, w: Writes, out: Body)
    requires Backed(db, meta, w.tag, out) && Grows(db, Commit(db, w))
    ensures Names(Commit(db, w), out)
  {
    if w.tag.Some? {
      var (id, tag) := w.tag.value;
      assert Commit(db, w).tags[id] == StoredTag(tag);
    }
  }

  lemma CommitTablesOk(env: Env, db: Db, meta: MetaState, r: Request)
    requires TablesOk(env, db, meta) && RequestOk(env, db, meta, r) && r.stage.AtCommit?
    ensures Grows(db, Commit(db, r.writes)) && TablesOk(env, Commit(db, r.writes), meta)
    ensures !Discarded(r) ==> Names(Commit(db, r.writes), r.stage.out)
  {
    CommitGrows(env, db, r.writes);
    if !Discarded(r) {
      CommitNames(db, meta, r.writes, r.stage.out);
    }
    CommitTagsOk(db, meta, r.writes);
    CommitRecordsOk(db, r.writes);
  }

  /** Another session's writes stay committable: the two held different keys. */
  lemma CommitLeavesFree(db: Db, w: Writes, other: Writes)
    requires Committable(db, w) && Committable(db, other) && Apart(w, other)
    ensures Committable(Commit(db, w), other)
  {
  }
}
