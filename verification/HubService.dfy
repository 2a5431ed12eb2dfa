/** The services of one request around one session: `get_session`, the repositories, the
    idempotency and tag services, and the create route. Each statement does what the machine's
    statement does; together they serve a request (`Serial.Serve`). */
module HubService {
  import opened Prelude
  import opened Domain
  import opened Requests
  import opened MetaAdapter
  import opened MockAdapter
  import opened Numeric
  import opened Hub
  import opened HubInvariant
  import opened Serial
  import opened Retries
  import opened Success
  import OAuth
  import Pixels

  /** A database session: the committed tables, and what has been flushed and not committed. */
  class Session {
    var db: Db
    var writes: Writes

    constructor (db: Db)
      ensures this.db == db && writes == NO_WRITES
    {
      this.db, writes := db, NO_WRITES;
    }

    /** The pixel rows as the session sees them: its own over the committed ones. */
    function Pixels(): Pixels.Table
      reads this
    {
      db.pixels + writes.pixels
    }

    method FlushPixel(id: Uuid, row: Pixels.Pixel)
      modifies this`writes
      ensures writes == old(writes).(pixels := old(writes).pixels[id := row])
      ensures Pixels() == old(Pixels())[id := row]
    {
      writes := writes.(pixels := writes.pixels[id := row]);
    }

    method FlushTag(id: Uuid, tag: Tag)
      modifies this`writes
      ensures writes == old(writes).(tag := Some((id, tag)))
    {
      writes := writes.(tag := Some((id, tag)));
    }

    method Rollback()
      modifies this`writes
      ensures writes == NO_WRITES
    {
      writes := NO_WRITES;
    }

    method Commit()
      modifies this
      ensures db == Hub.Commit(old(db), old(writes)) && writes == NO_WRITES
    {
      var tags, tokens, records, pixels := db.tags, db.tokens, db.records, db.pixels + writes.pixels;
      if writes.tag.Some? {
        var (id, tag) := writes.tag.value;
        tags := tags[id := StoredTag(tag)];
      }
      if writes.token.Some? && writes.token.value.key in tokens {
        var key := writes.token.value.key;
        tokens := tokens[key := tokens[key].(access := writes.token.value.access, expiresAt := writes.token.value.expiresAt)];
      }
      if writes.record.Some? {
        var (key, record) := writes.record.value;
        records := records[key := record];
      }
      db := db.(tags := tags, tokens := tokens, records := records, pixels := pixels);
      writes := NO_WRITES;
    }
  }

  /** What the outside decides for a request served alone: the drawn UUID, the two clock
      reads, and whether the adapter's call is faulted. */
  function Choices(tagId: Uuid, now: int, later: int, faulted: bool): nat -> Choice {
    (rank: nat) => Choice(tagId, if rank <= 5 then now else later, if faulted then Lost(false, true) else Answered)
  }

  class IdempotencyService {
    const session: Session

    constructor (session: Session)
      ensures this.session == session
    {
      this.session := session;
    }

    /** `IdempotencyRepository.get`. */
    method Get(key: string) returns (r: Option<Record>)
      ensures r == if (ENDPOINT, key) in session.db.records then Some(session.db.records[(ENDPOINT, key)]) else None
    {
      if (ENDPOINT, key) in session.db.records {
        return Some(session.db.records[(ENDPOINT, key)]);
      }
      r := None;
    }

    /** `IdempotencyRepository.insert`: the flush fails when the key is taken; then the whole
        session is rolled back and the other record read. */
    method Insert(key: string, record: Record) returns (r: Record)
      modifies session`writes
      ensures if (ENDPOINT, key) in session.db.records then
                r == session.db.records[(ENDPOINT, key)] && session.writes == NO_WRITES
              else
                r == record && session.writes == old(session.writes).(record := Some(((ENDPOINT, key), record)))
    {
      if (ENDPOINT, key) in session.db.records {
        session.Rollback();
        var existing := Get(key);
        return existing.value;
      }
      session.writes := session.writes.(record := Some(((ENDPOINT, key), record)));
      r := record;
    }

    /** The cached body, nothing, or the conflict. */
    method Lookup(key: string, requestHash: string) returns (r: Result<Option<Body>, Outcome>)
      ensures r == if (ENDPOINT, key) !in session.db.records then Ok(None)
                   else if session.db.records[(ENDPOINT, key)].requestHash != requestHash then Err(KeyConflict)
                   else Ok(Some(session.db.records[(ENDPOINT, key)].body))
    {
      var existing := Get(key);
      if existing.None? {
        return Ok(None);
      }
      if existing.value.requestHash != requestHash {
        return Err(KeyConflict);
      }
      r := Ok(Some(existing.value.body));
    }

    method Store(key: string, requestHash: string, status: nat, body: Body)
      modifies session`writes
      ensures session.writes ==
              if (ENDPOINT, key) in session.db.records then NO_WRITES
              else old(session.writes).(record := Some(((ENDPOINT, key), Record(requestHash, status, body))))
    {
      var _ := Insert(key, Record(requestHash, status, body));
    }
  }

  class ConversionTagRepository {
    const session: Session

    constructor (session: Session)
      ensures this.session == session
    {
      this.session := session;
    }

    method GetByAdvertiserAndName(advertiser: Uuid, name: string) returns (r: Option<(Uuid, Tag)>)
      requires UniqueNames(session.db.tags)
      ensures r.Some? ==> r.value.0 in session.db.tags && session.db.tags[r.value.0] == r.value.1
                          && SameName(r.value.1, advertiser, name)
      ensures r.None? ==> forall id :: id in session.db.tags ==> !SameName(session.db.tags[id], advertiser, name)
    {
      if id :| id in session.db.tags && SameName(session.db.tags[id], advertiser, name) {
        return Some((id, session.db.tags[id]));
      }
      r := None;
    }

    /** Adds and flushes; the database refuses a taken id, a taken name, and a value that does
        not fit its column. */
    method Create(id: Uuid, tag: Tag) returns (ok: bool)
      modifies session`writes
      ensures ok <==> Fresh(session.db.tags, id, tag.advertiser, tag.columns.name) && InRange(tag.columns.value)
      ensures session.writes == if ok then old(session.writes).(tag := Some((id, tag))) else old(session.writes)
    {
      FitsExactly(tag.columns.value);
      if id in session.db.tags || !Fits(tag.columns.value) {
        return false;
      }
      if other :| other in session.db.tags && SameName(session.db.tags[other], tag.advertiser, tag.columns.name) {
        return false;
      }
      session.FlushTag(id, tag);
      ok := true;
    }
  }

  /** The token service over the session's connection: what it writes to a row is flushed. */
  class TokenService {
    const session: Session
    const config: OAuth.Config

    constructor (session: Session, config: OAuth.Config)
      ensures this.session == session && this.config == config
    {
      this.session, this.config := session, config;
    }

    method GetAccessToken(key: OAuth.Key, now: int, later: int) returns (r: Result<string, OAuth.TokenError>)
      modifies session`writes
      ensures match config.Offered(if key in session.db.tokens then Some(session.db.tokens[key]) else None, now)
              case Unavailable(e) => r == Err(e) && session.writes == old(session.writes)
              case Cached(token) => r == Ok(token.value) && session.writes == old(session.writes)
              case Renewed(access) =>
                && r == Ok(access)
                && session.writes == old(session.writes).(token :=
                     Some(TokenWrite(key, config.encrypt(access), later + OAuth.DEFAULT_TTL)))
      ensures key !in session.db.tokens ==> r == Err(OAuth.NoToken)
      ensures key in session.db.tokens && session.db.tokens[key].expiresAt - now > 60 * OAuth.SECOND ==>
                match config.decrypt(session.db.tokens[key].access)
                case Ok(text) => r == Ok(text)
                case Err(e) => r == Err(OAuth.Unreadable(e))
      ensures key in session.db.tokens && session.db.tokens[key].expiresAt - now <= 60 * OAuth.SECOND ==>
                if session.db.tokens[key].refresh.None? then r == Err(OAuth.NoRefreshToken)
                else
                  match config.decrypt(session.db.tokens[key].refresh.value)
                  case Ok(text) => r == Ok(config.provider(text))
                  case Err(e) => r == Err(OAuth.Unreadable(e))
    {
      var oauth := new OAuth.OAuthService(config, session.db.tokens);
      var token, refreshed := oauth.GetAccessToken(key, now, later);
      if refreshed {
        var row := oauth.rows[key];
        session.writes := session.writes.(token := Some(TokenWrite(key, row.access, row.expiresAt)));
      }
      match token
      case Err(e) => r := Err(e);
      case Ok(t) => r := Ok(t.value);
    }
  }

  /** Statements of the request r that leave Meta alone, in one go. */
  ghost predicate LeadsTo(env: Env, db: Db, meta: MetaState, r: Request, next: Request, choose: nat -> Choice) {
    Serve(env, db, meta, r, choose) == Serve(env, db, meta, next, choose)
  }

  /** What the service finds under a name: an answer, a row to work on, or a refusal. */
  datatype Found = Finished(out: Body) | Working(id: Uuid, tag: Tag) | Refused(error: Outcome)

  class ConversionTagService {
    const env: Env
    const session: Session
    const meta: MockMetaAdapter
    const tags: ConversionTagRepository
    const oauth: TokenService

    constructor (env: Env, session: Session, meta: MockMetaAdapter)
      ensures this.env == env && this.session == session && this.meta == meta && Valid()
    {
      this.env, this.session, this.meta := env, session, meta;
      tags := new ConversionTagRepository(session);
      oauth := new TokenService(session, env.oauth);
    }

    ghost predicate Valid() {
      tags.session == session && oauth.session == session && oauth.config == env.oauth
    }

    /** The ad account and the pixel's Meta id. */
    method Load(input: Input, ghost choose: nat -> Choice) returns (r: Result<(string, string), Outcome>, ghost next: Request)
      requires session.writes == NO_WRITES
      ensures r.Ok? <==> AccountOf(session.db, input.advertiser) != "" && OwnsPixel(session.db, input)
      ensures r.Ok? ==> r.value == (AccountOf(session.db, input.advertiser), session.db.pixels[input.payload.pixelId].metaId)
      ensures r.Err? ==> r.error == if input.advertiser in session.db.advertisers && AccountOf(session.db, input.advertiser) == ""
                                    then Upstream else NotFound
      ensures next.input == input && next.writes == NO_WRITES
      ensures match r
              case Err(error) => next.stage == AtRollback(error)
              case Ok(loaded) => next.stage == AtName && (next.account, next.metaPixel) == loaded
      ensures LeadsTo(env, session.db, meta.State(), NewRequest(input).(stage := AtAdvertiser), next, choose)
    {
      ghost var start := NewRequest(input).(stage := AtAdvertiser);
      next := env.LoadAdvertiser(session.db, start);
      ServeStep(env, session.db, meta.State(), start, choose, meta.State(), next);
      if input.advertiser !in session.db.advertisers {
        return Err(NotFound), next;
      }
      var account := session.db.advertisers[input.advertiser].account;
      if account.None? || account.value == "" {
        return Err(Upstream), next;
      }
      ghost var loaded := env.LoadPixel(session.db, next);
      ServeStep(env, session.db, meta.State(), next, choose, meta.State(), loaded);
      var id := input.payload.pixelId;
      if id !in session.db.pixels || session.db.pixels[id].advertiser != input.advertiser {
        return Err(NotFound), loaded;
      }
      r, next := Ok((account.value, session.db.pixels[id].metaId)), loaded;
    }

    /** The row under the name if there is one, else a new PENDING row. */
    method FindOrInsert(input: Input, tagId: Uuid, ghost r: Request, ghost choose: nat -> Choice)
      returns (found: Found, ghost next: Request)
      requires Valid() && UniqueNames(session.db.tags) && session.writes == r.writes == NO_WRITES
      requires r.stage == AtName && r.input == input && choose(4).tagId == tagId
      modifies session`writes
      ensures next == r.(stage := next.stage, writes := session.writes)
      ensures match found
              case Finished(out) => next.stage == AtStore(out)
              case Refused(error) => next.stage == AtRollback(error)
              case Working(id, tag) => next.stage == AtToken && session.writes == NO_WRITES.(tag := Some((id, tag)))
      ensures LeadsTo(env, session.db, meta.State(), r, next, choose)
    {
      next := env.LookUpName(session.db, r);
      ServeStep(env, session.db, meta.State(), r, choose, meta.State(), next);
      var existing := tags.GetByAdvertiserAndName(input.advertiser, input.payload.columns.name);
      if existing.Some? {
        var (id, tag) := existing.value;
        if tag.status == Active {
          return Finished(BodyOf(id, tag)), next;
        }
        session.FlushTag(id, tag);
        return Working(id, tag), next;
      }
      ghost var inserted := env.InsertTag(session.db, next, tagId);
      ServeStep(env, session.db, meta.State(), next, choose, meta.State(), inserted);
      var tag := NewTag(input);
      FitsExactly(tag.columns.value);
      var ok := tags.Create(tagId, tag);
      if !ok {
        session.Rollback();
        return Refused(Conflict), inserted;
      }
      found, next := Working(tagId, tag), inserted;
    }

    /** The token is fetched for the call; Meta does not look at it. */
    method FetchToken(input: Input, now: int, later: int, ghost r: Request, ghost choose: nat -> Choice)
      returns (token: Result<string, Outcome>, ghost next: Request)
      requires Valid() && r.stage == AtToken && r.input == input && session.writes == r.writes
      requires choose(5).now == now && choose(6).now == later
      modifies session`writes
      ensures next == r.(stage := next.stage, writes := session.writes) && session.writes.tag == r.writes.tag
      ensures match token
              case Err(error) => next.stage == AtRollback(error)
              case Ok(_) => next.stage == AtMeta
      ensures LeadsTo(env, session.db, meta.State(), r, next, choose)
    {
      next := env.FetchToken(session.db, r, now);
      ServeStep(env, session.db, meta.State(), r, choose, meta.State(), next);
      var value := oauth.GetAccessToken((input.advertiser, OAuth.META_PROVIDER), now, later);
      if next.stage.AtRefresh? {
        ghost var written := env.WriteToken(next, next.stage.access, later);
        ServeStep(env, session.db, meta.State(), next, choose, meta.State(), written);
        next := written;
      }
      match value
      case Ok(text) => token := Ok(text);
      case Err(Unreadable(_)) => token := Err(Failure);
      case Err(_) => token := Err(NotFound);
    }

    /** Calls Meta and assigns the row's fields one by one. */
    method CallMeta(input: Input, id: Uuid, row: Tag, account: string, metaPixel: string,
                    ghost r: Request, ghost choose: nat -> Choice)
      returns (result: Result<Body, Outcome>, ghost next: Request)
      requires Valid() && meta.digest == env.digest
      requires r.stage == AtMeta && r.input == input && (r.account, r.metaPixel) == (account, metaPixel)
      requires session.writes == r.writes && r.writes.tag == Some((id, row))
      requires choose(7).answer == if meta.settings.Faulted(meta.callCounter + 1) then Lost(false, true) else Answered
      modifies session`writes, meta
      ensures meta.callCounter == old(meta.callCounter) + 1
      ensures Serve(env, session.db, old(meta.State()), r, choose) == Serve(env, session.db, meta.State(), next, choose).Calling(1)
      ensures next.input == input && next.writes == session.writes
      ensures match result
              case Ok(out) => next.stage == AtStore(out)
              case Err(error) => next.stage == AtRollback(error)
    {
      var tag, metaInput := row, MetaInput(metaPixel, input.payload.columns);
      ghost var before := meta.State();
      var created := meta.CreateCustomConversion(account, metaInput);
      next := env.CallMeta(before, r, choose(7).answer).1;
      ServeStep(env, session.db, before, r, choose, meta.State(), next);
      if created.Err? {
        tag := tag.(status := Status.Failed);
        tag := tag.(payload := Some(metaInput));
        session.FlushTag(id, tag);
        return Err(Upstream), next;
      }
      tag := tag.(metaId := Some(created.value.id));
      tag := tag.(status := Active);
      tag := tag.(payload := Some(metaInput));
      session.FlushTag(id, tag);
      result := Ok(BodyOf(id, tag));
    }

    method Create(input: Input, tagId: Uuid, now: int, later: int, ghost choose: nat -> Choice)
      returns (result: Result<Body, Outcome>, ghost next: Request)
      requires Valid() && meta.digest == env.digest && UniqueNames(session.db.tags) && session.writes == NO_WRITES
      requires choose == Choices(tagId, now, later, meta.settings.Faulted(meta.callCounter + 1))
      modifies session`writes, meta
      ensures next.input == input && next.writes == session.writes
      ensures match result
              case Ok(out) => next.stage == AtStore(out)
              case Err(error) => next.stage == AtRollback(error)
      ensures meta.callCounter >= old(meta.callCounter)
      ensures Serve(env, session.db, old(meta.State()), NewRequest(input).(stage := AtAdvertiser), choose)
           == Serve(env, session.db, meta.State(), next, choose).Calling(meta.callCounter - old(meta.callCounter))
    {
      var loaded;
      loaded, next := Load(input, choose);
      if loaded.Err? {
        return Err(loaded.error), next;
      }
      var found;
      found, next := FindOrInsert(input, tagId, next, choose);
      if found.Finished? {
        return Ok(found.out), next;
      }
      if found.Refused? {
        return Err(found.error), next;
      }
      var token;
      token, next := FetchToken(input, now, later, next, choose);
      if token.Err? {
        return Err(token.error), next;
      }
      result, next := CallMeta(input, found.id, found.tag, loaded.value.0, loaded.value.1, next, choose);
    }
  }

  /** The create route around both services, and `get_session` around the route. */
  class App {
    const env: Env
    const session: Session
    const meta: MockMetaAdapter
    const idempotency: IdempotencyService
    const tags: ConversionTagService

    constructor (env: Env, session: Session, meta: MockMetaAdapter)
      requires meta.digest == env.digest
      ensures this.env == env && this.session == session && this.meta == meta && Valid()
    {
      this.env, this.session, this.meta := env, session, meta;
      idempotency := new IdempotencyService(session);
      tags := new ConversionTagService(env, session, meta);
    }

    ghost predicate Valid() {
      && idempotency.session == session
      && tags.Valid() && tags.session == session && tags.meta == meta && tags.env == env
      && meta.digest == env.digest
    }

    method CreateConversionTag(input: Input, tagId: Uuid, now: int, later: int, ghost choose: nat -> Choice)
      returns (result: Result<Body, Outcome>, ghost next: Request)
      requires Valid() && UniqueNames(session.db.tags) && session.writes == NO_WRITES
      requires choose == Choices(tagId, now, later, meta.settings.Faulted(meta.callCounter + 1))
      modifies session`writes, meta
      ensures match result
              case Ok(out) =>
                || (next.stage == AtCommit(out) && next.writes == session.writes)
                || (next.stage == Done(Outcome.Created(out)) && session.writes == NO_WRITES)
              case Err(error) => next.stage == AtRollback(error)
      ensures meta.callCounter >= old(meta.callCounter)
      ensures Serve(env, session.db, old(meta.State()), NewRequest(input), choose)
           == Serve(env, session.db, meta.State(), next, choose).Calling(meta.callCounter - old(meta.callCounter))
    {
      var requestHash := env.requestHash(input);
      ghost var start := NewRequest(input);
      next := env.LookUpKey(session.db, start);
      ServeStep(env, session.db, meta.State(), start, choose, meta.State(), next);
      if KeyOf(input).Some? {
        var cached := idempotency.Lookup(KeyOf(input).value, requestHash);
        if cached.Err? {
          return Err(cached.error), next;
        }
        if cached.value.Some? {
          return Ok(cached.value.value), next;
        }
      }
      result, next := tags.Create(input, tagId, now, later, choose);
      if result.Err? {
        return;
      }
      ghost var stored := env.StoreRecord(session.db, next, result.value);
      ServeStep(env, session.db, meta.State(), next, choose, meta.State(), stored);
      if KeyOf(input).Some? {
        idempotency.Store(KeyOf(input).value, requestHash, 201, result.value);
      }
      next := stored;
    }

    /** `get_session` after the route: commits once if it returned, and rolls everything back if
        it raised. */
    method Finish(result: Result<Body, Outcome>, ghost next: Request, ghost choose: nat -> Choice) returns (outcome: Outcome)
      requires match result
               case Ok(out) =>
                 || (next.stage == AtCommit(out) && next.writes == session.writes)
                 || (next.stage == Done(Outcome.Created(out)) && session.writes == NO_WRITES)
               case Err(error) => next.stage == AtRollback(error)
      modifies session
      ensures Serve(env, old(session.db), meta.State(), next, choose) == Served(session.db, meta.State(), outcome, 0)
      ensures session.writes == NO_WRITES
    {
      match result
      case Err(error) =>
        RolledBack(env, session.db, meta.State(), next, choose, error);
        session.Rollback();
        outcome := error;
      case Ok(out) =>
        session.Commit();
        outcome := Outcome.Created(out);
    }

    method Handle(input: Input, tagId: Uuid, now: int, later: int) returns (outcome: Outcome)
      requires Valid() && UniqueNames(session.db.tags) && session.writes == NO_WRITES
      modifies session, meta
      ensures meta.callCounter >= old(meta.callCounter)
      ensures var choose := Choices(tagId, now, later, meta.settings.Faulted(old(meta.callCounter) + 1));
              var served := Serve(env, old(session.db), old(meta.State()), NewRequest(input), choose);
              && Served(session.db, meta.State(), outcome, meta.callCounter - old(meta.callCounter)) == served
              && session.writes == NO_WRITES
      ensures TablesOk(env, old(session.db), old(meta.State())) && ValidColumns(input.payload.columns) ==>
                Handled(env, old(session.db), old(meta.State()), input,
                        Choices(tagId, now, later, meta.settings.Faulted(old(meta.callCounter) + 1)), session.db, outcome)
    {
      ghost var choose := Choices(tagId, now, later, meta.settings.Faulted(meta.callCounter + 1));
      HandledInFull(env, session.db, meta.State(), input, choose);
      var result;
      ghost var next;
      result, next := CreateConversionTag(input, tagId, now, later, choose);
      outcome := Finish(result, next, choose);
    }
  }

  lemma RolledBack(env: Env, db: Db, meta: MetaState, r: Request, choose: nat -> Choice, error: Outcome)
    requires r.stage == AtRollback(error)
    ensures Serve(env, db, meta, r, choose) == Served(db, meta, error, 0)
  {
    ServeStep(env, db, meta, r, choose, meta, r.(writes := NO_WRITES, stage := Done(error)));
  }
}
