/** The pixel sync request: `PixelSyncService.sync_for_advertiser` around its session. */
module PixelSync {
  import opened Prelude
  import opened Domain
  import opened MetaAdapter
  import opened MockAdapter
  import opened Hub
  import opened HubInvariant
  import opened Serial
  import opened HubService
  import HubTheorems
  import OAuth
  import Pixels

  /** The advertiser's pixels after the sync, and the two counts. */
  datatype Report = Report(listed: Pixels.Table, created: nat, updated: nat)

  function Listed(rows: Pixels.Table, advertiser: Uuid): Pixels.Table {
    map id | id in rows && rows[id].advertiser == advertiser :: rows[id]
  }

  function TokenKeyOf(advertiser: Uuid): OAuth.Key {
    (advertiser, OAuth.META_PROVIDER)
  }

  /** The tables after the request and its answer. A faulted call is not caught. */
  ghost function ServeSync(env: Env, db: Db, meta: MetaState, ids: nat -> Uuid, advertiser: Uuid,
                           now: int, later: int, faulted: bool): (Db, Result<Report, Outcome>)
  {
    if advertiser !in db.advertisers then (db, Err(NotFound))
    else if AccountOf(db, advertiser) == "" then (db, Err(Upstream))
    else
      match env.oauth.Get(db.tokens, TokenKeyOf(advertiser), now, later)
      case (_, Err(Unreadable(_))) => (db, Err(Failure))
      case (_, Err(_)) => (db, Err(NotFound))
      case (tokens, Ok(_)) =>
        if faulted then (db, Err(Failure))
        else
          match Pixels.Synced(ids, Pixels.Progress(db.pixels, 0, 0, 0), advertiser, PixelsOf(meta, AccountOf(db, advertiser)))
          case Err(_) => (db, Err(Failure))
          case Ok(p) =>
            (db.(tokens := tokens, pixels := p.rows), Ok(Report(Listed(p.rows, advertiser), p.created, p.updated)))
  }

  // ----- The request in its own terms -----

  /** A sync that returns: the tables after it and its answer. */
  ghost predicate SyncsTo(db: Db, db': Db, advertiser: Uuid, fetched: seq<MetaPixel>, report: Report) {
    && report.created == |Pixels.MetaIds(fetched) - Pixels.Known(db.pixels)|
    && report.created + report.updated == |fetched|
    && (forall id :: id in report.listed <==> id in db'.pixels && db'.pixels[id].advertiser == advertiser)
    && (forall id :: id in report.listed ==> report.listed[id] == db'.pixels[id])
    && db' == db.(pixels := db'.pixels, tokens := db'.tokens)
    && PixelsAfter(db.pixels, db'.pixels, advertiser, fetched)
  }

  /** Every fetched pixel has one row, as last described, for the advertiser; known pixels keep
      their ids, and all others their rows. */
  ghost predicate PixelsAfter(rows: Pixels.Table, rows': Pixels.Table, advertiser: Uuid, fetched: seq<MetaPixel>) {
    && Pixels.UniqueMetaIds(rows')
    && Pixels.Known(rows') == Pixels.Known(rows) + Pixels.MetaIds(fetched)
    && (forall i: nat :: Pixels.LastOf(fetched, i) ==> HasRow(rows', advertiser, fetched[i]))
    && (forall id :: id in rows ==> id in rows' && rows'[id].metaId == rows[id].metaId)
    && (forall id :: id in rows && rows[id].metaId !in Pixels.MetaIds(fetched) ==> rows'[id] == rows[id])
  }

  ghost predicate HasRow(rows: Pixels.Table, advertiser: Uuid, pixel: MetaPixel) {
    exists id :: id in rows && rows[id] == Pixels.Pixel(advertiser, pixel.id, pixel.name, pixel.status)
  }

  /** Why a sync fails, the first reason counting: no advertiser, no ad account, no token, a
      token that does not decrypt, a faulted call, a drawn id that is taken. */
  ghost predicate SyncFails(env: Env, db: Db, ids: nat -> Uuid, advertiser: Uuid, now: int, faulted: bool,
                            fetched: seq<MetaPixel>, error: Outcome)
  {
    var key := TokenKeyOf(advertiser);
    if advertiser !in db.advertisers then error == NotFound
    else if AccountOf(db, advertiser) == "" then error == Upstream
    else if OAuth.Missing(db.tokens, key, now) then error == NotFound
    else if OAuth.Garbled(env.oauth, db.tokens, key, now) || faulted then error == Failure
    else error == Failure && Pixels.Clashes(ids, db.pixels, |Pixels.MetaIds(fetched) - Pixels.Known(db.pixels)|)
  }

  /** None of that. */
  ghost predicate SyncCan(env: Env, db: Db, ids: nat -> Uuid, advertiser: Uuid, now: int, faulted: bool, fetched: seq<MetaPixel>) {
    var key := TokenKeyOf(advertiser);
    && AccountOf(db, advertiser) != "" && !OAuth.Missing(db.tokens, key, now) && !OAuth.Garbled(env.oauth, db.tokens, key, now)
    && !faulted && !Pixels.Clashes(ids, db.pixels, |Pixels.MetaIds(fetched) - Pixels.Known(db.pixels)|)
  }

  ghost predicate SyncAnswers(env: Env, db: Db, meta: MetaState, ids: nat -> Uuid, advertiser: Uuid, now: int, later: int,
                              faulted: bool, db': Db, r: Result<Report, Outcome>)
  {
    match r
    case Err(error) => SyncFails(env, db, ids, advertiser, now, faulted, PixelsOf(meta, AccountOf(db, advertiser)), error)
    case Ok(report) =>
      var fetched := PixelsOf(meta, AccountOf(db, advertiser));
      && SyncCan(env, db, ids, advertiser, now, faulted, fetched)
      && OAuth.LeavesRows(env.oauth, db.tokens, TokenKeyOf(advertiser), now, later, db'.tokens)
      && SyncsTo(db, db', advertiser, fetched, report)
  }

  lemma SyncedPixels(ids: nat -> Uuid, start: Pixels.Progress, advertiser: Uuid, fetched: seq<MetaPixel>, rows': Pixels.Table)
    requires Pixels.UniqueMetaIds(start.rows) && Pixels.Synced(ids, start, advertiser, fetched).Ok?
    requires rows' == Pixels.Synced(ids, start, advertiser, fetched).value.rows
    ensures PixelsAfter(start.rows, rows', advertiser, fetched)
  {
    Pixels.SyncKeepsUnique(ids, start, advertiser, fetched);
    Pixels.SyncKnows(ids, start, advertiser, fetched);
    Pixels.SyncEvolves(ids, start, advertiser, fetched);
    forall i: nat | Pixels.LastOf(fetched, i)
      ensures HasRow(rows', advertiser, fetched[i])
    {
      var id := FetchedIsListed(ids, start, advertiser, fetched, i);
    }
    forall id | id in start.rows && start.rows[id].metaId !in Pixels.MetaIds(fetched)
      ensures rows'[id] == start.rows[id]
    {
      Pixels.OverrideKeys(advertiser, fetched);
      Pixels.SyncIsOverride(ids, start, advertiser, fetched, start.rows[id].metaId);
    }
  }

  class PixelRepository {
    const session: Session
    const ids: nat -> Uuid
    var drawn: nat

    constructor (session: Session, ids: nat -> Uuid)
      ensures this.session == session && this.ids == ids && drawn == 0
    {
      this.session, this.ids, drawn := session, ids, 0;
    }

    method GetByMetaId(metaId: string) returns (r: Option<(Uuid, Pixels.Pixel)>)
      requires Pixels.UniqueMetaIds(session.Pixels())
      ensures match Pixels.ByMetaId(session.Pixels(), metaId)
              case Some(id) => r == Some((id, session.Pixels()[id]))
              case None => r == None
    {
      if id :| id in session.Pixels() && session.Pixels()[id].metaId == metaId {
        return Some((id, session.Pixels()[id]));
      }
      r := None;
    }

    /** Inserts, or assigns the fields of the row with this Meta id, and flushes. */
    method UpsertFromMeta(advertiser: Uuid, pixel: MetaPixel) returns (r: Result<bool, Pixels.IntegrityError>)
      requires Pixels.UniqueMetaIds(session.Pixels())
      modifies session`writes, this`drawn
      ensures session.writes == old(session.writes).(pixels := session.writes.pixels)
      ensures match Pixels.Upsert(ids, Pixels.Progress(old(session.Pixels()), old(drawn), 0, 0), advertiser, pixel)
              case Err(e) => r == Err(e) && session.writes == old(session.writes) && drawn == old(drawn)
              case Ok(after) =>
                r == Ok(after.created == 1) && session.Pixels() == after.rows && drawn == after.drawn
    {
      var existing := GetByMetaId(pixel.id);
      if existing.Some? {
        var (id, row) := existing.value;
        row := row.(name := pixel.name, status := pixel.status, advertiser := advertiser);
        session.FlushPixel(id, row);
        return Ok(false);
      }
      var id := ids(drawn);
      if id in session.Pixels() {
        return Err(Pixels.IntegrityError);
      }
      session.FlushPixel(id, Pixels.Row(advertiser, pixel));
      drawn := drawn + 1;
      r := Ok(true);
    }

    method ListForAdvertiser(advertiser: Uuid) returns (listed: Pixels.Table)
      ensures forall id :: id in listed <==> id in session.Pixels() && session.Pixels()[id].advertiser == advertiser
      ensures forall id :: id in listed ==> listed[id] == session.Pixels()[id]
      ensures listed == Listed(session.Pixels(), advertiser)
    {
      listed := Listed(session.Pixels(), advertiser);
    }
  }

  class PixelSyncService {
    const env: Env
    const session: Session
    const meta: MockMetaAdapter
    const oauth: TokenService

    constructor (env: Env, session: Session, meta: MockMetaAdapter)
      ensures this.env == env && this.session == session && this.meta == meta && Valid()
    {
      this.env, this.session, this.meta := env, session, meta;
      oauth := new TokenService(session, env.oauth);
    }

    ghost predicate Valid() {
      oauth.session == session && oauth.config == env.oauth
    }

    /** The loop over the fetched list, row by row through the session. */
    method Reconcile(pixels: PixelRepository, advertiser: Uuid, fetched: seq<MetaPixel>)
      returns (r: Result<(nat, nat), Pixels.IntegrityError>)
      requires pixels.session == session && Pixels.UniqueMetaIds(session.Pixels())
      modifies session`writes, pixels`drawn
      ensures session.writes == old(session.writes).(pixels := session.writes.pixels)
      ensures match Pixels.Synced(pixels.ids, Pixels.Progress(old(session.Pixels()), old(pixels.drawn), 0, 0), advertiser, fetched)
              case Err(_) => r.Err?
              case Ok(after) => r == Ok((after.created, after.updated)) && session.Pixels() == after.rows
    {
      ghost var ids, start := pixels.ids, Pixels.Progress(session.Pixels(), pixels.drawn, 0, 0);
      ghost var at := start;
      var created, updated := 0, 0;
      for i := 0 to |fetched|
        invariant session.writes == old(session.writes).(pixels := session.writes.pixels)
        invariant at == Pixels.Progress(session.Pixels(), pixels.drawn, created, updated)
        invariant Pixels.Reaches(ids, start, advertiser, fetched, i, at)
      {
        Pixels.ReachesNext(ids, start, advertiser, fetched, i, at);
        var wasCreated := pixels.UpsertFromMeta(advertiser, fetched[i]);
        if wasCreated.Err? {
          return Err(Pixels.IntegrityError);
        }
        at := Pixels.Upsert(ids, at, advertiser, fetched[i]).value;
        if wasCreated.value {
          created := created + 1;
        } else {
          updated := updated + 1;
        }
      }
      assert fetched[..|fetched|] == fetched;
      r := Ok((created, updated));
    }

    method SyncForAdvertiser(pixels: PixelRepository, advertiser: Uuid, now: int, later: int)
      returns (result: Result<Report, Outcome>)
      requires Valid() && pixels.session == session && pixels.drawn == 0
      requires session.writes == NO_WRITES && Pixels.UniqueMetaIds(session.db.pixels)
      modifies session`writes, meta`callCounter, pixels`drawn
      ensures var faulted := meta.settings.Faulted(old(meta.callCounter) + 1);
              var (db, r) := ServeSync(env, session.db, meta.State(), pixels.ids, advertiser, now, later, faulted);
              && result == r
              && (r.Ok? ==> Hub.Commit(session.db, session.writes) == db)
    {
      NothingFlushed(session.db.pixels);
      if advertiser !in session.db.advertisers {
        return Err(NotFound);
      }
      var account := session.db.advertisers[advertiser].account;
      if account.None? || account.value == "" {
        return Err(Upstream);
      }
      TokenWriteIsGet(env, session.db, TokenKeyOf(advertiser), now, later);
      var token := oauth.GetAccessToken(TokenKeyOf(advertiser), now, later);
      if token.Err? {
        return Err(if token.error.Unreadable? then Failure else NotFound);
      }
      var fetched := meta.ListPixels(account.value);
      if fetched.Err? {
        return Err(Failure);
      }
      var counts := Reconcile(pixels, advertiser, fetched.value);
      if counts.Err? {
        return Err(Failure);
      }
      var listed := pixels.ListForAdvertiser(advertiser);
      result := Ok(Report(listed, counts.value.0, counts.value.1));
    }

    /** `get_session` after the sync: commits once if it returned, else rolls everything back. */
    method Finish(result: Result<Report, Outcome>)
      modifies session
      ensures session.db == if result.Ok? then Hub.Commit(old(session.db), old(session.writes)) else old(session.db)
      ensures session.writes == NO_WRITES
    {
      if result.Ok? {
        session.Commit();
      } else {
        session.Rollback();
      }
    }

    method Handle(ids: nat -> Uuid, advertiser: Uuid, now: int, later: int) returns (result: Result<Report, Outcome>)
      requires Valid() && session.writes == NO_WRITES && Pixels.UniqueMetaIds(session.db.pixels)
      modifies session, meta`callCounter
      ensures var faulted := meta.settings.Faulted(old(meta.callCounter) + 1);
              (session.db, result)
              == ServeSync(env, old(session.db), meta.State(), ids, advertiser, now, later, faulted)
      ensures SyncAnswers(env, old(session.db), meta.State(), ids, advertiser, now, later,
                          meta.settings.Faulted(old(meta.callCounter) + 1), session.db, result)
      ensures result.Err? ==> session.db == old(session.db)
      ensures session.writes == NO_WRITES
    {
      ServeSyncAnswers(env, session.db, meta.State(), ids, advertiser, now, later, meta.settings.Faulted(meta.callCounter + 1));
      var pixels := new PixelRepository(session, ids);
      result := SyncForAdvertiser(pixels, advertiser, now, later);
      Finish(result);
    }
  }

  lemma ReportOf(ids: nat -> Uuid, db: Db, advertiser: Uuid, fetched: seq<MetaPixel>, tokens: OAuth.Rows, p: Pixels.Progress)
    requires Pixels.UniqueMetaIds(db.pixels)
    requires Pixels.Synced(ids, Pixels.Progress(db.pixels, 0, 0, 0), advertiser, fetched) == Ok(p)
    ensures SyncsTo(db, db.(tokens := tokens, pixels := p.rows), advertiser, fetched,
                    Report(Listed(p.rows, advertiser), p.created, p.updated))
  {
    var start := Pixels.Progress(db.pixels, 0, 0, 0);
    Pixels.SyncCounts(ids, start, advertiser, fetched);
    SyncedPixels(ids, start, advertiser, fetched, p.rows);
  }

  lemma ServeSyncAnswers(env: Env, db: Db, meta: MetaState, ids: nat -> Uuid, advertiser: Uuid, now: int, later: int, faulted: bool)
    requires Pixels.UniqueMetaIds(db.pixels)
    ensures var (db', r) := ServeSync(env, db, meta, ids, advertiser, now, later, faulted);
            SyncAnswers(env, db, meta, ids, advertiser, now, later, faulted, db', r)
  {
    var start, fetched := Pixels.Progress(db.pixels, 0, 0, 0), PixelsOf(meta, AccountOf(db, advertiser));
    OAuth.GetExactly(env.oauth, db.tokens, TokenKeyOf(advertiser), now, later);
    Pixels.SyncFailsExactly(ids, start, advertiser, fetched);
    var (db', r) := ServeSync(env, db, meta, ids, advertiser, now, later, faulted);
    if r.Ok? {
      ReportOf(ids, db, advertiser, fetched, db'.tokens, Pixels.Synced(ids, start, advertiser, fetched).value);
    }
  }

  lemma NothingFlushed(rows: Pixels.Table)
    ensures rows + map[] == rows
  {
  }

  function TokenWriteOf(env: Env, tokens: OAuth.Rows, key: OAuth.Key, now: int, later: int): Option<TokenWrite> {
    match env.oauth.Offered(if key in tokens then Some(tokens[key]) else None, now)
    case Renewed(access) => Some(TokenWrite(key, env.oauth.encrypt(access), later + OAuth.DEFAULT_TTL))
    case _ => None
  }

  /** Committing what the session flushed for the token is `get_access_token` on the table. */
  lemma TokenWriteIsGet(env: Env, db: Db, key: OAuth.Key, now: int, later: int)
    ensures CommitToken(db.tokens, TokenWriteOf(env, db.tokens, key, now, later))
         == env.oauth.Get(db.tokens, key, now, later).0
  {
  }

  /** Every fetched pixel is listed for the advertiser, as Meta last described it. */
  lemma FetchedIsListed(ids: nat -> Uuid, start: Pixels.Progress, advertiser: Uuid, fetched: seq<MetaPixel>, i: nat)
    returns (id: Uuid)
    requires Pixels.UniqueMetaIds(start.rows) && Pixels.Synced(ids, start, advertiser, fetched).Ok?
    requires Pixels.LastOf(fetched, i)
    ensures var rows := Pixels.Synced(ids, start, advertiser, fetched).value.rows;
            && id in rows && id in Listed(rows, advertiser)
            && Listed(rows, advertiser)[id] == rows[id]
            && rows[id] == Pixels.Pixel(advertiser, fetched[i].id, fetched[i].name, fetched[i].status)
  {
    var rows := Pixels.Synced(ids, start, advertiser, fetched).value.rows;
    Pixels.OverrideLast(advertiser, fetched, i);
    Pixels.SyncIsOverride(ids, start, advertiser, fetched, fetched[i].id);
    id := Pixels.ByMetaId(rows, fetched[i].id).value;
  }

  /** A successful sync is a run of the machine (a pixel table that evolves, and a token saved if it was refreshed), so
      what is proved of runs holds across it. */
  lemma SyncIsRun(env: Env, run: seq<State>, steps: seq<Step>, meta: MetaState, ids: nat -> Uuid, advertiser: Uuid,
                  now: int, later: int, faulted: bool)
    returns (run': seq<State>, steps': seq<Step>)
    requires IsRun(env, run, steps)
    requires ServeSync(env, Last(run).db, meta, ids, advertiser, now, later, faulted).1.Ok?
    ensures IsRun(env, run', steps') && run <= run'
    ensures Last(run') == Last(run).(db := ServeSync(env, Last(run).db, meta, ids, advertiser, now, later, faulted).0)
  {
    var s, key := Last(run), TokenKeyOf(advertiser);
    HubTheorems.PixelsStayUnique(env, run, steps, |run| - 1);
    var db := ServeSync(env, s.db, meta, ids, advertiser, now, later, faulted).0;
    var start := Pixels.Progress(s.db.pixels, 0, 0, 0);
    Pixels.SyncKeepsUnique(ids, start, advertiser, PixelsOf(meta, AccountOf(s.db, advertiser)));
    Pixels.SyncEvolves(ids, start, advertiser, PixelsOf(meta, AccountOf(s.db, advertiser)));
    run', steps' := Extend(env, run, steps, SyncPixels(db.pixels));
    match env.oauth.Offered(if key in s.db.tokens then Some(s.db.tokens[key]) else None, now)
    case Renewed(access) =>
      var save := SaveToken(key, access, None, later + OAuth.DEFAULT_TTL, s.db.tokens[key].scopes);
      run', steps' := Extend(env, run', steps', save);
    case _ =>
  }
}
