/** The create protocol as a machine: tables, requests in flight with what they have flushed
    but not committed, and Meta. Each request advances one database statement or outside call
    at a time, so its reads see what others had committed at that moment (READ COMMITTED). */
module Hub {
  import opened Prelude
  import opened Domain
  import opened Requests
  import opened MetaAdapter
  import opened Numeric
  import OAuth
  import Pixels

  // ----- Tables -----

  datatype Advertiser = Advertiser(account: Option<string>)

  datatype Status = Pending | Active | Failed

  datatype Tag = Tag(advertiser: Uuid, pixelId: Uuid, columns: Columns,
                     payload: Option<MetaInput>, metaId: Option<string>, status: Status)

  /** `ConversionTagOut`, without its timestamps. */
  datatype Body = Body(id: Uuid, advertiser: Uuid, pixelId: Uuid, columns: Columns,
                       metaId: Option<string>, status: Status)

  datatype Record = Record(requestHash: string, status: nat, body: Body)

  /** Endpoint and key. */
  type RecordKey = (string, string)

  const ENDPOINT := "POST /advertisers/{id}/conversion-tags"

  datatype Db = Db(advertisers: map<Uuid, Advertiser>, pixels: Pixels.Table, tags: map<Uuid, Tag>,
                   tokens: OAuth.Rows, records: map<RecordKey, Record>)

  function BodyOf(id: Uuid, t: Tag): Body {
    Body(id, t.advertiser, t.pixelId, t.columns, t.metaId, t.status)
  }

  predicate SameName(t: Tag, advertiser: Uuid, name: string) {
    t.advertiser == advertiser && t.columns.name == name
  }

  // ----- What rows hold -----

  /** What a row holds of the columns written to it. */
  function StoredColumns(c: Columns): Columns {
    c.(value := StoredValue(c.value))
  }

  function StoredTag(t: Tag): Tag {
    t.(columns := StoredColumns(t.columns))
  }

  function StoredBody(b: Body): Body {
    b.(columns := StoredColumns(b.columns))
  }

  lemma StoredTwice(c: Columns)
    ensures StoredColumns(StoredColumns(c)) == StoredColumns(c)
  {
    if c.value.Some? {
      assert Pow10(0) == 1;
    }
  }

  /** The row has the columns it was given, but for the rounding of the value. */
  ghost predicate Holds(row: Columns, given: Columns) {
    && row.name == given.name && row.eventType == given.eventType && row.category == given.category
    && row.currency == given.currency && row.rule == given.rule
    && Rounds(row.value, given.value)
  }

  lemma StoredHolds(row: Columns, given: Columns)
    ensures row == StoredColumns(given) <==> Holds(row, given)
  {
    StoredRounds(row.value, given.value);
  }

  // ----- Requests in flight -----

  /** New access token and expiry of a refreshed row. */
  datatype TokenWrite = TokenWrite(key: OAuth.Key, access: string, expiresAt: int)

  /** What a session has flushed and not committed. */
  datatype Writes = Writes(tag: Option<(Uuid, Tag)>, token: Option<TokenWrite>, record: Option<(RecordKey, Record)>,
                           pixels: Pixels.Table)

  const NO_WRITES := Writes(None, None, None, map[])

  /** How a request ends: 201, 404, 409 (name), 409 (key), 502, or an unforeseen error. */
  datatype Outcome = Created(body: Body) | NotFound | Conflict | KeyConflict | Upstream | Failure

  datatype Stage =
    | AtKey
    | AtAdvertiser
    | AtPixel
    | AtName
    | AtInsert
    | AtToken
    | AtRefresh(access: string)
    | AtMeta
    | AtStore(out: Body)
    | AtCommit(out: Body)
    | AtRollback(error: Outcome)
    | Done(outcome: Outcome)

  /** How far a request has come. */
  function Rank(stage: Stage): nat {
    match stage
    case AtKey => 0
    case AtAdvertiser => 1
    case AtPixel => 2
    case AtName => 3
    case AtInsert => 4
    case AtToken => 5
    case AtRefresh(_) => 6
    case AtMeta => 7
    case AtStore(_) => 8
    case AtCommit(_) => 9
    case AtRollback(_) => 9
    case Done(_) => 10
  }

  datatype Request = Request(input: Input, stage: Stage, account: string, metaPixel: string, writes: Writes)

  function NewRequest(input: Input): Request {
    Request(input, AtKey, "", "", NO_WRITES)
  }

  /** Meta's answer, or an error in its place: of the kind the service catches or not, with
      the conversion created behind it or not. */
  datatype Answer = Answered | Lost(applied: bool, caught: bool)

  /** What the outside decides: the drawn UUID, the clock, Meta's answer. */
  datatype Choice = Choice(tagId: Uuid, now: int, answer: Answer)

  function Fail(r: Request, error: Outcome): Request {
    r.(stage := AtRollback(error))
  }

  function NewTag(input: Input): Tag {
    Tag(input.advertiser, input.payload.pixelId, input.payload.columns, None, None, Pending)
  }

  function MetaInputOf(r: Request): MetaInput {
    MetaInput(r.metaPixel, r.input.payload.columns)
  }

  function TokenKey(r: Request): OAuth.Key {
    (r.input.advertiser, OAuth.META_PROVIDER)
  }

  /** What the protocol is run with: the hash of a request (see `EnvOf`), Meta's id digest,
      and the token service. */
  datatype Env = Env(requestHash: Input -> string, digest: string -> string, oauth: OAuth.Config) {

    function RecordOf(r: Request, out: Body): Record {
      Record(requestHash(r.input), 201, out)
    }

    // ----- One statement of one request -----

    function LookUpKey(db: Db, r: Request): Request {
      match KeyOf(r.input)
      case None => r.(stage := AtAdvertiser)
      case Some(key) =>
        if (ENDPOINT, key) !in db.records then r.(stage := AtAdvertiser)
        else
          var record := db.records[(ENDPOINT, key)];
          if record.requestHash != requestHash(r.input) then Fail(r, KeyConflict)
          else r.(stage := Done(Created(record.body)))
    }

    function LoadAdvertiser(db: Db, r: Request): Request {
      if r.input.advertiser !in db.advertisers then Fail(r, NotFound)
      else
        match db.advertisers[r.input.advertiser].account
        case None => Fail(r, Upstream)
        case Some(account) =>
          if account == "" then Fail(r, Upstream) else r.(account := account, stage := AtPixel)
    }

    function LoadPixel(db: Db, r: Request): Request {
      var id := r.input.payload.pixelId;
      if id !in db.pixels || db.pixels[id].advertiser != r.input.advertiser then Fail(r, NotFound)
      else r.(metaPixel := db.pixels[id].metaId, stage := AtName)
    }

    ghost function LookUpName(db: Db, r: Request): Request {
      if id :| id in db.tags && SameName(db.tags[id], r.input.advertiser, r.input.payload.columns.name) then
        var existing := db.tags[id];
        if existing.status == Active then r.(stage := AtStore(BodyOf(id, existing)))
        else r.(writes := r.writes.(tag := Some((id, existing))), stage := AtToken)
      else
        r.(stage := AtInsert)
    }

    ghost function InsertTag(db: Db, r: Request, tagId: Uuid): Request {
      var tag := NewTag(r.input);
      if tagId in db.tags
         || (exists id :: id in db.tags && SameName(db.tags[id], tag.advertiser, tag.columns.name))
         || !Fits(tag.columns.value) then
        Fail(r, Conflict)
      else
        r.(writes := r.writes.(tag := Some((tagId, tag))), stage := AtToken)
    }

    function FetchToken(db: Db, r: Request, now: int): Request {
      var row := if TokenKey(r) in db.tokens then Some(db.tokens[TokenKey(r)]) else None;
      match oauth.Offered(row, now)
      case Cached(_) => r.(stage := AtMeta)
      case Renewed(access) => r.(stage := AtRefresh(access))
      case Unavailable(Unreadable(_)) => Fail(r, Failure)
      case Unavailable(_) => Fail(r, NotFound)
    }

    function WriteToken(r: Request, access: string, now: int): Request {
      var write := TokenWrite(TokenKey(r), oauth.encrypt(access), now + OAuth.DEFAULT_TTL);
      r.(writes := r.writes.(token := Some(write)), stage := AtMeta)
    }

    function Activated(r: Request, t: Tag, metaId: string): Tag {
      t.(metaId := Some(metaId), status := Active, payload := Some(MetaInputOf(r)))
    }

    function Abandoned(r: Request, t: Tag): Tag {
      t.(status := Status.Failed, payload := Some(MetaInputOf(r)))
    }

    function CallMeta(meta: MetaState, r: Request, answer: Answer): (MetaState, Request)
      requires r.writes.tag.Some?
    {
      var (id, tag) := r.writes.tag.value;
      var (meta', created) := Create(digest, meta, r.account, MetaInputOf(r));
      match answer
      case Answered =>
        (match created
         case Ok(conversion) =>
           var active := Activated(r, tag, conversion.id);
           (meta', r.(writes := r.writes.(tag := Some((id, active))), stage := AtStore(BodyOf(id, active))))
         case Err(_) =>
           (meta', Fail(r.(writes := r.writes.(tag := Some((id, Abandoned(r, tag))))), Upstream)))
      case Lost(applied, caught) =>
        (if applied then meta' else meta,
         if caught then Fail(r.(writes := r.writes.(tag := Some((id, Abandoned(r, tag))))), Upstream)
         else Fail(r, Failure))
    }

    /** Stores the response under the key; on a conflict the whole session is rolled back and
        the response stands. */
    function StoreRecord(db: Db, r: Request, out: Body): Request {
      match KeyOf(r.input)
      case None => r.(stage := AtCommit(out))
      case Some(key) =>
        if (ENDPOINT, key) in db.records then r.(writes := NO_WRITES, stage := AtCommit(out))
        else
          r.(writes := r.writes.(record := Some(((ENDPOINT, key), RecordOf(r, out)))), stage := AtCommit(out))
    }

    ghost function Advance(db: Db, meta: MetaState, r: Request, c: Choice): (MetaState, Request)
      requires !r.stage.AtCommit? && !r.stage.Done?
    {
      match r.stage
      case AtKey => (meta, LookUpKey(db, r))
      case AtAdvertiser => (meta, LoadAdvertiser(db, r))
      case AtPixel => (meta, LoadPixel(db, r))
      case AtName => (meta, LookUpName(db, r))
      case AtInsert => (meta, InsertTag(db, r, c.tagId))
      case AtToken => (meta, FetchToken(db, r, c.now))
      case AtRefresh(access) => (meta, WriteToken(r, access, c.now))
      case AtMeta => if r.writes.tag.Some? then CallMeta(meta, r, c.answer) else (meta, Fail(r, Failure))
      case AtStore(out) => (meta, StoreRecord(db, r, out))
      case AtRollback(error) => (meta, r.(writes := NO_WRITES, stage := Done(error)))
    }
  }

  function EnvOf(hashing: Hashing, digest: string -> string, oauth: OAuth.Config): Env {
    Env(input => hashing.RequestHash(input), digest, oauth)
  }

  // ----- Commit -----

  function CommitTag(tags: map<Uuid, Tag>, write: Option<(Uuid, Tag)>): map<Uuid, Tag> {
    match write
    case None => tags
    case Some((id, tag)) => tags[id := StoredTag(tag)]
  }

  /** The update sets the two columns that changed, on the row as it is by then. */
  function CommitToken(rows: OAuth.Rows, write: Option<TokenWrite>): OAuth.Rows {
    match write
    case None => rows
    case Some(w) =>
      if w.key in rows then rows[w.key := rows[w.key].(access := w.access, expiresAt := w.expiresAt)] else rows
  }

  function CommitRecord(records: map<RecordKey, Record>, write: Option<(RecordKey, Record)>): map<RecordKey, Record> {
    match write
    case None => records
    case Some((key, record)) => records[key := record]
  }

  function CommitPixels(rows: Pixels.Table, write: Pixels.Table): (r: Pixels.Table)
    ensures write == map[] ==> r == rows
  {
    rows + write
  }

  function Commit(db: Db, w: Writes): Db {
    db.(tags := CommitTag(db.tags, w.tag), tokens := CommitToken(db.tokens, w.token),
        records := CommitRecord(db.records, w.record), pixels := CommitPixels(db.pixels, w.pixels))
  }

  // ----- The machine -----

  datatype State = State(db: Db, meta: MetaState, requests: map<nat, Request>)

  /** A request arrives, does its next statement, or dies (a database error, a lost
      connection); or the rest of the system commits or does something of its own. */
  datatype Step =
    | Arrive(rid: nat, input: Input)
    | Move(rid: nat, choice: Choice)
    | Crash(rid: nat)
    | Advertise(id: Uuid, advertiser: Advertiser)
    | SyncPixels(pixels: Pixels.Table)
    | SaveToken(key: OAuth.Key, access: string, refresh: Option<string>, expiresAt: int, scopes: Option<string>)
    | SeedMeta(account: string, seeded: seq<MetaPixel>)
    | CreateElsewhere(account: string, conversion: MetaInput)

  /** Where the request ends when a statement fails for reasons of its own: the insert reports
      every database error as a conflict. */
  function Broken(r: Request): Request {
    r.(writes := NO_WRITES, stage := Done(if r.stage.AtInsert? then Conflict else Failure))
  }

  predicate Live(r: Request) {
    !r.stage.Done?
  }

  /** The statement the request is about to flush hits a unique key or a row that another
      session has flushed and not committed, so the database makes it wait. */
  ghost predicate Waits(r: Request, other: Request, c: Choice) {
    match r.stage
    case AtInsert =>
      && other.writes.tag.Some?
      && (other.writes.tag.value.0 == c.tagId
          || SameName(other.writes.tag.value.1, r.input.advertiser, r.input.payload.columns.name))
    case AtRefresh(_) => other.writes.token.Some? && other.writes.token.value.key == TokenKey(r)
    case AtStore(_) =>
      KeyOf(r.input).Some? && other.writes.record.Some? && other.writes.record.value.0 == (ENDPOINT, KeyOf(r.input).value)
    case _ => false
  }

  ghost predicate Blocked(s: State, rid: nat, c: Choice)
    requires rid in s.requests
  {
    exists other :: other in s.requests && other != rid && Waits(s.requests[rid], s.requests[other], c)
  }

  ghost predicate Enabled(s: State, step: Step) {
    match step
    case Arrive(rid, input) => rid !in s.requests && ValidColumns(input.payload.columns)
    case Move(rid, c) => rid in s.requests && Live(s.requests[rid]) && !Blocked(s, rid, c)
    case Crash(rid) => rid in s.requests && Live(s.requests[rid])
    case Advertise(id, _) => id !in s.db.advertisers
    case SyncPixels(pixels) => Pixels.Evolves(s.db.pixels, pixels) && Pixels.UniqueMetaIds(pixels)
    case _ => true
  }

  ghost function MoveRequest(env: Env, s: State, rid: nat, c: Choice): State
    requires rid in s.requests && Live(s.requests[rid])
  {
    var r := s.requests[rid];
    if r.stage.AtCommit? then
      State(Commit(s.db, r.writes), s.meta,
            s.requests[rid := r.(writes := NO_WRITES, stage := Done(Created(r.stage.out)))])
    else
      var (meta, r') := env.Advance(s.db, s.meta, r, c);
      State(s.db, meta, s.requests[rid := r'])
  }

  ghost function Apply(env: Env, s: State, step: Step): State
    requires Enabled(s, step)
  {
    match step
    case Arrive(rid, input) => s.(requests := s.requests[rid := NewRequest(input)])
    case Move(rid, c) => MoveRequest(env, s, rid, c)
    case Crash(rid) => s.(requests := s.requests[rid := Broken(s.requests[rid])])
    case Advertise(id, advertiser) => s.(db := s.db.(advertisers := s.db.advertisers[id := advertiser]))
    case SyncPixels(pixels) => s.(db := s.db.(pixels := pixels))
    case SaveToken(key, access, refresh, expiresAt, scopes) =>
      var row := env.oauth.StoredRow(access, refresh, expiresAt, scopes);
      s.(db := s.db.(tokens := s.db.tokens[key := OAuth.Merge(s.db.tokens, key, row)]))
    case SeedMeta(account, seeded) => s.(meta := s.meta.(pixels := s.meta.pixels[account := seeded]))
    case CreateElsewhere(account, conversion) => s.(meta := Create(env.digest, s.meta, account, conversion).0)
  }

  ghost predicate Init(env: Env, s: State) {
    && s.db.tags == map[] && s.db.records == map[] && s.requests == map[]
    && Pixels.UniqueMetaIds(s.db.pixels) && Indexed(env.digest, s.meta)
  }

  /** run[0], run[1], ... are the states that the steps pass through. */
  ghost predicate IsRun(env: Env, run: seq<State>, steps: seq<Step>) {
    && |run| == |steps| + 1
    && Init(env, run[0])
    && forall i :: 0 <= i < |steps| ==> Enabled(run[i], steps[i]) && run[i + 1] == Apply(env, run[i], steps[i])
  }
}
