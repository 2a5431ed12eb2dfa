/** A run in which two requests share a key and ask for different tags: both are answered 201,
    and the second answer names a tag that the database does not hold. */
module DiscardWitness {
  import opened Prelude
  import opened Domain
  import opened Requests
  import opened MetaAdapter
  import opened Hub
  import opened Serial
  import OAuth
  import Pixels

  const ACCOUNT := "act_42"
  const ADVERTISER := "advertiser"
  const PIXEL := "pixel"
  const META_PIXEL := "pix_aaa"

  function World(env: Env): Db {
    Db(map[ADVERTISER := Advertiser(Some(ACCOUNT))],
       map[PIXEL := Pixels.Pixel(ADVERTISER, META_PIXEL, "", "ACTIVE")],
       map[],
       map[(ADVERTISER, OAuth.META_PROVIDER) := OAuth.TokenRow(env.oauth.encrypt("token"), None, OAuth.DEFAULT_TTL, None)],
       map[])
  }

  function MetaWorld(): MetaState {
    MetaState(map[ACCOUNT := [MetaPixel(META_PIXEL, "", "ACTIVE")]], map[], map[])
  }

  function InputFor(name: string): Input {
    Input(ADVERTISER, Payload(PIXEL, Columns(name, "Lead", "lead", None, None, None)), Some("key"))
  }

  function Tick(tagId: Uuid): Choice {
    Choice(tagId, 0, Answered)
  }

  /** The tables of the witness, with whatever tags and records. */
  predicate Familiar(env: Env, s: State) {
    && s.db.advertisers == World(env).advertisers
    && s.db.pixels == World(env).pixels
    && s.db.tokens == World(env).tokens
    && s.meta.pixels == MetaWorld().pixels
  }

  ghost predicate Unused(db: Db, name: string, tagId: Uuid) {
    tagId !in db.tags && forall id :: id in db.tags ==> !SameName(db.tags[id], ADVERTISER, name)
  }

  /** The statements of a request in these tables, one by one. */
  lemma Statements(env: Env, db: Db, r: Request, name: string, tagId: Uuid)
    requires db.advertisers == World(env).advertisers && db.pixels == World(env).pixels && Unused(db, name, tagId)
    requires r.input == InputFor(name)
    ensures env.LoadAdvertiser(db, r) == r.(account := ACCOUNT, stage := AtPixel)
    ensures env.LoadPixel(db, r) == r.(metaPixel := META_PIXEL, stage := AtName)
    ensures env.LookUpName(db, r) == r.(stage := AtInsert)
    ensures env.InsertTag(db, r, tagId) == r.(writes := r.writes.(tag := Some((tagId, NewTag(r.input)))), stage := AtToken)
  {
  }

  lemma TokenIsFresh(env: Env, db: Db, r: Request)
    requires env.oauth.Valid() && db.tokens == World(env).tokens && r.input.advertiser == ADVERTISER
    ensures env.FetchToken(db, r, 0) == r.(stage := AtMeta)
  {
    assert env.oauth.decrypt(env.oauth.encrypt("token")) == Ok("token");
  }

  /** The request after its first statements. */
  function AfterLoading(name: string, tagId: Uuid, n: nat): Request {
    match n
    case 0 => Request(InputFor(name), AtAdvertiser, "", "", NO_WRITES)
    case 1 => Request(InputFor(name), AtPixel, ACCOUNT, "", NO_WRITES)
    case 2 => Request(InputFor(name), AtName, ACCOUNT, META_PIXEL, NO_WRITES)
    case 3 => Request(InputFor(name), AtInsert, ACCOUNT, META_PIXEL, NO_WRITES)
    case 4 => Request(InputFor(name), AtToken, ACCOUNT, META_PIXEL, NO_WRITES.(tag := Some((tagId, NewTag(InputFor(name))))))
    case _ => Request(InputFor(name), AtMeta, ACCOUNT, META_PIXEL, NO_WRITES.(tag := Some((tagId, NewTag(InputFor(name))))))
  }

  lemma LoadingStep(env: Env, s: State, name: string, tagId: Uuid, n: nat)
    requires n < 5 && env.oauth.Valid() && Familiar(env, s) && Unused(s.db, name, tagId)
    ensures Live(AfterLoading(name, tagId, n)) && !AfterLoading(name, tagId, n).stage.AtCommit?
    ensures env.Advance(s.db, s.meta, AfterLoading(name, tagId, n), Tick(tagId)) == (s.meta, AfterLoading(name, tagId, n + 1))
  {
    Statements(env, s.db, AfterLoading(name, tagId, n), name, tagId);
    TokenIsFresh(env, s.db, AfterLoading(name, tagId, n));
  }

  lemma {:induction false} Load(env: Env, run: seq<State>, steps: seq<Step>, s: State, rid: nat, name: string, tagId: Uuid, n: nat)
    returns (run': seq<State>, steps': seq<Step>)
    requires n <= 5 && IsRun(env, run, steps) && Alone(s, rid) && env.oauth.Valid()
    requires Familiar(env, s) && Unused(s.db, name, tagId)
    requires Last(run) == With(s, rid, AfterLoading(name, tagId, 0))
    ensures IsRun(env, run', steps') && Last(run') == With(s, rid, AfterLoading(name, tagId, n))
  {
    if n == 0 {
      run', steps' := run, steps;
    } else {
      run', steps' := Load(env, run, steps, s, rid, name, tagId, n - 1);
      LoadingStep(env, s, name, tagId, n - 1);
      run', steps' := Next(env, run', steps', s, rid, Tick(tagId), AfterLoading(name, tagId, n - 1),
                           s.meta, AfterLoading(name, tagId, n));
    }
  }

  /** The request has its tag, activated, and only the response left to store. */
  predicate ReadyToStore(r: Request, name: string, tagId: Uuid) {
    && r.input == InputFor(name) && r.stage.AtStore? && r.stage.out.id == tagId
    && r.writes.tag.Some? && r.writes == NO_WRITES.(tag := r.writes.tag)
    && r.writes.tag.value.0 == tagId && SameName(r.writes.tag.value.1, ADVERTISER, name)
  }

  lemma MetaActivates(env: Env, s: State, name: string, tagId: Uuid) returns (meta: MetaState, r: Request)
    requires s.meta.pixels == MetaWorld().pixels
    ensures env.Advance(s.db, s.meta, AfterLoading(name, tagId, 5), Tick(tagId)) == (meta, r)
    ensures meta.pixels == s.meta.pixels && ReadyToStore(r, name, tagId)
  {
    assert PixelsOf(s.meta, ACCOUNT)[0].id == META_PIXEL;
    meta := env.CallMeta(s.meta, AfterLoading(name, tagId, 5), Answered).0;
    r := env.CallMeta(s.meta, AfterLoading(name, tagId, 5), Answered).1;
  }

  lemma Activate(env: Env, run: seq<State>, steps: seq<Step>, s: State, rid: nat, name: string, tagId: Uuid, loaded: Request)
    returns (run': seq<State>, steps': seq<Step>, meta: MetaState, r: Request)
    requires IsRun(env, run, steps) && Alone(s, rid) && Last(run) == With(s, rid, loaded)
    requires s.meta.pixels == MetaWorld().pixels && loaded == AfterLoading(name, tagId, 5)
    ensures IsRun(env, run', steps') && Last(run') == With(s.(meta := meta), rid, r)
    ensures meta.pixels == s.meta.pixels && ReadyToStore(r, name, tagId)
  {
    meta, r := MetaActivates(env, s, name, tagId);
    run', steps' := Next(env, run, steps, s, rid, Tick(tagId), loaded, meta, r);
  }

  lemma UpToStore(env: Env, run: seq<State>, steps: seq<Step>, s: State, rid: nat, name: string, tagId: Uuid, n: nat)
    returns (run': seq<State>, steps': seq<Step>, meta: MetaState, r: Request)
    requires IsRun(env, run, steps) && Alone(s, rid) && env.oauth.Valid() && n == 5
    requires Familiar(env, s) && Unused(s.db, name, tagId)
    requires Last(run) == With(s, rid, AfterLoading(name, tagId, 0))
    ensures IsRun(env, run', steps') && Last(run') == With(s.(meta := meta), rid, r)
    ensures meta.pixels == s.meta.pixels && ReadyToStore(r, name, tagId)
  {
    run', steps' := Load(env, run, steps, s, rid, name, tagId, n);
    run', steps', meta, r := Activate(env, run', steps', s, rid, name, tagId, AfterLoading(name, tagId, n));
  }

  /** Storing and committing: the winner's tag and record are there. */
  lemma Finish(env: Env, run: seq<State>, steps: seq<Step>, s: State, rid: nat, r: Request, name: string, tagId: Uuid)
    returns (run': seq<State>, steps': seq<Step>)
    requires IsRun(env, run, steps) && Alone(s, rid) && Last(run) == With(s, rid, r) && ReadyToStore(r, name, tagId)
    ensures IsRun(env, run', steps')
    ensures var s' := Last(run');
            && s'.requests == s.requests[rid := r.(writes := NO_WRITES, stage := Done(Created(r.stage.out)))]
            && s'.meta == s.meta
            && s'.db == (if (ENDPOINT, "key") in s.db.records then s.db
                         else Commit(s.db, r.writes.(record := Some(((ENDPOINT, "key"), env.RecordOf(r, r.stage.out))))))
  {
    var r1 := env.StoreRecord(s.db, r, r.stage.out);
    run', steps' := Next(env, run, steps, s, rid, Tick(tagId), r, s.meta, r1);
    assert Alone(Last(run'), rid);
    run', steps' := Extend(env, run', steps', Move(rid, Tick(tagId)));
    assert Commit(s.db, NO_WRITES) == s.db;
  }

  /** The two requests in the tables of the witness. */
  function Both(env: Env, r1: Request, r2: Request): State {
    State(World(env), MetaWorld(), map[1 := r1, 2 := r2])
  }

  lemma BothWith(env: Env, r1: Request, r2: Request, r: Request)
    ensures With(Both(env, r1, r2), 1, r) == Both(env, r, r2)
    ensures With(Both(env, r1, r2), 2, r) == Both(env, r1, r)
    ensures Both(env, r1, r2) == With(Both(env, r1, r2), 1, r1) == With(Both(env, r1, r2), 2, r2)
    ensures r2.writes == NO_WRITES ==> Alone(Both(env, r1, r2), 1)
    ensures r1.writes == NO_WRITES ==> Alone(Both(env, r1, r2), 2)
  {
  }

  lemma Arrivals(env: Env, other: string) returns (run: seq<State>, steps: seq<Step>)
    ensures IsRun(env, run, steps)
    ensures Last(run) == Both(env, NewRequest(InputFor("A")), NewRequest(InputFor(other)))
  {
    run, steps := [State(World(env), MetaWorld(), map[])], [];
    run, steps := Extend(env, run, steps, Arrive(1, InputFor("A")));
    run, steps := Extend(env, run, steps, Arrive(2, InputFor(other)));
  }

  lemma FirstLookUp(env: Env, db: Db, meta: MetaState, name: string, tagId: Uuid)
    requires db.records == map[]
    ensures env.Advance(db, meta, NewRequest(InputFor(name)), Tick(tagId)) == (meta, AfterLoading(name, tagId, 0))
  {
  }

  lemma OneLooksUp(env: Env, other: string) returns (run: seq<State>, steps: seq<Step>)
    ensures IsRun(env, run, steps)
    ensures Last(run) == Both(env, AfterLoading("A", "tag-1", 0), NewRequest(InputFor(other)))
  {
    var r1, r2, r := NewRequest(InputFor("A")), NewRequest(InputFor(other)), AfterLoading("A", "tag-1", 0);
    run, steps := Arrivals(env, other);
    FirstLookUp(env, World(env), MetaWorld(), "A", "tag-1");
    BothWith(env, r1, r2, r);
    run, steps := Next(env, run, steps, Both(env, r1, r2), 1, Tick("tag-1"), r1, MetaWorld(), r);
  }

  /** Both requests look the key up before either has recorded it. */
  lemma Start(env: Env, other: string) returns (run: seq<State>, steps: seq<Step>)
    ensures IsRun(env, run, steps)
    ensures Last(run) == Both(env, AfterLoading("A", "tag-1", 0), AfterLoading(other, "tag-2", 0))
  {
    var r1, r2, r := AfterLoading("A", "tag-1", 0), NewRequest(InputFor(other)), AfterLoading(other, "tag-2", 0);
    run, steps := OneLooksUp(env, other);
    FirstLookUp(env, World(env), MetaWorld(), other, "tag-2");
    BothWith(env, r1, r2, r);
    run, steps := Next(env, run, steps, Both(env, r1, r2), 2, Tick("tag-2"), r2, MetaWorld(), r);
  }

  lemma WinnerIsReady(env: Env) returns (run: seq<State>, steps: seq<Step>, s: State, r: Request)
    requires env.oauth.Valid()
    ensures IsRun(env, run, steps) && Last(run) == With(s, 1, r) && ReadyToStore(r, "A", "tag-1")
    ensures s.db == World(env) && Familiar(env, s) && s.requests == map[1 := AfterLoading("A", "tag-1", 0), 2 := AfterLoading("B", "tag-2", 0)]
  {
    run, steps := Start(env, "B");
    s := Last(run);
    var meta;
    run, steps, meta, r := UpToStore(env, run, steps, s, 1, "A", "tag-1", 5);
    s := s.(meta := meta);
  }

  /** Where the winner leaves the loser. */
  ghost predicate WinnerDone(env: Env, s: State) {
    && Familiar(env, s)
    && s.db.tags.Keys == {"tag-1"} && SameName(s.db.tags["tag-1"], ADVERTISER, "A")
    && (ENDPOINT, "key") in s.db.records
    && s.requests.Keys == {1, 2} && s.requests[2] == AfterLoading("B", "tag-2", 0)
    && s.requests[1].input == InputFor("A") && s.requests[1].writes == NO_WRITES
    && s.requests[1].stage.Done? && s.requests[1].stage.outcome.Created?
    && s.requests[1].stage.outcome.body.id == "tag-1"
  }

  /** The first request runs to its end. */
  lemma WinnerFinishes(env: Env) returns (run: seq<State>, steps: seq<Step>)
    requires env.oauth.Valid()
    ensures IsRun(env, run, steps) && WinnerDone(env, Last(run))
  {
    var s, r;
    run, steps, s, r := WinnerIsReady(env);
    run, steps := Finish(env, run, steps, s, 1, r, "A", "tag-1");
    WinnerWins(env, s, Last(run), r);
  }

  lemma WinnerWins(env: Env, s: State, s': State, r: Request)
    requires ReadyToStore(r, "A", "tag-1") && s.db == World(env) && Familiar(env, s) && s'.meta == s.meta
    requires s.requests == map[1 := AfterLoading("A", "tag-1", 0), 2 := AfterLoading("B", "tag-2", 0)]
    requires s'.requests == s.requests[1 := r.(writes := NO_WRITES, stage := Done(Created(r.stage.out)))]
    requires s'.db == Commit(s.db, r.writes.(record := Some(((ENDPOINT, "key"), env.RecordOf(r, r.stage.out)))))
    ensures WinnerDone(env, s')
  {
  }

  lemma LoserIsUnused(env: Env, s: State)
    requires WinnerDone(env, s)
    ensures Unused(s.db, "B", "tag-2") && Alone(s, 2) && s == With(s, 2, AfterLoading("B", "tag-2", 0))
  {
    assert "A"[0] != "B"[0] && "tag-1"[4] != "tag-2"[4];
    assert s.requests[2 := AfterLoading("B", "tag-2", 0)] == s.requests;
  }

  lemma LoserFinishes(env: Env, run: seq<State>, steps: seq<Step>, s: State) returns (run': seq<State>, steps': seq<Step>)
    requires env.oauth.Valid() && IsRun(env, run, steps) && s == Last(run) && WinnerDone(env, s)
    ensures IsRun(env, run', steps')
    ensures var s' := Last(run');
            && s'.db == s.db && s'.requests.Keys == {1, 2} && s'.requests[1] == s.requests[1]
            && s'.requests[2].input == InputFor("B")
            && s'.requests[2].stage.Done? && s'.requests[2].stage.outcome.Created?
            && s'.requests[2].stage.outcome.body.id == "tag-2"
  {
    LoserIsUnused(env, s);
    var meta, r;
    run', steps', meta, r := UpToStore(env, run, steps, s, 2, "B", "tag-2", 5);
    run', steps' := Finish(env, run', steps', s.(meta := meta), 2, r, "B", "tag-2");
  }

  /** Two requests, one key, two names; the second loses and does not learn it. */
  lemma LoserIsToldCreated(env: Env) returns (run: seq<State>, steps: seq<Step>)
    requires env.oauth.Valid()
    ensures IsRun(env, run, steps)
    ensures var s := Last(run);
            && 1 in s.requests && 2 in s.requests
            && KeyOf(s.requests[1].input) == KeyOf(s.requests[2].input) == Some("key")
            && s.requests[1].stage.Done? && s.requests[1].stage.outcome.Created?
            && s.requests[2].stage.Done? && s.requests[2].stage.outcome.Created?
            && s.requests[1].stage.outcome.body.id in s.db.tags
            && s.requests[2].stage.outcome.body.id !in s.db.tags
  {
    run, steps := WinnerFinishes(env);
    assert "key" != "" && "tag-1"[4] != "tag-2"[4];
    run, steps := LoserFinishes(env, run, steps, Last(run));
  }
}
